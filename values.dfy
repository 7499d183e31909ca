/**
 * JavaScript values as the tool sees them after parsing YAML or JSON, or as a
 * patch function returns them. Objects keep their own enumerable properties in
 * the order `Object.entries` lists them; property names are unique.
 */
module JsValues {
  import opened Common
  import Strings

  datatype Value =
    | Undefined
    | Null
    | Bool(b: bool)
    | Num(n: int)
    | Str(s: string)
    | Sym(description: Option<string>)
    | BigInt(i: int)
    | Func
    | Arr(items: seq<Value>)
    | Obj(fields: seq<Field>)

  datatype Field = Field(key: string, val: Value)

  /** `Boolean(v)` in JavaScript. */
  predicate Truthy(v: Value) {
    match v
    case Undefined => false
    case Null => false
    case Bool(b) => b
    case Num(n) => n != 0
    case Str(s) => s != ""
    case BigInt(i) => i != 0
    case _ => true
  }

  /** `typeof v === "object" && v !== null`: arrays and plain objects. */
  predicate IsObjectLike(v: Value) {
    v.Arr? || v.Obj?
  }

  /** An object that is not an array. */
  predicate IsPlainObject(v: Value) {
    v.Obj?
  }

  function Keys(fs: seq<Field>): (ks: seq<string>)
    ensures |ks| == |fs|
    ensures forall i :: 0 <= i < |fs| ==> ks[i] == fs[i].key
  {
    if fs == [] then [] else [fs[0].key] + Keys(fs[1..])
  }

  predicate Has(fs: seq<Field>, k: string) {
    k in Keys(fs)
  }

  predicate UniqueKeys(fs: seq<Field>) {
    forall i, j :: 0 <= i < j < |fs| ==> fs[i].key != fs[j].key
  }

  /** A property read `obj[k]`: the value of the property, or undefined when there is none. */
  function Get(fs: seq<Field>, k: string): (v: Value)
    ensures !Has(fs, k) ==> v == Undefined
  {
    if fs == [] then Undefined
    else if fs[0].key == k then fs[0].val
    else Get(fs[1..], k)
  }

  lemma HasSnoc(fs: seq<Field>, f: Field, k: string)
    ensures Has(fs + [f], k) <==> Has(fs, k) || f.key == k
  {
    assert Keys(fs + [f]) == Keys(fs) + [f.key];
  }

  /** In an object with unique keys, the last key occurs nowhere before it. */
  lemma LastKeyUnique(fs: seq<Field>)
    requires fs != [] && UniqueKeys(fs)
    ensures UniqueKeys(fs[..|fs| - 1]) && !Has(fs[..|fs| - 1], fs[|fs| - 1].key)
  {
    var pre := fs[..|fs| - 1];
    assert forall i :: 0 <= i < |pre| ==> Keys(pre)[i] == fs[i].key;
  }

  /** A property that is present is read from some entry holding its key. */
  lemma {:induction false} GetFound(fs: seq<Field>, k: string)
    requires Has(fs, k)
    ensures exists i :: 0 <= i < |fs| && fs[i].key == k && fs[i].val == Get(fs, k)
  {
    if fs[0].key != k {
      assert Keys(fs) == [fs[0].key] + Keys(fs[1..]);
      GetFound(fs[1..], k);
      var i :| 0 <= i < |fs[1..]| && fs[1..][i].key == k && fs[1..][i].val == Get(fs[1..], k);
      assert fs[i + 1] == fs[1..][i];
    }
  }

  lemma {:induction false} GetAt(fs: seq<Field>, i: nat)
    requires UniqueKeys(fs) && i < |fs|
    ensures Get(fs, fs[i].key) == fs[i].val
  {
    if i > 0 {
      assert fs[1..][i - 1] == fs[i];
      GetAt(fs[1..], i - 1);
    }
  }

  /**
   * A property assignment `obj[k] = v`: an existing property keeps its place and
   * takes the new value; a new property is added after all the others.
   */
  function SetField(fs: seq<Field>, k: string, v: Value): (r: seq<Field>)
  {
    if fs == [] then [Field(k, v)]
    else if fs[0].key == k then [Field(k, v)] + fs[1..]
    else [fs[0]] + SetField(fs[1..], k, v)
  }

  /** After `obj[k] = v`, reading `k` gives `v` and every other property reads as before. */
  lemma {:induction false} GetSetField(fs: seq<Field>, k: string, v: Value, k': string)
    ensures Get(SetField(fs, k, v), k') == if k' == k then v else Get(fs, k')
  {
    if fs != [] && fs[0].key != k {
      var r := SetField(fs, k, v);
      assert r == [fs[0]] + SetField(fs[1..], k, v);
      assert r[1..] == SetField(fs[1..], k, v);
      GetSetField(fs[1..], k, v, k');
    }
  }

  lemma {:induction false} SetFieldKeys(fs: seq<Field>, k: string, v: Value)
    ensures Has(fs, k) ==> Keys(SetField(fs, k, v)) == Keys(fs)
    ensures !Has(fs, k) ==> Keys(SetField(fs, k, v)) == Keys(fs) + [k]
  {
    if fs == [] {
    } else if fs[0].key == k {
      var r := SetField(fs, k, v);
      assert r == [Field(k, v)] + fs[1..];
      assert Keys(r) == [k] + Keys(fs[1..]);
      assert Keys(fs) == [k] + Keys(fs[1..]);
    } else {
      var rest := SetField(fs[1..], k, v);
      SetFieldKeys(fs[1..], k, v);
      assert SetField(fs, k, v) == [fs[0]] + rest;
      assert Keys([fs[0]] + rest) == [fs[0].key] + Keys(rest);
      assert Keys(fs) == [fs[0].key] + Keys(fs[1..]);
      assert Has(fs, k) <==> Has(fs[1..], k);
      if !Has(fs, k) {
        assert [fs[0].key] + (Keys(fs[1..]) + [k]) == ([fs[0].key] + Keys(fs[1..])) + [k];
      }
    }
  }

  lemma {:induction false} SetFieldUnique(fs: seq<Field>, k: string, v: Value)
    requires UniqueKeys(fs)
    ensures UniqueKeys(SetField(fs, k, v))
  {
    var r := SetField(fs, k, v);
    SetFieldKeys(fs, k, v);
    var ks, rks := Keys(fs), Keys(r);
    if Has(fs, k) {
      forall i, j | 0 <= i < j < |r| ensures r[i].key != r[j].key {
        assert rks[i] == ks[i] && rks[j] == ks[j];
      }
    } else {
      forall i, j | 0 <= i < j < |r| ensures r[i].key != r[j].key {
        assert rks[i] == r[i].key && rks[j] == r[j].key;
        if j == |fs| {
          assert rks[j] == k;
          assert ks[i] == rks[i];
        } else {
          assert rks[i] == ks[i] && rks[j] == ks[j];
        }
      }
    }
  }

  /** Assigning an existing property replaces it where it stands. */
  lemma {:induction false} SetFieldAtIndex(fs: seq<Field>, j: nat, v: Value)
    requires UniqueKeys(fs) && j < |fs|
    ensures SetField(fs, fs[j].key, v) == fs[j := Field(fs[j].key, v)]
  {
    var k := fs[j].key;
    if j > 0 {
      var tail := fs[1..];
      assert fs[0].key != k;
      assert SetField(fs, k, v) == [fs[0]] + SetField(tail, k, v);
      assert tail[j - 1] == fs[j];
      assert UniqueKeys(tail) by {
        forall a, b | 0 <= a < b < |tail| ensures tail[a].key != tail[b].key {
          assert tail[a] == fs[a + 1] && tail[b] == fs[b + 1];
        }
      }
      SetFieldAtIndex(tail, j - 1, v);
      var r := [fs[0]] + tail[j - 1 := Field(k, v)];
      assert |r| == |fs|;
      assert forall i :: 0 <= i < |fs| ==> r[i] == fs[j := Field(k, v)][i];
    }
  }

  /** Assigning a new property appends it. */
  lemma {:induction false} SetFieldAbsent(fs: seq<Field>, k: string, v: Value)
    requires !Has(fs, k)
    ensures SetField(fs, k, v) == fs + [Field(k, v)]
  {
    if fs != [] {
      var tail := fs[1..];
      assert Keys(fs) == [fs[0].key] + Keys(tail);
      assert fs[0].key != k && !Has(tail, k);
      assert SetField(fs, k, v) == [fs[0]] + SetField(tail, k, v);
      SetFieldAbsent(tail, k, v);
      assert [fs[0]] + (tail + [Field(k, v)]) == fs + [Field(k, v)];
    }
  }

  /** Object spread `{...base, ...extra}`: the properties of `extra` assigned in turn onto `base`. */
  function Spread(base: seq<Field>, extra: seq<Field>): (r: seq<Field>)
    decreases |extra|
  {
    if extra == [] then base
    else Spread(SetField(base, extra[0].key, extra[0].val), extra[1..])
  }

  /** The properties left after `const { a, b, ...rest } = obj`. */
  function Without(fs: seq<Field>, ks: set<string>): (r: seq<Field>)
    ensures forall k :: k !in ks ==> Get(r, k) == Get(fs, k)
    ensures forall k :: k in ks ==> !Has(r, k)
  {
    if fs == [] then []
    else if fs[0].key in ks then Without(fs[1..], ks)
    else [fs[0]] + Without(fs[1..], ks)
  }

  /** `Object.entries(v)` for an array: its indices as property names. */
  function IndexedFields(items: seq<Value>, from: nat): (r: seq<Field>)
    ensures |r| == |items|
    ensures forall i :: 0 <= i < |items| ==> r[i].val == items[i]
    decreases |items|
  {
    if items == [] then []
    else [Field(Strings.NatToString(from), items[0])] + IndexedFields(items[1..], from + 1)
  }

  /** A size measure for recursion over nested values. */
  function Size(v: Value): (n: nat)
    ensures n >= 1
  {
    match v
    case Arr(items) => 1 + SizeItems(items)
    case Obj(fs) => 1 + SizeFields(fs)
    case _ => 1
  }

  function SizeItems(items: seq<Value>): nat {
    if items == [] then 0 else Size(items[0]) + SizeItems(items[1..])
  }

  function SizeFields(fs: seq<Field>): nat {
    if fs == [] then 0 else Size(fs[0].val) + SizeFields(fs[1..])
  }

  lemma {:induction false} SizeFieldsOfIndexed(items: seq<Value>, from: nat)
    ensures SizeFields(IndexedFields(items, from)) == SizeItems(items)
    decreases |items|
  {
    if items != [] {
      SizeFieldsOfIndexed(items[1..], from + 1);
    }
  }

  lemma {:induction false} SizeFieldsAt(fs: seq<Field>, i: nat)
    requires i < |fs|
    ensures Size(fs[i].val) <= SizeFields(fs)
  {
    if i > 0 {
      assert fs[1..][i - 1] == fs[i];
      SizeFieldsAt(fs[1..], i - 1);
    }
  }

  lemma {:induction false} SizeFieldsAppend(a: seq<Field>, b: seq<Field>)
    ensures SizeFields(a + b) == SizeFields(a) + SizeFields(b)
  {
    if a != [] {
      assert (a + b)[1..] == a[1..] + b;
      SizeFieldsAppend(a[1..], b);
    } else {
      assert a + b == b;
    }
  }

  /** The size of an object's properties splits off its last property. */
  lemma SizeFieldsLast(fs: seq<Field>)
    requires fs != []
    ensures SizeFields(fs) == SizeFields(fs[..|fs| - 1]) + Size(fs[|fs| - 1].val)
  {
    assert fs == fs[..|fs| - 1] + [fs[|fs| - 1]];
    SizeFieldsAppend(fs[..|fs| - 1], [fs[|fs| - 1]]);
  }

  /** A property's value is no larger than all the properties together. */
  lemma {:induction false} SizeOfGet(fs: seq<Field>, k: string)
    requires Has(fs, k)
    ensures Size(Get(fs, k)) <= SizeFields(fs)
  {
    if fs[0].key != k {
      assert Keys(fs) == [fs[0].key] + Keys(fs[1..]);
      SizeOfGet(fs[1..], k);
    }
  }

  /** Reading a property after a spread: the spread-in value wins when it has the key. */
  lemma {:induction false} GetSpread(base: seq<Field>, extra: seq<Field>, k: string)
    requires UniqueKeys(extra)
    ensures Get(Spread(base, extra), k) == if Has(extra, k) then Get(extra, k) else Get(base, k)
    decreases |extra|
  {
    if extra != [] {
      var rest := extra[1..];
      assert UniqueKeys(rest) by {
        forall a, b | 0 <= a < b < |rest| ensures rest[a].key != rest[b].key {
          assert rest[a] == extra[a + 1] && rest[b] == extra[b + 1];
        }
      }
      assert Keys(extra) == [extra[0].key] + Keys(rest);
      GetSpread(SetField(base, extra[0].key, extra[0].val), rest, k);
      GetSetField(base, extra[0].key, extra[0].val, k);
      if Has(rest, k) {
        var i :| 0 <= i < |rest| && Keys(rest)[i] == k;
        assert extra[i + 1].key == k;
      }
    }
  }

  /** Every object nested anywhere in `v` has unique property names, as JavaScript objects do. */
  predicate WellFormed(v: Value)
    decreases Size(v), 0
  {
    match v
    case Arr(items) => WellFormedItems(items)
    case Obj(fs) => UniqueKeys(fs) && WellFormedFields(fs)
    case _ => true
  }

  predicate WellFormedItems(items: seq<Value>)
    decreases SizeItems(items), 1
  {
    items == [] || (WellFormed(items[0]) && WellFormedItems(items[1..]))
  }

  predicate WellFormedFields(fs: seq<Field>)
    decreases SizeFields(fs), 1
  {
    fs == [] || (WellFormed(fs[0].val) && WellFormedFields(fs[1..]))
  }
}
