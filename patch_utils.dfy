/**
 * `deepMerge(target, ...sources)`: merges each source into the target object in
 * place and returns the target.
 *
 * The meaning of a merge is first given on values (`MergeInto`, `DeepMergeAll`)
 * and characterised property by property (`MergeFieldsGet`). The class
 * `JsObject` then models the target as a tree of mutable objects on the heap,
 * and its methods are proved to change the tree exactly as the value
 * specification says.
 */
module PatchUtils {
  import opened Common
  import opened JsValues

  /** `isMergebleObject`: a non-null object that is not an array. */
  predicate IsMergeable(v: Value) {
    IsObjectLike(v) && !v.Arr?
  }

  // ---------------------------------------------------------------------------
  // The merge on values.

  /** The effect of merging one source into one target: only objects merge; anything else leaves the target as it is. */
  function MergeOne(t: Value, s: Value): Value
    decreases Size(s), 0
  {
    if IsMergeable(t) && IsMergeable(s) then Obj(MergeFields(t.fields, s.fields)) else t
  }

  /** The properties of an object target after merging a source object's properties into it, in `Object.keys` order. */
  function MergeFields(t: seq<Field>, src: seq<Field>): seq<Field>
    decreases SizeFields(src), 2
  {
    if src == [] then t
    else
      var last := src[|src| - 1];
      SizeFieldsLast(src);
      MergeField(MergeFields(t, src[..|src| - 1]), last.key, last.val)
  }

  /**
   * One step of the `forEach` over the source's keys: an object source value is
   * merged into the target slot (a falsy slot first becomes `{}`); any other
   * source value overwrites the slot.
   */
  function MergeField(t: seq<Field>, k: string, sv: Value): seq<Field>
    decreases Size(sv), 1
  {
    if IsMergeable(sv) then
      var t1 := if !Truthy(Get(t, k)) then SetField(t, k, Obj([])) else t;
      var slot := Get(t1, k);
      if IsMergeable(slot) then SetField(t1, k, MergeOne(slot, sv)) else t1
    else SetField(t, k, sv)
  }

  /** The properties of an object target after `deepMerge(target, source)`. */
  function MergeInto(t: seq<Field>, s: Value): seq<Field> {
    if IsMergeable(s) then MergeFields(t, s.fields) else t
  }

  /**
   * `deepMerge(target, ...sources)` on values: sources apply left to right,
   * an `undefined` source ends the merge, and a non-object target is returned as it is.
   */
  function DeepMergeAll(t: Value, sources: seq<Value>): (r: Value)
    decreases |sources|
    ensures !IsMergeable(t) ==> r == t
    ensures IsMergeable(t) ==> IsMergeable(r)
  {
    if sources == [] || sources[0].Undefined? then t
    else DeepMergeAll(MergeOne(t, sources[0]), sources[1..])
  }

  // ---------------------------------------------------------------------------
  // Properties of the value merge.

  /** The value a single target slot ends up with when the source carries `sv` for its key. */
  function MergedSlot(slot: Value, sv: Value): Value {
    if !IsMergeable(sv) then sv
    else if !Truthy(slot) then MergeOne(Obj([]), sv)
    else if IsMergeable(slot) then MergeOne(slot, sv)
    else slot
  }

  lemma MergeFieldGet(t: seq<Field>, k: string, sv: Value, k': string)
    ensures Get(MergeField(t, k, sv), k') == if k' == k then MergedSlot(Get(t, k), sv) else Get(t, k')
  {
    if IsMergeable(sv) {
      var t1 := if !Truthy(Get(t, k)) then SetField(t, k, Obj([])) else t;
      if !Truthy(Get(t, k)) {
        GetSetField(t, k, Obj([]), k);
        GetSetField(t, k, Obj([]), k');
      }
      var slot := Get(t1, k);
      if IsMergeable(slot) {
        GetSetField(t1, k, MergeOne(slot, sv), k');
      }
    } else {
      GetSetField(t, k, sv, k');
    }
  }

  /**
   * Property by property, merging a source object with unique keys: a key the
   * source lacks keeps its target value; a key it has takes `MergedSlot`.
   */
  lemma {:induction false} MergeFieldsGet(t: seq<Field>, src: seq<Field>, k: string)
    requires UniqueKeys(src)
    ensures Get(MergeFields(t, src), k) ==
      if Has(src, k) then MergedSlot(Get(t, k), Get(src, k)) else Get(t, k)
    decreases |src|
  {
    if src != [] {
      var n := |src| - 1;
      var pre, last := src[..n], src[n];
      assert src == pre + [last];
      LastKeyUnique(src);
      MergeFieldsGet(t, pre, k);
      MergeFieldGet(MergeFields(t, pre), last.key, last.val, k);
      HasSnoc(pre, last, k);
      if last.key == k {
        GetLast(src);
      } else if Has(pre, k) {
        GetPrefix(src, k);
      }
    }
  }

  lemma GetLast(fs: seq<Field>)
    requires fs != [] && UniqueKeys(fs)
    ensures Get(fs, fs[|fs| - 1].key) == fs[|fs| - 1].val
  {
    GetAt(fs, |fs| - 1);
  }

  lemma {:induction false} GetPrefix(fs: seq<Field>, k: string)
    requires fs != [] && fs[|fs| - 1].key != k
    ensures Get(fs, k) == Get(fs[..|fs| - 1], k)
  {
    var pre := fs[..|fs| - 1];
    assert fs == pre + [fs[|fs| - 1]];
    AppendOtherKey(pre, fs[|fs| - 1], k);
  }

  lemma {:induction false} AppendOtherKey(fs: seq<Field>, f: Field, k: string)
    requires k != f.key
    ensures Get(fs + [f], k) == Get(fs, k)
  {
    if fs != [] {
      assert (fs + [f])[1..] == fs[1..] + [f];
      AppendOtherKey(fs[1..], f, k);
    }
  }

  /** A non-object source value replaces the target slot, whatever was there. */
  lemma OverwriteNonMergeable(t: seq<Field>, src: seq<Field>, k: string)
    requires UniqueKeys(src) && Has(src, k) && !IsMergeable(Get(src, k))
    ensures Get(MergeFields(t, src), k) == Get(src, k)
  {
    MergeFieldsGet(t, src, k);
  }

  /** Target properties the source does not mention are left as they are. */
  lemma AbsentKeysUnchanged(t: seq<Field>, src: seq<Field>, k: string)
    requires UniqueKeys(src) && !Has(src, k)
    ensures Get(MergeFields(t, src), k) == Get(t, k)
  {
    MergeFieldsGet(t, src, k);
  }

  /** An object source value is merged into an object slot, and into `{}` when the slot is falsy. */
  lemma NestedObjectsMerge(t: seq<Field>, src: seq<Field>, k: string)
    requires UniqueKeys(src) && Has(src, k) && IsMergeable(Get(src, k))
    requires IsMergeable(Get(t, k)) || !Truthy(Get(t, k))
    ensures IsMergeable(Get(t, k)) ==>
      Get(MergeFields(t, src), k) == Obj(MergeFields(Get(t, k).fields, Get(src, k).fields))
    ensures !Truthy(Get(t, k)) ==>
      Get(MergeFields(t, src), k) == Obj(MergeFields([], Get(src, k).fields))
  {
    MergeFieldsGet(t, src, k);
  }

  /** An object source value landing on a truthy primitive or array slot leaves the slot unchanged. */
  lemma NonMergeableSlotKept(t: seq<Field>, src: seq<Field>, k: string)
    requires UniqueKeys(src) && Has(src, k) && IsMergeable(Get(src, k))
    requires Truthy(Get(t, k)) && !IsMergeable(Get(t, k))
    ensures Get(MergeFields(t, src), k) == Get(t, k)
  {
    MergeFieldsGet(t, src, k);
  }

  /** Merging the sources `a` then `b` is merging `a + b`, as long as `a` holds no `undefined`. */
  lemma {:induction false} DeepMergeAllAppend(t: Value, a: seq<Value>, b: seq<Value>)
    requires forall i :: 0 <= i < |a| ==> !a[i].Undefined?
    ensures DeepMergeAll(t, a + b) == DeepMergeAll(DeepMergeAll(t, a), b)
    decreases |a|
  {
    if a != [] {
      assert (a + b)[0] == a[0];
      assert (a + b)[1..] == a[1..] + b;
      DeepMergeAllAppend(MergeOne(t, a[0]), a[1..], b);
    } else {
      assert a + b == b;
    }
  }

  /** An `undefined` source stops the merge: the sources after it are never looked at. */
  lemma {:induction false} UndefinedStops(t: Value, a: seq<Value>, b: seq<Value>)
    requires forall i :: 0 <= i < |a| ==> !a[i].Undefined?
    ensures DeepMergeAll(t, a + [Undefined] + b) == DeepMergeAll(t, a)
  {
    DeepMergeAllAppend(t, a, [Undefined] + b);
    assert a + [Undefined] + b == a + ([Undefined] + b);
    assert a + [] == a;
    DeepMergeAllAppend(t, a, []);
  }

  /** Later sources win: a non-object value in the last source is what the key holds afterwards. */
  lemma LastSourceWins(t: Value, sources: seq<Value>, k: string)
    requires IsMergeable(t) && sources != []
    requires forall i :: 0 <= i < |sources| ==> !sources[i].Undefined?
    requires IsMergeable(sources[|sources| - 1]) && UniqueKeys(sources[|sources| - 1].fields)
    requires Has(sources[|sources| - 1].fields, k) && !IsMergeable(Get(sources[|sources| - 1].fields, k))
    ensures Get(DeepMergeAll(t, sources).fields, k) == Get(sources[|sources| - 1].fields, k)
  {
    var n := |sources| - 1;
    var last := sources[n];
    assert sources == sources[..n] + [last];
    assert forall i :: 0 <= i < n ==> sources[..n][i] == sources[i];
    DeepMergeAllAppend(t, sources[..n], [last]);
    var mid := DeepMergeAll(t, sources[..n]);
    assert DeepMergeAll(mid, [last]) == MergeOne(mid, last);
    OverwriteNonMergeable(mid.fields, last.fields, k);
  }

  /** Merging keeps property names unique. */
  lemma {:induction false} MergeFieldsUnique(t: seq<Field>, src: seq<Field>)
    requires UniqueKeys(t)
    ensures UniqueKeys(MergeFields(t, src))
    decreases |src|
  {
    if src != [] {
      var n := |src| - 1;
      MergeFieldsUnique(t, src[..n]);
      var m := MergeFields(t, src[..n]);
      var k, sv := src[n].key, src[n].val;
      if IsMergeable(sv) {
        var t1 := if !Truthy(Get(m, k)) then SetField(m, k, Obj([])) else m;
        if !Truthy(Get(m, k)) {
          SetFieldUnique(m, k, Obj([]));
        }
        var slot := Get(t1, k);
        if IsMergeable(slot) {
          SetFieldUnique(t1, k, MergeOne(slot, sv));
        }
      } else {
        SetFieldUnique(m, k, sv);
      }
    }
  }

  /** The three outcomes of one merge step for an object source value. */
  lemma MergeFieldCases(t: seq<Field>, k: string, sv: Value)
    requires IsMergeable(sv)
    ensures Truthy(Get(t, k)) && !IsMergeable(Get(t, k)) ==> MergeField(t, k, sv) == t
    ensures IsMergeable(Get(t, k)) ==> MergeField(t, k, sv) == SetField(t, k, MergeOne(Get(t, k), sv))
    ensures !Truthy(Get(t, k)) ==>
      MergeField(t, k, sv) == SetField(SetField(t, k, Obj([])), k, MergeOne(Obj([]), sv))
  {
    if !Truthy(Get(t, k)) {
      GetSetField(t, k, Obj([]), k);
    }
  }

  // ---------------------------------------------------------------------------
  // The merge on the heap.

  /** What a property holds: a plain object on the heap, or any other value. */
  datatype Slot = Val(v: Value) | Ref(obj: JsObject)

  datatype Prop = Prop(key: string, slot: Slot)

  /**
   * A plain JavaScript object whose plain-object properties are further objects
   * on the heap. `Contents` is the value the whole tree denotes. `Children` holds
   * the objects this one may refer to; no object is shared between two places
   * of the tree.
   */
  class JsObject {
    var props: seq<Prop>
    ghost var Contents: seq<Field>
    ghost var Children: set<JsObject>
    ghost var Repr: set<object>

    ghost predicate Valid()
      reads this, Repr
      decreases Repr
    {
      && this in Repr
      && (forall o :: o in Children ==>
            && o in Repr && o != this && o.Repr <= Repr && this !in o.Repr && o.Valid())
      && (forall o, o' :: o in Children && o' in Children && o != o' ==> o.Repr !! o'.Repr)
      && |props| == |Contents|
      && UniqueKeys(Contents)
      && (forall i :: 0 <= i < |props| ==> SlotDenotes(props[i], Contents[i]))
      && (forall i, j :: 0 <= i < j < |props| && props[i].slot.Ref? && props[j].slot.Ref? ==>
            props[i].slot.obj != props[j].slot.obj)
    }

    /** A property slot holds the value `f` describes: a non-object value itself, or a child whose tree is `f.val`. */
    ghost predicate SlotDenotes(p: Prop, f: Field)
      reads this, Children
    {
      && p.key == f.key
      && (p.slot.Val? ==> !p.slot.v.Obj? && f.val == p.slot.v)
      && (p.slot.Ref? ==> p.slot.obj in Children && f.val == Obj(p.slot.obj.Contents))
    }

    /** `{}` */
    constructor Empty()
      ensures Valid() && Repr == {this} && Contents == []
    {
      props := [];
      Contents := [];
      Children := {};
      Repr := {this};
    }

    /** The position of property `k`, or -1 when the object has none. */
    method FindKey(k: string) returns (j: int)
      requires Valid()
      ensures -1 <= j < |props|
      ensures j == -1 <==> !Has(Contents, k)
      ensures j >= 0 ==> props[j].key == k && Contents[j].key == k
    {
      j := 0;
      while j < |props|
        invariant 0 <= j <= |props|
        invariant forall i :: 0 <= i < j ==> props[i].key != k
      {
        if props[j].key == k {
          assert SlotDenotes(props[j], Contents[j]);
          return;
        }
        j := j + 1;
      }
      forall i | 0 <= i < |Contents| ensures Keys(Contents)[i] != k {
        assert SlotDenotes(props[i], Contents[i]);
      }
      j := -1;
    }

    /** Puts `p` (which describes `f`) at the place of key `f.key`, as an assignment does. */
    method PutSlot(p: Prop, ghost f: Field) returns (j: int)
      requires Valid() && SlotDenotes(p, f)
      requires p.slot.Ref? ==> forall i :: 0 <= i < |props| && props[i].slot.Ref? ==> props[i].slot.obj != p.slot.obj
      modifies this
      ensures Valid() && Repr == old(Repr) && Children == old(Children)
      ensures 0 <= j < |props| && props[j] == p
      ensures Contents == SetField(old(Contents), f.key, f.val)
    {
      j := FindKey(p.key);
      SetFieldUnique(Contents, f.key, f.val);
      if j == -1 {
        SetFieldAbsent(Contents, f.key, f.val);
        j := AppendSlot(p, f);
      } else {
        SetFieldAtIndex(Contents, j, f.val);
        ReplaceSlot(j, p, f);
      }
    }

    /** Adds a property that was not there, at the end. */
    method AppendSlot(p: Prop, ghost f: Field) returns (j: int)
      requires Valid() && SlotDenotes(p, f) && UniqueKeys(Contents + [f])
      requires p.slot.Ref? ==> forall i :: 0 <= i < |props| && props[i].slot.Ref? ==> props[i].slot.obj != p.slot.obj
      modifies this
      ensures Valid() && Repr == old(Repr) && Children == old(Children)
      ensures j == |old(props)| && props == old(props) + [p] && Contents == old(Contents) + [f]
    {
      ghost var P, C := props, Contents;
      props := props + [p];
      Contents := Contents + [f];
      j := |props| - 1;
      forall i | 0 <= i < |props| ensures SlotDenotes(props[i], Contents[i]) {
        if i < |P| {
          assert props[i] == P[i] && Contents[i] == C[i];
        }
      }
    }

    /** Replaces the property at position `j`, which has the same key. */
    method ReplaceSlot(j: int, p: Prop, ghost f: Field)
      requires Valid() && 0 <= j < |props| && SlotDenotes(p, f) && UniqueKeys(Contents[j := f])
      requires p.slot.Ref? ==> forall i :: 0 <= i < |props| && props[i].slot.Ref? ==> props[i].slot.obj != p.slot.obj
      modifies this
      ensures Valid() && Repr == old(Repr) && Children == old(Children)
      ensures props == old(props)[j := p] && Contents == old(Contents)[j := f]
    {
      ghost var P, C := props, Contents;
      props := props[j := p];
      Contents := Contents[j := f];
      forall i | 0 <= i < |props| ensures SlotDenotes(props[i], Contents[i]) {
        if i != j {
          assert props[i] == P[i] && Contents[i] == C[i];
        }
      }
    }

    /** `this[k] = v` for a value that is not a plain object. */
    method AssignValue(k: string, v: Value)
      requires Valid() && !v.Obj?
      modifies this
      ensures Valid() && Repr == old(Repr)
      ensures Contents == SetField(old(Contents), k, v)
    {
      var _ := PutSlot(Prop(k, Val(v)), Field(k, v));
    }

    /** Takes a new, empty object into this object's footprint, before a slot refers to it. */
    ghost method Adopt(child: JsObject)
      requires Valid() && child.Valid() && child.Repr == {child} && child !in Repr
      modifies this
      ensures Valid() && Repr == old(Repr) + {child} && Children == old(Children) + {child}
      ensures props == old(props) && Contents == old(Contents)
      ensures forall i :: 0 <= i < |props| && props[i].slot.Ref? ==> props[i].slot.obj != child
    {
      forall i | 0 <= i < |props| && props[i].slot.Ref? ensures props[i].slot.obj != child {
        assert SlotDenotes(props[i], Contents[i]);
      }
      ghost var Ch := Children;
      forall o | o in Ch ensures o.Repr !! child.Repr && o.Valid() {
        assert o.Repr <= Repr;
      }
      Children := Children + {child};
      Repr := Repr + {child};
      forall o | o in Children
        ensures o in Repr && o != this && o.Repr <= Repr && this !in o.Repr && o.Valid()
      {
        if o != child {
          assert o in Ch;
        }
      }
      forall i | 0 <= i < |props| ensures SlotDenotes(props[i], Contents[i]) {
        assert old(SlotDenotes(props[i], Contents[i]));
      }
    }

    /** `this[k] = {}`; returns the position of `k`. */
    method AssignEmpty(k: string) returns (j: int)
      requires Valid()
      modifies this
      ensures Valid() && fresh(Repr - old(Repr))
      ensures 0 <= j < |props| && props[j].slot.Ref? && Contents[j].key == k
      ensures Contents == SetField(old(Contents), k, Obj([]))
    {
      var child := new JsObject.Empty();
      Adopt(child);
      j := PutSlot(Prop(k, Ref(child)), Field(k, Obj([])));
    }

    /** `deepMerge(this[k], sv)` where `this[k]` is a plain object. */
    method MergeChild(j: int, sv: Value)
      requires Valid() && 0 <= j < |props| && props[j].slot.Ref?
      modifies Repr
      ensures Valid() && fresh(Repr - old(Repr))
      ensures Contents == old(Contents)[j := Field(old(Contents)[j].key, MergeOne(old(Contents)[j].val, sv))]
      decreases Size(sv), 1
    {
      var o := props[j].slot.obj;
      assert SlotDenotes(props[j], Contents[j]);
      ghost var R, C := Repr, Contents;
      forall o' | o' in Children && o' != o ensures o'.Repr !! o.Repr && o'.Valid() {
        assert o'.Repr <= Repr;
      }
      o.MergeFrom(sv);
      forall o' | o' in Children && o' != o ensures o'.Repr !! o.Repr {
        assert o'.Repr <= R;
      }
      Contents := Contents[j := Field(Contents[j].key, Obj(o.Contents))];
      Repr := Repr + o.Repr;
      forall i | 0 <= i < |props| ensures SlotDenotes(props[i], Contents[i]) {
        if i != j {
          assert old(SlotDenotes(props[i], Contents[i]));
          assert Contents[i] == C[i];
        }
      }
    }

    /** `this[k] = {}` followed by `deepMerge(this[k], sv)`, for a falsy or missing slot. */
    method MergeIntoEmpty(k: string, sv: Value)
      requires Valid()
      modifies Repr
      ensures Valid() && fresh(Repr - old(Repr))
      ensures Contents == SetField(SetField(old(Contents), k, Obj([])), k, MergeOne(Obj([]), sv))
      decreases Size(sv), 2
    {
      var j := AssignEmpty(k);
      ghost var R1 := Repr;
      GetAt(Contents, j);
      GetSetField(old(Contents), k, Obj([]), k);
      SetFieldAtIndex(Contents, j, MergeOne(Obj([]), sv));
      MergeChild(j, sv);
      assert Repr - old(Repr) <= (Repr - R1) + (R1 - old(Repr));
    }

    /** The body of the `forEach` in `deepMerge` for key `k` with source value `sv`. */
    method MergeKey(k: string, sv: Value)
      requires Valid()
      modifies Repr
      ensures Valid() && fresh(Repr - old(Repr))
      ensures Contents == MergeField(old(Contents), k, sv)
      decreases Size(sv), 3
    {
      if !IsMergeable(sv) {
        AssignValue(k, sv);
        return;
      }
      MergeFieldCases(Contents, k, sv);
      var j := FindKey(k);
      if j == -1 {
        MergeIntoEmpty(k, sv);
        return;
      }
      GetAt(Contents, j);
      assert SlotDenotes(props[j], Contents[j]);
      match props[j].slot
      case Val(v) =>
        if !Truthy(v) {
          MergeIntoEmpty(k, sv);
        }
      case Ref(_) =>
        SetFieldAtIndex(Contents, j, MergeOne(Contents[j].val, sv));
        MergeChild(j, sv);
    }

    /** `deepMerge(this, s)`: every key of an object source is merged in, in order. */
    method MergeFrom(s: Value)
      requires Valid()
      modifies Repr
      ensures Valid() && fresh(Repr - old(Repr))
      ensures Contents == MergeInto(old(Contents), s)
      decreases Size(s), 0
    {
      if !IsMergeable(s) {
        return;
      }
      var fs := s.fields;
      var i := 0;
      while i < |fs|
        invariant 0 <= i <= |fs|
        invariant Valid() && fresh(Repr - old(Repr))
        invariant Contents == MergeFields(old(Contents), fs[..i])
      {
        SizeFieldsAt(fs, i);
        MergeKey(fs[i].key, fs[i].val);
        assert fs[..i + 1][..i] == fs[..i];
        i := i + 1;
      }
      assert fs[..|fs|] == fs;
    }
  }

  /**
   * `deepMerge(target, ...sources)`: the sources are taken off the front one at
   * a time; the target object itself is updated and returned.
   */
  method DeepMerge(target: JsObject, sources: seq<Value>) returns (r: JsObject)
    requires target.Valid()
    modifies target.Repr
    ensures r == target && target.Valid() && fresh(target.Repr - old(target.Repr))
    ensures Obj(target.Contents) == DeepMergeAll(Obj(old(target.Contents)), sources)
  {
    var rest := sources;
    while rest != []
      invariant target.Valid() && fresh(target.Repr - old(target.Repr))
      invariant DeepMergeAll(Obj(target.Contents), rest) == DeepMergeAll(Obj(old(target.Contents)), sources)
      decreases |rest|
    {
      var source := rest[0];
      rest := rest[1..];
      if source.Undefined? {
        return target;
      }
      target.MergeFrom(source);
    }
    return target;
  }
}
