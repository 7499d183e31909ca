/**
 * Generation of TypeScript types from a chart's values: classification of
 * values, comment blocks holding a value's JSON text, the generators for known
 * keys, unknown keys and objects, the rewriting of CRD schemas into JSON
 * schemas, and the merging of the generated imports.
 */
module Typeify {
  import opened Common
  import opened JsValues
  import opened Strings

  // ---------------------------------------------------------------------------
  // classifyType

  datatype ClassifiedType = ArrayType | StringType | ObjectType | NumberType | BooleanType | SymbolType | UnknownType

  function ClassName(c: ClassifiedType): string {
    match c
    case ArrayType => "array"
    case StringType => "string"
    case ObjectType => "object"
    case NumberType => "number"
    case BooleanType => "boolean"
    case SymbolType => "symbol"
    case UnknownType => "unknown"
  }

  /** The JavaScript `typeof` operator. */
  function TypeOf(v: Value): string {
    match v
    case Undefined => "undefined"
    case Null => "object"
    case Bool(_) => "boolean"
    case Num(_) => "number"
    case Str(_) => "string"
    case Sym(_) => "symbol"
    case BigInt(_) => "bigint"
    case Func => "function"
    case Arr(_) => "object"
    case Obj(_) => "object"
  }

  function ClassifyType(v: Value): (r: ClassifiedType)
    ensures r == ArrayType <==> v.Arr?
    ensures r == ObjectType <==> TypeOf(v) == "object" && !v.Null? && !v.Arr?
    ensures r in {StringType, NumberType, BooleanType, SymbolType} <==>
      TypeOf(v) in {"string", "number", "boolean", "symbol"}
    ensures r in {StringType, NumberType, BooleanType, SymbolType} ==> ClassName(r) == TypeOf(v)
    ensures r == UnknownType <==> v.Null? || TypeOf(v) in {"undefined", "bigint", "function"}
  {
    var typ := TypeOf(v);
    if typ == "object" && !v.Null? then
      if v.Arr? then ArrayType else ObjectType
    else if typ == "string" then StringType
    else if typ == "number" then NumberType
    else if typ == "boolean" then BooleanType
    else if typ == "symbol" then SymbolType
    else UnknownType
  }

  // ---------------------------------------------------------------------------
  // JSON.stringify

  /** The outcome of `JSON.stringify`: a text, `undefined`, or a thrown TypeError. */
  datatype Json = Text(text: string) | Omitted | Throws

  function HexDigit(d: nat): char
    requires d < 16
  {
    "0123456789abcdef"[d]
  }

  /** One character of a JSON string literal. */
  function QuoteChar(c: char): string {
    if c == '"' then "\\\""
    else if c == '\\' then "\\\\"
    else if c == '\n' then "\\n"
    else if c == '\r' then "\\r"
    else if c == '\t' then "\\t"
    else if c == '\U{8}' then "\\b"
    else if c == '\U{C}' then "\\f"
    else if (c as int) < 0x20 then "\\u00" + [HexDigit(c as int / 16), HexDigit(c as int % 16)]
    else [c]
  }

  function QuoteChars(s: string): string {
    if s == [] then "" else QuoteChar(s[0]) + QuoteChars(s[1..])
  }

  /** `JSON.stringify` of a string. */
  function Quote(s: string): string {
    "\"" + QuoteChars(s) + "\""
  }

  /** A BigInt occurs somewhere inside `v`, where `JSON.stringify` would reach it. */
  predicate HasBigInt(v: Value)
    decreases Size(v), 0
  {
    match v
    case BigInt(_) => true
    case Arr(items) => ItemsHaveBigInt(items)
    case Obj(fs) => FieldsHaveBigInt(fs)
    case _ => false
  }

  predicate ItemsHaveBigInt(items: seq<Value>)
    decreases SizeItems(items), 1
  {
    items != [] && (HasBigInt(items[0]) || ItemsHaveBigInt(items[1..]))
  }

  predicate FieldsHaveBigInt(fs: seq<Field>)
    decreases SizeFields(fs), 1
  {
    fs != [] && (HasBigInt(fs[0].val) || FieldsHaveBigInt(fs[1..]))
  }

  /**
   * `JSON.stringify(v)`: undefined, functions and symbols give no text (and are
   * left out of objects, or written `null` in arrays); a BigInt throws.
   */
  function Stringify(v: Value): (r: Json)
    decreases Size(v), 1
  {
    match v
    case Undefined => Omitted
    case Func => Omitted
    case Sym(_) => Omitted
    case BigInt(_) => Throws
    case Null => Text("null")
    case Bool(b) => Text(if b then "true" else "false")
    case Num(n) => Text(IntToString(n))
    case Str(s) => Text(Quote(s))
    case Arr(items) =>
      var parts := StringifyItems(items);
      if parts.Some? then Text("[" + Join(parts.value, ",") + "]") else Throws
    case Obj(fs) =>
      var parts := StringifyFields(fs);
      if parts.Some? then Text("{" + Join(parts.value, ",") + "}") else Throws
  }

  function StringifyItems(items: seq<Value>): Option<seq<string>>
    decreases SizeItems(items), 2
  {
    if items == [] then Some([])
    else
      var head := Stringify(items[0]);
      var rest := StringifyItems(items[1..]);
      if head.Throws? || rest.None? then None
      else Some([if head.Text? then head.text else "null"] + rest.value)
  }

  function StringifyFields(fs: seq<Field>): Option<seq<string>>
    decreases SizeFields(fs), 2
  {
    if fs == [] then Some([])
    else
      var head := Stringify(fs[0].val);
      var rest := StringifyFields(fs[1..]);
      if head.Throws? || rest.None? then None
      else if head.Omitted? then rest
      else Some([Quote(fs[0].key) + ":" + head.text] + rest.value)
  }

  /** `JSON.stringify` throws exactly when a BigInt is reachable, and gives no text exactly for undefined, functions and symbols. */
  lemma {:induction false} StringifyOutcome(v: Value)
    ensures Stringify(v).Throws? <==> HasBigInt(v)
    ensures Stringify(v).Omitted? <==> v.Undefined? || v.Func? || v.Sym?
    decreases Size(v), 1
  {
    match v
    case Arr(items) => StringifyItemsOutcome(items);
    case Obj(fs) => StringifyFieldsOutcome(fs);
    case _ =>
  }

  lemma {:induction false} StringifyItemsOutcome(items: seq<Value>)
    ensures StringifyItems(items).None? <==> ItemsHaveBigInt(items)
    decreases SizeItems(items), 2
  {
    if items != [] {
      StringifyOutcome(items[0]);
      StringifyItemsOutcome(items[1..]);
    }
  }

  lemma {:induction false} StringifyFieldsOutcome(fs: seq<Field>)
    ensures StringifyFields(fs).None? <==> FieldsHaveBigInt(fs)
    decreases SizeFields(fs), 2
  {
    if fs != [] {
      StringifyOutcome(fs[0].val);
      StringifyFieldsOutcome(fs[1..]);
    }
  }

  // ---------------------------------------------------------------------------
  // toCommentBlock

  // The JSON text with the comment opener and then the comment terminator escaped.
  function EscapeComment(s: string): string {
    ReplaceAll(ReplaceAll(s, "/*", "\\/*"), "*/", "*\\/")
  }

  /** `toCommentBlock(v)`; `None` when `JSON.stringify` gives no text (the `replaceAll` call then throws) or throws. */
  function ToCommentBlock(v: Value): (r: Option<string>)
    ensures r.Some? <==> Stringify(v).Text?
  {
    var json := Stringify(v);
    if json.Text? then Some("/* " + EscapeComment(json.text) + " */") else None
  }

  /** `s` holds a comment terminator. */
  predicate HasTerminator(s: string) {
    exists i :: 0 <= i < |s| - 1 && s[i] == '*' && s[i + 1] == '/'
  }

  lemma TerminatorIsOccurrence(s: string)
    ensures Contains(s, "*/") <==> HasTerminator(s)
  {
    if HasTerminator(s) {
      var i :| 0 <= i < |s| - 1 && s[i] == '*' && s[i + 1] == '/';
      assert s[i..i + 2] == "*/";
      assert OccursAt(s, "*/", i);
    }
    if Contains(s, "*/") {
      var i: nat :| i <= |s| && OccursAt(s, "*/", i);
      assert s[i..i + 2][0] == s[i] && s[i..i + 2][1] == s[i + 1];
    }
  }

  lemma NoTerminatorInConcat(a: string, b: string)
    requires !HasTerminator(a) && !HasTerminator(b)
    requires !(|a| > 0 && |b| > 0 && a[|a| - 1] == '*' && b[0] == '/')
    ensures !HasTerminator(a + b)
  {
    var ab := a + b;
    forall i | 0 <= i < |ab| - 1 ensures !(ab[i] == '*' && ab[i + 1] == '/') {
      if i + 1 < |a| {
        assert ab[i] == a[i] && ab[i + 1] == a[i + 1];
      } else if i >= |a| {
        assert ab[i] == b[i - |a|] && ab[i + 1] == b[i - |a| + 1];
      } else {
        assert ab[i] == a[|a| - 1] && ab[i + 1] == b[0];
      }
    }
  }

  // Escaping the terminator keeps the first character and leaves no terminator behind.
  lemma {:induction false} EscapeTerminators(t: string)
    ensures var r := ReplaceAll(t, "*/", "*\\/");
      !HasTerminator(r) && (|t| > 0 ==> |r| > 0 && r[0] == t[0])
    decreases |t|
  {
    var r := ReplaceAll(t, "*/", "*\\/");
    if |t| < 2 {
      assert r == t;
    } else if t[..2] == "*/" {
      var rest := ReplaceAll(t[2..], "*/", "*\\/");
      EscapeTerminators(t[2..]);
      assert r == "*\\/" + rest;
      assert !HasTerminator("*\\/") by {
        assert forall i :: 0 <= i < 2 ==> "*\\/"[i + 1] != '/' || "*\\/"[i] != '*';
      }
      NoTerminatorInConcat("*\\/", rest);
      assert t[0] == '*';
    } else {
      var rest := ReplaceAll(t[1..], "*/", "*\\/");
      EscapeTerminators(t[1..]);
      assert r == [t[0]] + rest;
      assert t[..2] == [t[0], t[1]];
      NoTerminatorInConcat([t[0]], rest);
    }
  }

  // The body of a comment block never contains a comment terminator.
  lemma EscapedHasNoTerminator(s: string)
    ensures !Contains(EscapeComment(s), "*/")
  {
    EscapeTerminators(ReplaceAll(s, "/*", "\\/*"));
    TerminatorIsOccurrence(EscapeComment(s));
  }

  lemma NoEarlyTerminator(pre: string, i: nat)
    requires !HasTerminator(pre) && |pre| > 0 && pre[|pre| - 1] != '*' && i < |pre|
    ensures !OccursAt(pre + "*/", "*/", i)
  {
    var block := pre + "*/";
    assert block[i..i + 2] == [block[i], block[i + 1]];
    if i + 1 < |pre| {
      assert block[i] == pre[i] && block[i + 1] == pre[i + 1];
    } else {
      assert block[i] == pre[|pre| - 1];
    }
  }

  /** A text free of terminators that does not end in `*`, followed by a terminator: the first terminator is the appended one. */
  lemma FirstTerminatorAtEnd(pre: string)
    requires !HasTerminator(pre) && |pre| > 0 && pre[|pre| - 1] != '*'
    ensures IndexOf(pre + "*/", "*/") == |pre|
  {
    var block := pre + "*/";
    assert block[|pre|..] == "*/";
    assert OccursAt(block, "*/", |pre|);
    forall i: nat | i < |pre| ensures !OccursAt(block, "*/", i) {
      NoEarlyTerminator(pre, i);
    }
  }

  lemma OpenerHasNoTerminator()
    ensures !HasTerminator("/* ")
  {
    var o := "/* ";
    assert o[0] == '/' && o[1] == '*' && o[2] == ' ';
  }

  // A comment block starts with an opener and a space, and its first terminator is the closing one.
  lemma CommentBlockClosesOnce(v: Value)
    requires ToCommentBlock(v).Some?
    ensures StartsWith(ToCommentBlock(v).value, "/* ")
    ensures IndexOf(ToCommentBlock(v).value, "*/") == |ToCommentBlock(v).value| - 2
  {
    var body := EscapeComment(Stringify(v).text);
    EscapedHasNoTerminator(Stringify(v).text);
    TerminatorIsOccurrence(body);
    CommentClosesOnce(body);
  }

  // Wrapping a text free of terminators in an opener and a closer gives one terminator, at the end.
  lemma CommentClosesOnce(body: string)
    requires !HasTerminator(body)
    ensures StartsWith("/* " + body + " */", "/* ")
    ensures IndexOf("/* " + body + " */", "*/") == |"/* " + body + " */"| - 2
  {
    OpenerHasNoTerminator();
    NoTerminatorInConcat("/* ", body);
    var pre := "/* " + body + " ";
    NoTerminatorInConcat("/* " + body, " ");
    assert pre[|pre| - 1] == ' ';
    FirstTerminatorAtEnd(pre);
    assert "/* " + body + " */" == pre + "*/";
    assert (pre + "*/")[..3] == "/* ";
  }

  // ---------------------------------------------------------------------------
  // Known keys

  datatype ImportDef = ImportDef(props: seq<string>, from: string)

  /** The three value checks a known key's type is applied under. */
  datatype Expectation = NullOrArray | StringOnly | NullOrObject

  predicate Expects(e: Expectation, v: Value) {
    match e
    case NullOrArray => v.Null? || ClassifyType(v) == ArrayType
    case StringOnly => ClassifyType(v) == StringType
    case NullOrObject => v.Null? || ClassifyType(v) == ObjectType
  }

  datatype TypeDef = TypeDef(expectation: Expectation, typ: string, imports: seq<ImportDef>)

  const K8sModelImportRoot := "https://raw.githubusercontent.com/shopstic/k8s-deno-client/1.19.2/models/"

  function K8sImport(model: string): ImportDef {
    ImportDef([model], K8sModelImportRoot + model + ".ts")
  }

  const LocalObjectReferencesType := TypeDef(NullOrArray, "Array<IoK8sApiCoreV1LocalObjectReference>",
    [K8sImport("IoK8sApiCoreV1LocalObjectReference")])
  const PullPolicyType := TypeDef(StringOnly, "K8sImagePullPolicy",
    [ImportDef(["K8sImagePullPolicy"], "../deps/helmet.ts")])
  const AnnotationsType := TypeDef(NullOrObject, "IoK8sApimachineryPkgApisMetaV1ObjectMeta['annotations']",
    [K8sImport("IoK8sApimachineryPkgApisMetaV1ObjectMeta")])
  const LabelsType := TypeDef(NullOrObject, "IoK8sApimachineryPkgApisMetaV1ObjectMeta['labels']",
    [K8sImport("IoK8sApimachineryPkgApisMetaV1ObjectMeta")])
  const SecurityContextType := TypeDef(NullOrObject, "IoK8sApiCoreV1SecurityContext",
    [K8sImport("IoK8sApiCoreV1SecurityContext")])
  const NodeSelectorType := TypeDef(NullOrObject, "IoK8sApiCoreV1PodSpec['nodeSelector']",
    [K8sImport("IoK8sApiCoreV1PodSpec")])
  const TolerationsType := TypeDef(NullOrArray, "IoK8sApiCoreV1PodSpec['tolerations']",
    [K8sImport("IoK8sApiCoreV1PodSpec")])
  const ResourcesType := TypeDef(NullOrObject, "IoK8sApiCoreV1ResourceRequirements",
    [K8sImport("IoK8sApiCoreV1ResourceRequirements")])
  const AffinityType := TypeDef(NullOrObject, "IoK8sApiCoreV1PodSpec['affinity']",
    [K8sImport("IoK8sApiCoreV1PodSpec")])
  const EnvType := TypeDef(NullOrArray, "IoK8sApiCoreV1Container['env']",
    [K8sImport("IoK8sApiCoreV1Container")])

  /** `propToTypeMap`: the keys whose type is known, and their definitions. */
  function KnownDef(key: string): Option<TypeDef> {
    if key == "imagePullSecrets" then Some(LocalObjectReferencesType)
    else if key == "pullPolicy" || key == "imagePullPolicy" then Some(PullPolicyType)
    else if key == "labels" then Some(LabelsType)
    else if key == "annotations" || key == "podAnnotations" then Some(AnnotationsType)
    else if key == "podSecurityContext" || key == "securityContext" then Some(SecurityContextType)
    else if key == "nodeSelector" then Some(NodeSelectorType)
    else if key == "tolerations" then Some(TolerationsType)
    else if key == "affinity" then Some(AffinityType)
    else if key == "resources" then Some(ResourcesType)
    else if key == "env" then Some(EnvType)
    else None
  }

  /** Every import a known definition carries. */
  const TableImports: seq<ImportDef> :=
    LocalObjectReferencesType.imports + PullPolicyType.imports + AnnotationsType.imports +
    LabelsType.imports + SecurityContextType.imports + NodeSelectorType.imports +
    TolerationsType.imports + ResourcesType.imports + AffinityType.imports + EnvType.imports

  lemma KnownDefImportsInTable(key: string)
    requires KnownDef(key).Some?
    ensures forall imp :: imp in KnownDef(key).value.imports ==> imp in TableImports
  {
  }

  // ---------------------------------------------------------------------------
  // generateTypeFor*

  datatype GeneratedType = GeneratedType(output: string, imports: seq<ImportDef>)

  /** `generateTypeForKnownKey`; `None` when the comment block throws. */
  function GenerateTypeForKnownKey(key: string, value: Value): Option<GeneratedType>
    requires KnownDef(key).Some?
    decreases Size(value), 2
  {
    var def := KnownDef(key).value;
    if Expects(def.expectation, value) then
      var block := ToCommentBlock(value);
      if block.Some? then Some(GeneratedType(def.typ + " " + block.value, def.imports)) else None
    else GenerateTypeForUnknownKey(value)
  }

  /** `generateTypeForUnknownKey`; `None` when the comment block throws. */
  function GenerateTypeForUnknownKey(value: Value): Option<GeneratedType>
    decreases Size(value), 1
  {
    var typ := ClassifyType(value);
    if typ in {NumberType, StringType, BooleanType} then
      var block := ToCommentBlock(value);
      if block.Some? then Some(GeneratedType(ClassName(typ) + " " + block.value, [])) else None
    else if typ == ArrayType then
      if |value.items| == 1 then
        assert Size(value) == 1 + Size(value.items[0]) + SizeItems(value.items[1..]);
        var param := GenerateTypeForUnknownKey(value.items[0]);
        if param.Some? then Some(GeneratedType("Array<" + param.value.output + ">", param.value.imports)) else None
      else
        var block := ToCommentBlock(value);
        if block.Some? then Some(GeneratedType("any[] " + block.value, [])) else None
    else if typ == SymbolType then
      var description := if value.description.Some? then value.description.value else "undefined";
      Some(GeneratedType(description + " /* charts patch */", []))
    else if typ == UnknownType then
      var block := ToCommentBlock(value);
      if block.Some? then Some(GeneratedType("any " + block.value, [])) else None
    else
      GenerateTypeForObject(value.fields)
  }

  /** The type of one entry of an object: by its known definition when the key has one. */
  function EntryType(f: Field): Option<GeneratedType>
    decreases Size(f.val), 3
  {
    if KnownDef(f.key).Some? then GenerateTypeForKnownKey(f.key, f.val)
    else GenerateTypeForUnknownKey(f.val)
  }

  /** The `reduce` over `Object.entries(obj)`: one line per entry and the concatenated imports. */
  function GenerateEntries(fs: seq<Field>): Option<(seq<string>, seq<ImportDef>)>
    decreases SizeFields(fs), 4
  {
    if fs == [] then Some(([], []))
    else
      var head := EntryType(fs[0]);
      var rest := GenerateEntries(fs[1..]);
      if head.None? || rest.None? then None
      else Some(([EntryLine(fs[0].key, head.value)] + rest.value.0, head.value.imports + rest.value.1))
  }

  function EntryLine(key: string, g: GeneratedType): string {
    Quote(key) + "?: " + g.output
  }

  /** `generateTypeForObject`. */
  function GenerateTypeForObject(fs: seq<Field>): Option<GeneratedType>
    decreases SizeFields(fs), 5
  {
    var entries := GenerateEntries(fs);
    if entries.Some? then Some(GeneratedType("{" + Join(entries.value.0, "\n") + "}", entries.value.1))
    else None
  }

  function Concat<T>(xss: seq<seq<T>>): seq<T> {
    if xss == [] then [] else xss[0] + Concat(xss[1..])
  }

  /** The imports of each entry's type, in entry order. */
  function EntryImports(fs: seq<Field>): (r: seq<seq<ImportDef>>)
    requires forall i :: 0 <= i < |fs| ==> EntryType(fs[i]).Some?
    ensures |r| == |fs| && forall i :: 0 <= i < |fs| ==> r[i] == EntryType(fs[i]).value.imports
  {
    seq(|fs|, i requires 0 <= i < |fs| && EntryType(fs[i]).Some? => EntryType(fs[i]).value.imports)
  }

  /** An object's type can be generated exactly when every entry's type can. */
  lemma {:induction false} ObjectTypeSucceeds(fs: seq<Field>)
    ensures GenerateEntries(fs).Some? <==> forall i :: 0 <= i < |fs| ==> EntryType(fs[i]).Some?
  {
    if fs != [] {
      ObjectTypeSucceeds(fs[1..]);
      assert forall i :: 1 <= i < |fs| ==> fs[i] == fs[1..][i - 1];
    }
  }

  /** An object's type has one `"key"?: type` line per entry, in entry order. */
  lemma {:induction false} ObjectTypeLines(fs: seq<Field>)
    requires GenerateEntries(fs).Some?
    ensures |GenerateEntries(fs).value.0| == |fs|
    ensures forall i :: 0 <= i < |fs| ==>
      EntryType(fs[i]).Some? && GenerateEntries(fs).value.0[i] == EntryLine(fs[i].key, EntryType(fs[i]).value)
  {
    if fs != [] {
      ObjectTypeLines(fs[1..]);
      assert forall i :: 1 <= i < |fs| ==> fs[i] == fs[1..][i - 1];
    }
  }

  /** An object's imports are its entries' imports, concatenated in entry order. */
  lemma {:induction false} ObjectTypeImports(fs: seq<Field>)
    requires GenerateEntries(fs).Some?
    ensures forall i :: 0 <= i < |fs| ==> EntryType(fs[i]).Some?
    ensures GenerateEntries(fs).value.1 == Concat(EntryImports(fs))
  {
    ObjectTypeSucceeds(fs);
    if fs != [] {
      var rest := fs[1..];
      ObjectTypeImports(rest);
      assert forall i :: 1 <= i < |fs| ==> fs[i] == rest[i - 1];
      assert EntryImports(fs)[1..] == EntryImports(rest);
    }
  }

  /** Every import in a generated type comes from a known definition. */
  lemma {:induction false} UnknownKeyImportsFromTable(value: Value)
    ensures GenerateTypeForUnknownKey(value).Some? ==>
      forall imp :: imp in GenerateTypeForUnknownKey(value).value.imports ==> imp in TableImports
    decreases Size(value), 1
  {
    var typ := ClassifyType(value);
    if typ == ArrayType && |value.items| == 1 {
      assert Size(value) == 1 + Size(value.items[0]) + SizeItems(value.items[1..]);
      UnknownKeyImportsFromTable(value.items[0]);
    } else if typ == ObjectType {
      EntriesImportsFromTable(value.fields);
    }
  }

  lemma {:induction false} EntryImportsFromTable(f: Field)
    ensures EntryType(f).Some? ==> forall imp :: imp in EntryType(f).value.imports ==> imp in TableImports
    decreases Size(f.val), 3
  {
    UnknownKeyImportsFromTable(f.val);
    if KnownDef(f.key).Some? {
      KnownDefImportsInTable(f.key);
    }
  }

  lemma {:induction false} EntriesImportsFromTable(fs: seq<Field>)
    ensures GenerateEntries(fs).Some? ==> forall imp :: imp in GenerateEntries(fs).value.1 ==> imp in TableImports
    decreases SizeFields(fs), 4
  {
    if fs != [] {
      EntryImportsFromTable(fs[0]);
      EntriesImportsFromTable(fs[1..]);
    }
  }

  /**
   * The unknown-key results: a number, string or boolean gives its type name and
   * a comment with no imports; a one-element array wraps its element's type; any
   * other array gives `any[]` and a comment with no imports.
   */
  lemma UnknownKeyShapes(value: Value)
    ensures ClassifyType(value) in {NumberType, StringType, BooleanType} && Stringify(value).Text? ==>
      GenerateTypeForUnknownKey(value) ==
        Some(GeneratedType(TypeOf(value) + " " + ToCommentBlock(value).value, []))
    ensures value.Arr? && |value.items| == 1 ==>
      GenerateTypeForUnknownKey(value) ==
        (match GenerateTypeForUnknownKey(value.items[0])
         case Some(p) => Some(GeneratedType("Array<" + p.output + ">", p.imports))
         case None => None)
    ensures value.Arr? && |value.items| != 1 && Stringify(value).Text? ==>
      GenerateTypeForUnknownKey(value) == Some(GeneratedType("any[] " + ToCommentBlock(value).value, []))
  {
  }

  /** A known key whose value passes its check gets the fixed type; otherwise it is typed as an unknown key. */
  lemma KnownKeyTyping(key: string, value: Value)
    requires KnownDef(key).Some?
    ensures var def := KnownDef(key).value;
      && (Expects(def.expectation, value) && Stringify(value).Text? ==>
            GenerateTypeForKnownKey(key, value) == Some(GeneratedType(def.typ + " " + ToCommentBlock(value).value, def.imports)))
      && (!Expects(def.expectation, value) ==>
            GenerateTypeForKnownKey(key, value) == GenerateTypeForUnknownKey(value))
  {
  }

  /** A list of tolerations, as a chart's values hold it. */
  const TolerationsValue := Arr([Obj([Field("operator", Str("Equal")), Field("effect", Str("NoSchedule"))])])

  lemma TolerationsValueHasText()
    ensures Stringify(TolerationsValue).Text?
  {
    var last := [Field("effect", Str("NoSchedule"))];
    var fs := [Field("operator", Str("Equal")), Field("effect", Str("NoSchedule"))];
    assert !FieldsHaveBigInt(last) by {
      assert last[1..] == [];
    }
    assert !FieldsHaveBigInt(fs) by {
      assert fs[1..] == last;
    }
    assert !ItemsHaveBigInt([Obj(fs)]) by {
      assert [Obj(fs)][1..] == [];
    }
    StringifyOutcome(TolerationsValue);
  }

  lemma TolerationsIsKnown()
    ensures KnownDef("tolerations") == Some(TolerationsType)
  {
  }

  /** `tolerations` accepts a list of tolerations and types it as the pod spec's field. */
  lemma TolerationsAcceptArray()
    ensures Expects(TolerationsType.expectation, TolerationsValue)
    ensures GenerateTypeForKnownKey("tolerations", TolerationsValue).Some?
    ensures GenerateTypeForKnownKey("tolerations", TolerationsValue).value.output ==
      "IoK8sApiCoreV1PodSpec['tolerations'] " + ToCommentBlock(TolerationsValue).value
    ensures GenerateTypeForKnownKey("tolerations", TolerationsValue).value.imports ==
      [K8sImport("IoK8sApiCoreV1PodSpec")]
  {
    TolerationsValueHasText();
    TolerationsIsKnown();
    KnownKeyTyping("tolerations", TolerationsValue);
  }

  // ---------------------------------------------------------------------------
  // adaptCrdSchemaToJsonSchema

  /** `Object.entries(v)`; `None` when it throws (on null or undefined). */
  function ObjectEntries(v: Value): Option<seq<Field>> {
    match v
    case Null => None
    case Undefined => None
    case Obj(fs) => Some(fs)
    case Arr(items) => Some(IndexedFields(items, 0))
    case Str(s) => Some(IndexedFields(seq(|s|, i requires 0 <= i < |s| => Str([s[i]])), 0))
    case _ => Some([])
  }

  /** `Object.fromEntries(entries)`. */
  function FromEntries(entries: seq<Field>): seq<Field> {
    Spread([], entries)
  }

  /** The entries of a non-null object schema value (`typeof` object). */
  function SchemaEntries(v: Value): (r: seq<Field>)
    requires v.Obj? || v.Arr?
    ensures SizeFields(r) < Size(v)
  {
    if v.Obj? then v.fields
    else
      SizeFieldsOfIndexed(v.items, 0);
      IndexedFields(v.items, 0)
  }

  /** `value.type`; `None` when it throws (on null or undefined). */
  function TypeProperty(v: Value): Option<Value> {
    if v.Null? || v.Undefined? then None
    else if v.Obj? then Some(Get(v.fields, "type"))
    else Some(Undefined)
  }

  /** The `propertyTypes` table: each property's `type`, for those that define one. */
  function PropertyTypes(entries: seq<Field>): Option<seq<Field>> {
    if entries == [] then Some([])
    else
      var t := TypeProperty(entries[0].val);
      var rest := PropertyTypes(entries[1..]);
      if t.None? || rest.None? then None
      else if t.value.Undefined? then rest
      else Some([Field(entries[0].key, t.value)] + rest.value)
  }

  /** The property of a `oneOf` item: null becomes `{type}`, an object gets the parent type under its own fields. */
  function OneOfProperty(f: Field, propertyTypes: seq<Field>): Field {
    var parentType := Get(FromEntries(propertyTypes), f.key);
    if f.val.Null? then Field(f.key, Obj([Field("type", parentType)]))
    else if f.val.Obj? || f.val.Arr? then
      Field(f.key, Obj(Spread([Field("type", parentType)], SchemaEntries(f.val))))
    else f
  }

  function OneOfProperties(entries: seq<Field>, propertyTypes: seq<Field>): (r: seq<Field>)
    ensures |r| == |entries|
    ensures forall i :: 0 <= i < |entries| ==> r[i] == OneOfProperty(entries[i], propertyTypes)
  {
    if entries == [] then [] else [OneOfProperty(entries[0], propertyTypes)] + OneOfProperties(entries[1..], propertyTypes)
  }

  /** `adaptCrdSchemaOneOfItemToJsonSchema`; `None` when it throws. */
  function AdaptOneOfItem(item: Value, propertyTypes: seq<Field>): Option<Value> {
    if item.Obj? && Has(item.fields, "properties") then
      var entries := ObjectEntries(Get(item.fields, "properties"));
      if entries.None? then None
      else
        var properties := FromEntries(OneOfProperties(entries.value, propertyTypes));
        Some(Obj(Spread(item.fields, [Field("properties", Obj(properties)), Field("additionalProperties", Bool(false))])))
    else Some(item)
  }

  function AdaptOneOfItems(items: seq<Value>, propertyTypes: seq<Field>): (r: Option<seq<Value>>)
    ensures r.Some? ==> |r.value| == |items|
    ensures r.Some? ==> forall i :: 0 <= i < |items| ==> AdaptOneOfItem(items[i], propertyTypes) == Some(r.value[i])
  {
    if items == [] then Some([])
    else
      var head := AdaptOneOfItem(items[0], propertyTypes);
      var rest := AdaptOneOfItems(items[1..], propertyTypes);
      if head.None? || rest.None? then None
      else
        assert forall i :: 1 <= i < |items| ==> items[i] == items[1..][i - 1];
        Some([head.value] + rest.value)
  }

  /** An object schema with properties: `type` is "object" and `properties` a non-null object. */
  predicate IsObjectSchemaWithProperties(fs: seq<Field>) {
    Get(fs, "type") == Str("object") && (Get(fs, "properties").Obj? || Get(fs, "properties").Arr?)
  }

  /** An array schema whose `items` is an object schema. */
  predicate IsArraySchemaWithItems(fs: seq<Field>) {
    Get(fs, "type") == Str("array") && Get(fs, "items").Obj?
  }

  /** The entries of an object schema's `properties`. */
  function PropertyEntries(fs: seq<Field>): (r: seq<Field>)
    requires IsObjectSchemaWithProperties(fs)
    ensures SizeFields(r) < SizeFields(fs)
  {
    SizeOfGet(fs, "properties");
    SchemaEntries(Get(fs, "properties"))
  }

  /** An array schema's `items`. */
  function ItemsSchema(fs: seq<Field>): (r: Value)
    requires IsArraySchemaWithItems(fs)
    ensures r == Get(fs, "items") && Size(r) <= SizeFields(fs)
  {
    SizeOfGet(fs, "items");
    Get(fs, "items")
  }

  /** `adaptCrdSchemaToJsonSchema`; `None` when it throws. */
  function AdaptCrdSchema(v: Value): (r: Option<Value>)
    ensures !v.Obj? ==> r == Some(v)
    ensures v.Obj? && !IsObjectSchemaWithProperties(v.fields) && !IsArraySchemaWithItems(v.fields) ==> r == Some(v)
    decreases Size(v), 1
  {
    if !v.Obj? then Some(v)
    else if IsObjectSchemaWithProperties(v.fields) then
      if Get(v.fields, "oneOf").Arr? then AdaptOneOfSchema(v.fields) else AdaptPropertiesSchema(v.fields)
    else if IsArraySchemaWithItems(v.fields) then AdaptArraySchema(v.fields)
    else Some(v)
  }

  /** The branch for an object schema with a `oneOf` list: the parent's properties give way to the adapted items. */
  function AdaptOneOfSchema(fs: seq<Field>): Option<Value>
    requires IsObjectSchemaWithProperties(fs) && Get(fs, "oneOf").Arr?
  {
    var rest := Without(fs, {"properties", "oneOf"});
    var propertyTypes := PropertyTypes(PropertyEntries(fs));
    if propertyTypes.None? then None
    else
      var oneOf := AdaptOneOfItems(Get(fs, "oneOf").items, propertyTypes.value);
      if oneOf.None? then None
      else Some(Obj(Spread(rest, [Field("oneOf", Arr(oneOf.value)), Field("additionalProperties", Bool(false))])))
  }

  /** The branch for an object schema without a `oneOf` list: its properties are adapted one by one. */
  function AdaptPropertiesSchema(fs: seq<Field>): Option<Value>
    requires IsObjectSchemaWithProperties(fs)
    decreases SizeFields(fs) + 1, 0
  {
    var rest := Without(fs, {"properties", "oneOf"});
    var adapted := AdaptProperties(PropertyEntries(fs));
    if adapted.None? then None
    else Some(Obj(Spread(rest, [Field("properties", Obj(FromEntries(adapted.value))), Field("additionalProperties", Bool(false))])))
  }

  /** The branch for an array schema: its item schema is adapted. */
  function AdaptArraySchema(fs: seq<Field>): Option<Value>
    requires IsArraySchemaWithItems(fs)
    decreases SizeFields(fs) + 1, 0
  {
    var items := AdaptCrdSchema(ItemsSchema(fs));
    if items.None? then None
    else Some(Obj(Spread(fs, [Field("items", items.value)])))
  }

  /** The `map` over a schema's properties: object schemas are adapted, other values kept. */
  function AdaptProperties(entries: seq<Field>): Option<seq<Field>>
    decreases SizeFields(entries), 2
  {
    if entries == [] then Some([])
    else
      var head := if entries[0].val.Obj? then AdaptCrdSchema(entries[0].val) else Some(entries[0].val);
      var rest := AdaptProperties(entries[1..]);
      if head.None? || rest.None? then None
      else Some([Field(entries[0].key, head.value)] + rest.value)
  }

  /**
   * A schema is closed when every object schema with properties in it, reached
   * through properties and array items, forbids additional properties.
   */
  predicate Closed(v: Value)
    decreases Size(v), 1
  {
    match v
    case Obj(fs) =>
      && (IsObjectSchemaWithProperties(fs) ==>
            Get(fs, "additionalProperties") == Bool(false) && ClosedEntries(PropertyEntries(fs)))
      && (IsArraySchemaWithItems(fs) ==> Closed(ItemsSchema(fs)))
    case _ => true
  }

  predicate ClosedEntries(entries: seq<Field>)
    decreases SizeFields(entries), 2
  {
    entries == [] || (Closed(entries[0].val) && ClosedEntries(entries[1..]))
  }

  lemma {:induction false} ClosedEntriesSetField(fs: seq<Field>, k: string, v: Value)
    requires ClosedEntries(fs) && Closed(v)
    ensures ClosedEntries(SetField(fs, k, v))
  {
    if fs != [] && fs[0].key != k {
      ClosedEntriesSetField(fs[1..], k, v);
      assert SetField(fs, k, v)[1..] == SetField(fs[1..], k, v);
    } else if fs != [] {
      assert SetField(fs, k, v)[1..] == fs[1..];
    }
  }

  lemma {:induction false} ClosedEntriesSpread(base: seq<Field>, extra: seq<Field>)
    requires ClosedEntries(base) && ClosedEntries(extra)
    ensures ClosedEntries(Spread(base, extra))
    decreases |extra|
  {
    if extra != [] {
      ClosedEntriesSetField(base, extra[0].key, extra[0].val);
      ClosedEntriesSpread(SetField(base, extra[0].key, extra[0].val), extra[1..]);
    }
  }

  /** Reading a property after spreading two new properties onto an object. */
  lemma GetSpreadPair(rest: seq<Field>, k1: string, v1: Value, k2: string, v2: Value, k: string)
    ensures Get(Spread(rest, [Field(k1, v1), Field(k2, v2)]), k) ==
      if k == k2 then v2 else if k == k1 then v1 else Get(rest, k)
  {
    var extra := [Field(k1, v1), Field(k2, v2)];
    assert extra[1..][1..] == [];
    var once := SetField(rest, k1, v1);
    assert extra[1..] == [Field(k2, v2)];
    assert Spread(rest, extra) == Spread(once, [Field(k2, v2)]);
    assert Spread(rest, extra) == SetField(once, k2, v2);
    GetSetField(rest, k1, v1, k);
    GetSetField(once, k2, v2, k);
  }

  /** The keys after spreading two new properties onto an object: those of the object and the two. */
  lemma HasSpreadPair(rest: seq<Field>, k1: string, v1: Value, k2: string, v2: Value, k: string)
    ensures Has(Spread(rest, [Field(k1, v1), Field(k2, v2)]), k) <==> k == k1 || k == k2 || Has(rest, k)
  {
    var extra := [Field(k1, v1), Field(k2, v2)];
    assert extra[1..][1..] == [];
    var once := SetField(rest, k1, v1);
    assert extra[1..] == [Field(k2, v2)];
    assert Spread(rest, extra) == Spread(once, [Field(k2, v2)]);
    assert Spread(rest, extra) == SetField(once, k2, v2);
    SetFieldKeys(rest, k1, v1);
    SetFieldKeys(once, k2, v2);
  }

  /** Reading a property after spreading one new property onto an object. */
  lemma GetSpreadOne(rest: seq<Field>, k1: string, v1: Value, k: string)
    ensures Get(Spread(rest, [Field(k1, v1)]), k) == if k == k1 then v1 else Get(rest, k)
  {
    assert Spread(rest, [Field(k1, v1)]) == SetField(rest, k1, v1);
    GetSetField(rest, k1, v1, k);
  }

  /** The result of the `oneOf` branch is closed: it has no `properties` left and is not an array schema. */
  lemma OneOfResultClosed(rest: seq<Field>, oneOf: Value)
    requires !Has(rest, "properties") && Get(rest, "type") == Str("object")
    ensures Closed(Obj(Spread(rest, [Field("oneOf", oneOf), Field("additionalProperties", Bool(false))])))
  {
    var r := Spread(rest, [Field("oneOf", oneOf), Field("additionalProperties", Bool(false))]);
    GetSpreadPair(rest, "oneOf", oneOf, "additionalProperties", Bool(false), "properties");
    GetSpreadPair(rest, "oneOf", oneOf, "additionalProperties", Bool(false), "type");
    assert !IsObjectSchemaWithProperties(r);
    assert !IsArraySchemaWithItems(r);
  }

  /** The result of the `properties` branch is closed when its adapted properties are. */
  lemma PropertiesResultClosed(rest: seq<Field>, adapted: seq<Field>)
    requires Get(rest, "type") == Str("object") && ClosedEntries(adapted)
    ensures Closed(Obj(Spread(rest, [Field("properties", Obj(FromEntries(adapted))),
                                     Field("additionalProperties", Bool(false))])))
  {
    var props := Obj(FromEntries(adapted));
    var r := Spread(rest, [Field("properties", props), Field("additionalProperties", Bool(false))]);
    GetSpreadPair(rest, "properties", props, "additionalProperties", Bool(false), "properties");
    GetSpreadPair(rest, "properties", props, "additionalProperties", Bool(false), "additionalProperties");
    GetSpreadPair(rest, "properties", props, "additionalProperties", Bool(false), "type");
    assert IsObjectSchemaWithProperties(r);
    assert PropertyEntries(r) == FromEntries(adapted);
    ClosedEntriesSpread([], adapted);
    assert !IsArraySchemaWithItems(r);
  }

  /** The result of the `items` branch is closed when its adapted item schema is. */
  lemma ItemsResultClosed(fs: seq<Field>, items: Value)
    requires Get(fs, "type") == Str("array") && Closed(items)
    ensures Closed(Obj(Spread(fs, [Field("items", items)])))
  {
    var r := Spread(fs, [Field("items", items)]);
    GetSpreadOne(fs, "items", items, "items");
    GetSpreadOne(fs, "items", items, "type");
    assert !IsObjectSchemaWithProperties(r);
  }

  /**
   * Adapting a schema closes it: `additionalProperties: false` is set on every
   * object schema that has properties, down through properties and array items.
   */
  lemma {:induction false} AdaptCloses(v: Value)
    requires AdaptCrdSchema(v).Some?
    ensures Closed(AdaptCrdSchema(v).value)
    decreases Size(v), 1
  {
    if v.Obj? {
      var fs := v.fields;
      if IsObjectSchemaWithProperties(fs) {
        if Get(fs, "oneOf").Arr? {
          OneOfBranchCloses(fs);
        } else {
          PropertiesBranchCloses(fs);
        }
      } else if IsArraySchemaWithItems(fs) {
        ArrayBranchCloses(fs);
      }
    }
  }

  lemma OneOfBranchCloses(fs: seq<Field>)
    requires IsObjectSchemaWithProperties(fs) && Get(fs, "oneOf").Arr? && AdaptOneOfSchema(fs).Some?
    ensures Closed(AdaptOneOfSchema(fs).value)
  {
    var rest := Without(fs, {"properties", "oneOf"});
    var pt := PropertyTypes(PropertyEntries(fs));
    var adapted := AdaptOneOfItems(Get(fs, "oneOf").items, pt.value);
    assert !Has(rest, "properties") && Get(rest, "type") == Get(fs, "type");
    assert AdaptOneOfSchema(fs).value == Obj(Spread(rest, [Field("oneOf", Arr(adapted.value)), Field("additionalProperties", Bool(false))]));
    OneOfResultClosed(rest, Arr(adapted.value));
  }

  lemma {:induction false} PropertiesBranchCloses(fs: seq<Field>)
    requires IsObjectSchemaWithProperties(fs) && AdaptPropertiesSchema(fs).Some?
    ensures Closed(AdaptPropertiesSchema(fs).value)
    decreases SizeFields(fs) + 1, 0
  {
    var entries := PropertyEntries(fs);
    AdaptPropertiesClose(entries);
    PropertiesResultClosed(Without(fs, {"properties", "oneOf"}), AdaptProperties(entries).value);
  }

  lemma {:induction false} ArrayBranchCloses(fs: seq<Field>)
    requires IsArraySchemaWithItems(fs) && AdaptArraySchema(fs).Some?
    ensures Closed(AdaptArraySchema(fs).value)
    decreases SizeFields(fs) + 1, 0
  {
    AdaptCloses(ItemsSchema(fs));
    ItemsResultClosed(fs, AdaptCrdSchema(ItemsSchema(fs)).value);
  }

  lemma {:induction false} AdaptPropertiesClose(entries: seq<Field>)
    requires AdaptProperties(entries).Some?
    ensures ClosedEntries(AdaptProperties(entries).value)
    decreases SizeFields(entries), 2
  {
    if entries != [] {
      if entries[0].val.Obj? {
        AdaptCloses(entries[0].val);
      }
      AdaptPropertiesClose(entries[1..]);
    }
  }

  /** Adapting the properties fails exactly when adapting some object-valued property fails. */
  lemma {:induction false} AdaptPropertiesSucceeds(entries: seq<Field>)
    ensures AdaptProperties(entries).Some? <==>
      forall i :: 0 <= i < |entries| && entries[i].val.Obj? ==> AdaptCrdSchema(entries[i].val).Some?
  {
    if entries != [] {
      AdaptPropertiesSucceeds(entries[1..]);
      assert forall i :: 1 <= i < |entries| ==> entries[i] == entries[1..][i - 1];
    }
  }

  /** Property by property, each object-valued property is adapted in turn and every other value is kept, under its key. */
  lemma {:induction false} AdaptPropertiesPointwise(entries: seq<Field>)
    requires AdaptProperties(entries).Some?
    ensures |AdaptProperties(entries).value| == |entries|
    ensures forall i :: 0 <= i < |entries| ==>
      && AdaptProperties(entries).value[i].key == entries[i].key
      && (entries[i].val.Obj? ==> AdaptCrdSchema(entries[i].val) == Some(AdaptProperties(entries).value[i].val))
      && (!entries[i].val.Obj? ==> AdaptProperties(entries).value[i].val == entries[i].val)
  {
    if entries != [] {
      AdaptPropertiesPointwise(entries[1..]);
      assert forall i :: 1 <= i < |entries| ==> entries[i] == entries[1..][i - 1];
    }
  }

  /** A `oneOf` item that has `properties` comes out closed. */
  lemma OneOfItemClosed(item: Value, propertyTypes: seq<Field>)
    requires item.Obj? && Has(item.fields, "properties") && AdaptOneOfItem(item, propertyTypes).Some?
    ensures AdaptOneOfItem(item, propertyTypes).value.Obj?
    ensures Get(AdaptOneOfItem(item, propertyTypes).value.fields, "additionalProperties") == Bool(false)
    ensures Get(AdaptOneOfItem(item, propertyTypes).value.fields, "properties").Obj?
  {
    var props := FromEntries(OneOfProperties(ObjectEntries(Get(item.fields, "properties")).value, propertyTypes));
    GetSpreadPair(item.fields, "properties", Obj(props), "additionalProperties", Bool(false), "additionalProperties");
    GetSpreadPair(item.fields, "properties", Obj(props), "additionalProperties", Bool(false), "properties");
  }

  /**
   * With a `oneOf` list: the parent's `properties` are dropped, `oneOf` keeps its
   * length, and every item that has `properties` gains `additionalProperties: false`.
   */
  lemma OneOfDropsParentProperties(fs: seq<Field>)
    requires IsObjectSchemaWithProperties(fs) && Get(fs, "oneOf").Arr?
    requires AdaptCrdSchema(Obj(fs)).Some?
    ensures var r := AdaptCrdSchema(Obj(fs)).value.fields;
      && !Has(r, "properties")
      && Get(r, "additionalProperties") == Bool(false)
      && Get(r, "oneOf").Arr?
      && |Get(r, "oneOf").items| == |Get(fs, "oneOf").items|
      && forall i ::
           (0 <= i < |Get(r, "oneOf").items| && Get(fs, "oneOf").items[i].Obj? &&
            Has(Get(fs, "oneOf").items[i].fields, "properties")) ==>
           Get(r, "oneOf").items[i].Obj? &&
           Get(Get(r, "oneOf").items[i].fields, "additionalProperties") == Bool(false)
  {
    assert AdaptCrdSchema(Obj(fs)) == AdaptOneOfSchema(fs);
    OneOfSchemaShape(fs);
  }

  lemma OneOfSchemaShape(fs: seq<Field>)
    requires IsObjectSchemaWithProperties(fs) && Get(fs, "oneOf").Arr?
    requires AdaptOneOfSchema(fs).Some?
    ensures var r := AdaptOneOfSchema(fs).value.fields;
      && !Has(r, "properties")
      && Get(r, "additionalProperties") == Bool(false)
      && Get(r, "oneOf").Arr?
      && |Get(r, "oneOf").items| == |Get(fs, "oneOf").items|
      && forall i ::
           (0 <= i < |Get(r, "oneOf").items| && Get(fs, "oneOf").items[i].Obj? &&
            Has(Get(fs, "oneOf").items[i].fields, "properties")) ==>
           Get(r, "oneOf").items[i].Obj? &&
           Get(Get(r, "oneOf").items[i].fields, "additionalProperties") == Bool(false)
  {
    var rest := Without(fs, {"properties", "oneOf"});
    var pt := PropertyTypes(PropertyEntries(fs)).value;
    var items := Get(fs, "oneOf").items;
    var adapted := AdaptOneOfItems(items, pt).value;
    var r := AdaptOneOfSchema(fs).value.fields;
    assert r == Spread(rest, [Field("oneOf", Arr(adapted)), Field("additionalProperties", Bool(false))]);
    HasSpreadPair(rest, "oneOf", Arr(adapted), "additionalProperties", Bool(false), "properties");
    GetSpreadPair(rest, "oneOf", Arr(adapted), "additionalProperties", Bool(false), "oneOf");
    GetSpreadPair(rest, "oneOf", Arr(adapted), "additionalProperties", Bool(false), "additionalProperties");
    forall i | 0 <= i < |adapted| && items[i].Obj? && Has(items[i].fields, "properties")
      ensures adapted[i].Obj? && Get(adapted[i].fields, "additionalProperties") == Bool(false)
    {
      OneOfItemClosed(items[i], pt);
    }
  }

  /**
   * Inside a `oneOf` item, a null property becomes `{type: parentType}` and an
   * object property gets the parent type unless it sets its own `type`.
   */
  lemma OneOfPropertyTyping(f: Field, propertyTypes: seq<Field>)
    ensures var parentType := Get(FromEntries(propertyTypes), f.key);
      && (f.val.Null? ==> OneOfProperty(f, propertyTypes).val == Obj([Field("type", parentType)]))
      && (f.val.Obj? && UniqueKeys(f.val.fields) ==>
            Get(OneOfProperty(f, propertyTypes).val.fields, "type") ==
              if Has(f.val.fields, "type") then Get(f.val.fields, "type") else parentType)
      && (!f.val.Null? && !f.val.Obj? && !f.val.Arr? ==> OneOfProperty(f, propertyTypes) == f)
  {
    if f.val.Obj? && UniqueKeys(f.val.fields) {
      var parentType := Get(FromEntries(propertyTypes), f.key);
      GetSpread([Field("type", parentType)], f.val.fields, "type");
    }
  }

  // ---------------------------------------------------------------------------
  // Import merging

  /** One `import {…} from "…"` line: a module and the names taken from it. */
  datatype ImportGroup = ImportGroup(from: string, props: seq<string>)

  /** The elements of a sequence, as a set. */
  function Elems<T>(xs: seq<T>): set<T> {
    set x | x in xs
  }

  lemma ElemsSnoc<T>(xs: seq<T>, x: T)
    ensures Elems(xs + [x]) == Elems(xs) + {x}
  {
    assert forall y :: y in xs + [x] <==> y in xs || y == x;
  }

  predicate NoDuplicates<T(==)>(xs: seq<T>) {
    forall i, j :: 0 <= i < j < |xs| ==> xs[i] != xs[j]
  }

  /** Every name the imports take from module `from`. */
  function PropsFrom(imports: seq<ImportDef>, from: string): set<string> {
    set i, p | 0 <= i < |imports| && imports[i].from == from && p in imports[i].props :: p
  }

  predicate ImportedFrom(imports: seq<ImportDef>, from: string) {
    exists i :: 0 <= i < |imports| && imports[i].from == from
  }

  function GroupIndex(groups: seq<ImportGroup>, from: string): (j: int)
    ensures -1 <= j < |groups|
    ensures j == -1 <==> forall i :: 0 <= i < |groups| ==> groups[i].from != from
    ensures j >= 0 ==> groups[j].from == from
  {
    if groups == [] then -1
    else if groups[|groups| - 1].from == from then |groups| - 1
    else GroupIndex(groups[..|groups| - 1], from)
  }

  /** `props.reduce((s, p) => s.add(p), current)`: appends the names not yet in the set. */
  method AddAll(current: seq<string>, props: seq<string>) returns (r: seq<string>)
    requires NoDuplicates(current)
    ensures NoDuplicates(r)
    ensures Elems(r) == Elems(current) + Elems(props)
    ensures |current| <= |r| && r[..|current|] == current
    ensures r == Dedup(current + props)
  {
    r := current;
    DedupOfDistinct(current);
    assert current + props[..0] == current;
    var i := 0;
    while i < |props|
      invariant 0 <= i <= |props|
      invariant r == Dedup(current + props[..i])
    {
      AddOneMore(current, props, i);
      if props[i] !in r {
        r := r + [props[i]];
      }
      i := i + 1;
    }
    assert props[..i] == props;
    DedupUnion(current, props);
    DedupKeepsPrefix(current, props);
  }

  /** The set built from distinct names and more names lists the distinct ones first, as they are. */
  lemma {:induction false} DedupKeepsPrefix(current: seq<string>, props: seq<string>)
    requires NoDuplicates(current)
    ensures |current| <= |Dedup(current + props)| && Dedup(current + props)[..|current|] == current
  {
    if props == [] {
      assert current + props == current;
      DedupOfDistinct(current);
    } else {
      var init := props[..|props| - 1];
      DedupKeepsPrefix(current, init);
      assert current + props == (current + init) + [props[|props| - 1]];
      DedupSnoc(current + init, props[|props| - 1]);
    }
  }

  /** The set built from two lists holds each of their names once. */
  lemma DedupUnion(current: seq<string>, props: seq<string>)
    ensures NoDuplicates(Dedup(current + props))
    ensures Elems(Dedup(current + props)) == Elems(current) + Elems(props)
  {
    assert forall y :: y in Dedup(current + props) <==> y in current + props;
  }

  /** Adding the next name of `props` to the set built so far. */
  lemma AddOneMore(current: seq<string>, props: seq<string>, i: nat)
    requires i < |props|
    ensures var before := Dedup(current + props[..i]);
      Dedup(current + props[..i + 1]) == if props[i] in before then before else before + [props[i]]
  {
    assert current + props[..i + 1] == (current + props[..i]) + [props[i]];
    DedupSnoc(current + props[..i], props[i]);
  }

  /** A set built from names that are already distinct lists them as they are. */
  lemma {:induction false} DedupOfDistinct(xs: seq<string>)
    requires NoDuplicates(xs)
    ensures Dedup(xs) == xs
  {
    if xs != [] {
      var init := xs[..|xs| - 1];
      assert NoDuplicates(init);
      DedupOfDistinct(init);
      assert xs[|xs| - 1] !in init;
    }
  }

  /** An import from a module that already has a group leaves the order of the groups alone. */
  lemma GroupOrderKept(groups: seq<ImportGroup>, seen: seq<ImportDef>, imp: ImportDef, j: nat, g: ImportGroup)
    requires GroupFroms(groups) == Dedup(Froms(seen))
    requires j < |groups| && groups[j].from == imp.from && g.from == imp.from
    ensures GroupFroms(groups[j := g]) == Dedup(Froms(seen + [imp]))
  {
    assert Froms(seen + [imp]) == Froms(seen) + [imp.from];
    DedupSnoc(Froms(seen), imp.from);
    assert GroupFroms(groups)[j] == imp.from;
    assert GroupFroms(groups[j := g]) == GroupFroms(groups);
  }

  /** An import from a new module adds its group last. */
  lemma GroupOrderAppended(groups: seq<ImportGroup>, seen: seq<ImportDef>, imp: ImportDef, g: ImportGroup)
    requires GroupFroms(groups) == Dedup(Froms(seen)) && g.from == imp.from
    requires forall i :: 0 <= i < |groups| ==> groups[i].from != imp.from
    ensures GroupFroms(groups + [g]) == Dedup(Froms(seen + [imp]))
  {
    assert Froms(seen + [imp]) == Froms(seen) + [imp.from];
    DedupSnoc(Froms(seen), imp.from);
    assert imp.from !in GroupFroms(groups);
    assert GroupFroms(groups + [g]) == GroupFroms(groups) + [imp.from];
  }

  /** The module each import takes its names from, in order. */
  function Froms(imports: seq<ImportDef>): (r: seq<string>)
    ensures |r| == |imports| && forall k :: 0 <= k < |imports| ==> r[k] == imports[k].from
  {
    seq(|imports|, k requires 0 <= k < |imports| => imports[k].from)
  }

  /** The module of each group, in order. */
  function GroupFroms(groups: seq<ImportGroup>): (r: seq<string>)
    ensures |r| == |groups| && forall i :: 0 <= i < |groups| ==> r[i] == groups[i].from
  {
    seq(|groups|, i requires 0 <= i < |groups| => groups[i].from)
  }

  /** The names the imports take from module `from`, in import order, repeats included. */
  function PropsSeq(imports: seq<ImportDef>, from: string): seq<string> {
    if imports == [] then []
    else
      var last := imports[|imports| - 1];
      PropsSeq(imports[..|imports| - 1], from) + (if last.from == from then last.props else [])
  }

  /** Each group lists its names in the order they are first imported from its module. */
  predicate PropsInOrder(groups: seq<ImportGroup>, imports: seq<ImportDef>) {
    forall i :: 0 <= i < |groups| ==> groups[i].props == Dedup(PropsSeq(imports, groups[i].from))
  }

  lemma PropsSeqSnoc(seen: seq<ImportDef>, imp: ImportDef, from: string)
    ensures PropsSeq(seen + [imp], from) == PropsSeq(seen, from) + (if imp.from == from then imp.props else [])
  {
    assert (seen + [imp])[..|seen|] == seen;
  }

  /** A module nothing is imported from contributes no names. */
  lemma {:induction false} PropsSeqAbsent(seen: seq<ImportDef>, from: string)
    requires forall k :: 0 <= k < |seen| ==> seen[k].from != from
    ensures PropsSeq(seen, from) == []
  {
    if seen != [] {
      PropsSeqAbsent(seen[..|seen| - 1], from);
    }
  }

  /** Adding names to a set built from `a` is building it from `a` and the names. */
  lemma {:induction false} DedupAgain(a: seq<string>, b: seq<string>)
    ensures Dedup(Dedup(a) + b) == Dedup(a + b)
  {
    if b == [] {
      assert Dedup(a) + b == Dedup(a) && a + b == a;
      DedupOfDistinct(Dedup(a));
    } else {
      var init := b[..|b| - 1];
      var x := b[|b| - 1];
      DedupAgain(a, init);
      assert Dedup(a) + b == (Dedup(a) + init) + [x];
      assert a + b == (a + init) + [x];
      DedupSnoc(Dedup(a) + init, x);
      DedupSnoc(a + init, x);
    }
  }

  /** A new module's group lists its names as the import gives them; the other groups are unaffected. */
  lemma PropsOrderAppended(groups: seq<ImportGroup>, seen: seq<ImportDef>, imp: ImportDef, names: seq<string>)
    requires PropsInOrder(groups, seen)
    requires forall i :: 0 <= i < |groups| ==> groups[i].from != imp.from
    requires forall k :: 0 <= k < |seen| ==> seen[k].from != imp.from
    requires names == Dedup([] + imp.props)
    ensures PropsInOrder(groups + [ImportGroup(imp.from, names)], seen + [imp])
  {
    var r := groups + [ImportGroup(imp.from, names)];
    PropsSeqAbsent(seen, imp.from);
    assert [] + imp.props == imp.props;
    forall i | 0 <= i < |r| ensures r[i].props == Dedup(PropsSeq(seen + [imp], r[i].from)) {
      PropsSeqSnoc(seen, imp, r[i].from);
      if i < |groups| {
        assert r[i] == groups[i] && groups[i].from != imp.from;
        assert PropsSeq(seen, r[i].from) + [] == PropsSeq(seen, r[i].from);
      }
    }
  }

  /** A known module's group gains the import's new names at its end; the other groups are unaffected. */
  lemma PropsOrderKept(groups: seq<ImportGroup>, seen: seq<ImportDef>, imp: ImportDef, j: nat, merged: seq<string>)
    requires PropsInOrder(groups, seen)
    requires j < |groups| && groups[j].from == imp.from
    requires forall i :: 0 <= i < |groups| && i != j ==> groups[i].from != imp.from
    requires merged == Dedup(groups[j].props + imp.props)
    ensures PropsInOrder(groups[j := ImportGroup(imp.from, merged)], seen + [imp])
  {
    var r := groups[j := ImportGroup(imp.from, merged)];
    forall i | 0 <= i < |r| ensures r[i].props == Dedup(PropsSeq(seen + [imp], r[i].from)) {
      PropsSeqSnoc(seen, imp, r[i].from);
      if i == j {
        DedupAgain(PropsSeq(seen, imp.from), imp.props);
        assert r[i].props == merged && groups[j].props == Dedup(PropsSeq(seen, imp.from));
      } else {
        assert r[i] == groups[i] && groups[i].from != imp.from;
        assert PropsSeq(seen, r[i].from) + [] == PropsSeq(seen, r[i].from);
      }
    }
  }

  predicate HasGroup(groups: seq<ImportGroup>, from: string) {
    exists i :: 0 <= i < |groups| && groups[i].from == from
  }

  /**
   * `groups` is the import map of `imports`: one group per distinct module
   * imported from, each holding, once each, exactly the names taken from it.
   */
  predicate GroupsOf(groups: seq<ImportGroup>, imports: seq<ImportDef>) {
    && (forall i, j :: 0 <= i < j < |groups| ==> groups[i].from != groups[j].from)
    && (forall i :: 0 <= i < |groups| ==> ImportedFrom(imports, groups[i].from))
    && (forall k :: 0 <= k < |imports| ==> HasGroup(groups, imports[k].from))
    && (forall i :: 0 <= i < |groups| ==>
          NoDuplicates(groups[i].props) && Elems(groups[i].props) == PropsFrom(imports, groups[i].from))
  }

  /** One step of the `reduce`: a new module gets a group of its own, a known one gains the new names. */
  method AddImport(groups: seq<ImportGroup>, ghost seen: seq<ImportDef>, imp: ImportDef) returns (r: seq<ImportGroup>)
    requires GroupsOf(groups, seen) && GroupFroms(groups) == Dedup(Froms(seen)) && PropsInOrder(groups, seen)
    ensures GroupsOf(r, seen + [imp])
    ensures GroupFroms(r) == Dedup(Froms(seen + [imp]))
    ensures PropsInOrder(r, seen + [imp])
  {
    var j := GroupIndex(groups, imp.from);
    if j == -1 {
      var names := AddAll([], imp.props);
      assert Elems<string>([]) == {};
      GroupsAppend(groups, seen, imp, names);
      GroupOrderAppended(groups, seen, imp, ImportGroup(imp.from, names));
      forall k | 0 <= k < |seen| ensures seen[k].from != imp.from {
        assert HasGroup(groups, seen[k].from);
      }
      PropsOrderAppended(groups, seen, imp, names);
      r := groups + [ImportGroup(imp.from, names)];
    } else {
      var merged := AddAll(groups[j].props, imp.props);
      GroupsExtend(groups, seen, imp, j, merged);
      GroupOrderKept(groups, seen, imp, j, ImportGroup(imp.from, merged));
      PropsOrderKept(groups, seen, imp, j, merged);
      r := groups[j := ImportGroup(imp.from, merged)];
    }
  }

  /**
   * The `reduce` into a `Map<string, Set<string>>`: one group per distinct
   * module, in first-seen order, holding the union of the names taken from it.
   */
  method MergeImports(imports: seq<ImportDef>) returns (groups: seq<ImportGroup>)
    ensures GroupsOf(groups, imports)
    ensures GroupFroms(groups) == Dedup(Froms(imports))
    ensures PropsInOrder(groups, imports)
  {
    groups := [];
    var n := 0;
    while n < |imports|
      invariant 0 <= n <= |imports|
      invariant GroupsOf(groups, imports[..n])
      invariant GroupFroms(groups) == Dedup(Froms(imports[..n]))
      invariant PropsInOrder(groups, imports[..n])
    {
      assert imports[..n + 1] == imports[..n] + [imports[n]];
      groups := AddImport(groups, imports[..n], imports[n]);
      n := n + 1;
    }
    assert imports[..n] == imports;
  }

  lemma PropsFromSnoc(seen: seq<ImportDef>, imp: ImportDef, from: string)
    ensures PropsFrom(seen + [imp], from) ==
      PropsFrom(seen, from) + (if imp.from == from then Elems(imp.props) else {})
  {
    var next := seen + [imp];
    forall p | p in PropsFrom(next, from)
      ensures p in PropsFrom(seen, from) + (if imp.from == from then Elems(imp.props) else {})
    {
      var i :| 0 <= i < |next| && next[i].from == from && p in next[i].props;
      if i < |seen| {
        assert next[i] == seen[i];
      }
    }
    forall p | p in PropsFrom(seen, from) ensures p in PropsFrom(next, from) {
      var i :| 0 <= i < |seen| && seen[i].from == from && p in seen[i].props;
      assert next[i] == seen[i];
    }
    if imp.from == from {
      forall p | p in imp.props ensures p in PropsFrom(next, from) {
        assert next[|seen|] == imp;
      }
    }
  }

  lemma ImportedFromSnoc(seen: seq<ImportDef>, imp: ImportDef, from: string)
    ensures ImportedFrom(seen + [imp], from) <==> ImportedFrom(seen, from) || imp.from == from
  {
    var next := seen + [imp];
    if ImportedFrom(next, from) && imp.from != from {
      var k :| 0 <= k < |next| && next[k].from == from;
      assert next[k] == seen[k];
    }
    if ImportedFrom(seen, from) {
      var k :| 0 <= k < |seen| && seen[k].from == from;
      assert next[k] == seen[k];
    }
    assert next[|seen|] == imp;
  }

  /** Adding a module not seen before appends a group for it. */
  lemma GroupsAppend(groups: seq<ImportGroup>, seen: seq<ImportDef>, imp: ImportDef, names: seq<string>)
    requires GroupsOf(groups, seen)
    requires forall i :: 0 <= i < |groups| ==> groups[i].from != imp.from
    requires NoDuplicates(names) && Elems(names) == Elems(imp.props)
    ensures GroupsOf(groups + [ImportGroup(imp.from, names)], seen + [imp])
  {
    var next := seen + [imp];
    var r := groups + [ImportGroup(imp.from, names)];
    assert !ImportedFrom(seen, imp.from);
    forall i | 0 <= i < |r|
      ensures ImportedFrom(next, r[i].from)
      ensures NoDuplicates(r[i].props) && Elems(r[i].props) == PropsFrom(next, r[i].from)
    {
      ImportedFromSnoc(seen, imp, r[i].from);
      PropsFromSnoc(seen, imp, r[i].from);
      if i == |groups| {
        assert PropsFrom(seen, imp.from) == {};
      }
    }
    forall k | 0 <= k < |next| ensures HasGroup(r, next[k].from) {
      if k < |seen| {
        assert next[k] == seen[k];
        assert HasGroup(groups, seen[k].from);
        var i :| 0 <= i < |groups| && groups[i].from == seen[k].from;
        assert r[i].from == next[k].from;
      } else {
        assert r[|groups|].from == next[k].from;
      }
    }
  }

  /** Adding a module already seen extends its group with the new names. */
  lemma GroupsExtend(groups: seq<ImportGroup>, seen: seq<ImportDef>, imp: ImportDef, j: nat, merged: seq<string>)
    requires GroupsOf(groups, seen)
    requires j < |groups| && groups[j].from == imp.from
    requires NoDuplicates(merged) && Elems(merged) == Elems(groups[j].props) + Elems(imp.props)
    ensures GroupsOf(groups[j := ImportGroup(imp.from, merged)], seen + [imp])
  {
    var next := seen + [imp];
    var r := groups[j := ImportGroup(imp.from, merged)];
    forall i | 0 <= i < |r|
      ensures ImportedFrom(next, r[i].from)
      ensures NoDuplicates(r[i].props) && Elems(r[i].props) == PropsFrom(next, r[i].from)
    {
      ImportedFromSnoc(seen, imp, r[i].from);
      PropsFromSnoc(seen, imp, r[i].from);
    }
    forall k | 0 <= k < |next| ensures HasGroup(r, next[k].from) {
      if k < |seen| {
        assert next[k] == seen[k];
        assert HasGroup(groups, seen[k].from);
        var i :| 0 <= i < |groups| && groups[i].from == seen[k].from;
        assert r[i].from == next[k].from;
      } else {
        assert r[j].from == next[k].from;
      }
    }
  }

  /** One line per group: `import {a, b} from "module"`. */
  function ImportLine(g: ImportGroup): string {
    "import {" + Join(g.props, ", ") + "} from \"" + g.from + "\""
  }

  /** The import block of a generated types file: the generated imports followed by the patch's. */
  method ImportBlock(generated: seq<ImportDef>, patchImports: seq<ImportDef>) returns (text: string, groups: seq<ImportGroup>)
    ensures GroupsOf(groups, generated + patchImports)
    ensures GroupFroms(groups) == Dedup(Froms(generated + patchImports))
    ensures PropsInOrder(groups, generated + patchImports)
    ensures text == Join(seq(|groups|, i requires 0 <= i < |groups| => ImportLine(groups[i])), "\n")
  {
    groups := MergeImports(generated + patchImports);
    text := Join(seq(|groups|, i requires 0 <= i < |groups| => ImportLine(groups[i])), "\n");
  }
}
