/**
 * Conversion schemas: `"copy"`, `"convert"`, a one-element array `[schema]`
 * for arrays, or an object of field specs; the `required`, `optional` and
 * `derived` field-spec constructors; the `JSON.parse(JSON.stringify(...))`
 * clone and the in-place patching the extended schemas are built with.
 */
module Schemas {
  import opened Results
  import opened Records
  import opened Values

  /** A conversion function or a `derive` function; Failure stands for a throw. */
  type ValueFn = Value -> Result<Value>

  datatype Schema =
    | CopyValue                          // "copy"
    | ConvertValue                       // "convert"
    | ArrayOf(element: Schema)           // [element]
    | Record(fields: Props<FieldSpec>)   // { key: fieldSpec, ... }

  datatype FieldSpec = FieldSpec(required: bool, schema: Schema, derive: Option<ValueFn>)

  /** `derived(schema, derive)`: a field computed from the whole input record; always required. */
  function Derived(schema: Schema, derive: ValueFn): (f: FieldSpec)
    ensures f.required && f.schema == schema && f.derive == Some(derive)
  {
    FieldSpec(true, schema, Some(derive))
  }

  /** `required(schema)` */
  function Required(schema: Schema): (f: FieldSpec)
    ensures f.required && f.schema == schema && f.derive.None?
  {
    FieldSpec(true, schema, None)
  }

  /** `optional(schema)` */
  function Optional(schema: Schema): (f: FieldSpec)
    ensures !f.required && f.schema == schema && f.derive.None?
  {
    FieldSpec(false, schema, None)
  }

  /** No field spec anywhere in the schema carries a `derive` function. */
  predicate NoDerives(s: Schema) {
    match s
    case ArrayOf(element) => NoDerives(element)
    case Record(fields) =>
      forall i :: 0 <= i < |fields| ==> fields[i].1.derive.None? && NoDerives(fields[i].1.schema)
    case _ => true
  }

  /** No `"convert"` leaf anywhere in the schema. */
  predicate CopyOnly(s: Schema) {
    match s
    case ConvertValue => false
    case ArrayOf(element) => CopyOnly(element)
    case Record(fields) => forall i :: 0 <= i < |fields| ==> CopyOnly(fields[i].1.schema)
    case CopyValue => true
  }

  /** Every object of field specs has distinct keys, as an object literal does. */
  predicate WellFormed(s: Schema) {
    match s
    case ArrayOf(element) => WellFormed(element)
    case Record(fields) =>
      DistinctKeys(fields) && forall i :: 0 <= i < |fields| ==> WellFormed(fields[i].1.schema)
    case _ => true
  }

  /**
   * `JSON.parse(JSON.stringify(schema))`: the strings, arrays, booleans and
   * objects are copied; the `derive` functions, which JSON cannot represent,
   * are dropped.
   */
  function JsonClone(s: Schema): (c: Schema)
    ensures NoDerives(c)
  {
    match s
    case ArrayOf(element) => ArrayOf(JsonClone(element))
    case Record(fields) =>
      Record(seq(|fields|, i requires 0 <= i < |fields| =>
        (fields[i].0, FieldSpec(fields[i].1.required, JsonClone(fields[i].1.schema), None))))
    case _ => s
  }

  /** A schema without `derive` functions survives the JSON round trip unchanged. */
  lemma {:induction false} CloneIdentity(s: Schema)
    requires NoDerives(s)
    ensures JsonClone(s) == s
  {
    match s
    case ArrayOf(element) => CloneIdentity(element);
    case Record(fields) =>
      forall i | 0 <= i < |fields| ensures JsonClone(fields[i].1.schema) == fields[i].1.schema {
        CloneIdentity(fields[i].1.schema);
      }
      assert JsonClone(s).fields == fields;
    case _ =>
  }

  /** The clone has `"convert"` leaves exactly where the original has them. */
  lemma {:induction false} CloneCopyOnly(s: Schema)
    ensures CopyOnly(JsonClone(s)) == CopyOnly(s)
  {
    match s
    case ArrayOf(element) => CloneCopyOnly(element);
    case Record(fields) =>
      forall i | 0 <= i < |fields| ensures CopyOnly(JsonClone(fields[i].1.schema)) == CopyOnly(fields[i].1.schema) {
        CloneCopyOnly(fields[i].1.schema);
      }
      var cloned := JsonClone(s).fields;
      assert forall i :: 0 <= i < |fields| ==> cloned[i].1.schema == JsonClone(fields[i].1.schema);
    case _ =>
  }

  /** Reading a field of a cloned object: the clone of the original field, without `derive`. */
  lemma {:induction false} CloneGet(fields: Props<FieldSpec>, k: string)
    ensures Get(JsonClone(Record(fields)).fields, k) ==
      if Get(fields, k).None? then None
      else Some(FieldSpec(Get(fields, k).value.required, JsonClone(Get(fields, k).value.schema), None))
  {
    if fields != [] {
      var cloned := JsonClone(Record(fields)).fields;
      assert cloned[1..] == JsonClone(Record(fields[1..])).fields;
      CloneGet(fields[1..], k);
    }
  }

  /** A field spec as the JSON round trip leaves it: its schema cloned, its `derive` gone. */
  function CloneSpec(f: FieldSpec): (c: FieldSpec)
    ensures c.required == f.required && c.derive.None?
  {
    FieldSpec(f.required, JsonClone(f.schema), None)
  }

  /** Following a path through the clone reaches the clone of what it reaches in the original. */
  lemma {:induction false} CloneLookup(s: Schema, path: seq<string>)
    ensures Lookup(JsonClone(s), path) ==
      if Lookup(s, path).None? then None else Some(CloneSpec(Lookup(s, path).value))
    decreases |path|
  {
    if path != [] && s.Record? {
      CloneGet(s.fields, path[0]);
      if |path| > 1 && Get(s.fields, path[0]).Some? {
        CloneLookup(Get(s.fields, path[0]).value.schema, path[1..]);
      }
    }
  }

  /** The clone of an object of field specs has the original's keys, in the same order. */
  lemma CloneKeys(fields: Props<FieldSpec>)
    ensures Keys(JsonClone(Record(fields)).fields) == Keys(fields)
  {
    var cloned := JsonClone(Record(fields)).fields;
    assert forall i :: 0 <= i < |fields| ==> Keys(cloned)[i] == Keys(fields)[i];
  }

  /** The clone keeps every object's keys, so it is well formed exactly when the original is. */
  lemma {:induction false} CloneWellFormed(s: Schema)
    ensures WellFormed(JsonClone(s)) == WellFormed(s)
  {
    match s
    case ArrayOf(element) => CloneWellFormed(element);
    case Record(fields) =>
      CloneKeys(fields);
      forall i | 0 <= i < |fields| ensures WellFormed(JsonClone(fields[i].1.schema)) == WellFormed(fields[i].1.schema) {
        CloneWellFormed(fields[i].1.schema);
      }
    case _ =>
  }

  /** The field spec at `schema.k1.schema.k2 ... .schema.kn`, if every step exists. */
  function Lookup(s: Schema, path: seq<string>): Option<FieldSpec>
    decreases |path|
  {
    if path == [] || !s.Record? then None
    else
      match Get(s.fields, path[0])
      case None => None
      case Some(f) => if |path| == 1 then Some(f) else Lookup(f.schema, path[1..])
  }

  /** A two-key path looks up the first key, then the second key in that field's schema. */
  lemma LookupPair(s: Schema, k1: string, k2: string)
    ensures Lookup(s, [k1, k2]) ==
      if !s.Record? || Get(s.fields, k1).None? then None else Lookup(Get(s.fields, k1).value.schema, [k2])
  {
    assert [k1, k2][1..] == [k2];
  }

  /** The records along `path` exist, so that assigning the field at its end does not throw. */
  predicate CanAssign(s: Schema, path: seq<string>)
    decreases |path|
  {
    path != [] && s.Record? &&
    (|path| > 1 ==> Get(s.fields, path[0]).Some? && CanAssign(Get(s.fields, path[0]).value.schema, path[1..]))
  }

  /**
   * `schema.k1.schema.k2 ... .schema.kn = spec`: replaces that field spec,
   * in its place, or appends it when the last key is new.
   */
  function Assign(s: Schema, path: seq<string>, spec: FieldSpec): (r: Schema)
    requires CanAssign(s, path)
    ensures r.Record? && Lookup(r, path) == Some(spec)
    ensures forall k :: k != path[0] ==> Get(r.fields, k) == Get(s.fields, k)
    ensures |path| > 1 ==> Keys(r.fields) == Keys(s.fields)
    ensures |s.fields| > 0 ==>
      |r.fields| > 0 && r.fields[0].0 == s.fields[0].0 &&
      r.fields[0].1.derive == if |path| == 1 && s.fields[0].0 == path[0] then spec.derive else s.fields[0].1.derive
    decreases |path|
  {
    if |path| == 1 then
      GetSet(s.fields, path[0], spec);
      Record(Set(s.fields, path[0], spec))
    else
      var f := Get(s.fields, path[0]).value;
      var patched := f.(schema := Assign(f.schema, path[1..], spec));
      SetKeys(s.fields, path[0], patched);
      GetSet(s.fields, path[0], patched);
      Record(Set(s.fields, path[0], patched))
  }

  /** The two paths part at some key, so neither is a prefix of the other. */
  predicate Diverges(p: seq<string>, q: seq<string>)
    decreases |p|
  {
    p != [] && q != [] && (p[0] != q[0] || Diverges(p[1..], q[1..]))
  }

  /** Patching one field spec leaves every field spec off its path as it was. */
  lemma {:induction false} AssignElsewhere(s: Schema, path: seq<string>, spec: FieldSpec, q: seq<string>)
    requires CanAssign(s, path) && Diverges(path, q)
    ensures Lookup(Assign(s, path, spec), q) == Lookup(s, q)
    decreases |path|
  {
    var r := Assign(s, path, spec);
    if q[0] == path[0] {
      var f := Get(s.fields, path[0]).value;
      var patched := f.(schema := Assign(f.schema, path[1..], spec));
      assert r.fields == Set(s.fields, path[0], patched);
      GetSet(s.fields, path[0], patched);
      AssignElsewhere(f.schema, path[1..], spec, q[1..]);
    }
  }
}
