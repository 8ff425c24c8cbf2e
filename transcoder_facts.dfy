/**
 * What `convert` promises: element-wise arrays, the per-field rules of the
 * object loop, which keys the output object has and in which order, which
 * entries of the input record the loop may write, and that a schema without
 * `derive` functions leaves its input untouched.
 */
module TranscoderFacts {
  import opened Results
  import opened Records
  import opened Values
  import opened Schemas
  import opened Transcoder

  // ---------------------------------------------------------------------
  // Arrays

  /** One more element of `input.map(...)`: the next element's conversion, appended. */
  lemma RunElemsNext(fn: ValueFn, element: Schema, xs: seq<Value>, n: nat, st: ElemsState)
    requires n < |xs|
    requires RunElems(fn, element, xs, n) == Success(st)
    ensures Transcode(fn, element, xs[n]).Failure? ==>
      RunElems(fn, element, xs, n + 1) == Failure(Transcode(fn, element, xs[n]).error)
    ensures Transcode(fn, element, xs[n]).Success? ==>
      var c := Transcode(fn, element, xs[n]).value;
      RunElems(fn, element, xs, n + 1) == Success(ElemsState(st.outputs + [c.output], st.inputs + [c.input]))
  {
  }

  /** A map that succeeds on `n` elements succeeded on the first `n - 1` and then on element `n - 1`. */
  lemma RunElemsLast(fn: ValueFn, element: Schema, xs: seq<Value>, n: nat)
    requires 0 < n <= |xs|
    requires RunElems(fn, element, xs, n).Success?
    ensures RunElems(fn, element, xs, n - 1).Success? && Transcode(fn, element, xs[n - 1]).Success?
    ensures var prev := RunElems(fn, element, xs, n - 1).value;
      var c := Transcode(fn, element, xs[n - 1]).value;
      RunElems(fn, element, xs, n).value == ElemsState(prev.outputs + [c.output], prev.inputs + [c.input])
  {
  }

  /** `input.map(...)` that succeeds: element i of the result is the conversion of element i. */
  lemma {:induction false} RunElemsOutputs(fn: ValueFn, element: Schema, xs: seq<Value>, n: nat, st: ElemsState)
    requires n <= |xs|
    requires RunElems(fn, element, xs, n) == Success(st)
    ensures |st.outputs| == n && |st.inputs| == n
    ensures forall i :: 0 <= i < n ==> Transcode(fn, element, xs[i]).Success?
    ensures forall i :: 0 <= i < n ==>
      st.outputs[i] == Transcode(fn, element, xs[i]).value.output &&
      st.inputs[i] == Transcode(fn, element, xs[i]).value.input
  {
    if n > 0 {
      RunElemsLast(fn, element, xs, n);
      var prev := RunElems(fn, element, xs, n - 1).value;
      RunElemsOutputs(fn, element, xs, n - 1, prev);
      forall i | 0 <= i < n
        ensures Transcode(fn, element, xs[i]).Success?
        ensures st.outputs[i] == Transcode(fn, element, xs[i]).value.output
        ensures st.inputs[i] == Transcode(fn, element, xs[i]).value.input
      {
        if i < n - 1 {
          assert st.outputs[i] == prev.outputs[i] && st.inputs[i] == prev.inputs[i];
        }
      }
    }
  }

  /** `input.map(...)` that throws throws the error of the first element that fails to convert. */
  lemma {:induction false} RunElemsFirstFailure(fn: ValueFn, element: Schema, xs: seq<Value>, n: nat)
    requires n <= |xs|
    requires RunElems(fn, element, xs, n).Failure?
    ensures exists i :: 0 <= i < n && Transcode(fn, element, xs[i]) == Failure(RunElems(fn, element, xs, n).error) &&
                        forall j :: 0 <= j < i ==> Transcode(fn, element, xs[j]).Success?
  {
    if n > 0 {
      match RunElems(fn, element, xs, n - 1)
      case Failure(e) =>
        RunElemsFirstFailure(fn, element, xs, n - 1);
        ElemsFailurePersists(fn, element, xs, n - 1, n);
      case Success(st) =>
        RunElemsNext(fn, element, xs, n - 1, st);
        RunElemsOutputs(fn, element, xs, n - 1, st);
    } else {
      assert false;
    }
  }

  /** An array schema maps the conversion over an array, keeping length and order; anything else is a TypeError. */
  lemma ArrayElementwise(fn: ValueFn, element: Schema, x: Value)
    ensures !x.Arr? ==> Transcode(fn, ArrayOf(element), x) == Failure(TypeError)
    ensures x.Arr? ==>
      (Transcode(fn, ArrayOf(element), x).Success? <==>
        forall i :: 0 <= i < |x.elems| ==> Transcode(fn, element, x.elems[i]).Success?)
    ensures x.Arr? && Transcode(fn, ArrayOf(element), x).Success? ==>
      var c := Transcode(fn, ArrayOf(element), x).value;
      c.output.Arr? && |c.output.elems| == |x.elems| &&
      forall i :: 0 <= i < |x.elems| ==> c.output.elems[i] == Transcode(fn, element, x.elems[i]).value.output
    ensures x.Arr? && Transcode(fn, ArrayOf(element), x).Failure? ==>
      exists i :: 0 <= i < |x.elems| && Transcode(fn, element, x.elems[i]) == Failure(Transcode(fn, ArrayOf(element), x).error)
  {
    if x.Arr? {
      var xs := x.elems;
      match RunElems(fn, element, xs, |xs|)
      case Success(st) =>
        RunElemsOutputs(fn, element, xs, |xs|, st);
      case Failure(_) =>
        RunElemsFirstFailure(fn, element, xs, |xs|);
    }
  }

  // ---------------------------------------------------------------------
  // One field

  /** A `derive` writes at most its own key and removes nothing. */
  lemma ApplyDeriveFrame(derive: Option<ValueFn>, key: string, record: Props<Value>)
    requires ApplyDerive(derive, key, record).Success?
    ensures var derived := ApplyDerive(derive, key, record).value;
      (forall k :: k != key ==> Get(derived, k) == Get(record, k)) &&
      (Get(record, key).Some? ==> Get(derived, key).Some?)
  {
    match derive
    case None =>
    case Some(d) =>
      if !d(Obj(record)).value.Undefined? {
        GetSet(record, key, d(Obj(record)).value);
      }
  }

  /** A conversion of a value that is not null or undefined leaves a value that is not null or undefined. */
  lemma TranscodeKeepsDefined(fn: ValueFn, s: Schema, x: Value)
    requires !IsNullish(x)
    requires Transcode(fn, s, x).Success?
    ensures !IsNullish(Transcode(fn, s, x).value.input)
  {
  }

  /**
   * What one iteration of the object loop may do to the record: write only
   * the field's own key and never remove it; and it emits an output entry
   * exactly when that key is present afterwards.
   */
  ghost predicate StepFrame(key: string, before: Props<Value>, step: FieldStep) {
    (forall k :: k != key ==> Get(step.record, k) == Get(before, k)) &&
    (Get(before, key).Some? ==> Get(step.record, key).Some?) &&
    (step.emitted.Some? <==> Get(step.record, key).Some?)
  }

  /**
   * One iteration of the object loop writes only the field's own key, never
   * removes it, emits an output entry exactly when the key is present after
   * derivation, and emits `null` for a null or undefined value.
   */
  lemma ConvertFieldFrame(fn: ValueFn, key: string, spec: FieldSpec, record: Props<Value>)
    requires ConvertField(fn, key, spec, record).Success?
    ensures var step := ConvertField(fn, key, spec, record).value;
      StepFrame(key, record, step) &&
      (Get(step.record, key).Some? && IsNullish(Get(step.record, key).value) ==> step.emitted == Some(Null))
  {
    ApplyDeriveFrame(spec.derive, key, record);
    var derived := ApplyDerive(spec.derive, key, record).value;
    match Get(derived, key)
    case None =>
      assert ConvertField(fn, key, spec, record) == Success(FieldStep(None, derived));
    case Some(v) =>
      if IsNullish(v) {
        assert ConvertField(fn, key, spec, record) == Success(FieldStep(Some(Null), derived));
      } else {
        var c := Transcode(fn, spec.schema, v).value;
        TranscodeKeepsDefined(fn, spec.schema, v);
        GetSet(derived, key, c.input);
        assert ConvertField(fn, key, spec, record) == Success(FieldStep(Some(c.output), Set(derived, key, c.input)));
      }
  }

  /** A field whose `derive` returns a defined value is always emitted. */
  lemma DerivedFieldEmitted(fn: ValueFn, key: string, spec: FieldSpec, record: Props<Value>)
    requires spec.derive.Some?
    requires spec.derive.value(Obj(record)).Success? && !spec.derive.value(Obj(record)).value.Undefined?
    ensures ConvertField(fn, key, spec, record).Success? ==> ConvertField(fn, key, spec, record).value.emitted.Some?
  {
    var v := spec.derive.value(Obj(record)).value;
    GetSet(record, key, v);
    assert ApplyDerive(spec.derive, key, record) == Success(Set(record, key, v));
  }

  /** The value a defined `derive` result is written as, overwriting the input's own value. */
  lemma DerivedValueWins(fn: ValueFn, key: string, spec: FieldSpec, record: Props<Value>)
    requires spec.derive.Some?
    requires spec.derive.value(Obj(record)).Success? && !spec.derive.value(Obj(record)).value.Undefined?
    ensures ConvertField(fn, key, spec, record) ==
      ConvertField(fn, key, spec.(derive := None), Set(record, key, spec.derive.value(Obj(record)).value))
  {
  }

  // ---------------------------------------------------------------------
  // The object loop

  /** A field loop that succeeds after `n` fields succeeded after `n - 1` and then on field `n - 1`. */
  lemma RunFieldsLast(fn: ValueFn, fields: Props<FieldSpec>, n: nat, input: Props<Value>)
    requires 0 < n <= |fields|
    requires RunFields(fn, fields, n, input).Success?
    ensures RunFields(fn, fields, n - 1, input).Success?
    ensures var prev := RunFields(fn, fields, n - 1, input).value;
      ConvertField(fn, fields[n - 1].0, fields[n - 1].1, prev.record).Success? &&
      var step := ConvertField(fn, fields[n - 1].0, fields[n - 1].1, prev.record).value;
      RunFields(fn, fields, n, input).value == Advance(fields[n - 1].0, prev, step)
  {
  }

  /** A field loop that succeeds after `m` fields succeeded after every `n <= m`. */
  lemma {:induction false} FieldsSucceedBefore(fn: ValueFn, fields: Props<FieldSpec>, n: nat, m: nat, input: Props<Value>)
    requires n <= m <= |fields|
    requires RunFields(fn, fields, m, input).Success?
    ensures RunFields(fn, fields, n, input).Success?
  {
    if RunFields(fn, fields, n, input).Failure? {
      FieldsFailurePersists(fn, fields, n, m, input);
    }
  }

  /** The loop succeeds on one more field exactly when that field converts on the record so far. */
  lemma RunFieldsNext(fn: ValueFn, fields: Props<FieldSpec>, n: nat, input: Props<Value>, st: FieldsState)
    requires n < |fields|
    requires RunFields(fn, fields, n, input) == Success(st)
    ensures RunFields(fn, fields, n + 1, input).Success? <==> ConvertField(fn, fields[n].0, fields[n].1, st.record).Success?
  {
  }

  /** A required field, not derived, that the record lacks throws "Missing key". */
  lemma RequiredAbsent(fn: ValueFn, key: string, spec: FieldSpec, record: Props<Value>)
    requires spec.required && spec.derive.None? && key !in Keys(record)
    ensures ConvertField(fn, key, spec, record) == Failure(MissingKey(key))
  {
  }

  /** An optional field, not derived, that the record lacks is skipped: no output entry, no write. */
  lemma OptionalAbsent(fn: ValueFn, key: string, spec: FieldSpec, record: Props<Value>)
    requires !spec.required && spec.derive.None? && key !in Keys(record)
    ensures ConvertField(fn, key, spec, record) == Success(FieldStep(None, record))
  {
  }

  /** A null or undefined value becomes `null` in the output, whatever the field's schema and conversion function. */
  lemma NullShortCircuit(fn: ValueFn, key: string, spec: FieldSpec, record: Props<Value>)
    requires spec.derive.None? && Get(record, key).Some? && IsNullish(Get(record, key).value)
    ensures ConvertField(fn, key, spec, record) == Success(FieldStep(Some(Null), record))
  {
  }

  /** A field, not derived, whose present value fails to convert throws that value's error unchanged. */
  lemma ConvertFieldValueFails(fn: ValueFn, key: string, spec: FieldSpec, record: Props<Value>, v: Value)
    requires spec.derive.None? && Get(record, key) == Some(v) && !IsNullish(v)
    requires Transcode(fn, spec.schema, v).Failure?
    ensures ConvertField(fn, key, spec, record) == Failure(Transcode(fn, spec.schema, v).error)
  {
  }

  /** A field that throws makes the loop throw its error once it reaches that field. */
  lemma RunFieldsStepFails(fn: ValueFn, fields: Props<FieldSpec>, n: nat, input: Props<Value>)
    requires n < |fields|
    requires RunFields(fn, fields, n, input).Success?
    requires ConvertField(fn, fields[n].0, fields[n].1, RunFields(fn, fields, n, input).value.record).Failure?
    ensures RunFields(fn, fields, n + 1, input) ==
      Failure(ConvertField(fn, fields[n].0, fields[n].1, RunFields(fn, fields, n, input).value.record).error)
  {
  }

  /** The schema keys among the first `n` fields that `rec` has, in declaration order. */
  function PresentKeys(fields: Props<FieldSpec>, n: nat, rec: Props<Value>): (ks: seq<string>)
    requires n <= |fields|
    ensures forall k :: k in ks ==> k in Keys(rec) && exists i :: 0 <= i < n && fields[i].0 == k
    ensures |ks| <= n
  {
    if n == 0 then []
    else PresentKeys(fields, n - 1, rec) + (if fields[n - 1].0 in Keys(rec) then [fields[n - 1].0] else [])
  }

  /** `PresentKeys` depends only on which schema keys the record has. */
  lemma {:induction false} PresentKeysSame(fields: Props<FieldSpec>, n: nat, r1: Props<Value>, r2: Props<Value>)
    requires n <= |fields|
    requires forall i :: 0 <= i < n ==> (fields[i].0 in Keys(r1) <==> fields[i].0 in Keys(r2))
    ensures PresentKeys(fields, n, r1) == PresentKeys(fields, n, r2)
  {
    if n > 0 {
      PresentKeysSame(fields, n - 1, r1, r2);
    }
  }

  /**
   * The object loop's invariant after the first `n` fields: the output's
   * keys are the schema keys the record has, in declaration order; entries
   * the fields have not reached are as in the input; and no key of the input
   * has been removed.
   */
  ghost predicate FieldsInvariant(fields: Props<FieldSpec>, n: nat, input: Props<Value>, st: FieldsState)
    requires n <= |fields|
  {
    OutputKeysInvariant(fields, n, st) && UntouchedInvariant(fields, n, input, st) && KeptInvariant(input, st)
  }

  /** The output's keys are the schema keys, among the first `n`, that the record has. */
  ghost predicate OutputKeysInvariant(fields: Props<FieldSpec>, n: nat, st: FieldsState)
    requires n <= |fields|
  {
    Keys(st.output) == PresentKeys(fields, n, st.record)
  }

  /** Entries that none of the first `n` fields names are as in the input. */
  ghost predicate UntouchedInvariant(fields: Props<FieldSpec>, n: nat, input: Props<Value>, st: FieldsState)
    requires n <= |fields|
  {
    forall k :: (forall i :: 0 <= i < n ==> fields[i].0 != k) ==> Get(st.record, k) == Get(input, k)
  }

  /** No key of the input has been removed from the record. */
  ghost predicate KeptInvariant(input: Props<Value>, st: FieldsState)
  {
    forall k :: k in Keys(input) ==> k in Keys(st.record)
  }

  /** Any step that keeps to its own key preserves the invariant. */
  lemma InvariantStep(fields: Props<FieldSpec>, n: nat, input: Props<Value>, prev: FieldsState, step: FieldStep)
    requires DistinctKeys(fields)
    requires 0 < n <= |fields|
    requires FieldsInvariant(fields, n - 1, input, prev)
    requires StepFrame(fields[n - 1].0, prev.record, step)
    ensures FieldsInvariant(fields, n, input, Advance(fields[n - 1].0, prev, step))
  {
    var next := Advance(fields[n - 1].0, prev, step);
    OutputKeysStep(fields, n, prev, step);
    assert OutputKeysInvariant(fields, n, next);
    UntouchedStep(fields, n, input, prev, step);
    assert UntouchedInvariant(fields, n, input, next);
    KeptStep(input, fields[n - 1].0, prev, step);
    assert KeptInvariant(input, next);
  }

  lemma OutputKeysStep(fields: Props<FieldSpec>, n: nat, prev: FieldsState, step: FieldStep)
    requires DistinctKeys(fields)
    requires 0 < n <= |fields|
    requires OutputKeysInvariant(fields, n - 1, prev)
    requires StepFrame(fields[n - 1].0, prev.record, step)
    ensures OutputKeysInvariant(fields, n, Advance(fields[n - 1].0, prev, step))
  {
    var key := fields[n - 1].0;
    var next := Advance(key, prev, step);
    forall i | 0 <= i < n - 1
      ensures fields[i].0 in Keys(prev.record) <==> fields[i].0 in Keys(step.record)
    {
      assert fields[i].0 != key;
      assert Get(prev.record, fields[i].0) == Get(step.record, fields[i].0);
    }
    PresentKeysSame(fields, n - 1, prev.record, step.record);
    assert PresentKeys(fields, n - 1, prev.record) == PresentKeys(fields, n - 1, step.record);
    if step.emitted.Some? {
      KeysAppend(prev.output, key, step.emitted.value);
      assert key in Keys(step.record);
    } else {
      assert key !in Keys(step.record);
    }
    assert Keys(next.output) == PresentKeys(fields, n, next.record);
  }

  lemma UntouchedStep(fields: Props<FieldSpec>, n: nat, input: Props<Value>, prev: FieldsState, step: FieldStep)
    requires 0 < n <= |fields|
    requires UntouchedInvariant(fields, n - 1, input, prev)
    requires StepFrame(fields[n - 1].0, prev.record, step)
    ensures UntouchedInvariant(fields, n, input, Advance(fields[n - 1].0, prev, step))
  {
    forall k | forall i :: 0 <= i < n ==> fields[i].0 != k
      ensures Get(step.record, k) == Get(input, k)
    {
      assert fields[n - 1].0 != k;
      assert forall i :: 0 <= i < n - 1 ==> fields[i].0 != k;
    }
  }

  lemma KeptStep(input: Props<Value>, key: string, prev: FieldsState, step: FieldStep)
    requires KeptInvariant(input, prev)
    requires StepFrame(key, prev.record, step)
    ensures KeptInvariant(input, Advance(key, prev, step))
  {
    forall k | k in Keys(input)
      ensures k in Keys(step.record)
    {
      assert Get(prev.record, k).Some?;
    }
  }

  /** The object loop keeps its invariant. */
  lemma {:induction false} RunFieldsInvariant(fn: ValueFn, fields: Props<FieldSpec>, n: nat, input: Props<Value>)
    requires DistinctKeys(fields)
    requires n <= |fields|
    requires RunFields(fn, fields, n, input).Success?
    ensures FieldsInvariant(fields, n, input, RunFields(fn, fields, n, input).value)
  {
    if n > 0 {
      RunFieldsLast(fn, fields, n, input);
      RunFieldsInvariant(fn, fields, n - 1, input);
      var prev := RunFields(fn, fields, n - 1, input).value;
      ConvertFieldFrame(fn, fields[n - 1].0, fields[n - 1].1, prev.record);
      InvariantStep(fields, n, input, prev, ConvertField(fn, fields[n - 1].0, fields[n - 1].1, prev.record).value);
    } else {
      assert RunFields(fn, fields, 0, input) == Success(FieldsState(input, []));
    }
  }

  /** The output entry and the record entry of field `j` right after the loop has processed it. */
  lemma FieldOutputHere(fn: ValueFn, fields: Props<FieldSpec>, j: nat, input: Props<Value>)
    requires DistinctKeys(fields)
    requires j < |fields|
    requires RunFields(fn, fields, j + 1, input).Success?
    ensures RunFields(fn, fields, j, input).Success?
    ensures var prev := RunFields(fn, fields, j, input).value;
      ConvertField(fn, fields[j].0, fields[j].1, prev.record).Success? &&
      var step := ConvertField(fn, fields[j].0, fields[j].1, prev.record).value;
      var st := RunFields(fn, fields, j + 1, input).value;
      Get(st.output, fields[j].0) == step.emitted && Get(st.record, fields[j].0) == Get(step.record, fields[j].0)
  {
    RunFieldsLast(fn, fields, j + 1, input);
    RunFieldsInvariant(fn, fields, j, input);
    var key := fields[j].0;
    var prev := RunFields(fn, fields, j, input).value;
    var step := ConvertField(fn, fields[j].0, fields[j].1, prev.record).value;
    assert key !in Keys(prev.output) by {
      assert forall i :: 0 <= i < j ==> fields[i].0 != key;
    }
    if step.emitted.Some? {
      GetAppend(prev.output, key, step.emitted.value, key);
    }
  }

  /** The output entry and the record entry under `key` once the loop has run `i` fields, if it has not thrown. */
  ghost function EntryAt(fn: ValueFn, fields: Props<FieldSpec>, key: string, i: nat, input: Props<Value>): (Option<Value>, Option<Value>)
    requires i <= |fields|
  {
    match RunFields(fn, fields, i, input)
    case Success(st) => (Get(st.output, key), Get(st.record, key))
    case Failure(_) => (None, None)
  }

  /** A field under another key leaves the entries under `key` as they were. */
  lemma EntryKeptStep(fn: ValueFn, fields: Props<FieldSpec>, key: string, m: nat, input: Props<Value>)
    requires 0 < m <= |fields|
    requires fields[m - 1].0 != key
    requires RunFields(fn, fields, m, input).Success?
    ensures RunFields(fn, fields, m - 1, input).Success?
    ensures EntryAt(fn, fields, key, m, input) == EntryAt(fn, fields, key, m - 1, input)
  {
    RunFieldsLast(fn, fields, m, input);
    var prev := RunFields(fn, fields, m - 1, input).value;
    var last := ConvertField(fn, fields[m - 1].0, fields[m - 1].1, prev.record).value;
    if last.emitted.Some? {
      GetAppend(prev.output, fields[m - 1].0, last.emitted.value, key);
    }
    ConvertFieldFrame(fn, fields[m - 1].0, fields[m - 1].1, prev.record);
  }

  /**
   * Once the loop has passed field `j`, later fields, none of which names
   * `key`, keep the output entry and the record entry under `key`.
   */
  lemma {:induction false} EntryKept(fn: ValueFn, fields: Props<FieldSpec>, key: string, j: nat, m: nat, input: Props<Value>)
    requires j < m <= |fields|
    requires forall i :: j < i < m ==> fields[i].0 != key
    requires RunFields(fn, fields, m, input).Success?
    ensures EntryAt(fn, fields, key, m, input) == EntryAt(fn, fields, key, j + 1, input)
    decreases m
  {
    if m > j + 1 {
      EntryKeptStep(fn, fields, key, m, input);
      EntryKept(fn, fields, key, j, m - 1, input);
    }
  }

  /** Entry `j` of the output and of the record after `m` fields are what field `j` left them. */
  lemma FieldOutput(fn: ValueFn, fields: Props<FieldSpec>, j: nat, m: nat, input: Props<Value>)
    requires DistinctKeys(fields)
    requires j < m <= |fields|
    requires RunFields(fn, fields, m, input).Success?
    ensures RunFields(fn, fields, j, input).Success?
    ensures var prev := RunFields(fn, fields, j, input).value;
      ConvertField(fn, fields[j].0, fields[j].1, prev.record).Success? &&
      var step := ConvertField(fn, fields[j].0, fields[j].1, prev.record).value;
      var st := RunFields(fn, fields, m, input).value;
      Get(st.output, fields[j].0) == step.emitted && Get(st.record, fields[j].0) == Get(step.record, fields[j].0)
  {
    FieldsSucceedBefore(fn, fields, j + 1, m, input);
    FieldOutputHere(fn, fields, j, input);
    var here := RunFields(fn, fields, j + 1, input).value;
    assert forall i :: j < i < m ==> fields[i].0 != fields[j].0;
    EntryKept(fn, fields, fields[j].0, j, m, input);
    assert EntryAt(fn, fields, fields[j].0, j + 1, input) == (Get(here.output, fields[j].0), Get(here.record, fields[j].0));
  }

  /**
   * A record conversion that succeeds either ran the complete field loop on
   * the properties of an object, an array or a buffer, or had an empty
   * schema, which gives `{}` for any input.
   */
  lemma RecordSuccess(fn: ValueFn, fields: Props<FieldSpec>, x: Value)
    requires Transcode(fn, Record(fields), x).Success?
    ensures ObjectView(x).Some? || |fields| == 0
    ensures ObjectView(x).None? ==> Transcode(fn, Record(fields), x).value == Converted(Obj([]), x)
    ensures ObjectView(x).Some? ==>
      RunFields(fn, fields, |fields|, ObjectView(x).value).Success? &&
      var st := RunFields(fn, fields, |fields|, ObjectView(x).value).value;
      Transcode(fn, Record(fields), x).value == Converted(Obj(st.output), WithWrites(x, st.record))
  {
  }

  /**
   * On a primitive, an object schema gives `{}` when it is empty; otherwise
   * it throws, a TypeError unless the first field's `derive` threw first.
   */
  lemma RecordPrimitive(fn: ValueFn, fields: Props<FieldSpec>, x: Value)
    requires ObjectView(x).None?
    ensures |fields| == 0 ==> Transcode(fn, Record(fields), x) == Success(Converted(Obj([]), x))
    ensures |fields| > 0 ==> Transcode(fn, Record(fields), x).Failure?
    ensures |fields| > 0 && fields[0].1.derive.None? ==> Transcode(fn, Record(fields), x) == Failure(TypeError)
  {
  }

  /**
   * An array or a buffer converts under an object schema as the empty
   * object does: the same output or the same error; the input comes back
   * as it was.
   */
  lemma RecordView(fn: ValueFn, fields: Props<FieldSpec>, x: Value)
    requires x.Arr? || x.Bytes?
    ensures Transcode(fn, Record(fields), x).Success? <==> Transcode(fn, Record(fields), Obj([])).Success?
    ensures Transcode(fn, Record(fields), x).Success? ==>
      Transcode(fn, Record(fields), x).value == Converted(Transcode(fn, Record(fields), Obj([])).value.output, x)
    ensures Transcode(fn, Record(fields), x).Failure? ==>
      Transcode(fn, Record(fields), x).error == Transcode(fn, Record(fields), Obj([])).error
  {
  }

  /** Optional, not derived fields that the record lacks are all skipped. */
  lemma {:induction false} OptionalFieldsAbsent(fn: ValueFn, fields: Props<FieldSpec>, n: nat, input: Props<Value>)
    requires n <= |fields|
    requires forall i :: 0 <= i < n ==> !fields[i].1.required && fields[i].1.derive.None? && fields[i].0 !in Keys(input)
    ensures RunFields(fn, fields, n, input) == Success(FieldsState(input, []))
  {
    if n > 0 {
      OptionalFieldsAbsent(fn, fields, n - 1, input);
      OptionalAbsent(fn, fields[n - 1].0, fields[n - 1].1, input);
    }
  }

  /**
   * An object schema whose fields are all optional and not derived turns an
   * array or a buffer into `{}`: none of its keys is a property of either.
   */
  lemma OptionalOnlyView(fn: ValueFn, fields: Props<FieldSpec>, x: Value)
    requires x.Arr? || x.Bytes?
    requires forall i :: 0 <= i < |fields| ==> !fields[i].1.required && fields[i].1.derive.None?
    ensures Transcode(fn, Record(fields), x) == Success(Converted(Obj([]), x))
  {
    OptionalFieldsAbsent(fn, fields, |fields|, []);
  }

  /**
   * An object schema's output holds only schema keys, in declaration order,
   * and a key exactly when the input has it once the conversion is done;
   * the conversion leaves every non-schema key as it was and removes none.
   */
  lemma RecordOutputKeys(fn: ValueFn, fields: Props<FieldSpec>, input: Props<Value>)
    requires DistinctKeys(fields)
    requires Transcode(fn, Record(fields), Obj(input)).Success?
    ensures var c := Transcode(fn, Record(fields), Obj(input)).value;
      c.output.Obj? && c.input.Obj? &&
      Keys(c.output.props) == PresentKeys(fields, |fields|, c.input.props) &&
      (forall k :: k !in Keys(fields) ==> Get(c.input.props, k) == Get(input, k)) &&
      (forall k :: k in Keys(input) ==> k in Keys(c.input.props))
  {
    var run := RunFields(fn, fields, |fields|, input);
    if run.Failure? {
      LoopFails(fn, fields, |fields|, input);
    }
    var st := run.value;
    TranscodeRecord(fn, fields, input, st);
    RunFieldsInvariant(fn, fields, |fields|, input);
  }

  /** Once the loop has thrown, the whole object conversion throws that error. */
  lemma LoopFails(fn: ValueFn, fields: Props<FieldSpec>, n: nat, input: Props<Value>)
    requires n <= |fields|
    requires RunFields(fn, fields, n, input).Failure?
    ensures Transcode(fn, Record(fields), Obj(input)) == Failure(RunFields(fn, fields, n, input).error)
  {
    FieldsFailurePersists(fn, fields, n, |fields|, input);
  }

  /** Reaching a required, not derived field whose key the input lacks, the loop throws "Missing key" for it. */
  lemma RequiredMissingStep(fn: ValueFn, fields: Props<FieldSpec>, j: nat, input: Props<Value>)
    requires DistinctKeys(fields)
    requires j < |fields| && fields[j].1.required && fields[j].1.derive.None?
    requires fields[j].0 !in Keys(input)
    requires RunFields(fn, fields, j, input).Success?
    ensures RunFields(fn, fields, j + 1, input) == Failure(MissingKey(fields[j].0))
  {
    RunFieldsInvariant(fn, fields, j, input);
    assert forall i :: 0 <= i < j ==> fields[i].0 != fields[j].0;
    assert Get(RunFields(fn, fields, j, input).value.record, fields[j].0) == None;
    RequiredAbsent(fn, fields[j].0, fields[j].1, RunFields(fn, fields, j, input).value.record);
  }

  /**
   * A field whose key the input lacks, that is required and not derived,
   * makes the whole conversion throw: "Missing key" for that key when the
   * fields before it went through, else the error of an earlier field.
   */
  lemma RequiredMissingFails(fn: ValueFn, fields: Props<FieldSpec>, j: nat, input: Props<Value>)
    requires DistinctKeys(fields)
    requires j < |fields| && fields[j].1.required && fields[j].1.derive.None?
    requires fields[j].0 !in Keys(input)
    ensures Transcode(fn, Record(fields), Obj(input)).Failure?
    ensures RunFields(fn, fields, j, input).Success? ==>
      Transcode(fn, Record(fields), Obj(input)) == Failure(MissingKey(fields[j].0))
  {
    if RunFields(fn, fields, j, input).Success? {
      RequiredMissingStep(fn, fields, j, input);
    } else {
      FieldsFailurePersists(fn, fields, j, j + 1, input);
    }
    LoopFails(fn, fields, j + 1, input);
  }

  /** A required field that is missing from the input, with every earlier field converting, throws exactly "Missing key". */
  lemma FirstFieldMissing(fn: ValueFn, fields: Props<FieldSpec>, input: Props<Value>)
    requires |fields| > 0 && fields[0].1.required && fields[0].1.derive.None?
    requires fields[0].0 !in Keys(input)
    ensures Transcode(fn, Record(fields), Obj(input)) == Failure(MissingKey(fields[0].0))
  {
    RequiredAbsent(fn, fields[0].0, fields[0].1, input);
    assert RunFields(fn, fields, 1, input) == Failure(MissingKey(fields[0].0));
    LoopFails(fn, fields, 1, input);
  }

  /** Reaching a field, not derived, whose value in the input fails to convert, the loop throws. */
  lemma FieldValueStep(fn: ValueFn, fields: Props<FieldSpec>, j: nat, input: Props<Value>, v: Value)
    requires DistinctKeys(fields)
    requires j < |fields| && fields[j].1.derive.None?
    requires Get(input, fields[j].0) == Some(v) && !IsNullish(v)
    requires Transcode(fn, fields[j].1.schema, v).Failure?
    requires RunFields(fn, fields, j, input).Success?
    ensures RunFields(fn, fields, j + 1, input) == Failure(Transcode(fn, fields[j].1.schema, v).error)
  {
    RunFieldsInvariant(fn, fields, j, input);
    assert forall i :: 0 <= i < j ==> fields[i].0 != fields[j].0;
    ConvertFieldValueFails(fn, fields[j].0, fields[j].1, RunFields(fn, fields, j, input).value.record, v);
    RunFieldsStepFails(fn, fields, j, input);
  }

  /**
   * A field, not derived, whose value in the input fails to convert makes the
   * whole conversion throw; when the fields before it convert, with that
   * value's error.
   */
  lemma FieldValueFails(fn: ValueFn, fields: Props<FieldSpec>, j: nat, input: Props<Value>, v: Value)
    requires DistinctKeys(fields)
    requires j < |fields| && fields[j].1.derive.None?
    requires Get(input, fields[j].0) == Some(v) && !IsNullish(v)
    requires Transcode(fn, fields[j].1.schema, v).Failure?
    ensures Transcode(fn, Record(fields), Obj(input)).Failure?
    ensures RunFields(fn, fields, j, input).Success? ==>
      Transcode(fn, Record(fields), Obj(input)) == Failure(Transcode(fn, fields[j].1.schema, v).error)
  {
    if RunFields(fn, fields, j, input).Success? {
      FieldValueStep(fn, fields, j, input, v);
    } else {
      FieldsFailurePersists(fn, fields, j, j + 1, input);
    }
    LoopFails(fn, fields, j + 1, input);
  }

  /** A derived field whose `derive` never returns `undefined` is in every output the conversion produces. */
  lemma DerivedAlwaysEmitted(fn: ValueFn, fields: Props<FieldSpec>, j: nat, x: Value)
    requires DistinctKeys(fields)
    requires j < |fields| && fields[j].1.derive.Some?
    requires forall y :: fields[j].1.derive.value(y).Success? ==> !fields[j].1.derive.value(y).value.Undefined?
    requires Transcode(fn, Record(fields), x).Success?
    ensures var out := Transcode(fn, Record(fields), x).value.output;
      out.Obj? && fields[j].0 in Keys(out.props)
  {
    RecordSuccess(fn, fields, x);
    var input := ObjectView(x).value;
    FieldOutput(fn, fields, j, |fields|, input);
    var prev := RunFields(fn, fields, j, input).value;
    var spec := fields[j].1;
    if spec.derive.value(Obj(prev.record)).Success? {
      DerivedFieldEmitted(fn, fields[j].0, spec, prev.record);
    }
  }

  /**
   * A field that is not derived and that the input has, neither null nor
   * undefined, is in the output of a successful conversion as its value
   * converted by the field's schema.
   */
  lemma FieldConvertedAt(fn: ValueFn, fields: Props<FieldSpec>, j: nat, input: Props<Value>, v: Value)
    requires DistinctKeys(fields)
    requires j < |fields| && fields[j].1.derive.None?
    requires Get(input, fields[j].0) == Some(v) && !IsNullish(v)
    requires Transcode(fn, Record(fields), Obj(input)).Success?
    ensures Transcode(fn, fields[j].1.schema, v).Success?
    ensures var out := Transcode(fn, Record(fields), Obj(input)).value.output;
      out.Obj? && Get(out.props, fields[j].0) == Some(Transcode(fn, fields[j].1.schema, v).value.output)
  {
    RecordSuccess(fn, fields, Obj(input));
    FieldOutput(fn, fields, j, |fields|, input);
    RunFieldsInvariant(fn, fields, j, input);
    var prev := RunFields(fn, fields, j, input).value;
    assert forall i :: 0 <= i < j ==> fields[i].0 != fields[j].0;
    assert Get(prev.record, fields[j].0) == Some(v);
  }

  // ---------------------------------------------------------------------
  // Schemas without `derive`

  /** A schema without `derive` functions leaves its input as it was. */
  lemma {:induction false} TranscodeKeepsInput(fn: ValueFn, s: Schema, x: Value)
    requires NoDerives(s)
    requires Transcode(fn, s, x).Success?
    ensures Transcode(fn, s, x).value.input == x
    decreases s, 2, 0
  {
    match s
    case ArrayOf(element) =>
      ElemsKeepInputs(fn, element, x.elems, |x.elems|);
      assert x.elems[..|x.elems|] == x.elems;
    case Record(fields) =>
      if x.Obj? {
        FieldsKeepRecord(fn, fields, |fields|, x.props);
      }
    case _ =>
  }

  lemma {:induction false} ElemsKeepInputs(fn: ValueFn, element: Schema, xs: seq<Value>, n: nat)
    requires NoDerives(element)
    requires n <= |xs|
    requires RunElems(fn, element, xs, n).Success?
    ensures RunElems(fn, element, xs, n).value.inputs == xs[..n]
    decreases ArrayOf(element), 1, n
  {
    if n > 0 {
      ElemsKeepInputs(fn, element, xs, n - 1);
      TranscodeKeepsInput(fn, element, xs[n - 1]);
      assert xs[..n] == xs[..n - 1] + [xs[n - 1]];
    }
  }

  lemma {:induction false} FieldsKeepRecord(fn: ValueFn, fields: Props<FieldSpec>, n: nat, input: Props<Value>)
    requires NoDerives(Record(fields))
    requires n <= |fields|
    requires RunFields(fn, fields, n, input).Success?
    ensures RunFields(fn, fields, n, input).value.record == input
    decreases Record(fields), 1, n
  {
    if n > 0 {
      RunFieldsLast(fn, fields, n, input);
      FieldsKeepRecord(fn, fields, n - 1, input);
      FieldKeepsRecord(fn, fields[n - 1].0, fields[n - 1].1, input);
    }
  }

  lemma {:induction false} FieldKeepsRecord(fn: ValueFn, key: string, spec: FieldSpec, record: Props<Value>)
    requires spec.derive.None? && NoDerives(spec.schema)
    requires ConvertField(fn, key, spec, record).Success?
    ensures ConvertField(fn, key, spec, record).value.record == record
    decreases spec.schema, 3, 0
  {
    match Get(record, key)
    case None =>
    case Some(v) =>
      if !IsNullish(v) {
        TranscodeKeepsInput(fn, spec.schema, v);
        SetSame(record, key, v);
      }
  }

  /** Without `derive`, the object loop succeeds exactly when every field does, on the unchanged input. */
  lemma RunFieldsNoDerives(fn: ValueFn, fields: Props<FieldSpec>, n: nat, input: Props<Value>)
    requires NoDerives(Record(fields))
    requires n <= |fields|
    ensures RunFields(fn, fields, n, input).Success? <==>
      forall i :: 0 <= i < n ==> FieldConverts(fn, fields, i, input)
  {
    if RunFields(fn, fields, n, input).Success? {
      forall i | 0 <= i < n ensures FieldConverts(fn, fields, i, input) {
        FieldsSucceedBefore(fn, fields, i + 1, n, input);
        FieldsSucceedBefore(fn, fields, i, n, input);
        NoDerivesStep(fn, fields, i, input);
      }
    } else if forall i :: 0 <= i < n ==> FieldConverts(fn, fields, i, input) {
      AllFieldsConvert(fn, fields, n, input);
    }
  }

  /** Field `i` of a record schema converts on its own, on the given record. */
  ghost predicate FieldConverts(fn: ValueFn, fields: Props<FieldSpec>, i: nat, input: Props<Value>)
    requires i < |fields|
  {
    ConvertField(fn, fields[i].0, fields[i].1, input).Success?
  }

  /** Without `derive`, fields that all convert on the input make the loop succeed. */
  lemma {:induction false} AllFieldsConvert(fn: ValueFn, fields: Props<FieldSpec>, n: nat, input: Props<Value>)
    requires NoDerives(Record(fields))
    requires n <= |fields|
    requires forall i :: 0 <= i < n ==> FieldConverts(fn, fields, i, input)
    ensures RunFields(fn, fields, n, input).Success?
  {
    if n > 0 {
      AllFieldsConvert(fn, fields, n - 1, input);
      var st := RunFields(fn, fields, n - 1, input).value;
      FieldsKeepRecord(fn, fields, n - 1, input);
      assert st.record == input;
      assert FieldConverts(fn, fields, n - 1, input);
      RunFieldsNext(fn, fields, n - 1, input, st);
    }
  }

  /** Without `derive`, the next field runs on the unchanged input. */
  lemma NoDerivesStep(fn: ValueFn, fields: Props<FieldSpec>, n: nat, input: Props<Value>)
    requires NoDerives(Record(fields))
    requires n < |fields|
    requires RunFields(fn, fields, n, input).Success?
    ensures RunFields(fn, fields, n + 1, input).Success? <==> ConvertField(fn, fields[n].0, fields[n].1, input).Success?
  {
    FieldsKeepRecord(fn, fields, n, input);
    RunFieldsNext(fn, fields, n, input, RunFields(fn, fields, n, input).value);
  }

  /**
   * Reference definition of an object conversion without `derive`, part one:
   * it succeeds exactly when every field converts on its own, on the input.
   */
  lemma RecordNoDerivesSucceeds(fn: ValueFn, fields: Props<FieldSpec>, input: Props<Value>)
    requires NoDerives(Record(fields))
    ensures Transcode(fn, Record(fields), Obj(input)).Success? <==>
      forall i :: 0 <= i < |fields| ==> FieldConverts(fn, fields, i, input)
  {
    RunFieldsNoDerives(fn, fields, |fields|, input);
  }

  /**
   * Part two: then the input is untouched, the keys are the schema keys the
   * input has, in declaration order, and each is what its own field
   * produces: `null` for a null or undefined value, the converted value
   * otherwise.
   */
  lemma RecordNoDerivesOutput(fn: ValueFn, fields: Props<FieldSpec>, input: Props<Value>)
    requires WellFormed(Record(fields)) && NoDerives(Record(fields))
    requires Transcode(fn, Record(fields), Obj(input)).Success?
    ensures Transcode(fn, Record(fields), Obj(input)).value.input == Obj(input)
    ensures Transcode(fn, Record(fields), Obj(input)).value.output.Obj?
    ensures Keys(Transcode(fn, Record(fields), Obj(input)).value.output.props) == PresentKeys(fields, |fields|, input)
    ensures forall i :: 0 <= i < |fields| ==>
      ConvertField(fn, fields[i].0, fields[i].1, input).Success? &&
      Get(Transcode(fn, Record(fields), Obj(input)).value.output.props, fields[i].0)
        == ConvertField(fn, fields[i].0, fields[i].1, input).value.emitted
  {
    RecordSuccess(fn, fields, Obj(input));
    var st := RunFields(fn, fields, |fields|, input).value;
    assert Transcode(fn, Record(fields), Obj(input)).value == Converted(Obj(st.output), Obj(st.record));
    FieldsKeepRecord(fn, fields, |fields|, input);
    assert st.record == input;
    RunFieldsInvariant(fn, fields, |fields|, input);
    assert Keys(st.output) == PresentKeys(fields, |fields|, st.record);
    forall i | 0 <= i < |fields|
      ensures ConvertField(fn, fields[i].0, fields[i].1, input).Success?
      ensures Get(st.output, fields[i].0) == ConvertField(fn, fields[i].0, fields[i].1, input).value.emitted
    {
      FieldOutput(fn, fields, i, |fields|, input);
      FieldsKeepRecord(fn, fields, i, input);
    }
  }

  // ---------------------------------------------------------------------
  // The conversion function

  /** A schema without `"convert"` leaves never calls the conversion function: any two give the same result. */
  lemma {:induction false} CopyOnlyIgnoresFn(f: ValueFn, g: ValueFn, s: Schema, x: Value)
    requires CopyOnly(s)
    ensures Transcode(f, s, x) == Transcode(g, s, x)
    decreases s, 2, 0
  {
    match s
    case ArrayOf(element) =>
      if x.Arr? {
        ElemsIgnoreFn(f, g, element, x.elems, |x.elems|);
      }
    case Record(fields) =>
      if ObjectView(x).Some? {
        FieldsIgnoreFn(f, g, fields, |fields|, ObjectView(x).value);
      }
    case _ =>
  }

  lemma {:induction false} ElemsIgnoreFn(f: ValueFn, g: ValueFn, element: Schema, xs: seq<Value>, n: nat)
    requires CopyOnly(element)
    requires n <= |xs|
    ensures RunElems(f, element, xs, n) == RunElems(g, element, xs, n)
    decreases ArrayOf(element), 1, n
  {
    if n > 0 {
      ElemsIgnoreFn(f, g, element, xs, n - 1);
      CopyOnlyIgnoresFn(f, g, element, xs[n - 1]);
    }
  }

  lemma {:induction false} FieldsIgnoreFn(f: ValueFn, g: ValueFn, fields: Props<FieldSpec>, n: nat, input: Props<Value>)
    requires CopyOnly(Record(fields))
    requires n <= |fields|
    ensures RunFields(f, fields, n, input) == RunFields(g, fields, n, input)
    decreases Record(fields), 1, n
  {
    if n > 0 {
      FieldsIgnoreFn(f, g, fields, n - 1, input);
      if RunFields(f, fields, n - 1, input).Success? {
        FieldIgnoresFn(f, g, fields[n - 1].0, fields[n - 1].1, RunFields(f, fields, n - 1, input).value.record);
      }
    }
  }

  lemma {:induction false} FieldIgnoresFn(f: ValueFn, g: ValueFn, key: string, spec: FieldSpec, record: Props<Value>)
    requires CopyOnly(spec.schema)
    ensures ConvertField(f, key, spec, record) == ConvertField(g, key, spec, record)
    decreases spec.schema, 3, 0
  {
    match ApplyDerive(spec.derive, key, record)
    case Failure(_) =>
    case Success(derived) =>
      match Get(derived, key)
      case None =>
      case Some(v) =>
        if !IsNullish(v) {
          CopyOnlyIgnoresFn(f, g, spec.schema, v);
        }
  }

  // ---------------------------------------------------------------------
  // What a copy-only conversion returns

  /** Every field of the object schema is `required(copyValue)` or `optional(copyValue)`. */
  predicate CopyFields(fields: Props<FieldSpec>) {
    forall i :: 0 <= i < |fields| ==> fields[i].1.schema == CopyValue && fields[i].1.derive.None?
  }

  /**
   * One `copyValue` field: "Missing key" when a required key is absent,
   * skipped when an optional one is; otherwise the value is emitted as it
   * is, `undefined` as `null`, and writing it back leaves the record as it was.
   */
  lemma CopyField(fn: ValueFn, key: string, spec: FieldSpec, record: Props<Value>)
    requires spec.schema == CopyValue && spec.derive.None?
    ensures Get(record, key).None? && spec.required ==> ConvertField(fn, key, spec, record) == Failure(MissingKey(key))
    ensures Get(record, key).None? && !spec.required ==> ConvertField(fn, key, spec, record) == Success(FieldStep(None, record))
    ensures Get(record, key).Some? ==>
      ConvertField(fn, key, spec, record) ==
        Success(FieldStep(Some(if Get(record, key).value.Undefined? then Null else Get(record, key).value), record))
  {
    if Get(record, key).Some? && !IsNullish(Get(record, key).value) {
      SetSame(record, key, Get(record, key).value);
    }
  }

  /** An object schema of `copyValue` fields converts an object exactly when it has every required key. */
  lemma CopyFieldsSucceed(fn: ValueFn, fields: Props<FieldSpec>, input: Props<Value>)
    requires CopyFields(fields)
    ensures Transcode(fn, Record(fields), Obj(input)).Success? <==>
      forall i :: 0 <= i < |fields| && fields[i].1.required ==> fields[i].0 in Keys(input)
  {
    assert NoDerives(Record(fields));
    RecordNoDerivesSucceeds(fn, fields, input);
    forall i | 0 <= i < |fields|
      ensures FieldConverts(fn, fields, i, input) <==> (fields[i].1.required ==> fields[i].0 in Keys(input))
    {
      CopyField(fn, fields[i].0, fields[i].1, input);
    }
  }

  /**
   * An object schema of `copyValue` fields copies each schema key's value
   * from the input to the output: absent stays absent, `undefined` becomes
   * `null`, and any other value is the input's own. The input is untouched.
   */
  lemma CopyFieldsCopied(fn: ValueFn, fields: Props<FieldSpec>, input: Props<Value>)
    requires DistinctKeys(fields) && CopyFields(fields)
    requires Transcode(fn, Record(fields), Obj(input)).Success?
    ensures Transcode(fn, Record(fields), Obj(input)).value.input == Obj(input)
    ensures Transcode(fn, Record(fields), Obj(input)).value.output.Obj?
    ensures forall i :: 0 <= i < |fields| ==>
      Get(Transcode(fn, Record(fields), Obj(input)).value.output.props, fields[i].0) ==
        if Get(input, fields[i].0) == Some(Undefined) then Some(Null) else Get(input, fields[i].0)
  {
    assert WellFormed(Record(fields)) && NoDerives(Record(fields));
    RecordNoDerivesOutput(fn, fields, input);
    forall i | 0 <= i < |fields|
      ensures Get(Transcode(fn, Record(fields), Obj(input)).value.output.props, fields[i].0) ==
        if Get(input, fields[i].0) == Some(Undefined) then Some(Null) else Get(input, fields[i].0)
    {
      CopyField(fn, fields[i].0, fields[i].1, input);
    }
  }

  /** When every field is present, the schema keys are all emitted, in declaration order. */
  lemma {:induction false} PresentKeysAll(fields: Props<FieldSpec>, n: nat, rec: Props<Value>)
    requires n <= |fields|
    requires forall i :: 0 <= i < n ==> fields[i].0 in Keys(rec)
    ensures |PresentKeys(fields, n, rec)| == n
    ensures forall i :: 0 <= i < n ==> PresentKeys(fields, n, rec)[i] == fields[i].0
  {
    if n > 0 {
      PresentKeysAll(fields, n - 1, rec);
      var before := PresentKeys(fields, n - 1, rec);
      var after := PresentKeys(fields, n, rec);
      assert fields[n - 1].0 in Keys(rec);
      assert after == before + [fields[n - 1].0];
      forall i | 0 <= i < n
        ensures after[i] == fields[i].0
      {
        if i < n - 1 {
          assert after[i] == before[i];
        }
      }
    }
  }

  /** A copy-only conversion of an object that has every schema key emits all of them, in declaration order. */
  lemma CopyOutputKeys(fn: ValueFn, fields: Props<FieldSpec>, input: Props<Value>)
    requires DistinctKeys(fields) && CopyFields(fields)
    requires forall i :: 0 <= i < |fields| ==> fields[i].0 in Keys(input)
    ensures Transcode(fn, Record(fields), Obj(input)).Success?
    ensures Keys(Transcode(fn, Record(fields), Obj(input)).value.output.props) == Keys(fields)
  {
    CopyFieldsSucceed(fn, fields, input);
    assert WellFormed(Record(fields)) && NoDerives(Record(fields));
    RecordNoDerivesOutput(fn, fields, input);
    PresentKeysAll(fields, |fields|, input);
    assert PresentKeys(fields, |fields|, input) == Keys(fields);
  }

  /**
   * An object with exactly the keys of a schema of `copyValue` fields, none
   * of them `undefined`, converts to itself.
   */
  lemma CopyRecordIdentity(fn: ValueFn, fields: Props<FieldSpec>, input: Props<Value>)
    requires DistinctKeys(fields) && CopyFields(fields)
    requires Keys(input) == Keys(fields)
    requires forall i :: 0 <= i < |input| ==> !input[i].1.Undefined?
    ensures Transcode(fn, Record(fields), Obj(input)) == Success(Converted(Obj(input), Obj(input)))
  {
    assert forall i :: 0 <= i < |fields| ==> fields[i].0 == Keys(input)[i];
    CopyOutputKeys(fn, fields, input);
    CopyFieldsCopied(fn, fields, input);
    var out := Transcode(fn, Record(fields), Obj(input)).value.output.props;
    SameKeysDistinct(input, fields);
    forall i | 0 <= i < |input|
      ensures Get(input, input[i].0) == Get(out, input[i].0)
    {
      GetIndex(input, i);
      assert input[i].0 == fields[i].0;
    }
    SameEntries(input, out);
  }

  /** `arrayOf(copyValue)` returns an array as it is, element for element. */
  lemma CopyArrayIdentity(fn: ValueFn, xs: seq<Value>)
    ensures Transcode(fn, ArrayOf(CopyValue), Arr(xs)) == Success(Converted(Arr(xs), Arr(xs)))
  {
    ArrayElementwise(fn, CopyValue, Arr(xs));
    TranscodeKeepsInput(fn, ArrayOf(CopyValue), Arr(xs));
    var c := Transcode(fn, ArrayOf(CopyValue), Arr(xs)).value;
    assert c.output.elems == xs;
  }
}
