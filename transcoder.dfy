/**
 * The schema-driven transcoder `convert(conversionFn, schema, input)`.
 *
 * The source writes derived values into the input record in place, and a
 * nested conversion updates the nested record it is given, which the parent
 * record refers to. The model passes the record along instead: every
 * conversion returns the value it built together with the input as the
 * conversion left it, and the field loop continues on the updated record,
 * so a later `derive` sees the earlier writes.
 */
module Transcoder {
  import opened Results
  import opened Records
  import opened Values
  import opened Schemas

  /** What a conversion returns, and the input as it left it. */
  datatype Converted = Converted(output: Value, input: Value)

  /** One field processed: its output entry, if any, and the updated record. */
  datatype FieldStep = FieldStep(emitted: Option<Value>, record: Props<Value>)

  /** The field loop's state: the input record and the output built so far. */
  datatype FieldsState = FieldsState(record: Props<Value>, output: Props<Value>)

  /** The state of `input.map(...)`: converted elements and updated elements. */
  datatype ElemsState = ElemsState(outputs: seq<Value>, inputs: seq<Value>)

  /** `convert(fn, schema, input)`: what it returns, or what it throws. */
  function Transcode(fn: ValueFn, s: Schema, x: Value): Result<Converted>
    decreases s, 2, 0
  {
    match s
    case CopyValue => Success(Converted(x, x))
    case ConvertValue =>
      (match fn(x)
       case Failure(e) => Failure(e)
       case Success(y) => Success(Converted(y, x)))
    case ArrayOf(element) =>
      if !x.Arr? then Failure(TypeError)  // `input.map` is not a function
      else
        (match RunElems(fn, element, x.elems, |x.elems|)
         case Failure(e) => Failure(e)
         case Success(st) => Success(Converted(Arr(st.outputs), Arr(st.inputs))))
    case Record(fields) =>
      match ObjectView(x)
      case None =>
        if |fields| == 0 then Success(Converted(Obj([]), x))  // the loop never runs
        else PrimitiveRecord(fields[0].1.derive, x)
      case Some(props) =>
        match RunFields(fn, fields, |fields|, props)
        case Failure(e) => Failure(e)
        case Success(st) => Success(Converted(Obj(st.output), WithWrites(x, st.record)))
  }

  /**
   * An object schema with at least one field, on a primitive input: the
   * first field's `derive`, if any, runs on the primitive and may throw;
   * otherwise writing its result into the primitive (strict mode) or the
   * `key in input` test throws a TypeError.
   */
  function PrimitiveRecord(derive: Option<ValueFn>, x: Value): (r: Result<Converted>)
    ensures r.Failure?
    ensures derive.None? ==> r == Failure(TypeError)
  {
    if derive.Some? && derive.value(x).Failure? then Failure(derive.value(x).error) else Failure(TypeError)
  }

  /**
   * The input after the field loop: a plain object carries the loop's
   * writes; an array or a buffer is returned as it was.
   */
  function WithWrites(x: Value, record: Props<Value>): Value {
    if x.Obj? then Obj(record) else x
  }

  /** The first `n` elements of `input.map(v => convert(fn, element, v))`. */
  function RunElems(fn: ValueFn, element: Schema, xs: seq<Value>, n: nat): Result<ElemsState>
    requires n <= |xs|
    decreases ArrayOf(element), 1, n
  {
    if n == 0 then Success(ElemsState([], []))
    else ElemsNext(fn, element, xs[n - 1], RunElems(fn, element, xs, n - 1))
  }

  /** The map after one more element `x`, from the map before it: a thrown error passes through. */
  function ElemsNext(fn: ValueFn, element: Schema, x: Value, before: Result<ElemsState>): Result<ElemsState>
    decreases ArrayOf(element), 0
  {
    match before
    case Failure(e) => Failure(e)
    case Success(st) =>
      match Transcode(fn, element, x)
      case Failure(e) => Failure(e)
      case Success(c) => Success(ElemsState(st.outputs + [c.output], st.inputs + [c.input]))
  }

  /** Runs the field's `derive`, if any, and writes a result other than `undefined` into the record. */
  function ApplyDerive(derive: Option<ValueFn>, key: string, record: Props<Value>): Result<Props<Value>>
  {
    match derive
    case None => Success(record)
    case Some(d) =>
      match d(Obj(record))
      case Failure(e) => Failure(e)
      case Success(v) => Success(if v.Undefined? then record else Set(record, key, v))
  }

  /** One iteration of the field loop, for the field `key` with spec `spec`. */
  function ConvertField(fn: ValueFn, key: string, spec: FieldSpec, record: Props<Value>): Result<FieldStep>
    decreases spec.schema, 3, 0
  {
    match ApplyDerive(spec.derive, key, record)
    case Failure(e) => Failure(e)
    case Success(record) =>
      match Get(record, key)
      case None =>
        (if spec.required then Failure(MissingKey(key)) else Success(FieldStep(None, record)))
      case Some(v) =>
        if IsNullish(v) then Success(FieldStep(Some(Null), record))
        else
          match Transcode(fn, spec.schema, v)
          case Failure(e) => Failure(e)
          case Success(c) => Success(FieldStep(Some(c.output), Set(record, key, c.input)))
  }

  /** The loop state after one field: the updated record, and the output entry appended if there is one. */
  function Advance(key: string, st: FieldsState, step: FieldStep): FieldsState {
    FieldsState(step.record, if step.emitted.Some? then st.output + [(key, step.emitted.value)] else st.output)
  }

  /** The field loop over the first `n` fields of a record schema. */
  function RunFields(fn: ValueFn, fields: Props<FieldSpec>, n: nat, input: Props<Value>): Result<FieldsState>
    requires n <= |fields|
    decreases Record(fields), 1, n
  {
    if n == 0 then Success(FieldsState(input, []))
    else FieldsNext(fn, fields, n - 1, RunFields(fn, fields, n - 1, input))
  }

  /** The loop after field `i`, from the loop before it: a thrown error passes through. */
  function FieldsNext(fn: ValueFn, fields: Props<FieldSpec>, i: nat, before: Result<FieldsState>): Result<FieldsState>
    requires i < |fields|
    decreases Record(fields), 0, i
  {
    match before
    case Failure(e) => Failure(e)
    case Success(st) =>
      match ConvertField(fn, fields[i].0, fields[i].1, st.record)
      case Failure(e) => Failure(e)
      case Success(step) => Success(Advance(fields[i].0, st, step))
  }

  /** Once an element has thrown, `map` throws that error whatever follows. */
  lemma {:induction false} ElemsFailurePersists(fn: ValueFn, element: Schema, xs: seq<Value>, n: nat, m: nat)
    requires n <= m <= |xs|
    requires RunElems(fn, element, xs, n).Failure?
    ensures RunElems(fn, element, xs, m) == Failure(RunElems(fn, element, xs, n).error)
    decreases m
  {
    if m > n {
      ElemsFailurePersists(fn, element, xs, n, m - 1);
    }
  }

  /** Once a field has thrown, the field loop throws that error whatever follows. */
  lemma {:induction false} FieldsFailurePersists(fn: ValueFn, fields: Props<FieldSpec>, n: nat, m: nat, input: Props<Value>)
    requires n <= m <= |fields|
    requires RunFields(fn, fields, n, input).Failure?
    ensures RunFields(fn, fields, m, input) == Failure(RunFields(fn, fields, n, input).error)
    decreases m
  {
    if m > n {
      FieldsFailurePersists(fn, fields, n, m - 1, input);
    }
  }

  /** One more iteration of the field loop, as `RunFields` defines it. */
  lemma FieldsStep(fn: ValueFn, fields: Props<FieldSpec>, i: nat, input: Props<Value>, st: FieldsState, step: FieldStep)
    requires i < |fields|
    requires RunFields(fn, fields, i, input) == Success(st)
    requires ConvertField(fn, fields[i].0, fields[i].1, st.record) == Success(step)
    ensures RunFields(fn, fields, i + 1, input) == Success(Advance(fields[i].0, st, step))
  {
  }

  /** A record conversion is the complete field loop. */
  lemma TranscodeRecord(fn: ValueFn, fields: Props<FieldSpec>, input: Props<Value>, st: FieldsState)
    requires RunFields(fn, fields, |fields|, input) == Success(st)
    ensures Transcode(fn, Record(fields), Obj(input)) == Success(Converted(Obj(st.output), Obj(st.record)))
  {
  }

  /** An object schema whose field loop throws throws that error. */
  lemma TranscodeRecordFails(fn: ValueFn, fields: Props<FieldSpec>, input: Props<Value>)
    requires RunFields(fn, fields, |fields|, input).Failure?
    ensures Transcode(fn, Record(fields), Obj(input)) == Failure(RunFields(fn, fields, |fields|, input).error)
  {
  }

  /** `convert`: dispatches on the schema's shape. */
  method Convert(conversionFn: ValueFn, schema: Schema, input: Value) returns (r: Result<Converted>)
    ensures r == Transcode(conversionFn, schema, input)
    decreases schema, 2
  {
    match schema
    case CopyValue =>
      return Success(Converted(input, input));
    case ConvertValue =>
      var y := conversionFn(input);
      if y.Failure? {
        return Failure(y.error);
      }
      return Success(Converted(y.value, input));
    case ArrayOf(element) =>
      if !input.Arr? {
        return Failure(TypeError);
      }
      r := ConvertElements(conversionFn, element, input.elems);
    case Record(fields) =>
      var view := ObjectView(input);
      if view.None? {
        if |fields| == 0 {
          return Success(Converted(Obj([]), input));
        }
        if fields[0].1.derive.Some? {
          var v := fields[0].1.derive.value(input);
          if v.Failure? {
            return Failure(v.error);
          }
        }
        return Failure(TypeError);
      }
      var c := ConvertFields(conversionFn, fields, view.value);
      if c.Failure? {
        return Failure(c.error);
      }
      return Success(Converted(c.value.output, WithWrites(input, c.value.input.props)));
  }

  /** `input.map((v) => convert(conversionFn, element, v))` */
  method ConvertElements(conversionFn: ValueFn, element: Schema, xs: seq<Value>) returns (r: Result<Converted>)
    ensures r == Transcode(conversionFn, ArrayOf(element), Arr(xs))
    decreases ArrayOf(element), 0
  {
    var outputs, inputs := [], [];
    for i := 0 to |xs|
      invariant RunElems(conversionFn, element, xs, i) == Success(ElemsState(outputs, inputs))
    {
      var c := Convert(conversionFn, element, xs[i]);
      if c.Failure? {
        ElemsFailurePersists(conversionFn, element, xs, i + 1, |xs|);
        return Failure(c.error);
      }
      outputs, inputs := outputs + [c.value.output], inputs + [c.value.input];
    }
    return Success(Converted(Arr(outputs), Arr(inputs)));
  }

  /** The loop over the entries of an object schema, filling `output` and writing into `input`. */
  method ConvertFields(conversionFn: ValueFn, fields: Props<FieldSpec>, input: Props<Value>) returns (r: Result<Converted>)
    ensures r == Transcode(conversionFn, Record(fields), Obj(input))
    decreases Record(fields), 1
  {
    var st := FieldLoop(conversionFn, fields, input);
    if st.Failure? {
      TranscodeRecordFails(conversionFn, fields, input);
      return Failure(st.error);
    }
    TranscodeRecord(conversionFn, fields, input, st.value);
    return Success(Converted(Obj(st.value.output), Obj(st.value.record)));
  }

  /** The `for ... of Object.entries(schema)` loop: the output built so far and the record with its writes. */
  method FieldLoop(conversionFn: ValueFn, fields: Props<FieldSpec>, input: Props<Value>) returns (r: Result<FieldsState>)
    ensures r == RunFields(conversionFn, fields, |fields|, input)
    decreases Record(fields), 0
  {
    var record := input;
    var output := [];
    for i := 0 to |fields|
      invariant RunFields(conversionFn, fields, i, input) == Success(FieldsState(record, output))
    {
      var step := ProcessField(conversionFn, fields[i].0, fields[i].1, record);
      if step.Failure? {
        assert RunFields(conversionFn, fields, i + 1, input) == Failure(step.error);
        FieldsFailurePersists(conversionFn, fields, i + 1, |fields|, input);
        return Failure(step.error);
      }
      FieldsStep(conversionFn, fields, i, input, FieldsState(record, output), step.value);
      record := step.value.record;
      if step.value.emitted.Some? {
        output := output + [(fields[i].0, step.value.emitted.value)];
      }
    }
    return Success(FieldsState(record, output));
  }

  /** The body of the field loop: derive, presence check, null check, recursion. */
  method ProcessField(conversionFn: ValueFn, key: string, schemaField: FieldSpec, input: Props<Value>)
    returns (r: Result<FieldStep>)
    ensures r == ConvertField(conversionFn, key, schemaField, input)
    decreases schemaField.schema, 3
  {
    var record := input;
    if schemaField.derive.Some? {
      var v := schemaField.derive.value(Obj(record));
      if v.Failure? {
        return Failure(v.error);
      }
      if !v.value.Undefined? {
        record := Set(record, key, v.value);
      }
    }
    var current := Get(record, key);
    if current.None? {
      if schemaField.required {
        return Failure(MissingKey(key));
      }
      return Success(FieldStep(None, record));
    }
    if IsNullish(current.value) {
      return Success(FieldStep(Some(Null), record));
    }
    var c := Convert(conversionFn, schemaField.schema, current.value);
    if c.Failure? {
      return Failure(c.error);
    }
    return Success(FieldStep(Some(c.value.output), Set(record, key, c.value.input)));
  }
}
