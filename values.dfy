/** The JavaScript values the converters read and build. */
module Values {
  import opened Results
  import opened Base64
  import opened Records

  datatype Value =
    | Undefined
    | Null
    | Bool(b: bool)
    | Num(n: int)
    | Str(s: string)
    | Bytes(bytes: seq<uint8>)  // an ArrayBuffer
    | Arr(elems: seq<Value>)
    | Obj(props: Props<Value>)

  /** `v == null`: true of both `null` and `undefined`. */
  predicate IsNullish(v: Value) {
    v.Null? || v.Undefined?
  }

  /** The values `||` passes over. */
  predicate IsFalsy(v: Value) {
    v.Undefined? || v.Null? || v == Bool(false) || v == Num(0) || v == Str("")
  }

  /**
   * The own properties `key in input` and `input[key]` can see when `input`
   * is an object: its entries for a plain object; none for an array or an
   * ArrayBuffer, whose own properties (`length` and the indices of an
   * array) are not keys of any schema of the library. None for a primitive,
   * on which `key in` throws.
   */
  function ObjectView(v: Value): (r: Option<Props<Value>>)
    ensures r.Some? <==> v.Obj? || v.Arr? || v.Bytes?
    ensures v.Obj? ==> r == Some(v.props)
  {
    match v
    case Obj(props) => Some(props)
    case Arr(_) => Some([])
    case Bytes(_) => Some([])
    case _ => None
  }
}
