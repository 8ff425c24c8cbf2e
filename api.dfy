/**
 * The converters of the public API: requests go from JSON to the browser's
 * form with `base64urlToBuffer` as the conversion function, credentials go
 * back to JSON with `bufferToBase64url`. Each is `convert` with one schema;
 * the extended converters differ from the basic ones only in that schema.
 */
module Api {
  import opened Results
  import opened Records
  import opened Values
  import opened Base64
  import opened Base64Url
  import opened Schemas
  import opened Transcoder
  import opened TranscoderFacts
  import opened ByteViews
  import opened BasicSchemas
  import opened ExtendedSchemas

  /** `base64urlToBuffer` applied to a `"convert"` leaf of a request. */
  function DecodeLeaf(v: Value): (r: Result<Value>)
    ensures r.Success? ==> v.Str? && r.value.Bytes? && Base64UrlDecode(v.s) == Success(r.value.bytes)
    ensures v.Str? && Base64UrlDecode(v.s).Success? ==> r.Success?
    ensures v.Str? && Base64UrlDecode(v.s).Failure? ==> r == Failure(InvalidCharacter)
    ensures !v.Str? ==> r == Failure(TypeError)
  {
    if !v.Str? then Failure(TypeError)  // `.length` and `.replace` of a non-string
    else
      match Base64UrlDecode(v.s)
      case Failure(e) => Failure(e)
      case Success(bytes) => Success(Bytes(bytes))
  }

  /**
   * `bufferToBase64url` applied to a `"convert"` leaf of a credential: the
   * base64url text of the bytes `new Uint8Array(v)` views, which
   * `base64urlToBuffer` reads back; it throws only for a negative length.
   */
  function EncodeLeaf(v: Value): (r: Result<Value>)
    ensures r.Failure? <==> v.Num? && v.n < 0
    ensures r.Failure? ==> r.error == RangeError
    ensures v.Bytes? ==> r == Success(Str(Base64UrlEncode(v.bytes)))
    ensures r.Success? ==>
      r.value.Str? && (forall i :: 0 <= i < |r.value.s| ==> IsUrlChar(r.value.s[i])) &&
      DecodeLeaf(r.value) == Success(Bytes(ViewBytes(v).value))
  {
    match ViewBytes(v)
    case Failure(e) => Failure(e)
    case Success(bytes) =>
      RoundTrip(bytes);
      Success(Str(Base64UrlEncode(bytes)))
  }

  /**
   * What `convert(fn, schema, input)` returns, or what it throws, for an
   * object schema: always an object. A primitive input gets `{}` from an
   * empty schema and a TypeError from a schema whose first field is not
   * derived.
   */
  function ConvertObject(fn: ValueFn, schema: Schema, input: Value): (r: Result<Value>)
    requires schema.Record?
    ensures ObjectView(input).None? && |schema.fields| == 0 ==> r == Success(Obj([]))
    ensures ObjectView(input).None? && |schema.fields| > 0 && schema.fields[0].1.derive.None? ==>
      r == Failure(TypeError)
    ensures r.Success? <==> Transcode(fn, schema, input).Success?
    ensures r.Success? ==> r.value.Obj? && r.value == Transcode(fn, schema, input).value.output
    ensures r.Failure? ==> r.error == Transcode(fn, schema, input).error
  {
    match Transcode(fn, schema, input)
    case Failure(e) => Failure(e)
    case Success(c) => Success(c.output)
  }

  function CreateRequestFromJson(requestJson: Value): (r: Result<Value>)
    ensures ObjectView(requestJson).None? ==> r == Failure(TypeError)
    ensures r.Success? ==> r.value.Obj?
  {
    ConvertObject(DecodeLeaf, CredentialCreationOptions, requestJson)
  }

  function CreateResponseToJson(host: Host, credential: Value): (r: Result<Value>)
    ensures ObjectView(credential).None? ==> r == Failure(TypeError)
    ensures r.Success? ==> r.value.Obj?
  {
    ConvertObject(EncodeLeaf, PublicKeyCredentialWithAttestation(host), credential)
  }

  function GetRequestFromJson(requestJson: Value): (r: Result<Value>)
    ensures ObjectView(requestJson).None? ==> r == Failure(TypeError)
    ensures r.Success? ==> r.value.Obj?
  {
    ConvertObject(DecodeLeaf, CredentialRequestOptions, requestJson)
  }

  function GetResponseToJson(host: Host, credential: Value): (r: Result<Value>)
    ensures ObjectView(credential).None? ==> r == Failure(TypeError)
    ensures r.Success? ==> r.value.Obj?
  {
    ConvertObject(EncodeLeaf, PublicKeyCredentialWithAssertion(host), credential)
  }

  function CreateExtendedRequestFromJson(requestJson: Value): (r: Result<Value>)
    ensures ObjectView(requestJson).None? ==> r == Failure(TypeError)
    ensures r.Success? ==> r.value.Obj?
  {
    RequestsExtendedFirstFields();
    ConvertObject(DecodeLeaf, CredentialCreationOptionsExtended(), requestJson)
  }

  function CreateExtendedResponseToJson(host: Host, credential: Value): (r: Result<Value>)
    ensures ObjectView(credential).None? ==> r == Failure(TypeError)
    ensures r.Success? ==> r.value.Obj?
  {
    CredentialsExtendedFirstFields(host);
    ConvertObject(EncodeLeaf, PublicKeyCredentialWithAttestationExtended(host), credential)
  }

  function GetExtendedRequestFromJson(requestJson: Value): (r: Result<Value>)
    ensures ObjectView(requestJson).None? ==> r == Failure(TypeError)
    ensures r.Success? ==> r.value.Obj?
  {
    RequestsExtendedFirstFields();
    ConvertObject(DecodeLeaf, CredentialRequestOptionsExtended(), requestJson)
  }

  function GetExtendedResponseToJson(host: Host, credential: Value): (r: Result<Value>)
    ensures ObjectView(credential).None? ==> r == Failure(TypeError)
    ensures r.Success? ==> r.value.Obj?
  {
    CredentialsExtendedFirstFields(host);
    ConvertObject(EncodeLeaf, PublicKeyCredentialWithAssertionExtended(host), credential)
  }

  /** A buffer the credential side encodes is decoded back to the same bytes on the request side. */
  lemma LeafRoundTrip(bytes: seq<uint8>)
    ensures EncodeLeaf(Bytes(bytes)).Success?
    ensures DecodeLeaf(EncodeLeaf(Bytes(bytes)).value) == Success(Bytes(bytes))
  {
    RoundTrip(bytes);
  }

  /**
   * A creation request without `publicKey` throws for that key; so does an
   * array or an ArrayBuffer, which has no such property.
   */
  lemma CreateRequestMissingPublicKey(requestJson: Value)
    requires ObjectView(requestJson).Some? && "publicKey" !in Keys(ObjectView(requestJson).value)
    ensures CreateRequestFromJson(requestJson) == Failure(MissingKey("publicKey"))
  {
    FirstFieldMissing(DecodeLeaf, CredentialCreationOptions.fields, ObjectView(requestJson).value);
  }

  /** The extended creation request, too, throws for a missing `publicKey`. */
  lemma CreateExtendedRequestMissingPublicKey(requestJson: Value)
    requires ObjectView(requestJson).Some? && "publicKey" !in Keys(ObjectView(requestJson).value)
    ensures CreateExtendedRequestFromJson(requestJson) == Failure(MissingKey("publicKey"))
  {
    CreationOptionsNoDerives();
    CloneIdentity(CredentialCreationOptions);
    var publicKey := Required(CreationPublicKeySchema);
    var patched := publicKey.(schema := Assign(CreationPublicKeySchema, ["extensions"],
      Optional(AuthenticationExtensionsClientInputsSchema)));
    var fields := CredentialCreationOptionsExtended().fields;
    assert fields == Set(CredentialCreationOptions.fields, "publicKey", patched);
    assert fields[0] == ("publicKey", patched);
    FirstFieldMissing(DecodeLeaf, fields, ObjectView(requestJson).value);
  }

  /** A creation request whose `publicKey` object fails to convert throws that object's error unchanged. */
  lemma CreatePublicKeyFails(requestJson: Props<Value>, publicKey: Props<Value>)
    requires Get(requestJson, "publicKey") == Some(Obj(publicKey))
    requires Transcode(DecodeLeaf, CreationPublicKeySchema, Obj(publicKey)).Failure?
    ensures CreateRequestFromJson(Obj(requestJson)) ==
      Failure(Transcode(DecodeLeaf, CreationPublicKeySchema, Obj(publicKey)).error)
  {
    assert RunFields(DecodeLeaf, CredentialCreationOptions.fields, 0, requestJson).Success?;
    FieldValueFails(DecodeLeaf, CredentialCreationOptions.fields, 0, requestJson, Obj(publicKey));
  }

  /**
   * A creation request whose `publicKey` lacks one of its required members
   * (`rp`, `user`, `challenge`, `pubKeyCredParams`) throws; "Missing key"
   * for that member when the members before it convert.
   */
  lemma CreatePublicKeyFieldMissing(requestJson: Props<Value>, publicKey: Props<Value>, j: nat)
    requires Get(requestJson, "publicKey") == Some(Obj(publicKey))
    requires j < |CreationPublicKeySchema.fields| && CreationPublicKeySchema.fields[j].1.required
    requires CreationPublicKeySchema.fields[j].0 !in Keys(publicKey)
    ensures CreateRequestFromJson(Obj(requestJson)).Failure?
    ensures RunFields(DecodeLeaf, CreationPublicKeySchema.fields, j, publicKey).Success? ==>
      CreateRequestFromJson(Obj(requestJson)) == Failure(MissingKey(CreationPublicKeySchema.fields[j].0))
  {
    CreationPublicKeyDistinct();
    CreationPublicKeyNoDerives();
    RequiredMissingFails(DecodeLeaf, CreationPublicKeySchema.fields, j, publicKey);
    CreatePublicKeyFails(requestJson, publicKey);
  }

  /** A `user` without `id` throws for that key. */
  lemma UserWithoutId(user: Props<Value>)
    requires "id" !in Keys(user)
    ensures Transcode(DecodeLeaf, UserSchema, Obj(user)) == Failure(MissingKey("id"))
  {
    FirstFieldMissing(DecodeLeaf, UserSchema.fields, user);
  }

  /** A present `rp`, copied as it is, never throws: the loop reaches `user`. */
  lemma RpCopied(publicKey: Props<Value>)
    requires "rp" in Keys(publicKey)
    ensures RunFields(DecodeLeaf, CreationPublicKeySchema.fields, 1, publicKey).Success?
  {
    var fields := CreationPublicKeySchema.fields;
    assert fields[0] == ("rp", Required(CopyValue));
    var rp := Get(publicKey, "rp").value;
    if !IsNullish(rp) {
      assert Transcode(DecodeLeaf, CopyValue, rp).Success?;
    }
    assert ConvertField(DecodeLeaf, "rp", fields[0].1, publicKey).Success?;
  }

  /**
   * A `publicKey` whose `user` has no `id` fails to convert, always with
   * "Missing key": for `rp` when that is absent, otherwise for `id`.
   */
  lemma UserIdMissing(publicKey: Props<Value>, user: Props<Value>)
    requires Get(publicKey, "user") == Some(Obj(user))
    requires "id" !in Keys(user)
    ensures Transcode(DecodeLeaf, CreationPublicKeySchema, Obj(publicKey)) ==
      Failure(if "rp" in Keys(publicKey) then MissingKey("id") else MissingKey("rp"))
  {
    CreationPublicKeyDistinct();
    UserWithoutId(user);
    UserFieldAt();
    if "rp" in Keys(publicKey) {
      RpCopied(publicKey);
      FieldValueFails(DecodeLeaf, CreationPublicKeySchema.fields, 1, publicKey, Obj(user));
    } else {
      FirstFieldMissing(DecodeLeaf, CreationPublicKeySchema.fields, publicKey);
    }
  }

  /** A creation request whose `publicKey.user` has no `id` throws "Missing key", for `rp` or for `id`. */
  lemma CreateUserIdMissing(requestJson: Props<Value>, publicKey: Props<Value>, user: Props<Value>)
    requires Get(requestJson, "publicKey") == Some(Obj(publicKey))
    requires Get(publicKey, "user") == Some(Obj(user))
    requires "id" !in Keys(user)
    ensures CreateRequestFromJson(Obj(requestJson)) ==
      Failure(if "rp" in Keys(publicKey) then MissingKey("id") else MissingKey("rp"))
  {
    UserIdMissing(publicKey, user);
    CreatePublicKeyFails(requestJson, publicKey);
  }

  /**
   * A converted attestation response always has `transports`: the derived
   * value is `[]` at worst, never absent.
   */
  lemma TransportsAlwaysPresent(host: Host, response: Value)
    requires Transcode(EncodeLeaf, AttestationResponseSchema(host), response).Success?
    ensures var out := Transcode(EncodeLeaf, AttestationResponseSchema(host), response).value.output;
      out.Obj? && "transports" in Keys(out.props)
  {
    AttestationKeys(host);
    DerivedAlwaysEmitted(EncodeLeaf, AttestationResponseSchema(host).fields, 2, response);
  }

  /**
   * A converted attestation credential whose `response` is neither null nor
   * undefined has `response.transports`.
   */
  lemma CreateResponseTransports(host: Host, credential: Props<Value>, response: Value)
    requires Get(credential, "response") == Some(response) && !IsNullish(response)
    requires CreateResponseToJson(host, Obj(credential)).Success?
    ensures var out := CreateResponseToJson(host, Obj(credential)).value;
      Get(out.props, "response").Some? && Get(out.props, "response").value.Obj? &&
      "transports" in Keys(Get(out.props, "response").value.props)
  {
    var fields := PublicKeyCredentialWithAttestation(host).fields;
    AttestationKeys(host);
    AttestationResponseAt(host);
    var j := KeyPosition(fields, "response");
    FieldConvertedAt(EncodeLeaf, fields, j, credential, response);
    TransportsAlwaysPresent(host, response);
  }

  /** The extended converter, too, always emits `response.transports`. */
  lemma CreateExtendedResponseTransports(host: Host, credential: Props<Value>, response: Value)
    requires Get(credential, "response") == Some(response) && !IsNullish(response)
    requires CreateExtendedResponseToJson(host, Obj(credential)).Success?
    ensures var out := CreateExtendedResponseToJson(host, Obj(credential)).value;
      Get(out.props, "response").Some? && Get(out.props, "response").value.Obj? &&
      "transports" in Keys(Get(out.props, "response").value.props)
  {
    var fields := PublicKeyCredentialWithAttestationExtended(host).fields;
    var responseFields := AttestationResponseExtended(host).fields;
    AttestationExtendedResponseAt(host);
    AttestationResponseExtendedKeys(host);
    var j := KeyPosition(fields, "response");
    FieldConvertedAt(EncodeLeaf, fields, j, credential, response);
    var t := KeyPosition(responseFields, "transports");
    DerivedAlwaysEmitted(EncodeLeaf, responseFields, t, response);
  }
}
