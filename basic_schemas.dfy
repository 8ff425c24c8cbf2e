/**
 * The basic WebAuthn schemas: the credential creation and request options a
 * relying party sends as JSON, and the attestation and assertion credentials
 * the browser returns.
 *
 * The two response schemas carry `derive` functions that call methods of
 * the host's credential objects (`response.getTransports()` and
 * `credential.getClientExtensionResults()`); those methods are the `Host`
 * parameter.
 */
module BasicSchemas {
  import opened Results
  import opened Records
  import opened Values
  import opened Schemas

  /**
   * The host methods the `derive` functions call, applied to the object
   * being converted; None when the object has no such method.
   */
  datatype Host = Host(getTransports: Option<Value -> Value>, getClientExtensionResults: Option<Value -> Value>)

  const PublicKeyCredentialDescriptorSchema: Schema := Record([
    ("type", Required(CopyValue)),
    ("id", Required(ConvertValue)),
    ("transports", Optional(CopyValue))
  ])

  const SimplifiedExtensionsSchema: Schema := Record([
    ("appid", Optional(CopyValue)),
    ("appidExclude", Optional(CopyValue)),
    ("credProps", Optional(CopyValue)),
    ("prf", Optional(Record([
      ("eval", Optional(Record([
        ("first", Optional(ConvertValue)),
        ("second", Optional(ConvertValue))
      ]))),
      ("enabled", Optional(CopyValue))
    ])))
  ])

  const SimplifiedClientExtensionResultsSchema: Schema := Record([
    ("appid", Optional(CopyValue)),
    ("appidExclude", Optional(CopyValue)),
    ("credProps", Optional(CopyValue)),
    ("prf", Optional(Record([
      ("results", Optional(Record([
        ("first", Optional(ConvertValue)),
        ("second", Optional(ConvertValue))
      ]))),
      ("enabled", Optional(CopyValue))
    ])))
  ])

  /** The `publicKey.user` member of the creation options. */
  const UserSchema: Schema := Record([
    ("id", Required(ConvertValue)),
    ("name", Required(CopyValue)),
    ("displayName", Required(CopyValue))
  ])

  /** The `publicKey` member of the creation options. */
  const CreationPublicKeySchema: Schema := Record([
    ("rp", Required(CopyValue)),
    ("user", Required(UserSchema)),
    ("challenge", Required(ConvertValue)),
    ("pubKeyCredParams", Required(CopyValue)),
    ("timeout", Optional(CopyValue)),
    ("excludeCredentials", Optional(ArrayOf(PublicKeyCredentialDescriptorSchema))),
    ("authenticatorSelection", Optional(CopyValue)),
    ("attestation", Optional(CopyValue)),
    ("extensions", Optional(SimplifiedExtensionsSchema))
  ])

  const CredentialCreationOptions: Schema := Record([
    ("publicKey", Required(CreationPublicKeySchema)),
    ("signal", Optional(CopyValue))
  ])

  /** The `publicKey` member of the request options. */
  const RequestPublicKeySchema: Schema := Record([
    ("challenge", Required(ConvertValue)),
    ("timeout", Optional(CopyValue)),
    ("rpId", Optional(CopyValue)),
    ("allowCredentials", Optional(ArrayOf(PublicKeyCredentialDescriptorSchema))),
    ("userVerification", Optional(CopyValue)),
    ("extensions", Optional(SimplifiedExtensionsSchema))
  ])

  const CredentialRequestOptions: Schema := Record([
    ("mediation", Optional(CopyValue)),
    ("publicKey", Required(RequestPublicKeySchema)),
    ("signal", Optional(CopyValue))
  ])

  /**
   * What the transports `derive` returns for a response object:
   * `response.getTransports()` when the method exists and its result is
   * truthy, `[]` otherwise.
   */
  function Transports(host: Host, response: Value): (t: Value)
    ensures !IsFalsy(t)
    ensures host.getTransports.None? ==> t == Arr([])
    ensures host.getTransports.Some? && !IsFalsy(host.getTransports.value(response)) ==>
      t == host.getTransports.value(response)
  {
    var r := if host.getTransports.Some? then host.getTransports.value(response) else Undefined;
    if IsFalsy(r) then Arr([]) else r
  }

  function TransportsDerive(host: Host): ValueFn {
    (response: Value) => Success(Transports(host, response))
  }

  /** `pkc.getClientExtensionResults()`: a credential without the method makes the call throw. */
  function ClientExtensionResultsDerive(host: Host): ValueFn {
    (pkc: Value) =>
      if host.getClientExtensionResults.Some? then Success(host.getClientExtensionResults.value(pkc))
      else Failure(TypeError)
  }

  /** The `response` member of an attestation credential. */
  function AttestationResponseSchema(host: Host): Schema {
    Record([
      ("clientDataJSON", Required(ConvertValue)),
      ("attestationObject", Required(ConvertValue)),
      ("transports", Derived(CopyValue, TransportsDerive(host)))
    ])
  }

  function PublicKeyCredentialWithAttestation(host: Host): Schema {
    Record([
      ("type", Required(CopyValue)),
      ("id", Required(CopyValue)),
      ("rawId", Required(ConvertValue)),
      ("authenticatorAttachment", Optional(CopyValue)),
      ("response", Required(AttestationResponseSchema(host))),
      ("clientExtensionResults", Derived(SimplifiedClientExtensionResultsSchema, ClientExtensionResultsDerive(host)))
    ])
  }

  const AssertionResponseSchema: Schema := Record([
    ("clientDataJSON", Required(ConvertValue)),
    ("authenticatorData", Required(ConvertValue)),
    ("signature", Required(ConvertValue)),
    ("userHandle", Required(ConvertValue))
  ])

  function PublicKeyCredentialWithAssertion(host: Host): Schema {
    Record([
      ("type", Required(CopyValue)),
      ("id", Required(CopyValue)),
      ("rawId", Required(ConvertValue)),
      ("authenticatorAttachment", Optional(CopyValue)),
      ("response", Required(AssertionResponseSchema)),
      ("clientExtensionResults", Derived(SimplifiedClientExtensionResultsSchema, ClientExtensionResultsDerive(host)))
    ])
  }

  /** The keys of the creation options' `publicKey` object are distinct, as in any object literal. */
  lemma CreationPublicKeyDistinct()
    ensures DistinctKeys(CreationPublicKeySchema.fields)
  {
  }

  /** Likewise the request options' `publicKey` object. */
  lemma RequestPublicKeyDistinct()
    ensures DistinctKeys(RequestPublicKeySchema.fields)
  {
  }

  lemma ExtensionsNoDerives()
    ensures NoDerives(SimplifiedExtensionsSchema)
  {
    assert NoDerives(SimplifiedExtensionsSchema.fields[3].1.schema);
  }

  lemma CreationPublicKeyNoDerives()
    ensures NoDerives(CreationPublicKeySchema)
  {
    ExtensionsNoDerives();
  }

  lemma CreationOptionsNoDerives()
    ensures NoDerives(CredentialCreationOptions)
  {
    CreationPublicKeyNoDerives();
  }

  lemma RequestOptionsNoDerives()
    ensures NoDerives(CredentialRequestOptions)
  {
    ExtensionsNoDerives();
    assert NoDerives(RequestPublicKeySchema);
  }

  lemma AttestationKeys(host: Host)
    ensures DistinctKeys(PublicKeyCredentialWithAttestation(host).fields)
    ensures DistinctKeys(AttestationResponseSchema(host).fields)
  {
  }

  lemma AssertionKeys(host: Host)
    ensures DistinctKeys(PublicKeyCredentialWithAssertion(host).fields)
  {
  }

  /** The creation options read the simplified extensions at `publicKey.extensions`. */
  lemma CreationExtensionsAt()
    ensures Lookup(CredentialCreationOptions, ["publicKey", "extensions"]) == Some(Optional(SimplifiedExtensionsSchema))
  {
    GetIndex(CreationPublicKeySchema.fields, 8);
    LookupPair(CredentialCreationOptions, "publicKey", "extensions");
  }

  /** The request options read the simplified extensions at `publicKey.extensions`. */
  lemma RequestExtensionsAt()
    ensures Lookup(CredentialRequestOptions, ["publicKey", "extensions"]) == Some(Optional(SimplifiedExtensionsSchema))
  {
    GetIndex(RequestPublicKeySchema.fields, 5);
    GetIndex(CredentialRequestOptions.fields, 1);
    LookupPair(CredentialRequestOptions, "publicKey", "extensions");
  }

  /** The attestation credential derives `clientExtensionResults` from the credential object. */
  lemma AttestationResultsAt(host: Host)
    ensures Get(PublicKeyCredentialWithAttestation(host).fields, "clientExtensionResults") ==
      Some(Derived(SimplifiedClientExtensionResultsSchema, ClientExtensionResultsDerive(host)))
  {
    GetIndex(PublicKeyCredentialWithAttestation(host).fields, 5);
  }

  /** The attestation credential's `response` is a required attestation response. */
  lemma AttestationResponseAt(host: Host)
    ensures Get(PublicKeyCredentialWithAttestation(host).fields, "response") == Some(Required(AttestationResponseSchema(host)))
  {
    GetIndex(PublicKeyCredentialWithAttestation(host).fields, 4);
  }

  /** The attestation response derives `transports` from the response object. */
  lemma TransportsAt(host: Host)
    ensures Get(AttestationResponseSchema(host).fields, "transports") == Some(Derived(CopyValue, TransportsDerive(host)))
  {
    GetIndex(AttestationResponseSchema(host).fields, 2);
  }

  /** The assertion credential derives `clientExtensionResults` from the credential object. */
  lemma AssertionResultsAt(host: Host)
    ensures Get(PublicKeyCredentialWithAssertion(host).fields, "clientExtensionResults") ==
      Some(Derived(SimplifiedClientExtensionResultsSchema, ClientExtensionResultsDerive(host)))
  {
    GetIndex(PublicKeyCredentialWithAssertion(host).fields, 5);
  }

  /** The second member of the creation options' `publicKey` is the required `user`. */
  lemma UserFieldAt()
    ensures |CreationPublicKeySchema.fields| == 9
    ensures CreationPublicKeySchema.fields[1] == ("user", Required(UserSchema))
  {
  }
}
