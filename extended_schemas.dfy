/**
 * The extended schemas: the extension inputs and outputs with `uvm` and
 * `largeBlob`, and the four extended schemas, each a JSON clone of a basic
 * schema patched in place. The clone loses the `derive` functions, so the
 * response schemas put them back: `clientExtensionResults` becomes a derived
 * field again with the basic schema's `derive`, and the attestation
 * response's `transports` field spec is taken over from the basic schema.
 */
module ExtendedSchemas {
  import opened Results
  import opened Records
  import opened Values
  import opened Schemas
  import opened BasicSchemas

  const AuthenticationExtensionsClientInputsSchema: Schema := Record([
    ("appid", Optional(CopyValue)),
    ("appidExclude", Optional(CopyValue)),
    ("uvm", Optional(CopyValue)),
    ("credProps", Optional(CopyValue)),
    ("largeBlob", Optional(LargeBlobInputsSchema))
  ])

  /** The `largeBlob` member of the extension inputs. */
  const LargeBlobInputsSchema: Schema := Record([
    ("support", Optional(CopyValue)),
    ("read", Optional(CopyValue)),
    ("write", Optional(ConvertValue))
  ])

  const AuthenticationExtensionsClientOutputsSchema: Schema := Record([
    ("appid", Optional(CopyValue)),
    ("appidExclude", Optional(CopyValue)),
    ("uvm", Optional(CopyValue)),
    ("credProps", Optional(CopyValue)),
    ("largeBlob", Optional(LargeBlobOutputsSchema))
  ])

  /** The `largeBlob` member of the extension outputs. */
  const LargeBlobOutputsSchema: Schema := Record([
    ("supported", Optional(CopyValue)),
    ("blob", Optional(ConvertValue)),
    ("written", Optional(CopyValue))
  ])

  /** The clone of the creation options with `publicKey.extensions` replaced. */
  function CredentialCreationOptionsExtended(): Schema {
    CloneGet(CredentialCreationOptions.fields, "publicKey");
    Assign(JsonClone(CredentialCreationOptions), ["publicKey", "extensions"],
      Optional(AuthenticationExtensionsClientInputsSchema))
  }

  /** The clone of the request options with `publicKey.extensions` replaced. */
  function CredentialRequestOptionsExtended(): Schema {
    CloneGet(CredentialRequestOptions.fields, "publicKey");
    Assign(JsonClone(CredentialRequestOptions), ["publicKey", "extensions"],
      Optional(AuthenticationExtensionsClientInputsSchema))
  }

  /**
   * The clone of the attestation credential schema with
   * `clientExtensionResults` derived again, over the extended outputs;
   * `response` is still the bare clone.
   */
  function AttestationWithResults(host: Host): Schema {
    Assign(JsonClone(PublicKeyCredentialWithAttestation(host)), ["clientExtensionResults"],
      Derived(AuthenticationExtensionsClientOutputsSchema, ClientExtensionResultsDerive(host)))
  }

  /** Then the `response.transports` field spec is put back. */
  function PublicKeyCredentialWithAttestationExtended(host: Host): Schema {
    AttestationTransportsPatchable(host);
    Assign(AttestationWithResults(host), ["response", "transports"], Derived(CopyValue, TransportsDerive(host)))
  }

  /** After the first patch, `response` is the clone of the basic attestation response. */
  lemma AttestationWithResultsResponse(host: Host)
    ensures Get(AttestationWithResults(host).fields, "response") == Some(CloneSpec(Required(AttestationResponseSchema(host))))
  {
    AttestationResponseAt(host);
    CloneGet(PublicKeyCredentialWithAttestation(host).fields, "response");
  }

  /** The extended attestation credential's `response` schema: the clone with `transports` put back. */
  function AttestationResponseExtended(host: Host): Schema {
    Assign(JsonClone(AttestationResponseSchema(host)), ["transports"], Derived(CopyValue, TransportsDerive(host)))
  }

  /**
   * The extended attestation credential's keys are distinct, and its
   * `response` is a required, not derived field over that schema.
   */
  lemma AttestationExtendedResponseAt(host: Host)
    ensures DistinctKeys(PublicKeyCredentialWithAttestationExtended(host).fields)
    ensures Get(PublicKeyCredentialWithAttestationExtended(host).fields, "response") ==
      Some(Required(AttestationResponseExtended(host)))
  {
    var basic := PublicKeyCredentialWithAttestation(host);
    var results := Derived(AuthenticationExtensionsClientOutputsSchema, ClientExtensionResultsDerive(host));
    AttestationKeys(host);
    CloneKeys(basic.fields);
    SameKeysDistinct(JsonClone(basic).fields, basic.fields);
    SetKeepsDistinct(JsonClone(basic).fields, "clientExtensionResults", results);
    AttestationTransportsPatchable(host);
    SameKeysDistinct(PublicKeyCredentialWithAttestationExtended(host).fields, AttestationWithResults(host).fields);
    AttestationWithResultsResponse(host);
    var f := CloneSpec(Required(AttestationResponseSchema(host)));
    var patched := f.(schema := AttestationResponseExtended(host));
    GetSet(AttestationWithResults(host).fields, "response", patched);
  }

  /** Its keys are distinct and its `transports` is derived as in the basic schema. */
  lemma AttestationResponseExtendedKeys(host: Host)
    ensures DistinctKeys(AttestationResponseExtended(host).fields)
    ensures Get(AttestationResponseExtended(host).fields, "transports") == Some(Derived(CopyValue, TransportsDerive(host)))
  {
    var basic := AttestationResponseSchema(host);
    AttestationKeys(host);
    CloneKeys(basic.fields);
    SameKeysDistinct(JsonClone(basic).fields, basic.fields);
    SetKeepsDistinct(JsonClone(basic).fields, "transports", Derived(CopyValue, TransportsDerive(host)));
  }

  /** The clone of the assertion credential schema with `clientExtensionResults` derived again. */
  function PublicKeyCredentialWithAssertionExtended(host: Host): Schema {
    Assign(JsonClone(PublicKeyCredentialWithAssertion(host)), ["clientExtensionResults"],
      Derived(AuthenticationExtensionsClientOutputsSchema, ClientExtensionResultsDerive(host)))
  }

  /**
   * The first field of each extended request schema, `publicKey` and
   * `mediation`, is not derived: a primitive request throws a TypeError.
   */
  lemma RequestsExtendedFirstFields()
    ensures |CredentialCreationOptionsExtended().fields| > 0 && CredentialCreationOptionsExtended().fields[0].1.derive.None?
    ensures |CredentialRequestOptionsExtended().fields| > 0 && CredentialRequestOptionsExtended().fields[0].1.derive.None?
  {
    assert |JsonClone(CredentialCreationOptions).fields| > 0;
    assert |JsonClone(CredentialRequestOptions).fields| > 0;
  }

  /** Likewise the first field, `type`, of each extended credential schema. */
  lemma CredentialsExtendedFirstFields(host: Host)
    ensures |PublicKeyCredentialWithAttestationExtended(host).fields| > 0
    ensures PublicKeyCredentialWithAttestationExtended(host).fields[0].1.derive.None?
    ensures |PublicKeyCredentialWithAssertionExtended(host).fields| > 0
    ensures PublicKeyCredentialWithAssertionExtended(host).fields[0].1.derive.None?
  {
    var attestation := JsonClone(PublicKeyCredentialWithAttestation(host)).fields;
    var assertion := JsonClone(PublicKeyCredentialWithAssertion(host)).fields;
    assert |attestation| > 0 && attestation[0].0 == "type";
    assert |assertion| > 0 && assertion[0].0 == "type";
    AttestationTransportsPatchable(host);
  }

  /**
   * The extended creation options are the basic ones with the extension
   * inputs at `publicKey.extensions`; the basic schema keeps its own.
   */
  lemma CreationExtendedPatch()
    ensures Lookup(CredentialCreationOptions, ["publicKey", "extensions"]) == Some(Optional(SimplifiedExtensionsSchema))
    ensures Lookup(CredentialCreationOptionsExtended(), ["publicKey", "extensions"]) ==
      Some(Optional(AuthenticationExtensionsClientInputsSchema))
    ensures forall q :: Diverges(["publicKey", "extensions"], q) ==>
      Lookup(CredentialCreationOptionsExtended(), q) == Lookup(CredentialCreationOptions, q)
  {
    CreationExtensionsAt();
    CreationOptionsNoDerives();
    CloneIdentity(CredentialCreationOptions);
    forall q | Diverges(["publicKey", "extensions"], q)
      ensures Lookup(CredentialCreationOptionsExtended(), q) == Lookup(CredentialCreationOptions, q)
    {
      AssignElsewhere(CredentialCreationOptions, ["publicKey", "extensions"],
        Optional(AuthenticationExtensionsClientInputsSchema), q);
    }
  }

  /** Likewise the extended request options. */
  lemma RequestExtendedPatch()
    ensures Lookup(CredentialRequestOptions, ["publicKey", "extensions"]) == Some(Optional(SimplifiedExtensionsSchema))
    ensures Lookup(CredentialRequestOptionsExtended(), ["publicKey", "extensions"]) ==
      Some(Optional(AuthenticationExtensionsClientInputsSchema))
    ensures forall q :: Diverges(["publicKey", "extensions"], q) ==>
      Lookup(CredentialRequestOptionsExtended(), q) == Lookup(CredentialRequestOptions, q)
  {
    RequestExtensionsAt();
    RequestOptionsNoDerives();
    CloneIdentity(CredentialRequestOptions);
    forall q | Diverges(["publicKey", "extensions"], q)
      ensures Lookup(CredentialRequestOptionsExtended(), q) == Lookup(CredentialRequestOptions, q)
    {
      AssignElsewhere(CredentialRequestOptions, ["publicKey", "extensions"],
        Optional(AuthenticationExtensionsClientInputsSchema), q);
    }
  }

  /** The record along `response.transports` exists after the first patch. */
  lemma AttestationTransportsPatchable(host: Host)
    ensures CanAssign(AttestationWithResults(host), ["response", "transports"])
  {
    AttestationWithResultsResponse(host);
  }

  /**
   * The extended attestation schema derives `clientExtensionResults` with the
   * basic schema's `derive` (see `AttestationResultsAt`), over the extended
   * outputs.
   */
  lemma AttestationExtendedResults(host: Host)
    ensures Lookup(PublicKeyCredentialWithAttestationExtended(host), ["clientExtensionResults"]) ==
      Some(Derived(AuthenticationExtensionsClientOutputsSchema, ClientExtensionResultsDerive(host)))
  {
    AttestationTransportsPatchable(host);
    AssignElsewhere(AttestationWithResults(host), ["response", "transports"], Derived(CopyValue, TransportsDerive(host)),
      ["clientExtensionResults"]);
  }

  /** The basic attestation schema derives `response.transports` with the transports `derive`. */
  lemma AttestationTransportsAt(host: Host)
    ensures Lookup(PublicKeyCredentialWithAttestation(host), ["response", "transports"]) ==
      Some(Derived(CopyValue, TransportsDerive(host)))
  {
    AttestationResponseAt(host);
    TransportsAt(host);
    LookupPair(PublicKeyCredentialWithAttestation(host), "response", "transports");
  }

  /** The extended attestation schema puts the same `response.transports` field spec back. */
  lemma AttestationExtendedTransports(host: Host)
    ensures Lookup(PublicKeyCredentialWithAttestationExtended(host), ["response", "transports"]) ==
      Lookup(PublicKeyCredentialWithAttestation(host), ["response", "transports"])
  {
    AttestationTransportsAt(host);
    AttestationTransportsPatchable(host);
  }

  /**
   * Every field spec of the extended attestation schema off the two patched
   * paths is the clone of the basic one, so it has lost its `derive`.
   */
  lemma AttestationExtendedClones(host: Host, q: seq<string>)
    requires Diverges(["clientExtensionResults"], q) && Diverges(["response", "transports"], q)
    ensures var f := Lookup(PublicKeyCredentialWithAttestation(host), q);
      Lookup(PublicKeyCredentialWithAttestationExtended(host), q) == if f.None? then None else Some(CloneSpec(f.value))
  {
    var base := PublicKeyCredentialWithAttestation(host);
    var results := Derived(AuthenticationExtensionsClientOutputsSchema, ClientExtensionResultsDerive(host));
    AttestationTransportsPatchable(host);
    AssignElsewhere(AttestationWithResults(host), ["response", "transports"], Derived(CopyValue, TransportsDerive(host)), q);
    AssignElsewhere(JsonClone(base), ["clientExtensionResults"], results, q);
    CloneLookup(base, q);
  }

  /**
   * The extended assertion schema derives `clientExtensionResults` with the
   * basic schema's `derive`, over the extended outputs.
   */
  lemma AssertionExtendedDerives(host: Host)
    ensures Lookup(PublicKeyCredentialWithAssertion(host), ["clientExtensionResults"]) ==
      Some(Derived(SimplifiedClientExtensionResultsSchema, ClientExtensionResultsDerive(host)))
    ensures Lookup(PublicKeyCredentialWithAssertionExtended(host), ["clientExtensionResults"]) ==
      Some(Derived(AuthenticationExtensionsClientOutputsSchema, ClientExtensionResultsDerive(host)))
  {
    AssertionResultsAt(host);
  }

  /** Every other field spec of the extended assertion schema is the clone of the basic one. */
  lemma AssertionExtendedClones(host: Host, q: seq<string>)
    requires Diverges(["clientExtensionResults"], q)
    ensures var f := Lookup(PublicKeyCredentialWithAssertion(host), q);
      Lookup(PublicKeyCredentialWithAssertionExtended(host), q) == if f.None? then None else Some(CloneSpec(f.value))
  {
    var base := PublicKeyCredentialWithAssertion(host);
    var results := Derived(AuthenticationExtensionsClientOutputsSchema, ClientExtensionResultsDerive(host));
    AssignElsewhere(JsonClone(base), ["clientExtensionResults"], results, q);
    CloneLookup(base, q);
  }

  /**
   * The only `"convert"` leaf of the extension inputs is `largeBlob.write`:
   * there is one, and every other field, at the top and inside `largeBlob`,
   * is copied as is.
   */
  lemma InputsConvertLeaf()
    ensures !CopyOnly(AuthenticationExtensionsClientInputsSchema)
    ensures forall i :: 0 <= i < |AuthenticationExtensionsClientInputsSchema.fields| ==>
      AuthenticationExtensionsClientInputsSchema.fields[i].0 == "largeBlob" ||
      CopyOnly(AuthenticationExtensionsClientInputsSchema.fields[i].1.schema)
    ensures forall i :: 0 <= i < |LargeBlobInputsSchema.fields| ==>
      LargeBlobInputsSchema.fields[i].0 == "write" || CopyOnly(LargeBlobInputsSchema.fields[i].1.schema)
  {
    assert !CopyOnly(LargeBlobInputsSchema.fields[2].1.schema);
    assert !CopyOnly(AuthenticationExtensionsClientInputsSchema.fields[4].1.schema);
  }

  /** Likewise the only `"convert"` leaf of the extension outputs is `largeBlob.blob`. */
  lemma OutputsConvertLeaf()
    ensures !CopyOnly(AuthenticationExtensionsClientOutputsSchema)
    ensures forall i :: 0 <= i < |AuthenticationExtensionsClientOutputsSchema.fields| ==>
      AuthenticationExtensionsClientOutputsSchema.fields[i].0 == "largeBlob" ||
      CopyOnly(AuthenticationExtensionsClientOutputsSchema.fields[i].1.schema)
    ensures forall i :: 0 <= i < |LargeBlobOutputsSchema.fields| ==>
      LargeBlobOutputsSchema.fields[i].0 == "blob" || CopyOnly(LargeBlobOutputsSchema.fields[i].1.schema)
  {
    assert !CopyOnly(LargeBlobOutputsSchema.fields[1].1.schema);
    assert !CopyOnly(AuthenticationExtensionsClientOutputsSchema.fields[4].1.schema);
  }
}
