# webauthn-json conversion core, modelled in Dafny

webauthn-json lets a web page send WebAuthn requests as JSON and get
credentials back as JSON. In JSON, every binary field is a base64url
string. In the browser's own objects, the same field is an `ArrayBuffer`.

The library has two parts that do this work:

- a base64url codec, `base64urlToBuffer` and `bufferToBase64url`;
- one generic walker, `convert(conversionFn, schema, input)`.

A schema describes how to convert each field:

- `"copy"` copies the field unchanged;
- `"convert"` applies the conversion function;
- a one-element array maps its element schema over the elements;
- an object lists field specs built by `required`, `optional` and `derived`.

A derived field is computed from the whole input object by a `derive`
function, and the result is written into the input before it is read.

The basic API has four converters: creation request, attestation
credential, request options and assertion credential. Each is `convert`
with a fixed schema. The extended API builds its schemas by JSON-cloning
the basic ones and patching a few field specs. That clone drops every
`derive`, so the patches put back the ones the credentials need.

The model has these modules:

- `Results`, `Values` and `Records`:
  - `Value` stands for JavaScript values: `undefined`, `null`, booleans, numbers, strings, buffers, arrays and objects.
  - An object is an ordered list of properties. `Get` and `Set` follow JavaScript's order for keys that are not array indices: assigning a new key appends it. JavaScript lists array-index keys such as `"0"` first, in ascending order; no schema of the library has such a key.
  - `ObjectView` gives the own properties that `key in input` can find: an array and an ArrayBuffer are objects without any schema key, and a primitive makes `key in` throw.
- `ByteViews`: `new Uint8Array(x)`, the first step of `bufferToBase64url`, for every kind of value.
- `Base64`: the host functions `btoa` and `atob`.
  - `btoa` is padded base64 encoding, as in section 4 of RFC 4648.
  - `atob` is the WHATWG forgiving-base64 decode.
- `Base64Url`: the codec.
  - The source's loops are methods.
  - Each method is proved equal to a specification function.
  - The decoder is proved to undo the encoder.
- `Schemas`: schemas as a datatype, `required`/`optional`/`derived`, the JSON clone (`JsonClone`) and the patch assignment (`Assign`).
- `Transcoder`: `convert` as a function (`Transcode`) and as methods that follow the source's loops.
  - The input that the derived fields modify is threaded through as a value (`Converted.input`).
- `TranscoderFacts`: what a conversion does, proved about `Transcode`.
- `BasicSchemas` and `ExtendedSchemas`: the eight schemas.
  - The host methods the `derive` functions call (`getTransports`, `getClientExtensionResults`) are a `Host` parameter.
- `Api`: the eight converter functions and properties of particular requests and credentials.

Lines 1-229 of `dist/esm/webauthn-json.js` and `dist/esm/webauthn-json.extended.js` are identical. The table cites the first file for that shared code.

## Model

| member | source | states |
|---|---|---|
| Base64.Digit | dist/esm/webauthn-json.js:19 | the base64 digit of a value decodes back to that value |
| Base64.EncodeSextetsLength | dist/esm/webauthn-json.js:19 | `btoa`'s digits number four per full group of three bytes, plus one more than the bytes of a short final group |
| Base64.DecodeSextetsLength | dist/esm/webauthn-json.js:5 | `atob` yields three bytes per full group of four digits, plus one fewer than the digits of a short final group |
| Base64.PaddingFor | dist/esm/webauthn-json.js:19 | `btoa` pads with two `=` after one leftover byte, one `=` after two, and none otherwise |
| Base64.PaddedLength | dist/esm/webauthn-json.js:19 | digits plus padding fill whole quanta of four characters |
| Base64.Encode | dist/esm/webauthn-json.js:19 | `btoa` output length is a multiple of four |
| Base64.Latin1 | dist/esm/webauthn-json.js:15-18 | the binary string built with `String.fromCharCode` has one character per byte, each with that byte's code |
| Base64.Btoa | dist/esm/webauthn-json.js:19 | `btoa` succeeds exactly when every character is below U+0100, and otherwise throws InvalidCharacterError |
| Base64.StripWhitespace | dist/esm/webauthn-json.js:5 | forgiving decode leaves no ASCII whitespace and leaves text without whitespace unchanged |
| Base64.StripWhitespaceMembers | dist/esm/webauthn-json.js:5 | forgiving decode keeps exactly the characters that are not ASCII whitespace |
| Base64.Atob | dist/esm/webauthn-json.js:5 | `atob` returns only binary strings |
| Base64.DecodeGroup | dist/esm/webauthn-json.js:5 | a full group of four digits decodes to its three bytes, followed by the rest |
| Base64.RoundTripOneByte | dist/esm/webauthn-json.js:5-19 | one leftover byte encodes to two digits and decodes back |
| Base64.RoundTripTwoBytes | dist/esm/webauthn-json.js:5-19 | two leftover bytes encode to three digits and decode back |
| Base64.JoinSplit | dist/esm/webauthn-json.js:5-19 | three bytes cut into four sextets and joined give the same three bytes |
| Base64.EncodeGroup | dist/esm/webauthn-json.js:19 | the first four digits of three or more bytes encode the first three bytes |
| Base64.RoundTripGroup | dist/esm/webauthn-json.js:5-19 | a full group followed by decodable digits decodes to its bytes followed by theirs |
| Base64.DecodeEncodeSextets | dist/esm/webauthn-json.js:5-19 | decoding the digits of any byte sequence gives the bytes back |
| Base64.StripPaddingOfEncode | dist/esm/webauthn-json.js:5-19 | the `=` that `btoa` adds is exactly what `atob` strips |
| Base64.AtobOfEncode | dist/esm/webauthn-json.js:5-19 | `atob` of a `btoa` encoding gives back the binary string of the bytes |
| Base64.BtoaOfLatin1 | dist/esm/webauthn-json.js:15-19 | `btoa` of the binary string of any bytes succeeds, with their encoding |
| Base64Url.ReplaceAll | dist/esm/webauthn-json.js:4 | a global one-character replace keeps the length and replaces exactly the matching characters |
| Base64Url.RemoveAll | dist/esm/webauthn-json.js:23 | `.replace(/=/g, "")` leaves no `=` and leaves text without `=` unchanged |
| Base64Url.RemoveAllMembers | dist/esm/webauthn-json.js:23 | `.replace(/=/g, "")` keeps exactly the characters other than `=` |
| Base64Url.UrlDigit | dist/esm/webauthn-json.js:20-23 | each digit of the URL-safe alphabet is in that alphabet |
| Base64Url.UrlDigits | dist/esm/webauthn-json.js:20-23 | the URL-safe text has one URL-safe character per sextet |
| Base64Url.SwapBack | dist/esm/webauthn-json.js:4 | swapping `-` and `_` back gives the standard digits of the same sextets |
| Base64Url.Base64UrlEncode | dist/esm/webauthn-json.js:13-25 | `bufferToBase64url` returns only URL-safe characters: the URL-safe digits of the buffer's sextets, without padding |
| Base64Url.RemoveAllSplits | dist/esm/webauthn-json.js:23 | removing `=` from digits followed by padding leaves the digits |
| Base64Url.Padding | dist/esm/webauthn-json.js:3 | the decoder appends `(4 - len % 4) % 4` `=`, but at most two; the result is whole quanta exactly when `len % 4 != 1` |
| Base64Url.CharCodes | dist/esm/webauthn-json.js:6-10 | the byte array has as many bytes as the string has characters |
| Base64Url.BufferToBase64url | dist/esm/webauthn-json.js:13-25 | the loop that builds the binary string, followed by `btoa` and the alphabet swap, returns `Base64UrlEncode` of the buffer |
| Base64Url.Base64urlToBuffer | dist/esm/webauthn-json.js:2-12 | padding, swap, `atob` and the byte loop return `Base64UrlDecode`, the buffer or the error `atob` throws |
| Base64Url.PaddingRestored | dist/esm/webauthn-json.js:3-23 | the decoder re-adds exactly the padding the encoder removed |
| Base64Url.StandardFormRestored | dist/esm/webauthn-json.js:3-4 | before `atob`, the decoder has rebuilt the padded standard encoding of the buffer |
| Base64Url.CharCodesOfLatin1 | dist/esm/webauthn-json.js:8-10 | `charCodeAt` reads back the bytes a binary string was built from |
| Base64Url.RoundTrip | dist/esm/webauthn-json.js:2-25 | `base64urlToBuffer(bufferToBase64url(b))` returns `b` for every buffer, the empty one included |
| Base64Url.ShortFinalQuantumRejected | dist/esm/webauthn-json.js:3-5 | a string of 4k+1 characters without whitespace makes `atob` throw |
| Records.Keys | dist/esm/webauthn-json.js:42 | an object's keys, in property order |
| Records.Get | dist/esm/webauthn-json.js:49 | a property read finds a value exactly when `key in obj` |
| Records.GetSet | dist/esm/webauthn-json.js:46 | after `obj[key] = v`, `obj[key]` is `v` and every other key reads as before |
| Records.SetKeys | dist/esm/webauthn-json.js:46 | assignment keeps the keys, or appends the new key at the end |
| Records.GetIndex | dist/esm/webauthn-json.js:42-49 | a key with no earlier duplicate reads the entry at its position |
| Records.SetSame | dist/esm/webauthn-json.js:46 | writing back the value a key already has changes nothing |
| Records.SetKeepsDistinct | dist/esm/webauthn-json.js:46 | assignment keeps an object's keys distinct |
| Records.SameKeysDistinct | dist/esm/webauthn-json.extended.js:254-265 | whether keys are distinct depends only on the key list, so objects with the same keys are both distinct or both not |
| Records.SameEntries | dist/esm/webauthn-json.js:41-64 | two objects with the same distinct keys, each key reading the same value, are the same object |
| Records.KeyPosition | dist/esm/webauthn-json.js:42-49 | in an object with distinct keys, a key it has sits at one position, holding the value the key reads |
| Records.KeysAppend | dist/esm/webauthn-json.js:56-62 | adding a new output key appends it to the keys |
| Records.GetAppend | dist/esm/webauthn-json.js:56-62 | reading after an appended entry finds the old entries first, then the new one |
| Values.ObjectView | dist/esm/webauthn-json.js:49 | `key in input` can look into objects, arrays and buffers only; a plain object shows its own properties |
| Schemas.Derived | dist/esm/webauthn-json.js:68-74 | `derived(schema, derive)` is required, with that schema and that derive |
| Schemas.Required | dist/esm/webauthn-json.js:75-80 | `required(schema)` is required, with that schema and no derive |
| Schemas.Optional | dist/esm/webauthn-json.js:81-86 | `optional(schema)` is not required, with that schema and no derive |
| Schemas.JsonClone | dist/esm/webauthn-json.extended.js:254-256 | the `JSON.parse(JSON.stringify(...))` copy of a schema has no `derive` left |
| Schemas.CloneIdentity | dist/esm/webauthn-json.extended.js:254-256 | a schema without `derive` survives the JSON round trip unchanged |
| Schemas.CloneCopyOnly | dist/esm/webauthn-json.extended.js:254-256 | the clone has `"convert"` leaves exactly where the original has them |
| Schemas.CloneKeys | dist/esm/webauthn-json.extended.js:254-256 | the clone of an object of field specs has the original's keys, in the same order |
| Schemas.CloneGet | dist/esm/webauthn-json.extended.js:258-260 | a field of the cloned object is the clone of the original field |
| Schemas.CloneSpec | dist/esm/webauthn-json.extended.js:258-260 | a cloned field spec keeps `required` and loses `derive` |
| Schemas.CloneLookup | dist/esm/webauthn-json.extended.js:258-260 | any path through the clone reaches the clone of what the same path reaches in the original |
| Schemas.CloneWellFormed | dist/esm/webauthn-json.extended.js:254-256 | the clone has distinct keys in every object exactly when the original does |
| Schemas.LookupPair | dist/esm/webauthn-json.extended.js:257 | `schema.k1.schema.k2` reads `k2` in the schema of field `k1` |
| Schemas.Assign | dist/esm/webauthn-json.extended.js:257 | after a patch assignment, the path reads the new spec, the other top-level keys read as before, and a nested patch keeps the top-level keys; the first field keeps its key, and keeps its `derive` unless the patch replaces it |
| Schemas.AssignElsewhere | dist/esm/webauthn-json.extended.js:257-265 | a patch leaves every field spec off its path unchanged |
| Transcoder.FieldsStep | dist/esm/webauthn-json.js:42-64 | one more iteration of the field loop advances the state by the field's step |
| Transcoder.ElemsFailurePersists | dist/esm/webauthn-json.js:38 | once an element throws, `map` throws that error |
| Transcoder.FieldsFailurePersists | dist/esm/webauthn-json.js:42-64 | once a field throws, the loop throws that error |
| Transcoder.TranscodeRecord | dist/esm/webauthn-json.js:40-65 | an object schema's conversion is the complete field loop |
| Transcoder.TranscodeRecordFails | dist/esm/webauthn-json.js:40-65 | an object whose field loop throws makes the conversion throw that error |
| Transcoder.PrimitiveRecord | dist/esm/webauthn-json.js:42-49 | on a primitive, the first field of an object schema throws: its `derive`'s error, or otherwise a TypeError from the write or from `key in` |
| Transcoder.Convert | dist/esm/webauthn-json.js:30-67 | the dispatch on copy, convert, array and object computes `Transcode`, including a primitive or an array under an object schema |
| Transcoder.ConvertElements | dist/esm/webauthn-json.js:37-39 | the `map` loop computes the array conversion |
| Transcoder.ConvertFields | dist/esm/webauthn-json.js:40-65 | the field loop computes the object conversion, its output and the modified input |
| Transcoder.FieldLoop | dist/esm/webauthn-json.js:42-64 | the `Object.entries` loop computes the field loop's output and the record with its writes, or the first error |
| Transcoder.ProcessField | dist/esm/webauthn-json.js:43-63 | one loop body computes `ConvertField`: derive, presence check, null check, recursion |
| TranscoderFacts.RunElemsNext | dist/esm/webauthn-json.js:38 | one more element appends its conversion or throws its error |
| TranscoderFacts.RunElemsLast | dist/esm/webauthn-json.js:38 | a successful map succeeded on each prefix and on the last element |
| TranscoderFacts.RunElemsOutputs | dist/esm/webauthn-json.js:38 | after a successful map, element i of the result is the conversion of element i |
| TranscoderFacts.RunElemsFirstFailure | dist/esm/webauthn-json.js:38 | a failing map throws the error of the first element that fails |
| TranscoderFacts.ArrayElementwise | dist/esm/webauthn-json.js:37-39 | an array schema throws a TypeError on a non-array; on an array it succeeds exactly when every element converts, keeping length and order, and a failure is some element's error |
| TranscoderFacts.ApplyDeriveFrame | dist/esm/webauthn-json.js:43-48 | a `derive` writes at most its own key, removes nothing, and writes only a defined value |
| TranscoderFacts.TranscodeKeepsDefined | dist/esm/webauthn-json.js:30-67 | converting a value that is neither null nor undefined leaves an input that is neither |
| TranscoderFacts.ConvertFieldFrame | dist/esm/webauthn-json.js:43-63 | one iteration writes only its own key, emits an entry exactly when the key is present, and emits `null` for a nullish value |
| TranscoderFacts.DerivedFieldEmitted | dist/esm/webauthn-json.js:43-48 | a field whose `derive` returns a defined value is always emitted |
| TranscoderFacts.DerivedValueWins | dist/esm/webauthn-json.js:44-46 | a defined derived value replaces the input's own value before conversion |
| TranscoderFacts.RunFieldsLast | dist/esm/webauthn-json.js:42-64 | a successful loop succeeded on each prefix and on the last field |
| TranscoderFacts.FieldsSucceedBefore | dist/esm/webauthn-json.js:42-64 | a loop that succeeds on m fields succeeds on every n <= m |
| TranscoderFacts.RunFieldsNext | dist/esm/webauthn-json.js:42-64 | the loop succeeds on one more field exactly when that field converts on the record so far |
| TranscoderFacts.RequiredAbsent | dist/esm/webauthn-json.js:49-52 | a missing required field throws `Missing key: key` |
| TranscoderFacts.OptionalAbsent | dist/esm/webauthn-json.js:49-53 | a missing optional field is skipped, with no output entry and no write |
| TranscoderFacts.NullShortCircuit | dist/esm/webauthn-json.js:55-58 | a null or undefined value becomes `null` whatever the schema |
| TranscoderFacts.ConvertFieldValueFails | dist/esm/webauthn-json.js:59-63 | a present, non-nullish value that fails to convert makes the field throw exactly that value's error, unchanged |
| TranscoderFacts.RunFieldsStepFails | dist/esm/webauthn-json.js:42-64 | a field that throws makes the loop throw exactly that field's error once it is reached |
| TranscoderFacts.PresentKeys | dist/esm/webauthn-json.js:42-64 | the schema keys the record has, in declaration order: only schema keys the record has, at most n |
| TranscoderFacts.PresentKeysSame | dist/esm/webauthn-json.js:49 | which keys are emitted depends only on which schema keys are present |
| TranscoderFacts.InvariantStep | dist/esm/webauthn-json.js:42-64 | any step confined to its own key preserves the loop invariant |
| TranscoderFacts.OutputKeysStep | dist/esm/webauthn-json.js:42-64 | the output keys stay the present schema keys, in order |
| TranscoderFacts.UntouchedStep | dist/esm/webauthn-json.js:42-64 | entries no field has named yet are as in the input |
| TranscoderFacts.KeptStep | dist/esm/webauthn-json.js:42-64 | no input key is ever removed |
| TranscoderFacts.RunFieldsInvariant | dist/esm/webauthn-json.js:42-64 | the loop keeps its invariant over every prefix |
| TranscoderFacts.FieldOutputHere | dist/esm/webauthn-json.js:42-64 | right after field j, its output and record entries are what its step produced |
| TranscoderFacts.EntryKeptStep | dist/esm/webauthn-json.js:42-64 | a field under another key leaves the entries under a key unchanged |
| TranscoderFacts.EntryKept | dist/esm/webauthn-json.js:42-64 | later fields under other keys keep field j's entries |
| TranscoderFacts.FieldOutput | dist/esm/webauthn-json.js:42-64 | after the loop, entry j of the output and of the record is what field j left |
| TranscoderFacts.RecordSuccess | dist/esm/webauthn-json.js:40-65 | a successful object conversion either ran the complete loop on the properties of an object, array or buffer, returning the input with its writes, or had an empty schema, which gives `{}` for any input |
| TranscoderFacts.RecordPrimitive | dist/esm/webauthn-json.js:40-49 | on a primitive, an empty object schema gives `{}`; any other throws, a TypeError when the first field is not derived |
| TranscoderFacts.RecordView | dist/esm/webauthn-json.js:40-65 | an array or a buffer converts as the empty object does, with the same output or the same error, and comes back unchanged |
| TranscoderFacts.OptionalFieldsAbsent | dist/esm/webauthn-json.js:49-53 | optional fields without `derive` whose keys are all absent are all skipped, with no output and no write |
| TranscoderFacts.OptionalOnlyView | dist/esm/webauthn-json.js:40-65 | a schema of optional fields without `derive` turns an array or a buffer into `{}` |
| TranscoderFacts.RecordOutputKeys | dist/esm/webauthn-json.js:40-65 | for an object input, the output holds only schema keys, in declaration order, each exactly when the input has it; non-schema input keys are kept as they were and no key is removed |
| TranscoderFacts.LoopFails | dist/esm/webauthn-json.js:40-65 | a loop that has thrown makes the whole conversion throw that error |
| TranscoderFacts.RequiredMissingStep | dist/esm/webauthn-json.js:49-52 | reaching a missing required field, the loop throws `Missing key` for that key |
| TranscoderFacts.RequiredMissingFails | dist/esm/webauthn-json.js:49-52 | any missing required non-derived field makes the conversion throw; when the fields before it went through, it throws `Missing key` for that key |
| TranscoderFacts.FirstFieldMissing | dist/esm/webauthn-json.js:49-52 | a missing first required field throws exactly `Missing key` for it |
| TranscoderFacts.FieldValueStep | dist/esm/webauthn-json.js:59-63 | reaching a field whose value fails to convert, the loop throws exactly the error that value's conversion throws |
| TranscoderFacts.FieldValueFails | dist/esm/webauthn-json.js:59-63 | any non-derived field whose present value fails to convert makes the conversion throw; when the fields before it convert, with exactly that value's error |
| TranscoderFacts.DerivedAlwaysEmitted | dist/esm/webauthn-json.js:43-48 | a derived field whose `derive` never returns undefined is in every successful output |
| TranscoderFacts.FieldConvertedAt | dist/esm/webauthn-json.js:49-63 | a field without `derive` whose value is neither null nor undefined is in a successful output as that value converted by the field's schema |
| TranscoderFacts.TranscodeKeepsInput | dist/esm/webauthn-json.js:30-67 | a schema without `derive` leaves its input unchanged |
| TranscoderFacts.ElemsKeepInputs | dist/esm/webauthn-json.js:38 | without `derive`, mapped elements are unchanged |
| TranscoderFacts.FieldsKeepRecord | dist/esm/webauthn-json.js:42-64 | without `derive`, the loop leaves the record unchanged |
| TranscoderFacts.FieldKeepsRecord | dist/esm/webauthn-json.js:43-63 | without `derive`, one field leaves the record unchanged |
| TranscoderFacts.RunFieldsNoDerives | dist/esm/webauthn-json.js:42-64 | without `derive`, the loop succeeds exactly when every field converts on the unchanged input |
| TranscoderFacts.AllFieldsConvert | dist/esm/webauthn-json.js:42-64 | without `derive`, fields that all convert make the loop succeed |
| TranscoderFacts.NoDerivesStep | dist/esm/webauthn-json.js:42-64 | without `derive`, the next field runs on the unchanged input |
| TranscoderFacts.RecordNoDerivesSucceeds | dist/esm/webauthn-json.js:40-65 | without `derive`, the object conversion succeeds exactly when each field converts on its own |
| TranscoderFacts.RecordNoDerivesOutput | dist/esm/webauthn-json.js:40-65 | without `derive`, the input is untouched, the output keys are the present schema keys, and each entry is its own field's result |
| TranscoderFacts.CopyOnlyIgnoresFn | dist/esm/webauthn-json.js:30-67 | a schema without `"convert"` gives the same result for any conversion function |
| TranscoderFacts.ElemsIgnoreFn | dist/esm/webauthn-json.js:38 | the same holds for the array map |
| TranscoderFacts.FieldsIgnoreFn | dist/esm/webauthn-json.js:42-64 | the same holds for the field loop |
| TranscoderFacts.FieldIgnoresFn | dist/esm/webauthn-json.js:43-63 | the same holds for one field |
| TranscoderFacts.CopyField | dist/esm/webauthn-json.js:49-63 | one `copyValue` field: `Missing key` when required and absent, skipped when optional and absent, otherwise its own value emitted (`undefined` as `null`) with the record left as it was |
| TranscoderFacts.CopyFieldsSucceed | dist/esm/webauthn-json.js:42-64 | an object schema of `copyValue` fields converts an object exactly when every required key is present |
| TranscoderFacts.CopyFieldsCopied | dist/esm/webauthn-json.js:31-64 | each schema key of a successful copy-only conversion reads in the output what it read in the input, except that `undefined` becomes `null`; the input is untouched |
| TranscoderFacts.PresentKeysAll | dist/esm/webauthn-json.js:42-49 | when the input has every schema key, the output keys are all schema keys in declaration order |
| TranscoderFacts.CopyOutputKeys | dist/esm/webauthn-json.js:42-64 | a copy-only conversion of an object that has every schema key succeeds and emits all of them, in declaration order |
| TranscoderFacts.CopyRecordIdentity | dist/esm/webauthn-json.js:31-64 | an object with exactly the keys of a `copyValue` schema, none `undefined`, converts to itself |
| TranscoderFacts.CopyArrayIdentity | dist/esm/webauthn-json.js:31-39 | `[copyValue]` returns any array as it is, element for element |
| BasicSchemas.Transports | dist/esm/webauthn-json.js:144-150 | the transports `derive` gives `getTransports()` when it is truthy, `[]` when the method is missing, and never a falsy value |
| BasicSchemas.CreationPublicKeyDistinct | dist/esm/webauthn-json.js:119-133 | the creation options' `publicKey` keys are distinct |
| BasicSchemas.RequestPublicKeyDistinct | dist/esm/webauthn-json.js:159-166 | the request options' `publicKey` keys are distinct |
| BasicSchemas.ExtensionsNoDerives | dist/esm/webauthn-json.js:94-105 | the simplified extensions have no `derive` |
| BasicSchemas.CreationPublicKeyNoDerives | dist/esm/webauthn-json.js:119-133 | the creation `publicKey` schema has no `derive` |
| BasicSchemas.CreationOptionsNoDerives | dist/esm/webauthn-json.js:118-135 | the creation options have no `derive` |
| BasicSchemas.RequestOptionsNoDerives | dist/esm/webauthn-json.js:157-168 | the request options have no `derive` |
| BasicSchemas.AttestationKeys | dist/esm/webauthn-json.js:136-156 | the attestation credential's keys and its response's keys are distinct |
| BasicSchemas.AssertionKeys | dist/esm/webauthn-json.js:169-184 | the assertion credential's keys are distinct |
| BasicSchemas.CreationExtensionsAt | dist/esm/webauthn-json.js:132 | the creation options hold the optional simplified extensions at `publicKey.extensions` |
| BasicSchemas.RequestExtensionsAt | dist/esm/webauthn-json.js:165 | the request options hold the optional simplified extensions at `publicKey.extensions` |
| BasicSchemas.AttestationResultsAt | dist/esm/webauthn-json.js:152-155 | the attestation credential derives `clientExtensionResults` over the simplified results schema |
| BasicSchemas.AttestationResponseAt | dist/esm/webauthn-json.js:141-151 | the attestation credential's `response` is the required attestation response |
| BasicSchemas.TransportsAt | dist/esm/webauthn-json.js:144-150 | the attestation response derives `transports`, copied |
| BasicSchemas.AssertionResultsAt | dist/esm/webauthn-json.js:180-183 | the assertion credential derives `clientExtensionResults` |
| BasicSchemas.UserFieldAt | dist/esm/webauthn-json.js:119-125 | the second of the nine `publicKey` fields is the required `user` |
| ExtendedSchemas.AttestationWithResultsResponse | dist/esm/webauthn-json.extended.js:258-264 | after the first patch, `response` is the clone of the basic response, with no `derive` |
| ExtendedSchemas.RequestsExtendedFirstFields | dist/esm/webauthn-json.extended.js:254-257 | the first field of each extended request schema is not derived |
| ExtendedSchemas.CredentialsExtendedFirstFields | dist/esm/webauthn-json.extended.js:258-276 | the first field, `type`, of each extended credential schema is not derived |
| ExtendedSchemas.AttestationExtendedResponseAt | dist/esm/webauthn-json.extended.js:258-265 | the extended attestation credential's keys are distinct, and its `response` is a required field over the patched response schema |
| ExtendedSchemas.AttestationResponseExtendedKeys | dist/esm/webauthn-json.extended.js:258-265 | the patched response schema's keys are distinct, and its `transports` is the basic derived one |
| ExtendedSchemas.CreationExtendedPatch | dist/esm/webauthn-json.extended.js:254-257 | the extended creation options hold the extension inputs at `publicKey.extensions`, the basic schema keeps the simplified ones, and every other path is unchanged |
| ExtendedSchemas.RequestExtendedPatch | dist/esm/webauthn-json.extended.js:266-269 | likewise for the extended request options |
| ExtendedSchemas.AttestationTransportsPatchable | dist/esm/webauthn-json.extended.js:265 | the `response.transports` assignment does not throw |
| ExtendedSchemas.AttestationExtendedResults | dist/esm/webauthn-json.extended.js:261-264 | the extended attestation schema derives `clientExtensionResults` with the basic `derive`, over the extension outputs |
| ExtendedSchemas.AttestationTransportsAt | dist/esm/webauthn-json.extended.js:265 | the basic schema's `response.transports` is the derived transports |
| ExtendedSchemas.AttestationExtendedTransports | dist/esm/webauthn-json.extended.js:265 | the extended schema puts that same derived `transports` back |
| ExtendedSchemas.AttestationExtendedClones | dist/esm/webauthn-json.extended.js:258-265 | every other field spec is the clone of the basic one |
| ExtendedSchemas.AssertionExtendedDerives | dist/esm/webauthn-json.extended.js:270-276 | the extended assertion schema derives `clientExtensionResults` with the basic `derive`, over the extension outputs |
| ExtendedSchemas.AssertionExtendedClones | dist/esm/webauthn-json.extended.js:270-276 | every other field spec is the clone of the basic one |
| ExtendedSchemas.InputsConvertLeaf | dist/esm/webauthn-json.extended.js:232-242 | `largeBlob.write` is the only `"convert"` leaf of the extension inputs |
| ExtendedSchemas.OutputsConvertLeaf | dist/esm/webauthn-json.extended.js:243-253 | `largeBlob.blob` is the only `"convert"` leaf of the extension outputs |
| Api.DecodeLeaf | dist/esm/webauthn-json.js:194 | a request's `"convert"` leaf becomes the buffer `base64urlToBuffer` decodes, and does so whenever the decode succeeds; text that does not decode throws atob's InvalidCharacterError, and a leaf that is not a string throws a TypeError |
| ByteViews.Decimal | dist/esm/webauthn-json.js:14 | `String(i)`, the key an array-like object's element `i` is read under, is a numeral of decimal digits |
| ByteViews.DecimalRoundTrip | dist/esm/webauthn-json.js:14 | reading back the numeral `String(n)` gives `n` |
| ByteViews.StringNumber | dist/esm/webauthn-json.js:14 | `Number(s)`, NaN read as 0, is the value of a decimal numeral and 0 for any other string |
| ByteViews.ToUint8 | dist/esm/webauthn-json.js:14 | an element becomes a byte congruent to it modulo 2^8 |
| ByteViews.ArrayLikeLength | dist/esm/webauthn-json.js:14 | an array-like object's length is its `length` property as a number: 0 when absent, 0 when negative (ToLength's clamp), the number itself otherwise |
| ByteViews.ViewBytes | dist/esm/webauthn-json.js:14 | `new Uint8Array(x)` views an ArrayBuffer's bytes; an array's or array-like object's elements modulo 2^8; for any other value that many zero bytes, throwing only a RangeError for a negative number |
| ByteViews.ArrayOfBytes | dist/esm/webauthn-json.js:14 | an array of byte values views exactly those bytes |
| Api.EncodeLeaf | dist/esm/webauthn-json.js:13-25 | a credential's `"convert"` leaf gives URL-safe text that `base64urlToBuffer` reads back as the bytes `new Uint8Array` views; a buffer gives its own encoding, and only a negative length throws, a RangeError |
| Api.ConvertObject | dist/esm/webauthn-json.js:30-67 | converting with an object schema returns an object or the conversion's error; a primitive gets `{}` from an empty schema and a TypeError when the first field is not derived |
| Api.CreateRequestFromJson | dist/esm/webauthn-json.js:193-195 | a primitive request throws a TypeError, and any result is an object |
| Api.CreateResponseToJson | dist/esm/webauthn-json.js:196-202 | a primitive credential throws a TypeError, and any result is an object |
| Api.GetRequestFromJson | dist/esm/webauthn-json.js:209-211 | a primitive request throws a TypeError, and any result is an object |
| Api.GetResponseToJson | dist/esm/webauthn-json.js:212-218 | a primitive credential throws a TypeError, and any result is an object |
| Api.CreateExtendedRequestFromJson | dist/esm/webauthn-json.extended.js:279-285 | a primitive request throws a TypeError, and any result is an object |
| Api.CreateExtendedResponseToJson | dist/esm/webauthn-json.extended.js:286-292 | a primitive credential throws a TypeError, and any result is an object |
| Api.GetExtendedRequestFromJson | dist/esm/webauthn-json.extended.js:331-337 | a primitive request throws a TypeError, and any result is an object |
| Api.GetExtendedResponseToJson | dist/esm/webauthn-json.extended.js:338-344 | a primitive credential throws a TypeError, and any result is an object |
| Api.LeafRoundTrip | dist/esm/webauthn-json.js:193-218 | a buffer a credential encodes decodes back to the same bytes in a request |
| Api.CreateRequestMissingPublicKey | dist/esm/webauthn-json.js:119 | a creation request without `publicKey`, an array or an ArrayBuffer included, throws `Missing key: publicKey` |
| Api.CreateExtendedRequestMissingPublicKey | dist/esm/webauthn-json.extended.js:254-257 | the extended creation request throws the same error |
| Api.CreatePublicKeyFails | dist/esm/webauthn-json.js:118-135 | a `publicKey` that fails to convert makes the creation request throw exactly the error its conversion throws |
| Api.CreatePublicKeyFieldMissing | dist/esm/webauthn-json.js:119-133 | a `publicKey` missing `rp`, `user`, `challenge` or `pubKeyCredParams` makes the request throw; `Missing key` for that member when the members before it convert |
| Api.UserWithoutId | dist/esm/webauthn-json.js:121-125 | a `user` without `id` throws `Missing key: id` |
| Api.RpCopied | dist/esm/webauthn-json.js:120 | a present `rp`, copied as it is, never throws, so the loop always reaches `user` |
| Api.UserIdMissing | dist/esm/webauthn-json.js:119-126 | a `publicKey` whose `user` has no `id` throws `Missing key: rp` when `rp` is absent, otherwise `Missing key: id` |
| Api.CreateUserIdMissing | dist/esm/webauthn-json.js:118-135 | a creation request whose `publicKey.user` lacks `id` throws `Missing key: rp` when `rp` is absent, otherwise `Missing key: id` |
| Api.TransportsAlwaysPresent | dist/esm/webauthn-json.js:141-151 | a converted attestation response always has `transports` |
| Api.CreateResponseTransports | dist/esm/webauthn-json.js:136-156 | a converted attestation credential whose `response` is neither null nor undefined has `response.transports` |
| Api.CreateExtendedResponseTransports | dist/esm/webauthn-json.extended.js:258-265 | so does the output of the extended converter |

## Left out

- `create`, `get`, `createExtended` and `getExtended` call `navigator.credentials` and are asynchronous host I/O. Only the converters on either side of those calls are modelled.
- `supported` only reads browser globals.
- `makeCallable` wraps host methods in a prototype object. Functions on values and prototype chains are outside the value model.
- The bodies of the `derive` closures call host methods. Those methods are the `Host` parameter: `getTransports` may be missing, and `getClientExtensionResults` throws a TypeError when it is missing.
- `key in input` also sees inherited properties. The model sees only own properties.
- `convert` returns `undefined` for a schema that is none of the four shapes. `Schema` has no fifth shape, so that path does not arise.
- `btoa` and `atob` are host functions. `Base64` models them from RFC 4648 and the forgiving-base64 algorithm.
- `Api.EncodeLeaf`: `Number(s)` of a string is modelled for numerals of decimal digits only. Any other string reads as NaN, that is 0. JavaScript also reads whitespace around a numeral, a sign, a fraction, an exponent, `0x`/`0o`/`0b` prefixes and `Infinity`, and throws a RangeError for a negative length.
- `Api.EncodeLeaf`: a length too large to allocate throws a RangeError in the browser. The model allocates any length.
- `ByteViews.StringNumber`: reads numerals of decimal digits only; every other string is read as NaN, that is 0. JavaScript's `Number(s)` also reads surrounding whitespace, a sign, a fraction, an exponent, `0x`/`0o`/`0b` prefixes and `Infinity`.
- `ByteViews.ViewBytes`: a length too large to allocate throws a RangeError in the browser; the model allocates any length, and a string length that is negative in JavaScript reads as 0 here.
- `Api.CreatePublicKeyFieldMissing`: states the exact `Missing key` only when the members before the missing one convert. An earlier member can throw first: a `user.id` of `"!!"` throws InvalidCharacterError before a missing `challenge` is reached.
- A `derive` applied to an array or an ArrayBuffer sees it as an object without properties, and a value it writes there is not kept in the returned input. The `derive` functions of the library read only methods of credential objects.
- `Api.DecodeLeaf`: does not state the decoder's exact `InvalidCharacterError` cases beyond `Base64Url.ShortFinalQuantumRejected`, because `atob`'s full acceptance rule is only modelled, not characterised.
- `TranscoderFacts.CopyOnlyIgnoresFn`: a schema without `"convert"` is not the identity in general, and the model does not claim it is. An object schema drops keys outside the schema, writes `null` for a present `undefined`, and throws for a primitive or a missing required key. The identity is proved only where it holds: `TranscoderFacts.CopyRecordIdentity` for an object with exactly the schema's keys, none `undefined`, under `copyValue` fields, and `TranscoderFacts.CopyArrayIdentity` for `[copyValue]`. Nested copy-only object schemas are covered field by field through `TranscoderFacts.RecordNoDerivesOutput`.
- The input object is modified in place by `input[key] = v`, and the caller sees those writes. The model returns the modified input as a value, so aliasing between the caller's object and nested objects is not captured.
- The number edge cases of JavaScript truthiness (`NaN`, `-0`) are not modelled. `Num` holds an integer.
- Distinct keys in every nested object of the eight schemas are proved only where a property needs them, not as one deep property of each schema.
- That the extended converters agree with the basic ones on requests without extensions is not proved. Only field-spec agreement off the patched paths is.
