/**
 * The nested-entry codec for one vault's settings. Its real adapter is not
 * part of this model: an entry is represented by the members of the nested
 * object it was read from, so that encoding and decoding are each other's
 * inverse, which is all the settings codec relies on.
 */
module VaultSettingsCodec {
  import opened Wrappers
  import opened Json

  datatype VaultSettings = VaultSettings(members: seq<Member>)

  /** Writes one entry as a nested object. */
  function EncodeVault(v: VaultSettings): (j: JsonValue)
    ensures j.JObject?
  {
    JObject(v.members)
  }

  /** Reads one entry; anything but an object is a structural error. */
  function DecodeVault(j: JsonValue): (r: Result<VaultSettings, ReadError>)
    ensures r.Ok? <==> j.JObject?
    ensures r.Err? ==> r.error == ExpectedObject
  {
    if j.JObject? then Ok(VaultSettings(j.members)) else Err(ExpectedObject)
  }

  lemma VaultRoundTrip(v: VaultSettings)
    ensures DecodeVault(EncodeVault(v)) == Ok(v)
  {
  }
}
