/** Secret envelopes, `src/lib/security/encryption.ts`, with AES-GCM taken as perfect: an envelope opens under exactly
    the key and the context it was sealed with. */
module Secrets {
  import opened Prelude

  type KeyId = string

  /** The columns that hold envelopes. */
  datatype Column = ProviderSecret | IntegrationToken | BearerToken | OAuthData | ApprovalArguments | CheckpointState

  datatype Scope = Whole | OfRun(run: Option<string>) | External(approval: string)

  datatype Context = Context(column: Column, organization: string, scope: Scope)

  /** The configured keys by id, and which one seals; key material is known by a number. */
  datatype Ring = Ring(current: KeyId, keys: map<KeyId, nat>)

  ghost predicate ValidRing(ring: Ring) {
    ring.current in ring.keys
  }

  /** An envelope of either version, or a string neither version opens, perhaps with a key id in front. */
  datatype Envelope =
    | V1(key: nat, nonce: nat, plaintext: string)
    | V2(id: KeyId, key: nat, context: Context, nonce: nat, plaintext: string)
    | Malformed(prefix: Option<KeyId>, text: string)

  /** The envelope starts with the current key's prefix. */
  predicate IsCurrent(ring: Ring, e: Envelope) {
    match e
    case V1(_, _, _) => false
    case V2(id, _, _, _, _) => id == ring.current
    case Malformed(prefix, _) => prefix == Some(ring.current)
  }

  lemma CurrentIff(ring: Ring, e: Envelope)
    ensures IsCurrent(ring, e) <==>
              (e.V2? && e.id == ring.current) || (e.Malformed? && e.prefix == Some(ring.current))
  {
  }

  function Decrypt(ring: Ring, e: Envelope, context: Context): (plaintext: Option<string>)
    requires ValidRing(ring)
    ensures plaintext.Some? ==> plaintext.value != ""
  {
    match e
    case V1(key, _, text) => if key == ring.keys[ring.current] && text != "" then Some(text) else None
    case V2(id, key, sealedFor, _, text) =>
      if id in ring.keys && key == ring.keys[id] && sealedFor == context && text != "" then Some(text) else None
    case Malformed(_, _) => None
  }

  /** An envelope of the first version opens under the current key, whatever the context; one of the second under the
      key
      its id names, in its own context. */
  lemma OpensIff(ring: Ring, e: Envelope, context: Context, text: string)
    requires ValidRing(ring)
    ensures Decrypt(ring, e, context) == Some(text) <==>
              && text != "" && !e.Malformed? && e.plaintext == text
              && (e.V1? ==> e.key == ring.keys[ring.current])
              && (e.V2? ==> e.id in ring.keys && e.key == ring.keys[e.id] && e.context == context)
  {
  }

  function Encrypt(ring: Ring, plaintext: string, context: Context, nonce: nat): (e: Option<Envelope>)
    requires ValidRing(ring)
    ensures e.None? <==> plaintext == ""
    ensures e.Some? ==> IsCurrent(ring, e.value)
    ensures e.Some? ==>
              forall other :: Decrypt(ring, e.value, other) == if other == context then Some(plaintext) else None
  {
    if plaintext == "" then None else Some(V2(ring.current, ring.keys[ring.current], context, nonce, plaintext))
  }
}
