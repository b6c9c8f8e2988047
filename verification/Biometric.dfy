/** The contract of a biometric vault: how keys are named in a keystore, what an operation may
    answer and do to a key's queue of secrets, and the map with one passphrase per key that the
    queues are where no key has more than one entry. */
module Biometric {
  import opened Records

  const KEY_ID_PREFIX: string := "gitway:ssh:"

  function KeyIdFromFingerprint(fingerprint: string): string {
    KEY_ID_PREFIX + fingerprint
  }

  /** Strips the prefix; a name without it is returned unchanged. */
  function FingerprintOf(keyId: string): string {
    if KEY_ID_PREFIX <= keyId then keyId[|KEY_ID_PREFIX|..] else keyId
  }

  /** Every fingerprint survives the round trip; a key id does exactly when it is ours. */
  lemma KeyIdsInvert(fingerprint: string, keyId: string)
    ensures KeyIdFromFingerprint(fingerprint) == "gitway:ssh:" + fingerprint
    ensures FingerprintOf(KeyIdFromFingerprint(fingerprint)) == fingerprint
    ensures KeyIdFromFingerprint(FingerprintOf(keyId)) == keyId <==> KEY_ID_PREFIX <= keyId
  {
    assert KEY_ID_PREFIX <= KEY_ID_PREFIX + fingerprint;
    if KeyIdFromFingerprint(FingerprintOf(keyId)) == keyId {
      assert KEY_ID_PREFIX <= KEY_ID_PREFIX + FingerprintOf(keyId);
    }
  }

  datatype VaultError = NotEnrolled | Cancelled | Unavailable | Backend

  datatype Reply =
    | Done
    | Released(passphrase: string)
    | Listed(fingerprints: seq<string>)
    | Failed(error: VaultError)

  /** How the user's biometric check ended. */
  datatype Gate = Passed | Refused | NoSensor | GateBroken

  /** What the operating system lets happen during one operation. Each flag says whether one
      call works; `status` is the code of a keychain call that does not. */
  datatype Platform = Platform(
    open: bool, search: bool, read: bool, write: bool, clear: bool, remove: bool,
    gate: Gate, status: int)

  predicate AllWorks(f: Platform) {
    f.open && f.search && f.read && f.write && f.clear && f.remove && f.gate.Passed?
  }

  datatype Op =
    | Store(fingerprint: string, passphrase: string)
    | Retrieve(fingerprint: string)
    | Delete(fingerprint: string)
    | List

  /** What an operation on one key may answer, and what it may do to the entries of that key. */
  ghost predicate Follows(q: Queue, op: Op, reply: Reply, q': Queue) {
    match op
    case Store(_, pp) =>
      || (reply.Done? && (q' == q + [Text(pp)] || q' == Rest(q) + [Text(pp)]))
      || (reply.Failed? && !reply.error.NotEnrolled? && (q' == q || q' == Rest(q)))
    case Retrieve(_) =>
      && q' == q
      && (|| (reply.Released? && q != [] && q[0] == Text(reply.passphrase))
          || (reply.Failed? && (reply.error.NotEnrolled? ==> q == [])))
    case Delete(_) =>
      || (reply.Done? && q != [] && q' == q[1..])
      || (reply.Failed? && q' == q && (reply.error.NotEnrolled? ==> q == []))
    case List => q' == q
  }

  /** What an operation on one key must answer when every call works and the user passes the
      check. */
  ghost predicate Answers(q: Queue, op: Op, reply: Reply) {
    match op
    case Store(_, _) => reply.Done?
    case Retrieve(_) =>
      if q == [] then reply == Failed(NotEnrolled)
      else q[0].Text? && q[0].text != "" ==> reply == Released(q[0].text)
    case Delete(_) => if q == [] then reply == Failed(NotEnrolled) else reply.Done?
    case List => reply.Listed?
  }

  /** The abstract vault: one passphrase per key. */
  type Vault = map<string, Secret>

  /** What an operation may do to the abstract vault, and what it may answer. */
  ghost predicate Allowed(m: Vault, op: Op, reply: Reply, m': Vault) {
    match op
    case Store(fp, pp) =>
      || (reply.Done? && m' == m[fp := Text(pp)])
      || (reply.Failed? && !reply.error.NotEnrolled? && (m' == m || m' == m - {fp}))
    case Retrieve(fp) =>
      && m' == m
      && (|| (reply.Released? && fp in m && m[fp] == Text(reply.passphrase))
          || (reply.Failed? && (reply.error.NotEnrolled? ==> fp !in m)))
    case Delete(fp) =>
      || (reply.Done? && fp in m && m' == m - {fp})
      || (reply.Failed? && m' == m && (reply.error.NotEnrolled? ==> fp !in m))
    case List =>
      && m' == m
      && (|| (reply.Listed? && |reply.fingerprints| == |m| && forall fp :: fp in reply.fingerprints <==> fp in m)
          || (reply.Failed? && !reply.error.NotEnrolled?))
  }
}
