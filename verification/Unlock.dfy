/** Biometric unlock of a key: ask the vault, verify what it releases, forget what
    no longer fits. */
module Unlock {
  import opened Wrappers
  import opened Records
  import opened Biometric
  import opened Keystores
  import opened KeystoreRuns
  import opened Keys

  datatype UnlockMode = Auto | Enroll | Disabled

  datatype AutoUnlock = Passphrase(passphrase: string) | Stale | Fallback

  /** `auto_unlock_passphrase`: every failure to release is a silent fallback, a released
      passphrase that does not decrypt is forgotten. */
  function AutoUnlockStep(ks: Keystore, key: KeyFile, f: Platform, g: Platform): (Keystore, AutoUnlock) {
    var reply := Step(ks, Retrieve(key.fingerprint), f).1;
    if !reply.Released? then (ks, Fallback)
    else if Decrypts(key, reply.passphrase) then (ks, Passphrase(reply.passphrase))
    else (Step(ks, Delete(key.fingerprint), g).0, Stale)
  }

  /** What auto-unlock says of what the vault said: a passphrase exactly when one was released that
      decrypts the key, and then that one; stale exactly when one was released that does not; and
      fallback exactly when none was released. */
  predicate Answered(r: AutoUnlock, key: KeyFile, reply: Reply) {
    && (r.Passphrase? <==> reply.Released? && key.passphrase == Some(reply.passphrase))
    && (r.Passphrase? ==> r.passphrase == reply.passphrase)
    && (r.Stale? <==> reply.Released? && key.passphrase != Some(reply.passphrase))
    && (r.Fallback? <==> !reply.Released?)
  }

  lemma AutoUnlockAnswers(ks: Keystore, key: KeyFile, f: Platform, g: Platform)
    ensures var (ks', r) := AutoUnlockStep(ks, key, f, g);
            && Answered(r, key, Step(ks, Retrieve(key.fingerprint), f).1)
            && ks' == if r.Stale? then Step(ks, Delete(key.fingerprint), g).0 else ks
  {
    hide Step;
  }

  /** When every call works and the user passes the check, a key is unlocked exactly when the front
      entry is its passphrase, found stale exactly when that entry is another text, and left to
      typing otherwise. A locker releases no empty passphrase. */
  lemma WorkingUnlockIff(ks: Keystore, key: KeyFile, f: Platform, g: Platform)
    requires Consistent(ks) && AllWorks(f)
    ensures var r, q := AutoUnlockStep(ks, key, f, g).1, HeldFor(ks, key.fingerprint);
            var released := q != [] && q[0].Text? && (ks.Locker? ==> q[0].text != "");
            && (r.Passphrase? <==> released && key.passphrase == Some(q[0].text))
            && (r.Passphrase? ==> r.passphrase == q[0].text)
            && (r.Stale? <==> released && key.passphrase != Some(q[0].text))
            && (r.Fallback? <==> !released)
  {
    hide Step, HeldFor, Consistent;
    AutoUnlockAnswers(ks, key, f, g);
    WorkingRetrieve(ks, key.fingerprint, f);
  }

  lemma RetrieveChangesNothing(ks: Keystore, fp: string, f: Platform)
    ensures Step(ks, Retrieve(fp), f).0 == ks
  {
  }

  method AutoUnlockPassphrase(vault: VaultHandle, key: KeyFile, f: Platform, g: Platform) returns (r: AutoUnlock)
    modifies vault.Objects()
    ensures (vault.Contents(), r) == AutoUnlockStep(old(vault.Contents()), key, f, g)
    ensures Answered(r, key, Step(old(vault.Contents()), Retrieve(key.fingerprint), f).1)
    ensures vault.Contents() ==
            if r.Stale? then Step(old(vault.Contents()), Delete(key.fingerprint), g).0 else old(vault.Contents())
  {
    hide Step;
    RetrieveChangesNothing(vault.Contents(), key.fingerprint, f);
    var reply := vault.Perform(Retrieve(key.fingerprint), f);
    if !reply.Released? {
      return Fallback;
    }
    if Decrypts(key, reply.passphrase) {
      return Passphrase(reply.passphrase);
    }
    var _ := vault.Perform(Delete(key.fingerprint), g);
    r := Stale;
  }

  /** What auto-unlock does to any vault: nothing, or taking the front entry of the key, which
      does not decrypt it. */
  lemma AutoUnlockEffect(ks: Keystore, key: KeyFile, f: Platform, g: Platform)
    requires Consistent(ks) && Honest(f) && Honest(g)
    ensures var (ks', r) := AutoUnlockStep(ks, key, f, g);
            var q, q' := HeldFor(ks, key.fingerprint), HeldFor(ks', key.fingerprint);
            && Consistent(ks') && SameForeign(ks, ks')
            && (forall fp: string :: fp != key.fingerprint ==> HeldFor(ks', fp) == HeldFor(ks, fp))
            && (r.Passphrase? ==> Decrypts(key, r.passphrase) && q != [] && q[0] == Text(r.passphrase))
            && (r.Stale? ==>
                  && q != [] && q[0].Text? && !Decrypts(key, q[0].text)
                  && q' == if Step(ks, Delete(key.fingerprint), g).1.Done? then q[1..] else q)
            && (!r.Stale? ==> ks' == ks)
  {
    hide Step, Consistent, HeldFor, SameForeign;
    StepSimulates(ks, Retrieve(key.fingerprint), f);
    StepSimulates(ks, Delete(key.fingerprint), g);
    SameForeignReflexive(ks);
  }
}
