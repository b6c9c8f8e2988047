/** Runs of vault operations on any backend: where released passphrases come from, what a delete
    achieves, and exactly which runs are runs of a map with one passphrase per key. */
module KeystoreRuns {
  import opened Wrappers
  import opened Records
  import opened Biometric
  import opened Keystores
  import opened Queues
  import L = LinuxVault
  import M = MacosVault
  import W = WindowsVault

  type Script = seq<(Op, Platform)>

  /** The keystore after a sequence of operations. */
  function After(ks: Keystore, script: Script): Keystore {
    if script == [] then ks
    else
      var n := |script| - 1;
      Step(After(ks, script[..n]), script[n].0, script[n].1).0
  }

  /** What operation k of a run answers. */
  function ReplyAt(ks: Keystore, script: Script, k: nat): Reply
    requires k < |script|
  {
    Step(After(ks, script[..k]), script[k].0, script[k].1).1
  }

  predicate HonestRun(script: Script) {
    forall k :: 0 <= k < |script| ==> Honest(script[k].1)
  }

  lemma NothingRun(ks: Keystore, script: Script)
    ensures After(ks, script[..0]) == ks && script[..|script|] == script
  {
  }

  lemma OneMore(ks: Keystore, script: Script, k: nat)
    requires k < |script|
    ensures Step(After(ks, script[..k]), script[k].0, script[k].1) ==
            (After(ks, script[..k + 1]), ReplyAt(ks, script, k))
  {
    assert script[..k + 1][..k] == script[..k];
  }

  /** Every run on any backend, whatever the operating system does, is a run of the abstract
      machine and leaves other applications' entries alone. */
  lemma {:induction false} RunSimulates(ks: Keystore, script: Script, k: nat)
    requires Consistent(ks) && HonestRun(script) && k <= |script|
    ensures var now := After(ks, script[..k]);
            && Consistent(now) && SameForeign(ks, now)
            && (k < |script| ==>
                  Simulates(now, script[k].0, script[k].1, ReplyAt(ks, script, k), After(ks, script[..k + 1])))
  {
    hide Step, Consistent, Simulates, SameForeign, After;
    if k == 0 {
      NothingRun(ks, script);
      SameForeignReflexive(ks);
    } else {
      RunSimulates(ks, script, k - 1);
      StepSimulates(After(ks, script[..k - 1]), script[k - 1].0, script[k - 1].1);
      OneMore(ks, script, k - 1);
      SameForeignTransitive(ks, After(ks, script[..k - 1]), After(ks, script[..k]));
    }
    if k < |script| {
      StepSimulates(After(ks, script[..k]), script[k].0, script[k].1);
      OneMore(ks, script, k);
    }
  }

  // --------------------------------------------------------- where secrets come from

  /** What operation k successfully stored for a key, if it did. */
  function StoredAt(ks: Keystore, script: Script, k: nat, fp: string): Option<Secret>
    requires k < |script|
  {
    var op := script[k].0;
    if op.Store? && op.fingerprint == fp && ReplyAt(ks, script, k).Done? then Some(Text(op.passphrase)) else None
  }

  /** The queue of one key along a run, and the successful stores that join it. */
  function LifeOf(ks: Keystore, script: Script, fp: string): Life<Secret> {
    Life((k: nat) => if k <= |script| then HeldFor(After(ks, script[..k]), fp) else [],
         (k: nat) => if k < |script| then StoredAt(ks, script, k, fp) else None)
  }

  /** The successful stores of a key from operation i to the end. */
  function StoresFrom(ks: Keystore, script: Script, fp: string, i: nat): nat
    requires i <= |script|
  {
    Puts(LifeOf(ks, script, fp), i, |script|)
  }

  lemma SimulatesMoves(ks: Keystore, op: Op, f: Platform, r: Reply, ks': Keystore, fp: string)
    requires Simulates(ks, op, f, r, ks')
    ensures Moves(HeldFor(ks, fp),
                  if op.Store? && op.fingerprint == fp && r.Done? then Some(Text(op.passphrase)) else None,
                  HeldFor(ks', fp))
  {
    hide HeldFor, Answers, AllWorks, Enumerates;
  }

  lemma LifeMoves(ks: Keystore, script: Script, fp: string)
    requires Consistent(ks) && HonestRun(script)
    ensures Moving(LifeOf(ks, script, fp), |script|)
  {
    hide Consistent, HeldFor, After, HonestRun, Simulates, Moves, ReplyAt;
    var l := LifeOf(ks, script, fp);
    forall k: nat | k < |script| ensures Moves(l.contents(k), l.puts(k), l.contents(k + 1)) {
      RunSimulates(ks, script, k);
      SimulatesMoves(After(ks, script[..k]), script[k].0, script[k].1, ReplyAt(ks, script, k),
                     After(ks, script[..k + 1]), fp);
    }
  }

  /** After any run, the entry at distance d from the back of a key's queue was put there by the
      successful store of that key that exactly d others followed; or there were no more than d,
      and it was held before the run. */
  lemma EntryProvenance(ks: Keystore, script: Script, fp: string, d: nat) returns (j: nat)
    requires Consistent(ks) && HonestRun(script)
    requires d < |HeldFor(After(ks, script), fp)|
    ensures var x, before, stores :=
              Back(HeldFor(After(ks, script), fp), d), HeldFor(ks, fp), StoresFrom(ks, script, fp, 0);
            if d < stores then
              j < |script| && StoredAt(ks, script, j, fp) == Some(x) && StoresFrom(ks, script, fp, j + 1) == d
            else d - stores < |before| && Back(before, d - stores) == x
  {
    hide Step, Consistent, HeldFor, After, HonestRun;
    LifeMoves(ks, script, fp);
    NothingRun(ks, script);
    j := Origin(LifeOf(ks, script, fp), |script|, d);
  }

  /** A released passphrase was stored by an operation that as many successful stores of its key
      followed as the key has further entries, so it is the one last stored exactly when the key
      is held once; or there were not that many, and it was held before the run. */
  lemma ReleaseProvenance(ks: Keystore, script: Script, fp: string, f: Platform, pp: string) returns (j: nat)
    requires Consistent(ks) && HonestRun(script) && Honest(f)
    requires Step(After(ks, script), Retrieve(fp), f).1 == Released(pp)
    ensures var held, before, stores :=
              |HeldFor(After(ks, script), fp)|, HeldFor(ks, fp), StoresFrom(ks, script, fp, 0);
            if held <= stores then
              && j < |script| && StoredAt(ks, script, j, fp) == Some(Text(pp))
              && StoresFrom(ks, script, fp, j + 1) == held - 1
              && (StoresFrom(ks, script, fp, j + 1) == 0 <==> held == 1)
            else held - 1 - stores < |before| && Back(before, held - 1 - stores) == Text(pp)
  {
    hide Step, Consistent, HeldFor, After, HonestRun;
    RunSimulates(ks, script, |script|);
    NothingRun(ks, script);
    StepSimulates(After(ks, script), Retrieve(fp), f);
    j := EntryProvenance(ks, script, fp, |HeldFor(After(ks, script), fp)| - 1);
  }

  /** When every call works and the user passes the check, what is released is the front entry,
      unless it is not text, or empty in a locker. */
  lemma WorkingRetrieve(ks: Keystore, fp: string, f: Platform)
    requires Consistent(ks) && AllWorks(f)
    ensures var q, r := HeldFor(ks, fp), Step(ks, Retrieve(fp), f).1;
            && (r.Released? <==> q != [] && q[0].Text? && (ks.Locker? ==> q[0].text != ""))
            && (r.Released? ==> q[0] == Text(r.passphrase))
  {
    hide Held, L.RetrieveStep, M.RetrieveStep, W.RetrieveStep, L.Valid;
    Prefixed(fp);
    match ks {
      case Keyring(items) => L.RetrieveMeaning(items, KeyIdFromFingerprint(fp), f);
      case Keychain(entries) => M.RetrieveMeaning(entries, KeyIdFromFingerprint(fp), f);
      case Locker(credentials) =>
        W.RetrieveMeaning(credentials, KeyIdFromFingerprint(fp), f);
        LockerHoldsText(credentials, fp);
    }
  }

  lemma {:induction false} LockerHoldsText(credentials: seq<W.Credential>, fp: string)
    ensures forall k :: 0 <= k < |Held(W.SlotOf, credentials, fp)| ==> Held(W.SlotOf, credentials, fp)[k].Text?
  {
    if credentials != [] {
      LockerHoldsText(credentials[1..], fp);
    }
  }

  /** Only a locker can hold a key more than once. */
  lemma OnlyLockersRepeat(ks: Keystore, fp: string)
    requires Consistent(ks) && |HeldFor(ks, fp)| > 1
    ensures ks.Locker?
  {
    hide Held;
  }

  /** Storing works, to the user's eye, if and only if what the store left in front of the new
      passphrase is nothing, or the same text: after a store that reports success, a retrieve that
      works releases what was stored exactly then, and a locker releases no empty passphrase. Where
      each key has one entry, nothing is left if and only if the store cleared, or the key was not
      held. */
  lemma StoreReleasedIff(ks: Keystore, fp: string, pp: string, f: Platform, g: Platform)
    requires Consistent(ks) && Honest(f) && Honest(g) && AllWorks(g)
    requires Step(ks, Store(fp, pp), f).1.Done?
    ensures var ks', q := Step(ks, Store(fp, pp), f).0, HeldFor(ks, fp);
            var left := if Clears(ks, f) then Rest(q) else q;
            && (Step(ks', Retrieve(fp), g).1 == Released(pp) <==>
                  (left == [] || left[0] == Text(pp)) && (ks.Locker? ==> pp != ""))
            && (|q| <= 1 ==> (left == [] <==> Clears(ks, f) || q == []))
  {
    hide Step, HeldFor, Consistent;
    StepSimulates(ks, Store(fp, pp), f);
    WorkingRetrieve(Step(ks, Store(fp, pp), f).0, fp, g);
  }

  // ----------------------------------------------------------- what a delete achieves

  /** After a delete that works, a retrieve that works finds nothing if and only if the key was
      listed once. */
  lemma DeleteForgetsIff(ks: Keystore, fp: string, f: Platform, g: Platform)
    requires Consistent(ks) && Honest(f) && Honest(g) && AllWorks(f) && AllWorks(g)
    requires fp in OwnersOf(ks)
    ensures var (ks', r) := Step(ks, Delete(fp), f);
            r.Done? && (Step(ks', Retrieve(fp), g).1 == Failed(NotEnrolled) <==> multiset(OwnersOf(ks))[fp] == 1)
  {
    hide Step, Consistent, HeldFor, OwnersOf;
    OwnersEnumerate(ks);
    assert multiset(OwnersOf(ks))[fp] > 0;
    StepSimulates(ks, Delete(fp), f);
    StepSimulates(Step(ks, Delete(fp), f).0, Retrieve(fp), g);
  }

  lemma OwnersEnumerate(ks: Keystore)
    ensures Enumerates(ks, OwnersOf(ks))
  {
    hide Held, Owners;
    forall fp ensures multiset(OwnersOf(ks))[fp] == |HeldFor(ks, fp)| {
      match ks {
        case Keyring(items) => ListedPerEntry(L.SlotOf, items, fp);
        case Keychain(entries) => ListedPerEntry(M.SlotOf, entries, fp);
        case Locker(credentials) => ListedPerEntry(W.SlotOf, credentials, fp);
      }
    }
  }

  /** Operation k neither stores nor deletes anything for a key. */
  predicate LeavesAlone(op: Op, fp: string) {
    !(op.Store? && op.fingerprint == fp) && op != Delete(fp)
  }

  /** After a successful delete, and until the next successful store, retrieving fails, and finds
      the key not enrolled when everything works, if the key was held once when it was deleted;
      and only then, unless something else has taken entries of the key since. */
  lemma DeletedStaysDeleted(ks: Keystore, script: Script, j: nat, fp: string, f: Platform)
    requires Consistent(ks) && HonestRun(script) && Honest(f)
    requires j < |script| && script[j].0 == Delete(fp) && ReplyAt(ks, script, j).Done?
    requires StoresFrom(ks, script, fp, j + 1) == 0
    ensures var r, held := Step(After(ks, script), Retrieve(fp), f).1, |HeldFor(After(ks, script[..j]), fp)|;
            && (held == 1 ==> r.Failed?)
            && (held == 1 && AllWorks(f) ==> r == Failed(NotEnrolled))
            && (AllWorks(f) && (forall i :: j < i < |script| ==> LeavesAlone(script[i].0, fp)) ==>
                  (r == Failed(NotEnrolled) <==> held == 1))
  {
    hide Step, Consistent, HeldFor, After, HonestRun;
    QueueAfterDelete(ks, script, j, fp);
    RunSimulates(ks, script, |script|);
    NothingRun(ks, script);
    StepSimulates(After(ks, script), Retrieve(fp), f);
  }

  lemma QueueAfterDelete(ks: Keystore, script: Script, j: nat, fp: string)
    requires Consistent(ks) && HonestRun(script)
    requires j < |script| && script[j].0 == Delete(fp) && ReplyAt(ks, script, j).Done?
    requires StoresFrom(ks, script, fp, j + 1) == 0
    ensures |HeldFor(After(ks, script), fp)| < |HeldFor(After(ks, script[..j]), fp)|
    ensures (forall i :: j < i < |script| ==> LeavesAlone(script[i].0, fp)) ==>
              |HeldFor(After(ks, script), fp)| == |HeldFor(After(ks, script[..j]), fp)| - 1
  {
    hide Step, Consistent, HeldFor, After, HonestRun, Moves;
    var l := LifeOf(ks, script, fp);
    LifeMoves(ks, script, fp);
    RunSimulates(ks, script, j);
    NothingRun(ks, script);
    NonePut(l, j + 1, |script|);
    assert l.contents(|script|) == HeldFor(After(ks, script), fp);
    assert l.contents(j + 1) == HeldFor(After(ks, script[..j + 1]), fp);
    if forall i :: j < i < |script| ==> LeavesAlone(script[i].0, fp) {
      Undisturbed(ks, script, fp, j + 1, |script|);
    }
  }

  lemma {:induction false} Undisturbed(ks: Keystore, script: Script, fp: string, i: nat, k: nat)
    requires Consistent(ks) && HonestRun(script) && i <= k <= |script|
    requires forall m :: i <= m < k ==> LeavesAlone(script[m].0, fp)
    ensures HeldFor(After(ks, script[..k]), fp) == HeldFor(After(ks, script[..i]), fp)
  {
    hide Step, Consistent, HeldFor, After, HonestRun;
    if i < k {
      Undisturbed(ks, script, fp, i, k - 1);
      RunSimulates(ks, script, k - 1);
    }
  }

  /** A locker whose credential cannot be cleared: a store reports success and the old passphrase
      is still the one released; and a successful delete then uncovers the new one. */
  lemma UnclearedLockerMisleads()
    ensures var full := Locker([W.Credential(W.RESOURCE, "SHA256:k", "before")]);
            var works := Platform(true, true, true, true, true, true, Passed, 0);
            var (twice, stored) := Step(full, Store("SHA256:k", "now"), works.(clear := false));
            var (once, deleted) := Step(twice, Delete("SHA256:k"), works);
            && stored.Done? && Step(twice, Retrieve("SHA256:k"), works).1 == Released("before")
            && deleted.Done? && Step(once, Retrieve("SHA256:k"), works).1 == Released("now")
  {
    hide HeldFor;
    var full := Locker([W.Credential(W.RESOURCE, "SHA256:k", "before")]);
    var works := Platform(true, true, true, true, true, true, Passed, 0);
    var twice := Step(full, Store("SHA256:k", "now"), works.(clear := false)).0;
    var once := Step(twice, Delete("SHA256:k"), works).0;
    LockerHolds("SHA256:k", "before");
    assert |"before"| == 6 && |"now"| == 3;
    hide Step;
    StepSimulates(full, Store("SHA256:k", "now"), works.(clear := false));
    StepSimulates(twice, Retrieve("SHA256:k"), works);
    StepSimulates(twice, Delete("SHA256:k"), works);
    StepSimulates(once, Retrieve("SHA256:k"), works);
  }

  lemma LockerHolds(fp: string, pp: string)
    ensures HeldFor(Locker([W.Credential(W.RESOURCE, fp, pp)]), fp) == [Text(pp)]
  {
    var c := W.Credential(W.RESOURCE, fp, pp);
    assert [c][1..] == [] && Held(W.SlotOf, [], fp) == [];
  }

  // --------------------------------------------------------- one passphrase per key

  /** No key has more than one entry. */
  ghost predicate Single(ks: Keystore) {
    forall fp: string :: |HeldFor(ks, fp)| <= 1
  }

  /** The map from keys to the secret a lookup finds. */
  function ViewOf(ks: Keystore): Vault {
    map fp | fp in OwnersOf(ks) && HeldFor(ks, fp) != [] :: HeldFor(ks, fp)[0]
  }

  lemma ViewIsFront(ks: Keystore)
    ensures forall fp: string :: fp in ViewOf(ks) <==> HeldFor(ks, fp) != []
    ensures forall fp: string :: fp in ViewOf(ks) ==> ViewOf(ks)[fp] == HeldFor(ks, fp)[0]
  {
    hide HeldFor, OwnersOf;
    OwnersEnumerate(ks);
    forall fp | HeldFor(ks, fp) != [] ensures fp in OwnersOf(ks) {
      assert multiset(OwnersOf(ks))[fp] > 0;
    }
  }

  lemma {:induction false} NamesAsSet(names: seq<string>)
    ensures |set n | n in names| <= |names|
    ensures (forall n: string :: multiset(names)[n] <= 1) ==> |set n | n in names| == |names|
  {
    if names != [] {
      var n, rest := names[0], names[1..];
      assert names == [n] + rest;
      NamesAsSet(rest);
      assert (set m | m in names) == {n} + (set m | m in rest);
      if forall m: string :: multiset(names)[m] <= 1 {
        assert multiset(names)[n] == 1 + multiset(rest)[n];
        forall m: string ensures multiset(rest)[m] <= 1 {
          assert multiset(names)[m] >= multiset(rest)[m];
        }
      }
    }
  }

  /** The map is no larger than the bag, and as large where each key has one entry. */
  lemma ViewSize(ks: Keystore, names: seq<string>)
    requires Enumerates(ks, names)
    ensures |ViewOf(ks)| <= |names|
    ensures Single(ks) ==> |ViewOf(ks)| == |names|
  {
    hide HeldFor, OwnersOf;
    ViewIsFront(ks);
    NamesAsSet(names);
    forall fp: string ensures fp in ViewOf(ks).Keys <==> fp in names {
      assert multiset(names)[fp] == |HeldFor(ks, fp)|;
    }
    assert ViewOf(ks).Keys == set n | n in names;
    forall fp: string | Single(ks) ensures multiset(names)[fp] <= 1 {
      assert multiset(names)[fp] == |HeldFor(ks, fp)|;
    }
  }

  /** A store is reliable unless it adds to a locker holding a credential of the key that is not
      cleared. */
  predicate Reliable(ks: Keystore, op: Op, f: Platform) {
    ks.Locker? && op.Store? && f.open && f.write && HeldFor(ks, op.fingerprint) != [] ==> f.search && f.clear
  }

  /** Where each key has one entry, an operation leaves it so if and only if it is reliable, and
      then it is a step of the map. */
  lemma MapStepIff(ks: Keystore, op: Op, f: Platform)
    requires Consistent(ks) && Honest(f) && Single(ks)
    ensures var (ks', r) := Step(ks, op, f);
            && (Reliable(ks, op, f) <==> Single(ks'))
            && (Reliable(ks, op, f) ==> Allowed(ViewOf(ks), op, r, ViewOf(ks')))
  {
    hide Step, HeldFor, Consistent, ViewOf, Allowed;
    var (ks', r) := Step(ks, op, f);
    StepSimulates(ks, op, f);
    if ks.Locker? && op.Store? {
      StoreWorksIff(ks, op, f);
    }
    if Single(ks') {
      MapStep(ks, op, f, r, ks');
    }
  }

  lemma StoreWorksIff(ks: Keystore, op: Op, f: Platform)
    requires ks.Locker? && op.Store?
    ensures Step(ks, op, f).1.Done? <==> f.open && f.write
  {
  }

  lemma MapStep(ks: Keystore, op: Op, f: Platform, r: Reply, ks': Keystore)
    requires Single(ks) && Single(ks') && Simulates(ks, op, f, r, ks')
    ensures Allowed(ViewOf(ks), op, r, ViewOf(ks'))
  {
    hide HeldFor, ViewOf;
    if op.List? {
      if r.Listed? {
        ViewIsFront(ks);
        ViewSize(ks, r.fingerprints);
        forall fp: string ensures fp in r.fingerprints <==> fp in ViewOf(ks) {
          assert multiset(r.fingerprints)[fp] == |HeldFor(ks, fp)|;
        }
      }
    } else {
      MapMoves(ks, ks', op.fingerprint);
    }
  }

  lemma MapMoves(ks: Keystore, ks': Keystore, fp: string)
    requires Single(ks) && Single(ks')
    requires forall n: string :: n != fp ==> HeldFor(ks', n) == HeldFor(ks, n)
    ensures var m, m', q, q' := ViewOf(ks), ViewOf(ks'), HeldFor(ks, fp), HeldFor(ks', fp);
            && (fp in m <==> q != []) && (fp in m ==> m[fp] == q[0])
            && (q' == q ==> m' == m)
            && (q' == [] ==> m' == m - {fp})
            && (q' != [] ==> m' == m[fp := q'[0]])
  {
    hide HeldFor, ViewOf;
    ViewIsFront(ks);
    ViewIsFront(ks');
  }

  ghost predicate ReliableRun(ks: Keystore, script: Script) {
    forall k :: 0 <= k < |script| ==> Reliable(After(ks, script[..k]), script[k].0, script[k].1)
  }

  /** A run that starts with one entry per key keeps it so throughout if and only if all its
      stores are reliable, and is then a run of the map. */
  lemma MapRunIff(ks: Keystore, script: Script)
    requires Consistent(ks) && HonestRun(script) && Single(ks)
    ensures ReliableRun(ks, script) <==> forall k :: 0 <= k <= |script| ==> Single(After(ks, script[..k]))
    ensures ReliableRun(ks, script) ==>
              forall k :: 0 <= k < |script| ==>
                Allowed(ViewOf(After(ks, script[..k])), script[k].0, ReplyAt(ks, script, k),
                        ViewOf(After(ks, script[..k + 1])))
  {
    hide Step, HeldFor, Consistent, ViewOf, Allowed, After, Single, Reliable;
    forall k | 0 <= k < |script| && Single(After(ks, script[..k]))
      ensures Reliable(After(ks, script[..k]), script[k].0, script[k].1) <==> Single(After(ks, script[..k + 1]))
      ensures Reliable(After(ks, script[..k]), script[k].0, script[k].1) ==>
                Allowed(ViewOf(After(ks, script[..k])), script[k].0, ReplyAt(ks, script, k),
                        ViewOf(After(ks, script[..k + 1])))
    {
      RunSimulates(ks, script, k);
      OneMore(ks, script, k);
      MapStepIff(After(ks, script[..k]), script[k].0, script[k].1);
    }
    if ReliableRun(ks, script) {
      forall k: nat | k <= |script| ensures Single(After(ks, script[..k])) {
        StaysSingle(ks, script, k);
      }
    }
    if forall k :: 0 <= k <= |script| ==> Single(After(ks, script[..k])) {
      forall k | 0 <= k < |script| ensures Reliable(After(ks, script[..k]), script[k].0, script[k].1) {
        assert Single(After(ks, script[..k])) && Single(After(ks, script[..k + 1]));
      }
    }
  }

  lemma {:induction false} StaysSingle(ks: Keystore, script: Script, k: nat)
    requires Consistent(ks) && HonestRun(script) && Single(ks) && ReliableRun(ks, script) && k <= |script|
    ensures Single(After(ks, script[..k]))
  {
    hide Step, HeldFor, Consistent, ViewOf, Allowed, After, Single, Reliable;
    if k == 0 {
      NothingRun(ks, script);
    } else {
      StaysSingle(ks, script, k - 1);
      RunSimulates(ks, script, k - 1);
      OneMore(ks, script, k - 1);
      MapStepIff(After(ks, script[..k - 1]), script[k - 1].0, script[k - 1].1);
    }
  }
}
