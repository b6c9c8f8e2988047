/** `gitway biometric enroll` and `gitway biometric forget`. */
module BiometricCmd {
  import opened Wrappers
  import opened Records
  import opened Biometric
  import opened Keystores
  import opened KeystoreRuns
  import opened Keys
  import L = LinuxVault
  import M = MacosVault
  import W = WindowsVault
  import H = History

  const EXIT_OK: nat := 0
  const EXIT_GENERAL: nat := 1
  const EXIT_USAGE: nat := 2
  const EXIT_NOT_FOUND: nat := 3
  const EXIT_USER_DECLINED: nat := 73
  const EXIT_NEEDS_INTERACTIVE: nat := 78

  function ExitFor(e: VaultError): nat {
    match e
    case NotEnrolled => EXIT_NOT_FOUND
    case Cancelled => EXIT_USER_DECLINED
    case Unavailable => EXIT_NEEDS_INTERACTIVE
    case Backend => EXIT_GENERAL
  }

  datatype Outcome = Outcome(target: string, exitCode: nat)

  /** What is to be forgotten: how it is reported, and its fingerprint unless the file could not
      be read. */
  datatype Target = Target(display: string, fingerprint: Option<string>)

  // ---------------------------------------------------------------- enroll

  /** What enrolling one file meets: its key if it parses, the typed passphrase if the prompt
      works, and the platform. */
  datatype EnrollInput = EnrollInput(path: string, key: Option<KeyFile>, typed: Option<string>, f: Platform)

  /** A failed prompt aborts the command; everything else is an outcome and the batch goes on. */
  function EnrollOne(ks: Keystore, x: EnrollInput): (Keystore, Result<Outcome, ()>) {
    if x.key.None? || !Encrypted(x.key.value) then (ks, Ok(Outcome(x.path, EXIT_USAGE)))
    else if x.typed.None? then (ks, Err(()))
    else if !Decrypts(x.key.value, x.typed.value) then (ks, Ok(Outcome(x.path, EXIT_USAGE)))
    else
      var (ks', r) := Step(ks, Store(x.key.value.fingerprint, x.typed.value), x.f);
      (ks', Ok(Outcome(x.path, if r.Failed? then ExitFor(r.error) else EXIT_OK)))
  }

  /** What enrolling does to the vault is what the history of the vault records for it: an outcome
      of success is a noted store of the typed passphrase, and nothing else is noted. */
  lemma EnrollIsHistoryEvent(disk: map<string, KeyFile>, ks: Keystore, x: EnrollInput)
    requires x.key.Some? && x.path in disk && disk[x.path] == x.key.value
    ensures var (s', n) := H.Advance(H.System(disk, ks), H.EnrollCommand(x.path, x.typed, x.f));
            var (ks', r) := EnrollOne(ks, x);
            && s' == H.System(disk, ks')
            && (r == Ok(Outcome(x.path, EXIT_OK)) <==> n.Stored?)
            && (n.Stored? ==> x.typed.Some? && n == H.Stored(x.key.value.fingerprint, x.typed.value))
            && (n.Stored? || n.Quiet?)
  {
    if x.typed.Some? {
      StoreReplies(ks, x);
    }
    hide Step;
  }

  /** A store says it is done, or fails. */
  lemma StoreReplies(ks: Keystore, x: EnrollInput)
    requires x.key.Some? && x.typed.Some?
    ensures var r := Step(ks, Store(x.key.value.fingerprint, x.typed.value), x.f).1; r.Done? || r.Failed?
  {
  }

  /** The exit codes the command documents. */
  lemma ExitCodes()
    ensures ExitFor(NotEnrolled) == 3 && ExitFor(Cancelled) == 73
    ensures ExitFor(Unavailable) == 78 && ExitFor(Backend) == 1
    ensures EXIT_OK == 0 && EXIT_USAGE == 2
  {
  }

  /** The file is an encrypted key. */
  predicate Enrollable(x: EnrollInput) {
    x.key.Some? && x.key.value.passphrase.Some?
  }

  /** What was typed is the key's passphrase. */
  predicate RightlyTyped(x: EnrollInput) {
    Enrollable(x) && x.typed.Some? && x.typed == x.key.value.passphrase
  }

  /** What enrolling one file comes to: the passphrase is stored if and only if it is the key's, and
      the outcome is the store's; otherwise it is a usage error, or the command ends because the
      prompt failed. */
  lemma EnrollOutcome(ks: Keystore, x: EnrollInput)
    ensures var (ks', r) := EnrollOne(ks, x);
            && (r.Err? <==> Enrollable(x) && x.typed.None?)
            && (r.Ok? ==> r.value.target == x.path)
            && (r.Ok? && !RightlyTyped(x) ==> r.value.exitCode == 2 && ks' == ks)
            && (RightlyTyped(x) ==>
                  var (after, reply) := Step(ks, Store(x.key.value.fingerprint, x.typed.value), x.f);
                  && ks' == after && r.Ok?
                  && r.value.exitCode == if reply.Failed? then ExitFor(reply.error) else 0)
            && (r.Err? ==> ks' == ks)
  {
    hide Step;
  }

  datatype Enrolling = Enrolling(ks: Keystore, results: seq<Outcome>, exit: nat, aborted: bool)

  function EnrollFirst(ks: Keystore, xs: seq<EnrollInput>, k: nat): Enrolling
    requires k <= |xs|
  {
    if k == 0 then Enrolling(ks, [], EXIT_OK, false)
    else
      var before := EnrollFirst(ks, xs, k - 1);
      if before.aborted then before
      else
        var (ks', o) := EnrollOne(before.ks, xs[k - 1]);
        if o.Err? then Enrolling(ks', before.results, before.exit, true)
        else Enrolling(ks', before.results + [o.value],
                       if o.value.exitCode == EXIT_OK then before.exit else o.value.exitCode, false)
  }

  lemma {:induction false} AbortIsFinal(ks: Keystore, xs: seq<EnrollInput>, j: nat, k: nat)
    requires j <= k <= |xs| && EnrollFirst(ks, xs, j).aborted
    ensures EnrollFirst(ks, xs, k) == EnrollFirst(ks, xs, j)
  {
    if j < k {
      AbortIsFinal(ks, xs, j, k - 1);
    }
  }

  /** The exit code is that of the last outcome that failed, or 0 when none did. */
  ghost predicate ExitOfLastFailure(results: seq<Outcome>, exit: nat) {
    || (exit == 0 && forall i :: 0 <= i < |results| ==> results[i].exitCode == 0)
    || (exit != 0 && exists i ::
          0 <= i < |results| && results[i].exitCode == exit &&
          forall j :: i < j < |results| ==> results[j].exitCode == 0)
  }

  lemma ExitSnoc(results: seq<Outcome>, exit: nat, o: Outcome)
    requires ExitOfLastFailure(results, exit)
    ensures ExitOfLastFailure(results + [o], if o.exitCode == 0 then exit else o.exitCode)
  {
    var all := results + [o];
    assert all[|results|] == o;
    if o.exitCode == 0 && exit != 0 {
      var i :| 0 <= i < |results| && results[i].exitCode == exit &&
               forall j :: i < j < |results| ==> results[j].exitCode == 0;
      assert all[i] == results[i];
    }
  }

  /** One more file adds its outcome, or ends the batch. */
  lemma OneMoreFile(ks: Keystore, xs: seq<EnrollInput>, k: nat)
    requires k < |xs|
    ensures var b, next, r := EnrollFirst(ks, xs, k), EnrollFirst(ks, xs, k + 1),
                              EnrollOne(EnrollFirst(ks, xs, k).ks, xs[k]).1;
            && (next.aborted <==> b.aborted || (Enrollable(xs[k]) && xs[k].typed.None?))
            && (next.aborted ==> next.results == b.results && next.exit == b.exit)
            && (!next.aborted ==>
                  && r.Ok? && next.results == b.results + [r.value]
                  && next.exit == (if r.value.exitCode == 0 then b.exit else r.value.exitCode)
                  && r.value.target == xs[k].path && (!RightlyTyped(xs[k]) ==> r.value.exitCode == 2))
  {
    hide EnrollOne;
    EnrollOutcome(EnrollFirst(ks, xs, k).ks, xs[k]);
  }

  /** Enrolling is cut short exactly when some encrypted key's passphrase cannot be typed. */
  lemma {:induction false} AbortIff(ks: Keystore, xs: seq<EnrollInput>, k: nat)
    requires k <= |xs|
    ensures EnrollFirst(ks, xs, k).aborted <==> exists i :: 0 <= i < k && Enrollable(xs[i]) && xs[i].typed.None?
  {
    if k > 0 {
      AbortIff(ks, xs, k - 1);
      OneMoreFile(ks, xs, k - 1);
      hide *;
    }
  }

  /** Enrolling a batch reports every file in order, unless a prompt fails, which ends it. */
  lemma {:induction false} EnrollBatchOutcome(ks: Keystore, xs: seq<EnrollInput>, k: nat)
    requires k <= |xs|
    ensures var b := EnrollFirst(ks, xs, k);
            && (b.aborted <==> exists i :: 0 <= i < k && Enrollable(xs[i]) && xs[i].typed.None?)
            && ExitOfLastFailure(b.results, b.exit)
            && (!b.aborted ==> |b.results| == k)
            && |b.results| <= k
            && (forall i :: 0 <= i < |b.results| ==>
                  && b.results[i].target == xs[i].path
                  && (!RightlyTyped(xs[i]) ==> b.results[i].exitCode == 2))
  {
    hide *;
    AbortIff(ks, xs, k);
    if k == 0 {
      NothingEnrolled(ks, xs);
    } else {
      EnrollBatchOutcome(ks, xs, k - 1);
      OneMoreFile(ks, xs, k - 1);
      var before, r := EnrollFirst(ks, xs, k - 1), EnrollOne(EnrollFirst(ks, xs, k - 1).ks, xs[k - 1]).1;
      if r.Ok? {
        ExitSnoc(before.results, before.exit, r.value);
      }
    }
  }

  lemma NothingEnrolled(ks: Keystore, xs: seq<EnrollInput>)
    ensures EnrollFirst(ks, xs, 0) == Enrolling(ks, [], 0, false) && ExitOfLastFailure([], 0)
  {
  }

  /** `run_enroll`, on paths already resolved: an unusable backend stores nothing and asks for
      nothing. */
  method RunEnroll(vault: VaultHandle, available: bool, xs: seq<EnrollInput>)
    returns (r: Result<(seq<Outcome>, nat), ()>)
    modifies vault.Objects()
    ensures !available ==> vault.Contents() == old(vault.Contents()) && r == Ok(([], EXIT_NEEDS_INTERACTIVE))
    ensures available ==>
              var b := EnrollFirst(old(vault.Contents()), xs, |xs|);
              vault.Contents() == b.ks && r == if b.aborted then Err(()) else Ok((b.results, b.exit))
  {
    hide Step;
    if !available {
      return Ok(([], ExitFor(Unavailable)));
    }
    var results: seq<Outcome> := [];
    var exit := EXIT_OK;
    ghost var before := vault.Contents();
    for k := 0 to |xs|
      invariant Enrolling(vault.Contents(), results, exit, false) == EnrollFirst(before, xs, k)
    {
      var x := xs[k];
      var outcome := Outcome(x.path, EXIT_USAGE);
      if x.key.Some? && Encrypted(x.key.value) {
        if x.typed.None? {
          AbortIsFinal(before, xs, k + 1, |xs|);
          return Err(());
        }
        if Decrypts(x.key.value, x.typed.value) {
          var reply := vault.Perform(Store(x.key.value.fingerprint, x.typed.value), x.f);
          outcome := Outcome(x.path, if reply.Failed? then ExitFor(reply.error) else EXIT_OK);
        }
      }
      if outcome.exitCode != EXIT_OK {
        exit := outcome.exitCode;
      }
      results := results + [outcome];
    }
    r := Ok((results, exit));
  }

  // ---------------------------------------------------------------- forget

  function ForgetOne(ks: Keystore, t: Target, f: Platform): (Keystore, Outcome) {
    match t.fingerprint
    case None => (ks, Outcome(t.display, EXIT_USAGE))
    case Some(fp) =>
      var (ks', r) := Step(ks, Delete(fp), f);
      (ks', Outcome(t.display, if r.Failed? then ExitFor(r.error) else EXIT_OK))
  }

  datatype Forgetting = Forgetting(ks: Keystore, results: seq<Outcome>, exit: nat)

  /** The first k targets; the exit code is that of the last one that failed. */
  function ForgetFirst(ks: Keystore, targets: seq<Target>, fs: nat -> Platform, k: nat): Forgetting
    requires k <= |targets|
  {
    if k == 0 then Forgetting(ks, [], EXIT_OK)
    else
      var before := ForgetFirst(ks, targets, fs, k - 1);
      var (ks', o) := ForgetOne(before.ks, targets[k - 1], fs(k - 1));
      Forgetting(ks', before.results + [o], if o.exitCode == EXIT_OK then before.exit else o.exitCode)
  }

  /** What forgetting one target comes to: its entry is deleted and the outcome is the delete's, or it
      is a usage error because its file could not be read. */
  lemma ForgetOutcome(ks: Keystore, t: Target, f: Platform)
    ensures var (ks', o) := ForgetOne(ks, t, f);
            && o.target == t.display
            && (t.fingerprint.None? ==> o.exitCode == 2 && ks' == ks)
            && (t.fingerprint.Some? ==>
                  var (after, reply) := Step(ks, Delete(t.fingerprint.value), f);
                  && ks' == after
                  && o.exitCode == if reply.Failed? then ExitFor(reply.error) else 0)
  {
    hide Step;
  }

  /** Forgetting a batch reports every target in order, and exits with the last failure's code. */
  lemma {:induction false} ForgetBatchOutcome(ks: Keystore, targets: seq<Target>, fs: nat -> Platform, k: nat)
    requires k <= |targets|
    ensures var b := ForgetFirst(ks, targets, fs, k);
            && |b.results| == k && ExitOfLastFailure(b.results, b.exit)
            && (forall i :: 0 <= i < k ==>
                  && b.results[i].target == targets[i].display
                  && (targets[i].fingerprint.None? ==> b.results[i].exitCode == 2))
  {
    hide ForgetOne;
    if k > 0 {
      ForgetBatchOutcome(ks, targets, fs, k - 1);
      var before := ForgetFirst(ks, targets, fs, k - 1);
      ForgetOutcome(before.ks, targets[k - 1], fs(k - 1));
      ExitSnoc(before.results, before.exit, ForgetOne(before.ks, targets[k - 1], fs(k - 1)).1);
    }
  }

  /** `--all` forgets under the listed names. */
  function ListedTargets(names: seq<string>): seq<Target> {
    seq(|names|, i requires 0 <= i < |names| => Target(names[i], Some(names[i])))
  }

  /** `run_forget`: a listing that fails ends the command with its exit code; naming nothing is
      a usage error. */
  method RunForget(vault: VaultHandle, all: bool, files: seq<Target>, listing: Platform, fs: nat -> Platform)
    returns (r: Result<(seq<Outcome>, nat), ()>)
    modifies vault.Objects()
    ensures all ==> var listed := Step(old(vault.Contents()), List, listing).1;
              if listed.Listed? then
                var targets := ListedTargets(listed.fingerprints);
                var b := ForgetFirst(old(vault.Contents()), targets, fs, |targets|);
                vault.Contents() == b.ks && r == Ok((b.results, b.exit))
              else
                && vault.Contents() == old(vault.Contents())
                && (listed.Failed? ==> r == Ok(([], ExitFor(listed.error))))
    ensures !all && files == [] ==> vault.Contents() == old(vault.Contents()) && r.Err?
    ensures !all && files != [] ==>
              var b := ForgetFirst(old(vault.Contents()), files, fs, |files|);
              vault.Contents() == b.ks && r == Ok((b.results, b.exit))
  {
    hide Step;
    var results: seq<Outcome> := [];
    var exit := EXIT_OK;
    ghost var before := vault.Contents();
    if all {
      ListChangesNothing(vault.Contents(), listing);
      var listed := vault.Perform(List, listing);
      if !listed.Listed? {
        return Ok(([], if listed.Failed? then ExitFor(listed.error) else EXIT_GENERAL));
      }
      ghost var targets := ListedTargets(listed.fingerprints);
      for k := 0 to |listed.fingerprints|
        invariant Forgetting(vault.Contents(), results, exit) == ForgetFirst(before, targets, fs, k)
      {
        var reply := vault.Perform(Delete(listed.fingerprints[k]), fs(k));
        if reply.Failed? {
          exit := ExitFor(reply.error);
          results := results + [Outcome(listed.fingerprints[k], exit)];
        } else {
          results := results + [Outcome(listed.fingerprints[k], EXIT_OK)];
        }
      }
    } else if files == [] {
      return Err(());
    } else {
      for k := 0 to |files|
        invariant Forgetting(vault.Contents(), results, exit) == ForgetFirst(before, files, fs, k)
      {
        if files[k].fingerprint.None? {
          exit := EXIT_USAGE;
          results := results + [Outcome(files[k].display, EXIT_USAGE)];
          continue;
        }
        var reply := vault.Perform(Delete(files[k].fingerprint.value), fs(k));
        if reply.Failed? {
          exit := ExitFor(reply.error);
          results := results + [Outcome(files[k].display, exit)];
        } else {
          results := results + [Outcome(files[k].display, EXIT_OK)];
        }
      }
    }
    r := Ok((results, exit));
  }

  lemma ListChangesNothing(ks: Keystore, f: Platform)
    ensures Step(ks, List, f).0 == ks
  {
  }

  // ------------------------------------------------------------ forget --all

  /** Deleting works: the keystore opens, finds and removes. */
  predicate DeletesWork(f: Platform) {
    f.open && f.search && f.remove
  }

  /** Deleting a listed name works, takes exactly one occurrence of it from the listing, and
      touches nothing of other applications. */
  lemma DeleteTakesOne(ks: Keystore, fp: string, f: Platform)
    requires Consistent(ks) && DeletesWork(f) && fp in OwnersOf(ks)
    ensures var (ks', r) := Step(ks, Delete(fp), f);
            && r.Done? && Consistent(ks') && SameForeign(ks, ks')
            && multiset(OwnersOf(ks')) == multiset(OwnersOf(ks)) - multiset{fp}
  {
    hide Step, HeldFor, OwnersOf, Consistent, SameForeign;
    var ks' := Step(ks, Delete(fp), f).0;
    OwnersEnumerate(ks);
    OwnersEnumerate(ks');
    assert multiset(OwnersOf(ks))[fp] > 0;
    WorkingDelete(ks, fp, f);
    forall n: string ensures multiset(OwnersOf(ks'))[n] == (multiset(OwnersOf(ks)) - multiset{fp})[n] {
      assert multiset(OwnersOf(ks))[n] == |HeldFor(ks, n)| && multiset(OwnersOf(ks'))[n] == |HeldFor(ks', n)|;
    }
  }

  lemma WorkingDelete(ks: Keystore, fp: string, f: Platform)
    requires Consistent(ks) && DeletesWork(f) && HeldFor(ks, fp) != []
    ensures var (ks', r) := Step(ks, Delete(fp), f);
            && r.Done? && Consistent(ks') && SameForeign(ks, ks')
            && HeldFor(ks', fp) == HeldFor(ks, fp)[1..]
            && forall n: string :: n != fp ==> HeldFor(ks', n) == HeldFor(ks, n)
  {
    hide Held, L.DeleteStep, M.DeleteStep, W.DeleteStep, L.Matches, L.SlotOf, Foreign, Unique;
    Prefixed(fp);
    match ks {
      case Keyring(items) => L.DeleteMeaning(items, KeyIdFromFingerprint(fp), f);
      case Keychain(entries) => M.DeleteMeaning(entries, KeyIdFromFingerprint(fp), f);
      case Locker(credentials) => W.DeleteMeaning(credentials, KeyIdFromFingerprint(fp), f);
    }
  }

  /** The state of `forget --all` after its first k deletions. */
  ghost predicate Forgot(ks: Keystore, names: seq<string>, b: Forgetting, k: nat)
    requires k <= |names|
  {
    && Consistent(b.ks) && SameForeign(ks, b.ks)
    && multiset(OwnersOf(b.ks)) == multiset(names[k..])
    && b.exit == EXIT_OK && |b.results| == k
    && forall i :: 0 <= i < k ==> b.results[i] == Outcome(names[i], EXIT_OK)
  }

  lemma ForgetStep(ks: Keystore, names: seq<string>, b: Forgetting, f: Platform, k: nat)
    requires k < |names| && Forgot(ks, names, b, k) && DeletesWork(f)
    ensures var (ks', o) := ForgetOne(b.ks, Target(names[k], Some(names[k])), f);
            o.exitCode == EXIT_OK && Forgot(ks, names, Forgetting(ks', b.results + [o], b.exit), k + 1)
  {
    hide Consistent, SameForeign, OwnersOf, Step;
    assert names[k..] == [names[k]] + names[k + 1..];
    assert names[k] in multiset(OwnersOf(b.ks));
    DeleteTakesOne(b.ks, names[k], f);
    SameForeignTransitive(ks, b.ks, Step(b.ks, Delete(names[k]), f).0);
  }

  lemma {:induction false} ForgetProgress(ks: Keystore, names: seq<string>, fs: nat -> Platform, k: nat)
    requires k <= |names| && Consistent(ks) && names == OwnersOf(ks)
    requires forall i: nat :: DeletesWork(fs(i))
    ensures Forgot(ks, names, ForgetFirst(ks, ListedTargets(names), fs, k), k)
  {
    hide Consistent, SameForeign, OwnersOf, Step, ForgetOne;
    if k > 0 {
      ForgetProgress(ks, names, fs, k - 1);
      var b := ForgetFirst(ks, ListedTargets(names), fs, k - 1);
      ForgetStep(ks, names, b, fs(k - 1), k - 1);
    } else {
      SameForeignReflexive(ks);
      assert names[0..] == names;
    }
  }

  /** `forget --all` on a reachable keystore whose deletions work leaves nothing of Gitway's,
      everything of other applications, reports every key forgotten and exits with 0. */
  lemma ForgetAllEmpties(ks: Keystore, listing: Platform, fs: nat -> Platform)
    requires Consistent(ks) && Step(ks, List, listing).1.Listed? && Honest(listing)
    requires forall i: nat :: DeletesWork(fs(i))
    ensures var names := Step(ks, List, listing).1.fingerprints;
            var b := ForgetFirst(ks, ListedTargets(names), fs, |names|);
            && OwnersOf(b.ks) == [] && SameForeign(ks, b.ks)
            && b.exit == EXIT_OK
            && |b.results| == |names|
            && (forall i :: 0 <= i < |names| ==> b.results[i] == Outcome(names[i], EXIT_OK))
            && forall fp :: fp in OwnersOf(ks) ==> Outcome(fp, EXIT_OK) in b.results
  {
    hide Step, Consistent, SameForeign, OwnersOf, ForgetOne;
    var names := Step(ks, List, listing).1.fingerprints;
    ListingIsOwners(ks, listing);
    ForgetProgress(ks, names, fs, |names|);
    var b := ForgetFirst(ks, ListedTargets(names), fs, |names|);
    assert names[|names|..] == [];
    assert |multiset(OwnersOf(b.ks))| == |OwnersOf(b.ks)|;
    forall fp | fp in OwnersOf(ks) ensures Outcome(fp, EXIT_OK) in b.results {
      var i :| 0 <= i < |names| && names[i] == fp;
      assert b.results[i] == Outcome(fp, EXIT_OK);
    }
  }

  lemma ListingIsOwners(ks: Keystore, f: Platform)
    requires Consistent(ks) && Step(ks, List, f).1.Listed? && Honest(f)
    ensures Step(ks, List, f).1.fingerprints == OwnersOf(ks)
  {
    if ks.Keyring? {
      L.ListsOwners(ks.items, f);
    }
  }
}
