/** Batches of `gitway biometric` as stretches of the vault's history. */
module BiometricRuns {
  import opened Wrappers
  import opened Biometric
  import opened Keystores
  import opened Keys
  import opened BiometricCmd
  import H = History

  // ---------------------------------------------------------------- enroll

  /** The files are what is on the disk. */
  predicate OnDisk(disk: map<string, KeyFile>, xs: seq<EnrollInput>) {
    forall i :: 0 <= i < |xs| ==>
      if xs[i].key.Some? then xs[i].path in disk && disk[xs[i].path] == xs[i].key.value else xs[i].path !in disk
  }

  function Enrollments(xs: seq<EnrollInput>, k: nat): (r: H.Run)
    requires k <= |xs|
    ensures |r| == k
  {
    seq(k, i requires 0 <= i < k => H.EnrollCommand(xs[i].path, xs[i].typed, xs[i].f))
  }

  /** The vault once the first k files have been dealt with. */
  function Enrolled(disk: map<string, KeyFile>, ks: Keystore, xs: seq<EnrollInput>, k: nat): Keystore
    requires k <= |xs|
  {
    H.At(H.System(disk, ks), Enrollments(xs, k)).ks
  }

  /** The exit code one file has on the vault it meets. */
  function EnrollExit(ks: Keystore, x: EnrollInput): nat {
    if !RightlyTyped(x) then 2
    else
      var reply := Step(ks, Store(x.key.value.fingerprint, x.typed.value), x.f).1;
      if reply.Failed? then ExitFor(reply.error) else 0
  }

  lemma EnrollmentsSnoc(s: H.System, xs: seq<EnrollInput>, k: nat)
    requires k < |xs|
    ensures H.At(s, Enrollments(xs, k + 1)) ==
            H.Advance(H.At(s, Enrollments(xs, k)), H.EnrollCommand(xs[k].path, xs[k].typed, xs[k].f)).0
  {
    hide H.Advance;
    assert Enrollments(xs, k + 1)[..k] == Enrollments(xs, k);
  }

  lemma EnrollOneFollows(disk: map<string, KeyFile>, ks: Keystore, x: EnrollInput)
    requires if x.key.Some? then x.path in disk && disk[x.path] == x.key.value else x.path !in disk
    ensures var (ks', r) := EnrollOne(ks, x);
            && H.Advance(H.System(disk, ks), H.EnrollCommand(x.path, x.typed, x.f)).0 == H.System(disk, ks')
            && (r.Ok? ==> r.value.exitCode == EnrollExit(ks, x))
  {
    EnrollOutcome(ks, x);
    if x.key.Some? {
      EnrollIsHistoryEvent(disk, ks, x);
    }
    hide Step, H.EnrollStep;
  }

  lemma EnrolledSoFar(ks: Keystore, xs: seq<EnrollInput>, k: nat)
    requires k <= |xs|
    ensures var b := EnrollFirst(ks, xs, k); |b.results| <= k && (!b.aborted ==> |b.results| == k)
  {
    hide EnrollFirst, ExitOfLastFailure;
    EnrollBatchOutcome(ks, xs, k);
  }

  lemma {:induction false} EnrollVault(disk: map<string, KeyFile>, ks: Keystore, xs: seq<EnrollInput>, k: nat)
    requires k <= |xs| && OnDisk(disk, xs)
    ensures var b := EnrollFirst(ks, xs, k);
            var j := if b.aborted then |b.results| + 1 else k;
            j <= k && H.At(H.System(disk, ks), Enrollments(xs, j)) == H.System(disk, b.ks)
  {
    hide EnrollOne, EnrollExit, H.Advance, Enrollments, H.At;
    if k == 0 {
      NothingYet(H.System(disk, ks), xs);
    } else {
      EnrollVault(disk, ks, xs, k - 1);
      EnrolledSoFar(ks, xs, k - 1);
      var before := EnrollFirst(ks, xs, k - 1);
      if !before.aborted {
        EnrollOneFollows(disk, before.ks, xs[k - 1]);
        EnrollmentsSnoc(H.System(disk, ks), xs, k - 1);
      }
    }
  }

  lemma OneMoreResult(ks: Keystore, xs: seq<EnrollInput>, k: nat)
    requires k < |xs|
    ensures var b, next := EnrollFirst(ks, xs, k), EnrollFirst(ks, xs, k + 1);
            && (b.aborted ==> next == b)
            && (!b.aborted && next.aborted ==> next.results == b.results)
            && (!next.aborted ==> next.results == b.results + [Outcome(xs[k].path, EnrollExit(b.ks, xs[k]))])
  {
    hide Step;
    EnrollOutcome(EnrollFirst(ks, xs, k).ks, xs[k]);
  }

  /** The i-th result is read off the batch as it was before. */
  predicate ResultAt(ks: Keystore, xs: seq<EnrollInput>, i: nat, o: Outcome)
    requires i < |xs|
  {
    var before := EnrollFirst(ks, xs, i);
    !before.aborted && o == Outcome(xs[i].path, EnrollExit(before.ks, xs[i]))
  }

  lemma {:induction false} EnrollResults(ks: Keystore, xs: seq<EnrollInput>, k: nat)
    requires k <= |xs|
    ensures var b := EnrollFirst(ks, xs, k);
            && |b.results| <= k && (!b.aborted ==> |b.results| == k)
            && forall i :: 0 <= i < |b.results| ==> ResultAt(ks, xs, i, b.results[i])
  {
    if k == 0 {
      assert EnrollFirst(ks, xs, 0).results == [];
    } else {
      EnrollResults(ks, xs, k - 1);
      OneMoreResult(ks, xs, k - 1);
      var before := EnrollFirst(ks, xs, k - 1);
      assert !before.aborted ==> ResultAt(ks, xs, k - 1, Outcome(xs[k - 1].path, EnrollExit(before.ks, xs[k - 1])));
      hide *;
    }
  }

  /** Enrolling any files is the run of their enrollments up to the end or the prompt that failed:
      it leaves the vault that run leaves, and each exit code is read off the vault its file met. */
  lemma EnrollIsHistoryRun(disk: map<string, KeyFile>, ks: Keystore, xs: seq<EnrollInput>)
    requires OnDisk(disk, xs)
    ensures var b := EnrollFirst(ks, xs, |xs|);
            var j := if b.aborted then |b.results| + 1 else |xs|;
            && |b.results| <= j <= |xs|
            && b.ks == Enrolled(disk, ks, xs, j)
            && forall i :: 0 <= i < |b.results| ==>
                 b.results[i] == Outcome(xs[i].path, EnrollExit(Enrolled(disk, ks, xs, i), xs[i]))
  {
    hide EnrollFirst, EnrollExit, Enrollments, H.At;
    EnrollVault(disk, ks, xs, |xs|);
    EnrollResults(ks, xs, |xs|);
    forall i | 0 <= i < |EnrollFirst(ks, xs, |xs|).results|
      ensures ResultAt(ks, xs, i, EnrollFirst(ks, xs, |xs|).results[i])
      ensures Enrolled(disk, ks, xs, i) == EnrollFirst(ks, xs, i).ks
    {
      EnrollVault(disk, ks, xs, i);
    }
  }

  lemma NothingYet(s: H.System, xs: seq<EnrollInput>)
    ensures H.At(s, Enrollments(xs, 0)) == s
  {
  }

  // ---------------------------------------------------------------- forget

  /** The deletions of the first k targets, less those that cannot be read. */
  function Deletions(targets: seq<Target>, fs: nat -> Platform, k: nat): H.Run
    requires k <= |targets|
  {
    if k == 0 then []
    else
      Deletions(targets, fs, k - 1) +
      match targets[k - 1].fingerprint { case None => [] case Some(fp) => [H.Forget(fp, fs(k - 1))] }
  }

  function Forgotten(disk: map<string, KeyFile>, ks: Keystore, targets: seq<Target>, fs: nat -> Platform, k: nat)
    : Keystore
    requires k <= |targets|
  {
    H.At(H.System(disk, ks), Deletions(targets, fs, k)).ks
  }

  function ForgetExit(ks: Keystore, t: Target, f: Platform): nat {
    match t.fingerprint
    case None => 2
    case Some(fp) =>
      var reply := Step(ks, Delete(fp), f).1;
      if reply.Failed? then ExitFor(reply.error) else 0
  }

  lemma DeletionsSnoc(s: H.System, targets: seq<Target>, fs: nat -> Platform, k: nat)
    requires k < |targets|
    ensures var run := Deletions(targets, fs, k);
            H.At(s, Deletions(targets, fs, k + 1)) ==
            match targets[k].fingerprint
            case None => H.At(s, run)
            case Some(fp) => H.Advance(H.At(s, run), H.Forget(fp, fs(k))).0
  {
    hide H.Advance;
    var run := Deletions(targets, fs, k);
    match targets[k].fingerprint {
      case None => assert run + [] == run;
      case Some(fp) => assert (run + [H.Forget(fp, fs(k))])[..|run|] == run;
    }
  }

  lemma ForgetOneFollows(disk: map<string, KeyFile>, ks: Keystore, t: Target, f: Platform)
    ensures var (ks', o) := ForgetOne(ks, t, f);
            && (t.fingerprint.None? ==> ks' == ks)
            && (t.fingerprint.Some? ==>
                  H.Advance(H.System(disk, ks), H.Forget(t.fingerprint.value, f)).0 == H.System(disk, ks'))
            && o == Outcome(t.display, ForgetExit(ks, t, f))
  {
    ForgetOutcome(ks, t, f);
    hide Step, ForgetOne;
  }

  lemma {:induction false} ForgetVault(
    disk: map<string, KeyFile>, ks: Keystore, targets: seq<Target>, fs: nat -> Platform, k: nat)
    requires k <= |targets|
    ensures H.At(H.System(disk, ks), Deletions(targets, fs, k)) ==
            H.System(disk, ForgetFirst(ks, targets, fs, k).ks)
  {
    hide *;
    if k == 0 {
      NothingForgotten(H.System(disk, ks), targets, fs);
    } else {
      ForgetVault(disk, ks, targets, fs, k - 1);
      OneMoreTarget(ks, targets, fs, k - 1);
      ForgetOneFollows(disk, ForgetFirst(ks, targets, fs, k - 1).ks, targets[k - 1], fs(k - 1));
      DeletionsSnoc(H.System(disk, ks), targets, fs, k - 1);
    }
  }

  lemma NothingForgotten(s: H.System, targets: seq<Target>, fs: nat -> Platform)
    ensures H.At(s, Deletions(targets, fs, 0)) == s
    ensures ForgetFirst(s.ks, targets, fs, 0) == Forgetting(s.ks, [], 0)
  {
  }

  lemma OneMoreTarget(ks: Keystore, targets: seq<Target>, fs: nat -> Platform, k: nat)
    requires k < |targets|
    ensures var b, next := ForgetFirst(ks, targets, fs, k), ForgetFirst(ks, targets, fs, k + 1);
            var (ks', o) := ForgetOne(b.ks, targets[k], fs(k));
            next.ks == ks' && next.results == b.results + [o]
  {
    hide ForgetOne;
  }

  /** Forgetting any targets is the run of their deletions, and each exit code is read off the vault
      its target met. */
  lemma {:induction false} ForgetIsHistoryRun(
    disk: map<string, KeyFile>, ks: Keystore, targets: seq<Target>, fs: nat -> Platform, k: nat)
    requires k <= |targets|
    ensures var b := ForgetFirst(ks, targets, fs, k);
            && b.ks == Forgotten(disk, ks, targets, fs, k)
            && |b.results| == k
            && forall i :: 0 <= i < k ==>
                 b.results[i] ==
                 Outcome(targets[i].display, ForgetExit(Forgotten(disk, ks, targets, fs, i), targets[i], fs(i)))
  {
    hide ForgetOne, ForgetExit, H.Advance, H.At, Deletions;
    ForgetVault(disk, ks, targets, fs, k);
    if k > 0 {
      ForgetIsHistoryRun(disk, ks, targets, fs, k - 1);
      ForgetOneFollows(disk, ForgetFirst(ks, targets, fs, k - 1).ks, targets[k - 1], fs(k - 1));
      hide Forgotten;
    }
  }
}
