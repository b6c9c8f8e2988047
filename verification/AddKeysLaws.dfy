/** What a batch of key loads guarantees, for every set of files, answers, agents and platform
    behaviours. Both programs inherit it, since both compute AddAll. */
module AddKeysLaws {
  import opened Wrappers
  import opened Keystores
  import opened Keys
  import opened Unlock
  import opened AddKeys
  import H = History

  predicate Parses(w: World, path: string) {
    path in w.files && w.files[path].KeyContent?
  }

  /** The keys of the parsable files among some paths. */
  function Fingerprints(w: World, paths: seq<string>): set<string> {
    set p | p in paths && Parses(w, p) :: w.files[p].key.fingerprint
  }

  /** How far a batch that reported these lines has got, and what it then holds. */
  ghost predicate Progress(
    w: World, b: Batch, agent: AgentKeys, loaded: set<string>, paths: seq<string>, mode: UnlockMode, k: nat)
    requires k <= |paths|
  {
    && |b.lines| <= k
    && (b.failure.None? ==> |b.lines| == k)
    && (b.failure.Some? ==> |b.lines| < k && b.failure.value.path == paths[|b.lines|])
    && (forall i :: 0 <= i < |b.lines| ==>
          && Parses(w, paths[i])
          && b.lines[i] == if !mode.Enroll? && w.files[paths[i]].key.fingerprint in loaded
                           then AlreadyLoaded(paths[i]) else Added(paths[i]))
    && b.agent.Keys == agent.Keys + Fingerprints(w, paths[..|b.lines|])
  }

  lemma FingerprintsGrow(w: World, paths: seq<string>, k: nat)
    requires k < |paths| && Parses(w, paths[k])
    ensures Fingerprints(w, paths[..k + 1]) == Fingerprints(w, paths[..k]) + {w.files[paths[k]].key.fingerprint}
  {
    assert paths[..k + 1] == paths[..k] + [paths[k]];
  }

  lemma LoadErrorNamesPath(w: World, path: string, key: KeyFile, mode: UnlockMode, ks: Keystore, k: nat)
    ensures var r := LoadKey(w, path, key, mode, ks, k).result;
            if r.Ok? then r.value == key.fingerprint else r.error.path == path
  {
    hide AutoUnlockStep, Step;
  }

  lemma ProgressStep(
    w: World, b: Batch, agent: AgentKeys, loaded: set<string>, paths: seq<string>, mode: UnlockMode,
    c: Constraints, k: nat)
    requires k < |paths| && loaded <= agent.Keys
    requires b.failure.None? && Progress(w, b, agent, loaded, paths, mode, k)
    ensures Progress(w, AddOne(w, b, loaded, paths[k], mode, c, k), agent, loaded, paths, mode, k + 1)
  {
    hide Fingerprints, AddOne;
    AddOneShape(w, b, loaded, paths[k], mode, c, k);
    if Parses(w, paths[k]) {
      FingerprintsGrow(w, paths, k);
    }
  }

  /** An iteration fails at its path and leaves lines and keys, or reports the path and holds its
      key. */
  lemma AddOneShape(
    w: World, b: Batch, loaded: set<string>, path: string, mode: UnlockMode, c: Constraints, k: nat)
    requires b.failure.None? && loaded <= b.agent.Keys
    ensures var next := AddOne(w, b, loaded, path, mode, c, k);
            if next.failure.Some? then
              next.failure.value.path == path && next.lines == b.lines && next.agent == b.agent
            else
              && Parses(w, path)
              && next.lines == b.lines + [if PassedOver(w.files[path].key, loaded, mode) then AlreadyLoaded(path)
                                          else Added(path)]
              && next.agent.Keys == b.agent.Keys + {w.files[path].key.fingerprint}
  {
    hide LoadKey;
    if Parses(w, path) {
      LoadErrorNamesPath(w, path, w.files[path].key, mode, b.ks, k);
    }
  }

  lemma {:induction false} ProgressKept(
    w: World, ks: Keystore, agent: AgentKeys, loaded: set<string>, paths: seq<string>, mode: UnlockMode,
    c: Constraints, k: nat)
    requires k <= |paths| && loaded <= agent.Keys
    ensures Progress(w, AddFirst(w, Start(agent, ks), loaded, paths, mode, c, k), agent, loaded, paths, mode, k)
  {
    hide LoadKey, AddOne;
    if k > 0 {
      ProgressKept(w, ks, agent, loaded, paths, mode, c, k - 1);
      var b := AddFirst(w, Start(agent, ks), loaded, paths, mode, c, k - 1);
      if b.failure.None? {
        ProgressStep(w, b, agent, loaded, paths, mode, c, k - 1);
      }
    }
  }

  /** A successful batch splits its paths, in order, into those whose key was already in the
      snapshot and those it added; an enrolling one adds them all. */
  lemma SuccessPartitions(
    w: World, agent: AgentKeys, locked: bool, ks: Keystore, paths: seq<string>, mode: UnlockMode,
    c: Constraints)
    requires AddAll(w, agent, locked, ks, paths, mode, c).failure.None?
    ensures var lines := AddAll(w, agent, locked, ks, paths, mode, c).lines;
            && |lines| == |paths|
            && forall i :: 0 <= i < |paths| ==>
                 && Parses(w, paths[i])
                 && lines[i] == if !mode.Enroll? && !locked && w.files[paths[i]].key.fingerprint in agent
                                then AlreadyLoaded(paths[i]) else Added(paths[i])
  {
    ProgressKept(w, ks, agent, Snapshot(agent, locked), paths, mode, c, |paths|);
  }

  /** Whether a batch succeeds or fails at some path, the agent then holds its initial keys and
      those of the paths before it, and no others. */
  lemma AgentHoldsCompletedPrefix(
    w: World, agent: AgentKeys, locked: bool, ks: Keystore, paths: seq<string>, mode: UnlockMode,
    c: Constraints)
    ensures var b := AddAll(w, agent, locked, ks, paths, mode, c);
            && |b.lines| <= |paths|
            && b.agent.Keys == agent.Keys + Fingerprints(w, paths[..|b.lines|])
            && (b.failure.None? <==> |b.lines| == |paths|)
            && (b.failure.Some? ==> b.failure.value.path == paths[|b.lines|])
  {
    ProgressKept(w, ks, agent, Snapshot(agent, locked), paths, mode, c, |paths|);
  }

  // ------------------------------------------------------------- idempotence

  lemma {:induction false} AllLoadedAddsNothing(
    w: World, start: Batch, loaded: set<string>, paths: seq<string>, mode: UnlockMode, c: Constraints, k: nat)
    requires k <= |paths| && !mode.Enroll? && start.failure.None?
    requires forall i :: 0 <= i < |paths| ==> Parses(w, paths[i]) && w.files[paths[i]].key.fingerprint in loaded
    ensures var b := AddFirst(w, start, loaded, paths, mode, c, k);
            && b.agent == start.agent && b.ks == start.ks && b.prompts == start.prompts && b.failure.None?
            && |b.lines| == |start.lines| + k
            && forall i :: |start.lines| <= i < |b.lines| ==> b.lines[i].AlreadyLoaded?
  {
    hide LoadKey;
    if k > 0 {
      AllLoadedAddsNothing(w, start, loaded, paths, mode, c, k - 1);
    }
  }

  /** After a successful add that did not enroll, adding the same unchanged files to the
      unlocked agent again adds nothing, asks nothing and changes nothing, whatever would now be
      typed, released or refused. */
  lemma AddingAgainDoesNothing(
    w: World, agent: AgentKeys, locked: bool, ks: Keystore, paths: seq<string>, mode: UnlockMode,
    c: Constraints, w2: World, ks2: Keystore, mode2: UnlockMode, c2: Constraints)
    requires !mode.Enroll? && !mode2.Enroll? && w2.files == w.files
    requires AddAll(w, agent, locked, ks, paths, mode, c).failure.None?
    ensures var first := AddAll(w, agent, locked, ks, paths, mode, c);
            var again := AddAll(w2, first.agent, false, ks2, paths, mode2, c2);
            && again.agent == first.agent && again.ks == ks2 && again.prompts == [] && again.failure.None?
            && |again.lines| == |paths|
            && forall i :: 0 <= i < |paths| ==> again.lines[i].AlreadyLoaded?
  {
    var first := AddAll(w, agent, locked, ks, paths, mode, c);
    ProgressKept(w, ks, agent, Snapshot(agent, locked), paths, mode, c, |paths|);
    assert paths[..|paths|] == paths;
    forall i | 0 <= i < |paths|
      ensures Parses(w2, paths[i]) && w2.files[paths[i]].key.fingerprint in first.agent.Keys
    {
      assert paths[i] in paths;
    }
    AllLoadedAddsNothing(w2, Start(first.agent, ks2), first.agent.Keys, paths, mode2, c2, |paths|);
  }

  /** What loading a key does to the vault and says about it, in any mode, is what the history of
      the vault records: "enrolled" is a noted store of the typed passphrase, "removed stale
      enrollment" a noted stale result, and nothing else is noted. */
  lemma LoadIsHistoryEvent(
     w: World, disk: map<string, KeyFile>, path: string, mode: UnlockMode, ks: Keystore, k: nat)
    requires path in disk
    ensures var typed := if path in w.typed then Some(w.typed[path]) else None;
            var (s', n) := H.Advance(H.System(disk, ks), H.Load(path, mode, typed, w.first(k), w.second(k)));
            var l := LoadKey(w, path, disk[path], mode, ks, k);
            && s' == H.System(disk, l.ks)
            && (l.message.Enrolled? <==> n.Stored?)
            && (l.message.Enrolled? ==> n == H.Stored(disk[path].fingerprint, w.typed[path]))
            && (l.message.RemovedStale? <==> n.FoundStale?)
            && (n.FoundStale? ==> n.fingerprint == disk[path].fingerprint)
            && (n.Stored? || n.FoundStale? || n.Quiet?)
  {
    hide Step;
  }

  // -------------------------------------------------------- purely additive

  /** Auto never turns a key that a typed passphrase would load into a failure, and asks for no
      more. */
  lemma LoadNeverWorse(w: World, path: string, key: KeyFile, ksTyped: Keystore, ksAuto: Keystore, k: nat)
    ensures var typed, auto := LoadKey(w, path, key, Disabled, ksTyped, k), LoadKey(w, path, key, Auto, ksAuto, k);
            && typed.ks == ksTyped
            && (typed.result.Ok? ==> auto.result == typed.result)
            && (auto.prompted ==> typed.prompted)
  {
    hide AutoUnlockStep, Step;
  }

  /** The typed-only batch d and the automatic batch a, after the same paths. */
  ghost predicate NeverWorse(d: Batch, a: Batch, ks: Keystore) {
    && d.ks == ks
    && |d.lines| <= |a.lines| && a.lines[..|d.lines|] == d.lines
    && (d.failure.None? ==> a.failure.None? && a.agent == d.agent && a.lines == d.lines &&
                            multiset(a.prompts) <= multiset(d.prompts))
  }

  lemma NeverWorseStep(
    w: World, d: Batch, a: Batch, ks: Keystore, loaded: set<string>, path: string, c: Constraints, k: nat)
    requires NeverWorse(d, a, ks) && d.failure.None?
    ensures NeverWorse(AddOne(w, d, loaded, path, Disabled, c, k), AddOne(w, a, loaded, path, Auto, c, k), ks)
  {
    hide LoadKey;
    if Parses(w, path) {
      LoadNeverWorse(w, path, w.files[path].key, d.ks, a.ks, k);
    }
  }

  /** Lines already reported stay. */
  lemma LinesKept(w: World, a: Batch, loaded: set<string>, path: string, mode: UnlockMode, c: Constraints, k: nat)
    ensures a.lines <= AddOne(w, a, loaded, path, mode, c, k).lines
  {
    hide LoadKey;
  }

  lemma {:induction false} NeverWorseKept(
    w: World, agent: AgentKeys, ksTyped: Keystore, ksAuto: Keystore, loaded: set<string>, paths: seq<string>,
    c: Constraints, k: nat)
    requires k <= |paths|
    ensures NeverWorse(AddFirst(w, Start(agent, ksTyped), loaded, paths, Disabled, c, k),
                       AddFirst(w, Start(agent, ksAuto), loaded, paths, Auto, c, k), ksTyped)
  {
    hide LoadKey, AddOne;
    if k > 0 {
      NeverWorseKept(w, agent, ksTyped, ksAuto, loaded, paths, c, k - 1);
      var d := AddFirst(w, Start(agent, ksTyped), loaded, paths, Disabled, c, k - 1);
      var a := AddFirst(w, Start(agent, ksAuto), loaded, paths, Auto, c, k - 1);
      if d.failure.None? {
        NeverWorseStep(w, d, a, ksTyped, loaded, paths[k - 1], c, k - 1);
      } else {
        LinesKept(w, a, loaded, paths[k - 1], Auto, c, k - 1);
      }
    }
  }

  /** Biometric unlock is purely additive: whatever any vault on any platform does, a batch that
      typed passphrases alone would load completely is loaded completely in automatic mode, with
      the same keys in the agent, the same report and no further prompt; and a batch that typed
      passphrases would load in part gets at least as far. */
  lemma BiometricIsAdditive(
    w: World, agent: AgentKeys, locked: bool, ksTyped: Keystore, ksAuto: Keystore, paths: seq<string>,
    c: Constraints)
    ensures var d := AddAll(w, agent, locked, ksTyped, paths, Disabled, c);
            var a := AddAll(w, agent, locked, ksAuto, paths, Auto, c);
            && d.ks == ksTyped
            && (d.failure.None? ==> a.failure.None? && a.agent == d.agent && a.lines == d.lines &&
                                    multiset(a.prompts) <= multiset(d.prompts))
            && |d.lines| <= |a.lines| && a.lines[..|d.lines|] == d.lines
  {
    NeverWorseKept(w, agent, ksTyped, ksAuto, Snapshot(agent, locked), paths, c, |paths|);
  }
}
