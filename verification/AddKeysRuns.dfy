/** A batch as a stretch of the vault's history: what it does to the vault, what it asks and what it
    says, path by path, up to its end or its first failure. */
module AddKeysRuns {
  import opened Wrappers
  import opened Biometric
  import opened Keystores
  import opened Keys
  import opened Unlock
  import opened AddKeys
  import opened AddKeysLaws
  import opened AddKeysOutcomes
  import H = History

  function Disk(w: World): map<string, KeyFile> {
    map path | path in w.files && w.files[path].KeyContent? :: w.files[path].key
  }

  /** The vault event that loading the k-th path is. */
  function LoadEvent(w: World, path: string, mode: UnlockMode, k: nat): H.Event {
    H.Load(path, mode, if path in w.typed then Some(w.typed[path]) else None, w.first(k), w.second(k))
  }

  /** The path is a key that is loaded already, and is not to be enrolled. */
  predicate Skips(w: World, path: string, mode: UnlockMode, loaded: set<string>) {
    Parses(w, path) && !mode.Enroll? && w.files[path].key.fingerprint in loaded
  }

  /** The loads of the first k paths, less those passed over. */
  function Loads(w: World, paths: seq<string>, mode: UnlockMode, loaded: set<string>, k: nat): H.Run
    requires k <= |paths|
  {
    if k == 0 then []
    else
      Loads(w, paths, mode, loaded, k - 1) +
      if Skips(w, paths[k - 1], mode, loaded) then [] else [LoadEvent(w, paths[k - 1], mode, k - 1)]
  }

  function VaultAfter(w: World, ks: Keystore, paths: seq<string>, mode: UnlockMode, loaded: set<string>, k: nat)
    : Keystore
    requires k <= |paths|
  {
    H.At(H.System(Disk(w), ks), Loads(w, paths, mode, loaded, k)).ks
  }

  /** A passphrase is typed for the path: its key is locked, not passed over, and in automatic mode
      not released by the vault. */
  predicate Types(w: World, ks: Keystore, path: string, mode: UnlockMode, loaded: set<string>, k: nat) {
    && Parses(w, path) && !Skips(w, path, mode, loaded)
    && w.files[path].key.passphrase.Some?
    && (mode.Auto? ==>
          var reply := Step(ks, Retrieve(w.files[path].key.fingerprint), w.first(k)).1;
          !(reply.Released? && w.files[path].key.passphrase == Some(reply.passphrase)))
  }

  /** What is said of the path: what the history notes, and a rightly typed passphrase that could not
      be stored. */
  function Says(w: World, ks: Keystore, path: string, mode: UnlockMode, loaded: set<string>, k: nat): Message {
    if !Parses(w, path) || Skips(w, path, mode, loaded) then Silent
    else
      match H.Advance(H.System(Disk(w), ks), LoadEvent(w, path, mode, k)).1
      case Stored(_, _) => Enrolled
      case FoundStale(_, _) => RemovedStale
      case _ =>
        if mode.Enroll? && path in w.typed && w.files[path].key.passphrase == Some(w.typed[path]) then EnrollFailed
        else Silent
  }

  function TypedFor(w: World, ks: Keystore, paths: seq<string>, mode: UnlockMode, loaded: set<string>, k: nat)
    : seq<string>
    requires k <= |paths|
  {
    if k == 0 then []
    else
      TypedFor(w, ks, paths, mode, loaded, k - 1) +
      if Types(w, VaultAfter(w, ks, paths, mode, loaded, k - 1), paths[k - 1], mode, loaded, k - 1)
      then [paths[k - 1]] else []
  }

  function Said(w: World, ks: Keystore, paths: seq<string>, mode: UnlockMode, loaded: set<string>, k: nat)
    : seq<Message>
    requires k <= |paths|
  {
    if k == 0 then []
    else
      var m := Says(w, VaultAfter(w, ks, paths, mode, loaded, k - 1), paths[k - 1], mode, loaded, k - 1);
      Said(w, ks, paths, mode, loaded, k - 1) + if m.Silent? then [] else [m]
  }

  /** The batch is where the history of its first j paths is. */
  ghost predicate Follows(
    w: World, b: Batch, ks: Keystore, paths: seq<string>, mode: UnlockMode, loaded: set<string>, j: nat)
    requires j <= |paths|
  {
    && b.ks == VaultAfter(w, ks, paths, mode, loaded, j)
    && b.prompts == TypedFor(w, ks, paths, mode, loaded, j)
    && b.messages == Said(w, ks, paths, mode, loaded, j)
  }

  /** One path, from any batch. */
  lemma AddOneFollows(
    w: World, b: Batch, loaded: set<string>, path: string, mode: UnlockMode, c: Constraints, k: nat)
    ensures var next, said := AddOne(w, b, loaded, path, mode, c, k), Says(w, b.ks, path, mode, loaded, k);
            && H.System(Disk(w), next.ks) ==
               (if Skips(w, path, mode, loaded) then H.System(Disk(w), b.ks)
                else H.Advance(H.System(Disk(w), b.ks), LoadEvent(w, path, mode, k)).0)
            && next.prompts == b.prompts + (if Types(w, b.ks, path, mode, loaded, k) then [path] else [])
            && next.messages == b.messages + if said.Silent? then [] else [said]
  {
    if Parses(w, path) && !Skips(w, path, mode, loaded) {
      assert Disk(w)[path] == w.files[path].key;
      LoadIsHistoryEvent(w, Disk(w), path, mode, b.ks, k);
      LoadOutcome(w, path, w.files[path].key, mode, b.ks, k);
      hide LoadKey, Step, H.LoadStep;
    }
  }

  lemma OneMoreEvent(s: H.System, run: H.Run, e: H.Event)
    ensures H.At(s, run + [e]) == H.Advance(H.At(s, run), e).0
  {
    hide H.Advance;
    assert (run + [e])[..|run|] == run;
  }

  /** The batch, and the vault it leaves, are where the history of its first j paths is. */
  ghost predicate Keeps(
    w: World, b: Batch, ks: Keystore, paths: seq<string>, mode: UnlockMode, loaded: set<string>, j: nat)
    requires j <= |paths|
  {
    && Follows(w, b, ks, paths, mode, loaded, j)
    && H.At(H.System(Disk(w), ks), Loads(w, paths, mode, loaded, j)) == H.System(Disk(w), b.ks)
  }

  lemma KeepsStep(
    w: World, b: Batch, ks: Keystore, paths: seq<string>, mode: UnlockMode, c: Constraints, loaded: set<string>,
    k: nat)
    requires k < |paths| && Keeps(w, b, ks, paths, mode, loaded, k)
    ensures Keeps(w, AddOne(w, b, loaded, paths[k], mode, c, k), ks, paths, mode, loaded, k + 1)
  {
    var s, path := H.System(Disk(w), ks), paths[k];
    AddOneFollows(w, b, loaded, path, mode, c, k);
    OneMoreEvent(s, Loads(w, paths, mode, loaded, k), LoadEvent(w, path, mode, k));
    hide AddOne, H.Advance, Types, Says, Skips, LoadEvent, H.At, Disk;
    var before, next := Loads(w, paths, mode, loaded, k), AddOne(w, b, loaded, path, mode, c, k);
    assert Loads(w, paths, mode, loaded, k + 1) ==
           before + if Skips(w, path, mode, loaded) then [] else [LoadEvent(w, path, mode, k)];
    assert before + [] == before;
    assert H.At(s, Loads(w, paths, mode, loaded, k + 1)) == H.System(Disk(w), next.ks);
    assert next.prompts == TypedFor(w, ks, paths, mode, loaded, k + 1);
    assert next.messages == Said(w, ks, paths, mode, loaded, k + 1);
  }

  lemma NothingYet(w: World, agent: AgentKeys, ks: Keystore, paths: seq<string>, mode: UnlockMode, loaded: set<string>)
    ensures Keeps(w, Start(agent, ks), ks, paths, mode, loaded, 0)
  {
  }

  lemma {:induction false} FirstKeep(
    w: World, agent: AgentKeys, ks: Keystore, loaded: set<string>, paths: seq<string>, mode: UnlockMode,
    c: Constraints, k: nat)
    requires k <= |paths|
    ensures var b := AddFirst(w, Start(agent, ks), loaded, paths, mode, c, k);
            var j := if b.failure.None? then k else |b.lines| + 1;
            j <= k && Keeps(w, b, ks, paths, mode, loaded, j)
  {
    hide Keeps, AddOne, Caused;
    FailureCaused(w, Start(agent, ks), loaded, paths, mode, c, k);
    if k == 0 {
      NothingYet(w, agent, ks, paths, mode, loaded);
    } else {
      var b := AddFirst(w, Start(agent, ks), loaded, paths, mode, c, k - 1);
      FirstKeep(w, agent, ks, loaded, paths, mode, c, k - 1);
      if b.failure.None? {
        var next := AddOne(w, b, loaded, paths[k - 1], mode, c, k - 1);
        assert next == AddFirst(w, Start(agent, ks), loaded, paths, mode, c, k);
        FailureCaused(w, Start(agent, ks), loaded, paths, mode, c, k - 1);
        hide AddFirst;
        KeepsStep(w, b, ks, paths, mode, c, loaded, k - 1);
        AddOneCaused(w, b, loaded, paths[k - 1], mode, c, k - 1);
      }
    }
  }

  /** Every batch, in any mode and whatever the vault answers, is a run of the vault's history: the
      loads of its paths in order, less those passed over, up to the end or the one that failed. It
      leaves the vault that run leaves, it has asked for exactly the passphrases the vault did not
      release on the way, in order, and said exactly what the history notes. */
  lemma BatchIsHistoryRun(
    w: World, agent: AgentKeys, locked: bool, ks: Keystore, paths: seq<string>, mode: UnlockMode,
    c: Constraints)
    ensures var b, loaded := AddAll(w, agent, locked, ks, paths, mode, c), if locked then {} else agent.Keys;
            var j := if b.failure.None? then |paths| else |b.lines| + 1;
            j <= |paths| && Follows(w, b, ks, paths, mode, loaded, j)
  {
    FirstKeep(w, agent, ks, Snapshot(agent, locked), paths, mode, c, |paths|);
  }
}
