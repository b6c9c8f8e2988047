/** What comes of a batch of key loads, read off the files, the answers, the agent and the vault:
    when a key loads and what it asks, what the agent holds and how, and why a batch fails. */
module AddKeysOutcomes {
  import opened Wrappers
  import opened Records
  import opened Biometric
  import opened Keystores
  import opened Keys
  import opened Unlock
  import opened AddKeys
  import opened AddKeysLaws

  // -------------------------------------------------------------- one key

  /** What typing gives: the key if what is typed for its path is its passphrase. */
  function TypedResult(w: World, path: string, key: KeyFile): Result<string, AddError> {
    if path !in w.typed then Err(PromptFailed(path))
    else if key.passphrase != Some(w.typed[path]) then Err(DecryptFailed(path))
    else Ok(key.fingerprint)
  }

  /** What loading a key comes to. An unencrypted key loads at once. Otherwise its passphrase is
      typed, unless in automatic mode the vault releases it; and what is typed is stored in enroll
      mode if it fits, while a released text that does not fit is deleted in automatic mode. */
  lemma LoadOutcome(w: World, path: string, key: KeyFile, mode: UnlockMode, ks: Keystore, k: nat)
    ensures var l, reply := LoadKey(w, path, key, mode, ks, k), Step(ks, Retrieve(key.fingerprint), w.first(k)).1;
            var encrypted := key.passphrase.Some?;
            var released := mode.Auto? && encrypted && reply.Released?;
            var silent := !encrypted || (released && key.passphrase == Some(reply.passphrase));
            var storing := mode.Enroll? && encrypted && TypedResult(w, path, key).Ok?;
            var stale := released && key.passphrase != Some(reply.passphrase);
            && l.prompted == !silent
            && l.result == (if silent then Ok(key.fingerprint) else TypedResult(w, path, key))
            && l.ks == (if storing then Step(ks, Store(key.fingerprint, w.typed[path]), w.first(k)).0
                        else if stale then Step(ks, Delete(key.fingerprint), w.second(k)).0
                        else ks)
            && (l.message.RemovedStale? <==> stale)
            && (l.message.Enrolled? || l.message.EnrollFailed? <==> storing)
            && (l.message.Enrolled? ==> Step(ks, Store(key.fingerprint, w.typed[path]), w.first(k)).1.Done?)
            && (l.message.EnrollFailed? ==> !Step(ks, Store(key.fingerprint, w.typed[path]), w.first(k)).1.Done?)
  {
    hide Step, AutoUnlockStep;
    AutoUnlockAnswers(ks, key, w.first(k), w.second(k));
  }

  /** In automatic mode, and with every call working, a key whose passphrase is the front entry of a
      consistent vault loads with no prompt and leaves the vault as it is. */
  lemma EnrolledKeyLoadsSilently(w: World, path: string, key: KeyFile, ks: Keystore, k: nat)
    requires Consistent(ks) && AllWorks(w.first(k)) && HeldFor(ks, key.fingerprint) != []
    requires HeldFor(ks, key.fingerprint)[0].Text? && key.passphrase == Some(HeldFor(ks, key.fingerprint)[0].text)
    requires ks.Locker? ==> HeldFor(ks, key.fingerprint)[0].text != ""
    ensures var l := LoadKey(w, path, key, Auto, ks, k);
            l.result == Ok(key.fingerprint) && !l.prompted && l.ks == ks && l.message.Silent?
  {
    hide AutoUnlockStep, HeldFor, Consistent, Step;
    WorkingUnlockIff(ks, key, w.first(k), w.second(k));
    AutoUnlockAnswers(ks, key, w.first(k), w.second(k));
  }

  // ------------------------------------------------- what the agent holds

  /** Some reported line says that a file of this key was added. */
  ghost predicate ReportedAdded(w: World, lines: seq<Line>, fp: string) {
    exists i :: 0 <= i < |lines| && lines[i].Added? && FileOf(w, lines[i].path, fp)
  }

  predicate FileOf(w: World, path: string, fp: string) {
    Parses(w, path) && w.files[path].key.fingerprint == fp
  }

  /** Exactly the keys reported as added are held under the constraints asked for; every other key
      is held as before, or not at all. */
  ghost predicate HeldAsAsked(w: World, b: Batch, agent: AgentKeys, c: Constraints) {
    forall fp: string ::
      && (fp in b.agent <==> fp in agent || ReportedAdded(w, b.lines, fp))
      && (fp in b.agent ==> b.agent[fp] == if ReportedAdded(w, b.lines, fp) then c else agent[fp])
  }

  lemma AddOneHolds(
    w: World, b: Batch, loaded: set<string>, path: string, mode: UnlockMode, c: Constraints, k: nat)
    requires b.failure.None?
    ensures var next := AddOne(w, b, loaded, path, mode, c, k);
            || (next.agent == b.agent && next.lines == b.lines)
            || (next.agent == b.agent && next.lines == b.lines + [AlreadyLoaded(path)])
            || (Parses(w, path) && next.agent == b.agent[w.files[path].key.fingerprint := c] &&
                next.lines == b.lines + [Added(path)])
  {
    hide LoadKey;
  }

  lemma ReportedSnoc(w: World, lines: seq<Line>, line: Line, fp: string)
    ensures ReportedAdded(w, lines + [line], fp) <==>
              ReportedAdded(w, lines, fp) || (line.Added? && FileOf(w, line.path, fp))
  {
    var all := lines + [line];
    if ReportedAdded(w, lines, fp) {
      var i :| 0 <= i < |lines| && lines[i].Added? && FileOf(w, lines[i].path, fp);
      assert all[i] == lines[i];
    }
    assert all[|lines|] == line;
  }

  lemma {:induction false} HeldAfterFirst(
    w: World, ks: Keystore, agent: AgentKeys, loaded: set<string>, paths: seq<string>, mode: UnlockMode,
    c: Constraints, k: nat)
    requires k <= |paths|
    ensures HeldAsAsked(w, AddFirst(w, Start(agent, ks), loaded, paths, mode, c, k), agent, c)
  {
    hide AddOne, ReportedAdded;
    if k == 0 {
      NothingReported(w, agent, ks, c);
    } else {
      HeldAfterFirst(w, ks, agent, loaded, paths, mode, c, k - 1);
      var b := AddFirst(w, Start(agent, ks), loaded, paths, mode, c, k - 1);
      if b.failure.None? {
        AddOneHolds(w, b, loaded, paths[k - 1], mode, c, k - 1);
        forall fp: string
          ensures ReportedAdded(w, b.lines + [Added(paths[k - 1])], fp) <==>
                    ReportedAdded(w, b.lines, fp) || FileOf(w, paths[k - 1], fp)
          ensures ReportedAdded(w, b.lines + [AlreadyLoaded(paths[k - 1])], fp) <==> ReportedAdded(w, b.lines, fp)
        {
          ReportedSnoc(w, b.lines, Added(paths[k - 1]), fp);
          ReportedSnoc(w, b.lines, AlreadyLoaded(paths[k - 1]), fp);
        }
      }
    }
  }

  lemma NothingReported(w: World, agent: AgentKeys, ks: Keystore, c: Constraints)
    ensures HeldAsAsked(w, Start(agent, ks), agent, c)
  {
  }

  /** After any batch, successful or not, each key of a path reported as added is held under exactly
      the lifetime and confirmation asked for, and every other key keeps what it had. */
  lemma AgentHoldsAsAsked(
    w: World, agent: AgentKeys, locked: bool, ks: Keystore, paths: seq<string>, mode: UnlockMode,
    c: Constraints)
    ensures HeldAsAsked(w, AddAll(w, agent, locked, ks, paths, mode, c), agent, c)
  {
    HeldAfterFirst(w, ks, agent, Snapshot(agent, locked), paths, mode, c, |paths|);
  }

  // ------------------------------------------------------ why a batch fails

  /** An error has its cause in the file, in what was typed, or in the agent. */
  ghost predicate Caused(w: World, path: string, e: AddError) {
    match e
    case CannotRead(p) => p == path && path !in w.files
    case CannotParse(p) => p == path && path in w.files && w.files[path].Garbage?
    case PromptFailed(p) => p == path && Parses(w, path) && w.files[path].key.passphrase.Some? && path !in w.typed
    case DecryptFailed(p) =>
      && p == path && Parses(w, path) && path in w.typed
      && w.files[path].key.passphrase.Some? && w.files[path].key.passphrase != Some(w.typed[path])
    case AgentRefused(p) => p == path && Parses(w, path) && w.files[path].key.fingerprint in w.refused
  }

  lemma {:induction false} FailureCaused(
    w: World, start: Batch, loaded: set<string>, paths: seq<string>, mode: UnlockMode, c: Constraints, k: nat)
    requires k <= |paths| && start.failure.None? && start.lines == []
    ensures var b := AddFirst(w, start, loaded, paths, mode, c, k);
            && |b.lines| <= k && (b.failure.None? ==> |b.lines| == k)
            && (b.failure.Some? ==> |b.lines| < k && Caused(w, paths[|b.lines|], b.failure.value))
  {
    hide LoadKey, AddOne;
    if k > 0 {
      FailureCaused(w, start, loaded, paths, mode, c, k - 1);
      var b := AddFirst(w, start, loaded, paths, mode, c, k - 1);
      if b.failure.None? {
        AddOneCaused(w, b, loaded, paths[k - 1], mode, c, k - 1);
      }
    }
  }

  lemma AddOneCaused(
    w: World, b: Batch, loaded: set<string>, path: string, mode: UnlockMode, c: Constraints, k: nat)
    requires b.failure.None?
    ensures var next := AddOne(w, b, loaded, path, mode, c, k);
            && (next.failure.None? ==> |next.lines| == |b.lines| + 1)
            && (next.failure.Some? ==> next.lines == b.lines && Caused(w, path, next.failure.value))
  {
    hide LoadKey;
    if Parses(w, path) {
      LoadOutcome(w, path, w.files[path].key, mode, b.ks, k);
    }
  }

  /** A batch that fails has completed the paths before the one its error names, and the error has
      its cause there. */
  lemma FailureHasCause(
    w: World, agent: AgentKeys, locked: bool, ks: Keystore, paths: seq<string>, mode: UnlockMode,
    c: Constraints)
    ensures var b := AddAll(w, agent, locked, ks, paths, mode, c);
            b.failure.Some? ==> |b.lines| < |paths| && Caused(w, paths[|b.lines|], b.failure.value)
  {
    FailureCaused(w, Start(agent, ks), Snapshot(agent, locked), paths, mode, c, |paths|);
  }

  // ------------------------------------------- batches with typed passphrases

  /** The path asks for a passphrase: its key is encrypted and not passed over. */
  predicate Asks(w: World, path: string, loaded: set<string>) {
    Parses(w, path) && w.files[path].key.fingerprint !in loaded && w.files[path].key.passphrase.Some?
  }

  /** Typing alone loads the path, or it is passed over. */
  predicate LoadsTyped(w: World, path: string, loaded: set<string>) {
    && Parses(w, path)
    && (|| w.files[path].key.fingerprint in loaded
        || (&& (Asks(w, path, loaded) ==> path in w.typed && w.files[path].key.passphrase == Some(w.typed[path]))
            && w.files[path].key.fingerprint !in w.refused))
  }

  /** The paths that ask, in order. */
  function Asking(w: World, paths: seq<string>, loaded: set<string>): seq<string> {
    if paths == [] then []
    else (if Asks(w, paths[0], loaded) then [paths[0]] else []) + Asking(w, paths[1..], loaded)
  }

  lemma {:induction false} AskingSnoc(w: World, paths: seq<string>, path: string, loaded: set<string>)
    ensures Asking(w, paths + [path], loaded) ==
            Asking(w, paths, loaded) + if Asks(w, path, loaded) then [path] else []
  {
    if paths == [] {
      assert paths + [path] == [path];
      assert [path][1..] == [];
    } else {
      AskingSnoc(w, paths[1..], path, loaded);
      assert (paths + [path])[1..] == paths[1..] + [path];
    }
  }

  lemma AddOneTyped(w: World, b: Batch, loaded: set<string>, path: string, c: Constraints, k: nat)
    requires b.failure.None?
    ensures var next := AddOne(w, b, loaded, path, Disabled, c, k);
            && (next.failure.None? <==> LoadsTyped(w, path, loaded))
            && next.prompts == b.prompts + (if Asks(w, path, loaded) then [path] else [])
            && next.ks == b.ks && next.messages == b.messages
  {
    hide LoadKey;
    if Parses(w, path) {
      LoadOutcome(w, path, w.files[path].key, Disabled, b.ks, k);
    }
  }

  lemma {:induction false} TypedFirst(
    w: World, ks: Keystore, agent: AgentKeys, loaded: set<string>, paths: seq<string>, c: Constraints, k: nat)
    requires k <= |paths|
    ensures var b := AddFirst(w, Start(agent, ks), loaded, paths, Disabled, c, k);
            && (b.failure.None? <==> forall i :: 0 <= i < k ==> LoadsTyped(w, paths[i], loaded))
            && (b.failure.None? ==> b.prompts == Asking(w, paths[..k], loaded))
            && b.ks == ks && b.messages == []
  {
    hide AddOne, LoadsTyped, Asks;
    if k == 0 {
      assert paths[..0] == [];
    } else {
      TypedFirst(w, ks, agent, loaded, paths, c, k - 1);
      var b := AddFirst(w, Start(agent, ks), loaded, paths, Disabled, c, k - 1);
      if b.failure.None? {
        AddOneTyped(w, b, loaded, paths[k - 1], c, k - 1);
        AskingSnoc(w, paths[..k - 1], paths[k - 1], loaded);
        assert paths[..k] == paths[..k - 1] + [paths[k - 1]];
      }
    }
  }

  /** With biometrics off, a batch succeeds if and only if each of its files parses and is already
      loaded, or is unencrypted or rightly typed and not refused; it then asks for exactly the
      encrypted keys not loaded yet, in order, and never touches the vault. */
  lemma TypedBatchIff(w: World, agent: AgentKeys, locked: bool, ks: Keystore, paths: seq<string>, c: Constraints)
    ensures var b, loaded := AddAll(w, agent, locked, ks, paths, Disabled, c), if locked then {} else agent.Keys;
            && (b.failure.None? <==> forall i :: 0 <= i < |paths| ==> LoadsTyped(w, paths[i], loaded))
            && (b.failure.None? ==> b.prompts == Asking(w, paths, loaded))
            && b.ks == ks && b.messages == []
  {
    TypedFirst(w, ks, agent, if locked then {} else agent.Keys, paths, c, |paths|);
    assert paths[..|paths|] == paths;
  }

  // --------------------------------------------------------- the two lists

  /** The paths whose key is, or is not, among those passed over, in order. */
  function Kept(w: World, paths: seq<string>, passed: set<string>, inside: bool): seq<string> {
    if paths == [] then []
    else
      var rest := Kept(w, paths[1..], passed, inside);
      if Parses(w, paths[0]) && (w.files[paths[0]].key.fingerprint in passed) == inside then [paths[0]] + rest else rest
  }

  lemma {:induction false} KeptSnoc(w: World, paths: seq<string>, path: string, passed: set<string>, inside: bool)
    ensures Kept(w, paths + [path], passed, inside) ==
            Kept(w, paths, passed, inside) +
            if Parses(w, path) && (w.files[path].key.fingerprint in passed) == inside then [path] else []
  {
    if paths == [] {
      assert paths + [path] == [path];
      assert [path][1..] == [];
    } else {
      KeptSnoc(w, paths[1..], path, passed, inside);
      assert (paths + [path])[1..] == paths[1..] + [path];
    }
  }

  lemma {:induction false} ListsOfLines(w: World, lines: seq<Line>, paths: seq<string>, passed: set<string>)
    requires |lines| == |paths|
    requires forall i :: 0 <= i < |paths| ==>
               && Parses(w, paths[i])
               && lines[i] == if w.files[paths[i]].key.fingerprint in passed then AlreadyLoaded(paths[i])
                              else Added(paths[i])
    ensures AddedPaths(lines) == Kept(w, paths, passed, false) && LoadedPaths(lines) == Kept(w, paths, passed, true)
  {
    if lines != [] {
      var n := |lines| - 1;
      ListsOfLines(w, lines[..n], paths[..n], passed);
      KeptSnoc(w, paths[..n], paths[n], passed, false);
      KeptSnoc(w, paths[..n], paths[n], passed, true);
      assert paths == paths[..n] + [paths[n]];
    }
  }

  /** The lists reported by a successful batch: the paths whose key was not loaded, and those whose
      key was, each in the order given; enrolling passes none over. */
  lemma SuccessLists(
    w: World, agent: AgentKeys, locked: bool, ks: Keystore, paths: seq<string>, mode: UnlockMode,
    c: Constraints)
    requires AddAll(w, agent, locked, ks, paths, mode, c).failure.None?
    ensures var lines, passed :=
              AddAll(w, agent, locked, ks, paths, mode, c).lines,
              if mode.Enroll? || locked then {} else agent.Keys;
            && AddedPaths(lines) == Kept(w, paths, passed, false)
            && LoadedPaths(lines) == Kept(w, paths, passed, true)
  {
    SuccessPartitions(w, agent, locked, ks, paths, mode, c);
    ListsOfLines(w, AddAll(w, agent, locked, ks, paths, mode, c).lines, paths,
                 if mode.Enroll? || locked then {} else agent.Keys);
  }
}
