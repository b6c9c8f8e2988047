/** Loading keys into the agent: the batch loop that `gitway agent add` and `gitway-add` each
    have, and the specification both meet. */
module AddKeys {
  import opened Wrappers
  import opened Biometric
  import opened Keystores
  import opened Keys
  import opened Unlock

  /** How a key is held: its lifetime and whether each use must be confirmed. */
  datatype Constraints = Constraints(lifetime: Option<nat>, confirm: bool)

  type AgentKeys = map<string, Constraints>

  datatype AddError =
    | CannotRead(path: string)
    | CannotParse(path: string)
    | PromptFailed(path: string)
    | DecryptFailed(path: string)
    | AgentRefused(path: string)

  datatype FileContent = Garbage | KeyContent(key: KeyFile)

  /** What one batch meets: the files, what is typed for each path, the keys the agent declines,
      and the platform's behaviour during the k-th load. */
  datatype World = World(
    files: map<string, FileContent>,
    typed: map<string, string>,
    refused: set<string>,
    first: nat -> Platform,
    second: nat -> Platform)

  datatype Line = Added(path: string) | AlreadyLoaded(path: string)

  /** What is said of biometric unlock while a key is loaded. */
  datatype Message = Silent | Enrolled | EnrollFailed | RemovedStale

  /** Everything the batch touches. */
  datatype Batch = Batch(
    agent: AgentKeys, ks: Keystore, prompts: seq<string>, messages: seq<Message>, lines: seq<Line>,
    failure: Option<AddError>)

  function Start(agent: AgentKeys, ks: Keystore): Batch {
    Batch(agent, ks, [], [], [], None)
  }

  // ---------------------------------------------------------- one key

  datatype Loaded = Loaded(ks: Keystore, prompted: bool, message: Message, result: Result<string, AddError>)

  function Typed(w: World, path: string, key: KeyFile, ks: Keystore): Loaded {
    Loaded(ks, true, Silent,
           if path !in w.typed then Err(PromptFailed(path))
           else if Decrypts(key, w.typed[path]) then Ok(key.fingerprint)
           else Err(DecryptFailed(path)))
  }

  /** Decrypting one parsed key under an unlock mode; the result is the private key, named by
      its fingerprint. */
  function LoadKey(w: World, path: string, key: KeyFile, mode: UnlockMode, ks: Keystore, k: nat): Loaded {
    if !Encrypted(key) then Loaded(ks, false, Silent, Ok(key.fingerprint))
    else
      match mode
      case Disabled => Typed(w, path, key, ks)
      case Enroll =>
        var t := Typed(w, path, key, ks);
        if t.result.Err? then t
        else
          var (ks', r) := Step(ks, Store(key.fingerprint, w.typed[path]), w.first(k));
          t.(ks := ks', message := if r.Done? then Enrolled else EnrollFailed)
      case Auto =>
        var (ks', r) := AutoUnlockStep(ks, key, w.first(k), w.second(k));
        if r.Passphrase? then Loaded(ks', false, Silent, Ok(key.fingerprint))
        else Typed(w, path, key, ks').(message := if r.Stale? then RemovedStale else Silent)
  }

  // ---------------------------------------------------------- the batch

  /** The batch once a key has been decrypted, or has not. */
  function Met(b: Batch, l: Loaded, path: string): Batch {
    b.(ks := l.ks, prompts := if l.prompted then b.prompts + [path] else b.prompts,
       messages := if l.message.Silent? then b.messages else b.messages + [l.message])
  }

  /** The batch once the agent has been offered a decrypted key. */
  function Offered(w: World, b: Batch, path: string, fp: string, c: Constraints): Batch {
    if fp in w.refused then b.(failure := Some(AgentRefused(path)))
    else b.(agent := b.agent[fp := c], lines := b.lines + [Added(path)])
  }

  function LoadAndOffer(
    w: World, b: Batch, path: string, key: KeyFile, mode: UnlockMode, c: Constraints, k: nat): Batch
  {
    var l := LoadKey(w, path, key, mode, b.ks, k);
    if l.result.Err? then Met(b, l, path).(failure := Some(l.result.error))
    else Offered(w, Met(b, l, path), path, key.fingerprint, c)
  }

  /** Whether a key is passed over: re-adding it could only ask again, unless it is to be enrolled. */
  predicate PassedOver(key: KeyFile, loaded: set<string>, mode: UnlockMode) {
    !mode.Enroll? && key.fingerprint in loaded
  }

  /** One iteration. `loaded` is the listing taken once, before the loop. */
  function AddOne(
    w: World, b: Batch, loaded: set<string>, path: string, mode: UnlockMode, c: Constraints, k: nat): Batch
  {
    if path !in w.files then b.(failure := Some(CannotRead(path)))
    else if w.files[path].Garbage? then b.(failure := Some(CannotParse(path)))
    else
      var key := w.files[path].key;
      if PassedOver(key, loaded, mode) then b.(lines := b.lines + [AlreadyLoaded(path)])
      else
        LoadAndOffer(w, b, path, key, mode, c, k)
  }

  /** The batch after its first k paths; the first failure ends it. */
  function AddFirst(
    w: World, start: Batch, loaded: set<string>, paths: seq<string>, mode: UnlockMode, c: Constraints, k: nat): Batch
    requires k <= |paths|
  {
    if k == 0 then start
    else
      var b := AddFirst(w, start, loaded, paths, mode, c, k - 1);
      if b.failure.Some? then b else AddOne(w, b, loaded, paths[k - 1], mode, c, k - 1)
  }

  /** A locked agent cannot be listed, and then counts as empty. */
  function Snapshot(agent: AgentKeys, locked: bool): set<string> {
    if locked then {} else agent.Keys
  }

  function AddAll(
    w: World, agent: AgentKeys, locked: bool, ks: Keystore, paths: seq<string>, mode: UnlockMode, c: Constraints): Batch
  {
    AddFirst(w, Start(agent, ks), Snapshot(agent, locked), paths, mode, c, |paths|)
  }

  function AddedPaths(lines: seq<Line>): seq<string> {
    if lines == [] then []
    else
      var front := AddedPaths(lines[..|lines| - 1]);
      if lines[|lines| - 1].Added? then front + [lines[|lines| - 1].path] else front
  }

  function LoadedPaths(lines: seq<Line>): seq<string> {
    if lines == [] then []
    else
      var front := LoadedPaths(lines[..|lines| - 1]);
      if lines[|lines| - 1].AlreadyLoaded? then front + [lines[|lines| - 1].path] else front
  }

  lemma {:induction false} FailureIsFinal(
    w: World, start: Batch, loaded: set<string>, paths: seq<string>, mode: UnlockMode, c: Constraints, j: nat, k: nat)
    requires j <= k <= |paths|
    requires AddFirst(w, start, loaded, paths, mode, c, j).failure.Some?
    ensures AddFirst(w, start, loaded, paths, mode, c, k) == AddFirst(w, start, loaded, paths, mode, c, j)
  {
    if j < k {
      FailureIsFinal(w, start, loaded, paths, mode, c, j, k - 1);
    }
  }

  lemma NothingAdded(
    w: World, start: Batch, loaded: set<string>, paths: seq<string>, mode: UnlockMode, c: Constraints)
    ensures AddFirst(w, start, loaded, paths, mode, c, 0) == start
  {
  }

  lemma OneMore(
    w: World, start: Batch, loaded: set<string>, paths: seq<string>, mode: UnlockMode, c: Constraints, k: nat)
    requires k < |paths| && AddFirst(w, start, loaded, paths, mode, c, k).failure.None?
    ensures var next := AddOne(w, AddFirst(w, start, loaded, paths, mode, c, k), loaded, paths[k], mode, c, k);
            && AddFirst(w, start, loaded, paths, mode, c, k + 1) == next
            && (next.failure.Some? ==> AddFirst(w, start, loaded, paths, mode, c, |paths|) == next)
  {
    if AddFirst(w, start, loaded, paths, mode, c, k + 1).failure.Some? {
      FailureIsFinal(w, start, loaded, paths, mode, c, k + 1, |paths|);
    }
  }

  lemma NoLines()
    ensures AddedPaths([]) == [] && LoadedPaths([]) == []
  {
  }

  // -------------------------------------------------- the two implementations

  /** What both programs hold while adding: the agent connection, the vault and the terminal. */
  class Session {
    var agent: AgentKeys
    const locked: bool
    const vault: VaultHandle
    var prompts: seq<string>
    var messages: seq<Message>
    var output: seq<Line>

    constructor (agent: AgentKeys, locked: bool, vault: VaultHandle)
      ensures this.agent == agent && this.locked == locked && this.vault == vault
      ensures prompts == [] && messages == [] && output == []
    {
      this.agent, this.locked, this.vault := agent, locked, vault;
      prompts, messages, output := [], [], [];
    }

    /** The session is where the batch is, its prompts and messages added to those before. */
    predicate Shows(b: Batch, prompts0: seq<string>, messages0: seq<Message>)
      reads this, vault.Objects()
    {
      && agent == b.agent && vault.Contents() == b.ks
      && prompts == prompts0 + b.prompts && messages == messages0 + b.messages
    }

    /** The identities held, or nothing when the agent cannot be listed. */
    method ListOrDefault() returns (r: set<string>)
      ensures r == Snapshot(agent, locked)
    {
      if locked {
        return {};
      }
      r := agent.Keys;
    }

    method PromptFor(w: World, path: string) returns (r: Result<string, AddError>)
      modifies this`prompts
      ensures prompts == old(prompts) + [path]
      ensures r == if path in w.typed then Ok(w.typed[path]) else Err(PromptFailed(path))
    {
      prompts := prompts + [path];
      if path !in w.typed {
        return Err(PromptFailed(path));
      }
      r := Ok(w.typed[path]);
    }

    method PromptAndDecrypt(w: World, path: string, key: KeyFile) returns (r: Result<string, AddError>)
      modifies this`prompts
      ensures prompts == old(prompts) + [path]
      ensures r == Typed(w, path, key, vault.Contents()).result
    {
      var pp := PromptFor(w, path);
      if pp.Err? {
        return Err(pp.error);
      }
      if !Decrypts(key, pp.value) {
        return Err(DecryptFailed(path));
      }
      r := Ok(key.fingerprint);
    }

    /** `load_private_key` of the native command and `load_and_decrypt` of the shim. */
    method LoadPrivateKey(w: World, path: string, key: KeyFile, mode: UnlockMode, k: nat)
      returns (r: Result<string, AddError>)
      modifies this`prompts, this`messages, vault.Objects()
      ensures var l := LoadKey(w, path, key, mode, old(vault.Contents()), k);
              && vault.Contents() == l.ks && r == l.result
              && prompts == (if l.prompted then old(prompts) + [path] else old(prompts))
              && messages == if l.message.Silent? then old(messages) else old(messages) + [l.message]
      ensures r.Ok? ==> r.value == key.fingerprint
    {
      if !Encrypted(key) {
        return Ok(key.fingerprint);
      }
      match mode {
        case Disabled => r := PromptAndDecrypt(w, path, key);
        case Enroll =>
          r := PromptAndDecrypt(w, path, key);
          if r.Ok? {
            var reply := vault.Perform(Store(key.fingerprint, w.typed[path]), w.first(k));
            messages := messages + [if reply.Done? then Enrolled else EnrollFailed];
          }
        case Auto =>
          var unlocked := AutoUnlockPassphrase(vault, key, w.first(k), w.second(k));
          if unlocked.Passphrase? {
            return Ok(key.fingerprint);
          }
          if unlocked.Stale? {
            messages := messages + [RemovedStale];
          }
          r := PromptAndDecrypt(w, path, key);
      }
    }

    method AgentAdd(w: World, path: string, fp: string, c: Constraints) returns (r: Result<(), AddError>)
      modifies this`agent
      ensures fp in w.refused ==> agent == old(agent) && r == Err(AgentRefused(path))
      ensures fp !in w.refused ==> agent == old(agent)[fp := c] && r == Ok(())
      ensures vault.Contents() == old(vault.Contents())
    {
      if fp in w.refused {
        return Err(AgentRefused(path));
      }
      agent := agent[fp := c];
      r := Ok(());
    }

    /** Decrypting one key and handing it to the agent. */
    method LoadAndAdd(
      w: World, path: string, key: KeyFile, mode: UnlockMode, c: Constraints, k: nat,
      ghost b: Batch, ghost prompts0: seq<string>, ghost messages0: seq<Message>)
      returns (r: Result<(), AddError>)
      requires Shows(b, prompts0, messages0) && b.failure.None?
      modifies this`agent, this`prompts, this`messages, vault.Objects()
      ensures var next := LoadAndOffer(w, b, path, key, mode, c, k);
              && Shows(next, prompts0, messages0)
              && r == (if next.failure.Some? then Err(next.failure.value) else Ok(()))
              && next.lines == if r.Ok? then b.lines + [Added(path)] else b.lines
    {
      hide LoadKey, vault.Contents;
      var decrypted := LoadPrivateKey(w, path, key, mode, k);
      assert Shows(Met(b, LoadKey(w, path, key, mode, b.ks, k), path), prompts0, messages0);
      if decrypted.Err? {
        return Err(decrypted.error);
      }
      r := AgentAdd(w, path, decrypted.value, c);
    }

    /** `gitway agent add`: both lists are reported together, after a successful loop. */
    method RunAdd(w: World, paths: seq<string>, mode: UnlockMode, c: Constraints)
      returns (r: Result<(seq<string>, seq<string>), AddError>)
      modifies this`agent, this`prompts, this`messages, vault.Objects()
      ensures var b := AddAll(w, old(agent), locked, old(vault.Contents()), paths, mode, c);
              && Shows(b, old(prompts), old(messages))
              && (r.Ok? <==> b.failure.None?)
              && (r.Ok? ==> r.value == (AddedPaths(b.lines), LoadedPaths(b.lines)))
              && (r.Err? ==> Some(r.error) == b.failure)
    {
      hide LoadAndOffer, AddFirst, AddedPaths, LoadedPaths, vault.Contents;
      NoLines();
      var loaded := ListOrDefault();
      var added: seq<string>, alreadyLoaded: seq<string> := [], [];
      ghost var start := Start(agent, vault.Contents());
      ghost var b := start;
      ghost var all := AddFirst(w, start, loaded, paths, mode, c, |paths|);
      assert all == AddAll(w, agent, locked, vault.Contents(), paths, mode, c);
      hide AddAll, Snapshot;
      NothingAdded(w, start, loaded, paths, mode, c);
      for k := 0 to |paths|
        invariant b == AddFirst(w, start, loaded, paths, mode, c, k)
        invariant b.failure.None?
        invariant Shows(b, old(prompts), old(messages))
        invariant added == AddedPaths(b.lines) && alreadyLoaded == LoadedPaths(b.lines)
      {
        var path := paths[k];
        ghost var next := AddOne(w, b, loaded, path, mode, c, k);
        OneMore(w, start, loaded, paths, mode, c, k);
        assert next.failure.Some? ==> all == next;
        if path !in w.files {
          return Err(CannotRead(path));
        }
        if w.files[path].Garbage? {
          return Err(CannotParse(path));
        }
        var key := w.files[path].key;
        LinesGrow(b.lines, path);
        if !mode.Enroll? && key.fingerprint in loaded {
          alreadyLoaded := alreadyLoaded + [path];
          b := next;
          continue;
        }
        var held := LoadAndAdd(w, path, key, mode, c, k, b, old(prompts), old(messages));
        if held.Err? {
          return Err(held.error);
        }
        added := added + [path];
        b := next;
      }
      r := Ok((added, alreadyLoaded));
    }

    /** `gitway-add`: one line per key as it goes, kept even when a later key fails. */
    method Add(w: World, paths: seq<string>, mode: UnlockMode, c: Constraints)
      returns (r: Result<(), AddError>)
      modifies this`agent, this`prompts, this`messages, this`output, vault.Objects()
      ensures var b := AddAll(w, old(agent), locked, old(vault.Contents()), paths, mode, c);
              && Shows(b, old(prompts), old(messages))
              && output == old(output) + b.lines
              && r == if b.failure.None? then Ok(()) else Err(b.failure.value)
    {
      hide LoadAndOffer, AddFirst, AddedPaths, LoadedPaths, vault.Contents;
      NoLines();
      var loaded := ListOrDefault();
      ghost var start := Start(agent, vault.Contents());
      ghost var b := start;
      ghost var all := AddFirst(w, start, loaded, paths, mode, c, |paths|);
      assert all == AddAll(w, agent, locked, vault.Contents(), paths, mode, c);
      hide AddAll, Snapshot;
      NothingAdded(w, start, loaded, paths, mode, c);
      for k := 0 to |paths|
        invariant b == AddFirst(w, start, loaded, paths, mode, c, k)
        invariant b.failure.None?
        invariant Shows(b, old(prompts), old(messages))
        invariant output == old(output) + b.lines
      {
        var path := paths[k];
        ghost var next := AddOne(w, b, loaded, path, mode, c, k);
        OneMore(w, start, loaded, paths, mode, c, k);
        assert next.failure.Some? ==> all == next;
        if path !in w.files {
          return Err(CannotRead(path));
        }
        if w.files[path].Garbage? {
          return Err(CannotParse(path));
        }
        var key := w.files[path].key;
        if !mode.Enroll? {
          if key.fingerprint in loaded {
            output := output + [AlreadyLoaded(path)];
            b := next;
            continue;
          }
        }
        var held := LoadAndAdd(w, path, key, mode, c, k, b, old(prompts), old(messages));
        if held.Err? {
          return Err(held.error);
        }
        output := output + [Added(path)];
        b := next;
      }
      r := Ok(());
    }
  }

  lemma LinesGrow(lines: seq<Line>, path: string)
    ensures AddedPaths(lines + [Added(path)]) == AddedPaths(lines) + [path]
    ensures AddedPaths(lines + [AlreadyLoaded(path)]) == AddedPaths(lines)
    ensures LoadedPaths(lines + [Added(path)]) == LoadedPaths(lines)
    ensures LoadedPaths(lines + [AlreadyLoaded(path)]) == LoadedPaths(lines) + [path]
  {
    assert (lines + [Added(path)])[..|lines|] == lines;
    assert (lines + [AlreadyLoaded(path)])[..|lines|] == lines;
  }
}
