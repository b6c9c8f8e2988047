/** The passphrase flow of a Git transport run: probe for the identity, ask before connecting if
    no agent can help, connect, authenticate, and ask once more only if that flow allows it. */
module Transport {
  import opened Wrappers
  import opened Biometric
  import opened Keystores
  import opened Keys
  import opened Unlock
  import H = History

  /** What looking for an identity key finds. */
  datatype Identity = NotFound | Clear(path: string) | Locked(path: string)

  datatype BestOutcome = AuthOk | KeyIsEncrypted | NoKeyOffered | AuthBroken

  datatype RunError =
    | IdentityLookupFailed | PromptFailed | ConnectFailed
    | NoKeyFound | ServerRefused | AuthFailed | ExecFailed | CloseFailed

  type Outcome = Result<(), RunError>

  /** Everything the run meets. Lookups and agent probes are numbered in the order they are made,
      since their answers may change while the run lasts. */
  datatype World = World(
    unix: bool,
    lookup: nat -> Result<Identity, ()>,
    agentHolds: nat -> bool,
    connects: bool,
    best: BestOutcome,
    accepted: set<(string, string)>,
    files: map<string, KeyFile>,
    typed: map<string, string>,
    f: Platform, g: Platform,
    execs: bool, closes: bool, json: bool)

  /** What an observer sees. */
  datatype Note =
    | Probed(found: bool)
    | Unlocked(path: string, passphrase: string)
    | RemovedStale(path: string)
    | Typed(path: string, connected: bool)
    | Connected
    | Offered(path: string, passphrase: string)

  /** A released passphrase, or else a typed one. The vault is asked for any key file that parses,
      encrypted or not. */
  function AskPassphrase(w: World, path: string, connected: bool, ks: Keystore)
    : (Keystore, seq<Note>, Result<string, RunError>)
  {
    var (ks', unlocked) :=
      if path in w.files then AutoUnlockStep(ks, w.files[path], w.f, w.g) else (ks, Fallback);
    if unlocked.Passphrase? then (ks', [Unlocked(path, unlocked.passphrase)], Ok(unlocked.passphrase))
    else
      (ks', (if unlocked.Stale? then [RemovedStale(path)] else []) + [Typed(path, connected)],
       if path in w.typed then Ok(w.typed[path]) else Err(PromptFailed))
  }

  /** `maybe_collect_passphrase`: None leaves authentication to the normal flow. */
  function MaybeCollect(w: World, ks: Keystore): (Keystore, seq<Note>, Result<Option<(string, string)>, RunError>) {
    match w.lookup(0)
    case Err(_) => (ks, [], Err(IdentityLookupFailed))
    case Ok(NotFound) => (ks, [], Ok(None))
    case Ok(Clear(_)) => (ks, [], Ok(None))
    case Ok(Locked(path)) =>
      if w.unix && w.agentHolds(0) then (ks, [Probed(true)], Ok(None))
      else
        var (ks', notes, pp) := AskPassphrase(w, path, false, ks);
        var probed := if w.unix then [Probed(false)] else [];
        (ks', probed + notes, if pp.Ok? then Ok(Some((pp.value, path))) else Err(pp.error))
  }

  function Offer(w: World, path: string, pp: string): Outcome {
    if (path, pp) in w.accepted then Ok(()) else Err(AuthFailed)
  }

  /** `authenticate_with_prompt`: only an encrypted key leads to a prompt; "no key" is called a
      refusal when some key was available. */
  function Authenticate(w: World, ks: Keystore): (Keystore, seq<Note>, Outcome) {
    match w.best
    case AuthOk => (ks, [], Ok(()))
    case AuthBroken => (ks, [], Err(AuthFailed))
    case NoKeyOffered =>
      var onDisk := w.lookup(1).Ok? && !w.lookup(1).value.NotFound?;
      (ks, [], if onDisk || (w.unix && w.agentHolds(1)) then Err(ServerRefused) else Err(NoKeyFound))
    case KeyIsEncrypted =>
      match w.lookup(1)
      case Err(_) => (ks, [], Err(IdentityLookupFailed))
      case Ok(NotFound) => (ks, [], Err(NoKeyFound))
      case Ok(Clear(_)) => (ks, [], Err(NoKeyFound))
      case Ok(Locked(path)) =>
        var (ks', notes, pp) := AskPassphrase(w, path, true, ks);
        if pp.Err? then (ks', notes, Err(pp.error))
        else (ks', notes + [Offered(path, pp.value)], Offer(w, path, pp.value))
  }

  /** Up to and including authentication; `reached` says whether the session was connected. */
  function Login(w: World, ks: Keystore): (Keystore, seq<Note>, bool, Outcome) {
    var (ks1, before, collected) := MaybeCollect(w, ks);
    if collected.Err? then (ks1, before, false, Err(collected.error))
    else if !w.connects then (ks1, before, false, Err(ConnectFailed))
    else if collected.value.Some? then
      var (pp, path) := collected.value.value;
      (ks1, before + [Connected, Offered(path, pp)], true, Offer(w, path, pp))
    else
      var (ks2, after, r) := Authenticate(w, ks1);
      (ks2, before + ([Connected] + after), true, r)
  }

  /** `run_exec` */
  function Exec(w: World, ks: Keystore): (Keystore, seq<Note>, Outcome) {
    var (ks', notes, reached, r) := Login(w, ks);
    (ks', notes,
     if r.Err? then r else if !w.execs then Err(ExecFailed) else if !w.closes then Err(CloseFailed) else Ok(()))
  }

  predicate Reportable(r: Outcome) {
    r.Err? && !r.error.NoKeyFound?
  }

  /** `run_test`: a missing key is reported but is not a failure. For a person an authentication
      error is returned whether or not closing works; as JSON it is returned after closing. */
  function Test(w: World, ks: Keystore): (Keystore, seq<Note>, Outcome) {
    var (ks', notes, reached, r) := Login(w, ks);
    (ks', notes,
     if !reached || (!w.json && Reportable(r)) then r
     else if !w.closes then Err(CloseFailed)
     else if Reportable(r) then r
     else Ok(()))
  }

  // ---------------------------------------------------------------- the code

  class Session {
    const vault: VaultHandle
    var notes: seq<Note>
    var connected: bool

    constructor (vault: VaultHandle)
      ensures this.vault == vault && notes == [] && !connected
    {
      this.vault, notes, connected := vault, [], false;
    }

    method PromptPassphrase(w: World, path: string) returns (r: Result<string, RunError>)
      modifies this`notes, vault.Objects()
      ensures var (ks, more, pp) := AskPassphrase(w, path, connected, old(vault.Contents()));
              vault.Contents() == ks && notes == old(notes) + more && r == pp
    {
      if path in w.files {
        var unlocked := AutoUnlockPassphrase(vault, w.files[path], w.f, w.g);
        if unlocked.Passphrase? {
          notes := notes + [Unlocked(path, unlocked.passphrase)];
          return Ok(unlocked.passphrase);
        }
        if unlocked.Stale? {
          notes := notes + [RemovedStale(path)];
        }
      }
      notes := notes + [Typed(path, connected)];
      if path !in w.typed {
        return Err(PromptFailed);
      }
      r := Ok(w.typed[path]);
    }

    method MaybeCollectPassphrase(w: World) returns (r: Result<Option<(string, string)>, RunError>)
      requires !connected
      modifies this`notes, vault.Objects()
      ensures var (ks, more, collected) := MaybeCollect(w, old(vault.Contents()));
              vault.Contents() == ks && notes == old(notes) + more && r == collected
    {
      hide AskPassphrase;
      var found := w.lookup(0);
      if found.Err? {
        return Err(IdentityLookupFailed);
      }
      if !found.value.Locked? {
        return Ok(None);
      }
      if w.unix {
        var holds := w.agentHolds(0);
        notes := notes + [Probed(holds)];
        if holds {
          return Ok(None);
        }
      }
      var pp := PromptPassphrase(w, found.value.path);
      if pp.Err? {
        return Err(pp.error);
      }
      r := Ok(Some((pp.value, found.value.path)));
    }

    method AuthenticateWithPrompt(w: World) returns (r: Outcome)
      requires connected
      modifies this`notes, vault.Objects()
      ensures var (ks, more, outcome) := Authenticate(w, old(vault.Contents()));
              vault.Contents() == ks && notes == old(notes) + more && r == outcome
    {
      hide AskPassphrase;
      match w.best {
        case AuthOk => return Ok(());
        case AuthBroken => return Err(AuthFailed);
        case NoKeyOffered =>
          var found := w.lookup(1);
          var holds := w.unix && w.agentHolds(1);
          if (found.Ok? && !found.value.NotFound?) || holds {
            return Err(ServerRefused);
          }
          return Err(NoKeyFound);
        case KeyIsEncrypted =>
      }
      var found := w.lookup(1);
      if found.Err? {
        return Err(IdentityLookupFailed);
      }
      if !found.value.Locked? {
        return Err(NoKeyFound);
      }
      var path := found.value.path;
      var pp := PromptPassphrase(w, path);
      if pp.Err? {
        return Err(pp.error);
      }
      notes := notes + [Offered(path, pp.value)];
      r := Offer(w, path, pp.value);
    }

    /** The common part of both runs. */
    method LogIn(w: World) returns (r: Outcome)
      requires !connected
      modifies this, vault.Objects()
      ensures var (ks, more, reached, outcome) := Login(w, old(vault.Contents()));
              vault.Contents() == ks && notes == old(notes) + more && connected == reached && r == outcome
    {
      hide AskPassphrase, MaybeCollect, Authenticate;
      var collected := MaybeCollectPassphrase(w);
      if collected.Err? {
        return Err(collected.error);
      }
      if !w.connects {
        return Err(ConnectFailed);
      }
      connected := true;
      ghost var before := notes;
      notes := notes + [Connected];
      if collected.value.Some? {
        var (pp, path) := collected.value.value;
        notes := notes + [Offered(path, pp)];
        return Offer(w, path, pp);
      }
      r := AuthenticateWithPrompt(w);
    }

    method RunExec(w: World) returns (r: Outcome)
      requires !connected
      modifies this, vault.Objects()
      ensures var (ks, more, outcome) := Exec(w, old(vault.Contents()));
              vault.Contents() == ks && notes == old(notes) + more && r == outcome
    {
      hide Login;
      r := LogIn(w);
      if r.Err? {
        return;
      }
      if !w.execs {
        return Err(ExecFailed);
      }
      if !w.closes {
        return Err(CloseFailed);
      }
      r := Ok(());
    }

    method RunTest(w: World) returns (r: Outcome)
      requires !connected
      modifies this, vault.Objects()
      ensures var (ks, more, outcome) := Test(w, old(vault.Contents()));
              vault.Contents() == ks && notes == old(notes) + more && r == outcome
    {
      hide Login;
      r := LogIn(w);
      if !connected {
        return;
      }
      if !w.json && Reportable(r) {
        return;
      }
      if !w.closes {
        return Err(CloseFailed);
      }
      if w.json && Reportable(r) {
        return;
      }
      r := Ok(());
    }
  }

  // -------------------------------------------------------------------- laws

  function TypedCount(notes: seq<Note>): nat {
    if notes == [] then 0
    else TypedCount(notes[..|notes| - 1]) + if notes[|notes| - 1].Typed? then 1 else 0
  }

  lemma {:induction false} TypedCountAppend(a: seq<Note>, b: seq<Note>)
    ensures TypedCount(a + b) == TypedCount(a) + TypedCount(b)
  {
    if b == [] {
      assert a + b == a;
    } else {
      TypedCountAppend(a, b[..|b| - 1]);
      assert (a + b)[..|a + b| - 1] == a + b[..|b| - 1];
    }
  }

  lemma TypedCountOne(n: Note)
    ensures TypedCount([n]) == if n.Typed? then 1 else 0
  {
    assert [n][..0] == [];
  }

  lemma ReleasedDecrypts(ks: Keystore, key: KeyFile, f: Platform, g: Platform)
    ensures var r := AutoUnlockStep(ks, key, f, g).1; r.Passphrase? ==> Decrypts(key, r.passphrase)
  {
  }

  lemma PromptAsksOnce(w: World, path: string, connected: bool, ks: Keystore)
    ensures TypedCount(AskPassphrase(w, path, connected, ks).1) <= 1
    ensures forall n :: n in AskPassphrase(w, path, connected, ks).1 ==>
              (n.Typed? ==> n == Typed(path, connected)) &&
              (n.Unlocked? ==> n.path in w.files && Decrypts(w.files[n.path], n.passphrase)) &&
              (n.Typed? || n.Unlocked? || n.RemovedStale?)
  {
    hide AutoUnlockStep, TypedCount;
    if path in w.files {
      ReleasedDecrypts(ks, w.files[path], w.f, w.g);
    }
    TypedCountOne(Typed(path, connected));
    TypedCountOne(RemovedStale(path));
    TypedCountAppend([RemovedStale(path)], [Typed(path, connected)]);
    assert [] + [Typed(path, connected)] == [Typed(path, connected)];
    forall pp ensures TypedCount([Unlocked(path, pp)]) == 0 {
      TypedCountOne(Unlocked(path, pp));
    }
  }

  /** What asking does to the vault is what the history of the vault records for a transport run,
      and a removed stale enrollment is reported exactly when a stale result is noted. */
  lemma AskIsHistoryEvent(w: World, path: string, connected: bool, ks: Keystore)
    requires path in w.files
    ensures var (s', n) := H.Advance(H.System(w.files, ks), H.TransportUnlock(path, w.f, w.g));
            var (ks', notes, _) := AskPassphrase(w, path, connected, ks);
            && s' == H.System(w.files, ks')
            && (RemovedStale(path) in notes <==> n.FoundStale?)
            && (n.FoundStale? ==> n.fingerprint == w.files[path].fingerprint)
            && (n.FoundStale? || n.Quiet?)
  {
    hide AutoUnlockStep, Step;
  }

  lemma CollectAsksOnce(w: World, ks: Keystore)
    ensures var (ks', notes, r) := MaybeCollect(w, ks);
            && TypedCount(notes) <= 1
            && (r.Ok? && r.value.None? ==> TypedCount(notes) == 0)
  {
    hide AskPassphrase;
    forall b: bool ensures TypedCount([Probed(b)]) == 0 {
      TypedCountOne(Probed(b));
    }
    if w.lookup(0).Ok? && w.lookup(0).value.Locked? {
      var path := w.lookup(0).value.path;
      PromptAsksOnce(w, path, false, ks);
      TypedCountAppend(if w.unix then [Probed(false)] else [], AskPassphrase(w, path, false, ks).1);
    }
  }

  lemma AuthenticateAsksOnce(w: World, ks: Keystore)
    ensures TypedCount(Authenticate(w, ks).1) <= 1
  {
    hide AskPassphrase;
    if w.best.KeyIsEncrypted? && w.lookup(1).Ok? && w.lookup(1).value.Locked? {
      var path := w.lookup(1).value.path;
      PromptAsksOnce(w, path, true, ks);
      var (_, notes, pp) := AskPassphrase(w, path, true, ks);
      if pp.Ok? {
        TypedCountOne(Offered(path, pp.value));
        TypedCountAppend(notes, [Offered(path, pp.value)]);
      }
    }
  }

  /** Every run, whatever is found, held, released, typed or refused, asks for at most one
      passphrase. */
  lemma AtMostOnePrompt(w: World, ks: Keystore)
    ensures TypedCount(Exec(w, ks).1) <= 1 && TypedCount(Test(w, ks).1) <= 1
    ensures Exec(w, ks).1 == Test(w, ks).1 == Login(w, ks).1
  {
    hide AskPassphrase, MaybeCollect, Authenticate;
    var (ks1, before, collected) := MaybeCollect(w, ks);
    CollectAsksOnce(w, ks);
    AuthenticateAsksOnce(w, ks1);
    var after := Authenticate(w, ks1).1;
    TypedCountOne(Connected);
    TypedCountAppend([Connected], after);
    TypedCountAppend(before, [Connected] + after);
    if collected.Ok? && collected.value.Some? {
      var (pp, path) := collected.value.value;
      TypedCountOne(Offered(path, pp));
      TypedCountAppend([Connected], [Offered(path, pp)]);
      assert [Connected] + [Offered(path, pp)] == [Connected, Offered(path, pp)];
      TypedCountAppend(before, [Connected, Offered(path, pp)]);
    }
  }

  /** What the vault answers when asked for this key file. */
  function VaultReply(w: World, path: string, ks: Keystore): Reply
    requires path in w.files
  {
    Step(ks, Retrieve(w.files[path].fingerprint), w.f).1
  }

  /** The vault releases a text that is this key file's passphrase. */
  predicate Gives(w: World, path: string, ks: Keystore) {
    && path in w.files && VaultReply(w, path, ks).Released?
    && w.files[path].passphrase == Some(VaultReply(w, path, ks).passphrase)
  }

  /** Asking for this key's passphrase ends in typing it. */
  predicate MustType(w: World, path: string, ks: Keystore) {
    !Gives(w, path, ks)
  }

  /** The passphrase that asking for a key gives: the one released, or else the one typed. */
  function Answer(w: World, path: string, ks: Keystore): Option<string> {
    if Gives(w, path, ks) then w.files[path].passphrase
    else if path in w.typed then Some(w.typed[path])
    else None
  }

  lemma AskAnswers(w: World, path: string, connected: bool, ks: Keystore)
    ensures var (_, notes, r) := AskPassphrase(w, path, connected, ks);
            && r == (if Answer(w, path, ks).Some? then Ok(Answer(w, path, ks).value) else Err(PromptFailed))
            && (Typed(path, connected) in notes <==> MustType(w, path, ks))
            && (forall n :: n in notes ==> !n.Offered? && !n.Connected? && !n.Probed?)
  {
    if path in w.files {
      AutoUnlockAnswers(ks, w.files[path], w.f, w.g);
    }
    hide AutoUnlockStep, Step;
  }

  /** Nothing was asked for before connecting, because no locked key was found or an agent holds an
      identity. */
  predicate NothingCollected(w: World) {
    w.lookup(0).Ok? && (w.lookup(0).value.Locked? ==> w.unix && w.agentHolds(0))
  }

  ghost predicate AsksLate(notes: seq<Note>) {
    exists n :: n in notes && n.Typed? && n.connected
  }

  /** A passphrase is typed after connecting if and only if none was collected before, the
      connection stands, authentication found an encrypted key, a locked key is then found, and the
      vault releases nothing that decrypts it. */
  lemma LatePromptIff(w: World, ks: Keystore)
    ensures AsksLate(Login(w, ks).1) <==>
              && NothingCollected(w) && w.connects && w.best.KeyIsEncrypted?
              && w.lookup(1).Ok? && w.lookup(1).value.Locked? && MustType(w, w.lookup(1).value.path, ks)
  {
    hide AskPassphrase, MustType, MaybeCollect, Authenticate, AsksLate, NothingCollected;
    var (ks1, before, collected) := MaybeCollect(w, ks);
    CollectAsksEarly(w, ks);
    AuthenticateAsksLate(w, ks1);
    LateInConcat(before, [Connected] + Authenticate(w, ks1).1);
    LateInConcat([Connected], Authenticate(w, ks1).1);
    NoteIsLate(Connected);
    if collected.Ok? && collected.value.Some? {
      var (pp, path) := collected.value.value;
      NoteIsLate(Offered(path, pp));
      LateInConcat(before, [Connected, Offered(path, pp)]);
      LateInConcat([Connected], [Offered(path, pp)]);
      assert [Connected] + [Offered(path, pp)] == [Connected, Offered(path, pp)];
    }
  }

  lemma LateInConcat(a: seq<Note>, b: seq<Note>)
    ensures AsksLate(a + b) <==> AsksLate(a) || AsksLate(b)
  {
    forall n | n in a || n in b ensures n in a + b {
    }
  }

  lemma NoteIsLate(n: Note)
    ensures AsksLate([n]) <==> n.Typed? && n.connected
  {
    assert n in [n];
  }

  lemma CollectAsksEarly(w: World, ks: Keystore)
    ensures var (ks', notes, r) := MaybeCollect(w, ks);
            && !AsksLate(notes)
            && (NothingCollected(w) <==> r == Ok(None))
            && (NothingCollected(w) ==> ks' == ks)
  {
    hide AskPassphrase;
    if w.lookup(0).Ok? && w.lookup(0).value.Locked? {
      PromptAsksOnce(w, w.lookup(0).value.path, false, ks);
    }
  }

  lemma AuthenticateAsksLate(w: World, ks: Keystore)
    ensures AsksLate(Authenticate(w, ks).1) <==>
              && w.best.KeyIsEncrypted? && w.lookup(1).Ok? && w.lookup(1).value.Locked?
              && MustType(w, w.lookup(1).value.path, ks)
  {
    if w.best.KeyIsEncrypted? && w.lookup(1).Ok? && w.lookup(1).value.Locked? {
      var path := w.lookup(1).value.path;
      var (_, notes, pp) := AskPassphrase(w, path, true, ks);
      AskMeaning(w, path, ks);
      hide AskPassphrase, MustType, AsksLate;
      if pp.Ok? {
        LateInConcat(notes, [Offered(path, pp.value)]);
        NoteIsLate(Offered(path, pp.value));
      }
    }
  }

  lemma AskMeaning(w: World, path: string, ks: Keystore)
    ensures AsksLate(AskPassphrase(w, path, true, ks).1) <==> MustType(w, path, ks)
  {
    hide AskPassphrase, MustType;
    PromptAsksOnce(w, path, true, ks);
    AskAnswers(w, path, true, ks);
  }

  ghost predicate StableDiscovery(w: World) {
    w.lookup(1) == w.lookup(0)
  }

  /** With stable key discovery, a passphrase is asked for after connecting only if the probe
      before connecting found an agent holding an identity. */
  lemma PromptAfterConnectingNeedsAgent(w: World, ks: Keystore, n: Note)
    requires StableDiscovery(w)
    requires n in Login(w, ks).1 && n.Typed? && n.connected
    ensures w.unix && w.agentHolds(0) && Probed(true) in Login(w, ks).1
  {
    hide AskPassphrase;
    var (ks1, before, collected) := MaybeCollect(w, ks);
    if w.lookup(0).Ok? && w.lookup(0).value.Locked? {
      PromptAsksOnce(w, w.lookup(0).value.path, false, ks);
      PromptAsksOnce(w, w.lookup(0).value.path, true, ks1);
    }
  }

  /** Without stable discovery it can be asked for after connecting though no agent was probed. */
  lemma UnstableDiscoveryPromptsLate(f: Platform)
    ensures var w := World(true, (k: nat) => if k == 0 then Ok(NotFound) else Ok(Locked("key")), (k: nat) => false,
                           true, KeyIsEncrypted, {}, map[], map[], f, f, true, true, false);
            Typed("key", true) in Exec(w, Keychain([])).1
  {
    var w := World(true, (k: nat) => if k == 0 then Ok(NotFound) else Ok(Locked("key")), (k: nat) => false,
                   true, KeyIsEncrypted, {}, map[], map[], f, f, true, true, false);
    assert w.lookup(0) == Ok(NotFound) && w.lookup(1) == Ok(Locked("key"));
    assert AskPassphrase(w, "key", true, Keychain([])).1 == [Typed("key", true)];
    assert Authenticate(w, Keychain([])).1 == [Typed("key", true)];
    assert Exec(w, Keychain([])).1 == [] + ([Connected] + [Typed("key", true)]);
    assert ([] + ([Connected] + [Typed("key", true)]))[1] == Typed("key", true);
  }

  /** A passphrase released by the vault always decrypts the key file it was checked against. */
  lemma ReleasedPassphraseDecrypts(w: World, ks: Keystore, n: Note)
    requires n in Login(w, ks).1 && n.Unlocked?
    ensures n.path in w.files && Decrypts(w.files[n.path], n.passphrase)
  {
    hide AskPassphrase;
    var (ks1, before, collected) := MaybeCollect(w, ks);
    if w.lookup(0).Ok? && w.lookup(0).value.Locked? {
      PromptAsksOnce(w, w.lookup(0).value.path, false, ks);
    }
    if w.lookup(1).Ok? && w.lookup(1).value.Locked? {
      PromptAsksOnce(w, w.lookup(1).value.path, true, ks1);
    }
  }
}
