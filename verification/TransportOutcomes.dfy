/** How a transport run ends, read off what it meets: when it succeeds, and what each error means. */
module TransportOutcomes {
  import opened Wrappers
  import opened Biometric
  import opened Keystores
  import opened Keys
  import opened Unlock
  import opened Transport
  import H = History

  /** The locked key whose passphrase is asked for before connecting, if one is. */
  function EarlyKey(w: World): Option<string> {
    match w.lookup(0)
    case Ok(Locked(path)) => if w.unix && w.agentHolds(0) then None else Some(path)
    case _ => None
  }

  /** The locked key whose passphrase is asked for after connecting, if one is. */
  function LateKey(w: World): Option<string> {
    if EarlyKey(w).None? && w.best.KeyIsEncrypted? && w.lookup(1).Ok? && w.lookup(1).value.Locked?
    then Some(w.lookup(1).value.path) else None
  }

  function AskedKey(w: World): Option<string> {
    if EarlyKey(w).Some? then EarlyKey(w) else LateKey(w)
  }

  /** The run gets as far as a connection: the first lookup works, a passphrase asked for before it
      is there, and the connection stands. */
  predicate Reached(w: World, ks: Keystore) {
    && w.lookup(0).Ok? && w.connects
    && (EarlyKey(w).Some? ==> Answer(w, EarlyKey(w).value, ks).Some?)
  }

  /** The server accepts the key with the passphrase there is for it. */
  predicate Accepted(w: World, path: string, ks: Keystore) {
    Answer(w, path, ks).Some? && (path, Answer(w, path, ks).value) in w.accepted
  }

  /** The session is authenticated: by the key asked for, or with nothing asked by the normal flow. */
  predicate Authenticated(w: World, ks: Keystore) {
    if AskedKey(w).Some? then Accepted(w, AskedKey(w).value, ks) else w.best.AuthOk?
  }

  /** No key is to be had: none was offered and neither a lookup nor the agent shows one, or the
      encrypted key that stopped the normal flow is not found again. */
  predicate KeyMissing(w: World) {
    && EarlyKey(w).None?
    && (|| (w.best.NoKeyOffered? && (w.lookup(1).Err? || w.lookup(1).value.NotFound?) &&
            !(w.unix && w.agentHolds(1)))
        || (w.best.KeyIsEncrypted? && w.lookup(1).Ok? && !w.lookup(1).value.Locked?))
  }

  /** A key was to be had and the server refused it. */
  predicate KeyRefused(w: World) {
    && EarlyKey(w).None? && w.best.NoKeyOffered?
    && (|| (w.lookup(1).Ok? && !w.lookup(1).value.NotFound?)
        || (w.unix && w.agentHolds(1)))
  }

  /** What was offered was not accepted, or the normal flow broke. */
  predicate OfferRejected(w: World, ks: Keystore) {
    || (AskedKey(w).Some? && Answer(w, AskedKey(w).value, ks).Some? && !Accepted(w, AskedKey(w).value, ks))
    || (EarlyKey(w).None? && w.best.AuthBroken?)
  }

  /** How logging in ends, and why. */
  ghost predicate LoginEnds(w: World, ks: Keystore, reached: bool, r: Outcome) {
    && (reached <==> Reached(w, ks))
    && (r.Ok? <==> Reached(w, ks) && Authenticated(w, ks))
    && (r == Err(IdentityLookupFailed) <==>
          || w.lookup(0).Err?
          || (Reached(w, ks) && EarlyKey(w).None? && w.best.KeyIsEncrypted? && w.lookup(1).Err?))
    && (r == Err(PromptFailed) <==>
          && w.lookup(0).Ok? && AskedKey(w).Some? && Answer(w, AskedKey(w).value, ks).None?
          && (EarlyKey(w).Some? || w.connects))
    && (r == Err(ConnectFailed) <==>
          && w.lookup(0).Ok? && !w.connects && (EarlyKey(w).Some? ==> Answer(w, EarlyKey(w).value, ks).Some?))
    && (r == Err(NoKeyFound) <==> Reached(w, ks) && KeyMissing(w))
    && (r == Err(ServerRefused) <==> Reached(w, ks) && KeyRefused(w))
    && (r == Err(AuthFailed) <==> Reached(w, ks) && OfferRejected(w, ks))
    && (r.Err? ==> !r.error.ExecFailed? && !r.error.CloseFailed?)
  }

  lemma CollectEnds(w: World, ks: Keystore)
    ensures var (ks', _, r) := MaybeCollect(w, ks);
            && (w.lookup(0).Err? ==> r == Err(IdentityLookupFailed))
            && (w.lookup(0).Ok? && EarlyKey(w).None? ==> r == Ok(None) && ks' == ks)
            && (EarlyKey(w).Some? ==>
                  var answer := Answer(w, EarlyKey(w).value, ks);
                  r == if answer.Some? then Ok(Some((answer.value, EarlyKey(w).value))) else Err(PromptFailed))
  {
    hide AskPassphrase, Answer;
    if EarlyKey(w).Some? {
      AskAnswers(w, EarlyKey(w).value, false, ks);
    }
  }

  lemma AuthenticateEnds(w: World, ks: Keystore)
    requires EarlyKey(w).None?
    ensures var r := Authenticate(w, ks).2;
            && (r.Ok? <==> Authenticated(w, ks))
            && (r == Err(IdentityLookupFailed) <==> w.best.KeyIsEncrypted? && w.lookup(1).Err?)
            && (r == Err(PromptFailed) <==> LateKey(w).Some? && Answer(w, LateKey(w).value, ks).None?)
            && (r == Err(NoKeyFound) <==> KeyMissing(w))
            && (r == Err(ServerRefused) <==> KeyRefused(w))
            && (r == Err(AuthFailed) <==> OfferRejected(w, ks))
            && (r.Err? ==> !r.error.ConnectFailed? && !r.error.ExecFailed? && !r.error.CloseFailed?)
  {
    hide AskPassphrase, Answer;
    if LateKey(w).Some? {
      AskAnswers(w, LateKey(w).value, true, ks);
    }
  }

  lemma LoginOutcome(w: World, ks: Keystore)
    ensures LoginEnds(w, ks, Login(w, ks).2, Login(w, ks).3)
  {
    hide MaybeCollect, Authenticate, Answer;
    CollectEnds(w, ks);
    if w.lookup(0).Ok? && EarlyKey(w).None? {
      AuthenticateEnds(w, ks);
    }
  }

  /** A Git command runs to its end if and only if the connection stands, the session is
      authenticated, and running and closing work; and each error has its cause. */
  lemma ExecOutcome(w: World, ks: Keystore)
    ensures var r, authenticated := Exec(w, ks).2, Reached(w, ks) && Authenticated(w, ks);
            && (r.Ok? <==> authenticated && w.execs && w.closes)
            && (r == Err(ExecFailed) <==> authenticated && !w.execs)
            && (r == Err(CloseFailed) <==> authenticated && w.execs && !w.closes)
            && (!authenticated ==> LoginEnds(w, ks, Reached(w, ks), r))
  {
    hide Reached, Authenticated;
    LoginOutcome(w, ks);
    hide Login;
  }

  /** Testing a connection succeeds if and only if it stands, closing works, and the session is
      authenticated or no key is to be had. Any other error in authenticating is reported, for a
      person in any case and as JSON once closing has worked. */
  lemma TestOutcome(w: World, ks: Keystore)
    ensures var r, fine := Test(w, ks).2, Authenticated(w, ks) || KeyMissing(w);
            && (r.Ok? <==> Reached(w, ks) && fine && w.closes)
            && (r == Err(CloseFailed) <==> Reached(w, ks) && (fine || w.json) && !w.closes)
            && (!Reached(w, ks) || (!fine && (!w.json || w.closes)) ==> LoginEnds(w, ks, Reached(w, ks), r))
  {
    hide Reached, Authenticated, KeyMissing;
    LoginOutcome(w, ks);
    hide Login;
  }

  // ------------------------------------------------------- what is offered

  /** What a run offers is the key it asked for with the passphrase there was, and it offers it
      exactly when it got that far. */
  lemma OffersAnswer(w: World, ks: Keystore, path: string, pp: string)
    ensures Offered(path, pp) in Login(w, ks).1 <==>
              Reached(w, ks) && AskedKey(w) == Some(path) && Answer(w, path, ks) == Some(pp)
  {
    hide AskPassphrase, Answer;
    CollectEnds(w, ks);
    if EarlyKey(w).Some? {
      AskAnswers(w, EarlyKey(w).value, false, ks);
    }
    if LateKey(w).Some? {
      AskAnswers(w, LateKey(w).value, true, ks);
    }
  }

  /** A passphrase is typed before connecting if and only if a locked key is found, no agent holds
      an identity, and the vault releases nothing that decrypts it. */
  lemma EarlyPromptIff(w: World, ks: Keystore, path: string)
    ensures Typed(path, false) in Login(w, ks).1 <==> EarlyKey(w) == Some(path) && MustType(w, path, ks)
  {
    hide AskPassphrase, MustType;
    if EarlyKey(w).Some? {
      AskAnswers(w, EarlyKey(w).value, false, ks);
      PromptAsksOnce(w, EarlyKey(w).value, false, ks);
    }
    if LateKey(w).Some? {
      PromptAsksOnce(w, LateKey(w).value, true, ks);
    }
  }

  /** What the history of the vault says that asking for a key leaves of it. */
  function VaultAfterAsking(w: World, path: string, ks: Keystore): Keystore {
    if path in w.files then H.Advance(H.System(w.files, ks), H.TransportUnlock(path, w.f, w.g)).0.ks else ks
  }

  lemma AskLeaves(w: World, path: string, connected: bool, ks: Keystore)
    ensures AskPassphrase(w, path, connected, ks).0 == VaultAfterAsking(w, path, ks)
  {
    if path in w.files {
      AskIsHistoryEvent(w, path, connected, ks);
    }
    hide AutoUnlockStep;
  }

  lemma CollectLeaves(w: World, ks: Keystore)
    ensures MaybeCollect(w, ks).0 ==
            if EarlyKey(w).Some? then VaultAfterAsking(w, EarlyKey(w).value, ks) else ks
  {
    hide AskPassphrase, VaultAfterAsking;
    if EarlyKey(w).Some? {
      AskLeaves(w, EarlyKey(w).value, false, ks);
    }
  }

  lemma AuthenticateLeaves(w: World, ks: Keystore)
    requires EarlyKey(w).None?
    ensures Authenticate(w, ks).0 == if LateKey(w).Some? then VaultAfterAsking(w, LateKey(w).value, ks) else ks
  {
    hide AskPassphrase, VaultAfterAsking;
    if LateKey(w).Some? {
      AskLeaves(w, LateKey(w).value, true, ks);
    }
  }

  /** A run does to the vault what its history records for the one key asked for, and nothing when no
      key file is asked for. */
  lemma RunIsHistoryEvent(w: World, ks: Keystore)
    ensures Exec(w, ks).0 == Test(w, ks).0 == Login(w, ks).0
    ensures var asked := if EarlyKey(w).Some? then EarlyKey(w) else if w.connects then LateKey(w) else None;
            Login(w, ks).0 ==
            if w.lookup(0).Ok? && asked.Some? then VaultAfterAsking(w, asked.value, ks) else ks
  {
    hide MaybeCollect, Authenticate, VaultAfterAsking;
    CollectEnds(w, ks);
    CollectLeaves(w, ks);
    if EarlyKey(w).None? {
      AuthenticateLeaves(w, ks);
    }
  }
}
