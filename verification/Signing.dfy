/** `-Y sign`: which key signs, through the agent or directly, when `-f` names either half of a
    key pair. */
module Signing {
  import opened Wrappers
  import KeygenArgs

  /** What a file holds. A public-key line may be surrounded by blanks that only a trimming
      reader tolerates. */
  datatype FileText =
    | PublicText(key: string, padded: bool)
    | PrivateText(key: string, passphrase: Option<string>)
    | OtherText
    | Unreadable

  datatype SignError =
    | FileRequired | NamespaceRequired | CannotReadMessage | CannotWrite
    | NoKeyFound | ReadFailed | NotAPrivateKey | NoPrivateHalf(path: string) | NotAKey(path: string)
    | AgentDeclined | PromptFailed(path: string) | DecryptFailed

  /** The agent: whether its socket is named, whether it answers, what it lists, and the keys it
      consents to sign with. */
  datatype AgentState = AgentState(
    socketNamed: bool, reachable: bool, identities: Option<set<string>>, consents: set<string>)

  datatype World = World(
    files: map<string, FileText>, agent: AgentState, typed: map<string, string>,
    messages: map<string, string>, stdin: Option<string>, writable: set<string>)

  /** A signature names the key that made it. */
  datatype Signature = Signature(key: string, namespace: string, data: string, byAgent: bool)

  datatype Sink = Stdout | SigFile(path: string)

  const PUB: string := ".pub"

  function ReadKeyFile(w: World, path: string): Result<FileText, SignError> {
    if path !in w.files then Err(NoKeyFound)
    else if w.files[path].Unreadable? then Err(ReadFailed)
    else Ok(w.files[path])
  }

  predicate EndsInPub(path: string) {
    |path| >= |PUB| && path[|path| - |PUB|..] == PUB
  }

  function WithoutPub(path: string): string
    requires EndsInPub(path)
  {
    path[..|path| - |PUB|]
  }

  /** `resolve_signing_key_path` */
  function ResolveSigningKeyPath(w: World, path: string): Result<string, SignError> {
    match ReadKeyFile(w, path)
    case Err(e) => Err(e)
    case Ok(PrivateText(_, _)) => Ok(path)
    case Ok(PublicText(_, _)) =>
      if EndsInPub(path) && WithoutPub(path) in w.files then Ok(WithoutPub(path)) else Err(NoPrivateHalf(path))
    case Ok(_) => Err(NotAKey(path))
  }

  /** `load_public_key_for_signing`: the first attempt does not trim, the fallback does. */
  function LoadPublicKeyForSigning(w: World, path: string): Result<string, SignError> {
    match ReadKeyFile(w, path)
    case Err(e) => Err(e)
    case Ok(text) =>
      if text.PublicText? && !text.padded then Ok(text.key)
      else
        match ResolveSigningKeyPath(w, path)
        case Err(e) => Err(e)
        case Ok(p) =>
          match ReadKeyFile(w, p)
          case Err(e) => Err(e)
          case Ok(PrivateText(key, _)) => Ok(key)
          case Ok(_) => Err(NotAPrivateKey)
  }

  /** `try_sign_via_agent`: None means the agent is not usable for this key; once it holds the
      key, its refusal is final. */
  function TrySignViaAgent(w: World, path: string, data: string, ns: string): Result<Option<Signature>, SignError> {
    var a := w.agent;
    if !a.socketNamed then Ok(None)
    else
      match LoadPublicKeyForSigning(w, path)
      case Err(_) => Ok(None)
      case Ok(key) =>
        if !a.reachable || a.identities.None? || key !in a.identities.value then Ok(None)
        else if key !in a.consents then Err(AgentDeclined)
        else Ok(Some(Signature(key, ns, data, true)))
  }

  /** `load_and_decrypt` */
  function LoadAndDecrypt(w: World, path: string, given: Option<string>): Result<string, SignError> {
    match ReadKeyFile(w, path)
    case Err(_) => Err(ReadFailed)
    case Ok(PrivateText(key, pass)) =>
      if pass.None? then Ok(key)
      else if given.None? && path !in w.typed then Err(PromptFailed(path))
      else
        var pp := if given.Some? then given.value else w.typed[path];
        if pp == pass.value then Ok(key) else Err(DecryptFailed)
    case Ok(_) => Err(NotAPrivateKey)
  }

  function ReadMessage(w: World, p: KeygenArgs.Parsed): Result<(string, Sink), SignError> {
    match p.messageFile
    case Some(m) => if m in w.messages then Ok((w.messages[m], SigFile(m + ".sig"))) else Err(CannotReadMessage)
    case None => if w.stdin.Some? then Ok((w.stdin.value, Stdout)) else Err(CannotReadMessage)
  }

  function WriteSigOutput(w: World, s: Signature, sink: Sink): Result<(Signature, Sink), SignError> {
    if sink.SigFile? && sink.path !in w.writable then Err(CannotWrite) else Ok((s, sink))
  }

  /** `run_sign` */
  function RunSign(w: World, p: KeygenArgs.Parsed): Result<(Signature, Sink), SignError> {
    if p.file.None? then Err(FileRequired)
    else if p.namespace.None? then Err(NamespaceRequired)
    else
      match ReadMessage(w, p)
      case Err(e) => Err(e)
      case Ok((data, sink)) =>
        match TrySignViaAgent(w, p.file.value, data, p.namespace.value)
        case Err(e) => Err(e)
        case Ok(Some(s)) => WriteSigOutput(w, s, sink)
        case Ok(None) =>
          match ResolveSigningKeyPath(w, p.file.value)
          case Err(e) => Err(e)
          case Ok(path) =>
            match LoadAndDecrypt(w, path, p.oldPassphrase)
            case Err(e) => Err(e)
            case Ok(key) => WriteSigOutput(w, Signature(key, p.namespace.value, data, false), sink)
  }

  /** Both halves of one key lie where ssh-keygen puts them. */
  predicate ConsistentPair(w: World, k: string) {
    && k in w.files && w.files[k].PrivateText?
    && k + PUB in w.files && w.files[k + PUB].PublicText?
    && w.files[k].key == w.files[k + PUB].key
  }

  lemma PubNames(k: string)
    ensures EndsInPub(k + PUB) && WithoutPub(k + PUB) == k
  {
  }

  lemma PairResolves(w: World, k: string)
    requires ConsistentPair(w, k)
    ensures ResolveSigningKeyPath(w, k) == ResolveSigningKeyPath(w, k + PUB) == Ok(k)
    ensures LoadPublicKeyForSigning(w, k) == LoadPublicKeyForSigning(w, k + PUB) == Ok(w.files[k].key)
  {
    PubNames(k);
  }

  /** For a consistent pair it does not matter which half `-f` names: the same branch is taken,
      the same private key signs, and the result, error included, is the same, for every agent
      state, message, passphrase and output. */
  lemma EitherHalfSigns(w: World, p: KeygenArgs.Parsed, k: string)
    requires ConsistentPair(w, k)
    ensures RunSign(w, p.(file := Some(k))) == RunSign(w, p.(file := Some(k + PUB)))
  {
    PairResolves(w, k);
  }

  predicate AgentHolds(a: AgentState, key: string) {
    a.socketNamed && a.reachable && a.identities.Some? && key in a.identities.value
  }

  /** With a consistent pair, a signature is always by that pair's key, and through the agent
      exactly when the agent holds it; then no passphrase matters. */
  lemma PairSigner(w: World, p: KeygenArgs.Parsed, k: string)
    requires ConsistentPair(w, k)
    requires p.file == Some(k) || p.file == Some(k + PUB)
    ensures var r, key := RunSign(w, p), w.files[k].key;
            && (r.Ok? ==> r.value.0.key == key && (r.value.0.byAgent <==> AgentHolds(w.agent, key)))
            && (AgentHolds(w.agent, key) ==> forall typed :: RunSign(w.(typed := typed), p) == r)
  {
    PairResolves(w, k);
    forall typed ensures AgentHolds(w.agent, w.files[k].key) ==> RunSign(w.(typed := typed), p) == RunSign(w, p) {
      PairResolves(w.(typed := typed), k);
    }
  }

  /** Both halves lie where ssh-keygen puts them, but need not be of one key. */
  predicate Halves(w: World, k: string) {
    && k in w.files && w.files[k].PrivateText?
    && k + PUB in w.files && w.files[k + PUB].PublicText?
  }

  /** The key the agent is asked for when `-f` names the public half: its own, unless only a trimming
      reader can read it. */
  function AskedFor(w: World, k: string): string
    requires Halves(w, k)
  {
    if w.files[k + PUB].padded then w.files[k].key else w.files[k + PUB].key
  }

  lemma HalvesResolve(w: World, k: string)
    requires Halves(w, k)
    ensures ResolveSigningKeyPath(w, k) == ResolveSigningKeyPath(w, k + PUB) == Ok(k)
    ensures LoadPublicKeyForSigning(w, k) == Ok(w.files[k].key)
    ensures LoadPublicKeyForSigning(w, k + PUB) == Ok(AskedFor(w, k))
  {
    PubNames(k);
  }

  /** Signing gets as far as the message. */
  predicate Ready(w: World, p: KeygenArgs.Parsed) {
    p.namespace.Some? && ReadMessage(w, p).Ok?
  }

  /** A signature can be had when the agent is asked for this key, the private half serving where
      the agent does not hold it. */
  predicate Signs(w: World, p: KeygenArgs.Parsed, k: string, key: string) {
    if AgentHolds(w.agent, key) then key in w.agent.consents else LoadAndDecrypt(w, k, p.oldPassphrase).Ok?
  }

  predicate Unwritable(w: World, sink: Sink) {
    sink.SigFile? && sink.path !in w.writable
  }

  /** For halves of any two keys, naming one or the other gives the same result if and only if
      nothing gets to be signed, the agent is asked for one key either way, it holds neither of the
      two, it refuses both, or both would sign but the signature cannot be written. */
  lemma HalvesAgreeIff(w: World, p: KeygenArgs.Parsed, k: string)
    requires Halves(w, k)
    ensures var x, y := w.files[k].key, AskedFor(w, k);
            RunSign(w, p.(file := Some(k))) == RunSign(w, p.(file := Some(k + PUB))) <==>
              || !Ready(w, p)
              || x == y
              || (!AgentHolds(w.agent, x) && !AgentHolds(w.agent, y))
              || (AgentHolds(w.agent, x) && AgentHolds(w.agent, y) && !Signs(w, p, k, x) && !Signs(w, p, k, y))
              || (Unwritable(w, ReadMessage(w, p).value.1) && Signs(w, p, k, x) && Signs(w, p, k, y))
  {
    hide ReadMessage;
    HalvesResolve(w, k);
    SameMessage(w, p, k);
    SameMessage(w, p, k + PUB);
    if Ready(w, p) {
      RunByKey(w, p, k, k, w.files[k].key);
      RunByKey(w, p, k + PUB, k, AskedFor(w, k));
      DirectErrors(w, k, p.oldPassphrase);
      hide RunSign, LoadAndDecrypt;
    }
  }

  lemma SameMessage(w: World, p: KeygenArgs.Parsed, path: string)
    ensures ReadMessage(w, p.(file := Some(path))) == ReadMessage(w, p)
  {
  }

  /** What signing comes to once it is known which key the agent is asked for and where the private
      half lies. */
  lemma RunByKey(w: World, p: KeygenArgs.Parsed, path: string, k: string, key: string)
    requires Ready(w, p)
    requires ReadMessage(w, p.(file := Some(path))) == ReadMessage(w, p)
    requires LoadPublicKeyForSigning(w, path) == Ok(key) && ResolveSigningKeyPath(w, path) == Ok(k)
    ensures var (data, sink) := ReadMessage(w, p).value;
            var direct := LoadAndDecrypt(w, k, p.oldPassphrase);
            RunSign(w, p.(file := Some(path))) ==
            if AgentHolds(w.agent, key) then
              if key in w.agent.consents then WriteSigOutput(w, Signature(key, p.namespace.value, data, true), sink)
              else Err(AgentDeclined)
            else if direct.Err? then Err(direct.error)
            else WriteSigOutput(w, Signature(direct.value, p.namespace.value, data, false), sink)
  {
    hide ReadMessage, LoadPublicKeyForSigning, ResolveSigningKeyPath, LoadAndDecrypt;
  }

  lemma DirectErrors(w: World, path: string, given: Option<string>)
    ensures var r := LoadAndDecrypt(w, path, given);
            r.Err? ==> !r.error.AgentDeclined? && !r.error.CannotWrite?
  {
  }

  /** Where something is signed and can be written, halves of different keys agree exactly when the
      public half is padded or the agent holds neither key, or when it holds both and refuses both. */
  lemma MismatchedHalvesAgreeIff(w: World, p: KeygenArgs.Parsed, k: string)
    requires Halves(w, k) && w.files[k].key != w.files[k + PUB].key
    requires Ready(w, p) && !Unwritable(w, ReadMessage(w, p).value.1)
    ensures var x, y := w.files[k].key, w.files[k + PUB].key;
            RunSign(w, p.(file := Some(k))) == RunSign(w, p.(file := Some(k + PUB))) <==>
              || w.files[k + PUB].padded
              || (!AgentHolds(w.agent, x) && !AgentHolds(w.agent, y))
              || (AgentHolds(w.agent, x) && AgentHolds(w.agent, y) &&
                  x !in w.agent.consents && y !in w.agent.consents)
  {
    hide RunSign, ReadMessage, LoadAndDecrypt;
    HalvesAgreeIff(w, p, k);
  }

  // ------------------------------------------------------ what is signed, and when

  /** Whatever is signed, it is the bytes of the message file, and the signature goes beside it; or,
      without a message file, standard input, and it goes to standard output. The namespace is the
      one given. */
  lemma SignedWhatWasAsked(w: World, p: KeygenArgs.Parsed)
    requires RunSign(w, p).Ok?
    ensures var (s, sink) := RunSign(w, p).value;
            && Some(s.namespace) == p.namespace
            && (p.messageFile.Some? ==>
                  && p.messageFile.value in w.messages && s.data == w.messages[p.messageFile.value]
                  && sink == SigFile(p.messageFile.value + ".sig"))
            && (p.messageFile.None? ==> w.stdin == Some(s.data) && sink == Stdout)
            && (sink.SigFile? ==> sink.path in w.writable)
  {
    hide TrySignViaAgent, ResolveSigningKeyPath, LoadAndDecrypt;
    if p.file.Some? && p.namespace.Some? && ReadMessage(w, p).Ok? {
      AgentSignsAsked(w, p.file.value, ReadMessage(w, p).value.0, p.namespace.value);
    }
  }

  lemma AgentSignsAsked(w: World, path: string, data: string, ns: string)
    ensures var r := TrySignViaAgent(w, path, data, ns);
            r.Ok? && r.value.Some? ==> r.value.value.namespace == ns && r.value.value.data == data
  {
    hide LoadPublicKeyForSigning;
  }

  /** The message can be read. */
  predicate MessageReadable(w: World, p: KeygenArgs.Parsed) {
    match p.messageFile
    case Some(m) => m in w.messages
    case None => w.stdin.Some?
  }

  /** The signature can be written where it goes. */
  predicate SignatureWritable(w: World, p: KeygenArgs.Parsed) {
    p.messageFile.Some? ==> p.messageFile.value + ".sig" in w.writable
  }

  /** The passphrase there is for a private key file: the one given, or else what is typed. */
  function PassphraseFor(w: World, p: KeygenArgs.Parsed, path: string): Option<string> {
    if p.oldPassphrase.Some? then p.oldPassphrase
    else if path in w.typed then Some(w.typed[path])
    else None
  }

  /** The private half opens: it is unencrypted, or its passphrase is at hand. */
  predicate Opens(w: World, p: KeygenArgs.Parsed, k: string)
    requires k in w.files && w.files[k].PrivateText?
  {
    w.files[k].passphrase.None? || PassphraseFor(w, p, k) == w.files[k].passphrase
  }

  /** Everything signing with a consistent pair can come to. It succeeds if and only if there is a
      namespace, the message can be read, the agent holds the key and consents, or does not hold it
      and the private half opens, and the signature can be written; and each failure has its
      cause. */
  lemma PairOutcome(w: World, p: KeygenArgs.Parsed, k: string)
    requires ConsistentPair(w, k) && (p.file == Some(k) || p.file == Some(k + PUB))
    ensures var r, key := RunSign(w, p), w.files[k].key;
            var ready := p.namespace.Some? && MessageReadable(w, p);
            var held := w.agent.socketNamed && w.agent.reachable && w.agent.identities.Some? &&
                        key in w.agent.identities.value;
            var signs := ready && if held then key in w.agent.consents else Opens(w, p, k);
            && (r.Ok? <==> signs && SignatureWritable(w, p))
            && (r.Ok? ==> r.value.0.key == key && r.value.0.byAgent == held)
            && (r == Err(NamespaceRequired) <==> p.namespace.None?)
            && (r == Err(CannotReadMessage) <==> p.namespace.Some? && !MessageReadable(w, p))
            && (r == Err(AgentDeclined) <==> ready && held && key !in w.agent.consents)
            && (r == Err(PromptFailed(k)) <==> ready && !held && !Opens(w, p, k) && PassphraseFor(w, p, k).None?)
            && (r == Err(DecryptFailed) <==> ready && !held && !Opens(w, p, k) && PassphraseFor(w, p, k).Some?)
            && (r == Err(CannotWrite) <==> signs && !SignatureWritable(w, p))
  {
    PairResolves(w, k);
    hide ResolveSigningKeyPath, LoadPublicKeyForSigning;
  }

  /** A public half whose private half is not beside it signs through the agent or not at all. */
  lemma PublicHalfAlone(w: World, p: KeygenArgs.Parsed, path: string)
    requires p.file == Some(path) && path in w.files && w.files[path].PublicText? && !w.files[path].padded
    requires EndsInPub(path) ==> WithoutPub(path) !in w.files
    requires p.namespace.Some? && MessageReadable(w, p) && SignatureWritable(w, p)
    ensures var r, key := RunSign(w, p), w.files[path].key;
            var held := w.agent.socketNamed && w.agent.reachable && w.agent.identities.Some? &&
                        key in w.agent.identities.value;
            && (r.Ok? <==> held && key in w.agent.consents)
            && (r == Err(AgentDeclined) <==> held && key !in w.agent.consents)
            && (r == Err(NoPrivateHalf(path)) <==> !held)
  {
  }

  /** What is missing is found in this order, whatever the files and the agent hold: the key file, the
      namespace, the message. */
  lemma MissingInOrder(w: World, p: KeygenArgs.Parsed)
    ensures var r := RunSign(w, p);
            && (r == Err(FileRequired) <==> p.file.None?)
            && (r == Err(NamespaceRequired) <==> p.file.Some? && p.namespace.None?)
            && (r == Err(CannotReadMessage) <==> p.file.Some? && p.namespace.Some? && !MessageReadable(w, p))
  {
    hide ResolveSigningKeyPath, LoadPublicKeyForSigning;
    if p.file.Some? {
      KeyErrors(w, p.file.value);
    }
  }

  /** What goes wrong with a key file is none of these. */
  lemma KeyErrors(w: World, path: string)
    ensures var r := ResolveSigningKeyPath(w, path);
            r.Err? ==> r.error != FileRequired && r.error != NamespaceRequired && r.error != CannotReadMessage
  {
  }

  /** A file that is no key at all, or cannot be read, signs nothing. */
  lemma NoKeyNoSignature(w: World, p: KeygenArgs.Parsed, path: string)
    requires p.file == Some(path) && p.namespace.Some? && MessageReadable(w, p)
    ensures path !in w.files ==> RunSign(w, p) == Err(NoKeyFound)
    ensures path in w.files && w.files[path].Unreadable? ==> RunSign(w, p) == Err(ReadFailed)
    ensures path in w.files && w.files[path].OtherText? ==> RunSign(w, p) == Err(NotAKey(path))
  {
  }
}
