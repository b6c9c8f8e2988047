/** The argv compiler of `gitway-keygen`: the loop of `Parsed::from_args` and the order-free
    reading of the command line that it computes. */
module KeygenArgs {
  import opened Wrappers
  import opened HashArg
  import Decimal

  datatype Mode =
    | GenerateKey
    | PrintFingerprint
    | ExtractPublic
    | ChangePassphrase
    | SshSigSign
    | SshSigVerify
    | SshSigCheckNoValidate
    | SshSigFindPrincipals

  datatype Parsed = Parsed(
    mode: Mode,
    keyType: Option<string>,
    bits: Option<nat>,
    file: Option<string>,
    newPassphrase: Option<string>,
    oldPassphrase: Option<string>,
    comment: Option<string>,
    namespace: Option<string>,
    signerIdentity: Option<string>,
    signatureFile: Option<string>,
    allowedSigners: Option<string>,
    fingerprintHash: HashAlg,
    messageFile: Option<string>)

  datatype ArgError =
    | MissingValue(flag: string)
    | BadInteger(text: string)
    | BadHash(text: string)
    | BadOperation(text: string)
    | UnsupportedFlag(word: string)

  // ---------------------------------------------------------------- words

  /** Flags that consume the next argv slot. */
  datatype ValueFlag =
    | KeyTypeFlag | BitsFlag | FileFlag | NewPassFlag | OldPassFlag | CommentFlag
    | NamespaceFlag | IdentityFlag | SignatureFlag | HashFlag | OperationFlag
    | AllowedSignersFlag | OptionFlag

  datatype Switch = ListSwitch | ExtractSwitch | ChangeSwitch

  function FlagText(f: ValueFlag): string {
    match f
    case KeyTypeFlag => "-t"
    case BitsFlag => "-b"
    case FileFlag => "-f"
    case NewPassFlag => "-N"
    case OldPassFlag => "-P"
    case CommentFlag => "-C"
    case NamespaceFlag => "-n"
    case IdentityFlag => "-I"
    case SignatureFlag => "-s"
    case HashFlag => "-E"
    case OperationFlag => "-Y"
    case AllowedSignersFlag => "--allowed-signers"
    case OptionFlag => "-O"
  }

  function SwitchText(s: Switch): string {
    match s
    case ListSwitch => "-l"
    case ExtractSwitch => "-y"
    case ChangeSwitch => "-p"
  }

  /** What one argv slot means when it is not the value of the flag before it. */
  datatype Word =
    | TakesValue(flag: ValueFlag)
    | Toggles(switch: Switch)
    | Ignored
    | Terminator
    | Unsupported
    | Positional

  /** The arms of the match in the argv loop, in order. */
  function Classify(a: string): Word {
    if a == "-t" then TakesValue(KeyTypeFlag)
    else if a == "-b" then TakesValue(BitsFlag)
    else if a == "-f" then TakesValue(FileFlag)
    else if a == "-N" then TakesValue(NewPassFlag)
    else if a == "-P" then TakesValue(OldPassFlag)
    else if a == "-C" then TakesValue(CommentFlag)
    else if a == "-n" then TakesValue(NamespaceFlag)
    else if a == "-I" then TakesValue(IdentityFlag)
    else if a == "-s" then TakesValue(SignatureFlag)
    else if a == "-l" then Toggles(ListSwitch)
    else if a == "-y" then Toggles(ExtractSwitch)
    else if a == "-p" then Toggles(ChangeSwitch)
    else if a == "-E" then TakesValue(HashFlag)
    else if a == "-Y" then TakesValue(OperationFlag)
    else if a == "--allowed-signers" then TakesValue(AllowedSignersFlag)
    else if |a| > 2 && a[..2] == "-O" then Ignored
    else if a == "-O" then TakesValue(OptionFlag)
    else if a == "-q" || a == "-v" || a == "-vv" || a == "-vvv" then Ignored
    else if a == "--" then Terminator
    else if |a| > 0 && a[0] == '-' then Unsupported
    else Positional
  }

  lemma ClassifyFlagText(f: ValueFlag)
    ensures Classify(FlagText(f)) == TakesValue(f)
  {
    var t := FlagText(f);
    if f.AllowedSignersFlag? {
      assert |t| == 17 && t[1] == '-';
      assert t[..2][1] == '-';
    } else {
      assert |t| == 2;
      assert t[1] == t[1];
    }
  }

  lemma ClassifySwitchText(s: Switch)
    ensures Classify(SwitchText(s)) == Toggles(s)
  {
    assert |SwitchText(s)| == 2 && SwitchText(s)[1] == SwitchText(s)[1];
  }

  /** Exactly the words that do not start with '-' are positional. */
  lemma PositionalWords(a: string)
    ensures Classify(a).Positional? <==> (|a| == 0 || a[0] != '-')
  {
  }

  // ---------------------------------------------------------------- groups

  /** A maximal run of slots the loop consumes in one iteration. */
  datatype Group =
    | Valued(flag: ValueFlag, value: string)
    | Toggle(switch: Switch)
    | Noise(word: string)
    | Bare(word: string)
    | Missing(flag: ValueFlag)
    | Unknown(word: string)

  /** The group that starts with a word of a given meaning. */
  function GroupFor(w: Word, args: seq<string>): Group
    requires args != [] && !w.Terminator?
  {
    match w
    case TakesValue(f) => if |args| == 1 then Missing(f) else Valued(f, args[1])
    case Toggles(s) => Toggle(s)
    case Ignored => Noise(args[0])
    case Unsupported => Unknown(args[0])
    case Positional => Bare(args[0])
  }

  /** The group at the front of an argv. */
  function HeadGroup(args: seq<string>): Group
    requires args != [] && !Classify(args[0]).Terminator?
  {
    GroupFor(Classify(args[0]), args)
  }

  function Width(g: Group): nat {
    if g.Valued? then 2 else 1
  }

  /** The groups of an argv, up to `--` or its end. */
  function Groups(args: seq<string>): seq<Group> {
    if args == [] || Classify(args[0]).Terminator? then []
    else
      var g := HeadGroup(args);
      [g] + Groups(args[Width(g)..])
  }

  /** What makes a group malformed on its own, if anything. */
  function Fault(g: Group): Option<ArgError> {
    match g
    case Missing(f) => Some(MissingValue(FlagText(f)))
    case Unknown(w) => Some(UnsupportedFlag(w))
    case Valued(BitsFlag, v) =>
      if Decimal.ParseUnsigned(v, Decimal.U32_MAX).Some? then None else Some(BadInteger(v))
    case Valued(HashFlag, v) =>
      if ParseHash(v).Some? then None else Some(BadHash(Lower(v)))
    case _ => None
  }

  /** The fault of the earliest malformed group. */
  function FirstFault(gs: seq<Group>): Option<ArgError> {
    if gs == [] then None
    else match FirstFault(gs[..|gs| - 1])
      case Some(e) => Some(e)
      case None => Fault(gs[|gs| - 1])
  }

  /** The last value given for a flag. */
  function LastValue(gs: seq<Group>, f: ValueFlag): Option<string> {
    if gs == [] then None
    else
      var g := gs[|gs| - 1];
      if g.Valued? && g.flag == f then Some(g.value) else LastValue(gs[..|gs| - 1], f)
  }

  /** The bare words, in command-line order. */
  function Bares(gs: seq<Group>): seq<string> {
    if gs == [] then []
    else
      var g := gs[|gs| - 1];
      if g.Bare? then Bares(gs[..|gs| - 1]) + [g.word] else Bares(gs[..|gs| - 1])
  }

  function Nth(s: seq<string>, k: nat): Option<string> {
    if k < |s| then Some(s[k]) else None
  }

  // ------------------------------------------------- the order-free reading

  function OperationMode(op: string): Option<Mode> {
    if op == "sign" then Some(SshSigSign)
    else if op == "verify" then Some(SshSigVerify)
    else if op == "check-novalidate" then Some(SshSigCheckNoValidate)
    else if op == "find-principals" then Some(SshSigFindPrincipals)
    else None
  }

  /** Every field but the mode. Each option is its last value; the message file is the first
      bare word; the key file is the last `-f`, or without one the second bare word. */
  function Fields(gs: seq<Group>): Parsed {
    Parsed(
      GenerateKey,
      LastValue(gs, KeyTypeFlag),
      match LastValue(gs, BitsFlag) {
        case None => None
        case Some(v) => Decimal.ParseUnsigned(v, Decimal.U32_MAX)
      },
      if LastValue(gs, FileFlag).Some? then LastValue(gs, FileFlag) else Nth(Bares(gs), 1),
      LastValue(gs, NewPassFlag),
      LastValue(gs, OldPassFlag),
      LastValue(gs, CommentFlag),
      LastValue(gs, NamespaceFlag),
      LastValue(gs, IdentityFlag),
      LastValue(gs, SignatureFlag),
      LastValue(gs, AllowedSignersFlag),
      match LastValue(gs, HashFlag) {
        case None => Sha256
        case Some(v) => match ParseHash(v) { case Some(h) => h case None => Sha256 }
      },
      Nth(Bares(gs), 0))
  }

  /** Mode by precedence: `-Y`, then `-l`, `-y`, `-p`, then generation. */
  function ChosenMode(gs: seq<Group>): Result<Mode, ArgError> {
    match LastValue(gs, OperationFlag)
    case Some(op) =>
      (match OperationMode(op)
       case Some(m) => Ok(m)
       case None => Err(BadOperation(op)))
    case None =>
      if Toggle(ListSwitch) in gs then Ok(PrintFingerprint)
      else if Toggle(ExtractSwitch) in gs then Ok(ExtractPublic)
      else if Toggle(ChangeSwitch) in gs then Ok(ChangePassphrase)
      else Ok(GenerateKey)
  }

  function Reading(gs: seq<Group>): Result<Parsed, ArgError> {
    match FirstFault(gs)
    case Some(e) => Err(e)
    case None =>
      match ChosenMode(gs)
      case Err(e) => Err(e)
      case Ok(m) => Ok(Fields(gs).(mode := m))
  }

  /** What `from_args` computes for an argv. */
  function Parse(args: seq<string>): Result<Parsed, ArgError> {
    Reading(Groups(args))
  }

  // ---------------------------------------------------------------- the loop

  /** Advances past a flag and its value. */
  method TakeValue(args: seq<string>, i: nat, flag: ValueFlag) returns (v: Result<string, ArgError>, j: nat)
    requires i < |args|
    ensures j == if i + 1 < |args| then i + 2 else i + 1
    ensures v == if i + 1 < |args| then Ok(args[i + 1]) else Err(MissingValue(FlagText(flag)))
  {
    j := i + 1;
    if j >= |args| {
      return Err(MissingValue(FlagText(flag))), j;
    }
    v := Ok(args[j]);
    j := j + 1;
  }

  lemma Snoc(gs: seq<Group>, g: Group)
    ensures FirstFault(gs + [g]) == if FirstFault(gs).Some? then FirstFault(gs) else Fault(g)
    ensures forall f :: LastValue(gs + [g], f) ==
                        if g.Valued? && g.flag == f then Some(g.value) else LastValue(gs, f)
    ensures Bares(gs + [g]) == if g.Bare? then Bares(gs) + [g.word] else Bares(gs)
    ensures forall s :: Toggle(s) in gs + [g] <==> Toggle(s) in gs || g == Toggle(s)
  {
    assert (gs + [g])[..|gs + [g]| - 1] == gs;
  }

  lemma FaultStops(done: seq<Group>, rest: seq<Group>)
    requires FirstFault(done).Some?
    ensures FirstFault(done + rest) == FirstFault(done)
  {
    if rest == [] {
      assert done + rest == done;
    } else {
      FaultStops(done, rest[..|rest| - 1]);
      assert done + rest == (done + rest[..|rest| - 1]) + [rest[|rest| - 1]];
      Snoc(done + rest[..|rest| - 1], rest[|rest| - 1]);
    }
  }

  /** A malformed group right after well-formed ones decides the whole reading. */
  lemma Rejects(args: seq<string>, done: seq<Group>, g: Group, rest: seq<Group>)
    requires Groups(args) == done + [g] + rest
    requires FirstFault(done).None? && Fault(g).Some?
    ensures Parse(args) == Err(Fault(g).value)
  {
    hide Groups, LastValue, Bares, Fault;
    Snoc(done, g);
    FaultStops(done + [g], rest);
  }

  /** What remains once every group has been read and none was malformed. */
  lemma AllRead(args: seq<string>, done: seq<Group>)
    requires Groups(args) == done && FirstFault(done).None?
    ensures var op := LastValue(done, OperationFlag);
            Parse(args) ==
            if op.Some? then
              if OperationMode(op.value).None? then Err(BadOperation(op.value))
              else Ok(Fields(done).(mode := OperationMode(op.value).value))
            else
              Ok(Fields(done).(mode := if Toggle(ListSwitch) in done then PrintFingerprint
                                       else if Toggle(ExtractSwitch) in done then ExtractPublic
                                       else if Toggle(ChangeSwitch) in done then ChangePassphrase
                                       else GenerateKey))
  {
    hide Groups, LastValue, Bares, Fields;
  }

  /** The arms of the loop that write a value into the record. */
  method StoreValue(p: Parsed, sshsigOp: Option<string>, f: ValueFlag, v: string, ghost done: seq<Group>)
    returns (r: Result<(Parsed, Option<string>), ArgError>)
    requires p == Fields(done) && sshsigOp == LastValue(done, OperationFlag)
    ensures r.Err? <==> Fault(Valued(f, v)).Some?
    ensures r.Err? ==> r.error == Fault(Valued(f, v)).value
    ensures r.Ok? ==> r.value.0 == Fields(done + [Valued(f, v)])
    ensures r.Ok? ==> r.value.1 == LastValue(done + [Valued(f, v)], OperationFlag)
  {
    hide LastValue, Bares, FirstFault, Decimal.ParseUnsigned, ParseHash, Lower;
    Snoc(done, Valued(f, v));
    var q, op := p, sshsigOp;
    match f {
      case KeyTypeFlag => q := q.(keyType := Some(v));
      case BitsFlag =>
        var n := Decimal.ParseUnsigned(v, Decimal.U32_MAX);
        if n.None? {
          return Err(BadInteger(v));
        }
        q := q.(bits := n);
      case FileFlag => q := q.(file := Some(v));
      case NewPassFlag => q := q.(newPassphrase := Some(v));
      case OldPassFlag => q := q.(oldPassphrase := Some(v));
      case CommentFlag => q := q.(comment := Some(v));
      case NamespaceFlag => q := q.(namespace := Some(v));
      case IdentityFlag => q := q.(signerIdentity := Some(v));
      case SignatureFlag => q := q.(signatureFile := Some(v));
      case HashFlag =>
        var h := ParseHash(v);
        if h.None? {
          return Err(BadHash(Lower(v)));
        }
        q := q.(fingerprintHash := h.value);
      case OperationFlag => op := Some(v);
      case AllowedSignersFlag => q := q.(allowedSigners := Some(v));
      case OptionFlag =>
    }
    r := Ok((q, op));
  }

  /** A bare word seeds the message file, then the key file, and is otherwise dropped. */
  lemma BareStep(done: seq<Group>, w: string)
    ensures Fields(done + [Bare(w)]) ==
            var p := Fields(done);
            if p.messageFile.None? then p.(messageFile := Some(w))
            else if p.file.None? then p.(file := Some(w))
            else p
  {
    Snoc(done, Bare(w));
  }

  lemma InertStep(done: seq<Group>, g: Group)
    requires !g.Valued? && !g.Bare?
    ensures Fields(done + [g]) == Fields(done)
  {
    Snoc(done, g);
  }

  /** One iteration reads one more group. */
  lemma Advance(args: seq<string>, i: nat, done: seq<Group>) returns (g: Group, next: seq<Group>)
    requires i < |args| && !Classify(args[i]).Terminator?
    requires Groups(args) == done + Groups(args[i..])
    ensures g == GroupFor(Classify(args[i]), args[i..]) && i + Width(g) <= |args|
    ensures next == Groups(args[i + Width(g)..])
    ensures Groups(args) == done + [g] + next
    ensures FirstFault(done).None? && Fault(g).None? ==> FirstFault(done + [g]).None?
    ensures LastValue(done + [g], OperationFlag) ==
            if g.Valued? && g.flag == OperationFlag then Some(g.value) else LastValue(done, OperationFlag)
    ensures forall s :: Toggle(s) in done + [g] <==> Toggle(s) in done || g == Toggle(s)
  {
    g := HeadGroup(args[i..]);
    assert args[i..][Width(g)..] == args[i + Width(g)..];
    next := Groups(args[i + Width(g)..]);
    assert done + ([g] + next) == done + [g] + next;
    Snoc(done, g);
  }

  lemma NoneLeft(rest: seq<string>)
    requires rest == [] || Classify(rest[0]).Terminator?
    ensures Groups(rest) == []
  {
  }

  lemma NothingRead()
    ensures FirstFault([]).None? && LastValue([], OperationFlag) == None
    ensures Fields([]) == Parsed(GenerateKey, None, None, None, None, None, None, None, None, None, None, Sha256, None)
  {
  }

  method FromArgs(args: seq<string>) returns (r: Result<Parsed, ArgError>)
    ensures r == Parse(args)
  {
    hide Classify, HeadGroup, Groups, Parse, Fields, LastValue, FirstFault;
    hide OperationMode, ParseHash, Decimal.ParseUnsigned, Lower, FlagText;
    NothingRead();
    var p := Parsed(GenerateKey, None, None, None, None, None, None, None, None, None, None, Sha256, None);
    var sawList, sawExtract, sawChange := false, false, false;
    var sshsigOp: Option<string> := None;
    var i := 0;
    ghost var done: seq<Group> := [];
    while i < |args|
      invariant 0 <= i <= |args|
      invariant Groups(args) == done + Groups(args[i..])
      invariant FirstFault(done).None?
      invariant p == Fields(done)
      invariant sawList == (Toggle(ListSwitch) in done)
      invariant sawExtract == (Toggle(ExtractSwitch) in done)
      invariant sawChange == (Toggle(ChangeSwitch) in done)
      invariant sshsigOp == LastValue(done, OperationFlag)
    {
      var a := args[i];
      if Classify(a).Terminator? {
        break;
      }
      ghost var g, next := Advance(args, i, done);
      match Classify(a)
      case TakesValue(f) =>
        var taken, j := TakeValue(args, i, f);
        if taken.Err? {
          Rejects(args, done, g, next);
          return Err(taken.error);
        }
        var stored := StoreValue(p, sshsigOp, f, taken.value, done);
        if stored.Err? {
          Rejects(args, done, g, next);
          return Err(stored.error);
        }
        p, sshsigOp := stored.value.0, stored.value.1;
        done := done + [g];
        i := j;
      case Toggles(s) =>
        InertStep(done, g);
        match s {
          case ListSwitch => sawList := true;
          case ExtractSwitch => sawExtract := true;
          case ChangeSwitch => sawChange := true;
        }
        done := done + [g];
        i := i + 1;
      case Ignored =>
        InertStep(done, g);
        done := done + [g];
        i := i + 1;
      case Unsupported =>
        Rejects(args, done, g, next);
        return Err(UnsupportedFlag(a));
      case Positional =>
        BareStep(done, a);
        if p.messageFile.None? {
          p := p.(messageFile := Some(a));
        } else if p.file.None? {
          p := p.(file := Some(a));
        }
        done := done + [g];
        i := i + 1;
    }
    NoneLeft(args[i..]);
    assert done + [] == done;
    AllRead(args, done);
    if sshsigOp.Some? {
      var m := OperationMode(sshsigOp.value);
      if m.None? {
        return Err(BadOperation(sshsigOp.value));
      }
      p := p.(mode := m.value);
    } else if sawList {
      p := p.(mode := PrintFingerprint);
    } else if sawExtract {
      p := p.(mode := ExtractPublic);
    } else if sawChange {
      p := p.(mode := ChangePassphrase);
    } else {
      p := p.(mode := GenerateKey);
    }
    r := Ok(p);
  }
}
