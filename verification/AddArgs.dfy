/** The argv compiler of `gitway-add`: the loop of `Parsed::from_args` and the reading of the
    command line that it computes. */
module AddArgs {
  import opened Wrappers
  import opened HashArg
  import Decimal
  import DefaultKeys

  datatype Mode =
    | List(full: bool)
    | RemoveOne(path: string)
    | RemoveAll
    | Lock
    | Unlock
    | Add(paths: seq<string>)

  datatype Parsed = Parsed(
    mode: Mode,
    hash: HashAlg,
    lifetime: Option<nat>,
    confirm: bool,
    biometric: bool,
    noBiometric: bool)

  datatype ArgError =
    | MissingValue(flag: string)
    | BadLifetime(text: string)
    | BadHash(text: string)
    | ModeConflict(flag: string)
    | UnsupportedFlag(word: string)
    | BiometricConflict
    | Defaults(cause: DefaultKeys.PathError)

  /** The default identities, looked up only when they are needed. */
  type DefaultPaths = Result<seq<string>, DefaultKeys.PathError>

  // ---------------------------------------------------------------- words

  datatype ValueFlag = RemoveFlag | LifetimeFlag | HashFlag

  datatype Switch = ConfirmSwitch | BiometricSwitch | NoBiometricSwitch

  datatype Word =
    | Selects(mode: Mode)
    | TakesValue(flag: ValueFlag)
    | Toggles(switch: Switch)
    | Ignored
    | Terminator
    | Unsupported
    | Positional

  function FlagText(f: ValueFlag): string {
    match f
    case RemoveFlag => "-d"
    case LifetimeFlag => "-t"
    case HashFlag => "-E"
  }

  function SwitchText(s: Switch): string {
    match s
    case ConfirmSwitch => "-c"
    case BiometricSwitch => "--biometric"
    case NoBiometricSwitch => "--no-biometric"
  }

  function ModeText(m: Mode): string {
    match m
    case List(full) => if full then "-L" else "-l"
    case RemoveOne(_) => "-d"
    case RemoveAll => "-D"
    case Lock => "-x"
    case Unlock => "-X"
    case Add(_) => "--"
  }

  /** Flags of ssh-add that take part in nothing here. */
  predicate IgnoredFlag(a: string) {
    a == "-q" || a == "-v" || a == "-vv" || a == "-vvv" || a == "-H" ||
    a == "-T" || a == "-s" || a == "-S" || a == "-e" || a == "-k"
  }

  /** The arms of the match in the argv loop, in order. */
  function Classify(a: string): Word {
    if a == "-l" then Selects(List(false))
    else if a == "-L" then Selects(List(true))
    else if a == "-D" then Selects(RemoveAll)
    else if a == "-x" then Selects(Lock)
    else if a == "-X" then Selects(Unlock)
    else if a == "-c" then Toggles(ConfirmSwitch)
    else if a == "--biometric" then Toggles(BiometricSwitch)
    else if a == "--no-biometric" then Toggles(NoBiometricSwitch)
    else if a == "-d" then TakesValue(RemoveFlag)
    else if a == "-t" then TakesValue(LifetimeFlag)
    else if a == "-E" then TakesValue(HashFlag)
    else if IgnoredFlag(a) then Ignored
    else if a == "--" then Terminator
    else if |a| > 0 && a[0] == '-' then Unsupported
    else Positional
  }

  predicate Selectable(m: Mode) {
    !m.RemoveOne? && !m.Add?
  }

  lemma ClassifyFlagText(f: ValueFlag)
    ensures Classify(FlagText(f)) == TakesValue(f)
  {
    assert |FlagText(f)| == 2 && FlagText(f)[1] == FlagText(f)[1];
  }

  lemma ClassifySwitchText(s: Switch)
    ensures Classify(SwitchText(s)) == Toggles(s)
  {
    assert SwitchText(s)[1] == SwitchText(s)[1];
    assert |SwitchText(BiometricSwitch)| == 11 && |SwitchText(NoBiometricSwitch)| == 14;
  }

  lemma ClassifyModeText(m: Mode)
    requires Selectable(m)
    ensures Classify(ModeText(m)) == Selects(m)
  {
    assert |ModeText(m)| == 2 && ModeText(m)[1] == ModeText(m)[1];
  }

  // ---------------------------------------------------------------- groups

  /** A maximal run of slots the loop consumes in one iteration. */
  datatype Group =
    | Select(mode: Mode)
    | Valued(flag: ValueFlag, value: string)
    | Toggle(switch: Switch)
    | Noise(word: string)
    | Bare(word: string)
    | Rest(words: seq<string>)
    | Missing(flag: ValueFlag)
    | Unknown(word: string)

  /** The group that starts with a word of a given meaning. */
  function GroupFor(w: Word, args: seq<string>): Group
    requires args != []
  {
    match w
    case Selects(m) => Select(m)
    case TakesValue(f) => if |args| == 1 then Missing(f) else Valued(f, args[1])
    case Toggles(s) => Toggle(s)
    case Ignored => Noise(args[0])
    case Terminator => Rest(args[1..])
    case Unsupported => Unknown(args[0])
    case Positional => Bare(args[0])
  }

  function HeadGroup(args: seq<string>): Group
    requires args != []
  {
    GroupFor(Classify(args[0]), args)
  }

  function Width(g: Group): (w: nat)
    ensures w > 0
  {
    match g
    case Valued(_, _) => 2
    case Rest(words) => 1 + |words|
    case _ => 1
  }

  function Groups(args: seq<string>): seq<Group>
    decreases |args|
  {
    if args == [] then []
    else
      var g := HeadGroup(args);
      [g] + Groups(args[Width(g)..])
  }

  /** What makes a group malformed on its own, if anything. */
  function Fault(g: Group): Option<ArgError> {
    match g
    case Missing(f) => Some(MissingValue(FlagText(f)))
    case Unknown(w) => Some(UnsupportedFlag(w))
    case Valued(LifetimeFlag, v) =>
      if Decimal.ParseUnsigned(v, Decimal.U64_MAX).Some? then None else Some(BadLifetime(v))
    case Valued(HashFlag, v) =>
      if ParseHash(v).Some? then None else Some(BadHash(Lower(v)))
    case _ => None
  }

  /** The operation a group asks for, if any. */
  function Choice(g: Group): Option<Mode> {
    match g
    case Select(m) => Some(m)
    case Valued(RemoveFlag, v) => Some(RemoveOne(v))
    case _ => None
  }

  /** The first operation asked for. */
  function Selected(gs: seq<Group>): Option<Mode> {
    if gs == [] then None
    else
      var front := Selected(gs[..|gs| - 1]);
      if front.Some? then front else Choice(gs[|gs| - 1])
  }

  /** The first thing wrong with a command line some part of which has already been read;
      `taken` says whether that part asked for an operation. */
  function FirstFault(gs: seq<Group>, taken: bool): Option<ArgError> {
    if gs == [] then None
    else
      var front, g := gs[..|gs| - 1], gs[|gs| - 1];
      var earlier := FirstFault(front, taken);
      if earlier.Some? then earlier
      else if Fault(g).Some? then Fault(g)
      else if Choice(g).Some? && (taken || Selected(front).Some?) then Some(ModeConflict(ModeText(Choice(g).value)))
      else None
  }

  function LastValue(gs: seq<Group>, f: ValueFlag): Option<string> {
    if gs == [] then None
    else
      var g := gs[|gs| - 1];
      if g.Valued? && g.flag == f then Some(g.value) else LastValue(gs[..|gs| - 1], f)
  }

  /** A bare word is a path, and so is everything after `--`. */
  function AddPaths(front: seq<string>, g: Group): seq<string> {
    match g
    case Bare(w) => front + [w]
    case Rest(words) => front + words
    case _ => front
  }

  /** The paths given, in order. */
  function Paths(gs: seq<Group>): seq<string> {
    if gs == [] then [] else AddPaths(Paths(gs[..|gs| - 1]), gs[|gs| - 1])
  }

  function HashOf(gs: seq<Group>): HashAlg {
    match LastValue(gs, HashFlag)
    case None => Sha256
    case Some(v) => match ParseHash(v) { case Some(h) => h case None => Sha256 }
  }

  function LifetimeOf(gs: seq<Group>): Option<nat> {
    match LastValue(gs, LifetimeFlag)
    case None => None
    case Some(v) => Decimal.ParseUnsigned(v, Decimal.U64_MAX)
  }

  function Reading(gs: seq<Group>, defaults: DefaultPaths): Result<Parsed, ArgError> {
    if FirstFault(gs, false).Some? then Err(FirstFault(gs, false).value)
    else if Selected(gs).None? && Paths(gs) == [] && defaults.Err? then Err(Defaults(defaults.error))
    else if Toggle(BiometricSwitch) in gs && Toggle(NoBiometricSwitch) in gs then Err(BiometricConflict)
    else
      var mode :=
        if Selected(gs).Some? then Selected(gs).value
        else if Paths(gs) == [] then Add(defaults.value)
        else Add(Paths(gs));
      Ok(Parsed(mode, HashOf(gs), LifetimeOf(gs),
                Toggle(ConfirmSwitch) in gs, Toggle(BiometricSwitch) in gs, Toggle(NoBiometricSwitch) in gs))
  }

  /** What `from_args` computes for an argv. */
  function Parse(args: seq<string>, defaults: DefaultPaths): Result<Parsed, ArgError> {
    Reading(Groups(args), defaults)
  }

  // ---------------------------------------------------------------- the loop

  method Take(args: seq<string>, i: nat, flag: ValueFlag) returns (v: Result<string, ArgError>, j: nat)
    requires i < |args|
    ensures j == if i + 1 < |args| then i + 2 else i + 1
    ensures v == if i + 1 < |args| then Ok(args[i + 1]) else Err(MissingValue(FlagText(flag)))
  {
    j := i + 1;
    if j >= |args| {
      return Err(MissingValue(FlagText(flag))), j;
    }
    v := Ok(args[j]);
    j := j + 1;
  }

  /** Fills the operation slot, which may be filled only once. */
  method SetMode(slot: Option<Mode>, chosen: Mode) returns (r: Result<Mode, ArgError>)
    ensures r == if slot.Some? then Err(ModeConflict(ModeText(chosen))) else Ok(chosen)
  {
    if slot.Some? {
      return Err(ModeConflict(ModeText(chosen)));
    }
    r := Ok(chosen);
  }

  lemma Snoc(gs: seq<Group>, g: Group)
    ensures Selected(gs + [g]) == if Selected(gs).Some? then Selected(gs) else Choice(g)
    ensures forall f :: LastValue(gs + [g], f) ==
                        if g.Valued? && g.flag == f then Some(g.value) else LastValue(gs, f)
    ensures Paths(gs + [g]) == AddPaths(Paths(gs), g)
    ensures forall s :: Toggle(s) in gs + [g] <==> Toggle(s) in gs || g == Toggle(s)
    ensures forall taken :: FirstFault(gs + [g], taken) ==
              if FirstFault(gs, taken).Some? then FirstFault(gs, taken)
              else if Fault(g).Some? then Fault(g)
              else if Choice(g).Some? && (taken || Selected(gs).Some?) then
                Some(ModeConflict(ModeText(Choice(g).value)))
              else None
  {
    assert (gs + [g])[..|gs + [g]| - 1] == gs;
  }

  lemma {:induction false} FaultStops(done: seq<Group>, rest: seq<Group>)
    requires FirstFault(done, false).Some?
    ensures FirstFault(done + rest, false) == FirstFault(done, false)
  {
    if rest == [] {
      assert done + rest == done;
    } else {
      FaultStops(done, rest[..|rest| - 1]);
      assert (done + rest)[..|done + rest| - 1] == done + rest[..|rest| - 1];
    }
  }

  /** A command line that has gone wrong once stays wrong. */
  lemma Rejects(args: seq<string>, done: seq<Group>, g: Group, rest: seq<Group>, defaults: DefaultPaths)
    requires Groups(args) == done + [g] + rest
    requires FirstFault(done + [g], false).Some?
    ensures Parse(args, defaults) == Err(FirstFault(done + [g], false).value)
  {
    FaultStops(done + [g], rest);
  }

  /** The loop's variables after the groups in `gs`. */
  datatype Progress = Progress(
    mode: Option<Mode>, paths: seq<string>, hash: HashAlg, lifetime: Option<nat>,
    confirm: bool, biometric: bool, noBiometric: bool)

  function ProgressOf(gs: seq<Group>): Progress {
    Progress(Selected(gs), Paths(gs), HashOf(gs), LifetimeOf(gs),
             Toggle(ConfirmSwitch) in gs, Toggle(BiometricSwitch) in gs, Toggle(NoBiometricSwitch) in gs)
  }

  /** One iteration reads one more group. */
  lemma Advance(args: seq<string>, i: nat, done: seq<Group>) returns (g: Group, next: seq<Group>)
    requires i < |args|
    requires Groups(args) == done + Groups(args[i..])
    ensures g == GroupFor(Classify(args[i]), args[i..]) && i + Width(g) <= |args|
    ensures g.Rest? ==> g.words == args[i + 1..] && i + Width(g) == |args|
    ensures next == Groups(args[i + Width(g)..])
    ensures Groups(args) == done + [g] + next
  {
    hide Classify;
    g := HeadGroup(args[i..]);
    assert args[i..][Width(g)..] == args[i + Width(g)..];
    next := Groups(args[i + Width(g)..]);
    assert done + ([g] + next) == done + [g] + next;
  }

  lemma AllRead(args: seq<string>, done: seq<Group>, defaults: DefaultPaths)
    requires Groups(args) == done
    ensures Parse(args, defaults) == Reading(done, defaults)
  {
  }

  lemma NothingRead()
    ensures Groups([]) == [] && FirstFault([], false).None?
    ensures ProgressOf([]) == Progress(None, [], Sha256, None, false, false, false)
  {
  }

  /** What one more group does to the loop's variables, unless it ends the loop. */
  function Apply(p: Progress, g: Group): Progress {
    match g
    case Select(m) => p.(mode := Some(m))
    case Valued(RemoveFlag, v) => p.(mode := Some(RemoveOne(v)))
    case Valued(LifetimeFlag, v) => p.(lifetime := Decimal.ParseUnsigned(v, Decimal.U64_MAX))
    case Valued(HashFlag, v) => if ParseHash(v).Some? then p.(hash := ParseHash(v).value) else p
    case Toggle(ConfirmSwitch) => p.(confirm := true)
    case Toggle(BiometricSwitch) => p.(biometric := true)
    case Toggle(NoBiometricSwitch) => p.(noBiometric := true)
    case Bare(w) => p.(paths := p.paths + [w])
    case Rest(words) => p.(paths := p.paths + words)
    case _ => p
  }

  lemma Absorb(done: seq<Group>, g: Group)
    requires FirstFault(done, false).None?
    ensures FirstFault(done + [g], false) ==
            if Fault(g).Some? then Fault(g)
            else if Choice(g).Some? && ProgressOf(done).mode.Some? then Some(ModeConflict(ModeText(Choice(g).value)))
            else None
    ensures FirstFault(done + [g], false).None? ==> ProgressOf(done + [g]) == Apply(ProgressOf(done), g)
  {
    hide Selected, Paths, LastValue, FirstFault, Decimal.ParseUnsigned, ParseHash, FlagText, ModeText, Lower;
    Snoc(done, g);
    if FirstFault(done + [g], false).None? {
      AbsorbProgress(done, g);
    }
  }

  lemma AbsorbProgress(done: seq<Group>, g: Group)
    requires Fault(g).None? && (Choice(g).Some? ==> Selected(done).None?)
    ensures ProgressOf(done + [g]) == Apply(ProgressOf(done), g)
  {
    hide Selected, Paths, LastValue, FirstFault, Decimal.ParseUnsigned, ParseHash, FlagText, ModeText, Lower;
    Snoc(done, g);
    assert HashOf(done + [g]) == if g.Valued? && g.flag.HashFlag? then ParseHash(g.value).value else HashOf(done);
    assert LifetimeOf(done + [g]) ==
           if g.Valued? && g.flag.LifetimeFlag? then Decimal.ParseUnsigned(g.value, Decimal.U64_MAX)
           else LifetimeOf(done);
    hide Fault, HashOf, LifetimeOf;
  }

  /** Everything after `--` is a positional path. */
  method PushRest(args: seq<string>, start: nat, before: seq<string>) returns (paths: seq<string>, i: nat)
    requires start <= |args|
    ensures i == |args|
    ensures paths == before + args[start..]
  {
    paths, i := before, start;
    while i < |args|
      invariant start <= i <= |args|
      invariant paths == before + args[start..i]
    {
      paths := paths + [args[i]];
      i := i + 1;
    }
  }

  /** A flag that takes a value, as the loop meets it. */
  function ValuedFlag(f: ValueFlag, args: seq<string>, i: nat): Group {
    if i + 1 < |args| then Valued(f, args[i + 1]) else Missing(f)
  }

  /** The arms of the loop that take a value and use it. */
  method TakeAndStore(
    args: seq<string>, i: nat, f: ValueFlag, mode: Option<Mode>, lifetime: Option<nat>, hash: HashAlg,
    ghost before: Progress)
    returns (r: Result<(Option<Mode>, Option<nat>, HashAlg), ArgError>, j: nat)
    requires i < |args| && (before.mode, before.lifetime, before.hash) == (mode, lifetime, hash)
    ensures var g := ValuedFlag(f, args, i);
            && j == i + Width(g)
            && (r.Err? <==> Fault(g).Some? || (Choice(g).Some? && mode.Some?))
            && (r.Err? ==> r.error == if Fault(g).Some? then Fault(g).value
                                      else ModeConflict(ModeText(Choice(g).value)))
            && (r.Ok? ==> Apply(before, g) == before.(mode := r.value.0, lifetime := r.value.1, hash := r.value.2))
  {
    hide Decimal.ParseUnsigned, ParseHash, Lower;
    var taken, next := Take(args, i, f);
    j := next;
    if taken.Err? {
      return Err(taken.error), j;
    }
    var v := taken.value;
    match f {
      case RemoveFlag =>
        var chosen := SetMode(mode, RemoveOne(v));
        if chosen.Err? {
          return Err(chosen.error), j;
        }
        r := Ok((Some(chosen.value), lifetime, hash));
      case LifetimeFlag =>
        var n := Decimal.ParseUnsigned(v, Decimal.U64_MAX);
        if n.None? {
          return Err(BadLifetime(v)), j;
        }
        r := Ok((mode, n, hash));
      case HashFlag =>
        var alg := ParseHash(v);
        if alg.None? {
          return Err(BadHash(Lower(v))), j;
        }
        r := Ok((mode, lifetime, alg.value));
    }
  }

  /** After the loop: the default operation, then the one conflict checked last. */
  method Conclude(mode: Option<Mode>, paths: seq<string>, hash: HashAlg, lifetime: Option<nat>, confirm: bool,
                  biometric: bool, noBiometric: bool, home: Option<string>, files: set<string>,
                  ghost done: seq<Group>)
    returns (r: Result<Parsed, ArgError>)
    requires FirstFault(done, false).None?
    requires ProgressOf(done) == Progress(mode, paths, hash, lifetime, confirm, biometric, noBiometric)
    ensures r == Reading(done, DefaultKeys.DefaultKeyPaths(home, files))
  {
    var chosen: Mode;
    if mode.Some? {
      chosen := mode.value;
    } else if paths == [] {
      var defaults := DefaultKeys.DefaultKeyPaths(home, files);
      if defaults.Err? {
        return Err(Defaults(defaults.error));
      }
      chosen := Add(defaults.value);
    } else {
      chosen := Add(paths);
    }
    if biometric && noBiometric {
      return Err(BiometricConflict);
    }
    r := Ok(Parsed(chosen, hash, lifetime, confirm, biometric, noBiometric));
  }

  /** `from_args`; the home directory and the existing files decide the default identities. */
  method FromArgs(args: seq<string>, home: Option<string>, files: set<string>) returns (r: Result<Parsed, ArgError>)
    ensures r == Parse(args, DefaultKeys.DefaultKeyPaths(home, files))
  {
    ghost var defaults := DefaultKeys.DefaultKeyPaths(home, files);
    hide DefaultKeys.DefaultKeyPaths, Classify, HeadGroup, Groups, Parse, Reading;
    hide ProgressOf, FirstFault, Selected, FlagText, ModeText, ParseHash, Lower, Decimal.ParseUnsigned;
    NothingRead();
    var hash := Sha256;
    var lifetime: Option<nat> := None;
    var confirm, biometric, noBiometric := false, false, false;
    var mode: Option<Mode> := None;
    var paths: seq<string> := [];
    var i := 0;
    ghost var done: seq<Group> := [];
    while i < |args|
      invariant 0 <= i <= |args|
      invariant Groups(args) == done + Groups(args[i..])
      invariant FirstFault(done, false).None?
      invariant ProgressOf(done) == Progress(mode, paths, hash, lifetime, confirm, biometric, noBiometric)
    {
      var a := args[i];
      ghost var g, next := Advance(args, i, done);
      Absorb(done, g);
      match Classify(a) {
        case Selects(m) =>
          assert g == Select(m);
          var chosen := SetMode(mode, m);
          if chosen.Err? {
            Rejects(args, done, g, next, defaults);
            return Err(chosen.error);
          }
          mode := Some(chosen.value);
          i := i + 1;
          done := done + [g];
        case Toggles(s) =>
          assert g == Toggle(s);
          match s {
            case ConfirmSwitch => confirm := true;
            case BiometricSwitch => biometric := true;
            case NoBiometricSwitch => noBiometric := true;
          }
          i := i + 1;
          done := done + [g];
        case TakesValue(f) =>
          assert g == ValuedFlag(f, args, i);
          var stored, j := TakeAndStore(args, i, f, mode, lifetime, hash, ProgressOf(done));
          if stored.Err? {
            Rejects(args, done, g, next, defaults);
            return Err(stored.error);
          }
          mode, lifetime, hash := stored.value.0, stored.value.1, stored.value.2;
          i := j;
          done := done + [g];
        case Ignored =>
          assert g == Noise(a);
          i := i + 1;
          done := done + [g];
        case Terminator =>
          assert g == Rest(args[i + 1..]);
          paths, i := PushRest(args, i + 1, paths);
          done := done + [g];
        case Unsupported =>
          assert g == Unknown(a);
          Rejects(args, done, g, next, defaults);
          return Err(UnsupportedFlag(a));
        case Positional =>
          assert g == Bare(a);
          paths := paths + [a];
          i := i + 1;
          done := done + [g];
      }
    }
    assert Groups(args) == done by {
      assert args[i..] == [];
    }
    AllRead(args, done, defaults);
    r := Conclude(mode, paths, hash, lifetime, confirm, biometric, noBiometric, home, files, done);
  }
}
