/** What the reading of a `gitway-add` command line guarantees: every slot is used exactly
    once, ignored flags are inert, and every record the parser can produce is produced by its
    own rendering through `--`. */
module AddLaws {
  import opened Wrappers
  import opened HashArg
  import opened AddArgs
  import opened Sequences
  import Decimal
  import DefaultKeys

  // ------------------------------------------------------- slots and groups

  /** The argv slots a group was read from. */
  function Slots(g: Group): (s: seq<string>)
    ensures |s| == Width(g)
  {
    match g
    case Select(m) => [ModeText(m)]
    case Valued(f, v) => [FlagText(f), v]
    case Toggle(s) => [SwitchText(s)]
    case Noise(w) => [w]
    case Bare(w) => [w]
    case Rest(words) => ["--"] + words
    case Missing(f) => [FlagText(f)]
    case Unknown(w) => [w]
  }

  function Flatten(gs: seq<Group>): seq<string> {
    if gs == [] then [] else Slots(gs[0]) + Flatten(gs[1..])
  }

  /** Groups whose words are of the kind the loop would take them for. */
  predicate Genuine(g: Group) {
    match g
    case Select(m) => Selectable(m)
    case Noise(w) => Classify(w).Ignored?
    case Bare(w) => Classify(w).Positional?
    case Unknown(w) => Classify(w).Unsupported?
    case _ => true
  }

  predicate AllGenuine(gs: seq<Group>) {
    forall k :: 0 <= k < |gs| ==> Genuine(gs[k])
  }

  /** No group that can only be the last one. */
  predicate Open(gs: seq<Group>) {
    forall k :: 0 <= k < |gs| ==> !gs[k].Missing? && !gs[k].Rest?
  }

  lemma HeadGroupSlots(args: seq<string>)
    requires args != []
    ensures var g := HeadGroup(args);
            Genuine(g) && Width(g) <= |args| && Slots(g) == args[..Width(g)]
  {
  }

  lemma HeadGroupOfSlots(g: Group, tail: seq<string>)
    requires Genuine(g) && !g.Missing? && !g.Rest?
    ensures HeadGroup(Slots(g) + tail) == g
  {
    match g {
      case Select(m) => ClassifyModeText(m);
      case Valued(f, v) => ClassifyFlagText(f);
      case Toggle(s) => ClassifySwitchText(s);
      case _ =>
    }
  }

  /** Every argv slot is consumed exactly once and in order: as a flag, as the value of the
      flag before it, as `--`, or as a path. */
  lemma {:induction false} SlotsConsumedOnce(args: seq<string>)
    ensures AllGenuine(Groups(args)) && Flatten(Groups(args)) == args
  {
    hide Classify, HeadGroup, Slots;
    if args != [] {
      var g := HeadGroup(args);
      HeadGroupSlots(args);
      SlotsConsumedOnce(args[Width(g)..]);
      assert Groups(args)[1..] == Groups(args[Width(g)..]);
      SplitAt(args, Width(g));
    }
  }

  lemma GroupsStep(g: Group, rest: seq<string>)
    requires Genuine(g) && !g.Missing? && !g.Rest?
    ensures Groups(Slots(g) + rest) == [g] + Groups(rest)
  {
    hide Classify;
    HeadGroupOfSlots(g, rest);
    DropFront(Slots(g), rest);
  }

  /** Well-formed groups read back as themselves, whatever follows them. */
  lemma {:induction false} GroupsOfFlatten(gs: seq<Group>, tail: seq<string>)
    requires AllGenuine(gs) && Open(gs)
    ensures Groups(Flatten(gs) + tail) == gs + Groups(tail)
  {
    hide Classify, HeadGroup, Groups, Slots;
    if gs == [] {
      assert Flatten(gs) + tail == tail;
    } else {
      var g, front := gs[0], Flatten(gs[1..]);
      GroupsOfFlatten(gs[1..], tail);
      GroupsStep(g, front + tail);
      Regroup3(Slots(g), front, tail);
      Regroup3([g], gs[1..], Groups(tail));
      assert [g] + gs[1..] == gs;
    }
  }

  /** An argv that ends at a group boundary with no `--` in it. */
  predicate Closed(args: seq<string>) {
    Open(Groups(args))
  }

  /** The loop composes over concatenation at a group boundary. */
  lemma GroupsCompose(a: seq<string>, b: seq<string>)
    requires Closed(a)
    ensures Groups(a + b) == Groups(a) + Groups(b)
  {
    SlotsConsumedOnce(a);
    GroupsOfFlatten(Groups(a), b);
  }

  // ------------------------------------------------------ reading piecewise

  lemma {:induction false} LastValueAppend(a: seq<Group>, b: seq<Group>, f: ValueFlag)
    ensures LastValue(a + b, f) == if LastValue(b, f).Some? then LastValue(b, f) else LastValue(a, f)
  {
    if b == [] {
      assert a + b == a;
    } else {
      LastValueAppend(a, b[..|b| - 1], f);
      assert (a + b)[..|a + b| - 1] == a + b[..|b| - 1];
    }
  }

  lemma {:induction false} PathsAppend(a: seq<Group>, b: seq<Group>)
    ensures Paths(a + b) == Paths(a) + Paths(b)
  {
    if b == [] {
      assert a + b == a;
    } else {
      PathsAppend(a, b[..|b| - 1]);
      assert (a + b)[..|a + b| - 1] == a + b[..|b| - 1];
      assert AddPaths(Paths(a) + Paths(b[..|b| - 1]), b[|b| - 1]) ==
             Paths(a) + AddPaths(Paths(b[..|b| - 1]), b[|b| - 1]);
    }
  }

  lemma {:induction false} SelectedAppend(a: seq<Group>, b: seq<Group>)
    ensures Selected(a + b) == if Selected(a).Some? then Selected(a) else Selected(b)
  {
    if b == [] {
      assert a + b == a;
    } else {
      SelectedAppend(a, b[..|b| - 1]);
      assert (a + b)[..|a + b| - 1] == a + b[..|b| - 1];
    }
  }

  lemma {:induction false} FirstFaultAppend(a: seq<Group>, b: seq<Group>, taken: bool)
    ensures FirstFault(a + b, taken) ==
            if FirstFault(a, taken).Some? then FirstFault(a, taken)
            else FirstFault(b, taken || Selected(a).Some?)
  {
    if b == [] {
      assert a + b == a;
    } else {
      FirstFaultAppend(a, b[..|b| - 1], taken);
      SelectedAppend(a, b[..|b| - 1]);
      assert (a + b)[..|a + b| - 1] == a + b[..|b| - 1];
    }
  }

  /** Everything the reading depends on. */
  ghost predicate SameMeaning(x: seq<Group>, y: seq<Group>) {
    && (forall f :: LastValue(x, f) == LastValue(y, f))
    && (forall s :: Toggle(s) in x <==> Toggle(s) in y)
    && (forall taken :: FirstFault(x, taken) == FirstFault(y, taken))
    && Selected(x) == Selected(y)
    && Paths(x) == Paths(y)
  }

  lemma SameReading(x: seq<Group>, y: seq<Group>, defaults: DefaultPaths)
    requires SameMeaning(x, y)
    ensures Reading(x, defaults) == Reading(y, defaults)
  {
    assert LastValue(x, HashFlag) == LastValue(y, HashFlag);
    assert LastValue(x, LifetimeFlag) == LastValue(y, LifetimeFlag);
  }

  lemma Congruence(a: seq<Group>, x: seq<Group>, y: seq<Group>, b: seq<Group>, defaults: DefaultPaths)
    requires SameMeaning(x, y)
    ensures Reading(a + x + b, defaults) == Reading(a + y + b, defaults)
  {
    hide FirstFault, Selected, Paths, LastValue;
    forall f ensures LastValue(a + x + b, f) == LastValue(a + y + b, f) {
      LastValueAppend(a, x, f); LastValueAppend(a + x, b, f);
      LastValueAppend(a, y, f); LastValueAppend(a + y, b, f);
    }
    PathsAppend(a, x); PathsAppend(a + x, b);
    PathsAppend(a, y); PathsAppend(a + y, b);
    SelectedAppend(a, x); SelectedAppend(a + x, b);
    SelectedAppend(a, y); SelectedAppend(a + y, b);
    forall taken ensures FirstFault(a + x + b, taken) == FirstFault(a + y + b, taken) {
      FirstFaultAppend(a, x, taken); FirstFaultAppend(a + x, b, taken);
      FirstFaultAppend(a, y, taken); FirstFaultAppend(a + y, b, taken);
    }
    SameReading(a + x + b, a + y + b, defaults);
  }

  // -------------------------------------------------------------- theorems

  predicate AtMostOneChoice(gs: seq<Group>) {
    forall j, k :: 0 <= j < k < |gs| ==> !(Choice(gs[j]).Some? && Choice(gs[k]).Some?)
  }

  lemma {:induction false} SelectedMeaning(gs: seq<Group>)
    ensures Selected(gs).Some? <==> exists k :: 0 <= k < |gs| && Choice(gs[k]).Some?
  {
    if gs != [] {
      SelectedMeaning(gs[..|gs| - 1]);
      if Selected(gs).Some? && Selected(gs[..|gs| - 1]).Some? {
        var k :| 0 <= k < |gs| - 1 && Choice(gs[..|gs| - 1][k]).Some?;
        assert Choice(gs[k]).Some?;
      }
    }
  }

  lemma {:induction false} NoFaultMeaning(gs: seq<Group>)
    ensures FirstFault(gs, false).None? <==>
            (forall k :: 0 <= k < |gs| ==> Fault(gs[k]).None?) && AtMostOneChoice(gs)
  {
    if gs != [] {
      NoFaultMeaning(gs[..|gs| - 1]);
      SelectedMeaning(gs[..|gs| - 1]);
    }
  }

  /** A command line is accepted exactly when no group is malformed, at most one operation is
      asked for, the two biometric flags are not combined, and the default identities exist
      when they are needed. */
  lemma AcceptedIffWellFormed(args: seq<string>, defaults: DefaultPaths)
    ensures var gs := Groups(args);
            Parse(args, defaults).Ok? <==>
            && (forall k :: 0 <= k < |gs| ==> Fault(gs[k]).None?)
            && AtMostOneChoice(gs)
            && !(Toggle(BiometricSwitch) in gs && Toggle(NoBiometricSwitch) in gs)
            && (Selected(gs).None? && Paths(gs) == [] ==> defaults.Ok?)
  {
    NoFaultMeaning(Groups(args));
  }

  /** Inserting any accepted-and-ignored flag at a group boundary before `--` changes neither
      the record nor the error. */
  lemma IgnoredFlagIsInert(a: seq<string>, n: string, b: seq<string>, defaults: DefaultPaths)
    requires Closed(a) && IgnoredFlag(n)
    ensures Parse(a + [n] + b, defaults) == Parse(a + b, defaults)
  {
    var g := Noise(n);
    IgnoredFlagClassified(n);
    NoiseMeaning(g);
    Congruence(Groups(a), [g], [], Groups(b), defaults);
    Regroup3(a, [n], b);
    GroupsCompose(a, [n] + b);
    GroupsCompose(a, b);
    assert Flatten([g]) == [n];
    GroupsOfFlatten([g], b);
    Regroup3(Groups(a), [g], Groups(b));
    assert Groups(a) + [] == Groups(a);
  }

  lemma IgnoredFlagClassified(n: string)
    requires IgnoredFlag(n)
    ensures Classify(n).Ignored?
  {
    assert |n| >= 2 && n[1] == n[1];
  }

  lemma NoiseMeaning(g: Group)
    requires g.Noise?
    ensures SameMeaning([g], [])
  {
    hide FirstFault, Selected, Paths, LastValue, ModeText;
    assert [] + [g] == [g];
    Snoc([], g);
  }

  // ------------------------------------------------------------ round trip

  /** Records some command line can produce, given that default identities are never none. */
  predicate Representable(p: Parsed) {
    && !(p.biometric && p.noBiometric)
    && (p.lifetime.Some? ==> p.lifetime.value <= Decimal.U64_MAX)
    && (p.mode.Add? ==> p.mode.paths != [])
  }

  function When(b: bool, g: Group): seq<Group> {
    if b then [g] else []
  }

  function ModeGroups(m: Mode): seq<Group> {
    match m
    case Add(_) => []
    case RemoveOne(path) => [Valued(RemoveFlag, path)]
    case _ => [Select(m)]
  }

  function SwitchGroups(p: Parsed): seq<Group> {
    ModeGroups(p.mode) + When(p.confirm, Toggle(ConfirmSwitch)) + When(p.biometric, Toggle(BiometricSwitch)) +
    When(p.noBiometric, Toggle(NoBiometricSwitch))
  }

  function LifetimeGroups(p: Parsed): seq<Group> {
    match p.lifetime
    case None => []
    case Some(n) => [Valued(LifetimeFlag, Decimal.Render(n))]
  }

  /** The flags of the canonical command line, before the paths. */
  function FlagGroups(p: Parsed): seq<Group> {
    SwitchGroups(p) + (LifetimeGroups(p) + [Valued(HashFlag, HashName(p.hash))])
  }

  /** The canonical command line: flags, then the paths behind `--`. */
  function Render(p: Parsed): seq<string> {
    Flatten(FlagGroups(p)) + if p.mode.Add? then ["--"] + p.mode.paths else []
  }

  function CanonicalGroups(p: Parsed): seq<Group> {
    FlagGroups(p) + if p.mode.Add? then [Rest(p.mode.paths)] else []
  }

  predicate WellFormed(gs: seq<Group>) {
    AllGenuine(gs) && Open(gs)
  }

  lemma WellFormedConcat(x: seq<Group>, y: seq<Group>)
    requires WellFormed(x) && WellFormed(y)
    ensures WellFormed(x + y)
  {
    hide Genuine;
  }

  lemma FlagGroupsWellFormed(p: Parsed)
    ensures WellFormed(FlagGroups(p))
  {
    var switches, hash := SwitchGroups(p), [Valued(HashFlag, HashName(p.hash))];
    SwitchGroupsWellFormed(p);
    assert WellFormed(hash) && WellFormed(LifetimeGroups(p)) by {
      hide Classify, HashName, Decimal.Render;
    }
    hide WellFormed, SwitchGroups, LifetimeGroups;
    WellFormedConcat(LifetimeGroups(p), hash);
    WellFormedConcat(switches, LifetimeGroups(p) + hash);
  }

  lemma SwitchGroupsWellFormed(p: Parsed)
    ensures WellFormed(SwitchGroups(p))
  {
    var modes, confirm := ModeGroups(p.mode), When(p.confirm, Toggle(ConfirmSwitch));
    var biometric, noBiometric :=
      When(p.biometric, Toggle(BiometricSwitch)), When(p.noBiometric, Toggle(NoBiometricSwitch));
    assert WellFormed(modes) && WellFormed(confirm) && WellFormed(biometric) && WellFormed(noBiometric) by {
      hide Classify;
    }
    hide WellFormed, ModeGroups, When;
    WellFormedConcat(modes, confirm);
    WellFormedConcat(modes + confirm, biometric);
    WellFormedConcat(modes + confirm + biometric, noBiometric);
  }

  lemma GroupsOfRender(p: Parsed)
    ensures Groups(Render(p)) == CanonicalGroups(p)
  {
    hide Classify, HeadGroup, Groups, FlagGroups;
    FlagGroupsWellFormed(p);
    GroupsOfFlatten(FlagGroups(p), if p.mode.Add? then ["--"] + p.mode.paths else []);
    if p.mode.Add? {
      RestRead(p.mode.paths);
    } else {
      NoGroups();
    }
  }

  lemma NoGroups()
    ensures Groups([]) == []
  {
  }

  lemma RestRead(paths: seq<string>)
    ensures Groups(["--"] + paths) == [Rest(paths)]
  {
    var args := ["--"] + paths;
    assert Classify(args[0]) == Terminator && args[1..] == paths;
    assert args[Width(Rest(paths))..] == [];
  }

  /** The loop's variables after one more group of the canonical command line. */
  lemma Emit(gs: seq<Group>, b: bool, g: Group)
    requires FirstFault(gs, false).None?
    requires b ==> Fault(g).None? && (Choice(g).Some? ==> Selected(gs).None?)
    ensures FirstFault(gs + When(b, g), false).None?
    ensures ProgressOf(gs + When(b, g)) == if b then Apply(ProgressOf(gs), g) else ProgressOf(gs)
  {
    if b {
      Absorb(gs, g);
    } else {
      assert gs + [] == gs;
    }
  }

  lemma SwitchProgress(p: Parsed)
    ensures FirstFault(SwitchGroups(p), false).None?
    ensures ProgressOf(SwitchGroups(p)) ==
            Progress(if p.mode.Add? then None else Some(p.mode), [], Sha256, None,
                     p.confirm, p.biometric, p.noBiometric)
  {
    hide FirstFault, Selected, Paths, LastValue, HashOf, LifetimeOf, Decimal.ParseUnsigned, ParseHash;
    NothingRead();
    var gs := ModeGroups(p.mode);
    if gs != [] {
      Emit([], true, gs[0]);
      assert [] + gs == gs;
    }
    Emit(gs, p.confirm, Toggle(ConfirmSwitch));
    gs := gs + When(p.confirm, Toggle(ConfirmSwitch));
    Emit(gs, p.biometric, Toggle(BiometricSwitch));
    gs := gs + When(p.biometric, Toggle(BiometricSwitch));
    Emit(gs, p.noBiometric, Toggle(NoBiometricSwitch));
  }

  lemma CanonicalProgress(p: Parsed)
    requires Representable(p)
    ensures FirstFault(CanonicalGroups(p), false).None?
    ensures ProgressOf(CanonicalGroups(p)) ==
            Progress(if p.mode.Add? then None else Some(p.mode), if p.mode.Add? then p.mode.paths else [],
                     p.hash, p.lifetime, p.confirm, p.biometric, p.noBiometric)
  {
    hide FirstFault, Selected, Paths, LastValue, HashOf, LifetimeOf, Decimal.ParseUnsigned, ParseHash, SwitchGroups;
    SwitchProgress(p);
    ParseHashName(p.hash);
    var gs := SwitchGroups(p);
    if p.lifetime.Some? {
      Decimal.ParseRender(p.lifetime.value, Decimal.U64_MAX);
      Emit(gs, true, LifetimeGroups(p)[0]);
    } else {
      assert gs + [] == gs;
    }
    gs := gs + LifetimeGroups(p);
    Emit(gs, true, Valued(HashFlag, HashName(p.hash)));
    gs := gs + [Valued(HashFlag, HashName(p.hash))];
    Regroup3(SwitchGroups(p), LifetimeGroups(p), [Valued(HashFlag, HashName(p.hash))]);
    if p.mode.Add? {
      Emit(gs, true, Rest(p.mode.paths));
    } else {
      assert gs + [] == gs;
    }
  }

  /** Printing then parsing gives a representable record back, whatever the default identities;
      the paths may start with '-' and the lifetime may be any 64-bit number. */
  lemma RenderParses(p: Parsed, defaults: DefaultPaths)
    requires Representable(p)
    ensures Parse(Render(p), defaults) == Ok(p)
  {
    GroupsOfRender(p);
    CanonicalProgress(p);
  }

  /** The parser's results, whatever identities exist, are exactly the representable records. */
  lemma ParserImage(p: Parsed)
    ensures Representable(p) <==>
            exists args, home, files :: Parse(args, DefaultKeys.DefaultKeyPaths(home, files)) == Ok(p)
  {
    hide Parse, Representable;
    if Representable(p) {
      RenderParses(p, DefaultKeys.DefaultKeyPaths(None, {}));
    }
    forall args, home, files | Parse(args, DefaultKeys.DefaultKeyPaths(home, files)) == Ok(p) ensures Representable(p) {
      ParsedIsRepresentable(args, DefaultKeys.DefaultKeyPaths(home, files));
    }
  }

  lemma ParsedIsRepresentable(args: seq<string>, defaults: DefaultPaths)
    requires defaults.Ok? ==> defaults.value != []
    ensures Parse(args, defaults).Ok? ==> Representable(Parse(args, defaults).value)
  {
    SlotsConsumedOnce(args);
    ChoicesAreNotAdd(Groups(args));
  }

  lemma {:induction false} ChoicesAreNotAdd(gs: seq<Group>)
    requires AllGenuine(gs)
    ensures Selected(gs).Some? ==> !Selected(gs).value.Add?
  {
    if gs != [] {
      ChoicesAreNotAdd(gs[..|gs| - 1]);
    }
  }

  /** Every accepted command line normalises to `flags -- paths` with the same record, which no
      longer depends on the default identities. */
  lemma RenderNormalises(args: seq<string>, home: Option<string>, files: set<string>, others: DefaultPaths)
    requires Parse(args, DefaultKeys.DefaultKeyPaths(home, files)).Ok?
    ensures var r := Parse(args, DefaultKeys.DefaultKeyPaths(home, files)); Parse(Render(r.value), others) == r
  {
    hide Parse, Representable, Render;
    var defaults := DefaultKeys.DefaultKeyPaths(home, files);
    ParsedIsRepresentable(args, defaults);
    RenderParses(Parse(args, defaults).value, others);
  }

  /** A lifetime that does not fit in 64 bits is rejected wherever it stands before `--`. */
  lemma LifetimeOverflowRejected(a: seq<string>, n: nat, b: seq<string>, defaults: DefaultPaths)
    requires Closed(a) && n > Decimal.U64_MAX
    ensures Parse(a + ["-t", Decimal.Render(n)] + b, defaults).Err?
  {
    hide Groups, Closed, Parse, AtMostOneChoice, Decimal.Render, Decimal.ParseUnsigned, FlagText;
    var g, rest := Valued(LifetimeFlag, Decimal.Render(n)), ["-t", Decimal.Render(n)] + b;
    OverflowIsFault(n);
    GroupsStep(g, b);
    GroupsCompose(a, rest);
    Regroup3(a, ["-t", Decimal.Render(n)], b);
    AcceptedIffWellFormed(a + rest, defaults);
    assert Groups(a + rest)[|Groups(a)|] == g;
  }

  lemma OverflowIsFault(n: nat)
    requires n > Decimal.U64_MAX
    ensures var g := Valued(LifetimeFlag, Decimal.Render(n));
            Fault(g).Some? && Genuine(g) && Slots(g) == ["-t", Decimal.Render(n)]
  {
    Decimal.ParseRender(n, Decimal.U64_MAX);
  }

  // -------------------------------------------------- the documented surface

  /** What one more flag makes of an accepted command line. */
  function Appended(r: Parsed, g: Group): Result<Parsed, ArgError> {
    if Fault(g).Some? then Err(Fault(g).value)
    else
      match g
      case Select(m) => Chosen(r, m, ModeText(m))
      case Valued(RemoveFlag, v) => Chosen(r, RemoveOne(v), ModeText(RemoveOne(v)))
      case Valued(LifetimeFlag, v) => Ok(r.(lifetime := Decimal.ParseUnsigned(v, Decimal.U64_MAX)))
      case Valued(HashFlag, v) => if ParseHash(v).Some? then Ok(r.(hash := ParseHash(v).value)) else Ok(r)
      case Toggle(ConfirmSwitch) => Ok(r.(confirm := true))
      case Toggle(BiometricSwitch) => if r.noBiometric then Err(BiometricConflict) else Ok(r.(biometric := true))
      case Toggle(NoBiometricSwitch) => if r.biometric then Err(BiometricConflict) else Ok(r.(noBiometric := true))
      case _ => Ok(r)
  }

  /** The operation can be chosen once; until then keys are added. */
  function Chosen(r: Parsed, m: Mode, flag: string): Result<Parsed, ArgError> {
    if r.mode.Add? then Ok(r.(mode := m)) else Err(ModeConflict(flag))
  }

  predicate IsFlag(g: Group) {
    Genuine(g) && (g.Select? || g.Valued? || g.Toggle?)
  }

  /** What the end of the loop makes of its variables. */
  function Finish(p: Progress, defaults: DefaultPaths): Result<Parsed, ArgError> {
    if p.mode.None? && p.paths == [] && defaults.Err? then Err(Defaults(defaults.error))
    else if p.biometric && p.noBiometric then Err(BiometricConflict)
    else
      var mode := if p.mode.Some? then p.mode.value else Add(if p.paths == [] then defaults.value else p.paths);
      Ok(Parsed(mode, p.hash, p.lifetime, p.confirm, p.biometric, p.noBiometric))
  }

  lemma ReadingIsFinish(gs: seq<Group>, defaults: DefaultPaths)
    ensures Reading(gs, defaults) ==
            if FirstFault(gs, false).Some? then Err(FirstFault(gs, false).value) else Finish(ProgressOf(gs), defaults)
  {
    hide FirstFault, Selected, Paths, LastValue, HashOf, LifetimeOf;
  }

  lemma GroupAppended(a: seq<string>, g: Group)
    requires Closed(a) && IsFlag(g)
    ensures Groups(a + Slots(g)) == Groups(a) + [g]
  {
    hide Groups, Classify, Slots, Genuine;
    NoGroups();
    GroupsStep(g, []);
    assert Slots(g) + [] == Slots(g) && [g] + [] == [g];
    GroupsCompose(a, Slots(g));
  }

  lemma FinishAppended(p: Progress, g: Group, paths: seq<string>, defaults: DefaultPaths)
    requires Finish(p, Ok(paths)).Ok? && (p.mode.Some? ==> !p.mode.value.Add?)
    requires IsFlag(g) && Fault(g).None? && (Choice(g).Some? ==> p.mode.None?)
    ensures Finish(Apply(p, g), Ok(paths)) == Appended(Finish(p, Ok(paths)).value, g)
    ensures Choice(g).Some? ==> Finish(Apply(p, g), defaults) == Finish(Apply(p, g), Ok(paths))
  {
    hide Decimal.ParseUnsigned, ParseHash, Fault, ModeText, Genuine;
  }

  /** A flag after any command line that is accepted, given default identities if it needs them,
      does to the record what the table above says, or is rejected for the reason it says. A flag
      that chooses an operation does so whatever the default identities. */
  lemma FlagAppended(a: seq<string>, g: Group, paths: seq<string>, defaults: DefaultPaths)
    requires Closed(a) && IsFlag(g) && Parse(a, Ok(paths)).Ok?
    ensures Parse(a + Slots(g), Ok(paths)) == Appended(Parse(a, Ok(paths)).value, g)
    ensures Choice(g).Some? ==> Parse(a + Slots(g), defaults) == Parse(a + Slots(g), Ok(paths))
  {
    hide Groups, Slots, Genuine, Reading, Finish, FirstFault, Selected, Apply, ModeText, Classify, Lower;
    var done := Groups(a);
    GroupAppended(a, g);
    ReadingIsFinish(done, Ok(paths));
    ReadingIsFinish(done + [g], Ok(paths));
    ReadingIsFinish(done + [g], defaults);
    Absorb(done, g);
    ModeIsChosen(a, paths);
    if FirstFault(done + [g], false).None? {
      FinishAppended(ProgressOf(done), g, paths, defaults);
    }
  }

  /** The record's operation is not adding exactly when one was chosen. */
  lemma ModeIsChosen(a: seq<string>, paths: seq<string>)
    requires Parse(a, Ok(paths)).Ok?
    ensures var mode := ProgressOf(Groups(a)).mode;
            && (mode.Some? ==> !mode.value.Add?)
            && (mode.Some? <==> !Parse(a, Ok(paths)).value.mode.Add?)
  {
    hide Groups, Genuine, FirstFault, Selected, Paths, HashOf, LifetimeOf;
    SlotsConsumedOnce(a);
    ChoicesAreNotAdd(Groups(a));
  }

  /** Each documented operation flag, after any accepted command line, selects its operation and
      does nothing else, or conflicts with the operation selected before. */
  lemma OperationsDocumented(a: seq<string>, v: string, paths: seq<string>, defaults: DefaultPaths)
    requires Closed(a) && Parse(a, Ok(paths)).Ok?
    ensures var r := Parse(a, Ok(paths)).value;
            && Parse(a + ["-l"], defaults) == Chosen(r, List(false), "-l")
            && Parse(a + ["-L"], defaults) == Chosen(r, List(true), "-L")
            && Parse(a + ["-d", v], defaults) == Chosen(r, RemoveOne(v), "-d")
            && Parse(a + ["-D"], defaults) == Chosen(r, RemoveAll, "-D")
            && Parse(a + ["-x"], defaults) == Chosen(r, Lock, "-x")
            && Parse(a + ["-X"], defaults) == Chosen(r, Unlock, "-X")
  {
    hide Parse, Closed;
    FlagAppended(a, Select(List(false)), paths, defaults);
    FlagAppended(a, Select(List(true)), paths, defaults);
    FlagAppended(a, Valued(RemoveFlag, v), paths, defaults);
    FlagAppended(a, Select(RemoveAll), paths, defaults);
    FlagAppended(a, Select(Lock), paths, defaults);
    FlagAppended(a, Select(Unlock), paths, defaults);
  }

  /** Each documented option, after any accepted command line, fills its own field and does nothing
      else; a hash may be named in any case, and the two biometric flags conflict. */
  lemma OptionsDocumented(a: seq<string>, n: nat, name: string, h: HashAlg, paths: seq<string>)
    requires Closed(a) && Parse(a, Ok(paths)).Ok?
    requires n <= Decimal.U64_MAX && Spells(name, HashName(h))
    ensures var r := Parse(a, Ok(paths)).value;
            && Parse(a + ["-t", Decimal.Render(n)], Ok(paths)) == Ok(r.(lifetime := Some(n)))
            && Parse(a + ["-E", name], Ok(paths)) == Ok(r.(hash := h))
            && Parse(a + ["-c"], Ok(paths)) == Ok(r.(confirm := true))
            && Parse(a + ["--biometric"], Ok(paths)) ==
               (if r.noBiometric then Err(BiometricConflict) else Ok(r.(biometric := true)))
            && Parse(a + ["--no-biometric"], Ok(paths)) ==
               (if r.biometric then Err(BiometricConflict) else Ok(r.(noBiometric := true)))
  {
    hide Parse, Closed, ParseHash, HashName, Spells, Decimal.ParseUnsigned, Decimal.Render;
    Decimal.ParseRender(n, Decimal.U64_MAX);
    ParseHashIff(name, h);
    FlagAppended(a, Valued(LifetimeFlag, Decimal.Render(n)), paths, Ok(paths));
    FlagAppended(a, Valued(HashFlag, name), paths, Ok(paths));
    FlagAppended(a, Toggle(ConfirmSwitch), paths, Ok(paths));
    FlagAppended(a, Toggle(BiometricSwitch), paths, Ok(paths));
    FlagAppended(a, Toggle(NoBiometricSwitch), paths, Ok(paths));
  }
}
