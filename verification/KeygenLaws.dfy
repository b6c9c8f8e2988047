/** What the reading of a `gitway-keygen` command line guarantees: which command lines are
    accepted, which reorderings and insertions do not matter, and that every record the
    parser can produce is produced by its own canonical rendering. */
module KeygenLaws {
  import opened Wrappers
  import opened HashArg
  import opened KeygenArgs
  import opened Sequences
  import Decimal

  // ------------------------------------------------------- slots and groups

  /** The argv slots a group was read from. */
  function Slots(g: Group): seq<string> {
    match g
    case Valued(f, v) => [FlagText(f), v]
    case Toggle(s) => [SwitchText(s)]
    case Noise(w) => [w]
    case Bare(w) => [w]
    case Missing(f) => [FlagText(f)]
    case Unknown(w) => [w]
  }

  function Flatten(gs: seq<Group>): seq<string> {
    if gs == [] then [] else Slots(gs[0]) + Flatten(gs[1..])
  }

  /** Groups whose words are of the kind the loop would take them for. */
  predicate Genuine(g: Group) {
    match g
    case Noise(w) => Classify(w).Ignored?
    case Bare(w) => Classify(w).Positional?
    case Unknown(w) => Classify(w).Unsupported?
    case _ => true
  }

  predicate AllGenuine(gs: seq<Group>) {
    forall k :: 0 <= k < |gs| ==> Genuine(gs[k])
  }

  predicate Complete(gs: seq<Group>) {
    forall k :: 0 <= k < |gs| ==> !gs[k].Missing?
  }

  lemma HeadGroupSlots(args: seq<string>)
    requires args != [] && !Classify(args[0]).Terminator?
    ensures var g := HeadGroup(args);
            Genuine(g) && |Slots(g)| == Width(g) <= |args| && Slots(g) == args[..Width(g)]
  {
  }

  lemma HeadGroupOfSlots(g: Group, tail: seq<string>)
    requires Genuine(g) && !g.Missing?
    ensures !Classify((Slots(g) + tail)[0]).Terminator? && HeadGroup(Slots(g) + tail) == g
  {
    match g {
      case Valued(f, v) => ClassifyFlagText(f);
      case Toggle(s) => ClassifySwitchText(s);
      case _ =>
    }
  }

  /** Each slot up to `--` or the end is consumed exactly once and in order, as a flag, as the
      value of the flag before it, or as a word of its own. */
  lemma {:induction false} SlotsConsumedOnce(args: seq<string>)
    ensures AllGenuine(Groups(args))
    ensures |Flatten(Groups(args))| <= |args|
    ensures Flatten(Groups(args)) == args[..|Flatten(Groups(args))|]
    ensures |Flatten(Groups(args))| == |args| || Classify(args[|Flatten(Groups(args))|]).Terminator?
  {
    hide Classify, HeadGroup, Groups, Slots, Flatten, Genuine;
    if args == [] || Classify(args[0]).Terminator? {
      NoneLeft(args);
      FlattenNothing();
    } else {
      var g := HeadGroup(args);
      HeadGroupSlots(args);
      var rest := args[Width(g)..];
      OneGroupRead(args);
      SlotsConsumedOnce(rest);
      FlattenCons(g, Groups(rest));
      PrefixOfTail(args, Width(g), |Flatten(Groups(rest))|);
    }
  }

  lemma OneGroupRead(args: seq<string>)
    requires args != [] && !Classify(args[0]).Terminator?
    ensures Groups(args) == [HeadGroup(args)] + Groups(args[Width(HeadGroup(args))..])
  {
    hide Classify, HeadGroup;
  }

  lemma FlattenNothing()
    ensures Flatten([]) == []
  {
  }

  lemma FlattenCons(g: Group, gs: seq<Group>)
    ensures Flatten([g] + gs) == Slots(g) + Flatten(gs)
  {
    assert ([g] + gs)[1..] == gs;
  }

  lemma SlotsWidth(g: Group)
    ensures |Slots(g)| == Width(g)
  {
  }

  lemma GroupsStep(g: Group, rest: seq<string>)
    requires Genuine(g) && !g.Missing?
    ensures Groups(Slots(g) + rest) == [g] + Groups(rest)
  {
    hide Classify, HeadGroup, Slots, Genuine;
    HeadGroupOfSlots(g, rest);
    SlotsWidth(g);
    DropFront(Slots(g), rest);
  }

  /** Well-formed groups read back as themselves, whatever follows them. */
  lemma {:induction false} GroupsOfFlatten(gs: seq<Group>, tail: seq<string>)
    requires AllGenuine(gs) && Complete(gs)
    ensures Groups(Flatten(gs) + tail) == gs + Groups(tail)
  {
    hide Classify, HeadGroup, Groups, Slots;
    if gs == [] {
      assert Flatten(gs) + tail == tail;
    } else {
      var g, front := gs[0], Flatten(gs[1..]);
      GroupsOfFlatten(gs[1..], tail);
      GroupsStep(g, front + tail);
      Regroup3(Slots(g), front, tail);
      Regroup3([g], gs[1..], Groups(tail));
      assert [g] + gs[1..] == gs;
    }
  }

  /** An argv that ends at a group boundary with no `--` before it. */
  predicate Closed(args: seq<string>) {
    Flatten(Groups(args)) == args && Complete(Groups(args))
  }

  /** The loop composes over concatenation at a group boundary. */
  lemma GroupsCompose(a: seq<string>, b: seq<string>)
    requires Closed(a)
    ensures Groups(a + b) == Groups(a) + Groups(b)
  {
    SlotsConsumedOnce(a);
    GroupsOfFlatten(Groups(a), b);
  }

  // ------------------------------------------------------ reading piecewise

  lemma {:induction false} LastValueAppend(a: seq<Group>, b: seq<Group>, f: ValueFlag)
    ensures LastValue(a + b, f) == if LastValue(b, f).Some? then LastValue(b, f) else LastValue(a, f)
  {
    if b == [] {
      assert a + b == a;
    } else {
      LastValueAppend(a, b[..|b| - 1], f);
      assert (a + b)[..|a + b| - 1] == a + b[..|b| - 1];
    }
  }

  lemma {:induction false} BaresAppend(a: seq<Group>, b: seq<Group>)
    ensures Bares(a + b) == Bares(a) + Bares(b)
  {
    if b == [] {
      assert a + b == a;
    } else {
      BaresAppend(a, b[..|b| - 1]);
      assert (a + b)[..|a + b| - 1] == a + b[..|b| - 1];
    }
  }

  lemma {:induction false} FirstFaultAppend(a: seq<Group>, b: seq<Group>)
    ensures FirstFault(a + b) == if FirstFault(a).Some? then FirstFault(a) else FirstFault(b)
  {
    if b == [] {
      assert a + b == a;
    } else {
      FirstFaultAppend(a, b[..|b| - 1]);
      assert (a + b)[..|a + b| - 1] == a + b[..|b| - 1];
    }
  }

  /** Everything the reading depends on: the last value of each flag but `-O`, the bare words,
      the switches present and the first fault. */
  ghost predicate SameMeaning(x: seq<Group>, y: seq<Group>) {
    && (forall f | f != OptionFlag :: LastValue(x, f) == LastValue(y, f))
    && (forall s :: Toggle(s) in x <==> Toggle(s) in y)
    && Bares(x) == Bares(y)
    && FirstFault(x) == FirstFault(y)
  }

  lemma SameReading(x: seq<Group>, y: seq<Group>)
    requires SameMeaning(x, y)
    ensures Reading(x) == Reading(y)
  {
    SameFields(x, y);
    hide LastValue, Bares, FirstFault, Fields, OperationMode;
  }

  lemma SameFields(x: seq<Group>, y: seq<Group>)
    requires SameMeaning(x, y)
    ensures Fields(x) == Fields(y)
  {
    hide LastValue, Bares, FirstFault, ParseHash, Decimal.ParseUnsigned;
  }

  lemma Congruence(a: seq<Group>, x: seq<Group>, y: seq<Group>, b: seq<Group>)
    requires SameMeaning(x, y)
    ensures Reading(a + x + b) == Reading(a + y + b)
  {
    forall f | f != OptionFlag ensures LastValue(a + x + b, f) == LastValue(a + y + b, f) {
      LastValueAppend(a, x, f); LastValueAppend(a + x, b, f);
      LastValueAppend(a, y, f); LastValueAppend(a + y, b, f);
    }
    BaresAppend(a, x); BaresAppend(a + x, b);
    BaresAppend(a, y); BaresAppend(a + y, b);
    FirstFaultAppend(a, x); FirstFaultAppend(a + x, b);
    FirstFaultAppend(a, y); FirstFaultAppend(a + y, b);
    SameReading(a + x + b, a + y + b);
  }

  // -------------------------------------------------------------- theorems

  predicate OperationAllowed(op: Option<string>) {
    op.None? || OperationMode(op.value).Some?
  }

  /** A command line is accepted exactly when no group before `--` is malformed and the last
      `-Y` operation, if any, is one of the four. */
  lemma AcceptedIffWellFormed(args: seq<string>)
    ensures Parse(args).Ok? <==>
            && (forall k :: 0 <= k < |Groups(args)| ==> Fault(Groups(args)[k]).None?)
            && OperationAllowed(LastValue(Groups(args), OperationFlag))
  {
    NoFaultMeaning(Groups(args));
  }

  lemma {:induction false} NoFaultMeaning(gs: seq<Group>)
    ensures FirstFault(gs).None? <==> forall k :: 0 <= k < |gs| ==> Fault(gs[k]).None?
  {
    if gs != [] {
      NoFaultMeaning(gs[..|gs| - 1]);
    }
  }

  /** A rejected command line reports its earliest malformed group. */
  lemma {:induction false} EarliestFaultReported(gs: seq<Group>) returns (k: nat)
    requires FirstFault(gs).Some?
    ensures k < |gs| && Reading(gs) == Err(FirstFault(gs).value)
    ensures Fault(gs[k]) == FirstFault(gs)
    ensures forall j :: 0 <= j < k ==> Fault(gs[j]).None?
  {
    var front := gs[..|gs| - 1];
    if FirstFault(front).Some? {
      k := EarliestFaultReported(front);
    } else {
      NoFaultMeaning(front);
      k := |gs| - 1;
    }
  }

  predicate Sets(g: Group, f: ValueFlag) {
    g.Valued? && g.flag == f
  }

  /** Options are last-wins: the reported value is the one that no later group overrides. */
  lemma {:induction false} LastWins(gs: seq<Group>, f: ValueFlag, k: nat)
    requires k < |gs| && Sets(gs[k], f)
    requires forall j :: k < j < |gs| ==> !Sets(gs[j], f)
    ensures LastValue(gs, f) == Some(gs[k].value)
  {
    if k < |gs| - 1 {
      assert !Sets(gs[|gs| - 1], f);
      LastWins(gs[..|gs| - 1], f, k);
    }
  }

  lemma {:induction false} FirstTwoBares(gs: seq<Group>, i: nat, j: nat)
    requires i < j < |gs| && gs[i].Bare? && gs[j].Bare?
    requires forall k :: 0 <= k < j && k != i ==> !gs[k].Bare?
    ensures Nth(Bares(gs), 0) == Some(gs[i].word) && Nth(Bares(gs), 1) == Some(gs[j].word)
  {
    if j < |gs| - 1 {
      FirstTwoBares(gs[..|gs| - 1], i, j);
    } else {
      OneBare(gs[..j], i);
    }
  }

  lemma {:induction false} OneBare(gs: seq<Group>, i: nat)
    requires i < |gs| && gs[i].Bare?
    requires forall k :: 0 <= k < |gs| && k != i ==> !gs[k].Bare?
    ensures Bares(gs) == [gs[i].word]
  {
    if i < |gs| - 1 {
      OneBare(gs[..|gs| - 1], i);
    } else {
      NoBare(gs[..i]);
    }
  }

  lemma {:induction false} NoBare(gs: seq<Group>)
    requires forall k :: 0 <= k < |gs| ==> !gs[k].Bare?
    ensures Bares(gs) == []
  {
    if gs != [] {
      NoBare(gs[..|gs| - 1]);
    }
  }

  lemma {:induction false} NeverSet(gs: seq<Group>, f: ValueFlag)
    ensures LastValue(gs, f).None? <==> forall k :: 0 <= k < |gs| ==> !Sets(gs[k], f)
  {
    if gs != [] {
      NeverSet(gs[..|gs| - 1], f);
    }
  }

  /** Group k gives the flag its last value. */
  predicate LastSets(gs: seq<Group>, k: nat, f: ValueFlag)
    requires k < |gs|
  {
    Sets(gs[k], f) && forall l :: k < l < |gs| ==> !Sets(gs[l], f)
  }

  /** With two bare words, the first is the message file. The key file is the last `-f` wherever
      it stands; only when there is none at all is it the second bare word. */
  lemma FileChoice(args: seq<string>, i: nat, j: nat)
    requires Parse(args).Ok?
    requires i < j < |Groups(args)| && Groups(args)[i].Bare? && Groups(args)[j].Bare?
    requires forall k :: 0 <= k < j && k != i ==> !Groups(args)[k].Bare?
    ensures var gs, p := Groups(args), Parse(args).value;
            && p.messageFile == Some(gs[i].word)
            && ((forall k :: 0 <= k < |gs| ==> !Sets(gs[k], FileFlag)) ==> p.file == Some(gs[j].word))
            && forall k :: 0 <= k < |gs| && LastSets(gs, k, FileFlag) ==> p.file == Some(gs[k].value)
  {
    var gs := Groups(args);
    FirstTwoBares(gs, i, j);
    NeverSet(gs, FileFlag);
    forall k | 0 <= k < |gs| && LastSets(gs, k, FileFlag)
      ensures LastValue(gs, FileFlag) == Some(gs[k].value)
    {
      LastWins(gs, FileFlag, k);
    }
  }

  /** The operation, by precedence over everything present: `-Y`, `-l`, `-y`, `-p`, generation. */
  lemma ModeByPrecedence(args: seq<string>)
    requires Parse(args).Ok?
    ensures var gs, m := Groups(args), Parse(args).value.mode;
            var signed := exists k :: 0 <= k < |gs| && Sets(gs[k], OperationFlag);
            var listed, extracted, changed :=
              Toggle(ListSwitch) in gs, Toggle(ExtractSwitch) in gs, Toggle(ChangeSwitch) in gs;
            && (OperationText(m).Some? <==> signed)
            && (m.PrintFingerprint? <==> !signed && listed)
            && (m.ExtractPublic? <==> !signed && !listed && extracted)
            && (m.ChangePassphrase? <==> !signed && !listed && !extracted && changed)
            && (m.GenerateKey? <==> !signed && !listed && !extracted && !changed)
  {
    hide Groups, LastValue, FirstFault, Fields, OperationText, ChosenMode;
    var gs := Groups(args);
    ModeOfReading(args);
    ChosenModeCases(gs);
    NeverSet(gs, OperationFlag);
    if LastValue(gs, OperationFlag).Some? {
      var k :| 0 <= k < |gs| && Sets(gs[k], OperationFlag);
    }
  }

  lemma ModeOfReading(args: seq<string>)
    requires Parse(args).Ok?
    ensures ChosenMode(Groups(args)) == Ok(Parse(args).value.mode)
  {
    hide Groups, LastValue, FirstFault, Fields, ChosenMode;
  }

  lemma ChosenModeCases(gs: seq<Group>)
    requires ChosenMode(gs).Ok?
    ensures var m := ChosenMode(gs).value;
            if LastValue(gs, OperationFlag).Some? then OperationText(m).Some?
            else m == if Toggle(ListSwitch) in gs then PrintFingerprint
                      else if Toggle(ExtractSwitch) in gs then ExtractPublic
                      else if Toggle(ChangeSwitch) in gs then ChangePassphrase
                      else GenerateKey
    ensures OperationText(PrintFingerprint).None? && OperationText(ExtractPublic).None?
    ensures OperationText(ChangePassphrase).None? && OperationText(GenerateKey).None?
    ensures forall m :: OperationText(m).Some? ==>
              !m.PrintFingerprint? && !m.ExtractPublic? && !m.ChangePassphrase? && !m.GenerateKey?
  {
    hide LastValue;
  }

  /** Two groups that do not compete for the same place. */
  predicate Independent(g: Group, h: Group) {
    && !(g.Valued? && h.Valued? && g.flag == h.flag)
    && !(g.Bare? && h.Bare?)
    && !(Fault(g).Some? && Fault(h).Some?)
  }

  /** Order-freedom: adjacent independent groups may be exchanged anywhere in a command line.
      In particular `-f` and bare words may interleave in any way. */
  lemma Interchange(a: seq<string>, x: seq<string>, y: seq<string>, b: seq<string>)
    requires Closed(a) && Closed(x) && Closed(y)
    requires |Groups(x)| == 1 && |Groups(y)| == 1
    requires Independent(Groups(x)[0], Groups(y)[0])
    ensures Parse(a + x + y + b) == Parse(a + y + x + b)
  {
    GroupsOfFour(a, x, y, b);
    GroupsOfFour(a, y, x, b);
    PairMeaning(Groups(x)[0], Groups(y)[0]);
    assert Groups(x) + Groups(y) == [Groups(x)[0], Groups(y)[0]];
    assert Groups(y) + Groups(x) == [Groups(y)[0], Groups(x)[0]];
    Congruence(Groups(a), Groups(x) + Groups(y), Groups(y) + Groups(x), Groups(b));
  }

  lemma GroupsOfFour(a: seq<string>, x: seq<string>, y: seq<string>, b: seq<string>)
    requires Closed(a) && Closed(x) && Closed(y)
    ensures Groups(a + x + y + b) == Groups(a) + (Groups(x) + Groups(y)) + Groups(b)
  {
    GroupsCompose(y, b);
    GroupsCompose(x, y + b);
    GroupsCompose(a, x + (y + b));
    Regroup4(a, x, y, b);
    Regroup4(Groups(a), Groups(x), Groups(y), Groups(b));
  }

  lemma PairMeaning(g: Group, h: Group)
    requires Independent(g, h)
    ensures SameMeaning([g, h], [h, g])
  {
    assert [g, h] == [] + [g] + [h] && [h, g] == [] + [h] + [g];
    Snoc([], g); Snoc([] + [g], h);
    Snoc([], h); Snoc([] + [h], g);
  }

  /** The compatibility flags accepted and ignored: `-O` packed or separated, `-q`, `-v`…. */
  predicate CompatibilityNoise(n: seq<string>) {
    || (|n| == 1 && Classify(n[0]).Ignored?)
    || (|n| == 2 && n[0] == "-O")
  }

  /** Inserting compatibility noise at a group boundary before `--` changes neither the record
      nor the error. */
  lemma NoiseIsInert(a: seq<string>, n: seq<string>, b: seq<string>)
    requires Closed(a) && CompatibilityNoise(n)
    ensures Parse(a + n + b) == Parse(a + b)
  {
    var g := NoiseGroup(n);
    NoiseMeaning(g);
    Congruence(Groups(a), [g], [], Groups(b));
    Regroup3(a, n, b);
    GroupsCompose(a, n + b);
    GroupsCompose(a, b);
    NoiseGroupRead(n, b);
    Regroup3(Groups(a), [g], Groups(b));
    assert Groups(a) + [] == Groups(a);
  }

  function NoiseGroup(n: seq<string>): Group
    requires CompatibilityNoise(n)
  {
    if |n| == 1 then Noise(n[0]) else Valued(OptionFlag, n[1])
  }

  lemma NoiseGroupRead(n: seq<string>, b: seq<string>)
    requires CompatibilityNoise(n)
    ensures Groups(n + b) == [NoiseGroup(n)] + Groups(b)
  {
    var g := NoiseGroup(n);
    HeadGroupOfSlots(g, b);
    assert n == Slots(g);
    assert (n + b)[Width(g)..] == b;
  }

  /** Nothing reads the value of `-O`, and nothing reads an ignored word. */
  lemma NoiseMeaning(g: Group)
    requires g.Noise? || (g.Valued? && g.flag == OptionFlag)
    ensures SameMeaning([g], [])
  {
    hide LastValue, Bares, FirstFault, Decimal.ParseUnsigned, ParseHash, FlagText;
    NothingGiven();
    assert [] + [g] == [g];
    Snoc([], g);
  }

  /** `--` ends the command line: nothing after it is looked at. */
  lemma TerminatorDiscardsRest(a: seq<string>, rest: seq<string>)
    requires Closed(a)
    ensures Parse(a + ["--"] + rest) == Parse(a)
  {
    var tail := ["--"] + rest;
    assert Classify(tail[0]) == Terminator;
    GroupsCompose(a, tail);
    assert a + ["--"] + rest == a + tail;
    assert Groups(a) + [] == Groups(a);
  }

  // ------------------------------------------------------------ round trip

  function OperationText(m: Mode): Option<string> {
    match m
    case SshSigSign => Some("sign")
    case SshSigVerify => Some("verify")
    case SshSigCheckNoValidate => Some("check-novalidate")
    case SshSigFindPrincipals => Some("find-principals")
    case _ => None
  }

  lemma OperationTextRead(m: Mode)
    ensures OperationText(m).Some? ==> OperationMode(OperationText(m).value) == Some(m)
  {
    if OperationText(m).Some? {
      assert OperationText(m).value[0] == OperationText(m).value[0];
    }
  }

  /** The value a canonical command line gives a flag. */
  function Setting(p: Parsed, f: ValueFlag): Option<string> {
    match f
    case KeyTypeFlag => p.keyType
    case BitsFlag => if p.bits.Some? then Some(Decimal.Render(p.bits.value)) else None
    case FileFlag => p.file
    case NewPassFlag => p.newPassphrase
    case OldPassFlag => p.oldPassphrase
    case CommentFlag => p.comment
    case NamespaceFlag => p.namespace
    case IdentityFlag => p.signerIdentity
    case SignatureFlag => p.signatureFile
    case HashFlag => Some(HashName(p.fingerprintHash))
    case OperationFlag => OperationText(p.mode)
    case AllowedSignersFlag => p.allowedSigners
    case OptionFlag => None
  }

  const ALL_FLAGS: seq<ValueFlag> := [
    KeyTypeFlag, BitsFlag, FileFlag, NewPassFlag, OldPassFlag, CommentFlag, NamespaceFlag,
    IdentityFlag, SignatureFlag, HashFlag, OperationFlag, AllowedSignersFlag]

  function SettingGroups(p: Parsed, fs: seq<ValueFlag>): seq<Group> {
    if fs == [] then []
    else
      var front, f := SettingGroups(p, fs[..|fs| - 1]), fs[|fs| - 1];
      if Setting(p, f).Some? then front + [Valued(f, Setting(p, f).value)] else front
  }

  function ModeGroups(m: Mode): seq<Group> {
    match m
    case PrintFingerprint => [Toggle(ListSwitch)]
    case ExtractPublic => [Toggle(ExtractSwitch)]
    case ChangePassphrase => [Toggle(ChangeSwitch)]
    case _ => []
  }

  function CanonicalGroups(p: Parsed): seq<Group> {
    ModeGroups(p.mode) + SettingGroups(p, ALL_FLAGS) +
    if p.messageFile.Some? then [Bare(p.messageFile.value)] else []
  }

  /** The canonical command line of a record. */
  function Render(p: Parsed): seq<string> {
    Flatten(CanonicalGroups(p))
  }

  /** Records some command line can produce: the message file is a bare word and the bit count
      is a 32-bit number. */
  predicate Representable(p: Parsed) {
    && (p.messageFile.Some? && p.messageFile.value != "" ==> p.messageFile.value[0] != '-')
    && (p.bits.Some? ==> p.bits.value <= Decimal.U32_MAX)
  }

  /** A canonical command line gives a flag no value it rejects. */
  lemma SettingIsAccepted(p: Parsed, f: ValueFlag)
    requires Representable(p) && Setting(p, f).Some?
    ensures Fault(Valued(f, Setting(p, f).value)).None?
  {
    hide Decimal.ParseUnsigned, Decimal.Render, ParseHash, HashName;
    ParseHashName(p.fingerprintHash);
    if p.bits.Some? {
      Decimal.ParseRender(p.bits.value, Decimal.U32_MAX);
    }
  }

  lemma {:induction false} SettingsRead(p: Parsed, fs: seq<ValueFlag>)
    requires Representable(p)
    ensures var gs := SettingGroups(p, fs);
            && (forall f :: LastValue(gs, f) == if f in fs then Setting(p, f) else None)
            && (forall k :: 0 <= k < |gs| ==> gs[k].Valued?)
            && Bares(gs) == [] && FirstFault(gs) == None
  {
    hide LastValue, Bares, FirstFault, Fault, Setting, Representable;
    NothingGiven();
    if fs != [] {
      var front, f := fs[..|fs| - 1], fs[|fs| - 1];
      SettingsRead(p, front);
      assert forall g :: g in fs <==> g in front || g == f;
      if Setting(p, f).Some? {
        SettingIsAccepted(p, f);
        Snoc(SettingGroups(p, front), Valued(f, Setting(p, f).value));
      }
    }
  }

  lemma AllFlagsListed(f: ValueFlag)
    ensures f in ALL_FLAGS <==> f != OptionFlag
  {
    match f {
      case KeyTypeFlag => assert ALL_FLAGS[0] == f;
      case BitsFlag => assert ALL_FLAGS[1] == f;
      case FileFlag => assert ALL_FLAGS[2] == f;
      case NewPassFlag => assert ALL_FLAGS[3] == f;
      case OldPassFlag => assert ALL_FLAGS[4] == f;
      case CommentFlag => assert ALL_FLAGS[5] == f;
      case NamespaceFlag => assert ALL_FLAGS[6] == f;
      case IdentityFlag => assert ALL_FLAGS[7] == f;
      case SignatureFlag => assert ALL_FLAGS[8] == f;
      case HashFlag => assert ALL_FLAGS[9] == f;
      case OperationFlag => assert ALL_FLAGS[10] == f;
      case AllowedSignersFlag => assert ALL_FLAGS[11] == f;
      case OptionFlag =>
    }
  }

  lemma CanonicalGroupsRead(p: Parsed)
    requires Representable(p)
    ensures Reading(CanonicalGroups(p)) == Ok(p)
  {
    var modes, settings := ModeGroups(p.mode), SettingGroups(p, ALL_FLAGS);
    var body := modes + settings;
    var message := if p.messageFile.Some? then [Bare(p.messageFile.value)] else [];
    var gs := CanonicalGroups(p);
    ModesRead(p.mode);
    MessageRead(message);
    SettingsRead(p, ALL_FLAGS);
    forall f | f != OptionFlag ensures LastValue(gs, f) == Setting(p, f) {
      AllFlagsListed(f);
      LastValueAppend(modes, settings, f);
      LastValueAppend(body, message, f);
    }
    BaresAppend(modes, settings);
    BaresAppend(body, message);
    FirstFaultAppend(modes, settings);
    FirstFaultAppend(body, message);
    FieldsOfSettings(p, gs);
    ModeOfSettings(p, gs);
  }

  lemma ModesRead(m: Mode)
    ensures forall f :: LastValue(ModeGroups(m), f) == None
    ensures Bares(ModeGroups(m)) == [] && FirstFault(ModeGroups(m)) == None
  {
    forall s ensures LastValue([Toggle(s)], KeyTypeFlag) == None {
      assert [] + [Toggle(s)] == [Toggle(s)];
      Snoc([], Toggle(s));
    }
  }

  lemma MessageRead(message: seq<Group>)
    requires message == [] || (|message| == 1 && message[0].Bare?)
    ensures forall f :: LastValue(message, f) == None
    ensures Bares(message) == if message == [] then [] else [message[0].word]
    ensures FirstFault(message) == None
  {
    if message != [] {
      assert [] + [message[0]] == message;
      Snoc([], message[0]);
    }
  }

  lemma FieldsOfSettings(p: Parsed, gs: seq<Group>)
    requires Representable(p)
    requires forall f | f != OptionFlag :: LastValue(gs, f) == Setting(p, f)
    requires Bares(gs) == if p.messageFile.Some? then [p.messageFile.value] else []
    ensures Fields(gs).(mode := p.mode) == p
  {
    hide LastValue, Bares, Decimal.ParseUnsigned, Decimal.Render, ParseHash, HashName;
    ParseHashName(p.fingerprintHash);
    if p.bits.Some? {
      Decimal.ParseRender(p.bits.value, Decimal.U32_MAX);
    }
  }

  lemma ModeOfSettings(p: Parsed, gs: seq<Group>)
    requires LastValue(gs, OperationFlag) == Setting(p, OperationFlag)
    requires forall s :: Toggle(s) in gs <==> Toggle(s) in ModeGroups(p.mode)
    ensures ChosenMode(gs) == Ok(p.mode)
  {
    OperationTextRead(p.mode);
  }

  /** Printing then parsing gives a representable record back. */
  lemma RenderParses(p: Parsed)
    requires Representable(p)
    ensures Parse(Render(p)) == Ok(p)
  {
    hide Groups, Flatten, Reading, CanonicalGroups, Representable, AllGenuine, Complete;
    var gs := CanonicalGroups(p);
    CanonicalGroupsWellFormed(p);
    GroupsOfFlatten(gs, []);
    NothingGiven();
    assert Flatten(gs) + [] == Flatten(gs) && gs + [] == gs;
    CanonicalGroupsRead(p);
  }

  lemma CanonicalGroupsWellFormed(p: Parsed)
    requires Representable(p)
    ensures AllGenuine(CanonicalGroups(p)) && Complete(CanonicalGroups(p))
  {
    SettingsRead(p, ALL_FLAGS);
    hide SettingGroups, ALL_FLAGS, Classify;
    if p.messageFile.Some? {
      PositionalWords(p.messageFile.value);
    }
  }

  lemma {:induction false} BareWordsArePositional(gs: seq<Group>)
    requires AllGenuine(gs)
    ensures forall k :: 0 <= k < |Bares(gs)| ==> Classify(Bares(gs)[k]).Positional?
  {
    if gs != [] {
      BareWordsArePositional(gs[..|gs| - 1]);
    }
  }

  /** The parser's results are exactly the representable records. */
  lemma ParserImage(p: Parsed)
    ensures Representable(p) <==> exists args :: Parse(args) == Ok(p)
  {
    if Representable(p) {
      RenderParses(p);
    }
    forall args | Parse(args) == Ok(p) ensures Representable(p) {
      ParsedIsRepresentable(args);
    }
  }

  lemma ParsedIsRepresentable(args: seq<string>)
    ensures Parse(args).Ok? ==> Representable(Parse(args).value)
  {
    var gs := Groups(args);
    SlotsConsumedOnce(args);
    BareWordsArePositional(gs);
    if Bares(gs) != [] {
      PositionalWords(Bares(gs)[0]);
    }
  }

  /** Rendering an accepted command line's record is a command line with the same record. */
  lemma RenderNormalises(args: seq<string>)
    requires Parse(args).Ok?
    ensures Parse(Render(Parse(args).value)) == Parse(args)
  {
    ParsedIsRepresentable(args);
    RenderParses(Parse(args).value);
  }

  // -------------------------------------------------- the documented surface

  /** A record with one flag's value given anew. */
  function With(p: Parsed, f: ValueFlag, v: string): Parsed {
    match f
    case KeyTypeFlag => p.(keyType := Some(v))
    case BitsFlag => p.(bits := Decimal.ParseUnsigned(v, Decimal.U32_MAX))
    case FileFlag => p.(file := Some(v))
    case NewPassFlag => p.(newPassphrase := Some(v))
    case OldPassFlag => p.(oldPassphrase := Some(v))
    case CommentFlag => p.(comment := Some(v))
    case NamespaceFlag => p.(namespace := Some(v))
    case IdentityFlag => p.(signerIdentity := Some(v))
    case SignatureFlag => p.(signatureFile := Some(v))
    case HashFlag => if ParseHash(v).Some? then p.(fingerprintHash := ParseHash(v).value) else p
    case OperationFlag => if OperationMode(v).Some? then p.(mode := OperationMode(v).value) else p
    case AllowedSignersFlag => p.(allowedSigners := Some(v))
    case OptionFlag => p
  }

  /** What a switch makes of the operation chosen so far: the stronger of the two. */
  function Stronger(m: Mode, s: Switch): Mode {
    if OperationText(m).Some? || m.PrintFingerprint? then m
    else
      match s
      case ListSwitch => PrintFingerprint
      case ExtractSwitch => ExtractPublic
      case ChangeSwitch => if m.ExtractPublic? then m else ChangePassphrase
  }

  lemma NothingGiven()
    ensures Groups([]) == [] && Bares([]) == [] && FirstFault([]) == None
    ensures forall f :: LastValue([], f) == None
  {
  }

  /** A group after a command line without a terminator is read after its groups. */
  lemma GroupAppended(a: seq<string>, g: Group)
    requires Closed(a) && Genuine(g) && !g.Missing?
    ensures Groups(a + Slots(g)) == Groups(a) + [g]
  {
    hide Groups, Classify, Slots, Genuine;
    NothingGiven();
    GroupsStep(g, []);
    assert Slots(g) + [] == Slots(g) && [g] + [] == [g];
    GroupsCompose(a, Slots(g));
  }

  lemma FieldsAfterFlag(gs: seq<Group>, f: ValueFlag, v: string)
    requires Fault(Valued(f, v)).None?
    ensures Fields(gs + [Valued(f, v)]) == if f.OperationFlag? then Fields(gs) else With(Fields(gs), f, v)
  {
    hide LastValue, Bares, FirstFault, Decimal.ParseUnsigned, ParseHash, OperationMode, FlagText;
    var after := gs + [Valued(f, v)];
    Snoc(gs, Valued(f, v));
    assert Bares(after) == Bares(gs);
    assert forall h | h != f :: LastValue(after, h) == LastValue(gs, h);
    assert LastValue(after, f) == Some(v);
  }

  lemma ModeAfterFlag(gs: seq<Group>, f: ValueFlag, v: string)
    ensures ChosenMode(gs + [Valued(f, v)]) ==
            if !f.OperationFlag? then ChosenMode(gs)
            else if OperationMode(v).Some? then Ok(OperationMode(v).value) else Err(BadOperation(v))
  {
    hide LastValue, Bares, FirstFault, OperationMode, FlagText;
    Snoc(gs, Valued(f, v));
  }

  /** A value flag after any accepted command line sets its own field, and no other, to exactly
      that value; a value it does not take is reported. */
  lemma FlagAppended(a: seq<string>, f: ValueFlag, v: string)
    requires Closed(a) && Parse(a).Ok?
    ensures var r := Parse(a + [FlagText(f), v]);
            if Fault(Valued(f, v)).Some? then r == Err(Fault(Valued(f, v)).value)
            else if f.OperationFlag? && OperationMode(v).None? then r == Err(BadOperation(v))
            else r == Ok(With(Parse(a).value, f, v))
  {
    hide Groups, LastValue, Bares, FirstFault, Classify, Fault, Fields, ChosenMode, OperationMode, FlagText, Genuine;
    hide Decimal.ParseUnsigned, ParseHash;
    var g := Valued(f, v);
    ValuedIsGenuine(f, v);
    GroupAppended(a, g);
    Snoc(Groups(a), g);
    ModeAfterFlag(Groups(a), f, v);
    if Fault(g).None? {
      FieldsAfterFlag(Groups(a), f, v);
    }
  }

  lemma ValuedIsGenuine(f: ValueFlag, v: string)
    ensures Genuine(Valued(f, v)) && Slots(Valued(f, v)) == [FlagText(f), v]
  {
  }

  lemma ModeAfterSwitch(gs: seq<Group>, s: Switch)
    requires ChosenMode(gs).Ok?
    ensures Fields(gs + [Toggle(s)]) == Fields(gs)
    ensures ChosenMode(gs + [Toggle(s)]) == Ok(Stronger(ChosenMode(gs).value, s))
  {
    hide LastValue, Bares, FirstFault, OperationMode, Decimal.ParseUnsigned, ParseHash;
    Snoc(gs, Toggle(s));
    ChosenModeCases(gs);
    OperationModeIsOperation();
  }

  lemma OperationModeIsOperation()
    ensures forall op :: OperationMode(op).Some? ==> OperationText(OperationMode(op).value).Some?
  {
  }

  /** A switch after any accepted command line changes at most the operation, to the stronger of
      the one chosen and its own. */
  lemma SwitchAppended(a: seq<string>, s: Switch)
    requires Closed(a) && Parse(a).Ok?
    ensures Parse(a + [SwitchText(s)]) == Ok(Parse(a).value.(mode := Stronger(Parse(a).value.mode, s)))
  {
    hide Groups, LastValue, Bares, FirstFault, Classify, Fields, ChosenMode, Stronger;
    var g := Toggle(s);
    GroupAppended(a, g);
    Snoc(Groups(a), g);
    ModeAfterSwitch(Groups(a), s);
  }

  /** Each flag that takes a value, after any accepted command line, fills its own field, and no
      other, with exactly that value. */
  lemma ValueFlagsDocumented(a: seq<string>, v: string, n: nat)
    requires Closed(a) && Parse(a).Ok? && n <= Decimal.U32_MAX
    ensures Parse(a + ["-t", v]) == Ok(Parse(a).value.(keyType := Some(v)))
    ensures Parse(a + ["-b", Decimal.Render(n)]) == Ok(Parse(a).value.(bits := Some(n)))
    ensures Parse(a + ["-f", v]) == Ok(Parse(a).value.(file := Some(v)))
    ensures Parse(a + ["-N", v]) == Ok(Parse(a).value.(newPassphrase := Some(v)))
    ensures Parse(a + ["-P", v]) == Ok(Parse(a).value.(oldPassphrase := Some(v)))
    ensures Parse(a + ["-C", v]) == Ok(Parse(a).value.(comment := Some(v)))
    ensures Parse(a + ["-n", v]) == Ok(Parse(a).value.(namespace := Some(v)))
    ensures Parse(a + ["-I", v]) == Ok(Parse(a).value.(signerIdentity := Some(v)))
    ensures Parse(a + ["-s", v]) == Ok(Parse(a).value.(signatureFile := Some(v)))
    ensures Parse(a + ["--allowed-signers", v]) == Ok(Parse(a).value.(allowedSigners := Some(v)))
  {
    hide Parse, Closed, Decimal.ParseUnsigned, Decimal.Render;
    Decimal.ParseRender(n, Decimal.U32_MAX);
    FlagAppended(a, KeyTypeFlag, v);
    FlagAppended(a, BitsFlag, Decimal.Render(n));
    FlagAppended(a, FileFlag, v);
    FlagAppended(a, NewPassFlag, v);
    FlagAppended(a, OldPassFlag, v);
    FlagAppended(a, CommentFlag, v);
    FlagAppended(a, NamespaceFlag, v);
    FlagAppended(a, IdentityFlag, v);
    FlagAppended(a, SignatureFlag, v);
    FlagAppended(a, AllowedSignersFlag, v);
  }

  /** The switches, hash names in any case and operations, after any accepted command line. */
  lemma SwitchesDocumented(a: seq<string>, name: string, h: HashAlg)
    requires Closed(a) && Parse(a).Ok? && Spells(name, HashName(h))
    ensures Parse(a + ["-l"]) == Ok(Parse(a).value.(mode := Stronger(Parse(a).value.mode, ListSwitch)))
    ensures Parse(a + ["-y"]) == Ok(Parse(a).value.(mode := Stronger(Parse(a).value.mode, ExtractSwitch)))
    ensures Parse(a + ["-p"]) == Ok(Parse(a).value.(mode := Stronger(Parse(a).value.mode, ChangeSwitch)))
    ensures Parse(a + ["-E", name]) == Ok(Parse(a).value.(fingerprintHash := h))
    ensures Parse(a + ["-Y", "sign"]) == Ok(Parse(a).value.(mode := SshSigSign))
    ensures Parse(a + ["-Y", "verify"]) == Ok(Parse(a).value.(mode := SshSigVerify))
    ensures Parse(a + ["-Y", "check-novalidate"]) == Ok(Parse(a).value.(mode := SshSigCheckNoValidate))
    ensures Parse(a + ["-Y", "find-principals"]) == Ok(Parse(a).value.(mode := SshSigFindPrincipals))
  {
    hide Parse, Closed, ParseHash, HashName, OperationMode, Spells, Stronger;
    SwitchAppended(a, ListSwitch);
    SwitchAppended(a, ExtractSwitch);
    SwitchAppended(a, ChangeSwitch);
    ParseHashIff(name, h);
    FlagAppended(a, HashFlag, name);
    OperationTextRead(SshSigSign);
    OperationTextRead(SshSigVerify);
    OperationTextRead(SshSigCheckNoValidate);
    OperationTextRead(SshSigFindPrincipals);
    FlagAppended(a, OperationFlag, "sign");
    FlagAppended(a, OperationFlag, "verify");
    FlagAppended(a, OperationFlag, "check-novalidate");
    FlagAppended(a, OperationFlag, "find-principals");
  }
}
