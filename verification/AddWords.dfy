/** The words of a `gitway-add` command line, letter by letter: what one more word, or one more flag
    with its value, does after any accepted command line. */
module AddWords {
  import opened Wrappers
  import opened HashArg
  import opened AddArgs
  import opened AddLaws
  import opened Sequences
  import Decimal
  import DefaultKeys

  /** Flags of ssh-add that are accepted and ignored. */
  predicate Inert(w: string) {
    w == "-q" || w == "-v" || w == "-vv" || w == "-vvv" || w == "-H" ||
    w == "-T" || w == "-s" || w == "-S" || w == "-e" || w == "-k"
  }

  predicate WantsValue(w: string) {
    w == "-d" || w == "-t" || w == "-E"
  }

  predicate IsSwitch(w: string) {
    w == "-l" || w == "-L" || w == "-D" || w == "-x" || w == "-X" || w == "-c" ||
    w == "--biometric" || w == "--no-biometric"
  }

  predicate StartsWithDash(w: string) {
    w != "" && w[0] == '-'
  }

  /** The loop takes each word for what it says. */
  lemma WordsClassified(w: string)
    ensures Inert(w) <==> Classify(w).Ignored?
    ensures WantsValue(w) <==> Classify(w).TakesValue?
    ensures Classify(w).TakesValue? ==> FlagText(Classify(w).flag) == w
    ensures IsSwitch(w) <==> Classify(w).Selects? || Classify(w).Toggles?
    ensures w == "--" <==> Classify(w).Terminator?
    ensures !StartsWithDash(w) <==> Classify(w).Positional?
  {
  }

  /** Inserting an ignored word at a group boundary before `--` changes neither the record nor the
      error. */
  lemma InertWordInserted(a: seq<string>, w: string, b: seq<string>, defaults: DefaultPaths)
    requires Closed(a) && Inert(w)
    ensures Parse(a + [w] + b, defaults) == Parse(a + b, defaults)
  {
    IgnoredFlagIsInert(a, w, b, defaults);
  }

  lemma OneWordRead(a: seq<string>, w: string)
    requires Closed(a) && !Classify(w).Terminator?
    ensures Groups(a + [w]) == Groups(a) + [GroupFor(Classify(w), [w])]
  {
    hide Classify, Closed;
    GroupsCompose(a, [w]);
    NoGroups();
    assert [w][1..] == [];
    assert GroupFor(Classify(w), [w]) == HeadGroup([w]);
    assert [HeadGroup([w])] + [] == [HeadGroup([w])];
  }

  /** What a path given as a bare word, or several after `--`, make of the record: they join those
      given before, unless an operation that takes none is chosen. */
  function WithPaths(r: Parsed, words: seq<string>): Parsed {
    if r.mode.Add? then r.(mode := Add(r.mode.paths + words)) else r
  }

  /** One more word after any command line that is accepted, given default identities if it needs
      them. A flag that wants a value is reported to lack it, an ignored word changes nothing, and
      any other word that starts with '-' and is no flag is reported; all whatever the default
      identities. */
  lemma OneMoreFlagWord(a: seq<string>, w: string, paths: seq<string>, defaults: DefaultPaths)
    requires Closed(a) && Parse(a, Ok(paths)).Ok?
    ensures var r := Parse(a + [w], defaults);
            && (r == Err(MissingValue(w)) <==> WantsValue(w))
            && (Inert(w) ==> r == Parse(a, defaults))
            && (r == Err(UnsupportedFlag(w)) <==>
                  StartsWithDash(w) && !WantsValue(w) && !Inert(w) && !IsSwitch(w) && w != "--")
  {
    WordsClassified(w);
    if w == "--" {
      RestAppended(a, [], paths, defaults);
      assert a + ["--"] + [] == a + [w];
    } else if Inert(w) {
      InertWordInserted(a, w, [], defaults);
      assert a + [w] + [] == a + [w] && a + [] == a;
      AcceptedNeedsDefaultsOnly(a, paths, defaults);
    } else {
      OneWordDecides(a, w, paths, defaults);
    }
  }

  /** A command line accepted with some default identities can fail with others only for their lack. */
  lemma AcceptedNeedsDefaultsOnly(a: seq<string>, paths: seq<string>, defaults: DefaultPaths)
    requires Parse(a, Ok(paths)).Ok?
    ensures Parse(a, defaults).Ok? || Parse(a, defaults).error.Defaults?
  {
    hide FirstFault, Selected, Groups;
  }

  lemma OneWordDecides(a: seq<string>, w: string, paths: seq<string>, defaults: DefaultPaths)
    requires Closed(a) && Parse(a, Ok(paths)).Ok? && !Classify(w).Terminator? && !Classify(w).Ignored?
    ensures var r := Parse(a + [w], defaults);
            && (Classify(w).TakesValue? ==> r == Err(MissingValue(w)))
            && (Classify(w).Unsupported? ==> r == Err(UnsupportedFlag(w)))
            && (!Classify(w).TakesValue? && !Classify(w).Unsupported? && r.Err? ==>
                  !r.error.MissingValue? && !r.error.UnsupportedFlag?)
  {
    hide Closed, Groups, ModeText, Finish, Reading;
    var done, g := Groups(a), GroupFor(Classify(w), [w]);
    WordsClassified(w);
    OneWordRead(a, w);
    ReadingIsFinish(done, Ok(paths));
    ReadingIsFinish(done + [g], defaults);
    FinishErrors(ProgressOf(done + [g]), defaults);
    hide Classify, FirstFault, ProgressOf, FlagText;
    Absorb(done, g);
  }

  lemma FinishErrors(p: Progress, defaults: DefaultPaths)
    ensures Finish(p, defaults).Err? ==>
              Finish(p, defaults).error.Defaults? || Finish(p, defaults).error.BiometricConflict?
  {
  }

  /** A bare word is one more path, in order. */
  lemma PathAppended(a: seq<string>, w: string, defaults: DefaultPaths)
    requires Closed(a) && Parse(a, Ok([])).Ok? && !StartsWithDash(w)
    ensures Parse(a + [w], defaults) == Ok(WithPaths(Parse(a, Ok([])).value, [w]))
  {
    hide Closed, Groups, Finish, Reading, FirstFault, ModeText;
    var done, g := Groups(a), Bare(w);
    WordsClassified(w);
    OneWordRead(a, w);
    PathsAbsorbed(a, done, g, [w], defaults);
  }

  lemma PathsAbsorbed(a: seq<string>, done: seq<Group>, g: Group, words: seq<string>, defaults: DefaultPaths)
    requires Groups(a) == done && Parse(a, Ok([])).Ok?
    requires g == Rest(words) || (|words| == 1 && g == Bare(words[0]))
    ensures var r := WithPaths(Parse(a, Ok([])).value, words);
            Reading(done + [g], defaults) ==
            if r.mode == Add([]) && defaults.Err? then Err(Defaults(defaults.error))
            else Ok(if r.mode == Add([]) then r.(mode := Add(defaults.value)) else r)
  {
    hide Groups, Reading, FirstFault, ProgressOf, ModeText;
    ReadingIsFinish(done, Ok([]));
    ReadingIsFinish(done + [g], defaults);
    ModeIsChosen(a, []);
    Absorb(done, g);
    if g.Bare? {
      assert words == [words[0]];
    }
    FinishWithPaths(ProgressOf(done), words, defaults);
    hide Finish;
  }

  lemma FinishWithPaths(p: Progress, words: seq<string>, defaults: DefaultPaths)
    requires Finish(p, Ok([])).Ok? && (p.mode.Some? ==> !p.mode.value.Add?)
    ensures var r := WithPaths(Finish(p, Ok([])).value, words);
            Finish(p.(paths := p.paths + words), defaults) ==
            if r.mode == Add([]) && defaults.Err? then Err(Defaults(defaults.error))
            else Ok(if r.mode == Add([]) then r.(mode := Add(defaults.value)) else r)
  {
  }

  /** Everything after `--` is a path, in order, even a word that starts with '-'; the default
      identities are looked up only where there is no path at all. */
  lemma RestAppended(a: seq<string>, words: seq<string>, paths: seq<string>, defaults: DefaultPaths)
    requires Closed(a) && Parse(a, Ok(paths)).Ok?
    ensures Parse(a, Ok([])).Ok?
    ensures var r := WithPaths(Parse(a, Ok([])).value, words);
            Parse(a + ["--"] + words, defaults) ==
            if r.mode == Add([]) && defaults.Err? then Err(Defaults(defaults.error))
            else Ok(if r.mode == Add([]) then r.(mode := Add(defaults.value)) else r)
  {
    AcceptedNeedsDefaultsOnly(a, paths, Ok([]));
    DefaultsFound(a);
    hide Closed, Groups, Reading, Classify;
    GroupsCompose(a, ["--"] + words);
    Regroup3(a, ["--"], words);
    RestRead(words);
    PathsAbsorbed(a, Groups(a), Rest(words), words, defaults);
  }

  lemma DefaultsFound(a: seq<string>)
    ensures Parse(a, Ok([])).Ok? || !Parse(a, Ok([])).error.Defaults?
  {
    hide Groups, Selected;
    FaultsAreNotDefaults(Groups(a), false);
  }

  lemma {:induction false} FaultsAreNotDefaults(gs: seq<Group>, taken: bool)
    ensures FirstFault(gs, taken).Some? ==>
              !FirstFault(gs, taken).value.Defaults? && !FirstFault(gs, taken).value.BiometricConflict?
  {
    if gs != [] {
      FaultsAreNotDefaults(gs[..|gs| - 1], taken);
    }
  }

  /** `-t` takes exactly the texts that denote a 64-bit number of seconds, and reports any other. */
  lemma LifetimeAppended(a: seq<string>, v: string, paths: seq<string>)
    requires Closed(a) && Parse(a, Ok(paths)).Ok?
    ensures var r := Parse(a + ["-t", v], Ok(paths));
            && (forall n: nat :: n <= 0xFFFF_FFFF_FFFF_FFFF && Decimal.Denotes(v, n) ==>
                  r == Ok(Parse(a, Ok(paths)).value.(lifetime := Some(n))))
            && (r == Err(BadLifetime(v)) <==> forall n: nat :: n <= 0xFFFF_FFFF_FFFF_FFFF ==> !Decimal.Denotes(v, n))
            && (r.Ok? || r.error.BadLifetime?)
  {
    hide Parse, Closed, Decimal.ParseUnsigned, Decimal.Denotes;
    FlagAppended(a, Valued(LifetimeFlag, v), paths, Ok(paths));
    forall n: nat
      ensures Decimal.ParseUnsigned(v, Decimal.U64_MAX) == Some(n) <==> n <= Decimal.U64_MAX && Decimal.Denotes(v, n)
    {
      Decimal.ParseIff(v, Decimal.U64_MAX, n);
    }
    var parsed := Decimal.ParseUnsigned(v, Decimal.U64_MAX);
    if parsed.Some? {
      assert Decimal.Denotes(v, parsed.value);
    }
  }

  /** `-E` takes the two hash names, each letter in either case, and reports any other text. */
  lemma HashAppended(a: seq<string>, v: string, paths: seq<string>)
    requires Closed(a) && Parse(a, Ok(paths)).Ok?
    ensures var r := Parse(a + ["-E", v], Ok(paths));
            && (Spells(v, "sha256") ==> r == Ok(Parse(a, Ok(paths)).value.(hash := Sha256)))
            && (Spells(v, "sha512") ==> r == Ok(Parse(a, Ok(paths)).value.(hash := Sha512)))
            && (r == Err(BadHash(Lower(v))) <==> !Spells(v, "sha256") && !Spells(v, "sha512"))
            && (r.Ok? || r.error.BadHash?)
  {
    hide Parse, Closed, ParseHash, Spells, Lower;
    FlagAppended(a, Valued(HashFlag, v), paths, Ok(paths));
    ParseHashIff(v, Sha256);
    ParseHashIff(v, Sha512);
    if ParseHash(v).Some? {
      match ParseHash(v).value {
        case Sha256 => assert ParseHash(v) == Some(Sha256);
        case Sha512 => assert ParseHash(v) == Some(Sha512);
      }
    }
  }

  /** An error made by the words stays, whatever follows. */
  lemma RejectedStays(a: seq<string>, b: seq<string>, defaults: DefaultPaths)
    requires Closed(a) && Parse(a, defaults).Err?
    requires !Parse(a, defaults).error.Defaults? && !Parse(a, defaults).error.BiometricConflict?
    ensures Parse(a + b, defaults) == Parse(a, defaults)
  {
    hide Closed, Groups, Classify, FirstFault, Selected, Paths;
    GroupsCompose(a, b);
    FirstFaultAppend(Groups(a), Groups(b), false);
  }

  /** Missing default identities are reported before the conflict of the biometric flags, which is
      reported where paths are given. */
  lemma DefaultsBeforeConflict(e: DefaultKeys.PathError, w: string)
    requires !StartsWithDash(w)
    ensures Parse(["--biometric", "--no-biometric"], Err(e)) == Err(Defaults(e))
    ensures Parse(["--biometric", "--no-biometric"] + [w], Err(e)) == Err(BiometricConflict)
  {
    var a, x, y := ["--biometric", "--no-biometric"], Toggle(BiometricSwitch), Toggle(NoBiometricSwitch);
    BothFlags();
    WordsClassified(w);
    hide Groups, Closed, Classify;
    OneWordRead(a, w);
    NothingRead();
    Absorb([], x);
    Absorb([x], y);
    Absorb([x, y], Bare(w));
    assert [] + [x] == [x] && [x] + [y] == [x, y];
    ReadingIsFinish([x, y], Err(e));
    ReadingIsFinish([x, y] + [Bare(w)], Err(e));
    hide Reading, FirstFault, ProgressOf;
  }

  lemma BothFlags()
    ensures Groups(["--biometric", "--no-biometric"]) == [Toggle(BiometricSwitch), Toggle(NoBiometricSwitch)]
    ensures Closed(["--biometric", "--no-biometric"])
  {
    var x, y := Toggle(BiometricSwitch), Toggle(NoBiometricSwitch);
    assert Slots(x) + Slots(y) == ["--biometric", "--no-biometric"] && Slots(y) + [] == Slots(y);
    hide Slots, Groups, Classify;
    GroupsStep(y, []);
    GroupsStep(x, Slots(y));
    NoGroups();
    assert [x] + ([y] + []) == [x, y];
  }
}
