/** The words of a `gitway-keygen` command line, letter by letter: what one more word, or one more
    flag with its value, does after any accepted command line. */
module KeygenWords {
  import opened Wrappers
  import opened HashArg
  import opened KeygenArgs
  import opened KeygenLaws
  import opened Sequences
  import Decimal

  /** Accepted and ignored: `-q`, up to three `v`s, and `-O` with its option in the same word. */
  predicate Inert(w: string) {
    w == "-q" || w == "-v" || w == "-vv" || w == "-vvv" || (|w| > 2 && w[0] == '-' && w[1] == 'O')
  }

  predicate WantsValue(w: string) {
    w == "-t" || w == "-b" || w == "-f" || w == "-N" || w == "-P" || w == "-C" || w == "-n" || w == "-I" ||
    w == "-s" || w == "-E" || w == "-Y" || w == "--allowed-signers" || w == "-O"
  }

  predicate IsSwitch(w: string) {
    w == "-l" || w == "-y" || w == "-p"
  }

  predicate StartsWithDash(w: string) {
    w != "" && w[0] == '-'
  }

  lemma PackedOption(w: string)
    ensures |w| > 2 && w[..2] == "-O" <==> |w| > 2 && w[0] == '-' && w[1] == 'O'
  {
    if |w| > 2 {
      assert w[..2] == [w[0], w[1]];
    }
  }

  /** The loop takes each word for what it says. */
  lemma WordsClassified(w: string)
    ensures Inert(w) <==> Classify(w).Ignored?
    ensures WantsValue(w) <==> Classify(w).TakesValue?
    ensures Classify(w).TakesValue? ==> FlagText(Classify(w).flag) == w
    ensures IsSwitch(w) <==> Classify(w).Toggles?
    ensures w == "--" <==> Classify(w).Terminator?
    ensures !StartsWithDash(w) <==> Classify(w).Positional?
  {
    InertClassified(w);
    PackedOption(w);
    hide Inert;
  }

  lemma InertClassified(w: string)
    ensures Inert(w) <==> Classify(w).Ignored?
  {
    PackedOption(w);
    if |w| > 2 && w[0] == '-' && w[1] == 'O' {
      assert w != "--allowed-signers" by {
        assert "--allowed-signers"[1] == '-';
      }
    }
  }

  /** Inserting an ignored word at a group boundary before `--` changes neither the record nor the
      error. */
  lemma InertWordInserted(a: seq<string>, w: string, b: seq<string>)
    requires Closed(a) && Inert(w)
    ensures Parse(a + [w] + b) == Parse(a + b)
  {
    WordsClassified(w);
    NoiseIsInert(a, [w], b);
  }

  lemma OptionInserted(a: seq<string>, v: string, b: seq<string>)
    requires Closed(a)
    ensures Parse(a + ["-O", v] + b) == Parse(a + b)
  {
    NoiseIsInert(a, ["-O", v], b);
  }

  lemma OneWordRead(a: seq<string>, w: string)
    requires Closed(a) && !Classify(w).Terminator?
    ensures Groups(a + [w]) == Groups(a) + [GroupFor(Classify(w), [w])]
  {
    hide Classify, Closed;
    GroupsCompose(a, [w]);
    OneGroupRead([w]);
    NothingGiven();
    assert [w][1..] == [];
    assert GroupFor(Classify(w), [w]) == HeadGroup([w]);
    assert [HeadGroup([w])] + [] == [HeadGroup([w])];
  }

  /** What a bare word fills: the message file, then the key file unless it is given. */
  function Filled(p: Parsed, w: string): Parsed {
    if p.messageFile.None? then p.(messageFile := Some(w))
    else if p.file.None? then p.(file := Some(w))
    else p
  }

  /** One more word after any accepted command line. A flag that wants a value is reported to lack
      it, an ignored word and `--` change nothing, any other word that starts with '-' and is no
      switch is reported, and a bare word fills its place. */
  lemma OneMoreWord(a: seq<string>, w: string)
    requires Closed(a) && Parse(a).Ok?
    ensures var r := Parse(a + [w]);
            && (r == Err(MissingValue(w)) <==> WantsValue(w))
            && (Inert(w) || w == "--" ==> r == Parse(a))
            && (r == Err(UnsupportedFlag(w)) <==>
                  StartsWithDash(w) && !WantsValue(w) && !Inert(w) && !IsSwitch(w) && w != "--")
            && (!StartsWithDash(w) ==> r == Ok(Filled(Parse(a).value, w)))
            && (r.Err? ==> r.error.MissingValue? || r.error.UnsupportedFlag?)
  {
    WordsClassified(w);
    if w == "--" {
      TerminatorDiscardsRest(a, []);
      assert a + ["--"] + [] == a + [w];
    } else if Inert(w) {
      InertWordInserted(a, w, []);
      assert a + [w] + [] == a + [w] && a + [] == a;
    } else {
      OneWordDecides(a, w);
    }
  }

  lemma OneWordDecides(a: seq<string>, w: string)
    requires Closed(a) && Parse(a).Ok?
    requires !Classify(w).Terminator? && !Classify(w).Ignored?
    ensures Parse(a + [w]) ==
            match Classify(w) {
              case TakesValue(f) => Err(MissingValue(FlagText(f)))
              case Toggles(s) => Ok(Parse(a).value.(mode := Stronger(Parse(a).value.mode, s)))
              case Positional => Ok(Filled(Parse(a).value, w))
              case _ => Err(UnsupportedFlag(w))
            }
  {
    hide Closed, Groups, Fields, ChosenMode, LastValue, Bares, FirstFault, Stronger, FlagText;
    var g, gs := GroupFor(Classify(w), [w]), Groups(a);
    OneWordRead(a, w);
    Snoc(gs, g);
    if g.Toggle? {
      ModeAfterSwitch(gs, g.switch);
    } else if g.Bare? {
      hide Classify;
      BareStep(gs, w);
      BareKeepsMode(gs, w);
    }
  }

  lemma BareKeepsMode(gs: seq<Group>, w: string)
    ensures ChosenMode(gs + [Bare(w)]) == ChosenMode(gs)
  {
    hide LastValue, Bares, FirstFault, OperationMode;
    Snoc(gs, Bare(w));
  }

  /** `-b` takes exactly the texts that denote a 32-bit number, and reports any other. */
  lemma BitsAppended(a: seq<string>, v: string)
    requires Closed(a) && Parse(a).Ok?
    ensures var r := Parse(a + ["-b", v]);
            && (forall n: nat :: n <= 0xFFFF_FFFF && Decimal.Denotes(v, n) ==>
                  r == Ok(Parse(a).value.(bits := Some(n))))
            && (r == Err(BadInteger(v)) <==> forall n: nat :: n <= 0xFFFF_FFFF ==> !Decimal.Denotes(v, n))
            && (r.Ok? || r.error.BadInteger?)
  {
    hide Parse, Closed, Decimal.ParseUnsigned, Decimal.Denotes;
    FlagAppended(a, BitsFlag, v);
    forall n: nat
      ensures Decimal.ParseUnsigned(v, 0xFFFF_FFFF) == Some(n) <==> n <= 0xFFFF_FFFF && Decimal.Denotes(v, n)
    {
      Decimal.ParseIff(v, 0xFFFF_FFFF, n);
    }
    var parsed := Decimal.ParseUnsigned(v, 0xFFFF_FFFF);
    if parsed.Some? {
      assert Decimal.Denotes(v, parsed.value);
    }
  }

  /** `-E` takes the two hash names, each letter in either case, and reports any other text. */
  lemma HashAppended(a: seq<string>, v: string)
    requires Closed(a) && Parse(a).Ok?
    ensures var r := Parse(a + ["-E", v]);
            && (Spells(v, "sha256") ==> r == Ok(Parse(a).value.(fingerprintHash := Sha256)))
            && (Spells(v, "sha512") ==> r == Ok(Parse(a).value.(fingerprintHash := Sha512)))
            && (r == Err(BadHash(Lower(v))) <==> !Spells(v, "sha256") && !Spells(v, "sha512"))
            && (r.Ok? || r.error.BadHash?)
  {
    hide Parse, Closed, ParseHash, Spells, Lower;
    FlagAppended(a, HashFlag, v);
    ParseHashIff(v, Sha256);
    ParseHashIff(v, Sha512);
    if ParseHash(v).Some? {
      match ParseHash(v).value {
        case Sha256 => assert ParseHash(v) == Some(Sha256);
        case Sha512 => assert ParseHash(v) == Some(Sha512);
      }
    }
  }

  /** `-Y` takes the four operations and reports any other. */
  lemma OperationAppended(a: seq<string>, v: string)
    requires Closed(a) && Parse(a).Ok?
    ensures var r := Parse(a + ["-Y", v]);
            && (v == "sign" ==> r == Ok(Parse(a).value.(mode := SshSigSign)))
            && (v == "verify" ==> r == Ok(Parse(a).value.(mode := SshSigVerify)))
            && (v == "check-novalidate" ==> r == Ok(Parse(a).value.(mode := SshSigCheckNoValidate)))
            && (v == "find-principals" ==> r == Ok(Parse(a).value.(mode := SshSigFindPrincipals)))
            && (r == Err(BadOperation(v)) <==>
                  v != "sign" && v != "verify" && v != "check-novalidate" && v != "find-principals")
  {
    hide Parse, Closed;
    FlagAppended(a, OperationFlag, v);
  }

  /** Only the last operation counts, even where an earlier one is unknown. */
  lemma OperationOverridden(a: seq<string>, v: string, op: string)
    requires Closed(a)
    ensures Parse(a + ["-Y", v] + ["-Y", op]) == Parse(a + ["-Y", op])
  {
    hide Closed, Groups, Classify;
    var g, h := Valued(OperationFlag, v), Valued(OperationFlag, op);
    GroupsStep(g, ["-Y", op]);
    GroupsStep(h, []);
    NothingGiven();
    assert ["-Y", op] + [] == ["-Y", op] && [h] + [] == [h];
    GroupsCompose(a, ["-Y", v] + ["-Y", op]);
    GroupsCompose(a, ["-Y", op]);
    Regroup3(a, ["-Y", v], ["-Y", op]);
    PairIsLast(g, h);
    Congruence(Groups(a), [g, h], [h], []);
    assert [g] + [h] == [g, h];
    assert Groups(a) + [g, h] + [] == Groups(a) + [g, h] && Groups(a) + [h] + [] == Groups(a) + [h];
  }

  lemma PairIsLast(g: Group, h: Group)
    requires Sets(g, OperationFlag) && Sets(h, OperationFlag)
    ensures SameMeaning([g, h], [h])
  {
    hide LastValue, Bares, FirstFault;
    NothingGiven();
    assert [g, h] == [] + [g] + [h] && [h] == [] + [h];
    Snoc([], g);
    Snoc([] + [g], h);
    Snoc([], h);
  }

  /** An error stays, whatever follows; only an unknown operation can still be put right. */
  lemma RejectedStays(a: seq<string>, b: seq<string>)
    requires Closed(a) && Parse(a).Err? && !Parse(a).error.BadOperation?
    ensures Parse(a + b) == Parse(a)
  {
    hide Closed, Groups, Classify, FirstFault, LastValue, Bares;
    GroupsCompose(a, b);
    FirstFaultAppend(Groups(a), Groups(b));
  }
}
