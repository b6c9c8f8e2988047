/** The life of a vault: key loads, transport runs, enrollments, forgetting and passphrase changes
    in any order, on any backend and whatever it answers. */
module History {
  import opened Wrappers
  import opened Records
  import opened Biometric
  import opened Keystores
  import opened KeystoreRuns
  import opened Keys
  import opened Unlock
  import opened Queues

  datatype System = System(disk: map<string, KeyFile>, ks: Keystore)

  /** One step, with everything the outside world decides: the typed passphrase (none when
      prompting fails) and how the platform behaves in each vault call. */
  datatype Event =
    | Load(path: string, mode: UnlockMode, typed: Option<string>, f: Platform, g: Platform)
    | TransportUnlock(path: string, f: Platform, g: Platform)
    | EnrollCommand(path: string, typed: Option<string>, f: Platform)
    | Forget(fingerprint: string, f: Platform)
    | ChangePassphrase(path: string, current: string, next: Option<string>)

  /** What an observer records of a step. */
  datatype Note =
    | Stored(fingerprint: string, passphrase: string)
    | FoundStale(fingerprint: string, forgotten: bool)
    | Changed(fingerprint: string)
    | Quiet

  /** Both load paths and `biometric enroll` store only a passphrase that was typed and has just
      decrypted the key. */
  function EnrollStep(s: System, key: KeyFile, typed: Option<string>, f: Platform): (System, Note) {
    if typed.Some? && Encrypted(key) && Decrypts(key, typed.value) then
      var (ks', r) := Step(s.ks, Store(key.fingerprint, typed.value), f);
      (s.(ks := ks'), if r.Done? then Stored(key.fingerprint, typed.value) else Quiet)
    else (s, Quiet)
  }

  /** Automatic unlock, which asks the vault whether or not the key is encrypted. */
  function UnlockStep(s: System, key: KeyFile, f: Platform, g: Platform): (System, Note) {
    var (ks', r) := AutoUnlockStep(s.ks, key, f, g);
    (s.(ks := ks'),
     if r.Stale? then FoundStale(key.fingerprint, Step(s.ks, Delete(key.fingerprint), g).1.Done?) else Quiet)
  }

  function LoadStep(s: System, key: KeyFile, mode: UnlockMode, typed: Option<string>, f: Platform, g: Platform)
    : (System, Note)
  {
    if !Encrypted(key) || mode.Disabled? then (s, Quiet)
    else if mode.Enroll? then EnrollStep(s, key, typed, f)
    else UnlockStep(s, key, f, g)
  }

  function ChangeStep(s: System, path: string, current: string, next: Option<string>): (System, Note)
    requires path in s.disk
  {
    var key := s.disk[path];
    if Encrypted(key) && !Decrypts(key, current) then (s, Quiet)
    else (s.(disk := s.disk[path := key.(passphrase := next)]), Changed(key.fingerprint))
  }

  /** Changing a passphrase takes the current one, or none where the key has none; it then puts the new
      one in its place, and no other file or vault entry changes. */
  lemma ChangeOutcome(s: System, path: string, current: string, next: Option<string>)
    requires path in s.disk
    ensures var (s', n) := ChangeStep(s, path, current, next);
            var old' := s.disk[path].passphrase;
            && (n == Changed(s.disk[path].fingerprint) <==> old'.None? || old' == Some(current))
            && (n.Changed? || n.Quiet?)
            && s'.ks == s.ks && s'.disk.Keys == s.disk.Keys
            && (n.Quiet? ==> s' == s)
            && (n.Changed? ==>
                  && s'.disk[path].passphrase == next && s'.disk[path].fingerprint == s.disk[path].fingerprint
                  && forall p :: p in s.disk && p != path ==> s'.disk[p] == s.disk[p])
  {
  }

  function Advance(s: System, e: Event): (System, Note) {
    match e
    case Load(path, mode, typed, f, g) =>
      if path in s.disk then LoadStep(s, s.disk[path], mode, typed, f, g) else (s, Quiet)
    case TransportUnlock(path, f, g) =>
      if path in s.disk then UnlockStep(s, s.disk[path], f, g) else (s, Quiet)
    case EnrollCommand(path, typed, f) =>
      if path in s.disk then EnrollStep(s, s.disk[path], typed, f) else (s, Quiet)
    case Forget(fp, f) => (s.(ks := Step(s.ks, Delete(fp), f).0), Quiet)
    case ChangePassphrase(path, current, next) =>
      if path in s.disk then ChangeStep(s, path, current, next) else (s, Quiet)
  }

  type Run = seq<Event>

  function At(s: System, run: Run): System {
    if run == [] then s else Advance(At(s, run[..|run| - 1]), run[|run| - 1]).0
  }

  function NoteAt(s: System, run: Run, k: nat): Note
    requires k < |run|
  {
    Advance(At(s, run[..k]), run[k]).1
  }

  /** The platform reports honestly. */
  predicate HonestEvent(e: Event) {
    match e
    case Load(_, _, _, f, g) => Honest(f) && Honest(g)
    case TransportUnlock(_, f, g) => Honest(f) && Honest(g)
    case EnrollCommand(_, _, f) => Honest(f)
    case Forget(_, f) => Honest(f)
    case ChangePassphrase(_, _, _) => true
  }

  predicate HonestRun(run: Run) {
    forall k :: 0 <= k < |run| ==> HonestEvent(run[k])
  }

  /** No entry differs but those of one key. */
  ghost predicate OthersKept(ks: Keystore, ks': Keystore, fp: string) {
    forall n: string :: n != fp ==> HeldFor(ks', n) == HeldFor(ks, n)
  }

  /** Some file of this key decrypts under this passphrase. */
  ghost predicate SomeFileDecrypts(disk: map<string, KeyFile>, fp: string, pp: string) {
    exists p :: p in disk && disk[p].fingerprint == fp && Decrypts(disk[p], pp)
  }

  ghost predicate SomeFileRejects(disk: map<string, KeyFile>, fp: string, pp: string) {
    exists p :: p in disk && disk[p].fingerprint == fp && !Decrypts(disk[p], pp)
  }

  /** What one step may do to the vault and the disk, by what was noted. */
  ghost predicate Effect(s: System, n: Note, s': System) {
    match n
    case Stored(fp, pp) =>
      var q, q' := HeldFor(s.ks, fp), HeldFor(s'.ks, fp);
      && s'.disk == s.disk && OthersKept(s.ks, s'.ks, fp)
      && (q' == q + [Text(pp)] || q' == Rest(q) + [Text(pp)])
      && SomeFileDecrypts(s.disk, fp, pp)
    case FoundStale(fp, forgotten) =>
      var q, q' := HeldFor(s.ks, fp), HeldFor(s'.ks, fp);
      && s'.disk == s.disk && OthersKept(s.ks, s'.ks, fp)
      && q != [] && q[0].Text? && q' == (if forgotten then q[1..] else q)
      && SomeFileRejects(s.disk, fp, q[0].text)
    case Changed(fp) =>
      && s'.ks == s.ks
      && exists p, next :: p in s.disk && s.disk[p].fingerprint == fp &&
                           s'.disk == s.disk[p := s.disk[p].(passphrase := next)]
    case Quiet =>
      && s'.disk == s.disk
      && exists fp: string ::
           OthersKept(s.ks, s'.ks, fp) &&
           (HeldFor(s'.ks, fp) == HeldFor(s.ks, fp) || HeldFor(s'.ks, fp) == Rest(HeldFor(s.ks, fp)))
  }

  lemma NothingHappens(s: System)
    ensures Effect(s, Quiet, s)
  {
    assert OthersKept(s.ks, s.ks, "");
  }

  lemma StepEffect(s: System, e: Event)
    requires Consistent(s.ks) && HonestEvent(e)
    ensures var (s', n) := Advance(s, e); Consistent(s'.ks) && Effect(s, n, s')
  {
    hide Step, Consistent, HeldFor, AutoUnlockStep, LoadStep, UnlockStep, EnrollStep, OthersKept;
    NothingHappens(s);
    match e {
      case Load(path, mode, typed, f, g) =>
        if path in s.disk {
          LoadEffect(s, path, mode, typed, f, g);
        }
      case TransportUnlock(path, f, g) =>
        if path in s.disk {
          UnlockEffect(s, path, f, g);
        }
      case EnrollCommand(path, typed, f) =>
        if path in s.disk {
          EnrollEffect(s, path, typed, f);
        }
      case Forget(fp, f) => DeleteEffect(s, fp, f);
      case ChangePassphrase(path, current, next) =>
    }
  }

  lemma DeleteEffect(s: System, fp: string, f: Platform)
    requires Consistent(s.ks) && Honest(f)
    ensures var ks' := Step(s.ks, Delete(fp), f).0; Consistent(ks') && Effect(s, Quiet, s.(ks := ks'))
  {
    hide Step, Consistent, HeldFor;
    StepSimulates(s.ks, Delete(fp), f);
    assert OthersKept(s.ks, Step(s.ks, Delete(fp), f).0, fp);
  }

  lemma EnrollEffect(s: System, path: string, typed: Option<string>, f: Platform)
    requires path in s.disk && Consistent(s.ks) && Honest(f)
    ensures var (s', n) := EnrollStep(s, s.disk[path], typed, f); Consistent(s'.ks) && Effect(s, n, s')
  {
    hide Step, Consistent, HeldFor;
    NothingHappens(s);
    var fp := s.disk[path].fingerprint;
    if typed.Some? {
      StepSimulates(s.ks, Store(fp, typed.value), f);
      assert OthersKept(s.ks, Step(s.ks, Store(fp, typed.value), f).0, fp);
    }
  }

  lemma UnlockEffect(s: System, path: string, f: Platform, g: Platform)
    requires path in s.disk && Consistent(s.ks) && Honest(f) && Honest(g)
    ensures var (s', n) := UnlockStep(s, s.disk[path], f, g); Consistent(s'.ks) && Effect(s, n, s')
  {
    hide Step, Consistent, HeldFor, AutoUnlockStep;
    NothingHappens(s);
    AutoUnlockEffect(s.ks, s.disk[path], f, g);
  }

  lemma LoadEffect(s: System, path: string, mode: UnlockMode, typed: Option<string>, f: Platform, g: Platform)
    requires path in s.disk && Consistent(s.ks) && Honest(f) && Honest(g)
    ensures var (s', n) := LoadStep(s, s.disk[path], mode, typed, f, g); Consistent(s'.ks) && Effect(s, n, s')
  {
    hide Step, Consistent, HeldFor, EnrollStep, UnlockStep, Effect;
    NothingHappens(s);
    EnrollEffect(s, path, typed, f);
    UnlockEffect(s, path, f, g);
  }

  /** Along any honest run the vault stays consistent and every step has its noted effect. */
  lemma {:induction false} RunEffect(s: System, run: Run, k: nat)
    requires Consistent(s.ks) && HonestRun(run) && k <= |run|
    ensures Consistent(At(s, run[..k]).ks)
    ensures k < |run| ==> Effect(At(s, run[..k]), NoteAt(s, run, k), At(s, run[..k + 1]))
  {
    hide Consistent, Effect, Advance, HonestEvent;
    if k > 0 {
      RunEffect(s, run, k - 1);
      StepEffect(At(s, run[..k - 1]), run[k - 1]);
      assert run[..k][..k - 1] == run[..k - 1];
    }
    if k < |run| {
      StepEffect(At(s, run[..k]), run[k]);
      assert run[..k + 1][..k] == run[..k];
    }
  }

  lemma NothingRun(s: System, run: Run)
    ensures At(s, run[..0]) == s && run[..|run|] == run
  {
  }

  // ------------------------------------------------------------- one key's queue

  /** What step k stored for a key, if it did. */
  function StoredAt(s: System, run: Run, k: nat, fp: string): Option<Secret>
    requires k < |run|
  {
    var n := NoteAt(s, run, k);
    if n.Stored? && n.fingerprint == fp then Some(Text(n.passphrase)) else None
  }

  function LifeOf(s: System, run: Run, fp: string): Life<Secret> {
    Life((k: nat) => if k <= |run| then HeldFor(At(s, run[..k]).ks, fp) else [],
         (k: nat) => if k < |run| then StoredAt(s, run, k, fp) else None)
  }

  /** The successful stores of a key from step i on, before step j. */
  function StoresOf(s: System, run: Run, fp: string, i: nat, j: nat): nat
    requires i <= j
  {
    Puts(LifeOf(s, run, fp), i, j)
  }

  /** The stale results for a key, from step i on and before step j, whose entry was deleted. */
  function ForgottenOf(s: System, run: Run, fp: string, i: nat, j: nat): nat
    requires i <= j
  {
    Count((k: nat) => k < |run| && NoteAt(s, run, k) == FoundStale(fp, true), i, j)
  }

  lemma EffectMoves(s: System, n: Note, s': System, fp: string)
    requires Effect(s, n, s')
    ensures Moves(HeldFor(s.ks, fp), if n.Stored? && n.fingerprint == fp then Some(Text(n.passphrase)) else None,
                  HeldFor(s'.ks, fp))
    ensures n == FoundStale(fp, true) ==> |HeldFor(s'.ks, fp)| < |HeldFor(s.ks, fp)|
  {
    hide HeldFor;
  }

  lemma LifeMoves(s: System, run: Run, fp: string)
    requires Consistent(s.ks) && HonestRun(run)
    ensures Moving(LifeOf(s, run, fp), |run|)
  {
    hide Consistent, HonestRun, Effect, HeldFor, At, NoteAt, Moves;
    var l := LifeOf(s, run, fp);
    forall k: nat | k < |run| ensures Moves(l.contents(k), l.puts(k), l.contents(k + 1)) {
      RunEffect(s, run, k);
      EffectMoves(At(s, run[..k]), NoteAt(s, run, k), At(s, run[..k + 1]), fp);
    }
  }

  /** Self-heal is paid for, key by key: within any part of any honest run, the stale results of
      a key whose entry was deleted, plus its entries left, are at most the entries it had plus
      its successful stores. */
  lemma SelfHealAmortisedPerKey(s: System, run: Run, fp: string, i: nat, j: nat)
    requires Consistent(s.ks) && HonestRun(run) && i <= j <= |run|
    ensures ForgottenOf(s, run, fp, i, j) + |HeldFor(At(s, run[..j]).ks, fp)| <=
            |HeldFor(At(s, run[..i]).ks, fp)| + StoresOf(s, run, fp, i, j)
  {
    hide Consistent, HonestRun, Effect, HeldFor, At, NoteAt, Moves;
    var l := LifeOf(s, run, fp);
    var takes := (k: nat) => k < |run| && NoteAt(s, run, k) == FoundStale(fp, true);
    LifeMoves(s, run, fp);
    forall k: nat | i <= k < j && takes(k) ensures |l.contents(k + 1)| < |l.contents(k)| {
      RunEffect(s, run, k);
      EffectMoves(At(s, run[..k]), NoteAt(s, run, k), At(s, run[..k + 1]), fp);
    }
    Balance(l, takes, i, j);
    SameCount(s, run, fp, takes, i, j);
  }

  lemma {:induction false} SameCount(s: System, run: Run, fp: string, takes: nat -> bool, i: nat, j: nat)
    requires i <= j
    requires forall k: nat :: takes(k) <==> k < |run| && NoteAt(s, run, k) == FoundStale(fp, true)
    ensures ForgottenOf(s, run, fp, i, j) == Count(takes, i, j)
  {
    hide NoteAt;
    if i < j {
      SameCount(s, run, fp, takes, i, j - 1);
    }
  }

  /** Between two stale results of a key, the first of them deleted, the entries taken are paid
      for; where the key was held once, there is a store between them. */
  lemma StoreBetweenStales(s: System, run: Run, i: nat, j: nat, fp: string) returns (k: nat)
    requires Consistent(s.ks) && HonestRun(run) && i < j < |run|
    requires NoteAt(s, run, i) == FoundStale(fp, true)
    requires NoteAt(s, run, j).FoundStale? && NoteAt(s, run, j).fingerprint == fp
    ensures ForgottenOf(s, run, fp, i, j) < |HeldFor(At(s, run[..i]).ks, fp)| + StoresOf(s, run, fp, i, j)
    ensures |HeldFor(At(s, run[..i]).ks, fp)| == 1 ==> i < k < j && StoredAt(s, run, k, fp).Some?
  {
    hide Consistent, HonestRun, HeldFor, At, NoteAt, Moves;
    SelfHealAmortisedPerKey(s, run, fp, i, j);
    SelfHealAmortisedPerKey(s, run, fp, i + 1, j);
    RunEffect(s, run, i);
    RunEffect(s, run, j);
    k := 0;
    if |HeldFor(At(s, run[..i]).ks, fp)| == 1 {
      k := SomePut(LifeOf(s, run, fp), i + 1, j);
    }
  }

  // ---------------------------------------------------------- all keys together

  /** Stale results whose entry was deleted, and successful stores, among the first k steps. */
  function Forgotten(s: System, run: Run, k: nat): nat
    requires k <= |run|
  {
    if k == 0 then 0
    else Forgotten(s, run, k - 1) + var n := NoteAt(s, run, k - 1); if n.FoundStale? && n.forgotten then 1 else 0
  }

  function Stores(s: System, run: Run, k: nat): nat
    requires k <= |run|
  {
    if k == 0 then 0 else Stores(s, run, k - 1) + if NoteAt(s, run, k - 1).Stored? then 1 else 0
  }

  /** If only one key's entries differ, the numbers of entries differ as that key's do. */
  lemma SizesFollow(ks: Keystore, ks': Keystore, fp: string)
    requires OthersKept(ks, ks', fp)
    ensures |OwnersOf(ks')| - |HeldFor(ks', fp)| == |OwnersOf(ks)| - |HeldFor(ks, fp)|
  {
    hide HeldFor, OwnersOf;
    OwnersEnumerate(ks);
    OwnersEnumerate(ks');
    var m, m' := multiset(OwnersOf(ks)), multiset(OwnersOf(ks'));
    forall n: string | n != fp ensures m[n] == m'[n] {
      assert m[n] == |HeldFor(ks, n)| && m'[n] == |HeldFor(ks', n)|;
    }
    assert m[fp := 0] == m'[fp := 0];
    assert |m| == |m[fp := 0]| + m[fp] && |m'| == |m'[fp := 0]| + m'[fp];
  }

  lemma SizeEffect(s: System, n: Note, s': System)
    requires Effect(s, n, s')
    ensures |OwnersOf(s'.ks)| + (if n.FoundStale? && n.forgotten then 1 else 0) <=
            |OwnersOf(s.ks)| + if n.Stored? then 1 else 0
  {
    hide HeldFor, OwnersOf, OthersKept;
    match n {
      case Stored(fp, _) => SizesFollow(s.ks, s'.ks, fp);
      case FoundStale(fp, _) => SizesFollow(s.ks, s'.ks, fp);
      case Changed(_) =>
      case Quiet =>
        var fp: string :|
          OthersKept(s.ks, s'.ks, fp) &&
          (HeldFor(s'.ks, fp) == HeldFor(s.ks, fp) || HeldFor(s'.ks, fp) == Rest(HeldFor(s.ks, fp)));
        SizesFollow(s.ks, s'.ks, fp);
    }
  }

  /** Self-heal is paid for: over any honest run, the stale entries deleted, plus the entries the
      vault still holds, are at most its initial entries plus the successful stores. */
  lemma {:induction false} SelfHealAmortised(s: System, run: Run, k: nat)
    requires Consistent(s.ks) && HonestRun(run) && k <= |run|
    ensures Forgotten(s, run, k) + |OwnersOf(At(s, run[..k]).ks)| <= |OwnersOf(s.ks)| + Stores(s, run, k)
  {
    hide Consistent, HonestRun, Effect, OwnersOf, At, NoteAt;
    if k == 0 {
      NothingRun(s, run);
    } else {
      SelfHealAmortised(s, run, k - 1);
      RunEffect(s, run, k - 1);
      SizeEffect(At(s, run[..k - 1]), NoteAt(s, run, k - 1), At(s, run[..k]));
    }
  }

  /** The same of the map from keys to what a lookup finds, if each key had one entry at first. */
  lemma SelfHealAmortisedOnMap(s: System, run: Run, k: nat)
    requires Consistent(s.ks) && Single(s.ks) && HonestRun(run) && k <= |run|
    ensures Forgotten(s, run, k) + |ViewOf(At(s, run[..k]).ks)| <= |ViewOf(s.ks)| + Stores(s, run, k)
  {
    hide Consistent, HonestRun, OwnersOf, ViewOf, HeldFor, At, NoteAt;
    SelfHealAmortised(s, run, k);
    OwnersEnumerate(s.ks);
    ViewSize(s.ks, OwnersOf(s.ks));
    OwnersEnumerate(At(s, run[..k]).ks);
    ViewSize(At(s, run[..k]).ks, OwnersOf(At(s, run[..k]).ks));
  }

  // ------------------------------------------------------- history of entries

  /** Step i stored pp for fp, having just checked it against a file of that key, and d successful
      stores of the key came after it, before step n. */
  ghost predicate VerifiedStoreAt(s: System, run: Run, n: nat, i: nat, fp: string, pp: string, d: nat) {
    && i < n <= |run|
    && NoteAt(s, run, i) == Stored(fp, pp)
    && SomeFileDecrypts(At(s, run[..i]).disk, fp, pp)
    && StoresOf(s, run, fp, i + 1, n) == d
  }

  /** Along any honest run, the entry at distance d from the back of a key's queue was verified to
      decrypt the key at the step that stored it, which d successful stores of the key followed,
      whichever of the enroll sites it was; or it was held at first. */
  lemma EntriesWereVerified(s: System, run: Run, n: nat, fp: string, d: nat) returns (i: nat)
    requires Consistent(s.ks) && HonestRun(run) && n <= |run|
    requires d < |HeldFor(At(s, run[..n]).ks, fp)|
    ensures var x, before, stores :=
              Back(HeldFor(At(s, run[..n]).ks, fp), d), HeldFor(s.ks, fp), StoresOf(s, run, fp, 0, n);
            if d < stores then x.Text? && VerifiedStoreAt(s, run, n, i, fp, x.text, d)
            else d - stores < |before| && Back(before, d - stores) == x
  {
    hide Consistent, HonestRun, HeldFor, At, NoteAt, Moves, Back, SomeFileDecrypts;
    LifeMoves(s, run, fp);
    NothingRun(s, run);
    i := Origin(LifeOf(s, run, fp), n, d);
    if d < StoresOf(s, run, fp, 0, n) {
      RunEffect(s, run, i);
    }
  }

  // -------------------------------------------------------- what stale means

  /** The same files under the same keys. */
  ghost predicate SameFiles(disk: map<string, KeyFile>, disk': map<string, KeyFile>) {
    disk'.Keys == disk.Keys && forall p :: p in disk ==> disk'[p].fingerprint == disk[p].fingerprint
  }

  lemma {:induction false} FilesKept(s: System, run: Run, k: nat)
    requires Consistent(s.ks) && HonestRun(run) && k <= |run|
    ensures SameFiles(s.disk, At(s, run[..k]).disk)
  {
    hide Consistent, HonestRun, HeldFor, At, NoteAt, OthersKept;
    if k == 0 {
      NothingRun(s, run);
    } else {
      FilesKept(s, run, k - 1);
      RunEffect(s, run, k - 1);
    }
  }

  ghost predicate ChangedWithin(s: System, run: Run, i: nat, j: nat, fp: string) {
    exists k :: i <= k < j && k < |run| && NoteAt(s, run, k) == Changed(fp)
  }

  /** A file of a key of which nothing was changed is what it was. */
  lemma {:induction false} UnchangedFile(s: System, run: Run, i: nat, j: nat, p: string)
    requires Consistent(s.ks) && HonestRun(run) && i <= j <= |run|
    requires p in At(s, run[..i]).disk && !ChangedWithin(s, run, i, j, At(s, run[..i]).disk[p].fingerprint)
    ensures p in At(s, run[..j]).disk && At(s, run[..j]).disk[p] == At(s, run[..i]).disk[p]
  {
    hide Consistent, HonestRun, HeldFor, At, NoteAt, OthersKept;
    if i < j {
      UnchangedFile(s, run, i, j - 1, p);
      RunEffect(s, run, j - 1);
    }
  }

  /** The key has at most one file. */
  ghost predicate OneFileFor(disk: map<string, KeyFile>, fp: string) {
    forall p, q :: p in disk && q in disk && disk[p].fingerprint == disk[q].fingerprint == fp ==> p == q
  }

  /** In any honest run, a stale result for a key that was not held at first means that its
      passphrase was changed after the step that verified and stored what was released, or that
      it has two files. That step is the last store exactly when the key was held once. */
  lemma StaleMeansChanged(s: System, run: Run, j: nat, fp: string) returns (i: nat, pp: string)
    requires Consistent(s.ks) && HonestRun(run) && HeldFor(s.ks, fp) == []
    requires j < |run| && NoteAt(s, run, j).FoundStale? && NoteAt(s, run, j).fingerprint == fp
    ensures var held := |HeldFor(At(s, run[..j]).ks, fp)|;
            && held > 0
            && VerifiedStoreAt(s, run, j, i, fp, pp, held - 1)
            && (StoresOf(s, run, fp, i + 1, j) == 0 <==> held == 1)
    ensures ChangedWithin(s, run, i, j, fp) || !OneFileFor(s.disk, fp)
  {
    hide Consistent, HonestRun, HeldFor, At, NoteAt, OthersKept, ChangedWithin;
    RunEffect(s, run, j);
    var q := HeldFor(At(s, run[..j]).ks, fp);
    i := EntriesWereVerified(s, run, j, fp, |q| - 1);
    pp := q[0].text;
    if !ChangedWithin(s, run, i, j, fp) {
      var earlier, now := At(s, run[..i]).disk, At(s, run[..j]).disk;
      var good :| good in earlier && earlier[good].fingerprint == fp && Decrypts(earlier[good], pp);
      var bad :| bad in now && now[bad].fingerprint == fp && !Decrypts(now[bad], pp);
      UnchangedFile(s, run, i, j, good);
      FilesKept(s, run, j);
      assert good != bad;
    }
  }

  // ------------------------------------------------- what an uncleared locker does

  const WORKS: Platform := Platform(true, true, true, true, true, true, Passed, 0)

  lemma OneMore(s: System, run: Run, k: nat)
    requires k < |run|
    ensures (At(s, run[..k + 1]), NoteAt(s, run, k)) == Advance(At(s, run[..k]), run[k])
  {
    assert run[..k + 1][..k] == run[..k];
  }

  /** Everything working, a load finds a key stale if and only if the front entry can be released
      and does not decrypt it; and then it takes that entry. */
  lemma WorkingLoad(s: System, path: string)
    requires path in s.disk && Encrypted(s.disk[path]) && Consistent(s.ks)
    ensures var fp, (s', n) := s.disk[path].fingerprint, Advance(s, Load(path, Auto, None, WORKS, WORKS));
            var q := HeldFor(s.ks, fp);
            && (n.FoundStale? <==>
                  && q != [] && q[0].Text? && (s.ks.Locker? ==> q[0].text != "")
                  && !Decrypts(s.disk[path], q[0].text))
            && (n.FoundStale? ==> n == FoundStale(fp, true) && HeldFor(s'.ks, fp) == q[1..])
            && s'.disk == s.disk && Consistent(s'.ks) && (s'.ks.Locker? <==> s.ks.Locker?)
  {
    hide Step, HeldFor, Consistent;
    WorkingRetrieve(s.ks, s.disk[path].fingerprint, WORKS);
    StepSimulates(s.ks, Delete(s.disk[path].fingerprint), WORKS);
  }

  /** Enrolling with the right passphrase, everything working but clearing a locker. */
  lemma UnclearedEnroll(s: System, path: string, pp: string)
    requires path in s.disk && s.disk[path].passphrase == Some(pp) && s.ks.Locker?
    ensures var fp := s.disk[path].fingerprint;
            var (s', n) := Advance(s, EnrollCommand(path, Some(pp), WORKS.(clear := false)));
            && n == Stored(fp, pp) && s'.disk == s.disk && s'.ks.Locker?
            && HeldFor(s'.ks, fp) == HeldFor(s.ks, fp) + [Text(pp)]
  {
    hide HeldFor;
    StepSimulates(s.ks, Store(s.disk[path].fingerprint, pp), WORKS.(clear := false));
    StoreWorksIff(s.ks, Store(s.disk[path].fingerprint, pp), WORKS.(clear := false));
  }

  /** A second load right after one that found a key stale finds it stale again if and only if
      another entry stood behind the first, and can be released but does not fit either. */
  lemma StaleAgainIff(s: System, path: string)
    requires path in s.disk && Consistent(s.ks)
    requires Advance(s, Load(path, Auto, None, WORKS, WORKS)).1.FoundStale?
    ensures var e, q := Load(path, Auto, None, WORKS, WORKS), HeldFor(s.ks, s.disk[path].fingerprint);
            Advance(Advance(s, e).0, e).1.FoundStale? <==>
              |q| > 1 && q[1].Text? && q[1].text != "" && !Decrypts(s.disk[path], q[1].text)
  {
    hide HeldFor, Consistent, AutoUnlockStep;
    WorkingLoad(s, path);
    WorkingLoad(Advance(s, Load(path, Auto, None, WORKS, WORKS)).0, path);
    if |HeldFor(s.ks, s.disk[path].fingerprint)| > 1 {
      OnlyLockersRepeat(s.ks, s.disk[path].fingerprint);
    }
  }

  function Disk(pp: string): map<string, KeyFile> {
    map["a" := KeyFile("SHA256:k", Some(pp))]
  }

  /** One key, enrolled, changed, and enrolled again without its old credential being cleared. */
  function EnrolledTwice(): Run {
    [EnrollCommand("a", Some("x"), WORKS.(clear := false)), ChangePassphrase("a", "x", Some("yy")),
     EnrollCommand("a", Some("yy"), WORKS.(clear := false))]
  }

  lemma EnrolledTwiceReached(run: Run)
    requires EnrolledTwice() <= run
    ensures var s := System(Disk("x"), Locker([]));
            var t := At(s, run[..3]);
            && t.disk == Disk("yy") && t.ks.Locker? && HeldFor(t.ks, "SHA256:k") == [Text("x"), Text("yy")]
            && NoteAt(s, run, 2) == Stored("SHA256:k", "yy")
  {
    hide HeldFor, Advance, EnrollStep;
    var s := System(Disk("x"), Locker([]));
    NothingRun(s, run);
    EmptyLocker("SHA256:k");
    UnclearedEnroll(s, "a", "x");
    OneMore(s, run, 0);
    var s1 := At(s, run[..1]);
    ChangeAdvance(s1, "a", "x", Some("yy"));
    assert Disk("x")["a" := KeyFile("SHA256:k", Some("yy"))] == Disk("yy");
    OneMore(s, run, 1);
    UnclearedEnroll(At(s, run[..2]), "a", "yy");
    OneMore(s, run, 2);
  }

  lemma EmptyLocker(fp: string)
    ensures HeldFor(Locker([]), fp) == []
  {
  }

  lemma ChangeAdvance(s: System, path: string, current: string, next: Option<string>)
    requires path in s.disk && s.disk[path].passphrase == Some(current)
    ensures Advance(s, ChangePassphrase(path, current, next)) ==
            (s.(disk := s.disk[path := s.disk[path].(passphrase := next)]), Changed(s.disk[path].fingerprint))
  {
  }

  /** A locker that is not cleared: with one file and nothing changed after the last store, a load
      finds the key stale. The entry it found was stored by the store before, and the change came
      after that one. */
  lemma UnclearedLockerStaleUnchanged()
    ensures var s, run := System(Disk("x"), Locker([])), EnrolledTwice() + [Load("a", Auto, None, WORKS, WORKS)];
            && OneFileFor(s.disk, "SHA256:k") && HeldFor(s.ks, "SHA256:k") == []
            && NoteAt(s, run, 2) == Stored("SHA256:k", "yy")
            && NoteAt(s, run, 3) == FoundStale("SHA256:k", true)
  {
    hide HeldFor, Advance;
    var s, run := System(Disk("x"), Locker([])), EnrolledTwice() + [Load("a", Auto, None, WORKS, WORKS)];
    EnrolledTwiceReached(run);
    EmptyLocker("SHA256:k");
    assert |"x"| == 1 && |"yy"| == 2;
    WorkingLoad(At(s, run[..3]), "a");
  }

  /** One more change before loading: two stale results in a row are deleted with no store between
      them. */
  lemma UnclearedLockerStaleTwice()
    ensures var load := Load("a", Auto, None, WORKS, WORKS);
            var s := System(Disk("x"), Locker([]));
            var run := EnrolledTwice() + [ChangePassphrase("a", "yy", Some("zzz")), load, load];
            && NoteAt(s, run, 4) == NoteAt(s, run, 5) == FoundStale("SHA256:k", true)
  {
    hide HeldFor, Advance;
    var load := Load("a", Auto, None, WORKS, WORKS);
    var s := System(Disk("x"), Locker([]));
    var run := EnrolledTwice() + [ChangePassphrase("a", "yy", Some("zzz")), load, load];
    EnrolledTwiceReached(run);
    var s3 := At(s, run[..3]);
    ChangeAdvance(s3, "a", "yy", Some("zzz"));
    assert Disk("yy")["a" := KeyFile("SHA256:k", Some("zzz"))] == Disk("zzz");
    OneMore(s, run, 3);
    assert |"x"| == 1 && |"yy"| == 2 && |"zzz"| == 3;
    WorkingLoad(At(s, run[..4]), "a");
    OneMore(s, run, 4);
    WorkingLoad(At(s, run[..5]), "a");
  }

  /** With two files for one key it can be otherwise: an enrollment through the first is stale for
      the second, though nothing was changed. */
  lemma TwoFilesGoStaleUnchanged()
    ensures var disk := map["a" := KeyFile("SHA256:k", Some("x")), "b" := KeyFile("SHA256:k", Some("yy"))];
            var s := System(disk, Locker([]));
            var run := [EnrollCommand("a", Some("x"), WORKS.(clear := false)), Load("b", Auto, None, WORKS, WORKS)];
            && NoteAt(s, run, 0) == Stored("SHA256:k", "x")
            && NoteAt(s, run, 1) == FoundStale("SHA256:k", true)
  {
    hide HeldFor, Advance;
    var disk := map["a" := KeyFile("SHA256:k", Some("x")), "b" := KeyFile("SHA256:k", Some("yy"))];
    var s := System(disk, Locker([]));
    var run := [EnrollCommand("a", Some("x"), WORKS.(clear := false)), Load("b", Auto, None, WORKS, WORKS)];
    NothingRun(s, run);
    EmptyLocker("SHA256:k");
    UnclearedEnroll(s, "a", "x");
    OneMore(s, run, 0);
    assert |"x"| == 1 && |"yy"| == 2;
    WorkingLoad(At(s, run[..1]), "b");
  }
}
