/** The three backends as one. Whatever the operating system does, each step of each of them is
    a step of one abstract machine: a queue of secrets per key. */
module Keystores {
  import opened Records
  import opened Biometric
  import L = LinuxVault
  import M = MacosVault
  import W = WindowsVault

  datatype Keystore =
    | Keyring(items: seq<L.Item>)
    | Keychain(entries: seq<M.Entry>)
    | Locker(credentials: seq<W.Credential>)

  /** The secrets held for one key, the one that is released in front. */
  function HeldFor(ks: Keystore, fp: string): Queue {
    match ks
    case Keyring(items) => Held(L.SlotOf, items, fp)
    case Keychain(entries) => Held(M.SlotOf, entries, fp)
    case Locker(credentials) => Held(W.SlotOf, credentials, fp)
  }

  /** The key of every entry that is ours, in order. */
  function OwnersOf(ks: Keystore): seq<string> {
    match ks
    case Keyring(items) => Owners(L.SlotOf, items)
    case Keychain(entries) => Owners(M.SlotOf, entries)
    case Locker(credentials) => Owners(W.SlotOf, credentials)
  }

  /** What the operating system maintains: a keyring or a keychain has at most one entry per key.
      A locker promises nothing. */
  ghost predicate Consistent(ks: Keystore) {
    match ks
    case Keyring(items) => L.Valid(items)
    case Keychain(entries) => M.Valid(entries)
    case Locker(_) => true
  }

  /** Nothing outside Gitway's namespace differs. */
  predicate SameForeign(x: Keystore, y: Keystore) {
    || (x.Keyring? && y.Keyring? && Foreign(L.SlotOf, x.items) == Foreign(L.SlotOf, y.items))
    || (x.Keychain? && y.Keychain? && Foreign(M.SlotOf, x.entries) == Foreign(M.SlotOf, y.entries))
    || (x.Locker? && y.Locker? && Foreign(W.SlotOf, x.credentials) == Foreign(W.SlotOf, y.credentials))
  }

  /** One vault operation on the backend at hand; keys are named by their prefixed id. */
  function Step(ks: Keystore, op: Op, f: Platform): (Keystore, Reply) {
    match ks
    case Keyring(items) =>
      (match op
       case Store(fp, pp) => var (s, r) := L.StoreStep(items, KeyIdFromFingerprint(fp), pp, f); (Keyring(s), r)
       case Retrieve(fp) => (ks, L.RetrieveStep(items, KeyIdFromFingerprint(fp), f))
       case Delete(fp) => var (s, r) := L.DeleteStep(items, KeyIdFromFingerprint(fp), f); (Keyring(s), r)
       case List => (ks, L.ListStep(items, f)))
    case Keychain(entries) =>
      (match op
       case Store(fp, pp) => var (s, r) := M.StoreStep(entries, KeyIdFromFingerprint(fp), pp, f); (Keychain(s), r)
       case Retrieve(fp) => (ks, M.RetrieveStep(entries, KeyIdFromFingerprint(fp), f))
       case Delete(fp) => var (s, r) := M.DeleteStep(entries, KeyIdFromFingerprint(fp), f); (Keychain(s), r)
       case List => (ks, M.ListStep(entries, f)))
    case Locker(credentials) =>
      (match op
       case Store(fp, pp) => var (s, r) := W.StoreStep(credentials, KeyIdFromFingerprint(fp), pp, f); (Locker(s), r)
       case Retrieve(fp) => (ks, W.RetrieveStep(credentials, KeyIdFromFingerprint(fp), f))
       case Delete(fp) => var (s, r) := W.DeleteStep(credentials, KeyIdFromFingerprint(fp), f); (Locker(s), r)
       case List => (ks, W.ListStep(credentials, f)))
  }

  datatype Backend =
    | OnLinux(linux: L.LinuxVault)
    | OnMacos(macos: M.MacosVault)
    | OnWindows(windows: W.WindowsVault)

  /** The backend chosen for this machine, behind the vault interface. */
  class VaultHandle {
    const backend: Backend

    constructor (backend: Backend)
      ensures this.backend == backend
    {
      this.backend := backend;
    }

    function Objects(): set<object> {
      match backend
      case OnLinux(v) => {v}
      case OnMacos(v) => {v}
      case OnWindows(v) => {v}
    }

    function Contents(): Keystore
      reads Objects()
    {
      match backend
      case OnLinux(v) => Keyring(v.items)
      case OnMacos(v) => Keychain(v.entries)
      case OnWindows(v) => Locker(v.credentials)
    }

    method Perform(op: Op, f: Platform) returns (r: Reply)
      modifies Objects()
      ensures (Contents(), r) == Step(old(Contents()), op, f)
    {
      match backend {
        case OnLinux(v) =>
          match op {
            case Store(fp, pp) => r := v.Store(KeyIdFromFingerprint(fp), pp, f);
            case Retrieve(fp) => r := v.Retrieve(KeyIdFromFingerprint(fp), f);
            case Delete(fp) => r := v.Delete(KeyIdFromFingerprint(fp), f);
            case List => r := v.List(f);
          }
        case OnMacos(v) =>
          match op {
            case Store(fp, pp) => r := v.Store(KeyIdFromFingerprint(fp), pp, f);
            case Retrieve(fp) => r := v.Retrieve(KeyIdFromFingerprint(fp), f);
            case Delete(fp) => r := v.Delete(KeyIdFromFingerprint(fp), f);
            case List => r := v.List(f);
          }
        case OnWindows(v) =>
          match op {
            case Store(fp, pp) => r := v.Store(KeyIdFromFingerprint(fp), pp, f);
            case Retrieve(fp) => r := v.Retrieve(KeyIdFromFingerprint(fp), f);
            case Delete(fp) => r := v.Delete(KeyIdFromFingerprint(fp), f);
            case List => r := v.List(f);
          }
      }
    }
  }

  /** A keychain reports "not found" only for what is not there. */
  predicate Honest(f: Platform) {
    f.status != M.ERR_SEC_ITEM_NOT_FOUND
  }

  lemma SameForeignReflexive(ks: Keystore)
    ensures SameForeign(ks, ks)
  {
  }

  lemma SameForeignTransitive(x: Keystore, y: Keystore, z: Keystore)
    requires SameForeign(x, y) && SameForeign(y, z)
    ensures SameForeign(x, z)
  {
  }

  // -------------------------------------------------------------- one step

  predicate Concerns(op: Op, fp: string) {
    match op
    case Store(name, _) => name == fp
    case Retrieve(name) => name == fp
    case Delete(name) => name == fp
    case List => false
  }

  /** Whether a successful store first takes the entry in front: only a locker that cannot be
      cleared keeps it. */
  predicate Clears(ks: Keystore, f: Platform) {
    ks.Locker? ==> f.search && f.clear
  }

  /** A listing names each key once per entry. */
  ghost predicate Enumerates(ks: Keystore, names: seq<string>) {
    forall fp: string :: multiset(names)[fp] == |HeldFor(ks, fp)|
  }

  /** The step of the abstract machine: the queue of the key concerned moves as the reply says,
      and no other queue moves. */
  ghost predicate Simulates(ks: Keystore, op: Op, f: Platform, r: Reply, ks': Keystore) {
    && (forall fp: string :: !Concerns(op, fp) ==> HeldFor(ks', fp) == HeldFor(ks, fp))
    && (op.List? ==>
          && ks' == ks
          && (r.Listed? || (r.Failed? && !r.error.NotEnrolled?))
          && (r.Listed? ==> Enumerates(ks, r.fingerprints))
          && (AllWorks(f) ==> r.Listed?))
    && (!op.List? ==>
          var q, q' := HeldFor(ks, op.fingerprint), HeldFor(ks', op.fingerprint);
          && Follows(q, op, r, q')
          && (op.Store? && r.Done? ==> q' == (if Clears(ks, f) then Rest(q) else q) + [Text(op.passphrase)])
          && (AllWorks(f) ==> Answers(q, op, r)))
  }

  /** Every operation on every backend is a step of the abstract machine, whatever the operating
      system does; and other applications' entries are untouched. */
  lemma StepSimulates(ks: Keystore, op: Op, f: Platform)
    requires Consistent(ks) && Honest(f)
    ensures var (ks', r) := Step(ks, op, f);
            Consistent(ks') && SameForeign(ks, ks') && Simulates(ks, op, f, r, ks')
  {
    hide Step, Simulates;
    match ks {
      case Keyring(items) => LinuxSimulates(items, op, f);
      case Keychain(entries) => MacosSimulates(entries, op, f);
      case Locker(credentials) => WindowsSimulates(credentials, op, f);
    }
  }

  lemma Prefixed(fp: string)
    ensures KEY_ID_PREFIX <= KeyIdFromFingerprint(fp) && FingerprintOf(KeyIdFromFingerprint(fp)) == fp
  {
  }

  lemma LinuxSimulates(items: seq<L.Item>, op: Op, f: Platform)
    requires L.Valid(items)
    ensures var (ks', r) := Step(Keyring(items), op, f);
            Consistent(ks') && SameForeign(Keyring(items), ks') && Simulates(Keyring(items), op, f, r, ks')
  {
    hide Held, L.StoreStep, L.RetrieveStep, L.DeleteStep, L.Matches, L.SlotOf, KeyIdFromFingerprint, FingerprintOf;
    hide Foreign, Owners, Unique, L.Names;
    match op {
      case Store(fp, pp) =>
        Prefixed(fp);
        L.StoreMeaning(items, KeyIdFromFingerprint(fp), pp, f);
      case Retrieve(fp) =>
        Prefixed(fp);
        L.RetrieveMeaning(items, KeyIdFromFingerprint(fp), f);
      case Delete(fp) =>
        Prefixed(fp);
        L.DeleteMeaning(items, KeyIdFromFingerprint(fp), f);
      case List => LinuxLists(items, f);
    }
  }

  lemma MacosSimulates(entries: seq<M.Entry>, op: Op, f: Platform)
    requires M.Valid(entries) && Honest(f)
    ensures var (ks', r) := Step(Keychain(entries), op, f);
            Consistent(ks') && SameForeign(Keychain(entries), ks') && Simulates(Keychain(entries), op, f, r, ks')
  {
    hide Held, M.StoreStep, M.RetrieveStep, M.DeleteStep, M.SlotOf, KeyIdFromFingerprint, FingerprintOf;
    hide Foreign, Owners, Unique;
    match op {
      case Store(fp, pp) =>
        Prefixed(fp);
        M.StoreMeaning(entries, KeyIdFromFingerprint(fp), pp, f);
      case Retrieve(fp) =>
        Prefixed(fp);
        M.RetrieveMeaning(entries, KeyIdFromFingerprint(fp), f);
      case Delete(fp) =>
        Prefixed(fp);
        M.DeleteMeaning(entries, KeyIdFromFingerprint(fp), f);
      case List => MacosLists(entries, f);
    }
  }

  lemma MacosLists(entries: seq<M.Entry>, f: Platform)
    requires Honest(f)
    ensures Simulates(Keychain(entries), List, f, M.ListStep(entries, f), Keychain(entries))
  {
    hide Held;
    forall fp { ListedPerEntry(M.SlotOf, entries, fp); }
  }

  lemma LinuxLists(items: seq<L.Item>, f: Platform)
    requires L.Valid(items)
    ensures Simulates(Keyring(items), List, f, L.ListStep(items, f), Keyring(items))
  {
    hide Held, L.Names, L.Valid;
    L.ListsOwners(items, f);
    forall fp { ListedPerEntry(L.SlotOf, items, fp); }
  }

  lemma WindowsLists(credentials: seq<W.Credential>, f: Platform)
    ensures Simulates(Locker(credentials), List, f, W.ListStep(credentials, f), Locker(credentials))
  {
    hide Held;
    forall fp { ListedPerEntry(W.SlotOf, credentials, fp); }
  }

  lemma WindowsSimulates(credentials: seq<W.Credential>, op: Op, f: Platform)
    ensures var (ks', r) := Step(Locker(credentials), op, f);
            && Consistent(ks') && SameForeign(Locker(credentials), ks')
            && Simulates(Locker(credentials), op, f, r, ks')
  {
    hide Held, W.StoreStep, W.RetrieveStep, W.DeleteStep, W.SlotOf, KeyIdFromFingerprint, FingerprintOf;
    hide Foreign, Owners;
    match op {
      case Store(fp, pp) =>
        Prefixed(fp);
        W.StoreMeaning(credentials, KeyIdFromFingerprint(fp), pp, f);
      case Retrieve(fp) =>
        Prefixed(fp);
        W.RetrieveMeaning(credentials, KeyIdFromFingerprint(fp), f);
      case Delete(fp) =>
        Prefixed(fp);
        W.DeleteMeaning(credentials, KeyIdFromFingerprint(fp), f);
      case List => WindowsLists(credentials, f);
    }
  }
}
