/** The macOS backend: generic passwords in the keychain, filed by service and account. */
module MacosVault {
  import opened Wrappers
  import opened Records
  import opened Biometric

  const SERVICE: string := "org.SpacecraftSoftware.gitway.ssh-passphrase"
  const ERR_SEC_ITEM_NOT_FOUND: int := -25300
  const ERR_SEC_DUPLICATE_ITEM: int := -25299
  const ERR_SEC_USER_CANCELED: int := -128
  const ERR_SEC_AUTH_FAILED: int := -25293

  datatype Entry = Entry(service: string, account: string, secret: Secret)

  function AccountOf(keyId: string): string {
    FingerprintOf(keyId)
  }

  function MapError(code: int): VaultError {
    if code == ERR_SEC_ITEM_NOT_FOUND then NotEnrolled
    else if code == ERR_SEC_USER_CANCELED || code == ERR_SEC_AUTH_FAILED then Cancelled
    else Backend
  }

  /** The user dismissed the prompt or did not pass it: errSecUserCanceled or errSecAuthFailed. */
  predicate UserDeclined(code: int) {
    code == -128 || code == -25293
  }

  function SlotOf(e: Entry): Slot {
    Slot(if e.service == SERVICE then Some(e.account) else None, e.secret)
  }

  predicate Filed(e: Entry, account: string) {
    e.service == SERVICE && e.account == account
  }

  /** The keychain files at most one password per service and account. */
  ghost predicate Valid(entries: seq<Entry>) {
    Unique(SlotOf, entries)
  }

  /** The code of a retrieve that finds the entry and does not release it. */
  function CodeOf(f: Platform): int {
    if f.gate.Refused? then ERR_SEC_AUTH_FAILED else f.status
  }

  /** The deletion that `store` performs first, ignoring its outcome. */
  function Cleared(entries: seq<Entry>, account: string, f: Platform): seq<Entry> {
    if f.clear then DropFirst(entries, (e: Entry) => Filed(e, account)) else entries
  }

  /** Adding rejects an account that is already filed. */
  function StoreStep(entries: seq<Entry>, keyId: string, pp: string, f: Platform): (seq<Entry>, Reply) {
    var account := AccountOf(keyId);
    var cleared := Cleared(entries, account, f);
    if Find(cleared, (e: Entry) => Filed(e, account)).Some? then (cleared, Failed(MapError(ERR_SEC_DUPLICATE_ITEM)))
    else if !f.write then (cleared, Failed(MapError(f.status)))
    else (cleared + [Entry(SERVICE, account, Text(pp))], Done)
  }

  /** A call that fails reports some other code, whether or not the account is filed. */
  function RetrieveStep(entries: seq<Entry>, keyId: string, f: Platform): Reply {
    if !f.read then Failed(MapError(f.status))
    else
      match Find(entries, (e: Entry) => Filed(e, AccountOf(keyId)))
      case None => Failed(MapError(ERR_SEC_ITEM_NOT_FOUND))
      case Some(e) =>
        if !f.gate.Passed? then Failed(MapError(CodeOf(f)))
        else if e.secret.Binary? then Failed(Backend)
        else Released(e.secret.text)
  }

  function DeleteStep(entries: seq<Entry>, keyId: string, f: Platform): (seq<Entry>, Reply) {
    if !f.remove then (entries, Failed(MapError(f.status)))
    else if Find(entries, (e: Entry) => Filed(e, AccountOf(keyId))).None? then
      (entries, Failed(MapError(ERR_SEC_ITEM_NOT_FOUND)))
    else (DropFirst(entries, (e: Entry) => Filed(e, AccountOf(keyId))), Done)
  }

  function ListStep(entries: seq<Entry>, f: Platform): Reply {
    if !f.search then
      if f.status == ERR_SEC_ITEM_NOT_FOUND then Listed([]) else Failed(MapError(f.status))
    else Listed(Owners(SlotOf, entries))
  }

  // ------------------------------------------------------------ what it means

  /** A successful store leaves exactly the new passphrase; a failed one leaves the old one,
      unless the account was already cleared. */
  lemma StoreMeaning(entries: seq<Entry>, keyId: string, pp: string, f: Platform)
    requires Valid(entries)
    ensures var (after, r) := StoreStep(entries, keyId, pp, f);
            var fp := AccountOf(keyId);
            var q := Held(SlotOf, entries, fp);
            && Valid(after) && OnlyKey(SlotOf, entries, after, fp)
            && Held(SlotOf, after, fp) == (if r.Done? then [Text(pp)] else if f.clear then [] else q)
            && |q| <= 1
            && (r.Done? <==> (f.clear || q == []) && f.write)
            && (r == Failed(NotEnrolled) ==> f.status == ERR_SEC_ITEM_NOT_FOUND)
            && (r.Done? || r.Failed?)
  {
    hide Held, DropFirst, Foreign, Find;
    var fp := AccountOf(keyId);
    var p := (e: Entry) => Filed(e, fp);
    var cleared := Cleared(entries, fp, f);
    DropFirstIsRest(SlotOf, entries, p, fp);
    FindIsFront(SlotOf, cleared, p, fp);
    AppendJoinsBack(SlotOf, cleared, Entry(SERVICE, fp, Text(pp)), fp);
  }

  lemma RetrieveMeaning(entries: seq<Entry>, keyId: string, f: Platform)
    ensures var r, q := RetrieveStep(entries, keyId, f), Held(SlotOf, entries, AccountOf(keyId));
            && (r.Released? <==> q != [] && f.read && f.gate.Passed? && q[0].Text?)
            && (r.Released? ==> q[0] == Text(r.passphrase))
            && (f.status != ERR_SEC_ITEM_NOT_FOUND ==> (r == Failed(NotEnrolled) <==> f.read && q == []))
            && (r == Failed(Cancelled) <==>
                  || (!f.read && UserDeclined(f.status))
                  || (f.read && q != [] && (f.gate.Refused? || (!f.gate.Passed? && UserDeclined(f.status)))))
            && (r.Released? || r.Failed?)
  {
    hide Held;
    FindIsFront(SlotOf, entries, (e: Entry) => Filed(e, AccountOf(keyId)), AccountOf(keyId));
  }

  /** A delete that works takes the account's front entry; one that fails changes nothing. */
  lemma DeleteMeaning(entries: seq<Entry>, keyId: string, f: Platform)
    ensures var (after, r) := DeleteStep(entries, keyId, f);
            var fp := AccountOf(keyId);
            var q := Held(SlotOf, entries, fp);
            && (Valid(entries) ==> Valid(after)) && OnlyKey(SlotOf, entries, after, fp)
            && Held(SlotOf, after, fp) == (if r.Done? then Rest(q) else q)
            && (r.Done? <==> q != [] && f.remove)
            && (f.status != ERR_SEC_ITEM_NOT_FOUND ==> (r == Failed(NotEnrolled) <==> f.remove && q == []))
            && (r == Failed(Cancelled) <==> !f.remove && UserDeclined(f.status)) && r != Failed(Unavailable)
            && (r.Done? || r.Failed?)
  {
    hide Held, DropFirst, Foreign, Find;
    var p := (e: Entry) => Filed(e, AccountOf(keyId));
    FindIsFront(SlotOf, entries, p, AccountOf(keyId));
    DropFirstIsRest(SlotOf, entries, p, AccountOf(keyId));
  }

  class MacosVault {
    var entries: seq<Entry>

    constructor (entries: seq<Entry>)
      ensures this.entries == entries
    {
      this.entries := entries;
    }

    method Store(keyId: string, passphrase: string, f: Platform) returns (r: Reply)
      modifies this
      ensures (entries, r) == StoreStep(old(entries), keyId, passphrase, f)
      ensures Valid(old(entries)) ==>
                var fp := AccountOf(keyId);
                var q := Held(SlotOf, old(entries), fp);
                && Valid(entries) && OnlyKey(SlotOf, old(entries), entries, fp)
                && Held(SlotOf, entries, fp) == (if r.Done? then [Text(passphrase)] else if f.clear then [] else q)
                && (r.Done? <==> (f.clear || q == []) && f.write)
    {
      if Valid(entries) {
        StoreMeaning(entries, keyId, passphrase, f);
      }
      hide Held, OnlyKey, Valid;
      var account := AccountOf(keyId);
      if f.clear {
        entries := DropFirst(entries, (e: Entry) => Filed(e, account));
      }
      if Find(entries, (e: Entry) => Filed(e, account)).Some? {
        return Failed(MapError(ERR_SEC_DUPLICATE_ITEM));
      }
      if !f.write {
        return Failed(MapError(f.status));
      }
      entries := entries + [Entry(SERVICE, account, Text(passphrase))];
      r := Done;
    }

    method Retrieve(keyId: string, f: Platform) returns (r: Reply)
      ensures r == RetrieveStep(entries, keyId, f)
      ensures var q := Held(SlotOf, entries, AccountOf(keyId));
              && (r.Released? <==> q != [] && f.read && f.gate.Passed? && q[0].Text?)
              && (r.Released? ==> q[0] == Text(r.passphrase))
              && (f.status != ERR_SEC_ITEM_NOT_FOUND ==> (r == Failed(NotEnrolled) <==> f.read && q == []))
              && (r == Failed(Cancelled) <==>
                    || (!f.read && UserDeclined(f.status))
                    || (f.read && q != [] && (f.gate.Refused? || (!f.gate.Passed? && UserDeclined(f.status)))))
    {
      RetrieveMeaning(entries, keyId, f);
      hide Held;
      if !f.read {
        return Failed(MapError(f.status));
      }
      var found := Find(entries, (e: Entry) => Filed(e, AccountOf(keyId)));
      if found.None? {
        return Failed(MapError(ERR_SEC_ITEM_NOT_FOUND));
      }
      if !f.gate.Passed? {
        return Failed(MapError(CodeOf(f)));
      }
      match found.value.secret {
        case Binary => r := Failed(Backend);
        case Text(text) => r := Released(text);
      }
    }

    method Delete(keyId: string, f: Platform) returns (r: Reply)
      modifies this
      ensures (entries, r) == DeleteStep(old(entries), keyId, f)
      ensures var fp := AccountOf(keyId);
              var q := Held(SlotOf, old(entries), fp);
              && (Valid(old(entries)) ==> Valid(entries)) && OnlyKey(SlotOf, old(entries), entries, fp)
              && Held(SlotOf, entries, fp) == (if r.Done? then Rest(q) else q)
              && (r.Done? <==> q != [] && f.remove)
              && (f.status != ERR_SEC_ITEM_NOT_FOUND ==> (r == Failed(NotEnrolled) <==> f.remove && q == []))
    {
      DeleteMeaning(entries, keyId, f);
      hide Held, OnlyKey, Valid;
      if !f.remove {
        return Failed(MapError(f.status));
      }
      if Find(entries, (e: Entry) => Filed(e, AccountOf(keyId))).None? {
        return Failed(MapError(ERR_SEC_ITEM_NOT_FOUND));
      }
      entries := DropFirst(entries, (e: Entry) => Filed(e, AccountOf(keyId)));
      r := Done;
    }

    method List(f: Platform) returns (r: Reply)
      ensures r == ListStep(entries, f)
      ensures f.search ==> r == Listed(Owners(SlotOf, entries))
      ensures !f.search ==>
                r == if f.status == -25300 then Listed([])
                     else if UserDeclined(f.status) then Failed(Cancelled) else Failed(Backend)
    {
      if !f.search {
        if f.status == ERR_SEC_ITEM_NOT_FOUND {
          return Listed([]);
        }
        return Failed(MapError(f.status));
      }
      var enrolled: seq<string> := [];
      for i := 0 to |entries|
        invariant enrolled + Owners(SlotOf, entries[i..]) == Owners(SlotOf, entries)
      {
        assert entries[i..][1..] == entries[i + 1..];
        if entries[i].service == SERVICE {
          enrolled := enrolled + [entries[i].account];
        }
      }
      assert entries[|entries|..] == [];
      r := Listed(enrolled);
    }
  }
}
