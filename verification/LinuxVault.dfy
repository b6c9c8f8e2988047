/** The Linux backend: attributed items in the Secret Service keyring. */
module LinuxVault {
  import opened Wrappers
  import opened Records
  import opened Biometric

  datatype Item = Item(attributes: map<string, string>, secret: Secret)

  function Attributes(keyId: string): map<string, string> {
    map["application" := "gitway", "type" := "ssh-passphrase",
        "key-id" := keyId, "fingerprint" := FingerprintOf(keyId)]
  }

  const OUR_ITEMS: map<string, string> := map["application" := "gitway", "type" := "ssh-passphrase"]

  /** The Secret Service finds items whose attributes include those asked for. */
  predicate Matches(item: Item, query: map<string, string>) {
    forall k :: k in query ==> k in item.attributes && item.attributes[k] == query[k]
  }

  /** The name an item is listed under. */
  function ListedName(item: Item): string {
    if "fingerprint" in item.attributes then item.attributes["fingerprint"]
    else if "key-id" in item.attributes then FingerprintOf(item.attributes["key-id"])
    else ""
  }

  function SlotOf(item: Item): Slot {
    var ours := item.attributes == Attributes(KeyIdFromFingerprint(ListedName(item)));
    Slot(if ours then Some(ListedName(item)) else None, item.secret)
  }

  /** Every item in Gitway's namespace was written by Gitway, and each key has one item. */
  ghost predicate Valid(items: seq<Item>) {
    && (forall x :: x in items && Matches(x, OUR_ITEMS) ==> SlotOf(x).owner.Some?)
    && Unique(SlotOf, items)
  }

  lemma MatchingIsOwnership(items: seq<Item>, fp: string)
    requires Valid(items)
    ensures Selects(SlotOf, items, (x: Item) => Matches(x, Attributes(KeyIdFromFingerprint(fp))), fp)
    ensures Selects(SlotOf, items, (x: Item) => x.attributes == Attributes(KeyIdFromFingerprint(fp)), fp)
  {
    var query := Attributes(KeyIdFromFingerprint(fp));
    KeyIdsInvert(fp, "");
    forall x | x in items
      ensures Matches(x, query) <==> SlotOf(x).owner == Some(fp)
      ensures x.attributes == query <==> SlotOf(x).owner == Some(fp)
    {
      if Matches(x, query) {
        assert forall k :: k in OUR_ITEMS ==> k in query && query[k] == OUR_ITEMS[k];
        assert Matches(x, OUR_ITEMS);
        assert "fingerprint" in query && query["fingerprint"] == fp;
      }
      if x.attributes == query {
        assert ListedName(x) == fp;
      }
    }
  }

  function StoreStep(items: seq<Item>, keyId: string, pp: string, f: Platform): (seq<Item>, Reply) {
    if !f.open then (items, Failed(Unavailable))
    else if !f.write then (items, Failed(Backend))
    else (Drop(items, (x: Item) => x.attributes == Attributes(keyId)) + [Item(Attributes(keyId), Text(pp))], Done)
  }

  function GateError(g: Gate): VaultError {
    match g
    case NoSensor => Unavailable
    case GateBroken => Backend
    case _ => Cancelled
  }

  function RetrieveStep(items: seq<Item>, keyId: string, f: Platform): Reply {
    if !f.open then Failed(Unavailable)
    else if !f.search then Failed(Backend)
    else
      match Find(items, (x: Item) => Matches(x, Attributes(keyId)))
      case None => Failed(NotEnrolled)
      case Some(item) =>
        if !f.gate.Passed? then Failed(GateError(f.gate))
        else if !f.read || item.secret.Binary? then Failed(Backend)
        else Released(item.secret.text)
  }

  function DeleteStep(items: seq<Item>, keyId: string, f: Platform): (seq<Item>, Reply) {
    if !f.open then (items, Failed(Unavailable))
    else if !f.search then (items, Failed(Backend))
    else if Find(items, (x: Item) => Matches(x, Attributes(keyId))).None? then (items, Failed(NotEnrolled))
    else if !f.remove then (items, Failed(Backend))
    else (Drop(items, (x: Item) => Matches(x, Attributes(keyId))), Done)
  }

  function Names(items: seq<Item>): seq<string> {
    if items == [] then []
    else
      var front := Names(items[..|items| - 1]);
      if Matches(items[|items| - 1], OUR_ITEMS) then front + [ListedName(items[|items| - 1])] else front
  }

  function ListStep(items: seq<Item>, f: Platform): Reply {
    if !f.open then Failed(Unavailable)
    else if !f.search then Failed(Backend)
    else if !f.read && Names(items) != [] then Failed(Backend)
    else Listed(Names(items))
  }

  // ------------------------------------------------------------ what it means

  /** A successful store leaves exactly the new passphrase; a failed one changes nothing. */
  lemma StoreMeaning(items: seq<Item>, keyId: string, pp: string, f: Platform)
    requires Valid(items) && KEY_ID_PREFIX <= keyId
    ensures var (after, r) := StoreStep(items, keyId, pp, f);
            var fp := FingerprintOf(keyId);
            && Valid(after) && OnlyKey(SlotOf, items, after, fp)
            && Held(SlotOf, after, fp) == (if r.Done? then [Text(pp)] else Held(SlotOf, items, fp))
            && |Held(SlotOf, items, fp)| <= 1
            && (r.Done? <==> f.open && f.write)
            && (!r.Done? ==> r == Failed(if f.open then Backend else Unavailable))
  {
    hide Held, Drop, Foreign, Attributes, SlotOf;
    var fp := FingerprintOf(keyId);
    var p := (x: Item) => x.attributes == Attributes(keyId);
    KeyIdsInvert(fp, keyId);
    MatchingIsOwnership(items, fp);
    var dropped, item := Drop(items, p), Item(Attributes(keyId), Text(pp));
    DropIsRemoval(SlotOf, items, p, fp);
    DropIsSubset(items, p);
    NewItemIsOurs(keyId, pp);
    AppendJoinsBack(SlotOf, dropped, item, fp);
  }

  lemma NewItemIsOurs(keyId: string, pp: string)
    requires KEY_ID_PREFIX <= keyId
    ensures SlotOf(Item(Attributes(keyId), Text(pp))) == Slot(Some(FingerprintOf(keyId)), Text(pp))
  {
    KeyIdsInvert(FingerprintOf(keyId), keyId);
  }

  /** What is released is the key's passphrase, and only after the check; "not enrolled" is said
      exactly of keys without one. */
  lemma RetrieveMeaning(items: seq<Item>, keyId: string, f: Platform)
    requires Valid(items) && KEY_ID_PREFIX <= keyId
    ensures var r, q := RetrieveStep(items, keyId, f), Held(SlotOf, items, FingerprintOf(keyId));
            && (r.Released? <==> f.open && f.search && q != [] && f.gate.Passed? && f.read && q[0].Text?)
            && (r.Released? ==> q[0] == Text(r.passphrase))
            && (r == Failed(NotEnrolled) <==> f.open && f.search && q == [])
            && (r == Failed(Cancelled) <==> f.open && f.search && q != [] && f.gate.Refused?)
            && (r == Failed(Unavailable) <==> !f.open || (f.search && q != [] && f.gate.NoSensor?))
            && (r.Released? || r.Failed?)
  {
    hide Held, Attributes;
    var fp := FingerprintOf(keyId);
    KeyIdsInvert(fp, keyId);
    MatchingIsOwnership(items, fp);
    FindIsFront(SlotOf, items, (x: Item) => Matches(x, Attributes(keyId)), fp);
  }

  /** A delete that works leaves the key without an entry; one that fails changes nothing. */
  lemma DeleteMeaning(items: seq<Item>, keyId: string, f: Platform)
    requires Valid(items) && KEY_ID_PREFIX <= keyId
    ensures var (after, r) := DeleteStep(items, keyId, f);
            var fp := FingerprintOf(keyId);
            var q := Held(SlotOf, items, fp);
            && Valid(after) && OnlyKey(SlotOf, items, after, fp)
            && Held(SlotOf, after, fp) == (if r.Done? then [] else q) && |q| <= 1
            && (r.Done? <==> f.open && f.search && q != [] && f.remove)
            && (r == Failed(NotEnrolled) <==> f.open && f.search && q == [])
            && (r == Failed(Unavailable) <==> !f.open) && r != Failed(Cancelled)
            && (r.Done? || r.Failed?)
  {
    hide Held, Drop, Foreign, Attributes, SlotOf;
    var fp := FingerprintOf(keyId);
    var p := (x: Item) => Matches(x, Attributes(keyId));
    KeyIdsInvert(fp, keyId);
    MatchingIsOwnership(items, fp);
    FindIsFront(SlotOf, items, p, fp);
    DropIsRemoval(SlotOf, items, p, fp);
    DropIsSubset(items, p);
  }

  class LinuxVault {
    var items: seq<Item>

    constructor (items: seq<Item>)
      ensures this.items == items
    {
      this.items := items;
    }

    method Store(keyId: string, passphrase: string, f: Platform) returns (r: Reply)
      modifies this
      ensures (items, r) == StoreStep(old(items), keyId, passphrase, f)
      ensures Valid(old(items)) && KEY_ID_PREFIX <= keyId ==>
                var fp := FingerprintOf(keyId);
                && Valid(items) && OnlyKey(SlotOf, old(items), items, fp)
                && Held(SlotOf, items, fp) ==
                   if f.open && f.write then [Text(passphrase)] else Held(SlotOf, old(items), fp)
    {
      if Valid(items) && KEY_ID_PREFIX <= keyId {
        StoreMeaning(items, keyId, passphrase, f);
      }
      hide Held, OnlyKey, Valid, Attributes;
      if !f.open {
        return Failed(Unavailable);
      }
      var attributes := Attributes(keyId);
      if !f.write {
        return Failed(Backend);
      }
      items := Drop(items, (x: Item) => x.attributes == Attributes(keyId));
      items := items + [Item(attributes, Text(passphrase))];
      r := Done;
    }

    /** The enrollment check comes before the fingerprint prompt. */
    method Retrieve(keyId: string, f: Platform) returns (r: Reply)
      ensures r == RetrieveStep(items, keyId, f)
      ensures Valid(items) && KEY_ID_PREFIX <= keyId ==>
                var q := Held(SlotOf, items, FingerprintOf(keyId));
                && (r.Released? <==> f.open && f.search && q != [] && f.gate.Passed? && f.read && q[0].Text?)
                && (r.Released? ==> q[0] == Text(r.passphrase))
                && (r == Failed(NotEnrolled) <==> f.open && f.search && q == [])
                && (r == Failed(Cancelled) <==> f.open && f.search && q != [] && f.gate.Refused?)
                && (r == Failed(Unavailable) <==> !f.open || (f.search && q != [] && f.gate.NoSensor?))
    {
      if Valid(items) && KEY_ID_PREFIX <= keyId {
        RetrieveMeaning(items, keyId, f);
      }
      hide Held, Valid, Attributes;
      if !f.open {
        return Failed(Unavailable);
      }
      if !f.search {
        return Failed(Backend);
      }
      var found := Find(items, (x: Item) => Matches(x, Attributes(keyId)));
      if found.None? {
        return Failed(NotEnrolled);
      }
      if !f.gate.Passed? {
        return Failed(GateError(f.gate));
      }
      if !f.read {
        return Failed(Backend);
      }
      match found.value.secret {
        case Binary => r := Failed(Backend);
        case Text(text) => r := Released(text);
      }
    }

    method Delete(keyId: string, f: Platform) returns (r: Reply)
      modifies this
      ensures (items, r) == DeleteStep(old(items), keyId, f)
      ensures Valid(old(items)) && KEY_ID_PREFIX <= keyId ==>
                var fp := FingerprintOf(keyId);
                var q := Held(SlotOf, old(items), fp);
                && Valid(items) && OnlyKey(SlotOf, old(items), items, fp)
                && Held(SlotOf, items, fp) == (if r.Done? then [] else q)
                && (r.Done? <==> f.open && f.search && q != [] && f.remove)
                && (r == Failed(NotEnrolled) <==> f.open && f.search && q == [])
    {
      if Valid(items) && KEY_ID_PREFIX <= keyId {
        DeleteMeaning(items, keyId, f);
      }
      hide Held, OnlyKey, Valid, Attributes;
      if !f.open {
        return Failed(Unavailable);
      }
      if !f.search {
        return Failed(Backend);
      }
      if Find(items, (x: Item) => Matches(x, Attributes(keyId))).None? {
        return Failed(NotEnrolled);
      }
      if !f.remove {
        return Failed(Backend);
      }
      items := Drop(items, (x: Item) => Matches(x, Attributes(keyId)));
      r := Done;
    }

    method List(f: Platform) returns (r: Reply)
      ensures r == ListStep(items, f)
      ensures !f.open ==> r == Failed(Unavailable)
      ensures Valid(items) && f.open ==>
                r == if f.search && (f.read || Owners(SlotOf, items) == []) then Listed(Owners(SlotOf, items))
                     else Failed(Backend)
    {
      if Valid(items) {
        NamesAreOwners(items);
      }
      if !f.open {
        return Failed(Unavailable);
      }
      if !f.search {
        return Failed(Backend);
      }
      var enrolled: seq<string> := [];
      for i := 0 to |items|
        invariant enrolled == Names(items[..i])
        invariant !f.read ==> enrolled == []
      {
        assert items[..i + 1][..i] == items[..i];
        if Matches(items[i], OUR_ITEMS) {
          if !f.read {
            NamesGrow(items, i + 1);
            return Failed(Backend);
          }
          enrolled := enrolled + [ListedName(items[i])];
        }
      }
      assert items[..|items|] == items;
      r := Listed(enrolled);
    }
  }

  lemma {:induction false} NamesGrow(items: seq<Item>, k: nat)
    requires k <= |items| && Names(items[..k]) != []
    ensures Names(items) != []
    decreases |items|
  {
    if k < |items| {
      assert items[..|items| - 1][..k] == items[..k];
      NamesGrow(items[..|items| - 1], k);
    } else {
      assert items[..k] == items;
    }
  }

  lemma {:induction false} NamesAreOwners(items: seq<Item>)
    requires forall x :: x in items && Matches(x, OUR_ITEMS) ==> SlotOf(x).owner.Some?
    ensures Names(items) == Owners(SlotOf, items)
  {
    hide Matches, SlotOf;
    if items != [] {
      var front, x := items[..|items| - 1], items[|items| - 1];
      NamesAreOwners(front);
      assert items == front + [x];
      if SlotOf(x).owner.Some? {
        OursMatch(x);
        AppendJoinsBack(SlotOf, front, x, ListedName(x));
      } else {
        SkipForeign(front, x);
      }
    }
  }

  lemma ListsOwners(items: seq<Item>, f: Platform)
    requires Valid(items)
    ensures ListStep(items, f).Listed? ==> ListStep(items, f) == Listed(Owners(SlotOf, items))
  {
    NamesAreOwners(items);
  }

  lemma OursMatch(x: Item)
    requires SlotOf(x).owner.Some?
    ensures Matches(x, OUR_ITEMS) && SlotOf(x).owner == Some(ListedName(x))
  {
  }

  lemma {:induction false} SkipForeign(items: seq<Item>, x: Item)
    requires SlotOf(x).owner.None?
    ensures Owners(SlotOf, items + [x]) == Owners(SlotOf, items)
  {
    hide SlotOf;
    if items == [] {
      assert items + [x] == [x];
    } else {
      SkipForeign(items[1..], x);
      assert (items + [x])[1..] == items[1..] + [x];
    }
  }
}
