/** The Windows backend: credentials in the Credential Locker behind a Hello consent prompt. */
module WindowsVault {
  import opened Wrappers
  import opened Records
  import opened Biometric

  const RESOURCE: string := "org.SpacecraftSoftware.gitway.ssh-passphrase"

  datatype Credential = Credential(resource: string, userName: string, password: string)

  function AccountOf(keyId: string): string {
    FingerprintOf(keyId)
  }

  function SlotOf(c: Credential): Slot {
    Slot(if c.resource == RESOURCE then Some(c.userName) else None, Text(c.password))
  }

  predicate Filed(c: Credential, account: string) {
    c.resource == RESOURCE && c.userName == account
  }

  /** What `store` removes first: the existing credential, if it can be found and removed. */
  function Cleared(credentials: seq<Credential>, account: string, f: Platform): seq<Credential> {
    if f.search && f.clear then DropFirst(credentials, (c: Credential) => Filed(c, account)) else credentials
  }

  /** Adding never replaces: the new credential goes behind the ones already there. */
  function StoreStep(credentials: seq<Credential>, keyId: string, pp: string, f: Platform): (seq<Credential>, Reply) {
    var account := AccountOf(keyId);
    if !f.open then (credentials, Failed(Backend))
    else if !f.write then (Cleared(credentials, account, f), Failed(Backend))
    else (Cleared(credentials, account, f) + [Credential(RESOURCE, account, pp)], Done)
  }

  function GateError(g: Gate): VaultError {
    if g.GateBroken? then Backend else Cancelled
  }

  function RetrieveStep(credentials: seq<Credential>, keyId: string, f: Platform): Reply {
    if !f.open || !f.search then Failed(Backend)
    else
      match Find(credentials, (c: Credential) => Filed(c, AccountOf(keyId)))
      case None => Failed(NotEnrolled)
      case Some(c) =>
        if !f.gate.Passed? then Failed(GateError(f.gate))
        else if !f.read || c.password == "" then Failed(Backend)
        else Released(c.password)
  }

  function DeleteStep(credentials: seq<Credential>, keyId: string, f: Platform): (seq<Credential>, Reply) {
    if !f.open || !f.search then (credentials, Failed(Backend))
    else if Find(credentials, (c: Credential) => Filed(c, AccountOf(keyId))).None? then
      (credentials, Failed(NotEnrolled))
    else if !f.remove then (credentials, Failed(Backend))
    else (DropFirst(credentials, (c: Credential) => Filed(c, AccountOf(keyId))), Done)
  }

  function ListStep(credentials: seq<Credential>, f: Platform): Reply {
    if !f.open || !f.search then Failed(Backend)
    else Listed(Owners(SlotOf, credentials))
  }

  // ------------------------------------------------------------ what it means

  /** A store takes the front credential if it can be found and removed, and then, if it
      succeeds, puts the new one behind whatever is left. */
  lemma StoreMeaning(credentials: seq<Credential>, keyId: string, pp: string, f: Platform)
    ensures var (after, r) := StoreStep(credentials, keyId, pp, f);
            var fp := AccountOf(keyId);
            var q := Held(SlotOf, credentials, fp);
            && OnlyKey(SlotOf, credentials, after, fp)
            && Held(SlotOf, after, fp) ==
               (if f.open && f.search && f.clear then Rest(q) else q) + (if r.Done? then [Text(pp)] else [])
            && (r.Done? <==> f.open && f.write)
            && (r.Failed? ==> r == Failed(Backend))
            && (r.Done? || r.Failed?)
  {
    hide Held, DropFirst, Foreign;
    var fp := AccountOf(keyId);
    DropFirstIsRest(SlotOf, credentials, (c: Credential) => Filed(c, fp), fp);
    AppendJoinsBack(SlotOf, Cleared(credentials, fp, f), Credential(RESOURCE, fp, pp), fp);
  }

  lemma RetrieveMeaning(credentials: seq<Credential>, keyId: string, f: Platform)
    ensures var r, q := RetrieveStep(credentials, keyId, f), Held(SlotOf, credentials, AccountOf(keyId));
            && (r.Released? <==> f.open && f.search && q != [] && f.gate.Passed? && f.read && q[0] != Text(""))
            && (r.Released? ==> q[0] == Text(r.passphrase))
            && (r == Failed(NotEnrolled) <==> f.open && f.search && q == [])
            && (r == Failed(Cancelled) <==>
                  f.open && f.search && q != [] && (f.gate.Refused? || f.gate.NoSensor?))
            && r != Failed(Unavailable)
            && (r.Released? || r.Failed?)
  {
    hide Held;
    FindIsFront(SlotOf, credentials, (c: Credential) => Filed(c, AccountOf(keyId)), AccountOf(keyId));
  }

  /** A delete that works takes the front credential; one that fails changes nothing. */
  lemma DeleteMeaning(credentials: seq<Credential>, keyId: string, f: Platform)
    ensures var (after, r) := DeleteStep(credentials, keyId, f);
            var fp := AccountOf(keyId);
            var q := Held(SlotOf, credentials, fp);
            && OnlyKey(SlotOf, credentials, after, fp)
            && Held(SlotOf, after, fp) == (if r.Done? then Rest(q) else q)
            && (r.Done? <==> f.open && f.search && q != [] && f.remove)
            && (r == Failed(NotEnrolled) <==> f.open && f.search && q == [])
            && r != Failed(Unavailable) && r != Failed(Cancelled)
            && (r.Done? || r.Failed?)
  {
    hide Held, DropFirst, Foreign, Find;
    var p := (c: Credential) => Filed(c, AccountOf(keyId));
    FindIsFront(SlotOf, credentials, p, AccountOf(keyId));
    DropFirstIsRest(SlotOf, credentials, p, AccountOf(keyId));
  }

  class WindowsVault {
    var credentials: seq<Credential>

    constructor (credentials: seq<Credential>)
      ensures this.credentials == credentials
    {
      this.credentials := credentials;
    }

    method Store(keyId: string, passphrase: string, f: Platform) returns (r: Reply)
      modifies this
      ensures (credentials, r) == StoreStep(old(credentials), keyId, passphrase, f)
      ensures var fp := AccountOf(keyId);
              var q := Held(SlotOf, old(credentials), fp);
              && OnlyKey(SlotOf, old(credentials), credentials, fp)
              && Held(SlotOf, credentials, fp) ==
                 (if f.open && f.search && f.clear then Rest(q) else q) + (if r.Done? then [Text(passphrase)] else [])
              && (r.Done? <==> f.open && f.write)
    {
      StoreMeaning(credentials, keyId, passphrase, f);
      hide Held, OnlyKey;
      var account := AccountOf(keyId);
      if !f.open {
        return Failed(Backend);
      }
      if f.search && f.clear {
        credentials := DropFirst(credentials, (c: Credential) => Filed(c, account));
      }
      if !f.write {
        return Failed(Backend);
      }
      credentials := credentials + [Credential(RESOURCE, account, passphrase)];
      r := Done;
    }

    /** The enrollment check comes before the Hello prompt. */
    method Retrieve(keyId: string, f: Platform) returns (r: Reply)
      ensures r == RetrieveStep(credentials, keyId, f)
      ensures var q := Held(SlotOf, credentials, AccountOf(keyId));
              && (r.Released? <==> f.open && f.search && q != [] && f.gate.Passed? && f.read && q[0] != Text(""))
              && (r.Released? ==> q[0] == Text(r.passphrase))
              && (r == Failed(NotEnrolled) <==> f.open && f.search && q == [])
              && (r == Failed(Cancelled) <==>
                    f.open && f.search && q != [] && (f.gate.Refused? || f.gate.NoSensor?))
              && r != Failed(Unavailable)
    {
      RetrieveMeaning(credentials, keyId, f);
      hide Held;
      if !f.open || !f.search {
        return Failed(Backend);
      }
      var found := Find(credentials, (c: Credential) => Filed(c, AccountOf(keyId)));
      if found.None? {
        return Failed(NotEnrolled);
      }
      if !f.gate.Passed? {
        return Failed(GateError(f.gate));
      }
      if !f.read {
        return Failed(Backend);
      }
      if found.value.password == "" {
        return Failed(Backend);
      }
      r := Released(found.value.password);
    }

    method Delete(keyId: string, f: Platform) returns (r: Reply)
      modifies this
      ensures (credentials, r) == DeleteStep(old(credentials), keyId, f)
      ensures var fp := AccountOf(keyId);
              var q := Held(SlotOf, old(credentials), fp);
              && OnlyKey(SlotOf, old(credentials), credentials, fp)
              && Held(SlotOf, credentials, fp) == (if r.Done? then Rest(q) else q)
              && (r.Done? <==> f.open && f.search && q != [] && f.remove)
              && (r == Failed(NotEnrolled) <==> f.open && f.search && q == [])
    {
      DeleteMeaning(credentials, keyId, f);
      hide Held, OnlyKey;
      if !f.open || !f.search {
        return Failed(Backend);
      }
      if Find(credentials, (c: Credential) => Filed(c, AccountOf(keyId))).None? {
        return Failed(NotEnrolled);
      }
      if !f.remove {
        return Failed(Backend);
      }
      credentials := DropFirst(credentials, (c: Credential) => Filed(c, AccountOf(keyId)));
      r := Done;
    }

    method List(f: Platform) returns (r: Reply)
      ensures r == ListStep(credentials, f)
      ensures r == if f.open && f.search then Listed(Owners(SlotOf, credentials)) else Failed(Backend)
    {
      if !f.open || !f.search {
        return Failed(Backend);
      }
      var enrolled: seq<string> := [];
      for i := 0 to |credentials|
        invariant enrolled + Owners(SlotOf, credentials[i..]) == Owners(SlotOf, credentials)
      {
        assert credentials[i..][1..] == credentials[i + 1..];
        if credentials[i].resource == RESOURCE {
          enrolled := enrolled + [credentials[i].userName];
        }
      }
      assert credentials[|credentials|..] == [];
      r := Listed(enrolled);
    }
  }
}
