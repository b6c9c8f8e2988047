/** The fingerprint handshake of the Linux backend: claim, scan, stop, release around a stream
    of sensor signals, and the secret read it gates. */
module Fprintd {
  import opened Wrappers
  import opened Records
  import opened Biometric
  import L = LinuxVault

  /** One signal of the sensor; `done` marks the terminal one. */
  datatype Signal = Status(result: string, done: bool) | Undecodable

  /** How each call to the sensor service ends, the signals it sends before it ends the stream,
      and how many of them arrive before the timeout. */
  datatype Sensor = Sensor(
    bus: bool, manager: bool, device: bool, path: bool, proxy: bool, fingers: bool, claim: bool,
    subscribe: bool, start: bool, stop: bool, release: bool,
    signals: seq<Signal>, deadline: nat)

  /** The calls that matter, in the order they are made. How a stop or a release ends is noted and
      then ignored. */
  datatype Call =
    | OpenKeyring | SearchItems
    | Probe
    | Claim(ok: bool) | Subscribe | VerifyStart | VerifyStop(ok: bool) | Release(ok: bool)
    | ReadSecret

  // ------------------------------------------------------------ specification

  /** A signal that ends the scan. */
  predicate Terminal(s: Signal) {
    s.Undecodable? || s.done
  }

  /** Signal k is the first terminal one, and arrives in time. */
  predicate Ends(e: Sensor, k: nat) {
    && k < |e.signals| && k < e.deadline && Terminal(e.signals[k])
    && forall j :: 0 <= j < k ==> !Terminal(e.signals[j])
  }

  predicate IsMatch(s: Signal) {
    s == Status("verify-match", true)
  }

  /** The first terminal signal before the timeout is a match. */
  ghost predicate Matched(e: Sensor) {
    exists k: nat :: Ends(e, k) && IsMatch(e.signals[k])
  }

  /** Everything that must work before signals are consumed. */
  predicate Usable(e: Sensor) {
    e.bus && e.manager && e.device && e.path && e.proxy && e.fingers && e.claim && e.subscribe && e.start
  }

  type Verdict = Result<bool, VaultError>

  /** What the scan concludes from the signals from the k-th on. */
  function Verify(e: Sensor, k: nat): Verdict
    decreases |e.signals| - k
  {
    if k >= |e.signals| || k >= e.deadline then Ok(false)
    else match e.signals[k]
      case Undecodable => Err(Backend)
      case Status(result, done) => if done then Ok(result == "verify-match") else Verify(e, k + 1)
  }

  function Scan(e: Sensor): (seq<Call>, Verdict) {
    if !e.subscribe then ([Subscribe], Err(Backend))
    else if !e.start then ([Subscribe, VerifyStart], Err(Backend))
    else ([Subscribe, VerifyStart], Verify(e, 0))
  }

  /** The handshake: whatever the scan did, stop and release follow a successful claim, the release
      even when the stop fails. */
  function Handshake(e: Sensor): (seq<Call>, Verdict) {
    if !e.bus then ([Probe], Err(Unavailable))
    else if !e.manager then ([Probe, Probe], Err(Unavailable))
    else if !e.device then ([Probe, Probe, Probe], Err(Unavailable))
    else if !e.path || !e.proxy then ([Probe, Probe, Probe, Probe], Err(Backend))
    else if !e.fingers then ([Probe, Probe, Probe, Probe, Probe], Err(Unavailable))
    else if !e.claim then ([Probe, Probe, Probe, Probe, Probe, Claim(false)], Err(Backend))
    else
      var (calls, verdict) := Scan(e);
      ([Probe, Probe, Probe, Probe, Probe, Claim(true)] + calls + [VerifyStop(e.stop), Release(e.release)], verdict)
  }

  /** A whole retrieve: is the key enrolled, does the finger match, then the secret. */
  function Retrieval(items: seq<L.Item>, keyId: string, f: Platform, e: Sensor): (seq<Call>, Reply) {
    if !f.open then ([OpenKeyring], Failed(Unavailable))
    else if !f.search then ([OpenKeyring, SearchItems], Failed(Backend))
    else
      match Find(items, (x: L.Item) => L.Matches(x, L.Attributes(keyId)))
      case None => ([OpenKeyring, SearchItems], Failed(NotEnrolled))
      case Some(item) =>
        var (calls, verdict) := Handshake(e);
        if verdict.Err? then ([OpenKeyring, SearchItems] + calls, Failed(verdict.error))
        else if !verdict.value then ([OpenKeyring, SearchItems] + calls, Failed(Cancelled))
        else ([OpenKeyring, SearchItems] + calls + [ReadSecret],
              if !f.read || item.secret.Binary? then Failed(Backend) else Released(item.secret.text))
  }

  // ---------------------------------------------------------------- the code

  class FingerprintService {
    var calls: seq<Call>

    constructor ()
      ensures calls == []
    {
      calls := [];
    }

    method Issue(c: Call)
      modifies this
      ensures calls == old(calls) + [c]
    {
      calls := calls + [c];
    }

    /** Subscribes before starting, then consumes signals until the terminal one, the end of the
        stream or the timeout. */
    method RunScan(e: Sensor) returns (r: Verdict)
      modifies this
      ensures (calls, r) == (old(calls) + Scan(e).0, Scan(e).1)
    {
      Issue(Subscribe);
      if !e.subscribe {
        return Err(Backend);
      }
      Issue(VerifyStart);
      assert calls == old(calls) + [Subscribe, VerifyStart];
      if !e.start {
        return Err(Backend);
      }
      var i := 0;
      while i < |e.signals| && i < e.deadline
        invariant i <= |e.signals|
        invariant calls == old(calls) + [Subscribe, VerifyStart]
        invariant Verify(e, i) == Verify(e, 0)
      {
        match e.signals[i]
        case Undecodable => return Err(Backend);
        case Status(result, done) =>
          if done {
            return Ok(result == "verify-match");
          }
          i := i + 1;
      }
      r := Ok(false);
    }

    method VerifyFingerprint(e: Sensor) returns (r: Verdict)
      modifies this
      ensures (calls, r) == (old(calls) + Handshake(e).0, Handshake(e).1)
    {
      Issue(Probe);
      assert calls == old(calls) + [Probe];
      if !e.bus {
        return Err(Unavailable);
      }
      Issue(Probe);
      assert calls == old(calls) + [Probe, Probe];
      if !e.manager {
        return Err(Unavailable);
      }
      Issue(Probe);
      assert calls == old(calls) + [Probe, Probe, Probe];
      if !e.device {
        return Err(Unavailable);
      }
      Issue(Probe);
      assert calls == old(calls) + [Probe, Probe, Probe, Probe];
      if !e.path || !e.proxy {
        return Err(Backend);
      }
      Issue(Probe);
      assert calls == old(calls) + [Probe, Probe, Probe, Probe, Probe];
      if !e.fingers {
        return Err(Unavailable);
      }
      Issue(Claim(e.claim));
      assert calls == old(calls) + [Probe, Probe, Probe, Probe, Probe, Claim(e.claim)];
      if !e.claim {
        return Err(Backend);
      }
      r := RunScan(e);
      Issue(VerifyStop(e.stop));
      Issue(Release(e.release));
      assert calls == old(calls) + ([Probe, Probe, Probe, Probe, Probe, Claim(true)] + Scan(e).0 +
                                    [VerifyStop(e.stop), Release(e.release)]);
    }

    method Retrieve(items: seq<L.Item>, keyId: string, f: Platform, e: Sensor) returns (r: Reply)
      modifies this
      ensures (calls, r) == (old(calls) + Retrieval(items, keyId, f, e).0, Retrieval(items, keyId, f, e).1)
    {
      hide Handshake;
      Issue(OpenKeyring);
      if !f.open {
        return Failed(Unavailable);
      }
      Issue(SearchItems);
      assert calls == old(calls) + [OpenKeyring, SearchItems];
      if !f.search {
        return Failed(Backend);
      }
      var found := Find(items, (x: L.Item) => L.Matches(x, L.Attributes(keyId)));
      if found.None? {
        return Failed(NotEnrolled);
      }
      var verdict := VerifyFingerprint(e);
      assert calls == old(calls) + ([OpenKeyring, SearchItems] + Handshake(e).0);
      if verdict.Err? {
        return Failed(verdict.error);
      }
      if !verdict.value {
        return Failed(Cancelled);
      }
      Issue(ReadSecret);
      assert calls == old(calls) + ([OpenKeyring, SearchItems] + Handshake(e).0 + [ReadSecret]);
      if !f.read {
        return Failed(Backend);
      }
      match found.value.secret {
        case Binary => r := Failed(Backend);
        case Text(text) => r := Released(text);
      }
    }
  }

  // ------------------------------------------------------------------- laws

  /** The scan's verdict, read off the signals: an error exactly when the first terminal signal
      in time cannot be decoded, a match exactly when it is one, and "no match" for every other
      stream, including one that ends or stalls without a terminal signal. */
  lemma {:induction false} VerdictMeaning(e: Sensor, k: nat)
    requires forall j :: 0 <= j < k && j < |e.signals| ==> !Terminal(e.signals[j])
    ensures Verify(e, k).Ok? || Verify(e, k) == Err(Backend)
    ensures Verify(e, k).Err? <==> exists i :: i >= k && Ends(e, i) && e.signals[i].Undecodable?
    ensures Verify(e, k) == Ok(true) <==> exists i :: i >= k && Ends(e, i) && IsMatch(e.signals[i])
    decreases |e.signals| - k
  {
    if k < |e.signals| && k < e.deadline {
      if Terminal(e.signals[k]) {
        assert Ends(e, k);
        assert forall i :: i > k ==> !Ends(e, i);
      } else {
        VerdictMeaning(e, k + 1);
        assert !Ends(e, k);
      }
    } else {
      assert forall i :: i >= k ==> !Ends(e, i);
    }
  }

  /** Where the calls issued so far stand in the bracket around a scan, whatever a stop or a release
      answers. */
  datatype Phase = Idle | Held | Subscribed | Started | Stopped | Broken

  /** After a successful claim come the subscription, the start of the scan, one stop and one release,
      in that order, before anything else; the scan may end before it starts. Outside the bracket
      nothing but a claim opens it. */
  function Next(p: Phase, c: Call): Phase {
    match c
    case Claim(ok) => if p.Idle? then if ok then Held else Idle else Broken
    case Subscribe => if p.Held? then Subscribed else Broken
    case VerifyStart => if p.Subscribed? then Started else Broken
    case VerifyStop(_) => if p.Subscribed? || p.Started? then Stopped else Broken
    case Release(_) => if p.Stopped? then Idle else Broken
    case _ => if p.Idle? then Idle else Broken
  }

  function PhaseAfter(p: Phase, calls: seq<Call>): Phase {
    if calls == [] then p else Next(PhaseAfter(p, calls[..|calls| - 1]), calls[|calls| - 1])
  }

  lemma {:induction false} PhaseAppend(p: Phase, a: seq<Call>, b: seq<Call>)
    ensures PhaseAfter(p, a + b) == PhaseAfter(PhaseAfter(p, a), b)
  {
    if b == [] {
      assert a + b == a;
    } else {
      PhaseAppend(p, a, b[..|b| - 1]);
      assert (a + b)[..|a + b| - 1] == a + b[..|b| - 1];
    }
  }

  lemma {:induction false} ProbesAreIdle(calls: seq<Call>)
    requires forall i :: 0 <= i < |calls| ==> calls[i].Probe? || calls[i].OpenKeyring? || calls[i].SearchItems?
    ensures PhaseAfter(Idle, calls) == Idle
  {
    if calls != [] {
      ProbesAreIdle(calls[..|calls| - 1]);
    }
  }

  lemma PhaseOfOne(p: Phase, c: Call)
    ensures PhaseAfter(p, [c]) == Next(p, c)
  {
    assert [c][..0] == [];
    assert PhaseAfter(p, []) == p;
  }

  lemma ScanStarts(e: Sensor)
    ensures PhaseAfter(Held, Scan(e).0) == if e.subscribe then Started else Subscribed
  {
    PhaseOfOne(Held, Subscribe);
    PhaseOfOne(Subscribed, VerifyStart);
    PhaseAppend(Held, [Subscribe], [VerifyStart]);
    assert [Subscribe] + [VerifyStart] == [Subscribe, VerifyStart];
  }

  lemma HandshakeReturnsToIdle(e: Sensor)
    ensures PhaseAfter(Idle, Handshake(e).0) == Idle
  {
    hide Scan, PhaseAfter;
    var probes := [Probe, Probe, Probe, Probe, Probe];
    ProbesAreIdle(probes);
    ProbesAreIdle([Probe]); ProbesAreIdle([Probe, Probe]); ProbesAreIdle([Probe, Probe, Probe]);
    ProbesAreIdle([Probe, Probe, Probe, Probe]);
    PhaseOfOne(Idle, Claim(e.claim));
    PhaseAppend(Idle, probes, [Claim(e.claim)]);
    assert probes + [Claim(e.claim)] == [Probe, Probe, Probe, Probe, Probe, Claim(e.claim)];
    if e.claim {
      var claimed, calls := [Probe, Probe, Probe, Probe, Probe, Claim(true)], Scan(e).0;
      ScanStarts(e);
      PhaseAppend(Idle, claimed, calls);
      PhaseAppend(Idle, claimed + calls, [VerifyStop(e.stop), Release(e.release)]);
      var scanned := if e.subscribe then Started else Subscribed;
      PhaseOfOne(scanned, VerifyStop(e.stop));
      PhaseOfOne(Stopped, Release(e.release));
      PhaseAppend(scanned, [VerifyStop(e.stop)], [Release(e.release)]);
      assert [VerifyStop(e.stop)] + [Release(e.release)] == [VerifyStop(e.stop), Release(e.release)];
    }
  }

  lemma RetrievalReturnsToIdle(items: seq<L.Item>, keyId: string, f: Platform, e: Sensor)
    ensures PhaseAfter(Idle, Retrieval(items, keyId, f, e).0) == Idle
  {
    hide Handshake, PhaseAfter;
    var calls := Handshake(e).0;
    ProbesAreIdle([OpenKeyring]);
    ProbesAreIdle([OpenKeyring, SearchItems]);
    HandshakeReturnsToIdle(e);
    PhaseAppend(Idle, [OpenKeyring, SearchItems], calls);
    PhaseOfOne(Idle, ReadSecret);
    PhaseAppend(Idle, [OpenKeyring, SearchItems] + calls, [ReadSecret]);
  }

  /** One retrieve attempt: which key, what the keyring does, what the sensor does. */
  datatype Attempt = Attempt(items: seq<L.Item>, keyId: string, f: Platform, e: Sensor)

  function AllCalls(attempts: seq<Attempt>): seq<Call> {
    if attempts == [] then []
    else
      var a := attempts[|attempts| - 1];
      AllCalls(attempts[..|attempts| - 1]) + Retrieval(a.items, a.keyId, a.f, a.e).0
  }

  /** Over any number of retrieves, whatever fails and whatever the sensor sends, every successful
      claim is followed by the subscription, then the start of its scan if that worked, then exactly
      one stop and then exactly one release, before anything else is called; and there is no other
      subscription, start, stop or release. */
  lemma {:induction false} ClaimsAreBracketed(attempts: seq<Attempt>)
    ensures PhaseAfter(Idle, AllCalls(attempts)) == Idle
  {
    if attempts != [] {
      var a := attempts[|attempts| - 1];
      ClaimsAreBracketed(attempts[..|attempts| - 1]);
      RetrievalReturnsToIdle(a.items, a.keyId, a.f, a.e);
      PhaseAppend(Idle, AllCalls(attempts[..|attempts| - 1]), Retrieval(a.items, a.keyId, a.f, a.e).0);
    }
  }

  // ---------------------------------------------------- is the device still claimed

  /** Whether the device is claimed after some calls: a claim that works takes it, and only a
      release that works gives it back. */
  function ClaimedAfter(before: bool, calls: seq<Call>): bool {
    if calls == [] then before
    else
      var claimed := ClaimedAfter(before, calls[..|calls| - 1]);
      match calls[|calls| - 1]
      case Claim(ok) => ok || claimed
      case Release(ok) => !ok && claimed
      case _ => claimed
  }

  lemma {:induction false} ClaimedAppend(before: bool, a: seq<Call>, b: seq<Call>)
    ensures ClaimedAfter(before, a + b) == ClaimedAfter(ClaimedAfter(before, a), b)
  {
    if b == [] {
      assert a + b == a;
    } else {
      ClaimedAppend(before, a, b[..|b| - 1]);
      assert (a + b)[..|a + b| - 1] == a + b[..|b| - 1];
    }
  }

  /** Calls that neither claim nor release, and claims that fail, leave the device as it is. */
  lemma {:induction false} NeutralCalls(before: bool, calls: seq<Call>)
    requires forall i :: 0 <= i < |calls| ==> calls[i] != Claim(true) && !calls[i].Release?
    ensures ClaimedAfter(before, calls) == before
  {
    if calls != [] {
      NeutralCalls(before, calls[..|calls| - 1]);
    }
  }

  /** The handshake gets as far as claiming the device, and the claim works. */
  predicate Claims(e: Sensor) {
    e.bus && e.manager && e.device && e.path && e.proxy && e.fingers && e.claim
  }

  lemma HandshakeClaim(before: bool, e: Sensor)
    ensures ClaimedAfter(before, Handshake(e).0) == if Claims(e) then !e.release else before
  {
    hide ClaimedAfter;
    if Claims(e) {
      var opening, scan := [Probe, Probe, Probe, Probe, Probe, Claim(true)], Scan(e).0;
      ClaimAndRelease(before, e.stop, e.release);
      NeutralCalls(true, scan);
      ClaimedAppend(before, opening, scan);
      ClaimedAppend(before, opening + scan, [VerifyStop(e.stop), Release(e.release)]);
    } else {
      NeutralCalls(before, Handshake(e).0);
    }
  }

  lemma ClaimAndRelease(before: bool, stop: bool, release: bool)
    ensures ClaimedAfter(before, [Probe, Probe, Probe, Probe, Probe, Claim(true)])
    ensures ClaimedAfter(true, [VerifyStop(stop), Release(release)]) == !release
  {
    var opening, closing := [Probe, Probe, Probe, Probe, Probe, Claim(true)], [VerifyStop(stop), Release(release)];
    assert opening[|opening| - 1] == Claim(true);
    assert closing[..1] == [VerifyStop(stop)];
    NeutralCalls(true, [VerifyStop(stop)]);
  }

  /** The attempt claims the device. */
  predicate Taking(a: Attempt) {
    a.f.open && a.f.search && Enrolled(a.items, a.keyId) && Claims(a.e)
  }

  lemma RetrievalClaim(before: bool, a: Attempt)
    ensures ClaimedAfter(before, Retrieval(a.items, a.keyId, a.f, a.e).0) == if Taking(a) then !a.e.release else before
  {
    hide ClaimedAfter, Handshake, Claims;
    var calls := Handshake(a.e).0;
    NeutralCalls(before, [OpenKeyring]);
    NeutralCalls(before, [OpenKeyring, SearchItems]);
    HandshakeClaim(before, a.e);
    ClaimedAppend(before, [OpenKeyring, SearchItems], calls);
    var claimed := ClaimedAfter(before, [OpenKeyring, SearchItems] + calls);
    ClaimedAppend(before, [OpenKeyring, SearchItems] + calls, [ReadSecret]);
    NeutralCalls(claimed, [ReadSecret]);
  }

  /** Attempt k took the device, its release failed, and none after it took the device again. */
  predicate LeftClaimedBy(attempts: seq<Attempt>, k: nat) {
    && k < |attempts| && Taking(attempts[k]) && !attempts[k].e.release
    && forall j :: k < j < |attempts| ==> !Taking(attempts[j])
  }

  /** After any number of retrieves the device is left claimed if and only if the release failed in
      the last one that had claimed it; nothing else that fails, and no signal, leaves it so. */
  lemma {:induction false} DeviceLeftClaimedIff(attempts: seq<Attempt>)
    ensures ClaimedAfter(false, AllCalls(attempts)) <==> exists k :: LeftClaimedBy(attempts, k)
  {
    hide ClaimedAfter, Retrieval, Taking;
    if attempts == [] {
      NeutralCalls(false, []);
    } else {
      var n := |attempts| - 1;
      var front, a := attempts[..n], attempts[n];
      DeviceLeftClaimedIff(front);
      ClaimedAppend(false, AllCalls(front), Retrieval(a.items, a.keyId, a.f, a.e).0);
      RetrievalClaim(ClaimedAfter(false, AllCalls(front)), a);
      if Taking(a) {
        assert !a.e.release ==> LeftClaimedBy(attempts, n);
      } else {
        forall k: nat ensures LeftClaimedBy(attempts, k) <==> LeftClaimedBy(front, k) {
        }
      }
    }
  }

  predicate Enrolled(items: seq<L.Item>, keyId: string) {
    Find(items, (x: L.Item) => L.Matches(x, L.Attributes(keyId))).Some?
  }

  lemma HandshakeTouches(e: Sensor)
    ensures ReadSecret !in Handshake(e).0
    ensures Handshake(e).1 == Ok(true) <==> Usable(e) && Matched(e)
  {
    VerdictMeaning(e, 0);
    if Handshake(e).1 == Ok(true) {
      var k :| k >= 0 && Ends(e, k) && IsMatch(e.signals[k]);
      assert Matched(e);
    }
  }

  /** The stored secret is read exactly when the key is enrolled in a reachable keyring, every
      step of the handshake worked and the first terminal signal before the timeout is a match. */
  lemma SecretReadIffMatched(items: seq<L.Item>, keyId: string, f: Platform, e: Sensor)
    ensures ReadSecret in Retrieval(items, keyId, f, e).0 <==>
            f.open && f.search && Enrolled(items, keyId) && Usable(e) && Matched(e)
  {
    hide Handshake, Matched;
    HandshakeTouches(e);
  }

  /** A key that is not enrolled raises no fingerprint prompt: the sensor is not even probed. */
  lemma UnenrolledKeyTouchesNoSensor(items: seq<L.Item>, keyId: string, f: Platform, e: Sensor, c: Call)
    requires !Enrolled(items, keyId) && c in Retrieval(items, keyId, f, e).0
    ensures c.OpenKeyring? || c.SearchItems?
  {
  }

  /** The first terminal signal in time cannot be decoded. */
  ghost predicate Garbled(e: Sensor) {
    exists k: nat :: Ends(e, k) && e.signals[k].Undecodable?
  }

  /** What a handshake without a match says: unavailable when there is no bus, sensor service, device
      or enrolled finger; an error when the device cannot be addressed, claimed, subscribed to or
      started, or garbles its first terminal signal; and otherwise no match. */
  lemma HandshakeFailures(e: Sensor)
    ensures var r, found := Handshake(e).1, e.bus && e.manager && e.device;
            var begun := found && e.path && e.proxy && e.fingers;
            && (r == Err(Unavailable) <==> !found || (e.path && e.proxy && !e.fingers))
            && (r == Err(Backend) <==>
                  || (found && !(e.path && e.proxy))
                  || (begun && !(e.claim && e.subscribe && e.start))
                  || (Usable(e) && Garbled(e)))
            && (r == Ok(false) <==> Usable(e) && !Matched(e) && !Garbled(e))
  {
    VerdictRead(e);
    HandshakeTouches(e);
    hide Verify, Garbled, Matched;
    var r := Handshake(e).1;
    if r.Ok? && !r.value {
      assert r == Ok(false);
    }
  }

  lemma VerdictRead(e: Sensor)
    ensures Verify(e, 0).Ok? || Verify(e, 0) == Err(Backend)
    ensures Verify(e, 0).Err? <==> Garbled(e)
    ensures Verify(e, 0) == Ok(true) <==> Matched(e)
  {
    VerdictMeaning(e, 0);
    if Garbled(e) {
      var k: nat :| Ends(e, k) && e.signals[k].Undecodable?;
      assert k >= 0 && Ends(e, k);
    }
    if Matched(e) {
      var k: nat :| Ends(e, k) && IsMatch(e.signals[k]);
      assert k >= 0 && Ends(e, k);
    }
  }

  /** How the vault's operations see the handshake. */
  function GateOf(e: Sensor): Gate {
    match Handshake(e).1
    case Ok(matched) => if matched then Passed else Refused
    case Err(error) => if error.Unavailable? then NoSensor else GateBroken
  }

  /** The traced retrieve answers as the vault's retrieve does for that gate. */
  lemma TraceRefinesVault(items: seq<L.Item>, keyId: string, f: Platform, e: Sensor)
    ensures Retrieval(items, keyId, f, e).1 == L.RetrieveStep(items, keyId, f.(gate := GateOf(e)))
  {
    VerdictMeaning(e, 0);
  }
}
