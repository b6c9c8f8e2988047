/** Starting the agent in the background: a parent that spawns itself detached, polls for the
    socket and prints the eval lines, and the child that binds the socket. Every interleaving of
    the processes, the clock and sudden death is a sequence of actions. */
module AgentStart {
  import opened Wrappers

  const POLL_TIMEOUT: nat := 5000
  const POLL_INTERVAL: nat := 50
  const MAX_POLLS: nat := POLL_TIMEOUT / POLL_INTERVAL

  /** Where a `gitway agent start` process is. Times are in milliseconds; `polls` counts the
      times the loop has found no socket. */
  datatype Pc =
    | Start
    | Announce
    | Binding
    | Serving
    | CheckSocket
    | Spawning
    | Polling(child: nat, deadline: nat, polls: nat)
    | Sleeping(child: nat, deadline: nat, wake: nat, polls: nat)
    | FinalCheck(child: nat)
    | Reporting(child: nat)
    | Succeeded
    | Ended

  /** A process, with the environment marker and the `-D` flag that decide what it does. */
  datatype Proc = Proc(marker: bool, foreground: bool, pc: Pc)

  datatype Emission = Emission(printer: nat, pid: nat)

  datatype State = State(
    procs: map<nat, Proc>,
    socket: Option<nat>,
    clock: nat,
    bound: set<nat>,
    spawned: seq<(nat, nat)>,
    emitted: seq<Emission>)

  /** A process takes its next step, the outside world deciding whether a fallible step works
      and which pid a spawn gets; a process dies; or time passes. */
  datatype Action = Exec(pid: nat, ok: bool, newPid: nat) | Kill(pid: nat) | Tick(elapsed: nat)

  function Goto(s: State, p: nat, pc: Pc): State
    requires p in s.procs
  {
    s.(procs := s.procs[p := s.procs[p].(pc := pc)])
  }

  function Spawn(s: State, p: nat, child: nat): State
    requires p in s.procs
  {
    var t := Goto(s, p, Polling(child, s.clock + POLL_TIMEOUT, 0));
    t.(procs := t.procs[child := Proc(true, true, Start)], spawned := s.spawned + [(p, child)])
  }

  function Perform(s: State, p: nat, ok: bool, newPid: nat): State
    requires p in s.procs
  {
    match s.procs[p].pc
    case Start => Goto(s, p, if s.procs[p].foreground || s.procs[p].marker then Announce else CheckSocket)
    case Announce =>
      var t := Goto(s, p, Binding);
      if s.procs[p].marker then t else t.(emitted := s.emitted + [Emission(p, p)])
    case Binding =>
      if ok && s.socket.None? then Goto(s, p, Serving).(socket := Some(p), bound := s.bound + {p})
      else Goto(s, p, Ended)
    case Serving => if ok then s else Goto(s, p, Ended).(socket := None)
    case CheckSocket => Goto(s, p, if s.socket.Some? then Ended else Spawning)
    case Spawning => if ok && newPid !in s.procs then Spawn(s, p, newPid) else Goto(s, p, Ended)
    case Polling(child, deadline, polls) =>
      if s.clock < deadline && s.socket.None? then
        Goto(s, p, Sleeping(child, deadline, s.clock + POLL_INTERVAL, polls + 1))
      else Goto(s, p, FinalCheck(child))
    case Sleeping(child, deadline, wake, polls) =>
      if s.clock >= wake then Goto(s, p, Polling(child, deadline, polls)) else s
    case FinalCheck(child) => Goto(s, p, if s.socket.Some? then Reporting(child) else Ended)
    case Reporting(child) => Goto(s, p, Succeeded).(emitted := s.emitted + [Emission(p, child)])
    case Succeeded => s
    case Ended => s
  }

  function Act(s: State, a: Action): State {
    match a
    case Exec(p, ok, newPid) => if p in s.procs then Perform(s, p, ok, newPid) else s
    case Kill(p) => if p in s.procs then Goto(s, p, Ended) else s
    case Tick(d) => s.(clock := s.clock + d)
  }

  function After(s: State, run: seq<Action>): State {
    if run == [] then s else Act(After(s, run[..|run| - 1]), run[|run| - 1])
  }

  /** One process, started by the user without the marker; the socket path may be taken. */
  predicate Initial(s: State, root: nat) {
    && (exists fg :: s.procs == map[root := Proc(false, fg, Start)])
    && s.bound == {} && s.spawned == [] && s.emitted == []
  }

  // --------------------------------------------------------------- invariant

  predicate Awaits(pc: Pc, child: nat) {
    (pc.Polling? || pc.Sleeping? || pc.FinalCheck? || pc.Reporting?) && pc.child == child
  }

  predicate DaemonOnly(pc: Pc) {
    pc.Start? || pc.Announce? || pc.Binding? || pc.Serving? || pc.Ended?
  }

  /** The user's process ran in the foreground, or has not spawned yet, or could not. */
  predicate Alone(s: State, root: nat)
    requires root in s.procs
  {
    var p := s.procs[root];
    && s.procs.Keys == {root} && s.spawned == []
    && s.bound <= {root}
    && (if p.foreground then
          && DaemonOnly(p.pc)
          && (s.emitted == [] || s.emitted == [Emission(root, root)])
          && (p.pc.Start? || p.pc.Announce? ==> s.emitted == [])
          && (p.pc.Binding? || p.pc.Serving? || root in s.bound ==> s.emitted != [])
        else
          && (p.pc.Start? || p.pc.CheckSocket? || p.pc.Spawning? || p.pc.Ended?)
          && s.emitted == [] && s.bound == {}
          && (p.pc.Spawning? ==> s.socket.None?))
  }

  /** The user's process has spawned its one child, which only ever serves; nothing but the
      child has touched the socket. */
  predicate WithChild(s: State, root: nat, child: nat)
    requires root in s.procs && child in s.procs
  {
    var p := s.procs[root];
    && child != root && s.procs.Keys == {root, child} && s.spawned == [(root, child)]
    && !p.foreground && (Awaits(p.pc, child) || p.pc.Succeeded? || p.pc.Ended?)
    && s.procs[child].marker && DaemonOnly(s.procs[child].pc)
    && s.bound <= {child}
    && (s.socket.Some? ==> child in s.bound)
    && (p.pc.Reporting? || p.pc.Succeeded? ==> child in s.bound)
    && s.emitted == (if p.pc.Succeeded? then [Emission(root, child)] else s.emitted)
    && (s.emitted == [] || (s.emitted == [Emission(root, child)] && child in s.bound))
    && (Awaits(p.pc, child) ==> s.emitted == [])
  }

  predicate Inv(s: State, root: nat) {
    && root in s.procs && !s.procs[root].marker
    && (Alone(s, root) || (|s.spawned| == 1 && s.spawned[0].1 in s.procs && WithChild(s, root, s.spawned[0].1)))
  }

  lemma InitialInv(s: State, root: nat)
    requires Initial(s, root)
    ensures Inv(s, root)
  {
  }

  lemma AloneStep(s: State, root: nat, a: Action)
    requires root in s.procs && !s.procs[root].marker && Alone(s, root)
    ensures Inv(Act(s, a), root)
  {
    match a {
      case Exec(p, ok, newPid) =>
        if p == root {
          var t := Act(s, a);
          assert t.procs.Keys == {root} || t.procs.Keys == {root, newPid};
        }
      case Kill(p) =>
        if p == root {
          assert Act(s, a).procs.Keys == {root};
        }
      case Tick(d) =>
    }
  }

  lemma ChildStep(s: State, root: nat, a: Action)
    requires |s.spawned| == 1 && root in s.procs && !s.procs[root].marker
    requires s.spawned[0].1 in s.procs && WithChild(s, root, s.spawned[0].1)
    ensures Inv(Act(s, a), root)
  {
    var child := s.spawned[0].1;
    match a {
      case Exec(p, ok, newPid) =>
        if p == root {
          ParentExec(s, root, child, ok, newPid);
        } else if p == child {
          ChildExec(s, root, child, ok, newPid);
        } else {
          OthersDoNothing(s, root, child, p);
        }
        hide Perform, Alone, WithChild;
      case Kill(p) =>
        if p in s.procs {
          assert p == root || p == child;
          assert Act(s, a).procs.Keys == {root, child};
        }
      case Tick(d) =>
    }
  }

  lemma OthersDoNothing(s: State, root: nat, child: nat, p: nat)
    requires root in s.procs && child in s.procs && WithChild(s, root, child) && p != root && p != child
    ensures p !in s.procs
  {
    assert p in s.procs ==> p in {root, child};
  }

  lemma ParentExec(s: State, root: nat, child: nat, ok: bool, newPid: nat)
    requires root in s.procs && child in s.procs && !s.procs[root].marker && WithChild(s, root, child)
    ensures Inv(Perform(s, root, ok, newPid), root)
  {
    hide Spawn, Alone;
    assert Perform(s, root, ok, newPid).procs.Keys == {root, child};
  }

  lemma ChildExec(s: State, root: nat, child: nat, ok: bool, newPid: nat)
    requires root in s.procs && child in s.procs && !s.procs[root].marker && WithChild(s, root, child)
    ensures Inv(Perform(s, child, ok, newPid), root)
  {
    hide Spawn, Alone;
    assert Perform(s, child, ok, newPid).procs.Keys == {root, child};
  }

  lemma {:induction false} InvAlways(s: State, root: nat, run: seq<Action>)
    requires Initial(s, root)
    ensures Inv(After(s, run), root)
  {
    hide Act, Inv, Initial;
    if run == [] {
      InitialInv(s, root);
    } else {
      InvAlways(s, root, run[..|run| - 1]);
      InvStep(After(s, run[..|run| - 1]), root, run[|run| - 1]);
    }
  }

  lemma InvStep(s: State, root: nat, a: Action)
    requires Inv(s, root)
    ensures Inv(Act(s, a), root)
  {
    hide Act, Alone, WithChild;
    if Alone(s, root) {
      AloneStep(s, root, a);
    } else {
      ChildStep(s, root, a);
    }
  }

  // ---------------------------------------------------------------- theorems

  /** What the invariant says of spawning, reporting and the user's process. */
  lemma InvMeaning(t: State, root: nat)
    requires Inv(t, root)
    ensures root in t.procs && !t.procs[root].marker
    ensures t.spawned == [] || (|t.spawned| == 1 && t.spawned[0].0 == root && !t.procs[root].foreground)
    ensures t.emitted != [] && !t.procs[root].foreground ==>
              |t.spawned| == 1 && t.emitted == [Emission(root, t.spawned[0].1)] && t.spawned[0].1 in t.bound
    ensures t.emitted != [] && t.procs[root].foreground ==> t.emitted == [Emission(root, root)]
    ensures t.procs[root].foreground && (t.procs[root].pc.Binding? || root in t.bound) ==> t.emitted != []
    ensures t.procs[root].pc.Succeeded? ==> t.emitted != [] && !t.procs[root].foreground
    ensures !t.procs[root].foreground ==>
              !t.procs[root].pc.Announce? && !t.procs[root].pc.Binding? && !t.procs[root].pc.Serving?
  {
  }

  /** In every interleaving, at most one process is ever spawned, and by the process the user
      started: the child never respawns. */
  lemma OnlyTheUsersProcessSpawns(s: State, root: nat, run: seq<Action>)
    requires Initial(s, root)
    ensures |After(s, run).spawned| <= 1
    ensures forall k :: 0 <= k < |After(s, run).spawned| ==> After(s, run).spawned[k].0 == root
    ensures s.procs[root].foreground ==> After(s, run).spawned == []
  {
    hide After, Act, Inv, Initial;
    InvAlways(s, root, run);
    ForegroundKept(s, root, run);
    InvMeaning(After(s, run), root);
  }

  /** No step of any process changes how a process was started. */
  lemma ForegroundStep(s: State, p: nat, a: Action)
    requires p in s.procs
    ensures p in Act(s, a).procs && Act(s, a).procs[p].foreground == s.procs[p].foreground
  {
    if a.Exec? && a.pid in s.procs {
      ExecKeepsFlags(s, p, a.pid, a.ok, a.newPid);
    }
  }

  lemma ExecKeepsFlags(s: State, p: nat, q: nat, ok: bool, newPid: nat)
    requires p in s.procs && q in s.procs
    ensures var t := Perform(s, q, ok, newPid); p in t.procs && t.procs[p].foreground == s.procs[p].foreground
  {
    hide Spawn;
    SpawnKeepsFlags(s, p, q, newPid);
  }

  lemma SpawnKeepsFlags(s: State, p: nat, q: nat, child: nat)
    requires p in s.procs && q in s.procs
    ensures child !in s.procs ==>
              p in Spawn(s, q, child).procs && Spawn(s, q, child).procs[p].foreground == s.procs[p].foreground
  {
  }

  lemma {:induction false} ForegroundKept(s: State, root: nat, run: seq<Action>)
    requires Initial(s, root)
    ensures root in After(s, run).procs && After(s, run).procs[root].foreground == s.procs[root].foreground
  {
    hide Act;
    if run != [] {
      ForegroundKept(s, root, run[..|run| - 1]);
      ForegroundStep(After(s, run[..|run| - 1]), root, run[|run| - 1]);
    }
  }

  /** In every interleaving, eval lines are printed at most once and only by the process the
      user started. In the background they name the child, and only after the child has bound
      the socket; in the foreground they name the process itself. */
  lemma ReportNamesBoundChild(s: State, root: nat, run: seq<Action>)
    requires Initial(s, root)
    ensures var t := After(s, run);
            && |t.emitted| <= 1
            && forall e :: e in t.emitted ==>
                 && e.printer == root
                 && if s.procs[root].foreground then e.pid == root
                    else t.spawned == [(root, e.pid)] && e.pid in t.bound
  {
    hide After, Act, Inv, Initial;
    InvAlways(s, root, run);
    ForegroundKept(s, root, run);
    InvMeaning(After(s, run), root);
  }

  /** The parent exits successfully exactly with its report printed: then the child had bound
      the socket and the printed pid is the child's. */
  lemma SuccessMeansReported(s: State, root: nat, run: seq<Action>)
    requires Initial(s, root) && root in After(s, run).procs && After(s, run).procs[root].pc.Succeeded?
    ensures var t := After(s, run);
            && |t.spawned| == 1 && t.spawned[0].1 in t.bound
            && t.emitted == [Emission(root, t.spawned[0].1)]
  {
    hide After, Act, Inv, Initial;
    InvAlways(s, root, run);
    InvMeaning(After(s, run), root);
  }

  /** A foreground start has printed its own eval lines before it binds the socket. */
  lemma ForegroundReports(s: State, root: nat, run: seq<Action>)
    requires Initial(s, root) && s.procs[root].foreground
    ensures root in After(s, run).procs
    ensures var t := After(s, run);
            t.procs[root].pc.Binding? || root in t.bound ==> t.emitted == [Emission(root, root)]
  {
    hide After, Act, Inv, Initial;
    InvAlways(s, root, run);
    ForegroundKept(s, root, run);
    InvMeaning(After(s, run), root);
  }

  // -------------------------------------------------- when a start fails

  /** A start in the background whose socket path was taken has done nothing and never will. */
  predicate Declined(s: State, root: nat, socket: Option<nat>) {
    && s.procs.Keys == {root} && !s.procs[root].marker && !s.procs[root].foreground
    && (s.procs[root].pc.Start? || s.procs[root].pc.CheckSocket? || s.procs[root].pc.Ended?)
    && s.socket == socket && s.spawned == [] && s.emitted == [] && s.bound == {}
  }

  lemma DeclinedStep(s: State, root: nat, a: Action)
    requires s.socket.Some? && Declined(s, root, s.socket)
    ensures Declined(Act(s, a), root, s.socket)
  {
    assert Act(s, a).procs.Keys == {root};
  }

  /** Where the socket path is taken, a start in the background spawns nothing, prints nothing and
      leaves the socket alone, in every interleaving. */
  lemma {:induction false} TakenSocketDeclines(s: State, root: nat, run: seq<Action>)
    requires Initial(s, root) && !s.procs[root].foreground && s.socket.Some?
    ensures Declined(After(s, run), root, s.socket)
  {
    hide Act;
    if run != [] {
      TakenSocketDeclines(s, root, run[..|run| - 1]);
      DeclinedStep(After(s, run[..|run| - 1]), root, run[|run| - 1]);
    }
  }

  /** The parent has not given up on a child early: it waits five seconds from the start, or has seen
      the socket bound. */
  predicate Patient(s: State, root: nat, since: nat)
    requires root in s.procs
  {
    var pc := s.procs[root].pc;
    && since <= s.clock
    && (pc.Polling? || pc.Sleeping? ==> since + 5000 <= pc.deadline)
    && (pc.FinalCheck? || (pc.Ended? && s.spawned != []) ==>
          since + 5000 <= s.clock || (|s.spawned| == 1 && s.spawned[0].1 in s.bound))
  }

  lemma PatientStep(s: State, root: nat, since: nat, a: Action)
    requires Inv(s, root) && !s.procs[root].foreground && Patient(s, root, since) && a != Kill(root)
    ensures root in Act(s, a).procs && Patient(Act(s, a), root, since)
  {
    if a.Exec? && a.pid in s.procs {
      if a.pid == root {
        PatientParent(s, root, since, a.ok, a.newPid);
      } else {
        PatientChild(s, root, since, a.pid, a.ok, a.newPid);
      }
      hide Perform, Inv;
    }
  }

  lemma PatientParent(s: State, root: nat, since: nat, ok: bool, newPid: nat)
    requires Inv(s, root) && !s.procs[root].foreground && Patient(s, root, since)
    ensures var t := Perform(s, root, ok, newPid); root in t.procs && Patient(t, root, since)
  {
  }

  lemma PatientChild(s: State, root: nat, since: nat, p: nat, ok: bool, newPid: nat)
    requires Inv(s, root) && p in s.procs && p != root && Patient(s, root, since)
    ensures var t := Perform(s, p, ok, newPid); root in t.procs && Patient(t, root, since)
  {
  }

  lemma {:induction false} PatientAlways(s: State, root: nat, run: seq<Action>)
    requires Initial(s, root) && !s.procs[root].foreground
    requires forall i :: 0 <= i < |run| ==> run[i] != Kill(root)
    ensures root in After(s, run).procs && Patient(After(s, run), root, s.clock)
  {
    hide Act, Inv, Patient, Initial;
    if run == [] {
      PatientAtFirst(s, root);
    } else {
      var front := run[..|run| - 1];
      PatientAlways(s, root, front);
      InvAlways(s, root, front);
      ForegroundKept(s, root, front);
      PatientStep(After(s, front), root, s.clock, run[|run| - 1]);
    }
  }

  lemma PatientAtFirst(s: State, root: nat)
    requires Initial(s, root)
    ensures root in s.procs && Patient(s, root, s.clock)
  {
  }

  /** A parent that is not killed and has spawned its child fails only once five seconds have passed,
      or after the child bound the socket and lost it again. */
  lemma GivesUpLate(s: State, root: nat, run: seq<Action>)
    requires Initial(s, root) && !s.procs[root].foreground
    requires forall i :: 0 <= i < |run| ==> run[i] != Kill(root)
    ensures var t := After(s, run);
            root in t.procs && (t.procs[root].pc.Ended? && t.spawned != [] ==>
              t.clock >= s.clock + 5000 || (|t.spawned| == 1 && t.spawned[0].1 in t.bound))
  {
    hide After, Act, Initial;
    PatientAlways(s, root, run);
  }

  /** Once the socket is bound while the parent is polling, time and the parent's own steps are
      enough for it to succeed. */
  lemma BoundSocketIsReported(s: State, root: nat, run: seq<Action>) returns (more: seq<Action>)
    requires root in After(s, run).procs && After(s, run).socket.Some?
    requires After(s, run).procs[root].pc.Polling? || After(s, run).procs[root].pc.Sleeping?
    ensures forall a :: a in more ==> a.Tick? || (a.Exec? && a.pid == root)
    ensures root in After(s, run + more).procs && After(s, run + more).procs[root].pc.Succeeded?
  {
    hide After, Act;
    var t, c := After(s, run), Exec(root, true, 0);
    var wait := WaitedOut(t, root);
    ReportReached(After(t, wait), root);
    RunsCompose(t, wait, [c, c, c]);
    more := wait + [c, c, c];
    RunsCompose(s, run, more);
  }

  /** Waiting out a sleep, if there is one, brings the parent back to polling. */
  lemma WaitedOut(t: State, root: nat) returns (wait: seq<Action>)
    requires root in t.procs && t.socket.Some? && (t.procs[root].pc.Polling? || t.procs[root].pc.Sleeping?)
    ensures forall a :: a in wait ==> a.Tick? || (a.Exec? && a.pid == root)
    ensures var u := After(t, wait); root in u.procs && u.procs[root].pc.Polling? && u.socket.Some?
  {
    if t.procs[root].pc.Polling? {
      wait := [];
    } else {
      var tick, c := Tick(t.procs[root].pc.wake), Exec(root, true, 0);
      wait := [tick, c];
      WakesUp(t, root);
      TwoSteps(t, tick, c);
      hide After, Act;
    }
  }

  lemma TwoSteps(s: State, a: Action, b: Action)
    ensures After(s, [a, b]) == Act(Act(s, a), b)
  {
    hide Act;
    AndThen(s, [], a);
    AndThen(s, [a], b);
    assert [] + [a] == [a] && [a] + [b] == [a, b];
    assert After(s, []) == s;
  }

  lemma WakesUp(t: State, root: nat)
    requires root in t.procs && t.procs[root].pc.Sleeping? && t.socket.Some?
    ensures var u := Act(Act(t, Tick(t.procs[root].pc.wake)), Exec(root, true, 0));
            root in u.procs && u.procs[root].pc.Polling? && u.socket == t.socket
  {
  }

  /** The clock accounts for every unsuccessful poll. */
  predicate Paced(s: State, p: nat)
    requires p in s.procs
  {
    match s.procs[p].pc
    case Polling(_, deadline, polls) =>
      polls <= MAX_POLLS && deadline + POLL_INTERVAL * polls <= s.clock + POLL_TIMEOUT
    case Sleeping(_, deadline, wake, polls) =>
      && deadline + POLL_INTERVAL * polls <= wake + POLL_TIMEOUT && wake < deadline + POLL_INTERVAL
      && wake <= s.clock + POLL_INTERVAL
    case _ => true
  }

  lemma PacedStep(s: State, root: nat, a: Action)
    requires root in s.procs && Paced(s, root)
    ensures root in Act(s, a).procs && Paced(Act(s, a), root)
  {
    if a.Exec? && a.pid in s.procs && a.pid != root {
      OthersStepAlone(s, root, a);
    }
  }

  /** A step of another process leaves this one where it is. */
  lemma OthersStepAlone(s: State, root: nat, a: Action)
    requires a.Exec? && a.pid in s.procs && root in s.procs && a.pid != root
    ensures Act(s, a).clock == s.clock && root in Act(s, a).procs && Act(s, a).procs[root] == s.procs[root]
  {
  }

  lemma {:induction false} PacedAlways(s: State, root: nat, run: seq<Action>)
    requires Initial(s, root)
    ensures root in After(s, run).procs && Paced(After(s, run), root)
  {
    hide Act, Inv, Paced;
    if run == [] {
      PacedAtFirst(s, root);
    } else {
      var front := run[..|run| - 1];
      PacedAlways(s, root, front);
      PacedStep(After(s, front), root, run[|run| - 1]);
    }
  }

  lemma PacedAtFirst(s: State, root: nat)
    requires Initial(s, root)
    ensures root in s.procs && Paced(s, root)
  {
  }

  /** The poll loop looks for the socket in vain at most a hundred times, and sleeps no longer than 50
      milliseconds before it looks again. */
  lemma PollsBounded(s: State, root: nat, run: seq<Action>)
    requires Initial(s, root)
    ensures root in After(s, run).procs
    ensures var pc := After(s, run).procs[root].pc;
            && (pc.Polling? || pc.Sleeping? ==> pc.polls <= 100)
            && (pc.Sleeping? ==> pc.wake <= After(s, run).clock + 50)
  {
    hide After, Act, Inv, Initial, Paced;
    PacedAlways(s, root, run);
    PacedBounds(After(s, run), root);
  }

  lemma PacedBounds(t: State, p: nat)
    requires p in t.procs && Paced(t, p)
    ensures var pc := t.procs[p].pc; pc.Polling? || pc.Sleeping? ==> pc.polls <= MAX_POLLS
    ensures t.procs[p].pc.Sleeping? ==> t.procs[p].pc.wake <= t.clock + POLL_INTERVAL
  {
  }

  /** What is left to do before the process started in the background ends. */
  function Remaining(pc: Pc): int {
    match pc
    case Start => 2 * MAX_POLLS + 8
    case CheckSocket => 2 * MAX_POLLS + 7
    case Spawning => 2 * MAX_POLLS + 6
    case Polling(_, _, polls) => 2 * (MAX_POLLS - polls) + 4
    case Sleeping(_, _, _, polls) => 2 * (MAX_POLLS - polls) + 5
    case FinalCheck(_) => 2
    case Reporting(_) => 1
    case _ => 0
  }

  /** The parent always gets on: each of its steps brings it nearer to its end, except that it
      waits out a sleep; and a sleep is over as soon as its time has passed. */
  lemma ParentMakesProgress(s: State, root: nat, run: seq<Action>, ok: bool, newPid: nat)
    requires Initial(s, root) && !s.procs[root].foreground
    ensures root in After(s, run).procs
    ensures var t := After(s, run);
            var pc, pc' := t.procs[root].pc, Act(t, Exec(root, ok, newPid)).procs[root].pc;
            && 0 <= Remaining(pc)
            && (Remaining(pc) == 0 <==> pc.Succeeded? || pc.Ended?)
            && (Remaining(pc) > 0 && !(pc.Sleeping? && t.clock < pc.wake) ==> Remaining(pc') < Remaining(pc))
  {
    hide After, Act, Inv, Initial;
    InvAlways(s, root, run);
    ForegroundKept(s, root, run);
    PollsBounded(s, root, run);
    InvMeaning(After(s, run), root);
    RemainingFalls(After(s, run), root, ok, newPid);
  }

  lemma RemainingFalls(t: State, root: nat, ok: bool, newPid: nat)
    requires root in t.procs && !t.procs[root].foreground && !t.procs[root].marker
    requires var pc := t.procs[root].pc; pc.Polling? || pc.Sleeping? ==> pc.polls <= MAX_POLLS
    requires var pc := t.procs[root].pc; !pc.Announce? && !pc.Binding? && !pc.Serving?
    ensures var u := Act(t, Exec(root, ok, newPid));
            var pc := t.procs[root].pc;
            && root in u.procs
            && 0 <= Remaining(pc)
            && (Remaining(pc) == 0 <==> pc.Succeeded? || pc.Ended?)
            && (Remaining(pc) > 0 && !(pc.Sleeping? && t.clock < pc.wake) ==>
                  Remaining(u.procs[root].pc) < Remaining(pc))
  {
  }

  /** Appending one action. */
  lemma AndThen(s: State, run: seq<Action>, a: Action)
    ensures After(s, run + [a]) == Act(After(s, run), a)
  {
    assert (run + [a])[..|run|] == run;
  }

  lemma ThreeTimes(s: State, a: Action)
    ensures After(s, [a, a, a]) == Act(Act(Act(s, a), a), a)
  {
    hide Act;
    AndThen(s, [], a);
    AndThen(s, [a], a);
    AndThen(s, [a, a], a);
    assert [] + [a] == [a] && [a] + [a] == [a, a] && [a, a] + [a] == [a, a, a];
    assert After(s, []) == s;
  }

  /** A process that has just been started. */
  function Fresh(root: nat): State {
    State(map[root := Proc(false, false, Start)], None, 0, {}, [], [])
  }

  lemma SpawnReached(root: nat, child: nat)
    requires root != child
    ensures var a := Exec(root, true, child);
            After(Fresh(root), [a, a, a]) ==
            State(map[root := Proc(false, false, Polling(child, POLL_TIMEOUT, 0)), child := Proc(true, true, Start)],
                  None, 0, {}, [(root, child)], [])
  {
    var s, a := Fresh(root), Exec(root, true, child);
    ThreeTimes(s, a);
    hide After;
    assert Act(Act(s, a), a).procs == map[root := Proc(false, false, Spawning)];
  }

  lemma BindReached(s: State, child: nat)
    requires child in s.procs && s.procs[child] == Proc(true, true, Start) && s.socket.None?
    ensures var a := Exec(child, true, child);
            var t := After(s, [a, a, a]);
            && t.socket == Some(child)
            && forall p :: p in s.procs && p != child ==> p in t.procs && t.procs[p] == s.procs[p]
  {
    var a := Exec(child, true, child);
    ThreeTimes(s, a);
    hide After;
  }

  /** A parent that polls after the socket has appeared goes on to its last check, its report and
      its end. */
  lemma ReportSteps(s: State, root: nat, a: Action)
    requires a == Exec(root, true, 0) && root in s.procs && s.socket.Some?
    requires s.procs[root].pc.Polling? || s.procs[root].pc.FinalCheck? || s.procs[root].pc.Reporting?
    ensures var t := Act(s, a);
            && root in t.procs
            && (s.procs[root].pc.Polling? ==> t.procs[root].pc.FinalCheck? && t.socket == s.socket)
            && (s.procs[root].pc.FinalCheck? ==> t.procs[root].pc.Reporting? && t.socket == s.socket)
            && (s.procs[root].pc.Reporting? ==> t.procs[root].pc.Succeeded?)
  {
    hide Spawn;
  }

  lemma ReportReached(s: State, root: nat)
    requires root in s.procs && s.procs[root].pc.Polling? && s.socket.Some?
    ensures var a := Exec(root, true, 0);
            root in After(s, [a, a, a]).procs && After(s, [a, a, a]).procs[root].pc.Succeeded?
  {
    hide After, Act;
    var a := Exec(root, true, 0);
    ThreeTimes(s, a);
    ReportSteps(s, root, a);
    ReportSteps(Act(s, a), root, a);
    ReportSteps(Act(Act(s, a), a), root, a);
  }

  lemma {:induction false} RunsCompose(s: State, x: seq<Action>, y: seq<Action>)
    ensures After(s, x + y) == After(After(s, x), y)
  {
    if y == [] {
      assert x + y == x;
    } else {
      RunsCompose(s, x, y[..|y| - 1]);
      assert (x + y)[..|x + y| - 1] == x + y[..|y| - 1];
    }
  }

  /** Success is reachable: the parent spawns, the child binds, the parent sees it and reports. */
  lemma BackgroundStartCanSucceed(root: nat, child: nat) returns (run: seq<Action>)
    requires root != child
    ensures Initial(Fresh(root), root)
    ensures root in After(Fresh(root), run).procs && After(Fresh(root), run).procs[root].pc.Succeeded?
  {
    hide After, Act;
    var a, b, c := Exec(root, true, child), Exec(child, true, child), Exec(root, true, 0);
    SpawnReached(root, child);
    var spawned := After(Fresh(root), [a, a, a]);
    BindReached(spawned, child);
    ReportReached(After(spawned, [b, b, b]), root);
    RunsCompose(Fresh(root), [a, a, a], [b, b, b]);
    RunsCompose(Fresh(root), [a, a, a] + [b, b, b], [c, c, c]);
    run := [a, a, a] + [b, b, b] + [c, c, c];
  }
}
