/** Every command of the auto-index protocol can finish. */
module AutoIndexProgress {
  // Who may fail, what a command does that nobody disturbs, and that no command is ever stuck (refresh.go).

  import opened Options
  import opened AutoIndex

  // ---------------------------------------------------------------- only a failure fails

  /** No event but its own failure makes a command fail. */
  lemma OnlyFailFails(s: State, e: Event, p: nat)
    requires s.history != [] && Next(s, e).Some? && p in Next(s, e).value.commands
    requires Next(s, e).value.commands[p].pc.Failed?
    ensures e == Fail(p) || (p in s.commands && s.commands[p].pc.Failed?)
  {
  }

  // ---------------------------------------------------------------- runs in parts

  lemma {:induction false} RunAppend(s: State, a: seq<Event>, b: seq<Event>)
    requires s.history != [] && Run(s, a).Some?
    ensures Run(s, a + b) == Run(Run(s, a).value, b)
  {
    if b == [] {
      assert a + b == a;
    } else {
      var n := |b| - 1;
      assert (a + b)[..|a| + n] == a + b[..n] && (a + b)[|a| + n] == b[n];
      RunAppend(s, a, b[..n]);
      assert |a + b| - 1 == |a| + n;
    }
  }

  lemma RunFrom(s: State, e: Event, events: seq<Event>)
    requires s.history != [] && Next(s, e).Some? && Next(s, e).value.history != []
    ensures Run(s, [e] + events) == Run(Next(s, e).value, events)
  {
    assert [e][..0] == [] && Run(s, []) == Some(s);
    assert Run(s, [e]) == Next(s, e);
    RunAppend(s, [e], events);
  }

  /** Command p takes a step of its own, or commits its scan. */
  predicate Own(p: nat, e: Event) {
    e == Advance(p) || (e.Finish? && e.p == p)
  }

  ghost predicate Solo(p: nat, events: seq<Event>) {
    forall e :: e in events ==> Own(p, e)
  }

  /** How many scans are committed. */
  function Commits(events: seq<Event>): nat {
    if events == [] then 0 else One(events[0].Finish?) + Commits(events[1..])
  }

  // ---------------------------------------------------------------- the index behind a decision

  /** A command that has seen the index, or is past scanning, has an index. */
  ghost predicate Indexed(s: State) {
    s.index == None ==> forall p :: p in s.commands ==>
      var pc := s.commands[p].pc;
      pc.FirstRead? || pc.Waiting? || pc.SecondRead? || pc.Scanning? || pc.FilesRead? || pc.HeadRead? || pc.Failed?
  }

  lemma NextIndexed(s: State, e: Event)
    requires s.history != [] && Indexed(s) && Next(s, e).Some?
    ensures Indexed(Next(s, e).value)
  {
  }

  ghost predicate Reachable(s: State) {
    Indexed(s) && exists head0: nat :: Inv(s, head0)
  }

  lemma NextReachable(s: State, e: Event)
    requires Reachable(s) && s.history != [] && Next(s, e).Some?
    ensures Reachable(Next(s, e).value) && Next(s, e).value.history != []
  {
    var head0: nat :| Inv(s, head0);
    NextIndexed(s, e);
    NextKeepsInv(s, head0, e);
    assert Inv(Next(s, e).value, head0);
  }

  lemma {:induction false} RunReachable(s: State, events: seq<Event>)
    requires Init(s) && Run(s, events).Some?
    ensures Reachable(Run(s, events).value)
  {
    if events == [] {
      RunKeepsInv(s, events);
    } else {
      RunReachable(s, events[..|events| - 1]);
      NextReachable(Run(s, events[..|events| - 1]).value, events[|events| - 1]);
    }
  }

  // ---------------------------------------------------------------- one command alone

  predicate Live(s: State, p: nat) {
    p in s.commands && !s.commands[p].pc.Done? && !s.commands[p].pc.Failed?
  }

  predicate MayRun(s: State, p: nat) {
    Live(s, p) && (s.lease == None || s.lease == Some(p))
  }

  /** How far a command is from its end. */
  function Left(pc: Pc): nat {
    match pc
    case FirstRead => 12
    case FirstCompare(_) => 11
    case FirstReady => 10
    case Waiting => 9
    case SecondRead => 8
    case SecondCompare(_) => 7
    case SecondReady => 6
    case Scanning => 5
    case FilesRead(_) => 4
    case HeadRead(_, _) => 3
    case Releasing => 2
    case Done => 1
    case Failed => 0
  }

  /** The event that moves the command on; a scan is committed with this outcome. */
  function Move(s: State, p: nat, o: Substrate): Event
    requires p in s.commands
  {
    if s.commands[p].pc.HeadRead? then Finish(p, o) else Advance(p)
  }

  /** What one's own steps leave alone: the history and all other commands. */
  ghost predicate Apart(s: State, t: State, p: nat) {
    && t.history == s.history && p in s.commands && p in t.commands
    && t.commands == s.commands[p := s.commands[p].(pc := t.commands[p].pc)]
  }

  lemma LeaseOf(s: State, p: nat)
    requires Reachable(s) && p in s.commands
    ensures Holding(s.commands[p].pc) <==> s.lease == Some(p)
  {
    var head0: nat :| Inv(s, head0);
  }

  lemma MoveIsPossible(s: State, p: nat, o: Substrate)
    requires s.history != [] && Reachable(s) && MayRun(s, p)
    ensures Next(s, Move(s, p, o)).Some?
  {
    LeaseOf(s, p);
  }

  lemma MoveApart(s: State, p: nat, o: Substrate)
    requires s.history != [] && Reachable(s) && MayRun(s, p) && Next(s, Move(s, p, o)).Some?
    ensures Apart(s, Next(s, Move(s, p, o)).value, p)
  {
  }

  lemma MoveComesNearer(s: State, p: nat, o: Substrate)
    requires s.history != [] && MayRun(s, p) && Next(s, Move(s, p, o)).Some?
    ensures var t := Next(s, Move(s, p, o)).value;
            p in t.commands && Left(t.commands[p].pc) < Left(s.commands[p].pc) && !t.commands[p].pc.Failed?
  {
  }

  lemma MoveKeepsLease(s: State, p: nat, o: Substrate)
    requires s.history != [] && Reachable(s) && MayRun(s, p) && Next(s, Move(s, p, o)).Some?
    ensures var t := Next(s, Move(s, p, o)).value;
            && p in t.commands && (t.lease == None || t.lease == Some(p))
            && (t.commands[p].pc.Done? ==> t.lease == None && t.index.Some?)
  {
    MoveApart(s, p, o);
    NextReachable(s, Move(s, p, o));
    LeaseOf(s, p);
    LeaseOf(Next(s, Move(s, p, o)).value, p);
  }

  /** The row that p commits: with the files and the HEAD it has read, else as they are. */
  function RowOf(s: State, p: nat, o: Substrate): Row
    requires s.history != [] && p in s.commands
  {
    var pc, n := s.commands[p].pc, |s.history| - 1;
    Row(if pc.HeadRead? then pc.stamp else Mark(s.history[n], n),
        if pc.HeadRead? then pc.content else if pc.FilesRead? then pc.content else n, o)
  }

  /** The index and the counters after so many commits of p. */
  ghost predicate Committed(s: State, t: State, p: nat, o: Substrate, n: nat)
    requires s.history != [] && p in s.commands
  {
    && t.index == (if n == 1 then Some(RowOf(s, p, o)) else s.index)
    && t.autoScans == s.autoScans + (if s.commands[p].kind == Auto then n else 0)
    && t.taskScans == s.taskScans + (if s.commands[p].kind == Task then n else 0)
    && t.unreadyScans == s.unreadyScans + (if o.sourceContexts > 0 && o.manifestFiles == 0 then n else 0)
  }

  lemma MoveCommits(s: State, p: nat, o: Substrate)
    requires s.history != [] && MayRun(s, p) && Next(s, Move(s, p, o)).Some?
    ensures Committed(s, Next(s, Move(s, p, o)).value, p, o, One(Move(s, p, o).Finish?))
  {
  }

  lemma MoveKeepsRow(s: State, p: nat, o: Substrate)
    requires s.history != [] && MayRun(s, p) && Next(s, Move(s, p, o)).Some?
    ensures var t := Next(s, Move(s, p, o)).value;
            p in t.commands && t.history != [] && (!s.commands[p].pc.HeadRead? ==> RowOf(t, p, o) == RowOf(s, p, o))
  {
  }

  /** Releasing comes after the commit: nothing is committed any more. */
  predicate PastCommit(pc: Pc) {
    pc.Releasing? || pc.Done?
  }

  lemma MovePastCommit(s: State, p: nat, o: Substrate)
    requires s.history != [] && MayRun(s, p) && Next(s, Move(s, p, o)).Some?
    ensures var t := Next(s, Move(s, p, o)).value;
            && p in t.commands
            && (s.commands[p].pc.HeadRead? || PastCommit(s.commands[p].pc) ==> PastCommit(t.commands[p].pc))
            && (PastCommit(s.commands[p].pc) ==> !Move(s, p, o).Finish?)
  {
  }

  // ---------------------------------------------------------------- whether it scans

  /** A command that finds the index missing or stamped with another commit scans; so does a task command whose
      substrate is not ready, and an explicit scan always. */
  predicate Needs(s: State, kind: Kind)
    requires s.history != []
  {
    || s.index == None || s.index.value.stamp.commit != s.history[|s.history| - 1] || kind == Explicit
    || (kind == Task && s.index.value.substrate.sourceContexts > 0 && s.index.value.substrate.manifestFiles == 0)
  }

  /** What the command has seen of the index is still there. */
  predicate SeesIndex(s: State, p: nat)
    requires s.history != [] && p in s.commands
  {
    var pc := s.commands[p].pc;
    && (pc.FirstCompare? || pc.SecondCompare? ==> s.index.Some? && pc.seen == s.index.value.stamp)
    && (pc.FirstReady? || pc.SecondReady? ==>
          s.index.Some? && s.commands[p].kind == Task && s.index.value.stamp.commit == s.history[|s.history| - 1])
    && (s.commands[p].kind == Explicit ==>
          pc.Waiting? || pc.Scanning? || pc.FilesRead? || pc.HeadRead? || PastCommit(pc))
  }

  /** Whether the command still commits a scan when nobody disturbs it. */
  predicate Scans(s: State, p: nat)
    requires s.history != [] && p in s.commands
  {
    var pc := s.commands[p].pc;
    !PastCommit(pc) && (pc.Scanning? || pc.FilesRead? || pc.HeadRead? || Needs(s, s.commands[p].kind))
  }

  lemma MoveSees(s: State, p: nat, o: Substrate)
    requires s.history != [] && MayRun(s, p) && SeesIndex(s, p) && Next(s, Move(s, p, o)).Some?
    ensures var t := Next(s, Move(s, p, o)).value;
            && p in t.commands && t.history != [] && SeesIndex(t, p)
            && One(Scans(s, p)) == One(Move(s, p, o).Finish?) + One(Scans(t, p))
  {
  }

  // ---------------------------------------------------------------- the steps of one command together

  /** What the own steps of p come to. */
  ghost predicate Finished(s: State, events: seq<Event>, t: State, p: nat, o: Substrate)
    requires s.history != [] && p in s.commands
  {
    && Solo(p, events) && Run(s, events) == Some(t)
    && Apart(s, t, p) && t.commands[p].pc.Done? && t.lease == None && t.index.Some?
    && Commits(events) <= 1 && (PastCommit(s.commands[p].pc) ==> Commits(events) == 0)
    && Committed(s, t, p, o, Commits(events))
    && (SeesIndex(s, p) ==> Commits(events) == One(Scans(s, p)))
  }

  lemma OneMoveFinishes(s: State, p: nat, o: Substrate)
    requires s.history != [] && Reachable(s) && MayRun(s, p) && Next(s, Move(s, p, o)).Some?
    requires p in Next(s, Move(s, p, o)).value.commands && Next(s, Move(s, p, o)).value.commands[p].pc.Done?
    ensures Finished(s, [Move(s, p, o)], Next(s, Move(s, p, o)).value, p, o)
  {
    var e := Move(s, p, o);
    var t := Next(s, e).value;
    MoveApart(s, p, o);
    MoveKeepsLease(s, p, o);
    MoveCommits(s, p, o);
    MovePastCommit(s, p, o);
    if SeesIndex(s, p) {
      MoveSees(s, p, o);
    }
    RunFrom(s, e, []);
    assert [e] + [] == [e] && Run(t, []) == Some(t);
    assert Commits([]) == 0 && [e][1..] == [];
  }

  lemma CommitsFirst(e: Event, rest: seq<Event>)
    ensures Commits([e] + rest) == One(e.Finish?) + Commits(rest)
  {
    assert ([e] + rest)[1..] == rest;
  }

  lemma CommitsAdd(s: State, u: State, t: State, p: nat, o: Substrate, a: nat, b: nat)
    requires s.history != [] && u.history != [] && p in s.commands && p in u.commands
    requires u.commands[p].kind == s.commands[p].kind && a + b <= 1
    requires Committed(s, u, p, o, a) && Committed(u, t, p, o, b) && (b == 1 ==> RowOf(u, p, o) == RowOf(s, p, o))
    ensures Committed(s, t, p, o, a + b)
  {
  }

  lemma ApartTwice(s: State, u: State, t: State, p: nat)
    requires Apart(s, u, p) && Apart(u, t, p)
    ensures Apart(s, t, p)
  {
  }

  lemma FirstMove(s: State, p: nat, o: Substrate, u: State, rest: seq<Event>, t: State)
    requires s.history != [] && Reachable(s) && MayRun(s, p) && Next(s, Move(s, p, o)) == Some(u)
    requires u.history != [] && p in u.commands && Finished(u, rest, t, p, o)
    ensures Finished(s, [Move(s, p, o)] + rest, t, p, o)
  {
    var e := Move(s, p, o);
    MoveApart(s, p, o);
    ApartTwice(s, u, t, p);
    RunFrom(s, e, rest);
    CommitsFirst(e, rest);
    MoveCommits(s, p, o);
    MovePastCommit(s, p, o);
    MoveKeepsRow(s, p, o);
    CommitsAdd(s, u, t, p, o, One(e.Finish?), Commits(rest));
    if SeesIndex(s, p) {
      MoveSees(s, p, o);
    }
  }

  /** A command that may run gets to its end by its own steps alone: it succeeds with an index there, commits at
      most one scan, stamped with HEAD, and leaves the index as it is when it commits none. */
  lemma {:induction false} CanFinish(s: State, p: nat, o: Substrate) returns (events: seq<Event>, t: State)
    requires s.history != [] && Reachable(s) && MayRun(s, p)
    ensures Finished(s, events, t, p, o)
    decreases Left(s.commands[p].pc)
  {
    MoveIsPossible(s, p, o);
    MoveApart(s, p, o);
    MoveComesNearer(s, p, o);
    MoveKeepsLease(s, p, o);
    NextReachable(s, Move(s, p, o));
    var u := Next(s, Move(s, p, o)).value;
    if u.commands[p].pc.Done? {
      OneMoveFinishes(s, p, o);
      events, t := [Move(s, p, o)], u;
    } else {
      var rest;
      rest, t := CanFinish(u, p, o);
      FirstMove(s, p, o, u, rest, t);
      events := [Move(s, p, o)] + rest;
    }
  }

  // ---------------------------------------------------------------- progress in every run

  /** In every run, a command that is neither done nor failed and finds the lease free, or holds it, succeeds by
      its own steps alone and leaves an index; when the index was missing they commit exactly one scan, stamped
      with HEAD unless HEAD was read before. */
  lemma CommandSucceeds(s: State, before: seq<Event>, p: nat, o: Substrate) returns (events: seq<Event>, t: State)
    requires Init(s) && Run(s, before).Some? && MayRun(Run(s, before).value, p)
    ensures var m := Run(s, before).value;
            && Run(s, before + events) == Some(t) && Finished(m, events, t, p, o)
            && (m.index == None ==> Commits(events) == 1 && t.index == Some(RowOf(m, p, o)))
  {
    RunReachable(s, before);
    events, t := CanFinish(Run(s, before).value, p, o);
    RunAppend(s, before, events);
  }

  lemma HolderMayRun(s: State)
    requires Reachable(s) && s.lease.Some?
    ensures MayRun(s, s.lease.value)
  {
    var head0: nat :| Inv(s, head0);
    assert Holding(s.commands[s.lease.value].pc);
  }

  /** The holder of the lease goes first. */
  lemma HolderGivesWay(s: State, before: seq<Event>, p: nat, o: Substrate) returns (events: seq<Event>, t: State)
    requires Init(s) && Run(s, before).Some? && Live(Run(s, before).value, p) && !MayRun(Run(s, before).value, p)
    ensures Run(s, before + events) == Some(t) && MayRun(t, p)
    ensures forall e :: e in events ==> e.Advance? || e.Finish?
  {
    var m := Run(s, before).value;
    RunReachable(s, before);
    HolderMayRun(m);
    events, t := CommandSucceeds(s, before, m.lease.value, o);
  }

  /** No command is ever stuck: in every run, a command that is neither done nor failed succeeds after steps of
      its own and, when another holds the lease, of that one, with no failure, no edit and no new command. */
  lemma NobodyIsStuck(s: State, before: seq<Event>, p: nat, o: Substrate) returns (events: seq<Event>, t: State)
    requires Init(s) && Run(s, before).Some? && Live(Run(s, before).value, p)
    ensures Run(s, before + events) == Some(t) && p in t.commands && t.commands[p].pc.Done? && t.index.Some?
    ensures forall e :: e in events ==> e.Advance? || e.Finish?
  {
    if MayRun(Run(s, before).value, p) {
      events, t := CommandSucceeds(s, before, p, o);
    } else {
      var first, u := HolderGivesWay(s, before, p, o);
      var rest;
      rest, t := CommandSucceeds(s, before + first, p, o);
      events := first + rest;
      InParts(before, first, rest);
    }
  }

  lemma InParts(a: seq<Event>, b: seq<Event>, c: seq<Event>)
    ensures a + (b + c) == a + b + c
  {
  }

  /** The state behind a command that ran alone. */
  function After(s: State, p: nat, kind: Kind, o: Substrate): State
    requires s.history != []
  {
    var n := |s.history| - 1;
    var done := s.(commands := s.commands[p := Command(kind, Done, n)]);
    if !Needs(s, kind) then done
    else
      done.(index := Some(Row(Mark(s.history[n], n), n, o)),
            autoScans := s.autoScans + One(kind == Auto), taskScans := s.taskScans + One(kind == Task),
            unreadyScans := s.unreadyScans + One(o.sourceContexts > 0 && o.manifestFiles == 0))
  }

  /** In every run, a command that begins while the lease is free and that nobody disturbs scans exactly when it
      needs to; the index is then stamped with HEAD, and all else is as it was. */
  lemma AloneScansExactly(s: State, before: seq<Event>, p: nat, kind: Kind, o: Substrate) returns (events: seq<Event>)
    requires Init(s) && Run(s, before).Some?
    requires p !in Run(s, before).value.commands && Run(s, before).value.lease == None
    ensures Solo(p, events) && Commits(events) == One(Needs(Run(s, before).value, kind))
    ensures Run(s, before + [Begin(p, kind)] + events) == Some(After(Run(s, before).value, p, kind, o))
  {
    var m := Run(s, before).value;
    var begun := before + [Begin(p, kind)];
    assert begun[..|before|] == before;
    var t;
    events, t := CommandSucceeds(s, begun, p, o);
    AfterBegin(m, Next(m, Begin(p, kind)).value, events, t, p, kind, o);
  }

  lemma AfterBegin(m: State, u: State, events: seq<Event>, t: State, p: nat, kind: Kind, o: Substrate)
    requires m.history != [] && m.lease == None && p !in m.commands && Next(m, Begin(p, kind)) == Some(u)
    requires Finished(u, events, t, p, o)
    ensures t == After(m, p, kind, o) && Commits(events) == One(Needs(m, kind))
  {
    assert SeesIndex(u, p);
    assert t.commands == m.commands[p := Command(kind, Done, |m.history| - 1)];
  }
}
