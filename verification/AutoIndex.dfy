/** The auto-index protocol. */
module AutoIndex {
  // One repository (refresh.go, freshness.go, index_writer.go, scan.go): many commands check the index, queue on
  // one writer lease, check again under the lease and scan, while the repository moves. One step is one read or
  // one write of shared state, so every interleaving is a list of events.

  import opened Options

  type Commit = int

  /** A commit id as it was read, with the position in the history it was read at. The commands store and
      compare only the id; the position says which state of the repository is meant. */
  datatype Mark = Mark(commit: Commit, position: nat)

  /** What a scan left for task commands: the source-context artifacts and the files of the source manifest. */
  datatype Substrate = Substrate(sourceContexts: nat, manifestFiles: nat)

  /** The indexed repository row: the HEAD it is stamped with, the position at which reading files began,
      and the task substrate. */
  datatype Row = Row(stamp: Mark, content: nat, substrate: Substrate)

  /** A command that needs an index, a task command that also needs the substrate, or an explicit scan. */
  datatype Kind = Auto | Task | Explicit

  datatype Pc =
    | FirstRead | FirstCompare(seen: Mark) | FirstReady
    | Waiting
    | SecondRead | SecondCompare(seen: Mark) | SecondReady
    | Scanning | FilesRead(content: nat) | HeadRead(content: nat, stamp: Mark)
    | Releasing
    | Done | Failed

  datatype Command = Command(kind: Kind, pc: Pc, startedAt: nat)

  datatype State = State(history: seq<Commit>, index: Option<Row>, lease: Option<nat>, commands: map<nat, Command>,
                         autoScans: nat, taskScans: nat, unreadyScans: nat)

  /** A command begins, takes its next step, commits its scan with some outcome, or fails; or HEAD moves. */
  datatype Event =
    Begin(p: nat, kind: Kind) | Advance(p: nat) | Finish(p: nat, substrate: Substrate)
    | Fail(p: nat) | Edit(commit: Commit)

  predicate Holding(pc: Pc) {
    pc.SecondRead? || pc.SecondCompare? || pc.SecondReady? || pc.Scanning? || pc.FilesRead? || pc.HeadRead?
        || pc.Releasing?
  }

  function Head(s: State): Mark
    requires s.history != []
  {
    Mark(s.history[|s.history| - 1], |s.history| - 1)
  }

  function Goto(s: State, p: nat, pc: Pc): State
    requires p in s.commands
  {
    s.(commands := s.commands[p := s.commands[p].(pc := pc)])
  }

  /** Either there is nothing that needs a manifest, or the manifest has rows. */
  predicate Ready(substrate: Substrate) {
    substrate.sourceContexts == 0 || substrate.manifestFiles > 0
  }

  predicate SubstrateReady(s: State) {
    s.index.Some? && Ready(s.index.value.substrate)
  }

  /** The next step of command p, or None when it is finished, blocked on the lease, or about to commit. */
  function AdvanceOne(s: State, p: nat): Option<State>
    requires s.history != [] && p in s.commands
  {
    var c := s.commands[p];
    match c.pc
    case FirstRead => Some(Goto(s, p, if s.index.Some? then FirstCompare(s.index.value.stamp) else Waiting))
    case FirstCompare(seen) =>
      Some(Goto(s, p, if seen.commit != Head(s).commit then Waiting else if c.kind.Task? then FirstReady else Done))
    case FirstReady => Some(Goto(s, p, if SubstrateReady(s) then Done else Waiting))
    case Waiting =>
      if s.lease.Some? then None
      else Some(Goto(s, p, if c.kind.Explicit? then Scanning else SecondRead).(lease := Some(p)))
    case SecondRead => Some(Goto(s, p, if s.index.Some? then SecondCompare(s.index.value.stamp) else Scanning))
    case SecondCompare(seen) =>
      Some(Goto(s, p, if seen.commit != Head(s).commit then Scanning
                      else if c.kind.Task? then SecondReady else Releasing))
    case SecondReady => Some(Goto(s, p, if SubstrateReady(s) then Releasing else Scanning))
    case Scanning => Some(Goto(s, p, FilesRead(|s.history| - 1)))
    case FilesRead(content) => Some(Goto(s, p, HeadRead(content, Head(s))))
    case HeadRead(_, _) => None
    case Releasing => Some(Goto(s, p, Done).(lease := None))
    case Done => None
    case Failed => None
  }

  function One(b: bool): nat {
    if b then 1 else 0
  }

  /** The scan's transaction commits; what it left for task commands depends on the files it saw. */
  function FinishOne(s: State, p: nat, substrate: Substrate): Option<State>
    requires p in s.commands
  {
    var c := s.commands[p];
    if !c.pc.HeadRead? then None
    else
      Some(Goto(s, p, Releasing).(index := Some(Row(c.pc.stamp, c.pc.content, substrate)),
                                  autoScans := s.autoScans + One(c.kind.Auto?),
                                  taskScans := s.taskScans + One(c.kind.Task?),
                                  unreadyScans := s.unreadyScans + One(!Ready(substrate))))
  }

  /** A command may fail or be killed anywhere before it finishes; the lease goes with it. */
  function FailOne(s: State, p: nat): Option<State>
    requires p in s.commands
  {
    var pc := s.commands[p].pc;
    if pc.Done? || pc.Failed? then None
    else Some(Goto(s, p, Failed).(lease := if Holding(pc) then None else s.lease))
  }

  function Next(s: State, e: Event): Option<State>
    requires s.history != []
  {
    match e
    case Begin(p, kind) =>
      if p in s.commands then None
      else
        var pc := if kind.Explicit? then Waiting else FirstRead;
        Some(s.(commands := s.commands[p := Command(kind, pc, |s.history| - 1)]))
    case Advance(p) => if p in s.commands then AdvanceOne(s, p) else None
    case Finish(p, substrate) => if p in s.commands then FinishOne(s, p, substrate) else None
    case Fail(p) => if p in s.commands then FailOne(s, p) else None
    case Edit(commit) => if commit == Head(s).commit then None else Some(s.(history := s.history + [commit]))
  }

  /** The state after a list of events; None when one of them was not possible. */
  function Run(s: State, events: seq<Event>): (r: Option<State>)
    requires s.history != []
    ensures r.Some? ==> r.value.history != []
  {
    if events == [] then Some(s)
    else
      match Run(s, events[..|events| - 1])
      case None => None
      case Some(m) => Next(m, events[|events| - 1])
  }

  predicate Init(s: State) {
    && s.history != [] && s.lease == None && s.commands == map[]
    && s.autoScans == 0 && s.taskScans == 0 && s.unreadyScans == 0
    && (s.index.Some? ==> RowOk(s, s.index.value))
  }

  predicate MarkOk(s: State, m: Mark) {
    m.position < |s.history| && s.history[m.position] == m.commit
  }

  predicate RowOk(s: State, row: Row) {
    MarkOk(s, row.stamp) && row.content <= row.stamp.position
  }

  // ---------------------------------------------------------------- what every step keeps

  /** Why a command of this kind scans: the index is missing or stamped before the given position; a task
      command also scans when the substrate is not ready, an explicit scan always does. */
  predicate Due(kind: Kind, index: Option<Row>, position: nat) {
    index.None? || index.value.stamp.position < position || kind.Explicit?
        || (kind.Task? && !Ready(index.value.substrate))
  }

  predicate NotAfter(index: Option<Row>, position: nat) {
    index.Some? ==> index.value.stamp.position <= position
  }

  ghost predicate CommandOk(s: State, head0: nat, c: Command)
    requires s.history != []
  {
    var head := |s.history| - 1;
    && c.startedAt <= head
    && match c.pc
       case FirstCompare(seen) => MarkOk(s, seen) && s.index.Some? && seen.position <= s.index.value.stamp.position
       case SecondCompare(seen) => s.index.Some? && s.index.value.stamp == seen
       case SecondReady => s.index.Some? && c.kind.Task?
       case Scanning => Due(c.kind, s.index, head)
       case FilesRead(content) => content <= head && Due(c.kind, s.index, head)
       case HeadRead(content, stamp) =>
         && content <= stamp.position && MarkOk(s, stamp) && head0 <= stamp.position && c.startedAt <= stamp.position
         && NotAfter(s.index, stamp.position) && Due(c.kind, s.index, stamp.position)
       case _ => true
  }

  ghost predicate LeaseOk(s: State) {
    && (forall p :: p in s.commands ==> (Holding(s.commands[p].pc) <==> s.lease == Some(p)))
    && (s.lease.Some? ==> s.lease.value in s.commands)
  }

  /** Each automatic scan moved the stamp; each task scan moved it too, or followed a scan that left the
      substrate unready. */
  predicate ScansOk(s: State, head0: nat) {
    && (s.autoScans > 0 ==> s.index.Some? && head0 + s.autoScans <= s.index.value.stamp.position + 1)
    && (s.autoScans + s.taskScans > 0 ==>
          s.index.Some?
          && head0 + s.autoScans + s.taskScans + One(!Ready(s.index.value.substrate))
             <= s.index.value.stamp.position + s.unreadyScans + 1)
  }

  ghost predicate Inv(s: State, head0: nat) {
    && head0 < |s.history|
    && (s.index.Some? ==> RowOk(s, s.index.value))
    && LeaseOk(s)
    && (forall p :: p in s.commands ==> CommandOk(s, head0, s.commands[p]))
    && ScansOk(s, head0)
  }

  lemma EditKeepsInv(s: State, head0: nat, commit: Commit)
    requires Inv(s, head0)
    ensures Inv(s.(history := s.history + [commit]), head0)
  {
    var s' := s.(history := s.history + [commit]);
    forall m: Mark | MarkOk(s, m) ensures MarkOk(s', m) {}
    forall p | p in s'.commands ensures CommandOk(s', head0, s'.commands[p]) {
      assert CommandOk(s, head0, s.commands[p]);
    }
  }

  /** An advance changes its command and perhaps the lease, and nothing else. */
  ghost predicate OnlyCommand(s: State, s': State, p: nat) {
    && s'.history == s.history && s'.index == s.index
    && s'.autoScans == s.autoScans && s'.taskScans == s.taskScans && s'.unreadyScans == s.unreadyScans
    && p in s'.commands && s'.commands == s.commands[p := s'.commands[p]]
  }

  /** Steps that change neither the index nor the history only have to be checked at the command itself. */
  lemma LocalKeepsInv(s: State, s': State, head0: nat, p: nat)
    requires Inv(s, head0) && OnlyCommand(s, s', p)
    requires CommandOk(s', head0, s'.commands[p]) && LeaseOk(s')
    ensures Inv(s', head0)
  {
    forall q | q in s'.commands ensures CommandOk(s', head0, s'.commands[q]) {
      if q != p {
        assert CommandOk(s, head0, s.commands[q]);
      }
    }
  }

  lemma AdvanceKeepsLease(s: State, head0: nat, p: nat)
    requires Inv(s, head0) && p in s.commands && AdvanceOne(s, p).Some?
    ensures LeaseOk(AdvanceOne(s, p).value)
  {
    var s' := AdvanceOne(s, p).value;
    assert Holding(s.commands[p].pc) <==> s.lease == Some(p);
    forall q | q in s'.commands ensures Holding(s'.commands[q].pc) <==> s'.lease == Some(q) {
      if q != p {
        assert Holding(s.commands[q].pc) <==> s.lease == Some(q);
      }
    }
  }

  lemma CommitKeepsLease(s: State, head0: nat, p: nat, substrate: Substrate)
    requires Inv(s, head0) && p in s.commands && s.commands[p].pc.HeadRead?
    ensures LeaseOk(FinishOne(s, p, substrate).value)
  {
    var s' := FinishOne(s, p, substrate).value;
    assert Holding(s.commands[p].pc) <==> s.lease == Some(p);
    forall q | q in s'.commands ensures Holding(s'.commands[q].pc) <==> s'.lease == Some(q) {
      if q != p {
        assert Holding(s.commands[q].pc) <==> s.lease == Some(q);
      }
    }
  }

  lemma CommitKeepsScans(s: State, head0: nat, p: nat, substrate: Substrate)
    requires Inv(s, head0) && p in s.commands && s.commands[p].pc.HeadRead?
    ensures ScansOk(FinishOne(s, p, substrate).value, head0)
  {
    assert CommandOk(s, head0, s.commands[p]);
  }

  lemma CommitKeepsInv(s: State, head0: nat, p: nat, substrate: Substrate)
    requires Inv(s, head0) && p in s.commands && s.commands[p].pc.HeadRead?
    ensures Inv(FinishOne(s, p, substrate).value, head0)
  {
    var s' := FinishOne(s, p, substrate).value;
    CommitKeepsLease(s, head0, p, substrate);
    CommitKeepsScans(s, head0, p, substrate);
    assert CommandOk(s, head0, s.commands[p]) && Holding(s.commands[p].pc) && s.lease == Some(p);
    forall q | q in s'.commands ensures CommandOk(s', head0, s'.commands[q]) {
      if q != p {
        assert CommandOk(s, head0, s.commands[q]);
        assert !Holding(s.commands[q].pc);
      }
    }
  }

  lemma AdvanceKeepsCommand(s: State, head0: nat, p: nat)
    requires Inv(s, head0) && p in s.commands && AdvanceOne(s, p).Some?
    ensures CommandOk(AdvanceOne(s, p).value, head0, AdvanceOne(s, p).value.commands[p])
  {
    assert CommandOk(s, head0, s.commands[p]);
  }

  lemma AdvanceFrames(s: State, p: nat)
    requires s.history != [] && p in s.commands && AdvanceOne(s, p).Some?
    ensures OnlyCommand(s, AdvanceOne(s, p).value, p)
  {
  }

  lemma AdvanceKeepsInv(s: State, head0: nat, p: nat)
    requires Inv(s, head0) && p in s.commands && AdvanceOne(s, p).Some?
    ensures Inv(AdvanceOne(s, p).value, head0)
  {
    AdvanceFrames(s, p);
    AdvanceKeepsLease(s, head0, p);
    AdvanceKeepsCommand(s, head0, p);
    LocalKeepsInv(s, AdvanceOne(s, p).value, head0, p);
  }

  lemma FailKeepsInv(s: State, head0: nat, p: nat)
    requires Inv(s, head0) && p in s.commands && FailOne(s, p).Some?
    ensures Inv(FailOne(s, p).value, head0)
  {
    var s' := FailOne(s, p).value;
    assert CommandOk(s, head0, s.commands[p]);
    forall q | q in s'.commands ensures Holding(s'.commands[q].pc) <==> s'.lease == Some(q) {
      assert Holding(s.commands[q].pc) <==> s.lease == Some(q);
    }
    LocalKeepsInv(s, s', head0, p);
  }

  lemma BeginKeepsInv(s: State, head0: nat, p: nat, kind: Kind)
    requires Inv(s, head0) && p !in s.commands
    ensures Inv(Next(s, Begin(p, kind)).value, head0)
  {
    var s' := Next(s, Begin(p, kind)).value;
    forall q | q in s'.commands ensures Holding(s'.commands[q].pc) <==> s'.lease == Some(q) {
      if q != p {
        assert Holding(s.commands[q].pc) <==> s.lease == Some(q);
      }
    }
    LocalKeepsInv(s, s', head0, p);
  }

  lemma NextKeepsInv(s: State, head0: nat, e: Event)
    requires Inv(s, head0) && Next(s, e).Some?
    ensures Inv(Next(s, e).value, head0)
  {
    match e
    case Begin(p, kind) => BeginKeepsInv(s, head0, p, kind);
    case Advance(p) => AdvanceKeepsInv(s, head0, p);
    case Finish(p, substrate) => CommitKeepsInv(s, head0, p, substrate);
    case Fail(p) => FailKeepsInv(s, head0, p);
    case Edit(commit) => EditKeepsInv(s, head0, commit);
  }

  lemma {:induction false} RunKeepsInv(s: State, events: seq<Event>)
    requires Init(s) && Run(s, events).Some?
    ensures Inv(Run(s, events).value, |s.history| - 1)
  {
    if events != [] {
      RunKeepsInv(s, events[..|events| - 1]);
      NextKeepsInv(Run(s, events[..|events| - 1]).value, |s.history| - 1, events[|events| - 1]);
    }
  }

  // ---------------------------------------------------------------- safety over every run

  /** At most one command is between acquiring and releasing the lease. */
  lemma LeaseExcludes(s: State, events: seq<Event>, p: nat, q: nat)
    requires Init(s) && Run(s, events).Some?
    requires var t := Run(s, events).value;
             p in t.commands && q in t.commands && Holding(t.commands[p].pc) && Holding(t.commands[q].pc)
    ensures p == q
  {
    RunKeepsInv(s, events);
  }

  /** In every run, one more event never moves the index back, and only a scan that was due commits: an
      automatic command's scan puts the index strictly forward unless there was none, a task command's scan
      may instead find the substrate unready; the new stamp is at or after the moment the command began. */
  lemma ScansAdvance(s: State, events: seq<Event>, e: Event)
    requires Init(s) && Run(s, events).Some? && Next(Run(s, events).value, e).Some?
    ensures var before := Run(s, events).value; var after := Next(before, e).value;
            && (before.index.Some? ==>
                  && after.index.Some?
                  && before.index.value.stamp.position <= after.index.value.stamp.position < |after.history|)
            && (after.index != before.index
                || after.autoScans + after.taskScans > before.autoScans + before.taskScans ==>
                  && e.Finish? && e.p in before.commands && after.index.Some?
                  && Due(before.commands[e.p].kind, before.index, after.index.value.stamp.position)
                  && before.commands[e.p].startedAt <= after.index.value.stamp.position)
  {
    RunKeepsInv(s, events);
    var before := Run(s, events).value;
    NextKeepsInv(before, |s.history| - 1, e);
    if e.Finish? {
      assert CommandOk(before, |s.history| - 1, before.commands[e.p]);
    }
  }

  /** However many commands queue, and whatever task commands and explicit scans do, the automatic scans of
      a run number at most its edits plus one. */
  lemma ScansBounded(s: State, events: seq<Event>)
    requires Init(s) && Run(s, events).Some?
    ensures var t := Run(s, events).value; t.autoScans <= |t.history| - |s.history| + 1
  {
    RunKeepsInv(s, events);
  }

  /** With task commands each scan that leaves the substrate unready may cost one scan more. */
  lemma TaskScansBounded(s: State, events: seq<Event>)
    requires Init(s) && Run(s, events).Some?
    ensures var t := Run(s, events).value; t.autoScans + t.taskScans <= |t.history| - |s.history| + 1 + t.unreadyScans
  {
    RunKeepsInv(s, events);
  }

  /** The scans of these events have outcomes that are allowed. */
  ghost predicate Outcomes(allowed: Substrate -> bool, events: seq<Event>) {
    forall e :: e in events && e.Finish? ==> allowed(e.substrate)
  }

  lemma {:induction false} NoneUnready(allowed: Substrate -> bool, s: State, events: seq<Event>)
    requires s.history != [] && Run(s, events).Some? && Outcomes(allowed, events) && s.unreadyScans == 0
    requires forall o :: allowed(o) ==> Ready(o)
    ensures Run(s, events).value.unreadyScans == 0
  {
    if events != [] {
      var n := |events| - 1;
      assert events[n] in events && forall e :: e in events[..n] ==> e in events;
      NoneUnready(allowed, s, events[..n]);
    }
  }

  // ---------------------------------------------------------------- success means an index as new as the start

  /** No state of the repository comes back: all commits of the history differ. */
  ghost predicate NoReturn(history: seq<Commit>) {
    forall i, j :: 0 <= i < j < |history| ==> history[i] != history[j]
  }

  /** Where a command is once it has decided that it may report success. */
  predicate Decided(pc: Pc) {
    pc.FirstReady? || pc.SecondReady? || pc.Releasing? || pc.Done?
  }

  ghost predicate Served(s: State) {
    forall p :: p in s.commands && Decided(s.commands[p].pc)
                ==> s.index.Some? && s.commands[p].startedAt <= s.index.value.stamp.position
  }

  lemma NoReturnPosition(s: State, m: Mark)
    requires s.history != [] && NoReturn(s.history) && MarkOk(s, m) && m.commit == Head(s).commit
    ensures m.position == |s.history| - 1
  {
  }

  lemma NextServes(s: State, head0: nat, e: Event)
    requires Inv(s, head0) && Served(s) && NoReturn(s.history) && Next(s, e).Some?
    ensures Served(Next(s, e).value)
  {
    var s' := Next(s, e).value;
    forall q | q in s'.commands && Decided(s'.commands[q].pc)
      ensures s'.index.Some? && s'.commands[q].startedAt <= s'.index.value.stamp.position
    {
      assert q in s.commands && CommandOk(s, head0, s.commands[q]);
      if e.Finish? {
        assert CommandOk(s, head0, s.commands[e.p]);
      }
      if e.Advance? {
        assert CommandOk(s, head0, s.commands[e.p]);
        var pc := s.commands[e.p].pc;
        if (pc.FirstCompare? || pc.SecondCompare?) && pc.seen.commit == Head(s).commit {
          NoReturnPosition(s, pc.seen);
        }
      }
    }
  }

  lemma NoReturnPrefix(few: seq<Commit>, history: seq<Commit>)
    requires few <= history && NoReturn(history)
    ensures NoReturn(few)
  {
    forall i, j | 0 <= i < j < |few| ensures few[i] != few[j] {
      assert few[i] == history[i] && few[j] == history[j];
    }
  }

  lemma {:induction false} RunServes(s: State, events: seq<Event>)
    requires Init(s) && Run(s, events).Some? && NoReturn(Run(s, events).value.history)
    ensures Served(Run(s, events).value)
  {
    if events != [] {
      var before := Run(s, events[..|events| - 1]).value;
      assert before.history <= Run(s, events).value.history;
      NoReturnPrefix(before.history, Run(s, events).value.history);
      RunServes(s, events[..|events| - 1]);
      RunKeepsInv(s, events[..|events| - 1]);
      NextServes(before, |s.history| - 1, events[|events| - 1]);
    }
  }

  /** The commit the index is stamped with is one that HEAD had when the command began or later. */
  ghost predicate AsNewAs(s: State, startedAt: nat) {
    s.index.Some? && exists k :: startedAt <= k < |s.history| && s.history[k] == s.index.value.stamp.commit
  }

  ghost predicate Fresh(s: State) {
    forall p :: p in s.commands && s.commands[p].pc.Done? ==> AsNewAs(s, s.commands[p].startedAt)
  }

  /** Every run in which the repository went through this history ends with an index as new as the start of
      every command that reported success. */
  ghost predicate AlwaysFresh(history: seq<Commit>) {
    forall s, events :: Init(s) && Run(s, events).Some? && Run(s, events).value.history == history
        ==> Fresh(Run(s, events).value)
  }

  lemma FreshWithoutReturn(history: seq<Commit>)
    requires NoReturn(history)
    ensures AlwaysFresh(history)
  {
    forall s, events | Init(s) && Run(s, events).Some? && Run(s, events).value.history == history
      ensures Fresh(Run(s, events).value)
    {
      RunServes(s, events);
      RunKeepsInv(s, events);
      var t := Run(s, events).value;
      forall p | p in t.commands && t.commands[p].pc.Done? ensures AsNewAs(t, t.commands[p].startedAt) {
        assert t.history[t.index.value.stamp.position] == t.index.value.stamp.commit;
      }
    }
  }

  // ---------------------------------------------------------------- and exactly when it does not

  /** A state reached from another by events of some kind. */
  ghost predicate Reaches(ok: Event -> bool, s: State, t: State)
    requires s.history != []
  {
    t.history != [] && exists events :: (forall e :: e in events ==> ok(e)) && Run(s, events) == Some(t)
  }

  /** A property of states that every event of some kind keeps, such as being reachable by them. */
  ghost predicate Closed(ok: Event -> bool, r: State -> bool) {
    forall t, e :: ok(e) && r(t) && t.history != [] && Next(t, e).Some? ==> r(Next(t, e).value)
  }

  /** Beginning commands and advancing them is of that kind. */
  ghost predicate Steps(ok: Event -> bool) {
    forall e: Event :: e.Begin? || e.Advance? ==> ok(e)
  }

  lemma ReachesCloses(ok: Event -> bool, s: State)
    requires s.history != []
    ensures Closed(ok, t => Reaches(ok, s, t)) && Reaches(ok, s, s)
  {
    assert Run(s, []) == Some(s);
    forall t: State, e | ok(e) && Reaches(ok, s, t) && Next(t, e).Some? ensures Reaches(ok, s, Next(t, e).value) {
      var events :| (forall e :: e in events ==> ok(e)) && Run(s, events) == Some(t);
      assert (events + [e])[..|events|] == events;
      assert Run(s, events + [e]) == Next(t, e);
      assert forall x :: x in events + [e] ==> x in events || x == e;
    }
  }

  lemma {:induction false} ClosedHolds(ok: Event -> bool, r: State -> bool, s: State, events: seq<Event>)
    requires s.history != [] && Closed(ok, r) && r(s) && (forall e :: e in events ==> ok(e)) && Run(s, events).Some?
    ensures r(Run(s, events).value)
  {
    if events != [] {
      var n := |events| - 1;
      assert events[n] in events && forall e :: e in events[..n] ==> e in events;
      ClosedHolds(ok, r, s, events[..n]);
    }
  }

  lemma Then(ok: Event -> bool, r: State -> bool, t: State, e: Event) returns (u: State)
    requires Closed(ok, r) && ok(e) && r(t) && t.history != [] && Next(t, e).Some?
    ensures Next(t, e) == Some(u) && u.history != [] && r(u)
  {
    u := Next(t, e).value;
  }

  /** HEAD moves at every edit. */
  ghost predicate Moves(history: seq<Commit>) {
    history != [] && forall i, j :: 0 <= i && j == i + 1 < |history| ==> history[i] != history[j]
  }

  lemma {:induction false} Edits(ok: Event -> bool, r: State -> bool, t: State, history: seq<Commit>)
    requires Closed(ok, r) && r(t) && t.history != [] && t.history <= history && Moves(history)
    requires forall e: Event :: e.Edit? ==> ok(e)
    ensures r(t.(history := history))
    decreases |history| - |t.history|
  {
    if t.history == history {
      assert t.(history := history) == t;
    } else {
      var n := |t.history|;
      assert t.history == history[..n] && history[n - 1] != history[n];
      var u := Then(ok, r, t, Edit(history[n]));
      assert u.history == history[..n + 1];
      Edits(ok, r, u, history);
    }
  }

  /** A command that starts on a stale index asks for the lease. */
  lemma AsksForLease(ok: Event -> bool, r: State -> bool, t: State) returns (u: State)
    requires Closed(ok, r) && Steps(ok) && r(t) && t.history != []
    requires t.commands == map[] && t.index.Some? && t.index.value.stamp.commit != Head(t).commit
    ensures r(u) && u == t.(commands := map[0 := Command(Auto, Waiting, |t.history| - 1)])
  {
    u := Then(ok, r, t, Begin(0, Auto));
    u := Then(ok, r, u, Advance(0));
    u := Then(ok, r, u, Advance(0));
  }

  /** A command with the lease that finds the index stale gets as far as having read HEAD for its stamp. */
  lemma ScanReadsHead(ok: Event -> bool, r: State -> bool, t: State) returns (u: State)
    requires Closed(ok, r) && Steps(ok) && r(t) && t.history != []
    requires t.commands.Keys == {0} && t.commands[0].pc.Waiting? && t.commands[0].kind.Auto?
    requires t.lease == None && t.index.Some? && t.index.value.stamp.commit != Head(t).commit
    ensures r(u) && u.history == t.history && u.index == t.index && u.commands.Keys == {0}
    ensures u.commands[0].pc == HeadRead(|t.history| - 1, Head(t))
  {
    u := Then(ok, r, t, Advance(0));
    u := Then(ok, r, u, Advance(0));
    u := Then(ok, r, u, Advance(0));
    assert u.commands[0].pc == Scanning;
    u := Then(ok, r, u, Advance(0));
    u := Then(ok, r, u, Advance(0));
  }

  /** A command that starts while HEAD is at the stamped commit succeeds at once. */
  lemma SucceedsAtOnce(ok: Event -> bool, r: State -> bool, t: State, q: nat) returns (u: State)
    requires Closed(ok, r) && Steps(ok) && r(t) && t.history != [] && q !in t.commands
    requires t.index.Some? && t.index.value.stamp.commit == Head(t).commit
    ensures r(u) && u == t.(commands := t.commands[q := Command(Auto, Done, |t.history| - 1)])
  {
    u := Then(ok, r, t, Begin(q, Auto));
    u := Then(ok, r, u, Advance(q));
    u := Then(ok, r, u, Advance(q));
  }

  /** The last commit of the history that was there before. */
  lemma {:induction false} LastReturn(history: seq<Commit>) returns (i: nat, j: nat)
    requires !NoReturn(history)
    ensures i < j < |history| && history[i] == history[j]
    ensures forall k, m :: 0 <= k <= j < m < |history| ==> history[k] != history[m]
  {
    var n := |history| - 1;
    if k :| 0 <= k < n && history[k] == history[n] {
      i, j := k, n;
    } else {
      i, j := LastReturn(history[..n]);
      assert history[..n][i] == history[i] && history[..n][j] == history[j];
      forall k, m | 0 <= k <= j < m < |history| ensures history[k] != history[m] {
        if m < n {
          assert history[..n][k] == history[k] && history[..n][m] == history[m];
        }
      }
    }
  }

  ghost predicate Any(e: Event) {
    true
  }

  /** An index that a quiet scan of the commit at this position left, with nothing else going on. */
  function Stamped(history: seq<Commit>, substrate: Substrate): State
    requires history != []
  {
    var n := |history| - 1;
    State(history, Some(Row(Mark(history[n], n), n, substrate)), None, map[], 0, 0, 0)
  }

  /** From an index stamped with commit i, a scan that has read HEAD at commit i + 1 and commits after a
      command began at the return of commit i. */
  lemma StaleRun(r: State -> bool, history: seq<Commit>, i: nat, j: nat) returns (t: State)
    requires Closed(Any, r) && Moves(history) && i + 1 < j < |history| && history[i] == history[j]
    requires r(Stamped(history[..i + 1], Substrate(0, 0)))
    ensures r(t) && t.history == history && t.index.Some? && t.index.value.stamp.commit == history[i + 1]
    ensures 1 in t.commands && t.commands[1].pc.Done? && t.commands[1].startedAt == j
  {
    MovesPrefix(history, i + 2);
    MovesPrefix(history, j + 1);
    assert history[i] != history[i + 1];
    t := Stamped(history[..i + 1], Substrate(0, 0));
    Edits(Any, r, t, history[..i + 2]);
    t := AsksForLease(Any, r, t.(history := history[..i + 2]));
    t := ScanReadsHead(Any, r, t);
    assert t.history == history[..i + 2];
    Edits(Any, r, t, history[..j + 1]);
    t := SucceedsAtOnce(Any, r, t.(history := history[..j + 1]), 1);
    t := Then(Any, r, t, Finish(0, Substrate(0, 0)));
    Edits(Any, r, t, history);
    t := t.(history := history);
  }

  lemma StaleAfterReturn(history: seq<Commit>)
    requires Moves(history) && !NoReturn(history)
    ensures !AlwaysFresh(history)
  {
    var i, j := LastReturn(history);
    assert history[i] != history[i + 1];
    var s := Stamped(history[..i + 1], Substrate(0, 0));
    ReachesCloses(Any, s);
    var t := StaleRun(t => Reaches(Any, s, t), history, i, j);
    assert history[i + 1] != history[j];
    assert !AsNewAs(t, t.commands[1].startedAt);
    var events :| Run(s, events) == Some(t);
    assert Init(s) && !Fresh(Run(s, events).value);
  }

  lemma MovesPrefix(history: seq<Commit>, n: nat)
    requires Moves(history) && 0 < n <= |history|
    ensures Moves(history[..n])
  {
  }

  /** A successful command leaves an index as new as the repository was when it began, in every run over a
      history, if and only if the history never returns to an earlier commit. */
  lemma FreshExactly(history: seq<Commit>)
    requires Moves(history)
    ensures AlwaysFresh(history) <==> NoReturn(history)
  {
    if NoReturn(history) {
      FreshWithoutReturn(history);
    } else {
      StaleAfterReturn(history);
    }
  }

  // ---------------------------------------------------------------- how often task commands scan

  /** Every run whose scans have allowed outcomes makes at most one scan more than it has edits. */
  ghost predicate ScansWithinEdits(allowed: Substrate -> bool) {
    forall s, events :: Init(s) && Run(s, events).Some? && Outcomes(allowed, events) ==>
      Run(s, events).value.autoScans + Run(s, events).value.taskScans
      <= |Run(s, events).value.history| - |s.history| + 1
  }

  ghost function Allowing(allowed: Substrate -> bool): Event -> bool {
    (e: Event) => e.Finish? ==> allowed(e.substrate)
  }

  /** A fresh index without a ready substrate sends a task command to the lease, twice checked. */
  lemma TaskAsks(ok: Event -> bool, r: State -> bool, t: State, p: nat) returns (u: State)
    requires Closed(ok, r) && Steps(ok) && r(t) && t.history != [] && p !in t.commands && t.lease == None
    requires t.index.Some? && t.index.value.stamp.commit == Head(t).commit && !SubstrateReady(t)
    ensures r(u) && u == t.(commands := t.commands[p := Command(Task, SecondRead, |t.history| - 1)], lease := Some(p))
  {
    u := Then(ok, r, t, Begin(p, Task));
    u := Then(ok, r, u, Advance(p));
    u := Then(ok, r, u, Advance(p));
    u := Then(ok, r, u, Advance(p));
    u := Then(ok, r, u, Advance(p));
  }

  lemma TaskScans(ok: Event -> bool, r: State -> bool, t: State, p: nat) returns (u: State)
    requires Closed(ok, r) && Steps(ok) && r(t) && t.history != []
    requires p in t.commands && t.commands[p].pc.SecondRead? && t.commands[p].kind.Task?
    requires t.index.Some? && t.index.value.stamp.commit == Head(t).commit && !SubstrateReady(t)
    ensures r(u) && u == Goto(t, p, HeadRead(|t.history| - 1, Head(t)))
  {
    u := Then(ok, r, t, Advance(p));
    u := Then(ok, r, u, Advance(p));
    u := Then(ok, r, u, Advance(p));
    u := Then(ok, r, u, Advance(p));
    u := Then(ok, r, u, Advance(p));
  }

  /** One more task command on the index that an unready scan of HEAD left scans again, to no effect. */
  lemma TaskRescans(ok: Event -> bool, r: State -> bool, t: State, p: nat, o: Substrate) returns (u: State)
    requires Closed(ok, r) && Steps(ok) && ok(Finish(p, o)) && r(t) && t.history != [] && p !in t.commands
             && t.lease == None
    requires t.index == Some(Row(Head(t), |t.history| - 1, o)) && !Ready(o)
    ensures r(u) && u.history == t.history && u.index == t.index && u.lease == None && u.taskScans == t.taskScans + 1
    ensures u.commands.Keys == t.commands.Keys + {p}
  {
    u := TaskAsks(ok, r, t, p);
    u := TaskScans(ok, r, u, p);
    u := Then(ok, r, u, Finish(p, o));
    u := Then(ok, r, u, Advance(p));
  }

  lemma {:induction false} RescansClosed(ok: Event -> bool, r: State -> bool, commit: Commit, o: Substrate, n: nat)
    returns (t: State)
    requires Closed(ok, r) && Steps(ok) && (forall p: nat :: ok(Finish(p, o))) && !Ready(o) && r(Stamped([commit], o))
    ensures r(t) && t.history == [commit] && t.taskScans == n && t.lease == None
            && t.index == Stamped([commit], o).index
    ensures forall p :: p in t.commands ==> p < n
  {
    if n == 0 {
      t := Stamped([commit], o);
    } else {
      var before := RescansClosed(ok, r, commit, o, n - 1);
      t := TaskRescans(ok, r, before, n - 1, o);
      forall p | p in t.commands ensures p < n {
        assert p in t.commands.Keys;
      }
    }
  }

  /** As long as scans leave the substrate unready, task commands scan again and again without an edit. */
  lemma RescansWithoutEdits(allowed: Substrate -> bool, o: Substrate, n: nat) returns (s: State, events: seq<Event>)
    requires allowed(o) && !Ready(o)
    ensures Init(s) && Run(s, events).Some? && Outcomes(allowed, events)
    ensures Run(s, events).value.history == s.history && Run(s, events).value.taskScans == n
  {
    s := Stamped([0], o);
    var ok := Allowing(allowed);
    ReachesCloses(ok, s);
    var t := RescansClosed(ok, t => Reaches(ok, s, t), 0, o, n);
    events :| (forall e :: e in events ==> ok(e)) && Run(s, events) == Some(t);
  }

  /** Automatic and task scans together stay within the edits plus one, in every run, if and only if no scan
      may leave source contexts without a source manifest. */
  lemma TaskScansExactly(allowed: Substrate -> bool)
    ensures ScansWithinEdits(allowed) <==> forall o :: allowed(o) ==> Ready(o)
  {
    if forall o :: allowed(o) ==> Ready(o) {
      forall s, events | Init(s) && Run(s, events).Some? && Outcomes(allowed, events)
        ensures Run(s, events).value.autoScans + Run(s, events).value.taskScans
                <= |Run(s, events).value.history| - |s.history| + 1
      {
        TaskScansBounded(s, events);
        NoneUnready(allowed, s, events);
      }
    } else {
      var o :| allowed(o) && !Ready(o);
      var s, events := RescansWithoutEdits(allowed, o, 2);
      assert Run(s, events).Some?;
    }
  }

  // ---------------------------------------------------------------- what the index contains

  /** No edit of this run falls between a command's start of reading files and its reading HEAD. */
  ghost predicate Quiet(s: State, events: seq<Event>)
    requires s.history != []
  {
    forall n :: 0 <= n < |events| && Run(s, events[..n]).Some? && events[n].Edit?
                ==> var t := Run(s, events[..n]).value; forall p :: p in t.commands ==> !t.commands[p].pc.FilesRead?
  }

  predicate CommandContentOk(pc: Pc, head: int) {
    match pc
    case FilesRead(content) => content == head
    case HeadRead(content, stamp) => content == stamp.position
    case _ => true
  }

  ghost predicate ContentOk(s: State) {
    && (s.index.Some? ==> s.index.value.content == s.index.value.stamp.position)
    && forall p :: p in s.commands ==> CommandContentOk(s.commands[p].pc, |s.history| - 1)
  }

  lemma NextContent(s: State, e: Event)
    requires s.history != [] && Next(s, e).Some? && ContentOk(s)
    requires e.Edit? ==> forall p :: p in s.commands ==> !s.commands[p].pc.FilesRead?
    ensures ContentOk(Next(s, e).value)
  {
    if e.Advance? || e.Finish? {
      assert CommandContentOk(s.commands[e.p].pc, |s.history| - 1);
    }
  }

  lemma {:induction false} QuietRunContent(s: State, events: seq<Event>)
    requires Init(s) && Run(s, events).Some? && Quiet(s, events) && ContentOk(s)
    ensures ContentOk(Run(s, events).value)
  {
    if events != [] {
      var n := |events| - 1;
      forall m | 0 <= m < n ensures events[..n][..m] == events[..m] {}
      assert Quiet(s, events[..n]);
      QuietRunContent(s, events[..n]);
      NextContent(Run(s, events[..n]).value, events[n]);
    }
  }

  /** When no edit falls inside a scan and no commit returns, the files behind a successful answer were all
      read after the command began, or are unchanged since. */
  lemma QuietRunsServeContent(s: State, events: seq<Event>, p: nat)
    requires Init(s) && ContentOk(s) && Run(s, events).Some? && Quiet(s, events)
             && NoReturn(Run(s, events).value.history)
    requires var t := Run(s, events).value; p in t.commands && t.commands[p].pc.Done?
    ensures var t := Run(s, events).value; t.index.Some? && t.commands[p].startedAt <= t.index.value.content
  {
    RunServes(s, events);
    QuietRunContent(s, events);
  }

  ghost predicate NoEdit(e: Event) {
    !e.Edit?
  }

  /** Once an edit has come after the start of reading files, the command stamps the index with the new HEAD. */
  lemma CommitsStale(ok: Event -> bool, r: State -> bool, t: State, p: nat) returns (u: State)
    requires Closed(ok, r) && Steps(ok) && ok(Finish(p, Substrate(0, 0))) && r(t) && t.history != []
    requires p in t.commands && t.commands[p].pc.FilesRead?
    ensures r(u) && u.history == t.history && u.commands.Keys == t.commands.Keys && u.commands[p].pc.Done?
    ensures u.index == Some(Row(Head(t), t.commands[p].pc.content, Substrate(0, 0)))
  {
    u := Then(ok, r, t, Advance(p));
    u := Then(ok, r, u, Finish(p, Substrate(0, 0)));
    u := Then(ok, r, u, Advance(p));
  }

  /** Every command that reported success is answered from files read at or after its start. */
  ghost predicate ContentServed(s: State) {
    forall p :: p in s.commands && s.commands[p].pc.Done?
        ==> s.index.Some? && s.commands[p].startedAt <= s.index.value.content
  }

  lemma StaleContent(t: State, p: nat, q: nat) returns (u: State)
    requires t.history != [] && p in t.commands && q !in t.commands
    requires t.commands[p].pc.FilesRead? && t.commands[p].pc.content < |t.history| - 1
    ensures Reaches(NoEdit, t, u) && !ContentServed(u)
    ensures u.commands.Keys == t.commands.Keys + {q} && u.commands[p].pc.Done? && u.commands[q].pc.Done?
    ensures u.index.Some? && u.index.value.content < u.commands[q].startedAt == u.index.value.stamp.position
  {
    ReachesCloses(NoEdit, t);
    var r := u => Reaches(NoEdit, t, u);
    u := CommitsStale(NoEdit, r, t, p);
    u := SucceedsAtOnce(NoEdit, r, u, q);
    assert u.commands[q].pc.Done?;
  }

  /** An edit that falls between reading files and reading HEAD, in any reachable state, leads without a
      further edit to an index that a later command takes for fresh although its content is older than that
      command's start. */
  lemma EditInsideScanGoesUnseen(s: State, events: seq<Event>, p: nat, q: nat, commit: Commit) returns (u: State)
    requires Init(s) && Run(s, events).Some?
    requires var t := Run(s, events).value;
             && p in t.commands && t.commands[p].pc.FilesRead? && q !in t.commands && commit != Head(t).commit
    ensures Reaches(NoEdit, Next(Run(s, events).value, Edit(commit)).value, u) && q in u.commands
            && u.commands[q].pc.Done?
    ensures u.index.Some? && u.index.value.content < u.commands[q].startedAt == u.index.value.stamp.position
  {
    var t := Run(s, events).value;
    RunKeepsInv(s, events);
    assert CommandOk(t, |s.history| - 1, t.commands[p]);
    u := StaleContent(Next(t, Edit(commit)).value, p, q);
  }

  /** From every moment of the run, as long as HEAD rests from then on, every success is answered from files
      as new as the command. */
  ghost predicate AlwaysServesContent(s: State, events: seq<Event>)
    requires s.history != []
  {
    forall n, t :: 0 <= n <= |events| && Run(s, events[..n]).Some? && Reaches(NoEdit, Run(s, events[..n]).value, t)
        ==> ContentServed(t)
  }

  lemma {:induction false} RunPrefix(s: State, events: seq<Event>, n: nat)
    requires s.history != [] && Run(s, events).Some? && n <= |events|
    ensures Run(s, events[..n]).Some? && Run(s, events[..n]).value.history <= Run(s, events).value.history
  {
    if n == |events| {
      assert events[..n] == events;
    } else {
      assert events[..|events| - 1][..n] == events[..n];
      RunPrefix(s, events[..|events| - 1], n);
    }
  }

  lemma QuietPrefix(s: State, events: seq<Event>, n: nat)
    requires s.history != [] && Quiet(s, events) && n <= |events|
    ensures Quiet(s, events[..n])
  {
    forall m | 0 <= m < n ensures events[..n][..m] == events[..m] && events[..n][m] == events[m] {}
  }

  ghost predicate Sound(s: State, head0: nat, history: seq<Commit>) {
    s.history == history && Inv(s, head0) && Served(s) && ContentOk(s)
  }

  lemma SoundCloses(head0: nat, history: seq<Commit>)
    requires NoReturn(history)
    ensures Closed(NoEdit, t => Sound(t, head0, history))
  {
    forall t: State, e | NoEdit(e) && Sound(t, head0, history) && t.history != [] && Next(t, e).Some?
      ensures Sound(Next(t, e).value, head0, history)
    {
      NextKeepsInv(t, head0, e);
      NextServes(t, head0, e);
      NextContent(t, e);
    }
  }

  lemma QuietServesContent(s: State, events: seq<Event>, n: nat, t: State)
    requires Init(s) && ContentOk(s) && Run(s, events).Some? && Quiet(s, events)
             && NoReturn(Run(s, events).value.history)
    requires n <= |events| && Run(s, events[..n]).Some? && Reaches(NoEdit, Run(s, events[..n]).value, t)
    ensures ContentServed(t)
  {
    var m := Run(s, events[..n]).value;
    RunPrefix(s, events, n);
    NoReturnPrefix(m.history, Run(s, events).value.history);
    QuietPrefix(s, events, n);
    RunKeepsInv(s, events[..n]);
    RunServes(s, events[..n]);
    QuietRunContent(s, events[..n]);
    SoundCloses(|s.history| - 1, m.history);
    var more :| (forall e :: e in more ==> NoEdit(e)) && Run(m, more) == Some(t);
    ClosedHolds(NoEdit, u => Sound(u, |s.history| - 1, m.history), m, more);
  }

  lemma {:induction false} FreshKey(keys: set<nat>) returns (key: nat)
    ensures forall k :: k in keys ==> k < key
    decreases |keys|
  {
    if keys == {} {
      key := 0;
    } else {
      var k :| k in keys;
      var above := FreshKey(keys - {k});
      key := if above > k then above else k + 1;
      forall j | j in keys ensures j < key {
        if j != k {
          assert j in keys - {k};
        }
      }
    }
  }

  lemma EditedPrefix(s: State, events: seq<Event>, n: nat)
    requires s.history != [] && Run(s, events).Some? && n < |events| && events[n].Edit?
    ensures Run(s, events[..n]).Some? && Run(s, events[..n + 1]).Some?
    ensures var m := Run(s, events[..n]).value;
            Run(s, events[..n + 1]).value == m.(history := m.history + [events[n].commit])
  {
    RunPrefix(s, events, n);
    RunPrefix(s, events, n + 1);
    assert events[..n + 1][..n] == events[..n];
  }

  /** A command that reads files holds a position of the history. */
  lemma ReadsWithin(s: State, events: seq<Event>, p: nat)
    requires Init(s) && Run(s, events).Some?
    requires p in Run(s, events).value.commands && Run(s, events).value.commands[p].pc.FilesRead?
    ensures Run(s, events).value.commands[p].pc.content < |Run(s, events).value.history|
  {
    RunKeepsInv(s, events);
    assert CommandOk(Run(s, events).value, |s.history| - 1, Run(s, events).value.commands[p]);
  }

  lemma EditGoesStale(s: State, events: seq<Event>, n: nat, p: nat)
    requires Init(s) && Run(s, events).Some? && n < |events| && events[n].Edit? && Run(s, events[..n]).Some?
    requires p in Run(s, events[..n]).value.commands && Run(s, events[..n]).value.commands[p].pc.FilesRead?
    ensures Run(s, events[..n + 1]).Some?
    ensures exists u :: Reaches(NoEdit, Run(s, events[..n + 1]).value, u) && !ContentServed(u)
  {
    EditedPrefix(s, events, n);
    ReadsWithin(s, events[..n], p);
    var t := Run(s, events[..n + 1]).value;
    var q := FreshKey(t.commands.Keys);
    var u := StaleContent(t, p, q);
  }

  lemma NotQuietGoesStale(s: State, events: seq<Event>)
    requires Init(s) && Run(s, events).Some? && !Quiet(s, events)
    ensures !AlwaysServesContent(s, events)
  {
    var n :| 0 <= n < |events| && Run(s, events[..n]).Some? && events[n].Edit?
             && (exists p :: p in Run(s, events[..n]).value.commands
                             && Run(s, events[..n]).value.commands[p].pc.FilesRead?);
    var p :| p in Run(s, events[..n]).value.commands && Run(s, events[..n]).value.commands[p].pc.FilesRead?;
    EditGoesStale(s, events, n, p);
    assert 0 <= n + 1 <= |events|;
  }

  /** Over a history that never returns, a run serves fresh content at every moment, however its commands go
      on, if and only if none of its edits falls inside a scan. */
  lemma ContentExactly(s: State, events: seq<Event>)
    requires Init(s) && ContentOk(s) && Run(s, events).Some? && NoReturn(Run(s, events).value.history)
    ensures AlwaysServesContent(s, events) <==> Quiet(s, events)
  {
    if Quiet(s, events) {
      forall n, t | 0 <= n <= |events| && Run(s, events[..n]).Some? && Reaches(NoEdit, Run(s, events[..n]).value, t)
        ensures ContentServed(t)
      {
        QuietServesContent(s, events, n, t);
      }
    } else {
      NotQuietGoesStale(s, events);
    }
  }
}
