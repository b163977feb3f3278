/** What the events of a run make of its starts and processes: with what each promise settles,
    in which state each process is, what it holds, and that every remove goes on. */
module ProcessTraces {
  import opened Wrappers
  import opened Processes
  import opened ProcessRuns
  import opened ProcessStarts
  import opened ProcessPromises

  // ---------- With what a promise settles ----------

  /** The restart whose answer the step passes on, if it does. */
  function Awaited(s: Sys, op: Op, c: nat): Option<nat> {
    match op
    case Resume(i, ok, now) =>
      if i >= |s.conts| then None
      else
        (match s.conts[i]
         case InnerCont(d, n) => if d == c then Some(n) else None
         case _ => None)
    case _ => None
  }

  /** What the event says to a start that has not settled: a clean exit and the end of the
      ready callback say yes; a failed spawn, a signal, and an error say no, and so do a ready
      message, a crash and a restart when the id is gone; a restart that has settled says
      what it settled with (`told`). */
  function Says(s: Sys, op: Op, c: nat, told: Option<bool>): Option<bool> {
    if c >= |s.core.calls| then None
    else
      var managed := s.core.Has(s.core.calls[c].id);
      match op
      case ChildExit(d, how) =>
        if d != c || !Listens(s, c) then None
        else (match how case Clean => Some(true) case Signal => Some(false) case Code => None)
      case ChildReady(d) =>
        if d == c && Listens(s, c) && s.core.calls[c].awaitsReady && !managed then Some(false) else None
      case Resume(i, ok, now) =>
        if i >= |s.conts| then None
        else
          (match s.conts[i]
           case SpawnCont(d) => if d == c && !ok then Some(false) else None
           case ErrorCont(d, exit) => if d == c && !(exit && managed) then Some(false) else None
           case DelayCont(d) => if d == c && !managed then Some(false) else None
           case ReadyCont(d) => if d == c then Some(true) else None
           case InnerCont(d, n) => if d == c then told else None
           case _ => None)
      case _ => None
  }

  /** The first thing that the events of the run say to a start. */
  function Answer(pool: seq<Resource>, ops: seq<Op>, c: nat): Option<bool>
    decreases |ops|
  {
    if ops == [] then None
    else
      var before, op := ops[..|ops| - 1], ops[|ops| - 1];
      var earlier, s := Answer(pool, before, c), Run(pool, before);
      if earlier.Some? then earlier
      else Says(s, op, c, match Awaited(s, op, c) case None => None case Some(n) => Answer(pool, before, n))
  }

  function Listed(answer: Option<bool>): seq<bool> {
    match answer
    case None => []
    case Some(b) => [b]
  }

  /** What the restart that the step passes on has settled with. */
  function Told(s: Sys, op: Op, c: nat): Option<bool> {
    match Awaited(s, op, c)
    case None => None
    case Some(n) =>
      if n < |s.core.calls| && s.core.calls[n].resolved != [] then Some(s.core.calls[n].resolved[0]) else None
  }

  /** The call resolves now with what it is told, unless it has settled. */
  ghost predicate Resolves(s: Sys, op: Op, s': Sys, c: nat) {
    && c < |s.core.calls| <= |s'.core.calls|
    && s'.core.calls[c].resolved ==
         if s.core.calls[c].resolved != [] then s.core.calls[c].resolved
         else Listed(Says(s, op, c, Told(s, op, c)))
  }

  lemma SettleResolved(m: Core, d: nat, value: bool, c: nat)
    requires SettledOnce(m) && d < |m.calls| && c < |m.calls|
    ensures var m' := Settle(m, d, value);
            && |m'.calls| == |m.calls|
            && m'.calls[c].resolved == if c == d && m.calls[c].resolved == [] then [value] else m.calls[c].resolved
  {
  }

  lemma SpawnedResolved(m: Core, d: nat, c: nat)
    requires d < |m.calls| && c < |m.calls|
    ensures |Spawned(m, d).calls| == |m.calls| && Spawned(m, d).calls[c].resolved == m.calls[c].resolved
  {
  }

  lemma BegunResolved(m: Core, id: Id, now: int, c: nat)
    requires c < |m.calls|
    ensures var m' := Begin(m, id, true, now).0;
            |m.calls| <= |m'.calls| && m'.calls[c].resolved == m.calls[c].resolved
  {
  }

  lemma StoppedResolved(m: Core, id: Id, ref: nat, c: nat)
    requires ref < |m.records| && c < |m.calls|
    ensures |Terminate(m, ref).calls| == |m.calls| && Terminate(m, ref).calls[c].resolved == m.calls[c].resolved
    ensures Finish(m, id, ref).calls == m.calls
  {
  }

  lemma ResumeResolves(s: Sys, op: Op, c: nat)
    requires Reachable(s) && op.Resume? && c < |s.core.calls|
    ensures Resolves(s, op, Apply(s, op), c)
  {
    hide WellFormed, Settle, SettledOnce, Spawned, Begin, Terminate, Finish;
    AreOk(s);
    var m := s.core;
    if op.i < |s.conts| {
      assert s.conts[op.i] in s.conts;
      match s.conts[op.i]
      case SpawnCont(d) =>
        SettleResolved(m, d, false, c);
        SpawnedResolved(m, d, c);
      case ErrorCont(d, exit) => if d < |m.calls| { SettleResolved(m, d, false, c); }
      case DelayCont(d) =>
        SettleResolved(m, d, false, c);
        BegunResolved(m, m.calls[d].id, op.now, c);
      case ReadyCont(d) => if d < |m.calls| { SettleResolved(m, d, true, c); }
      case InnerCont(d, n) =>
        if d < |m.calls| && m.calls[n].resolved != [] {
          SettleResolved(m, d, m.calls[n].resolved[0], c);
        }
      case StopCont(id, ref, removing) => if ref < |m.records| { StoppedResolved(m, id, ref, c); }
      case RemoveCont(id, ref) => if ref < |m.records| { StoppedResolved(m, id, ref, c); }
    }
  }

  lemma StepResolves(s: Sys, op: Op, c: nat)
    requires Reachable(s) && c < |s.core.calls|
    ensures Resolves(s, op, Apply(s, op), c)
  {
    hide WellFormed, Settle;
    var m := s.core;
    match op
    case DoCleanup(order) => StoppingAllCore(s, order);
    case ChildExit(d, how) =>
      if Listens(s, d) {
        QuietOnce(m, d);
        SettleResolved(Quiet(m, d), d, how == Clean, c);
      }
    case ChildError(d) =>
    case ChildReady(d) =>
      if Listens(s, d) {
        SettleResolved(m, d, false, c);
      }
    case Resume(i, ok, now) => ResumeResolves(s, op, c);
    case _ =>
  }

  lemma QuietOnce(m: Core, c: nat)
    requires SettledOnce(m) && c < |m.calls|
    ensures SettledOnce(Quiet(m, c))
  {
  }

  lemma NewIsOpen(s: Sys, op: Op, c: nat)
    requires |s.core.calls| <= c < |Apply(s, op).core.calls|
    ensures Apply(s, op).core.calls[c].resolved == []
  {
    if op.DoCleanup? {
      StoppingAllCore(s, op.order);
    }
  }

  /** In every interleaving each promise has settled with the first thing that the events of
      the run have said to its start, and is open if they have said nothing. */
  lemma {:induction false} SettlesWithTheFirstAnswer(pool: seq<Resource>, ops: seq<Op>, c: nat)
    ensures c < |Run(pool, ops).core.calls| ==> Run(pool, ops).core.calls[c].resolved == Listed(Answer(pool, ops, c))
    ensures c >= |Run(pool, ops).core.calls| ==> Answer(pool, ops, c) == None
    decreases |ops|
  {
    if ops != [] {
      hide Apply, Says, Reachable, Awaited;
      var before, op := ops[..|ops| - 1], ops[|ops| - 1];
      var s := Run(pool, before);
      RunReachable(pool, before);
      SettlesWithTheFirstAnswer(pool, before, c);
      if Awaited(s, op, c).Some? {
        SettlesWithTheFirstAnswer(pool, before, Awaited(s, op, c).value);
      }
      if c < |s.core.calls| {
        StepResolves(s, op, c);
      } else {
        NothingSaid(s, op, c);
        if c < |Run(pool, ops).core.calls| {
          NewIsOpen(s, op, c);
        }
      }
    }
  }

  lemma NothingSaid(s: Sys, op: Op, c: nat)
    requires c >= |s.core.calls|
    ensures forall told :: Says(s, op, c, told) == None
  {
  }

  /** Created, started, and the spawn fails: the promise settles with false. */
  lemma FailedSpawnExample()
    ensures Run([], [CREATE, START, Resume(0, false, 0)]).core.calls
         == [Call(1, 0, false, false, false, true, [false])]
  {
    hide Run;
    StartedOnce();
    var s := Sys(Core([], map[1 := 0], [Record(1, Starting, 0, false, [], None)],
                      [Call(1, 0, false, false, false, false, [])]), [SpawnCont(0)]);
    assert s.core.calls[0].resolved + [false] == [false];
    RunStep([], [CREATE, START], Resume(0, false, 0), Apply(s, Resume(0, false, 0)));
    assert [CREATE, START] + [Resume(0, false, 0)] == [CREATE, START, Resume(0, false, 0)];
  }

  /** A start is only restarted after a crash of its child: an exit with a code. */
  predicate Restarts(cont: Cont, c: nat) {
    cont == ErrorCont(c, true) || cont == DelayCont(c) || (cont.InnerCont? && cont.call == c)
  }

  ghost predicate Crashed(pool: seq<Resource>, ops: seq<Op>, c: nat) {
    exists k :: 0 <= k < |ops| && ops[k] == ChildExit(c, Code) && Listens(Run(pool, ops[..k]), c)
  }

  lemma RestartsStep(s: Sys, op: Op, cont: Cont, c: nat)
    requires cont in Apply(s, op).conts && Restarts(cont, c) && op != ChildExit(c, Code)
    ensures exists x :: x in s.conts && Restarts(x, c)
  {
    if cont !in s.conts {
      if op.DoCleanup? {
        StoppingAdds(s, op.order, cont);
      } else if op.Resume? && op.i < |s.conts| {
        var x := s.conts[op.i];
        if cont in WithoutAt(s.conts, op.i) {
          InRest(s.conts, op.i, cont);
        } else {
          assert x in s.conts;
        }
      }
    }
  }

  lemma {:induction false} StoppingAdds(s: Sys, ids: seq<Id>, cont: Cont)
    requires cont in StoppingAll(s, ids).conts
    ensures cont in s.conts || cont.StopCont?
  {
    if ids != [] && cont in StoppingAll(s, ids[..|ids| - 1]).conts {
      StoppingAdds(s, ids[..|ids| - 1], cont);
    }
  }

  lemma {:induction false} RestartsOnlyAfterCrash(pool: seq<Resource>, ops: seq<Op>, cont: Cont, c: nat)
    requires cont in Run(pool, ops).conts && Restarts(cont, c)
    ensures Crashed(pool, ops, c)
    decreases |ops|
  {
    hide Apply;
    var before, op := ops[..|ops| - 1], ops[|ops| - 1];
    if op == ChildExit(c, Code) && Listens(Run(pool, before), c) {
      assert ops[|ops| - 1] == ChildExit(c, Code);
    } else {
      var x: Cont;
      if op == ChildExit(c, Code) {
        x := cont;
        NotHeard(Run(pool, before), c);
      } else {
        RestartsStep(Run(pool, before), op, cont, c);
        x :| x in Run(pool, before).conts && Restarts(x, c);
      }
      RestartsOnlyAfterCrash(pool, before, x, c);
      var k :| 0 <= k < |before| && before[k] == ChildExit(c, Code) && Listens(Run(pool, before[..k]), c);
      assert ops[k] == before[k] && ops[..k] == before[..k];
    }
  }

  lemma NotHeard(s: Sys, c: nat)
    requires !Listens(s, c)
    ensures Apply(s, ChildExit(c, Code)) == s
  {
  }

  // ---------- In which state a process is ----------

  /** What is known of a managed process. */
  datatype Mark = Mark(status: Status, startTime: int, timer: bool, resources: seq<Resource>)

  function MarkOf(r: Record): Mark {
    Mark(r.status, r.startTime, r.timer, r.resources)
  }

  /** What a step makes of the process that is managed under `id`. A start, and the restart of
      a start of that id, set it to starting; a ready message heard by one marks it running. */
  function Marked(s: Sys, op: Op, id: Id, m: Mark): Mark {
    match op
    case DoStart(i, force, now) =>
      if i == id && (force || m.status != Running) then m.(status := Starting, startTime := now, timer := false) else m
    case DoSetState(i, status, now) =>
      if i != id then m
      else m.(status := status, startTime := if status == Running then m.startTime else now, timer := false)
    case DoSetTimer(i) => if i == id then m.(timer := true) else m
    case DoClearTimer(i) => if i == id then m.(timer := false) else m
    case ChildReady(c) =>
      if Listens(s, c) && s.core.calls[c].awaitsReady && s.core.calls[c].id == id
      then m.(status := Running, timer := false) else m
    case Resume(i, ok, now) =>
      if i >= |s.conts| then m
      else
        (match s.conts[i]
         case DelayCont(c) =>
           if c < |s.core.calls| && s.core.calls[c].id == id
           then m.(status := Starting, startTime := now, timer := false) else m
         case RemoveCont(_, ref) =>
           if id in s.core.procs && ref == s.core.procs[id] then m.(timer := false) else m
         case _ => m)
    case _ => m
  }

  /** The first `count` resources of a pool, or none for a count that is not positive. */
  function Share(pool: seq<Resource>, count: int): seq<Resource> {
    if count <= 0 then [] else if count <= |pool| then pool[..count] else pool
  }

  /** What the events of the run since its creation make of the process under `id`. */
  function History(pool: seq<Resource>, ops: seq<Op>, id: Id): Mark
    decreases |ops|
  {
    if ops == [] then Mark(Waiting, 0, false, [])
    else
      var before, op := ops[..|ops| - 1], ops[|ops| - 1];
      var s := Run(pool, before);
      if op.DoCreate? && op.id == id && id !in s.core.procs
      then Mark(op.status, op.now, false, Share(s.core.pool, op.count))
      else Marked(s, op, id, History(pool, before, id))
  }

  /** A create succeeds exactly when the id is free and the pool suffices; the new process
      holds the first resources of the pool, which are gone from it, and nothing else changes. */
  lemma CreateTakesExactlyWhen(s: Sys, op: Op)
    requires WellFormed(s) && op.DoCreate?
    ensures var m, m' := s.core, Apply(s, op).core;
            if op.id !in m.procs && (op.count == 0 || op.count <= |m.pool|) then
              && m'.pool == m.pool[|Share(m.pool, op.count)|..] && m'.procs == m.procs[op.id := |m.records|]
              && |m'.records| == |m.records| + 1 && m'.records[..|m.records|] == m.records
              && m'.Has(op.id) && m'.Get(op.id).id == op.id
              && MarkOf(m'.Get(op.id)) == Mark(op.status, op.now, false, Share(m.pool, op.count))
              && m'.calls == m.calls && Apply(s, op).conts == s.conts
            else Apply(s, op) == s
  {
    assert s.core.pool[0..] == s.core.pool;
    assert op.id in s.core.procs ==> s.core.Has(op.id);
  }

  /** The pool changes only by a create that succeeds, which takes from its front, and by the
      end of a remove, which puts the resources of the record it looked up behind it. */
  lemma PoolChangesOnlyBy(s: Sys, op: Op)
    requires WellFormed(s)
    ensures var m, m' := s.core, Apply(s, op).core;
            m'.pool ==
              if op.DoCreate? && op.id !in m.procs && (op.count == 0 || op.count <= |m.pool|)
              then m.pool[|Share(m.pool, op.count)|..]
              else if op.Resume? && op.i < |s.conts| && s.conts[op.i].RemoveCont? && s.conts[op.i].ref < |m.records|
              then m.pool + m.records[s.conts[op.i].ref].resources
              else m.pool
  {
    if op.DoCreate? {
      CreateTakesExactlyWhen(s, op);
    } else if op.DoCleanup? {
      StoppingAllCore(s, op.order);
    }
  }

  lemma MarkStep(s: Sys, op: Op, id: Id)
    requires WellFormed(s) && !op.DoCreate? && id in Apply(s, op).core.procs
    ensures var m, m' := s.core, Apply(s, op).core;
            && id in m.procs && m.Has(id) && m'.Has(id)
            && MarkOf(m'.Get(id)) == Marked(s, op, id, MarkOf(m.Get(id)))
  {
    hide WaitsOk, StartsOk;
    IdsChangeOnlyBy(s, op);
    assert forall i | i in s.core.procs :: s.core.Has(i) && s.core.Get(i).id == i;
    match op
    case DoCleanup(order) => StoppingAllCore(s, order);
    case Resume(i, ok, now) => MarkResume(s, op, id);
    case ChildReady(c) => MarkChild(s, op, id);
    case ChildExit(c, how) => MarkChild(s, op, id);
    case ChildError(c) => MarkChild(s, op, id);
    case _ =>
  }

  lemma MarkChild(s: Sys, op: Op, id: Id)
    requires TableOk(s.core) && (op.ChildExit? || op.ChildError? || op.ChildReady?) && id in s.core.procs
    ensures var m, m' := s.core, Apply(s, op).core;
            m'.Has(id) && m.Has(id) && MarkOf(m'.Get(id)) == Marked(s, op, id, MarkOf(m.Get(id)))
  {
  }

  lemma MarkResume(s: Sys, op: Op, id: Id)
    requires TableOk(s.core) && op.Resume? && id in s.core.procs && id in Apply(s, op).core.procs
    ensures var m, m' := s.core, Apply(s, op).core;
            m'.Has(id) && m.Has(id) && MarkOf(m'.Get(id)) == Marked(s, op, id, MarkOf(m.Get(id)))
  {
    hide Settle, Quiet;
    assert s.core.Has(id);
    if op.i < |s.conts| {
      match s.conts[op.i]
      case SpawnCont(c) => if c < |s.core.calls| { SettleKeepsRecords(s.core, c, false); }
      case ErrorCont(c, exit) => if c < |s.core.calls| { SettleKeepsRecords(s.core, c, false); }
      case DelayCont(c) => if c < |s.core.calls| { SettleKeepsRecords(s.core, c, false); }
      case ReadyCont(c) => if c < |s.core.calls| { SettleKeepsRecords(s.core, c, true); }
      case InnerCont(c, n) =>
        if c < |s.core.calls| && n < |s.core.calls| && s.core.calls[n].resolved != [] {
          SettleKeepsRecords(s.core, c, s.core.calls[n].resolved[0]);
        }
      case StopCont(i, ref, removing) => if ref < |s.core.records| { TerminateKeepsRecords(s.core, ref); }
      case RemoveCont(i, ref) =>
    }
  }

  lemma SettleKeepsRecords(m: Core, c: nat, value: bool)
    requires c < |m.calls|
    ensures Settle(m, c, value).records == m.records && Settle(m, c, value).procs == m.procs
  {
  }

  lemma TerminateKeepsRecords(m: Core, ref: nat)
    requires ref < |m.records|
    ensures Terminate(m, ref).records == m.records && Terminate(m, ref).procs == m.procs
  {
  }

  /** In every interleaving a managed process is what the events since its creation have made
      it: its state and start time, whether a timer is stored, and what it holds. */
  lemma {:induction false} StateFollowsTheRun(pool: seq<Resource>, ops: seq<Op>, id: Id)
    requires id in Run(pool, ops).core.procs
    ensures Run(pool, ops).core.Has(id) && MarkOf(Run(pool, ops).core.Get(id)) == History(pool, ops, id)
    decreases |ops|
  {
    hide WellFormed, Apply, Marked, MarkOf;
    var before, op := ops[..|ops| - 1], ops[|ops| - 1];
    var s := Run(pool, before);
    RunWellFormed(pool, before);
    if op.DoCreate? {
      CreateTakesExactlyWhen(s, op);
      if id in s.core.procs {
        StateFollowsTheRun(pool, before, id);
        CreateKeepsOthers(s, op, id);
      }
    } else {
      MarkStep(s, op, id);
      StateFollowsTheRun(pool, before, id);
    }
  }

  lemma CreateKeepsOthers(s: Sys, op: Op, id: Id)
    requires WellFormed(s) && op.DoCreate? && id in s.core.procs
    ensures var m, m' := s.core, Apply(s, op).core;
            m.Has(id) && m'.Has(id) && m'.Get(id) == m.Get(id) && Marked(s, op, id, MarkOf(m.Get(id))) == MarkOf(m.Get(id))
    ensures forall m: Mark :: Marked(s, op, id, m) == m
  {
  }

  /** In every run, `start` answers at once exactly when the id is not managed, with false, or
      when the process runs already and the start is not forced, with true; otherwise it begins. */
  lemma StartAnswersAtOnceExactlyWhen(pool: seq<Resource>, ops: seq<Op>, id: Id, force: bool, now: int)
    ensures var m := Run(pool, ops).core;
            var (m', answer) := Begin(m, id, force, now);
            if id !in m.procs then m' == m && answer == Some(false)
            else if !force && History(pool, ops, id).status == Running then m' == m && answer == Some(true)
            else answer == None && |m'.calls| == |m.calls| + 1
  {
    hide Run, WellFormed;
    RunWellFormed(pool, ops);
    var m := Run(pool, ops).core;
    if id in m.procs {
      Managed(Run(pool, ops), id);
      StateFollowsTheRun(pool, ops, id);
    }
  }

  // ---------- Removes go on ----------

  /** The step begins to remove `id`. */
  predicate BeginsRemove(op: Op, id: Id) {
    op == DoRemove(id) || (op.DoCleanup? && id in op.order)
  }

  predicate BeingRemovedFrom(s: Sys, id: Id, ref: nat) {
    StopCont(id, ref, true) in s.conts || RemoveCont(id, ref) in s.conts
  }

  /** The step is the end of that remove: the id is managed no longer. */
  predicate EndsRemove(s: Sys, op: Op, id: Id, ref: nat) {
    op.Resume? && op.i < |s.conts| && s.conts[op.i] == RemoveCont(id, ref) && id !in Apply(s, op).core.procs
  }

  lemma {:induction false} StoppingBegins(s: Sys, ids: seq<Id>, id: Id)
    requires s.core.Has(id) && id in ids
    ensures StopCont(id, s.core.procs[id], true) in StoppingAll(s, ids).conts
  {
    var before, last := ids[..|ids| - 1], ids[|ids| - 1];
    StoppingAllCore(s, before);
    if id in before {
      StoppingBegins(s, before, id);
    } else {
      assert ids == before + [last];
      assert last == id;
      var conts := StoppingAll(s, before).conts + [StopCont(id, s.core.procs[id], true)];
      assert conts[|conts| - 1] == StopCont(id, s.core.procs[id], true);
    }
  }

  lemma RemoveBegins(s: Sys, op: Op, id: Id)
    requires s.core.Has(id) && BeginsRemove(op, id)
    ensures BeingRemovedFrom(Apply(s, op), id, s.core.procs[id])
    ensures |Apply(s, op).core.records| == |s.core.records|
  {
    if op.DoCleanup? {
      StoppingBegins(s, op.order, id);
      StoppingAllCore(s, op.order);
    }
  }

  lemma RemoveStep(s: Sys, op: Op, id: Id, ref: nat)
    requires BeingRemovedFrom(s, id, ref) && ref < |s.core.records|
    ensures BeingRemovedFrom(Apply(s, op), id, ref) || EndsRemove(s, op, id, ref)
  {
    var cont := if StopCont(id, ref, true) in s.conts then StopCont(id, ref, true) else RemoveCont(id, ref);
    if op.Resume? && op.i < |s.conts| && s.conts[op.i] == cont {
      if cont.StopCont? {
        var conts := WithoutAt(s.conts, op.i) + [RemoveCont(id, ref)];
        assert conts[|conts| - 1] == RemoveCont(id, ref);
      }
    } else {
      hide Apply;
      OthersWait(s, op, cont);
    }
  }

  /** What a step does not take up waits on. */
  lemma OthersWait(s: Sys, op: Op, cont: Cont)
    requires cont in s.conts && !(op.Resume? && op.i < |s.conts| && s.conts[op.i] == cont)
    ensures cont in Apply(s, op).conts
  {
    if op.DoCleanup? {
      StoppingKeeps(s, op.order, cont);
    } else if op.Resume? && op.i < |s.conts| {
      var j :| 0 <= j < |s.conts| && s.conts[j] == cont;
      assert WithoutAt(s.conts, op.i)[if j < op.i then j else j - 1] == cont;
    }
  }

  ghost predicate Ended(pool: seq<Resource>, ops: seq<Op>, k: nat, id: Id, ref: nat) {
    exists j :: k < j < |ops| && EndsRemove(Run(pool, ops[..j]), ops[j], id, ref)
  }

  /** In every interleaving a remove of a managed process, begun by itself or by a cleanup, is
      in progress until the step at which the id is managed no longer. */
  lemma {:induction false} RemoveGoesOn(pool: seq<Resource>, ops: seq<Op>, k: nat, id: Id)
    requires k < |ops| && BeginsRemove(ops[k], id) && id in Run(pool, ops[..k]).core.procs
    ensures var ref := Run(pool, ops[..k]).core.procs[id];
            BeingRemovedFrom(Run(pool, ops), id, ref) || Ended(pool, ops, k, id, ref)
    ensures Run(pool, ops[..k]).core.procs[id] < |Run(pool, ops).core.records|
    decreases |ops|
  {
    hide Apply, WellFormed, BeingRemovedFrom, EndsRemove;
    var before, op := ops[..|ops| - 1], ops[|ops| - 1];
    var ref := Run(pool, ops[..k]).core.procs[id];
    if k == |before| {
      RunWellFormed(pool, before);
      Managed(Run(pool, before), id);
      RemoveBegins(Run(pool, before), op, id);
    } else {
      assert before[..k] == ops[..k];
      RemoveGoesOn(pool, before, k, id);
      RecordsStay(Run(pool, before), op);
      if Ended(pool, before, k, id, ref) {
        var j :| k < j < |before| && EndsRemove(Run(pool, before[..j]), before[j], id, ref);
        assert before[..j] == ops[..j] && before[j] == ops[j];
      } else {
        RemoveStep(Run(pool, before), op, id, ref);
        if EndsRemove(Run(pool, before), op, id, ref) {
          assert EndsRemove(Run(pool, ops[..|ops| - 1]), ops[|ops| - 1], id, ref);
        }
      }
    }
  }

  lemma Managed(s: Sys, id: Id)
    requires WellFormed(s) && id in s.core.procs
    ensures s.core.Has(id)
  {
  }

  lemma RecordsStay(s: Sys, op: Op)
    ensures |s.core.records| <= |Apply(s, op).core.records|
  {
    if op.DoCleanup? {
      StoppingAllCore(s, op.order);
    }
  }
}
