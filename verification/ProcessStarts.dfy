/** What a start waits for: its child, a continuation that serves it, or nothing, when a
    stop took its child's listeners away before it had settled. */
module ProcessStarts {
  import opened Wrappers
  import opened Processes
  import opened ProcessRuns

  /** The continuation will settle the start, or hand it on. */
  predicate Serves(cont: Cont, c: nat) {
    match cont
    case SpawnCont(d) => d == c
    case ErrorCont(d, _) => d == c
    case DelayCont(d) => d == c
    case ReadyCont(d) => d == c
    case InnerCont(d, _) => d == c
    case _ => false
  }

  ghost predicate Served(conts: seq<Cont>, c: nat) {
    exists cont :: cont in conts && Serves(cont, c)
  }

  /** The start has settled, listens to its child, or is served by what waits. */
  ghost predicate Accounted(s: Sys, c: nat) {
    c < |s.core.calls| && (s.core.calls[c].isResolved || s.core.calls[c].listening || Served(s.conts, c))
  }

  /** A stop, or the stop inside a remove, runs the terminate handler of a start that has
      not settled and only waits for its child. */
  ghost predicate Forsakes(s: Sys, op: Op, c: nat) {
    && op.Resume? && op.i < |s.conts| && s.conts[op.i].StopCont? && s.conts[op.i].ref < |s.core.records|
    && s.core.records[s.conts[op.i].ref].terminator == Some(c)
    && c < |s.core.calls| && !s.core.calls[c].isResolved && !Served(s.conts, c)
  }

  lemma ServedPart(conts: seq<Cont>, i: nat, more: seq<Cont>, c: nat)
    requires i < |conts|
    ensures Served(WithoutAt(conts, i) + more, c) ==> Served(conts, c) || Served(more, c)
    ensures Served(conts, c) && !Serves(conts[i], c) ==> Served(WithoutAt(conts, i) + more, c)
    ensures Served(more, c) ==> Served(WithoutAt(conts, i) + more, c)
  {
    var rest := WithoutAt(conts, i);
    if Served(rest + more, c) {
      var cont :| cont in rest + more && Serves(cont, c);
      AddedIn(rest, more, cont);
      assert cont in rest ==> cont in conts;
    }
    if Served(conts, c) && !Serves(conts[i], c) {
      var cont :| cont in conts && Serves(cont, c);
      var j :| 0 <= j < |conts| && conts[j] == cont;
      assert (rest + more)[if j < i then j else j - 1] == cont;
    }
    if Served(more, c) {
      var cont :| cont in more && Serves(cont, c);
      AddedIn(rest, more, cont);
    }
  }

  lemma ServedMore(conts: seq<Cont>, more: seq<Cont>, c: nat)
    ensures Served(conts + more, c) <==> Served(conts, c) || Served(more, c)
  {
    forall cont ensures cont in conts + more <==> cont in conts || cont in more {
      AddedIn(conts, more, cont);
    }
  }

  lemma ServedOne(cont: Cont, c: nat)
    ensures Served([cont], c) <==> Serves(cont, c)
    ensures !Served([], c)
  {
    assert cont in [cont];
  }

  /** What a step makes of start `c`. */
  ghost predicate Accounts(s: Sys, op: Op, s': Sys, c: nat) {
    c < |s'.core.calls| && (Accounted(s', c) <==> Accounted(s, c) && !Forsakes(s, op, c))
  }

  /** The step leaves the call itself alone, and takes up nothing that serves it. */
  lemma PassesBy(s: Sys, op: Op, i: nat, m': Core, more: seq<Cont>, c: nat)
    requires op.Resume? && op.i == i < |s.conts| && !Forsakes(s, op, c)
    requires c < |s.core.calls| <= |m'.calls| && !Serves(s.conts[i], c) && !Served(more, c)
    requires m'.calls[c].isResolved == s.core.calls[c].isResolved && m'.calls[c].listening == s.core.calls[c].listening
    ensures Accounts(s, op, Sys(m', WithoutAt(s.conts, i) + more), c)
  {
    ServedPart(s.conts, i, more, c);
  }

  /** What served the call is taken up, and the call is settled, heard or served again. */
  lemma TakesUp(s: Sys, op: Op, i: nat, m': Core, more: seq<Cont>, c: nat)
    requires op.Resume? && op.i == i < |s.conts|
    requires c < |s.core.calls| <= |m'.calls| && Serves(s.conts[i], c)
    requires m'.calls[c].isResolved || m'.calls[c].listening || Served(more, c)
    ensures Accounts(s, op, Sys(m', WithoutAt(s.conts, i) + more), c)
  {
    ServedPart(s.conts, i, more, c);
    assert s.conts[i] in s.conts;
  }

  lemma SettleSettles(m: Core, d: nat, value: bool, c: nat)
    requires d < |m.calls| && c < |m.calls|
    ensures var m' := Settle(m, d, value);
            && |m'.calls| == |m.calls|
            && (c == d ==> m'.calls[c].isResolved)
            && (c != d ==> m'.calls[c] == m.calls[c])
  {
  }

  lemma SettledBy(s: Sys, op: Op, i: nat, d: nat, value: bool, c: nat)
    requires op.Resume? && op.i == i < |s.conts| && d < |s.core.calls| && c < |s.core.calls|
    requires !s.conts[i].StopCont? && forall b: nat :: Serves(s.conts[i], b) <==> b == d
    ensures Accounts(s, op, s.(core := Settle(s.core, d, value), conts := WithoutAt(s.conts, i)), c)
  {
    SettleSettles(s.core, d, value, c);
    ServedOne(s.conts[i], c);
    assert WithoutAt(s.conts, i) + [] == WithoutAt(s.conts, i);
    if c == d {
      TakesUp(s, op, i, Settle(s.core, d, value), [], c);
    } else {
      PassesBy(s, op, i, Settle(s.core, d, value), [], c);
    }
  }

  /** The continuation is replaced by one that serves the same start. */
  lemma HandedOn(s: Sys, op: Op, i: nat, d: nat, next: Cont, c: nat)
    requires op.Resume? && op.i == i < |s.conts| && c < |s.core.calls| && !s.conts[i].StopCont?
    requires forall b: nat :: (Serves(s.conts[i], b) <==> b == d) && (Serves(next, b) <==> b == d)
    ensures Accounts(s, op, s.(conts := WithoutAt(s.conts, i) + [next]), c)
  {
    ServedOne(next, c);
    if c == d {
      TakesUp(s, op, i, s.core, [next], c);
    } else {
      PassesBy(s, op, i, s.core, [next], c);
    }
  }

  lemma SpawnAccounts(s: Sys, op: Op, d: nat, c: nat)
    requires op.Resume? && op.i < |s.conts| && s.conts[op.i] == SpawnCont(d)
    requires d < |s.core.calls| && c < |s.core.calls|
    ensures Accounts(s, op, Apply(s, op), c)
  {
    hide Accounts, Accounted, Served;
    if op.ok {
      assert WithoutAt(s.conts, op.i) + [] == WithoutAt(s.conts, op.i);
      ServedOne(s.conts[op.i], c);
      if c == d {
        TakesUp(s, op, op.i, Spawned(s.core, d), [], c);
      } else {
        PassesBy(s, op, op.i, Spawned(s.core, d), [], c);
      }
    } else {
      SettledBy(s, op, op.i, d, false, c);
    }
  }

  lemma DelayAccounts(s: Sys, op: Op, d: nat, c: nat)
    requires op.Resume? && op.i < |s.conts| && s.conts[op.i] == DelayCont(d)
    requires d < |s.core.calls| && c < |s.core.calls|
    ensures Accounts(s, op, Apply(s, op), c)
  {
    hide Accounts, Accounted, Served;
    var m, n, id := s.core, |s.core.calls|, s.core.calls[d].id;
    if m.Has(id) {
      var m', more := Begin(m, id, true, op.now).0, [SpawnCont(n), InnerCont(d, n)];
      assert m'.calls[c] == m.calls[c];
      assert more == [SpawnCont(n)] + [InnerCont(d, n)];
      ServedMore([SpawnCont(n)], [InnerCont(d, n)], c);
      ServedOne(SpawnCont(n), c);
      ServedOne(InnerCont(d, n), c);
      if c == d {
        TakesUp(s, op, op.i, m', more, c);
      } else {
        PassesBy(s, op, op.i, m', more, c);
      }
    } else {
      SettledBy(s, op, op.i, d, false, c);
    }
  }

  lemma StopAccounts(s: Sys, op: Op, c: nat)
    requires WellFormed(s) && op.Resume? && op.i < |s.conts| && s.conts[op.i].StopCont? && c < |s.core.calls|
    ensures Accounts(s, op, Apply(s, op), c)
  {
    hide WellFormed;
    assert StartsOk(s.core) by { Parts(s); AreOk(s); }
    var id, ref, removing := s.conts[op.i].id, s.conts[op.i].ref, s.conts[op.i].removing;
    var more := if removing then [RemoveCont(id, ref)] else [];
    var rest := WithoutAt(s.conts, op.i);
    assert rest + [] == rest;
    ServedOne(RemoveCont(id, ref), c);
    ServedPart(s.conts, op.i, more, c);
    ServedPart(s.conts, op.i, [], c);
    if ref < |s.core.records| && s.core.records[ref].terminator == Some(c) {
      assert HasChild(s.core, s.core.records[ref].terminator.value);
      assert !Terminate(s.core, ref).calls[c].listening;
    } else if ref < |s.core.records| {
      assert Terminate(s.core, ref).calls[c] == s.core.calls[c];
    }
  }

  lemma AreOk(s: Sys)
    requires WellFormed(s)
    ensures StartsOk(s.core) && WaitsOk(s)
  {
  }

  lemma ResumeAccounts(s: Sys, op: Op, c: nat)
    requires WellFormed(s) && op.Resume? && op.i < |s.conts| && c < |s.core.calls|
    ensures Accounts(s, op, Apply(s, op), c)
  {
    hide Accounts, Accounted, Served, WellFormed, Settle, Spawned, Begin, Terminate;
    AreOk(s);
    var m, i, cont := s.core, op.i, s.conts[op.i];
    assert cont in s.conts;
    match cont
    case SpawnCont(d) => SpawnAccounts(s, op, d, c);
    case ErrorCont(d, exit) =>
      if d >= |m.calls| {
        Unused(s, op, c);
      } else if m.Has(m.calls[d].id) && exit {
        HandedOn(s, op, i, d, DelayCont(d), c);
      } else {
        SettledBy(s, op, i, d, false, c);
      }
    case DelayCont(d) => DelayAccounts(s, op, d, c);
    case ReadyCont(d) =>
      if d >= |m.calls| {
        Unused(s, op, c);
      } else {
        SettledBy(s, op, i, d, true, c);
      }
    case InnerCont(d, inner) =>
      if d >= |m.calls| {
        Unused(s, op, c);
      } else if m.calls[inner].resolved == [] {
        HandedOn(s, op, i, d, cont, c);
      } else {
        SettledBy(s, op, i, d, m.calls[inner].resolved[0], c);
      }
    case StopCont(_, _, _) => StopAccounts(s, op, c);
    case RemoveCont(id, ref) => Unused(s, op, c);
  }

  /** A continuation that serves no start there is. */
  lemma Unused(s: Sys, op: Op, c: nat)
    requires op.Resume? && op.i < |s.conts| && c < |s.core.calls|
    requires Apply(s, op).core.calls == s.core.calls && Apply(s, op).conts == WithoutAt(s.conts, op.i)
    requires !Serves(s.conts[op.i], c) && !s.conts[op.i].StopCont?
    ensures Accounts(s, op, Apply(s, op), c)
  {
    hide Apply, Accounts, Accounted, Served;
    var rest := WithoutAt(s.conts, op.i);
    ServedOne(s.conts[op.i], c);
    assert rest + [] == rest;
    PassesBy(s, op, op.i, Apply(s, op).core, [], c);
    assert Apply(s, op) == Sys(Apply(s, op).core, rest);
  }

  /** A step that is no resumption: more waits, and the call keeps what it had or is
      served instead. */
  lemma Continued(s: Sys, op: Op, m': Core, more: seq<Cont>, c: nat)
    requires !op.Resume? && c < |s.core.calls| <= |m'.calls|
    requires if m'.calls[c] == s.core.calls[c] then !Served(more, c)
             else s.core.calls[c].listening && (m'.calls[c].isResolved || m'.calls[c].listening || Served(more, c))
    ensures Accounts(s, op, Sys(m', s.conts + more), c)
  {
    ServedMore(s.conts, more, c);
  }

  lemma ChildAccounts(s: Sys, op: Op, d: nat, c: nat)
    requires WellFormed(s) && c < |s.core.calls| && Listens(s, d)
    requires op == ChildError(d) || op == ChildReady(d) || (op.ChildExit? && op.call == d)
    ensures Accounts(s, op, Apply(s, op), c)
  {
    hide Accounts, Accounted, Served;
    var m := s.core;
    assert s.conts + [] == s.conts;
    ServedOne(ErrorCont(d, true), c);
    ServedOne(ErrorCont(d, false), c);
    ServedOne(ReadyCont(d), c);
    match op
    case ChildExit(_, how) =>
      if how == Code {
        Continued(s, op, Quiet(m, d), [ErrorCont(d, true)], c);
      } else {
        SettleSettles(Quiet(m, d), d, how == Clean, c);
        Continued(s, op, Settle(Quiet(m, d), d, how == Clean), [], c);
      }
    case ChildError(_) => Continued(s, op, Quiet(m, d), [ErrorCont(d, false)], c);
    case ChildReady(_) =>
      if m.calls[d].awaitsReady {
        Continued(s, op, MarkReady(m, d), if m.Has(m.calls[d].id) then [ReadyCont(d)] else [], c);
      } else {
        Continued(s, op, m, [], c);
      }
  }

  lemma {:induction false} StoppingServes(s: Sys, ids: seq<Id>, c: nat)
    ensures StoppingAll(s, ids).core == s.core && (Served(StoppingAll(s, ids).conts, c) <==> Served(s.conts, c))
  {
    if ids != [] {
      var id, before := ids[|ids| - 1], StoppingAll(s, ids[..|ids| - 1]);
      StoppingServes(s, ids[..|ids| - 1], c);
      if before.core.Has(id) {
        ServedMore(before.conts, [StopCont(id, before.core.procs[id], true)], c);
        ServedOne(StopCont(id, before.core.procs[id], true), c);
      }
    }
  }

  lemma StepAccounts(s: Sys, op: Op, c: nat)
    requires WellFormed(s) && c < |s.core.calls|
    ensures Accounts(s, op, Apply(s, op), c)
  {
    hide WellFormed, Served;
    var m := s.core;
    assert s.conts + [] == s.conts;
    ServedOne(SpawnCont(|m.calls|), c);
    match op
    case DoStart(id, force, now) =>
      Continued(s, op, Begin(m, id, force, now).0, [SpawnCont(|m.calls|)], c);
      Continued(s, op, Begin(m, id, force, now).0, [], c);
    case DoStop(id) =>
      if m.Has(id) {
        ServedOne(StopCont(id, m.procs[id], false), c);
        Continued(s, op, m, [StopCont(id, m.procs[id], false)], c);
      }
    case DoRemove(id) =>
      if m.Has(id) {
        ServedOne(StopCont(id, m.procs[id], true), c);
        Continued(s, op, m, [StopCont(id, m.procs[id], true)], c);
      }
    case DoCleanup(order) => StoppingServes(s, order, c);
    case ChildExit(d, how) => if Listens(s, d) { ChildAccounts(s, op, d, c); }
    case ChildError(d) => if Listens(s, d) { ChildAccounts(s, op, d, c); }
    case ChildReady(d) => if Listens(s, d) { ChildAccounts(s, op, d, c); }
    case Resume(i, ok, now) => if i < |s.conts| { ResumeAccounts(s, op, c); }
    case _ =>
  }

  lemma NewStartWaits(s: Sys, op: Op, c: nat)
    requires |s.core.calls| <= c < |Apply(s, op).core.calls|
    ensures Accounted(Apply(s, op), c)
  {
    if op.DoCleanup? {
      StoppingAllCore(s, op.order);
    }
    var s' := Apply(s, op);
    assert c == |s.core.calls|;
    assert SpawnCont(c) in s'.conts && Serves(SpawnCont(c), c);
  }

  /** At some point of the run a stop has forsaken the start. */
  ghost predicate Forsaken(pool: seq<Resource>, ops: seq<Op>, c: nat) {
    ops != [] &&
    (Forsaken(pool, ops[..|ops| - 1], c) || Forsakes(Run(pool, ops[..|ops| - 1]), ops[|ops| - 1], c))
  }

  lemma {:induction false} ForsakenWasBegun(pool: seq<Resource>, ops: seq<Op>, c: nat)
    requires Forsaken(pool, ops, c)
    ensures c < |Run(pool, ops).core.calls|
  {
    hide Apply;
    var before, op := ops[..|ops| - 1], ops[|ops| - 1];
    if Forsaken(pool, before, c) {
      ForsakenWasBegun(pool, before, c);
    }
    EveryStartSettlesAtMostOnce(pool, before);
    StepSettlesOnce(Run(pool, before), op);
  }

  /** In every interleaving a start has settled, or listens to its child, or is served by
      something that waits, be it for another start - exactly unless a stop has forsaken it. */
  lemma {:induction false} AccountedExactlyUnlessForsaken(pool: seq<Resource>, ops: seq<Op>, c: nat)
    requires c < |Run(pool, ops).core.calls|
    ensures Accounted(Run(pool, ops), c) <==> !Forsaken(pool, ops, c)
  {
    hide WellFormed, Accounted, Apply;
    if ops == [] {
    } else {
      var before, op := ops[..|ops| - 1], ops[|ops| - 1];
      var s := Run(pool, before);
      if c < |s.core.calls| {
        RunWellFormed(pool, before);
        AccountedExactlyUnlessForsaken(pool, before, c);
        StepAccounts(s, op, c);
      } else {
        if Forsaken(pool, before, c) {
          ForsakenWasBegun(pool, before, c);
        }
        NewStartWaits(s, op, c);
      }
    }
  }

  /** The promise of a forsaken start never settles. */
  lemma {:induction false} ForsakenNeverSettles(pool: seq<Resource>, ops: seq<Op>, k: nat, c: nat)
    requires k <= |ops| && Forsaken(pool, ops[..k], c)
    ensures Forsaken(pool, ops, c)
    ensures c < |Run(pool, ops).core.calls| && Run(pool, ops).core.calls[c].resolved == []
    decreases |ops|
  {
    hide Run, Forsakes;
    if k == |ops| {
      assert ops[..k] == ops;
    } else {
      var before := ops[..|ops| - 1];
      assert before[..k] == ops[..k];
      ForsakenNeverSettles(pool, before, k, c);
    }
    ForsakenWasBegun(pool, ops, c);
    AccountedExactlyUnlessForsaken(pool, ops, c);
    EveryStartSettlesAtMostOnce(pool, ops);
  }

  /** Created, started, spawned and stopped before it is ready: the promise stays open. */
  lemma ForsakenExample()
    ensures Forsaken([], [CREATE, START, Resume(0, true, 0), DoStop(1), Resume(0, true, 0)], 0)
  {
    hide Run;
    var ops := [CREATE, START];
    StartedOnce();
    var r := Record(1, Starting, 0, false, [], None);
    var m := Core([], map[1 := 0], [r], [Call(1, 0, false, false, false, false, [])]);
    var m' := Core([], map[1 := 0], [r.(terminator := Some(0))], [Call(1, 0, true, true, true, false, [])]);
    assert WithoutAt([SpawnCont(0)], 0) == [] && Spawned(m, 0) == m';
    RunStep([], ops, Resume(0, true, 0), Sys(m', []));
    RunStep([], ops + [Resume(0, true, 0)], DoStop(1), Sys(m', [StopCont(1, 0, false)]));
    var all := [CREATE, START, Resume(0, true, 0), DoStop(1), Resume(0, true, 0)];
    assert all[..4] == ops + [Resume(0, true, 0)] + [DoStop(1)];
    ServedOne(StopCont(1, 0, false), 0);
    assert Forsakes(Run([], all[..4]), all[4], 0);
  }
}
