/** Whether the promise of a start can still settle: what it waits for may be another start,
    which waits for a third, and a stop may have reached any of them. */
module ProcessPromises {
  import opened Wrappers
  import opened Processes
  import opened ProcessRuns
  import opened ProcessStarts

  predicate Settled(s: Sys, c: nat) {
    c < |s.core.calls| && s.core.calls[c].resolved != []
  }

  /** Some continuation of the run, with any calls and any events, settles the start. */
  ghost predicate CanSettle(s: Sys, c: nat) {
    exists ops :: Settled(RunFrom(s, ops), c)
  }

  /** The continuation serves the start by itself, not through another start. */
  predicate ServesAlone(cont: Cont, c: nat) {
    Serves(cont, c) && !cont.InnerCont?
  }

  ghost predicate ServedAlone(conts: seq<Cont>, c: nat) {
    exists cont :: cont in conts && ServesAlone(cont, c)
  }

  /** The start has settled, listens to its child, is served by itself, or waits for a
      start of which the same is true. */
  ghost predicate Hopeful(s: Sys, c: nat)
    decreases |s.core.calls| - c
  {
    c < |s.core.calls| &&
    (|| s.core.calls[c].isResolved || s.core.calls[c].listening || ServedAlone(s.conts, c)
     || exists n: nat | c < n < |s.core.calls| :: InnerCont(c, n) in s.conts && Hopeful(s, n))
  }

  // ---------- Without hope nothing settles ----------

  /** Nothing serves the start but waiting for starts that have not settled. */
  ghost predicate Hanging(s: Sys, c: nat) {
    && c < |s.core.calls| && !s.core.calls[c].isResolved && !s.core.calls[c].listening
    && forall cont | cont in s.conts && Serves(cont, c) ::
         cont.InnerCont? && cont.inner < |s.core.calls| && s.core.calls[cont.inner].resolved == []
  }

  /** It stays as it was, and nothing new serves it. */
  ghost predicate HangsOn(s: Sys, s': Sys, c: nat) {
    && c < |s'.core.calls| && !s'.core.calls[c].isResolved && !s'.core.calls[c].listening
    && forall cont | cont in s'.conts && Serves(cont, c) :: cont in s.conts
  }

  lemma HangsBy(s: Sys, rest: seq<Cont>, m': Core, more: seq<Cont>, c: nat)
    requires c < |m'.calls| && !m'.calls[c].isResolved && !m'.calls[c].listening
    requires forall cont | cont in rest :: cont in s.conts
    requires forall k | 0 <= k < |more| && Serves(more[k], c) :: more[k] in s.conts
    ensures HangsOn(s, Sys(m', rest + more), c)
  {
    forall cont | cont in rest + more && Serves(cont, c) ensures cont in s.conts {
      AddedIn(rest, more, cont);
    }
  }

  lemma ResumeHangs(s: Sys, op: Op, c: nat)
    requires Hanging(s, c) && op.Resume? && op.i < |s.conts|
    ensures HangsOn(s, Apply(s, op), c)
  {
    hide HangsOn;
    var m, rest, cont := s.core, WithoutAt(s.conts, op.i), s.conts[op.i];
    assert cont in s.conts && rest + [] == rest;
    forall x | x in rest ensures x in s.conts {
      InRest(s.conts, op.i, x);
    }
    HangsBy(s, rest, m, [], c);
    match cont
    case SpawnCont(d) =>
      if d < |m.calls| {
        HangsBy(s, rest, if op.ok then Spawned(m, d) else Settle(m, d, false), [], c);
      }
    case ErrorCont(d, exit) =>
      if d < |m.calls| {
        HangsBy(s, rest, Settle(m, d, false), [], c);
        HangsBy(s, rest, m, [DelayCont(d)], c);
      }
    case DelayCont(d) =>
      if d < |m.calls| {
        HangsBy(s, rest, Settle(m, d, false), [], c);
        HangsBy(s, rest, Begin(m, m.calls[d].id, true, op.now).0, [SpawnCont(|m.calls|), InnerCont(d, |m.calls|)], c);
      }
    case ReadyCont(d) =>
      if d < |m.calls| {
        HangsBy(s, rest, Settle(m, d, true), [], c);
      }
    case InnerCont(d, inner) =>
      if d < |m.calls| && inner < |m.calls| {
        if m.calls[inner].resolved == [] {
          HangsBy(s, rest, m, [cont], c);
        } else {
          HangsBy(s, rest, Settle(m, d, m.calls[inner].resolved[0]), [], c);
        }
      }
    case StopCont(id, ref, removing) =>
      if ref < |m.records| {
        HangsBy(s, rest, Terminate(m, ref), if removing then [RemoveCont(id, ref)] else [], c);
      }
    case RemoveCont(id, ref) =>
      if ref < |m.records| {
        HangsBy(s, rest, Finish(m, id, ref), [], c);
      }
  }

  lemma InRest(conts: seq<Cont>, i: nat, cont: Cont)
    requires i < |conts| && cont in WithoutAt(conts, i)
    ensures cont in conts
  {
    var rest := WithoutAt(conts, i);
    var j :| 0 <= j < |rest| && rest[j] == cont;
    assert conts[if j < i then j else j + 1] == cont;
  }

  lemma {:induction false} StoppingHangs(s: Sys, ids: seq<Id>, c: nat)
    requires Hanging(s, c)
    ensures HangsOn(s, StoppingAll(s, ids), c) && StoppingAll(s, ids).core == s.core
  {
    if ids != [] {
      var before, id := StoppingAll(s, ids[..|ids| - 1]), ids[|ids| - 1];
      StoppingHangs(s, ids[..|ids| - 1], c);
      if before.core.Has(id) {
        forall cont | cont in before.conts + [StopCont(id, before.core.procs[id], true)] && Serves(cont, c)
          ensures cont in s.conts
        {
          AddedIn(before.conts, [StopCont(id, before.core.procs[id], true)], cont);
        }
      }
    }
  }

  lemma StepHangs(s: Sys, op: Op, c: nat)
    requires Hanging(s, c)
    ensures HangsOn(s, Apply(s, op), c)
  {
    hide HangsOn;
    var m := s.core;
    assert s.conts + [] == s.conts;
    HangsBy(s, s.conts, m, [], c);
    match op
    case DoCreate(id, count, status, now) => HangsBy(s, s.conts, Create(m, id, count, status, now), [], c);
    case DoStart(id, force, now) =>
      HangsBy(s, s.conts, Begin(m, id, force, now).0, [SpawnCont(|m.calls|)], c);
      HangsBy(s, s.conts, Begin(m, id, force, now).0, [], c);
    case DoStop(id) =>
      if m.Has(id) {
        HangsBy(s, s.conts, m, [StopCont(id, m.procs[id], false)], c);
      }
    case DoRemove(id) =>
      if m.Has(id) {
        HangsBy(s, s.conts, m, [StopCont(id, m.procs[id], true)], c);
      }
    case DoCleanup(order) => StoppingHangs(s, order, c);
    case ChildExit(d, how) =>
      if Listens(s, d) {
        HangsBy(s, s.conts, Quiet(m, d), [ErrorCont(d, true)], c);
        HangsBy(s, s.conts, Settle(Quiet(m, d), d, how == Clean), [], c);
      }
    case ChildError(d) =>
      if Listens(s, d) {
        HangsBy(s, s.conts, Quiet(m, d), [ErrorCont(d, false)], c);
      }
    case ChildReady(d) =>
      if Listens(s, d) {
        HangsBy(s, s.conts, MarkReady(m, d), [ReadyCont(d)], c);
        HangsBy(s, s.conts, MarkReady(m, d), [], c);
      }
    case Resume(i, ok, now) => if i < |s.conts| { ResumeHangs(s, op, c); }
    case _ => HangsBy(s, s.conts, Apply(s, op).core, [], c);
  }

  ghost predicate Reachable(s: Sys) {
    WellFormed(s) && SettledOnce(s.core)
  }

  lemma ReachableStep(s: Sys, op: Op)
    requires Reachable(s)
    ensures Reachable(Apply(s, op))
  {
    hide WellFormed, SettledOnce;
    StepSettlesOnce(s, op);
    if op.DoCreate? {
      CreateStep(s, op);
    } else {
      StepFollows(s, op);
    }
  }

  lemma HopelessHangs(s: Sys, c: nat)
    requires Reachable(s) && c < |s.core.calls| && !Hopeful(s, c)
    ensures Hanging(s, c)
  {
    hide WellFormed;
    AreOk(s);
    forall cont | cont in s.conts && Serves(cont, c)
      ensures cont.InnerCont? && cont.inner < |s.core.calls| && s.core.calls[cont.inner].resolved == []
    {
      assert !ServesAlone(cont, c);
      var n: nat := cont.inner;
      assert cont == InnerCont(c, n) && !Hopeful(s, n);
      assert !s.core.calls[n].isResolved;
    }
  }

  lemma {:induction false} StaysHopeless(s: Sys, op: Op, c: nat)
    requires Reachable(s) && c < |s.core.calls| && !Hopeful(s, c)
    ensures c < |Apply(s, op).core.calls| && !Hopeful(Apply(s, op), c)
    decreases |s.core.calls| - c
  {
    hide WellFormed, Apply;
    var s' := Apply(s, op);
    AreOk(s);
    HopelessHangs(s, c);
    StepHangs(s, op, c);
    forall cont | cont in s'.conts ensures !ServesAlone(cont, c) {
      assert Serves(cont, c) ==> cont in s.conts;
    }
    forall n: nat | c < n < |s'.core.calls| && InnerCont(c, n) in s'.conts ensures !Hopeful(s', n) {
      assert Serves(InnerCont(c, n), c) && InnerCont(c, n) in s.conts;
      assert !Hopeful(s, n);
      StaysHopeless(s, op, n);
    }
  }

  lemma {:induction false} HopelessForEver(s: Sys, ops: seq<Op>, c: nat)
    requires Reachable(s) && c < |s.core.calls| && !Hopeful(s, c)
    ensures !Settled(RunFrom(s, ops), c)
    decreases |ops|
  {
    if ops == [] {
      assert !s.core.calls[c].isResolved;
    } else {
      hide Reachable, Hopeful, Apply;
      ReachableStep(s, ops[0]);
      StaysHopeless(s, ops[0], c);
      HopelessForEver(Apply(s, ops[0]), ops[1..], c);
    }
  }

  // ---------- With hope something settles ----------

  lemma SettlesNow(s: Sys, c: nat)
    requires Settled(s, c)
    ensures CanSettle(s, c)
  {
    assert Settled(RunFrom(s, []), c);
  }

  lemma SettlesLater(s: Sys, op: Op, c: nat)
    requires CanSettle(Apply(s, op), c)
    ensures CanSettle(s, c)
  {
    var ops :| Settled(RunFrom(Apply(s, op), ops), c);
    var all := [op] + ops;
    assert all[0] == op && all[1..] == ops;
    assert Settled(RunFrom(s, all), c);
  }

  lemma SettlesBy(s: Sys, op: Op, c: nat)
    requires Settled(Apply(s, op), c)
    ensures CanSettle(s, c)
  {
    SettlesNow(Apply(s, op), c);
    SettlesLater(s, op, c);
  }

  lemma SettleResolves(m: Core, c: nat, value: bool)
    requires SettledOnce(m) && c < |m.calls|
    ensures |Settle(m, c, value).calls| == |m.calls| && Settle(m, c, value).calls[c].resolved != []
  {
  }

  /** What waits for another start waits on, until it settles its own. */
  lemma InnerKeeps(s: Sys, op: Op, c: nat, n: nat)
    requires Reachable(s) && InnerCont(c, n) in s.conts
    ensures InnerCont(c, n) in Apply(s, op).conts || Settled(Apply(s, op), c)
  {
    hide WellFormed;
    AreOk(s);
    var cont := InnerCont(c, n);
    if op.Resume? && op.i < |s.conts| {
      if s.conts[op.i] == cont {
        if s.core.calls[n].resolved != [] {
          SettleResolves(s.core, c, s.core.calls[n].resolved[0]);
        }
      } else {
        var j :| 0 <= j < |s.conts| && s.conts[j] == cont;
        assert WithoutAt(s.conts, op.i)[if j < op.i then j else j - 1] == cont;
      }
    } else if op.DoCleanup? {
      StoppingKeeps(s, op.order, cont);
    }
  }

  lemma {:induction false} StoppingKeeps(s: Sys, ids: seq<Id>, cont: Cont)
    requires cont in s.conts
    ensures cont in StoppingAll(s, ids).conts
  {
    if ids != [] {
      StoppingKeeps(s, ids[..|ids| - 1], cont);
    }
  }

  lemma {:induction false} InnerSettles(s: Sys, c: nat, n: nat, ops: seq<Op>)
    requires Reachable(s) && InnerCont(c, n) in s.conts && Settled(RunFrom(s, ops), n)
    ensures CanSettle(s, c)
    decreases |ops|
  {
    hide WellFormed, CanSettle;
    AreOk(s);
    if ops == [] {
      var i :| 0 <= i < |s.conts| && s.conts[i] == InnerCont(c, n);
      assert InnerCont(c, n) in s.conts;
      SettleResolves(s.core, c, s.core.calls[n].resolved[0]);
      SettlesBy(s, Resume(i, true, 0), c);
    } else {
      var s' := Apply(s, ops[0]);
      InnerKeeps(s, ops[0], c, n);
      ReachableStep(s, ops[0]);
      if InnerCont(c, n) in s'.conts {
        InnerSettles(s', c, n, ops[1..]);
      } else {
        SettlesNow(s', c);
      }
      SettlesLater(s, ops[0], c);
    }
  }

  lemma DelaySettles(s: Sys, c: nat)
    requires Reachable(s) && c < |s.core.calls| && DelayCont(c) in s.conts
    ensures CanSettle(s, c)
  {
    hide WellFormed, CanSettle;
    var i :| 0 <= i < |s.conts| && s.conts[i] == DelayCont(c);
    var m, n, op := s.core, |s.core.calls|, Resume(i, true, 0);
    var s' := Apply(s, op);
    if m.Has(m.calls[c].id) {
      var rest := WithoutAt(s.conts, i);
      ForcedBegins(m, m.calls[c].id, 0);
      assert s'.conts == rest + [SpawnCont(n), InnerCont(c, n)];
      assert s'.conts[|rest|] == SpawnCont(n) && s'.conts[|rest| + 1] == InnerCont(c, n);
      var next := Resume(|rest|, false, 0);
      ReachableStep(s, op);
      SettleResolves(s'.core, n, false);
      assert Settled(Apply(s', next), n);
      assert RunFrom(s', [next]) == RunFrom(Apply(s', next), []) by { assert [next][1..] == []; }
      InnerSettles(s', c, n, [next]);
      SettlesLater(s, op, c);
    } else {
      SettleResolves(m, c, false);
      SettlesBy(s, op, c);
    }
  }

  lemma ErrorSettles(s: Sys, c: nat, exit: bool)
    requires Reachable(s) && c < |s.core.calls| && ErrorCont(c, exit) in s.conts
    ensures CanSettle(s, c)
  {
    hide WellFormed, CanSettle;
    var i :| 0 <= i < |s.conts| && s.conts[i] == ErrorCont(c, exit);
    var m, op := s.core, Resume(i, true, 0);
    var s' := Apply(s, op);
    if m.Has(m.calls[c].id) && exit {
      assert s'.conts[|s'.conts| - 1] == DelayCont(c);
      ReachableStep(s, op);
      DelaySettles(s', c);
      SettlesLater(s, op, c);
    } else {
      SettleResolves(m, c, false);
      SettlesBy(s, op, c);
    }
  }

  lemma AloneSettles(s: Sys, cont: Cont, c: nat)
    requires Reachable(s) && c < |s.core.calls| && cont in s.conts && ServesAlone(cont, c)
    ensures CanSettle(s, c)
  {
    hide WellFormed, CanSettle;
    var i :| 0 <= i < |s.conts| && s.conts[i] == cont;
    match cont
    case SpawnCont(_) =>
      SettleResolves(s.core, c, false);
      SettlesBy(s, Resume(i, false, 0), c);
    case ErrorCont(_, exit) => ErrorSettles(s, c, exit);
    case DelayCont(_) => DelaySettles(s, c);
    case ReadyCont(_) =>
      SettleResolves(s.core, c, true);
      SettlesBy(s, Resume(i, true, 0), c);
  }

  lemma {:induction false} HopefulSettles(s: Sys, c: nat)
    requires Reachable(s) && Hopeful(s, c)
    ensures CanSettle(s, c)
    decreases |s.core.calls| - c
  {
    hide WellFormed, CanSettle;
    if s.core.calls[c].isResolved {
      SettlesNow(s, c);
    } else if s.core.calls[c].listening {
      EndSettles(s, c);
    } else if ServedAlone(s.conts, c) {
      var cont :| cont in s.conts && ServesAlone(cont, c);
      AloneSettles(s, cont, c);
    } else {
      var n: nat :| c < n < |s.core.calls| && InnerCont(c, n) in s.conts && Hopeful(s, n);
      HopefulSettles(s, n);
      ThroughInner(s, c, n);
    }
  }

  lemma EndSettles(s: Sys, c: nat)
    requires Reachable(s) && Listens(s, c)
    ensures CanSettle(s, c)
  {
    hide WellFormed, CanSettle;
    StepSettlesOnce(s, ChildExit(c, Clean));
    assert Apply(s, ChildExit(c, Clean)).core.calls[c].isResolved;
    SettlesBy(s, ChildExit(c, Clean), c);
  }

  lemma ThroughInner(s: Sys, c: nat, n: nat)
    requires Reachable(s) && InnerCont(c, n) in s.conts && CanSettle(s, n)
    ensures CanSettle(s, c)
  {
    var ops :| Settled(RunFrom(s, ops), n);
    InnerSettles(s, c, n, ops);
  }

  /** A start can still settle exactly when it has hope. */
  lemma CanSettleExactly(s: Sys, c: nat)
    requires Reachable(s) && c < |s.core.calls|
    ensures CanSettle(s, c) <==> Hopeful(s, c)
  {
    hide Reachable, Hopeful;
    if Hopeful(s, c) {
      HopefulSettles(s, c);
    } else if ops :| Settled(RunFrom(s, ops), c) {
      HopelessForEver(s, ops, c);
    }
  }

  // ---------- A start is at one stage at a time ----------

  /** The continuation is a stage of the start: being spawned, failing, waiting to restart,
      or waiting for its restart. The ready callback runs beside them. */
  predicate Stage(cont: Cont, c: nat) {
    Serves(cont, c) && !cont.ReadyCont?
  }

  function Stages(conts: seq<Cont>, c: nat): nat {
    if conts == [] then 0
    else Stages(conts[..|conts| - 1], c) + if Stage(conts[|conts| - 1], c) then 1 else 0
  }

  /** Listening to the child is a stage, too. */
  function Busy(s: Sys, c: nat): nat {
    Stages(s.conts, c) + if Listens(s, c) then 1 else 0
  }

  lemma {:induction false} StagesConcat(a: seq<Cont>, b: seq<Cont>, c: nat)
    ensures Stages(a + b, c) == Stages(a, c) + Stages(b, c)
  {
    if b == [] {
      assert a + b == a;
    } else {
      assert (a + b)[..|a + b| - 1] == a + b[..|b| - 1];
      StagesConcat(a, b[..|b| - 1], c);
    }
  }

  lemma StagesOne(cont: Cont, c: nat)
    ensures Stages([cont], c) == if Stage(cont, c) then 1 else 0
    ensures Stages([], c) == 0
  {
    assert [cont][..0] == [];
  }

  lemma StagesWithout(conts: seq<Cont>, i: nat, c: nat)
    requires i < |conts|
    ensures Stages(conts, c) == Stages(WithoutAt(conts, i), c) + if Stage(conts[i], c) then 1 else 0
  {
    var a, x, b := conts[..i], [conts[i]], conts[i + 1..];
    assert conts == (a + x) + b;
    StagesConcat(a + x, b, c);
    StagesConcat(a, x, c);
    StagesConcat(a, b, c);
    StagesOne(conts[i], c);
  }

  /** Two stages at a time count as two. */
  lemma TwoStages(conts: seq<Cont>, x: Cont, y: Cont, c: nat)
    requires x in conts && y in conts && x != y && Stage(x, c)
    ensures Stages(conts, c) >= if Stage(y, c) then 2 else 1
  {
    var i :| 0 <= i < |conts| && conts[i] == x;
    var j :| 0 <= j < |conts| && conts[j] == y;
    var rest := WithoutAt(conts, i);
    StagesWithout(conts, i, c);
    assert rest[if j < i then j else j - 1] == y;
    StagesWithout(rest, if j < i then j else j - 1, c);
  }

  lemma OneStage(conts: seq<Cont>, x: Cont, c: nat)
    requires x in conts && Stage(x, c)
    ensures Stages(conts, c) >= 1
  {
    var i :| 0 <= i < |conts| && conts[i] == x;
    StagesWithout(conts, i, c);
  }

  /** A step adds a stage only to a start that it begins. */
  ghost predicate NoBusier(s: Sys, s': Sys, c: nat) {
    Busy(s', c) <= Busy(s, c) + if |s.core.calls| == c < |s'.core.calls| then 1 else 0
  }

  lemma BusyBy(m: Core, rest: seq<Cont>, more: seq<Cont>, c: nat)
    ensures Busy(Sys(m, rest + more), c)
         == Stages(rest, c) + Stages(more, c) + if c < |m.calls| && m.calls[c].listening then 1 else 0
  {
    StagesConcat(rest, more, c);
  }

  lemma ResumeBusy(s: Sys, op: Op, c: nat)
    requires op.Resume? && op.i < |s.conts|
    ensures NoBusier(s, Apply(s, op), c)
  {
    hide Stages, Stage;
    var m, rest, cont := s.core, WithoutAt(s.conts, op.i), s.conts[op.i];
    assert rest + [] == rest;
    StagesWithout(s.conts, op.i, c);
    StagesOne(cont, c);
    BusyBy(Apply(s, op).core, rest, [], c);
    match cont
    case SpawnCont(d) => SpawnBusy(s, op, d, c);
    case ErrorCont(d, exit) =>
      BusyBy(m, rest, [DelayCont(d)], c);
      StagesOne(DelayCont(d), c);
      SameStage(d, exit, c);
    case DelayCont(d) => DelayBusy(s, op, d, c);
    case ReadyCont(d) =>
    case InnerCont(d, inner) => BusyBy(m, rest, [cont], c);
    case StopCont(id, ref, removing) =>
      BusyBy(Apply(s, op).core, rest, [RemoveCont(id, ref)], c);
      StagesOne(RemoveCont(id, ref), c);
      NoStage(id, ref, removing, c);
    case RemoveCont(id, ref) =>
  }

  lemma SameStage(d: nat, exit: bool, c: nat)
    ensures Stage(ErrorCont(d, exit), c) <==> c == d
    ensures Stage(SpawnCont(d), c) <==> c == d
    ensures Stage(DelayCont(d), c) <==> c == d
    ensures forall n: nat :: Stage(InnerCont(d, n), c) <==> c == d
    ensures !Stage(ReadyCont(d), c)
  {
  }

  lemma NoStage(id: Id, ref: nat, removing: bool, c: nat)
    ensures !Stage(StopCont(id, ref, removing), c) && !Stage(RemoveCont(id, ref), c)
  {
  }

  lemma SpawnBusy(s: Sys, op: Op, d: nat, c: nat)
    requires op.Resume? && op.i < |s.conts| && s.conts[op.i] == SpawnCont(d)
    ensures NoBusier(s, Apply(s, op), c)
  {
    hide Stages, Stage;
    var rest := WithoutAt(s.conts, op.i);
    assert rest + [] == rest;
    StagesWithout(s.conts, op.i, c);
    StagesOne(s.conts[op.i], c);
    SameStage(d, true, c);
    BusyBy(Apply(s, op).core, rest, [], c);
  }

  lemma DelayBusy(s: Sys, op: Op, d: nat, c: nat)
    requires op.Resume? && op.i < |s.conts| && s.conts[op.i] == DelayCont(d)
    ensures NoBusier(s, Apply(s, op), c)
  {
    hide Stages, Stage;
    var rest, n := WithoutAt(s.conts, op.i), |s.core.calls|;
    assert rest + [] == rest;
    StagesWithout(s.conts, op.i, c);
    SameStage(d, true, c);
    SameStage(n, true, c);
    BusyBy(Apply(s, op).core, rest, [], c);
    BusyBy(Apply(s, op).core, rest, [SpawnCont(n), InnerCont(d, n)], c);
    assert [SpawnCont(n), InnerCont(d, n)] == [SpawnCont(n)] + [InnerCont(d, n)];
    StagesConcat([SpawnCont(n)], [InnerCont(d, n)], c);
    StagesOne(SpawnCont(n), c);
    StagesOne(InnerCont(d, n), c);
  }

  lemma {:induction false} StoppingBusy(s: Sys, ids: seq<Id>, c: nat)
    ensures StoppingAll(s, ids).core == s.core && Busy(StoppingAll(s, ids), c) == Busy(s, c)
  {
    if ids != [] {
      StoppingBusy(s, ids[..|ids| - 1], c);
      StopBusy(StoppingAll(s, ids[..|ids| - 1]), ids[|ids| - 1], true, c);
    }
  }

  lemma StopBusy(s: Sys, id: Id, removing: bool, c: nat)
    ensures Stopping(s, id, removing).core == s.core && Busy(Stopping(s, id, removing), c) == Busy(s, c)
  {
    if s.core.Has(id) {
      BusyBy(s.core, s.conts, [StopCont(id, s.core.procs[id], removing)], c);
      StagesOne(StopCont(id, s.core.procs[id], removing), c);
    }
  }

  lemma ChildBusy(s: Sys, op: Op, d: nat, c: nat)
    requires StartsOk(s.core)
    requires op == ChildError(d) || op == ChildReady(d) || (op.ChildExit? && op.call == d)
    ensures NoBusier(s, Apply(s, op), c)
  {
    hide Stages, Stage;
    var m := Apply(s, op).core;
    assert s.conts + [] == s.conts;
    SameStage(d, true, c);
    SameStage(d, false, c);
    StagesOne(ErrorCont(d, true), c);
    StagesOne(ErrorCont(d, false), c);
    StagesOne(ReadyCont(d), c);
    BusyBy(m, s.conts, [], c);
    BusyBy(m, s.conts, [ErrorCont(d, true)], c);
    BusyBy(m, s.conts, [ErrorCont(d, false)], c);
    BusyBy(m, s.conts, [ReadyCont(d)], c);
  }

  lemma StepBusy(s: Sys, op: Op, c: nat)
    requires StartsOk(s.core)
    ensures NoBusier(s, Apply(s, op), c)
  {
    hide Stages, Stage;
    var m := s.core;
    assert s.conts + [] == s.conts;
    BusyBy(Apply(s, op).core, s.conts, [], c);
    StagesOne(SpawnCont(|m.calls|), c);
    SameStage(|m.calls|, true, c);
    match op
    case DoStart(id, force, now) => BusyBy(Begin(m, id, force, now).0, s.conts, [SpawnCont(|m.calls|)], c);
    case DoStop(id) => StopBusy(s, id, false, c);
    case DoRemove(id) => StopBusy(s, id, true, c);
    case DoCleanup(order) => StoppingBusy(s, order, c);
    case ChildExit(d, how) => ChildBusy(s, op, d, c);
    case ChildError(d) => ChildBusy(s, op, d, c);
    case ChildReady(d) => ChildBusy(s, op, d, c);
    case Resume(i, ok, now) => if i < |s.conts| { ResumeBusy(s, op, c); }
    case _ =>
  }

  /** In every run each start is at one stage at most. */
  lemma {:induction false} RunBusy(pool: seq<Resource>, ops: seq<Op>, c: nat)
    ensures Busy(Run(pool, ops), c) <= if c < |Run(pool, ops).core.calls| then 1 else 0
  {
    if ops != [] {
      hide Busy, Apply, WellFormed;
      var before, op := ops[..|ops| - 1], ops[|ops| - 1];
      RunBusy(pool, before, c);
      RunWellFormed(pool, before);
      AreOk(Run(pool, before));
      StepBusy(Run(pool, before), op, c);
      EveryStartSettlesAtMostOnce(pool, before);
      StepSettlesOnce(Run(pool, before), op);
    }
  }

  // ---------- Over runs ----------

  /** The start has not settled and is not about to, and waits for start `n`, its restart. */
  predicate WaitsFor(s: Sys, c: nat, n: nat) {
    c < |s.core.calls| && !s.core.calls[c].isResolved && ReadyCont(c) !in s.conts && InnerCont(c, n) in s.conts
  }

  /** A stop has forsaken the start, or one that it waits for through its restarts. */
  ghost predicate Doomed(pool: seq<Resource>, ops: seq<Op>, c: nat)
    decreases |Run(pool, ops).core.calls| - c
  {
    var s := Run(pool, ops);
    || Forsaken(pool, ops, c)
    || exists n: nat | c < n < |s.core.calls| :: WaitsFor(s, c, n) && Doomed(pool, ops, n)
  }

  lemma RunReachable(pool: seq<Resource>, ops: seq<Op>)
    ensures Reachable(Run(pool, ops))
  {
    RunWellFormed(pool, ops);
    EveryStartSettlesAtMostOnce(pool, ops);
  }

  lemma ServedAloneIsServed(s: Sys, c: nat)
    ensures ServedAlone(s.conts, c) ==> Served(s.conts, c)
    ensures forall n: nat | InnerCont(c, n) in s.conts :: Served(s.conts, c)
  {
    forall n: nat | InnerCont(c, n) in s.conts ensures Served(s.conts, c) {
      assert Serves(InnerCont(c, n), c);
    }
  }

  /** Nothing but its restart serves a start that waits for one, and it waits for one. */
  lemma WaitsForOne(s: Sys, c: nat, n: nat)
    requires Busy(s, c) <= 1 && WaitsFor(s, c, n)
    ensures !s.core.calls[c].listening && !ServedAlone(s.conts, c)
    ensures forall k: nat | InnerCont(c, k) in s.conts :: k == n
  {
    var inner := InnerCont(c, n);
    OneStage(s.conts, inner, c);
    forall cont | cont in s.conts && Serves(cont, c) ensures cont == inner {
      if cont != inner {
        assert cont != ReadyCont(c);
        TwoStages(s.conts, inner, cont, c);
      }
    }
    forall k: nat | InnerCont(c, k) in s.conts ensures k == n {
      assert Serves(InnerCont(c, k), c);
    }
  }

  lemma {:induction false} HopefulExactly(pool: seq<Resource>, ops: seq<Op>, c: nat)
    requires c < |Run(pool, ops).core.calls|
    ensures Hopeful(Run(pool, ops), c) <==> !Doomed(pool, ops, c)
    decreases |Run(pool, ops).core.calls| - c
  {
    hide Run, Forsaken, WellFormed, Busy, Served, ServedAlone;
    var s := Run(pool, ops);
    AccountedExactlyUnlessForsaken(pool, ops, c);
    ServedAloneIsServed(s, c);
    RunReachable(pool, ops);
    AreOk(s);
    RunBusy(pool, ops, c);
    forall n: nat | c < n < |s.core.calls| ensures Hopeful(s, n) <==> !Doomed(pool, ops, n) {
      HopefulExactly(pool, ops, n);
    }
    if n: nat :| c < n < |s.core.calls| && WaitsFor(s, c, n) {
      WaitsForOne(s, c, n);
    } else if Accounted(s, c) {
      WaitsForNone(s, c);
    }
  }

  lemma WaitsForNone(s: Sys, c: nat)
    requires WaitsOk(s) && Accounted(s, c) && forall n: nat | c < n < |s.core.calls| :: !WaitsFor(s, c, n)
    ensures s.core.calls[c].isResolved || s.core.calls[c].listening || ServedAlone(s.conts, c)
  {
    if !s.core.calls[c].isResolved && !s.core.calls[c].listening {
      var cont :| cont in s.conts && Serves(cont, c);
      if cont.InnerCont? {
        var n: nat := cont.inner;
        assert !WaitsFor(s, c, n);
        assert ReadyCont(c) in s.conts && ServesAlone(ReadyCont(c), c);
      } else {
        assert ServesAlone(cont, c);
      }
    }
  }

  /** In every interleaving the promise of a start can still settle, in some continuation
      with any calls and any events, exactly when no stop has forsaken the start itself or
      one that it waits for through its restarts. */
  lemma SettlesExactlyUnlessDoomed(pool: seq<Resource>, ops: seq<Op>, c: nat)
    requires c < |Run(pool, ops).core.calls|
    ensures CanSettle(Run(pool, ops), c) <==> !Doomed(pool, ops, c)
  {
    hide Run, CanSettle, Hopeful, Doomed;
    RunReachable(pool, ops);
    CanSettleExactly(Run(pool, ops), c);
    HopefulExactly(pool, ops, c);
  }

  /** A process crashes and is restarted, and the restart is stopped before it is ready. No
      stop ran the handler of the first start, but it waits for the second for ever. */
  lemma DoomedExample()
    ensures var ops := [CREATE, START, Resume(0, true, 0), ChildExit(0, Code), Resume(0, true, 0),
                        Resume(0, true, 2000), Resume(0, true, 0), DoStop(1), Resume(1, true, 0)];
            var s := Run([], ops);
            && Accounted(s, 0) && !Forsaken([], ops, 0) && s.conts == [InnerCont(0, 1)]
            && Doomed([], ops, 0) && !CanSettle(s, 0)
  {
    hide Run, CanSettle;
    var before := [CREATE, START, Resume(0, true, 0), ChildExit(0, Code), Resume(0, true, 0),
                   Resume(0, true, 2000), Resume(0, true, 0), DoStop(1)];
    var ops := before + [Resume(1, true, 0)];
    var s := RestartStopped();
    var s' := Apply(s, Resume(1, true, 0));
    RunStep([], before, Resume(1, true, 0), s');
    assert WithoutAt(s.conts, 1) == [InnerCont(0, 1)];
    assert ops[..8] == before;
    ServedTwo(InnerCont(0, 1), StopCont(1, 0, false), 1);
    assert Forsakes(Run([], ops[..8]), ops[8], 1);
    assert Forsaken([], ops, 1) && WaitsFor(s', 0, 1);
    assert Doomed([], ops, 1);
    ServedOne(InnerCont(0, 1), 0);
    AccountedExactlyUnlessForsaken([], ops, 0);
    SettlesExactlyUnlessDoomed([], ops, 0);
    assert ops == [CREATE, START, Resume(0, true, 0), ChildExit(0, Code), Resume(0, true, 0),
                   Resume(0, true, 2000), Resume(0, true, 0), DoStop(1), Resume(1, true, 0)];
  }

  lemma ServedTwo(x: Cont, y: Cont, c: nat)
    ensures Served([x, y], c) <==> Serves(x, c) || Serves(y, c)
  {
    assert [x, y] == [x] + [y];
    ServedMore([x], [y], c);
    ServedOne(x, c);
    ServedOne(y, c);
  }

  lemma RestartStopped() returns (s: Sys)
    ensures s == Run([], [CREATE, START, Resume(0, true, 0), ChildExit(0, Code), Resume(0, true, 0),
                          Resume(0, true, 2000), Resume(0, true, 0), DoStop(1)])
    ensures s == Sys(Core([], map[1 := 0], [Record(1, Starting, 2000, false, [], Some(1))],
                          [Call(1, 0, true, false, false, false, []), Call(1, 0, true, true, true, false, [])]),
                     [InnerCont(0, 1), StopCont(1, 0, false)])
  {
    hide Run;
    CrashBegun();
    var ops := [CREATE, START, Resume(0, true, 0), ChildExit(0, Code), Resume(0, true, 0)];
    var m, c := Crashed().core.(procs := map[1 := 0]), Call(1, 0, false, false, false, false, []);
    var m1 := m.(records := [Record(1, Starting, 2000, false, [], Some(0))], calls := m.calls + [c]);
    assert Begin(m, 1, true, 2000).0 == m1 && WithoutAt([DelayCont(0)], 0) == [];
    RunStep([], ops, Resume(0, true, 2000), Sys(m1, [SpawnCont(1), InnerCont(0, 1)]));
    var m2 := m.(records := [Record(1, Starting, 2000, false, [], Some(1))],
                 calls := m.calls + [c.(child := true, listening := true, awaitsReady := true)]);
    assert Spawned(m1, 1) == m2 && WithoutAt([SpawnCont(1), InnerCont(0, 1)], 0) == [InnerCont(0, 1)];
    RunStep([], ops + [Resume(0, true, 2000)], Resume(0, true, 0), Sys(m2, [InnerCont(0, 1)]));
    s := Sys(m2, [InnerCont(0, 1), StopCont(1, 0, false)]);
    RunStep([], ops + [Resume(0, true, 2000)] + [Resume(0, true, 0)], DoStop(1), s);
    assert ops + [Resume(0, true, 2000)] + [Resume(0, true, 0)] + [DoStop(1)]
        == [CREATE, START, Resume(0, true, 0), ChildExit(0, Code), Resume(0, true, 0),
            Resume(0, true, 2000), Resume(0, true, 0), DoStop(1)];
  }
}
