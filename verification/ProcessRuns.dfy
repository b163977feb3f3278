/** What every interleaving of the process manager keeps to: on which record a start acts,
    for how long its child is heard, and where the timers are. */
module ProcessRuns {
  import opened Wrappers
  import opened Processes

  // ---------- Reachable states ----------

  /** Starts refer to records and listen to nothing but their child; a terminate handler
      is that of a start which has its child. */
  ghost predicate StartsOk(m: Core) {
    && (forall c | 0 <= c < |m.calls| :: m.calls[c].ref < |m.records| && (m.calls[c].listening ==> m.calls[c].child))
    && (forall ref | 0 <= ref < |m.records| && m.records[ref].terminator.Some? ::
          HasChild(m, m.records[ref].terminator.value))
  }

  predicate HasChild(m: Core, c: nat) {
    c < |m.calls| && m.calls[c].child
  }

  /** What waits for a start refers to one, and a start only waits for a later one; a start
      that is still to be spawned has no child, and is to be spawned once. */
  ghost predicate WaitsOk(s: Sys) {
    && (forall c: nat | SpawnCont(c) in s.conts :: c < |s.core.calls| && !HasChild(s.core, c))
    && (forall c: nat | ErrorCont(c, true) in s.conts || DelayCont(c) in s.conts :: c < |s.core.calls|)
    && (forall cont | cont in s.conts && cont.InnerCont? :: cont.call < cont.inner < |s.core.calls|)
    && SpawnsOnce(s.conts)
  }

  ghost predicate SpawnsOnce(conts: seq<Cont>) {
    forall i, j | 0 <= i < j < |conts| && conts[i].SpawnCont? :: conts[j] != conts[i]
  }

  ghost predicate WellFormed(s: Sys) {
    TableOk(s.core) && StartsOk(s.core) && WaitsOk(s)
  }

  // ---------- Starts that may still act ----------

  /** The start is being spawned, listens to its child, or is about to restart. */
  predicate Active(s: Sys, c: nat) {
    c < |s.core.calls| &&
    (s.core.calls[c].listening || SpawnCont(c) in s.conts || ErrorCont(c, true) in s.conts || DelayCont(c) in s.conts)
  }

  /** It may still act, and its id leads to another record than the one it was begun for. */
  predicate Astray(s: Sys, c: nat) {
    && Active(s, c) && s.core.Has(s.core.calls[c].id)
    && s.core.procs[s.core.calls[c].id] != s.core.calls[c].ref
  }

  ghost predicate OwnOnly(s: Sys) {
    forall c: nat | Active(s, c) :: !Astray(s, c)
  }

  /** The child of the start is no longer listened to. */
  predicate Silenced(m: Core, c: nat) {
    c < |m.calls| && m.calls[c].child && !m.calls[c].listening
  }

  ghost predicate Follows(s: Sys, s': Sys) {
    && WellFormed(s')
    && (OwnOnly(s) ==> OwnOnly(s'))
    && (forall c: nat | Silenced(s.core, c) :: Silenced(s'.core, c))
  }

  /** Nothing is begun, spawned or created. */
  ghost predicate Calm(m: Core, m': Core) {
    && (forall id | id in m'.procs :: id in m.procs && m'.procs[id] == m.procs[id])
    && |m'.records| == |m.records| && |m'.calls| == |m.calls|
    && (forall ref | 0 <= ref < |m.records| ::
          m'.records[ref].id == m.records[ref].id && m'.records[ref].terminator == m.records[ref].terminator)
    && (forall c | 0 <= c < |m.calls| ::
          && m'.calls[c].id == m.calls[c].id && m'.calls[c].ref == m.calls[c].ref
          && m'.calls[c].child == m.calls[c].child && (m'.calls[c].listening ==> m.calls[c].listening))
  }

  /** Some of what waits, without repeating a spawn. */
  ghost predicate Part(rest: seq<Cont>, conts: seq<Cont>) {
    SpawnsOnce(rest) && forall cont | cont in rest :: cont in conts
  }

  lemma WithoutPart(s: Sys, i: nat)
    requires WaitsOk(s) && i < |s.conts|
    ensures Part(WithoutAt(s.conts, i), s.conts)
    ensures s.conts[i].SpawnCont? ==> s.conts[i] !in WithoutAt(s.conts, i)
  {
    var rest := WithoutAt(s.conts, i);
    forall cont | cont in rest ensures cont in s.conts {
      var j :| 0 <= j < |rest| && rest[j] == cont;
      assert s.conts[if j < i then j else j + 1] == cont;
    }
  }

  /** The added continuations are no spawns, and restarts only of starts that are active. */
  ghost predicate Timely(s: Sys, more: seq<Cont>) {
    forall k | 0 <= k < |more| ::
      match more[k]
      case SpawnCont(_) => false
      case ErrorCont(c, exit) => exit ==> Active(s, c)
      case DelayCont(c) => Active(s, c)
      case InnerCont(c, inner) => c < inner < |s.core.calls|
      case _ => true
  }

  lemma AddedIn(rest: seq<Cont>, more: seq<Cont>, cont: Cont)
    ensures cont in rest + more <==> cont in rest || cont in more
  {
  }

  lemma AddedInner(rest: seq<Cont>, more: seq<Cont>, s: Sys)
    requires Timely(s, more) && forall cont | cont in rest && cont.InnerCont? :: cont.call < cont.inner < |s.core.calls|
    ensures forall cont | cont in rest + more && cont.InnerCont? :: cont.call < cont.inner < |s.core.calls|
  {
    forall cont | cont in rest + more && cont.InnerCont? ensures cont.call < cont.inner < |s.core.calls| {
      AddedIn(rest, more, cont);
      if cont in more {
        var k :| 0 <= k < |more| && more[k] == cont;
      }
    }
  }

  lemma CalmStep(s: Sys, rest: seq<Cont>, m': Core, more: seq<Cont>)
    requires WellFormed(s) && Part(rest, s.conts) && Calm(s.core, m') && Timely(s, more)
    ensures Follows(s, Sys(m', rest + more))
  {
    var s' := Sys(m', rest + more);
    forall c: nat
      ensures SpawnCont(c) in s'.conts ==> SpawnCont(c) in s.conts
      ensures ErrorCont(c, true) in s'.conts ==> ErrorCont(c, true) in s.conts || Active(s, c)
      ensures DelayCont(c) in s'.conts ==> DelayCont(c) in s.conts || Active(s, c)
    {
      AddedIn(rest, more, SpawnCont(c));
      AddedIn(rest, more, ErrorCont(c, true));
      AddedIn(rest, more, DelayCont(c));
    }
    forall c: nat | Active(s', c) ensures Active(s, c) {
    }
    AddedInner(rest, more, s);
    CalmCore(s.core, m');
  }

  lemma CalmCore(m: Core, m': Core)
    requires TableOk(m) && StartsOk(m) && Calm(m, m')
    ensures TableOk(m') && StartsOk(m')
  {
    forall id | id in m'.procs ensures m'.Has(id) && m'.Get(id).id == id {
      assert m.Has(id);
    }
    forall ref | 0 <= ref < |m'.records| && m'.records[ref].terminator.Some?
      ensures HasChild(m', m'.records[ref].terminator.value)
    {
      assert HasChild(m, m.records[ref].terminator.value);
    }
  }

  /** A start begins on the record its id leads to; it is all that is spawned anew. */
  lemma BeginStep(s: Sys, rest: seq<Cont>, id: Id, force: bool, now: int, more: seq<Cont>)
    requires WellFormed(s) && Part(rest, s.conts) && Begin(s.core, id, force, now).1.None?
    requires more == [SpawnCont(|s.core.calls|)]
          || exists c: nat | c < |s.core.calls| :: more == [SpawnCont(|s.core.calls|), InnerCont(c, |s.core.calls|)]
    ensures Follows(s, Sys(Begin(s.core, id, force, now).0, rest + more))
  {
    var m, n := s.core, |s.core.calls|;
    var m' := Begin(m, id, force, now).0;
    var s' := Sys(m', rest + more);
    assert m'.calls == m.calls + [Call(id, m.procs[id], false, false, false, false, [])];
    forall c: nat
      ensures SpawnCont(c) in s'.conts ==> c == n || SpawnCont(c) in s.conts
      ensures ErrorCont(c, true) in s'.conts ==> ErrorCont(c, true) in s.conts
      ensures DelayCont(c) in s'.conts ==> DelayCont(c) in s.conts
    {
      AddedIn(rest, more, SpawnCont(c));
      AddedIn(rest, more, ErrorCont(c, true));
      AddedIn(rest, more, DelayCont(c));
    }
    assert SpawnCont(n) !in s.conts;
    assert forall c: nat | Active(s', c) :: c == n || Active(s, c);
  }

  /** A spawned child belongs to its start from now on. */
  lemma SpawnedStep(s: Sys, i: nat, c: nat)
    requires WellFormed(s) && i < |s.conts| && s.conts[i] == SpawnCont(c) && c < |s.core.calls|
    ensures Follows(s, Sys(Spawned(s.core, c), WithoutAt(s.conts, i)))
  {
    WithoutPart(s, i);
    var s' := Sys(Spawned(s.core, c), WithoutAt(s.conts, i));
    assert SpawnCont(c) in s.conts && SpawnCont(c) !in s'.conts;
    assert !HasChild(s.core, c);
    assert forall d: nat | Active(s', d) :: Active(s, d);
  }

  /** A create that succeeds while an older start of the same id may still act. */
  ghost predicate Hasty(s: Sys, op: Op) {
    op.DoCreate? && Apply(s, op).core != s.core && exists c: nat :: Active(s, c) && s.core.calls[c].id == op.id
  }

  lemma CreateStep(s: Sys, op: Op)
    requires WellFormed(s) && op.DoCreate?
    ensures WellFormed(Apply(s, op)) && forall c: nat | Silenced(s.core, c) :: Silenced(Apply(s, op).core, c)
    ensures OwnOnly(s) ==> (OwnOnly(Apply(s, op)) <==> !Hasty(s, op))
  {
    var s' := Apply(s, op);
    var m, m' := s.core, s'.core;
    if m' != m {
      assert op.id !in m.procs;
      assert m'.procs == m.procs[op.id := |m.records|] && m'.calls == m.calls;
      assert forall c: nat :: Active(s', c) <==> Active(s, c);
      if c: nat :| Active(s, c) && m.calls[c].id == op.id {
        assert Active(s', c) && m'.procs[op.id] != m.calls[c].ref;
      }
    }
  }

  lemma SettleCalm(m: Core, c: nat, value: bool)
    requires c < |m.calls|
    ensures Calm(m, Settle(m, c, value))
  {
  }

  lemma QuietCalm(m: Core, c: nat)
    requires c < |m.calls|
    ensures Calm(m, Quiet(m, c))
  {
  }

  lemma ReadyCalm(m: Core, c: nat)
    requires c < |m.calls|
    ensures Calm(m, MarkReady(m, c))
  {
  }

  lemma CallsCalm(m: Core, c: nat, value: bool)
    requires c < |m.calls|
    ensures Calm(m, m) && Calm(m, Settle(m, c, value)) && Calm(m, Quiet(m, c)) && Calm(m, Settle(Quiet(m, c), c, value))
    ensures Calm(m, MarkReady(m, c)) && |Quiet(m, c).calls| == |m.calls|
  {
    hide Settle, Quiet, MarkReady;
    SettleCalm(m, c, value);
    QuietCalm(m, c);
    SettleCalm(Quiet(m, c), c, value);
    ReadyCalm(m, c);
  }

  lemma RecordsCalm(m: Core, id: Id, ref: nat, status: Status, now: int)
    ensures Calm(m, SetState(m, id, status, now)) && Calm(m, SetTimer(m, id)) && Calm(m, ClearTimer(m, id))
    ensures ref < |m.records| ==> Calm(m, Terminate(m, ref)) && Calm(m, Finish(m, id, ref))
  {
    hide Quiet;
    if ref < |m.records| && m.records[ref].terminator.Some? && m.records[ref].terminator.value < |m.calls| {
      QuietCalm(m, m.records[ref].terminator.value);
    }
  }

  lemma ResumeFollows(s: Sys, i: nat, ok: bool, now: int)
    requires WellFormed(s) && i < |s.conts|
    ensures Follows(s, Apply(s, Resume(i, ok, now)))
  {
    hide WellFormed, Follows, Calm, Part, Settle, Spawned, Terminate, Finish, Begin;
    assert WaitsOk(s) by { Parts(s); }
    var m, rest, cont := s.core, WithoutAt(s.conts, i), s.conts[i];
    assert cont in s.conts;
    WithoutPart(s, i);
    assert rest + [] == rest;
    assert Calm(m, m) by { RecordsCalm(m, 0, 0, Waiting, 0); JustCalm(m); }
    match cont
    case SpawnCont(c) =>
      if ok {
        SpawnedStep(s, i, c);
      } else {
        CallsCalm(m, c, false);
        CalmStep(s, rest, Settle(m, c, false), []);
      }
    case ErrorCont(c, exit) =>
      if c < |m.calls| {
        CallsCalm(m, c, false);
        if m.Has(m.calls[c].id) && exit {
          CalmStep(s, rest, m, [DelayCont(c)]);
        } else {
          CalmStep(s, rest, Settle(m, c, false), []);
        }
      } else {
        CalmStep(s, rest, m, []);
      }
    case DelayCont(c) =>
      if m.Has(m.calls[c].id) {
        ForcedBegins(m, m.calls[c].id, now);
        BeginStep(s, rest, m.calls[c].id, true, now, [SpawnCont(|m.calls|), InnerCont(c, |m.calls|)]);
      } else {
        CallsCalm(m, c, false);
        CalmStep(s, rest, Settle(m, c, false), []);
      }
    case ReadyCont(c) =>
      if c < |m.calls| {
        CallsCalm(m, c, true);
        CalmStep(s, rest, Settle(m, c, true), []);
      } else {
        CalmStep(s, rest, m, []);
      }
    case InnerCont(c, inner) =>
      CalmStep(s, rest, m, [cont]);
      CalmStep(s, rest, m, []);
      if c < |m.calls| && inner < |m.calls| && m.calls[inner].resolved != [] {
        CallsCalm(m, c, m.calls[inner].resolved[0]);
        CalmStep(s, rest, Settle(m, c, m.calls[inner].resolved[0]), []);
      }
    case StopCont(id, ref, removing) =>
      if ref < |m.records| {
        RecordsCalm(m, id, ref, Waiting, 0);
        CalmStep(s, rest, Terminate(m, ref), if removing then [RemoveCont(id, ref)] else []);
      } else {
        CalmStep(s, rest, m, []);
      }
    case RemoveCont(id, ref) =>
      if ref < |m.records| {
        RecordsCalm(m, id, ref, Waiting, 0);
        CalmStep(s, rest, Finish(m, id, ref), []);
      } else {
        CalmStep(s, rest, m, []);
      }
  }

  lemma Parts(s: Sys)
    requires WellFormed(s)
    ensures WaitsOk(s) && Part(s.conts, s.conts)
  {
  }

  lemma JustCalm(m: Core)
    ensures Calm(m, m)
  {
  }

  lemma ForcedBegins(m: Core, id: Id, now: int)
    requires m.Has(id)
    ensures Begin(m, id, true, now).1.None?
  {
  }

  lemma {:induction false} StoppingFollows(s: Sys, ids: seq<Id>)
    requires WellFormed(s)
    ensures Follows(s, StoppingAll(s, ids))
  {
    if ids != [] {
      StoppingFollows(s, ids[..|ids| - 1]);
      StopFollows(StoppingAll(s, ids[..|ids| - 1]), ids[|ids| - 1], true);
    }
  }

  lemma StopFollows(s: Sys, id: Id, removing: bool)
    requires WellFormed(s)
    ensures Follows(s, Stopping(s, id, removing))
  {
    hide Calm, Part;
    Parts(s);
    JustCalm(s.core);
    if s.core.Has(id) {
      CalmStep(s, s.conts, s.core, [StopCont(id, s.core.procs[id], removing)]);
    }
  }

  lemma ChildFollows(s: Sys, op: Op)
    requires WellFormed(s) && (op.ChildExit? || op.ChildError? || op.ChildReady?)
    ensures Follows(s, Apply(s, op))
  {
    hide Calm, Part, Settle, Quiet, MarkReady;
    Parts(s);
    var m, c: nat := s.core, Continues(s, op).value;
    assert s.conts + [] == s.conts;
    if Listens(s, c) {
      match op
      case ChildExit(_, how) =>
        CallsCalm(m, c, how == Clean);
        if how == Code {
          CalmStep(s, s.conts, Quiet(m, c), [ErrorCont(c, true)]);
        } else {
          CalmStep(s, s.conts, Settle(Quiet(m, c), c, how == Clean), []);
        }
      case ChildError(_) =>
        CallsCalm(m, c, true);
        CalmStep(s, s.conts, Quiet(m, c), [ErrorCont(c, false)]);
      case ChildReady(_) =>
        CallsCalm(m, c, true);
        CalmStep(s, s.conts, MarkReady(m, c), if m.Has(m.calls[c].id) then [ReadyCont(c)] else []);
    }
  }

  /** Every step but `create` keeps starts to their own records; and a child that is not
      heard any more stays so. */
  lemma StepFollows(s: Sys, op: Op)
    requires WellFormed(s) && !op.DoCreate?
    ensures Follows(s, Apply(s, op))
  {
    hide Calm, Part, Begin;
    var m := s.core;
    Parts(s);
    assert s.conts + [] == s.conts;
    match op
    case DoStart(id, force, now) =>
      if Begin(m, id, force, now).1.None? {
        BeginStep(s, s.conts, id, force, now, [SpawnCont(|m.calls|)]);
      } else {
        NotBegun(m, id, force, now);
      }
    case DoStop(id) => StopFollows(s, id, false);
    case DoRemove(id) => StopFollows(s, id, true);
    case DoSetState(id, status, now) =>
      RecordsCalm(m, id, 0, status, now);
      CalmStep(s, s.conts, SetState(m, id, status, now), []);
    case DoSetTimer(id) =>
      RecordsCalm(m, id, 0, Waiting, 0);
      CalmStep(s, s.conts, SetTimer(m, id), []);
    case DoClearTimer(id) =>
      RecordsCalm(m, id, 0, Waiting, 0);
      CalmStep(s, s.conts, ClearTimer(m, id), []);
    case DoCleanup(order) => StoppingFollows(s, order);
    case ChildExit(c, how) => ChildFollows(s, op);
    case ChildError(c) => ChildFollows(s, op);
    case ChildReady(c) => ChildFollows(s, op);
    case Resume(i, ok, now) =>
      if i < |s.conts| {
        ResumeFollows(s, i, ok, now);
      }
  }

  lemma NotBegun(m: Core, id: Id, force: bool, now: int)
    requires Begin(m, id, force, now).1.Some?
    ensures Begin(m, id, force, now).0 == m
  {
  }

  lemma {:induction false} RunWellFormed(pool: seq<Resource>, ops: seq<Op>)
    ensures WellFormed(Run(pool, ops))
  {
    hide WellFormed;
    if ops == [] {
      StartWellFormed(pool);
    } else {
      var s, op := Run(pool, ops[..|ops| - 1]), ops[|ops| - 1];
      RunWellFormed(pool, ops[..|ops| - 1]);
      if op.DoCreate? {
        CreateStep(s, op);
      } else {
        StepFollows(s, op);
      }
    }
  }

  lemma StartWellFormed(pool: seq<Resource>)
    ensures WellFormed(Start(pool)) && OwnOnly(Start(pool))
  {
  }

  // ---------- On which record a start acts ----------

  /** A callback of a start that changes another record than the one it was begun for. */
  ghost predicate Strays(s: Sys, op: Op) {
    Continues(s, op).Some? &&
    var c: nat := Continues(s, op).value;
    c < |s.core.calls| &&
    exists ref :: 0 <= ref < |s.core.records| && ref != s.core.calls[c].ref && Changed(s, op, ref)
  }

  predicate Changed(s: Sys, op: Op, ref: nat)
    requires ref < |s.core.records|
  {
    ref >= |Apply(s, op).core.records| || Apply(s, op).core.records[ref] != s.core.records[ref]
  }

  function RunFrom(s: Sys, ops: seq<Op>): Sys
    decreases |ops|
  {
    if ops == [] then s else RunFrom(Apply(s, ops[0]), ops[1..])
  }

  predicate CreateFree(ops: seq<Op>) {
    forall i | 0 <= i < |ops| :: !ops[i].DoCreate?
  }

  /** From here on, without another `create`, some callback can stray. */
  ghost predicate MayStray(s: Sys) {
    exists ops, op :: CreateFree(ops) && Strays(RunFrom(s, ops), op)
  }

  /** Nothing strays where every start keeps to its own record. */
  lemma OwnKeeps(s: Sys, op: Op)
    requires WellFormed(s) && OwnOnly(s)
    ensures !Strays(s, op)
  {
    if Strays(s, op) {
      var c: nat := Continues(s, op).value;
      var ref :| 0 <= ref < |s.core.records| && ref != s.core.calls[c].ref && Changed(s, op, ref);
      OnlyWrites(s, op, c, ref);
    }
  }

  /** A callback writes to nothing but the record its id leads to, and only while its
      start is active. */
  lemma OnlyWrites(s: Sys, op: Op, c: nat, ref: nat)
    requires Continues(s, op).Some? && c == Continues(s, op).value && c < |s.core.calls| && ref < |s.core.records|
    requires Changed(s, op, ref)
    ensures Active(s, c) && s.core.Has(s.core.calls[c].id) && s.core.procs[s.core.calls[c].id] == ref
  {
    if op.Resume? {
      assert s.conts[op.i] in s.conts;
    }
  }

  lemma {:induction false} OwnForEver(s: Sys, ops: seq<Op>)
    requires WellFormed(s) && OwnOnly(s) && CreateFree(ops)
    ensures WellFormed(RunFrom(s, ops)) && OwnOnly(RunFrom(s, ops))
    decreases |ops|
  {
    hide WellFormed, OwnOnly;
    if ops != [] {
      StepFollows(s, ops[0]);
      OwnForEver(Apply(s, ops[0]), ops[1..]);
    }
  }

  lemma MayStrayLater(s: Sys, op: Op)
    requires !op.DoCreate? && MayStray(Apply(s, op))
    ensures MayStray(s)
  {
    hide Strays;
    var ops, last :| CreateFree(ops) && Strays(RunFrom(Apply(s, op), ops), last);
    var all := [op] + ops;
    assert all[1..] == ops && all[0] == op;
    assert CreateFree(all) && Strays(RunFrom(s, all), last);
  }

  lemma MayStrayNow(s: Sys, op: Op)
    requires Strays(s, op)
    ensures MayStray(s)
  {
    assert CreateFree([]) && Strays(RunFrom(s, []), op);
  }

  /** A start that is active and does not own the record its id leads to can change it. */
  lemma AstrayCall(s: Sys, c: nat)
    requires WellFormed(s) && Astray(s, c)
    ensures MayStray(s)
  {
    hide MayStray, Strays;
    if DelayCont(c) in s.conts {
      AstrayDelay(s, c);
    } else if ErrorCont(c, true) in s.conts {
      AstrayError(s, c);
    } else if SpawnCont(c) in s.conts {
      AstraySpawn(s, c);
    } else {
      AstrayListener(s, c);
    }
  }

  lemma AstrayDelay(s: Sys, c: nat)
    requires WellFormed(s) && Astray(s, c) && DelayCont(c) in s.conts
    ensures MayStray(s)
  {
    hide MayStray;
    var i :| 0 <= i < |s.conts| && s.conts[i] == DelayCont(c);
    var id := s.core.calls[c].id;
    var op := Resume(i, true, s.core.Get(id).startTime + 1);
    assert Apply(s, op).core.records[s.core.procs[id]].startTime == s.core.Get(id).startTime + 1;
    assert Changed(s, op, s.core.procs[id]);
    MayStrayNow(s, op);
  }

  lemma AstraySpawn(s: Sys, c: nat)
    requires WellFormed(s) && Astray(s, c) && SpawnCont(c) in s.conts
    ensures MayStray(s)
  {
    hide MayStray;
    var i :| 0 <= i < |s.conts| && s.conts[i] == SpawnCont(c);
    var id, op := s.core.calls[c].id, Resume(i, true, 0);
    assert s.core.Get(id).terminator.Some? ==> HasChild(s.core, s.core.Get(id).terminator.value);
    assert Apply(s, op).core.records[s.core.procs[id]].terminator.Some?;
    assert Changed(s, op, s.core.procs[id]);
    MayStrayNow(s, op);
  }

  lemma AstrayError(s: Sys, c: nat)
    requires WellFormed(s) && Astray(s, c) && ErrorCont(c, true) in s.conts
    ensures MayStray(s)
  {
    hide MayStray, WellFormed, Follows;
    var i :| 0 <= i < |s.conts| && s.conts[i] == ErrorCont(c, true);
    var op := Resume(i, true, 0);
    var s' := Apply(s, op);
    assert s'.core == s.core && s'.conts == WithoutAt(s.conts, i) + [DelayCont(c)];
    assert s'.conts[|s'.conts| - 1] == DelayCont(c);
    assert WellFormed(s') by { StillWellFormed(s, op); }
    AstrayDelay(s', c);
    MayStrayLater(s, op);
  }

  lemma StillWellFormed(s: Sys, op: Op)
    requires WellFormed(s) && !op.DoCreate?
    ensures WellFormed(Apply(s, op))
  {
    hide WellFormed;
    StepFollows(s, op);
  }

  lemma AstrayListener(s: Sys, c: nat)
    requires WellFormed(s) && Astray(s, c) && s.core.calls[c].listening
    ensures MayStray(s)
  {
    hide MayStray, WellFormed, Follows;
    var op := ChildExit(c, Code);
    var s' := Apply(s, op);
    assert s'.conts[|s'.conts| - 1] == ErrorCont(c, true);
    StillWellFormed(s, op);
    AstrayError(s', c);
    MayStrayLater(s, op);
  }

  /** No callback can stray exactly when every active start owns its id's record. */
  lemma OwnExactly(s: Sys)
    requires WellFormed(s)
    ensures OwnOnly(s) <==> !MayStray(s)
  {
    hide WellFormed, Astray, Strays;
    if OwnOnly(s) {
      if ops, op :| CreateFree(ops) && Strays(RunFrom(s, ops), op) {
        OwnForEver(s, ops);
        OwnKeeps(RunFrom(s, ops), op);
      }
    } else {
      var c: nat :| Active(s, c) && Astray(s, c);
      AstrayCall(s, c);
    }
  }

  /** No id is created again while an older start of it is being spawned, listens to its
      child or is about to restart. */
  ghost predicate Patient(pool: seq<Resource>, ops: seq<Op>) {
    ops == [] || (Patient(pool, ops[..|ops| - 1]) && !Hasty(Run(pool, ops[..|ops| - 1]), ops[|ops| - 1]))
  }

  ghost predicate NeverAstray(pool: seq<Resource>, ops: seq<Op>) {
    !MayStray(Run(pool, ops)) && (ops == [] || NeverAstray(pool, ops[..|ops| - 1]))
  }

  /** At no point of a run can a callback of a start - a spawn, a ready message, a crash
      and the restart after it - change another record than its own, exactly when no id
      is created again while an older start of it may still act. */
  lemma {:induction false} KeepsToItselfExactlyWhen(pool: seq<Resource>, ops: seq<Op>)
    ensures NeverAstray(pool, ops) <==> Patient(pool, ops)
  {
    hide WellFormed, OwnOnly, MayStray, Hasty, Apply;
    RunWellFormed(pool, ops);
    OwnExactly(Run(pool, ops));
    if ops == [] {
      StartWellFormed(pool);
    } else {
      var before, op := ops[..|ops| - 1], ops[|ops| - 1];
      KeepsToItselfExactlyWhen(pool, before);
      RunWellFormed(pool, before);
      OwnExactly(Run(pool, before));
      if Patient(pool, before) {
        NeverAstrayNow(pool, before);
        OwnStep(Run(pool, before), op);
      }
    }
  }

  lemma NeverAstrayNow(pool: seq<Resource>, ops: seq<Op>)
    requires NeverAstray(pool, ops)
    ensures !MayStray(Run(pool, ops))
  {
  }

  lemma OwnStep(s: Sys, op: Op)
    requires WellFormed(s) && OwnOnly(s)
    ensures OwnOnly(Apply(s, op)) <==> !Hasty(s, op)
  {
    hide WellFormed, OwnOnly;
    if op.DoCreate? {
      CreateStep(s, op);
    } else {
      StepFollows(s, op);
    }
  }

  // ---------- Children that are no longer heard ----------

  /** The step runs the cleanup of start `c`: its child has ended or failed, or a stop
      has reached the terminate handler that `c` left. */
  predicate Silences(s: Sys, op: Op, c: nat) {
    match op
    case ChildExit(d, how) => d == c && Listens(s, c)
    case ChildError(d) => d == c && Listens(s, c)
    case Resume(i, ok, now) =>
      i < |s.conts| && s.conts[i].StopCont? && s.conts[i].ref < |s.core.records|
      && s.core.records[s.conts[i].ref].terminator == Some(c)
    case _ => false
  }

  lemma SilencesNow(s: Sys, op: Op, c: nat)
    requires WellFormed(s) && Silences(s, op, c)
    ensures Silenced(Apply(s, op).core, c)
  {
    if op.Resume? {
      assert HasChild(s.core, s.core.records[s.conts[op.i].ref].terminator.value);
    }
  }

  lemma {:induction false} StaysSilenced(pool: seq<Resource>, ops: seq<Op>, k: nat, c: nat)
    requires k <= |ops| && Silenced(Run(pool, ops[..k]).core, c)
    ensures Silenced(Run(pool, ops).core, c)
    decreases |ops|
  {
    hide WellFormed, OwnOnly, Silenced, Apply;
    if k == |ops| {
      assert ops[..k] == ops;
    } else {
      var before, op := ops[..|ops| - 1], ops[|ops| - 1];
      assert before[..k] == ops[..k];
      StaysSilenced(pool, before, k, c);
      RunWellFormed(pool, before);
      if op.DoCreate? {
        CreateStep(Run(pool, before), op);
      } else {
        StepFollows(Run(pool, before), op);
      }
    }
  }

  /** Once a start has cleaned up, nothing that its child does has an effect, whatever
      happens afterwards: its listeners are never attached again. */
  lemma HeardNoMore(pool: seq<Resource>, ops: seq<Op>, k: nat, c: nat, how: Exit)
    requires k < |ops| && Silences(Run(pool, ops[..k]), ops[k], c)
    ensures var s := Run(pool, ops);
            Apply(s, ChildExit(c, how)) == s && Apply(s, ChildError(c)) == s && Apply(s, ChildReady(c)) == s
  {
    hide Run;
    RunWellFormed(pool, ops[..k]);
    SilencesNow(Run(pool, ops[..k]), ops[k], c);
    assert ops[..k + 1] == ops[..k] + [ops[k]];
    RunStep(pool, ops[..k], ops[k], Apply(Run(pool, ops[..k]), ops[k]));
    StaysSilenced(pool, ops, k + 1, c);
  }

  // ---------- Safe timers ----------

  /** A timer is stored only with a process that is managed. */
  ghost predicate TimersManaged(m: Core) {
    forall ref | 0 <= ref < |m.records| && m.records[ref].timer :: Live(m, ref)
  }

  /** A step that changes the state of a process clears its timer, and only `setTimer`
      of its own id stores one. */
  lemma StateChangesClearTimers(s: Sys, op: Op, ref: nat)
    requires ref < |s.core.records|
    ensures var r, m' := s.core.records[ref], Apply(s, op).core;
            && ref < |m'.records|
            && (m'.records[ref].status != r.status ==> !m'.records[ref].timer)
            && (m'.records[ref].timer && !r.timer ==>
                  op.DoSetTimer? && op.id in s.core.procs && s.core.procs[op.id] == ref)
  {
    if op.DoCleanup? {
      StoppingAllCore(s, op.order);
    }
  }

  /** The end of a remove leaves no timer behind exactly when the id leads to the record
      it looked up, or to none, or to one without a timer. */
  lemma FinishTimersExactlyWhen(m: Core, id: Id, ref: nat)
    requires TableOk(m) && TimersManaged(m) && ref < |m.records|
    ensures TimersManaged(Finish(m, id, ref))
       <==> id !in m.procs || m.procs[id] == ref || !m.Get(id).timer
  {
    var m' := Finish(m, id, ref);
    if id in m.procs && m.procs[id] != ref && m.Get(id).timer {
      assert m'.records[m.procs[id]].timer && !Live(m', m.procs[id]);
    }
  }

  lemma TimersStep(s: Sys, op: Op)
    requires TableOk(s.core) && NoOverlap(s) && TimersManaged(s.core)
    ensures TimersManaged(Apply(s, op).core)
  {
    var m := s.core;
    match op
    case DoCleanup(order) => StoppingAllCore(s, order);
    case Resume(i, ok, now) =>
      if i < |s.conts| && s.conts[i].RemoveCont? {
        var id, ref := s.conts[i].id, s.conts[i].ref;
        assert Removes(s.conts[i], id) && m.Has(id) && m.procs[id] == Target(s.conts[i]) == ref;
        FinishTimersExactlyWhen(m, id, ref);
      } else if i < |s.conts| {
        TimersResume(s, i, ok, now);
      }
    case _ =>
  }

  lemma TimersResume(s: Sys, i: nat, ok: bool, now: int)
    requires TableOk(s.core) && TimersManaged(s.core) && i < |s.conts| && !s.conts[i].RemoveCont?
    ensures TimersManaged(Apply(s, Resume(i, ok, now)).core)
  {
  }

  /** In every interleaving in which removes of one id do not overlap, a timer that is
      stored belongs to a managed process: removing a process clears it. */
  lemma {:induction false} RunTimersManaged(pool: seq<Resource>, ops: seq<Op>)
    requires AllowedRun(pool, ops)
    ensures TimersManaged(Run(pool, ops).core)
  {
    hide TableOk, NoOverlap, TimersManaged, Apply, Total;
    if ops == [] {
      StartTimers(pool);
    } else {
      var before := ops[..|ops| - 1];
      RunTimersManaged(pool, before);
      RunConserves(pool, before);
      TimersStep(Run(pool, before), ops[|ops| - 1]);
    }
  }

  lemma StartTimers(pool: seq<Resource>)
    ensures TimersManaged(Start(pool).core)
  {
  }

  /** Two removes at a time, and between their ends the id is created again and a timer is
      stored: the second remove takes the new record out of the table with its timer set. */
  lemma OverlapTimerExample(r: Resource)
    ensures var m := Run([r], [DoCreate(1, 1, Waiting, 0), DoRemove(1), DoRemove(1), Resume(0, true, 0),
                               Resume(0, true, 0), Resume(0, true, 0), DoCreate(1, 0, Waiting, 0), DoSetTimer(1),
                               Resume(0, true, 0)]).core;
            |m.records| == 2 && m.records[1].timer && m.procs == map[] && !TimersManaged(m)
  {
    hide Run;
    var ops := OverlapRecreated(r);
    var r0, r1 := Record(1, Waiting, 0, false, [r], None), Record(1, Waiting, 0, true, [], None);
    var s := Sys(Core([r], map[1 := 1], [r0, r1], []), [RemoveCont(1, 0)]);
    var s' := Apply(s, Resume(0, true, 0));
    assert s'.core == Finish(s.core, 1, 0) && !Live(s'.core, 1);
    RunStep([r], ops, Resume(0, true, 0), s');
    assert ops + [Resume(0, true, 0)]
        == [DoCreate(1, 1, Waiting, 0), DoRemove(1), DoRemove(1), Resume(0, true, 0),
            Resume(0, true, 0), Resume(0, true, 0), DoCreate(1, 0, Waiting, 0), DoSetTimer(1), Resume(0, true, 0)];
  }

  lemma OverlapRecreated(r: Resource) returns (ops: seq<Op>)
    ensures ops == [DoCreate(1, 1, Waiting, 0), DoRemove(1), DoRemove(1), Resume(0, true, 0),
                    Resume(0, true, 0), Resume(0, true, 0), DoCreate(1, 0, Waiting, 0), DoSetTimer(1)]
    ensures var r0, r1 := Record(1, Waiting, 0, false, [r], None), Record(1, Waiting, 0, true, [], None);
            Run([r], ops) == Sys(Core([r], map[1 := 1], [r0, r1], []), [RemoveCont(1, 0)])
  {
    hide Run;
    ops := OverlapStopped(r);
    var r0, r1 := Record(1, Waiting, 0, false, [r], None), Record(1, Waiting, 0, false, [], None);
    var s := Sys(Core([], map[1 := 0], [r0], []), [RemoveCont(1, 0), RemoveCont(1, 0)]);
    var s1 := Sys(Core([r], map[], [r0], []), [RemoveCont(1, 0)]);
    assert WithoutAt(s.conts, 0) == [RemoveCont(1, 0)] && Finish(s.core, 1, 0) == s1.core;
    RunStep([r], ops, Resume(0, true, 0), s1);
    ops := ops + [Resume(0, true, 0)];
    var s2 := s1.(core := Core([r], map[1 := 1], [r0, r1], []));
    assert Create(s1.core, 1, 0, Waiting, 0) == s2.core;
    RunStep([r], ops, DoCreate(1, 0, Waiting, 0), s2);
    ops := ops + [DoCreate(1, 0, Waiting, 0)];
    assert SetTimer(s2.core, 1) == s2.core.(records := [r0, r1.(timer := true)]);
    RunStep([r], ops, DoSetTimer(1), s2.(core := SetTimer(s2.core, 1)));
    ops := ops + [DoSetTimer(1)];
  }

  // ---------- A restart that goes to the wrong process ----------

  const CREATE := DoCreate(1, 0, Waiting, 0)
  const START := DoStart(1, false, 0)

  /** A process crashes, and within the delay before its restart it is removed, created
      again, started and ready. Then the delay is over: the new process, which runs, is
      set to starting, and a second child is spawned for it. */
  lemma StaleRestartExample()
    ensures var ops := [CREATE, START, Resume(0, true, 0), ChildExit(0, Code), Resume(0, true, 0),
                        DoRemove(1), Resume(1, true, 0), Resume(1, true, 0),
                        CREATE, START, Resume(1, true, 0), ChildReady(1)];
            var s, s' := Run([], ops), Run([], ops + [Resume(0, true, 2000)]);
            && s.core.Has(1) && s.core.procs[1] == 1 && s.core.Get(1).status == Running && Listens(s, 1)
            && Strays(s, Resume(0, true, 2000))
            && s'.core.Get(1).status == Starting && SpawnCont(2) in s'.conts && Listens(s', 1)
  {
    hide Run;
    var ops := [CREATE, START, Resume(0, true, 0), ChildExit(0, Code), Resume(0, true, 0),
                DoRemove(1), Resume(1, true, 0), Resume(1, true, 0)];
    var s := Recreated();
    var op := Resume(0, true, 2000);
    var all := ops + [CREATE] + [START] + [Resume(1, true, 0)] + [ChildReady(1)];
    RunStep([], all, op, Apply(s, op));
    assert Changed(s, op, 1);
    assert all == [CREATE, START, Resume(0, true, 0), ChildExit(0, Code), Resume(0, true, 0),
                   DoRemove(1), Resume(1, true, 0), Resume(1, true, 0),
                   CREATE, START, Resume(1, true, 0), ChildReady(1)];
  }

  /** The first process, crashed and removed, with its restart still to come. */
  function Crashed(): Sys {
    Sys(Core([], map[], [Record(1, Starting, 0, false, [], Some(0))], [Call(1, 0, true, false, false, false, [])]),
        [DelayCont(0)])
  }

  lemma CrashedRun()
    ensures Run([], [CREATE, START, Resume(0, true, 0), ChildExit(0, Code), Resume(0, true, 0),
                     DoRemove(1), Resume(1, true, 0), Resume(1, true, 0)]) == Crashed()
  {
    hide Run;
    CrashBegun();
    var ops := [CREATE, START, Resume(0, true, 0), ChildExit(0, Code), Resume(0, true, 0)];
    var m := Crashed().core.(procs := map[1 := 0]);
    RunStep([], ops, DoRemove(1), Sys(m, [DelayCont(0), StopCont(1, 0, true)]));
    assert Terminate(m, 0) == m;
    StoppedBehind(m, DelayCont(0));
    RunStep([], ops + [DoRemove(1)], Resume(1, true, 0), Sys(m, [DelayCont(0), RemoveCont(1, 0)]));
    FinishedBehind(m, DelayCont(0));
    RunStep([], ops + [DoRemove(1)] + [Resume(1, true, 0)], Resume(1, true, 0), Crashed());
    assert ops + [DoRemove(1)] + [Resume(1, true, 0)] + [Resume(1, true, 0)]
        == [CREATE, START, Resume(0, true, 0), ChildExit(0, Code), Resume(0, true, 0),
            DoRemove(1), Resume(1, true, 0), Resume(1, true, 0)];
  }

  lemma CrashBegun()
    ensures Run([], [CREATE, START, Resume(0, true, 0), ChildExit(0, Code), Resume(0, true, 0)])
         == Crashed().(core := Crashed().core.(procs := map[1 := 0]))
  {
    hide Run;
    var r := Record(1, Starting, 0, false, [], None);
    var m0 := Core([], map[1 := 0], [r], [Call(1, 0, false, false, false, false, [])]);
    var m1 := Core([], map[1 := 0], [r.(terminator := Some(0))], [Call(1, 0, true, true, true, false, [])]);
    var m2 := m1.(calls := [Call(1, 0, true, false, false, false, [])]);
    StartedOnce();
    var ops := [CREATE, START];
    assert WithoutAt([SpawnCont(0)], 0) == [] && Spawned(m0, 0) == m1;
    RunStep([], ops, Resume(0, true, 0), Sys(m1, []));
    assert Quiet(m1, 0) == m2;
    RunStep([], ops + [Resume(0, true, 0)], ChildExit(0, Code), Sys(m2, [ErrorCont(0, true)]));
    assert WithoutAt([ErrorCont(0, true)], 0) == [];
    RunStep([], ops + [Resume(0, true, 0)] + [ChildExit(0, Code)], Resume(0, true, 0), Sys(m2, [DelayCont(0)]));
    assert ops + [Resume(0, true, 0)] + [ChildExit(0, Code)] + [Resume(0, true, 0)]
        == [CREATE, START, Resume(0, true, 0), ChildExit(0, Code), Resume(0, true, 0)];
  }

  lemma Recreated() returns (s: Sys)
    ensures var ops := [CREATE, START, Resume(0, true, 0), ChildExit(0, Code), Resume(0, true, 0),
                        DoRemove(1), Resume(1, true, 0), Resume(1, true, 0)];
            s == Run([], ops + [CREATE] + [START] + [Resume(1, true, 0)] + [ChildReady(1)])
    ensures var r := Record(1, Running, 0, false, [], Some(1));
            s == Sys(Core([], map[1 := 1], [Record(1, Starting, 0, false, [], Some(0)), r],
                          [Call(1, 0, true, false, false, false, []), Call(1, 1, true, true, false, false, [])]),
                     [DelayCont(0), ReadyCont(1)])
  {
    hide Run;
    CrashedRun();
    var ops := [CREATE, START, Resume(0, true, 0), ChildExit(0, Code), Resume(0, true, 0),
                DoRemove(1), Resume(1, true, 0), Resume(1, true, 0)];
    var r, c := Crashed().core.records[0], Crashed().core.calls[0];
    var r', c' := Record(1, Waiting, 0, false, [], None), Call(1, 1, false, false, false, false, []);
    var m0 := Core([], map[1 := 1], [r, r'], [c]);
    assert Create(Crashed().core, 1, 0, Waiting, 0) == m0;
    RunStep([], ops, CREATE, Sys(m0, [DelayCont(0)]));
    var m1 := Core([], map[1 := 1], [r, r'.(status := Starting)], [c, c']);
    assert Begin(m0, 1, false, 0).0 == m1;
    RunStep([], ops + [CREATE], START, Sys(m1, [DelayCont(0), SpawnCont(1)]));
    var m2 := Core([], map[1 := 1], [r, r'.(status := Starting, terminator := Some(1))],
                   [c, c'.(child := true, listening := true, awaitsReady := true)]);
    assert WithoutAt([DelayCont(0), SpawnCont(1)], 1) == [DelayCont(0)] && Spawned(m1, 1) == m2;
    RunStep([], ops + [CREATE] + [START], Resume(1, true, 0), Sys(m2, [DelayCont(0)]));
    s := Apply(Sys(m2, [DelayCont(0)]), ChildReady(1));
    RunStep([], ops + [CREATE] + [START] + [Resume(1, true, 0)], ChildReady(1), s);
  }
}
