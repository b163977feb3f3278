/** Managed processes: their resources, and the lifecycle of one start.

    Each stretch of code between two awaits is one function on `Core`; what waits is kept
    in a list of continuations, and the event loop may resume them in any order. */
module Processes {
  import opened Wrappers

  /** Ids are strings in the source, only compared; resources are ports there. */
  type Id = int
  type Resource = int

  datatype Status = Waiting | Starting | Running

  /** A process record, with the start whose child its terminate handler kills. */
  datatype Record = Record(
    id: Id, status: Status, startTime: int, timer: bool, resources: seq<Resource>, terminator: Option<nat>)

  /** The variables one call of `start` closes over, and the values it has resolved with. */
  datatype Call = Call(id: Id, ref: nat, child: bool, listening: bool, awaitsReady: bool,
                       isResolved: bool, resolved: seq<bool>)

  datatype Core = Core(pool: seq<Resource>, procs: map<Id, nat>, records: seq<Record>, calls: seq<Call>)
  {
    predicate Has(id: Id) {
      id in procs && procs[id] < |records|
    }

    function Get(id: Id): Record
      requires Has(id)
    {
      records[procs[id]]
    }

    function PutRecord(ref: nat, r: Record): Core
      requires ref < |records|
    {
      this.(records := records[ref := r])
    }

    function PutCall(c: nat, call: Call): Core
      requires c < |calls|
    {
      this.(calls := calls[c := call])
    }
  }

  // ---------- Resources ----------

  /** `splice(0, count)` takes nothing for a negative count. */
  function Allocated(pool: seq<Resource>, count: int): Option<seq<Resource>> {
    if |pool| < count then None else Some(pool[..if count < 0 then 0 else count])
  }

  function Create(m: Core, id: Id, count: int, status: Status, now: int): Core {
    if m.Has(id) then m
    else
      var got := if count == 0 then Some([]) else Allocated(m.pool, count);
      if got.None? || |got.value| > |m.pool| then m
      else
        m.(pool := m.pool[|got.value|..], procs := m.procs[id := |m.records|],
           records := m.records + [Record(id, status, now, false, got.value, None)])
  }

  /** The end of `remove`, for the record it looked up at its beginning. */
  function Finish(m: Core, id: Id, ref: nat): Core
    requires ref < |m.records|
  {
    var r := m.records[ref];
    m.(records := m.records[ref := r.(timer := false)], pool := m.pool + r.resources, procs := m.procs - {id})
  }

  // ---------- One start ----------

  function Settle(m: Core, c: nat, value: bool): Core
    requires c < |m.calls|
  {
    var call := m.calls[c];
    if call.isResolved then m else m.PutCall(c, call.(isResolved := true, resolved := call.resolved + [value]))
  }

  /** The local `cleanup`: the child's listeners are removed. */
  function Quiet(m: Core, c: nat): Core
    requires c < |m.calls|
  {
    var call := m.calls[c];
    if call.child then m.PutCall(c, call.(listening := false, awaitsReady := false)) else m
  }

  /** `start` up to its first await; whether it got there, or what it returned. */
  function Begin(m: Core, id: Id, force: bool, now: int): (Core, Option<bool>) {
    if !m.Has(id) then (m, Some(false))
    else if !force && m.Get(id).status == Running then (m, Some(true))
    else
      var m' := m.PutRecord(m.procs[id], m.Get(id).(timer := false, status := Starting, startTime := now));
      (m'.(calls := m.calls + [Call(id, m.procs[id], false, false, false, false, [])]), None)
  }

  function Spawned(m: Core, c: nat): Core
    requires c < |m.calls|
  {
    var id := m.calls[c].id;
    var m' := m.PutCall(c, m.calls[c].(child := true, listening := true, awaitsReady := true));
    if m.Has(id) then m'.PutRecord(m.procs[id], m.Get(id).(terminator := Some(c))) else m'
  }

  /** A ready message: the record found under the id now is marked running. */
  function MarkReady(m: Core, c: nat): Core
    requires c < |m.calls|
  {
    var id := m.calls[c].id;
    var m' := if m.Has(id) then m.PutRecord(m.procs[id], m.Get(id).(timer := false, status := Running))
              else Settle(m, c, false);
    m'.PutCall(c, m'.calls[c].(awaitsReady := false))
  }

  /** The end of `stop`: the record's terminate handler, if it has one. */
  function Terminate(m: Core, ref: nat): Core
    requires ref < |m.records|
  {
    match m.records[ref].terminator
    case None => m
    case Some(c) => if c < |m.calls| then Quiet(m, c) else m
  }

  function SetState(m: Core, id: Id, status: Status, now: int): Core {
    if !m.Has(id) then m
    else
      var r := m.Get(id).(timer := false, status := status);
      m.PutRecord(m.procs[id], if status != Running then r.(startTime := now) else r)
  }

  /** A safe timer is stored with its process; one that was stored before is cleared. */
  function SetTimer(m: Core, id: Id): Core {
    if !m.Has(id) then m else m.PutRecord(m.procs[id], m.Get(id).(timer := true))
  }

  function ClearTimer(m: Core, id: Id): Core {
    if !m.Has(id) then m else m.PutRecord(m.procs[id], m.Get(id).(timer := false))
  }

  // ---------- The event loop ----------

  /** What waits: the callbacks of a start, its delay, the start it restarted, and the
      two halves of a remove. */
  datatype Cont =
    | SpawnCont(call: nat)
    | ErrorCont(call: nat, exit: bool)
    | DelayCont(call: nat)
    | ReadyCont(call: nat)
    | InnerCont(call: nat, inner: nat)
    | StopCont(id: Id, ref: nat, removing: bool)
    | RemoveCont(id: Id, ref: nat)

  datatype Sys = Sys(core: Core, conts: seq<Cont>)

  datatype Exit = Signal | Clean | Code

  datatype Op =
    | DoCreate(id: Id, count: int, status: Status, now: int)
    | DoStart(id: Id, force: bool, now: int)
    | DoStop(id: Id)
    | DoRemove(id: Id)
    | DoSetState(id: Id, status: Status, now: int)
    | DoSetTimer(id: Id)
    | DoClearTimer(id: Id)
    | DoCleanup(order: seq<Id>)
    | ChildExit(call: nat, how: Exit)
    | ChildError(call: nat)
    | ChildReady(call: nat)
    /** Resume a continuation; `ok` says whether a spawn succeeded. */
    | Resume(i: nat, ok: bool, now: int)

  function Stopping(s: Sys, id: Id, removing: bool): Sys {
    if s.core.Has(id) then s.(conts := s.conts + [StopCont(id, s.core.procs[id], removing)]) else s
  }

  function StoppingAll(s: Sys, ids: seq<Id>): Sys {
    if ids == [] then s else Stopping(StoppingAll(s, ids[..|ids| - 1]), ids[|ids| - 1], true)
  }

  /** A listener only runs while it is attached. */
  predicate Listens(s: Sys, c: nat) {
    c < |s.core.calls| && s.core.calls[c].listening
  }

  function Resumed(s: Sys, cont: Cont, ok: bool, now: int): Sys {
    var m := s.core;
    match cont
    case SpawnCont(c) =>
      if c >= |m.calls| then s else if ok then s.(core := Spawned(m, c)) else s.(core := Settle(m, c, false))
    case ErrorCont(c, exit) =>
      if c >= |m.calls| then s
      else if m.Has(m.calls[c].id) && exit then s.(conts := s.conts + [DelayCont(c)])
      else s.(core := Settle(m, c, false))
    case DelayCont(c) =>
      if c >= |m.calls| then s
      else if m.Has(m.calls[c].id) then
        Sys(Begin(m, m.calls[c].id, true, now).0,
            s.conts + [SpawnCont(|m.calls|), InnerCont(c, |m.calls|)])
      else s.(core := Settle(m, c, false))
    case ReadyCont(c) =>
      if c >= |m.calls| then s else s.(core := Settle(m, c, true))
    case InnerCont(c, inner) =>
      if c >= |m.calls| || inner >= |m.calls| then s
      else if m.calls[inner].resolved == [] then s.(conts := s.conts + [cont])
      else s.(core := Settle(m, c, m.calls[inner].resolved[0]))
    case StopCont(id, ref, removing) =>
      if ref >= |m.records| then s
      else Sys(Terminate(m, ref), s.conts + if removing then [RemoveCont(id, ref)] else [])
    case RemoveCont(id, ref) =>
      if ref >= |m.records| then s else s.(core := Finish(m, id, ref))
  }

  function WithoutAt(conts: seq<Cont>, i: nat): seq<Cont>
    requires i < |conts|
  {
    conts[..i] + conts[i + 1..]
  }

  function Apply(s: Sys, op: Op): Sys {
    var m := s.core;
    match op
    case DoCreate(id, count, status, now) => s.(core := Create(m, id, count, status, now))
    case DoStart(id, force, now) =>
      var (m', done) := Begin(m, id, force, now);
      Sys(m', if done.None? then s.conts + [SpawnCont(|m.calls|)] else s.conts)
    case DoStop(id) => Stopping(s, id, false)
    case DoRemove(id) => Stopping(s, id, true)
    case DoSetState(id, status, now) => s.(core := SetState(m, id, status, now))
    case DoSetTimer(id) => s.(core := SetTimer(m, id))
    case DoClearTimer(id) => s.(core := ClearTimer(m, id))
    case DoCleanup(order) => StoppingAll(s, order)
    case ChildExit(c, how) =>
      if !Listens(s, c) then s
      else if how == Code then Sys(Quiet(m, c), s.conts + [ErrorCont(c, true)])
      else s.(core := Settle(Quiet(m, c), c, how == Clean))
    case ChildError(c) =>
      if !Listens(s, c) then s else Sys(Quiet(m, c), s.conts + [ErrorCont(c, false)])
    case ChildReady(c) =>
      if !Listens(s, c) || !m.calls[c].awaitsReady then s
      else Sys(MarkReady(m, c), if m.Has(m.calls[c].id) then s.conts + [ReadyCont(c)] else s.conts)
    case Resume(i, ok, now) =>
      if i >= |s.conts| then s else Resumed(s.(conts := WithoutAt(s.conts, i)), s.conts[i], ok, now)
  }

  function Start(pool: seq<Resource>): Sys {
    Sys(Core(pool, map[], [], []), [])
  }

  function Run(pool: seq<Resource>, ops: seq<Op>): Sys {
    if ops == [] then Start(pool) else Apply(Run(pool, ops[..|ops| - 1]), ops[|ops| - 1])
  }

  // ---------- Conservation of resources ----------

  predicate Live(m: Core, ref: nat) {
    ref < |m.records| && m.records[ref].id in m.procs && m.procs[m.records[ref].id] == ref
  }

  /** What the first `n` records hold, as long as they are in the table. */
  function Held(m: Core, n: nat): multiset<Resource>
    requires n <= |m.records|
  {
    if n == 0 then multiset{}
    else Held(m, n - 1) + if Live(m, n - 1) then multiset(m.records[n - 1].resources) else multiset{}
  }

  function Total(m: Core): multiset<Resource> {
    multiset(m.pool) + Held(m, |m.records|)
  }

  /** The table leads to records that carry their id. */
  ghost predicate TableOk(m: Core) {
    forall id | id in m.procs :: m.Has(id) && m.Get(id).id == id
  }

  lemma {:induction false} HeldSame(m: Core, m': Core, n: nat)
    requires n <= |m.records| && n <= |m'.records|
    requires forall i | 0 <= i < n ::
               (Live(m, i) <==> Live(m', i)) && m.records[i].resources == m'.records[i].resources
    ensures Held(m, n) == Held(m', n)
  {
    if n > 0 {
      HeldSame(m, m', n - 1);
    }
  }

  /** Taking one record out of the table takes away exactly what it holds. */
  lemma {:induction false} HeldDelete(m: Core, m': Core, ref: nat, n: nat)
    requires n <= |m.records| && n <= |m'.records| && ref < |m.records| && Live(m, ref)
    requires forall i | 0 <= i < n ::
               (Live(m', i) <==> Live(m, i) && i != ref) && m.records[i].resources == m'.records[i].resources
    ensures Held(m, n) == Held(m', n) + if ref < n then multiset(m.records[ref].resources) else multiset{}
  {
    if n > 0 {
      HeldDelete(m, m', ref, n - 1);
    }
  }

  /** Steps that keep the table and what each record holds. */
  ghost predicate SameHoldings(m: Core, m': Core) {
    && m'.pool == m.pool && m'.procs == m.procs && |m'.records| == |m.records|
    && forall i | 0 <= i < |m.records| ::
         m'.records[i].id == m.records[i].id && m'.records[i].resources == m.records[i].resources
  }

  lemma SameTotal(m: Core, m': Core)
    requires SameHoldings(m, m')
    ensures Total(m') == Total(m) && (TableOk(m) ==> TableOk(m'))
  {
    HeldSame(m, m', |m.records|);
    if TableOk(m) {
      forall id | id in m'.procs ensures m'.Has(id) && m'.Get(id).id == id {
        assert m.Has(id);
      }
    }
  }

  lemma CreateConserves(m: Core, id: Id, count: int, status: Status, now: int)
    requires TableOk(m)
    ensures Total(Create(m, id, count, status, now)) == Total(m) && TableOk(Create(m, id, count, status, now))
  {
    var m' := Create(m, id, count, status, now);
    if m' != m {
      var got, n := m'.records[|m.records|].resources, |m.records|;
      assert m.pool == got + m'.pool;
      assert id !in m.procs;
      HeldSame(m, m', n);
      assert Live(m', n);
      assert Total(m') == multiset(m'.pool) + (Held(m, n) + multiset(got));
      forall i | i in m'.procs ensures m'.Has(i) && m'.Get(i).id == i {
        assert i != id ==> m.Has(i);
      }
    }
  }

  /** The end of a remove conserves the resources exactly when what it releases is what
      the id holds at that moment. */
  lemma FinishConservesExactlyWhen(m: Core, id: Id, ref: nat)
    requires TableOk(m) && ref < |m.records|
    ensures TableOk(Finish(m, id, ref))
    ensures Total(Finish(m, id, ref)) == Total(m)
       <==> multiset(m.records[ref].resources) == if id in m.procs then multiset(m.Get(id).resources) else multiset{}
  {
    var m', n := Finish(m, id, ref), |m.records|;
    var released := multiset(m.records[ref].resources);
    forall i | i in m'.procs ensures m'.Has(i) && m'.Get(i).id == i {
      assert m.Has(i);
    }
    assert multiset(m'.pool) == multiset(m.pool) + released;
    if id in m.procs {
      assert m.Has(id);
      var held := multiset(m.Get(id).resources);
      HeldDelete(m, m', m.procs[id], n);
      assert Held(m, n) == Held(m', n) + held;
      BagsCancel(multiset(m.pool) + Held(m', n), released, held);
      assert Total(m') == multiset(m.pool) + Held(m', n) + released;
      assert Total(m) == multiset(m.pool) + Held(m', n) + held;
    } else {
      HeldSame(m, m', n);
      BagsCancel(Total(m), released, multiset{});
      assert Total(m') == Total(m) + released;
    }
  }

  lemma BagsCancel(a: multiset<Resource>, b: multiset<Resource>, c: multiset<Resource>)
    ensures a + b == a + c <==> b == c
  {
    if a + b == a + c {
      assert (a + b) - a == b && (a + c) - a == c;
    }
  }

  // ---------- Conservation over every interleaving ----------

  predicate Removes(cont: Cont, id: Id) {
    match cont
    case StopCont(i, ref, removing) => i == id && removing
    case RemoveCont(i, ref) => i == id
    case _ => false
  }

  /** The record a continuation of `stop` or `remove` looked up. */
  function Target(cont: Cont): nat {
    match cont
    case StopCont(id, ref, removing) => ref
    case RemoveCont(id, ref) => ref
    case _ => 0
  }

  ghost predicate BeingRemoved(s: Sys, id: Id) {
    exists i :: 0 <= i < |s.conts| && Removes(s.conts[i], id)
  }

  /** Each remove in progress still refers to what the table holds, and no two are for
      the same id. */
  ghost predicate NoOverlap(s: Sys) {
    && (forall i, id | 0 <= i < |s.conts| && Removes(s.conts[i], id) ::
          s.core.Has(id) && s.core.procs[id] == Target(s.conts[i]))
    && (forall i, j, id | 0 <= i < j < |s.conts| && Removes(s.conts[i], id) :: !Removes(s.conts[j], id))
  }

  /** No remove is begun for an id that is already being removed. */
  ghost predicate Allowed(s: Sys, op: Op) {
    match op
    case DoRemove(id) => !BeingRemoved(s, id)
    case DoCleanup(order) =>
      && (forall id | id in order :: !BeingRemoved(s, id))
      && (forall i, j | 0 <= i < j < |order| :: order[i] != order[j])
    case _ => true
  }

  ghost predicate AllowedRun(pool: seq<Resource>, ops: seq<Op>) {
    ops == [] ||
    (AllowedRun(pool, ops[..|ops| - 1]) && Allowed(Run(pool, ops[..|ops| - 1]), ops[|ops| - 1]))
  }

  ghost predicate Conserved(s: Sys, total: multiset<Resource>) {
    TableOk(s.core) && NoOverlap(s) && Total(s.core) == total
  }

  /** A step that keeps the holdings and adds nothing that removes. */
  lemma HarmlessStep(s: Sys, m': Core, more: seq<Cont>, total: multiset<Resource>)
    requires Conserved(s, total) && SameHoldings(s.core, m')
    requires forall i, id | 0 <= i < |more| :: !Removes(more[i], id)
    ensures Conserved(Sys(m', s.conts + more), total)
  {
    SameTotal(s.core, m');
    var s' := Sys(m', s.conts + more);
    forall i, id | |s.conts| <= i < |s'.conts| ensures !Removes(s'.conts[i], id) {
      assert s'.conts[i] == more[i - |s.conts|];
    }
    forall i, id | 0 <= i < |s'.conts| && Removes(s'.conts[i], id)
      ensures s'.core.Has(id) && s'.core.procs[id] == Target(s'.conts[i])
    {
      assert s.core.Has(id) && s.conts[i] == s'.conts[i];
    }
  }

  lemma ResumeDrops(s: Sys, i: nat, total: multiset<Resource>)
    requires Conserved(s, total) && i < |s.conts|
    ensures Conserved(s.(conts := WithoutAt(s.conts, i)), total)
    ensures forall id | Removes(s.conts[i], id) :: !BeingRemoved(s.(conts := WithoutAt(s.conts, i)), id)
  {
  }

  lemma BeginRemove(s: Sys, id: Id, total: multiset<Resource>)
    requires Conserved(s, total) && !BeingRemoved(s, id)
    ensures Conserved(Stopping(s, id, true), total)
    ensures forall other | other != id && !BeingRemoved(s, other) :: !BeingRemoved(Stopping(s, id, true), other)
  {
  }

  lemma {:induction false} BeginRemoveAll(s: Sys, ids: seq<Id>, total: multiset<Resource>)
    requires Conserved(s, total)
    requires forall id | id in ids :: !BeingRemoved(s, id)
    requires forall i, j | 0 <= i < j < |ids| :: ids[i] != ids[j]
    ensures Conserved(StoppingAll(s, ids), total)
    ensures forall id | id !in ids && !BeingRemoved(s, id) :: !BeingRemoved(StoppingAll(s, ids), id)
  {
    if ids != [] {
      var rest, id := ids[..|ids| - 1], ids[|ids| - 1];
      BeginRemoveAll(s, rest, total);
      BeginRemove(StoppingAll(s, rest), id, total);
    }
  }

  lemma FinishRemove(s: Sys, id: Id, ref: nat, total: multiset<Resource>)
    requires Conserved(s, total) && !BeingRemoved(s, id)
    requires s.core.Has(id) && s.core.procs[id] == ref
    ensures Conserved(s.(core := Finish(s.core, id, ref)), total)
  {
    FinishConservesExactlyWhen(s.core, id, ref);
    var s' := s.(core := Finish(s.core, id, ref));
    forall i, other | 0 <= i < |s'.conts| && Removes(s'.conts[i], other)
      ensures s'.core.Has(other) && s'.core.procs[other] == Target(s'.conts[i])
    {
      assert s.core.Has(other) && other != id;
    }
  }

  lemma HoldStill(m: Core, c: nat, value: bool)
    requires c < |m.calls|
    ensures SameHoldings(m, Settle(m, c, value)) && SameHoldings(m, Quiet(m, c))
    ensures SameHoldings(m, Spawned(m, c)) && SameHoldings(m, MarkReady(m, c))
  {
  }

  lemma ResumeConserves(s: Sys, cont: Cont, ok: bool, now: int, total: multiset<Resource>)
    requires Conserved(s, total)
    requires forall id | Removes(cont, id) ::
               !BeingRemoved(s, id) && s.core.Has(id) && s.core.procs[id] == Target(cont)
    ensures Conserved(Resumed(s, cont, ok, now), total)
  {
    var m := s.core;
    assert s.conts + [] == s.conts;
    match cont
    case StopCont(id, ref, removing) =>
      if ref < |m.records| {
        HarmlessStep(s, Terminate(m, ref), [], total);
        if removing {
          assert Removes(cont, id);
          RemoveNext(Sys(Terminate(m, ref), s.conts), id, ref, total);
        } else {
          HarmlessStep(s, Terminate(m, ref), [], total);
        }
      }
    case RemoveCont(id, ref) =>
      assert Removes(cont, id);
      FinishRemove(s, id, ref, total);
    case DelayCont(c) =>
      if c < |m.calls| && m.Has(m.calls[c].id) {
        HarmlessStep(s, Begin(m, m.calls[c].id, true, now).0, [SpawnCont(|m.calls|), InnerCont(c, |m.calls|)], total);
      } else if c < |m.calls| {
        HarmlessStep(s, Settle(m, c, false), [], total);
      }
    case SpawnCont(c) =>
      if c < |m.calls| {
        HarmlessStep(s, if ok then Spawned(m, c) else Settle(m, c, false), [], total);
      }
    case ErrorCont(c, exit) =>
      if c < |m.calls| {
        HarmlessStep(s, Settle(m, c, false), [], total);
        HarmlessStep(s, m, [DelayCont(c)], total);
      }
    case ReadyCont(c) =>
      if c < |m.calls| {
        HarmlessStep(s, Settle(m, c, true), [], total);
      }
    case InnerCont(c, inner) =>
      HarmlessStep(s, m, [cont], total);
      if c < |m.calls| && inner < |m.calls| && m.calls[inner].resolved != [] {
        HarmlessStep(s, Settle(m, c, m.calls[inner].resolved[0]), [], total);
      }
  }

  lemma RemoveNext(s: Sys, id: Id, ref: nat, total: multiset<Resource>)
    requires Conserved(s, total) && !BeingRemoved(s, id) && s.core.Has(id) && s.core.procs[id] == ref
    ensures Conserved(s.(conts := s.conts + [RemoveCont(id, ref)]), total)
  {
  }

  lemma ChildStepConserves(s: Sys, c: nat, how: Exit, total: multiset<Resource>)
    requires Conserved(s, total)
    ensures Conserved(Apply(s, ChildExit(c, how)), total)
    ensures Conserved(Apply(s, ChildError(c)), total)
    ensures Conserved(Apply(s, ChildReady(c)), total)
  {
    hide Conserved;
    var m := s.core;
    assert s.conts + [] == s.conts;
    if Listens(s, c) {
      HoldStill(m, c, false);
      HoldStill(Quiet(m, c), c, how == Clean);
      HarmlessStep(s, Quiet(m, c), [ErrorCont(c, true)], total);
      HarmlessStep(s, Quiet(m, c), [ErrorCont(c, false)], total);
      HarmlessStep(s, Settle(Quiet(m, c), c, how == Clean), [], total);
      HarmlessStep(s, MarkReady(m, c), [ReadyCont(c)], total);
      HarmlessStep(s, MarkReady(m, c), [], total);
    }
  }

  lemma MarkingConserves(s: Sys, op: Op, total: multiset<Resource>)
    requires Conserved(s, total) && (op.DoSetState? || op.DoSetTimer? || op.DoClearTimer?)
    ensures Conserved(Apply(s, op), total)
  {
    assert s.conts + [] == s.conts;
    HarmlessStep(s, Apply(s, op).core, [], total);
  }

  lemma StepConserves(s: Sys, op: Op, total: multiset<Resource>)
    requires Conserved(s, total) && Allowed(s, op)
    ensures Conserved(Apply(s, op), total)
  {
    var m := s.core;
    assert s.conts + [] == s.conts;
    match op
    case DoCreate(id, count, status, now) => CreateConserves(m, id, count, status, now);
    case DoStart(id, force, now) =>
      HarmlessStep(s, Begin(m, id, force, now).0, [SpawnCont(|m.calls|)], total);
      HarmlessStep(s, Begin(m, id, force, now).0, [], total);
    case DoStop(id) =>
      if m.Has(id) {
        HarmlessStep(s, m, [StopCont(id, m.procs[id], false)], total);
      }
    case DoRemove(id) => BeginRemove(s, id, total);
    case DoSetState(id, status, now) => MarkingConserves(s, op, total);
    case DoSetTimer(id) => MarkingConserves(s, op, total);
    case DoClearTimer(id) => MarkingConserves(s, op, total);
    case DoCleanup(order) => BeginRemoveAll(s, order, total);
    case ChildExit(c, how) => ChildStepConserves(s, c, how, total);
    case ChildError(c) => ChildStepConserves(s, c, Signal, total);
    case ChildReady(c) => ChildStepConserves(s, c, Signal, total);
    case Resume(i, ok, now) =>
      if i < |s.conts| {
        ResumeDrops(s, i, total);
        ResumeConserves(s.(conts := WithoutAt(s.conts, i)), s.conts[i], ok, now, total);
      }
  }

  /** In every interleaving in which removes of one id do not overlap, the pool and what
      the managed processes hold are together the initial resources. */
  lemma {:induction false} RunConserves(pool: seq<Resource>, ops: seq<Op>)
    requires AllowedRun(pool, ops)
    ensures Conserved(Run(pool, ops), multiset(pool))
  {
    if ops != [] {
      RunConserves(pool, ops[..|ops| - 1]);
      StepConserves(Run(pool, ops[..|ops| - 1]), ops[|ops| - 1], multiset(pool));
    }
  }

  lemma HoldsPart(m: Core, a: Id)
    requires TableOk(m) && a in m.procs
    ensures m.Has(a) && multiset(m.pool) + multiset(m.Get(a).resources) <= Total(m)
  {
    HeldDelete(m, m.(procs := m.procs - {a}), m.procs[a], |m.records|);
  }

  lemma TwoHoldParts(m: Core, a: Id, b: Id)
    requires TableOk(m) && a in m.procs && b in m.procs && a != b
    ensures m.Has(a) && m.Has(b) && multiset(m.Get(a).resources) + multiset(m.Get(b).resources) <= Total(m)
  {
    assert m.Has(a) && m.Has(b);
    var m' := m.(procs := m.procs - {a});
    HeldDelete(m, m', m.procs[a], |m.records|);
    assert TableOk(m') && Total(m) == Total(m') + multiset(m.Get(a).resources);
    HoldsPart(m', b);
  }

  /** With distinct initial resources, what a process holds is not in the pool, and a
      process holds nothing twice. */
  lemma HeldIsNotFree(pool: seq<Resource>, ops: seq<Op>, a: Id, r: Resource)
    requires AllowedRun(pool, ops) && forall i, j | 0 <= i < j < |pool| :: pool[i] != pool[j]
    requires a in Run(pool, ops).core.procs
    ensures var m := Run(pool, ops).core;
            m.Has(a) && (r in m.Get(a).resources ==> r in pool && r !in m.pool && multiset(m.Get(a).resources)[r] == 1)
  {
    var m := Run(pool, ops).core;
    RunConserves(pool, ops);
    HoldsPart(m, a);
    DistinctOnce(pool, r);
    if r in m.Get(a).resources {
      assert r in multiset(m.Get(a).resources) && r in multiset(pool);
    }
  }

  /** With distinct initial resources no two processes ever hold the same one. */
  lemma NeverShared(pool: seq<Resource>, ops: seq<Op>, a: Id, b: Id, r: Resource)
    requires AllowedRun(pool, ops) && forall i, j | 0 <= i < j < |pool| :: pool[i] != pool[j]
    requires var m := Run(pool, ops).core; a in m.procs && b in m.procs && a != b
    ensures var m := Run(pool, ops).core;
            m.Has(a) && m.Has(b) && (r in m.Get(a).resources ==> r !in m.Get(b).resources)
  {
    var m := Run(pool, ops).core;
    RunConserves(pool, ops);
    TwoHoldParts(m, a, b);
    DistinctOnce(pool, r);
    if r in m.Get(a).resources {
      assert multiset(m.Get(a).resources)[r] >= 1;
    }
  }

  lemma {:induction false} DistinctOnce(pool: seq<Resource>, r: Resource)
    requires forall i, j | 0 <= i < j < |pool| :: pool[i] != pool[j]
    ensures multiset(pool)[r] <= 1
  {
    if pool != [] {
      var rest := pool[..|pool| - 1];
      assert pool == rest + [pool[|pool| - 1]];
      DistinctOnce(rest, r);
      assert r == pool[|pool| - 1] ==> r !in rest;
    }
  }

  // ---------- Overlapping removes ----------

  lemma RunStep(pool: seq<Resource>, ops: seq<Op>, op: Op, s: Sys)
    requires Apply(Run(pool, ops), op) == s
    ensures Run(pool, ops + [op]) == s
  {
  }

  /** Two removes of one id, run to their ends: the resource is in the pool twice. */
  lemma OverlapExample(r: Resource)
    ensures Run([r], [DoCreate(1, 1, Waiting, 0), DoRemove(1), DoRemove(1), Resume(0, true, 0), Resume(0, true, 0),
                      Resume(0, true, 0), Resume(0, true, 0)]).core.pool == [r, r]
  {
    hide Run;
    var m := Core([], map[1 := 0], [Record(1, Waiting, 0, false, [r], None)], []);
    var s := Sys(m, [RemoveCont(1, 0), RemoveCont(1, 0)]);
    var ops := OverlapStopped(r);
    OverlapFinishes(r, s, m);
    RunStep([r], ops, Resume(0, true, 0), Apply(s, Resume(0, true, 0)));
    var s' := Apply(s, Resume(0, true, 0));
    RunStep([r], ops + [Resume(0, true, 0)], Resume(0, true, 0), Apply(s', Resume(0, true, 0)));
    assert ops + [Resume(0, true, 0)] + [Resume(0, true, 0)]
        == [DoCreate(1, 1, Waiting, 0), DoRemove(1), DoRemove(1), Resume(0, true, 0), Resume(0, true, 0),
            Resume(0, true, 0), Resume(0, true, 0)];
  }

  /** Both removes have stopped the process, and neither has finished. */
  lemma OverlapStopped(r: Resource) returns (ops: seq<Op>)
    ensures ops == [DoCreate(1, 1, Waiting, 0), DoRemove(1), DoRemove(1), Resume(0, true, 0), Resume(0, true, 0)]
    ensures Run([r], ops) == Sys(Core([], map[1 := 0], [Record(1, Waiting, 0, false, [r], None)], []),
                                 [RemoveCont(1, 0), RemoveCont(1, 0)])
  {
    hide Run;
    ops := OverlapBegun(r);
    var m := Core([], map[1 := 0], [Record(1, Waiting, 0, false, [r], None)], []);
    var s3 := Sys(m, [StopCont(1, 0, true), StopCont(1, 0, true)]);
    var s4 := Sys(m, [StopCont(1, 0, true), RemoveCont(1, 0)]);
    assert WithoutAt(s3.conts, 0) == [StopCont(1, 0, true)] && Apply(s3, Resume(0, true, 0)) == s4;
    RunStep([r], ops, Resume(0, true, 0), s4);
    var s5 := Sys(m, [RemoveCont(1, 0), RemoveCont(1, 0)]);
    assert WithoutAt(s4.conts, 0) == [RemoveCont(1, 0)] && Apply(s4, Resume(0, true, 0)) == s5;
    RunStep([r], ops + [Resume(0, true, 0)], Resume(0, true, 0), s5);
    ops := ops + [Resume(0, true, 0)] + [Resume(0, true, 0)];
  }

  lemma OverlapBegun(r: Resource) returns (ops: seq<Op>)
    ensures ops == [DoCreate(1, 1, Waiting, 0), DoRemove(1), DoRemove(1)]
    ensures Run([r], ops) == Sys(Core([], map[1 := 0], [Record(1, Waiting, 0, false, [r], None)], []),
                                 [StopCont(1, 0, true), StopCont(1, 0, true)])
  {
    var m := Core([], map[1 := 0], [Record(1, Waiting, 0, false, [r], None)], []);
    assert [r][..1] == [r] && [r][1..] == [];
    assert Create(Start([r]).core, 1, 1, Waiting, 0) == m;
    RunStep([r], [], DoCreate(1, 1, Waiting, 0), Sys(m, []));
    RunStep([r], [DoCreate(1, 1, Waiting, 0)], DoRemove(1), Sys(m, [StopCont(1, 0, true)]));
    ops := [DoCreate(1, 1, Waiting, 0)] + [DoRemove(1)];
    RunStep([r], ops, DoRemove(1), Sys(m, [StopCont(1, 0, true), StopCont(1, 0, true)]));
    ops := ops + [DoRemove(1)];
  }

  lemma OverlapFinishes(r: Resource, s: Sys, m: Core)
    requires m == Core([], map[1 := 0], [Record(1, Waiting, 0, false, [r], None)], [])
    requires s == Sys(m, [RemoveCont(1, 0), RemoveCont(1, 0)])
    ensures Apply(Apply(s, Resume(0, true, 0)), Resume(0, true, 0)).core.pool == [r, r]
  {
  }

  // ---------- The lifecycle ----------

  /** A start resolves its promise at most once. */
  ghost predicate SettledOnce(m: Core) {
    forall c | 0 <= c < |m.calls| :: |m.calls[c].resolved| == if m.calls[c].isResolved then 1 else 0
  }

  lemma {:induction false} StoppingAllCore(s: Sys, ids: seq<Id>)
    ensures StoppingAll(s, ids).core == s.core
  {
    if ids != [] {
      StoppingAllCore(s, ids[..|ids| - 1]);
    }
  }

  /** Starts are only added, and what they resolved with stays. */
  ghost predicate Grows(m: Core, m': Core) {
    && SettledOnce(m') && |m.calls| <= |m'.calls|
    && forall c | 0 <= c < |m.calls| :: m.calls[c].resolved <= m'.calls[c].resolved
  }

  lemma CallsGrow(m: Core, c: nat, value: bool)
    requires SettledOnce(m) && c < |m.calls|
    ensures Grows(m, Settle(m, c, value)) && Grows(m, Quiet(m, c)) && Grows(m, Spawned(m, c)) && Grows(m, MarkReady(m, c))
  {
    OneCallGrows(m, Settle(m, c, value), c);
    OneCallGrows(m, Quiet(m, c), c);
    OneCallGrows(m, Spawned(m, c), c);
    OneCallGrows(m, MarkReady(m, c), c);
  }

  lemma OneCallGrows(m: Core, m': Core, c: nat)
    requires SettledOnce(m) && c < |m.calls| == |m'.calls|
    requires forall i | 0 <= i < |m.calls| && i != c :: m'.calls[i] == m.calls[i]
    requires m.calls[c].resolved <= m'.calls[c].resolved
    requires |m'.calls[c].resolved| == if m'.calls[c].isResolved then 1 else 0
    ensures Grows(m, m')
  {
  }

  lemma CallsStay(m: Core, id: Id, force: bool, now: int)
    requires SettledOnce(m)
    ensures Grows(m, m) && Grows(m, Begin(m, id, force, now).0)
  {
  }

  lemma FinishGrows(m: Core, id: Id, ref: nat)
    requires SettledOnce(m) && ref < |m.records|
    ensures Grows(m, Finish(m, id, ref))
  {
  }

  lemma ResumeGrows(s: Sys, cont: Cont, ok: bool, now: int)
    requires SettledOnce(s.core)
    ensures Grows(s.core, Resumed(s, cont, ok, now).core)
  {
    hide Grows, SettledOnce, Settle, Quiet, Spawned, Begin, Finish;
    var m := s.core;
    CallsStay(m, 0, true, now);
    match cont
    case StopCont(id, ref, removing) =>
      if ref < |m.records| && m.records[ref].terminator.Some? && m.records[ref].terminator.value < |m.calls| {
        CallsGrow(m, m.records[ref].terminator.value, true);
      }
    case InnerCont(c, inner) =>
      if c < |m.calls| && inner < |m.calls| && m.calls[inner].resolved != [] {
        CallsGrow(m, c, m.calls[inner].resolved[0]);
      }
    case RemoveCont(id, ref) => if ref < |m.records| { FinishGrows(m, id, ref); }
    case SpawnCont(c) => if c < |m.calls| { CallsGrow(m, c, false); }
    case ErrorCont(c, exit) => if c < |m.calls| { CallsGrow(m, c, false); }
    case DelayCont(c) =>
      if c < |m.calls| {
        CallsGrow(m, c, false);
        CallsStay(m, m.calls[c].id, true, now);
      }
    case ReadyCont(c) => if c < |m.calls| { CallsGrow(m, c, true); }
  }

  lemma StepSettlesOnce(s: Sys, op: Op)
    requires SettledOnce(s.core)
    ensures Grows(s.core, Apply(s, op).core)
  {
    hide Settle, Quiet, MarkReady, Resumed, Begin, Held, Total;
    var m := s.core;
    match op
    case DoCleanup(order) => StoppingAllCore(s, order);
    case ChildExit(c, how) =>
      if Listens(s, c) {
        CallsGrow(m, c, true);
        CallsGrow(Quiet(m, c), c, how == Clean);
      }
    case ChildError(c) => if Listens(s, c) { CallsGrow(m, c, true); }
    case ChildReady(c) => if Listens(s, c) { CallsGrow(m, c, true); }
    case Resume(i, ok, now) =>
      if i < |s.conts| {
        ResumeGrows(s.(conts := WithoutAt(s.conts, i)), s.conts[i], ok, now);
      }
    case DoStart(id, force, now) => CallsStay(m, id, force, now);
    case _ =>
  }

  lemma {:induction false} EveryStartSettlesAtMostOnce(pool: seq<Resource>, ops: seq<Op>)
    ensures SettledOnce(Run(pool, ops).core)
  {
    if ops != [] {
      EveryStartSettlesAtMostOnce(pool, ops[..|ops| - 1]);
      StepSettlesOnce(Run(pool, ops[..|ops| - 1]), ops[|ops| - 1]);
    }
  }

  /** The managed ids change only by `create`, and by the end of a `remove`. */
  lemma IdsChangeOnlyBy(s: Sys, op: Op)
    ensures var m, m' := s.core, Apply(s, op).core;
            && (op.DoCreate? ==> m'.procs.Keys == m.procs.Keys || m'.procs.Keys == m.procs.Keys + {op.id})
            && (op.Resume? && op.i < |s.conts| && s.conts[op.i].RemoveCont? ==>
                  m'.procs.Keys == m.procs.Keys || m'.procs.Keys == m.procs.Keys - {s.conts[op.i].id})
            && (!op.DoCreate? && !(op.Resume? && op.i < |s.conts| && s.conts[op.i].RemoveCont?) ==>
                  m'.procs == m.procs)
  {
    if op.DoCleanup? {
      StoppingAllCore(s, op.order);
    }
  }

  /** The start a step continues, if it is one of its callbacks. */
  function Continues(s: Sys, op: Op): Option<nat> {
    match op
    case ChildExit(c, how) => Some(c)
    case ChildError(c) => Some(c)
    case ChildReady(c) => Some(c)
    case Resume(i, ok, now) =>
      if i >= |s.conts| then None
      else
        (match s.conts[i]
         case SpawnCont(c) => Some(c)
         case ErrorCont(c, exit) => Some(c)
         case DelayCont(c) => Some(c)
         case ReadyCont(c) => Some(c)
         case InnerCont(c, inner) => Some(c)
         case _ => None)
    case _ => None
  }

  /** A callback of a start whose id is no longer managed sets no state, restarts
      nothing, and brings nothing back. */
  lemma NoResurrection(s: Sys, op: Op)
    requires Continues(s, op).Some? && Continues(s, op).value < |s.core.calls|
    requires !s.core.Has(s.core.calls[Continues(s, op).value].id)
    ensures var m, m' := s.core, Apply(s, op).core;
            && m'.procs == m.procs && m'.records == m.records && |m'.calls| == |m.calls| && m'.pool == m.pool
    ensures forall cont | cont in Apply(s, op).conts && (cont.SpawnCont? || cont.DelayCont?) :: cont in s.conts
  {
  }

  /** An undisturbed start: spawned, ready, and the callback done, the process runs, its
      promise has resolved with true, and no other record or start was touched. */
  lemma StartThenReady(m: Core, id: Id, force: bool, now: int)
    requires m.Has(id) && (force || m.Get(id).status != Running)
    ensures var c := |m.calls|;
            var m1 := Begin(m, id, force, now).0;
            && |m1.calls| == c + 1
            && var m2 := Settle(MarkReady(Spawned(m1, c), c), c, true);
               && m2.procs == m.procs && m2.pool == m.pool && |m2.records| == |m.records|
               && m2.Get(id) == m.Get(id).(status := Running, timer := false, startTime := now, terminator := Some(c))
               && (forall ref | 0 <= ref < |m.records| && ref != m.procs[id] :: m2.records[ref] == m.records[ref])
               && m2.calls == m.calls + [Call(id, m.procs[id], true, true, false, true, [true])]
  {
    var c, ref := |m.calls|, m.procs[id];
    var r, call := m.Get(id).(timer := false, startTime := now), Call(id, ref, true, true, true, false, []);
    var m1 := Begin(m, id, force, now).0;
    var m2 := Spawned(m1, c);
    assert m2.records == m.records[ref := r.(status := Starting, terminator := Some(c))];
    assert m2.calls == m.calls + [call];
    var m3 := MarkReady(m2, c);
    assert m3.records == m.records[ref := r.(status := Running, terminator := Some(c))];
    assert m3.calls == m.calls + [call.(awaitsReady := false)];
    assert call.resolved + [true] == [true];
    assert Settle(m3, c, true).calls == m.calls + [call.(awaitsReady := false, isResolved := true, resolved := [true])];
  }

  /** Removed while it is still spawning and then created again: the ready message of the
      old child marks the new process as running, which was never started. */
  lemma StaleReadyExample()
    ensures var ops := [DoCreate(1, 0, Waiting, 0), DoStart(1, false, 0), DoRemove(1), Resume(1, true, 0),
                        Resume(1, true, 0), DoCreate(1, 0, Waiting, 0), Resume(0, true, 0), ChildReady(0)];
            var m := Run([], ops).core;
            m.Has(1) && m.Get(1).status == Running && m.procs[1] == 1 && |m.calls| == 1 && m.calls[0].ref == 0
  {
    hide Run;
    var ops := RemovedWhileSpawning();
    var r0, r1 := Record(1, Waiting, 0, false, [], None), Record(1, Starting, 0, false, [], None);
    var call := Call(1, 0, false, false, false, false, []);
    var s6 := Sys(Core([], map[1 := 1], [r1, r0], [call]), [SpawnCont(0)]);
    RunStep([], ops, DoCreate(1, 0, Waiting, 0), s6);
    var spawned := call.(child := true, listening := true, awaitsReady := true);
    var s7 := Sys(Core([], map[1 := 1], [r1, r0.(terminator := Some(0))], [spawned]), []);
    assert WithoutAt(s6.conts, 0) == [] && Apply(s6, Resume(0, true, 0)) == s7;
    RunStep([], ops + [DoCreate(1, 0, Waiting, 0)], Resume(0, true, 0), s7);
    RunStep([], ops + [DoCreate(1, 0, Waiting, 0)] + [Resume(0, true, 0)], ChildReady(0), Apply(s7, ChildReady(0)));
    assert ops + [DoCreate(1, 0, Waiting, 0)] + [Resume(0, true, 0)] + [ChildReady(0)]
        == [DoCreate(1, 0, Waiting, 0), DoStart(1, false, 0), DoRemove(1), Resume(1, true, 0),
            Resume(1, true, 0), DoCreate(1, 0, Waiting, 0), Resume(0, true, 0), ChildReady(0)];
  }

  lemma RemovedWhileSpawning() returns (ops: seq<Op>)
    ensures ops == [DoCreate(1, 0, Waiting, 0), DoStart(1, false, 0), DoRemove(1), Resume(1, true, 0), Resume(1, true, 0)]
    ensures Run([], ops) == Sys(Core([], map[], [Record(1, Starting, 0, false, [], None)],
                                     [Call(1, 0, false, false, false, false, [])]), [SpawnCont(0)])
  {
    hide Run;
    var m := Core([], map[1 := 0], [Record(1, Starting, 0, false, [], None)], [Call(1, 0, false, false, false, false, [])]);
    ops := [DoCreate(1, 0, Waiting, 0), DoStart(1, false, 0)];
    StartedOnce();
    RunStep([], ops, DoRemove(1), Sys(m, [SpawnCont(0), StopCont(1, 0, true)]));
    ops := ops + [DoRemove(1)];
    StoppedBehind(m, SpawnCont(0));
    RunStep([], ops, Resume(1, true, 0), Sys(m, [SpawnCont(0), RemoveCont(1, 0)]));
    ops := ops + [Resume(1, true, 0)];
    FinishedBehind(m, SpawnCont(0));
    RunStep([], ops, Resume(1, true, 0), Sys(m.(procs := map[]), [SpawnCont(0)]));
    ops := ops + [Resume(1, true, 0)];
  }

  /** The two halves of a remove, taken up while `cont` waits in front of them. */
  lemma StoppedBehind(m: Core, cont: Cont)
    requires |m.records| > 0 && Terminate(m, 0) == m
    ensures Apply(Sys(m, [cont, StopCont(1, 0, true)]), Resume(1, true, 0)) == Sys(m, [cont, RemoveCont(1, 0)])
  {
    assert WithoutAt([cont, StopCont(1, 0, true)], 1) == [cont];
  }

  lemma FinishedBehind(m: Core, cont: Cont)
    requires m.procs == map[1 := 0] && |m.records| > 0 && m.records[0].resources == [] && !m.records[0].timer
    ensures Apply(Sys(m, [cont, RemoveCont(1, 0)]), Resume(1, true, 0)) == Sys(m.(procs := map[]), [cont])
  {
    assert WithoutAt([cont, RemoveCont(1, 0)], 1) == [cont];
    assert m.records[0 := m.records[0].(timer := false)] == m.records && m.pool + [] == m.pool;
  }

  lemma StartedOnce()
    ensures Run([], [DoCreate(1, 0, Waiting, 0), DoStart(1, false, 0)])
         == Sys(Core([], map[1 := 0], [Record(1, Starting, 0, false, [], None)],
                     [Call(1, 0, false, false, false, false, [])]), [SpawnCont(0)])
  {
  }
}
