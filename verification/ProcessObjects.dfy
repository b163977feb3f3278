/** The process manager with its objects: each method is one stretch of the source
    between two awaits, and does to the objects what `Processes` does to `Core`. */
module ProcessObjects {
  import opened Wrappers
  import opened Processes

  class ResourcePool {
    var available: seq<Resource>

    constructor (resources: seq<Resource>)
      ensures available == resources
    {
      available := resources;
    }

    method Allocate(count: int) returns (got: Option<seq<Resource>>)
      modifies this
      ensures got == Allocated(old(available), count)
      ensures available == if got.None? then old(available) else old(available)[|got.value|..]
      ensures got.Some? ==> got.value + available == old(available)
    {
      if |available| < count {
        return None;
      }
      var n := if count < 0 then 0 else count;
      got := Some(available[..n]);
      available := available[n..];
    }

    method Release(resources: seq<Resource>)
      modifies this
      ensures available == old(available) + resources
    {
      available := available + resources;
    }
  }

  class ManagedProcess {
    ghost const number: nat
    const id: Id
    const resources: seq<Resource>
    var status: Status
    var startTime: int
    var timer: bool
    var terminator: Option<nat>

    constructor (id: Id, status: Status, startTime: int, resources: seq<Resource>, ghost number: nat)
      ensures Matches(Record(id, status, startTime, false, resources, None)) && this.number == number
    {
      this.id, this.status, this.startTime, this.resources := id, status, startTime, resources;
      this.number := number;
      timer, terminator := false, None;
    }

    ghost predicate Matches(r: Record)
      reads this
    {
      r == Record(id, status, startTime, timer, resources, terminator)
    }
  }

  /** The local variables of one call of `start` that its callbacks share. */
  class StartCall {
    ghost const number: nat
    const id: Id
    ghost const ref: nat
    var child: bool
    var listening: bool
    var awaitsReady: bool
    var isResolved: bool
    var resolved: seq<bool>

    constructor (id: Id, ghost ref: nat, ghost number: nat)
      ensures Matches(Call(id, ref, false, false, false, false, [])) && this.number == number
    {
      this.id, this.ref, this.number := id, ref, number;
      child, listening, awaitsReady, isResolved, resolved := false, false, false, false, [];
    }

    ghost predicate Matches(c: Call)
      reads this
    {
      c == Call(id, ref, child, listening, awaitsReady, isResolved, resolved)
    }
  }

  lemma CreateBy(m: Core, id: Id, count: int, status: Status, now: int)
    ensures var got, m' := Allocated(m.pool, count), Processes.Create(m, id, count, status, now);
            && (got.Some? ==> |got.value| <= |m.pool|)
            && (m.Has(id) || (count != 0 && got.None?) ==> m' == m)
            && (!m.Has(id) && (count == 0 || got.Some?) ==>
                  var given := if count == 0 then [] else got.value;
                  && m' != m
                  && m' == m.(pool := m.pool[|given|..], procs := m.procs[id := |m.records|],
                              records := m.records + [Record(id, status, now, false, given, None)]))
  {
    assert m.pool[0..] == m.pool;
  }

  class ProcessManager {
    const pool: ResourcePool
    var processes: map<Id, ManagedProcess>
    var calls: seq<StartCall>
    ghost var created: seq<ManagedProcess>
    ghost var view: Core

    ghost predicate Valid()
      reads this, pool, created, calls
    {
      && view.pool == pool.available
      && |created| == |view.records| && |calls| == |view.calls|
      && (forall i | 0 <= i < |created| :: created[i].number == i && created[i].Matches(view.records[i]))
      && (forall i | 0 <= i < |calls| :: calls[i].number == i && calls[i].Matches(view.calls[i]))
      && (forall n :: n in processes <==> n in view.procs)
      && (forall n | n in processes :: view.procs[n] < |created| && processes[n] == created[view.procs[n]])
    }

    constructor (pool: ResourcePool)
      ensures Valid() && this.pool == pool && view == Processes.Start(pool.available).core
    {
      this.pool := pool;
      processes, calls, created := map[], [], [];
      view := Core(pool.available, map[], [], []);
    }

    method Create(id: Id, count: int, status: Status, now: int) returns (ok: bool)
      requires Valid()
      modifies this, pool
      ensures Valid() && view == Processes.Create(old(view), id, count, status, now)
      ensures ok <==> view != old(view)
      ensures calls == old(calls) && old(created) <= created && fresh(created[|old(created)|..])
    {
      hide Held, Total, Processes.Create, Allocated;
      CreateBy(view, id, count, status, now);
      if id in processes {
        return false;
      }
      var resources: seq<Resource> := [];
      if count != 0 {
        var taken := pool.Allocate(count);
        if taken.None? {
          return false;
        }
        resources := taken.value;
      }
      var process := new ManagedProcess(id, status, now, resources, |created|);
      view := view.(pool := pool.available);
      Add(id, process, Record(id, status, now, false, resources, None));
      return true;
    }

    /** `this.processes.set(id, process)` */
    method Add(id: Id, process: ManagedProcess, ghost r: Record)
      requires Valid() && process !in created && process.number == |created| && process.Matches(r)
      modifies this`processes, this`created, this`view
      ensures Valid() && created == old(created) + [process]
      ensures view == old(view).(procs := old(view).procs[id := |old(created)|], records := old(view).records + [r])
    {
      view := view.(procs := view.procs[id := |created|], records := view.records + [r]);
      created := created + [process];
      processes := processes[id := process];
    }

    /** `start` up to its first await; a result when it returns at once. */
    method Start(id: Id, force: bool, now: int) returns (done: Option<bool>)
      requires Valid()
      modifies this, created
      ensures Valid() && (view, done) == Begin(old(view), id, force, now)
      ensures created == old(created) && old(calls) <= calls && fresh(calls[|old(calls)|..])
    {
      if id !in processes {
        return Some(false);
      }
      var process := processes[id];
      if !force && process.status == Running {
        return Some(true);
      }
      ghost var ref := view.procs[id];
      ghost var r := view.records[ref].(timer := false, status := Starting, startTime := now);
      ghost var begun := view.(records := view.records[ref := r],
                               calls := view.calls + [Call(id, ref, false, false, false, false, [])]);
      assert Begin(view, id, force, now) == (begun, None);
      hide Begin;
      process.timer := false;
      process.status := Starting;
      process.startTime := now;
      var call := new StartCall(id, ref, |calls|);
      calls := calls + [call];
      view := begun;
      return None;
    }

    method ResolveOnce(c: nat, value: bool)
      requires Valid() && c < |calls|
      modifies this`view, calls[c]
      ensures Valid() && view == Settle(old(view), c, value)
    {
      var call := calls[c];
      if !call.isResolved {
        call.isResolved := true;
        call.resolved := call.resolved + [value];
      }
      view := Settle(view, c, value);
    }

    /** The local `cleanup` of a start. */
    method RemoveListeners(c: nat)
      requires Valid() && c < |calls|
      modifies this`view, calls[c]
      ensures Valid() && view == Quiet(old(view), c)
    {
      var call := calls[c];
      if call.child {
        call.listening := false;
        call.awaitsReady := false;
      }
      view := Quiet(view, c);
    }

    /** The child process is there. */
    method AfterSpawn(c: nat)
      requires Valid() && c < |calls|
      modifies this`view, calls[c], created
      ensures Valid() && view == Spawned(old(view), c)
    {
      var call := calls[c];
      call.child := true;
      call.listening := true;
      call.awaitsReady := true;
      view := view.PutCall(c, view.calls[c].(child := true, listening := true, awaitsReady := true));
      UpdateTerminateHandler(call.id, c);
    }

    method UpdateTerminateHandler(id: Id, c: nat)
      requires Valid()
      modifies this`view, created
      ensures Valid()
      ensures view == if old(view).Has(id)
                      then old(view).PutRecord(old(view).procs[id], old(view).Get(id).(terminator := Some(c)))
                      else old(view)
    {
      if id in processes {
        processes[id].terminator := Some(c);
        view := view.PutRecord(view.procs[id], view.Get(id).(terminator := Some(c)));
      }
    }

    /** `handleReady` up to its await. */
    method HandleReady(c: nat)
      requires Valid() && c < |calls|
      modifies this`view, calls[c], created
      ensures Valid()
      ensures var m, id := old(view), calls[c].id;
              view == if m.Has(id) then m.PutRecord(m.procs[id], m.Get(id).(timer := false, status := Running))
                      else Settle(m, c, false)
    {
      var id := calls[c].id;
      if id in processes {
        var current := processes[id];
        current.timer := false;
        current.status := Running;
        view := view.PutRecord(view.procs[id], view.Get(id).(timer := false, status := Running));
      } else {
        ResolveOnce(c, false);
      }
    }

    /** The message listener, on a ready message: it removes itself. */
    method MessageHandler(c: nat)
      requires Valid() && c < |calls|
      modifies this`view, calls[c], created
      ensures Valid() && view == MarkReady(old(view), c)
    {
      HandleReady(c);
      calls[c].awaitsReady := false;
      view := view.PutCall(c, view.calls[c].(awaitsReady := false));
    }

    /** The end of `stop`. */
    method RunTerminateHandler(process: ManagedProcess, ghost ref: nat)
      requires Valid() && ref < |created| && created[ref] == process
      modifies this`view, calls
      ensures Valid() && view == Terminate(old(view), ref)
    {
      if process.terminator.Some? {
        var c: nat := process.terminator.value;
        if c < |calls| {
          RemoveListeners(c);
        }
      }
    }

    /** The end of `remove`, for the record found at its beginning. */
    method FinishRemove(id: Id, process: ManagedProcess, ghost ref: nat)
      requires Valid() && ref < |created| && created[ref] == process
      modifies this`processes, this`view, pool, process
      ensures Valid() && view == Finish(old(view), id, ref)
    {
      process.timer := false;
      if |process.resources| > 0 {
        pool.Release(process.resources);
      }
      processes := processes - {id};
      view := Finish(view, id, ref);
    }

    method SetState(id: Id, status: Status, now: int)
      requires Valid()
      modifies this`view, created
      ensures Valid() && view == Processes.SetState(old(view), id, status, now)
    {
      if id in processes {
        var process := processes[id];
        process.timer := false;
        process.status := status;
        if status == Starting || status == Waiting {
          process.startTime := now;
        }
      }
      view := Processes.SetState(view, id, status, now);
    }

    method SetTimer(id: Id)
      requires Valid()
      modifies this`view, created
      ensures Valid() && view == Processes.SetTimer(old(view), id)
    {
      if id in processes {
        processes[id].timer := true;
      }
      view := Processes.SetTimer(view, id);
    }

    method ClearTimer(id: Id)
      requires Valid()
      modifies this`view, created
      ensures Valid() && view == Processes.ClearTimer(old(view), id)
    {
      if id in processes && processes[id].timer {
        processes[id].timer := false;
      }
      view := Processes.ClearTimer(view, id);
    }
  }
}
