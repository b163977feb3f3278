/** The concurrency limiter: calls wait in a queue while `limit` handlers run. */
module Limiters {

  /** Calls are numbered as they are accepted. `running` is the counter of the source;
      the last two fields say which calls have started and which of them are done. */
  datatype State = State(queue: seq<nat>, running: int, accepted: nat, started: seq<nat>, finished: set<nat>)

  const IDLE := State([], 0, 0, [], {})

  function StartWaiting(s: State, limit: int): State
    decreases |s.queue|
  {
    if s.running < limit && s.queue != [] then
      StartWaiting(s.(running := s.running + 1, started := s.started + [s.queue[0]], queue := s.queue[1..]), limit)
    else s
  }

  function Enqueue(s: State, limit: int): State {
    StartWaiting(s.(queue := s.queue + [s.accepted], accepted := s.accepted + 1), limit)
  }

  function Done(s: State, call: nat, limit: int): State {
    StartWaiting(s.(running := s.running - 1, finished := s.finished + {call}), limit)
  }

  datatype Op = Call | Finish(call: nat)

  function Apply(s: State, op: Op, limit: int): State {
    match op
    case Call => Enqueue(s, limit)
    case Finish(call) => Done(s, call, limit)
  }

  function Run(ops: seq<Op>, limit: int): State {
    if ops == [] then IDLE else Apply(Run(ops[..|ops| - 1], limit), ops[|ops| - 1], limit)
  }

  /** A handler's promise settles once, after the handler was started. */
  predicate Allowed(s: State, op: Op) {
    op.Finish? ==> op.call in s.started && op.call !in s.finished
  }

  predicate AllowedRun(ops: seq<Op>, limit: int) {
    ops == [] ||
    (AllowedRun(ops[..|ops| - 1], limit) && Allowed(Run(ops[..|ops| - 1], limit), ops[|ops| - 1]))
  }

  /** Handlers start in call order; each accepted call is queued, running or finished;
      the counter is the number of running calls, and within the limit. */
  ghost predicate Fair(s: State, limit: int) {
    && s.started + s.queue == seq(s.accepted, i => i)
    && (forall c | c in s.finished :: c in s.started)
    && s.running == |s.started| - |s.finished|
    && (s.running > 0 ==> s.running <= limit) && s.running >= 0
  }

  /** Nobody waits while there is room. */
  ghost predicate Busy(s: State, limit: int) {
    s.queue != [] ==> s.running >= limit
  }

  lemma {:induction false} NextKeeps(s: State, limit: int)
    requires Fair(s, limit)
    ensures Fair(StartWaiting(s, limit), limit) && Busy(StartWaiting(s, limit), limit)
    ensures StartWaiting(s, limit).finished == s.finished && s.started <= StartWaiting(s, limit).started
    ensures StartWaiting(s, limit).accepted == s.accepted
    decreases |s.queue|
  {
    if s.running < limit && s.queue != [] {
      var s' := s.(running := s.running + 1, started := s.started + [s.queue[0]], queue := s.queue[1..]);
      assert s'.started + s'.queue == s.started + s.queue;
      NextKeeps(s', limit);
    }
  }

  lemma {:induction false} RunningPositive(started: seq<nat>, finished: set<nat>, call: nat)
    requires forall i, j | 0 <= i < j < |started| :: started[i] != started[j]
    requires (forall c | c in finished :: c in started) && call in started && call !in finished
    ensures |finished| < |started|
  {
    var last := started[|started| - 1];
    var rest := started[..|started| - 1];
    if |started| > 1 {
      if last == call {
        FinishedFit(rest, finished);
      } else {
        RunningPositive(rest, finished - {last}, call);
      }
    }
  }

  lemma {:induction false} FinishedFit(started: seq<nat>, finished: set<nat>)
    requires forall c | c in finished :: c in started
    ensures |finished| <= |started|
  {
    if started != [] {
      FinishedFit(started[..|started| - 1], finished - {started[|started| - 1]});
    } else {
      assert finished == {};
    }
  }

  lemma CallKeeps(s: State, limit: int)
    requires Fair(s, limit)
    ensures Fair(Enqueue(s, limit), limit) && Busy(Enqueue(s, limit), limit)
  {
    var s' := s.(queue := s.queue + [s.accepted], accepted := s.accepted + 1);
    assert s'.started + s'.queue == (s.started + s.queue) + [s.accepted];
    NextKeeps(s', limit);
  }

  lemma DoneKeeps(s: State, call: nat, limit: int)
    requires Fair(s, limit) && call in s.started && call !in s.finished
    ensures Fair(Done(s, call, limit), limit) && Busy(Done(s, call, limit), limit)
  {
    var all := s.started + s.queue;
    assert forall i | 0 <= i < |s.started| :: s.started[i] == all[i];
    RunningPositive(s.started, s.finished, call);
    NextKeeps(s.(running := s.running - 1, finished := s.finished + {call}), limit);
  }

  /** In every run: in call order, never above the limit, and at the limit whenever a
      call has to wait. */
  lemma {:induction false} RunIsFair(ops: seq<Op>, limit: int)
    requires AllowedRun(ops, limit)
    ensures Fair(Run(ops, limit), limit) && Busy(Run(ops, limit), limit)
  {
    if ops != [] {
      var s := Run(ops[..|ops| - 1], limit);
      RunIsFair(ops[..|ops| - 1], limit);
      match ops[|ops| - 1]
      case Call => CallKeeps(s, limit);
      case Finish(call) => DoneKeeps(s, call, limit);
    }
  }

  /** How often the limited function was called. */
  function Calls(ops: seq<Op>): nat {
    if ops == [] then 0 else Calls(ops[..|ops| - 1]) + if ops[|ops| - 1].Call? then 1 else 0
  }

  lemma {:induction false} NextKeepsCounts(s: State, limit: int)
    ensures StartWaiting(s, limit).accepted == s.accepted && StartWaiting(s, limit).finished == s.finished
    decreases |s.queue|
  {
    if s.running < limit && s.queue != [] {
      NextKeepsCounts(s.(running := s.running + 1, started := s.started + [s.queue[0]], queue := s.queue[1..]), limit);
    }
  }

  /** In every run every call is accepted, and the finished calls are those whose promises
      have settled. */
  lemma {:induction false} CountsFollowTheRun(ops: seq<Op>, limit: int)
    ensures Run(ops, limit).accepted == Calls(ops)
    ensures forall c :: c in Run(ops, limit).finished <==> Finish(c) in ops
  {
    if ops != [] {
      var s, op := Run(ops[..|ops| - 1], limit), ops[|ops| - 1];
      CountsFollowTheRun(ops[..|ops| - 1], limit);
      forall c ensures Finish(c) in ops <==> Finish(c) in ops[..|ops| - 1] || op == Finish(c) {
        assert ops == ops[..|ops| - 1] + [op];
      }
      match op
      case Call => NextKeepsCounts(s.(queue := s.queue + [s.accepted], accepted := s.accepted + 1), limit);
      case Finish(call) => NextKeepsCounts(s.(running := s.running - 1, finished := s.finished + {call}), limit);
    }
  }

  /** Each accepted call is exactly one of queued, running and finished. */
  lemma CallsPartition(ops: seq<Op>, limit: int, call: nat)
    requires AllowedRun(ops, limit)
    ensures var s := Run(ops, limit);
            && (call < s.accepted <==> call in s.queue || call in s.started)
            && !(call in s.queue && call in s.started)
            && (call in s.finished ==> call in s.started)
  {
    RunIsFair(ops, limit);
    var s := Run(ops, limit);
    var all := s.started + s.queue;
    assert forall i | 0 <= i < |s.started| :: s.started[i] == all[i] == i;
    assert forall i | 0 <= i < |s.queue| :: s.queue[i] == all[|s.started| + i] == |s.started| + i;
    if call < s.accepted {
      assert all[call] == call;
    }
  }

  class Limiter {
    const limit: int
    var queue: seq<nat>
    var running: int
    var accepted: nat
    ghost var started: seq<nat>
    ghost var finished: set<nat>

    ghost function View(): State
      reads this
    {
      State(queue, running, accepted, started, finished)
    }

    constructor (limit: int)
      ensures View() == IDLE && this.limit == limit
    {
      this.limit := limit;
      queue, running, accepted, started, finished := [], 0, 0, [], {};
    }

    method MaybeNext()
      modifies this
      ensures View() == StartWaiting(old(View()), limit)
    {
      while running < limit && |queue| > 0
        invariant StartWaiting(View(), limit) == StartWaiting(old(View()), limit)
        decreases |queue|
      {
        running := running + 1;
        started := started + [queue[0]];
        queue := queue[1..];
      }
    }

    /** The function `limit` returns. */
    method Call()
      modifies this
      ensures View() == Enqueue(old(View()), limit)
    {
      queue := queue + [accepted];
      accepted := accepted + 1;
      MaybeNext();
    }

    /** The promise of a handler is settled. */
    method OnDone(ghost call: nat)
      modifies this
      ensures View() == Done(old(View()), call, limit)
    {
      running := running - 1;
      finished := finished + {call};
      MaybeNext();
    }
  }
}
