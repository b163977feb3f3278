/** Log output under back-pressure: what stdout does not take at once waits in a queue. */
module LogQueue {
  import opened Wrappers

  /** A formatted line, used only as a value. */
  type Line = int

  datatype State = State(blocked: bool, attached: bool, pending: seq<Line>, written: seq<Line>)

  const INITIAL := State(false, false, [], [])

  /** Stdout keeps every line; `accepts(n)` is its answer to the write number `n`. */
  function Put(s: State, line: Line): State {
    s.(written := s.written + [line])
  }

  function Block(s: State): State {
    s.(blocked := true, attached := true)
  }

  function Issue(s: State, line: Line, accepts: nat -> bool): State {
    if s.blocked then s.(pending := s.pending + [line])
    else if accepts(|s.written|) then Put(s, line) else Block(Put(s, line))
  }

  function Flush(s: State, accepts: nat -> bool): State
    decreases |s.pending|
  {
    if s.pending == [] then s
    else
      var s' := Put(s, s.pending[0]).(pending := s.pending[1..]);
      if accepts(|s.written|) then Flush(s', accepts) else Block(s')
  }

  /** The drain listener is attached once for each time stdout blocks. */
  function Drain(s: State, accepts: nat -> bool): State {
    if s.attached then Flush(s.(attached := false, blocked := false), accepts) else s
  }

  /** A log call whose first argument is empty (`None`) writes nothing. */
  datatype Op = Log(line: Option<Line>) | DrainEvent

  function Apply(s: State, op: Op, accepts: nat -> bool): State {
    match op
    case Log(None) => s
    case Log(Some(line)) => Issue(s, line, accepts)
    case DrainEvent => Drain(s, accepts)
  }

  function Run(ops: seq<Op>, accepts: nat -> bool): State {
    if ops == [] then INITIAL else Apply(Run(ops[..|ops| - 1], accepts), ops[|ops| - 1], accepts)
  }

  function Issued(ops: seq<Op>): seq<Line> {
    if ops == [] then []
    else
      match ops[|ops| - 1]
      case Log(Some(line)) => Issued(ops[..|ops| - 1]) + [line]
      case _ => Issued(ops[..|ops| - 1])
  }

  /** The queue is only used while stdout is blocked, which it is exactly while a drain
      listener waits, and then the last write was refused. */
  ghost predicate Sound(s: State, accepts: nat -> bool) {
    && (s.blocked <==> s.attached)
    && (s.pending != [] ==> s.blocked)
    && (s.blocked ==> s.written != [] && !accepts(|s.written| - 1))
  }

  lemma {:induction false} FlushKeeps(s: State, accepts: nat -> bool)
    requires !s.blocked && !s.attached
    ensures var r := Flush(s, accepts);
            && r.written + r.pending == s.written + s.pending
            && Sound(r, accepts)
            && ((forall n | |s.written| <= n < |s.written| + |s.pending| :: accepts(n)) ==> r.pending == [] && !r.blocked)
    decreases |s.pending|
  {
    if s.pending != [] {
      var s' := Put(s, s.pending[0]).(pending := s.pending[1..]);
      assert s'.written + s'.pending == s.written + s.pending;
      if accepts(|s.written|) {
        FlushKeeps(s', accepts);
      }
    }
  }

  /** For every interleaving of log calls and drain events and all answers of stdout:
      the lines written, then those pending, are the lines issued, in order. */
  lemma {:induction false} LosslessFifo(ops: seq<Op>, accepts: nat -> bool)
    ensures var s := Run(ops, accepts);
            s.written + s.pending == Issued(ops) && Sound(s, accepts)
  {
    if ops != [] {
      var s := Run(ops[..|ops| - 1], accepts);
      LosslessFifo(ops[..|ops| - 1], accepts);
      match ops[|ops| - 1]
      case Log(None) =>
      case Log(Some(line)) =>
        var s' := Issue(s, line, accepts);
        assert s'.written + s'.pending == (s.written + s.pending) + [line];
      case DrainEvent =>
        if s.attached {
          FlushKeeps(s.(attached := false, blocked := false), accepts);
        }
    }
  }

  /** A drain event empties the queue exactly when stdout takes every pending line but
      possibly the last. */
  lemma {:induction false} DrainEmptiesExactlyWhen(s: State, accepts: nat -> bool)
    ensures Flush(s, accepts).pending == []
       <==> forall n | |s.written| <= n < |s.written| + |s.pending| - 1 :: accepts(n)
    decreases |s.pending|
  {
    if s.pending != [] {
      var s' := Put(s, s.pending[0]).(pending := s.pending[1..]);
      if accepts(|s.written|) {
        DrainEmptiesExactlyWhen(s', accepts);
      }
    }
  }

  lemma LastStep(ops: seq<Op>, accepts: nat -> bool)
    requires ops != []
    ensures Run(ops, accepts) == Apply(Run(ops[..|ops| - 1], accepts), ops[|ops| - 1], accepts)
  {
  }

  /** After a log call of a line, in every run: the line was written if stdout was free, and
      queued if not, and stdout is blocked exactly when it refused its last write. */
  lemma LogBlocksExactlyWhenRefused(ops: seq<Op>, line: Line, accepts: nat -> bool)
    requires ops != [] && ops[|ops| - 1] == Log(Some(line))
    ensures var before, s := Run(ops[..|ops| - 1], accepts), Run(ops, accepts);
            && s.written != [] && (s.blocked <==> !accepts(|s.written| - 1))
            && s.written == (if before.blocked then before.written else before.written + [line])
            && s.pending == (if before.blocked then before.pending + [line] else [])
  {
    LosslessFifo(ops[..|ops| - 1], accepts);
    LosslessFifo(ops, accepts);
  }

  lemma {:induction false} FlushWrites(s: State, accepts: nat -> bool)
    requires !s.blocked && !s.attached
    ensures var r := Flush(s, accepts);
            && s.written <= r.written
            && (forall n | |s.written| <= n < |r.written| - 1 :: accepts(n))
            && (s.pending != [] ==> s.written < r.written)
            && (r.blocked <==> s.written < r.written && !accepts(|r.written| - 1))
    decreases |s.pending|
  {
    if s.pending != [] && accepts(|s.written|) {
      FlushWrites(Put(s, s.pending[0]).(pending := s.pending[1..]), accepts);
    }
  }

  /** After a drain event, in every run: if stdout was blocked, pending lines were written up
      to the first that it refused, at least one if there was one, and stdout is blocked again
      exactly when there was a refusal; otherwise nothing has happened. */
  lemma DrainWritesToFirstRefusal(ops: seq<Op>, accepts: nat -> bool)
    requires ops != [] && ops[|ops| - 1].DrainEvent?
    ensures var before, s := Run(ops[..|ops| - 1], accepts), Run(ops, accepts);
            if !before.blocked then s == before
            else
              && before.written <= s.written
              && (forall n | |before.written| <= n < |s.written| - 1 :: accepts(n))
              && (before.pending != [] ==> before.written < s.written)
              && (s.blocked <==> before.written < s.written && !accepts(|s.written| - 1))
              && (s.pending != [] ==> s.blocked)
  {
    var before := Run(ops[..|ops| - 1], accepts);
    LosslessFifo(ops[..|ops| - 1], accepts);
    LosslessFifo(ops, accepts);
    if before.attached {
      FlushWrites(before.(attached := false, blocked := false), accepts);
    }
  }

  /** Nothing is written between a refusal and the next drain event. */
  lemma {:induction false} QuietUntilDrain(ops: seq<Op>, k: nat, accepts: nat -> bool)
    requires 0 < k <= |ops| && ops[k - 1].Log? && ops[k - 1].line.Some?
    requires var written := Run(ops[..k], accepts).written; written != [] && !accepts(|written| - 1)
    requires forall j | k <= j < |ops| :: !ops[j].DrainEvent?
    ensures Run(ops, accepts).written == Run(ops[..k], accepts).written && Run(ops, accepts).blocked
    decreases |ops|
  {
    if k == |ops| {
      assert ops[..k] == ops;
      LogBlocksExactlyWhenRefused(ops, ops[k - 1].line.value, accepts);
    } else {
      var before := ops[..|ops| - 1];
      assert before[..k] == ops[..k];
      QuietUntilDrain(before, k, accepts);
      LastStep(ops, accepts);
    }
  }

  class Log {
    const accepts: nat -> bool
    var stdoutBlocked: bool
    var drainListenerAttached: bool
    var pendingWrites: seq<Line>
    var stdout: seq<Line>

    ghost function View(): State
      reads this
    {
      State(stdoutBlocked, drainListenerAttached, pendingWrites, stdout)
    }

    constructor (accepts: nat -> bool)
      ensures View() == INITIAL && this.accepts == accepts
    {
      this.accepts := accepts;
      stdoutBlocked, drainListenerAttached, pendingWrites, stdout := false, false, [], [];
    }

    method StdoutWrite(output: Line) returns (success: bool)
      modifies this`stdout
      ensures stdout == old(stdout) + [output] && success == accepts(|old(stdout)|)
    {
      success := accepts(|stdout|);
      stdout := stdout + [output];
    }

    method Write(entry: Option<Line>)
      modifies this
      ensures View() == Apply(old(View()), Op.Log(entry), accepts)
    {
      if entry.None? {
        return;
      }
      var output: Line := entry.value;
      if stdoutBlocked {
        pendingWrites := pendingWrites + [output];
        return;
      }
      var success := StdoutWrite(output);
      if !success {
        stdoutBlocked := true;
        SetupDrainListener();
      }
    }

    method SetupDrainListener()
      modifies this`drainListenerAttached
      ensures drainListenerAttached
    {
      if drainListenerAttached {
        return;
      }
      drainListenerAttached := true;
    }

    /** The drain event of stdout: the listener, if there is one, runs once. */
    method OnDrain()
      modifies this
      ensures View() == Drain(old(View()), accepts)
    {
      if !drainListenerAttached {
        return;
      }
      drainListenerAttached := false;
      stdoutBlocked := false;
      while |pendingWrites| > 0
        invariant !stdoutBlocked && !drainListenerAttached
        invariant Flush(View(), accepts) == Drain(old(View()), accepts)
        decreases |pendingWrites|
      {
        var output := pendingWrites[0];
        pendingWrites := pendingWrites[1..];
        var success := StdoutWrite(output);
        if !success {
          stdoutBlocked := true;
          SetupDrainListener();
          break;
        }
      }
    }
  }
}
