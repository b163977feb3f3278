/** What runs of the channel manager keep: when names lead to their own records, when a
    channel that is left alone times out, and which channels never do. */
module ChannelRuns {
  import opened Wrappers
  import opened Channels

  // ---------- Names ----------

  /** In every allowed run a channel is one channel under both of its names: through either
      its activity is noted and its timeout extended, for both and for no other channel, and
      unregistering it takes both names away and no other. */
  lemma NamesInEveryRun(ops: seq<Op>, name: Name, more: int)
    requires AllowedRun(ops) && name in Run(ops).channels
    ensures var s := Run(ops);
            && s.Known(name)
            && var id, gone := s.At(name).id, AfterUnregister(s, s.At(name).id);
               && id in s.channels && s.channels[id] == s.channels[name]
               && (name == id || s.At(name).alias == Some(name))
               && AfterKeepalive(s, name) == AfterKeepalive(s, id)
               && AfterKeepalive(s, name).records == s.records[s.channels[id] := s.At(id).(lastActivity := s.now)]
               && AfterUpdateTimeout(s, name, more) == AfterUpdateTimeout(s, id, more)
               && AfterUpdateTimeout(s, name, more).records
                    == s.records[s.channels[id] := s.At(id).(timeout := s.At(id).timeout + more)]
               && (forall n :: n in gone.channels <==> n in s.channels && n != id && s.At(id).alias != Some(n))
               && (forall n | n in gone.channels :: gone.channels[n] == s.channels[n] != s.channels[id])
  {
    hide Run, Timed, Punctual;
    var s := Run(ops);
    RunInvariant(ops);
    assert NamedRight(s, name);
    UnregisterNames(s, s.At(name).id);
  }

  /** Entering a record leaves the names coherent exactly when the id is fresh, or its
      old record had no other name. */
  lemma EnterCoherentExactlyWhen(s: State, id: Name, timeout: int, alias: Option<Name>)
    requires Coherent(s) && !AliasTaken(s, alias)
    ensures Coherent(Enter(s, id, timeout, alias))
       <==> forall name | name in s.channels && id in s.channels && s.channels[name] == s.channels[id] :: name == id
  {
    var s' := Enter(s, id, timeout, alias);
    if name :| name in s.channels && id in s.channels && s.channels[name] == s.channels[id] && name != id {
      assert NamedRight(s, name) && NamedRight(s, id);
      assert name in s'.channels && s'.At(name) == s.At(name) && !NamedRight(s', name);
    } else {
      forall n | n in s'.channels ensures NamedRight(s', n) {
        if n in s.channels && n != id {
          assert NamedRight(s, n) && s'.At(n) == s.At(n);
        }
      }
    }
  }

  /** Registering leaves the names coherent exactly when it is refused, or the id is
      fresh, or the record it had before had no other name. */
  lemma RegisterCoherentExactlyWhen(s: State, id: Name, timeout: int, alias: Option<Name>)
    requires Coherent(s)
    ensures Coherent(AfterRegister(s, id, timeout, alias))
       <==> || AliasTaken(s, alias)
            || forall name | name in s.channels && id in s.channels && s.channels[name] == s.channels[id] :: name == id
  {
    if !AliasTaken(s, alias) {
      var s1, s' := Enter(s, id, timeout, alias), AfterRegister(s, id, timeout, alias);
      EnterCoherentExactlyWhen(s, id, timeout, alias);
      if Coherent(s1) {
        hide Coherent;
        FirstCheckCoherent(s1, id);
      } else {
        var name :| name in s.channels && id in s.channels && s.channels[name] == s.channels[id] && name != id;
        assert NamedRight(s, name) && NamedRight(s, id);
        assert name in s'.channels && s'.channels[name] == s.channels[name] && s'.At(name) == s.At(name);
        assert !NamedRight(s', name);
      }
    }
  }

  lemma FirstCheckCoherent(s: State, id: Name)
    requires Coherent(s) && s.Known(id) && s.At(id).id == id
    ensures Coherent(AfterCheck(s, id))
  {
  }

  /** Channel 1 is registered again while it still has the alias 2: the alias leads to the
      old record and the id to the new one, and the old record's timer checks the new one. */
  lemma TakenIdExample()
    ensures var s := Run([DoRegister(1, 10, Some(2)), DoRegister(1, 20, None)]);
            && s.channels == map[1 := 1, 2 := 0] && s.At(2).id == 1 && !Coherent(s)
            && 0 in s.timers && s.timers[0].id == 1 && s.At(1).timer == Some(1)
  {
    var s := AfterRegister(RegisteredOnce(), 1, 20, None);
    RunsOnce(DoRegister(1, 20, None));
    assert !NamedRight(s, 2);
  }

  /** Channel 1 with the alias 2 is unregistered by its alias: the id stays in the table,
      and its timer is gone, so that it never times out. */
  lemma ByAliasExample()
    ensures var s := Run([DoRegister(1, 10, Some(2)), DoUnregister(2)]);
            && s.channels == map[1 := 0] && s.At(1).alias == Some(2) && s.timers == map[] && !Coherent(s)
  {
    var s := AfterUnregister(RegisteredOnce(), 2);
    RunsOnce(DoUnregister(2));
    assert !NamedRight(s, 1);
  }

  function RegisteredOnce(): State {
    State(0, map[2 := 0, 1 := 0], [Record(1, 10, Some(2), 0, Some(0))], map[0 := Timer(1, 0, 10)], 1, [])
  }

  lemma RunsOnce(op: Op)
    ensures Run([DoRegister(1, 10, Some(2)), op]) == Apply(RegisteredOnce(), op)
  {
    var first := DoRegister(1, 10, Some(2));
    assert [first][..0] == [] && [first, op][..1] == [first];
    assert Run([first]) == AfterRegister(EMPTY, 1, 10, Some(2)) == RegisteredOnce();
  }

  /** Unregistering leaves the names coherent exactly when it is done by id: through
      the alias, the id stays in the table and its timer is gone. */
  lemma UnregisterCoherentExactlyById(s: State, name: Name)
    requires Coherent(s) && name in s.channels
    ensures Coherent(AfterUnregister(s, name)) <==> s.At(name).id == name
    ensures s.At(name).id != name ==> s.At(name).id in AfterUnregister(s, name).channels
  {
  }

  /** The steps that make names lead astray: registering an id whose old record has
      another name, and unregistering by an alias, which a timer left over from a record
      that was replaced can do as well. */
  ghost predicate Misnames(s: State, op: Op) {
    match op
    case DoRegister(id, timeout, alias) =>
      && !AliasTaken(s, alias)
      && exists name :: name in s.channels && id in s.channels && s.channels[name] == s.channels[id] && name != id
    case DoUnregister(name) => s.Known(name) && s.At(name).id != name
    case DoFire(timer) =>
      && timer in s.timers && s.Known(s.timers[timer].id)
      && var r := s.At(s.timers[timer].id);
         r.id != s.timers[timer].id && s.now - r.lastActivity >= r.timeout
    case _ => false
  }

  lemma CheckCoherent(s: State, name: Name)
    requires Coherent(s)
    ensures Coherent(AfterCheck(s, name))
       <==> !(s.Known(name) && s.At(name).id != name && s.now - s.At(name).lastActivity >= s.At(name).timeout)
  {
    if s.Known(name) {
      var s' := AfterUnregister(s, name);
      UnregisterCoherentExactlyById(s, name);
      if s.now - s.At(name).lastActivity >= s.At(name).timeout {
        SameNames(s', AfterCheck(s, name));
      } else if s.At(name).timeout > 1 {
        var r := s.At(name).(timer := Some(s.nextTimer));
        PutCoherentAs(s, name, r);
        SameNames(s.Put(name, r), AfterCheck(s, name));
      }
    }
  }

  lemma SameNames(s: State, s': State)
    requires s'.channels == s.channels && s'.records == s.records
    ensures Coherent(s') <==> Coherent(s)
  {
    assert forall name | name in s.channels :: NamedRight(s', name) <==> NamedRight(s, name);
  }

  lemma PutCoherentAs(s: State, name: Name, r: Record)
    requires Coherent(s) && s.Known(name) && r.id == s.At(name).id && r.alias == s.At(name).alias
    ensures Coherent(s.Put(name, r))
  {
  }

  lemma StepCoherentExactlyWhen(s: State, op: Op)
    requires Coherent(s)
    ensures Coherent(Apply(s, op)) <==> !Misnames(s, op)
  {
    hide Coherent;
    match op
    case DoRegister(id, timeout, alias) => RegisterCoherentExactlyWhen(s, id, timeout, alias);
    case DoUnregister(name) =>
      if s.Known(name) {
        UnregisterCoherentExactlyById(s, name);
      }
    case DoKeepalive(name) =>
      if s.Known(name) {
        PutCoherentAs(s, name, s.At(name).(lastActivity := s.now));
      }
    case DoUpdateTimeout(name, more) =>
      if s.Known(name) {
        PutCoherentAs(s, name, s.At(name).(timeout := s.At(name).timeout + more));
      }
    case DoFire(timer) =>
      if timer in s.timers {
        SameNames(s, s.(timers := s.timers - {timer}));
        CheckCoherent(s.(timers := s.timers - {timer}), s.timers[timer].id);
      }
    case Advance(ms) => SameNames(s, Apply(s, op));
  }

  ghost predicate AlwaysCoherent(ops: seq<Op>) {
    Coherent(Run(ops)) && (ops == [] || AlwaysCoherent(ops[..|ops| - 1]))
  }

  ghost predicate NeverMisnames(ops: seq<Op>) {
    ops == [] || (NeverMisnames(ops[..|ops| - 1]) && !Misnames(Run(ops[..|ops| - 1]), ops[|ops| - 1]))
  }

  /** In every run, whatever is called and whenever timers fire, each name leads to its own
      record all the time, exactly when no step misnames. */
  lemma {:induction false} NamesStayRightExactlyWhen(ops: seq<Op>)
    ensures AlwaysCoherent(ops) <==> NeverMisnames(ops)
  {
    hide Coherent, Misnames, Apply;
    if ops == [] {
      NoNames();
    } else {
      var before := ops[..|ops| - 1];
      NamesStayRightExactlyWhen(before);
      if AlwaysCoherent(before) {
        StepCoherentExactlyWhen(Run(before), ops[|ops| - 1]);
      }
    }
  }

  lemma NoNames()
    ensures Coherent(EMPTY)
  {
  }

  /** Of an allowed run: every timeout that a timer found was at its deadline, to the
      millisecond, and every channel with a timer has not passed its own. */
  lemma TimeoutsAtDeadlines(ops: seq<Op>)
    requires AllowedRun(ops)
    ensures var s := Run(ops);
            && (forall e | e in s.timeouts && e.ref < |s.records| && s.records[e.ref].timer.Some? ::
                  e.at == s.records[e.ref].lastActivity + s.records[e.ref].timeout)
            && (forall name | name in s.channels :: s.Known(name))
            && (forall name | name in s.channels && s.At(name).timer.Some? ::
                  s.now <= s.At(name).lastActivity + s.At(name).timeout)
            && (forall i, j | 0 <= i < j < |s.timeouts| :: s.timeouts[i].ref != s.timeouts[j].ref)
  {
    RunInvariant(ops);
  }

  // ---------- A channel that is left alone ----------

  /** The step does not unregister, keep alive or extend the channel with record `ref`. */
  predicate LeavesAlone(s: State, op: Op, ref: nat) {
    match op
    case DoUnregister(name) => !(name in s.channels && s.channels[name] == ref)
    case DoKeepalive(name) => !(name in s.channels && s.channels[name] == ref)
    case DoUpdateTimeout(name, more) => !(name in s.channels && s.channels[name] == ref)
    case _ => true
  }

  /** The channel is there under its id, armed, with its deadline ahead or just reached. */
  predicate Waiting(s: State, id: Name, ref: nat, deadline: int) {
    && s.Known(id) && s.channels[id] == ref
    && var r := s.records[ref];
       r.id == id && r.timer.Some? && r.lastActivity + r.timeout == deadline
  }

  /** It is gone under every name, and has timed out at its deadline. */
  ghost predicate Gone(s: State, id: Name, ref: nat, deadline: int) {
    && ref < |s.records| && deadline <= s.now
    && (forall name | name in s.channels :: s.channels[name] != ref)
    && Timeout(id, ref, deadline) in s.timeouts
  }

  lemma AloneFire(s: State, timer: nat, id: Name, ref: nat, deadline: int)
    requires Invariant(s) && Allowed(s, DoFire(timer)) && Waiting(s, id, ref, deadline)
    ensures var s' := AfterFire(s, timer);
            if s.timers[timer].id == id && s.now == deadline then Gone(s', id, ref, deadline)
            else Waiting(s', id, ref, deadline)
  {
    var s1, other := s.(timers := s.timers - {timer}), s.timers[timer].id;
    assert NamedRight(s, id) && NamedRight(s, other);
    if other == id {
      assert s.now <= deadline;
      if s.now == deadline {
        UnregisterNames(s1, id);
      }
    }
  }

  lemma AloneRegister(s: State, entered: Name, timeout: int, alias: Option<Name>, id: Name, ref: nat, deadline: int)
    requires Invariant(s) && entered !in s.channels && Waiting(s, id, ref, deadline)
    ensures Waiting(AfterRegister(s, entered, timeout, alias), id, ref, deadline)
  {
  }

  /** While it is left alone, a waiting channel waits on or has timed out at its deadline,
      and once it is gone it stays so. */
  lemma AloneStep(s: State, op: Op, id: Name, ref: nat, deadline: int)
    requires Invariant(s) && Allowed(s, op) && LeavesAlone(s, op, ref)
    requires Waiting(s, id, ref, deadline) || Gone(s, id, ref, deadline)
    ensures Waiting(Apply(s, op), id, ref, deadline) || Gone(Apply(s, op), id, ref, deadline)
  {
    if Gone(s, id, ref, deadline) {
      GoneStays(s, op, id, ref, deadline);
    } else {
      hide Invariant, Gone;
      match op
      case DoRegister(entered, timeout, alias) => AloneRegister(s, entered, timeout, alias, id, ref, deadline);
      case DoUnregister(name) => AloneUnregister(s, name, id, ref, deadline);
      case DoKeepalive(name) =>
      case DoUpdateTimeout(name, more) =>
      case DoFire(timer) => AloneFire(s, timer, id, ref, deadline);
      case Advance(ms) =>
    }
  }

  lemma AloneUnregister(s: State, name: Name, id: Name, ref: nat, deadline: int)
    requires Invariant(s) && Allowed(s, DoUnregister(name)) && LeavesAlone(s, DoUnregister(name), ref)
    requires Waiting(s, id, ref, deadline)
    ensures Waiting(AfterUnregister(s, name), id, ref, deadline)
  {
    if s.Known(name) {
      UnregisterNames(s, name);
    }
  }

  lemma GoneStays(s: State, op: Op, id: Name, ref: nat, deadline: int)
    requires Invariant(s) && Allowed(s, op) && Gone(s, id, ref, deadline)
    ensures Gone(Apply(s, op), id, ref, deadline)
  {
  }

  /** A channel is registered as step `k` of an allowed run, with a timeout that is not
      infinite, and then left alone. It is there before its deadline, however often its
      timer had to be clamped; after its deadline it is gone; if it timed out, it was
      at its deadline and once; and if it is still there when the deadline has come, its
      timer is due. */
  lemma SilentChannelTimesOut(ops: seq<Op>, k: nat)
    requires AllowedRun(ops) && k < |ops| && ops[k].DoRegister? && ops[k].timeout > 1
    requires !AliasTaken(Run(ops[..k]), ops[k].alias)
    requires forall j | k < j < |ops| :: LeavesAlone(Run(ops[..j]), ops[j], |Run(ops[..k]).records|)
    ensures var before, s, id := Run(ops[..k]), Run(ops), ops[k].id;
            var ref, deadline := |before.records|, before.now + ops[k].timeout;
            && (s.now < deadline ==> Waiting(s, id, ref, deadline))
            && (s.now > deadline ==> Gone(s, id, ref, deadline))
            && (forall e | e in s.timeouts && e.ref == ref :: e == Timeout(id, ref, deadline))
            && (Waiting(s, id, ref, deadline) ==>
                  && s.At(id).timer.value in s.timers
                  && (s.now == deadline ==>
                        && Allowed(s, DoFire(s.At(id).timer.value))
                        && Gone(AfterFire(s, s.At(id).timer.value), id, ref, deadline)))
  {
    hide Run, Invariant, Gone;
    var before, id := Run(ops[..k]), ops[k].id;
    AloneRun(ops, k);
    RunInvariant(ops);
    AloneNow(Run(ops), id, |before.records|, before.now + ops[k].timeout);
  }

  lemma AloneNow(s: State, id: Name, ref: nat, deadline: int)
    requires Invariant(s) && (Waiting(s, id, ref, deadline) || Gone(s, id, ref, deadline))
    ensures s.now < deadline ==> Waiting(s, id, ref, deadline)
    ensures s.now > deadline ==> Gone(s, id, ref, deadline)
    ensures forall e | e in s.timeouts && e.ref == ref :: e == Timeout(id, ref, deadline)
    ensures Waiting(s, id, ref, deadline) ==>
              && s.At(id).timer.value in s.timers
              && (s.now == deadline ==>
                    && Allowed(s, DoFire(s.At(id).timer.value))
                    && Gone(AfterFire(s, s.At(id).timer.value), id, ref, deadline))
  {
    if Waiting(s, id, ref, deadline) {
      var timer: nat := s.At(id).timer.value;
      assert s.timers[timer].id == id;
      if s.now == deadline {
        AloneFire(s, timer, id, ref, deadline);
      }
    }
  }

  lemma {:induction false} AloneRun(ops: seq<Op>, k: nat)
    requires AllowedRun(ops) && k < |ops| && ops[k].DoRegister? && ops[k].timeout > 1
    requires !AliasTaken(Run(ops[..k]), ops[k].alias)
    requires forall j | k < j < |ops| :: LeavesAlone(Run(ops[..j]), ops[j], |Run(ops[..k]).records|)
    ensures var before := Run(ops[..k]);
            var ref, deadline := |before.records|, before.now + ops[k].timeout;
            Waiting(Run(ops), ops[k].id, ref, deadline) || Gone(Run(ops), ops[k].id, ref, deadline)
    decreases |ops|
  {
    hide Invariant, Gone, Waiting, LeavesAlone, Allowed, AllowedRun, Run, Apply;
    var n := |ops| - 1;
    var s, op := Run(ops[..n]), ops[n];
    LastStep(ops);
    if k == n {
      RegisteredWaits(s, op);
    } else {
      var init := ops[..n];
      assert init[..k] == ops[..k];
      forall j | k < j < |init| ensures LeavesAlone(Run(init[..j]), init[j], |Run(ops[..k]).records|) {
        assert init[..j] == ops[..j];
      }
      AloneRun(init, k);
      RunInvariant(init);
      AloneStep(s, op, ops[k].id, |Run(ops[..k]).records|, Run(ops[..k]).now + ops[k].timeout);
    }
  }

  lemma LastStep(ops: seq<Op>)
    requires ops != [] && AllowedRun(ops)
    ensures var before, op := ops[..|ops| - 1], ops[|ops| - 1];
            Run(ops) == Apply(Run(before), op) && AllowedRun(before) && Allowed(Run(before), op)
  {
  }

  lemma RegisteredWaits(s: State, op: Op)
    requires op.DoRegister? && op.timeout > 1 && !AliasTaken(s, op.alias)
    ensures Waiting(Apply(s, op), op.id, |s.records|, s.now + op.timeout)
  {
  }

  function DueNow(s: State): set<nat> {
    set h | h in s.timers && s.timers[h].due <= s.now
  }

  lemma FiredIsNotDue(s: State, timer: nat)
    requires Invariant(s) && timer in DueNow(s)
    ensures DueNow(AfterFire(s, timer)) < DueNow(s)
  {
    var s' := AfterFire(s, timer);
    forall h | h in DueNow(s') ensures h in DueNow(s) && h != timer {
    }
    assert timer in DueNow(s) && timer !in DueNow(s');
  }

  /** The clock is never held up: after finitely many timers that are due it can go on,
      so every deadline comes. */
  lemma {:induction false} TimeGoesOn(ops: seq<Op>) returns (fires: seq<Op>)
    requires AllowedRun(ops)
    ensures (forall op | op in fires :: op.DoFire?) && AllowedRun(ops + fires + [Advance(1)])
    decreases DueNow(Run(ops))
  {
    hide Run, Invariant, AfterFire;
    var s := Run(ops);
    RunInvariant(ops);
    if timer :| timer in DueNow(s) {
      RunOn(ops, DoFire(timer));
      FiredIsNotDue(s, timer);
      var rest := TimeGoesOn(ops + [DoFire(timer)]);
      fires := [DoFire(timer)] + rest;
      assert ops + fires == ops + [DoFire(timer)] + rest;
    } else {
      fires := [];
      assert ops + fires == ops;
      assert forall h | h in s.timers :: h !in DueNow(s);
      RunOn(ops, Advance(1));
    }
  }

  lemma RunOn(ops: seq<Op>, op: Op)
    requires AllowedRun(ops) && Allowed(Run(ops), op)
    ensures AllowedRun(ops + [op]) && Run(ops + [op]) == Apply(Run(ops), op)
  {
    assert (ops + [op])[..|ops|] == ops;
  }

  // ---------- Deadlines from the calls of a run ----------

  /** How much time a run has let pass. */
  function Clock(ops: seq<Op>): int {
    if ops == [] then 0
    else Clock(ops[..|ops| - 1]) + if ops[|ops| - 1].Advance? then ops[|ops| - 1].ms else 0
  }

  lemma {:induction false} ClockIsNow(ops: seq<Op>)
    ensures Run(ops).now == Clock(ops)
  {
    hide AfterUnregister;
    if ops != [] {
      ClockIsNow(ops[..|ops| - 1]);
      OnlyAdvanceMovesTime(Run(ops[..|ops| - 1]), ops[|ops| - 1]);
    }
  }

  lemma OnlyAdvanceMovesTime(s: State, op: Op)
    ensures Apply(s, op).now == s.now + if op.Advance? then op.ms else 0
  {
  }

  /** When a channel was last heard of, and how long it may then be silent. */
  datatype Span = Span(last: int, timeout: int)
  {
    function Deadline(): int {
      last + timeout
    }

    /** A keepalive through either name moves the one, an extension the other. */
    function After(op: Op, id: Name, alias: Option<Name>, now: int): Span {
      match op
      case DoKeepalive(name) => if name == id || alias == Some(name) then Span(now, timeout) else this
      case DoUpdateTimeout(name, more) =>
        if name == id || alias == Some(name) then Span(last, timeout + more) else this
      case _ => this
    }
  }

  /** As the registration and the calls after it say, whatever the manager keeps. */
  function SpanOf(ops: seq<Op>, k: nat): Span
    requires k < |ops| && ops[k].DoRegister?
  {
    var before := ops[..|ops| - 1];
    if k == |ops| - 1 then Span(Clock(before), ops[k].timeout)
    else SpanOf(before, k).After(ops[|ops| - 1], ops[k].id, ops[k].alias, Clock(before))
  }

  /** The channel is there under its names, with this span and a timer. */
  predicate Armed(s: State, id: Name, alias: Option<Name>, ref: nat, span: Span) {
    && s.Known(id) && s.channels[id] == ref && s.records[ref].timer.Some?
    && s.records[ref] == Record(id, span.timeout, alias, span.last, s.records[ref].timer)
  }

  predicate Unregisters(s: State, op: Op, ref: nat) {
    op.DoUnregister? && op.name in s.channels && s.channels[op.name] == ref
  }

  lemma RegisterArms(s: State, op: Op)
    requires op.DoRegister? && op.timeout > 1 && !AliasTaken(s, op.alias)
    ensures Armed(Apply(s, op), op.id, op.alias, |s.records|, Span(s.now, op.timeout))
  {
  }

  lemma FireArms(s: State, timer: nat, id: Name, alias: Option<Name>, ref: nat, span: Span)
    requires Invariant(s) && Allowed(s, DoFire(timer)) && Armed(s, id, alias, ref, span)
    ensures var s' := AfterFire(s, timer);
            if s.timers[timer].id == id && s.now == span.Deadline() then Gone(s', id, ref, span.Deadline())
            else Armed(s', id, alias, ref, span)
  {
    AloneFire(s, timer, id, ref, span.Deadline());
    assert NamedRight(s, id) && NamedRight(s, s.timers[timer].id);
  }

  /** A call through a name of the channel reaches it, and no other does. */
  lemma TouchArms(s: State, op: Op, id: Name, alias: Option<Name>, ref: nat, span: Span)
    requires Invariant(s) && (op.DoKeepalive? || op.DoUpdateTimeout?) && Armed(s, id, alias, ref, span)
    ensures Armed(Apply(s, op), id, alias, ref, span.After(op, id, alias, s.now))
  {
    assert NamedRight(s, id);
    if s.Known(op.name) {
      assert NamedRight(s, op.name);
    }
  }

  lemma OtherArms(s: State, op: Op, id: Name, alias: Option<Name>, ref: nat, span: Span)
    requires Invariant(s) && Allowed(s, op) && (op.DoRegister? || op.DoUnregister?) && !Unregisters(s, op, ref)
    requires Armed(s, id, alias, ref, span)
    ensures Armed(Apply(s, op), id, alias, ref, span)
  {
    if op.DoUnregister? && s.Known(op.name) {
      UnregisterNames(s, op.name);
    }
  }

  lemma ArmedStep(s: State, op: Op, id: Name, alias: Option<Name>, ref: nat, span: Span)
    requires Invariant(s) && Allowed(s, op) && !Unregisters(s, op, ref) && Armed(s, id, alias, ref, span)
    ensures var s' := Apply(s, op);
            || Armed(s', id, alias, ref, span.After(op, id, alias, s.now))
            || (op.DoFire? && s.now == span.Deadline() && Gone(s', id, ref, span.Deadline()))
  {
    hide Invariant, Gone;
    match op
    case DoRegister(entered, timeout, other) => OtherArms(s, op, id, alias, ref, span);
    case DoUnregister(name) => OtherArms(s, op, id, alias, ref, span);
    case DoKeepalive(name) => TouchArms(s, op, id, alias, ref, span);
    case DoUpdateTimeout(name, more) => TouchArms(s, op, id, alias, ref, span);
    case DoFire(timer) => FireArms(s, timer, id, alias, ref, span);
    case Advance(ms) =>
  }

  /** It timed out when the clock had reached the deadline that the calls so far gave it. */
  ghost predicate TimedOut(ops: seq<Op>, k: nat, ref: nat)
    requires k < |ops| && ops[k].DoRegister?
  {
    exists j | k < j <= |ops| ::
      && Clock(ops[..j]) == SpanOf(ops[..j], k).Deadline()
      && Gone(Run(ops), ops[k].id, ref, SpanOf(ops[..j], k).Deadline())
  }

  lemma {:induction false} ArmedOrTimedOut(ops: seq<Op>, k: nat)
    requires AllowedRun(ops) && k < |ops| && ops[k].DoRegister? && ops[k].timeout > 1
    requires !AliasTaken(Run(ops[..k]), ops[k].alias)
    requires forall j | k < j < |ops| :: !Unregisters(Run(ops[..j]), ops[j], |Run(ops[..k]).records|)
    ensures var ref := |Run(ops[..k]).records|;
            Armed(Run(ops), ops[k].id, ops[k].alias, ref, SpanOf(ops, k)) || TimedOut(ops, k, ref)
    decreases |ops|
  {
    hide Invariant, Gone, Armed, Unregisters, Allowed, AllowedRun, Run, Apply;
    var n := |ops| - 1;
    var init, s, op, ref := ops[..n], Run(ops[..n]), ops[n], |Run(ops[..k]).records|;
    LastStep(ops);
    ClockIsNow(init);
    if k == n {
      RegisterArms(s, op);
    } else {
      assert init[..k] == ops[..k];
      forall j | k < j < |init| ensures !Unregisters(Run(init[..j]), init[j], ref) {
        assert init[..j] == ops[..j];
      }
      ArmedOrTimedOut(init, k);
      RunInvariant(init);
      if Armed(s, ops[k].id, ops[k].alias, ref, SpanOf(init, k)) {
        ArmedStep(s, op, ops[k].id, ops[k].alias, ref, SpanOf(init, k));
        assert ops[..|ops|] == ops;
        if !Armed(Run(ops), ops[k].id, ops[k].alias, ref, SpanOf(ops, k)) {
          assert Clock(ops[..|ops|]) == SpanOf(ops[..|ops|], k).Deadline();
        }
      } else {
        var j :| k < j <= |init| && Clock(init[..j]) == SpanOf(init[..j], k).Deadline()
                 && Gone(s, ops[k].id, ref, SpanOf(init[..j], k).Deadline());
        assert init[..j] == ops[..j];
        GoneStays(s, op, ops[k].id, ref, SpanOf(init[..j], k).Deadline());
      }
    }
  }

  /** A channel is registered as step `k` of an allowed run and not unregistered; its deadline
      is what the registration and every later keepalive and extension through its id or its
      alias make it. While the clock stays below the deadline of the moment the channel is
      there, with exactly that deadline; once the clock is past it the channel is gone; and it
      only times out at a moment at which the clock had reached the deadline, and then once. */
  lemma LivesUntilItsDeadline(ops: seq<Op>, k: nat)
    requires AllowedRun(ops) && k < |ops| && ops[k].DoRegister? && ops[k].timeout > 1
    requires !AliasTaken(Run(ops[..k]), ops[k].alias)
    requires forall j | k < j < |ops| :: !Unregisters(Run(ops[..j]), ops[j], |Run(ops[..k]).records|)
    ensures var s, ref, span := Run(ops), |Run(ops[..k]).records|, SpanOf(ops, k);
            && s.now == Clock(ops)
            && ((forall j | k < j <= |ops| :: Clock(ops[..j]) < SpanOf(ops[..j], k).Deadline()) ==>
                  Armed(s, ops[k].id, ops[k].alias, ref, span))
            && (Clock(ops) > span.Deadline() ==> TimedOut(ops, k, ref))
            && ((exists e :: e in s.timeouts && e.ref == ref) <==> TimedOut(ops, k, ref))
            && (!TimedOut(ops, k, ref) ==> Armed(s, ops[k].id, ops[k].alias, ref, span))
            && (forall d, e | d in s.timeouts && e in s.timeouts && d.ref == e.ref == ref :: d == e)
  {
    hide Run, Invariant, Gone, Armed, TimedOut;
    var s, ref, span := Run(ops), |Run(ops[..k]).records|, SpanOf(ops, k);
    ClockIsNow(ops);
    ArmedOrTimedOut(ops, k);
    RunInvariant(ops);
    ArmedNow(s, ops[k].id, ops[k].alias, ref, span);
    OneTimeout(s, ref);
    if TimedOut(ops, k, ref) {
      TimedOutThen(ops, k, ref);
    }
  }

  lemma ArmedNow(s: State, id: Name, alias: Option<Name>, ref: nat, span: Span)
    requires Invariant(s)
    ensures Armed(s, id, alias, ref, span) ==>
              s.now <= span.Deadline() && forall e | e in s.timeouts :: e.ref != ref
  {
  }

  lemma OneTimeout(s: State, ref: nat)
    requires Invariant(s)
    ensures forall d, e | d in s.timeouts && e in s.timeouts && d.ref == e.ref == ref :: d == e
  {
  }

  lemma TimedOutThen(ops: seq<Op>, k: nat, ref: nat)
    requires k < |ops| && ops[k].DoRegister? && TimedOut(ops, k, ref)
    ensures exists j | k < j <= |ops| :: Clock(ops[..j]) == SpanOf(ops[..j], k).Deadline()
    ensures exists e :: e in Run(ops).timeouts && e.ref == ref
  {
    hide Run, SpanOf;
    var j :| k < j <= |ops| && Clock(ops[..j]) == SpanOf(ops[..j], k).Deadline()
             && Gone(Run(ops), ops[k].id, ref, SpanOf(ops[..j], k).Deadline());
    assert Timeout(ops[k].id, ref, SpanOf(ops[..j], k).Deadline()) in Run(ops).timeouts;
  }

  /** A check that finds a channel with time left arms a timer for the rest of it, or for the
      2147483647 ms that `setTimeout` can take if that is less. */
  lemma ArmedForTheRest(ops: seq<Op>, id: Name)
    requires AllowedRun(ops) && ops != [] && Run(ops).Known(id)
    requires var op, before := ops[|ops| - 1], Run(ops[..|ops| - 1]);
             || (op.DoRegister? && op.id == id && op.timeout > 1 && !AliasTaken(before, op.alias))
             || (op.DoFire? && before.timers[op.timer].id == id)
    ensures var s, r := Run(ops), Run(ops).At(id);
            && r.timer.Some? && r.timer.value in s.timers
            && var rest := r.lastActivity + r.timeout - s.now;
               s.timers[r.timer.value] == Timer(id, s.now, s.now + if rest < 2147483647 then rest else 2147483647)
  {
    hide Run, Invariant, AllowedRun;
    LastStep(ops);
    RunInvariant(ops[..|ops| - 1]);
    var op, before := ops[|ops| - 1], Run(ops[..|ops| - 1]);
    if op.DoRegister? {
      CheckArms(Enter(before, id, op.timeout, op.alias), id);
    } else {
      FiredIsTimed(before, op.timer);
      CheckArms(before.(timers := before.timers - {op.timer}), id);
    }
  }

  lemma FiredIsTimed(s: State, timer: nat)
    requires Invariant(s) && timer in s.timers
    ensures s.Known(s.timers[timer].id) && s.At(s.timers[timer].id).id == s.timers[timer].id
    ensures s.At(s.timers[timer].id).timeout > 1
  {
  }

  lemma CheckArms(s: State, id: Name)
    requires s.Known(id) && s.At(id).timeout > 1 && AfterCheck(s, id).Known(id)
    ensures var s', r := AfterCheck(s, id), AfterCheck(s, id).At(id);
            && r.timer.Some? && r.timer.value in s'.timers && s'.now == s.now
            && var rest := r.lastActivity + r.timeout - s.now;
               s'.timers[r.timer.value] == Timer(id, s.now, s.now + if rest < 2147483647 then rest else 2147483647)
  {
  }

  // ---------- An infinite timeout ----------

  /** The record has no timer and has not timed out, and its names still lead to it
      unless it was unregistered. */
  ghost predicate Timerless(s: State, ref: nat) {
    ref < |s.records| && s.records[ref].timer == None && forall e | e in s.timeouts :: e.ref != ref
  }

  lemma TimerlessStep(s: State, op: Op, ref: nat)
    requires Invariant(s) && Allowed(s, op) && Timerless(s, ref)
    ensures Timerless(Apply(s, op), ref)
    ensures var id := s.records[ref].id;
            s.Known(id) && s.channels[id] == ref && !(op.DoUnregister? && op.name == id) ==>
              Apply(s, op).Known(id) && Apply(s, op).channels[id] == ref && Apply(s, op).records[ref].id == id
  {
    if op.DoFire? {
      var other := s.timers[op.timer].id;
      assert s.channels[other] != ref && NamedRight(s, other);
    } else if op.DoUnregister? && s.Known(op.name) {
      UnregisterNames(s, op.name);
    }
  }

  /** A timeout of 1 is infinite for good: in every allowed run a channel registered with
      it never gets a timer and never times out, even if it is extended, and stays until
      it is unregistered. */
  lemma {:induction false} OneIsForever(ops: seq<Op>, k: nat)
    requires AllowedRun(ops) && k < |ops| && ops[k].DoRegister? && ops[k].timeout == 1
    requires !AliasTaken(Run(ops[..k]), ops[k].alias)
    ensures var s, id, ref := Run(ops), ops[k].id, |Run(ops[..k]).records|;
            && ref < |s.records| && s.records[ref].id == id && Timerless(s, ref)
            && ((forall j | k < j < |ops| :: !(ops[j].DoUnregister? && ops[j].name == id)) ==>
                  s.Known(id) && s.channels[id] == ref)
    decreases |ops|
  {
    hide Invariant, Allowed, AllowedRun, Run, Apply, Timerless;
    var n, id, ref := |ops| - 1, ops[k].id, |Run(ops[..k]).records|;
    var s, op, init := Run(ops[..n]), ops[n], ops[..n];
    LastStep(ops);
    RunInvariant(init);
    if k == n {
      RegisteredForever(s, op);
    } else {
      assert init[..k] == ops[..k];
      OneIsForever(init, k);
      TimerlessStep(s, op, ref);
      RecordsKeepIds(s, op, ref);
    }
  }

  lemma RecordsKeepIds(s: State, op: Op, ref: nat)
    requires ref < |s.records|
    ensures ref < |Apply(s, op).records| && Apply(s, op).records[ref].id == s.records[ref].id
  {
  }

  lemma RegisteredForever(s: State, op: Op)
    requires Invariant(s) && op.DoRegister? && op.timeout == 1 && !AliasTaken(s, op.alias)
    ensures var s' := Apply(s, op);
            && Timerless(s', |s.records|) && s'.records[|s.records|].id == op.id
            && s'.Known(op.id) && s'.channels[op.id] == |s.records|
  {
  }

  /** Extended from 1 to 10, idle for a second, and still there without a timer. */
  lemma ExtendedOneExample()
    ensures var ops := [DoRegister(7, 1, None), DoUpdateTimeout(7, 9), Advance(1000)];
            var s := Run(ops);
            && AllowedRun(ops) && s.Known(7) && s.At(7).timer == None && s.timers == map[]
            && s.now - s.At(7).lastActivity == 1000 > s.At(7).timeout == 10
  {
    hide Run;
    StartsEmpty();
    var o1, o2, o3 := DoRegister(7, 1, None), DoUpdateTimeout(7, 9), Advance(1000);
    var nothing: seq<Op> := [];
    RunOn(nothing, o1);
    assert Run(nothing + [o1]) == State(0, map[7 := 0], [Record(7, 1, None, 0, None)], map[], 0, []);
    RunOn(nothing + [o1], o2);
    assert Run(nothing + [o1] + [o2]) == State(0, map[7 := 0], [Record(7, 10, None, 0, None)], map[], 0, []);
    RunOn(nothing + [o1] + [o2], o3);
    assert nothing + [o1] + [o2] + [o3] == [o1, o2, o3];
  }

  lemma StartsEmpty()
    ensures Run([]) == EMPTY
  {
  }
}
