/** What every run of the expiring set keeps, and when it behaves as a plain list. */
module TtlRuns {
  import opened Wrappers
  import opened TtlSets
  import opened Events

  datatype Op = Bump(v: Value, time: int, now: int, silent: bool) | Drop(v: Value, silent: bool) | Check(now: int)
  {
    /** The time a bump stamps on its item. */
    function Stamp(): int
      requires Bump?
    {
      if time != 0 then time else now
    }
  }

  function Apply(s: Ttl, op: Op, ttl: int): Ttl {
    match op
    case Bump(v, time, now, silent) => AfterBump(s, v, time, now, silent, ttl)
    case Drop(v, silent) => AfterDrop(s, v, silent)
    case Check(now) => AfterCheck(s, now, ttl)
  }

  function Run(ops: seq<Op>, ttl: int): Ttl {
    if ops == [] then EMPTY else Apply(Run(ops[..|ops| - 1], ttl), ops[|ops| - 1], ttl)
  }

  lemma StartsEmpty(ttl: int)
    ensures Run([], ttl) == EMPTY
  {
  }

  lemma RunStep(ops: seq<Op>, op: Op, ttl: int, s: Ttl)
    requires Apply(Run(ops, ttl), op, ttl) == s
    ensures Run(ops + [op], ttl) == s
  {
  }

  /** The chains are disjoint and list exactly the values of the index. */
  ghost predicate Partition(s: Ttl) {
    && s.chains != [] && Disjoint(s.chains)
    && (forall v :: v in s.time <==> Listed(s.chains, v))
  }

  // ---------- Insert and drop events ----------

  /** All changes, silent ones included. */
  function Recorded(changes: seq<Change>): (r: seq<Event>) {
    if changes == [] then []
    else
      var c := changes[|changes| - 1];
      Recorded(changes[..|changes| - 1]) + [(c.insert, c.value)]
  }

  lemma RecordedSnoc(changes: seq<Change>, c: Change)
    ensures Recorded(changes + [c]) == Recorded(changes) + [(c.insert, c.value)]
  {
  }

  /** The recorded changes alternate for each value and fold to the index. */
  ghost predicate Faithful(s: Ttl) {
    forall v :: Alternates(Recorded(s.changes), v) && (Present(Recorded(s.changes), v) <==> v in s.time)
  }

  lemma FaithfulChange(s: Ttl, s': Ttl, c: Change)
    requires Faithful(s) && s'.changes == s.changes + [c]
    requires c.insert <==> c.value !in s.time
    requires forall v :: v in s'.time <==> if v == c.value then c.insert else v in s.time
    ensures Faithful(s')
  {
  }

  // ---------- Invariant of every run ----------

  ghost predicate Invariant(s: Ttl) {
    Partition(s) && Faithful(s) && (s.Live() != [] ==> s.timer.Some?)
  }

  lemma DropKeeps(s: Ttl, v: Value, silent: bool)
    requires Invariant(s)
    ensures Invariant(AfterDrop(s, v, silent))
  {
    if v in s.time {
      Unlinked(s.chains, v);
      FaithfulChange(s, AfterDrop(s, v, silent), Change(false, v, silent));
    }
  }

  lemma BumpKeeps(s: Ttl, v: Value, t: int, silent: bool)
    requires Invariant(s)
    ensures Partition(Bumped(s, v, t, silent)) && Faithful(Bumped(s, v, t, silent))
  {
    if v in s.time {
      Unlinked(s.chains, v);
      Prepended(Unlink(s.chains, v), v);
    } else {
      Appended(s.chains, v);
      FaithfulChange(s, Bumped(s, v, t, silent), Change(true, v, silent));
    }
  }

  lemma {:induction false} ExpireKeeps(s: Ttl, now: int, ttl: int)
    requires Invariant(s)
    ensures Invariant(Expire(s, now, ttl))
    decreases |s.time|
  {
    var live := s.Live();
    if live != [] && Expired(s, live[0], now, ttl) {
      DropKeeps(s, live[0], false);
      ExpireKeeps(AfterDrop(s, live[0], false), now, ttl);
    }
  }

  lemma ScheduleKeeps(s: Ttl, now: int, ttl: int)
    requires Partition(s) && Faithful(s)
    ensures Invariant(Schedule(s, now, ttl))
  {
    NeighboursListed(s.chains);
  }

  /** In every run, re-bumps included: the chains partition the index, the changes
      alternate and fold to it, and a live item always has a check coming. */
  lemma {:induction false} RunInvariant(ops: seq<Op>, ttl: int)
    ensures Invariant(Run(ops, ttl))
    decreases |ops|
  {
    if ops == [] {
      assert Disjoint(EMPTY.chains);
    } else {
      var s, op := Run(ops[..|ops| - 1], ttl), ops[|ops| - 1];
      RunInvariant(ops[..|ops| - 1], ttl);
      match op
      case Bump(v, time, now, silent) =>
        BumpKeeps(s, v, op.Stamp(), silent);
        ScheduleKeeps(Bumped(s, v, op.Stamp(), silent), now, ttl);
      case Drop(v, silent) => DropKeeps(s, v, silent);
      case Check(now) =>
        ExpireKeeps(s, now, ttl);
        ScheduleKeeps(Expire(s, now, ttl), now, ttl);
    }
  }

  // ---------- The emitted events ----------

  function SilentCount(changes: seq<Change>, v: Value): nat {
    if changes == [] then 0
    else
      var c := changes[|changes| - 1];
      SilentCount(changes[..|changes| - 1], v) + if c.silent && c.value == v then 1 else 0
  }

  /** Every emitted change of `v` comes after an even number of silent ones. */
  predicate SilentInPairs(changes: seq<Change>, v: Value) {
    changes == [] ||
    var c, before := changes[|changes| - 1], changes[..|changes| - 1];
    SilentInPairs(before, v) && (!c.silent && c.value == v ==> SilentCount(before, v) % 2 == 0)
  }

  lemma {:induction false} PresentIsOdd(events: seq<Event>, v: Value)
    requires Alternates(events, v)
    ensures Present(events, v) <==> Occurrences(events, v) % 2 == 1
  {
    if events != [] {
      PresentIsOdd(events[..|events| - 1], v);
    }
  }

  lemma {:induction false} CountsAddUp(changes: seq<Change>, v: Value)
    ensures Occurrences(Recorded(changes), v) == Occurrences(Emitted(changes), v) + SilentCount(changes, v)
  {
    if changes != [] {
      var c, before := changes[|changes| - 1], changes[..|changes| - 1];
      assert changes == before + [c];
      CountsAddUp(before, v);
      var e := (c.insert, c.value);
      assert Recorded(changes)[..|changes| - 1] == Recorded(before) by { RecordedLength(before); }
      if c.silent {
        assert Emitted(changes) == Emitted(before);
      } else {
        assert (Emitted(before) + [e])[..|Emitted(before)|] == Emitted(before);
      }
      RecordedLength(changes);
    }
  }

  lemma {:induction false} RecordedLength(changes: seq<Change>)
    ensures |Recorded(changes)| == |changes|
  {
    if changes != [] {
      RecordedLength(changes[..|changes| - 1]);
    }
  }

  lemma {:induction false} EmittedAlternates(changes: seq<Change>, v: Value)
    requires Alternates(Recorded(changes), v)
    ensures Alternates(Emitted(changes), v) <==> SilentInPairs(changes, v)
  {
    if changes != [] {
      var c, before := changes[|changes| - 1], changes[..|changes| - 1];
      var e := (c.insert, c.value);
      assert changes == before + [c];
      RecordedSnoc(before, c);
      assert Emitted(changes) == if c.silent then Emitted(before) else Emitted(before) + [e];
      assert SilentInPairs(changes, v)
        <==> SilentInPairs(before, v) && (!c.silent && c.value == v ==> SilentCount(before, v) % 2 == 0);
      hide Recorded, Emitted, SilentInPairs, SilentCount, Alternates, Present, Occurrences;
      Snoc(Recorded(before), e, v);
      EmittedAlternates(before, v);
      if !c.silent {
        Snoc(Emitted(before), e, v);
        if c.value == v && Alternates(Emitted(before), v) {
          PresentIsOdd(Recorded(before), v);
          PresentIsOdd(Emitted(before), v);
          CountsAddUp(before, v);
        }
      }
    }
  }

  lemma EmittedFolds(changes: seq<Change>, v: Value)
    requires Alternates(Recorded(changes), v) && Alternates(Emitted(changes), v)
    ensures (Present(Emitted(changes), v) <==> Present(Recorded(changes), v)) <==> SilentCount(changes, v) % 2 == 0
  {
    PresentIsOdd(Recorded(changes), v);
    PresentIsOdd(Emitted(changes), v);
    CountsAddUp(changes, v);
  }

  /** In every run, the events that listeners see about a value alternate exactly when the
      silent changes its callers ask for come in pairs between them, and then they fold to
      the index exactly when the number of silent changes is even. */
  lemma EmittedEventsExactlyWhen(ops: seq<Op>, ttl: int, v: Value)
    ensures var events, changes := EventsOf(ops, ttl), ChangesOf(ops, ttl);
            && Emitted(Run(ops, ttl).changes) == events
            && (Alternates(events, v) <==> SilentInPairs(changes, v))
            && (SilentInPairs(changes, v) ==>
                  ((Present(events, v) <==> v in Run(ops, ttl).time) <==> SilentCount(changes, v) % 2 == 0))
  {
    hide Run, Alternates, Present, SilentInPairs, SilentCount, Recorded, Emitted, EventsOf, ChangesOf;
    var s := Run(ops, ttl);
    RunInvariant(ops, ttl);
    RunEmitsWhatIsAskedFor(ops, ttl);
    EmittedAlternates(s.changes, v);
    if SilentInPairs(s.changes, v) {
      EmittedFolds(s.changes, v);
    }
  }

  /** A silent insert and an emitted drop: the only event says that the value is gone. */
  lemma SilentInsertExample(ttl: int)
    ensures var s := Run([Bump(1, 1, 1, true), Drop(1, false)], ttl);
            Emitted(s.changes) == [(false, 1)] && !Alternates(Emitted(s.changes), 1) && !SilentInPairs(s.changes, 1)
  {
    hide Run, Apply;
    var c, d := Change(true, 1, true), Change(false, 1, false);
    SilentInsertChanges(ttl);
    assert [c, d][..1] == [c] && [c][..0] == [];
    assert Emitted([]) == [] && Emitted([c]) == [] && Emitted([c, d]) == [] + [(false, 1)];
    assert SilentCount([c], 1) == 1;
    assert [(false, 1)][..0] == [];
  }

  lemma SilentInsertChanges(ttl: int)
    ensures Run([Bump(1, 1, 1, true), Drop(1, false)], ttl).changes == [Change(true, 1, true), Change(false, 1, false)]
  {
    hide Run;
    var s1 := Apply(EMPTY, Bump(1, 1, 1, true), ttl);
    assert 1 in s1.time && s1.changes == [] + [Change(true, 1, true)];
    StartsEmpty(ttl);
    RunStep([], Bump(1, 1, 1, true), ttl, s1);
    RunStep([] + [Bump(1, 1, 1, true)], Drop(1, false), ttl, Apply(s1, Drop(1, false), ttl));
    assert [] + [Bump(1, 1, 1, true)] + [Drop(1, false)] == [Bump(1, 1, 1, true), Drop(1, false)];
  }

  // ---------- Re-bumping ----------

  /** Every value of the index can be reached from the head. */
  ghost predicate Reachable(s: Ttl) {
    forall v | v in s.time :: v in s.Live()
  }

  /** A bump of a new value keeps every value reachable; a bump of a known one leaves
      it alone in the live chain, and so strands every other value. */
  lemma BumpReachableExactlyWhen(s: Ttl, v: Value, time: int, now: int, silent: bool, ttl: int)
    requires Partition(s)
    ensures var s' := AfterBump(s, v, time, now, silent, ttl);
            && (v in s.time ==> s'.Live() == [v])
            && (v !in s.time ==> s'.Live() == s.Live() + [v])
            && (Reachable(s') <==> if v in s.time then forall u | u in s.time :: u == v else Reachable(s))
  {
    var s' := AfterBump(s, v, time, now, silent, ttl);
    if v !in s.time {
      assert s'.Live() == s.Live() + [v];
      if Reachable(s') {
        forall u | u in s.time ensures u in s.Live() {
          assert u in s'.time;
        }
      }
    } else if Reachable(s') {
      forall u | u in s.time ensures u == v {
        assert u in s'.time;
      }
    }
  }

  /** The number of expired values at the head of the live chain. */
  function ExpiredHeads(s: Ttl, live: seq<Value>, now: int, ttl: int): (k: nat)
    ensures k <= |live|
    ensures forall i | 0 <= i < k :: Expired(s, live[i], now, ttl)
    ensures k < |live| ==> !Expired(s, live[k], now, ttl)
  {
    if live == [] || !Expired(s, live[0], now, ttl) then 0 else 1 + ExpiredHeads(s, live[1..], now, ttl)
  }

  lemma DropHead(s: Ttl, silent: bool)
    requires Partition(s) && s.Live() != []
    ensures var v, s' := s.Live()[0], AfterDrop(s, s.Live()[0], silent);
            && v in s.time && Partition(s')
            && s'.chains == s.chains[0 := s.Live()[1..]]
            && s'.time == s.time - {v} && s'.changes == s.changes + [Change(false, v, silent)]
  {
    var v := s.Live()[0];
    NeighboursListed(s.chains);
    Unlinked(s.chains, v);
    assert Without(s.chains[0], v) == s.chains[0][1..];
    forall c | 1 <= c < |s.chains| ensures Without(s.chains[c], v) == s.chains[c] {
      assert v !in s.chains[c];
    }
  }

  function Drops(values: seq<Value>): (r: seq<Change>)
    ensures |r| == |values|
  {
    seq(|values|, i requires 0 <= i < |values| => Change(false, values[i], false))
  }

  lemma DropsCons(v: Value, values: seq<Value>)
    ensures Drops([v] + values) == [Change(false, v, false)] + Drops(values)
  {
  }

  /** A check drops the expired values at the head of the live chain, in order, once
      each, and touches nothing else. */
  lemma {:induction false} ExpireDropsHeads(s: Ttl, now: int, ttl: int)
    requires Partition(s)
    ensures var r, live := Expire(s, now, ttl), s.Live();
            var k := ExpiredHeads(s, live, now, ttl);
            && Partition(r)
            && r.chains == s.chains[0 := live[k..]]
            && r.changes == s.changes + Drops(live[..k])
            && (forall v :: v in r.time <==> v in s.time && v !in live[..k])
            && (forall v | v in r.time :: r.time[v] == s.time[v])
    decreases |s.time|
  {
    hide Disjoint, Distinct, Listed, AfterDrop, Drops;
    var live := s.Live();
    var k := ExpiredHeads(s, live, now, ttl);
    if k > 0 {
      var v, rest, s' := live[0], live[1..], AfterDrop(s, live[0], false);
      DropHead(s, false);
      LiveKnown(s);
      HeadsAgree(s, s', rest, now, ttl);
      ExpireDropsHeads(s', now, ttl);
      assert live[..k] == [v] + rest[..k - 1] && live[k..] == rest[k - 1..];
      DropsCons(v, rest[..k - 1]);
      assert s'.changes + Drops(rest[..k - 1]) == s.changes + Drops(live[..k]);
      assert s.chains[0 := rest][0 := rest[k - 1..]] == s.chains[0 := live[k..]];
    } else {
      assert s.chains[0 := live[0..]] == s.chains;
      assert live[..0] == [] && s.changes + Drops([]) == s.changes;
    }
  }

  lemma LiveKnown(s: Ttl)
    requires Partition(s)
    ensures Distinct(s.Live()) && forall v | v in s.Live() :: v in s.time
  {
  }

  lemma {:induction false} HeadsAgree(s: Ttl, s': Ttl, live: seq<Value>, now: int, ttl: int)
    requires forall v | v in live :: v in s.time && v in s'.time && s.time[v] == s'.time[v]
    ensures ExpiredHeads(s, live, now, ttl) == ExpiredHeads(s', live, now, ttl)
  {
  }

  /** After a check no value is older than the time to live, exactly when before it no
      stranded value was, and the expired live values were all at the head. */
  lemma CheckExpiresAllExactlyWhen(s: Ttl, now: int, ttl: int)
    requires Partition(s)
    ensures (forall v | v in AfterCheck(s, now, ttl).time :: !Expired(s, v, now, ttl))
       <==> && (forall v | v in s.time && v !in s.Live() :: !Expired(s, v, now, ttl))
            && (forall i, j | 0 <= i < j < |s.Live()| && Expired(s, s.Live()[j], now, ttl) ::
                  Expired(s, s.Live()[i], now, ttl))
  {
    hide Disjoint, Listed, Expire, Drops;
    var r, live := Expire(s, now, ttl), s.Live();
    LiveKnown(s);
    var k := ExpiredHeads(s, live, now, ttl);
    ExpireDropsHeads(s, now, ttl);
    assert AfterCheck(s, now, ttl).time == r.time;
    if forall v | v in r.time :: !Expired(s, v, now, ttl) {
      forall j | 0 <= j < |live| && Expired(s, live[j], now, ttl) ensures j < k {
        assert live[j] !in r.time;
        var i :| 0 <= i < k && live[i] == live[j];
        DistinctIndex(live, i, j);
      }
    } else {
      var v :| v in r.time && Expired(s, v, now, ttl);
      if v in live {
        var j :| 0 <= j < |live| && live[j] == v;
        assert j >= k && j != k;
        assert Expired(s, live[j], now, ttl) && !Expired(s, live[k], now, ttl);
      }
    }
  }

  lemma {:induction false} DistinctIndex(chain: seq<Value>, i: nat, j: nat)
    requires Distinct(chain) && i < |chain| && j < |chain| && chain[i] == chain[j]
    ensures i == j
  {
    if i > 0 && j > 0 {
      DistinctIndex(chain[1..], i - 1, j - 1);
    }
  }

  /** Bump 1, bump 2, bump 1 again: value 2 is stranded, and no check drops it, however late. */
  lemma StrandedExample(now: int, ttl: int)
    ensures var s := Run([Bump(1, 10, 10, false), Bump(2, 20, 20, false), Bump(1, 30, 30, false)], ttl);
            2 in AfterCheck(s, now, ttl).time
  {
    hide Run, Apply, Partition;
    var ops := [Bump(1, 10, 10, false), Bump(2, 20, 20, false)];
    var s2 := Run(ops, ttl);
    TwoBumps(ttl);
    RunInvariant(ops, ttl);
    LiveAfter(s2, Bump(1, 30, 30, false), ttl);
    RunStep(ops, Bump(1, 30, 30, false), ttl, Apply(s2, Bump(1, 30, 30, false), ttl));
    assert ops + [Bump(1, 30, 30, false)] == [Bump(1, 10, 10, false), Bump(2, 20, 20, false), Bump(1, 30, 30, false)];
    var s := Run(ops + [Bump(1, 30, 30, false)], ttl);
    assert s.Live() == [1] && 2 in s.time;
    RunInvariant(ops + [Bump(1, 30, 30, false)], ttl);
    ExpireDropsHeads(s, now, ttl);
  }

  lemma TwoBumps(ttl: int)
    ensures var s := Run([Bump(1, 10, 10, false), Bump(2, 20, 20, false)], ttl); 1 in s.time && 2 in s.time
  {
    hide Run;
    var s1 := Apply(EMPTY, Bump(1, 10, 10, false), ttl);
    StartsEmpty(ttl);
    RunStep([], Bump(1, 10, 10, false), ttl, s1);
    RunStep([] + [Bump(1, 10, 10, false)], Bump(2, 20, 20, false), ttl, Apply(s1, Bump(2, 20, 20, false), ttl));
    assert [] + [Bump(1, 10, 10, false)] + [Bump(2, 20, 20, false)] == [Bump(1, 10, 10, false), Bump(2, 20, 20, false)];
  }

  // ---------- The scheduled check ----------

  /** An item expires once its age exceeds the time to live, and the check is scheduled
      for the moment at which the head's age reaches it. So a check that runs when it is
      due drops nothing, and is scheduled again for the same moment; the head goes with
      the first check that is late, unless it had expired when the check was scheduled. */
  lemma CheckOnTimeDropsNothing(s: Ttl, now: int, ttl: int, t: int)
    requires Partition(s) && s.Live() != []
    ensures var r, head := Schedule(s, now, ttl), s.Live()[0];
            && r.timer.Some?
            && (head !in AfterCheck(r, t, ttl).time <==> Expired(s, head, t, ttl))
            && (Expired(s, head, now, ttl) ==> r.timer.value == now)
            && (!Expired(s, head, now, ttl) ==>
                  && (Expired(s, head, t, ttl) <==> t > r.timer.value)
                  && AfterCheck(r, r.timer.value, ttl) == r)
  {
    hide Disjoint, Listed, Expire, Drops;
    LiveKnown(s);
    var r, live := Schedule(s, now, ttl), s.Live();
    ExpireDropsHeads(r, t, ttl);
    HeadsFirst(r, live, t, ttl);
    if !Expired(s, live[0], now, ttl) {
      NothingExpired(r, r.timer.value, ttl);
    }
  }

  lemma NothingExpired(s: Ttl, now: int, ttl: int)
    requires Partition(s) && s.Live() != [] && !Expired(s, s.Live()[0], now, ttl)
    ensures Expire(s, now, ttl) == s
  {
  }

  lemma HeadsFirst(s: Ttl, live: seq<Value>, now: int, ttl: int)
    requires live != []
    ensures live[0] in live[..ExpiredHeads(s, live, now, ttl)] <==> Expired(s, live[0], now, ttl)
  {
  }

  function Max(a: int, b: int): int {
    if a < b then b else a
  }

  lemma {:induction false} AfterDrops(ops: seq<Op>, j: nat, ttl: int)
    requires j <= |ops| && forall i | j <= i < |ops| :: ops[i].Drop?
    ensures var a, s := Run(ops[..j], ttl), Run(ops, ttl);
            && s.timer == a.timer
            && (forall v | v in s.time :: v in a.time && s.time[v] == a.time[v])
            && (forall v | v in s.Live() :: v in a.Live())
    decreases |ops|
  {
    hide Partition;
    if j == |ops| {
      assert ops[..j] == ops;
    } else {
      var before := ops[..|ops| - 1];
      assert before[..j] == ops[..j];
      AfterDrops(before, j, ttl);
    }
  }

  lemma ScheduledFor(ops: seq<Op>, ttl: int)
    requires ops != [] && !ops[|ops| - 1].Drop? && Run(ops, ttl).Live() != []
    ensures var s, now := Run(ops, ttl), ops[|ops| - 1].now;
            s.Live()[0] in s.time && s.timer == Some(Max(now, s.time[s.Live()[0]] + ttl))
  {
    hide Partition, Faithful, Expire, Bumped;
    RunInvariant(ops, ttl);
    LiveKnown(Run(ops, ttl));
  }

  /** After a bump or a check no check is pending exactly when the live chain is empty. */
  lemma NoHeadNoCheck(ops: seq<Op>, ttl: int)
    requires ops != [] && !ops[|ops| - 1].Drop?
    ensures Run(ops, ttl).timer == None <==> Run(ops, ttl).Live() == []
  {
    hide Partition, Faithful, Expire, Bumped;
    RunInvariant(ops, ttl);
  }

  /** How much of a run it takes to reach its last bump or check. */
  function Scheduling(ops: seq<Op>): (j: nat)
    ensures j <= |ops| && (j > 0 ==> !ops[j - 1].Drop?) && forall i | j <= i < |ops| :: ops[i].Drop?
  {
    if ops == [] || !ops[|ops| - 1].Drop? then |ops| else Scheduling(ops[..|ops| - 1])
  }

  /** After the last bump or check of a run only drops have followed, which schedule
      nothing. The pending check is in time for the head exactly when the head of that
      moment is no younger, or had to go at once. */
  lemma CheckInTimeExactlyWhen(ops: seq<Op>, ttl: int)
    requires Run(ops, ttl).Live() != []
    ensures var j, s := Scheduling(ops), Run(ops, ttl);
            var a := Run(ops[..j], ttl);
            && j > 0 && a.Live() != [] && a.Live()[0] in a.time && s.Live()[0] in s.time && s.timer.Some?
            && var now, planned, time := ops[j - 1].now, a.time[a.Live()[0]], s.time[s.Live()[0]];
               s.timer.value <= Max(now, time + ttl) <==> planned <= time || planned + ttl <= now
  {
    hide Partition, Run;
    var j, s := Scheduling(ops), Run(ops, ttl);
    var a := Run(ops[..j], ttl);
    AfterDrops(ops, j, ttl);
    RunInvariant(ops, ttl);
    LiveKnown(s);
    var head := s.Live()[0];
    assert head in s.Live();
    assert head in a.Live();
    StartsEmpty(ttl);
    ScheduledFor(ops[..j], ttl);
  }

  predicate InTimeOrder(ops: seq<Op>) {
    forall i, j | 0 <= i < j < |ops| && ops[i].Bump? && ops[j].Bump? :: ops[i].Stamp() <= ops[j].Stamp()
  }

  predicate OldestFirst(time: map<Value, int>, chain: seq<Value>) {
    chain == [] ||
    ((forall v | v in chain[1..] && v in time && chain[0] in time :: time[chain[0]] <= time[v])
     && OldestFirst(time, chain[1..]))
  }

  lemma {:induction false} OldestFirstWithout(
    time: map<Value, int>, time': map<Value, int>, chain: seq<Value>, v: Value)
    requires OldestFirst(time, chain)
    requires forall u | u in time' :: u in time && time'[u] == time[u]
    ensures OldestFirst(time', Without(chain, v))
  {
    if chain != [] {
      OldestFirstWithout(time, time', chain[1..], v);
    }
  }

  lemma {:induction false} OldestFirstFrom(time: map<Value, int>, time': map<Value, int>, chain: seq<Value>, k: nat)
    requires OldestFirst(time, chain) && k <= |chain|
    requires forall u | u in time' :: u in time && time'[u] == time[u]
    ensures OldestFirst(time', chain[k..])
  {
    if k > 0 {
      OldestFirstFrom(time, time', chain[1..], k - 1);
      assert chain[1..][k - 1..] == chain[k..];
    } else if chain != [] {
      OldestFirstFrom(time, time', chain[1..], 0);
      assert chain[1..][0..] == chain[1..] && chain[0..] == chain;
    }
  }

  lemma {:induction false} OldestFirstSnoc(time: map<Value, int>, chain: seq<Value>, v: Value, t: int)
    requires OldestFirst(time, chain) && v !in chain && forall u | u in time :: time[u] <= t
    ensures OldestFirst(time[v := t], chain + [v])
  {
    if chain == [] {
      assert chain + [v] == [v] && [v][1..] == [];
      assert OldestFirst(time[v := t], [v][1..]);
      assert OldestFirst(time[v := t], [v]);
    } else {
      assert (chain + [v])[1..] == chain[1..] + [v];
      OldestFirstSnoc(time, chain[1..], v, t);
    }
  }

  /** What a step does to the times and to the live chain. */
  lemma LiveAfter(s: Ttl, op: Op, ttl: int)
    requires Partition(s)
    ensures var s' := Apply(s, op, ttl);
            && (op.Bump? ==>
                  && s'.time == s.time[op.v := op.Stamp()]
                  && s'.Live() == if op.v in s.time then [op.v] else s.Live() + [op.v])
            && (op.Drop? ==> s'.time == s.time - {op.v} && s'.Live() == Without(s.Live(), op.v))
            && (op.Check? ==>
                  && s'.Live() == s.Live()[ExpiredHeads(s, s.Live(), op.now, ttl)..]
                  && forall v | v in s'.time :: v in s.time && s'.time[v] == s.time[v])
  {
    hide Disjoint, Expire, Drops;
    LiveKnown(s);
    match op
    case Bump(v, time, now, silent) =>
    case Drop(v, silent) =>
      if v !in s.time {
        assert s.time - {v} == s.time;
      }
    case Check(now) => ExpireDropsHeads(s, now, ttl);
  }

  lemma {:induction false} TimesAreStamps(ops: seq<Op>, ttl: int, v: Value)
    requires v in Run(ops, ttl).time
    ensures exists i :: 0 <= i < |ops| && ops[i].Bump? && ops[i].Stamp() == Run(ops, ttl).time[v]
    decreases |ops|
  {
    hide Partition, Apply;
    var before, op := ops[..|ops| - 1], ops[|ops| - 1];
    var s := Run(before, ttl);
    RunInvariant(before, ttl);
    LiveAfter(s, op, ttl);
    if op.Bump? && op.v == v {
      assert ops[|ops| - 1].Stamp() == Run(ops, ttl).time[v];
    } else {
      assert v in s.time && s.time[v] == Run(ops, ttl).time[v];
      TimesAreStamps(before, ttl, v);
      var i :| 0 <= i < |before| && before[i].Bump? && before[i].Stamp() == s.time[v];
      assert ops[i] == before[i];
    }
  }

  /** With stamps that never decrease the live chain is in time order, re-bumps included. */
  lemma {:induction false} RunOldestFirst(ops: seq<Op>, ttl: int)
    requires InTimeOrder(ops)
    ensures OldestFirst(Run(ops, ttl).time, Run(ops, ttl).Live())
    decreases |ops|
  {
    if ops != [] {
      hide Partition, Apply;
      var before, op := ops[..|ops| - 1], ops[|ops| - 1];
      var s, s' := Run(before, ttl), Run(ops, ttl);
      RunOldestFirst(before, ttl);
      RunInvariant(before, ttl);
      LiveKnown(s);
      LiveAfter(s, op, ttl);
      match op
      case Bump(v, time, now, silent) =>
        if v !in s.time {
          forall u | u in s.time ensures s.time[u] <= op.Stamp() {
            TimesAreStamps(before, ttl, u);
          }
          OldestFirstSnoc(s.time, s.Live(), v, op.Stamp());
        } else {
          assert [v][1..] == [];
        }
      case Drop(v, silent) =>
        OldestFirstWithout(s.time, s'.time, s.Live(), v);
      case Check(now) =>
        OldestFirstFrom(s.time, s'.time, s.Live(), ExpiredHeads(s, s.Live(), now, ttl));
    }
  }

  /** Then the pending check is always in time for the head. */
  lemma CheckAlwaysInTime(ops: seq<Op>, ttl: int)
    requires InTimeOrder(ops) && Run(ops, ttl).Live() != []
    ensures var j, s := Scheduling(ops), Run(ops, ttl);
            && j > 0 && s.timer.Some? && s.Live()[0] in s.time
            && s.timer.value <= Max(ops[j - 1].now, s.time[s.Live()[0]] + ttl)
  {
    hide Run, Partition;
    var j, s := Scheduling(ops), Run(ops, ttl);
    var a := Run(ops[..j], ttl);
    CheckInTimeExactlyWhen(ops, ttl);
    RunOldestFirst(ops[..j], ttl);
    AfterDrops(ops, j, ttl);
    var head := s.Live()[0];
    assert head in s.Live() && head in a.Live();
    if head != a.Live()[0] {
      assert head in a.Live()[1..];
    }
  }

  /** The check comes after both the moment of scheduling and the end of the head's time. */
  predicate Late(s: Ttl, now: int, ttl: int) {
    s.Live() != [] && s.Live()[0] in s.time && s.timer.Some? && s.timer.value > Max(now, s.time[s.Live()[0]] + ttl)
  }

  predicate OnlyDrops(ops: seq<Op>) {
    forall i | 0 <= i < |ops| :: ops[i].Drop?
  }

  /** Right after a bump or check: some drops can make the check late, exactly when the
      head has time left and some live value carries an older time. */
  lemma DropsMakeLateExactlyWhen(ops: seq<Op>, ttl: int)
    requires ops != [] && !ops[|ops| - 1].Drop? && Run(ops, ttl).Live() != []
    ensures var a, now := Run(ops, ttl), ops[|ops| - 1].now;
            && a.Live()[0] in a.time && (forall v | v in a.Live() :: v in a.time)
            && ((exists drops :: OnlyDrops(drops) && Late(Run(ops + drops, ttl), now, ttl)) <==>
                  && a.time[a.Live()[0]] + ttl > now
                  && exists v :: v in a.Live() && a.time[v] < a.time[a.Live()[0]])
  {
    hide Run, Partition;
    var a, now := Run(ops, ttl), ops[|ops| - 1].now;
    RunInvariant(ops, ttl);
    LiveKnown(a);
    ScheduledFor(ops, ttl);
    if drops :| OnlyDrops(drops) && Late(Run(ops + drops, ttl), now, ttl) {
      var head := Run(ops + drops, ttl).Live()[0];
      AfterDrops(ops + drops, |ops|, ttl);
      assert (ops + drops)[..|ops|] == ops && head in Run(ops + drops, ttl).Live();
      assert head in a.Live() && a.time[head] < a.time[a.Live()[0]];
    } else if v :| v in a.Live() && a.time[v] < a.time[a.Live()[0]] {
      var drops := DroppedTo(ops, ttl, v);
      AfterDrops(ops + drops, |ops|, ttl);
      assert (ops + drops)[..|ops|] == ops;
      RunInvariant(ops + drops, ttl);
      LiveKnown(Run(ops + drops, ttl));
      assert v in Run(ops + drops, ttl).Live();
      assert Late(Run(ops + drops, ttl), now, ttl) <==> a.time[a.Live()[0]] + ttl > now;
    }
  }

  /** Dropping what is in front of a live value makes it the head. */
  lemma {:induction false} DroppedTo(ops: seq<Op>, ttl: int, v: Value) returns (drops: seq<Op>)
    requires v in Run(ops, ttl).Live()
    ensures OnlyDrops(drops)
    ensures Run(ops + drops, ttl).Live() != [] && Run(ops + drops, ttl).Live()[0] == v
    decreases |Run(ops, ttl).Live()|
  {
    hide Run, Partition, AfterDrop;
    var a := Run(ops, ttl);
    var head := a.Live()[0];
    if head == v {
      drops := [];
      assert ops + drops == ops;
    } else {
      RunInvariant(ops, ttl);
      DropHead(a, false);
      RunStep(ops, Drop(head, false), ttl, AfterDrop(a, head, false));
      var rest := DroppedTo(ops + [Drop(head, false)], ttl, v);
      drops := [Drop(head, false)] + rest;
      assert ops + drops == ops + [Drop(head, false)] + rest;
    }
  }

  /** Value 2 carries an older time than value 1. When 1 is dropped, 2 becomes the head,
      and the check is still the one that was scheduled for 1. */
  lemma LateCheckExample(ttl: int)
    ensures var s := Run([Bump(1, 100, 100, false), Bump(2, 10, 100, false), Drop(1, false)], ttl);
            && s.Live() == [2] && s.time == map[2 := 10] && s.timer == Some(Max(100, 100 + ttl))
            && (ttl > 0 ==> s.timer.value > Max(100, 10 + ttl))
  {
    hide Run;
    var ops, s2 := LateCheckBumps(ttl);
    var s3 := Ttl([[2]], map[2 := 10], s2.changes + [Change(false, 1, false)], s2.timer);
    assert Without([1, 2], 1) == [2];
    assert Unlink([[1, 2]], 1) == [[2]] && s2.time - {1} == s3.time;
    RunStep(ops, Drop(1, false), ttl, s3);
    assert ops + [Drop(1, false)] == [Bump(1, 100, 100, false), Bump(2, 10, 100, false), Drop(1, false)];
  }

  lemma LateCheckBumps(ttl: int) returns (ops: seq<Op>, s: Ttl)
    ensures ops == [Bump(1, 100, 100, false), Bump(2, 10, 100, false)] && s == Run(ops, ttl)
    ensures s.chains == [[1, 2]] && s.time == map[1 := 100, 2 := 10] && s.timer == Some(Max(100, 100 + ttl))
  {
    hide Run;
    var none: seq<Value> := [];
    assert none + [1] == [1] && Append([none], 1) == [[1]];
    var s1 := Apply(EMPTY, Bump(1, 100, 100, false), ttl);
    assert s1.chains == [[1]] && s1.time == map[1 := 100];
    StartsEmpty(ttl);
    RunStep([], Bump(1, 100, 100, false), ttl, s1);
    assert [1] + [2] == [1, 2] && Append([[1]], 2) == [[1, 2]];
    s := Apply(s1, Bump(2, 10, 100, false), ttl);
    ops := [] + [Bump(1, 100, 100, false)];
    RunStep(ops, Bump(2, 10, 100, false), ttl, s);
    ops := ops + [Bump(2, 10, 100, false)];
  }

  // ---------- What is recorded and what is emitted ----------

  /** The changes that a call asks for: a bump of an absent value inserts it, a drop of a
      present one drops it, each as silent as its caller says, and a check drops the expired
      heads and is never silent. */
  function Asked(s: Ttl, op: Op, ttl: int): seq<Change> {
    match op
    case Bump(v, time, now, silent) => if v in s.time then [] else [Change(true, v, silent)]
    case Drop(v, silent) => if v in s.time then [Change(false, v, silent)] else []
    case Check(now) => Drops(s.Live()[..ExpiredHeads(s, s.Live(), now, ttl)])
  }

  /** The events that listeners get to see of it. */
  function Heard(s: Ttl, op: Op, ttl: int): seq<Event> {
    match op
    case Bump(v, time, now, silent) => if silent || v in s.time then [] else [(true, v)]
    case Drop(v, silent) => if silent || v !in s.time then [] else [(false, v)]
    case Check(now) => Gone(s.Live()[..ExpiredHeads(s, s.Live(), now, ttl)])
  }

  function ChangesOf(ops: seq<Op>, ttl: int): seq<Change> {
    if ops == [] then []
    else ChangesOf(ops[..|ops| - 1], ttl) + Asked(Run(ops[..|ops| - 1], ttl), ops[|ops| - 1], ttl)
  }

  function EventsOf(ops: seq<Op>, ttl: int): seq<Event> {
    if ops == [] then []
    else EventsOf(ops[..|ops| - 1], ttl) + Heard(Run(ops[..|ops| - 1], ttl), ops[|ops| - 1], ttl)
  }

  function Gone(values: seq<Value>): (r: seq<Event>)
    ensures |r| == |values| && forall i | 0 <= i < |values| :: r[i] == (false, values[i])
  {
    if values == [] then [] else Gone(values[..|values| - 1]) + [(false, values[|values| - 1])]
  }

  lemma {:induction false} EmittedConcat(a: seq<Change>, b: seq<Change>)
    ensures Emitted(a + b) == Emitted(a) + Emitted(b)
  {
    if b == [] {
      assert a + b == a;
    } else {
      assert (a + b)[..|a + b| - 1] == a + b[..|b| - 1];
      EmittedConcat(a, b[..|b| - 1]);
    }
  }

  lemma {:induction false} EmittedDrops(values: seq<Value>)
    ensures Emitted(Drops(values)) == Gone(values)
  {
    if values == [] {
      assert Drops(values) == [];
    } else {
      assert Drops(values)[..|values| - 1] == Drops(values[..|values| - 1]);
      EmittedDrops(values[..|values| - 1]);
    }
  }

  lemma EmittedOne(c: Change)
    ensures Emitted([c]) == if c.silent then [] else [(c.insert, c.value)]
    ensures Emitted([]) == []
  {
    assert [c][..0] == [];
  }

  lemma ChangesAfter(s: Ttl, op: Op, ttl: int)
    requires Partition(s)
    ensures Apply(s, op, ttl).changes == s.changes + Asked(s, op, ttl)
  {
    hide Partition, Expire, Drops, ExpiredHeads;
    assert s.changes + [] == s.changes;
    if op.Check? {
      ExpireDropsHeads(s, op.now, ttl);
    }
  }

  lemma HeardIsEmitted(s: Ttl, op: Op, ttl: int)
    ensures Emitted(Asked(s, op, ttl)) == Heard(s, op, ttl)
  {
    hide Drops, ExpiredHeads, Emitted;
    NothingEmitted();
    match op
    case Bump(v, time, now, silent) => EmittedOne(Change(true, v, silent));
    case Drop(v, silent) => EmittedOne(Change(false, v, silent));
    case Check(now) => EmittedDrops(s.Live()[..ExpiredHeads(s, s.Live(), now, ttl)]);
  }

  /** In every run the recorded changes are exactly those its calls ask for, and the emitted
      events exactly those that are not silent. */
  lemma {:induction false} RunEmitsWhatIsAskedFor(ops: seq<Op>, ttl: int)
    ensures Run(ops, ttl).changes == ChangesOf(ops, ttl)
    ensures Emitted(Run(ops, ttl).changes) == EventsOf(ops, ttl)
    decreases |ops|
  {
    hide Partition, Apply, Emitted, Asked, Heard;
    if ops == [] {
      NothingEmitted();
    } else {
      var before, op := ops[..|ops| - 1], ops[|ops| - 1];
      var s := Run(before, ttl);
      RunEmitsWhatIsAskedFor(before, ttl);
      RunInvariant(before, ttl);
      ChangesAfter(s, op, ttl);
      HeardIsEmitted(s, op, ttl);
      EmittedConcat(s.changes, Asked(s, op, ttl));
    }
  }

  lemma NothingEmitted()
    ensures Emitted([]) == []
  {
  }

  // ---------- Runs without re-bumps ----------

  type Entry = (Value, int)

  function Filtered(list: seq<Entry>, keep: Entry -> bool): (r: seq<Entry>)
    ensures forall x :: x in r <==> x in list && keep(x)
  {
    if list == [] then []
    else (if keep(list[0]) then [list[0]] else []) + Filtered(list[1..], keep)
  }

  function Other(v: Value): Entry -> bool {
    (x: Entry) => x.0 != v
  }

  function Fresh(now: int, ttl: int): Entry -> bool {
    (x: Entry) => now - x.1 <= ttl
  }

  function Stale(now: int, ttl: int): Entry -> bool {
    (x: Entry) => now - x.1 > ttl
  }

  /** The specification: the values with their times in one list, in bump order. */
  function Plain(ops: seq<Op>, ttl: int): seq<Entry> {
    if ops == [] then []
    else
      var list, op := Plain(ops[..|ops| - 1], ttl), ops[|ops| - 1];
      match op
      case Bump(v, time, now, silent) => list + [(v, op.Stamp())]
      case Drop(v, silent) => Filtered(list, Other(v))
      case Check(now) => Filtered(list, Fresh(now, ttl))
  }

  /** Only absent values are bumped, with times that never decrease. */
  predicate NoRebump(ops: seq<Op>, ttl: int) {
    ops == [] ||
    var before, op := ops[..|ops| - 1], ops[|ops| - 1];
    && NoRebump(before, ttl)
    && (op.Bump? ==>
          && op.v !in Run(before, ttl).time
          && forall i | 0 <= i < |before| && before[i].Bump? :: before[i].Stamp() <= op.Stamp())
  }

  function Names(list: seq<Entry>): (r: seq<Value>)
    ensures |r| == |list| && forall i | 0 <= i < |list| :: r[i] == list[i].0
  {
    if list == [] then [] else [list[0].0] + Names(list[1..])
  }

  /** The live chain is the whole index, in the order of `list` and with its times. */
  ghost predicate Shows(s: Ttl, list: seq<Entry>) {
    && Partition(s)
    && s.chains == [Names(list)]
    && (forall x | x in list :: x.0 in s.time && s.time[x.0] == x.1)
  }

  ghost predicate Sorted(list: seq<Entry>) {
    forall i, j | 0 <= i < j < |list| :: list[i].1 <= list[j].1
  }

  lemma {:induction false} FilteredSorted(list: seq<Entry>, keep: Entry -> bool)
    requires Sorted(list)
    ensures Sorted(Filtered(list, keep))
  {
    if list != [] {
      FilteredSorted(list[1..], keep);
      var rest := Filtered(list[1..], keep);
      forall j | 0 <= j < |rest| ensures list[0].1 <= rest[j].1 {
        assert rest[j] in list[1..];
      }
    }
  }

  lemma {:induction false} FilteredNames(list: seq<Entry>, v: Value)
    ensures Names(Filtered(list, Other(v))) == Without(Names(list), v)
  {
    if list != [] {
      FilteredNames(list[1..], v);
    }
  }

  lemma {:induction false} FilteredAll(list: seq<Entry>, v: Value)
    requires v !in Names(list)
    ensures Filtered(list, Other(v)) == list
  {
    if list != [] {
      FilteredAll(list[1..], v);
    }
  }

  lemma {:induction false} FilteredSuffix(list: seq<Entry>, keep: Entry -> bool, k: nat)
    requires k <= |list|
    requires forall i | 0 <= i < |list| :: keep(list[i]) <==> i >= k
    ensures Filtered(list, keep) == list[k..]
  {
    if list != [] {
      var rest, j := list[1..], if k > 0 then k - 1 else 0;
      assert forall i | 0 <= i < |rest| :: rest[i] == list[i + 1];
      FilteredSuffix(rest, keep, j);
      assert list[k..] == (if k > 0 then [] else [list[0]]) + rest[j..];
    }
  }

  lemma {:induction false} FilteredPrefix(list: seq<Entry>, keep: Entry -> bool, k: nat)
    requires k <= |list|
    requires forall i | 0 <= i < |list| :: keep(list[i]) <==> i < k
    ensures Filtered(list, keep) == list[..k]
  {
    if list != [] {
      var rest, j := list[1..], if k > 0 then k - 1 else 0;
      assert forall i | 0 <= i < |rest| :: rest[i] == list[i + 1];
      FilteredPrefix(rest, keep, j);
      if k > 0 {
        assert keep(list[0]) && list[..k] == [list[0]] + rest[..j];
      } else {
        assert !keep(list[0]) && list[..k] == [] == rest[..j];
      }
    }
  }

  /** In a sorted list the expired values are a prefix. */
  lemma StaleIsPrefix(s: Ttl, list: seq<Entry>, now: int, ttl: int)
    requires Shows(s, list) && Sorted(list)
    ensures var k := ExpiredHeads(s, Names(list), now, ttl);
            Filtered(list, Fresh(now, ttl)) == list[k..] && Filtered(list, Stale(now, ttl)) == list[..k]
  {
    hide Partition;
    var names := Names(list);
    var k := ExpiredHeads(s, names, now, ttl);
    forall i | 0 <= i < |list|
      ensures Fresh(now, ttl)(list[i]) <==> i >= k
      ensures Stale(now, ttl)(list[i]) <==> i < k
    {
      assert list[i] in list && names[i] == list[i].0;
      if i < k {
        assert Expired(s, names[i], now, ttl);
      } else {
        assert list[k] in list && !Expired(s, names[k], now, ttl);
      }
    }
    FilteredSuffix(list, Fresh(now, ttl), k);
    FilteredPrefix(list, Stale(now, ttl), k);
  }

  lemma ExpireShows(s: Ttl, list: seq<Entry>, now: int, ttl: int)
    requires Shows(s, list)
    ensures var r, k := Expire(s, now, ttl), ExpiredHeads(s, Names(list), now, ttl);
            Shows(r, list[k..]) && r.changes == s.changes + Drops(Names(list[..k]))
  {
    hide Disjoint, Listed, Expire, Drops, Expired, Names;
    var r, k := Expire(s, now, ttl), ExpiredHeads(s, Names(list), now, ttl);
    ExpireDropsHeads(s, now, ttl);
    NamesSlice(list, k);
    assert r.chains == [Names(list[k..])];
    LiveKnown(r);
    forall x | x in list[k..] ensures x.0 in r.time && r.time[x.0] == x.1 {
      var i :| 0 <= i < |list[k..]| && list[k..][i] == x;
      assert Names(list[k..])[i] == x.0;
      assert x in list;
    }
  }

  /** On a set that shows a sorted list, a check drops exactly the values older than
      the time to live, oldest first, once each. */
  lemma CheckDropsStale(s: Ttl, list: seq<Entry>, now: int, ttl: int)
    requires Shows(s, list) && Sorted(list)
    ensures var s' := AfterCheck(s, now, ttl);
            && Shows(s', Filtered(list, Fresh(now, ttl)))
            && s'.changes == s.changes + Drops(Names(Filtered(list, Stale(now, ttl))))
  {
    hide Shows, Expire, Drops, Filtered, ExpiredHeads;
    StaleIsPrefix(s, list, now, ttl);
    ExpireShows(s, list, now, ttl);
    ScheduleShows(Expire(s, now, ttl), Filtered(list, Fresh(now, ttl)), now, ttl);
  }

  lemma NamesSlice(list: seq<Entry>, k: nat)
    requires k <= |list|
    ensures Names(list[k..]) == Names(list)[k..] && Names(list[..k]) == Names(list)[..k]
  {
    hide Names;
    assert forall i | 0 <= i < |list| - k :: Names(list[k..])[i] == Names(list)[k..][i];
    assert forall i | 0 <= i < k :: Names(list[..k])[i] == Names(list)[..k][i];
  }

  lemma DropShows(s: Ttl, list: seq<Entry>, v: Value, silent: bool)
    requires Shows(s, list)
    ensures Shows(AfterDrop(s, v, silent), Filtered(list, Other(v)))
  {
    FilteredNames(list, v);
    if v in s.time {
      Unlinked(s.chains, v);
      assert Unlink(s.chains, v) == [Without(Names(list), v)];
    } else {
      LiveKnown(s);
      FilteredAll(list, v);
    }
  }

  lemma BumpShows(s: Ttl, list: seq<Entry>, v: Value, t: int, silent: bool)
    requires Shows(s, list) && v !in s.time
    ensures Shows(Bumped(s, v, t, silent), list + [(v, t)])
  {
    Appended(s.chains, v);
    assert Names(list + [(v, t)]) == Names(list) + [v];
    assert Append(s.chains, v) == [Names(list) + [v]];
  }

  lemma {:induction false} PlainStamps(ops: seq<Op>, ttl: int, x: Entry)
    requires x in Plain(ops, ttl)
    ensures exists i :: 0 <= i < |ops| && ops[i].Bump? && ops[i].Stamp() == x.1
    decreases |ops|
  {
    var before, op := ops[..|ops| - 1], ops[|ops| - 1];
    if x in Plain(before, ttl) {
      PlainStamps(before, ttl, x);
      var i :| 0 <= i < |before| && before[i].Bump? && before[i].Stamp() == x.1;
      assert ops[i] == before[i];
    } else {
      assert ops[|ops| - 1].Bump? && op.Stamp() == x.1;
    }
  }

  /** In a run without re-bumps the pointer structure is the plain list: head to tail
      is bump order, sorted by time, and list and index agree. */
  lemma {:induction false} RunShowsPlain(ops: seq<Op>, ttl: int)
    requires NoRebump(ops, ttl)
    ensures Shows(Run(ops, ttl), Plain(ops, ttl)) && Sorted(Plain(ops, ttl))
    decreases |ops|
  {
    hide Filtered, AfterDrop, AfterCheck, Bumped;
    if ops == [] {
      assert Disjoint(EMPTY.chains);
    } else {
      hide Partition, Shows, Sorted, Schedule;
      var before, op := ops[..|ops| - 1], ops[|ops| - 1];
      RunShowsPlain(before, ttl);
      var s, list := Run(before, ttl), Plain(before, ttl);
      match op
      case Bump(v, time, now, silent) =>
        BumpShows(s, list, v, op.Stamp(), silent);
        ScheduleShows(Bumped(s, v, op.Stamp(), silent), list + [(v, op.Stamp())], now, ttl);
        forall x | x in list ensures x.1 <= op.Stamp() {
          PlainStamps(before, ttl, x);
        }
        SortedAppend(list, (v, op.Stamp()));
      case Drop(v, silent) =>
        DropShows(s, list, v, silent);
        FilteredSorted(list, Other(v));
      case Check(now) =>
        CheckDropsStale(s, list, now, ttl);
        FilteredSorted(list, Fresh(now, ttl));
    }
  }

  lemma SortedAppend(list: seq<Entry>, e: Entry)
    requires Sorted(list) && forall x | x in list :: x.1 <= e.1
    ensures Sorted(list + [e])
  {
  }

  lemma ScheduleShows(s: Ttl, list: seq<Entry>, now: int, ttl: int)
    requires Shows(s, list)
    ensures Shows(Schedule(s, now, ttl), list)
  {
  }
}
