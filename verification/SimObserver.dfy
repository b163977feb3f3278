/** The simulator observer: snapshots are turned into attached and detached events. */
module SimObservers {
  import opened Wrappers
  import opened Events

  /** A UDID, only compared. A JavaScript set keeps the order of insertion. */
  type Udid = int

  datatype State = State(members: seq<Udid>, emitted: seq<Event>)

  /** One turn of the first loop. */
  function Detach(s: State, sim: Udid, sims: seq<Udid>): State {
    if sim in sims then s else State(Without(s.members, sim), s.emitted + [(false, sim)])
  }

  /** One turn of the second loop. */
  function Attach(s: State, sim: Udid): State {
    if sim in s.members then s else State(s.members + [sim], s.emitted + [(true, sim)])
  }

  function DetachAll(s: State, before: seq<Udid>, sims: seq<Udid>): State {
    if before == [] then s else Detach(DetachAll(s, before[..|before| - 1], sims), before[|before| - 1], sims)
  }

  function AttachAll(s: State, sims: seq<Udid>): State {
    if sims == [] then s else Attach(AttachAll(s, sims[..|sims| - 1]), sims[|sims| - 1])
  }

  function Process(s: State, sims: seq<Udid>): State {
    AttachAll(DetachAll(s, s.members, sims), sims)
  }

  function Run(snapshots: seq<seq<Udid>>): State {
    if snapshots == [] then State([], [])
    else Process(Run(snapshots[..|snapshots| - 1]), snapshots[|snapshots| - 1])
  }

  /** The events alternate for each simulator and fold to the state. */
  ghost predicate Replays(s: State) {
    forall v :: Alternates(s.emitted, v) && (Present(s.emitted, v) <==> v in s.members)
  }

  lemma {:induction false} DetachAllKeeps(s: State, before: seq<Udid>, sims: seq<Udid>)
    requires Replays(s) && Distinct(before) && forall x | x in before :: x in s.members
    ensures var r := DetachAll(s, before, sims);
            Replays(r) && forall x :: x in r.members <==> x in s.members && (x in before ==> x in sims)
  {
    if before != [] {
      var rest, sim := before[..|before| - 1], before[|before| - 1];
      assert before == rest + [sim];
      DistinctSnoc(rest, sim);
      forall x ensures x in before <==> x in rest || x == sim {
        assert before == rest + [sim];
      }
      DetachAllKeeps(s, rest, sims);
      var r := DetachAll(s, rest, sims);
      if sim !in sims {
        forall v { Snoc(r.emitted, (false, sim), v); }
      }
    }
  }

  lemma {:induction false} AttachAllKeeps(s: State, sims: seq<Udid>)
    requires Replays(s)
    ensures var r := AttachAll(s, sims);
            Replays(r) && forall x :: x in r.members <==> x in s.members || x in sims
  {
    if sims != [] {
      var rest, sim := sims[..|sims| - 1], sims[|sims| - 1];
      AttachAllKeeps(s, rest);
      var r := AttachAll(s, rest);
      forall x ensures x in sims <==> x in rest || x == sim {
        assert sims == rest + [sim];
      }
      if sim !in r.members {
        forall v { Snoc(r.emitted, (true, sim), v); }
      }
    }
  }

  ghost predicate Sound(s: State) {
    Replays(s) && Distinct(s.members)
  }

  lemma {:induction false} AllDistinct(s: State, before: seq<Udid>, sims: seq<Udid>)
    requires Distinct(s.members)
    ensures Distinct(DetachAll(s, before, sims).members) && Distinct(AttachAll(s, sims).members)
  {
    if before != [] {
      AllDistinct(s, before[..|before| - 1], sims);
      WithoutDistinct(DetachAll(s, before[..|before| - 1], sims).members, before[|before| - 1]);
    } else if sims != [] {
      AllDistinct(s, [], sims[..|sims| - 1]);
      DistinctSnoc(AttachAll(s, sims[..|sims| - 1]).members, sims[|sims| - 1]);
    }
  }

  /** After a snapshot the state is the set of the snapshot, duplicates or not, and the
      whole log of events still alternates and folds to it. */
  lemma ProcessReplays(s: State, sims: seq<Udid>)
    requires Sound(s)
    ensures var s' := Process(s, sims); Sound(s') && forall x :: x in s'.members <==> x in sims
  {
    DetachAllKeeps(s, s.members, sims);
    var r := DetachAll(s, s.members, sims);
    AttachAllKeeps(r, sims);
    AllDistinct(s, s.members, []);
    AllDistinct(s, s.members, sims);
    AllDistinct(r, [], sims);
  }

  lemma {:induction false} EverySnapshotReplays(snapshots: seq<seq<Udid>>)
    ensures Sound(Run(snapshots))
    ensures snapshots != [] ==> forall x :: x in Run(snapshots).members <==> x in snapshots[|snapshots| - 1]
  {
    if snapshots != [] {
      EverySnapshotReplays(snapshots[..|snapshots| - 1]);
      ProcessReplays(Run(snapshots[..|snapshots| - 1]), snapshots[|snapshots| - 1]);
    }
  }

  lemma {:induction false} DetachCounts(s: State, before: seq<Udid>, sims: seq<Udid>, v: Udid)
    requires Distinct(before)
    ensures s.emitted <= DetachAll(s, before, sims).emitted
    ensures Occurrences(DetachAll(s, before, sims).emitted, v)
         == Occurrences(s.emitted, v) + if v in before && v !in sims then 1 else 0
  {
    if before != [] {
      var rest, sim := before[..|before| - 1], before[|before| - 1];
      assert before == rest + [sim];
      DistinctSnoc(rest, sim);
      DetachCounts(s, rest, sims, v);
      if sim !in sims {
        OccurrencesConcat(DetachAll(s, rest, sims).emitted, [(false, sim)], v);
        assert [(false, sim)][..0] == [];
      }
    }
  }

  lemma {:induction false} AttachCounts(s: State, sims: seq<Udid>, v: Udid)
    ensures Occurrences(AttachAll(s, sims).emitted, v)
         == Occurrences(s.emitted, v) + if v in sims && v !in s.members then 1 else 0
    ensures v in AttachAll(s, sims).members <==> v in s.members || v in sims
  {
    if sims != [] {
      var rest, sim := sims[..|sims| - 1], sims[|sims| - 1];
      var r := AttachAll(s, rest);
      AttachCounts(s, rest, v);
      AttachCounts(s, rest, sim);
      assert sims == rest + [sim];
      if sim !in r.members {
        OccurrencesConcat(r.emitted, [(true, sim)], v);
        assert [(true, sim)][..0] == [];
      }
    }
  }

  /** A snapshot emits one event for each simulator that came or went, and none for the
      others, however often it lists them. */
  lemma OneEventPerChange(s: State, sims: seq<Udid>, v: Udid)
    requires Sound(s)
    ensures var news := Occurrences(Process(s, sims).emitted, v) - Occurrences(s.emitted, v);
            news == if (v in s.members) != (v in sims) then 1 else 0
  {
    DetachCounts(s, s.members, sims, v);
    DetachAllKeeps(s, s.members, sims);
    AttachCounts(DetachAll(s, s.members, sims), sims, v);
  }

  // ---------- The order of the events ----------

  /** The members that a snapshot lacks, in their order. */
  function Gone(members: seq<Udid>, sims: seq<Udid>): seq<Udid> {
    if members == [] then []
    else Gone(members[..|members| - 1], sims) + if members[|members| - 1] in sims then [] else [members[|members| - 1]]
  }

  /** What a snapshot has beyond the members, in the order in which it first lists it. */
  function New(members: seq<Udid>, sims: seq<Udid>): seq<Udid> {
    if sims == [] then []
    else
      var before, sim := New(members, sims[..|sims| - 1]), sims[|sims| - 1];
      if sim in members || sim in sims[..|sims| - 1] then before else before + [sim]
  }

  function Told(there: bool, sims: seq<Udid>): (r: seq<Event>)
    ensures |r| == |sims| && forall i | 0 <= i < |sims| :: r[i] == (there, sims[i])
  {
    if sims == [] then [] else Told(there, sims[..|sims| - 1]) + [(there, sims[|sims| - 1])]
  }

  lemma ToldSnoc(there: bool, sims: seq<Udid>, sim: Udid)
    ensures Told(there, sims + [sim]) == Told(there, sims) + [(there, sim)]
  {
    assert (sims + [sim])[..|sims|] == sims;
  }

  lemma {:induction false} DetachOrder(s: State, before: seq<Udid>, sims: seq<Udid>)
    ensures DetachAll(s, before, sims).emitted == s.emitted + Told(false, Gone(before, sims))
  {
    if before != [] {
      DetachOrder(s, before[..|before| - 1], sims);
      ToldSnoc(false, Gone(before[..|before| - 1], sims), before[|before| - 1]);
    }
  }

  lemma {:induction false} NewOnes(members: seq<Udid>, sims: seq<Udid>)
    ensures forall x :: x in New(members, sims) <==> x in sims && x !in members
  {
    if sims != [] {
      NewOnes(members, sims[..|sims| - 1]);
      assert sims == sims[..|sims| - 1] + [sims[|sims| - 1]];
    }
  }

  lemma LastAttached(s: State, sims: seq<Udid>)
    ensures if sims == [] then AttachAll(s, sims) == s && Told(true, New(s.members, sims)) == []
            else
              var before, sim := sims[..|sims| - 1], sims[|sims| - 1];
              && AttachAll(s, sims) == Attach(AttachAll(s, before), sim)
              && New(s.members, sims)
                   == New(s.members, before) + if sim in s.members || sim in before then [] else [sim]
    ensures sims == [] ==> New(s.members, sims) == []
  {
  }

  lemma {:induction false} AttachOrder(s: State, sims: seq<Udid>)
    ensures AttachAll(s, sims).emitted == s.emitted + Told(true, New(s.members, sims))
    ensures AttachAll(s, sims).members == s.members + New(s.members, sims)
  {
    hide Told, New, AttachAll;
    LastAttached(s, sims);
    if sims != [] {
      var before, sim := sims[..|sims| - 1], sims[|sims| - 1];
      AttachOrder(s, before);
      NewOnes(s.members, before);
      ToldSnoc(true, New(s.members, before), sim);
    }
  }

  lemma {:induction false} DetachedMembers(s: State, before: seq<Udid>, sims: seq<Udid>, x: Udid)
    requires forall y | y in before :: y in s.members
    ensures x in DetachAll(s, before, sims).members <==> x in s.members && (x in before ==> x in sims)
  {
    if before != [] {
      var rest, sim := before[..|before| - 1], before[|before| - 1];
      assert before == rest + [sim];
      DetachedMembers(s, rest, sims, x);
    }
  }

  lemma {:induction false} NewDependsOnMembers(a: seq<Udid>, b: seq<Udid>, sims: seq<Udid>)
    requires forall x | x in sims :: x in a <==> x in b
    ensures New(a, sims) == New(b, sims)
  {
    if sims != [] {
      NewDependsOnMembers(a, b, sims[..|sims| - 1]);
    }
  }

  /** A snapshot first tells of the simulators that went, in the order in which they came, and
      then of those that came, in the order in which it first lists them. */
  lemma EventsInOrder(s: State, sims: seq<Udid>)
    ensures Process(s, sims).emitted == s.emitted + Told(false, Gone(s.members, sims)) + Told(true, New(s.members, sims))
  {
    var r := DetachAll(s, s.members, sims);
    DetachOrder(s, s.members, sims);
    AttachOrder(r, sims);
    forall x | x in sims ensures x in r.members <==> x in s.members {
      DetachedMembers(s, s.members, sims, x);
    }
    NewDependsOnMembers(r.members, s.members, sims);
  }

  class IOSSimObserver {
    var state: seq<Udid>
    var emitted: seq<Event>

    ghost function View(): State
      reads this
    {
      State(state, emitted)
    }

    constructor ()
      ensures View() == Run([])
    {
      state, emitted := [], [];
    }

    method ProcessState(sims: seq<Udid>)
      modifies this
      ensures View() == Process(old(View()), sims)
    {
      var before := state;
      for i := 0 to |before|
        invariant View() == DetachAll(old(View()), before[..i], sims)
      {
        assert before[..i + 1][..i] == before[..i];
        var prevSim := before[i];
        if prevSim !in sims {
          state := Without(state, prevSim);
          emitted := emitted + [(false, prevSim)];
        }
      }
      assert before[..|before|] == before;
      ghost var detached := View();
      for i := 0 to |sims|
        invariant View() == AttachAll(detached, sims[..i])
      {
        assert sims[..i + 1][..i] == sims[..i];
        var sim := sims[i];
        if sim !in state {
          state := state + [sim];
          emitted := emitted + [(true, sim)];
        }
      }
      assert sims[..|sims|] == sims;
    }
  }
}
