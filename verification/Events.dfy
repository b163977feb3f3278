/** Logs of things that appear and disappear. */
module Events {

  /** An event `(true, v)` says that `v` appeared, `(false, v)` that it is gone. */
  type Event = (bool, int)

  /** The last event about `v` says that it is there. */
  predicate Present(events: seq<Event>, v: int) {
    events != [] &&
    var e := events[|events| - 1];
    if e.1 == v then e.0 else Present(events[..|events| - 1], v)
  }

  /** The events about `v` are: there, gone, there, and so on. */
  predicate Alternates(events: seq<Event>, v: int) {
    events == [] ||
    var e, before := events[|events| - 1], events[..|events| - 1];
    Alternates(before, v) && (e.1 == v ==> e.0 == !Present(before, v))
  }

  lemma Snoc(events: seq<Event>, e: Event, v: int)
    ensures Present(events + [e], v) == if e.1 == v then e.0 else Present(events, v)
    ensures Alternates(events + [e], v) <==> Alternates(events, v) && (e.1 == v ==> e.0 == !Present(events, v))
  {
  }

  /** How many events are about `v`. */
  function Occurrences(events: seq<Event>, v: int): nat {
    if events == [] then 0
    else Occurrences(events[..|events| - 1], v) + if events[|events| - 1].1 == v then 1 else 0
  }

  lemma {:induction false} OccurrencesConcat(a: seq<Event>, b: seq<Event>, v: int)
    ensures Occurrences(a + b, v) == Occurrences(a, v) + Occurrences(b, v)
  {
    if b == [] {
      assert a + b == a;
    } else {
      assert (a + b)[..|a + b| - 1] == a + b[..|b| - 1];
      OccurrencesConcat(a, b[..|b| - 1], v);
    }
  }
}
