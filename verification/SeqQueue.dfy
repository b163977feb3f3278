/** The reorder buffer that puts numbered messages back into cyclic order. */
module SeqQueues {
  import opened Wrappers

  function Bag(h: Option<nat>): multiset<nat> {
    if h.Some? then multiset{h.value} else multiset{}
  }

  /** The fields of a queue, the handlers it has called, and what became of the
      pushes it accepted. A handler is represented by its number. */
  datatype Queue = Queue(
    size: nat, maxWaiting: int, lo: nat, waiting: nat, locked: bool, list: seq<Option<nat>>,
    delivered: seq<nat>, accepted: multiset<nat>, overwritten: multiset<nat>, skipped: nat)
  {
    /** Reading past the end of a JavaScript array gives undefined. */
    function At(i: nat): Option<nat> {
      if i < |list| then list[i] else None
    }

    /** The slot the loop looks at: past the end it starts from the beginning. */
    function Here(): nat {
      if lo >= size then 0 else lo
    }

    /** One turn of the loop that calls a handler. */
    function Deliver(): Queue
      requires waiting > 0 && At(Here()).Some?
    {
      this.(list := list[Here() := None], delivered := delivered + [list[Here()].value],
            lo := Here() + 1, waiting := waiting - 1)
    }

    /** One turn of the loop that gives up on a message. */
    function Skip(): Queue
      requires waiting > 0
    {
      this.(lo := Here() + 1, waiting := waiting - 1, skipped := skipped + 1)
    }

    /** A push before the loop runs. */
    function Accept(index: nat, handler: nat): Queue
      requires index < |list|
    {
      this.(list := list[index := Some(handler)], waiting := waiting + 1, accepted := accepted + multiset{handler},
            overwritten := overwritten + Bag(list[index]))
    }
  }

  function New(size: nat, maxWaiting: int): Queue {
    Queue(size, maxWaiting, 0, 0, true, seq(size, i => None), [], multiset{}, multiset{}, 0)
  }

  /** The loop, run to its end. */
  function Consume(q: Queue): (r: Queue)
    ensures q.delivered <= r.delivered
    decreases q.waiting
  {
    if q.waiting == 0 then q
    else if q.At(q.Here()).Some? then Consume(q.Deliver())
    else if q.waiting >= q.maxWaiting then Consume(q.Skip())
    else q.(lo := q.Here())
  }

  lemma ConsumeTurn(q: Queue)
    requires q.waiting > 0
    ensures Consume(q) ==
            if q.At(q.Here()).Some? then Consume(q.Deliver())
            else if q.waiting >= q.maxWaiting then Consume(q.Skip())
            else q.(lo := q.Here())
  {
  }

  lemma ConsumeNothing(q: Queue)
    ensures q.waiting == 0 ==> Consume(q) == q
  {
  }

  function ConsumeUnlocked(q: Queue): Queue {
    if q.locked then q else Consume(q)
  }

  datatype Op = Start(first: nat) | Stop | Push(index: nat, handler: nat)

  function Apply(q: Queue, op: Op): Queue {
    match op
    case Start(first) => ConsumeUnlocked(q.(locked := false, lo := first + 1))
    case Stop => ConsumeUnlocked(q.(locked := true))
    case Push(index, handler) =>
      if index >= q.size || index >= |q.list| then q else ConsumeUnlocked(q.Accept(index, handler))
  }

  function Run(q: Queue, ops: seq<Op>): Queue {
    if ops == [] then q else Apply(Run(q, ops[..|ops| - 1]), ops[|ops| - 1])
  }

  // ---------- Accounting over every run ----------

  function Stored(list: seq<Option<nat>>): multiset<nat> {
    if list == [] then multiset{} else Stored(list[..|list| - 1]) + Bag(list[|list| - 1])
  }

  lemma {:induction false} StoredUpdate(list: seq<Option<nat>>, i: nat, h: Option<nat>)
    requires i < |list|
    ensures Stored(list[i := h]) + Bag(list[i]) == Stored(list) + Bag(h)
  {
    hide Bag;
    var n, list' := |list| - 1, list[i := h];
    var before, last := Stored(list[..n]), Bag(list[n]);
    if i == n {
      assert list'[..n] == list[..n];
      assert (before + Bag(h)) + last == (before + last) + Bag(h);
    } else {
      assert list'[..n] == list[..n][i := h];
      StoredUpdate(list[..n], i, h);
      var after := Stored(list'[..n]);
      assert after + Bag(list[i]) == before + Bag(h);
      assert (after + last) + Bag(list[i]) == (after + Bag(list[i])) + last;
      assert (before + last) + Bag(h) == (before + Bag(h)) + last;
    }
  }

  /** The handlers of the pushes a run accepts. */
  function Accepted(ops: seq<Op>, size: nat): multiset<nat> {
    if ops == [] then multiset{}
    else
      var op := ops[|ops| - 1];
      var before := Accepted(ops[..|ops| - 1], size);
      if op.Push? && op.index < size then before + multiset{op.handler} else before
  }

  /** Every accepted handler is delivered, overwritten or still stored; `waiting` is how
      many were accepted and neither delivered nor skipped; `lo` stays below a bound. */
  ghost predicate Balanced(q: Queue, bound: nat) {
    && |q.list| == q.size
    && q.accepted == multiset(q.delivered) + q.overwritten + Stored(q.list)
    && q.waiting + |q.delivered| + q.skipped == |q.accepted|
    && q.size <= bound && q.lo <= bound
  }

  /** An unlocked queue only rests when it has nothing to wait for, or when the next
      slot is empty and the backlog is below the limit. */
  ghost predicate AtRest(q: Queue) {
    q.locked || q.waiting == 0 || (q.lo < q.size && q.At(q.lo) == None && q.waiting < q.maxWaiting)
  }

  lemma Rebalance(a: multiset<nat>, b: multiset<nat>, s: multiset<nat>, moved: multiset<nat>, s': multiset<nat>)
    requires s == s' + moved
    ensures a + b + s == (a + moved) + b + s'
  {
  }

  lemma {:induction false} ConsumeBalanced(q: Queue, bound: nat)
    requires Balanced(q, bound) && !q.locked && (q.waiting > 0 ==> q.size > 0)
    ensures Balanced(Consume(q), bound) && AtRest(Consume(q))
    decreases q.waiting
  {
    if q.waiting == 0 {
    } else if q.At(q.Here()).Some? {
      StoredUpdate(q.list, q.Here(), None);
      var bag := Bag(q.At(q.Here()));
      assert Stored(q.list) == Stored(q.Deliver().list) + bag;
      assert multiset(q.Deliver().delivered) == multiset(q.delivered) + bag;
      Rebalance(multiset(q.delivered), q.overwritten, Stored(q.list), bag, Stored(q.Deliver().list));
      assert Balanced(q.Deliver(), bound);
      ConsumeBalanced(q.Deliver(), bound);
    } else if q.waiting >= q.maxWaiting {
      ConsumeBalanced(q.Skip(), bound);
    }
  }

  lemma {:induction false} NothingStored(list: seq<Option<nat>>)
    requires forall i | 0 <= i < |list| :: list[i] == None
    ensures Stored(list) == multiset{}
  {
    if list != [] {
      NothingStored(list[..|list| - 1]);
    }
  }

  lemma {:induction false} ConsumeKeepsParameters(q: Queue)
    ensures var r := Consume(q); r.size == q.size && r.maxWaiting == q.maxWaiting && r.locked == q.locked
    ensures var r := Consume(q); r.accepted == q.accepted && r.waiting <= q.waiting && r.skipped >= q.skipped
    decreases q.waiting
  {
    if q.waiting == 0 {
    } else if q.At(q.Here()).Some? {
      ConsumeKeepsParameters(q.Deliver());
    } else if q.waiting >= q.maxWaiting {
      ConsumeKeepsParameters(q.Skip());
    }
  }

  lemma AcceptBalanced(q: Queue, index: nat, handler: nat, bound: nat)
    requires Balanced(q, bound) && index < q.size
    ensures Balanced(q.Accept(index, handler), bound)
  {
    var q', h, bag := q.Accept(index, handler), multiset{handler}, Bag(q.list[index]);
    StoredUpdate(q.list, index, Some(handler));
    Exchange(multiset(q.delivered), q.overwritten, Stored(q.list), h, bag, Stored(q'.list));
  }

  lemma Exchange(a: multiset<nat>, b: multiset<nat>, s: multiset<nat>,
                 put: multiset<nat>, taken: multiset<nat>, s': multiset<nat>)
    requires s + put == s' + taken
    ensures a + b + s + put == a + (b + taken) + s'
  {
    assert a + b + s + put == a + b + (s + put);
    assert a + (b + taken) + s' == a + b + (s' + taken);
  }

  lemma UnlockedBalanced(q: Queue, bound: nat)
    requires Balanced(q, bound) && (q.waiting > 0 ==> q.size > 0)
    ensures var r := ConsumeUnlocked(q);
            && Balanced(r, bound) && AtRest(r) && r.waiting <= q.waiting
            && r.size == q.size && r.maxWaiting == q.maxWaiting && r.accepted == q.accepted
  {
    if !q.locked {
      ConsumeBalanced(q, bound);
      ConsumeKeepsParameters(q);
    }
  }

  lemma ListSize(q: Queue, bound: nat)
    requires Balanced(q, bound)
    ensures |q.list| == q.size && q.lo <= bound
  {
  }

  lemma RelockBalanced(q: Queue, locked: bool, lo: nat, bound: nat)
    requires Balanced(q, bound) && lo <= bound
    ensures Balanced(q.(locked := locked, lo := lo), bound)
  {
  }

  lemma {:induction false} ApplyBalanced(q: Queue, op: Op, bound: nat)
    requires Balanced(q, bound) && AtRest(q) && (q.size == 0 ==> q.waiting == 0)
    requires op.Start? ==> op.first + 1 <= bound
    ensures var r := Apply(q, op);
            && Balanced(r, bound) && AtRest(r) && (r.size == 0 ==> r.waiting == 0)
            && r.size == q.size && r.maxWaiting == q.maxWaiting
            && r.accepted == if op.Push? && op.index < q.size then q.accepted + multiset{op.handler} else q.accepted
  {
    hide Consume, Stored, Balanced, ConsumeUnlocked, AtRest;
    match op
    case Start(first) =>
      RelockBalanced(q, false, first + 1, bound);
      UnlockedBalanced(q.(locked := false, lo := first + 1), bound);
    case Stop =>
      ListSize(q, bound);
      RelockBalanced(q, true, q.lo, bound);
      UnlockedBalanced(q.(locked := true, lo := q.lo), bound);
      assert q.(locked := true, lo := q.lo) == q.(locked := true);
    case Push(index, handler) => PushBalanced(q, index, handler, bound);
  }

  lemma PushBalanced(q: Queue, index: nat, handler: nat, bound: nat)
    requires Balanced(q, bound) && AtRest(q) && (q.size == 0 ==> q.waiting == 0)
    ensures var r := Apply(q, Push(index, handler));
            && Balanced(r, bound) && AtRest(r) && (r.size == 0 ==> r.waiting == 0)
            && r.size == q.size && r.maxWaiting == q.maxWaiting
            && r.accepted == if index < q.size then q.accepted + multiset{handler} else q.accepted
  {
    hide Consume, Stored, Balanced, ConsumeUnlocked, AtRest;
    ListSize(q, bound);
    if index < q.size {
      AcceptBalanced(q, index, handler, bound);
      UnlockedBalanced(q.Accept(index, handler), bound);
    }
  }

  /** The accounting holds after every run, duplicates and skips included. With
      `bound == size` it keeps `lo` in [0, size]. */
  lemma {:induction false} RunIsBalanced(size: nat, maxWaiting: int, ops: seq<Op>, bound: nat)
    requires size <= bound && forall op | op in ops && op.Start? :: op.first + 1 <= bound
    ensures var q := Run(New(size, maxWaiting), ops);
            && Balanced(q, bound) && AtRest(q) && (q.size == 0 ==> q.waiting == 0)
            && q.size == size && q.maxWaiting == maxWaiting && q.accepted == Accepted(ops, size)
    decreases |ops|
  {
    if ops == [] {
      NothingStored(New(size, maxWaiting).list);
    } else {
      var rest := ops[..|ops| - 1];
      RunIsBalanced(size, maxWaiting, rest, bound);
      ApplyBalanced(Run(New(size, maxWaiting), rest), ops[|ops| - 1], bound);
    }
  }

  // ---------- Start and stop ----------

  /** The last call of `start` or `stop` was a start. */
  predicate Started(ops: seq<Op>) {
    ops != [] &&
    match ops[|ops| - 1]
    case Start(_) => true
    case Stop => false
    case Push(_, _) => Started(ops[..|ops| - 1])
  }

  /** In every run the queue is open exactly after a start. While it is not, a call delivers
      and skips nothing and leaves the position, and a push only stores its handler. */
  lemma {:induction false} LockedUntilStarted(size: nat, maxWaiting: int, ops: seq<Op>)
    ensures var q := Run(New(size, maxWaiting), ops);
            && (q.locked <==> !Started(ops))
            && |q.list| == size == q.size
            && (ops != [] && !Started(ops) ==>
                  var before, op := Run(New(size, maxWaiting), ops[..|ops| - 1]), ops[|ops| - 1];
                  && q.delivered == before.delivered && q.skipped == before.skipped && q.lo == before.lo
                  && q.list == (if op.Push? && op.index < size then before.list[op.index := Some(op.handler)] else before.list)
                  && q.waiting == before.waiting + (if op.Push? && op.index < size then 1 else 0))
  {
    if ops != [] {
      LockedUntilStarted(size, maxWaiting, ops[..|ops| - 1]);
      ApplyKeepsShape(Run(New(size, maxWaiting), ops[..|ops| - 1]), ops[|ops| - 1]);
    }
  }

  lemma ApplyKeepsShape(q: Queue, op: Op)
    requires |q.list| == q.size
    ensures var r := Apply(q, op);
            && |r.list| == |q.list| && r.size == q.size
            && (r.locked <==> if op.Push? then q.locked else op.Stop?)
  {
    match op
    case Start(first) => ConsumeKeepsShape(q.(locked := false, lo := first + 1));
    case Stop => ConsumeKeepsShape(q.(locked := true));
    case Push(index, handler) => if index < q.size { ConsumeKeepsShape(q.Accept(index, handler)); }
  }

  lemma {:induction false} ConsumeKeepsShape(q: Queue)
    ensures |Consume(q).list| == |q.list| && Consume(q).size == q.size && Consume(q).locked == q.locked
    decreases q.waiting
  {
    if q.waiting > 0 {
      if q.At(q.Here()).Some? {
        ConsumeKeepsShape(q.Deliver());
      } else if q.waiting >= q.maxWaiting {
        ConsumeKeepsShape(q.Skip());
      }
    }
  }

  // ---------- Ordered delivery ----------

  /** The first number at or after `n` that has not arrived, looking no further than
      the count of arrivals: 0, 1, .. up to the result is the longest contiguous run. */
  function NextFrom(arrived: seq<nat>, n: nat): (r: nat)
    requires n <= |arrived| && forall i | 0 <= i < n :: i in arrived
    ensures n <= r <= |arrived| && forall i | 0 <= i < r :: i in arrived
    ensures r !in arrived
    decreases |arrived| - n
  {
    if n !in arrived then n
    else
      Crowded(arrived, n + 1);
      NextFrom(arrived, n + 1)
  }

  function Next(arrived: seq<nat>): nat {
    NextFrom(arrived, 0)
  }

  /** Distinct numbers need as many places. */
  lemma {:induction false} Crowded(arrived: seq<nat>, n: nat)
    requires forall i | 0 <= i < n :: i in arrived
    ensures n <= |arrived|
  {
    if n > 0 {
      assert n - 1 in arrived;
      var k :| 0 <= k < |arrived| && arrived[k] == n - 1;
      var rest := arrived[..k] + arrived[k + 1..];
      forall i | 0 <= i < n - 1 ensures i in rest {
        assert i in arrived;
        var j :| 0 <= j < |arrived| && arrived[j] == i;
        assert rest[if j < k then j else j - 1] == i;
      }
      Crowded(rest, n - 1);
    }
  }

  /** Message `n` after `start(first)` carries this sequence number. */
  function Slot(n: nat, first: nat, size: nat): (i: nat)
    requires size > 0
    ensures i < size
  {
    (first + 1 + n) % size
  }

  /** Messages arrive once each, none already delivered, and none more than `size`
      ahead of the next one expected. */
  ghost predicate InWindow(arrivals: seq<nat>, size: nat) {
    arrivals == [] ||
    var rest, n := arrivals[..|arrivals| - 1], arrivals[|arrivals| - 1];
    InWindow(rest, size) && n !in rest && Next(rest) <= n < Next(rest) + size
  }

  /** After each arrival the backlog is empty or below the limit. */
  ghost predicate SmallBacklog(arrivals: seq<nat>, maxWaiting: int) {
    arrivals == [] ||
    var backlog := |arrivals| - Next(arrivals);
    SmallBacklog(arrivals[..|arrivals| - 1], maxWaiting) && (backlog == 0 || backlog < maxWaiting)
  }

  function Pushes(arrivals: seq<nat>, first: nat, size: nat): seq<Op>
    requires size > 0
  {
    seq(|arrivals|, i requires 0 <= i < |arrivals| => Push(Slot(arrivals[i], first, size), arrivals[i]))
  }

  /** The queue has delivered 0, .., next - 1, holds exactly the other arrivals, each in
      its slot, and has skipped nothing. */
  ghost predicate InOrder(q: Queue, first: nat, arrived: seq<nat>) {
    var next := |q.delivered|;
    && q.size > 0 && |q.list| == q.size && !q.locked && q.skipped == 0
    && (forall i | 0 <= i < next :: q.delivered[i] == i && i in arrived)
    && (forall n | n in arrived :: n < next + q.size)
    && (forall n | next <= n < next + q.size ::
          q.list[Slot(n, first, q.size)] == if n in arrived then Some(n) else None)
    && q.Here() == Slot(next, first, q.size)
    && next + q.waiting == |arrived|
  }

  lemma SlotsDiffer(m: nat, n: nat, first: nat, size: nat)
    requires size > 0 && m < n < m + size
    ensures Slot(m, first, size) != Slot(n, first, size)
  {
    var a, b := first + 1 + m, first + 1 + n;
    var d := b / size - a / size;
    assert b - a == size * d + (b % size - a % size);
    assert (d >= 1 ==> size * d >= size) && (d <= 0 ==> size * d <= 0);
  }

  lemma SlotWraps(n: nat, first: nat, size: nat)
    requires size > 0
    ensures Slot(n + size, first, size) == Slot(n, first, size)
    ensures Slot(n + 1, first, size) == (if Slot(n, first, size) + 1 >= size then 0 else Slot(n, first, size) + 1)
  {
    var a := first + 1 + n;
    var k, r := a / size, a % size;
    assert a == size * k + r;
    DivModUnique(a + size, size, k + 1, r);
    if r + 1 < size {
      DivModUnique(a + 1, size, k, r + 1);
    } else {
      DivModUnique(a + 1, size, k + 1, 0);
    }
  }

  lemma DivModUnique(a: nat, size: nat, k: int, r: nat)
    requires r < size && a == size * k + r
    ensures a % size == r
  {
    var d := a / size - k;
    assert size * d == r - a % size;
    assert (d >= 1 ==> size * d >= size) && (d <= -1 ==> -(size * d) >= size);
  }

  /** Delivering the next message moves the window on by one. */
  lemma DeliverKeepsOrder(q: Queue, first: nat, arrived: seq<nat>)
    requires InOrder(q, first, arrived) && q.waiting > 0 && |q.delivered| in arrived
    ensures q.At(q.Here()) == Some(|q.delivered|) && InOrder(q.Deliver(), first, arrived)
  {
    var next, list := |q.delivered|, q.Deliver().list;
    SlotWraps(next, first, q.size);
    forall n | next < n < next + 1 + q.size
      ensures list[Slot(n, first, q.size)] == if n in arrived then Some(n) else None
    {
      if n < next + q.size {
        SlotsDiffer(next, n, first, q.size);
      }
    }
  }

  /** The loop delivers the rest of the contiguous run, and skips exactly when the
      backlog that remains has reached the limit. */
  lemma {:induction false} ConsumeInOrder(q: Queue, first: nat, arrived: seq<nat>)
    requires InOrder(q, first, arrived)
    ensures var backlog := |arrived| - Next(arrived);
            var r := Consume(q);
            if backlog == 0 || backlog < q.maxWaiting
            then InOrder(r, first, arrived) && |r.delivered| == Next(arrived)
            else r.skipped > 0
    decreases q.waiting
  {
    var next := |q.delivered|;
    if next in arrived {
      Crowded(arrived, next + 1);
      DeliverKeepsOrder(q, first, arrived);
      ConsumeInOrder(q.Deliver(), first, arrived);
    } else {
      assert Next(arrived) == next;
      if q.waiting > 0 && q.waiting >= q.maxWaiting {
        ConsumeKeepsParameters(q.Skip());
      }
    }
  }

  lemma PushKeepsOrder(q: Queue, first: nat, arrived: seq<nat>, n: nat)
    requires InOrder(q, first, arrived)
    requires n !in arrived && |q.delivered| <= n < |q.delivered| + q.size
    ensures var slot := Slot(n, first, q.size);
            q.list[slot] == None &&
            InOrder(q.Accept(slot, n), first, arrived + [n])
  {
    var next, list := |q.delivered|, q.list[Slot(n, first, q.size) := Some(n)];
    forall m | next <= m < next + q.size
      ensures list[Slot(m, first, q.size)] == if m in arrived + [n] then Some(m) else None
    {
      if m < n {
        SlotsDiffer(m, n, first, q.size);
      } else if n < m {
        SlotsDiffer(n, m, first, q.size);
      }
    }
  }

  function AfterPushes(size: nat, maxWaiting: int, first: nat, arrivals: seq<nat>): Queue
    requires size > 0
  {
    Run(New(size, maxWaiting), [Start(first)] + Pushes(arrivals, first, size))
  }

  lemma {:induction false} OneMorePush(size: nat, maxWaiting: int, first: nat, arrivals: seq<nat>)
    requires size > 0 && arrivals != []
    ensures var rest, n := arrivals[..|arrivals| - 1], arrivals[|arrivals| - 1];
            var before := AfterPushes(size, maxWaiting, first, rest);
            AfterPushes(size, maxWaiting, first, arrivals) == Apply(before, Push(Slot(n, first, size), n))
  {
    var ops := [Start(first)] + Pushes(arrivals, first, size);
    assert ops[..|ops| - 1] == [Start(first)] + Pushes(arrivals[..|arrivals| - 1], first, size);
  }

  lemma SkippedForever(q: Queue, op: Op)
    ensures Apply(q, op).skipped >= q.skipped
  {
    match op
    case Start(first) => ConsumeKeepsParameters(q.(locked := false, lo := first + 1));
    case Stop =>
    case Push(index, handler) =>
      if index < q.size && index < |q.list| {
        ConsumeKeepsParameters(q.Accept(index, handler));
      }
  }

  lemma StartInOrder(size: nat, maxWaiting: int, first: nat)
    requires first < size
    ensures InOrder(AfterPushes(size, maxWaiting, first, []), first, [])
    ensures AfterPushes(size, maxWaiting, first, []).maxWaiting == maxWaiting
    ensures AfterPushes(size, maxWaiting, first, []).size == size
  {
    var q := New(size, maxWaiting);
    var none: seq<Op> := [];
    assert Pushes([], first, size) == none && [Start(first)] + none == [Start(first)];
    assert [Start(first)][..0] == none;
    assert Run(q, [Start(first)]) == Apply(Run(q, none), Start(first));
    if first + 1 < size {
      DivModUnique(first + 1, size, 0, first + 1);
    } else {
      DivModUnique(first + 1, size, 1, 0);
    }
  }

  lemma {:induction false} DeliveryInvariant(size: nat, maxWaiting: int, first: nat, arrivals: seq<nat>)
    requires first < size && InWindow(arrivals, size)
    ensures var q := AfterPushes(size, maxWaiting, first, arrivals);
            if SmallBacklog(arrivals, maxWaiting)
            then InOrder(q, first, arrivals) && |q.delivered| == Next(arrivals)
                 && q.size == size && q.maxWaiting == maxWaiting
            else q.skipped > 0
    decreases |arrivals|
  {
    if arrivals == [] {
      StartInOrder(size, maxWaiting, first);
    } else {
      var rest, n := arrivals[..|arrivals| - 1], arrivals[|arrivals| - 1];
      assert arrivals == rest + [n];
      DeliveryInvariant(size, maxWaiting, first, rest);
      OneMorePush(size, maxWaiting, first, arrivals);
      var q := AfterPushes(size, maxWaiting, first, rest);
      var slot := Slot(n, first, size);
      if SmallBacklog(rest, maxWaiting) {
        PushKeepsOrder(q, first, rest, n);
        var q' := q.Accept(slot, n);
        assert Apply(q, Push(slot, n)) == Consume(q');
        ConsumeInOrder(q', first, arrivals);
        ConsumeKeepsParameters(q');
      } else {
        SkippedForever(q, Push(slot, n));
      }
    }
  }

  /** Whatever the order of arrival within the window, the queue never gives up on a
      message exactly when the backlog stays small, and then it has delivered exactly
      the longest contiguous run, in order. */
  lemma OrderedDelivery(size: nat, maxWaiting: int, first: nat, arrivals: seq<nat>)
    requires first < size && InWindow(arrivals, size)
    ensures var q := AfterPushes(size, maxWaiting, first, arrivals);
            && (SmallBacklog(arrivals, maxWaiting) <==> q.skipped == 0)
            && (SmallBacklog(arrivals, maxWaiting) ==> q.delivered == seq(Next(arrivals), i => i))
  {
    DeliveryInvariant(size, maxWaiting, first, arrivals);
  }

  // ---------- The class ----------

  class SeqQueue {
    const size: nat
    const maxWaiting: int
    var lo: nat
    var waiting: nat
    var locked: bool
    const list: array<Option<nat>>
    var delivered: seq<nat>
    ghost var accepted: multiset<nat>
    ghost var overwritten: multiset<nat>
    ghost var skipped: nat

    ghost predicate Valid()
      reads this
    {
      list.Length == size
    }

    ghost function State(): Queue
      reads this, list
    {
      Queue(size, maxWaiting, lo, waiting, locked, list[..], delivered, accepted, overwritten, skipped)
    }

    constructor (size: nat, maxWaiting: int)
      ensures State() == New(size, maxWaiting) && Valid() && fresh(list)
    {
      this.size, this.maxWaiting, lo, waiting, locked := size, maxWaiting, 0, 0, true;
      list := new Option<nat>[size](i => None);
      delivered, accepted, overwritten, skipped := [], multiset{}, multiset{}, 0;
      new;
      assert list[..] == seq(size, i => None);
    }

    method Start(first: nat)
      modifies this, list
      ensures State() == Apply(old(State()), Op.Start(first))
    {
      locked := false;
      lo := first + 1;
      MaybeConsume();
    }

    method Stop()
      modifies this, list
      ensures State() == Apply(old(State()), Op.Stop)
    {
      locked := true;
      MaybeConsume();
    }

    method Push(index: nat, handler: nat)
      requires Valid()
      modifies this, list
      ensures State() == Apply(old(State()), Op.Push(index, handler))
    {
      hide Consume, Bag, ConsumeUnlocked;
      if index >= size {
        return;
      }
      ghost var before := State();
      overwritten := overwritten + Bag(list[index]);
      accepted := accepted + multiset{handler};
      list[index] := Some(handler);
      waiting := waiting + 1;
      assert list[..] == before.list[index := Some(handler)];
      assert State() == before.Accept(index, handler);
      MaybeConsume();
    }

    method MaybeConsume()
      modifies this`lo, this`waiting, this`delivered, this`skipped, list
      ensures State() == ConsumeUnlocked(old(State()))
    {
      hide Consume, Bag;
      if locked {
        return;
      }
      ghost var goal := Consume(State());
      while waiting > 0
        invariant Consume(State()) == goal
        decreases waiting
      {
        ghost var before := State();
        ConsumeTurn(before);
        if lo >= size {
          lo := 0;
        }
        assert lo == before.Here() && State() == before.(lo := lo);
        var handler := if lo < list.Length then list[lo] else None;
        if handler.Some? {
          list[lo] := None;
          assert list[..] == before.list[lo := None];
          delivered := delivered + [handler.value];
          lo := lo + 1;
          waiting := waiting - 1;
          assert State() == before.Deliver();
        } else if waiting >= maxWaiting {
          lo := lo + 1;
          waiting := waiting - 1;
          skipped := skipped + 1;
          assert State() == before.Skip();
        } else {
          assert State() == goal;
          break;
        }
      }
      ConsumeNothing(State());
    }
  }
}
