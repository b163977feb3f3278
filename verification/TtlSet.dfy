/** A set whose members expire: an index from values to the items of a hand-written
    doubly linked list, expired from the head.

    Bumping a value that is already present unlinks its item and leaves it as the only
    item between `head` and `tail`; the other items stay in the index and stay linked
    to each other. So the items form several chains, of which the first is the live one. */
module TtlSets {
  import opened Wrappers
  import opened Events

  /** The values are strings in the source; they are only compared, so numbers stand for them. */
  type Value = int

  // ---------- Chains of values ----------

  function First(chain: seq<Value>): Option<Value> {
    if chain == [] then None else Some(chain[0])
  }

  function Last(chain: seq<Value>): Option<Value> {
    if chain == [] then None else Some(chain[|chain| - 1])
  }

  /** The value behind `u` in a chain. */
  function NextIn(chain: seq<Value>, u: Value): (r: Option<Value>)
    ensures r.Some? ==> u in chain && r.value in chain
  {
    if |chain| <= 1 then None else if chain[0] == u then Some(chain[1]) else NextIn(chain[1..], u)
  }

  /** The value in front of `u` in a chain. */
  function PrevIn(chain: seq<Value>, u: Value): (r: Option<Value>)
    ensures r.Some? ==> u in chain && r.value in chain
  {
    if |chain| <= 1 then None else if chain[1] == u then Some(chain[0]) else PrevIn(chain[1..], u)
  }

  lemma {:induction false} NextInWithout(chain: seq<Value>, v: Value, u: Value)
    requires Distinct(chain)
    ensures Distinct(Without(chain, v))
    ensures NextIn(Without(chain, v), u)
         == if u == v then None else if NextIn(chain, u) == Some(v) then NextIn(chain, v) else NextIn(chain, u)
    ensures First(Without(chain, v)) == if First(chain) == Some(v) then NextIn(chain, v) else First(chain)
  {
    if chain != [] {
      NextInWithout(chain[1..], v, u);
    }
  }

  lemma {:induction false} PrevInWithout(chain: seq<Value>, v: Value, u: Value)
    requires Distinct(chain)
    ensures PrevIn(Without(chain, v), u)
         == if u == v then None else if PrevIn(chain, u) == Some(v) then PrevIn(chain, v) else PrevIn(chain, u)
    ensures Last(Without(chain, v)) == if Last(chain) == Some(v) then PrevIn(chain, v) else Last(chain)
  {
    if chain != [] {
      var rest := chain[1..];
      var shorter := Without(rest, v);
      PrevInWithout(rest, v, u);
      NextInWithout(rest, v, u);
      if chain[0] == v {
        assert Without(chain, v) == rest;
      } else {
        assert Without(chain, v) == [chain[0]] + shorter && ([chain[0]] + shorter)[1..] == shorter;
      }
    }
  }

  lemma {:induction false} PrevIffNext(chain: seq<Value>, u: Value, w: Value)
    requires Distinct(chain)
    ensures NextIn(chain, u) == Some(w) <==> PrevIn(chain, w) == Some(u)
    ensures First(chain) == Some(w) ==> PrevIn(chain, w) == None
    ensures Last(chain) == Some(u) ==> NextIn(chain, u) == None
    ensures NextIn(chain, u) != Some(u) && PrevIn(chain, u) != Some(u)
    ensures w in chain && PrevIn(chain, w) == None ==> First(chain) == Some(w)
    ensures u in chain && NextIn(chain, u) == None ==> Last(chain) == Some(u)
  {
    if |chain| > 1 {
      PrevIffNext(chain[1..], u, w);
    }
  }

  lemma {:induction false} AppendLast(chain: seq<Value>, v: Value, u: Value)
    requires Distinct(chain) && v !in chain
    ensures Distinct(chain + [v])
    ensures NextIn(chain + [v], u) == if Last(chain) == Some(u) then Some(v) else NextIn(chain, u)
    ensures PrevIn(chain + [v], u) == if u == v then Last(chain) else PrevIn(chain, u)
  {
    if chain == [] {
      assert chain + [v] == [v];
    } else {
      assert (chain + [v])[1..] == chain[1..] + [v];
      AppendLast(chain[1..], v, u);
    }
  }

  // ---------- Several chains ----------

  /** No value occurs twice, in one chain or in two. */
  ghost predicate Disjoint(chains: seq<seq<Value>>) {
    && (forall c | 0 <= c < |chains| :: Distinct(chains[c]))
    && (forall c, d, v | 0 <= c < d < |chains| && v in chains[c] :: v !in chains[d])
  }

  /** The number of the chain that holds `v`. */
  function ChainOf(chains: seq<seq<Value>>, v: Value): (c: nat)
    ensures c <= |chains| && (c < |chains| ==> v in chains[c])
    ensures forall d | 0 <= d < c :: v !in chains[d]
  {
    if chains == [] || v in chains[0] then 0 else 1 + ChainOf(chains[1..], v)
  }

  predicate Listed(chains: seq<seq<Value>>, v: Value) {
    ChainOf(chains, v) < |chains|
  }

  function NextOf(chains: seq<seq<Value>>, v: Value): Option<Value> {
    if Listed(chains, v) then NextIn(chains[ChainOf(chains, v)], v) else None
  }

  function PrevOf(chains: seq<seq<Value>>, v: Value): Option<Value> {
    if Listed(chains, v) then PrevIn(chains[ChainOf(chains, v)], v) else None
  }

  function Unlink(chains: seq<seq<Value>>, v: Value): (r: seq<seq<Value>>)
    ensures |r| == |chains|
  {
    seq(|chains|, c requires 0 <= c < |chains| => Without(chains[c], v))
  }

  lemma UnlinkListed(chains: seq<seq<Value>>, v: Value, u: Value)
    ensures ChainOf(Unlink(chains, v), u) == if u == v then |chains| else ChainOf(chains, u)
  {
    var r, c := Unlink(chains, v), ChainOf(Unlink(chains, v), u);
    if u != v {
      var d := ChainOf(chains, u);
      assert d < |chains| ==> u in r[d];
      assert c < |chains| ==> u in chains[c];
    }
  }

  lemma UnlinkDisjoint(chains: seq<seq<Value>>, v: Value)
    requires Disjoint(chains)
    ensures Disjoint(Unlink(chains, v))
  {
    forall c | 0 <= c < |chains| ensures Distinct(Unlink(chains, v)[c]) {
      NextInWithout(chains[c], v, v);
    }
  }

  function NextWithout(chains: seq<seq<Value>>, v: Value, u: Value): Option<Value> {
    if u == v then None else if NextOf(chains, u) == Some(v) then NextOf(chains, v) else NextOf(chains, u)
  }

  function PrevWithout(chains: seq<seq<Value>>, v: Value, u: Value): Option<Value> {
    if u == v then None else if PrevOf(chains, u) == Some(v) then PrevOf(chains, v) else PrevOf(chains, u)
  }

  /** Unlinking joins the two neighbours, and changes nothing else. */
  lemma UnlinkNeighbours(chains: seq<seq<Value>>, v: Value, u: Value)
    requires Disjoint(chains)
    ensures NextOf(Unlink(chains, v), u) == NextWithout(chains, v, u)
    ensures PrevOf(Unlink(chains, v), u) == PrevWithout(chains, v, u)
  {
    UnlinkListed(chains, v, u);
    if u != v && Listed(chains, u) {
      var c := ChainOf(chains, u);
      NextInWithout(chains[c], v, u);
      PrevInWithout(chains[c], v, u);
      if v in chains[c] {
        InChain(chains, c, v);
      }
    }
  }

  /** The first chain with `v` at its end. */
  function Append(chains: seq<seq<Value>>, v: Value): (r: seq<seq<Value>>)
    ensures |r| == if chains == [] then 1 else |chains|
  {
    if chains == [] then [[v]] else chains[0 := chains[0] + [v]]
  }

  lemma AppendNeighbours(chains: seq<seq<Value>>, v: Value, u: Value)
    requires Disjoint(chains) && chains != [] && !Listed(chains, v)
    ensures ChainOf(Append(chains, v), u) == if u == v then 0 else ChainOf(chains, u)
    ensures NextOf(Append(chains, v), u) == if Last(chains[0]) == Some(u) then Some(v) else NextOf(chains, u)
    ensures PrevOf(Append(chains, v), u) == if u == v then Last(chains[0]) else PrevOf(chains, u)
  {
    AppendLast(chains[0], v, u);
    assert Append(chains, v)[1..] == chains[1..];
    if Last(chains[0]) == Some(u) {
      PrevIffNext(chains[0], u, u);
    }
  }

  lemma AppendDisjoint(chains: seq<seq<Value>>, v: Value)
    requires Disjoint(chains) && chains != [] && !Listed(chains, v)
    ensures Disjoint(Append(chains, v))
  {
    AppendLast(chains[0], v, v);
  }

  /** A new first chain that holds only `v`. */
  lemma PrependNeighbours(chains: seq<seq<Value>>, v: Value, u: Value)
    requires Disjoint(chains) && !Listed(chains, v)
    ensures var r := [[v]] + chains;
            && ChainOf(r, u) == (if u == v then 0 else ChainOf(chains, u) + 1)
            && NextOf(r, u) == NextOf(chains, u) && PrevOf(r, u) == PrevOf(chains, u)
  {
  }

  lemma PrependDisjoint(chains: seq<seq<Value>>, v: Value)
    requires Disjoint(chains) && !Listed(chains, v)
    ensures Disjoint([[v]] + chains)
  {
  }

  lemma InChain(chains: seq<seq<Value>>, c: nat, v: Value)
    requires Disjoint(chains) && c < |chains| && v in chains[c]
    ensures ChainOf(chains, v) == c && Listed(chains, v)
  {
  }

  lemma UnlinkEnds(chains: seq<seq<Value>>, v: Value)
    requires Disjoint(chains) && chains != []
    ensures First(Unlink(chains, v)[0]) == if First(chains[0]) == Some(v) then NextOf(chains, v) else First(chains[0])
    ensures Last(Unlink(chains, v)[0]) == if Last(chains[0]) == Some(v) then PrevOf(chains, v) else Last(chains[0])
  {
    NextInWithout(chains[0], v, v);
    PrevInWithout(chains[0], v, v);
    if v in chains[0] {
      InChain(chains, 0, v);
    }
  }

  lemma NeighboursMatch(chains: seq<seq<Value>>, u: Value, w: Value)
    requires Disjoint(chains)
    ensures NextOf(chains, u) == Some(w) <==> PrevOf(chains, w) == Some(u)
  {
    if Listed(chains, u) {
      var c := ChainOf(chains, u);
      PrevIffNext(chains[c], u, w);
      if w in chains[c] {
        InChain(chains, c, w);
      }
    }
    if Listed(chains, w) {
      var d := ChainOf(chains, w);
      PrevIffNext(chains[d], u, w);
      if u in chains[d] {
        InChain(chains, d, u);
      }
    }
  }

  /** The contracts below collect the effect of one change on every link. */
  lemma Unlinked(chains: seq<seq<Value>>, v: Value)
    requires Disjoint(chains) && chains != []
    ensures var r := Unlink(chains, v);
            && r != [] && Disjoint(r)
            && First(r[0]) == (if First(chains[0]) == Some(v) then NextOf(chains, v) else First(chains[0]))
            && Last(r[0]) == (if Last(chains[0]) == Some(v) then PrevOf(chains, v) else Last(chains[0]))
    ensures forall u :: Listed(Unlink(chains, v), u) <==> u != v && Listed(chains, u)
    ensures forall u :: NextOf(Unlink(chains, v), u) == NextWithout(chains, v, u)
    ensures forall u :: PrevOf(Unlink(chains, v), u) == PrevWithout(chains, v, u)
  {
    UnlinkDisjoint(chains, v);
    UnlinkEnds(chains, v);
    var r := Unlink(chains, v);
    forall u
      ensures Listed(r, u) <==> u != v && Listed(chains, u)
      ensures NextOf(r, u) == NextWithout(chains, v, u) && PrevOf(r, u) == PrevWithout(chains, v, u)
    {
      UnlinkListed(chains, v, u);
      UnlinkNeighbours(chains, v, u);
    }
  }

  lemma Prepended(chains: seq<seq<Value>>, v: Value)
    requires Disjoint(chains) && !Listed(chains, v)
    ensures Disjoint([[v]] + chains)
    ensures forall u :: Listed([[v]] + chains, u) <==> u == v || Listed(chains, u)
    ensures forall u :: NextOf([[v]] + chains, u) == NextOf(chains, u)
    ensures forall u :: PrevOf([[v]] + chains, u) == PrevOf(chains, u)
  {
    PrependDisjoint(chains, v);
    forall u {
      PrependNeighbours(chains, v, u);
    }
  }

  lemma Appended(chains: seq<seq<Value>>, v: Value)
    requires Disjoint(chains) && chains != [] && !Listed(chains, v)
    ensures var r := Append(chains, v); r != [] && Disjoint(r) && r[0] == chains[0] + [v]
    ensures forall u :: Listed(Append(chains, v), u) <==> u == v || Listed(chains, u)
    ensures forall u :: NextOf(Append(chains, v), u) == if Last(chains[0]) == Some(u) then Some(v) else NextOf(chains, u)
    ensures forall u :: PrevOf(Append(chains, v), u) == if u == v then Last(chains[0]) else PrevOf(chains, u)
  {
    AppendDisjoint(chains, v);
    forall u {
      AppendNeighbours(chains, v, u);
    }
  }

  lemma NeighboursListed(chains: seq<seq<Value>>)
    requires Disjoint(chains)
    ensures forall u :: NextOf(chains, u).Some? ==> Listed(chains, u) && Listed(chains, NextOf(chains, u).value)
    ensures forall u :: PrevOf(chains, u).Some? ==> Listed(chains, u) && Listed(chains, PrevOf(chains, u).value)
    ensures forall u :: NextOf(chains, u) != Some(u) && PrevOf(chains, u) != Some(u)
    ensures chains != [] && chains[0] != [] ==>
              Listed(chains, chains[0][0]) && Listed(chains, chains[0][|chains[0]| - 1])
    ensures chains != [] && Last(chains[0]).Some? ==> NextOf(chains, Last(chains[0]).value) == None
  {
    forall u {
      InMapping(chains, u);
    }
    if chains != [] && chains[0] != [] {
      InChain(chains, 0, chains[0][0]);
      InChain(chains, 0, chains[0][|chains[0]| - 1]);
      PrevIffNext(chains[0], Last(chains[0]).value, chains[0][0]);
    }
  }

  lemma InMapping(chains: seq<seq<Value>>, v: Value)
    requires Disjoint(chains)
    ensures NextOf(chains, v).Some? ==> Listed(chains, NextOf(chains, v).value)
    ensures PrevOf(chains, v).Some? ==> Listed(chains, PrevOf(chains, v).value)
    ensures NextOf(chains, v) != Some(v) && PrevOf(chains, v) != Some(v)
  {
    if Listed(chains, v) {
      PrevIffNext(chains[ChainOf(chains, v)], v, v);
    }
    if NextOf(chains, v).Some? {
      InChain(chains, ChainOf(chains, v), NextOf(chains, v).value);
    }
    if PrevOf(chains, v).Some? {
      InChain(chains, ChainOf(chains, v), PrevOf(chains, v).value);
    }
  }

  // ---------- The operations as functions ----------

  /** One change of the index; it is emitted unless it is silent. */
  datatype Change = Change(insert: bool, value: Value, silent: bool)

  datatype Ttl = Ttl(chains: seq<seq<Value>>, time: map<Value, int>, changes: seq<Change>, timer: Option<int>)
  {
    function Live(): seq<Value> {
      if chains == [] then [] else chains[0]
    }
  }

  const EMPTY := Ttl([[]], map[], [], None)

  /** `scheduleCheck`: the timer is due when the head expires, and at once if it has. */
  function Schedule(s: Ttl, now: int, ttl: int): Ttl {
    var live := s.Live();
    if live == [] || live[0] !in s.time then s.(timer := None)
    else
      var left := ttl - (now - s.time[live[0]]);
      s.(timer := Some(now + if left < 0 then 0 else left))
  }

  function Bumped(s: Ttl, v: Value, t: int, silent: bool): Ttl {
    if v in s.time then
      s.(chains := [[v]] + Unlink(s.chains, v), time := s.time[v := t])
    else
      s.(chains := Append(s.chains, v), time := s.time[v := t],
         changes := s.changes + [Change(true, v, silent)])
  }

  /** A time of 0 counts as missing. */
  function AfterBump(s: Ttl, v: Value, time: int, now: int, silent: bool, ttl: int): Ttl {
    Schedule(Bumped(s, v, if time != 0 then time else now, silent), now, ttl)
  }

  function AfterDrop(s: Ttl, v: Value, silent: bool): Ttl {
    if v in s.time then
      s.(chains := Unlink(s.chains, v), time := s.time - {v},
         changes := s.changes + [Change(false, v, silent)])
    else s
  }

  predicate Expired(s: Ttl, v: Value, now: int, ttl: int) {
    v in s.time && now - s.time[v] > ttl
  }

  function Expire(s: Ttl, now: int, ttl: int): Ttl
    decreases |s.time|
  {
    var live := s.Live();
    if live != [] && Expired(s, live[0], now, ttl) then Expire(AfterDrop(s, live[0], false), now, ttl) else s
  }

  function AfterCheck(s: Ttl, now: int, ttl: int): Ttl {
    Schedule(Expire(s, now, ttl), now, ttl)
  }

  // ---------- The class ----------

  class TTLItem {
    const value: Value
    var time: int
    var prev: TTLItem?
    var next: TTLItem?

    constructor (value: Value, time: int, prev: TTLItem?, next: TTLItem?)
      ensures this.value == value && this.time == time && this.prev == prev && this.next == next
    {
      this.value, this.time, this.prev, this.next := value, time, prev, next;
    }
  }

  class TTLSet {
    const ttl: int
    var head: TTLItem?
    var tail: TTLItem?
    var mapping: map<Value, TTLItem>
    var timer: Option<int>
    var emitted: seq<Event>
    ghost var chains: seq<seq<Value>>
    ghost var times: map<Value, int>
    ghost var changes: seq<Change>

    ghost function Node(v: Option<Value>): TTLItem?
      reads this`mapping
    {
      if v.Some? && v.value in mapping then mapping[v.value] else null
    }

    /** The items are linked both ways as the chains say, an item that is in no chain
        to nothing, and `head` and `tail` are the two ends of the first chain. */
    ghost predicate Linked()
      reads this`chains, this`mapping, this`head, this`tail, mapping.Values`prev, mapping.Values`next
    {
      && chains != [] && Disjoint(chains)
      && (forall v | Listed(chains, v) :: v in mapping)
      && (forall v | v in mapping ::
            && mapping[v].value == v
            && mapping[v].prev == Node(PrevOf(chains, v))
            && mapping[v].next == Node(NextOf(chains, v)))
      && head == Node(First(chains[0]))
      && tail == Node(Last(chains[0]))
    }

    ghost predicate Stamped()
      reads this`mapping, this`times, mapping.Values`time
    {
      && (forall v :: v in times <==> v in mapping)
      && (forall v | v in mapping :: mapping[v].time == times[v])
    }

    /** The chains partition the items of the index. */
    ghost predicate Valid()
      reads this`chains, this`mapping, this`head, this`tail, this`times, this`emitted, this`changes
      reads mapping.Values`prev, mapping.Values`next, mapping.Values`time
    {
      && Linked()
      && (forall v | v in mapping :: Listed(chains, v))
      && Stamped()
      && emitted == Emitted(changes)
    }

    ghost function State(): Ttl
      reads this`chains, this`times, this`changes, this`timer
    {
      Ttl(chains, times, changes, timer)
    }

    constructor (ttl: int)
      ensures Valid() && State() == EMPTY && this.ttl == ttl && fresh(mapping.Values)
    {
      this.ttl := ttl;
      head, tail, mapping, timer, emitted := null, null, map[], None, [];
      chains, times, changes := [[]], map[], [];
    }

    /** What the head says about the first value of the live chain. */
    lemma HeadIsFirst()
      requires Valid()
      ensures chains != [] && (head == null <==> chains[0] == [])
      ensures head != null ==>
                head.value == chains[0][0] && head.value in mapping && mapping[head.value] == head
                && head.value in times && head.time == times[head.value]
    {
      hide NextOf, PrevOf, ChainOf, Listed, Disjoint, Emitted;
      NeighboursListed(chains);
    }

    method ScheduleCheck(now: int)
      requires Valid()
      modifies this`timer
      ensures Valid() && State() == Schedule(old(State()), now, ttl)
    {
      hide Linked, Stamped, Emitted;
      HeadIsFirst();
      timer := None;
      if head != null {
        var left := ttl - (now - head.time);
        timer := Some(now + if left < 0 then 0 else left);
      }
    }

    method Bump(v: Value, time: int, now: int, silent: bool)
      requires Valid()
      modifies this, mapping.Values
      ensures Valid() && fresh(mapping.Values - old(mapping.Values))
      ensures State() == AfterBump(old(State()), v, time, now, silent, ttl)
    {
      hide NextOf, PrevOf, ChainOf, Listed, Disjoint, Unlink, Append, NextWithout, PrevWithout;
      hide Linked, Stamped, Pending, Schedule, Emitted;
      ghost var known := v in mapping;
      var item := TakeOrCreate(v, silent);
      Stamp(item, if time != 0 then time else now);
      Attach(item, known);
      assert State() == Bumped(old(State()), v, if time != 0 then time else now, silent);
      ScheduleCheck(now);
    }

    /** `this.remove(this.mapping[value]) || this.create(value, this.tail, flags)` */
    method TakeOrCreate(v: Value, silent: bool) returns (item: TTLItem)
      requires Valid()
      modifies this`head, this`tail, this`chains, this`mapping, this`emitted, this`changes
      modifies mapping.Values`prev, mapping.Values`next
      ensures Pending(v, v in old(mapping)) && mapping[v] == item && emitted == Emitted(changes)
      ensures forall u :: Listed(chains, u) <==> u != v && Listed(old(chains), u)
      ensures fresh(mapping.Values - old(mapping.Values))
      ensures forall u | u in mapping :: mapping[u].value == u && (u != v ==> u in times && mapping[u].time == times[u])
      ensures forall u :: u in mapping <==> u == v || u in times
      ensures v in old(mapping) <==> v in times
      ensures if v in old(mapping) then
                && mapping == old(mapping) && chains == Unlink(old(chains), v) && changes == old(changes)
              else
                && fresh(item) && mapping == old(mapping)[v := item]
                && chains == old(chains) && changes == old(changes) + [Change(true, v, silent)]
    {
      hide NextOf, PrevOf, ChainOf, Listed, Disjoint, Unlink, Append, NextWithout, PrevWithout;
      if v in mapping {
        item := mapping[v];
        Unlinked(chains, v);
        Remove(item);
      } else {
        item := Create(v, tail, silent);
      }
    }

    /** `v` is mapped but in no chain; its item points to the tail unless it is an old one. */
    ghost predicate Pending(v: Value, known: bool)
      reads this`chains, this`mapping, this`head, this`tail, mapping.Values`prev, mapping.Values`next
    {
      && chains != [] && Disjoint(chains) && !Listed(chains, v) && v in mapping
      && (forall u | Listed(chains, u) :: u in mapping)
      && (forall u | u in mapping ::
            && mapping[u].value == u
            && (u != v ==> mapping[u].prev == Node(PrevOf(chains, u)))
            && mapping[u].next == Node(NextOf(chains, u)))
      && mapping[v].prev == (if known then null else Node(Last(chains[0])))
      && head == Node(First(chains[0])) && tail == Node(Last(chains[0]))
    }

    /** The end of `bump`: the item becomes the tail, behind its `prev` or as the head. */
    method Attach(item: TTLItem, ghost known: bool)
      requires Pending(item.value, known) && mapping[item.value] == item
      requires forall u | u in mapping && u != item.value :: Listed(chains, u)
      modifies this`head, this`tail, this`chains, mapping.Values`next
      ensures Linked() && chains == if known then [[item.value]] + old(chains) else Append(old(chains), item.value)
      ensures forall u | u in mapping :: Listed(chains, u)
    {
      hide NextOf, PrevOf, ChainOf, Listed, Disjoint, Unlink, Append;
      NeighboursListed(chains);
      tail := item;
      if item.prev != null {
        item.prev.next := item;
      } else {
        head := item;
      }
      if known {
        PrependRewires(item.value);
      } else {
        AppendRewires(item.value);
      }
    }

    method Stamp(item: TTLItem, t: int)
      requires item.value in mapping && mapping[item.value] == item
      requires forall u :: u in mapping <==> u == item.value || u in times
      requires forall u | u in mapping ::
                 mapping[u].value == u && (u != item.value ==> mapping[u].time == times[u])
      modifies this`times, item`time
      ensures Stamped() && times == old(times)[item.value := t]
    {
      item.time := t;
      times := times[item.value := t];
    }

    method Create(v: Value, prev: TTLItem?, silent: bool) returns (item: TTLItem)
      requires Valid() && v !in mapping && prev == tail
      modifies this`mapping, this`emitted, this`changes
      ensures fresh(item) && mapping == old(mapping)[v := item]
      ensures mapping.Values == old(mapping.Values) + {item}
      ensures Pending(v, false) && emitted == Emitted(changes)
      ensures changes == old(changes) + [Change(true, v, silent)]
    {
      hide Emitted;
      hide NextOf, PrevOf, ChainOf, Listed, Disjoint, Unlink, Append;
      NeighboursListed(chains);
      item := new TTLItem(v, 0, prev, null);
      PutValues(mapping, v, item);
      mapping := mapping[v := item];
      Log(true, v, silent);
    }

    /** The change of the index is logged, and emitted unless it is silent. */
    method Log(insert: bool, v: Value, silent: bool)
      requires emitted == Emitted(changes)
      modifies this`emitted, this`changes
      ensures emitted == Emitted(changes) && changes == old(changes) + [Change(insert, v, silent)]
    {
      if !silent {
        emitted := emitted + [(insert, v)];
      }
      changes := changes + [Change(insert, v, silent)];
      assert changes[..|changes| - 1] == old(changes);
    }

    ghost method PrependRewires(v: Value)
      requires chains != [] && Disjoint(chains) && !Listed(chains, v) && v in mapping
      requires forall u | Listed(chains, u) :: u in mapping
      requires forall u | u in mapping :: mapping[u].value == u
      requires forall u | u in mapping ::
                 mapping[u].prev == Node(PrevOf(chains, u)) && mapping[u].next == Node(NextOf(chains, u))
      requires head == mapping[v] == tail
      modifies this`chains
      ensures Linked() && chains == [[v]] + old(chains)
      ensures forall u :: Listed(chains, u) <==> u == v || Listed(old(chains), u)
    {
      hide NextOf, PrevOf, ChainOf, Listed, Disjoint, Unlink, Append;
      Prepended(chains, v);
      chains := [[v]] + chains;
    }

    ghost method AppendRewires(v: Value)
      requires chains != [] && Disjoint(chains) && !Listed(chains, v) && v in mapping
      requires forall u | Listed(chains, u) :: u in mapping
      requires forall u | u in mapping :: mapping[u].value == u
      requires forall u | u in mapping ::
                 && mapping[u].prev == Node(if u == v then Last(chains[0]) else PrevOf(chains, u))
                 && mapping[u].next == Node(if Last(chains[0]) == Some(u) then Some(v) else NextOf(chains, u))
      requires head == Node(First(chains[0] + [v])) && tail == mapping[v]
      modifies this`chains
      ensures Linked() && chains == Append(old(chains), v)
      ensures forall u :: Listed(chains, u) <==> u == v || Listed(old(chains), u)
    {
      hide NextOf, PrevOf, ChainOf, Listed, Disjoint, Unlink, Append;
      Appended(chains, v);
      chains := Append(chains, v);
    }

    method Drop(v: Value, silent: bool)
      requires Valid()
      modifies this, mapping.Values
      ensures Valid() && mapping.Values <= old(mapping.Values)
      ensures State() == AfterDrop(old(State()), v, silent)
    {
      hide NextOf, PrevOf, ChainOf, Listed, Disjoint, Unlink, Append, NextWithout, PrevWithout;
      if v in mapping {
        DropItem(mapping[v], silent);
      }
    }

    method DropItem(item: TTLItem, silent: bool)
      requires Valid() && item.value in mapping && mapping[item.value] == item
      modifies this, mapping.Values
      ensures Valid() && mapping.Values <= old(mapping.Values)
      ensures State() == AfterDrop(old(State()), item.value, silent)
    {
      hide Emitted;
      hide NextOf, PrevOf, ChainOf, Listed, Disjoint, Unlink, Append, NextWithout, PrevWithout;
      ghost var v := item.value;
      Unlinked(chains, v);
      Remove(item);
      DeleteEntry(item.value);
      times := times - {v};
      Log(false, item.value, silent);
    }

    /** `delete this.mapping[v]`, once its item is out of the chains. */
    method DeleteEntry(v: Value)
      requires Linked() && !Listed(chains, v)
      modifies this`mapping
      ensures Linked() && mapping == old(mapping) - {v}
    {
      hide NextOf, PrevOf, ChainOf, Listed, Disjoint, Unlink, Append;
      NeighboursListed(chains);
      mapping := mapping - {v};
    }

    method Check(now: int)
      requires Valid()
      modifies this, mapping.Values
      ensures Valid() && mapping.Values <= old(mapping.Values)
      ensures State() == AfterCheck(old(State()), now, ttl)
    {
      hide Linked, Stamped, Emitted, Schedule;
      while head != null
        invariant Valid() && mapping.Values <= old(mapping.Values)
        invariant Expire(State(), now, ttl) == Expire(old(State()), now, ttl)
        decreases |times|
      {
        HeadIsFirst();
        if now - head.time > ttl {
          DropItem(head, false);
        } else {
          break;
        }
      }
      HeadIsFirst();
      ScheduleCheck(now);
    }

    /** The pointer assignments of `remove`, on any items whose neighbours are mapped. */
    method Rewire(item: TTLItem)
      requires item in mapping.Values
      requires item.prev != null ==> item.prev in mapping.Values && item.prev != item
      requires item.next != null ==> item.next in mapping.Values && item.next != item
      modifies this`head, this`tail, mapping.Values`prev, mapping.Values`next
      ensures item.prev == null && item.next == null
      ensures forall x | x in mapping.Values && x != item ::
                && x.next == (if x == old(item.prev) then old(item.next) else old(x.next))
                && x.prev == (if x == old(item.next) then old(item.prev) else old(x.prev))
      ensures head == if item == old(head) then old(item.next) else old(head)
      ensures tail == if item == old(tail) then old(item.prev) else old(tail)
    {
      if item.prev != null {
        item.prev.next := item.next;
      }
      if item.next != null {
        item.next.prev := item.prev;
      }
      if item == head {
        head := item.next;
      }
      if item == tail {
        tail := item.prev;
      }
      item.next := null;
      item.prev := null;
    }

    method Remove(item: TTLItem)
      requires Linked() && item.value in mapping && mapping[item.value] == item && Listed(chains, item.value)
      modifies this`head, this`tail, this`chains, mapping.Values`prev, mapping.Values`next
      ensures Linked() && chains == Unlink(old(chains), item.value)
      ensures item.prev == null && item.next == null
    {
      hide NextOf, PrevOf, ChainOf, Listed, Disjoint, Unlink, Append;
      ghost var v, before := item.value, chains;
      ghost var p, n := PrevOf(chains, v), NextOf(chains, v);
      NeighboursListed(chains);
      assert item.prev == Node(p) && item.next == Node(n);
      Rewire(item);
      forall u | u in mapping
        ensures mapping[u].prev == Node(PrevWithout(before, v, u))
        ensures mapping[u].next == Node(NextWithout(before, v, u))
      {
        NeighboursMatch(before, u, v);
        NeighboursMatch(before, v, u);
        assert mapping[u] in mapping.Values;
        assert mapping[u] == old(item.prev) <==> p == Some(u);
        assert mapping[u] == old(item.next) <==> n == Some(u);
      }
      UnlinkRewires(v);
    }

    /** The links after `v` has been taken out of `chains`, whose neighbours now meet. */
    ghost predicate Rewired(chains: seq<seq<Value>>, v: Value)
      reads this`mapping, this`head, this`tail, mapping.Values`prev, mapping.Values`next
    {
      && chains != [] && Disjoint(chains)
      && (forall u | u in mapping ::
            && mapping[u].value == u
            && mapping[u].prev == Node(PrevWithout(chains, v, u))
            && mapping[u].next == Node(NextWithout(chains, v, u)))
      && head == Node(if First(chains[0]) == Some(v) then NextOf(chains, v) else First(chains[0]))
      && tail == Node(if Last(chains[0]) == Some(v) then PrevOf(chains, v) else Last(chains[0]))
    }

    ghost method UnlinkRewires(v: Value)
      requires Rewired(chains, v) && forall u | Listed(chains, u) :: u in mapping
      modifies this`chains
      ensures Linked() && chains == Unlink(old(chains), v)
    {
      hide NextOf, PrevOf, ChainOf, Listed, Disjoint, Unlink, Append, NextWithout, PrevWithout;
      Unlinked(chains, v);
      chains := Unlink(chains, v);
    }
  }

  function Emitted(changes: seq<Change>): seq<Event> {
    if changes == [] then []
    else
      var c := changes[|changes| - 1];
      Emitted(changes[..|changes| - 1]) + if c.silent then [] else [(c.insert, c.value)]
  }
}
