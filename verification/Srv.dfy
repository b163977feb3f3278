/** SRV record ordering: priority groups in order, and in each group weighted random
    picks without replacement (RFC 2782, "The format of the SRV RR"). */
module Srv {

  datatype Record = Record(name: int, port: nat, priority: nat, weight: nat)

  /** What `Math.random` returns. */
  type Draw = r: real | 0.0 <= r < 1.0

  /** `Math.random() * sum` */
  function Scaled(d: Draw, sum: nat): (rand: real)
    ensures 0.0 <= rand && (sum > 0 ==> rand < sum as real)
  {
    d * sum as real
  }

  // ---------- Sorting, as `Array.sort` does it: stable ----------

  function Insert(r: Record, sorted: seq<Record>, key: Record -> int): (s: seq<Record>)
    ensures multiset(s) == multiset(sorted) + multiset{r}
  {
    if sorted == [] || key(r) <= key(sorted[0]) then
      assert [r] + sorted == [r] + sorted;
      [r] + sorted
    else
      assert sorted == [sorted[0]] + sorted[1..];
      [sorted[0]] + Insert(r, sorted[1..], key)
  }

  function SortBy(records: seq<Record>, key: Record -> int): (s: seq<Record>)
    ensures multiset(s) == multiset(records)
  {
    if records == [] then []
    else
      assert records == [records[0]] + records[1..];
      Insert(records[0], SortBy(records[1..], key), key)
  }

  ghost predicate SortedBy(s: seq<Record>, key: Record -> int) {
    forall i, j | 0 <= i < j < |s| :: key(s[i]) <= key(s[j])
  }

  lemma {:induction false} InsertSorted(r: Record, sorted: seq<Record>, key: Record -> int)
    requires SortedBy(sorted, key)
    ensures SortedBy(Insert(r, sorted, key), key)
    ensures sorted != [] ==> key(Insert(r, sorted, key)[0]) == if key(r) <= key(sorted[0]) then key(r) else key(sorted[0])
  {
    if sorted != [] && key(r) > key(sorted[0]) {
      InsertSorted(r, sorted[1..], key);
    }
  }

  lemma {:induction false} SortByIsSorted(records: seq<Record>, key: Record -> int)
    ensures SortedBy(SortBy(records, key), key)
  {
    if records != [] {
      SortByIsSorted(records[1..], key);
      InsertSorted(records[0], SortBy(records[1..], key), key);
    }
  }

  function PriorityKey(): Record -> int {
    (r: Record) => r.priority
  }

  function DescendingWeightKey(): Record -> int {
    (r: Record) => var w: int := r.weight; -w
  }

  // ---------- Weighted picks ----------

  function Weight(records: seq<Record>): nat {
    if records == [] then 0 else Weight(records[..|records| - 1]) + records[|records| - 1].weight
  }

  function Positive(records: seq<Record>): seq<Record> {
    if records == [] then []
    else
      var rest, r := Positive(records[..|records| - 1]), records[|records| - 1];
      if r.weight > 0 then rest + [r] else rest
  }

  /** The first index whose running total exceeds `rand`, or the length if there is none. */
  function Chosen(records: seq<Record>, rand: real, n: nat): (i: nat)
    requires n <= |records|
    ensures n <= i <= |records|
    decreases |records| - n
  {
    if n == |records| || rand < Weight(records[..n + 1]) as real then n else Chosen(records, rand, n + 1)
  }

  function Cut(records: seq<Record>, i: nat): seq<Record>
    requires i < |records|
  {
    records[..i] + records[i + 1..]
  }

  lemma {:induction false} WeightConcat(a: seq<Record>, b: seq<Record>)
    ensures Weight(a + b) == Weight(a) + Weight(b)
    ensures Positive(a + b) == Positive(a) + Positive(b)
  {
    if b == [] {
      assert a + b == a;
    } else {
      assert (a + b)[..|a + b| - 1] == a + b[..|b| - 1];
      WeightConcat(a, b[..|b| - 1]);
    }
  }

  lemma CutWeight(records: seq<Record>, i: nat)
    requires i < |records|
    ensures Weight(Cut(records, i)) == Weight(records) - records[i].weight
    ensures multiset(Positive(records)) ==
            multiset(Positive(Cut(records, i))) + if records[i].weight > 0 then multiset{records[i]} else multiset{}
    ensures Weight(records[..i + 1]) == Weight(records[..i]) + records[i].weight <= Weight(records)
  {
    var a, r, b := records[..i], [records[i]], records[i + 1..];
    assert records == (a + r) + b;
    assert records[..i + 1] == a + r;
    WeightConcat(a, r);
    WeightConcat(a + r, b);
    WeightConcat(a, b);
    assert r[..0] == [];
  }

  /** The picks of one group, and the draws they take: one each, and one more. The
      running `sum` is always the total weight that remains. */
  function Pick(records: seq<Record>, sum: nat, draws: nat -> Draw, k: nat): (picked: seq<Record>)
    requires sum == Weight(records)
    decreases |records|
  {
    var i := Chosen(records, Scaled(draws(k), sum), 0);
    if i == |records| then []
    else
      CutWeight(records, i);
      [records[i]] + Pick(Cut(records, i), sum - records[i].weight, draws, k + 1)
  }

  /** A draw chooses a record exactly when it falls into that record's share of the
      total weight, in the order of the records. */
  lemma {:induction false} ChosenExactlyInShare(records: seq<Record>, rand: real, n: nat, i: nat)
    requires n <= i < |records| && Weight(records[..n]) as real <= rand
    ensures Chosen(records, rand, n) == i
       <==> Weight(records[..i]) as real <= rand < Weight(records[..i + 1]) as real
    decreases |records| - n
  {
    WeightGrows(records, n + 1, i + 1);
    if rand >= Weight(records[..n + 1]) as real {
      if n < i {
        ChosenExactlyInShare(records, rand, n + 1, i);
      }
    } else if n < i {
      WeightGrows(records, n + 1, i);
    }
  }

  lemma {:induction false} WeightGrows(records: seq<Record>, m: nat, n: nat)
    requires m <= n <= |records|
    ensures Weight(records[..m]) <= Weight(records[..n])
  {
    if m < n {
      WeightGrows(records, m, n - 1);
      assert records[..n][..n - 1] == records[..n - 1];
    }
  }

  lemma {:induction false} ChosenSpec(records: seq<Record>, rand: real, n: nat)
    requires n <= |records| && Weight(records[..n]) as real <= rand
    ensures var i := Chosen(records, rand, n);
            if i == |records| then Weight(records) as real <= rand
            else Weight(records[..i]) as real <= rand < Weight(records[..i + 1]) as real && records[i].weight > 0
    decreases |records| - n
  {
    assert records[..|records|] == records;
    if n < |records| {
      assert records[..n + 1][..n] == records[..n];
      if rand >= Weight(records[..n + 1]) as real {
        ChosenSpec(records, rand, n + 1);
      }
    }
  }

  lemma {:induction false} NoWeightNoPositive(records: seq<Record>)
    ensures Weight(records) == 0 <==> Positive(records) == []
  {
    if records != [] {
      NoWeightNoPositive(records[..|records| - 1]);
    }
  }

  /** Whatever the draws, the picks are exactly the records of positive weight. */
  lemma {:induction false} PickIsShuffle(records: seq<Record>, draws: nat -> Draw, k: nat)
    ensures multiset(Pick(records, Weight(records), draws, k)) == multiset(Positive(records))
    decreases |records|
  {
    hide Chosen, Positive, Weight, Scaled;
    var sum := Weight(records);
    var i := Chosen(records, Scaled(draws(k), sum), 0);
    FirstChoice(records, draws(k));
    PickUnfolds(records, draws, k);
    if i < |records| {
      var rest := Cut(records, i);
      CutWeight(records, i);
      PickIsShuffle(rest, draws, k + 1);
    }
  }

  lemma PickUnfolds(records: seq<Record>, draws: nat -> Draw, k: nat)
    ensures var i := Chosen(records, Scaled(draws(k), Weight(records)), 0);
            Pick(records, Weight(records), draws, k) ==
              if i == |records| then []
              else [records[i]] + Pick(Cut(records, i), Weight(Cut(records, i)), draws, k + 1)
  {
    hide Scaled, Weight, Chosen;
    var i := Chosen(records, Scaled(draws(k), Weight(records)), 0);
    if i < |records| {
      CutWeight(records, i);
    }
  }

  /** The choice a draw makes among all records. */
  predicate Picks(records: seq<Record>, d: Draw, i: nat) {
    Chosen(records, Scaled(d, Weight(records)), 0) == i
  }

  lemma FirstChoice(records: seq<Record>, d: Draw)
    ensures var i := Chosen(records, Scaled(d, Weight(records)), 0);
            if i == |records| then Positive(records) == [] else records[i].weight > 0
  {
    hide Scaled;
    assert records[..0] == [];
    ChosenSpec(records, Scaled(d, Weight(records)), 0);
    NoWeightNoPositive(records);
  }

  lemma WeightNil()
    ensures Weight([]) == 0
  {
  }

  lemma Ratio(a: nat, b: nat)
    requires a < b
    ensures 0.0 <= a as real / b as real < 1.0 && Scaled(a as real / b as real, b) == a as real
  {
  }

  /** Every record of positive weight, and no other, can be the first pick. */
  lemma FirstPickExactlyPositive(records: seq<Record>, i: nat)
    requires i < |records|
    ensures records[i].weight > 0 <==> exists d: Draw :: Picks(records, d, i)
  {
    hide Scaled, Weight;
    var sum := Weight(records);
    CutWeight(records, i);
    if records[i].weight > 0 {
      var share := Weight(records[..i]);
      Ratio(share, sum);
      var d: Draw := share as real / sum as real;
      assert records[..0] == [];
      assert Weight([]) == 0 by { WeightNil(); }
      ChosenExactlyInShare(records, share as real, 0, i);
      assert Picks(records, d, i);
    } else {
      forall d: Draw ensures !Picks(records, d, i) {
        FirstChoice(records, d);
      }
    }
  }

  // ---------- Groups ----------

  /** The accumulator of `reduce`: a record joins the last group or opens the next. */
  function Groups(sorted: seq<Record>): (groups: seq<seq<Record>>)
    ensures forall g | 0 <= g < |groups| :: groups[g] != []
  {
    if sorted == [] then []
    else
      var acc, r := Groups(sorted[..|sorted| - 1]), sorted[|sorted| - 1];
      Joined(acc, r)
  }

  function Joined(acc: seq<seq<Record>>, r: Record): (groups: seq<seq<Record>>)
    requires forall g | 0 <= g < |acc| :: acc[g] != []
    ensures forall g | 0 <= g < |groups| :: groups[g] != []
  {
    if acc != [] && acc[|acc| - 1][0].priority == r.priority
    then acc[|acc| - 1 := acc[|acc| - 1] + [r]]
    else acc + [[r]]
  }

  function Flatten(groups: seq<seq<Record>>): seq<Record> {
    if groups == [] then [] else Flatten(groups[..|groups| - 1]) + groups[|groups| - 1]
  }

  /** One priority in each group, growing from group to group. */
  ghost predicate Tiered(groups: seq<seq<Record>>) {
    && (forall g | 0 <= g < |groups| :: groups[g] != [])
    && (forall g, i | 0 <= g < |groups| && 0 <= i < |groups[g]| :: groups[g][i].priority == groups[g][0].priority)
    && (forall g, h | 0 <= g < h < |groups| :: groups[g][0].priority < groups[h][0].priority)
  }

  lemma JoinedTiered(acc: seq<seq<Record>>, r: Record)
    requires Tiered(acc) && (acc != [] ==> acc[|acc| - 1][0].priority <= r.priority)
    ensures Tiered(Joined(acc, r))
    ensures var groups := Joined(acc, r); groups != [] && groups[|groups| - 1][0].priority == r.priority
  {
  }

  lemma JoinedFlatten(acc: seq<seq<Record>>, r: Record)
    requires forall g | 0 <= g < |acc| :: acc[g] != []
    ensures Flatten(Joined(acc, r)) == Flatten(acc) + [r]
  {
    hide Flatten;
    var groups := Joined(acc, r);
    if acc != [] && acc[|acc| - 1][0].priority == r.priority {
      var init, last := acc[..|acc| - 1], acc[|acc| - 1];
      FlattenSnoc(init, last + [r]);
      assert groups == init + [last + [r]] && acc == init + [last];
      FlattenSnoc(init, last);
      assert Flatten(init) + (last + [r]) == (Flatten(init) + last) + [r];
    } else {
      FlattenSnoc(acc, [r]);
    }
  }

  lemma FlattenSnoc(groups: seq<seq<Record>>, g: seq<Record>)
    ensures Flatten(groups + [g]) == Flatten(groups) + g
  {
  }

  /** Grouping keeps the sorted records and separates the priorities. */
  lemma {:induction false} GroupsTiered(sorted: seq<Record>)
    requires SortedBy(sorted, PriorityKey())
    ensures Tiered(Groups(sorted)) && Flatten(Groups(sorted)) == sorted
    ensures var groups := Groups(sorted);
            sorted != [] ==> groups != [] && groups[|groups| - 1][0].priority == sorted[|sorted| - 1].priority
  {
    hide Tiered, Flatten, Groups, SortedBy;
    GroupsUnfold(sorted);
    if sorted != [] {
      var n := |sorted| - 1;
      var acc, r := Groups(sorted[..n]), sorted[n];
      assert sorted == sorted[..n] + [r];
      LastIsLargest(sorted);
      GroupsTiered(sorted[..n]);
      GroupsUnfold(sorted[..n]);
      JoinedTiered(acc, r);
      JoinedFlatten(acc, r);
    }
  }

  lemma GroupsUnfold(sorted: seq<Record>)
    ensures if sorted == [] then Groups(sorted) == [] && Tiered([]) && Flatten([]) == []
            else Groups(sorted) == Joined(Groups(sorted[..|sorted| - 1]), sorted[|sorted| - 1])
  {
  }

  lemma LastIsLargest(sorted: seq<Record>)
    requires SortedBy(sorted, PriorityKey()) && sorted != []
    ensures SortedBy(sorted[..|sorted| - 1], PriorityKey())
    ensures |sorted| > 1 ==> sorted[|sorted| - 2].priority <= sorted[|sorted| - 1].priority
  {
    if |sorted| > 1 {
      assert PriorityKey()(sorted[|sorted| - 2]) <= PriorityKey()(sorted[|sorted| - 1]);
    }
  }

  // ---------- The whole ordering ----------

  function Shuffled(group: seq<Record>, draws: nat -> Draw, k: nat): seq<Record> {
    var sorted := SortBy(group, DescendingWeightKey());
    Pick(sorted, Weight(sorted), draws, k)
  }

  /** Each group takes the draws after those of the groups before it. */
  function ShuffledAll(groups: seq<seq<Record>>, draws: nat -> Draw, k: nat): seq<Record> {
    if groups == [] then []
    else
      var picked := Shuffled(groups[0], draws, k);
      picked + ShuffledAll(groups[1..], draws, k + |picked| + 1)
  }

  function Sorted(records: seq<Record>, draws: nat -> Draw): seq<Record> {
    ShuffledAll(Groups(SortBy(records, PriorityKey())), draws, 0)
  }

  lemma {:induction false} PositiveBag(a: seq<Record>, r: Record)
    ensures multiset(Positive(a))[r] == if r.weight > 0 then multiset(a)[r] else 0
  {
    if a != [] {
      assert a == a[..|a| - 1] + [a[|a| - 1]];
      PositiveBag(a[..|a| - 1], r);
    }
  }

  lemma PositiveSameBag(a: seq<Record>, b: seq<Record>)
    requires multiset(a) == multiset(b)
    ensures multiset(Positive(a)) == multiset(Positive(b))
  {
    forall r ensures multiset(Positive(a))[r] == multiset(Positive(b))[r] {
      PositiveBag(a, r);
      PositiveBag(b, r);
    }
  }

  lemma ShuffledBag(group: seq<Record>, draws: nat -> Draw, k: nat)
    ensures multiset(Shuffled(group, draws, k)) == multiset(Positive(group))
    ensures forall r | r in Shuffled(group, draws, k) :: r in group
  {
    var sorted := SortBy(group, DescendingWeightKey());
    PickIsShuffle(sorted, draws, k);
    PositiveSameBag(sorted, group);
    forall r | r in Shuffled(group, draws, k) ensures r in group {
      assert multiset(Shuffled(group, draws, k))[r] > 0;
      PositiveBag(group, r);
    }
  }

  lemma {:induction false} FlattenCons(groups: seq<seq<Record>>)
    requires groups != []
    ensures Flatten(groups) == groups[0] + Flatten(groups[1..])
  {
    if |groups| > 1 {
      var init := groups[..|groups| - 1];
      FlattenCons(init);
      assert groups[1..][..|groups| - 2] == init[1..];
    }
  }

  lemma ShuffledAllUnfolds(groups: seq<seq<Record>>, draws: nat -> Draw, k: nat)
    ensures ShuffledAll(groups, draws, k) ==
            if groups == [] then []
            else
              var picked := Shuffled(groups[0], draws, k);
              picked + ShuffledAll(groups[1..], draws, k + |picked| + 1)
  {
  }

  lemma SameBags(a: seq<Record>, b: seq<Record>, c: seq<Record>, d: seq<Record>)
    requires multiset(a) == multiset(c) && multiset(b) == multiset(d)
    ensures multiset(a + b) == multiset(c + d)
  {
  }

  lemma {:induction false} ShuffledAllBag(groups: seq<seq<Record>>, draws: nat -> Draw, k: nat)
    ensures multiset(ShuffledAll(groups, draws, k)) == multiset(Positive(Flatten(groups)))
  {
    hide ShuffledAll, Shuffled, Positive, Flatten;
    ShuffledAllUnfolds(groups, draws, k);
    if groups == [] {
      NothingSorted();
    } else {
      var rest, picked := groups[1..], Shuffled(groups[0], draws, k);
      var tail := ShuffledAll(rest, draws, k + |picked| + 1);
      ShuffledBag(groups[0], draws, k);
      ShuffledAllBag(rest, draws, k + |picked| + 1);
      FlattenCons(groups);
      WeightConcat(groups[0], Flatten(rest));
      SameBags(picked, tail, Positive(groups[0]), Positive(Flatten(rest)));
    }
  }

  lemma {:induction false} ShuffledAllOrdered(groups: seq<seq<Record>>, draws: nat -> Draw, k: nat)
    requires Tiered(groups)
    ensures SortedBy(ShuffledAll(groups, draws, k), PriorityKey())
    ensures forall r | r in ShuffledAll(groups, draws, k) :: groups != [] && r.priority >= groups[0][0].priority
  {
    hide Positive, Shuffled, ShuffledAll, SortedBy;
    ShuffledAllUnfolds(groups, draws, k);
    if groups == [] {
      NothingSorted();
    } else {
      var rest := groups[1..];
      var picked := Shuffled(groups[0], draws, k);
      var tail := ShuffledAll(rest, draws, k + |picked| + 1);
      ShuffledBag(groups[0], draws, k);
      ShuffledAllOrdered(rest, draws, k + |picked| + 1);
      forall r | r in picked ensures r.priority == groups[0][0].priority {
        var i :| 0 <= i < |groups[0]| && groups[0][i] == r;
      }
      assert forall r | r in tail :: r.priority > groups[0][0].priority;
      SortedConcat(picked, tail, groups[0][0].priority);
    }
  }

  lemma NothingSorted()
    ensures SortedBy([], PriorityKey()) && Positive(Flatten([])) == []
  {
  }

  lemma SortedConcat(a: seq<Record>, b: seq<Record>, p: nat)
    requires (forall r | r in a :: r.priority == p) && (forall r | r in b :: r.priority > p)
    requires SortedBy(b, PriorityKey())
    ensures SortedBy(a + b, PriorityKey())
  {
  }

  lemma PositiveIsAll(records: seq<Record>)
    ensures multiset(Positive(records)) == multiset(records) <==> forall r | r in records :: r.weight > 0
  {
    forall r ensures multiset(Positive(records))[r] == if r.weight > 0 then multiset(records)[r] else 0 {
      PositiveBag(records, r);
    }
    if r :| r in records && r.weight == 0 {
      assert multiset(records)[r] > 0;
    } else {
      forall r ensures multiset(Positive(records))[r] == multiset(records)[r] {
        assert multiset(records)[r] > 0 ==> r in records;
      }
    }
  }

  /** For every sequence of draws the output is a permutation of exactly the records of
      positive weight, in order of priority; so it is a permutation of the input
      exactly when no record has weight zero. */
  lemma SortOrders(records: seq<Record>, draws: nat -> Draw)
    ensures var out := Sorted(records, draws);
            && multiset(out) == multiset(Positive(records))
            && (forall i, j | 0 <= i < j < |out| :: out[i].priority <= out[j].priority)
            && (multiset(out) == multiset(records) <==> forall r | r in records :: r.weight > 0)
  {
    hide Positive, Groups, ShuffledAll, Flatten;
    var sorted := SortBy(records, PriorityKey());
    var out := Sorted(records, draws);
    SortByIsSorted(records, PriorityKey());
    GroupsTiered(sorted);
    ShuffledAllOrdered(Groups(sorted), draws, 0);
    ShuffledAllBag(Groups(sorted), draws, 0);
    PositiveSameBag(sorted, records);
    PositiveIsAll(records);
    forall i, j | 0 <= i < j < |out| ensures out[i].priority <= out[j].priority {
      assert PriorityKey()(out[i]) <= PriorityKey()(out[j]);
    }
  }

  // ---------- Every ordering is possible ----------

  lemma {:induction false} PickDependsOn(records: seq<Record>, draws: nat -> Draw, other: nat -> Draw, k: nat)
    requires forall n: nat | n >= k :: draws(n) == other(n)
    ensures Pick(records, Weight(records), draws, k) == Pick(records, Weight(records), other, k)
    decreases |records|
  {
    hide Scaled, Weight, Chosen, Pick;
    PickUnfolds(records, draws, k);
    PickUnfolds(records, other, k);
    var i := Chosen(records, Scaled(draws(k), Weight(records)), 0);
    if i < |records| {
      PickDependsOn(Cut(records, i), draws, other, k + 1);
    }
  }

  lemma TakenOut(s: seq<Record>, i: nat)
    requires i < |s|
    ensures multiset(Cut(s, i)) == multiset(s) - multiset{s[i]} && multiset(s)[s[i]] > 0
  {
    assert s == s[..i] + [s[i]] + s[i + 1..];
  }

  lemma HeadOut(s: seq<Record>)
    requires s != []
    ensures multiset(s[1..]) == multiset(s) - multiset{s[0]} && multiset(s)[s[0]] > 0
  {
    TakenOut(s, 0);
    assert Cut(s, 0) == s[1..];
  }

  /** For each order of the records of positive weight there are draws that pick it. */
  lemma {:induction false} AnyOrderCanBePicked(records: seq<Record>, out: seq<Record>, k: nat)
    returns (draws: nat -> Draw)
    requires multiset(out) == multiset(Positive(records))
    ensures Pick(records, Weight(records), draws, k) == out
    decreases |records|
  {
    hide Scaled, Weight, Chosen, Pick, Positive;
    if out == [] {
      draws := n => 0.0;
      NothingPicked(records, draws, k);
    } else {
      var r := out[0];
      HeadOut(out);
      PositiveBag(records, r);
      var i :| 0 <= i < |records| && records[i] == r;
      FirstPickExactlyPositive(records, i);
      var d: Draw :| Picks(records, d, i);
      CutWeight(records, i);
      var rest := AnyOrderCanBePicked(Cut(records, i), out[1..], k + 1);
      draws := (n: nat) => if n == k then d else rest(n);
      PickDependsOn(Cut(records, i), draws, rest, k + 1);
      PickUnfolds(records, draws, k);
    }
  }

  lemma NothingPicked(records: seq<Record>, draws: nat -> Draw, k: nat)
    requires multiset(Positive(records)) == multiset{}
    ensures Pick(records, Weight(records), draws, k) == []
  {
    PickIsShuffle(records, draws, k);
  }

  lemma ShuffledDependsOn(group: seq<Record>, draws: nat -> Draw, other: nat -> Draw, k: nat)
    requires forall n: nat | k <= n <= k + |Shuffled(group, draws, k)| :: draws(n) == other(n)
    ensures Shuffled(group, draws, k) == Shuffled(group, other, k)
  {
    var sorted := SortBy(group, DescendingWeightKey());
    PickNeeds(sorted, draws, other, k);
  }

  /** The picks of a group depend on as many draws as there are picks, and one more. */
  lemma {:induction false} PickNeeds(records: seq<Record>, draws: nat -> Draw, other: nat -> Draw, k: nat)
    requires forall n: nat | k <= n <= k + |Pick(records, Weight(records), draws, k)| :: draws(n) == other(n)
    ensures Pick(records, Weight(records), draws, k) == Pick(records, Weight(records), other, k)
    decreases |records|
  {
    hide Scaled, Weight, Chosen, Pick;
    PickUnfolds(records, draws, k);
    PickUnfolds(records, other, k);
    var i := Chosen(records, Scaled(draws(k), Weight(records)), 0);
    if i < |records| {
      PickNeeds(Cut(records, i), draws, other, k + 1);
    }
  }

  lemma {:induction false} AllDependsOn(groups: seq<seq<Record>>, draws: nat -> Draw, other: nat -> Draw, k: nat)
    requires forall n: nat | n >= k :: draws(n) == other(n)
    ensures ShuffledAll(groups, draws, k) == ShuffledAll(groups, other, k)
  {
    hide ShuffledAll, Shuffled;
    ShuffledAllUnfolds(groups, draws, k);
    ShuffledAllUnfolds(groups, other, k);
    if groups != [] {
      ShuffledDependsOn(groups[0], draws, other, k);
      AllDependsOn(groups[1..], draws, other, k + |Shuffled(groups[0], draws, k)| + 1);
    }
  }

  lemma HeadIsLowest(out: seq<Record>, a: seq<Record>, b: seq<Record>, p: nat) returns (i: nat)
    requires multiset(out) == multiset(a) + multiset(b) && a != []
    requires (forall r | r in a :: r.priority == p) && (forall r | r in b :: r.priority > p)
    requires forall i, j | 0 <= i < j < |out| :: out[i].priority <= out[j].priority
    ensures out != [] && i < |a| && a[i] == out[0]
  {
    assert multiset(out)[a[0]] > 0;
    assert a[0] in out;
    var j :| 0 <= j < |out| && out[j] == a[0];
    assert multiset(out)[out[0]] > 0;
    assert out[0].priority <= p;
    assert multiset(b)[out[0]] == 0;
    assert out[0] in a;
    i :| 0 <= i < |a| && a[i] == out[0];
  }

  lemma BagMinus(a: multiset<Record>, b: multiset<Record>, r: Record)
    requires a[r] > 0
    ensures (a + b) - multiset{r} == (a - multiset{r}) + b
  {
  }

  /** In a list in order of priority, what has the lowest priority is in front. */
  lemma {:induction false} LowestInFront(out: seq<Record>, a: seq<Record>, b: seq<Record>, p: nat)
    returns (front: seq<Record>, back: seq<Record>)
    requires multiset(out) == multiset(a) + multiset(b)
    requires (forall r | r in a :: r.priority == p) && (forall r | r in b :: r.priority > p)
    requires forall i, j | 0 <= i < j < |out| :: out[i].priority <= out[j].priority
    ensures out == front + back && multiset(front) == multiset(a) && multiset(back) == multiset(b)
    decreases |a|
  {
    if a == [] {
      front, back := [], out;
    } else {
      var i := HeadIsLowest(out, a, b, p);
      TakenOut(a, i);
      HeadOut(out);
      BagMinus(multiset(a), multiset(b), out[0]);
      forall r | r in Cut(a, i) ensures r.priority == p {
        assert r in a;
      }
      front, back := LowestInFront(out[1..], Cut(a, i), b, p);
      OneMore(out[0], front, a, i);
      front := [out[0]] + front;
    }
  }

  lemma OneMore(r: Record, front: seq<Record>, a: seq<Record>, i: nat)
    requires i < |a| && a[i] == r && multiset(front) == multiset(Cut(a, i))
    ensures multiset([r] + front) == multiset(a)
  {
    TakenOut(a, i);
  }

  lemma {:induction false} AnyOrderOfGroups(groups: seq<seq<Record>>, out: seq<Record>, k: nat)
    returns (draws: nat -> Draw)
    requires Tiered(groups) && multiset(out) == multiset(Positive(Flatten(groups)))
    requires forall i, j | 0 <= i < j < |out| :: out[i].priority <= out[j].priority
    ensures ShuffledAll(groups, draws, k) == out
  {
    hide ShuffledAll, Shuffled, Positive, Flatten;
    if groups == [] {
      NothingSorted();
      draws := n => 0.0;
      ShuffledAllUnfolds(groups, draws, k);
    } else {
      var first, rest := groups[0], groups[1..];
      FlattenCons(groups);
      WeightConcat(first, Flatten(rest));
      GroupPriorities(groups);
      var front, back := LowestInFront(out, Positive(first), Positive(Flatten(rest)), first[0].priority);
      BackOrdered(out, front, back);
      var mine := AnyOrderOfGroup(first, front, k);
      var theirs := AnyOrderOfGroups(rest, back, k + |front| + 1);
      draws := OneAfterTheOther(groups, front, mine, theirs, k);
    }
  }

  lemma BackOrdered(out: seq<Record>, front: seq<Record>, back: seq<Record>)
    requires out == front + back && forall i, j | 0 <= i < j < |out| :: out[i].priority <= out[j].priority
    ensures forall i, j | 0 <= i < j < |back| :: back[i].priority <= back[j].priority
  {
    assert forall i | 0 <= i < |back| :: back[i] == out[|front| + i];
  }

  lemma OneAfterTheOther(groups: seq<seq<Record>>, out: seq<Record>, mine: nat -> Draw, theirs: nat -> Draw, k: nat)
    returns (draws: nat -> Draw)
    requires groups != [] && Shuffled(groups[0], mine, k) == out
    ensures ShuffledAll(groups, draws, k) == out + ShuffledAll(groups[1..], theirs, k + |out| + 1)
  {
    hide ShuffledAll, Shuffled;
    draws := (i: nat) => if i <= k + |out| then mine(i) else theirs(i);
    ShuffledDependsOn(groups[0], mine, draws, k);
    AllDependsOn(groups[1..], draws, theirs, k + |out| + 1);
    ShuffledAllUnfolds(groups, draws, k);
  }

  lemma AnyOrderOfGroup(group: seq<Record>, out: seq<Record>, k: nat) returns (draws: nat -> Draw)
    requires multiset(out) == multiset(Positive(group))
    ensures Shuffled(group, draws, k) == out
  {
    var sorted := SortBy(group, DescendingWeightKey());
    PositiveSameBag(sorted, group);
    draws := AnyOrderCanBePicked(sorted, out, k);
  }

  lemma {:induction false} PositiveIn(records: seq<Record>)
    ensures forall r | r in Positive(records) :: r in records
  {
    if records != [] {
      PositiveIn(records[..|records| - 1]);
    }
  }

  lemma {:induction false} FlattenedIn(groups: seq<seq<Record>>, r: Record)
    requires r in Flatten(groups)
    ensures exists g :: 0 <= g < |groups| && r in groups[g]
  {
    if r in groups[|groups| - 1] {
      assert r in groups[|groups| - 1];
    } else {
      FlattenedIn(groups[..|groups| - 1], r);
    }
  }

  lemma GroupPriorities(groups: seq<seq<Record>>)
    requires Tiered(groups) && groups != []
    ensures forall r | r in Positive(groups[0]) :: r.priority == groups[0][0].priority
    ensures forall r | r in Positive(Flatten(groups[1..])) :: r.priority > groups[0][0].priority
  {
    hide Positive, Flatten;
    PositiveIn(groups[0]);
    PositiveIn(Flatten(groups[1..]));
    forall r | r in Positive(groups[0]) ensures r.priority == groups[0][0].priority {
      var i :| 0 <= i < |groups[0]| && groups[0][i] == r;
    }
    forall r | r in Positive(Flatten(groups[1..])) ensures r.priority > groups[0][0].priority {
      FlattenedIn(groups[1..], r);
      var g :| 0 <= g < |groups[1..]| && r in groups[1..][g];
      var i :| 0 <= i < |groups[g + 1]| && groups[g + 1][i] == r;
    }
  }

  /** The orderings that some sequence of draws gives are exactly the permutations of the
      records of positive weight that are in order of priority: each draw serves one pick. */
  lemma OrderingsExactly(records: seq<Record>, out: seq<Record>)
    ensures (exists draws: nat -> Draw :: Sorted(records, draws) == out)
       <==> && multiset(out) == multiset(Positive(records))
            && forall i, j | 0 <= i < j < |out| :: out[i].priority <= out[j].priority
  {
    hide ShuffledAll, Groups, Positive, Flatten;
    if draws: nat -> Draw :| Sorted(records, draws) == out {
      SortOrders(records, draws);
    }
    if multiset(out) == multiset(Positive(records))
       && forall i, j | 0 <= i < j < |out| :: out[i].priority <= out[j].priority {
      var sorted := SortBy(records, PriorityKey());
      SortByIsSorted(records, PriorityKey());
      GroupsTiered(sorted);
      PositiveSameBag(sorted, records);
      var draws := AnyOrderOfGroups(Groups(sorted), out, 0);
      assert Sorted(records, draws) == out;
    }
  }

  // ---------- How the sorts break ties, and who is picked first ----------

  function WithKey(records: seq<Record>, key: Record -> int, x: int): seq<Record> {
    if records == [] then []
    else (if key(records[0]) == x then [records[0]] else []) + WithKey(records[1..], key, x)
  }

  lemma WithKeyCons(r: Record, rest: seq<Record>, key: Record -> int, x: int)
    ensures WithKey([r] + rest, key, x) == (if key(r) == x then [r] else []) + WithKey(rest, key, x)
  {
    assert ([r] + rest)[1..] == rest;
  }

  lemma {:induction false} InsertStable(r: Record, sorted: seq<Record>, key: Record -> int, x: int)
    requires SortedBy(sorted, key)
    ensures WithKey(Insert(r, sorted, key), key, x) == (if key(r) == x then [r] else []) + WithKey(sorted, key, x)
  {
    hide WithKey;
    if sorted != [] && key(r) > key(sorted[0]) {
      var first, rest := sorted[0], sorted[1..];
      assert sorted == [first] + rest;
      InsertStable(r, rest, key, x);
      WithKeyCons(first, rest, key, x);
      WithKeyCons(first, Insert(r, rest, key), key, x);
    } else {
      WithKeyCons(r, sorted, key, x);
    }
  }

  /** The sort is stable: records with equal keys keep their order. */
  lemma {:induction false} SortByIsStable(records: seq<Record>, key: Record -> int, x: int)
    ensures WithKey(SortBy(records, key), key, x) == WithKey(records, key, x)
  {
    if records != [] {
      SortByIsStable(records[1..], key, x);
      SortByIsSorted(records[1..], key);
      InsertStable(records[0], SortBy(records[1..], key), key, x);
    }
  }

  /** In a group the shares of the draw are laid out by descending weight, ties in the
      group's order: a draw picks the record into whose share it falls. */
  lemma FirstPickByRank(group: seq<Record>, draws: nat -> Draw, k: nat) returns (ranked: seq<Record>)
    ensures multiset(ranked) == multiset(group)
    ensures forall i, j | 0 <= i < j < |ranked| :: ranked[i].weight >= ranked[j].weight
    ensures forall w: int :: WithKey(ranked, DescendingWeightKey(), w) == WithKey(group, DescendingWeightKey(), w)
    ensures forall i | 0 <= i < |ranked| ::
              Weight(ranked[..i]) as real <= draws(k) * Weight(group) as real < Weight(ranked[..i + 1]) as real ==>
                Shuffled(group, draws, k) != [] && Shuffled(group, draws, k)[0] == ranked[i]
  {
    hide Chosen, Weight, SortBy, WithKey, Scaled, Pick;
    ranked := SortBy(group, DescendingWeightKey());
    SortByIsSorted(group, DescendingWeightKey());
    forall i, j | 0 <= i < j < |ranked| ensures ranked[i].weight >= ranked[j].weight {
      assert DescendingWeightKey()(ranked[i]) <= DescendingWeightKey()(ranked[j]);
    }
    forall w: int { SortByIsStable(group, DescendingWeightKey(), w); }
    SameWeight(ranked, group);
    forall i |
      0 <= i < |ranked|
      && Weight(ranked[..i]) as real <= draws(k) * Weight(group) as real < Weight(ranked[..i + 1]) as real
      ensures Shuffled(group, draws, k) != [] && Shuffled(group, draws, k)[0] == ranked[i]
    {
      ShareIsPicked(ranked, draws, k, i);
    }
  }

  lemma ShareIsPicked(records: seq<Record>, draws: nat -> Draw, k: nat, i: nat)
    requires i < |records|
    requires Weight(records[..i]) as real <= draws(k) * Weight(records) as real < Weight(records[..i + 1]) as real
    ensures var picked := Pick(records, Weight(records), draws, k); picked != [] && picked[0] == records[i]
  {
    hide Chosen, Weight, Pick;
    PickUnfolds(records, draws, k);
    assert records[..0] == [];
    assert Weight([]) == 0 by { WeightNil(); }
    ChosenExactlyInShare(records, Scaled(draws(k), Weight(records)), 0, i);
  }

  lemma {:induction false} SameWeight(a: seq<Record>, b: seq<Record>)
    requires multiset(a) == multiset(b)
    ensures Weight(a) == Weight(b)
    decreases |a|
  {
    if a == [] {
      assert |multiset(b)| == 0;
      assert b == [];
    } else {
      hide Weight;
      HeadOut(a);
      assert a[0] in multiset(b);
      var i :| 0 <= i < |b| && b[i] == a[0];
      TakenOut(b, i);
      CutWeight(b, i);
      CutWeight(a, 0);
      assert Cut(a, 0) == a[1..];
      SameWeight(a[1..], Cut(b, i));
    }
  }

  // ---------- The functions as the source runs them ----------

  /** The language's own sort, in place: it is stable. */
  method SortInPlace(records: array<Record>, key: Record -> int)
    modifies records
    ensures records[..] == SortBy(old(records[..]), key)
  {
    hide SortBy;
    var sorted := SortBy(records[..], key);
    SameLength(sorted, records[..]);
    for i := 0 to records.Length
      invariant records[..i] == sorted[..i]
    {
      records[i] := sorted[i];
    }
    assert records[..] == records[..records.Length] && sorted[..records.Length] == sorted;
  }

  lemma SameLength(a: seq<Record>, b: seq<Record>)
    requires multiset(a) == multiset(b)
    ensures |a| == |b|
  {
    assert |multiset(a)| == |multiset(b)|;
  }

  method GroupByPriority(records: array<Record>) returns (acc: seq<seq<Record>>)
    modifies records
    ensures records[..] == SortBy(old(records[..]), PriorityKey())
    ensures acc == Groups(records[..])
  {
    hide SortBy;
    SortInPlace(records, PriorityKey());
    ghost var sorted := records[..];
    acc := [];
    for i := 0 to records.Length
      invariant records[..] == sorted && acc == Groups(sorted[..i])
    {
      assert sorted[..i + 1][..i] == sorted[..i];
      var record := records[i];
      if |acc| > 0 {
        var last := acc[|acc| - 1];
        if last[0].priority != record.priority {
          acc := acc + [[record]];
        } else {
          acc := acc[|acc| - 1 := last + [record]];
        }
      } else {
        acc := acc + [[record]];
      }
    }
    assert sorted[..records.Length] == sorted;
  }

  method PickAll(records: seq<Record>, sum: nat, draws: nat -> Draw, k: nat) returns (picked: seq<Record>)
    requires sum == Weight(records)
    ensures picked == Pick(records, sum, draws, k)
    decreases |records|
  {
    hide Scaled, Pick;
    var rand := Scaled(draws(k), sum);
    PickUnfolds(records, draws, k);
    var counter := 0;
    for i := 0 to |records|
      invariant counter == Weight(records[..i])
      invariant Chosen(records, rand, 0) == Chosen(records, rand, i)
    {
      assert records[..i + 1][..i] == records[..i];
      counter := counter + records[i].weight;
      if rand < counter as real {
        CutWeight(records, i);
        var rest := PickAll(records[..i] + records[i + 1..], sum - records[i].weight, draws, k + 1);
        return [records[i]] + rest;
      }
    }
    return [];
  }

  method ShuffleWeighted(records: seq<Record>, draws: nat -> Draw, k: nat) returns (picked: seq<Record>)
    ensures picked == Shuffled(records, draws, k)
  {
    var sorted := SortBy(records, DescendingWeightKey());
    picked := PickAll(sorted, Weight(sorted), draws, k);
  }

  lemma ShuffledAllFrom(groups: seq<seq<Record>>, i: nat, draws: nat -> Draw, k: nat)
    requires i <= |groups|
    ensures ShuffledAll(groups[i..], draws, k) ==
            if i == |groups| then []
            else
              var picked := Shuffled(groups[i], draws, k);
              picked + ShuffledAll(groups[i + 1..], draws, k + |picked| + 1)
  {
    hide ShuffledAll, Shuffled;
    ShuffledAllUnfolds(groups[i..], draws, k);
    if i < |groups| {
      assert groups[i..][1..] == groups[i + 1..];
    }
  }

  /** The caller's records end up sorted by priority; the result is the new ordering. */
  method Sort(records: array<Record>, draws: nat -> Draw) returns (out: seq<Record>)
    modifies records
    ensures records[..] == SortBy(old(records[..]), PriorityKey())
    ensures out == Sorted(old(records[..]), draws)
  {
    hide ShuffledAll, Shuffled, SortBy, Groups;
    ghost var given := records[..];
    var groups := GroupByPriority(records);
    out := [];
    var k: nat := 0;
    for i := 0 to |groups|
      invariant records[..] == SortBy(given, PriorityKey())
      invariant out + ShuffledAll(groups[i..], draws, k) == Sorted(given, draws)
    {
      ShuffledAllFrom(groups, i, draws, k);
      var picked := ShuffleWeighted(groups[i], draws, k);
      out := out + picked;
      k := k + |picked| + 1;
    }
    ShuffledAllFrom(groups, |groups|, draws, k);
  }
}
