/** Length-delimited framing: a base-128 varint length, then the payload.

    The encoder and the incremental decoder are modelled on the numbers the
    source computes with: shifts go through ECMAScript's ToInt32, so a length
    prefix may come out negative, and `Buffer.slice` counts a negative index
    from the end. Nothing is excluded by a precondition. */
module Framing {

  type byte = n: int | 0 <= n < 256

  const TWO_31 := 0x8000_0000
  const TWO_32 := 0x1_0000_0000

  // ---------- ECMAScript arithmetic ----------

  /** The number in [-2^31, 2^31) that is congruent to `n` modulo 2^32. */
  function ToInt32(n: int): (r: int)
    ensures -TWO_31 <= r < TWO_31
    ensures n >= 0 ==> r <= n
    decreases if n < 0 then -n else n + 1
  {
    if n < -TWO_31 then ToInt32(n + TWO_32)
    else if n >= TWO_31 then ToInt32(n - TWO_32)
    else n
  }

  function Pow2(k: nat): (p: nat)
    ensures p >= 1
  {
    if k == 0 then 1 else 2 * Pow2(k - 1)
  }

  /** `n << k`: the shift count is taken modulo 32, the result is an int32. */
  function ShiftLeft(n: int, k: nat): int {
    ToInt32(n * Pow2(k % 32))
  }

  /** `n >> 7`: arithmetic shift of the int32 value of `n`. */
  function ShiftRight7(n: int): (r: int)
    ensures n > 0 ==> r < n
    ensures 0 <= n < TWO_31 ==> r == n / 128
    ensures r < TWO_31 / 128
  {
    ToInt32(n) / 128
  }

  /** The offset `Buffer.slice` uses for index `k` in a buffer of `n` bytes. */
  function SliceIndex(k: int, n: nat): (i: nat)
    ensures i <= n
  {
    if k < 0 then (if n + k < 0 then 0 else n + k) else if k < n then k else n
  }

  // ---------- The decoder as a function ----------

  /** The four fields of the decoder. */
  datatype Decoder = Decoder(length: int, index: nat, reading: bool, buffer: seq<byte>) {
    /** The decoder with more input behind what it already buffers. */
    function Append(b: seq<byte>): Decoder {
      this.(buffer := buffer + b)
    }

    /** The decoder with its input cut down to the first `m` bytes. */
    function Take(m: nat): Decoder
      requires m <= |buffer|
    {
      this.(buffer := buffer[..m])
    }

    /** The loop has nothing to do: no input, or an unfinished body. */
    predicate Resting() {
      buffer == [] || (!reading && length > |buffer|)
    }

    /** One turn of the loop in the length prefix. */
    function ReadPrefixByte(): Decoder
      requires reading && buffer != []
    {
      var b := buffer[0];
      var length' := length + ShiftLeft(b % 128, 7 * index);
      if b >= 128 then Decoder(length', index + 1, true, buffer[1..])
      else Decoder(length', 0, false, buffer[1..])
    }

    /** Where the body ends in the buffer, once all of it is there. */
    function Cut(): (c: nat)
      ensures c <= |buffer|
    {
      SliceIndex(length, |buffer|)
    }

    /** One turn of the loop in a complete body. */
    function ReadBody(): Decoder
      requires !reading && length <= |buffer|
    {
      Decoder(0, index, true, buffer[Cut()..])
    }
  }

  const FRESH := Decoder(0, 0, true, [])

  /** One turn of the loop, and what it pushes. A body step may consume nothing, hence
      the second way of getting smaller. */
  function Turn(d: Decoder): (r: (Decoder, seq<seq<byte>>))
    requires !d.Resting()
    ensures |r.0.buffer| < |d.buffer| || (|r.0.buffer| == |d.buffer| && !d.reading && r.0.reading)
  {
    if d.reading then (d.ReadPrefixByte(), []) else (d.ReadBody(), [d.buffer[..d.Cut()]])
  }

  /** Runs the loop to its end: the state it leaves and the frames it pushes. */
  function Drain(d: Decoder): (r: (Decoder, seq<seq<byte>>))
    ensures r.0.Resting()
    decreases |d.buffer|, if d.reading then 0 else 1
  {
    if d.Resting() then (d, [])
    else
      var (d1, f1) := Turn(d);
      var (d2, f2) := Drain(d1);
      (d2, f1 + f2)
  }

  lemma DrainTurn(d: Decoder)
    ensures if d.Resting() then Drain(d) == (d, [])
            else Drain(d) == (Drain(Turn(d).0).0, Turn(d).1 + Drain(Turn(d).0).1)
  {
  }

  function Feed(d: Decoder, chunk: seq<byte>): (Decoder, seq<seq<byte>>) {
    Drain(d.Append(chunk))
  }

  function FeedAll(d: Decoder, chunks: seq<seq<byte>>): (Decoder, seq<seq<byte>>)
    decreases |chunks|
  {
    if chunks == [] then (d, [])
    else
      var (d1, f1) := Feed(d, chunks[0]);
      var (d2, f2) := FeedAll(d1, chunks[1..]);
      (d2, f1 + f2)
  }

  function Join(chunks: seq<seq<byte>>): seq<byte> {
    if chunks == [] then [] else chunks[0] + Join(chunks[1..])
  }

  // ---------- When chunking matters ----------

  /** The next turn would cut the buffer from its end. */
  predicate CutsFromEnd(d: Decoder) {
    !d.Resting() && !d.reading && d.length < 0 && |d.buffer| + d.length > 0
  }

  /** Every length prefix in the input that decodes to a negative number -k has at
      most k bytes behind it. Prefixes below 2^31 are never negative. */
  predicate Uncut(d: Decoder)
    decreases |d.buffer|, if d.reading then 0 else 1
  {
    d.Resting() || (!CutsFromEnd(d) && Uncut(Turn(d).0))
  }

  lemma TurnAppend(d: Decoder, b: seq<byte>)
    requires !d.Resting() && !CutsFromEnd(d.Append(b))
    ensures !d.Append(b).Resting() && Turn(d.Append(b)) == (Turn(d).0.Append(b), Turn(d).1)
  {
    hide ShiftLeft, ToInt32;
    var e := d.Append(b);
    if d.reading {
      assert e.buffer[1..] == d.buffer[1..] + b;
    } else {
      assert e.Cut() == d.Cut();
      assert e.buffer[..d.Cut()] == d.buffer[..d.Cut()] && e.buffer[d.Cut()..] == d.buffer[d.Cut()..] + b;
    }
  }

  lemma {:induction false} DrainAppend(d: Decoder, b: seq<byte>)
    requires Uncut(d.Append(b))
    ensures var (d1, f1) := Drain(d);
            var (d2, f2) := Drain(d1.Append(b));
            Uncut(d1.Append(b)) && Drain(d.Append(b)) == (d2, f1 + f2)
    decreases |d.buffer|, if d.reading then 0 else 1
  {
    hide Turn, CutsFromEnd;
    var e := d.Append(b);
    if d.Resting() {
      assert [] + Drain(e).1 == Drain(e).1;
    } else {
      hide Decoder.Resting;
      TurnAppend(d, b);
      var (d', f) := Turn(d);
      DrainAppend(d', b);
      var (d1, f1) := Drain(d');
      var (d2, f2) := Drain(d1.Append(b));
      assert f + (f1 + f2) == (f + f1) + f2;
    }
  }

  lemma {:induction false} FeedAllIsFeed(d: Decoder, chunks: seq<seq<byte>>)
    requires d.Resting() && Uncut(d.Append(Join(chunks)))
    ensures FeedAll(d, chunks) == Feed(d, Join(chunks))
    decreases |chunks|
  {
    hide ShiftLeft, ToInt32, Pow2;
    if chunks == [] {
      assert d.Append([]) == d;
    } else {
      var rest := Join(chunks[1..]);
      var e := d.Append(chunks[0]);
      assert d.Append(Join(chunks)) == e.Append(rest);
      DrainAppend(e, rest);
      FeedAllIsFeed(Drain(e).0, chunks[1..]);
    }
  }

  lemma TurnTake(e: Decoder, k: nat)
    requires !e.Resting() && !CutsFromEnd(e) && 0 < k <= |Turn(e).0.buffer|
    ensures var m := k + |e.buffer| - |Turn(e).0.buffer|;
            0 < m <= |e.buffer| && !e.Take(m).Resting() && Turn(e.Take(m)) == (Turn(e).0.Take(k), Turn(e).1)
  {
    hide ShiftLeft, ToInt32;
    var m := k + |e.buffer| - |Turn(e).0.buffer|;
    var p := e.Take(m);
    if e.reading {
      assert p.buffer[1..] == e.buffer[1..][..k];
    } else {
      assert p.Cut() == e.Cut();
      assert p.buffer[..e.Cut()] == e.buffer[..e.Cut()] && p.buffer[e.Cut()..] == e.buffer[e.Cut()..][..k];
    }
  }

  /** If the input is not `Uncut`, some first part of it makes the decoder push
      frames that the whole input does not start with. */
  lemma {:induction false} CutShows(e: Decoder) returns (m: nat)
    requires !Uncut(e)
    ensures 0 < m <= |e.buffer|
    ensures !(Drain(e.Take(m)).1 <= Drain(e).1)
    decreases |e.buffer|, if e.reading then 0 else 1
  {
    if CutsFromEnd(e) {
      m := 1;
      assert Drain(e.Take(1)).1[0] == [];
      assert Drain(e).1[0] != [];
    } else {
      hide Turn, CutsFromEnd;
      var (e', f) := Turn(e);
      var k := CutShows(e');
      m := k + |e.buffer| - |e'.buffer|;
      TurnTake(e, k);
      var some, all := Drain(e'.Take(k)).1, Drain(e').1;
      assert (f + some)[|f|..] == some && (f + all)[|f|..] == all;
    }
  }

  /** Every way of chunking `input` gives what feeding it whole gives, if and only
      if no negative length prefix has more bytes behind it than its magnitude. */
  lemma ChunkingDoesNotMatterExactlyWhen(d: Decoder, input: seq<byte>)
    requires d.Resting()
    ensures Uncut(d.Append(input))
       <==> forall chunks | Join(chunks) == input :: FeedAll(d, chunks) == Feed(d, input)
  {
    hide ShiftLeft, ToInt32, Pow2;
    if Uncut(d.Append(input)) {
      forall chunks | Join(chunks) == input
        ensures FeedAll(d, chunks) == Feed(d, input)
      {
        FeedAllIsFeed(d, chunks);
      }
    } else {
      var chunks := ChunkingShows(d, input);
      assert Join(chunks) == input;
    }
  }

  lemma ChunkingShows(d: Decoder, input: seq<byte>) returns (chunks: seq<seq<byte>>)
    requires d.Resting() && !Uncut(d.Append(input))
    ensures Join(chunks) == input && FeedAll(d, chunks) != Feed(d, input)
  {
    hide ShiftLeft, ToInt32, Pow2, Turn, Uncut;
    var e := d.Append(input);
    var m := CutShows(e);
    if m < |d.buffer| {
      assert false;
    }
    var a, b := input[..m - |d.buffer|], input[m - |d.buffer|..];
    assert e.Take(m) == d.Append(a);
    chunks := [a, b];
    var none: seq<seq<byte>> := [];
    assert chunks[1..] == [b] && [b][1..] == none;
    assert Join([b]) == b + Join(none) == b;
    assert Join(chunks) == a + Join([b]) == input;
    var (d1, f1) := Feed(d, a);
    assert FeedAll(d, chunks).1 == f1 + FeedAll(d1, [b]).1;
    assert f1 <= FeedAll(d, chunks).1;
  }

  /** The five-byte prefix FF FF FF FF 0F decodes to -1, and then the bytes 2 and 1
      make one frame when they come together, and not when they are split. */
  lemma NegativePrefixExample()
    ensures var prefix: seq<byte> := [0xff, 0xff, 0xff, 0xff, 0x0f];
            && Feed(FRESH, prefix + [2, 1]).1 == [[2]]
            && FeedAll(FRESH, [prefix + [2], [1]]).1 == [[]]
  {
    PrefixMinusOne([2, 1]);
    var none: seq<seq<byte>> := [];
    var whole := Decoder(-1, 0, false, [2, 1]);
    assert whole.buffer[..whole.Cut()] == [2] && whole.ReadBody() == FRESH.Append([1]);
    LastByte(1);
    assert Drain(whole).1 == [[2]] + none;
    NegativePrefixSplit();
  }

  lemma NegativePrefixSplit()
    ensures FeedAll(FRESH, [[0xff, 0xff, 0xff, 0xff, 0x0f] + [2], [1]]).1 == [[]]
  {
    PrefixMinusOne([2]);
    var none: seq<seq<byte>> := [];
    var first: seq<byte> := [0xff, 0xff, 0xff, 0xff, 0x0f] + [2];
    var part := Decoder(-1, 0, false, [2]);
    assert part.buffer[..part.Cut()] == [] && part.ReadBody() == FRESH.Append([2]);
    LastByte(2);
    var d1 := Decoder(2, 0, false, []);
    assert Feed(FRESH, first) == (d1, [[]] + none);
    assert d1.Append([1]).Resting();
    assert [first, [1]][1..] == [[1]] && [[1]][1..] == none;
    assert FeedAll(d1, [[1]]).1 == none + none;
  }

  lemma LastByte(b: byte)
    requires 0 < b < 128
    ensures Drain(FRESH.Append([b])) == (Decoder(b, 0, false, []), [])
  {
    assert Pow2(0) == 1;
    var d, e := FRESH.Append([b]), Decoder(b, 0, false, []);
    var none: seq<seq<byte>> := [];
    assert Turn(d) == (e, none);
    assert none + none == none;
    assert Drain(e) == (e, none) && Drain(d) == (e, none + none);
  }

  lemma PrefixMinusOne(rest: seq<byte>)
    ensures Drain(FRESH.Append([0xff, 0xff, 0xff, 0xff, 0x0f] + rest)) == Drain(Decoder(-1, 0, false, rest))
  {
    hide ShiftLeft, ToInt32, Pow2, Drain, Uncut, ReadPrefix;
    OnesShifted();
    var b4: seq<byte> := [0x0f] + rest;
    assert [0xff, 0xff, 0xff, 0xff] + b4 == [0xff, 0xff, 0xff, 0xff, 0x0f] + rest;
    FourOnes(b4);
    PrefixByte(0xfff_ffff, 4, 0x0f, false, rest);
    NothingToRead(Decoder(-1, 0, false, rest));
    ReadPrefixFirst(FRESH.Append([0xff, 0xff, 0xff, 0xff] + b4));
  }

  lemma OnesShifted()
    ensures ShiftLeft(0x7f, 0) == 0x7f && ShiftLeft(0x7f, 7) == 0x3f80
    ensures ShiftLeft(0x7f, 14) == 0x1f_c000 && ShiftLeft(0x7f, 21) == 0xfe0_0000
    ensures ShiftLeft(0x0f, 28) == -0x1000_0000
  {
  }

  lemma Pow2Plus7(k: nat)
    ensures Pow2(k + 7) == 128 * Pow2(k)
  {
    assert Pow2(k + 2) == 4 * Pow2(k);
    assert Pow2(k + 4) == 4 * Pow2(k + 2);
    assert Pow2(k + 6) == 4 * Pow2(k + 4);
    assert Pow2(k + 7) == 2 * Pow2(k + 6);
  }

  // ---------- The encoder as a function ----------

  /** The length bytes. `Buffer.from` keeps each number modulo 256. */
  function EncodeLength(n: int): (bytes: seq<byte>)
    ensures bytes != []
    decreases if n < 0 then 0 else n
  {
    if n > 0x7f then [0x80 + n % 128] + EncodeLength(ShiftRight7(n))
    else [n % 256]
  }

  /** What the encoder pushes: for each payload its length bytes, then itself. */
  function Pushes(payloads: seq<seq<byte>>): seq<seq<byte>> {
    if payloads == [] then []
    else [EncodeLength(|payloads[0]|), payloads[0]] + Pushes(payloads[1..])
  }

  lemma PushesOne(p: seq<byte>)
    ensures Pushes([p]) == [EncodeLength(|p|), p]
  {
  }

  // ---------- Round trip ----------

  /** v * 128^i */
  function Weighted(v: nat, i: nat): nat {
    if i == 0 then v else 128 * Weighted(v, i - 1)
  }

  lemma {:induction false} WeightedSum(u: nat, v: nat, i: nat)
    ensures Weighted(u + v, i) == Weighted(u, i) + Weighted(v, i)
    ensures Weighted(128 * v, i) == Weighted(v, i + 1) && v <= Weighted(v, i)
  {
    if i > 0 {
      WeightedSum(u, v, i - 1);
    }
  }

  lemma {:induction false} WeightedOne(v: nat, i: nat)
    ensures Weighted(v, i) == v * Weighted(1, i)
  {
    if i > 0 {
      WeightedOne(v, i - 1);
      var w := Weighted(1, i - 1);
      assert 128 * (v * w) == v * (128 * w);
    }
  }

  lemma {:induction false} PowerIsWeight(i: nat)
    ensures Pow2(7 * i) == Weighted(1, i)
  {
    if i == 0 {
      assert Pow2(0) == 1;
    } else {
      PowerIsWeight(i - 1);
      Pow2Plus7(7 * (i - 1));
      assert 7 * (i - 1) + 7 == 7 * i;
    }
  }

  lemma WeightedIsShift(v: nat, i: nat)
    requires i <= 4
    ensures Weighted(v, i) == v * Pow2(7 * i % 32)
  {
    hide Weighted, Pow2;
    WeightedOne(v, i);
    PowerIsWeight(i);
    assert 7 * i % 32 == 7 * i;
  }

  /** One base-128 digit at position `i`, as long as the whole stays below 2^31. */
  lemma Digit(i: nat, v: nat)
    requires i <= 4 && Weighted(v, i) < TWO_31
    ensures ShiftLeft(v % 128, 7 * i) == Weighted(v % 128, i)
    ensures Weighted(v % 128, i) + Weighted(v / 128, i + 1) == Weighted(v, i)
    ensures v > 0x7f ==> i < 4 && Weighted(v / 128, i + 1) < TWO_31
    ensures ShiftRight7(v) == v / 128
  {
    var low, high := v % 128, v / 128;
    assert v == low + 128 * high;
    WeightedSum(low, 128 * high, i);
    WeightedSum(0, high, i);
    WeightedSum(0, v, i);
    WeightedIsShift(low, i);
    if v > 0x7f && i == 4 {
      WeightedSum(128, v - 128, 4);
    }
  }

  /** The loop as far as it stays in the length prefix. */
  function ReadPrefix(d: Decoder): Decoder
    decreases |d.buffer|
  {
    if d.reading && d.buffer != [] then ReadPrefix(d.ReadPrefixByte()) else d
  }

  /** The shift count is taken modulo 32, and the sum is no int32: the sixth byte of a prefix
      adds its digit times 8, and takes this length beyond 2^31. */
  lemma OverlongPrefixExample()
    ensures Drain(FRESH.Append([0xff, 0xff, 0xff, 0xff, 0x87, 0x7f])) == (Decoder(2147484663, 0, false, []), [])
  {
    hide ShiftLeft, ToInt32, Pow2, Drain, Uncut, ReadPrefix;
    var none: seq<byte> := [];
    var b: seq<byte> := [0xff, 0xff, 0xff, 0xff] + ([0x87] + ([0x7f] + none));
    assert b == [0xff, 0xff, 0xff, 0xff, 0x87, 0x7f];
    FourOnes([0x87] + ([0x7f] + none));
    SixthShifted();
    PrefixByte(0xfff_ffff, 4, 0x07, true, [0x7f] + none);
    PrefixByte(0x7fff_ffff, 5, 0x7f, false, none);
    ReadPrefixFirst(FRESH.Append(b));
    var read := Decoder(2147484663, 0, false, none);
    NothingToRead(read);
    DrainTurn(read);
  }

  lemma NothingToRead(d: Decoder)
    requires !d.reading
    ensures ReadPrefix(d) == d
  {
  }

  lemma FourOnes(rest: seq<byte>)
    ensures ReadPrefix(FRESH.Append([0xff, 0xff, 0xff, 0xff] + rest)) == ReadPrefix(Decoder(0xfff_ffff, 4, true, rest))
  {
    hide ShiftLeft, ToInt32, Pow2, ReadPrefix;
    OnesShifted();
    var b3: seq<byte> := [0xff] + rest;
    var b2: seq<byte> := [0xff] + b3;
    var b1: seq<byte> := [0xff] + b2;
    var b: seq<byte> := [0xff] + b1;
    assert b == [0xff, 0xff, 0xff, 0xff] + rest;
    PrefixByte(0, 0, 0x7f, true, b1);
    PrefixByte(0x7f, 1, 0x7f, true, b2);
    PrefixByte(0x3fff, 2, 0x7f, true, b3);
    PrefixByte(0x1f_ffff, 3, 0x7f, true, rest);
    assert FRESH.Append(b) == Decoder(0, 0, true, b);
  }

  lemma SixthShifted()
    ensures ShiftLeft(0x07, 28) == 0x7000_0000 && ShiftLeft(0x7f, 35) == 0x3f8
  {
    assert Pow2(0) == 1 && Pow2(1) == 2 && Pow2(2) == 4 && Pow2(3) == 8;
    hide Pow2;
    Pow2Plus7(0);
    Pow2Plus7(7);
    Pow2Plus7(14);
    Pow2Plus7(21);
    assert 28 % 32 == 28 && 35 % 32 == 3;
    assert 0x07 * Pow2(28) == 0x7000_0000 && 0x7f * Pow2(3) == 0x3f8;
  }

  lemma {:induction false} ReadPrefixFirst(d: Decoder)
    ensures Drain(d) == Drain(ReadPrefix(d)) && Uncut(d) == Uncut(ReadPrefix(d))
    decreases |d.buffer|
  {
    hide ShiftLeft, ToInt32, Pow2;
    if d.reading && d.buffer != [] {
      ReadPrefixFirst(d.ReadPrefixByte());
      assert [] + Drain(d.ReadPrefixByte()).1 == Drain(d.ReadPrefixByte()).1;
    }
  }

  lemma {:induction false} PrefixByte(acc: int, i: nat, digit: nat, more: bool, rest: seq<byte>)
    requires digit < 128
    ensures ReadPrefix(Decoder(acc, i, true, [if more then 0x80 + digit else digit] + rest))
         == ReadPrefix(Decoder(acc + ShiftLeft(digit, 7 * i), if more then i + 1 else 0, more, rest))
  {
  }

  /** From position `i` of a prefix, the length bytes of `v` add v * 128^i. */
  lemma {:induction false} PrefixAdds(acc: int, i: nat, v: nat, rest: seq<byte>)
    requires i <= 4 && Weighted(v, i) < TWO_31
    ensures ReadPrefix(Decoder(acc, i, true, EncodeLength(v) + rest))
         == Decoder(acc + Weighted(v, i), 0, false, rest)
    decreases v
  {
    hide ShiftLeft, ToInt32, Pow2, Drain, Uncut;
    Digit(i, v);
    var digit := Weighted(v % 128, i);
    if v > 0x7f {
      var tail := EncodeLength(v / 128);
      assert EncodeLength(v) + rest == [0x80 + v % 128] + (tail + rest);
      PrefixByte(acc, i, v % 128, true, tail + rest);
      PrefixAdds(acc + digit, i + 1, v / 128, rest);
    } else {
      assert EncodeLength(v) == [v];
      PrefixByte(acc, i, v, false, rest);
    }
  }

  lemma PrefixReads(v: nat, rest: seq<byte>)
    requires v < TWO_31
    ensures ReadPrefix(FRESH.Append(EncodeLength(v) + rest)) == Decoder(v, 0, false, rest)
  {
    assert FRESH.Append(EncodeLength(v) + rest) == Decoder(0, 0, true, EncodeLength(v) + rest);
    PrefixAdds(0, 0, v, rest);
  }

  /** ToInt32 keeps the lowest seven bits. */
  lemma {:induction false} ToInt32Low(n: int)
    ensures ToInt32(n) % 128 == n % 128
    decreases if n < 0 then -n else n + 1
  {
    if n < -TWO_31 {
      ToInt32Low(n + TWO_32);
      LowKept(n, 0x200_0000);
    } else if n >= TWO_31 {
      ToInt32Low(n - TWO_32);
      LowKept(n - TWO_32, 0x200_0000);
    }
  }

  lemma LowKept(n: int, k: int)
    ensures (n + 128 * k) % 128 == n % 128
  {
    assert n == 128 * (n / 128) + n % 128;
    assert n + 128 * k == 128 * (n / 128 + k) + n % 128;
  }

  /** What the length bytes of 2^31 or more read back as. With `t` the int32 value of the
      length: `t` itself if it is not negative; else two bytes were written, which give the
      lowest fourteen bits of `t`, and the prefix goes on if the fifteenth is set. */
  lemma LongLengthReads(n: nat)
    requires n >= TWO_31
    ensures var e, t := ReadPrefix(FRESH.Append(EncodeLength(n))), ToInt32(n);
            e == if t >= 0 then Decoder(t, 0, false, [])
                 else
                   var more := t / 128 % 256 >= 128;
                   Decoder(t % 16384, if more then 2 else 0, more, [])
  {
    var low, v := n % 128, ShiftRight7(n);
    var tail := EncodeLength(v);
    assert FRESH.Append(EncodeLength(n)) == Decoder(0, 0, true, [0x80 + low] + tail);
    FirstDigit(low);
    PrefixByte(0, 0, low, true, tail);
    assert ReadPrefix(FRESH.Append(EncodeLength(n))) == ReadPrefix(Decoder(low, 1, true, tail));
    ToInt32Low(n);
    if v >= 0 {
      MoreDigits(low, v);
    } else {
      SecondDigit(low, v % 256);
      LowBits(ToInt32(n));
    }
  }

  lemma LowBits(t: int)
    ensures t % 16384 == t % 128 + 128 * (t / 128 % 256 % 128)
  {
    assert t == 128 * (t / 128) + t % 128;
    assert t / 128 == 128 * (t / 128 / 128) + t / 128 % 128;
    assert t / 128 % 256 % 128 == t / 128 % 128;
  }

  lemma FirstDigit(low: nat)
    requires low < 128
    ensures ShiftLeft(low, 0) == low
  {
  }

  lemma MoreDigits(low: nat, v: nat)
    requires low < 128 && v < TWO_31 / 128
    ensures ReadPrefix(Decoder(low, 1, true, EncodeLength(v))) == Decoder(low + 128 * v, 0, false, [])
  {
    assert EncodeLength(v) + [] == EncodeLength(v);
    assert Weighted(v, 1) == 128 * v;
    PrefixAdds(low, 1, v, []);
  }

  lemma SecondDigit(low: nat, b: byte)
    requires low < 128
    ensures ReadPrefix(Decoder(low, 1, true, [b]))
         == Decoder(low + 128 * (b % 128), if b >= 128 then 2 else 0, b >= 128, [])
  {
    var d := Decoder(low, 1, true, [b]);
    assert Pow2(7) == 0x80 && 7 % 32 == 7;
    hide Pow2;
    assert ReadPrefix(d) == d.ReadPrefixByte();
  }

  /** The decoder reads back the length of a payload exactly when it is below 2^31. */
  lemma PrefixDecodesExactlyBelow2To31(n: nat)
    ensures Drain(FRESH.Append(EncodeLength(n))).0 == Decoder(n, 0, false, []) <==> n < TWO_31
  {
    ReadPrefixFirst(FRESH.Append(EncodeLength(n)));
    if n < TWO_31 {
      assert EncodeLength(n) + [] == EncodeLength(n);
      PrefixReads(n, []);
    } else {
      LongLengthReads(n);
    }
  }

  /** What the decoder holds after the encodings of `payloads`: a last payload that
      is empty stays pending, since the loop stops at an empty buffer. */
  function Received(payloads: seq<seq<byte>>): (Decoder, seq<seq<byte>>) {
    if payloads == [] || payloads[|payloads| - 1] != [] then (FRESH, payloads)
    else (Decoder(0, 0, false, []), payloads[..|payloads| - 1])
  }

  lemma ReceivedCons(p: seq<byte>, payloads: seq<seq<byte>>)
    requires p != [] || payloads != []
    ensures Received([p] + payloads) == (Received(payloads).0, [p] + Received(payloads).1)
  {
    var all := [p] + payloads;
    if payloads != [] {
      assert all[|all| - 1] == payloads[|payloads| - 1];
      assert all[..|all| - 1] == [p] + payloads[..|payloads| - 1];
    }
  }

  /** One encoded payload in front of `rest`. */
  lemma DrainPayload(p: seq<byte>, rest: seq<byte>)
    requires |p| < TWO_31
    ensures var d := FRESH.Append(EncodeLength(|p|) + (p + rest));
            if p + rest == [] then Drain(d) == (Decoder(0, 0, false, []), []) && Uncut(d)
            else
              && Drain(d) == (Drain(FRESH.Append(rest)).0, [p] + Drain(FRESH.Append(rest)).1)
              && Uncut(d) == Uncut(FRESH.Append(rest))
  {
    hide ShiftLeft, ToInt32, Pow2, Drain, Uncut, EncodeLength;
    PrefixReads(|p|, p + rest);
    ReadPrefixFirst(FRESH.Append(EncodeLength(|p|) + (p + rest)));
    DrainBody(p, rest);
  }

  lemma DrainBody(p: seq<byte>, rest: seq<byte>)
    ensures var e := Decoder(|p|, 0, false, p + rest);
            if p + rest == [] then Drain(e) == (e, []) && Uncut(e)
            else
              && Drain(e) == (Drain(FRESH.Append(rest)).0, [p] + Drain(FRESH.Append(rest)).1)
              && Uncut(e) == Uncut(FRESH.Append(rest))
  {
    var e := Decoder(|p|, 0, false, p + rest);
    if p + rest != [] {
      hide Drain;
      DrainTurn(e);
      assert e.Cut() == |p|;
      assert e.buffer[..|p|] == p && e.buffer[|p|..] == rest;
      assert FRESH.Append(rest) == Decoder(0, 0, true, rest);
      assert Turn(e) == (FRESH.Append(rest), [p]);
      hide Turn;
    }
  }

  lemma {:induction false} DrainEncoding(payloads: seq<seq<byte>>)
    requires forall p | p in payloads :: |p| < TWO_31
    ensures Drain(FRESH.Append(Join(Pushes(payloads)))) == Received(payloads)
    ensures Uncut(FRESH.Append(Join(Pushes(payloads))))
  {
    if payloads != [] {
      hide ShiftLeft, ToInt32, Pow2, Drain, Uncut, EncodeLength, Received;
      var p, others := payloads[0], payloads[1..];
      var pushes, rest := Pushes(payloads), Join(Pushes(others));
      assert pushes[1..] == [p] + Pushes(others) && pushes[1..][1..] == Pushes(others);
      assert Join(pushes) == EncodeLength(|p|) + (p + rest);
      assert payloads == [p] + others;
      DrainPayload(p, rest);
      DrainEncoding(others);
      if p + rest == [] {
        NothingPushed(others);
        LastEmpty();
      } else {
        ReceivedUnlessLast(p, others, rest);
      }
    }
  }

  lemma NothingPushed(payloads: seq<seq<byte>>)
    ensures payloads != [] ==> Join(Pushes(payloads)) != []
  {
  }

  lemma LastEmpty()
    ensures Received([[]]) == (Decoder(0, 0, false, []), [])
  {
  }

  lemma ReceivedUnlessLast(p: seq<byte>, others: seq<seq<byte>>, rest: seq<byte>)
    requires p + rest != [] && rest == Join(Pushes(others))
    ensures Received([p] + others) == (Received(others).0, [p] + Received(others).1)
  {
    ReceivedCons(p, others);
  }

  /** However the encoder's output is cut into chunks, the decoder pushes the
      payloads in order; only an empty last payload is held back. */
  lemma RoundTrip(payloads: seq<seq<byte>>, chunks: seq<seq<byte>>)
    requires forall p | p in payloads :: |p| < TWO_31
    requires Join(chunks) == Join(Pushes(payloads))
    ensures FeedAll(FRESH, chunks) == Received(payloads)
    ensures FeedAll(FRESH, chunks) == (FRESH, payloads) <==> payloads == [] || payloads[|payloads| - 1] != []
  {
    DrainEncoding(payloads);
    FeedAllIsFeed(FRESH, chunks);
  }

  // ---------- The two streams ----------

  class DelimitedStream {
    var length: int
    var lengthIndex: nat
    var readingLength: bool
    var buffer: seq<byte>
    var pushed: seq<seq<byte>>

    ghost function State(): Decoder
      reads this
    {
      Decoder(length, lengthIndex, readingLength, buffer)
    }

    constructor ()
      ensures State() == FRESH && pushed == []
    {
      length, lengthIndex, readingLength, buffer, pushed := 0, 0, true, [], [];
    }

    method Transform(chunk: seq<byte>)
      modifies this
      ensures State() == Feed(old(State()), chunk).0
      ensures pushed == old(pushed) + Feed(old(State()), chunk).1
    {
      hide ShiftLeft, ToInt32, Pow2, Drain;
      ghost var goal := Feed(State(), chunk);
      buffer := buffer + chunk;
      while |buffer| > 0
        invariant Drain(State()).0 == goal.0
        invariant pushed + Drain(State()).1 == old(pushed) + goal.1
        decreases |buffer|, if readingLength then 0 else 1
      {
        ghost var before, there := State(), pushed;
        DrainTurn(before);
        if readingLength {
          var b := buffer[0];
          length := length + ShiftLeft(b % 128, 7 * lengthIndex);
          if b >= 128 {
            lengthIndex := lengthIndex + 1;
            readingLength := true;
          } else {
            lengthIndex := 0;
            readingLength := false;
          }
          buffer := buffer[1..];
          assert State() == Turn(before).0;
        } else if length <= |buffer| {
          var cut := SliceIndex(length, |buffer|);
          pushed := pushed + [buffer[..cut]];
          buffer := buffer[cut..];
          length := 0;
          readingLength := true;
          assert State() == Turn(before).0;
        } else {
          break;
        }
        assert there + (Turn(before).1 + Drain(State()).1) == pushed + Drain(State()).1;
      }
      DrainTurn(State());
    }
  }

  class DelimitingStream {
    var pushed: seq<seq<byte>>

    constructor ()
      ensures pushed == []
    {
      pushed := [];
    }

    method Transform(chunk: seq<byte>)
      modifies this
      ensures pushed == old(pushed) + Pushes([chunk])
    {
      var length := |chunk|;
      var lengthBytes: seq<byte> := [];
      while length > 0x7f
        invariant lengthBytes + EncodeLength(length) == EncodeLength(|chunk|)
        decreases if length < 0 then 0 else length
      {
        ghost var rest := EncodeLength(length);
        assert rest == [0x80 + length % 128] + EncodeLength(ShiftRight7(length));
        lengthBytes := lengthBytes + [0x80 + length % 128];
        length := ShiftRight7(length);
      }
      lengthBytes := lengthBytes + [length % 256];
      pushed := pushed + [lengthBytes] + [chunk];
      PushesOne(chunk);
    }
  }
}
