/** Golomb-coded sets (BIP 158): sorted hashes stored as Golomb-Rice coded differences, and the
    one-pass query over them.  A stream is the list of its bits, most significant first. */
module BlockFilter {
  import opened Numbers

  const HALF := 0x1_0000_0000
  const WORD := 0x1_0000_0000_0000_0000

  type Uint64 = x: int | 0 <= x < WORD
  type Element = seq<bv8>

  /** `hash` is the keyed hash; `p` and `m` are the coding parameter and the inverse error rate. */
  datatype Params = Params(hash: Element -> Uint64, p: nat, m: nat)

  datatype Reading<T> = Failure | Got(value: T, rest: seq<bool>)

  // ------------------------------------------------------- Golomb-Rice codes

  function Ones(q: nat): seq<bool> { seq(q, _ => true) }

  function LowBits(x: nat, n: nat): (r: seq<bool>)
    ensures |r| == n
    decreases n
  {
    if n == 0 then [] else LowBits(x / 2, n - 1) + [x % 2 == 1]
  }

  function Number(bits: seq<bool>): nat
    decreases |bits|
  {
    if bits == [] then 0 else 2 * Number(bits[..|bits| - 1]) + if bits[|bits| - 1] then 1 else 0
  }

  /** `x >> p`, its inverse, and the bits lost. */
  function High(x: nat, p: nat): nat
    decreases p
  {
    if p == 0 then x else High(x / 2, p - 1)
  }

  function Shifted(q: nat, p: nat): nat
    decreases p
  {
    if p == 0 then q else 2 * Shifted(q, p - 1)
  }

  function Low(x: nat, p: nat): nat
    decreases p
  {
    if p == 0 then 0 else 2 * Low(x / 2, p - 1) + x % 2
  }

  lemma {:induction false} HighLow(x: nat, p: nat)
    ensures x == Shifted(High(x, p), p) + Low(x, p)
    decreases p
  {
    if p > 0 { HighLow(x / 2, p - 1); }
  }

  lemma {:induction false} NumberOfLowBits(x: nat, n: nat)
    ensures Number(LowBits(x, n)) == Low(x, n)
    decreases n
  {
    if n > 0 {
      NumberOfLowBits(x / 2, n - 1);
      assert LowBits(x, n)[..n - 1] == LowBits(x / 2, n - 1);
    }
  }

  lemma {:induction false} ShiftedIsProduct(q: nat, p: nat)
    ensures Shifted(q, p) == q * Pow2(p)
    decreases p
  {
    if p > 0 {
      ShiftedIsProduct(q, p - 1);
      assert q * (Pow2(p - 1) + Pow2(p - 1)) == q * Pow2(p - 1) + q * Pow2(p - 1);
    }
  }

  lemma {:induction false} LowBelow(x: nat, p: nat)
    ensures Low(x, p) < Pow2(p)
    decreases p
  {
    if p > 0 { LowBelow(x / 2, p - 1); }
  }

  /** The quotient in unary, a zero, and the remainder in `p` bits. */
  function RiceEncode(p: nat, x: nat): seq<bool> { Ones(High(x, p)) + [false] + LowBits(x, p) }

  lemma RiceParts(p: nat, x: nat)
    ensures High(x, p) == x / Pow2(p) && Number(LowBits(x, p)) == x % Pow2(p)
  {
    NumberOfLowBits(x, p);
    HighLow(x, p);
    LowBelow(x, p);
    ShiftedIsProduct(High(x, p), p);
    RemainderIs(x, Pow2(p), High(x, p), Low(x, p));
  }

  /** A run of ones up to a zero; the stream may end first. */
  function ReadUnary(bits: seq<bool>): Reading<nat> {
    if bits == [] then Failure
    else if !bits[0] then Got(0, bits[1..])
    else match ReadUnary(bits[1..])
      case Failure => Failure
      case Got(q, rest) => Got(q + 1, rest)
  }

  function ReadBits(n: nat, bits: seq<bool>): Reading<nat> {
    if n > |bits| then Failure else Got(Number(bits[..n]), bits[n..])
  }

  function RiceDecode(p: nat, bits: seq<bool>): Reading<nat> {
    match ReadUnary(bits)
    case Failure => Failure
    case Got(q, rest) =>
      match ReadBits(p, rest)
      case Failure => Failure
      case Got(r, end) => Got((q * Pow2(p) + r) % WORD, end)
  }

  lemma {:induction false} UnaryRoundTrip(q: nat, rest: seq<bool>)
    ensures ReadUnary(Ones(q) + [false] + rest) == Got(q, rest)
  {
    var bits := Ones(q) + [false] + rest;
    if q == 0 {
      assert bits[1..] == rest;
    } else {
      assert bits[1..] == Ones(q - 1) + [false] + rest;
      UnaryRoundTrip(q - 1, rest);
    }
  }

  lemma BitsRoundTrip(low: seq<bool>, rest: seq<bool>)
    ensures ReadBits(|low|, low + rest) == Got(Number(low), rest)
  {
    assert (low + rest)[..|low|] == low && (low + rest)[|low|..] == rest;
  }

  /** Decoding inverts encoding and leaves what follows. */
  lemma RiceRoundTrip(p: nat, x: Uint64, rest: seq<bool>)
    ensures RiceDecode(p, RiceEncode(p, x) + rest) == Got(x, rest)
  {
    var q, low := High(x, p), LowBits(x, p);
    assert RiceEncode(p, x) + rest == Ones(q) + [false] + (low + rest);
    UnaryRoundTrip(q, low + rest);
    BitsRoundTrip(low, rest);
    RiceParts(p, x);
    Recombine(x, Pow2(p), q, Number(low));
  }

  lemma Recombine(x: Uint64, d: nat, q: nat, r: nat)
    requires d > 0 && q == x / d && r == x % d
    ensures (q * d + r) % WORD == x
  {}

  // ---------------------------------------------------------------- the set

  predicate Ascending(values: seq<nat>) { forall i, j :: 0 <= i < j < |values| ==> values[i] <= values[j] }

  type Encoder = nat -> seq<bool>
  type Decoder = seq<bool> -> Reading<nat>

  function RiceWriter(p: nat): Encoder { (x: nat) => RiceEncode(p, x) }
  function RiceReader(p: nat): Decoder { bits => RiceDecode(p, bits) }

  ghost predicate Inverse(encode: Encoder, decode: Decoder) {
    forall x: Uint64, rest: seq<bool> :: decode(encode(x) + rest) == Got(x, rest)
  }

  lemma RiceInverse(p: nat)
    ensures Inverse(RiceWriter(p), RiceReader(p))
  {
    forall x: Uint64, rest: seq<bool> ensures RiceReader(p)(RiceWriter(p)(x) + rest) == Got(x, rest) {
      RiceRoundTrip(p, x, rest);
    }
  }

  /** The differences of a sorted list, coded one after the other. */
  function EncodeAll(encode: Encoder, last: nat, values: seq<nat>): seq<bool>
    requires Ascending(values) && (values != [] ==> last <= values[0])
    decreases |values|
  {
    if values == [] then [] else encode(values[0] - last) + EncodeAll(encode, values[0], values[1..])
  }

  /** `n` differences read one after the other and summed up in 64 bits. */
  function DecodeAll(decode: Decoder, last: nat, n: nat, bits: seq<bool>): Reading<seq<nat>>
    decreases n
  {
    if n == 0 then Got([], bits)
    else match decode(bits)
      case Failure => Failure
      case Got(delta, rest) =>
        match DecodeAll(decode, (last + delta) % WORD, n - 1, rest)
        case Failure => Failure
        case Got(values, end) => Got([(last + delta) % WORD] + values, end)
  }

  /** With `rest` still to be written, `bits` is on the way to `goal`. */
  predicate Pending(encode: Encoder, bits: seq<bool>, last: nat, rest: seq<nat>, goal: seq<bool>) {
    Ascending(rest) && (rest != [] ==> last <= rest[0]) && bits + EncodeAll(encode, last, rest) == goal
  }

  lemma PendingStep(encode: Encoder, bits: seq<bool>, last: nat, rest: seq<nat>, goal: seq<bool>)
    requires Pending(encode, bits, last, rest, goal) && rest != []
    ensures Pending(encode, bits + encode(rest[0] - last), rest[0], rest[1..], goal)
  {
    var code, more := encode(rest[0] - last), EncodeAll(encode, rest[0], rest[1..]);
    assert bits + (code + more) == bits + code + more;
  }

  lemma DecodeOne(
      decode: Decoder, last: nat, n: nat, bits: seq<bool>, delta: nat, mid: seq<bool>, values: seq<nat>,
      end: seq<bool>)
    requires n > 0 && decode(bits) == Got(delta, mid) && last + delta < WORD
    requires DecodeAll(decode, last + delta, n - 1, mid) == Got(values, end)
    ensures DecodeAll(decode, last, n, bits) == Got([last + delta] + values, end)
  {}

  predicate Words(values: seq<nat>) { forall i :: 0 <= i < |values| ==> values[i] < WORD }

  /** Decoding inverts encoding for every sorted list. */
  lemma {:induction false} SetRoundTrip(encode: Encoder, decode: Decoder, last: nat, values: seq<nat>, rest: seq<bool>)
    requires Inverse(encode, decode) && Ascending(values) && Words(values) && (values != [] ==> last <= values[0])
    ensures DecodeAll(decode, last, |values|, EncodeAll(encode, last, values) + rest) == Got(values, rest)
    decreases |values|
  {
    if values == [] {
      assert EncodeAll(encode, last, values) + rest == rest;
    } else {
      var head, tail := encode(values[0] - last), EncodeAll(encode, values[0], values[1..]);
      assert head + tail + rest == head + (tail + rest);
      SetRoundTrip(encode, decode, values[0], values[1..], rest);
      DecodeOne(decode, last, |values|, head + (tail + rest), values[0] - last, tail + rest, values[1..], rest);
      assert [values[0]] + values[1..] == values;
    }
  }

  lemma AscendingCons(x: nat, values: seq<nat>)
    requires Ascending(values) && forall i :: 0 <= i < |values| ==> values[i] >= x
    ensures Ascending([x] + values) && forall i :: 0 <= i <= |values| ==> ([x] + values)[i] >= x
  {}

  /** No sum of the differences reaches 2 to the power 64. */
  predicate NoWrap(decode: Decoder, last: nat, n: nat, bits: seq<bool>)
    decreases n
  {
    n == 0 || (decode(bits).Got? && last + decode(bits).value < WORD &&
               NoWrap(decode, last + decode(bits).value, n - 1, decode(bits).rest))
  }

  predicate SmallSteps(decode: Decoder, n: nat, bits: seq<bool>)
    decreases n
  {
    n == 0 || (decode(bits).Got? ==> decode(bits).value < WORD && SmallSteps(decode, n - 1, decode(bits).rest))
  }

  lemma {:induction false} RiceSteps(p: nat, n: nat, bits: seq<bool>)
    ensures SmallSteps(RiceReader(p), n, bits)
    decreases n
  {
    if n > 0 && RiceDecode(p, bits).Got? { RiceSteps(p, n - 1, RiceDecode(p, bits).rest); }
  }

  /** Whatever the bits, the decoded list ascends from its start if and only if no sum wraps around. */
  lemma {:induction false} DecodedAscends(decode: Decoder, last: nat, n: nat, bits: seq<bool>)
    requires DecodeAll(decode, last, n, bits).Got? && last < WORD && SmallSteps(decode, n, bits)
    ensures var values := DecodeAll(decode, last, n, bits).value;
      |values| == n && (Ascending([last] + values) <==> NoWrap(decode, last, n, bits))
    decreases n
  {
    if n > 0 {
      var r := decode(bits);
      var next := (last + r.value) % WORD;
      var more := DecodeAll(decode, next, n - 1, r.rest).value;
      DecodedAscends(decode, next, n - 1, r.rest);
      AscendingConsIff(last, next, more);
      assert next == if last + r.value < WORD then last + r.value else last + r.value - WORD;
    }
  }

  lemma AscendingConsIff(x: nat, y: nat, values: seq<nat>)
    ensures Ascending([x] + ([y] + values)) <==> x <= y && Ascending([y] + values)
  {
    var tail := [y] + values;
    var all := [x] + tail;
    if Ascending(all) {
      assert all[0] <= all[1];
      forall i, j | 0 <= i < j < |tail| ensures tail[i] <= tail[j] { assert all[i + 1] <= all[j + 1]; }
    }
    if x <= y && Ascending(tail) {
      forall i | 0 <= i < |tail| ensures tail[i] >= x { assert tail[0] <= tail[i]; }
      AscendingCons(x, tail);
    }
  }

  lemma RiceAscends(p: nat, n: nat, bits: seq<bool>)
    requires DecodeAll(RiceReader(p), 0, n, bits).Got?
    ensures Ascending(DecodeAll(RiceReader(p), 0, n, bits).value) <==> NoWrap(RiceReader(p), 0, n, bits)
  {
    RiceSteps(p, n, bits);
    DecodedAscends(RiceReader(p), 0, n, bits);
    var values := DecodeAll(RiceReader(p), 0, n, bits).value;
    if n > 0 {
      AscendingConsIff(0, values[0], values[1..]);
      assert [values[0]] + values[1..] == values;
    }
  }

  // -------------------------------------------------------- hashing into range

  lemma HalfProduct(a: nat, b: nat)
    requires a < HALF && b < HALF
    ensures 0 <= a * b <= 0xffff_ffff * 0xffff_ffff
  {
    ProductMonotone(a, 0xffff_ffff, b);
  }

  /** The 64-by-64-bit product from four half-word products. */
  lemma Pieces(xh: nat, xl: nat, nh: nat, nl: nat)
    ensures (xh * HALF + xl) * (nh * HALF + nl) == (xh * nh) * WORD + (xh * nl + xl * nh) * HALF + xl * nl
  {
    assert (xh * HALF + xl) * (nh * HALF + nl) ==
      (xh * HALF) * (nh * HALF) + (xh * HALF) * nl + xl * (nh * HALF) + xl * nl;
    assert (xh * HALF) * (nh * HALF) == (xh * nh) * WORD && (xh * HALF) * nl == (xh * nl) * HALF &&
      xl * (nh * HALF) == (xl * nh) * HALF;
  }

  /** `MapIntoRange` on 32-bit pieces: the upper word of the product, with no intermediate overflow. */
  method MapIntoRange(x: Uint64, n: Uint64) returns (r: Uint64)
    ensures r == x * n / WORD
  {
    var xh, xl, nh, nl := x / HALF, x % HALF, n / HALF, n % HALF;
    HalfProduct(xh, nh);
    HalfProduct(xh, nl);
    HalfProduct(xl, nh);
    HalfProduct(xl, nl);
    Pieces(xh, xl, nh, nl);
    var ac: Uint64, ad: Uint64, bc: Uint64, bd: Uint64 := xh * nh, xh * nl, xl * nh, xl * nl;
    var mid34: Uint64 := bd / HALF + bc % HALF + ad % HALF;
    assert x * n == ac * WORD + (ad + bc) * HALF + bd;
    UpperWord(ac, ad, bc, bd);
    r := ac + bc / HALF + ad / HALF + mid34 / HALF;
  }

  lemma UpperWord(ac: nat, ad: nat, bc: nat, bd: nat)
    requires ac <= 0xffff_ffff * 0xffff_ffff && ad <= 0xffff_ffff * 0xffff_ffff
    requires bc <= 0xffff_ffff * 0xffff_ffff && bd <= 0xffff_ffff * 0xffff_ffff
    ensures var mid := bd / HALF + bc % HALF + ad % HALF;
      ac + bc / HALF + ad / HALF + mid / HALF == (ac * WORD + (ad + bc) * HALF + bd) / WORD < WORD
  {}

  // ------------------------------------------------------------------ sorting

  function InsertInto(x: nat, values: seq<nat>): seq<nat> {
    if values == [] || x <= values[0] then [x] + values else [values[0]] + InsertInto(x, values[1..])
  }

  function Sorted(values: seq<nat>): seq<nat> {
    if values == [] then [] else InsertInto(values[0], Sorted(values[1..]))
  }

  predicate AtLeast(values: seq<nat>, b: nat) { forall i :: 0 <= i < |values| ==> values[i] >= b }

  lemma {:induction false} InsertIntoAscends(x: nat, values: seq<nat>, b: nat)
    requires Ascending(values) && AtLeast(values, b) && x >= b
    ensures Ascending(InsertInto(x, values)) && AtLeast(InsertInto(x, values), b)
    decreases |values|
  {
    if values == [] || x <= values[0] { AscendingCons(x, values); }
    else {
      InsertIntoAscends(x, values[1..], values[0]);
      AscendingCons(values[0], InsertInto(x, values[1..]));
    }
  }

  lemma {:induction false} InsertIntoPermutes(x: nat, values: seq<nat>)
    ensures multiset(InsertInto(x, values)) == multiset(values) + multiset{x}
    decreases |values|
  {
    if values != [] && x > values[0] {
      InsertIntoPermutes(x, values[1..]);
      assert values == [values[0]] + values[1..];
    }
  }

  lemma {:induction false} SortedMeans(values: seq<nat>)
    ensures Ascending(Sorted(values)) && multiset(Sorted(values)) == multiset(values)
    decreases |values|
  {
    if values != [] {
      SortedMeans(values[1..]);
      InsertIntoAscends(values[0], Sorted(values[1..]), 0);
      InsertIntoPermutes(values[0], Sorted(values[1..]));
      assert values == [values[0]] + values[1..];
    }
  }

  lemma SortedMembers(values: seq<nat>)
    ensures Ascending(Sorted(values)) && |Sorted(values)| == |values| &&
      forall v :: v in Sorted(values) <==> v in values
  {
    SortedMeans(values);
    forall v ensures v in Sorted(values) <==> v in values {
      assert v in Sorted(values) <==> v in multiset(Sorted(values));
      assert v in values <==> v in multiset(values);
    }
    assert |multiset(Sorted(values))| == |multiset(values)|;
  }

  lemma SortedWords(values: seq<nat>)
    requires Words(values)
    ensures Words(Sorted(values))
  {
    SortedMembers(values);
    forall i | 0 <= i < |Sorted(values)| ensures Sorted(values)[i] < WORD { assert Sorted(values)[i] in values; }
  }

  // ------------------------------------------------------------------ queries

  predicate Meet(values: seq<nat>, queries: seq<nat>) { exists v :: v in values && v in queries }

  /** A query is met by a value that no larger one precedes. */
  predicate MetAt(values: seq<nat>, queries: seq<nat>, i: nat, k: nat) {
    && i < |values| && k < |queries| && values[i] == queries[k]
    && forall j :: 0 <= j < i ==> values[j] <= queries[k]
  }

  predicate MeetInOrder(values: seq<nat>, queries: seq<nat>) {
    exists i, k :: 0 <= i < |values| && 0 <= k < |queries| && MetAt(values, queries, i, k)
  }

  /** In an ascending list that is no restriction. */
  lemma InOrderIsMeet(values: seq<nat>, queries: seq<nat>)
    ensures MeetInOrder(values, queries) ==> Meet(values, queries)
    ensures Ascending(values) ==> (MeetInOrder(values, queries) <==> Meet(values, queries))
  {
    if MeetInOrder(values, queries) {
      var i, k :| 0 <= i < |values| && 0 <= k < |queries| && MetAt(values, queries, i, k);
      assert values[i] in values && values[i] in queries;
    }
    if Ascending(values) && Meet(values, queries) {
      var v :| v in values && v in queries;
      var i :| 0 <= i < |values| && values[i] == v;
      var k :| 0 <= k < |queries| && queries[k] == v;
      assert MetAt(values, queries, i, k);
    }
  }

  /** In any other list some member is never found, unless it also occurs early enough. */
  lemma MissedMember(values: seq<nat>, j: nat)
    requires j < |values|
    ensures Meet(values, [values[j]])
    ensures MeetInOrder(values, [values[j]]) <==>
      exists i :: 0 <= i <= j && values[i] == values[j] && forall l :: 0 <= l < i ==> values[l] <= values[j]
  {
    var q := [values[j]];
    assert values[j] in values && q[0] == values[j];
    if MeetInOrder(values, q) {
      var i, k :| 0 <= i < |values| && 0 <= k < |q| && MetAt(values, q, i, k);
      assert values[if i <= j then i else j] == values[j];
    }
    if i :| 0 <= i <= j && values[i] == values[j] && forall l :: 0 <= l < i ==> values[l] <= values[j] {
      assert MetAt(values, q, i, 0);
    }
  }

  /** Nothing before position `i` meets a query in order, and exactly the queries before `h` lie
      below some value up to there. */
  predicate Passed(values: seq<nat>, queries: seq<nat>, i: nat, h: nat) {
    && i <= |values| && h <= |queries|
    && (forall j, k :: 0 <= j < i && 0 <= k < |queries| ==> !MetAt(values, queries, j, k))
    && (forall k :: 0 <= k < h ==> Overtaken(values, i, queries[k]))
    && (forall j, k :: 0 <= j < i && h <= k < |queries| ==> values[j] < queries[k])
  }

  /** Some value up to position `i` is above `q`. */
  predicate Overtaken(values: seq<nat>, i: nat, q: nat) { exists j :: 0 <= j <= i && j < |values| && values[j] > q }

  lemma Advance(values: seq<nat>, queries: seq<nat>, i: nat, h: nat)
    requires Passed(values, queries, i, h) && i < |values| && h < |queries| && queries[h] < values[i]
    ensures Passed(values, queries, i, h + 1)
  {}

  lemma Hit(values: seq<nat>, queries: seq<nat>, i: nat, h: nat)
    requires Passed(values, queries, i, h) && i < |values| && h < |queries| && queries[h] == values[i]
    ensures MeetInOrder(values, queries)
  {
    assert MetAt(values, queries, i, h);
  }

  lemma Skip(values: seq<nat>, queries: seq<nat>, i: nat, h: nat)
    requires Ascending(queries) && Passed(values, queries, i, h)
    requires i < |values| && h < |queries| && queries[h] > values[i]
    ensures Passed(values, queries, i + 1, h)
  {
    forall k | 0 <= k < |queries| ensures !MetAt(values, queries, i, k) {
      if k < h {
        assert Overtaken(values, i, queries[k]);
        var j :| 0 <= j <= i && j < |values| && values[j] > queries[k];
      }
    }
    forall k | 0 <= k < h ensures Overtaken(values, i + 1, queries[k]) { assert Overtaken(values, i, queries[k]); }
  }

  lemma Exhausted(values: seq<nat>, queries: seq<nat>, i: nat, h: nat)
    requires Passed(values, queries, i, h) && (i == |values| || h == |queries|)
    ensures !MeetInOrder(values, queries)
  {
    forall j, k | 0 <= j < |values| && 0 <= k < |queries| ensures !MetAt(values, queries, j, k) {
      if i <= j {
        assert Overtaken(values, i, queries[k]);
        var l :| 0 <= l <= i && l < |values| && values[l] > queries[k];
      }
    }
  }

  /** The one-pass query over the stream finds exactly the values met in order: for an ascending list,
      the intersection. */
  method MatchInternal(decode: Decoder, n: nat, bits: seq<bool>, queries: seq<nat>) returns (r: bool)
    requires Ascending(queries) && DecodeAll(decode, 0, n, bits).Got?
    ensures r <==> MeetInOrder(DecodeAll(decode, 0, n, bits).value, queries)
    ensures Ascending(DecodeAll(decode, 0, n, bits).value) ==>
      (r <==> Meet(DecodeAll(decode, 0, n, bits).value, queries))
  {
    ghost var all := DecodeAll(decode, 0, n, bits);
    DecodedLength(decode, 0, n, bits);
    InOrderIsMeet(all.value, queries);
    r := Merge(decode, n, bits, queries, all);
  }

  lemma {:induction false} DecodedLength(decode: Decoder, last: nat, n: nat, bits: seq<bool>)
    requires DecodeAll(decode, last, n, bits).Got?
    ensures |DecodeAll(decode, last, n, bits).value| == n
    decreases n
  {
    if n > 0 {
      var r := decode(bits);
      DecodedLength(decode, (last + r.value) % WORD, n - 1, r.rest);
    }
  }

  method Merge(decode: Decoder, n: nat, bits: seq<bool>, queries: seq<nat>, ghost all: Reading<seq<nat>>)
    returns (r: bool)
    requires Ascending(queries) && all == DecodeAll(decode, 0, n, bits) && all.Got? && |all.value| == n
    ensures r <==> MeetInOrder(all.value, queries)
  {
    var value: nat, h: nat, i: nat, stream := 0, 0, 0, bits;
    assert all.value[0..] == all.value;
    while i < n
      invariant i <= n && Passed(all.value, queries, i, h)
      invariant DecodeAll(decode, value, n - i, stream) == Got(all.value[i..], all.rest)
    {
      var delta := decode(stream);
      value, stream := (value + delta.value) % WORD, delta.rest;
      assert all.value[i..][0] == value && all.value[i..][1..] == all.value[i + 1..];
      while true
        invariant h <= |queries| && Passed(all.value, queries, i, h)
        decreases |queries| - h
      {
        if h == |queries| {
          Exhausted(all.value, queries, i, h);
          return false;
        } else if queries[h] == value {
          Hit(all.value, queries, i, h);
          return true;
        } else if queries[h] > value {
          Skip(all.value, queries, i, h);
          break;
        }
        Advance(all.value, queries, i, h);
        h := h + 1;
      }
      i := i + 1;
    }
    Exhausted(all.value, queries, i, h);
    r := false;
  }

  // --------------------------------------------------------------- the object

  /** Hashes of a list of elements scaled into a range. */
  function HashToRange(params: Params, f: Uint64, e: Element): (r: nat)
    ensures r < WORD
  {
    UpperBound(params.hash(e), f);
    params.hash(e) * f / WORD
  }

  lemma UpperBound(x: Uint64, n: Uint64)
    ensures 0 <= x * n / WORD < WORD
  {
    ProductMonotone(x, WORD - 1, n);
  }

  function HashAll(params: Params, f: Uint64, elements: seq<Element>): (r: seq<nat>)
    ensures |r| == |elements| && forall i :: 0 <= i < |r| ==> r[i] == HashToRange(params, f, elements[i])
    decreases |elements|
  {
    if elements == [] then [] else [HashToRange(params, f, elements[0])] + HashAll(params, f, elements[1..])
  }

  /** Some element of one list and some element of another hash alike. */
  predicate SomeHashEqual(params: Params, f: Uint64, a: seq<Element>, b: seq<Element>) {
    exists i, j :: 0 <= i < |a| && 0 <= j < |b| && HashToRange(params, f, a[i]) == HashToRange(params, f, b[j])
  }

  lemma MeetMeans(params: Params, f: Uint64, a: seq<Element>, b: seq<Element>)
    ensures Meet(Sorted(HashAll(params, f, a)), Sorted(HashAll(params, f, b))) <==> SomeHashEqual(params, f, a, b)
  {
    var x, y := HashAll(params, f, a), HashAll(params, f, b);
    SortedMembers(x);
    SortedMembers(y);
    if Meet(Sorted(x), Sorted(y)) {
      var v :| v in Sorted(x) && v in Sorted(y);
      var i :| 0 <= i < |x| && x[i] == v;
      var j :| 0 <= j < |y| && y[j] == v;
      assert HashToRange(params, f, a[i]) == HashToRange(params, f, b[j]);
    }
    if SomeHashEqual(params, f, a, b) {
      var i, j :| 0 <= i < |a| && 0 <= j < |b| && HashToRange(params, f, a[i]) == HashToRange(params, f, b[j]);
      assert x[i] == y[j] && x[i] in x && y[j] in y;
    }
  }

  /** Zero bits up to the next whole byte. */
  function Padding(n: nat): seq<bool> { seq((8 - n % 8) % 8, _ => false) }

  class GCSFilter {
    const params: Params
    var n: nat
    var f: Uint64
    var encoded: seq<bool>
    ghost var elements: seq<Element>  // what the filter was built from

    /** The filter holds exactly the hashes of the elements. */
    ghost predicate Holds()
      reads this
    {
      DecodeAll(RiceReader(params.p), 0, n, encoded).Got? &&
      DecodeAll(RiceReader(params.p), 0, n, encoded).value == Sorted(HashAll(params, f, elements))
    }

    /** A filter of a set of elements, in whatever order they come. */
    constructor (params: Params, elements: seq<Element>)
      requires |elements| < HALF && params.m < HALF
      ensures Holds() && this.params == params && this.elements == elements
      ensures n == |elements| && f == n * params.m && |encoded| % 8 == 0
    {
      this.params := params;
      RangeFits(|elements|, params.m);
      var range: Uint64 := |elements| * params.m;
      this.n := |elements|;
      this.f := range;
      this.elements := elements;
      SortedMembers(HashAll(params, range, elements));
      SortedWords(HashAll(params, range, elements));
      RiceInverse(params.p);
      var bits := WritePadded(RiceWriter(params.p), RiceReader(params.p), Sorted(HashAll(params, range, elements)));
      encoded := bits;
    }

    static method WritePadded(encode: Encoder, ghost decode: Decoder, values: seq<nat>) returns (bits: seq<bool>)
      requires Ascending(values) && Words(values) && Inverse(encode, decode)
      ensures |bits| % 8 == 0
      ensures DecodeAll(decode, 0, |values|, bits).Got? && DecodeAll(decode, 0, |values|, bits).value == values
    {
      bits := WriteAll(encode, values);
      var padding := Padding(|bits|);
      PaddedToBytes(|bits|);
      SetRoundTrip(encode, decode, 0, values, padding);
      bits := bits + padding;
    }

    /** The differences of the sorted hashes, written one after the other. */
    static method WriteAll(encode: Encoder, values: seq<nat>) returns (bits: seq<bool>)
      requires Ascending(values)
      ensures bits == EncodeAll(encode, 0, values)
    {
      bits := [];
      var last: nat, rest: seq<nat> := 0, values;
      ghost var goal := EncodeAll(encode, 0, values);
      while rest != []
        invariant Pending(encode, bits, last, rest, goal)
        decreases |rest|
      {
        PendingStep(encode, bits, last, rest, goal);
        bits := bits + encode(rest[0] - last);
        last, rest := rest[0], rest[1..];
      }
    }

    /** `GolombRiceEncode`: the ones in chunks of at most 64. */
    static method GolombRiceEncode(p: nat, x: nat) returns (bits: seq<bool>)
      ensures bits == RiceEncode(p, x)
    {
      var q := High(x, p);
      bits := [];
      while q > 0
        invariant |bits| + q == High(x, p) && forall i :: 0 <= i < |bits| ==> bits[i]
      {
        var nbits := if q <= 64 then q else 64;
        bits := bits + Ones(nbits);
        q := q - nbits;
      }
      assert bits == Ones(High(x, p));
      bits := bits + [false] + LowBits(x, p);
    }

    /** A filter read from an encoding: accepted exactly when `n` elements can be read and no whole
        byte is left over. */
    static method Accepts(decode: Decoder, n: nat, bits: seq<bool>) returns (ok: bool)
      ensures ok <==> DecodeAll(decode, 0, n, bits).Got? && |DecodeAll(decode, 0, n, bits).rest| < 8
    {
      ghost var all := DecodeAll(decode, 0, n, bits);
      var i, stream := 0, bits;
      ghost var last: nat := 0;
      while i < n
        invariant i <= n
        invariant DecodeAll(decode, last, n - i, stream).Got? <==> all.Got?
        invariant all.Got? ==> DecodeAll(decode, last, n - i, stream).rest == all.rest
      {
        var delta := decode(stream);
        if delta.Failure? { return false; }
        stream := delta.rest;
        last := (last + delta.value) % WORD;
        i := i + 1;
      }
      ok := |stream| < 8;
    }

    method Match(e: Element) returns (r: bool)
      requires Holds()
      ensures r <==> SomeHashEqual(params, f, elements, [e])
      ensures e in elements ==> r
    {
      r := MatchAny([e]);
      if e in elements {
        var i :| 0 <= i < |elements| && elements[i] == e;
        assert HashToRange(params, f, elements[i]) == HashToRange(params, f, [e][0]);
      }
    }

    method MatchAny(queries: seq<Element>) returns (r: bool)
      requires Holds()
      ensures r <==> SomeHashEqual(params, f, elements, queries)
    {
      SortedMembers(HashAll(params, f, queries));
      SortedMembers(HashAll(params, f, elements));
      MeetMeans(params, f, elements, queries);
      r := MatchInternal(RiceReader(params.p), n, encoded, Sorted(HashAll(params, f, queries)));
    }
  }

  lemma RangeFits(n: nat, m: nat)
    requires n < HALF && m < HALF
    ensures 0 <= n * m < WORD
  {
    HalfProduct(n, m);
  }

  lemma PaddedToBytes(n: nat)
    ensures (n + |Padding(n)|) % 8 == 0
  {}
}
