/** The Adler-32 checksum of src/ext/zlib/adler32.c: the sums with deferred reduction against the bytewise definition of
    section 2.2 of RFC 1950, and the combination of two checksums. Every sum kept in a `word` variable is thereby proved
    to stay within 32 bits. */
module Adler32 {

  type byte = x: nat | x < 256
  type word = x: nat | x < 0x1_0000_0000

  const BASE: nat := 65521
  const NMAX: nat := 5552

  // ---------------------------------------------------------------- the definition

  datatype Sums = Sums(s1: nat, s2: nat)

  /** The two sums reduced after every byte. */
  function Bytewise(s: Sums, data: seq<byte>): Sums {
    if data == [] then s
    else
      var t := Bytewise(s, data[..|data| - 1]);
      var s1 := (t.s1 + data[|data| - 1]) % BASE;
      Sums(s1, (t.s2 + s1) % BASE)
  }

  /** The same sums never reduced. */
  function Unreduced(s1: int, s2: int, data: seq<byte>): (int, int) {
    if data == [] then (s1, s2)
    else
      var t := Unreduced(s1, s2, data[..|data| - 1]);
      (t.0 + data[|data| - 1], t.1 + t.0 + data[|data| - 1])
  }

  function Halves(adler: word): Sums {
    Sums(adler % 0x1_0000, adler / 0x1_0000)
  }

  /** adler | (sum2 << 16), for a low half that fits. */
  function Join(s: Sums): nat {
    s.s1 + 0x1_0000 * s.s2
  }

  predicate Reduced(s: Sums) {
    s.s1 < BASE && s.s2 < BASE
  }

  lemma {:induction false} BytewiseReduced(s: Sums, data: seq<byte>)
    requires Reduced(s)
    ensures Reduced(Bytewise(s, data))
  {
    if data != [] {
      BytewiseReduced(s, data[..|data| - 1]);
    }
  }

  lemma {:induction false} BytewiseIsUnreduced(s: Sums, data: seq<byte>)
    requires Reduced(s)
    ensures var u := Unreduced(s.s1, s.s2, data);
      Bytewise(s, data) == Sums(u.0 % BASE, u.1 % BASE)
  {
    if data != [] {
      var last, rest := data[|data| - 1], data[..|data| - 1];
      BytewiseIsUnreduced(s, rest);
      var u := Unreduced(s.s1, s.s2, rest);
      ModAdd(u.0, last);
      ModAdd(u.1, (u.0 + last) % BASE);
      ModAdd(u.0 + last, u.1);
    }
  }

  lemma ModAdd(x: int, y: int)
    ensures (x % BASE + y) % BASE == (x + y) % BASE
  {
  }

  lemma {:induction false} BytewiseAppend(s: Sums, a: seq<byte>, b: seq<byte>)
    ensures Bytewise(s, a + b) == Bytewise(Bytewise(s, a), b)
    decreases |b|
  {
    if b == [] {
      assert a + b == a;
    } else {
      assert (a + b)[..|a + b| - 1] == a + b[..|b| - 1];
      BytewiseAppend(s, a, b[..|b| - 1]);
    }
  }

  // ---------------------------------------------------------------- how large the deferred sums get

  function AdlerLimit(n: nat): nat {
    BASE - 1 + 255 * n
  }

  /** The largest second sum that n bytes can lead to, starting from reduced sums. */
  function SumLimit(n: nat): nat {
    if n == 0 then BASE - 1 else SumLimit(n - 1) + AdlerLimit(n)
  }

  lemma {:induction false} SumLimitClosed(n: nat)
    ensures 2 * SumLimit(n) == 255 * n * (n + 1) + 2 * (n + 1) * (BASE - 1)
  {
    if n > 0 {
      SumLimitClosed(n - 1);
      assert 255 * n * (n + 1) == 255 * (n - 1) * n + 510 * n;
      assert 2 * (n + 1) * (BASE - 1) == 2 * n * (BASE - 1) + 2 * (BASE - 1);
    }
  }

  lemma {:induction false} SumLimitMono(m: nat, n: nat)
    requires m <= n
    ensures SumLimit(m) <= SumLimit(n)
  {
    if m < n {
      SumLimitMono(m, n - 1);
    }
  }

  /** NMAX bytes fit in 32 bits whatever they are; one more would not. */
  lemma NmaxIsLargest(n: nat)
    ensures n <= NMAX <==> SumLimit(n) <= 0xffff_ffff
  {
    SumLimitClosed(NMAX);
    SumLimitClosed(NMAX + 1);
    if n <= NMAX {
      SumLimitMono(n, NMAX);
    } else {
      SumLimitMono(NMAX + 1, n);
    }
  }

  /** All bytes 0xff reach the limit. */
  lemma {:induction false} LimitIsReached(data: seq<byte>)
    requires forall i | 0 <= i < |data| :: data[i] == 255
    ensures Unreduced(BASE - 1, BASE - 1, data) == (AdlerLimit(|data|), SumLimit(|data|))
  {
    if data != [] {
      LimitIsReached(data[..|data| - 1]);
    }
  }

  // ---------------------------------------------------------------- adler32()

  /** `done` bytes after a reduction the sums agree with the bytewise ones and are within the limits. */
  ghost predicate Deferred(adler: nat, sum2: nat, s: Sums, done: nat) {
    && adler % BASE == s.s1 && sum2 % BASE == s.s2
    && adler <= AdlerLimit(done) && sum2 <= SumLimit(done)
  }

  lemma OneMore(s: Sums, buf: seq<byte>, i: nat)
    requires i < |buf|
    ensures var t := Bytewise(s, buf[..i]);
      Bytewise(s, buf[..i + 1]) == Sums((t.s1 + buf[i]) % BASE, (t.s2 + (t.s1 + buf[i]) % BASE) % BASE)
  {
    assert buf[..i + 1][..i] == buf[..i];
  }

  /** DO1: neither sum passes 2^32 - 1. */
  lemma AddsOne(a: nat, b: nat, s: Sums, buf: seq<byte>, i: nat, done: nat)
    requires i < |buf| && done < NMAX && Deferred(a, b, Bytewise(s, buf[..i]), done)
    ensures Deferred(a + buf[i], b + (a + buf[i]), Bytewise(s, buf[..i + 1]), done + 1)
    ensures a + buf[i] <= 0xffff_ffff && b + (a + buf[i]) <= 0xffff_ffff
  {
    hide Bytewise, SumLimit;
    OneMore(s, buf, i);
    NmaxIsLargest(done + 1);
    LimitMore(done);
    ModAdd(a, buf[i]);
    ModAdd(b, (a + buf[i]) % BASE);
    ModAdd(a + buf[i], b);
  }

  lemma LimitMore(n: nat)
    ensures SumLimit(n + 1) == SumLimit(n) + AdlerLimit(n + 1) && AdlerLimit(n + 1) == AdlerLimit(n) + 255
  {
    hide SumLimit;
    LimitStep(n);
  }

  lemma LimitStep(n: nat)
    ensures SumLimit(n + 1) == SumLimit(n) + AdlerLimit(n + 1)
  {
  }

  /** DO1 over n bytes (the macros DO16 and the byte loops). */
  method AddBytes(adler: word, sum2: word, buf: seq<byte>, i: nat, n: nat, ghost s: Sums, ghost done: nat)
    returns (a: word, b: word)
    requires i + n <= |buf| && done + n <= NMAX
    requires Deferred(adler, sum2, Bytewise(s, buf[..i]), done)
    ensures Deferred(a, b, Bytewise(s, buf[..i + n]), done + n)
  {
    hide Bytewise, Deferred, SumLimit, AdlerLimit;
    a, b := adler, sum2;
    for j := 0 to n
      invariant Deferred(a, b, Bytewise(s, buf[..i + j]), done + j)
    {
      AddsOne(a, b, s, buf, i + j, done + j);
      a := a + buf[i + j];
      b := b + a;
    }
  }

  /** A block of NMAX bytes, NMAX / 16 times 16 of them. */
  method AddBlock(adler: word, sum2: word, buf: seq<byte>, i0: nat, ghost s: Sums) returns (a: word, b: word)
    requires i0 + NMAX <= |buf| && Deferred(adler, sum2, Bytewise(s, buf[..i0]), 0)
    ensures Deferred(a, b, Bytewise(s, buf[..i0 + NMAX]), NMAX)
  {
    hide Bytewise, Deferred;
    a, b := adler, sum2;
    var i, n: nat := i0, NMAX / 16;
    while true
      invariant 0 < n <= NMAX / 16 && i == i0 + NMAX - 16 * n
      invariant Deferred(a, b, Bytewise(s, buf[..i]), i - i0)
      decreases n
    {
      a, b := AddBytes(a, b, buf, i, 16, s, i - i0);
      i, n := i + 16, n - 1;
      if n == 0 {
        break;
      }
    }
  }

  /** The remaining bytes, less than NMAX of them. */
  method AddRest(adler: word, sum2: word, buf: seq<byte>, i0: nat, ghost s: Sums) returns (a: word, b: word)
    requires i0 <= |buf| < i0 + NMAX && Deferred(adler, sum2, Bytewise(s, buf[..i0]), 0)
    ensures Deferred(a, b, Bytewise(s, buf), |buf| - i0)
  {
    hide Bytewise, Deferred;
    a, b := adler, sum2;
    var i, len := i0, |buf| - i0;
    while len >= 16
      invariant i0 <= i && 0 <= len == |buf| - i
      invariant Deferred(a, b, Bytewise(s, buf[..i]), i - i0)
    {
      len := len - 16;
      a, b := AddBytes(a, b, buf, i, 16, s, i - i0);
      i := i + 16;
    }
    a, b := AddBytes(a, b, buf, i, len, s, i - i0);
    assert buf[..|buf|] == buf;
  }

  lemma DeferredStart(adler: word)
    requires Reduced(Halves(adler))
    ensures Deferred(adler % 0x1_0000, adler / 0x1_0000, Halves(adler), 0)
  {
    hide SumLimit;
    SumLimitNone();
  }

  /** Reducing both sums starts the next block, and ends the last one. */
  lemma DeferredReduced(a: nat, b: nat, s: Sums, done: nat)
    requires Deferred(a, b, s, done) && Reduced(s)
    ensures a % BASE == s.s1 && b % BASE == s.s2 && Deferred(a % BASE, b % BASE, s, 0)
  {
    hide SumLimit;
    SumLimitNone();
    ModTwice(a);
    ModTwice(b);
  }

  lemma ModTwice(a: nat)
    ensures a % BASE % BASE == a % BASE < BASE
  {
  }

  /** One byte, with subtraction instead of division. */
  method AddOne(adler: word, sum2: word, buf: seq<byte>, ghost s: Sums) returns (r: word)
    requires |buf| == 1 && adler == s.s1 && sum2 == s.s2 && Reduced(s)
    ensures r == Join(Bytewise(s, buf))
  {
    hide Bytewise;
    OneMore(s, buf, 0);
    BytewiseNone(s);
    assert buf[..0] == [] && buf[..1] == buf;
    var a: word, b: word := adler + buf[0], sum2;
    if a >= BASE {
      a := a - BASE;
    }
    b := b + a;
    if b >= BASE {
      b := b - BASE;
    }
    r := a + 0x1_0000 * b;
  }

  method Adler32(adler: word, buf: seq<byte>) returns (r: word)
    requires Reduced(Halves(adler))
    ensures r == Join(Bytewise(Halves(adler), buf))
  {
    hide Bytewise, Deferred;
    ghost var s := Halves(adler);
    var sum2: word, a: word := adler / 0x1_0000, adler % 0x1_0000;
    DeferredStart(adler);
    BytewiseNone(s);
    BytewiseReduced(s, buf);
    var len := |buf|;
    assert buf[..0] == [] && buf[..len] == buf;
    if len == 1 {
      r := AddOne(a, sum2, buf, s);
      return;
    }
    if len < 16 {
      a, sum2 := AddBytes(a, sum2, buf, 0, len, s, 0);
      ShortSum(a, sum2, s, buf);
      if a >= BASE {
        a := a - BASE;
      }
      sum2 := sum2 % BASE;
      return a + 0x1_0000 * sum2;
    }
    var i := 0;
    while len >= NMAX
      invariant 0 <= i <= |buf| && len == |buf| - i
      invariant Deferred(a, sum2, Bytewise(s, buf[..i]), 0)
    {
      len := len - NMAX;
      a, sum2 := AddBlock(a, sum2, buf, i, s);
      i := i + NMAX;
      BytewiseReduced(s, buf[..i]);
      DeferredReduced(a, sum2, Bytewise(s, buf[..i]), NMAX);
      a, sum2 := a % BASE, sum2 % BASE;
    }
    if len != 0 {
      a, sum2 := AddRest(a, sum2, buf, i, s);
      DeferredReduced(a, sum2, Bytewise(s, buf), len);
      a, sum2 := a % BASE, sum2 % BASE;
    } else {
      assert buf[..i] == buf;
      DeferredReduced(a, sum2, Bytewise(s, buf), 0);
      ReducedAlready(a, sum2, Bytewise(s, buf));
    }
    r := a + 0x1_0000 * sum2;
  }

  /** Less than 16 bytes: one subtraction reduces the first sum. */
  lemma ShortSum(a: nat, b: nat, s: Sums, buf: seq<byte>)
    requires |buf| < 16 && Deferred(a, b, Bytewise(s, buf), |buf|) && Reduced(Bytewise(s, buf))
    ensures (if a >= BASE then a - BASE else a) == Bytewise(s, buf).s1 && b % BASE == Bytewise(s, buf).s2
  {
    hide Bytewise, SumLimit;
  }

  lemma ReducedAlready(a: nat, b: nat, s: Sums)
    requires Deferred(a, b, s, 0) && Reduced(s)
    ensures a == s.s1 && b == s.s2
  {
    hide SumLimit;
    SumLimitNone();
  }

  lemma SumLimitNone()
    ensures SumLimit(0) == BASE - 1
  {
  }

  lemma BytewiseNone(s: Sums)
    ensures Bytewise(s, []) == s
  {
  }

  // ---------------------------------------------------------------- adler32_combine()

  /** Starting from other sums shifts the result by the start and, in the second sum, once per byte. */
  lemma {:induction false} UnreducedFrom(s1: int, s2: int, data: seq<byte>)
    ensures var u := Unreduced(1, 0, data);
      Unreduced(s1, s2, data) == (u.0 + s1 - 1, u.1 + s2 + |data| * (s1 - 1))
  {
    if data != [] {
      UnreducedFrom(s1, s2, data[..|data| - 1]);
      assert |data| * (s1 - 1) == (|data| - 1) * (s1 - 1) + (s1 - 1);
    }
  }

  /** The halves that combining leads to, before anything is said about zero. */
  function CombinedHalves(s: Sums, t: Sums, len2: nat): Sums {
    Sums((s.s1 + t.s1 + BASE - 1) % BASE, (len2 % BASE * s.s1 + s.s2 + t.s2 + BASE - len2 % BASE) % BASE)
  }

  lemma CombinedHalvesAreConcatenation(s: Sums, a: seq<byte>, b: seq<byte>)
    requires Reduced(s)
    ensures CombinedHalves(Bytewise(s, a), Bytewise(Sums(1, 0), b), |b|) == Bytewise(s, a + b)
  {
    hide Bytewise, Unreduced;
    var p := Bytewise(s, a);
    BytewiseReduced(s, a);
    BytewiseAppend(s, a, b);
    BytewiseIsUnreduced(p, b);
    BytewiseIsUnreduced(Sums(1, 0), b);
    UnreducedFrom(p.s1, p.s2, b);
    var u := Unreduced(1, 0, b);
    FirstHalves(u.0, p.s1);
    SecondHalves(u.1, p.s1, p.s2, |b|);
  }

  lemma FirstHalves(u: int, s1: nat)
    ensures (s1 + u % BASE + BASE - 1) % BASE == (u + s1 - 1) % BASE
  {
    ModAdd(u, s1 + BASE - 1);
    ModShift(u + s1 - 1, 1);
  }

  lemma SecondHalves(u: int, s1: nat, s2: nat, len: nat)
    ensures (len % BASE * s1 + s2 + u % BASE + BASE - len % BASE) % BASE == (u + s2 + len * (s1 - 1)) % BASE
  {
    var rem, q := len % BASE, len / BASE;
    LengthTimes(len, rem, q, s1 - 1);
    var r, t := rem * (s1 - 1), q * (s1 - 1);
    TimesLess(rem, s1);
    var v := rem * s1;
    ModAdd(u, v + s2 + BASE - rem);
    ModShift(u + s2 + r, 1);
    ModShift(u + s2 + r, t);
  }

  lemma LengthTimes(len: nat, rem: nat, q: nat, x: int)
    requires len == BASE * q + rem
    ensures len * x == rem * x + BASE * (q * x)
  {
  }

  lemma TimesLess(rem: int, x: int)
    ensures rem * (x - 1) == rem * x - rem
  {
  }

  lemma ModShift(x: int, k: int)
    ensures (x + BASE * k) % BASE == x % BASE
  {
  }

  /** Zero halves come back as 65521: the subtractions stop one multiple of BASE early. */
  function ZeroAsBase(h: nat): nat {
    if h == 0 then BASE else h
  }

  /** len2 is a signed file offset in the source; negative ones are not considered. */
  method Adler32Combine(adler1: word, adler2: word, len2: nat) returns (r: word)
    requires Reduced(Halves(adler1)) && Reduced(Halves(adler2))
    ensures var c := CombinedHalves(Halves(adler1), Halves(adler2), len2);
      Halves(r) == Sums(ZeroAsBase(c.s1), ZeroAsBase(c.s2))
  {
    hide CombinedHalves, ZeroAsBase, Join;
    var rem: word := len2 % BASE;
    var sum1: word := adler1 % 0x1_0000;
    ProductFits(rem, sum1);
    var sum2: word := rem * sum1;
    sum2 := sum2 % BASE;
    sum1 := sum1 + (adler2 % 0x1_0000) + BASE - 1;
    sum2 := sum2 + adler1 / 0x1_0000 + adler2 / 0x1_0000 + BASE - rem;
    ghost var x1, x2 := sum1, sum2;
    if sum1 > BASE { sum1 := sum1 - BASE; }
    if sum1 > BASE { sum1 := sum1 - BASE; }
    if sum2 > 2 * BASE { sum2 := sum2 - 2 * BASE; }
    if sum2 > BASE { sum2 := sum2 - BASE; }
    CombinedBy(Halves(adler1), Halves(adler2), len2, x1, x2);
    Wrapped(x1, sum1);
    Wrapped(x2, sum2);
    HalvesOf(sum1, sum2);
    r := sum1 + 0x1_0000 * sum2;
  }

  lemma CombinedBy(s: Sums, t: Sums, len2: nat, x1: nat, x2: nat)
    requires x1 == s.s1 + t.s1 + BASE - 1
    requires x2 == (len2 % BASE * s.s1) % BASE + s.s2 + t.s2 + BASE - len2 % BASE
    ensures CombinedHalves(s, t, len2) == Sums(x1 % BASE, x2 % BASE)
  {
    var p := len2 % BASE * s.s1;
    ModAdd(p, s.s2 + t.s2 + BASE - len2 % BASE);
  }

  lemma Wrapped(x: nat, v: nat)
    requires 1 <= v <= BASE && (v == x || v == x - BASE || v == x - 2 * BASE || v == x - 3 * BASE)
    ensures v == ZeroAsBase(x % BASE)
  {
  }

  lemma HalvesOf(s1: nat, s2: nat)
    requires s1 <= BASE && s2 <= BASE
    ensures s1 + 0x1_0000 * s2 <= 0xffff_ffff && Halves(s1 + 0x1_0000 * s2) == Sums(s1, s2)
  {
  }

  lemma ProductFits(x: nat, y: nat)
    requires x < BASE && y < BASE
    ensures x * y <= 0xffff_ffff
  {
    MulLe(x, y, BASE - 1);
    MulLe(BASE - 1, x, BASE - 1);
  }

  lemma MulLe(a: nat, b: nat, c: nat)
    requires b <= c
    ensures a * b <= a * c
  {
    assert a * (c - b) >= 0;
  }

  /** adler32_combine gives the checksum of the concatenation exactly when neither half of it is zero, which the caller
      can tell from the two checksums and the length. */
  lemma CombineIsConcatenation(s: Sums, a: seq<byte>, b: seq<byte>, r: word)
    requires Reduced(s)
    requires var c := CombinedHalves(Bytewise(s, a), Bytewise(Sums(1, 0), b), |b|);
      Halves(r) == Sums(ZeroAsBase(c.s1), ZeroAsBase(c.s2))
    ensures var c := CombinedHalves(Bytewise(s, a), Bytewise(Sums(1, 0), b), |b|);
      r == Join(Bytewise(s, a + b)) <==> c.s1 != 0 && c.s2 != 0
    ensures Halves(r).s1 % BASE == Bytewise(s, a + b).s1 && Halves(r).s2 % BASE == Bytewise(s, a + b).s2
    ensures 1 <= Halves(r).s1 <= BASE && 1 <= Halves(r).s2 <= BASE
  {
    hide Bytewise;
    CombinedHalvesAreConcatenation(s, a, b);
    BytewiseReduced(s, a + b);
    assert r == Join(Halves(r));
  }

  /** 256 bytes of 255 and one of 240. */
  function Witness(): (data: seq<byte>)
    ensures |data| == 257
  {
    seq(256, i => 255) + [240]
  }

  lemma {:induction false} SumOfRun(n: nat)
    ensures Unreduced(1, 0, seq(n, i => 255)).0 == 1 + 255 * n
  {
    var run: seq<byte> := seq(n, i => 255);
    if n > 0 {
      var shorter: seq<byte> := seq(n - 1, i => 255);
      assert run[..n - 1] == shorter;
      SumOfRun(n - 1);
    }
  }

  lemma WitnessSum()
    ensures Bytewise(Sums(1, 0), Witness()).s1 == 0
  {
    hide Bytewise;
    var run: seq<byte> := seq(256, i => 255);
    SumOfRun(256);
    assert Witness()[..256] == run;
    BytewiseIsUnreduced(Sums(1, 0), Witness());
  }

  /** The failing family is not empty: the first half of this checksum is zero, and combining it with that of no bytes at all does
      not give it back. */
  method CombineMissesZero() returns (whole: word, combined: word)
    ensures whole == Join(Bytewise(Sums(1, 0), Witness() + [])) && Halves(whole).s1 == 0
    ensures Halves(combined).s1 == BASE && combined != whole
  {
    hide Bytewise, Join, Witness, CombinedHalves;
    WitnessSum();
    BytewiseReduced(Sums(1, 0), Witness());
    assert Witness() + [] == Witness();
    HalvesOf(1, 0);
    whole := Adler32(1, Witness());
    HalvesOfJoin(Bytewise(Sums(1, 0), Witness()));
    combined := Adler32Combine(whole, 1, 0);
    CombinedWithNone(Halves(whole));
  }

  lemma HalvesOfJoin(s: Sums)
    requires Reduced(s)
    ensures Join(s) <= 0xffff_ffff && Halves(Join(s)) == s
  {
    HalvesOf(s.s1, s.s2);
  }

  lemma CombinedWithNone(s: Sums)
    requires Reduced(s)
    ensures CombinedHalves(s, Sums(1, 0), 0).s1 == s.s1
  {
  }
}
