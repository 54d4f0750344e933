/** The description of the codes in front of a block with dynamic Huffman codes (section 3.2.7 of RFC 1951), as
    send_all_trees of src/ext/zlib/trees.c sends it, read back by the machine that models inflate. */
module Headers {
  import opened Bits
  import opened Canonical
  import opened Streams
  import opened DecodeTables
  import opened InfTrees
  import opened Reading
  import opened Inflation
  import opened Blocks
  import opened RunLength

  // ---------------------------------------------------------------- run-length codes

  ghost predicate OpsCoded(cl: seq<nat>, ops: seq<Op>) {
    forall i | 0 <= i < |ops| :: HasCode(cl, ops[i].sym) && Fits(ops[i])
  }

  ghost function OpBitsOf(cl: seq<nat>, op: Op): seq<bool>
    requires HasCode(cl, op.sym)
  {
    Bitstring(cl, op.sym) + LsbBits(op.extra, ExtraBits(op.sym))
  }

  ghost function OpsBitsOf(cl: seq<nat>, ops: seq<Op>): seq<bool>
    requires OpsCoded(cl, ops)
  {
    if ops == [] then [] else OpsBitsOf(cl, ops[..|ops| - 1]) + OpBitsOf(cl, ops[|ops| - 1])
  }

  /** A field behind a code. */
  lemma ReadsBehind(x: seq<bool>, v: nat, n: nat, rest: seq<bool>)
    requires v < Pow2(n)
    ensures |x + LsbBits(v, n) + rest| >= |x| + n && Field((x + LsbBits(v, n) + rest)[|x|..], n) == v
  {
    hide Pow2, LsbBits, Field;
    assert (x + LsbBits(v, n) + rest)[|x|..] == LsbBits(v, n) + rest;
    ReadsField(v, n, rest);
  }

  lemma OpDecodes(m: Machine, op: Op, rest: seq<bool>)
    requires Proper(m) && m.mode == CODELENS && HasCode(m.ll, op.sym) && Fits(op) && (op.sym == 16 ==> m.lens != [])
    requires |m.lens| < |Grow(m.lens, op)| <= m.nlen + m.ndist
    ensures var n := m.(lens := Grow(m.lens, op));
      && Proper(n) && Run(m, OpBitsOf(m.ll, op) + rest) == Run(n, rest)
      && Rest(m, OpBitsOf(m.ll, op) + rest) == Rest(n, rest)
  {
    hide Bitstring, Run, Rest, Acceptable, ReadSymbol, LsbBits, Pow2;
    var x, k := Bitstring(m.ll, op.sym), ExtraBits(op.sym);
    var y := LsbBits(op.extra, k);
    ReadsSymbol(CODES, m.ll, op.sym, y + rest);
    assert x + y + rest == x + (y + rest);
    var n := m.(lens := Grow(m.lens, op));
    if op.sym >= 16 {
      ReadsBehind(x, op.extra, k, rest);
      RepeatGrows(m, op, x + y + rest);
    } else {
      assert y == [];
    }
    OneStep(m, x + y, rest, n);
  }

  lemma RepeatGrows(m: Machine, op: Op, b: seq<bool>)
    requires m.mode == CODELENS && 16 <= op.sym <= 18 && (op.sym == 16 ==> m.lens != []) && op.sym < |m.ll|
    requires |b| >= m.ll[op.sym] + ExtraBits(op.sym) && Field(b[m.ll[op.sym]..], ExtraBits(op.sym)) == op.extra
    requires |Grow(m.lens, op)| <= m.nlen + m.ndist
    ensures RepeatStep(m, b, op.sym, m.ll[op.sym])
         == Take(m.ll[op.sym] + ExtraBits(op.sym), m.(lens := Grow(m.lens, op)))
  {
    hide Field;
    var copy := (if op.sym == 18 then 11 else 3) + op.extra;
    var x := if op.sym == 16 then m.lens[|m.lens| - 1] else 0;
    assert Grow(m.lens, op) == m.lens + Repeat(x, copy);
  }

  lemma GrowGrows(lens: seq<nat>, op: Op)
    requires op.sym == 16 ==> lens != []
    ensures |lens| < |Grow(lens, op)|
  {
  }

  lemma GrownLast(lens: seq<nat>, ops: seq<Op>)
    requires ops != [] && Decodable(lens, ops)
    ensures var us, op := ops[..|ops| - 1], ops[|ops| - 1];
      && Decodable(lens, us) && (op.sym == 16 ==> Grown(lens, us) != [])
      && Grown(lens, ops) == Grow(Grown(lens, us), op)
    decreases |ops|
  {
    hide Grow;
    var us, op := ops[..|ops| - 1], ops[|ops| - 1];
    if |ops| > 1 {
      GrownLast(Grow(lens, ops[0]), ops[1..]);
      assert ops[1..][..|ops| - 2] == us[1..];
    } else {
      assert ops == [op] && us == [];
      assert ops[1..] == [];
    }
  }

  lemma {:induction false} OpsDecodeAll(m: Machine, ops: seq<Op>, rest: seq<bool>)
    requires Proper(m) && m.mode == CODELENS && OpsCoded(m.ll, ops) && Decodable(m.lens, ops)
    requires |Grown(m.lens, ops)| <= m.nlen + m.ndist
    ensures var n := m.(lens := Grown(m.lens, ops));
      && Proper(n) && Run(m, OpsBitsOf(m.ll, ops) + rest) == Run(n, rest)
      && Rest(m, OpsBitsOf(m.ll, ops) + rest) == Rest(n, rest)
    decreases |ops|
  {
    hide Bitstring, Run, Rest, Proper, Decodable, Grow, OpBitsOf, Fits;
    if ops == [] {
      assert [] + rest == rest;
    } else {
      var us, op := ops[..|ops| - 1], ops[|ops| - 1];
      GrownLast(m.lens, ops);
      GrowGrows(Grown(m.lens, us), op);
      var x, y := OpsBitsOf(m.ll, us), OpBitsOf(m.ll, op);
      OpsDecodeAll(m, us, y + rest);
      assert x + y + rest == x + (y + rest);
      OpDecodes(m.(lens := Grown(m.lens, us)), op, rest);
    }
  }

  // ---------------------------------------------------------------- the lengths of the code length code

  ghost function StoredLengths(cl: seq<nat>, n: nat): seq<bool>
    requires |cl| == 19 && n <= 19
  {
    if n == 0 then [] else StoredLengths(cl, n - 1) + LsbBits(cl[ORDER[n - 1]], 3)
  }

  ghost function InStoredOrder(cl: seq<nat>, n: nat): (r: seq<nat>)
    requires |cl| == 19 && n <= 19
    ensures |r| == n && forall i | 0 <= i < n :: r[i] == cl[ORDER[i]]
  {
    seq(n, i requires 0 <= i < n => cl[ORDER[i]])
  }

  lemma LenLensProperWith(m: Machine, cl: seq<nat>, n: nat)
    requires Proper(m) && m.mode == LENLENS && |cl| == 19 && n <= m.ncode && forall i | 0 <= i < 19 :: cl[i] <= 7
    ensures m.ncode <= 19 && Proper(m.(lens := InStoredOrder(cl, n)))
    ensures n > 0 ==> ORDER[n - 1] < 19 && Proper(m.(lens := InStoredOrder(cl, n - 1)))
  {
    hide Usable, Pow2;
  }

  lemma {:induction false} LenLensDecode(m: Machine, cl: seq<nat>, n: nat, rest: seq<bool>)
    requires Proper(m) && m.mode == LENLENS && m.lens == [] && |cl| == 19 && n <= m.ncode
    requires forall i | 0 <= i < 19 :: cl[i] <= 7
    ensures var r := m.(lens := InStoredOrder(cl, n));
      && Proper(r) && Run(m, StoredLengths(cl, n) + rest) == Run(r, rest)
      && Rest(m, StoredLengths(cl, n) + rest) == Rest(r, rest)
  {
    hide Run, Rest, LsbBits, Field, Pow2, Next, Proper;
    LenLensProperWith(m, cl, n);
    if n == 0 {
      assert [] + rest == rest && InStoredOrder(cl, 0) == m.lens;
    } else {
      var l := cl[ORDER[n - 1]];
      var x, y := StoredLengths(cl, n - 1), LsbBits(l, 3);
      LenLensDecode(m, cl, n - 1, y + rest);
      assert x + y + rest == x + (y + rest);
      Pow2Values();
      ReadsField(l, 3, rest);
      var r := m.(lens := InStoredOrder(cl, n - 1));
      assert r.lens + [l] == InStoredOrder(cl, n);
      LenLensTakes(r, y + rest);
      OneStep(r, y, rest, m.(lens := InStoredOrder(cl, n)));
    }
  }

  lemma LenLensTakes(m: Machine, b: seq<bool>)
    requires Proper(m) && m.mode == LENLENS && |m.lens| < m.ncode && |b| >= 3
    ensures Next(m, b) == Take(3, m.(lens := m.lens + [Field(b, 3)]))
  {
    hide Field, Acceptable;
  }

  /** Lengths that are zero beyond what is stored are put back in place. */
  lemma PermutedBack(cl: seq<nat>, n: nat)
    requires |cl| == 19 && n <= 19 && forall i | n <= i < 19 :: cl[ORDER[i]] == 0
    ensures Permuted(InStoredOrder(cl, n)) == cl
  {
    forall i | 0 <= i < 19 ensures Permuted(InStoredOrder(cl, n))[i] == cl[i] {
      OrderIsPermutation(i);
    }
  }

  // ---------------------------------------------------------------- the whole header

  ghost predicate Describes(ll: seq<nat>, dd: seq<nat>, cl: seq<nat>, n: nat, lops: seq<Op>, dops: seq<Op>) {
    && 257 <= |ll| <= 286 && 1 <= |dd| <= 30 && |cl| == 19 && 4 <= n <= 19
    && Usable(LENS, ll) && Usable(DISTS, dd) && Usable(CODES, cl)
    && (forall i | 0 <= i < 19 :: cl[i] <= 7) && (forall i | n <= i < 19 :: cl[ORDER[i]] == 0)
    && OpsCoded(cl, lops) && OpsCoded(cl, dops)
    && Decodable([], lops) && Grown([], lops) == ll && Decodable(ll, dops) && Grown(ll, dops) == ll + dd
  }

  ghost function HeaderBits(lcodes: nat, dcodes: nat, cl: seq<nat>, n: nat, lops: seq<Op>, dops: seq<Op>): seq<bool>
    requires 257 <= lcodes <= 286 && 1 <= dcodes <= 30 && |cl| == 19 && 4 <= n <= 19 && OpsCoded(cl, lops)
      && OpsCoded(cl, dops)
  {
    LsbBits(lcodes - 257, 5) + LsbBits(dcodes - 1, 5) + LsbBits(n - 4, 4) + StoredLengths(cl, n)
      + OpsBitsOf(cl, lops) + OpsBitsOf(cl, dops)
  }

  lemma SizesDecode(m: Machine, nlen: nat, ndist: nat, ncode: nat, rest: seq<bool>)
    requires Proper(m) && m.mode == TABLE && 257 <= nlen <= 286 && 1 <= ndist <= 30 && 4 <= ncode <= 19
    ensures var b := LsbBits(nlen - 257, 5) + LsbBits(ndist - 1, 5) + LsbBits(ncode - 4, 4);
      var n := m.(mode := LENLENS, nlen := nlen, ndist := ndist, ncode := ncode, lens := []);
      Proper(n) && Run(m, b + rest) == Run(n, rest) && Rest(m, b + rest) == Rest(n, rest)
  {
    hide Run, Rest, LsbBits, Field, Pow2;
    Pow2Values();
    var x, y, z := LsbBits(nlen - 257, 5), LsbBits(ndist - 1, 5), LsbBits(ncode - 4, 4);
    var b := x + y + z + rest;
    ReadsField(nlen - 257, 5, y + z + rest);
    assert b == x + (y + z + rest);
    ReadsBehind(x, ndist - 1, 5, z + rest);
    assert b == x + y + (z + rest);
    ReadsBehind(x + y, ncode - 4, 4, rest);
    OneStep(m, x + y + z, rest, m.(mode := LENLENS, nlen := nlen, ndist := ndist, ncode := ncode, lens := []));
  }

  lemma CodeLengthsKnown(m: Machine, cl: seq<nat>, rest: seq<bool>)
    requires Proper(m) && m.mode == LENLENS && |m.lens| == m.ncode && Permuted(m.lens) == cl && Usable(CODES, cl)
    ensures var n := m.(mode := CODELENS, lens := [], ll := cl);
      Proper(n) && Run(m, rest) == Run(n, rest) && Rest(m, rest) == Rest(n, rest)
  {
    hide Run, Rest, Acceptable;
    assert [] + rest == rest;
    OneStep(m, [], rest, m.(mode := CODELENS, lens := [], ll := cl));
  }

  lemma CodesKnown(m: Machine, ll: seq<nat>, dd: seq<nat>, rest: seq<bool>)
    requires Proper(m) && m.mode == CODELENS && |ll| == m.nlen && |dd| == m.ndist && m.lens == ll + dd
    requires Usable(LENS, ll) && Usable(DISTS, dd)
    ensures var n := m.(mode := LEN, ll := ll, dd := dd);
      Proper(n) && Run(m, rest) == Run(n, rest) && Rest(m, rest) == Rest(n, rest)
  {
    hide Run, Rest, Acceptable, ReadSymbol;
    assert [] + rest == rest;
    assert m.lens[..m.nlen] == ll && m.lens[m.nlen..] == dd;
    OneStep(m, [], rest, m.(mode := LEN, ll := ll, dd := dd));
  }

  /** The machine reads the codes that have been described. */
  lemma HeaderGrouped(a: seq<bool>, s: seq<bool>, x: seq<bool>, y: seq<bool>, rest: seq<bool>)
    ensures a + s + x + y + rest == a + (s + (x + (y + rest)))
  {
  }

  lemma HeaderDecodes(m: Machine, ll: seq<nat>, dd: seq<nat>, cl: seq<nat>, n: nat, lops: seq<Op>, dops: seq<Op>, rest: seq<bool>)
    requires Proper(m) && m.mode == TABLE && Describes(ll, dd, cl, n, lops, dops)
    ensures var r := m.(mode := LEN, nlen := |ll|, ndist := |dd|, ncode := n, lens := ll + dd, ll := ll, dd := dd);
      && Proper(r) && Run(m, HeaderBits(|ll|, |dd|, cl, n, lops, dops) + rest) == Run(r, rest)
      && Rest(m, HeaderBits(|ll|, |dd|, cl, n, lops, dops) + rest) == Rest(r, rest)
  {
    hide Run, Rest, LsbBits, Usable, Proper, OpsBitsOf, StoredLengths, Decodable, Grown, OpsCoded, Permuted, InStoredOrder;
    var a := LsbBits(|ll| - 257, 5) + LsbBits(|dd| - 1, 5) + LsbBits(n - 4, 4);
    var s, x, y := StoredLengths(cl, n), OpsBitsOf(cl, lops), OpsBitsOf(cl, dops);
    HeaderGrouped(a, s, x, y, rest);
    SizesDecode(m, |ll|, |dd|, n, s + (x + (y + rest)));
    var m1 := m.(mode := LENLENS, nlen := |ll|, ndist := |dd|, ncode := n, lens := []);
    LenLensDecode(m1, cl, n, x + (y + rest));
    PermutedBack(cl, n);
    var m2 := m1.(lens := InStoredOrder(cl, n));
    CodeLengthsKnown(m2, cl, x + (y + rest));
    var m3 := m2.(mode := CODELENS, lens := [], ll := cl);
    OpsDecodeAll(m3, lops, y + rest);
    OpsDecodeAll(m3.(lens := ll), dops, rest);
    CodesKnown(m3.(lens := ll + dd), ll, dd, rest);
  }
}
