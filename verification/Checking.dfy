/** The check value of a zlib stream, carried on from call to call. */
module Checking {
  import opened Inflation
  import Adler32

  lemma JoinHalves(s: Adler32.Sums)
    requires Adler32.Reduced(s)
    ensures Adler32.Join(s) < 0x1_0000_0000 && Adler32.Halves(Adler32.Join(s)) == s
  {
  }

  /** The check value of what has gone by is carried on over more bytes. */
  method UpdateCheck(check0: Adler32.word, bytes: seq<byte>, ghost base: seq<byte>) returns (check: Adler32.word)
    requires check0 == Check(base)
    ensures check == Check(base + bytes)
  {
    hide Adler32.Bytewise, Adler32.Join, Adler32.Halves;
    CheckReduced(base);
    ghost var s := Adler32.Bytewise(Adler32.Sums(1, 0), base);
    JoinHalves(s);
    check := Adler32.Adler32(check0, bytes);
    Adler32.BytewiseAppend(Adler32.Sums(1, 0), base, bytes);
  }

  lemma CheckReduced(h: seq<byte>)
    ensures Adler32.Reduced(Adler32.Bytewise(Adler32.Sums(1, 0), h))
  {
    Adler32.BytewiseReduced(Adler32.Sums(1, 0), h);
  }

}
