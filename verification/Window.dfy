/** The circular history of inflate: updatewindow (src/ext/zlib/inflate.c). */
module Window {
  import opened Bits
  import Adler32

  type byte = Adler32.byte

  /** Where the byte `back` bytes before the write position is. */
  function Behind(write: nat, wsize: nat, back: nat): nat
    requires 0 < back <= wsize && write < wsize
  {
    if back > write then wsize - (back - write) else write - back
  }

  /** The last bytes of `done` are in the window, the most recent one just before `write`. */
  ghost predicate Records(window: seq<byte>, wsize: nat, whave: nat, write: nat, done: seq<byte>) {
    && wsize > 0 && |window| == wsize && write < wsize
    && whave == (if |done| < wsize then |done| else wsize) && (whave < wsize ==> write == whave)
    && forall back | 0 < back <= whave :: window[Behind(write, wsize, back)] == done[|done| - back]
  }

  /** The window read from its oldest byte on, around its end: the last bytes of the output, in order. */
  lemma ReadBack(window: seq<byte>, wsize: nat, whave: nat, write: nat, done: seq<byte>, i: nat)
    requires Records(window, wsize, whave, write, done) && i < whave
    ensures window[(write + wsize - whave + i) % wsize] == done[|done| - whave + i]
    ensures whave == wsize || (write + wsize - whave + i) % wsize == i
  {
    var back := whave - i;
    var at := write + wsize - back;
    assert window[Behind(write, wsize, back)] == done[|done| - back];
    if back > write {
      ModSmall(at, wsize);
    } else {
      ModOver(at, wsize);
    }
  }

  lemma ModSmall(a: nat, n: nat)
    requires a < n
    ensures a % n == a
  {
  }

  lemma ModOver(a: nat, n: nat)
    requires n <= a < 2 * n
    ensures a % n == a - n
  {
    ModSmall(a - n, n);
    assert a == (a - n) + n * 1;
  }

  /** zmemcpy between two arrays. */
  method CopyBytes(dst: array<byte>, at: nat, src: array<byte>, from: nat, n: nat)
    requires at + n <= dst.Length && from + n <= src.Length && dst != src
    modifies dst
    ensures dst[..] == old(dst[..])[..at] + src[from..from + n] + old(dst[..])[at + n..]
  {
    for i := 0 to n
      invariant forall j | 0 <= j < dst.Length :: dst[j] == if at <= j < at + i then src[from + j - at] else old(dst[j])
    {
      dst[at + i] := src[from + i];
    }
  }

  /** Stores the last `copy` bytes before `put`: the first `dist` of them from `write` on, the rest at the start. */
  method StoreParts(window: array<byte>, write: nat, output: array<byte>, put: nat, copy: nat, dist: nat)
    requires window != output && write < window.Length && copy <= put <= output.Length && copy < window.Length
    requires dist == if copy < window.Length - write then copy else window.Length - write
    modifies window
    ensures var w0, w1, new0 := old(window[..]), window[..], output[put - copy..put];
      if dist < copy then w1 == new0[dist..] + w0[copy - dist..write] + new0[..dist]
      else w1 == w0[..write] + new0 + w0[write + dist..]
  {
    ghost var new0 := output[put - copy..put];
    CopyBytes(window, write, output, put - copy, dist);
    assert output[put - copy..put - copy + dist] == new0[..dist];
    if copy != dist {
      CopyBytes(window, 0, output, put - (copy - dist), copy - dist);
      assert output[put - (copy - dist)..put] == new0[dist..];
    }
  }

  class CircularWindow {
    const wbits: nat
    var window: array?<byte>
    var wsize: nat
    var whave: nat
    var write: nat
    /** All output that has been recorded. */
    ghost var done: seq<byte>

    ghost predicate Valid()
      reads this, window
    {
      if wsize == 0 then done == [] && whave == 0
      else wsize == Pow2(wbits) && window != null && Records(window[..], wsize, whave, write, done)
    }

    constructor (wbits: nat)
      ensures Valid() && this.wbits == wbits && wsize == 0 && window == null && done == []
    {
      this.wbits := wbits;
      window, wsize, whave, write, done := null, 0, 0, 0, [];
    }

    /** Allocates and initializes the window when it is first needed. */
    method Prepare(output: array<byte>)
      requires Valid() && output != window
      modifies this
      ensures Valid() && wsize == Pow2(wbits) && done == old(done) && window != null && window != output
      ensures window == old(window) || fresh(window)
      ensures Records(window[..], wsize, whave, write, done)
    {
      hide Records, Pow2;
      if wsize == 0 {
        if window == null || window.Length != Pow2(wbits) {
          window := new byte[Pow2(wbits)];
        }
        wsize, write, whave := Pow2(wbits), 0, 0;
        StartEmpty(window[..], wsize);
      }
    }

    /** At least as many bytes as the window holds: the last of them fill it. */
    method StoreAll(output: array<byte>, put: nat, copy: nat)
      requires Valid() && wsize > 0 && output != window && wsize <= copy <= put <= output.Length
      modifies this`write, this`whave, this`done, window
      ensures Valid() && done == old(done) + output[put - copy..put]
    {
      hide Records;
      RecordsShape(window[..], wsize, whave, write, done);
      ghost var new0 := output[put - copy..put];
      CopyBytes(window, 0, output, put - wsize, wsize);
      assert window[..] == new0[copy - wsize..];
      RecordAll(window[..], wsize, done, new0);
      write, whave := 0, wsize;
      done := done + new0;
    }

    /** Fewer bytes than the window holds: they go in around its end. */
    method StoreSome(output: array<byte>, put: nat, copy0: nat)
      requires Valid() && wsize > 0 && output != window && copy0 < wsize && copy0 <= put <= output.Length
      modifies this`write, this`whave, this`done, window
      ensures Valid() && done == old(done) + output[put - copy0..put]
    {
      hide Records;
      RecordsShape(window[..], wsize, whave, write, done);
      ghost var w0, new0 := window[..], output[put - copy0..put];
      var copy, dist := copy0, wsize - write;
      if dist > copy {
        dist := copy;
      }
      StoreParts(window, write, output, put, copy, dist);
      copy := copy - dist;
      if copy != 0 {
        RecordAround(w0, window[..], wsize, whave, write, done, new0);
        write, whave := copy, wsize;
      } else {
        RecordMore(w0, window[..], wsize, whave, write, done, new0);
        write := write + dist;
        if write == wsize {
          write := 0;
        }
        if whave < wsize {
          whave := whave + dist;
        }
      }
      done := done + new0;
    }

    /** Records the last `copy` bytes before output position `put`. */
    method UpdateWindow(output: array<byte>, put: nat, copy: nat)
      requires Valid() && copy <= put <= output.Length && output != window
      modifies this, window
      ensures Valid() && wsize == Pow2(wbits) && done == old(done) + output[put - copy..put]
      ensures window == old(window) || fresh(window)
    {
      hide Records, Pow2;
      Prepare(output);
      if copy >= wsize {
        StoreAll(output, put, copy);
      } else {
        StoreSome(output, put, copy);
      }
    }
  }

  lemma StartEmpty(window: seq<byte>, wsize: nat)
    requires |window| == wsize > 0
    ensures Records(window, wsize, 0, 0, [])
  {
  }

  lemma RecordsShape(window: seq<byte>, wsize: nat, whave: nat, write: nat, done: seq<byte>)
    requires Records(window, wsize, whave, write, done)
    ensures |window| == wsize > 0 && write < wsize && whave <= wsize && (whave < wsize ==> write == whave)
  {
  }

  lemma RecordAll(window: seq<byte>, wsize: nat, done: seq<byte>, new0: seq<byte>)
    requires wsize > 0 && |window| == wsize <= |new0| && window == new0[|new0| - wsize..]
    ensures Records(window, wsize, wsize, 0, done + new0)
  {
  }

  /** The new bytes reach the end of the window and go on at its start. */
  lemma RecordAround(w0: seq<byte>, w1: seq<byte>, wsize: nat, whave: nat, write: nat, done: seq<byte>, new0: seq<byte>)
    requires Records(w0, wsize, whave, write, done) && wsize - write < |new0| < wsize && |w1| == wsize
    requires w1 == new0[wsize - write..] + w0[|new0| - (wsize - write)..write] + new0[..wsize - write]
    ensures Records(w1, wsize, wsize, |new0| - (wsize - write), done + new0)
  {
    var write' := |new0| - (wsize - write);
    forall back | 0 < back <= wsize ensures w1[Behind(write', wsize, back)] == (done + new0)[|done + new0| - back] {
      if back > |new0| {
        assert w0[Behind(write, wsize, back - |new0|)] == done[|done| - (back - |new0|)];
      }
    }
  }

  /** The new bytes fit before the end of the window. */
  lemma RecordMore(w0: seq<byte>, w1: seq<byte>, wsize: nat, whave: nat, write: nat, done: seq<byte>, new0: seq<byte>)
    requires Records(w0, wsize, whave, write, done) && write + |new0| <= wsize && |w1| == wsize && |new0| < wsize
    requires w1 == w0[..write] + new0 + w0[write + |new0|..]
    ensures Records(w1, wsize, if whave < wsize then whave + |new0| else whave,
                    if write + |new0| == wsize then 0 else write + |new0|, done + new0)
  {
    var whave' := if whave < wsize then whave + |new0| else whave;
    var write' := if write + |new0| == wsize then 0 else write + |new0|;
    forall back | 0 < back <= whave' ensures w1[Behind(write', wsize, back)] == (done + new0)[|done + new0| - back] {
      if back > |new0| {
        assert w0[Behind(write, wsize, back - |new0|)] == done[|done| - (back - |new0|)];
      }
    }
  }
}
