/** The scrollback: a fixed-capacity byte ring that keeps the most recently written bytes. */
module Scrollback {
  import opened Bytes

  /** The bytes of a ring in order, oldest first: `size` of them from index `start`, wrapping once. */
  function Unroll(b: seq<byte>, start: nat, size: nat): (r: seq<byte>)
    requires start < |b| && size <= |b|
  {
    seq(size, i requires 0 <= i < size => b[Wrap(start + i, |b|)])
  }

  /** Reduction modulo c of an index that has wrapped at most once. */
  function Wrap(x: nat, c: nat): (r: nat)
    requires x < 2 * c
    ensures r < c
  {
    if x < c then x else x - c
  }

  lemma WrapIsMod(x: nat, c: nat)
    requires 0 < c && x < 2 * c
    ensures x % c == Wrap(x, c)
  {
    if x >= c {
      assert x == c + (x - c);
    }
  }

  /** b with p laid down from index e on, continuing at index 0. */
  function Splice(b: seq<byte>, e: nat, p: seq<byte>): (r: seq<byte>)
    requires e < |b| && |p| < |b|
  {
    seq(|b|, j requires 0 <= j < |b| =>
      if e <= j < e + |p| then p[j - e] else if j + |b| < e + |p| then p[j + |b| - e] else b[j])
  }

  /** Which cell holds byte i once p bytes have been laid down, and who wrote it. */
  lemma CellOf(c: nat, start: nat, size: nat, p: nat, i: nat)
    requires start < c && size <= c && p < c && i < Min(size + p, c)
    ensures var e, over := Wrap(start + size, c), Max(0, size + p - c);
            var j := Wrap(Wrap(start + over, c) + i, c);
            if i + over < size
            then j == Wrap(start + i + over, c) && !(e <= j < e + p) && j + c >= e + p
            else if e <= j < e + p then j - e == i + over - size
            else j + c < e + p && j + c - e == i + over - size
  {
  }

  /** Where byte i of the unrolled ring comes from after p has been laid down: see SpliceAppends. */
  lemma SpliceAt(b: seq<byte>, start: nat, size: nat, p: seq<byte>, i: nat)
    requires start < |b| && size <= |b| && |p| < |b| && i < Min(size + |p|, |b|)
    ensures var c, over := |b|, Max(0, size + |p| - |b|);
            Unroll(Splice(b, Wrap(start + size, c), p), Wrap(start + over, c), Min(size + |p|, c))[i]
            == if i + over < size then Unroll(b, start, size)[i + over] else p[i + over - size]
  {
    CellOf(|b|, start, size, |p|, i);
  }

  /** The index arithmetic of a write: the unrolled ring gains p at the end and loses what no longer fits. */
  lemma SpliceAppends(b: seq<byte>, start: nat, size: nat, p: seq<byte>)
    requires start < |b| && size <= |b| && |p| < |b|
    ensures var c := |b|;
            var over := Max(0, size + |p| - c);
            Unroll(Splice(b, Wrap(start + size, c), p), Wrap(start + over, c), Min(size + |p|, c))
            == Last(Unroll(b, start, size) + p, c)
  {
    var c := |b|;
    var over, z' := Max(0, size + |p| - c), Min(size + |p|, c);
    var got := Unroll(Splice(b, Wrap(start + size, c), p), Wrap(start + over, c), z');
    var want := Last(Unroll(b, start, size) + p, c);
    forall i | 0 <= i < z'
      ensures got[i] == want[i]
    {
      SpliceAt(b, start, size, p, i);
      assert want[i] == (Unroll(b, start, size) + p)[i + over];
    }
  }

  /** What fits before the end of the buffer is laid down ... */
  lemma LaidTail(b: seq<byte>, e: nat, p: seq<byte>, n: nat, mid: seq<byte>)
    requires e < |b| && |p| < |b| && n == Min(|b| - e, |p|)
    requires mid == b[..e] + p[..n] + b[e + n..]
    ensures |mid| == |b| && forall j :: 0 <= j < |b| ==> mid[j] == if e <= j < e + n then p[j - e] else b[j]
    ensures n == |p| ==> mid == Splice(b, e, p)
  {
  }

  /** ... and the rest continues at the front. */
  lemma LaidFront(b: seq<byte>, e: nat, p: seq<byte>, n: nat, mid: seq<byte>, fin: seq<byte>)
    requires e < |b| && |p| < |b| && n == |b| - e < |p| && |mid| == |b|
    requires forall j :: 0 <= j < |b| ==> mid[j] == if e <= j < e + n then p[j - e] else b[j]
    requires fin == mid[..0] + p[n..][..|p| - n] + mid[|p| - n..]
    ensures fin == Splice(b, e, p)
  {
    forall j | 0 <= j < |b|
      ensures fin[j] == Splice(b, e, p)[j]
    {
      assert fin[j] == if j < |p| - n then p[n + j] else mid[j];
    }
  }

  /** Bytes a ring of capacity c has dropped: none as long as everything written fits. */
  predicate Dropped(writes: seq<seq<byte>>, c: nat) {
    |Flatten(writes)| > c
  }

  /** Some one write was at least as long as the whole ring. */
  predicate BigWrite(writes: seq<seq<byte>>, c: nat) {
    exists k :: 0 <= k < |writes| && |writes[k]| >= c
  }

  /** The truncation flag a ring of capacity c shows after these writes. */
  predicate Flag(writes: seq<seq<byte>>, c: nat) {
    Dropped(writes, c) || BigWrite(writes, c)
  }

  lemma {:induction false} WriteWithinStream(writes: seq<seq<byte>>, k: nat)
    requires k < |writes|
    ensures |writes[k]| <= |Flatten(writes)|
  {
    if k > 0 {
      WriteWithinStream(writes[1..], k - 1);
    }
  }

  /**
   The flag is sound but not exact. It claims an eviction that never happened exactly when the
   stream just fills the ring and one single write did so.
   */
  lemma FlagWrongExactly(writes: seq<seq<byte>>, c: nat)
    requires c >= 1
    ensures Dropped(writes, c) ==> Flag(writes, c)
    ensures Flag(writes, c) && !Dropped(writes, c) <==> |Flatten(writes)| == c && BigWrite(writes, c)
  {
    if BigWrite(writes, c) {
      var k :| 0 <= k < |writes| && |writes[k]| >= c;
      WriteWithinStream(writes, k);
    }
  }

  lemma FlagWrongExample()
    ensures Flag([[7, 8]], 2) && !Dropped([[7, 8]], 2)
  {
    FlattenOne([7 as byte, 8]);
    var writes: seq<seq<byte>> := [[7, 8]];
    assert |writes[0]| >= 2;
  }

  /** Keeping the last c elements as the stream grows is keeping the last c of the grown stream. */
  lemma LastGrows(all: seq<byte>, p: seq<byte>, c: nat)
    ensures Last(Last(all, c) + p, c) == Last(all + p, c)
    ensures |p| >= c ==> Last(Last(all, c) + p, c) == Last(p, c)
  {
  }

  lemma BigWriteGrows(writes: seq<seq<byte>>, p: seq<byte>, c: nat)
    ensures BigWrite(writes + [p], c) <==> BigWrite(writes, c) || |p| >= c
  {
    var ws := writes + [p];
    assert ws[|writes|] == p;
    if BigWrite(writes, c) {
      var k :| 0 <= k < |writes| && |writes[k]| >= c;
      assert ws[k] == writes[k];
    }
  }

  /** The flag after one more write, from the flag and the fill before it. */
  lemma FlagGrows(writes: seq<seq<byte>>, p: seq<byte>, c: nat)
    ensures Flag(writes + [p], c) <==> Flag(writes, c) || |p| >= c || Min(|Flatten(writes)|, c) + |p| > c
  {
    FlattenSnoc(writes, p);
    BigWriteGrows(writes, p, c);
  }

  /** The last n bytes of a ring begin size - n cells after its start. */
  lemma UnrollTail(b: seq<byte>, start: nat, size: nat, n: nat)
    requires start < |b| && n <= size <= |b|
    ensures Unroll(b, Wrap(start + (size - n), |b|), n) == Last(Unroll(b, start, size), n)
  {
    var got, want := Unroll(b, Wrap(start + (size - n), |b|), n), Last(Unroll(b, start, size), n);
    forall i | 0 <= i < n
      ensures got[i] == want[i]
    {
      var all := Unroll(b, start, size);
      assert want[i] == all[size - n + i] == b[Wrap(start + (size - n + i), |b|)];
      assert got[i] == b[Wrap(Wrap(start + (size - n), |b|) + i, |b|)];
    }
  }

  class Ring {
    var buf: array<byte>
    var size: nat
    var start: nat
    var totalIn: nat
    var truncated: bool
    ghost var writes: seq<seq<byte>>  // the writes since the last reset

    /** Contents are the last bytes written since the reset, and the counters describe that stream. */
    ghost predicate Valid()
      reads this, buf
    {
      && start < buf.Length && size <= buf.Length
      && totalIn == |Flatten(writes)|
      && Contents() == Last(Flatten(writes), buf.Length)
      && (truncated <==> Flag(writes, buf.Length))
    }

    ghost function Contents(): seq<byte>
      requires start < buf.Length && size <= buf.Length
      reads this, buf
    {
      Unroll(buf[..], start, size)
    }

    constructor (capacity: int)
      ensures Valid() && fresh(buf) && writes == []
      ensures buf.Length == Max(1, capacity)
    {
      var c := if capacity < 1 then 1 else capacity;
      buf := new byte[c](_ => 0);
      size, start, totalIn, truncated := 0, 0, 0, false;
      writes := [];
    }

    /** An index reduced modulo the capacity. */
    method Index(x: nat) returns (r: nat)
      requires x < 2 * buf.Length
      ensures r == Wrap(x, buf.Length)
    {
      WrapIsMod(x, buf.Length);
      r := x % buf.Length;
    }

    /** Go's copy(buf[at..], src): as many elements as fit. */
    method Copy(at: nat, src: seq<byte>) returns (n: nat)
      requires at <= buf.Length
      modifies buf
      ensures n == Min(buf.Length - at, |src|)
      ensures buf[..] == old(buf[..at]) + src[..n] + old(buf[at + n..])
    {
      n := Min(buf.Length - at, |src|);
      forall k | 0 <= k < n {
        buf[at + k] := src[k];
      }
    }

    /** Lays p down from index end on, wrapping to the front. */
    method Lay(end: nat, p: seq<byte>)
      requires end < buf.Length && |p| < buf.Length
      modifies buf
      ensures buf[..] == Splice(old(buf[..]), end, p)
    {
      ghost var was := buf[..];
      var n := Copy(end, p);
      ghost var mid := buf[..];
      LaidTail(was, end, p, n, mid);
      if n < |p| {
        var _ := Copy(0, p[n..]);
        LaidFront(was, end, p, n, mid, buf[..]);
      }
    }

    /** A write at least as long as the ring: keep only its tail. */
    method Overwrite(p: seq<byte>)
      requires |p| >= buf.Length >= 1
      modifies this`size, this`start, this`truncated, buf
      ensures start < buf.Length && size <= buf.Length && truncated
      ensures Contents() == Last(p, buf.Length)
    {
      var c := buf.Length;
      var _ := Copy(0, p[|p| - c..]);
      start, size, truncated := 0, c, true;
      ghost var cells := Unroll(buf[..], 0, c);
      assert forall k :: 0 <= k < c ==> cells[k] == buf[..][Wrap(0 + k, c)];
      assert cells == buf[..];
    }

    /** A shorter write: lay it down after the newest byte and advance past what it overwrote. */
    method Append(p: seq<byte>)
      requires start < buf.Length && size <= buf.Length && |p| < buf.Length
      modifies this`size, this`start, this`truncated, buf
      ensures start < buf.Length && size <= buf.Length
      ensures Contents() == Last(old(Contents()) + p, buf.Length)
      ensures truncated <==> old(truncated) || old(size) + |p| > buf.Length
    {
      ghost var was, s0, z0 := buf[..], start, size;
      var c := buf.Length;
      var end := Index(start + size);
      Lay(end, p);
      SpliceAppends(was, s0, z0, p);
      var free := c - size;
      if |p| > free {
        var over := |p| - free;
        start := Index(start + over);
        size, truncated := c, true;
      } else {
        size := size + |p|;
      }
    }

    method Write(p: seq<byte>)
      requires Valid()
      modifies this`size, this`start, this`totalIn, this`truncated, this`writes, buf
      ensures Valid()
      ensures writes == old(writes) + [p]
      ensures totalIn == old(totalIn) + |p|
      ensures Contents() == Last(old(Contents()) + p, buf.Length)
    {
      LastGrows(Flatten(writes), p, buf.Length);
      FlagGrows(writes, p, buf.Length);
      FlattenSnoc(writes, p);
      totalIn := totalIn + |p|;
      if |p| >= buf.Length {
        Overwrite(p);
      } else {
        Append(p);
      }
      writes := writes + [p];
    }

    method Reset()
      requires Valid()
      modifies this`size, this`start, this`totalIn, this`truncated, this`writes
      ensures Valid()
      ensures writes == [] && totalIn == 0 && !truncated && Contents() == []
    {
      size, start, totalIn, truncated := 0, 0, 0, false;
      writes := [];
    }

    /** The most recent maxBytes bytes, or everything for maxBytes <= 0. */
    method Snapshot(maxBytes: int) returns (out: array<byte>, trunc: bool)
      requires Valid()
      ensures fresh(out)
      ensures out[..] == if maxBytes > 0 then Last(Contents(), maxBytes) else Contents()
      ensures trunc <==> truncated || 0 < maxBytes < |Contents()|
    {
      var n := size;
      if maxBytes > 0 && maxBytes < n {
        n := maxBytes;
      }
      trunc := truncated || (maxBytes > 0 && maxBytes < size);
      out := Newest(n);
    }

    /** The newest n bytes. */
    method Newest(n: nat) returns (out: array<byte>)
      requires start < buf.Length && n <= size <= buf.Length
      ensures fresh(out) && out[..] == Last(Contents(), n)
    {
      UnrollTail(buf[..], start, size, n);
      var begin := Index(start + (size - n));
      out := CopyOut(begin, n);
    }

    /** n bytes in ring order, from index begin on. */
    method CopyOut(begin: nat, n: nat) returns (out: array<byte>)
      requires begin < buf.Length && n <= buf.Length
      ensures fresh(out) && out[..] == Unroll(buf[..], begin, n)
    {
      out := new byte[n](_ => 0);
      var first := Min(n, buf.Length - begin);
      forall k | 0 <= k < first {
        out[k] := buf[begin + k];
      }
      if first < n {
        forall k | first <= k < n {
          out[k] := buf[k - first];
        }
      }
      ghost var want := Unroll(buf[..], begin, n);
      assert forall k :: 0 <= k < n ==> want[k] == buf[..][Wrap(begin + k, buf.Length)];
      assert forall k :: 0 <= k < n ==> out[k] == want[k];
      assert out[..] == want;
    }
  }
}
