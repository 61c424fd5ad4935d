/** The receive and send buffer of src/acbuf.h: a block of bytes with a read and a write index. */
module Buffer {
  import opened Text

  class AcBuf {
    var r: nat
    var w: nat
    const capacity: nat
    const buf: array<char>

    ghost predicate Valid()
      reads this
    {
      r <= w <= capacity && buf.Length == capacity + 1
    }

    /** The bytes that are in the buffer. */
    ghost function Contents(): (s: string)
      requires Valid()
      reads this, buf
      ensures |s| == w - r
    {
      buf[r..w]
    }

    constructor (capa: nat)
      ensures Valid() && fresh(buf) && Contents() == "" && capacity == capa
    {
      r, w, capacity := 0, 0, capa;
      buf := new char[capa + 1](_ => '\0');
    }

    function Size(): nat
      requires Valid()
      reads this
    {
      w - r
    }

    function FreeCapa(): nat
      requires Valid()
      reads this
    {
      capacity - w
    }

    function View(): (s: string)
      requires Valid()
      reads this, buf
      ensures s == Contents()
    {
      buf[r..w]
    }

    method Clear()
      requires Valid()
      modifies this
      ensures Valid() && Contents() == "" && FreeCapa() == capacity
    {
      w, r := 0, 0;
    }

    /** Forgets the first `count` bytes; an emptied buffer starts over with its full space. Nothing
        keeps the caller from a negative number, which brings back as many bytes from in front of
        the read index, whatever they are. */
    method Drop(count: int)
      requires Valid() && 0 <= r + count && count <= Size()
      modifies this
      ensures Valid()
      ensures 0 <= count ==> Contents() == old(Contents())[count..]
      ensures count < 0 ==> Contents() == old(buf[r + count..r]) + old(Contents())
      ensures Contents() == "" ==> FreeCapa() == capacity
    {
      if count < 0 { Adjacent(buf[..], r + count, r, w); }
      r := r + count;
      if r == w { Clear(); }
    }

    /** Keeps only the first `pos` bytes. */
    method Erase(pos: nat)
      requires Valid() && pos <= Size()
      modifies this
      ensures Valid() && Contents() == old(Contents())[..pos]
    {
      w := r + pos;
      if r == w { Clear(); }
    }

    /** Moves the bytes, and the terminator behind them, to the front of the block. */
    method Move()
      requires Valid()
      modifies this, buf
      ensures Valid() && Contents() == old(Contents())
      ensures FreeCapa() == capacity - Size()
    {
      if r == 0 { return; }
      forall i | 0 <= i < w + 1 - r {
        buf[i] := buf[r + i];
      }
      w := w - r;
      r := 0;
    }

    /** Writes the terminator C string functions rely on; the contents do not change. */
    method Terminate()
      requires Valid()
      modifies buf
      ensures Valid() && Contents() == old(Contents()) && buf[w] == '\0'
    {
      buf[w] := '\0';
    }

    /** sysread: takes as many of the offered bytes as the limit and the space allow. */
    method SysRead(offered: string, maxlen: nat) returns (n: nat)
      requires Valid()
      modifies this, buf
      ensures Valid() && n <= |offered| && n <= maxlen && n <= old(FreeCapa())
      ensures n == |offered| || n == maxlen || n == old(FreeCapa())
      ensures Contents() == old(Contents()) + offered[..n]
    {
      n := if maxlen < FreeCapa() then maxlen else FreeCapa();
      if |offered| < n { n := |offered|; }
      ghost var was := Contents();
      forall i | 0 <= i < n {
        buf[w + i] := offered[i];
      }
      assert forall i :: r <= i < w ==> buf[i] == was[i - r];
      assert forall i :: w <= i < w + n ==> buf[i] == offered[i - w];
      TwoParts(buf[..], r, was, offered[..n]);
      w := w + n;
    }
  }

  lemma TwoParts(s: string, at: nat, a: string, b: string)
    requires at + |a| + |b| <= |s|
    requires forall i :: at <= i < at + |a| ==> s[i] == a[i - at]
    requires forall i :: at + |a| <= i < at + |a| + |b| ==> s[i] == b[i - at - |a|]
    ensures s[at..at + |a| + |b|] == a + b
  {
  }

  lemma Adjacent(s: string, a: nat, b: nat, c: nat)
    requires a <= b <= c <= |s|
    ensures s[a..c] == s[a..b] + s[b..c]
  {
  }
}
