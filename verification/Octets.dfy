/** Octets, buffers of them, and what copying into a buffer does. */
module Octets {

  /** Octets are modelled as `char`, so that text literals are octet strings. */
  type Octet = char

  /** A size_t has 64 bits. */
  const WORD: int := 0x1_0000_0000_0000_0000

  datatype Option<+T> = None | Some(value: T)

  /** What calloc returns. */
  function Zeros(n: nat): seq<Octet> {
    seq(n, _ => '\0')
  }

  /** memcpy of `p` into `buf` at `at`. */
  function Splice(buf: seq<Octet>, at: nat, p: seq<Octet>): (r: seq<Octet>)
    requires at + |p| <= |buf|
    ensures |r| == |buf|
    ensures r[at..at + |p|] == p
  {
    buf[..at] + p + buf[at + |p|..]
  }

  /** memcpy into an array. */
  method Copy(a: array<Octet>, at: nat, p: seq<Octet>)
    requires at + |p| <= a.Length
    modifies a
    ensures a[..] == Splice(old(a[..]), at, p)
  {
    forall i | 0 <= i < |p| {
      a[at + i] := p[i];
    }
  }

  /** memcpy to position `at` of the part base..base+size of an array. */
  method CopyInto(a: array<Octet>, base: nat, size: nat, at: nat, p: seq<Octet>)
    requires base + size <= a.Length && at + |p| <= size
    modifies a
    ensures a[base..base + size] == Splice(old(a[base..base + size]), at, p)
    ensures a[..base] == old(a[..base]) && a[base + size..] == old(a[base + size..])
  {
    forall i | 0 <= i < |p| {
      a[base + at + i] := p[i];
    }
  }

  lemma SliceOfSlice<T>(s: seq<T>, lo: nat, hi: nat, a: nat, b: nat)
    requires lo <= hi <= |s| && a <= b <= hi - lo
    ensures s[lo..hi][a..b] == s[lo + a..lo + b]
  {
    var x, y := s[lo..hi][a..b], s[lo + a..lo + b];
    assert forall i :: 0 <= i < |x| ==> x[i] == y[i];
  }

  lemma Adjacent<T>(s: seq<T>, a: nat, b: nat, c: nat)
    requires a <= b <= c <= |s|
    ensures s[a..b] + s[b..c] == s[a..c]
  {
  }

  lemma Regroup<T>(a: seq<T>, b: seq<T>, c: seq<T>)
    ensures (a + b) + c == a + (b + c)
  {
  }

  /** Copying the next bytes of a chunk behind its stored prefix extends the prefix. */
  lemma PrefixGrows(chunk: seq<Octet>, slice: seq<Octet>, done: nat, n: nat, tail: seq<Octet>)
    requires done + n <= |chunk| && n <= |tail|
    requires slice == chunk[..done] + tail
    ensures Splice(slice, done, chunk[done..done + n]) == chunk[..done + n] + tail[n..]
  {
    assert slice[..done] == chunk[..done];
    Adjacent(chunk, 0, done, done + n);
    assert slice[done + n..] == tail[n..];
  }

  /** Seen from a part of the memory that contains it, a copy is a copy into that part. */
  lemma SpliceInside(m: seq<Octet>, base: nat, size: nat, at: nat, p: seq<Octet>)
    requires base + size <= |m| && at + |p| <= size
    ensures Splice(m, base + at, p)[base..base + size] == Splice(m[base..base + size], at, p)
  {
    var big, part := Splice(m, base + at, p), m[base..base + size];
    var x, y := big[base..base + size], Splice(part, at, p);
    forall i | 0 <= i < size ensures x[i] == y[i] {
      assert x[i] == big[base + i];
      if i < at {
        assert y[i] == part[i] == m[base + i];
      } else if i < at + |p| {
        assert y[i] == p[i - at] == big[base + i];
      } else {
        assert y[i] == part[i] == m[base + i];
      }
    }
  }

  lemma ZerosTail(n: nat, k: nat)
    requires k <= n
    ensures Zeros(n)[k..] == Zeros(n - k)
  {
  }
}
