/**
  The TCP transfer (ftp/server.c, ftp/client.c): one connection, a server that
  reads the file in pieces and writes each piece in pieces, and a worker that
  receives the byte stream in pieces of its own.  A run interleaves the two
  sides in any way, cuts reads, writes and receives anywhere, and lets any of
  them fail.

  TCP delivers the bytes that were written, in order; the worker has read some
  prefix of them.
 */
module Stream {
  import opened Octets
  import opened StopAndWait
  import opened Partition

  const CHUNK_BUFFER: nat := 1048576

  /**
    `Pending` is connected and not accepted yet.  `Astray` is about to write from
    in front of its buffer; what it sends from then on is not defined.
   */
  datatype Server = Pending
                  | Reading(pos: nat, remaining: nat)
                  | Writing(pos: nat, remaining: nat, buf: seq<Octet>, toSend: nat, total: nat)
                  | Closed
                  | Astray

  datatype Client = Taking | Stored | Broken

  /** `stream` is everything the server has written to the connection. */
  datatype Conn = Conn(server: Server, stream: seq<Octet>, client: Client, remaining: nat, slice: seq<Octet>)

  /** Results of the system calls: accept, fread, write (-1 on failure) and recv. */
  datatype Call = Accept | Read(n: nat) | ReadEnds | Write(ret: int) | Recv(n: nat) | RecvFails

  function Open(sess: Session): Conn {
    Conn(Pending, [], Taking, sess.size, Zeros(sess.size))
  }

  function Min(a: nat, b: nat): (m: nat)
    ensures m <= a && m <= b && (m == a || m == b)
  {
    if a < b then a else b
  }

  predicate Enabled(sess: Session, x: Conn, l: Call) {
    match l
    case Accept => x.server.Pending?
    case Read(n) =>
      x.server.Reading? && 1 <= n <= Min(x.server.remaining, CHUNK_BUFFER) && x.server.pos + n <= |sess.file|
    case ReadEnds => x.server.Reading?
    case Write(ret) =>
      && x.server.Writing? && -1 <= ret <= x.server.toSend
      && x.server.total + x.server.toSend <= |x.server.buf| <= x.server.remaining
    case Recv(n) =>
      && x.client.Taking? && 1 <= n <= Min(x.remaining, CHUNK_BUFFER)
      && x.remaining <= sess.size == |x.slice| && sess.size - x.remaining + n <= |x.stream|
    case RecvFails => x.client.Taking?
  }

  /** After the inner loop: the next piece, or the end of the connection. */
  function NextPiece(pos: nat, remaining: nat): Server {
    if remaining == 0 then Closed else Reading(pos, remaining)
  }

  /** write's result is kept in a size_t, so -1 is taken for a huge count and not for a failure. */
  function AfterWrite(x: Server, ret: int): Server
    requires x.Writing? && |x.buf| <= x.remaining
  {
    var sent := U64(ret);
    if sent == 0 then Closed
    else
      var toSend, total := U64(x.toSend - sent), U64(x.total + sent);
      if toSend == 0 then NextPiece(x.pos, x.remaining - |x.buf|)
      else if total > |x.buf| then Astray
      else x.(toSend := toSend, total := total)
  }

  /** A server in the middle of a piece. */
  ghost predicate MidPiece(x: Server) {
    x.Writing? && x.toSend >= 1 && x.total + x.toSend == |x.buf| <= CHUNK_BUFFER && |x.buf| <= x.remaining
  }

  lemma AfterGoodWrite(x: Server, ret: nat)
    requires MidPiece(x) && 1 <= ret <= x.toSend
    ensures AfterWrite(x, ret) == if ret == x.toSend then NextPiece(x.pos, x.remaining - |x.buf|)
                                  else x.(toSend := x.toSend - ret, total := x.total + ret)
  {
    InWord(ret);
    InWord(x.toSend - ret);
    InWord(x.total + ret);
  }

  /** One byte more to send, one byte earlier; in front of the buffer if no byte of the piece has gone out. */
  lemma AfterFailedWrite(x: Server)
    requires MidPiece(x)
    ensures AfterWrite(x, -1) == if x.total == 0 then Astray else x.(toSend := x.toSend + 1, total := x.total - 1)
  {
    assert U64(-1) == WORD - 1;
    assert U64(x.toSend - (WORD - 1)) == x.toSend + 1;
    if x.total == 0 {
      assert U64(x.total + (WORD - 1)) == WORD - 1;
    } else {
      assert U64(x.total + (WORD - 1)) == x.total - 1;
    }
  }

  lemma InWord(x: nat)
    requires x < WORD
    ensures U64(x) == x
  {
  }

  /** The next n bytes of the stream go behind the `done` bytes already stored from `base` on. */
  function StoreNext(memory: seq<Octet>, base: nat, done: nat, stream: seq<Octet>, n: nat): (r: seq<Octet>)
    requires done + n <= |stream| && base + done + n <= |memory|
    ensures |r| == |memory|
  {
    Splice(memory, base + done, stream[done..done + n])
  }

  /** Storing into a part of a memory is storing into that part alone. */
  lemma StoreInside(memory: seq<Octet>, base: nat, size: nat, done: nat, stream: seq<Octet>, n: nat)
    requires done + n <= |stream| && done + n <= size && base + size <= |memory|
    ensures StoreNext(memory, base, done, stream, n)[base..base + size]
            == StoreNext(memory[base..base + size], 0, done, stream, n)
  {
    SpliceInside(memory, base, size, done, stream[done..done + n]);
  }

  function Apply(sess: Session, x: Conn, l: Call): Conn
    requires Enabled(sess, x, l)
  {
    match l
    case Accept => x.(server := Reading(sess.offset, sess.size))
    case Read(n) =>
      var Reading(pos, rem) := x.server;
      x.(server := Writing(pos + n, rem, sess.file[pos..pos + n], n, 0))
    case ReadEnds => x.(server := Closed)
    case Write(ret) =>
      var total := x.server.total;
      x.(server := AfterWrite(x.server, ret),
         stream := if ret > 0 then x.stream + x.server.buf[total..total + ret] else x.stream)
    case Recv(n) =>
      var done := sess.size - x.remaining;
      x.(remaining := x.remaining - n,
         client := if x.remaining == n then Stored else Taking,
         slice := StoreNext(x.slice, 0, done, x.stream, n))
    case RecvFails => x.(client := Broken)
  }

  predicate RunOk(sess: Session, x: Conn, ls: seq<Call>)
    decreases |ls|
  {
    ls == [] || (Enabled(sess, x, ls[0]) && RunOk(sess, Apply(sess, x, ls[0]), ls[1..]))
  }

  function Exec(sess: Session, x: Conn, ls: seq<Call>): Conn
    requires RunOk(sess, x, ls)
    decreases |ls|
  {
    if ls == [] then x else Exec(sess, Apply(sess, x, ls[0]), ls[1..])
  }

  predicate WritesSucceed(ls: seq<Call>) {
    forall i :: 0 <= i < |ls| && ls[i].Write? ==> ls[i].ret >= 0
  }

  // ------------------------------------------------------------------
  // Which bytes go out, in which order
  // ------------------------------------------------------------------

  /** The place in the range from which the next write takes its bytes. */
  function Cursor(l: Call, p: int): int {
    if l.Write? then p + l.ret else p
  }

  function CursorAfter(ls: seq<Call>, p: int): int {
    if ls == [] then p else CursorAfter(ls[1..], Cursor(ls[0], p))
  }

  function Written(l: Call, p: int): seq<int> {
    if l.Write? && l.ret > 0 then seq(l.ret, j => p + j) else []
  }

  /** Places of the range in the order in which their bytes go out, as the results of the writes say. */
  function Trail(ls: seq<Call>, p: int): seq<int> {
    if ls == [] then [] else Written(ls[0], p) + Trail(ls[1..], Cursor(ls[0], p))
  }

  lemma {:induction false} TrailAppend(before: seq<Call>, after: seq<Call>, p: int)
    ensures Trail(before + after, p) == Trail(before, p) + Trail(after, CursorAfter(before, p))
    decreases |before|
  {
    if before == [] {
      assert before + after == after;
    } else {
      assert (before + after)[1..] == before[1..] + after;
      TrailAppend(before[1..], after, Cursor(before[0], p));
    }
  }

  /** Without a failed write the places follow each other. */
  lemma {:induction false} PlainTrail(ls: seq<Call>, p: int)
    requires WritesSucceed(ls)
    ensures forall i :: 0 <= i < |Trail(ls, p)| ==> Trail(ls, p)[i] == p + i
    ensures CursorAfter(ls, p) == p + |Trail(ls, p)|
    decreases |ls|
  {
    if ls != [] {
      var w, rest := Written(ls[0], p), Trail(ls[1..], Cursor(ls[0], p));
      PlainTrail(ls[1..], Cursor(ls[0], p));
      assert Trail(ls, p) == w + rest;
      assert Cursor(ls[0], p) == p + |w|;
    }
  }

  // ------------------------------------------------------------------
  // Safety
  // ------------------------------------------------------------------

  /** The stream holds the bytes of the places in `t`. */
  ghost predicate Carries(chunk: seq<Octet>, stream: seq<Octet>, t: seq<int>) {
    |t| == |stream| && forall i :: 0 <= i < |t| ==> 0 <= t[i] < |chunk| && stream[i] == chunk[t[i]]
  }

  /** The cursor of the writes is where the server is. */
  ghost predicate At(sess: Session, x: Server, p: int) {
    match x
    case Pending => p == 0
    case Reading(pos, rem) =>
      1 <= rem <= sess.size && pos == sess.offset + sess.size - rem && p == sess.size - rem
    case Writing(pos, rem, buf, toSend, total) =>
      && MidPiece(x) && rem <= sess.size && p == sess.size - rem + total
      && pos == sess.offset + sess.size - rem + |buf|
    case _ => true
  }

  /** The buffer holds the piece of the range that is being sent. */
  ghost predicate Buffered(sess: Session, x: Server)
    requires sess.Valid()
  {
    x.Writing? ==>
      && |x.buf| <= x.remaining <= sess.size
      && x.buf == sess.Chunk()[sess.size - x.remaining..sess.size - x.remaining + |x.buf|]
  }

  ghost predicate ClientInv(sess: Session, x: Conn) {
    && x.remaining <= sess.size && sess.size - x.remaining <= |x.stream|
    && (x.client.Stored? <==> x.remaining == 0)
    && x.slice == x.stream[..sess.size - x.remaining] + Zeros(x.remaining)
  }

  ghost predicate Inv(sess: Session, x: Conn, t: seq<int>, p: int)
    requires sess.Valid()
  {
    Carries(sess.Chunk(), x.stream, t) && ClientInv(sess, x) && At(sess, x.server, p) && Buffered(sess, x.server)
  }

  lemma ReadFillsBuffer(sess: Session, x: Conn, n: nat, p: int)
    requires sess.Valid() && At(sess, x.server, p) && Enabled(sess, x, Read(n))
    ensures Buffered(sess, Apply(sess, x, Read(n)).server)
  {
    SliceOfSlice(sess.file, sess.offset, sess.offset + sess.size, p, p + n);
  }

  /** The bytes of a write are those of the places from the cursor on. */
  lemma WriteCarries(sess: Session, x: Conn, ret: nat, t: seq<int>, p: int)
    requires sess.Valid() && Carries(sess.Chunk(), x.stream, t) && At(sess, x.server, p) && Buffered(sess, x.server)
    requires Enabled(sess, x, Write(ret)) && ret >= 1
    ensures Carries(sess.Chunk(), Apply(sess, x, Write(ret)).stream, t + Written(Write(ret), p))
  {
    var total, w := x.server.total, Written(Write(ret), p);
    PieceCarries(sess.Chunk(), x.server.buf, sess.size - x.server.remaining, total, ret);
    CarriesMore(sess.Chunk(), x.stream, t, x.server.buf[total..total + ret], w);
  }

  lemma PieceCarries(chunk: seq<Octet>, buf: seq<Octet>, at: nat, total: nat, ret: nat)
    requires at + |buf| <= |chunk| && buf == chunk[at..at + |buf|] && total + ret <= |buf| && ret >= 1
    ensures Carries(chunk, buf[total..total + ret], Written(Write(ret), at + total))
  {
    SliceOfSlice(chunk, at, at + |buf|, total, total + ret);
  }

  lemma CarriesMore(chunk: seq<Octet>, stream: seq<Octet>, t: seq<int>, data: seq<Octet>, w: seq<int>)
    requires Carries(chunk, stream, t) && Carries(chunk, data, w)
    ensures Carries(chunk, stream + data, t + w)
  {
  }

  lemma AtWrite(sess: Session, x: Server, ret: int, p: int)
    requires At(sess, x, p) && x.Writing? && -1 <= ret <= x.toSend
    ensures At(sess, AfterWrite(x, ret), p + ret)
    ensures var y := AfterWrite(x, ret);
            y.Writing? ==> y.buf == x.buf && y.remaining == x.remaining
  {
    if ret > 0 {
      AfterGoodWrite(x, ret);
    } else if ret < 0 {
      AfterFailedWrite(x);
    } else {
      InWord(0);
    }
  }

  lemma AtStep(sess: Session, x: Conn, l: Call, p: int)
    requires sess.size >= 1 && At(sess, x.server, p) && Enabled(sess, x, l)
    ensures At(sess, Apply(sess, x, l).server, Cursor(l, p))
  {
    if l.Write? {
      AtWrite(sess, x.server, l.ret, p);
    }
  }

  lemma StreamGrows(sess: Session, x: Conn, y: Conn)
    requires ClientInv(sess, x) && x.stream <= y.stream
    requires y.client == x.client && y.remaining == x.remaining && y.slice == x.slice
    ensures ClientInv(sess, y)
  {
    PrefixOfPrefix(x.stream, y.stream, sess.size - x.remaining);
  }

  lemma PrefixOfPrefix(a: seq<Octet>, b: seq<Octet>, n: nat)
    requires a <= b && n <= |a|
    ensures a[..n] == b[..n]
  {
  }

  lemma SliceExtends(stream: seq<Octet>, slice: seq<Octet>, done: nat, n: nat, rest: nat)
    requires done + n <= |stream| && n <= rest && slice == stream[..done] + Zeros(rest)
    ensures StoreNext(slice, 0, done, stream, n) == stream[..done + n] + Zeros(rest - n)
  {
    PrefixGrows(stream, slice, done, n, Zeros(rest));
    ZerosTail(rest, n);
  }

  lemma RecvKeeps(sess: Session, x: Conn, n: nat)
    requires ClientInv(sess, x) && Enabled(sess, x, Recv(n))
    ensures ClientInv(sess, Apply(sess, x, Recv(n)))
  {
    SliceExtends(x.stream, x.slice, sess.size - x.remaining, n, x.remaining);
  }

  lemma InvWrite(sess: Session, x: Conn, ret: int, t: seq<int>, p: int)
    requires sess.Valid() && Inv(sess, x, t, p) && Enabled(sess, x, Write(ret))
    ensures Inv(sess, Apply(sess, x, Write(ret)), t + Written(Write(ret), p), p + ret)
  {
    var y := Apply(sess, x, Write(ret));
    AtWrite(sess, x.server, ret, p);
    StreamGrows(sess, x, y);
    if ret > 0 {
      WriteCarries(sess, x, ret, t, p);
    } else {
      assert t + [] == t;
    }
  }

  lemma InvStep(sess: Session, x: Conn, l: Call, t: seq<int>, p: int)
    requires sess.Valid() && Inv(sess, x, t, p) && Enabled(sess, x, l)
    ensures Inv(sess, Apply(sess, x, l), t + Written(l, p), Cursor(l, p))
  {
    if l.Write? {
      InvWrite(sess, x, l.ret, t, p);
    } else {
      assert t + [] == t;
      AtStep(sess, x, l, p);
      if l.Read? {
        ReadFillsBuffer(sess, x, l.n, p);
      } else if l.Recv? {
        RecvKeeps(sess, x, l.n);
      }
    }
  }

  lemma {:induction false} InvRun(sess: Session, x: Conn, ls: seq<Call>, t: seq<int>, p: int)
    requires sess.Valid() && Inv(sess, x, t, p) && RunOk(sess, x, ls)
    ensures Inv(sess, Exec(sess, x, ls), t + Trail(ls, p), CursorAfter(ls, p))
    decreases |ls|
  {
    if ls == [] {
      assert t + [] == t;
    } else {
      InvStep(sess, x, ls[0], t, p);
      InvRun(sess, Apply(sess, x, ls[0]), ls[1..], t + Written(ls[0], p), Cursor(ls[0], p));
      Regroup(t, Written(ls[0], p), Trail(ls[1..], Cursor(ls[0], p)));
    }
  }

  lemma InvFromOpen(sess: Session, ls: seq<Call>)
    requires sess.Valid() && RunOk(sess, Open(sess), ls)
    ensures Inv(sess, Exec(sess, Open(sess), ls), Trail(ls, 0), CursorAfter(ls, 0))
  {
    assert Open(sess).stream[..0] + Zeros(sess.size) == Zeros(sess.size);
    InvRun(sess, Open(sess), ls, [], 0);
    assert [] + Trail(ls, 0) == Trail(ls, 0);
  }

  /**
    For every way of cutting and failing reads, writes and receives: the stream
    holds the bytes of the range that the trail of the writes names, the slice is a
    prefix of the stream and zeros, and a worker that has stored everything has
    the range if and only if the byte at each place equals the one sent for it.
   */
  lemma StreamFollowsTrail(sess: Session, ls: seq<Call>)
    requires sess.Valid() && RunOk(sess, Open(sess), ls)
    ensures var x, t := Exec(sess, Open(sess), ls), Trail(ls, 0);
            && Carries(sess.Chunk(), x.stream, t)
            && x.remaining <= sess.size && sess.size - x.remaining <= |x.stream|
            && x.slice == x.stream[..sess.size - x.remaining] + Zeros(x.remaining)
            && (x.client.Stored? ==>
                  && |t| >= sess.size && x.slice == x.stream[..sess.size]
                  && (x.slice == sess.Chunk()
                      <==> forall i :: 0 <= i < sess.size ==> sess.Chunk()[t[i]] == sess.Chunk()[i]))
  {
    InvFromOpen(sess, ls);
    var x, t, chunk := Exec(sess, Open(sess), ls), Trail(ls, 0), sess.Chunk();
    if x.client.Stored? {
      assert x.slice == x.stream[..sess.size];
      assert forall i :: 0 <= i < sess.size ==> x.slice[i] == chunk[t[i]];
    }
  }

  /**
    If no write fails: what was sent is a prefix of the requested range, what is
    stored is a prefix of what was sent, and a worker that has stored everything
    has stored exactly the range.
   */
  lemma StreamIsPrefix(sess: Session, ls: seq<Call>)
    requires sess.Valid() && RunOk(sess, Open(sess), ls) && WritesSucceed(ls)
    ensures var x := Exec(sess, Open(sess), ls);
            && x.remaining <= sess.size && x.stream <= sess.Chunk()
            && sess.size - x.remaining <= |x.stream|
            && x.slice == x.stream[..sess.size - x.remaining] + Zeros(x.remaining)
            && (x.client.Stored? ==> x.slice == sess.Chunk())
  {
    StreamFollowsTrail(sess, ls);
    PlainTrail(ls, 0);
    var x := Exec(sess, Open(sess), ls);
    LastPlace(|x.stream|, sess.Chunk(), x.stream, Trail(ls, 0));
  }

  lemma LastPlace(n: nat, chunk: seq<Octet>, stream: seq<Octet>, t: seq<int>)
    requires Carries(chunk, stream, t) && n == |t| && forall i :: 0 <= i < |t| ==> t[i] == i
    ensures stream <= chunk
  {
    if n > 0 {
      assert t[n - 1] == n - 1;
    }
  }

  /**
    Nothing that the system calls may return is excluded: in every reachable state
    a read can give any number of bytes up to the rest and to a megabyte, a write
    can take any number of those offered, or fail, and a recv can give any number
    of those under way.
   */
  lemma AnyResultIsPossible(sess: Session, ls: seq<Call>)
    requires sess.Valid() && RunOk(sess, Open(sess), ls)
    ensures var x := Exec(sess, Open(sess), ls);
            && (x.server.Pending? ==> Enabled(sess, x, Call.Accept))
            && (x.server.Reading? ==>
                  && Enabled(sess, x, ReadEnds)
                  && forall n :: 1 <= n <= x.server.remaining && n <= 1048576 ==> Enabled(sess, x, Read(n)))
            && (x.server.Writing? ==> forall ret :: -1 <= ret <= x.server.toSend ==> Enabled(sess, x, Write(ret)))
            && (x.client.Taking? ==>
                  && Enabled(sess, x, RecvFails)
                  && forall n :: 1 <= n <= x.remaining && n <= 1048576 && sess.size - x.remaining + n <= |x.stream|
                       ==> Enabled(sess, x, Recv(n)))
  {
    InvFromOpen(sess, ls);
    RangeLength(sess, Exec(sess, Open(sess), ls));
  }

  lemma RangeLength(sess: Session, x: Conn)
    requires ClientInv(sess, x)
    ensures |x.slice| == sess.size
  {
  }

  /** The bytes that the results of recv add up to. */
  function Taken(ls: seq<Call>): int {
    if ls == [] then 0 else (if ls[0].Recv? then ls[0].n else 0) + Taken(ls[1..])
  }

  lemma {:induction false} TakenRun(sess: Session, x: Conn, ls: seq<Call>)
    requires RunOk(sess, x, ls)
    ensures var y := Exec(sess, x, ls);
            && y.remaining == x.remaining - Taken(ls)
            && (y.client.Broken? <==> x.client.Broken? || RecvFails in ls)
    decreases |ls|
  {
    if ls != [] {
      TakenRun(sess, Apply(sess, x, ls[0]), ls[1..]);
      assert RecvFails in ls <==> ls[0] == RecvFails || RecvFails in ls[1..];
    }
  }

  /** A worker has stored everything exactly if the bytes it received add up to its size, and has failed exactly if a recv has. */
  lemma StoredExactly(sess: Session, ls: seq<Call>)
    requires sess.Valid() && RunOk(sess, Open(sess), ls)
    ensures var x := Exec(sess, Open(sess), ls);
            && (x.client.Stored? <==> Taken(ls) == sess.size)
            && (x.client.Broken? <==> RecvFails in ls)
  {
    InvFromOpen(sess, ls);
    TakenRun(sess, Open(sess), ls);
  }

  lemma {:induction false} ClosedStays(sess: Session, x: Conn, ls: seq<Call>)
    requires RunOk(sess, x, ls) && x.server.Closed?
    ensures forall i :: 0 <= i < |ls| ==> ls[i].Recv? || ls[i].RecvFails?
    ensures Exec(sess, x, ls).stream == x.stream
    decreases |ls|
  {
    if ls != [] {
      ClosedStays(sess, Apply(sess, x, ls[0]), ls[1..]);
    }
  }

  /** A read that gives nothing and a write that takes nothing end the connection: nothing more is sent. */
  lemma NothingMoreIsSent(sess: Session, x: Conn, l: Call, ls: seq<Call>)
    requires sess.Valid() && Enabled(sess, x, l) && (l == ReadEnds || l == Write(0)) && RunOk(sess, Apply(sess, x, l), ls)
    ensures Exec(sess, Apply(sess, x, l), ls).stream == x.stream
    ensures forall i :: 0 <= i < |ls| ==> ls[i].Recv? || ls[i].RecvFails?
  {
    if l.Write? {
      InWord(0);
    }
    ClosedStays(sess, Apply(sess, x, l), ls);
  }

  // ------------------------------------------------------------------
  // A failed write
  // ------------------------------------------------------------------

  /** The bytes of the range with the one at place f repeated. */
  ghost function Stutter(chunk: seq<Octet>, f: nat): seq<Octet>
    requires f < |chunk|
  {
    chunk[..f + 1] + chunk[f..]
  }

  /** Places that follow each other up to f, and from f on again. */
  ghost predicate Repeats(t: seq<int>, f: nat) {
    forall i :: 0 <= i < |t| ==> t[i] == if i <= f then i else i - 1
  }

  lemma TrailAround(before: seq<Call>, after: seq<Call>, f: int)
    requires CursorAfter(before, 0) == f + 1
    ensures Trail(before + [Write(-1)] + after, 0) == Trail(before, 0) + Trail(after, f)
  {
    CursorAppend(before, Write(-1), 0);
    TrailAppend(before + [Write(-1)], after, 0);
    TrailAppend(before, [Write(-1)], 0);
    assert Trail([Write(-1)], f + 1) == [];
    assert Trail(before, 0) + [] == Trail(before, 0);
  }

  /** The trail around one failed write that comes after f + 1 bytes. */
  lemma StutterTrail(before: seq<Call>, after: seq<Call>, f: nat)
    requires WritesSucceed(before) && WritesSucceed(after) && |Trail(before, 0)| == f + 1
    ensures Repeats(Trail(before + [Write(-1)] + after, 0), f)
  {
    PlainTrail(before, 0);
    PlainTrail(after, f);
    RepeatsJoin(Trail(before, 0), Trail(after, f), f);
    TrailAround(before, after, f);
  }

  lemma RepeatsJoin(a: seq<int>, b: seq<int>, f: nat)
    requires |a| == f + 1 && (forall i :: 0 <= i < |a| ==> a[i] == i) && forall i :: 0 <= i < |b| ==> b[i] == f + i
    ensures Repeats(a + b, f)
  {
  }

  lemma {:induction false} CursorAppend(ls: seq<Call>, l: Call, p: int)
    ensures CursorAfter(ls + [l], p) == Cursor(l, CursorAfter(ls, p))
    decreases |ls|
  {
    if ls == [] {
      assert ls + [l] == [l];
    } else {
      assert (ls + [l])[1..] == ls[1..] + [l];
      CursorAppend(ls[1..], l, Cursor(ls[0], p));
    }
  }

  /**
    One failed write inside a piece, after f + 1 bytes of the range, and any other
    calls before and after it: the byte at f goes out twice and all others follow
    one place late.  A worker that has stored everything has the range if and only
    if all bytes from place f on are equal.
   */
  lemma FailedWriteRepeatsByte(sess: Session, before: seq<Call>, after: seq<Call>)
    requires sess.Valid() && RunOk(sess, Open(sess), before + [Write(-1)] + after)
    requires WritesSucceed(before) && WritesSucceed(after)
    requires RunOk(sess, Open(sess), before)
             && Exec(sess, Open(sess), before).server.Writing? && Exec(sess, Open(sess), before).server.total >= 1
    ensures var x := Exec(sess, Open(sess), before + [Write(-1)] + after);
            var f := |Exec(sess, Open(sess), before).stream| - 1;
            && 0 <= f && f + 1 < sess.size && x.stream <= Stutter(sess.Chunk(), f)
            && (x.client.Stored? ==>
                  && x.slice == Stutter(sess.Chunk(), f)[..sess.size]
                  && (x.slice == sess.Chunk()
                      <==> forall j :: f < j < sess.size ==> sess.Chunk()[j] == sess.Chunk()[j - 1]))
  {
    var f := StepsBack(sess, before);
    StutterTrail(before, after, f);
    StreamFollowsTrail(sess, before + [Write(-1)] + after);
    var x := Exec(sess, Open(sess), before + [Write(-1)] + after);
    StutterStream(sess.Chunk(), x.stream, Trail(before + [Write(-1)] + after, 0), f);
    if x.client.Stored? {
      PrefixOfPrefix(x.stream, Stutter(sess.Chunk(), f), sess.size);
      StutterIsRange(sess.Chunk(), f);
    }
  }

  /** Inside a piece, the byte before the cursor is the last one that went out. */
  lemma StepsBack(sess: Session, before: seq<Call>) returns (f: nat)
    requires sess.Valid() && RunOk(sess, Open(sess), before) && WritesSucceed(before)
    requires Exec(sess, Open(sess), before).server.Writing? && Exec(sess, Open(sess), before).server.total >= 1
    ensures |Exec(sess, Open(sess), before).stream| == |Trail(before, 0)| == f + 1 < sess.size
  {
    InvFromOpen(sess, before);
    PlainTrail(before, 0);
    StreamLength(sess, Exec(sess, Open(sess), before), Trail(before, 0), CursorAfter(before, 0));
    f := |Trail(before, 0)| - 1;
  }

  lemma StreamLength(sess: Session, x: Conn, t: seq<int>, p: int)
    requires sess.Valid() && Inv(sess, x, t, p) && x.server.Writing?
    ensures |x.stream| == |t| && p < sess.size && (x.server.total >= 1 ==> p >= 1)
  {
  }

  lemma StutterStream(chunk: seq<Octet>, stream: seq<Octet>, t: seq<int>, f: nat)
    requires Carries(chunk, stream, t) && f < |chunk| && Repeats(t, f)
    ensures stream <= Stutter(chunk, f)
  {
    if |t| > 0 {
      assert t[|t| - 1] < |chunk|;
    }
    forall i | 0 <= i < |t| ensures stream[i] == Stutter(chunk, f)[i] {
      StutterAt(chunk, f, i);
    }
  }

  lemma StutterAt(chunk: seq<Octet>, f: nat, j: nat)
    requires f < |chunk| && j <= |chunk|
    ensures Stutter(chunk, f)[j] == chunk[if j <= f then j else j - 1]
  {
  }

  lemma StutterIsRange(chunk: seq<Octet>, f: nat)
    requires f < |chunk|
    ensures Stutter(chunk, f)[..|chunk|] == chunk <==> forall j :: f < j < |chunk| ==> chunk[j] == chunk[j - 1]
  {
    var r := Stutter(chunk, f)[..|chunk|];
    forall j | 0 <= j < |chunk| ensures r[j] == chunk[if j <= f then j else j - 1] {
      StutterAt(chunk, f, j);
    }
    if r == chunk {
      forall j | f < j < |chunk| ensures chunk[j] == chunk[j - 1] {
        assert r[j] == chunk[j - 1];
      }
    } else {
      var j :| 0 <= j < |chunk| && r[j] != chunk[j];
      assert f < j && chunk[j] != chunk[j - 1];
    }
  }

  /**
    The server goes astray exactly when a write fails before any byte of its piece
    went out.  The stream is then still what it was, and the program's further
    course is not defined.
   */
  lemma AstrayExactly(sess: Session, ls: seq<Call>, l: Call)
    requires sess.Valid() && RunOk(sess, Open(sess), ls) && Enabled(sess, Exec(sess, Open(sess), ls), l)
    ensures var x := Exec(sess, Open(sess), ls);
            var y := Apply(sess, x, l);
            && (y.server.Astray? <==> x.server.Astray? || (l == Write(-1) && x.server.total == 0))
            && (y.server.Astray? ==> y.stream == x.stream)
  {
    InvFromOpen(sess, ls);
    var x := Exec(sess, Open(sess), ls);
    if l.Write? {
      if l.ret > 0 {
        AfterGoodWrite(x.server, l.ret);
      } else if l.ret < 0 {
        AfterFailedWrite(x.server);
      }
    }
  }

  lemma {:induction false} ExecLast(sess: Session, x: Conn, ls: seq<Call>, l: Call)
    requires RunOk(sess, x, ls) && Enabled(sess, Exec(sess, x, ls), l)
    ensures RunOk(sess, x, ls + [l]) && Exec(sess, x, ls + [l]) == Apply(sess, Exec(sess, x, ls), l)
    decreases |ls|
  {
    if ls == [] {
      assert ls + [l] == [l] && [l][1..] == [];
    } else {
      ExecLast(sess, Apply(sess, x, ls[0]), ls[1..], l);
      assert (ls + [l])[1..] == ls[1..] + [l];
    }
  }

  const TWO_BYTES := Session("ab", 0, 2, 0, 0, 0)
  const ONE_OUT: seq<Call> := [] + [Call.Accept] + [Read(2)] + [Write(1)]
  const FAILS_ONCE := ONE_OUT + [Write(-1)] + [Write(2)]

  lemma OneByteOut()
    ensures RunOk(TWO_BYTES, Open(TWO_BYTES), ONE_OUT)
    ensures Exec(TWO_BYTES, Open(TWO_BYTES), ONE_OUT)
            == Open(TWO_BYTES).(server := Writing(2, 2, "ab", 1, 1), stream := "a")
  {
    var x := Open(TWO_BYTES);
    ExecLast(TWO_BYTES, x, [], Call.Accept);
    ExecLast(TWO_BYTES, x, [] + [Call.Accept], Read(2));
    assert "ab"[0..2] == "ab";
    AfterGoodWrite(Writing(2, 2, "ab", 2, 0), 1);
    ExecLast(TWO_BYTES, x, [] + [Call.Accept] + [Read(2)], Write(1));
    assert [] + "ab"[0..1] == "a";
  }

  /** A run in which the second of two bytes is lost to a repetition of the first, and the worker is content. */
  lemma FailedWriteTrace()
    ensures RunOk(TWO_BYTES, Open(TWO_BYTES), FAILS_ONCE + [Recv(2)])
    ensures var x := Exec(TWO_BYTES, Open(TWO_BYTES), FAILS_ONCE + [Recv(2)]);
            x.client.Stored? && x.slice == "aa"
  {
    var x := Open(TWO_BYTES);
    OneByteOut();
    AfterFailedWrite(Writing(2, 2, "ab", 1, 1));
    ExecLast(TWO_BYTES, x, ONE_OUT, Write(-1));
    AfterGoodWrite(Writing(2, 2, "ab", 2, 0), 2);
    ExecLast(TWO_BYTES, x, ONE_OUT + [Write(-1)], Write(2));
    assert "a" + "ab"[0..2] == "aab";
    assert Exec(TWO_BYTES, x, FAILS_ONCE).stream == "aab";
    ExecLast(TWO_BYTES, x, FAILS_ONCE, Recv(2));
    assert "aab"[0..2] == "aa";
  }

  // ------------------------------------------------------------------
  // Liveness
  // ------------------------------------------------------------------

  predicate Smooth(l: Call) {
    match l
    case Write(ret) => ret > 0
    case ReadEnds => false
    case RecvFails => false
    case _ => true
  }

  ghost function Unread(sess: Session, x: Server): nat {
    match x
    case Pending => sess.size + 1
    case Reading(_, rem) => rem
    case Writing(_, rem, buf, _, _) => if |buf| <= rem then rem - |buf| else 0
    case _ => 0
  }

  /** Bytes not read from the file, not written and not received yet, and one for a connection not accepted. */
  ghost function Work(sess: Session, x: Conn): int {
    Unread(sess, x.server) + (sess.size - |x.stream|) + x.remaining
  }

  /** Nothing has failed: the cursor is at the end of the stream, and a closed connection has carried the whole range. */
  ghost predicate Healthy(sess: Session, x: Conn) {
    && ClientInv(sess, x) && At(sess, x.server, |x.stream|) && |x.stream| <= sess.size
    && !x.client.Broken? && !x.server.Astray? && (x.server.Closed? ==> |x.stream| == sess.size)
  }

  lemma SmoothWrite(sess: Session, x: Conn, ret: nat)
    requires sess.size >= 1 && Healthy(sess, x) && Enabled(sess, x, Write(ret)) && ret > 0
    ensures var y := Apply(sess, x, Write(ret));
            Healthy(sess, y) && Work(sess, y) < Work(sess, x)
  {
    var y := Apply(sess, x, Write(ret));
    assert |y.stream| == |x.stream| + ret;
    AfterGoodWrite(x.server, ret);
    AtWrite(sess, x.server, ret, |x.stream|);
    StreamGrows(sess, x, y);
  }

  lemma SmoothRecv(sess: Session, x: Conn, n: nat)
    requires Healthy(sess, x) && Enabled(sess, x, Recv(n))
    ensures var y := Apply(sess, x, Recv(n));
            Healthy(sess, y) && Work(sess, y) < Work(sess, x)
  {
    var y := Apply(sess, x, Recv(n));
    RecvKeeps(sess, x, n);
    assert y.server == x.server && y.stream == x.stream && y.remaining == x.remaining - n;
  }

  lemma SmoothRead(sess: Session, x: Conn, l: Call)
    requires sess.size >= 1 && Healthy(sess, x) && Enabled(sess, x, l) && (l.Read? || l.Accept?)
    ensures var y := Apply(sess, x, l);
            Healthy(sess, y) && Work(sess, y) < Work(sess, x)
  {
    var y := Apply(sess, x, l);
    AtStep(sess, x, l, |x.stream|);
    StreamGrows(sess, x, y);
  }

  lemma SmoothStep(sess: Session, x: Conn, l: Call)
    requires sess.size >= 1 && Healthy(sess, x) && Enabled(sess, x, l) && Smooth(l)
    ensures var y := Apply(sess, x, l);
            Healthy(sess, y) && Work(sess, y) < Work(sess, x)
  {
    if l.Write? {
      SmoothWrite(sess, x, l.ret);
    } else if l.Recv? {
      SmoothRecv(sess, x, l.n);
    } else {
      SmoothRead(sess, x, l);
    }
  }

  lemma HealthyOpen(sess: Session)
    requires sess.Valid()
    ensures Healthy(sess, Open(sess)) && Work(sess, Open(sess)) == 3 * sess.size + 1
  {
    assert Open(sess).stream[..0] + Zeros(sess.size) == Zeros(sess.size);
  }

  lemma {:induction false} SmoothRunKeeps(sess: Session, x: Conn, ls: seq<Call>)
    requires sess.Valid() && Healthy(sess, x) && RunOk(sess, x, ls)
    requires forall i :: 0 <= i < |ls| ==> Smooth(ls[i])
    ensures var y := Exec(sess, x, ls);
            Healthy(sess, y) && |ls| + Work(sess, y) <= Work(sess, x)
    decreases |ls|
  {
    if ls != [] {
      SmoothStep(sess, x, ls[0]);
      SmoothRunKeeps(sess, Apply(sess, x, ls[0]), ls[1..]);
    }
  }

  /** The next call of a healthy connection that has not stored everything. */
  function NextCall(x: Conn): Call {
    match x.server
    case Pending => Call.Accept
    case Reading(_, _) => Read(1)
    case Writing(_, _, _, _, _) => Write(1)
    case _ => Recv(1)
  }

  lemma NextCallEnabled(sess: Session, x: Conn)
    requires sess.Valid() && Healthy(sess, x) && !x.client.Stored?
    ensures Smooth(NextCall(x)) && Enabled(sess, x, NextCall(x))
  {
  }

  /** Without failing calls a download takes at most 3 * size + 1 calls, and can always go on until everything is stored. */
  lemma SmoothRunsFinish(sess: Session, ls: seq<Call>)
    requires sess.Valid() && RunOk(sess, Open(sess), ls)
    requires forall i :: 0 <= i < |ls| ==> Smooth(ls[i])
    ensures |ls| <= 3 * sess.size + 1
    ensures var x := Exec(sess, Open(sess), ls);
            if x.client.Stored? then x.slice == sess.Chunk()
            else Smooth(NextCall(x)) && Enabled(sess, x, NextCall(x))
  {
    HealthyOpen(sess);
    SmoothRunKeeps(sess, Open(sess), ls);
    var x := Exec(sess, Open(sess), ls);
    if x.client.Stored? {
      StreamIsPrefix(sess, ls);
    } else {
      NextCallEnabled(sess, x);
    }
  }

  // ------------------------------------------------------------------
  // The loops
  // ------------------------------------------------------------------

  /** The server's nested loops, with reads and successful writes of any length. */
  method SendRange(file: seq<Octet>, offset: nat, size: nat) returns (stream: seq<Octet>)
    requires offset + size <= |file|
    ensures stream == file[offset..offset + size]
  {
    stream := [];
    var remaining, pos := size, offset;
    while remaining > 0
      invariant 0 <= remaining <= size && pos + remaining == offset + size
      invariant stream == file[offset..pos]
    {
      var toRead := Min(remaining, CHUNK_BUFFER);
      var n :| 1 <= n <= toRead;
      var buf := file[pos..pos + n];
      var toSend, total := n, 0;
      while toSend > 0
        invariant 0 <= total && 0 <= toSend && total + toSend == n
        invariant stream == file[offset..pos + total]
      {
        var sent :| 1 <= sent <= toSend;
        SliceOfSlice(file, pos, pos + n, total, total + sent);
        Adjacent(file, offset, pos + total, pos + total + sent);
        stream := stream + buf[total..total + sent];
        toSend := toSend - sent;
        total := total + sent;
      }
      remaining := remaining - n;
      pos := pos + n;
    }
  }

  /** Bytes stored one piece after the other are stored as one. */
  lemma SpliceExtends(memory: seq<Octet>, base: nat, stream: seq<Octet>, done: nat, n: nat)
    requires base + done + n <= |memory| && done + n <= |stream|
    ensures Splice(Splice(memory, base, stream[..done]), base + done, stream[done..done + n])
            == Splice(memory, base, stream[..done + n])
  {
    var one := Splice(memory, base, stream[..done]);
    assert one[..base + done] == memory[..base] + stream[..done];
    assert one[base + done + n..] == memory[base + done + n..];
    Adjacent(stream, 0, done, done + n);
  }

  /** One recv: the next n bytes of the stream go behind those already stored. */
  method StorePiece(stream: seq<Octet>, output: array<Octet>, base: nat, done: nat, n: nat, ghost memory: seq<Octet>)
    requires base + done + n <= output.Length == |memory| && done + n <= |stream|
    requires output[..] == Splice(memory, base, stream[..done])
    modifies output
    ensures output[..] == Splice(memory, base, stream[..done + n])
  {
    SpliceExtends(memory, base, stream, done, n);
    Copy(output, base + done, stream[done..done + n]);
  }

  /**
    The worker's loop over a connection that ends after `stream`.  Whatever it
    receives goes to its own part of the buffer, from the start of it, and
    nothing else changes; it fails exactly if the stream is too short.
   */
  method ReceiveRange(stream: seq<Octet>, output: array<Octet>, base: nat, size: nat) returns (ok: bool)
    requires base + size <= output.Length
    modifies output
    ensures ok <==> |stream| >= size
    ensures output[..] == Splice(old(output[..]), base, stream[..Min(|stream|, size)])
  {
    var remaining, done := size, 0;
    ghost var memory := output[..];
    assert Splice(memory, base, stream[..0]) == memory;
    while remaining > 0
      invariant 0 <= done <= |stream| && 0 <= remaining && done + remaining == size
      invariant output[..] == Splice(memory, base, stream[..done])
    {
      if |stream| == done {
        return false;
      }
      var toRead := Min(Min(remaining, CHUNK_BUFFER), |stream| - done);
      var n :| 1 <= n <= toRead;
      StorePiece(stream, output, base, done, n, memory);
      remaining := remaining - n;
      done := done + n;
    }
    ok := true;
  }
}
