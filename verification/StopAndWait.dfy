/**
  One download session of the UDP transfer, on its own: a worker of
  tftp/client.c, the handler of tftp/server.c that serves it, and a link that
  holds at most one datagram and may lose it.  Sockets, the shared ACK queue,
  the condition variable and the shared output buffer do not appear here; the
  System module shows that the whole program behaves like a set of these.
 */
module StopAndWait {
  import opened Octets

  const BUFFER_SIZE: nat := 1024
  const HEADER_SIZE: nat := 8
  const PAYLOAD_MAX: nat := BUFFER_SIZE - HEADER_SIZE
  const MAX_RETRIES: nat := 5

  /** A task of the client: bytes offset..offset+size of `file`, requested from
      server number `server` by a worker of process `client`, to be stored from
      address `base` on. */
  datatype Session = Session(file: seq<Octet>, offset: nat, size: nat,
                             server: nat, client: nat, base: nat)
  {
    /** The server's range guard (tftp/server.c:84) accepts the request, and there is something to fetch. */
    ghost predicate Valid() {
      size >= 1 && offset + size <= |file|
    }

    ghost function Chunk(): seq<Octet>
      requires Valid()
    {
      file[offset..offset + size]
    }
  }

  datatype Msg = Get(offset: nat, size: nat)
               | Data(seqNum: nat, payload: seq<Octet>)
               | Ack(seqNum: nat)

  /** Where a worker is.  `Got` holds a datagram that is not acknowledged yet;
      `Acked` has sent the ACK and not copied the payload yet; `Unsent` is the
      early exit taken when the GET cannot be sent. */
  datatype Phase = Idle | Unsent | Receiving | Polling
                 | Got(seqNum: nat, payload: seq<Octet>)
                 | Acked(payload: seq<Octet>)
                 | Succeeded | Failed

  datatype Worker = Worker(phase: Phase, remaining: nat, retries: nat)

  /** Where a handler is.  `Waiting` has sent `len` bytes ending at file position `pos`. */
  datatype Sender = Off
                  | Sending(seqNum: nat, pos: nat, remaining: nat)
                  | Waiting(seqNum: nat, pos: nat, remaining: nat, len: nat)
                  | Finished
                  | Halted

  datatype Channel = Channel(worker: Worker, sender: Sender, link: Option<Msg>, slice: seq<Octet>)

  datatype Event = Request | RequestFails | Accept | Send(n: nat) | Consume | Poll | Deliver
                 | Acknowledge | Store | Lose | Timeout | AckFails | Abort

  // ------------------------------------------------------------------
  // The worker's and the handler's own moves
  // ------------------------------------------------------------------

  function Start(size: nat): Worker {
    Worker(Idle, size, 0)
  }

  /** recvfrom gave nothing: count the try, give up after MAX_RETRIES of them. */
  function OnTimeout(w: Worker): Worker {
    if w.retries + 1 > MAX_RETRIES then w.(phase := Failed, retries := w.retries + 1)
    else w.(phase := Receiving, retries := w.retries + 1)
  }

  function OnAckSent(w: Worker): Worker
    requires w.phase.Got?
  {
    w.(phase := Acked(w.phase.payload), retries := 0)
  }

  /** The two bounds checks and the copy; both checks compare with the bytes still expected. */
  function OnStore(w: Worker): Worker
    requires w.phase.Acked?
  {
    if |w.phase.payload| > w.remaining then w.(phase := Failed)
    else if |w.phase.payload| == w.remaining then w.(phase := Succeeded, remaining := 0)
    else w.(phase := Receiving, remaining := w.remaining - |w.phase.payload|)
  }

  function Resume(seqNum: nat, pos: nat, remaining: nat): Sender {
    if remaining == 0 then Finished else Sending(seqNum, pos, remaining)
  }

  /** The status a worker thread hands to pthread_join, once it has ended. */
  function ExitStatus(w: Worker): Option<nat> {
    match w.phase
    case Succeeded => Some(0)
    case Unsent => Some(0)
    case Failed => Some(1)
    case _ => None
  }

  // ------------------------------------------------------------------
  // The channel as a state machine
  // ------------------------------------------------------------------

  function Fresh(sess: Session): Channel {
    Channel(Start(sess.size), Off, None, Zeros(sess.size))
  }

  /** An event that puts a datagram on the link finds the link empty. */
  predicate Enabled(sess: Session, ch: Channel, e: Event) {
    match e
    case Request => ch.worker.phase.Idle? && ch.link.None?
    case RequestFails => ch.worker.phase.Idle?
    case Accept => ch.sender.Off? && ch.link.Some? && ch.link.value.Get?
    case Send(n) =>
      && ch.sender.Sending? && ch.link.None?
      && 1 <= n <= ch.sender.remaining && n <= PAYLOAD_MAX
      && ch.sender.pos + n <= |sess.file|
    case Consume => ch.sender.Waiting? && ch.link == Some(Ack(ch.sender.seqNum)) && ch.sender.len <= ch.sender.remaining
    case Poll => ch.worker.phase.Receiving?
    case Deliver => ch.worker.phase.Polling? && ch.link.Some? && ch.link.value.Data?
    case Acknowledge => ch.worker.phase.Got? && ch.link.None?
    case Store =>
      && ch.worker.phase.Acked? && ch.worker.remaining <= sess.size
      && |ch.slice| == sess.size
    case Lose => ch.link.Some?
    case Timeout => ch.worker.phase.Polling?
    case AckFails => ch.worker.phase.Got?
    case Abort => ch.sender.Sending?
  }

  function Apply(sess: Session, ch: Channel, e: Event): Channel
    requires Enabled(sess, ch, e)
  {
    match e
    case Request =>
      ch.(worker := ch.worker.(phase := Receiving), link := Some(Get(sess.offset, sess.size)))
    case RequestFails => ch.(worker := ch.worker.(phase := Unsent))
    case Accept => ch.(sender := Resume(0, ch.link.value.offset, ch.link.value.size), link := None)
    case Send(n) =>
      var Sending(q, pos, rem) := ch.sender;
      ch.(sender := Waiting(q, pos + n, rem, n), link := Some(Data(q, sess.file[pos..pos + n])))
    case Consume =>
      var Waiting(q, pos, rem, len) := ch.sender;
      ch.(sender := Resume(q + 1, pos, rem - len), link := None)
    case Poll => ch.(worker := ch.worker.(phase := Polling))
    case Deliver =>
      ch.(worker := ch.worker.(phase := Got(ch.link.value.seqNum, ch.link.value.payload)), link := None)
    case Acknowledge => ch.(worker := OnAckSent(ch.worker), link := Some(Ack(ch.worker.phase.seqNum)))
    case Store =>
      var p := ch.worker.phase.payload;
      if |p| > ch.worker.remaining then ch.(worker := OnStore(ch.worker))
      else ch.(worker := OnStore(ch.worker), slice := Splice(ch.slice, sess.size - ch.worker.remaining, p))
    case Lose => ch.(link := None)
    case Timeout => ch.(worker := OnTimeout(ch.worker))
    case AckFails => ch.(worker := ch.worker.(phase := Failed))
    case Abort => ch.(sender := Halted)
  }

  predicate RunOk(sess: Session, ch: Channel, es: seq<Event>)
    decreases |es|
  {
    es == [] || (Enabled(sess, ch, es[0]) && RunOk(sess, Apply(sess, ch, es[0]), es[1..]))
  }

  function Exec(sess: Session, ch: Channel, es: seq<Event>): Channel
    requires RunOk(sess, ch, es)
    decreases |es|
  {
    if es == [] then ch else Exec(sess, Apply(sess, ch, es[0]), es[1..])
  }

  // ------------------------------------------------------------------
  // What every run of a channel keeps
  // ------------------------------------------------------------------

  /** Bytes the worker has taken from the link and acknowledged, copied or not. */
  ghost function Received(sess: Session, w: Worker): int {
    sess.size - w.remaining + if w.phase.Acked? then |w.phase.payload| else 0
  }

  ghost predicate WorkerInv(sess: Session, ch: Channel)
    requires sess.Valid()
  {
    var w := ch.worker;
    && w.remaining <= sess.size
    && (w.phase.Succeeded? <==> w.remaining == 0)
    && (!w.phase.Failed? ==> w.retries <= MAX_RETRIES)
    && (w.phase.Idle? || w.phase.Unsent? ==> ch.sender.Off? && ch.link.None?)
    && (w.phase.Got? ==> ch.sender.Waiting? && ch.link.None?)
    && (w.phase.Acked? ==>
          var done := sess.size - w.remaining;
          1 <= |w.phase.payload| <= w.remaining
          && w.phase.payload == sess.Chunk()[done..done + |w.phase.payload|])
  }

  /** The slice is the part of the chunk stored so far, followed by the zeros of calloc. */
  ghost predicate SliceInv(sess: Session, ch: Channel)
    requires sess.Valid()
  {
    && ch.worker.remaining <= sess.size
    && ch.slice == sess.Chunk()[..sess.size - ch.worker.remaining] + Zeros(ch.worker.remaining)
  }

  /** How far handler, link and worker can be apart: at most one packet. */
  ghost predicate SenderInv(sess: Session, ch: Channel)
    requires sess.Valid()
  {
    var w := ch.worker;
    match ch.sender
    case Off =>
      && w.remaining == sess.size && !w.phase.Acked?
      && (ch.link.Some? ==> ch.link.value == Get(sess.offset, sess.size))
    case Sending(q, pos, rem) =>
      && 1 <= rem <= sess.size && pos == sess.offset + sess.size - rem
      && ch.link.None?
      && (w.phase.Failed? || Received(sess, w) == sess.size - rem)
    case Waiting(q, pos, rem, len) =>
      && 1 <= len <= rem <= sess.size && len <= PAYLOAD_MAX
      && pos == sess.offset + sess.size - rem + len
      && PacketInv(sess, ch, q, sess.size - rem, len)
    case Finished => ch.link.None? && (w.phase.Failed? || Received(sess, w) == sess.size)
    case Halted => ch.link.None?
  }

  /** Packet number q, bytes at..at+len of the chunk, is on the link, held by the worker, acknowledged or lost. */
  ghost predicate PacketInv(sess: Session, ch: Channel, q: nat, at: nat, len: nat)
    requires sess.Valid() && at + len <= sess.size
  {
    var w := ch.worker;
    var packet := sess.Chunk()[at..at + len];
    match ch.link
    case None =>
      if w.phase.Got? then w.phase == Got(q, packet) && Received(sess, w) == at
      else w.phase.Failed? || Received(sess, w) == at || Received(sess, w) == at + len
    case Some(m) =>
      || (m == Data(q, packet) && (w.phase.Failed? || Received(sess, w) == at))
      || (m == Ack(q) && (w.phase.Failed? || Received(sess, w) == at + len))
  }

  ghost predicate Inv(sess: Session, ch: Channel)
    requires sess.Valid()
  {
    WorkerInv(sess, ch) && SliceInv(sess, ch) && SenderInv(sess, ch)
  }

  lemma InvFresh(sess: Session)
    requires sess.Valid()
    ensures Inv(sess, Fresh(sess))
  {
  }

  /** Storing a packet extends the stored prefix. */
  lemma StoreExtends(sess: Session, ch: Channel)
    requires sess.Valid() && Inv(sess, ch) && ch.worker.phase.Acked?
    ensures Enabled(sess, ch, Store)
    ensures Inv(sess, Apply(sess, ch, Store))
  {
    var ch' := Apply(sess, ch, Store);
    var n := |ch.worker.phase.payload|;
    PrefixGrows(sess.Chunk(), ch.slice, sess.size - ch.worker.remaining, n, Zeros(ch.worker.remaining));
    ZerosTail(ch.worker.remaining, n);
    assert Received(sess, ch'.worker) == Received(sess, ch.worker);
  }

  lemma SendPacket(sess: Session, ch: Channel, n: nat)
    requires sess.Valid() && Inv(sess, ch) && Enabled(sess, ch, Send(n))
    ensures Inv(sess, Apply(sess, ch, Send(n)))
  {
    var Sending(q, pos, rem) := ch.sender;
    var at := sess.size - rem;
    assert pos == sess.offset + at;
    SliceOfSlice(sess.file, sess.offset, sess.offset + sess.size, at, at + n);
    var ch' := Apply(sess, ch, Send(n));
    assert ch'.link == Some(Data(q, sess.Chunk()[at..at + n]));
    assert Received(sess, ch'.worker) == Received(sess, ch.worker);
    assert PacketInv(sess, ch', q, at, n);
  }

  lemma InvHandlerStep(sess: Session, ch: Channel, e: Event)
    requires sess.Valid() && Inv(sess, ch) && Enabled(sess, ch, e)
    requires e.Accept? || e.Consume? || e.Abort? || e.Lose?
    ensures Inv(sess, Apply(sess, ch, e))
  {
  }

  lemma InvDeliver(sess: Session, ch: Channel)
    requires sess.Valid() && Inv(sess, ch) && Enabled(sess, ch, Deliver)
    ensures Inv(sess, Apply(sess, ch, Deliver))
  {
  }

  lemma InvAcknowledge(sess: Session, ch: Channel)
    requires sess.Valid() && Inv(sess, ch) && Enabled(sess, ch, Acknowledge)
    ensures Inv(sess, Apply(sess, ch, Acknowledge))
  {
    var w := ch.worker;
    var done := sess.size - w.remaining;
    assert Received(sess, w) == done;
    assert w.phase.payload == sess.Chunk()[done..done + ch.sender.len];
  }

  lemma InvWorkerStep(sess: Session, ch: Channel, e: Event)
    requires sess.Valid() && Inv(sess, ch) && Enabled(sess, ch, e)
    requires e.Request? || e.RequestFails? || e.Poll? || e.Timeout? || e.AckFails?
    ensures Inv(sess, Apply(sess, ch, e))
  {
    var ch' := Apply(sess, ch, e);
    assert ch'.worker.phase.Failed? || Received(sess, ch'.worker) == Received(sess, ch.worker);
  }

  lemma InvStep(sess: Session, ch: Channel, e: Event)
    requires sess.Valid() && Inv(sess, ch) && Enabled(sess, ch, e)
    ensures Inv(sess, Apply(sess, ch, e))
  {
    match e {
      case Store => StoreExtends(sess, ch);
      case Send(n) => SendPacket(sess, ch, n);
      case Deliver => InvDeliver(sess, ch);
      case Acknowledge => InvAcknowledge(sess, ch);
      case Accept => InvHandlerStep(sess, ch, e);
      case Consume => InvHandlerStep(sess, ch, e);
      case Abort => InvHandlerStep(sess, ch, e);
      case Lose => InvHandlerStep(sess, ch, e);
      case _ => InvWorkerStep(sess, ch, e);
    }
  }

  lemma {:induction false} InvRun(sess: Session, ch: Channel, es: seq<Event>)
    requires sess.Valid() && Inv(sess, ch) && RunOk(sess, ch, es)
    ensures Inv(sess, Exec(sess, ch, es))
    decreases |es|
  {
    if es != [] {
      InvStep(sess, ch, es[0]);
      InvRun(sess, Apply(sess, ch, es[0]), es[1..]);
    }
  }

  /**
    Whatever is lost, delayed or timed out, the slice of a session is a prefix
    of its chunk followed by zeros, and it is the whole chunk when the worker
    ends in success.
   */
  lemma PrefixSafety(sess: Session, es: seq<Event>)
    requires sess.Valid() && RunOk(sess, Fresh(sess), es)
    ensures var ch := Exec(sess, Fresh(sess), es);
            && ch.worker.remaining <= sess.size
            && ch.slice == sess.Chunk()[..sess.size - ch.worker.remaining] + Zeros(ch.worker.remaining)
            && (ch.worker.phase.Succeeded? ==> ch.slice == sess.Chunk())
  {
    InvFresh(sess);
    InvRun(sess, Fresh(sess), es);
  }

  // ------------------------------------------------------------------
  // Sequence numbers
  // ------------------------------------------------------------------

  /** Packets that the handler has got acknowledged. */
  function Consumed(es: seq<Event>): nat {
    if es == [] then 0 else (if es[0].Consume? then 1 else 0) + Consumed(es[1..])
  }

  /** A handler at packet q has got q packets acknowledged, each with at least one byte. */
  ghost predicate Numbered(sess: Session, x: Sender, count: nat) {
    match x
    case Off => count == 0
    case Sending(q, _, rem) => q == count <= sess.size - rem
    case Waiting(q, _, rem, len) => q == count <= sess.size - rem && len >= 1
    case _ => true
  }

  lemma {:induction false} NumberedRun(sess: Session, ch: Channel, es: seq<Event>, count: nat)
    requires sess.Valid() && Inv(sess, ch) && RunOk(sess, ch, es) && Numbered(sess, ch.sender, count)
    ensures Numbered(sess, Exec(sess, ch, es).sender, count + Consumed(es))
    decreases |es|
  {
    if es != [] {
      InvStep(sess, ch, es[0]);
      NumberedRun(sess, Apply(sess, ch, es[0]), es[1..], count + if es[0].Consume? then 1 else 0);
    }
  }

  /**
    The sequence number of the packet a handler is at is the number of packets
    acknowledged so far; no number comes twice, and none reaches the chunk size,
    so none is too large for the header.
   */
  lemma SequenceNumbersCount(sess: Session, es: seq<Event>)
    requires sess.Valid() && RunOk(sess, Fresh(sess), es)
    ensures var x := Exec(sess, Fresh(sess), es).sender;
            x.Sending? || x.Waiting? ==> x.seqNum == Consumed(es) < sess.size
  {
    InvFresh(sess);
    InvRun(sess, Fresh(sess), es);
    NumberedRun(sess, Fresh(sess), es, 0);
  }

  // ------------------------------------------------------------------
  // Nothing is ever sent twice
  // ------------------------------------------------------------------

  /** The session has lost its datagram: handler and worker wait for each other. */
  ghost predicate Frozen(ch: Channel) {
    && ch.link.None? && (ch.sender.Off? || ch.sender.Waiting?)
    && !ch.worker.phase.Idle? && !ch.worker.phase.Got?
  }

  lemma {:induction false} FrozenForever(sess: Session, ch: Channel, es: seq<Event>)
    requires sess.Valid() && Inv(sess, ch) && Frozen(ch) && RunOk(sess, ch, es)
    ensures var r := Exec(sess, ch, es);
            && Frozen(r) && r.sender == ch.sender
            && (ch.worker.phase.Failed? ==> r.worker.phase.Failed?)
            && (r.worker.phase.Failed? || Received(sess, r.worker) == Received(sess, ch.worker))
    decreases |es|
  {
    if es != [] {
      InvStep(sess, ch, es[0]);
      FrozenForever(sess, Apply(sess, ch, es[0]), es[1..]);
    }
  }

  ghost predicate CanSucceed(sess: Session, ch: Channel) {
    exists es :: RunOk(sess, ch, es) && Exec(sess, ch, es).worker.phase.Succeeded?
  }

  /**
    The program's notes promise retransmission; the code has none.  After a loss
    the handler never moves again, and the worker can still succeed exactly when
    it had already received its last byte, that is when the lost datagram was the
    ACK of the last packet.
   */
  lemma LossIsFinal(sess: Session, ch: Channel)
    requires sess.Valid() && Inv(sess, ch) && ch.link.Some?
    ensures forall es :: RunOk(sess, Apply(sess, ch, Lose), es) ==>
              Exec(sess, Apply(sess, ch, Lose), es).sender == ch.sender
    ensures CanSucceed(sess, Apply(sess, ch, Lose))
            <==> !ch.worker.phase.Failed? && Received(sess, ch.worker) == sess.size
  {
    var lost := Apply(sess, ch, Lose);
    InvStep(sess, ch, Lose);
    forall es | RunOk(sess, lost, es)
      ensures Exec(sess, lost, es).sender == ch.sender
      ensures Exec(sess, lost, es).worker.phase.Succeeded?
              ==> !ch.worker.phase.Failed? && Received(sess, ch.worker) == sess.size
    {
      FrozenForever(sess, lost, es);
      InvRun(sess, lost, es);
    }
    if !ch.worker.phase.Failed? && Received(sess, ch.worker) == sess.size {
      if ch.worker.phase.Succeeded? {
        assert RunOk(sess, lost, []) && Exec(sess, lost, []).worker.phase.Succeeded?;
      } else {
        assert [Store][1..] == [];
        assert RunOk(sess, lost, [Store]) && Exec(sess, lost, [Store]).worker.phase.Succeeded?;
      }
    }
  }

  /** A handler whose read or send failed never sends again, and nothing of the session is under way any more. */
  lemma {:induction false} AbortIsFinal(sess: Session, ch: Channel, es: seq<Event>)
    requires sess.Valid() && Inv(sess, ch) && ch.sender.Sending?
    requires RunOk(sess, Apply(sess, ch, Abort), es)
    ensures forall i :: 0 <= i < |es| ==> !es[i].Send? && !es[i].Deliver?
    ensures Exec(sess, Apply(sess, ch, Abort), es).link.None?
  {
    InvStep(sess, ch, Abort);
    HaltedForever(sess, Apply(sess, ch, Abort), es);
  }

  lemma {:induction false} HaltedForever(sess: Session, ch: Channel, es: seq<Event>)
    requires sess.Valid() && Inv(sess, ch) && ch.sender.Halted? && !ch.worker.phase.Idle? && RunOk(sess, ch, es)
    ensures forall i :: 0 <= i < |es| ==> !es[i].Send? && !es[i].Deliver?
    ensures Exec(sess, ch, es).link.None?
    decreases |es|
  {
    if es != [] {
      InvStep(sess, ch, es[0]);
      HaltedForever(sess, Apply(sess, ch, es[0]), es[1..]);
    }
  }

  // ------------------------------------------------------------------
  // What can happen
  // ------------------------------------------------------------------

  lemma {:induction false} RunAppend(sess: Session, ch: Channel, es: seq<Event>, fs: seq<Event>)
    requires RunOk(sess, ch, es) && RunOk(sess, Exec(sess, ch, es), fs)
    ensures RunOk(sess, ch, es + fs) && Exec(sess, ch, es + fs) == Exec(sess, Exec(sess, ch, es), fs)
    decreases |es|
  {
    if es == [] {
      assert es + fs == fs;
    } else {
      assert (es + fs)[1..] == es[1..] + fs;
      RunAppend(sess, Apply(sess, ch, es[0]), es[1..], fs);
    }
  }

  lemma RunOne(sess: Session, ch: Channel, es: seq<Event>, e: Event)
    requires RunOk(sess, ch, es) && Enabled(sess, Exec(sess, ch, es), e)
    ensures RunOk(sess, ch, es + [e]) && Exec(sess, ch, es + [e]) == Apply(sess, Exec(sess, ch, es), e)
  {
    assert [e][1..] == [];
    RunAppend(sess, ch, es, [e]);
  }

  /** A GET, and then n receive attempts without an answer. */
  function SilentRun(n: nat): seq<Event> {
    if n == 0 then [Request] else SilentRun(n - 1) + [Poll] + [Timeout]
  }

  /** Five silent attempts in a row do a worker no harm; the sixth makes it give up. */
  lemma {:induction false} SixthSilenceFails(sess: Session, n: nat)
    requires sess.Valid() && n <= 6
    ensures RunOk(sess, Fresh(sess), SilentRun(n))
    ensures Exec(sess, Fresh(sess), SilentRun(n))
            == Channel(Worker(if n <= 5 then Receiving else Failed, sess.size, n),
                       Off, Some(Get(sess.offset, sess.size)), Zeros(sess.size))
  {
    if n == 0 {
      assert [Request][1..] == [];
    } else {
      SixthSilenceFails(sess, n - 1);
      RunOne(sess, Fresh(sess), SilentRun(n - 1), Poll);
      RunOne(sess, Fresh(sess), SilentRun(n - 1) + [Poll], Timeout);
    }
  }

  function Total(ns: seq<nat>): nat {
    if ns == [] then 0 else ns[0] + Total(ns[1..])
  }

  /** One packet of n bytes from the read to the consumption of its ACK. */
  function Round(n: nat): seq<Event> {
    [Send(n), Poll, Deliver, Acknowledge, Store, Consume]
  }

  function Rounds(ns: seq<nat>): seq<Event> {
    if ns == [] then [] else Round(ns[0]) + Rounds(ns[1..])
  }

  /** Handler and worker are at the same byte and nothing is under way. */
  ghost predicate InStep(sess: Session, ch: Channel, rem: nat) {
    && 1 <= rem <= sess.size && ch.link.None?
    && ch.worker.phase.Receiving? && ch.worker.remaining == rem && |ch.slice| == sess.size
    && ch.sender.Sending? && ch.sender.remaining == rem && ch.sender.pos == sess.offset + sess.size - rem
  }

  /** The packet goes out and is received. */
  lemma HalfRound(sess: Session, ch: Channel, rem: nat, n: nat) returns (c1: Channel, c2: Channel, c3: Channel)
    requires sess.Valid() && InStep(sess, ch, rem) && 1 <= n <= rem && n <= 1016
    ensures Enabled(sess, ch, Send(n)) && c1 == Apply(sess, ch, Send(n))
    ensures Enabled(sess, c1, Poll) && c2 == Apply(sess, c1, Poll)
    ensures Enabled(sess, c2, Deliver) && c3 == Apply(sess, c2, Deliver)
    ensures c3.link.None? && c3.slice == ch.slice
    ensures c3.sender == Waiting(ch.sender.seqNum, ch.sender.pos + n, rem, n)
    ensures c3.worker.phase.Got? && c3.worker.remaining == rem
            && c3.worker.phase.seqNum == ch.sender.seqNum && |c3.worker.phase.payload| == n
  {
    c1 := Apply(sess, ch, Send(n));
    c2 := Apply(sess, c1, Poll);
    c3 := Apply(sess, c2, Deliver);
  }

  /** The packet is acknowledged and stored, and the handler takes the ACK. */
  lemma OtherHalf(sess: Session, ch: Channel, rem: nat, n: nat) returns (c1: Channel, c2: Channel, c3: Channel)
    requires 1 <= n <= rem <= sess.size == |ch.slice| && ch.link.None?
    requires ch.sender.Waiting? && ch.sender.remaining == rem && ch.sender.len == n
    requires ch.sender.pos == sess.offset + sess.size - rem + n
    requires ch.worker.phase.Got? && ch.worker.remaining == rem
             && ch.worker.phase.seqNum == ch.sender.seqNum && |ch.worker.phase.payload| == n
    ensures Enabled(sess, ch, Acknowledge) && c1 == Apply(sess, ch, Acknowledge)
    ensures Enabled(sess, c1, Store) && c2 == Apply(sess, c1, Store)
    ensures Enabled(sess, c2, Consume) && c3 == Apply(sess, c2, Consume)
    ensures if n == rem then c3.worker.phase.Succeeded? && c3.sender.Finished? else InStep(sess, c3, rem - n)
  {
    c1 := Apply(sess, ch, Acknowledge);
    c2 := Apply(sess, c1, Store);
    c3 := Apply(sess, c2, Consume);
  }

  lemma RunThree(sess: Session, ch: Channel, e: Event, f: Event, g: Event, c1: Channel, c2: Channel, c3: Channel)
    requires Enabled(sess, ch, e) && c1 == Apply(sess, ch, e)
    requires Enabled(sess, c1, f) && c2 == Apply(sess, c1, f)
    requires Enabled(sess, c2, g) && c3 == Apply(sess, c2, g)
    ensures RunOk(sess, ch, [e, f, g]) && Exec(sess, ch, [e, f, g]) == c3
  {
    assert [e, f, g][1..] == [f, g] && [f, g][1..] == [g] && [g][1..] == [];
    assert RunOk(sess, c2, [g]) && Exec(sess, c2, [g]) == c3;
    assert RunOk(sess, c1, [f, g]) && Exec(sess, c1, [f, g]) == c3;
  }

  lemma RoundRuns(sess: Session, ch: Channel, rem: nat, n: nat)
    requires sess.Valid() && InStep(sess, ch, rem) && 1 <= n <= rem && n <= 1016
    ensures RunOk(sess, ch, Round(n))
    ensures var r := Exec(sess, ch, Round(n));
            if n == rem then r.worker.phase.Succeeded? && r.sender.Finished? else InStep(sess, r, rem - n)
  {
    var c1, c2, c3 := HalfRound(sess, ch, rem, n);
    RunThree(sess, ch, Send(n), Poll, Deliver, c1, c2, c3);
    var c4, c5, c6 := OtherHalf(sess, c3, rem, n);
    RunThree(sess, c3, Acknowledge, Store, Consume, c4, c5, c6);
    RunAppend(sess, ch, [Send(n), Poll, Deliver], [Acknowledge, Store, Consume]);
    assert Round(n) == [Send(n), Poll, Deliver] + [Acknowledge, Store, Consume];
  }

  lemma {:induction false} RoundsRun(sess: Session, ch: Channel, rem: nat, ns: seq<nat>)
    requires sess.Valid() && InStep(sess, ch, rem) && Total(ns) == rem
    requires forall i :: 0 <= i < |ns| ==> 1 <= ns[i] <= 1016
    ensures RunOk(sess, ch, Rounds(ns))
    ensures Exec(sess, ch, Rounds(ns)).worker.phase.Succeeded? && Exec(sess, ch, Rounds(ns)).sender.Finished?
    decreases |ns|
  {
    RoundRuns(sess, ch, rem, ns[0]);
    if ns[0] < rem {
      RoundsRun(sess, Exec(sess, ch, Round(ns[0])), rem - ns[0], ns[1..]);
    } else {
      NothingLeft(ns[1..]);
    }
    RunAppend(sess, ch, Round(ns[0]), Rounds(ns[1..]));
  }

  lemma NothingLeft(ns: seq<nat>)
    requires Total(ns) == 0 && forall i :: 0 <= i < |ns| ==> 1 <= ns[i]
    ensures ns == []
  {
  }

  /**
    Every way of cutting the chunk into packets of 1 to 1016 bytes can happen, and
    when nothing is lost it ends with the chunk delivered and the handler done.
   */
  lemma EveryCutDelivers(sess: Session, ns: seq<nat>)
    requires sess.Valid() && Total(ns) == sess.size && forall i :: 0 <= i < |ns| ==> 1 <= ns[i] <= 1016
    ensures RunOk(sess, Fresh(sess), [Request, Accept] + Rounds(ns))
    ensures var ch := Exec(sess, Fresh(sess), [Request, Accept] + Rounds(ns));
            ch.worker.phase.Succeeded? && ch.sender.Finished? && ch.slice == sess.Chunk()
  {
    var es := [Request, Accept];
    assert es[1..] == [Accept] && es[1..][1..] == [];
    var c1 := Apply(sess, Fresh(sess), Request);
    assert RunOk(sess, c1, [Accept]);
    RoundsRun(sess, Exec(sess, Fresh(sess), es), sess.size, ns);
    RunAppend(sess, Fresh(sess), es, Rounds(ns));
    PrefixSafety(sess, es + Rounds(ns));
  }
}
