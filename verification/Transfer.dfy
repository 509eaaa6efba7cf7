/**
  The two loops of the UDP transfer as they are written: the handler that cuts
  a chunk into packets, and the worker that receives, acknowledges and copies
  them into its part of the output buffer.  The worker is run against arbitrary
  datagrams, not only those of a well-behaved server.
 */
module Transfer {
  import opened Octets
  import opened StopAndWait
  import opened Wire

  /** What one recvfrom gives: nothing within the timeout (or an error), or a datagram. */
  datatype Arrival = Quiet | Datagram(bytes: seq<Octet>)

  /** The worker between two passes of its loop.  `broken` marks a copy of negative length. */
  datatype Progress = Progress(worker: Worker, slice: seq<Octet>, acks: seq<string>,
                               tries: nat, packets: nat, broken: bool)
  {
    ghost predicate Valid() {
      && worker.remaining <= |slice|
      && (worker.phase.Receiving? ==> worker.remaining > 0)
    }

    predicate Running() {
      worker.phase.Receiving? && !broken
    }
  }

  function Begin(slice: seq<Octet>): Progress {
    Progress(Worker(if |slice| == 0 then Succeeded else Receiving, |slice|, 0), slice, [], 0, 0, false)
  }

  /** recvfrom cuts a datagram to the size of the buffer. */
  function Clipped(b: seq<Octet>): seq<Octet> {
    if |b| <= BUFFER_SIZE then b else b[..BUFFER_SIZE]
  }

  /** The header of a datagram in a buffer that was zeroed before. */
  function HeaderIn(b: seq<Octet>): nat {
    HeaderOf(b + Zeros(HEADER_SIZE))
  }

  /** One pass of the worker's loop (tftp/client.c:71-137). */
  function Pass(p: Progress, a: Arrival): (r: Progress)
    requires p.Valid() && p.Running()
    ensures r.Valid() && |r.slice| == |p.slice|
  {
    var b := if a.Quiet? then [] else Clipped(a.bytes);
    if b == [] then p.(worker := OnTimeout(p.worker), tries := p.tries + 1)
    else
      var q := HeaderIn(b);
      var p1 := p.(acks := p.acks + [AckText(q)], tries := p.tries + 1, packets := p.packets + 1);
      if |b| < HEADER_SIZE then p1.(broken := true)
      else
        var payload := b[HEADER_SIZE..];
        var w := OnStore(OnAckSent(p.worker.(phase := Got(q, payload))));
        var slice := if |payload| > p.worker.remaining then p.slice
                     else Splice(p.slice, |p.slice| - p.worker.remaining, payload);
        p1.(worker := w, slice := slice)
  }

  function Run(p: Progress, script: seq<Arrival>): (r: Progress)
    requires p.Valid()
    ensures r.Valid() && |r.slice| == |p.slice|
    decreases |script|
  {
    if script == [] || !p.Running() then p else Run(Pass(p, script[0]), script[1..])
  }

  /**
    The worker of a task whose output starts at `base` in the shared buffer.
    Whatever arrives, it changes nothing outside its own part.
   */
  method DownloadChunk(script: seq<Arrival>, output: array<Octet>, base: nat, size: nat)
    returns (r: Progress)
    requires base + size <= output.Length
    modifies output
    ensures r == Run(Begin(old(output[base..base + size])), script)
    ensures output[base..base + size] == r.slice
    ensures output[..base] == old(output[..base])
    ensures output[base + size..] == old(output[base + size..])
  {
    r := Begin(output[base..base + size]);
    ghost var begin := r;
    var i := 0;
    while i < |script| && r.Running()
      invariant 0 <= i <= |script|
      invariant r.Valid() && output[base..base + size] == r.slice
      invariant Run(begin, script) == Run(r, script[i..])
      invariant output[..base] == old(output[..base])
      invariant output[base + size..] == old(output[base + size..])
    {
      assert script[i..][0] == script[i] && script[i..][1..] == script[i + 1..];
      r := ReceiveOne(r, script[i], output, base, size);
      i := i + 1;
    }
  }

  /** The body of the loop. */
  method ReceiveOne(p: Progress, a: Arrival, output: array<Octet>, base: nat, size: nat) returns (r: Progress)
    requires p.Valid() && p.Running() && base + size <= output.Length && output[base..base + size] == p.slice
    modifies output
    ensures r == Pass(p, a)
    ensures output[base..base + size] == r.slice
    ensures output[..base] == old(output[..base])
    ensures output[base + size..] == old(output[base + size..])
  {
    var b := if a.Quiet? then [] else Clipped(a.bytes);
    if b == [] {
      r := p.(worker := OnTimeout(p.worker), tries := p.tries + 1);
      return;
    }
    var q := HeaderIn(b);
    r := p.(acks := p.acks + [AckText(q)], tries := p.tries + 1, packets := p.packets + 1);
    if |b| < HEADER_SIZE {
      r := r.(broken := true);
      return;
    }
    var payload := b[HEADER_SIZE..];
    if |payload| <= p.worker.remaining {
      CopyInto(output, base, size, size - p.worker.remaining, payload);
    }
    r := r.(worker := OnStore(OnAckSent(p.worker.(phase := Got(q, payload)))),
            slice := output[base..base + size]);
  }

  // ------------------------------------------------------------------
  // What arbitrary datagrams can do
  // ------------------------------------------------------------------

  ghost predicate Paced(p: Progress) {
    && p.tries <= 6 * p.packets + p.worker.retries
    && p.worker.retries <= if p.Running() then MAX_RETRIES else MAX_RETRIES + 1
  }

  lemma {:induction false} RunIsPaced(p: Progress, script: seq<Arrival>)
    requires p.Valid() && Paced(p)
    ensures Paced(Run(p, script))
    decreases |script|
  {
    if script != [] && p.Running() {
      RunIsPaced(Pass(p, script[0]), script[1..]);
    }
  }

  /** Datagrams that carry at least one byte of payload. */
  ghost predicate Loaded(script: seq<Arrival>) {
    forall i :: 0 <= i < |script| && script[i].Datagram? ==> |script[i].bytes| == 0 || |script[i].bytes| > HEADER_SIZE
  }

  /** Every packet stored brings at least one byte; only the last packet may be refused. */
  ghost predicate Counted(p: Progress) {
    && !p.broken
    && p.packets <= |p.slice| - p.worker.remaining + (if p.worker.phase.Failed? then 1 else 0)
    && (p.worker.phase.Failed? ==> p.worker.remaining >= 1)
  }

  lemma {:induction false} RunIsCounted(p: Progress, script: seq<Arrival>)
    requires p.Valid() && Counted(p) && Loaded(script)
    ensures Counted(Run(p, script))
    decreases |script|
  {
    if script != [] && p.Running() {
      RunIsCounted(Pass(p, script[0]), script[1..]);
    }
  }

  lemma {:induction false} RunUsesUp(p: Progress, script: seq<Arrival>)
    requires p.Valid()
    ensures var r := Run(p, script);
            r.tries <= p.tries + |script| && (r.Running() ==> r.tries == p.tries + |script|)
    decreases |script|
  {
    if script != [] && p.Running() {
      RunUsesUp(Pass(p, script[0]), script[1..]);
    }
  }

  /**
    A worker makes at most 6p + 6 receive attempts for p packets.  If every
    datagram carries payload, p is at most the size of its chunk, so the worker
    has stopped after 6 * size + 6 attempts whatever was sent to it.
   */
  lemma WorkerStops(slice: seq<Octet>, script: seq<Arrival>)
    ensures var r := Run(Begin(slice), script);
            && r.tries <= 6 * r.packets + 6
            && (Loaded(script) ==> !r.broken && r.packets <= |slice|)
            && (Loaded(script) && |script| > 6 * |slice| + 6 ==> !r.Running())
  {
    RunIsPaced(Begin(slice), script);
    RunUsesUp(Begin(slice), script);
    if Loaded(script) {
      RunIsCounted(Begin(slice), script);
    }
  }

  /** recvfrom returned no byte: a timeout, an error or an empty datagram. */
  predicate Silent(a: Arrival) {
    a.Quiet? || |a.bytes| == 0
  }

  /** Silent arrivals at the end of a script. */
  function Silence(script: seq<Arrival>): nat {
    if script == [] || !Silent(script[|script| - 1]) then 0 else 1 + Silence(script[..|script| - 1])
  }

  lemma {:induction false} RunLast(p: Progress, script: seq<Arrival>, a: Arrival)
    requires p.Valid()
    ensures Run(p, script + [a]) == if Run(p, script).Running() then Pass(Run(p, script), a) else Run(p, script)
    decreases |script|
  {
    if script == [] {
      assert script + [a] == [a] && [a][1..] == [];
    } else {
      assert (script + [a])[1..] == script[1..] + [a];
      if p.Running() {
        RunLast(Pass(p, script[0]), script[1..], a);
      }
    }
  }

  /**
    The retry counter of a worker that still runs is the length of the silence
    so far, so it gives up for silence exactly at the sixth silent attempt in a
    row; a packet in between starts the count anew.
   */
  lemma {:induction false} RetriesCountSilence(slice: seq<Octet>, script: seq<Arrival>, a: Arrival)
    ensures var r := Run(Begin(slice), script);
            && (r.Running() ==> r.worker.retries == Silence(script) <= 5)
            && (r.Running() && Silent(a) ==>
                  (Run(Begin(slice), script + [a]).worker.phase.Failed? <==> Silence(script + [a]) == 6))
    decreases |script|
  {
    assert (script + [a])[..|script|] == script;
    RunLast(Begin(slice), script, a);
    if script != [] {
      var most, last := script[..|script| - 1], script[|script| - 1];
      assert most + [last] == script;
      RetriesCountSilence(slice, most, last);
      RunLast(Begin(slice), most, last);
    }
  }

  /**
    Why duplicates are excluded: the worker does not look at sequence numbers, so
    a packet that arrives twice is stored twice, and the worker may end in success
    with it.
   */
  lemma DuplicateIsStoredTwice(q: nat, payload: seq<Octet>)
    requires q < WORD && 1 <= |payload| <= PAYLOAD_MAX
    ensures var d := Datagram(Packet(q, payload));
            var r := Run(Begin(Zeros(2 * |payload|)), [d, d]);
            && r.worker.phase.Succeeded? && r.slice == payload + payload
            && r.acks == [AckText(q), AckText(q)]
  {
    var n, d := |payload|, Datagram(Packet(q, payload));
    PacketRoundTrip(q, payload);
    var b := Packet(q, payload);
    assert (b + Zeros(HEADER_SIZE))[..HEADER_SIZE] == b[..HEADER_SIZE];
    var p0 := Begin(Zeros(2 * n));
    var p1 := Pass(p0, d);
    ZerosTail(2 * n, n);
    assert p1.slice == payload + Zeros(n);
    var p2 := Pass(p1, d);
    assert p2.slice == payload + payload;
    assert [d, d][1..] == [d] && [d][1..] == [];
    assert Run(p0, [d, d]) == Run(p1, [d]) == Run(p2, []);
  }

  // ------------------------------------------------------------------
  // Any packets
  // ------------------------------------------------------------------

  /** Packets with these headers and payloads, one after the other. */
  ghost function Packets(headers: seq<nat>, payloads: seq<seq<Octet>>): seq<Arrival>
    requires |headers| == |payloads|
  {
    if payloads == [] then []
    else
      var n := |payloads| - 1;
      Packets(headers[..n], payloads[..n]) + [Datagram(Packet(headers[n], payloads[n]))]
  }

  ghost predicate Sendable(headers: seq<nat>, payloads: seq<seq<Octet>>) {
    && |headers| == |payloads|
    && forall i :: 0 <= i < |payloads| ==> headers[i] < WORD && 1 <= |payloads[i]| <= 1016
  }

  ghost function AckTexts(headers: seq<nat>): seq<string> {
    seq(|headers|, i requires 0 <= i < |headers| => "ACK " + Decimal(headers[i]))
  }

  lemma AckIs(q: nat)
    requires q < WORD
    ensures AckText(q) == "ACK " + Decimal(q)
  {
    WordLength(q);
  }

  /** One packet that fits. */
  lemma PassStores(p: Progress, q: nat, payload: seq<Octet>)
    requires p.Valid() && p.Running() && q < WORD && |payload| <= 1016
    ensures var r := Pass(p, Datagram(Packet(q, payload)));
            && r.acks == p.acks + ["ACK " + Decimal(q)] && !r.broken
            && (if |payload| > p.worker.remaining then r.worker.phase.Failed? && r.slice == p.slice
                else
                  && r.worker.remaining == p.worker.remaining - |payload|
                  && r.worker.phase == (if |payload| == p.worker.remaining then Succeeded else Receiving)
                  && r.slice == Splice(p.slice, |p.slice| - p.worker.remaining, payload))
  {
    PacketRoundTrip(q, payload);
    AckIs(q);
    var b := Packet(q, payload);
    assert (b + Zeros(HEADER_SIZE))[..HEADER_SIZE] == b[..HEADER_SIZE];
  }

  lemma SpliceBehind(a: seq<Octet>, z: nat, b: seq<Octet>)
    requires |b| <= z
    ensures Splice(a + Zeros(z), |a|, b) == (a + b) + Zeros(z - |b|)
  {
    ZerosTail(z, |b|);
    assert (a + Zeros(z))[|a| + |b|..] == Zeros(z)[|b|..];
  }

  /** After packets that fit, the worker has joined them and acknowledged each. */
  ghost predicate JoinedSoFar(r: Progress, size: nat, headers: seq<nat>, payloads: seq<seq<Octet>>) {
    var all := Payloads(payloads);
    && |all| <= size && !r.broken && r.acks == AckTexts(headers)
    && r.slice == all + Zeros(size - |all|) && r.worker.remaining == size - |all|
    && r.worker.phase == if |all| == size then Succeeded else Receiving
  }

  lemma PayloadsAppend(payloads: seq<seq<Octet>>, b: seq<Octet>)
    ensures Payloads(payloads + [b]) == Payloads(payloads) + b
  {
    assert (payloads + [b])[..|payloads|] == payloads;
  }

  lemma AckTextsAppend(headers: seq<nat>, h: nat)
    ensures AckTexts(headers + [h]) == AckTexts(headers) + ["ACK " + Decimal(h)]
  {
  }

  lemma JoinOne(r: Progress, size: nat, headers: seq<nat>, payloads: seq<seq<Octet>>, h: nat, b: seq<Octet>)
    requires JoinedSoFar(r, size, headers, payloads) && |Payloads(payloads)| < size
    requires h < WORD && |b| <= 1016 && |Payloads(payloads)| + |b| <= size
    ensures r.Valid() && r.Running()
    ensures JoinedSoFar(Pass(r, Datagram(Packet(h, b))), size, headers + [h], payloads + [b])
  {
    PassStores(r, h, b);
    SpliceBehind(Payloads(payloads), size - |Payloads(payloads)|, b);
    AckTextsAppend(headers, h);
    PayloadsAppend(payloads, b);
  }

  lemma PacketsAppend(headers: seq<nat>, payloads: seq<seq<Octet>>, h: nat, b: seq<Octet>)
    requires |headers| == |payloads|
    ensures Packets(headers + [h], payloads + [b]) == Packets(headers, payloads) + [Datagram(Packet(h, b))]
  {
    assert (headers + [h])[..|headers|] == headers && (payloads + [b])[..|headers|] == payloads;
  }

  /**
    Whatever packets arrive, with whatever sequence numbers: as long as they fit
    they are joined in the order of arrival, each is acknowledged with its own
    number, and the worker succeeds exactly when they fill its chunk.
   */
  lemma {:induction false} PacketsAreJoined(size: nat, headers: seq<nat>, payloads: seq<seq<Octet>>)
    requires size >= 1 && Sendable(headers, payloads) && |Payloads(payloads)| <= size
    ensures JoinedSoFar(Run(Begin(Zeros(size)), Packets(headers, payloads)), size, headers, payloads)
    decreases |payloads|
  {
    if payloads == [] {
      assert [] + Zeros(size) == Zeros(size);
    } else {
      var n := |payloads| - 1;
      var hs, ps, h, b := headers[..n], payloads[..n], headers[n], payloads[n];
      assert hs + [h] == headers && ps + [b] == payloads;
      PayloadsAppend(ps, b);
      PacketsAreJoined(size, hs, ps);
      PacketsAppend(hs, ps, h, b);
      RunLast(Begin(Zeros(size)), Packets(hs, ps), Datagram(Packet(h, b)));
      JoinOne(Run(Begin(Zeros(size)), Packets(hs, ps)), size, hs, ps, h, b);
    }
  }

  /** A packet that is too long for what is left is acknowledged, and makes the worker fail with what it had before. */
  lemma TooLongFails(size: nat, headers: seq<nat>, payloads: seq<seq<Octet>>, h: nat, b: seq<Octet>)
    requires size >= 1 && Sendable(headers, payloads) && h < WORD && |b| <= 1016
    requires |Payloads(payloads)| < size < |Payloads(payloads)| + |b|
    ensures var r := Run(Begin(Zeros(size)), Packets(headers + [h], payloads + [b]));
            && r.worker.phase.Failed? && r.acks == AckTexts(headers + [h])
            && r.slice == Payloads(payloads) + Zeros(size - |Payloads(payloads)|)
  {
    PacketsAreJoined(size, headers, payloads);
    PacketsAppend(headers, payloads, h, b);
    RunLast(Begin(Zeros(size)), Packets(headers, payloads), Datagram(Packet(h, b)));
    PassStores(Run(Begin(Zeros(size)), Packets(headers, payloads)), h, b);
    AckTextsAppend(headers, h);
  }

  /** Of a longer datagram the first 1024 octets count; one of fewer than eight breaks the copy. */
  lemma OddDatagrams(p: Progress, b: seq<Octet>)
    requires p.Valid() && p.Running()
    ensures |b| > 1024 ==> Pass(p, Datagram(b)) == Pass(p, Datagram(b[..1024]))
    ensures Pass(p, Datagram(b)).broken <==> 1 <= |b| < 8
  {
  }

  const NOT_FOUND := "ERROR File not found"

  /**
    The reply of a server that does not have the file is taken for data: its
    first eight octets count as a sequence number, the rest as payload.  The
    worker reports success exactly when its chunk is as long as that rest.
   */
  lemma ErrorReplyIsTakenForData(size: nat)
    requires size >= 1
    ensures var r := Run(Begin(Zeros(size)), [Datagram(NOT_FOUND)]);
            && (r.worker.phase.Succeeded? <==> size == 12)
            && (size >= 12 ==> r.slice == "le not found" + Zeros(size - 12))
            && (size < 12 ==> r.worker.phase.Failed? && r.slice == Zeros(size))
  {
    var p := Begin(Zeros(size));
    assert [Datagram(NOT_FOUND)][1..] == [];
    assert Run(p, [Datagram(NOT_FOUND)]) == Run(Pass(p, Datagram(NOT_FOUND)), []);
    assert NOT_FOUND[HEADER_SIZE..] == "le not found";
  }

  // ------------------------------------------------------------------
  // The loop and the protocol model
  // ------------------------------------------------------------------

  lemma ExecCons(sess: Session, ch: Channel, e: Event, es: seq<Event>)
    requires StopAndWait.Enabled(sess, ch, e) && RunOk(sess, Apply(sess, ch, e), es)
    ensures RunOk(sess, ch, [e] + es) && Exec(sess, ch, [e] + es) == Exec(sess, Apply(sess, ch, e), es)
  {
    assert ([e] + es)[1..] == es;
  }

  lemma FourEvents(sess: Session, ch: Channel)
    requires ch.worker.phase.Receiving? && ch.link.Some? && ch.link.value.Data?
    requires |ch.link.value.payload| <= ch.worker.remaining <= |ch.slice| == sess.size
    ensures RunOk(sess, ch, [Poll, Deliver, Acknowledge, Store])
    ensures var Data(q, payload) := ch.link.value;
            Exec(sess, ch, [Poll, Deliver, Acknowledge, Store])
            == ch.(worker := OnStore(OnAckSent(ch.worker.(phase := Got(q, payload)))),
                   link := Some(Ack(q)),
                   slice := Splice(ch.slice, sess.size - ch.worker.remaining, payload))
  {
    var c1 := Apply(sess, ch, Poll);
    var c2 := Apply(sess, c1, Deliver);
    var c3 := Apply(sess, c2, Acknowledge);
    assert [Store] == [Store] + [];
    assert [Acknowledge, Store] == [Acknowledge] + [Store];
    assert [Deliver, Acknowledge, Store] == [Deliver] + [Acknowledge, Store];
    assert [Poll, Deliver, Acknowledge, Store] == [Poll] + [Deliver, Acknowledge, Store];
    ExecCons(sess, c3, Store, []);
    ExecCons(sess, c2, Acknowledge, [Store]);
    ExecCons(sess, c1, Deliver, [Acknowledge, Store]);
    ExecCons(sess, ch, Poll, [Deliver, Acknowledge, Store]);
  }

  /** One pass over a packet of the server is the channel's poll, deliver, acknowledge and store. */
  lemma PassIsFourEvents(sess: Session, ch: Channel, p: Progress)
    requires sess.Valid() && StopAndWait.Inv(sess, ch)
    requires ch.worker.phase.Receiving? && ch.link.Some? && ch.link.value.Data? && ch.link.value.seqNum < WORD
    requires p.Valid() && p.Running() && p.worker == ch.worker && p.slice == ch.slice
    ensures RunOk(sess, ch, [Poll, Deliver, Acknowledge, Store])
    ensures var r := Pass(p, Datagram(Packet(ch.link.value.seqNum, ch.link.value.payload)));
            var ch' := Exec(sess, ch, [Poll, Deliver, Acknowledge, Store]);
            && r.worker == ch'.worker && r.slice == ch'.slice && !r.broken
            && r.acks == p.acks + [AckText(ch.link.value.seqNum)] && ch'.link == Some(Ack(ch.link.value.seqNum))
  {
    var Data(q, payload) := ch.link.value;
    FourEvents(sess, ch);
    PacketRoundTrip(q, payload);
    var b := Packet(q, payload);
    assert (b + Zeros(HEADER_SIZE))[..HEADER_SIZE] == b[..HEADER_SIZE];
  }

  // ------------------------------------------------------------------
  // The server's loop
  // ------------------------------------------------------------------

  function Payloads(packets: seq<seq<Octet>>): seq<Octet> {
    if packets == [] then [] else Payloads(packets[..|packets| - 1]) + packets[|packets| - 1]
  }

  /**
    The packetising loop (tftp/server.c:94-153), for any division of the reads:
    numbered packets from 0 on, none empty, none above the buffer size, and
    together exactly the requested range.
   */
  method CutIntoPackets(file: seq<Octet>, offset: nat, size: nat) returns (sent: seq<seq<Octet>>)
    requires offset + size <= |file| < WORD
    ensures Payloads(sent) == file[offset..offset + size]
    ensures |sent| <= size
    ensures forall i :: 0 <= i < |sent| ==>
              && 1 <= |sent[i]| <= 1016
              && HeaderOf(Packet(i, sent[i])) == i && |Packet(i, sent[i])| <= 1024
  {
    sent := [];
    var remaining, pos := size, offset;
    while remaining > 0
      invariant 0 <= remaining <= size && pos + remaining == offset + size
      invariant |sent| <= size - remaining
      invariant Payloads(sent) == file[offset..pos]
      invariant forall i :: 0 <= i < |sent| ==> 1 <= |sent[i]| <= PAYLOAD_MAX
    {
      var toRead := if remaining > PAYLOAD_MAX then PAYLOAD_MAX else remaining;
      var n :| 1 <= n <= toRead;
      var payload := file[pos..pos + n];
      assert (sent + [payload])[..|sent|] == sent;
      Adjacent(file, offset, pos, pos + n);
      sent := sent + [payload];
      pos := pos + n;
      remaining := remaining - n;
    }
    forall i | 0 <= i < |sent|
      ensures HeaderOf(Packet(i, sent[i])) == i && |Packet(i, sent[i])| <= BUFFER_SIZE
    {
      PacketRoundTrip(i, sent[i]);
    }
  }
}
