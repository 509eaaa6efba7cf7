/**
  The whole UDP transfer: every worker of every client process, every handler
  of every server process, the ACK queue and condition variable of each server,
  the client's socket mutex, the output memory and the network.  A run is a
  sequence of labels; each label is one atomic step of one thread, or something
  the environment does.

  The network loses or delays datagrams as it likes and does not duplicate
  them.  Every worker has its own address, so a worker, its handler and their
  datagrams share one number.
 */
module System {
  import opened Octets
  import opened StopAndWait
  import opened AckQueue

  /** The output regions of two sessions do not overlap. */
  predicate Apart(a: Session, b: Session) {
    a.base + a.size <= b.base || b.base + b.size <= a.base
  }

  datatype Config = Config(sessions: seq<Session>, servers: nat, memory: nat)
  {
    /** Every session has a server, and its output region lies in the memory. */
    predicate Sound() {
      forall k :: 0 <= k < |sessions| ==>
        sessions[k].server < servers && sessions[k].base + sessions[k].size <= memory
    }

    ghost predicate Valid() {
      && Sound()
      && (forall k :: 0 <= k < |sessions| ==> sessions[k].Valid())
      && (forall j, k :: 0 <= j < k < |sessions| ==> Apart(sessions[j], sessions[k]))
    }
  }

  datatype Datagram = Datagram(addr: nat, msg: Msg)

  /** A handler that waits for an ACK is about to scan the queue, asleep on the condition, or signalled. */
  datatype Wait = Scanning | Asleep | Woken

  datatype State = State(workers: seq<Worker>, senders: seq<Sender>, waits: seq<Wait>,
                         queues: seq<seq<Entry>>, net: multiset<Datagram>, memory: seq<Octet>)

  datatype Label =
    | SendGet(k: nat) | RouteGet(d: Datagram) | SendData(k: nat, n: nat) | Scan(k: nat)
    | RouteAck(d: Datagram) | Lock(k: nat) | Receive(d: Datagram) | SendAck(k: nat) | Write(k: nat)
    | GetFails(k: nat) | Drop(d: Datagram) | TimesOut(k: nat) | Spurious(k: nat)
    | SendAckFails(k: nat) | HandlerFails(k: nat)

  function Init(c: Config): State {
    State(seq(|c.sessions|, k requires 0 <= k < |c.sessions| => Start(c.sessions[k].size)),
          seq(|c.sessions|, _ => Off),
          seq(|c.sessions|, _ => Scanning),
          seq(c.servers, _ => []),
          multiset{},
          Zeros(c.memory))
  }

  predicate Shape(c: Config, s: State) {
    && c.Sound()
    && |s.senders| == |s.waits| == |c.sessions|
    && |s.queues| == c.servers && |s.memory| == c.memory
    && InBounds(c, s.workers)
  }

  predicate InBounds(c: Config, workers: seq<Worker>) {
    && |workers| == |c.sessions|
    && forall k :: 0 <= k < |workers| ==> workers[k].remaining <= c.sessions[k].size
  }

  /** The client's socket mutex is held exactly while one of its workers is inside recvfrom. */
  predicate LockFree(c: Config, s: State, k: nat)
    requires Shape(c, s) && k < |c.sessions|
  {
    forall j :: 0 <= j < |c.sessions| && c.sessions[j].client == c.sessions[k].client
                ==> !s.workers[j].phase.Polling?
  }

  function QueueOf(c: Config, s: State, k: nat): seq<Entry>
    requires Shape(c, s) && k < |c.sessions|
  {
    s.queues[c.sessions[k].server]
  }

  /** The ACK that handler k looks for. */
  function Wanted(s: State, k: nat): Entry
    requires k < |s.senders| && s.senders[k].Waiting?
  {
    Entry(s.senders[k].seqNum, k)
  }

  /** pthread_cond_broadcast on server v: every handler asleep there is signalled. */
  function Broadcast(c: Config, s: State, v: nat): seq<Wait>
    requires Shape(c, s)
  {
    seq(|s.waits|, k requires 0 <= k < |s.waits| =>
      if c.sessions[k].server == v && s.waits[k] == Asleep then Woken else s.waits[k])
  }

  predicate Enabled(c: Config, s: State, l: Label) {
    && Shape(c, s)
    && match l
       case SendGet(k) => k < |c.sessions| && s.workers[k].phase.Idle?
       case GetFails(k) => k < |c.sessions| && s.workers[k].phase.Idle?
       case RouteGet(d) => d in s.net && d.addr < |c.sessions| && d.msg.Get?
       case SendData(k, n) =>
         && k < |c.sessions| && s.senders[k].Sending?
         && 1 <= n <= s.senders[k].remaining && n <= PAYLOAD_MAX
         && s.senders[k].pos + n <= |c.sessions[k].file|
       case Scan(k) => k < |c.sessions| && s.senders[k].Waiting? && s.waits[k] != Asleep
       case RouteAck(d) => d in s.net && d.addr < |c.sessions| && d.msg.Ack?
       case Lock(k) => k < |c.sessions| && s.workers[k].phase.Receiving? && LockFree(c, s, k)
       case Receive(d) =>
         d in s.net && d.addr < |c.sessions| && d.msg.Data? && s.workers[d.addr].phase.Polling?
       case SendAck(k) => k < |c.sessions| && s.workers[k].phase.Got? && LockFree(c, s, k)
       case Write(k) => k < |c.sessions| && s.workers[k].phase.Acked?
       case Drop(d) => d in s.net && d.addr < |c.sessions|
       case TimesOut(k) => k < |c.sessions| && s.workers[k].phase.Polling?
       case Spurious(k) => k < |c.sessions| && s.senders[k].Waiting? && s.waits[k] == Asleep
       case SendAckFails(k) => k < |c.sessions| && s.workers[k].phase.Got? && LockFree(c, s, k)
       case HandlerFails(k) => k < |c.sessions| && s.senders[k].Sending?
  }

  function Apply(c: Config, s: State, l: Label): State
    requires Enabled(c, s, l)
  {
    match l
    case SendGet(k) =>
      s.(workers := s.workers[k := s.workers[k].(phase := Receiving)],
         net := s.net + multiset{Datagram(k, Get(c.sessions[k].offset, c.sessions[k].size))})
    case GetFails(k) => s.(workers := s.workers[k := s.workers[k].(phase := Unsent)])
    case RouteGet(d) =>
      s.(senders := s.senders[d.addr := Resume(0, d.msg.offset, d.msg.size)], net := s.net - multiset{d})
    case SendData(k, n) =>
      var Sending(q, pos, rem) := s.senders[k];
      s.(senders := s.senders[k := Waiting(q, pos + n, rem, n)],
         waits := s.waits[k := Scanning],
         net := s.net + multiset{Datagram(k, Data(q, c.sessions[k].file[pos..pos + n]))})
    case Scan(k) =>
      var Waiting(q, pos, rem, len) := s.senders[k];
      var v := c.sessions[k].server;
      if Wanted(s, k) !in s.queues[v] then s.(waits := s.waits[k := Asleep])
      else s.(queues := s.queues[v := Take(s.queues[v], Wanted(s, k))],
              senders := s.senders[k := if len <= rem then Resume(q + 1, pos, rem - len) else Halted])
    case RouteAck(d) =>
      var v := c.sessions[d.addr].server;
      var s1 := s.(net := s.net - multiset{d},
                   queues := s.queues[v := Enqueue(s.queues[v], Entry(d.msg.seqNum, d.addr))]);
      if |s.queues[v]| < MAX_QUEUE_SIZE then s1.(waits := Broadcast(c, s, v)) else s1
    case Lock(k) => s.(workers := s.workers[k := s.workers[k].(phase := Polling)])
    case Receive(d) =>
      s.(workers := s.workers[d.addr := s.workers[d.addr].(phase := Got(d.msg.seqNum, d.msg.payload))],
         net := s.net - multiset{d})
    case SendAck(k) =>
      s.(workers := s.workers[k := OnAckSent(s.workers[k])],
         net := s.net + multiset{Datagram(k, Ack(s.workers[k].phase.seqNum))})
    case Write(k) =>
      var w := s.workers[k];
      var at := c.sessions[k].base + c.sessions[k].size - w.remaining;
      var s1 := s.(workers := s.workers[k := OnStore(w)]);
      if |w.phase.payload| > w.remaining then s1
      else s1.(memory := Splice(s.memory, at, w.phase.payload))
    case Drop(d) => s.(net := s.net - multiset{d})
    case TimesOut(k) => s.(workers := s.workers[k := OnTimeout(s.workers[k])])
    case Spurious(k) => s.(waits := s.waits[k := Woken])
    case SendAckFails(k) => s.(workers := s.workers[k := s.workers[k].(phase := Failed)])
    case HandlerFails(k) => s.(senders := s.senders[k := Halted])
  }

  lemma InBoundsUpdate(c: Config, workers: seq<Worker>, k: nat, w: Worker)
    requires InBounds(c, workers) && k < |workers| && w.remaining <= workers[k].remaining
    ensures InBounds(c, workers[k := w])
  {
  }

  lemma ShapeStep(c: Config, s: State, l: Label)
    requires Enabled(c, s, l)
    ensures Shape(c, Apply(c, s, l))
  {
    var s' := Apply(c, s, l);
    if l.Receive? {
      InBoundsUpdate(c, s.workers, l.d.addr, s'.workers[l.d.addr]);
    } else if !l.RouteGet? && !l.RouteAck? && !l.Drop? {
      InBoundsUpdate(c, s.workers, l.k, s'.workers[l.k]);
    }
  }

  predicate RunOk(c: Config, s: State, ls: seq<Label>)
    decreases |ls|
  {
    ls == [] || (Enabled(c, s, ls[0]) && RunOk(c, Apply(c, s, ls[0]), ls[1..]))
  }

  function Exec(c: Config, s: State, ls: seq<Label>): State
    requires RunOk(c, s, ls)
    decreases |ls|
  {
    if ls == [] then s else Exec(c, Apply(c, s, ls[0]), ls[1..])
  }

  /** The region of the output memory that belongs to session k. */
  function SliceOf(c: Config, s: State, k: nat): seq<Octet>
    requires Shape(c, s) && k < |c.sessions|
  {
    s.memory[c.sessions[k].base..c.sessions[k].base + c.sessions[k].size]
  }
}
