/**
  Every run of the whole system looks, to each session, like a run of that
  session's own stop-and-wait channel.  The link of the channel is found by
  following the session's one datagram through the network and the ACK queue.
 */
module Refinement {
  import opened Octets
  import opened StopAndWait
  import opened AckQueue
  import opened System

  /** Where the one datagram of a session is. */
  datatype Token = Nothing | Flying(msg: Msg) | Queued(seqNum: nat)

  function Link(t: Token): Option<Msg> {
    match t
    case Nothing => None
    case Flying(m) => Some(m)
    case Queued(q) => Some(Ack(q))
  }

  /** What session k has of the system state. */
  function View(c: Config, s: State, t: seq<Token>, k: nat): Channel
    requires Shape(c, s) && k < |c.sessions| == |t|
  {
    Channel(s.workers[k], s.senders[k], Link(t[k]), SliceOf(c, s, k))
  }

  // ------------------------------------------------------------------
  // The shared parts, in terms of the tokens
  // ------------------------------------------------------------------

  /** The network holds exactly the flying tokens, each once. */
  ghost predicate NetInv(net: multiset<Datagram>, t: seq<Token>) {
    forall d :: net[d] == if d.addr < |t| && t[d.addr] == Flying(d.msg) then 1 else 0
  }

  /** The queue of a server holds exactly the queued tokens of its sessions, each once. */
  ghost predicate QueueInv(c: Config, queues: seq<seq<Entry>>, t: seq<Token>)
    requires |t| == |c.sessions| && |queues| == c.servers && c.Sound()
  {
    && (forall v :: 0 <= v < |queues| ==> |queues[v]| <= MAX_QUEUE_SIZE && OnePerAddress(queues[v]))
    && (forall v, e :: 0 <= v < |queues| && e in queues[v] ==>
          e.addr < |t| && c.sessions[e.addr].server == v && t[e.addr] == Queued(e.seqNum))
    && (forall k :: 0 <= k < |t| && t[k].Queued? ==> Entry(t[k].seqNum, k) in queues[c.sessions[k].server])
  }

  /** No handler sleeps through its ACK. */
  ghost predicate WakeInv(senders: seq<Sender>, waits: seq<Wait>, t: seq<Token>)
    requires |senders| == |waits| == |t|
  {
    forall k :: 0 <= k < |t| && senders[k].Waiting? && waits[k] == Asleep ==> !t[k].Queued?
  }

  /** At most one worker of a process is inside recvfrom. */
  ghost predicate LockInv(c: Config, workers: seq<Worker>)
    requires |workers| == |c.sessions|
  {
    forall j, k :: 0 <= j < k < |c.sessions| && c.sessions[j].client == c.sessions[k].client
                   ==> !workers[j].phase.Polling? || !workers[k].phase.Polling?
  }

  /** What the sessions share. */
  ghost predicate Shared(c: Config, s: State, t: seq<Token>) {
    && Shape(c, s) && |t| == |c.sessions|
    && NetInv(s.net, t) && QueueInv(c, s.queues, t)
    && WakeInv(s.senders, s.waits, t) && LockInv(c, s.workers)
  }

  ghost predicate Inv(c: Config, s: State, t: seq<Token>) {
    && c.Valid() && Shared(c, s, t)
    && forall k :: 0 <= k < |t| ==> StopAndWait.Inv(c.sessions[k], View(c, s, t, k))
  }

  // ------------------------------------------------------------------
  // What a step of the system is for one session
  // ------------------------------------------------------------------

  /** The session that a label belongs to. */
  function Subject(l: Label): nat {
    match l
    case RouteGet(d) => d.addr
    case RouteAck(d) => d.addr
    case Receive(d) => d.addr
    case Drop(d) => d.addr
    case _ => l.k
  }

  /** Queueing an ACK, scanning in vain and waking up are invisible; an ACK dropped at a full queue is a lost one. */
  function EventOf(c: Config, s: State, l: Label): Option<Event>
    requires System.Enabled(c, s, l)
  {
    match l
    case SendGet(_) => Some(Request)
    case GetFails(_) => Some(RequestFails)
    case RouteGet(_) => Some(Accept)
    case SendData(_, n) => Some(Send(n))
    case Scan(k) => if Wanted(s, k) in QueueOf(c, s, k) then Some(Consume) else None
    case RouteAck(d) => if |QueueOf(c, s, d.addr)| < MAX_QUEUE_SIZE then None else Some(Lose)
    case Lock(_) => Some(Poll)
    case Receive(_) => Some(Deliver)
    case SendAck(_) => Some(Acknowledge)
    case Write(_) => Some(Store)
    case Drop(_) => Some(Lose)
    case TimesOut(_) => Some(Timeout)
    case Spurious(_) => None
    case SendAckFails(_) => Some(AckFails)
    case HandlerFails(_) => Some(Abort)
  }

  function NextTokens(c: Config, s: State, t: seq<Token>, l: Label): seq<Token>
    requires System.Enabled(c, s, l) && |t| == |c.sessions|
  {
    match l
    case SendGet(k) => t[k := Flying(Get(c.sessions[k].offset, c.sessions[k].size))]
    case SendData(k, n) =>
      var pos := s.senders[k].pos;
      t[k := Flying(Data(s.senders[k].seqNum, c.sessions[k].file[pos..pos + n]))]
    case SendAck(k) => t[k := Flying(Ack(s.workers[k].phase.seqNum))]
    case RouteGet(d) => t[d.addr := Nothing]
    case Receive(d) => t[d.addr := Nothing]
    case Drop(d) => t[d.addr := Nothing]
    case RouteAck(d) =>
      t[d.addr := if |QueueOf(c, s, d.addr)| < MAX_QUEUE_SIZE then Queued(d.msg.seqNum) else Nothing]
    case Scan(k) => if Wanted(s, k) in QueueOf(c, s, k) then t[k := Nothing] else t
    case _ => t
  }

  /** One channel moves by at most one event. */
  ghost predicate Moves(sess: Session, a: Channel, e: Option<Event>, b: Channel) {
    match e
    case None => a == b
    case Some(ev) => StopAndWait.Enabled(sess, a, ev) && b == StopAndWait.Apply(sess, a, ev)
  }

  /** What the channel invariant of the subject says about the token before the step. */
  ghost predicate Ready(c: Config, s: State, t: seq<Token>, l: Label)
    requires System.Enabled(c, s, l) && |t| == |c.sessions|
  {
    match l
    case SendGet(k) => t[k].Nothing?
    case SendData(k, _) => t[k].Nothing?
    case SendAck(k) => t[k].Nothing?
    case RouteGet(d) => s.senders[d.addr].Off? && d.msg.size == c.sessions[d.addr].size
    case Scan(k) =>
      && (t[k].Queued? ==> t[k].seqNum == s.senders[k].seqNum)
      && s.senders[k].len <= s.senders[k].remaining
    case _ => true
  }

  lemma InvReady(c: Config, s: State, t: seq<Token>, l: Label)
    requires Shared(c, s, t) && System.Enabled(c, s, l) && c.sessions[Subject(l)].Valid()
    requires StopAndWait.Inv(c.sessions[Subject(l)], View(c, s, t, Subject(l)))
    ensures Ready(c, s, t, l)
  {
    match l
    case RouteGet(d) => assert s.net[d] == if d.addr < |t| && t[d.addr] == Flying(d.msg) then 1 else 0;
    case _ =>
  }

  /** A datagram leaves the network. */
  lemma NetTake(net: multiset<Datagram>, t: seq<Token>, d: Datagram, x: Token)
    requires NetInv(net, t) && d in net && !x.Flying?
    ensures d.addr < |t| && t[d.addr] == Flying(d.msg)
    ensures NetInv(net - multiset{d}, t[d.addr := x])
  {
    assert net[d] == if d.addr < |t| && t[d.addr] == Flying(d.msg) then 1 else 0;
    var net', t' := net - multiset{d}, t[d.addr := x];
    forall y: Datagram
      ensures net'[y] == if y.addr < |t'| && t'[y.addr] == Flying(y.msg) then 1 else 0
    {
      assert net[y] == if y.addr < |t| && t[y.addr] == Flying(y.msg) then 1 else 0;
    }
  }

  /** A datagram enters the network. */
  lemma NetPut(net: multiset<Datagram>, t: seq<Token>, d: Datagram)
    requires NetInv(net, t) && d.addr < |t| && !t[d.addr].Flying?
    ensures NetInv(net + multiset{d}, t[d.addr := Flying(d.msg)])
  {
    var net', t' := net + multiset{d}, t[d.addr := Flying(d.msg)];
    forall y: Datagram
      ensures net'[y] == if y.addr < |t'| && t'[y.addr] == Flying(y.msg) then 1 else 0
    {
      assert net[y] == if y.addr < |t| && t[y.addr] == Flying(y.msg) then 1 else 0;
    }
  }

  /** A token that neither enters nor leaves a queue leaves the queues as described. */
  lemma QueueFrame(c: Config, queues: seq<seq<Entry>>, t: seq<Token>, k: nat, x: Token)
    requires c.Sound() && |t| == |c.sessions| && |queues| == c.servers && QueueInv(c, queues, t)
    requires k < |t| && !t[k].Queued? && !x.Queued?
    ensures QueueInv(c, queues, t[k := x])
  {
  }

  lemma QueuePut(c: Config, queues: seq<seq<Entry>>, t: seq<Token>, k: nat, q: nat)
    requires c.Sound() && |t| == |c.sessions| && |queues| == c.servers && QueueInv(c, queues, t)
    requires k < |t| && !t[k].Queued? && |queues[c.sessions[k].server]| < MAX_QUEUE_SIZE
    ensures var v := c.sessions[k].server;
            QueueInv(c, queues[v := Enqueue(queues[v], Entry(q, k))], t[k := Queued(q)])
  {
    var v := c.sessions[k].server;
    forall i | 0 <= i < |queues[v]| ensures queues[v][i].addr != k {
      assert queues[v][i] in queues[v];
    }
    EnqueueKeepsOnePerAddress(queues[v], Entry(q, k));
  }

  lemma QueueTake(c: Config, queues: seq<seq<Entry>>, t: seq<Token>, e: Entry)
    requires c.Sound() && |t| == |c.sessions| && |queues| == c.servers && QueueInv(c, queues, t)
    requires e.addr < |t| && e in queues[c.sessions[e.addr].server]
    ensures var v := c.sessions[e.addr].server;
            QueueInv(c, queues[v := Take(queues[v], e)], t[e.addr := Nothing])
  {
    var v := c.sessions[e.addr].server;
    TakeKeepsOnePerAddress(queues[v], e);
    forall x | x in Take(queues[v], e) ensures x.addr != e.addr {
      assert t[x.addr] == Queued(x.seqNum);
    }
  }

  lemma LockKeep(c: Config, workers: seq<Worker>, k: nat, w: Worker)
    requires |workers| == |c.sessions| && LockInv(c, workers) && k < |workers| && !w.phase.Polling?
    ensures LockInv(c, workers[k := w])
  {
  }

  lemma LockTake(c: Config, workers: seq<Worker>, k: nat, w: Worker)
    requires |workers| == |c.sessions| && LockInv(c, workers) && k < |workers|
    requires forall j :: 0 <= j < |c.sessions| && c.sessions[j].client == c.sessions[k].client
                         ==> !workers[j].phase.Polling?
    ensures LockInv(c, workers[k := w])
  {
  }

  /** The broadcast leaves no handler of that server asleep. */
  lemma WakeBroadcast(c: Config, s: State, t: seq<Token>, k: nat, x: Token)
    requires Shape(c, s) && |t| == |c.sessions| && k < |t| && WakeInv(s.senders, s.waits, t)
    ensures WakeInv(s.senders, Broadcast(c, s, c.sessions[k].server), t[k := x])
  {
  }

  lemma WakeUpdate(senders: seq<Sender>, waits: seq<Wait>, t: seq<Token>, k: nat, x: Sender, w: Wait, tok: Token)
    requires |senders| == |waits| == |t| && k < |t| && WakeInv(senders, waits, t)
    requires x.Waiting? && w == Asleep ==> !tok.Queued?
    ensures WakeInv(senders[k := x], waits[k := w], t[k := tok])
  {
  }

  // ------------------------------------------------------------------
  // Each step keeps the shared part
  // ------------------------------------------------------------------

  lemma SharedSend(c: Config, s: State, t: seq<Token>, l: Label)
    requires Shared(c, s, t) && System.Enabled(c, s, l) && Ready(c, s, t, l)
    requires l.SendGet? || l.SendData? || l.SendAck?
    ensures Shared(c, System.Apply(c, s, l), NextTokens(c, s, t, l))
  {
    var s', t', k := System.Apply(c, s, l), NextTokens(c, s, t, l), l.k;
    ShapeStep(c, s, l);
    NetPut(s.net, t, Datagram(k, t'[k].msg));
    QueueFrame(c, s.queues, t, k, t'[k]);
    WakeUpdate(s.senders, s.waits, t, k, s'.senders[k], s'.waits[k], t'[k]);
    if !l.SendData? {
      LockKeep(c, s.workers, k, s'.workers[k]);
    }
  }

  lemma SharedTake(c: Config, s: State, t: seq<Token>, l: Label)
    requires Shared(c, s, t) && System.Enabled(c, s, l)
    requires l.RouteGet? || l.Receive? || l.Drop?
    ensures Shared(c, System.Apply(c, s, l), NextTokens(c, s, t, l))
  {
    var s', k := System.Apply(c, s, l), l.d.addr;
    ShapeStep(c, s, l);
    NetTake(s.net, t, l.d, Nothing);
    QueueFrame(c, s.queues, t, k, Nothing);
    WakeUpdate(s.senders, s.waits, t, k, s'.senders[k], s'.waits[k], Nothing);
    if l.Receive? {
      LockKeep(c, s.workers, k, s'.workers[k]);
    }
  }

  lemma SharedQueued(c: Config, s: State, t: seq<Token>, d: Datagram)
    requires Shared(c, s, t) && System.Enabled(c, s, RouteAck(d)) && |QueueOf(c, s, d.addr)| < MAX_QUEUE_SIZE
    ensures Shared(c, System.Apply(c, s, RouteAck(d)), NextTokens(c, s, t, RouteAck(d)))
  {
    ShapeStep(c, s, RouteAck(d));
    NetTake(s.net, t, d, Queued(d.msg.seqNum));
    QueuePut(c, s.queues, t, d.addr, d.msg.seqNum);
    WakeBroadcast(c, s, t, d.addr, Queued(d.msg.seqNum));
  }

  lemma SharedDropped(c: Config, s: State, t: seq<Token>, d: Datagram)
    requires Shared(c, s, t) && System.Enabled(c, s, RouteAck(d)) && |QueueOf(c, s, d.addr)| >= MAX_QUEUE_SIZE
    ensures Shared(c, System.Apply(c, s, RouteAck(d)), NextTokens(c, s, t, RouteAck(d)))
  {
    ShapeStep(c, s, RouteAck(d));
    NetTake(s.net, t, d, Nothing);
    QueueFrame(c, s.queues, t, d.addr, Nothing);
    WakeUpdate(s.senders, s.waits, t, d.addr, s.senders[d.addr], s.waits[d.addr], Nothing);
  }

  lemma SharedScan(c: Config, s: State, t: seq<Token>, k: nat)
    requires Shared(c, s, t) && System.Enabled(c, s, Scan(k)) && Ready(c, s, t, Scan(k))
    ensures Shared(c, System.Apply(c, s, Scan(k)), NextTokens(c, s, t, Scan(k)))
  {
    var s' := System.Apply(c, s, Scan(k));
    ShapeStep(c, s, Scan(k));
    if Wanted(s, k) in QueueOf(c, s, k) {
      QueueTake(c, s.queues, t, Wanted(s, k));
      assert t[k].Queued?;
      NetFrame(s.net, t, k);
      WakeUpdate(s.senders, s.waits, t, k, s'.senders[k], s.waits[k], Nothing);
    } else {
      WakeUpdate(s.senders, s.waits, t, k, s.senders[k], Asleep, t[k]);
    }
  }

  lemma NetFrame(net: multiset<Datagram>, t: seq<Token>, k: nat)
    requires NetInv(net, t) && k < |t| && !t[k].Flying?
    ensures NetInv(net, t[k := Nothing])
  {
    var t' := t[k := Nothing];
    forall y: Datagram
      ensures net[y] == if y.addr < |t'| && t'[y.addr] == Flying(y.msg) then 1 else 0
    {
      assert net[y] == if y.addr < |t| && t[y.addr] == Flying(y.msg) then 1 else 0;
    }
  }

  /** Steps of a worker that touch neither network nor queue. */
  lemma SharedWorker(c: Config, s: State, t: seq<Token>, l: Label)
    requires Shared(c, s, t) && System.Enabled(c, s, l)
    requires l.Write? || l.GetFails? || l.Lock? || l.TimesOut? || l.SendAckFails?
    ensures Shared(c, System.Apply(c, s, l), NextTokens(c, s, t, l))
  {
    var s' := System.Apply(c, s, l);
    ShapeStep(c, s, l);
    if l.Lock? {
      LockTake(c, s.workers, l.k, s'.workers[l.k]);
    } else {
      LockKeep(c, s.workers, l.k, s'.workers[l.k]);
    }
  }

  lemma SharedHandler(c: Config, s: State, t: seq<Token>, l: Label)
    requires Shared(c, s, t) && System.Enabled(c, s, l)
    requires l.Spurious? || l.HandlerFails?
    ensures Shared(c, System.Apply(c, s, l), NextTokens(c, s, t, l))
  {
    var s' := System.Apply(c, s, l);
    ShapeStep(c, s, l);
    WakeUpdate(s.senders, s.waits, t, l.k, s'.senders[l.k], s'.waits[l.k], t[l.k]);
  }

  lemma SharedStep(c: Config, s: State, t: seq<Token>, l: Label)
    requires Shared(c, s, t) && System.Enabled(c, s, l) && Ready(c, s, t, l)
    ensures Shared(c, System.Apply(c, s, l), NextTokens(c, s, t, l))
  {
    if l.SendGet? || l.SendData? || l.SendAck? {
      SharedSend(c, s, t, l);
    } else if l.RouteGet? || l.Receive? || l.Drop? {
      SharedTake(c, s, t, l);
    } else if l.RouteAck? {
      if |QueueOf(c, s, l.d.addr)| < MAX_QUEUE_SIZE {
        SharedQueued(c, s, t, l.d);
      } else {
        SharedDropped(c, s, t, l.d);
      }
    } else if l.Scan? {
      SharedScan(c, s, t, l.k);
    } else if l.Spurious? || l.HandlerFails? {
      SharedHandler(c, s, t, l);
    } else {
      SharedWorker(c, s, t, l);
    }
  }

  // ------------------------------------------------------------------
  // Each step is one event of one channel, or none
  // ------------------------------------------------------------------

  /** Writing inside one slice changes no byte of another. */
  lemma WriteStaysInside(c: Config, s: State, k: nat, j: nat)
    requires c.Valid() && System.Enabled(c, s, Write(k)) && j < |c.sessions| && j != k
    ensures Shape(c, System.Apply(c, s, Write(k)))
    ensures SliceOf(c, System.Apply(c, s, Write(k)), j) == SliceOf(c, s, j)
  {
    assert Apart(c.sessions[k], c.sessions[j]) by {
      if j < k {
        assert Apart(c.sessions[j], c.sessions[k]);
      }
    }
  }

  lemma OthersStay(c: Config, s: State, t: seq<Token>, l: Label, j: nat)
    requires c.Valid() && System.Enabled(c, s, l) && |t| == |c.sessions|
    requires Shape(c, System.Apply(c, s, l)) && j < |t| && j != Subject(l)
    ensures View(c, System.Apply(c, s, l), NextTokens(c, s, t, l), j) == View(c, s, t, j)
  {
    if l.Write? {
      WriteStaysInside(c, s, l.k, j);
    }
  }

  /** Seen from its own slice, the write of a worker is a copy behind what it has stored. */
  lemma WriteInSlice(c: Config, s: State, k: nat)
    requires System.Enabled(c, s, Write(k)) && Shape(c, System.Apply(c, s, Write(k)))
    requires |s.workers[k].phase.payload| <= s.workers[k].remaining
    ensures SliceOf(c, System.Apply(c, s, Write(k)), k)
            == Splice(SliceOf(c, s, k), c.sessions[k].size - s.workers[k].remaining, s.workers[k].phase.payload)
  {
    SpliceInside(s.memory, c.sessions[k].base, c.sessions[k].size,
                 c.sessions[k].size - s.workers[k].remaining, s.workers[k].phase.payload);
  }

  lemma WriteIsStore(c: Config, s: State, t: seq<Token>, k: nat)
    requires System.Enabled(c, s, Write(k)) && |t| == |c.sessions| && Shape(c, System.Apply(c, s, Write(k)))
    ensures SubjectMoves(c, s, t, Write(k))
  {
    if |s.workers[k].phase.payload| <= s.workers[k].remaining {
      WriteInSlice(c, s, k);
    }
  }

  /** The token a step relies on is where the step looks for it. */
  ghost predicate Placed(c: Config, s: State, t: seq<Token>, l: Label)
    requires System.Enabled(c, s, l) && |t| == |c.sessions|
  {
    match l
    case Scan(k) => Wanted(s, k) in QueueOf(c, s, k) ==> t[k] == Queued(s.senders[k].seqNum)
    case RouteGet(d) => t[d.addr] == Flying(d.msg)
    case RouteAck(d) => t[d.addr] == Flying(d.msg)
    case Receive(d) => t[d.addr] == Flying(d.msg)
    case Drop(d) => t[d.addr] == Flying(d.msg)
    case _ => true
  }

  lemma SharedPlaced(c: Config, s: State, t: seq<Token>, l: Label)
    requires Shared(c, s, t) && System.Enabled(c, s, l)
    ensures Placed(c, s, t, l)
  {
    if l.RouteGet? || l.RouteAck? || l.Receive? || l.Drop? {
      assert s.net[l.d] == if l.d.addr < |t| && t[l.d.addr] == Flying(l.d.msg) then 1 else 0;
    }
  }

  ghost predicate SubjectMoves(c: Config, s: State, t: seq<Token>, l: Label)
    requires System.Enabled(c, s, l) && |t| == |c.sessions| && Shape(c, System.Apply(c, s, l))
  {
    var k := Subject(l);
    Moves(c.sessions[k], View(c, s, t, k), EventOf(c, s, l),
          View(c, System.Apply(c, s, l), NextTokens(c, s, t, l), k))
  }

  lemma SendMoves(c: Config, s: State, t: seq<Token>, l: Label)
    requires System.Enabled(c, s, l) && |t| == |c.sessions| && Ready(c, s, t, l) && Placed(c, s, t, l)
    requires Shape(c, System.Apply(c, s, l)) && (l.SendGet? || l.SendData? || l.SendAck?)
    ensures SubjectMoves(c, s, t, l)
  {
  }

  lemma TakeMoves(c: Config, s: State, t: seq<Token>, l: Label)
    requires System.Enabled(c, s, l) && |t| == |c.sessions| && Ready(c, s, t, l) && Placed(c, s, t, l)
    requires Shape(c, System.Apply(c, s, l)) && (l.RouteGet? || l.Receive? || l.Drop?)
    ensures SubjectMoves(c, s, t, l)
  {
  }

  lemma AckMoves(c: Config, s: State, t: seq<Token>, d: Datagram)
    requires System.Enabled(c, s, RouteAck(d)) && |t| == |c.sessions| && Placed(c, s, t, RouteAck(d))
    requires Shape(c, System.Apply(c, s, RouteAck(d)))
    ensures SubjectMoves(c, s, t, RouteAck(d))
  {
  }

  lemma ScanMoves(c: Config, s: State, t: seq<Token>, k: nat)
    requires System.Enabled(c, s, Scan(k)) && |t| == |c.sessions|
    requires Ready(c, s, t, Scan(k)) && Placed(c, s, t, Scan(k)) && Shape(c, System.Apply(c, s, Scan(k)))
    ensures SubjectMoves(c, s, t, Scan(k))
  {
  }

  lemma WorkerMoves(c: Config, s: State, t: seq<Token>, l: Label)
    requires System.Enabled(c, s, l) && |t| == |c.sessions| && Shape(c, System.Apply(c, s, l))
    requires l.GetFails? || l.Lock?
    ensures SubjectMoves(c, s, t, l)
  {
  }

  lemma FailureMoves(c: Config, s: State, t: seq<Token>, l: Label)
    requires System.Enabled(c, s, l) && |t| == |c.sessions| && Shape(c, System.Apply(c, s, l))
    requires l.TimesOut? || l.SendAckFails?
    ensures SubjectMoves(c, s, t, l)
  {
  }

  lemma HandlerMoves(c: Config, s: State, t: seq<Token>, l: Label)
    requires System.Enabled(c, s, l) && |t| == |c.sessions| && Shape(c, System.Apply(c, s, l))
    requires l.Spurious? || l.HandlerFails?
    ensures SubjectMoves(c, s, t, l)
  {
  }

  lemma StepMoves(c: Config, s: State, t: seq<Token>, l: Label)
    requires System.Enabled(c, s, l) && |t| == |c.sessions| && Ready(c, s, t, l) && Placed(c, s, t, l)
    ensures Shape(c, System.Apply(c, s, l)) && SubjectMoves(c, s, t, l)
  {
    ShapeStep(c, s, l);
    if l.SendGet? || l.SendData? || l.SendAck? {
      SendMoves(c, s, t, l);
    } else if l.RouteGet? || l.Receive? || l.Drop? {
      TakeMoves(c, s, t, l);
    } else if l.RouteAck? {
      AckMoves(c, s, t, l.d);
    } else if l.Scan? {
      ScanMoves(c, s, t, l.k);
    } else if l.Write? {
      WriteIsStore(c, s, t, l.k);
    } else if l.Spurious? || l.HandlerFails? {
      HandlerMoves(c, s, t, l);
    } else if l.TimesOut? || l.SendAckFails? {
      FailureMoves(c, s, t, l);
    } else {
      WorkerMoves(c, s, t, l);
    }
  }

  /** The channel of the session that a step belongs to keeps its own invariant. */
  lemma SubjectInv(c: Config, s: State, t: seq<Token>, l: Label)
    requires System.Enabled(c, s, l) && |t| == |c.sessions| && Shape(c, System.Apply(c, s, l))
    requires c.sessions[Subject(l)].Valid() && SubjectMoves(c, s, t, l)
    requires StopAndWait.Inv(c.sessions[Subject(l)], View(c, s, t, Subject(l)))
    ensures StopAndWait.Inv(c.sessions[Subject(l)],
                            View(c, System.Apply(c, s, l), NextTokens(c, s, t, l), Subject(l)))
  {
    if EventOf(c, s, l).Some? {
      StopAndWait.InvStep(c.sessions[Subject(l)], View(c, s, t, Subject(l)), EventOf(c, s, l).value);
    }
  }

  lemma StepRefines(c: Config, s: State, t: seq<Token>, l: Label)
    requires Inv(c, s, t) && System.Enabled(c, s, l)
    ensures Inv(c, System.Apply(c, s, l), NextTokens(c, s, t, l))
    ensures SubjectMoves(c, s, t, l)
    ensures forall k :: 0 <= k < |t| && k != Subject(l) ==>
              View(c, System.Apply(c, s, l), NextTokens(c, s, t, l), k) == View(c, s, t, k)
  {
    var s', t' := System.Apply(c, s, l), NextTokens(c, s, t, l);
    var i := Subject(l);
    assert StopAndWait.Inv(c.sessions[i], View(c, s, t, i));
    InvReady(c, s, t, l);
    SharedPlaced(c, s, t, l);
    SharedStep(c, s, t, l);
    StepMoves(c, s, t, l);
    SubjectInv(c, s, t, l);
    forall k | 0 <= k < |t| && k != i
      ensures View(c, s', t', k) == View(c, s, t, k) && StopAndWait.Inv(c.sessions[k], View(c, s', t', k))
    {
      OthersStay(c, s, t, l, k);
      assert StopAndWait.Inv(c.sessions[k], View(c, s, t, k));
    }
  }

  // ------------------------------------------------------------------
  // Whole runs
  // ------------------------------------------------------------------

  /** The events of session k in a run of the system. */
  function Project(c: Config, s: State, ls: seq<Label>, k: nat): seq<Event>
    requires System.RunOk(c, s, ls)
    decreases |ls|
  {
    if ls == [] then []
    else
      var e := if Subject(ls[0]) == k then EventOf(c, s, ls[0]) else None;
      var rest := Project(c, System.Apply(c, s, ls[0]), ls[1..], k);
      if e.Some? then [e.value] + rest else rest
  }

  lemma {:induction false} RunRefines(c: Config, s: State, t: seq<Token>, ls: seq<Label>)
    returns (t': seq<Token>)
    requires Inv(c, s, t) && System.RunOk(c, s, ls)
    ensures Inv(c, System.Exec(c, s, ls), t')
    ensures forall k :: 0 <= k < |t| ==> Follows(c, s, t, ls, t', k)
    decreases |ls|
  {
    if ls == [] {
      t' := t;
    } else {
      StepRefines(c, s, t, ls[0]);
      var s1, t1 := System.Apply(c, s, ls[0]), NextTokens(c, s, t, ls[0]);
      t' := RunRefines(c, s1, t1, ls[1..]);
      forall k | 0 <= k < |t| ensures Follows(c, s, t, ls, t', k) {
        FollowsStep(c, s, t, ls, t', k);
      }
    }
  }

  lemma FollowsStep(c: Config, s: State, t: seq<Token>, ls: seq<Label>, t': seq<Token>, k: nat)
    requires Inv(c, s, t) && System.RunOk(c, s, ls) && ls != [] && k < |t|
    requires Inv(c, System.Apply(c, s, ls[0]), NextTokens(c, s, t, ls[0]))
    requires Follows(c, System.Apply(c, s, ls[0]), NextTokens(c, s, t, ls[0]), ls[1..], t', k)
    requires if Subject(ls[0]) == k then SubjectMoves(c, s, t, ls[0])
             else View(c, System.Apply(c, s, ls[0]), NextTokens(c, s, t, ls[0]), k) == View(c, s, t, k)
    ensures Follows(c, s, t, ls, t', k)
  {
    var rest := Project(c, System.Apply(c, s, ls[0]), ls[1..], k);
    var es := Project(c, s, ls, k);
    if Subject(ls[0]) == k && EventOf(c, s, ls[0]).Some? {
      assert es == [EventOf(c, s, ls[0]).value] + rest;
      assert es[1..] == rest;
    }
  }

  /** Session k of the system ends where its own channel ends on its own events. */
  ghost predicate Follows(c: Config, s: State, t: seq<Token>, ls: seq<Label>, t': seq<Token>, k: nat)
    requires Inv(c, s, t) && System.RunOk(c, s, ls) && k < |t|
  {
    var es := Project(c, s, ls, k);
    var sess := c.sessions[k];
    && Inv(c, System.Exec(c, s, ls), t')
    && StopAndWait.RunOk(sess, View(c, s, t, k), es)
    && View(c, System.Exec(c, s, ls), t', k) == StopAndWait.Exec(sess, View(c, s, t, k), es)
  }

  ghost function NoTokens(c: Config): seq<Token> {
    seq(|c.sessions|, _ => Nothing)
  }

  lemma InvInit(c: Config)
    requires c.Valid()
    ensures Inv(c, Init(c), NoTokens(c))
    ensures forall k :: 0 <= k < |c.sessions| ==> View(c, Init(c), NoTokens(c), k) == Fresh(c.sessions[k])
  {
    var s, t := Init(c), NoTokens(c);
    forall k | 0 <= k < |c.sessions| ensures View(c, s, t, k) == Fresh(c.sessions[k]) {
      assert SliceOf(c, s, k) == Zeros(c.sessions[k].size);
    }
    forall k | 0 <= k < |c.sessions| ensures StopAndWait.Inv(c.sessions[k], View(c, s, t, k)) {
      InvFresh(c.sessions[k]);
    }
  }

  /** Session k has message m somewhere between worker and handler. */
  ghost predicate UnderWay(c: Config, s: State, k: nat, m: Msg)
    requires Shape(c, s) && k < |c.sessions|
  {
    Datagram(k, m) in s.net || (m.Ack? && Entry(m.seqNum, k) in QueueOf(c, s, k))
  }

  /** The link of a session is the one message it has under way. */
  lemma LinkIsUnderWay(c: Config, s: State, t: seq<Token>, k: nat, m: Msg)
    requires Inv(c, s, t) && k < |t|
    ensures UnderWay(c, s, k, m) <==> Link(t[k]) == Some(m)
  {
    assert s.net[Datagram(k, m)] == if t[k] == Flying(m) then 1 else 0;
  }

  /**
    Refinement.  For every run of the whole system and every session: the
    events of that session form a run of its own one-slot lossy channel, and
    that run ends with the same worker, handler, output slice and message under
    way.  An ACK dropped at a full queue is an ordinary loss.
   */
  lemma SystemRefinesChannels(c: Config, ls: seq<Label>, k: nat)
    requires c.Valid() && System.RunOk(c, Init(c), ls) && k < |c.sessions|
    ensures Shape(c, System.Exec(c, Init(c), ls))
    ensures StopAndWait.RunOk(c.sessions[k], Fresh(c.sessions[k]), Project(c, Init(c), ls, k))
    ensures var s := System.Exec(c, Init(c), ls);
            var ch := StopAndWait.Exec(c.sessions[k], Fresh(c.sessions[k]), Project(c, Init(c), ls, k));
            && ch.worker == s.workers[k] && ch.sender == s.senders[k] && ch.slice == SliceOf(c, s, k)
            && (forall m :: UnderWay(c, s, k, m) <==> ch.link == Some(m))
  {
    InvInit(c);
    var t' := RunRefines(c, Init(c), NoTokens(c), ls);
    assert Follows(c, Init(c), NoTokens(c), ls, t', k);
    forall m ensures UnderWay(c, System.Exec(c, Init(c), ls), k, m) <==> Link(t'[k]) == Some(m) {
      LinkIsUnderWay(c, System.Exec(c, Init(c), ls), t', k, m);
    }
  }
}
