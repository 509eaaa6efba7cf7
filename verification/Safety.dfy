/**
  What holds in every reachable state of the UDP transfer, whatever the
  interleaving, the losses and the timeouts.
 */
module Safety {
  import opened Octets
  import opened StopAndWait
  import opened AckQueue
  import opened System
  import opened Refinement

  /** Messages of session k in flight, in the worker's hands or in the queue: at most one in all. */
  ghost predicate OneToken(c: Config, s: State, k: nat)
    requires Shape(c, s) && k < |c.sessions|
  {
    && (forall m, m' :: UnderWay(c, s, k, m) && UnderWay(c, s, k, m') ==> m == m')
    && (forall m :: Datagram(k, m) in s.net ==>
          && s.net[Datagram(k, m)] == 1
          && (m.Ack? ==> Entry(m.seqNum, k) !in QueueOf(c, s, k)))
    && (forall v, i, j :: 0 <= v < |s.queues| && 0 <= i < j < |s.queues[v]| ==>
          s.queues[v][i].addr != k || s.queues[v][j].addr != k)
    && (s.workers[k].phase.Got? ==> forall m :: !UnderWay(c, s, k, m))
  }

  /** Every ACK of session k is for the packet its handler is waiting for. */
  ghost predicate AcksAreAwaited(c: Config, s: State, k: nat)
    requires Shape(c, s) && k < |c.sessions|
  {
    forall m :: UnderWay(c, s, k, m) && m.Ack? ==>
      s.senders[k].Waiting? && m.seqNum == s.senders[k].seqNum
  }

  lemma TokenFacts(c: Config, s: State, t: seq<Token>, k: nat)
    requires Refinement.Inv(c, s, t) && k < |t|
    ensures OneToken(c, s, k) && AcksAreAwaited(c, s, k)
  {
    assert StopAndWait.Inv(c.sessions[k], View(c, s, t, k));
    forall m ensures UnderWay(c, s, k, m) <==> Link(t[k]) == Some(m)
             ensures s.net[Datagram(k, m)] == if t[k] == Flying(m) then 1 else 0
    {
      LinkIsUnderWay(c, s, t, k, m);
    }
    forall q: nat | Entry(q, k) in QueueOf(c, s, k) ensures t[k] == Queued(q) {
    }
  }

  lemma SessionOwnsOneToken(c: Config, ls: seq<Label>, k: nat)
    requires c.Valid() && System.RunOk(c, Init(c), ls) && k < |c.sessions|
    ensures Shape(c, System.Exec(c, Init(c), ls))
    ensures OneToken(c, System.Exec(c, Init(c), ls), k)
    ensures AcksAreAwaited(c, System.Exec(c, Init(c), ls), k)
  {
    InvInit(c);
    var t := RunRefines(c, Init(c), NoTokens(c), ls);
    TokenFacts(c, System.Exec(c, Init(c), ls), t, k);
  }

  /** A handler asleep in the condition wait and not signalled has no matching ACK in the queue. */
  lemma NoLostWakeup(c: Config, ls: seq<Label>, k: nat)
    requires c.Valid() && System.RunOk(c, Init(c), ls) && k < |c.sessions|
    ensures var s := System.Exec(c, Init(c), ls);
            && Shape(c, s)
            && (s.senders[k].Waiting? && s.waits[k] == Asleep ==> Wanted(s, k) !in QueueOf(c, s, k))
  {
    InvInit(c);
    var t := RunRefines(c, Init(c), NoTokens(c), ls);
  }

  /** The socket mutex of a client process: never two of its workers inside recvfrom. */
  lemma OneReceiverPerProcess(c: Config, ls: seq<Label>, j: nat, k: nat)
    requires c.Valid() && System.RunOk(c, Init(c), ls) && j < k < |c.sessions|
    requires c.sessions[j].client == c.sessions[k].client
    ensures var s := System.Exec(c, Init(c), ls);
            Shape(c, s) && !(s.workers[j].phase.Polling? && s.workers[k].phase.Polling?)
  {
    InvInit(c);
    var t := RunRefines(c, Init(c), NoTokens(c), ls);
  }

  // ------------------------------------------------------------------
  // The output
  // ------------------------------------------------------------------

  /** Every slice is a prefix of its chunk followed by zeros, the whole chunk once its worker has succeeded. */
  lemma SlicesArePrefixes(c: Config, ls: seq<Label>, k: nat)
    requires c.Valid() && System.RunOk(c, Init(c), ls) && k < |c.sessions|
    ensures var s := System.Exec(c, Init(c), ls);
            && Shape(c, s)
            && SliceOf(c, s, k) == c.sessions[k].Chunk()[..c.sessions[k].size - s.workers[k].remaining]
                                   + Zeros(s.workers[k].remaining)
            && (s.workers[k].phase.Succeeded? ==> SliceOf(c, s, k) == c.sessions[k].Chunk())
            && (s.workers[k].phase.Unsent? ==> SliceOf(c, s, k) == Zeros(c.sessions[k].size))
  {
    SystemRefinesChannels(c, ls, k);
    PrefixSafety(c.sessions[k], Project(c, Init(c), ls, k));
    InvFresh(c.sessions[k]);
    StopAndWait.InvRun(c.sessions[k], Fresh(c.sessions[k]), Project(c, Init(c), ls, k));
  }

  /**
    A worker that hands status 0 to pthread_join has stored its chunk, unless
    it could not even send its GET: that path ends with status 0 as well.  So a
    slice reported as downloaded is right exactly when the GET went out or the
    chunk happens to be all zeros.
   */
  lemma StatusZeroMeansStored(c: Config, ls: seq<Label>, k: nat)
    requires c.Valid() && System.RunOk(c, Init(c), ls) && k < |c.sessions|
    requires Shape(c, System.Exec(c, Init(c), ls))
    requires ExitStatus(System.Exec(c, Init(c), ls).workers[k]) == Some(0)
    ensures var s := System.Exec(c, Init(c), ls);
            SliceOf(c, s, k) == c.sessions[k].Chunk()
            <==> GetFails(k) !in ls || c.sessions[k].Chunk() == Zeros(c.sessions[k].size)
  {
    SlicesArePrefixes(c, ls, k);
    UnsentIffFailed(c, Init(c), ls, k);
  }

  /** The run in which only a GET cannot be sent: status 0, and a slice of zeros instead of the chunk. */
  lemma UnsentLooksDone(c: Config, k: nat)
    requires c.Valid() && k < |c.sessions|
    ensures System.RunOk(c, Init(c), [GetFails(k)])
    ensures var s := System.Exec(c, Init(c), [GetFails(k)]);
            && Shape(c, s) && ExitStatus(s.workers[k]) == Some(0)
            && (SliceOf(c, s, k) == c.sessions[k].Chunk() <==> c.sessions[k].Chunk() == Zeros(c.sessions[k].size))
  {
    var ls := [GetFails(k)];
    assert ls[1..] == [];
    InvInit(c);
    ShapeStep(c, Init(c), GetFails(k));
    assert System.RunOk(c, Init(c), ls) && System.Exec(c, Init(c), ls) == System.Apply(c, Init(c), GetFails(k));
    StatusZeroMeansStored(c, ls, k);
  }

  lemma UnsentStep(c: Config, s: State, l: Label, k: nat)
    requires System.Enabled(c, s, l) && k < |c.sessions|
    ensures Shape(c, System.Apply(c, s, l))
    ensures System.Apply(c, s, l).workers[k].phase.Unsent? <==> s.workers[k].phase.Unsent? || l == GetFails(k)
  {
    ShapeStep(c, s, l);
  }

  lemma {:induction false} UnsentIffFailed(c: Config, s: State, ls: seq<Label>, k: nat)
    requires System.RunOk(c, s, ls) && Shape(c, s) && k < |c.sessions|
    ensures Shape(c, System.Exec(c, s, ls))
    ensures System.Exec(c, s, ls).workers[k].phase.Unsent? <==>
            s.workers[k].phase.Unsent? || GetFails(k) in ls
    decreases |ls|
  {
    if ls != [] {
      UnsentStep(c, s, ls[0], k);
      UnsentIffFailed(c, System.Apply(c, s, ls[0]), ls[1..], k);
      assert GetFails(k) in ls <==> GetFails(k) == ls[0] || GetFails(k) in ls[1..];
    }
  }

  // ------------------------------------------------------------------
  // The bound on the queue
  // ------------------------------------------------------------------

  ghost function WaitingOn(c: Config, s: State, v: nat): set<nat>
    requires Shape(c, s)
  {
    set k | 0 <= k < |c.sessions| && c.sessions[k].server == v && s.senders[k].Waiting?
  }

  ghost function SessionsOf(c: Config, v: nat): set<nat> {
    set k | 0 <= k < |c.sessions| && c.sessions[k].server == v
  }

  lemma SubsetSize<T>(a: set<T>, b: set<T>)
    requires a <= b
    ensures |a| <= |b|
  {
    assert b == a + (b - a);
  }

  lemma QueuedIsWaiting(c: Config, s: State, t: seq<Token>, v: nat, i: nat)
    requires Refinement.Inv(c, s, t) && v < |s.queues| && i < |s.queues[v]|
    ensures s.queues[v][i].addr in WaitingOn(c, s, v)
  {
    var k := s.queues[v][i].addr;
    assert s.queues[v][i] in s.queues[v];
    assert StopAndWait.Inv(c.sessions[k], View(c, s, t, k));
  }

  /** A server never queues more ACKs than it has handlers waiting for one. */
  lemma OccupancyBounded(c: Config, ls: seq<Label>, v: nat)
    requires c.Valid() && System.RunOk(c, Init(c), ls) && v < c.servers
    ensures var s := System.Exec(c, Init(c), ls);
            Shape(c, s) && |s.queues[v]| <= |WaitingOn(c, s, v)|
  {
    InvInit(c);
    var t := RunRefines(c, Init(c), NoTokens(c), ls);
    var s := System.Exec(c, Init(c), ls);
    forall i | 0 <= i < |s.queues[v]| ensures s.queues[v][i].addr in WaitingOn(c, s, v) {
      QueuedIsWaiting(c, s, t, v, i);
    }
    OnePerAddressSize(s.queues[v]);
    SubsetSize(Addresses(s.queues[v]), WaitingOn(c, s, v));
  }

  /** A session whose ACK is still in flight has none in the queue. */
  lemma RoomForOneMore(c: Config, s: State, t: seq<Token>, d: Datagram)
    requires Shared(c, s, t) && d in s.net && d.addr < |t|
    ensures |QueueOf(c, s, d.addr)| < |SessionsOf(c, c.sessions[d.addr].server)|
  {
    var v := c.sessions[d.addr].server;
    var q := s.queues[v];
    assert s.net[d] == if d.addr < |t| && t[d.addr] == Flying(d.msg) then 1 else 0;
    forall k | k in Addresses(q) ensures k in SessionsOf(c, v) && k != d.addr {
      var i :| 0 <= i < |q| && q[i].addr == k;
      assert q[i] in q;
    }
    OnePerAddressSize(q);
    SubsetSize(Addresses(q) + {d.addr}, SessionsOf(c, v));
  }

  /** If a server has at most as many sessions as queue slots, the router finds room for every ACK. */
  lemma NeverDropped(c: Config, ls: seq<Label>, d: Datagram)
    requires c.Valid() && System.RunOk(c, Init(c), ls)
    requires System.Enabled(c, System.Exec(c, Init(c), ls), RouteAck(d))
    requires |SessionsOf(c, c.sessions[d.addr].server)| <= 5
    ensures |QueueOf(c, System.Exec(c, Init(c), ls), d.addr)| < 5
  {
    InvInit(c);
    var t := RunRefines(c, Init(c), NoTokens(c), ls);
    RoomForOneMore(c, System.Exec(c, Init(c), ls), t, d);
  }

  // ------------------------------------------------------------------
  // What can happen
  // ------------------------------------------------------------------

  /** A worker can take what is there for it, give up waiting, or wait on. */
  ghost predicate WorkerFree(c: Config, s: State, k: nat)
    requires Shape(c, s) && k < |c.sessions|
  {
    && (s.workers[k].phase.Idle? ==> System.Enabled(c, s, SendGet(k)) && System.Enabled(c, s, GetFails(k)))
    && (s.workers[k].phase.Polling? ==> System.Enabled(c, s, TimesOut(k)))
    && (s.workers[k].phase.Acked? ==> System.Enabled(c, s, Write(k)))
    && ((forall j :: 0 <= j < |c.sessions| && c.sessions[j].client == c.sessions[k].client
                     ==> !s.workers[j].phase.Polling?) ==>
          && (s.workers[k].phase.Receiving? ==> System.Enabled(c, s, Lock(k)))
          && (s.workers[k].phase.Got? ==> System.Enabled(c, s, SendAck(k)) && System.Enabled(c, s, SendAckFails(k))))
  }

  /** A handler can read and send any number of bytes up to 1016, fail, or look at the queue. */
  ghost predicate HandlerFree(c: Config, s: State, k: nat)
    requires Shape(c, s) && k < |c.sessions|
  {
    && (s.senders[k].Sending? ==>
          && System.Enabled(c, s, HandlerFails(k))
          && forall n :: 1 <= n <= 1016 && n <= s.senders[k].remaining ==> System.Enabled(c, s, SendData(k, n)))
    && (s.senders[k].Waiting? ==> System.Enabled(c, s, if s.waits[k] == Asleep then Spurious(k) else Scan(k)))
  }

  /** Every datagram in the network can be lost or delivered. */
  ghost predicate NetFree(c: Config, s: State, d: Datagram)
    requires Shape(c, s) && d in s.net
  {
    && System.Enabled(c, s, Drop(d)) && d.addr < |c.sessions|
    && match d.msg
       case Get(_, _) => System.Enabled(c, s, RouteGet(d))
       case Ack(_) => System.Enabled(c, s, RouteAck(d))
       case Data(_, _) => s.workers[d.addr].phase.Polling? ==> System.Enabled(c, s, Receive(d))
  }

  lemma WorkersAreFree(c: Config, s: State, k: nat)
    requires Shape(c, s) && k < |c.sessions|
    ensures WorkerFree(c, s, k)
  {
  }

  lemma HandlersAreFree(c: Config, s: State, t: seq<Token>, k: nat)
    requires Refinement.Inv(c, s, t) && k < |c.sessions|
    ensures HandlerFree(c, s, k)
  {
    assert StopAndWait.Inv(c.sessions[k], View(c, s, t, k));
    assert s.senders[k].Sending? ==> s.senders[k].pos + s.senders[k].remaining <= |c.sessions[k].file|;
  }

  lemma DatagramsAreFree(c: Config, s: State, t: seq<Token>, d: Datagram)
    requires Shared(c, s, t) && d in s.net
    ensures NetFree(c, s, d)
  {
    assert s.net[d] == if d.addr < |t| && t[d.addr] == Flying(d.msg) then 1 else 0;
  }

  /**
    Nothing that threads and network may do is excluded: in every reachable state
    each worker, each handler and each datagram has all its moves, whatever the
    others do, except that one worker of a process holds the socket at a time.
   */
  lemma NothingIsExcluded(c: Config, ls: seq<Label>)
    requires c.Valid() && System.RunOk(c, Init(c), ls)
    ensures var s := System.Exec(c, Init(c), ls);
            && Shape(c, s)
            && (forall k :: 0 <= k < |c.sessions| ==> WorkerFree(c, s, k) && HandlerFree(c, s, k))
            && (forall d :: d in s.net ==> NetFree(c, s, d))
  {
    InvInit(c);
    var t := RunRefines(c, Init(c), NoTokens(c), ls);
    var s := System.Exec(c, Init(c), ls);
    forall k | 0 <= k < |c.sessions| ensures WorkerFree(c, s, k) && HandlerFree(c, s, k) {
      WorkersAreFree(c, s, k);
      HandlersAreFree(c, s, t, k);
    }
    forall d | d in s.net ensures NetFree(c, s, d) {
      DatagramsAreFree(c, s, t, d);
    }
  }

  /** An ACK that finds five in the queue leaves the network, and nothing else changes: nobody is woken. */
  lemma DroppedSilently(c: Config, s: State, d: Datagram)
    requires System.Enabled(c, s, RouteAck(d))
    ensures var s' := System.Apply(c, s, RouteAck(d));
            if |QueueOf(c, s, d.addr)| >= 5 then s' == s.(net := s.net - multiset{d})
            else forall k :: 0 <= k < |c.sessions| && c.sessions[k].server == c.sessions[d.addr].server
                   ==> s'.waits[k] != Asleep
  {
    var v := c.sessions[d.addr].server;
    assert s.queues[v := s.queues[v]] == s.queues;
  }

  /** A wake-up, with or without a signal, makes a handler look at the queue again. */
  lemma WokenLooksAgain(c: Config, s: State, k: nat)
    requires System.Enabled(c, s, Spurious(k))
    ensures System.Enabled(c, System.Apply(c, s, Spurious(k)), Scan(k))
  {
  }
}
