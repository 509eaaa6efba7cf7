/**
  When an ACK can be lost to a full queue.  The queue of a server has five
  slots; this module builds, for any six sessions of one server, a run without
  any other fault in which the ACK of the sixth finds it full.
 */
module Overflow {
  import opened Octets
  import opened StopAndWait
  import opened AckQueue
  import opened System
  import opened Refinement
  import opened Safety
  import opened Liveness

  /** Session k has not begun. */
  ghost predicate Untouched(c: Config, s: State, k: nat) {
    k < |c.sessions| && k < |s.workers| && k < |s.senders|
    && s.workers[k] == Start(c.sessions[k].size) && s.senders[k].Off?
  }

  /** Nobody is inside recvfrom. */
  ghost predicate Quiet(s: State) {
    forall j :: 0 <= j < |s.workers| ==> !s.workers[j].phase.Polling?
  }

  function Question(c: Config, k: nat): Datagram
    requires k < |c.sessions|
  {
    Datagram(k, Get(c.sessions[k].offset, c.sessions[k].size))
  }

  /** The first packet of session k, with one byte. */
  ghost function Packet(c: Config, k: nat): Datagram
    requires k < |c.sessions| && c.sessions[k].Valid()
  {
    Datagram(k, Data(0, c.sessions[k].file[c.sessions[k].offset..c.sessions[k].offset + 1]))
  }

  ghost predicate Clean(c: Config, s: State, l: Label, s': State) {
    System.Enabled(c, s, l) && !Fault(c, s, l) && s' == System.Apply(c, s, l)
  }

  /** The worker asks, the server answers with the first packet. */
  lemma Ask(c: Config, s: State, k: nat) returns (s1: State, s2: State, s3: State)
    requires c.Valid() && Shape(c, s) && Untouched(c, s, k)
    ensures Clean(c, s, SendGet(k), s1) && Clean(c, s1, RouteGet(Question(c, k)), s2) && Clean(c, s2, SendData(k, 1), s3)
    ensures Shape(c, s3) && s3.queues == s.queues && Packet(c, k) in s3.net
    ensures s3.workers == s.workers[k := s.workers[k].(phase := Receiving)]
    ensures s3.senders == s.senders[k := Waiting(0, c.sessions[k].offset + 1, c.sessions[k].size, 1)]
  {
    s1 := System.Apply(c, s, SendGet(k));
    ShapeStep(c, s, SendGet(k));
    s2 := System.Apply(c, s1, RouteGet(Question(c, k)));
    ShapeStep(c, s1, RouteGet(Question(c, k)));
    assert s2.senders[k] == Sending(0, c.sessions[k].offset, c.sessions[k].size);
    s3 := System.Apply(c, s2, SendData(k, 1));
    ShapeStep(c, s2, SendData(k, 1));
  }

  /** The worker receives the packet and acknowledges it. */
  lemma Answer(c: Config, s: State, k: nat) returns (s1: State, s2: State, s3: State)
    requires c.Valid() && Shape(c, s) && k < |c.sessions| && Quiet(s)
    requires s.workers[k].phase.Receiving? && Packet(c, k) in s.net
    ensures Clean(c, s, Lock(k), s1) && Clean(c, s1, Receive(Packet(c, k)), s2) && Clean(c, s2, SendAck(k), s3)
    ensures Shape(c, s3) && Quiet(s3) && s3.queues == s.queues && s3.senders == s.senders
    ensures Datagram(k, Ack(0)) in s3.net
    ensures forall j :: 0 <= j < |s.workers| && j != k ==> s3.workers[j] == s.workers[j]
  {
    s1 := System.Apply(c, s, Lock(k));
    ShapeStep(c, s, Lock(k));
    s2 := System.Apply(c, s1, Receive(Packet(c, k)));
    ShapeStep(c, s1, Receive(Packet(c, k)));
    s3 := System.Apply(c, s2, SendAck(k));
    ShapeStep(c, s2, SendAck(k));
  }

  /** A run without faults that ends in s. */
  ghost predicate Reaches(c: Config, ls: seq<Label>, s: State) {
    CleanRun(c, Init(c), ls) && System.RunOk(c, Init(c), ls) && System.Exec(c, Init(c), ls) == s
  }

  lemma {:induction false} ExecAppend(c: Config, s: State, ls: seq<Label>, l: Label)
    requires System.RunOk(c, s, ls) && System.Enabled(c, System.Exec(c, s, ls), l)
    ensures System.RunOk(c, s, ls + [l])
    ensures System.Exec(c, s, ls + [l]) == System.Apply(c, System.Exec(c, s, ls), l)
    decreases |ls|
  {
    if ls == [] {
      assert ls + [l] == [l] && [l][1..] == [];
    } else {
      ExecAppend(c, System.Apply(c, s, ls[0]), ls[1..], l);
      assert (ls + [l])[1..] == ls[1..] + [l];
    }
  }

  lemma Extend(c: Config, ls: seq<Label>, s: State, l: Label, s': State)
    requires Reaches(c, ls, s) && Clean(c, s, l, s')
    ensures Reaches(c, ls + [l], s')
  {
    CleanAppend(c, Init(c), ls, l);
    ExecAppend(c, Init(c), ls, l);
  }

  lemma ExtendThree(c: Config, ls: seq<Label>, s: State,
                    x: Label, s1: State, y: Label, s2: State, z: Label, s3: State) returns (more: seq<Label>)
    requires Reaches(c, ls, s) && Clean(c, s, x, s1) && Clean(c, s1, y, s2) && Clean(c, s2, z, s3)
    ensures Reaches(c, more, s3)
  {
    Extend(c, ls, s, x, s1);
    Extend(c, ls + [x], s1, y, s2);
    Extend(c, ls + [x] + [y], s2, z, s3);
    more := ls + [x] + [y] + [z];
  }

  /** In state s the queue of v holds m ACKs and only the sessions in `used` have begun. */
  ghost predicate Filled(c: Config, v: nat, m: nat, s: State, used: set<nat>) {
    && Shape(c, s) && Quiet(s) && v < c.servers && |s.queues[v]| == m
    && |used| == m && used <= SessionsOf(c, v)
    && forall k :: 0 <= k < |c.sessions| && k !in used ==> Untouched(c, s, k)
  }

  /** The same, with one more session that has its first ACK in flight. */
  ghost predicate Brimming(c: Config, v: nat, m: nat, s: State, used: set<nat>, k: nat) {
    && Shape(c, s) && Quiet(s) && v < c.servers && |s.queues[v]| == m
    && |used| == m && used <= SessionsOf(c, v)
    && k in SessionsOf(c, v) && k !in used && Datagram(k, Ack(0)) in s.net
    && forall j :: 0 <= j < |c.sessions| && j !in used && j != k ==> Untouched(c, s, j)
  }

  lemma AskAndAnswer(c: Config, ls: seq<Label>, s: State, k: nat) returns (more: seq<Label>, s': State)
    requires c.Valid() && Reaches(c, ls, s) && Shape(c, s) && Quiet(s) && Untouched(c, s, k)
    ensures Reaches(c, more, s') && Shape(c, s') && Quiet(s') && s'.queues == s.queues
    ensures Datagram(k, Ack(0)) in s'.net
    ensures forall j :: 0 <= j < |c.sessions| && j != k ==>
              s'.workers[j] == s.workers[j] && s'.senders[j] == s.senders[j]
  {
    var s1, s2, s3 := Ask(c, s, k);
    var half := ExtendThree(c, ls, s, SendGet(k), s1, RouteGet(Question(c, k)), s2, SendData(k, 1), s3);
    var s4, s5, s6 := Answer(c, s3, k);
    more := ExtendThree(c, half, s3, Lock(k), s4, Receive(Packet(c, k)), s5, SendAck(k), s6);
    s' := s6;
  }

  /** One more session of the server comes as far as having its first ACK in flight. */
  lemma Brim(c: Config, v: nat, m: nat, ls: seq<Label>, s: State, used: set<nat>)
    returns (more: seq<Label>, s': State, k: nat)
    requires c.Valid() && Reaches(c, ls, s) && Filled(c, v, m, s, used) && |SessionsOf(c, v)| > m
    ensures Reaches(c, more, s') && Brimming(c, v, m, s', used, k)
  {
    k := Another(used, SessionsOf(c, v));
    more, s' := AskAndAnswer(c, ls, s, k);
    forall j | 0 <= j < |c.sessions| && j !in used && j != k ensures Untouched(c, s', j) {
      assert Untouched(c, s, j);
    }
  }

  lemma Another(used: set<nat>, all: set<nat>) returns (k: nat)
    requires used <= all && |used| < |all|
    ensures k in all && k !in used
  {
    if all <= used {
      SubsetSize(all, used);
    }
    k :| k in all && k !in used;
  }

  /** The router puts the ACK in the queue. */
  lemma AckQueued(c: Config, v: nat, m: nat, s: State, used: set<nat>, k: nat) returns (s': State)
    requires Brimming(c, v, m, s, used, k) && m < MAX_QUEUE_SIZE
    ensures Clean(c, s, RouteAck(Datagram(k, Ack(0))), s')
    ensures Filled(c, v, m + 1, s', used + {k})
  {
    var l := RouteAck(Datagram(k, Ack(0)));
    s' := System.Apply(c, s, l);
    ShapeStep(c, s, l);
    assert s'.workers == s.workers && s'.senders == s.senders;
    forall j | 0 <= j < |c.sessions| && j !in used + {k} ensures Untouched(c, s', j) {
      assert Untouched(c, s, j);
    }
  }

  lemma EmptyAtStart(c: Config, v: nat)
    requires c.Valid() && v < c.servers
    ensures Reaches(c, [], Init(c)) && Filled(c, v, 0, Init(c), {})
  {
    InvInit(c);
  }

  lemma {:induction false} Fill(c: Config, v: nat, m: nat) returns (ls: seq<Label>, s: State, used: set<nat>)
    requires c.Valid() && v < c.servers && m <= MAX_QUEUE_SIZE && m <= |SessionsOf(c, v)|
    ensures Reaches(c, ls, s) && Filled(c, v, m, s, used)
    decreases m
  {
    if m == 0 {
      EmptyAtStart(c, v);
      ls, s, used := [], Init(c), {};
    } else {
      var before, b, begun := Fill(c, v, m - 1);
      var more, a, k := Brim(c, v, m - 1, before, b, begun);
      s := AckQueued(c, v, m - 1, a, begun, k);
      Extend(c, more, a, RouteAck(Datagram(k, Ack(0))), s);
      ls, used := more + [RouteAck(Datagram(k, Ack(0)))], begun + {k};
    }
  }

  /** After a run without faults, the next ACK for server v finds the queue full. */
  ghost predicate Overflows(c: Config, v: nat, ls: seq<Label>, d: Datagram) {
    && CleanRun(c, Init(c), ls) && System.RunOk(c, Init(c), ls)
    && System.Enabled(c, System.Exec(c, Init(c), ls), RouteAck(d)) && c.sessions[d.addr].server == v
    && |QueueOf(c, System.Exec(c, Init(c), ls), d.addr)| >= 5
  }

  lemma BrimOverflows(c: Config, v: nat, ls: seq<Label>, s: State, used: set<nat>, k: nat)
    requires Reaches(c, ls, s) && Brimming(c, v, MAX_QUEUE_SIZE, s, used, k)
    ensures Overflows(c, v, ls, Datagram(k, Ack(0)))
  {
    assert System.Enabled(c, s, RouteAck(Datagram(k, Ack(0))));
  }

  lemma SixOverflow(c: Config, v: nat) returns (ls: seq<Label>, d: Datagram)
    requires c.Valid() && v < c.servers && |SessionsOf(c, v)| > MAX_QUEUE_SIZE
    ensures Overflows(c, v, ls, d)
  {
    var before, b, used := Fill(c, v, MAX_QUEUE_SIZE);
    var more, a, k := Brim(c, v, MAX_QUEUE_SIZE, before, b, used);
    BrimOverflows(c, v, more, a, used, k);
    ls, d := more, Datagram(k, Ack(0));
  }

  /** A server can lose an ACK to a full queue, with nothing else going wrong, if and only if it has more than five sessions. */
  lemma OverflowIffSix(c: Config, v: nat)
    requires c.Valid() && v < c.servers
    ensures |SessionsOf(c, v)| > 5 <==> exists ls, d :: Overflows(c, v, ls, d)
  {
    if |SessionsOf(c, v)| > MAX_QUEUE_SIZE {
      var ls, d := SixOverflow(c, v);
    } else {
      forall ls, d ensures !Overflows(c, v, ls, d) {
        if Overflows(c, v, ls, d) {
          NeverDropped(c, ls, d);
        }
      }
    }
  }
}
