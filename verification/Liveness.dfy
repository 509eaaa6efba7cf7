/**
  Runs in which nothing is lost and no call fails: no datagram lost, no ACK
  dropped at a full queue, no failing call, no spurious wake-up.  Datagrams may
  be late and receives may time out.  Such runs cannot get stuck and cannot go
  on for ever, and each worker succeeds unless it times out six times in a row.
 */
module Liveness {
  import opened Octets
  import opened StopAndWait
  import opened AckQueue
  import opened System
  import opened Refinement
  import opened Safety

  predicate Fault(c: Config, s: State, l: Label)
    requires System.Enabled(c, s, l)
  {
    match l
    case GetFails(_) => true
    case Drop(_) => true
    case Spurious(_) => true
    case SendAckFails(_) => true
    case HandlerFails(_) => true
    case RouteAck(d) => |QueueOf(c, s, d.addr)| >= MAX_QUEUE_SIZE
    case _ => false
  }

  predicate CleanRun(c: Config, s: State, ls: seq<Label>)
    decreases |ls|
  {
    ls == [] || (&& System.Enabled(c, s, ls[0]) && !Fault(c, s, ls[0])
                 && CleanRun(c, System.Apply(c, s, ls[0]), ls[1..]))
  }

  lemma {:induction false} CleanIsRun(c: Config, s: State, ls: seq<Label>)
    requires CleanRun(c, s, ls)
    ensures System.RunOk(c, s, ls)
    decreases |ls|
  {
    if ls != [] {
      CleanIsRun(c, System.Apply(c, s, ls[0]), ls[1..]);
    }
  }

  ghost predicate AllSucceeded(s: State) {
    forall k :: 0 <= k < |s.workers| ==> s.workers[k].phase.Succeeded?
  }

  /** Every worker has succeeded or given up. */
  ghost predicate AllEnded(s: State) {
    forall k :: 0 <= k < |s.workers| ==> s.workers[k].phase.Succeeded? || s.workers[k].phase.Failed?
  }

  // ------------------------------------------------------------------
  // Timeouts in a row
  // ------------------------------------------------------------------

  function SilenceAfter(l: Label, k: nat, n: nat): nat {
    if l == TimesOut(k) then n + 1 else if l == SendAck(k) then 0 else n
  }

  /** Timeouts of worker k since its last ACK, n of them before the run. */
  function Silence(ls: seq<Label>, k: nat, n: nat): nat {
    if ls == [] then n else Silence(ls[1..], k, SilenceAfter(ls[0], k, n))
  }

  lemma RetriesStep(c: Config, s: State, l: Label, k: nat)
    requires System.Enabled(c, s, l) && k < |c.sessions|
    ensures Shape(c, System.Apply(c, s, l))
    ensures System.Apply(c, s, l).workers[k].retries == SilenceAfter(l, k, s.workers[k].retries)
  {
    ShapeStep(c, s, l);
  }

  /** In every run, the worker's counter is the number of timeouts since its last ACK. */
  lemma {:induction false} RetriesAreSilence(c: Config, s: State, ls: seq<Label>, k: nat)
    requires Shape(c, s) && System.RunOk(c, s, ls) && k < |c.sessions|
    ensures Shape(c, System.Exec(c, s, ls))
    ensures System.Exec(c, s, ls).workers[k].retries == Silence(ls, k, s.workers[k].retries)
    decreases |ls|
  {
    if ls != [] {
      RetriesStep(c, s, ls[0], k);
      RetriesAreSilence(c, System.Apply(c, s, ls[0]), ls[1..], k);
    }
  }

  // ------------------------------------------------------------------
  // The status of a worker
  // ------------------------------------------------------------------

  lemma FailedStep(c: Config, s: State, l: Label, k: nat)
    requires System.Enabled(c, s, l) && k < |c.sessions|
    requires s.workers[k].phase.Acked? ==> |s.workers[k].phase.payload| <= s.workers[k].remaining
    ensures Shape(c, System.Apply(c, s, l))
    ensures System.Apply(c, s, l).workers[k].phase.Failed?
            <==> s.workers[k].phase.Failed? || l == SendAckFails(k) || (l == TimesOut(k) && s.workers[k].retries >= 5)
    ensures s.workers[k].phase.Failed? ==> l != TimesOut(k) && l != SendAck(k)
  {
    ShapeStep(c, s, l);
  }

  /** Giving up, in terms of what has happened: `broken` tells of the time before the run. */
  lemma {:induction false} FailedRun(c: Config, s: State, t: seq<Token>, ls: seq<Label>, k: nat, broken: bool)
    requires Refinement.Inv(c, s, t) && System.RunOk(c, s, ls) && k < |c.sessions|
    requires s.workers[k].phase.Failed? <==> broken || s.workers[k].retries > 5
    ensures Shape(c, System.Exec(c, s, ls))
    ensures var w := System.Exec(c, s, ls).workers[k];
            w.phase.Failed? <==> broken || SendAckFails(k) in ls || w.retries > 5
    decreases |ls|
  {
    if ls != [] {
      assert StopAndWait.Inv(c.sessions[k], View(c, s, t, k));
      StepRefines(c, s, t, ls[0]);
      FailedStep(c, s, ls[0], k);
      RetriesStep(c, s, ls[0], k);
      FailedRun(c, System.Apply(c, s, ls[0]), NextTokens(c, s, t, ls[0]), ls[1..], k,
                broken || ls[0] == SendAckFails(k));
      assert SendAckFails(k) in ls <==> ls[0] == SendAckFails(k) || SendAckFails(k) in ls[1..];
    }
  }

  /**
    What a worker thread hands to pthread_join, in every run: 0 exactly if its
    GET could not be sent or it has no byte left to receive, and 1 exactly if an
    ACK could not be sent or it timed out six times in a row.
   */
  lemma StatusExactly(c: Config, ls: seq<Label>, k: nat)
    requires c.Valid() && System.RunOk(c, Init(c), ls) && k < |c.sessions|
    ensures var s := System.Exec(c, Init(c), ls);
            && Shape(c, s)
            && (ExitStatus(s.workers[k]) == Some(0) <==> GetFails(k) in ls || s.workers[k].remaining == 0)
            && (ExitStatus(s.workers[k]) == Some(1) <==> SendAckFails(k) in ls || Silence(ls, k, 0) > 5)
            && (ExitStatus(s.workers[k]).None? || ExitStatus(s.workers[k]).value <= 1)
  {
    InvInit(c);
    var t := RunRefines(c, Init(c), NoTokens(c), ls);
    var s := System.Exec(c, Init(c), ls);
    assert StopAndWait.Inv(c.sessions[k], View(c, s, t, k));
    UnsentIffFailed(c, Init(c), ls, k);
    FailedRun(c, Init(c), NoTokens(c), ls, k, false);
    RetriesAreSilence(c, Init(c), ls, k);
  }

  lemma {:induction false} SilenceAppend(ls: seq<Label>, l: Label, k: nat, n: nat)
    ensures Silence(ls + [l], k, n) == SilenceAfter(l, k, Silence(ls, k, n))
    decreases |ls|
  {
    if ls == [] {
      assert ls + [l] == [l];
    } else {
      assert (ls + [l])[1..] == ls[1..] + [l];
      SilenceAppend(ls[1..], l, k, SilenceAfter(ls[0], k, n));
    }
  }

  // ------------------------------------------------------------------
  // No session has lost its token
  // ------------------------------------------------------------------

  ghost predicate Live(ch: Channel) {
    && (ch.worker.phase.Failed? ==> ch.worker.retries > MAX_RETRIES)
    && !ch.worker.phase.Unsent? && !ch.sender.Halted?
    && (ch.sender.Off? ==> ch.worker.phase.Idle? || ch.link.Some?)
    && (ch.sender.Waiting? ==> ch.worker.phase.Got? || ch.link.Some?)
  }

  lemma LiveEvent(sess: Session, ch: Channel, e: Event)
    requires sess.Valid() && StopAndWait.Inv(sess, ch) && Live(ch) && StopAndWait.Enabled(sess, ch, e)
    requires !e.RequestFails? && !e.Lose? && !e.AckFails? && !e.Abort?
    ensures Live(StopAndWait.Apply(sess, ch, e))
  {
  }

  ghost predicate AllLive(c: Config, s: State, t: seq<Token>)
    requires Shape(c, s) && |t| == |c.sessions|
  {
    forall k :: 0 <= k < |t| ==> Live(View(c, s, t, k))
  }

  lemma SubjectLives(c: Config, s: State, t: seq<Token>, l: Label)
    requires System.Enabled(c, s, l) && !Fault(c, s, l) && |t| == |c.sessions| && Shape(c, System.Apply(c, s, l))
    requires c.sessions[Subject(l)].Valid() && SubjectMoves(c, s, t, l)
    requires StopAndWait.Inv(c.sessions[Subject(l)], View(c, s, t, Subject(l))) && Live(View(c, s, t, Subject(l)))
    ensures Live(View(c, System.Apply(c, s, l), NextTokens(c, s, t, l), Subject(l)))
  {
    if EventOf(c, s, l).Some? {
      LiveEvent(c.sessions[Subject(l)], View(c, s, t, Subject(l)), EventOf(c, s, l).value);
    }
  }

  lemma LiveStep(c: Config, s: State, t: seq<Token>, l: Label)
    requires Refinement.Inv(c, s, t) && AllLive(c, s, t) && System.Enabled(c, s, l) && !Fault(c, s, l)
    ensures Refinement.Inv(c, System.Apply(c, s, l), NextTokens(c, s, t, l))
    ensures AllLive(c, System.Apply(c, s, l), NextTokens(c, s, t, l))
  {
    StepRefines(c, s, t, l);
    var i := Subject(l);
    assert StopAndWait.Inv(c.sessions[i], View(c, s, t, i)) && Live(View(c, s, t, i));
    SubjectLives(c, s, t, l);
  }

  // ------------------------------------------------------------------
  // Progress
  // ------------------------------------------------------------------

  /** A step that is neither a fault nor a timeout. */
  predicate Moving(c: Config, s: State, l: Label)
    requires System.Enabled(c, s, l)
  {
    !Fault(c, s, l) && !l.TimesOut?
  }

  /** A queued ACK belongs to a handler that is awake, so that handler can scan. */
  lemma QueuedCanScan(c: Config, s: State, t: seq<Token>, k: nat)
    requires Refinement.Inv(c, s, t) && k < |t| && t[k].Queued?
    ensures System.Enabled(c, s, Scan(k)) && Moving(c, s, Scan(k))
  {
    assert StopAndWait.Inv(c.sessions[k], View(c, s, t, k));
  }

  /** The process that holds the socket mutex inside recvfrom waits for something that can come. */
  lemma ReceiverMoves(c: Config, s: State, t: seq<Token>, k: nat) returns (l: Label)
    requires Refinement.Inv(c, s, t) && AllLive(c, s, t) && k < |t| && s.workers[k].phase.Polling?
    ensures System.Enabled(c, s, l) && Moving(c, s, l)
  {
    assert StopAndWait.Inv(c.sessions[k], View(c, s, t, k)) && Live(View(c, s, t, k));
    if s.senders[k].Sending? {
      l := SendData(k, 1);
    } else if t[k].Queued? {
      QueuedCanScan(c, s, t, k);
      l := Scan(k);
    } else {
      var d := Datagram(k, t[k].msg);
      assert s.net[d] == if d.addr < |t| && t[d.addr] == Flying(d.msg) then 1 else 0;
      if d.msg.Get? {
        l := RouteGet(d);
      } else if d.msg.Data? {
        l := Receive(d);
      } else if |QueueOf(c, s, k)| < MAX_QUEUE_SIZE {
        l := RouteAck(d);
      } else {
        var e := QueueOf(c, s, k)[0];
        assert e in QueueOf(c, s, k);
        QueuedCanScan(c, s, t, e.addr);
        l := Scan(e.addr);
      }
    }
  }

  lemma Progress(c: Config, s: State, t: seq<Token>) returns (l: Label)
    requires Refinement.Inv(c, s, t) && AllLive(c, s, t) && !AllEnded(s)
    ensures System.Enabled(c, s, l) && Moving(c, s, l)
  {
    var k :| 0 <= k < |s.workers| && !s.workers[k].phase.Succeeded? && !s.workers[k].phase.Failed?;
    assert Live(View(c, s, t, k));
    if s.workers[k].phase.Idle? {
      l := SendGet(k);
    } else if s.workers[k].phase.Acked? {
      l := Write(k);
    } else if LockFree(c, s, k) {
      l := if s.workers[k].phase.Got? then SendAck(k) else Lock(k);
    } else {
      var j :| 0 <= j < |c.sessions| && c.sessions[j].client == c.sessions[k].client
               && s.workers[j].phase.Polling?;
      l := ReceiverMoves(c, s, t, j);
    }
  }

  // ------------------------------------------------------------------
  // Termination
  // ------------------------------------------------------------------

  /** Two steps for each timeout that is left to the worker before it gives up. */
  ghost function Patience(w: Worker): nat {
    if w.retries > MAX_RETRIES then 0 else 2 * (MAX_RETRIES + 1 - w.retries)
  }

  ghost function WorkerStage(w: Worker): nat {
    match w.phase
    case Idle => 16
    case Receiving => 1 + Patience(w)
    case Polling => Patience(w)
    case Got(_, _) => 18
    case Acked(_) => 14
    case _ => 0
  }

  ghost function TokenStage(t: Token): nat {
    match t
    case Flying(Get(_, _)) => 2
    case Flying(Data(_, _)) => 20
    case Flying(Ack(_)) => 3
    case Queued(_) => 2
    case Nothing => 0
  }

  /** Twenty-four steps are enough for every byte that the handler has not sent. */
  ghost function SenderStage(sess: Session, x: Sender): nat {
    match x
    case Off => 24 * sess.size
    case Sending(_, _, rem) => 24 * rem
    case Waiting(_, _, rem, len) => if len <= rem then 24 * (rem - len) else 0
    case _ => 0
  }

  ghost function Stage(c: Config, s: State, t: seq<Token>, k: nat): nat
    requires Shape(c, s) && k < |t| == |c.sessions|
  {
    WorkerStage(s.workers[k]) + TokenStage(t[k]) + SenderStage(c.sessions[k], s.senders[k])
  }

  ghost function Awake(s: State, k: nat): nat
    requires k < |s.senders| == |s.waits|
  {
    if s.senders[k].Waiting? && s.waits[k] != Asleep then 1 else 0
  }

  ghost function Sum(xs: seq<nat>): nat {
    if xs == [] then 0 else xs[0] + Sum(xs[1..])
  }

  lemma {:induction false} SumChange(xs: seq<nat>, ys: seq<nat>, k: nat)
    requires |xs| == |ys| && k < |xs| && forall i :: 0 <= i < |xs| && i != k ==> xs[i] == ys[i]
    ensures Sum(ys) == Sum(xs) - xs[k] + ys[k]
  {
    if k == 0 {
      assert xs[1..] == ys[1..];
    } else {
      SumChange(xs[1..], ys[1..], k - 1);
    }
  }

  lemma {:induction false} SumBound(xs: seq<nat>)
    requires forall i :: 0 <= i < |xs| ==> xs[i] <= 1
    ensures Sum(xs) <= |xs|
  {
    if xs != [] {
      SumBound(xs[1..]);
    }
  }

  ghost function Stages(c: Config, s: State, t: seq<Token>): seq<nat>
    requires Shape(c, s) && |t| == |c.sessions|
  {
    seq(|t|, k requires 0 <= k < |t| => Stage(c, s, t, k))
  }

  ghost function Awakes(s: State): seq<nat>
    requires |s.senders| == |s.waits|
  {
    seq(|s.senders|, k requires 0 <= k < |s.senders| => Awake(s, k))
  }

  ghost function Measure(c: Config, s: State, t: seq<Token>): nat
    requires Shape(c, s) && |t| == |c.sessions|
  {
    (|t| + 1) * Sum(Stages(c, s, t)) + Sum(Awakes(s))
  }

  /** A visible step brings its own session forward; queueing an ACK does too. */
  lemma WorkerStageFalls(c: Config, s: State, t: seq<Token>, l: Label)
    requires System.Enabled(c, s, l) && |t| == |c.sessions| && !Fault(c, s, l)
    requires Placed(c, s, t, l) && Ready(c, s, t, l) && Shape(c, System.Apply(c, s, l))
    requires l.SendGet? || l.Lock? || l.Receive? || (l.TimesOut? && s.workers[l.k].retries <= MAX_RETRIES)
    ensures Stage(c, System.Apply(c, s, l), NextTokens(c, s, t, l), Subject(l)) < Stage(c, s, t, Subject(l))
  {
  }

  lemma PacketStageFalls(c: Config, s: State, t: seq<Token>, l: Label)
    requires System.Enabled(c, s, l) && |t| == |c.sessions| && !Fault(c, s, l)
    requires Placed(c, s, t, l) && Ready(c, s, t, l) && Shape(c, System.Apply(c, s, l))
    requires l.SendAck? || l.Write?
    ensures Stage(c, System.Apply(c, s, l), NextTokens(c, s, t, l), Subject(l)) < Stage(c, s, t, Subject(l))
  {
  }

  lemma HandlerStageFalls(c: Config, s: State, t: seq<Token>, l: Label)
    requires System.Enabled(c, s, l) && |t| == |c.sessions| && !Fault(c, s, l)
    requires Placed(c, s, t, l) && Ready(c, s, t, l) && Shape(c, System.Apply(c, s, l))
    requires l.RouteGet? || l.SendData? || l.RouteAck? || (l.Scan? && Wanted(s, l.k) in QueueOf(c, s, l.k))
    ensures Stage(c, System.Apply(c, s, l), NextTokens(c, s, t, l), Subject(l)) < Stage(c, s, t, Subject(l))
  {
  }

  lemma OtherStages(c: Config, s: State, t: seq<Token>, l: Label, j: nat)
    requires System.Enabled(c, s, l) && |t| == |c.sessions| && Shape(c, System.Apply(c, s, l))
    requires j < |t| && j != Subject(l)
    ensures Stage(c, System.Apply(c, s, l), NextTokens(c, s, t, l), j) == Stage(c, s, t, j)
  {
  }

  /** One session forward outweighs any number of handlers woken up. */
  lemma ForwardOutweighsWaking(c: Config, s: State, t: seq<Token>, s': State, t': seq<Token>, k: nat)
    requires Shape(c, s) && Shape(c, s') && |t| == |t'| == |c.sessions| && k < |t|
    requires Stage(c, s', t', k) < Stage(c, s, t, k)
    requires forall j :: 0 <= j < |t| && j != k ==> Stage(c, s', t', j) == Stage(c, s, t, j)
    ensures Measure(c, s', t') < Measure(c, s, t)
  {
    var xs, ys := Stages(c, s, t), Stages(c, s', t');
    SumChange(xs, ys, k);
    SumBound(Awakes(s'));
    Scale(|t| + 1, Sum(ys) + 1, Sum(xs));
  }

  /** A scan in vain puts its handler to sleep and changes nothing else. */
  lemma ScanInVain(c: Config, s: State, t: seq<Token>, k: nat)
    requires System.Enabled(c, s, Scan(k)) && |t| == |c.sessions| && Wanted(s, k) !in QueueOf(c, s, k)
    ensures Shape(c, System.Apply(c, s, Scan(k)))
    ensures Measure(c, System.Apply(c, s, Scan(k)), t) < Measure(c, s, t)
  {
    var s' := System.Apply(c, s, Scan(k));
    assert Stages(c, s', t) == Stages(c, s, t);
    SumChange(Awakes(s), Awakes(s'), k);
  }

  lemma MeasureFalls(c: Config, s: State, t: seq<Token>, l: Label)
    requires Refinement.Inv(c, s, t) && System.Enabled(c, s, l) && !Fault(c, s, l)
    ensures Shape(c, System.Apply(c, s, l))
    ensures Measure(c, System.Apply(c, s, l), NextTokens(c, s, t, l)) < Measure(c, s, t)
  {
    ShapeStep(c, s, l);
    var s', t', k := System.Apply(c, s, l), NextTokens(c, s, t, l), Subject(l);
    if l.Scan? && Wanted(s, k) !in QueueOf(c, s, k) {
      ScanInVain(c, s, t, k);
    } else {
      assert StopAndWait.Inv(c.sessions[k], View(c, s, t, k));
      SharedPlaced(c, s, t, l);
      InvReady(c, s, t, l);
      if l.SendGet? || l.Lock? || l.Receive? || l.TimesOut? {
        WorkerStageFalls(c, s, t, l);
      } else if l.SendAck? || l.Write? {
        PacketStageFalls(c, s, t, l);
      } else {
        HandlerStageFalls(c, s, t, l);
      }
      forall j | 0 <= j < |t| && j != k ensures Stage(c, s', t', j) == Stage(c, s, t, j) {
        OtherStages(c, s, t, l, j);
      }
      ForwardOutweighsWaking(c, s, t, s', t', k);
    }
  }

  lemma Scale(n: nat, a: nat, b: nat)
    requires a <= b
    ensures n * a <= n * b
    ensures a > 0 ==> n * (a - 1) + n == n * a
  {
  }

  // ------------------------------------------------------------------
  // Whole runs
  // ------------------------------------------------------------------

  lemma {:induction false} CleanRunKeeps(c: Config, s: State, t: seq<Token>, ls: seq<Label>)
    returns (t': seq<Token>)
    requires Refinement.Inv(c, s, t) && AllLive(c, s, t) && CleanRun(c, s, ls)
    ensures System.RunOk(c, s, ls)
    ensures Refinement.Inv(c, System.Exec(c, s, ls), t') && AllLive(c, System.Exec(c, s, ls), t')
    ensures |ls| + Measure(c, System.Exec(c, s, ls), t') <= Measure(c, s, t)
    decreases |ls|
  {
    CleanIsRun(c, s, ls);
    if ls == [] {
      t' := t;
    } else {
      LiveStep(c, s, t, ls[0]);
      MeasureFalls(c, s, t, ls[0]);
      t' := CleanRunKeeps(c, System.Apply(c, s, ls[0]), NextTokens(c, s, t, ls[0]), ls[1..]);
    }
  }

  ghost function Sizes(c: Config): seq<nat> {
    seq(|c.sessions|, k requires 0 <= k < |c.sessions| => 24 * c.sessions[k].size + 16)
  }

  /** The number of steps that no run without faults exceeds. */
  ghost function StepBound(c: Config): nat {
    (|c.sessions| + 1) * Sum(Sizes(c))
  }

  lemma {:induction false} SumZeros(xs: seq<nat>)
    requires forall i :: 0 <= i < |xs| ==> xs[i] == 0
    ensures Sum(xs) == 0
  {
    if xs != [] {
      SumZeros(xs[1..]);
    }
  }

  lemma LiveInit(c: Config)
    requires c.Valid()
    ensures Refinement.Inv(c, Init(c), NoTokens(c)) && AllLive(c, Init(c), NoTokens(c))
    ensures Measure(c, Init(c), NoTokens(c)) == StepBound(c)
  {
    InvInit(c);
    assert Stages(c, Init(c), NoTokens(c)) == Sizes(c);
    SumZeros(Awakes(Init(c)));
  }

  /** A worker that gave up did so after six timeouts in a row. */
  lemma EndedHow(c: Config, ls: seq<Label>, t: seq<Token>, k: nat)
    requires c.Valid() && System.RunOk(c, Init(c), ls) && k < |c.sessions|
    requires Refinement.Inv(c, System.Exec(c, Init(c), ls), t) && AllLive(c, System.Exec(c, Init(c), ls), t)
    ensures var w := System.Exec(c, Init(c), ls).workers[k];
            w.phase.Failed? <==> Silence(ls, k, 0) > 5
  {
    var s := System.Exec(c, Init(c), ls);
    RetriesAreSilence(c, Init(c), ls, k);
    assert Live(View(c, s, t, k)) && StopAndWait.Inv(c.sessions[k], View(c, s, t, k));
  }

  /**
    No deadlock, and no run for ever: a run without faults is at most
    StepBound(c) steps long, and as long as some worker has neither succeeded nor
    given up it can be continued without a fault and without a timeout.  A worker
    has given up exactly if it has timed out six times in a row.
   */
  lemma CleanRunsProgress(c: Config, ls: seq<Label>) returns (next: Option<Label>)
    requires c.Valid() && CleanRun(c, Init(c), ls)
    ensures System.RunOk(c, Init(c), ls) && |ls| <= StepBound(c)
    ensures var s := System.Exec(c, Init(c), ls);
            && Shape(c, s)
            && (forall k :: 0 <= k < |c.sessions| ==>
                  (s.workers[k].phase.Failed? <==> Silence(ls, k, 0) > 5))
            && match next
               case None => AllEnded(s)
               case Some(l) => System.Enabled(c, s, l) && Moving(c, s, l)
  {
    LiveInit(c);
    var t := CleanRunKeeps(c, Init(c), NoTokens(c), ls);
    var s := System.Exec(c, Init(c), ls);
    forall k | 0 <= k < |c.sessions|
      ensures s.workers[k].phase.Failed? <==> Silence(ls, k, 0) > 5
    {
      EndedHow(c, ls, t, k);
    }
    if AllEnded(s) {
      next := None;
    } else {
      var l := Progress(c, s, t);
      next := Some(l);
    }
  }

  /** Nothing but faults and timeouts is left to happen. */
  ghost predicate Maximal(c: Config, s: State) {
    forall l :: System.Enabled(c, s, l) ==> !Moving(c, s, l)
  }

  /**
    A run without faults that cannot be continued without a fault or a timeout has
    ended every worker.  A worker has succeeded, with its chunk in place, if and
    only if it has not timed out six times in a row; that is when it hands status
    0 to pthread_join, and otherwise 1.
   */
  lemma MaximalRunsDeliver(c: Config, ls: seq<Label>, k: nat)
    requires c.Valid() && CleanRun(c, Init(c), ls) && k < |c.sessions|
    requires System.RunOk(c, Init(c), ls) && Maximal(c, System.Exec(c, Init(c), ls))
    ensures var s := System.Exec(c, Init(c), ls);
            && Shape(c, s)
            && (if Silence(ls, k, 0) > 5 then s.workers[k].phase.Failed?
                else s.workers[k].phase.Succeeded? && SliceOf(c, s, k) == c.sessions[k].Chunk())
            && ExitStatus(s.workers[k]) == Some(if Silence(ls, k, 0) > 5 then 1 else 0)
  {
    var next := CleanRunsProgress(c, ls);
    SlicesArePrefixes(c, ls, k);
  }

  lemma {:induction false} CleanAppend(c: Config, s: State, ls: seq<Label>, l: Label)
    requires CleanRun(c, s, ls) && System.RunOk(c, s, ls)
    requires System.Enabled(c, System.Exec(c, s, ls), l) && !Fault(c, System.Exec(c, s, ls), l)
    ensures CleanRun(c, s, ls + [l])
    decreases |ls|
  {
    if ls == [] {
      assert ls + [l] == [l];
    } else {
      CleanAppend(c, System.Apply(c, s, ls[0]), ls[1..], l);
      assert (ls + [l])[1..] == ls[1..] + [l];
    }
  }

  /** Whoever has given up sends no ACK, so its count stays. */
  lemma SilenceKept(c: Config, s: State, l: Label, k: nat, n: nat)
    requires System.Enabled(c, s, l) && Moving(c, s, l) && k < |c.sessions|
    requires s.workers[k].phase.Failed? <==> n > 5
    ensures SilenceAfter(l, k, n) > 5 <==> n > 5
  {
  }

  /** A step that is neither fault nor timeout makes nobody give up, and nobody try again. */
  lemma StepOn(c: Config, ls: seq<Label>, l: Label)
    requires c.Valid() && CleanRun(c, Init(c), ls) && System.RunOk(c, Init(c), ls)
    requires System.Enabled(c, System.Exec(c, Init(c), ls), l) && Moving(c, System.Exec(c, Init(c), ls), l)
    ensures CleanRun(c, Init(c), ls + [l]) && |ls| < StepBound(c)
    ensures forall k :: 0 <= k < |c.sessions| ==>
              (Silence(ls + [l], k, 0) > 5 <==> Silence(ls, k, 0) > 5)
  {
    CleanAppend(c, Init(c), ls, l);
    var _ := CleanRunsProgress(c, ls);
    var _ := CleanRunsProgress(c, ls + [l]);
    var s := System.Exec(c, Init(c), ls);
    forall k | 0 <= k < |c.sessions|
      ensures Silence(ls + [l], k, 0) > 5 <==> Silence(ls, k, 0) > 5
    {
      SilenceAppend(ls, l, k, 0);
      SilenceKept(c, s, l, k, Silence(ls, k, 0));
    }
  }

  /** All workers have ended, and exactly those have failed that had given up by the end of `ls`. */
  ghost predicate Settled(c: Config, ls: seq<Label>, s: State) {
    && |s.workers| == |c.sessions|
    && forall k :: 0 <= k < |c.sessions| ==>
         if Silence(ls, k, 0) > 5 then s.workers[k].phase.Failed? else s.workers[k].phase.Succeeded?
  }

  /** Every run without faults extends to one in which every worker succeeds that had not given up before. */
  lemma CleanRunsComplete(c: Config, ls: seq<Label>) returns (all: seq<Label>)
    requires c.Valid() && CleanRun(c, Init(c), ls)
    ensures ls <= all && CleanRun(c, Init(c), all) && System.RunOk(c, Init(c), all)
    ensures Settled(c, ls, System.Exec(c, Init(c), all))
    decreases StepBound(c) - |ls|
  {
    var next := CleanRunsProgress(c, ls);
    if next.None? {
      all := ls;
    } else {
      StepOn(c, ls, next.value);
      all := CleanRunsComplete(c, ls + [next.value]);
    }
  }

  // ------------------------------------------------------------------
  // Servers with at most five sessions
  // ------------------------------------------------------------------

  /** Something that the environment does: a datagram lost, a failing call, a wake-up without a signal. */
  predicate Mishap(l: Label) {
    l.GetFails? || l.Drop? || l.Spurious? || l.SendAckFails? || l.HandlerFails?
  }

  ghost predicate FewSessions(c: Config) {
    forall v :: 0 <= v < c.servers ==> |SessionsOf(c, v)| <= 5
  }

  lemma RoomIsClean(c: Config, s: State, t: seq<Token>, l: Label)
    requires Refinement.Inv(c, s, t) && FewSessions(c) && System.Enabled(c, s, l)
    ensures Fault(c, s, l) <==> Mishap(l)
  {
    if l.RouteAck? {
      RoomForOneMore(c, s, t, l.d);
    }
  }

  /** With at most five sessions on every server, a run without mishaps is one without faults: no queue is ever full. */
  lemma {:induction false} NoMishapIsClean(c: Config, s: State, t: seq<Token>, ls: seq<Label>)
    requires Refinement.Inv(c, s, t) && FewSessions(c) && System.RunOk(c, s, ls)
    requires forall i :: 0 <= i < |ls| ==> !Mishap(ls[i])
    ensures CleanRun(c, s, ls)
    decreases |ls|
  {
    if ls != [] {
      RoomIsClean(c, s, t, ls[0]);
      StepRefines(c, s, t, ls[0]);
      NoMishapIsClean(c, System.Apply(c, s, ls[0]), NextTokens(c, s, t, ls[0]), ls[1..]);
    }
  }

  /** And when such a run can only go on with a mishap or a timeout, it is maximal. */
  lemma NoMishapIsMaximal(c: Config, ls: seq<Label>)
    requires c.Valid() && FewSessions(c) && System.RunOk(c, Init(c), ls)
    requires forall i :: 0 <= i < |ls| ==> !Mishap(ls[i])
    requires forall l :: System.Enabled(c, System.Exec(c, Init(c), ls), l) ==> Mishap(l) || l.TimesOut?
    ensures CleanRun(c, Init(c), ls) && Maximal(c, System.Exec(c, Init(c), ls))
  {
    InvInit(c);
    NoMishapIsClean(c, Init(c), NoTokens(c), ls);
    var s := System.Exec(c, Init(c), ls);
    var t := RunRefines(c, Init(c), NoTokens(c), ls);
    forall l | System.Enabled(c, s, l) ensures !Moving(c, s, l) {
      RoomIsClean(c, s, t, l);
    }
  }
}
