/**
  All TCP connections of one client at once: every worker stores into its own
  part of one output buffer, and every server handles one connection at a time,
  from accept to close (ftp/server.c:178-188).  A run interleaves the calls of
  all connections in any way.
 */
module StreamSystem {
  import opened Octets
  import opened StopAndWait
  import opened Partition
  import opened Stream
  import System
  import Download

  /** A connection without the memory that its worker stores to. */
  datatype Line = Line(server: Server, stream: seq<Octet>, client: Client, remaining: nat)

  datatype State = State(lines: seq<Line>, memory: seq<Octet>)

  datatype Label = Label(k: nat, call: Call)

  function Init(c: System.Config): State {
    State(seq(|c.sessions|, k requires 0 <= k < |c.sessions| => Line(Pending, [], Taking, c.sessions[k].size)),
          Zeros(c.memory))
  }

  predicate Shape(c: System.Config, s: State) {
    c.Sound() && |s.lines| == |c.sessions| && |s.memory| == c.memory
  }

  /** Connection k with its part of the memory. */
  function View(c: System.Config, s: State, k: nat): Conn
    requires Shape(c, s) && k < |c.sessions|
  {
    var sess, x := c.sessions[k], s.lines[k];
    Conn(x.server, x.stream, x.client, x.remaining, s.memory[sess.base..sess.base + sess.size])
  }

  predicate Busy(x: Server) {
    x.Reading? || x.Writing? || x.Astray?
  }

  /** The server of connection k is back in its accept loop. */
  predicate Vacant(c: System.Config, s: State, k: nat)
    requires Shape(c, s) && k < |c.sessions|
  {
    forall j :: 0 <= j < |c.sessions| && c.sessions[j].server == c.sessions[k].server ==> !Busy(s.lines[j].server)
  }

  predicate Enabled(c: System.Config, s: State, l: Label) {
    && Shape(c, s) && l.k < |c.sessions| && Stream.Enabled(c.sessions[l.k], View(c, s, l.k), l.call)
    && (l.call.Accept? ==> Vacant(c, s, l.k))
  }

  function Apply(c: System.Config, s: State, l: Label): State
    requires Enabled(c, s, l)
  {
    var sess, x := c.sessions[l.k], s.lines[l.k];
    var y := Stream.Apply(sess, View(c, s, l.k), l.call);
    State(s.lines[l.k := Line(y.server, y.stream, y.client, y.remaining)],
          if l.call.Recv? then StoreNext(s.memory, sess.base, sess.size - x.remaining, x.stream, l.call.n) else s.memory)
  }

  predicate RunOk(c: System.Config, s: State, ls: seq<Label>)
    decreases |ls|
  {
    ls == [] || (Enabled(c, s, ls[0]) && RunOk(c, Apply(c, s, ls[0]), ls[1..]))
  }

  function Exec(c: System.Config, s: State, ls: seq<Label>): State
    requires RunOk(c, s, ls)
    decreases |ls|
  {
    if ls == [] then s else Exec(c, Apply(c, s, ls[0]), ls[1..])
  }

  // ------------------------------------------------------------------
  // Each connection on its own
  // ------------------------------------------------------------------

  lemma SliceAfter(sess: Session, x: Conn, l: Call, part: seq<Octet>, done: int, stream: seq<Octet>)
    requires Stream.Enabled(sess, x, l)
    requires x.slice == part && done == sess.size - x.remaining && x.stream == stream
    ensures Stream.Apply(sess, x, l).slice == if l.Recv? then StoreNext(part, 0, done, stream, l.n) else part
  {
  }

  lemma MemoryAfter(c: System.Config, s: State, l: Label, base: nat, done: int, stream: seq<Octet>)
    requires Enabled(c, s, l)
    requires base == c.sessions[l.k].base && done == c.sessions[l.k].size - s.lines[l.k].remaining
    requires stream == s.lines[l.k].stream
    ensures Shape(c, Apply(c, s, l))
    ensures Apply(c, s, l).memory
            == if l.call.Recv? then StoreNext(s.memory, base, done, stream, l.call.n) else s.memory
  {
  }

  /** The part of the memory that belongs to the caller, after the call. */
  lemma OwnSlice(c: System.Config, s: State, l: Label)
    requires Enabled(c, s, l)
    ensures Shape(c, Apply(c, s, l))
    ensures var sess := c.sessions[l.k];
            Apply(c, s, l).memory[sess.base..sess.base + sess.size]
            == Stream.Apply(sess, View(c, s, l.k), l.call).slice
  {
    var sess, stream := c.sessions[l.k], s.lines[l.k].stream;
    var done, part := sess.size - s.lines[l.k].remaining, s.memory[sess.base..sess.base + sess.size];
    SliceAfter(sess, View(c, s, l.k), l.call, part, done, stream);
    MemoryAfter(c, s, l, sess.base, done, stream);
    if l.call.Recv? {
      StoreInside(s.memory, sess.base, sess.size, done, stream, l.call.n);
    }
  }

  /** What a call stores is stored in the worker's own part of the memory. */
  lemma OwnView(c: System.Config, s: State, l: Label)
    requires Enabled(c, s, l)
    ensures Shape(c, Apply(c, s, l))
    ensures View(c, Apply(c, s, l), l.k) == Stream.Apply(c.sessions[l.k], View(c, s, l.k), l.call)
  {
    OwnSlice(c, s, l);
  }

  /** No call changes another connection or its part of the memory. */
  lemma OtherView(c: System.Config, s: State, l: Label, j: nat)
    requires c.Valid() && Enabled(c, s, l) && j < |c.sessions| && j != l.k
    ensures Shape(c, Apply(c, s, l)) && View(c, Apply(c, s, l), j) == View(c, s, j)
  {
    var mine, other := c.sessions[l.k], c.sessions[j];
    assert System.Apart(mine, other) || System.Apart(other, mine);
    if l.call.Recv? {
      var done := mine.size - s.lines[l.k].remaining;
      StoreOutside(s.memory, mine.base, done, s.lines[l.k].stream, l.call.n, other.base, other.base + other.size);
    }
  }

  lemma StoreOutside(m: seq<Octet>, base: nat, done: nat, stream: seq<Octet>, n: nat, lo: nat, hi: nat)
    requires done + n <= |stream| && base + done + n <= |m| && lo <= hi <= |m|
    requires hi <= base || base + done + n <= lo
    ensures StoreNext(m, base, done, stream, n)[lo..hi] == m[lo..hi]
  {
  }

  /** The calls of connection k in a run of all of them. */
  function Calls(ls: seq<Label>, k: nat): seq<Call> {
    if ls == [] then []
    else (if ls[0].k == k then [ls[0].call] else []) + Calls(ls[1..], k)
  }

  lemma {:induction false} RunRefines(c: System.Config, s: State, ls: seq<Label>, k: nat)
    requires c.Valid() && Shape(c, s) && RunOk(c, s, ls) && k < |c.sessions|
    ensures Shape(c, Exec(c, s, ls))
    ensures Stream.RunOk(c.sessions[k], View(c, s, k), Calls(ls, k))
    ensures View(c, Exec(c, s, ls), k) == Stream.Exec(c.sessions[k], View(c, s, k), Calls(ls, k))
    decreases |ls|
  {
    if ls != [] {
      OwnView(c, s, ls[0]);
      RunRefines(c, Apply(c, s, ls[0]), ls[1..], k);
      if ls[0].k == k {
        assert Calls(ls, k)[1..] == Calls(ls[1..], k);
      } else {
        OtherView(c, s, ls[0], k);
        assert Calls(ls, k) == Calls(ls[1..], k);
      }
    }
  }

  lemma InitView(c: System.Config, k: nat)
    requires c.Valid() && k < |c.sessions|
    ensures Shape(c, Init(c)) && View(c, Init(c), k) == Open(c.sessions[k])
  {
    var sess := c.sessions[k];
    assert Zeros(c.memory)[sess.base..sess.base + sess.size] == Zeros(sess.size);
  }

  /**
    Refinement.  In every joint run, the calls of each connection form a run of
    that connection alone, which ends with the same server, stream and worker,
    and with the slice that stands in the worker's part of the shared memory.
   */
  lemma JointRunsRefine(c: System.Config, ls: seq<Label>, k: nat)
    requires c.Valid() && RunOk(c, Init(c), ls) && k < |c.sessions|
    ensures Shape(c, Exec(c, Init(c), ls))
    ensures Stream.RunOk(c.sessions[k], Open(c.sessions[k]), Calls(ls, k))
    ensures View(c, Exec(c, Init(c), ls), k) == Stream.Exec(c.sessions[k], Open(c.sessions[k]), Calls(ls, k))
  {
    InitView(c, k);
    RunRefines(c, Init(c), ls, k);
  }

  // ------------------------------------------------------------------
  // One connection of a server at a time
  // ------------------------------------------------------------------

  ghost predicate Exclusive(c: System.Config, s: State)
    requires Shape(c, s)
  {
    forall j, k :: 0 <= j < k < |c.sessions| && c.sessions[j].server == c.sessions[k].server
                   ==> !Busy(s.lines[j].server) || !Busy(s.lines[k].server)
  }

  /** Only an accept makes a server busy. */
  lemma BusyBegins(sess: Session, x: Conn, l: Call)
    requires Stream.Enabled(sess, x, l) && !l.Accept? && Busy(Stream.Apply(sess, x, l).server)
    ensures Busy(x.server)
  {
  }

  lemma ExclusiveStep(c: System.Config, s: State, l: Label)
    requires Enabled(c, s, l) && Exclusive(c, s)
    ensures Shape(c, Apply(c, s, l)) && Exclusive(c, Apply(c, s, l))
  {
    OwnView(c, s, l);
    var s' := Apply(c, s, l);
    if !l.call.Accept? && Busy(s'.lines[l.k].server) {
      BusyBegins(c.sessions[l.k], View(c, s, l.k), l.call);
    }
    assert forall j :: 0 <= j < |c.sessions| && j != l.k ==> s'.lines[j] == s.lines[j];
  }

  lemma {:induction false} ExclusiveRun(c: System.Config, s: State, ls: seq<Label>)
    requires Shape(c, s) && Exclusive(c, s) && RunOk(c, s, ls)
    ensures Shape(c, Exec(c, s, ls)) && Exclusive(c, Exec(c, s, ls))
    decreases |ls|
  {
    if ls != [] {
      ExclusiveStep(c, s, ls[0]);
      ExclusiveRun(c, Apply(c, s, ls[0]), ls[1..]);
    }
  }

  /**
    In every joint run a server is between accept and close with one connection at
    most, and it can accept a waiting one exactly when it is with none.
   */
  lemma OneConnectionPerServer(c: System.Config, ls: seq<Label>, k: nat)
    requires c.Valid() && RunOk(c, Init(c), ls) && k < |c.sessions|
    ensures var s := Exec(c, Init(c), ls);
            && Shape(c, s)
            && var free := forall j :: 0 <= j < |c.sessions| && c.sessions[j].server == c.sessions[k].server ==>
                             var x := s.lines[j].server;
                             !x.Reading? && !x.Writing? && !x.Astray?;
               && (Enabled(c, s, Label(k, Call.Accept)) <==> s.lines[k].server.Pending? && free)
               && (!free && !s.lines[k].server.Pending? && !s.lines[k].server.Closed? ==>
                     forall j :: 0 <= j < |c.sessions| && c.sessions[j].server == c.sessions[k].server && j != k ==>
                       s.lines[j].server.Pending? || s.lines[j].server.Closed?)
  {
    InitView(c, k);
    ExclusiveRun(c, Init(c), ls);
  }

  // ------------------------------------------------------------------
  // The output file
  // ------------------------------------------------------------------

  ghost predicate AllStored(s: State) {
    forall k :: 0 <= k < |s.lines| ==> s.lines[k].client.Stored?
  }

  /** What each worker of a client stores, place by place, equals what stands there in the file. */
  ghost predicate TrailsMatch(c: System.Config, ls: seq<Label>)
    requires c.Valid()
  {
    forall k :: 0 <= k < |c.sessions| ==> TrailMatches(c.sessions[k], Trail(Calls(ls, k), 0))
  }

  ghost predicate TrailMatches(sess: Session, t: seq<int>)
    requires sess.Valid()
  {
    && |t| >= sess.size
    && forall i :: 0 <= i < sess.size ==> 0 <= t[i] < sess.size && sess.Chunk()[t[i]] == sess.Chunk()[i]
  }

  /** One connection of a joint run that has stored everything has its part of the file if and only if its trail matches. */
  lemma PartExact(c: System.Config, ls: seq<Label>, k: nat)
    requires c.Valid() && RunOk(c, Init(c), ls) && k < |c.sessions|
    requires Shape(c, Exec(c, Init(c), ls)) && Exec(c, Init(c), ls).lines[k].client.Stored?
    ensures View(c, Exec(c, Init(c), ls), k).slice == c.sessions[k].Chunk()
            <==> TrailMatches(c.sessions[k], Trail(Calls(ls, k), 0))
  {
    JointRunsRefine(c, ls, k);
    StreamFollowsTrail(c.sessions[k], Calls(ls, k));
  }

  /**
    When all workers have stored their parts, whatever was cut or failed, the
    output is the file if and only if every byte sent twice or late happens to
    equal the one that was due.
   */
  lemma OutputExact(file: seq<Octet>, n: nat, servers: nat, ls: seq<Label>)
    requires 0 < n <= |file| && servers > 0
    requires var c := Download.ClientConfig(file, n, servers);
             RunOk(c, Init(c), ls) && AllStored(Exec(c, Init(c), ls))
    ensures var c := Download.ClientConfig(file, n, servers);
            c.Valid() && (Exec(c, Init(c), ls).memory == file <==> TrailsMatch(c, ls))
  {
    var c := Download.ClientConfig(file, n, servers);
    Download.ClientConfigValid(file, n, servers);
    var s := Exec(c, Init(c), ls);
    JointRunsRefine(c, ls, 0);
    forall k | 0 <= k < n
      ensures View(c, s, k).slice == c.sessions[k].Chunk() <==> TrailMatches(c.sessions[k], Trail(Calls(ls, k), 0))
    {
      PartExact(c, ls, k);
    }
    Download.SlicesMakeFile(file, n, servers, s.memory);
    assert forall k :: 0 <= k < n ==> View(c, s, k).slice == Download.PartOf(c, s.memory, k);
  }

  predicate AllWritesSucceed(ls: seq<Label>) {
    forall i :: 0 <= i < |ls| && ls[i].call.Write? ==> ls[i].call.ret >= 0
  }

  lemma {:induction false} CallsSucceed(ls: seq<Label>, k: nat)
    requires AllWritesSucceed(ls)
    ensures WritesSucceed(Calls(ls, k))
  {
    if ls != [] {
      CallsSucceed(ls[1..], k);
    }
  }

  /** If no write fails and all workers have stored their parts, the output is the file. */
  lemma StoredMeansFile(file: seq<Octet>, n: nat, servers: nat, ls: seq<Label>)
    requires 0 < n <= |file| && servers > 0 && AllWritesSucceed(ls)
    requires var c := Download.ClientConfig(file, n, servers);
             RunOk(c, Init(c), ls) && AllStored(Exec(c, Init(c), ls))
    ensures var c := Download.ClientConfig(file, n, servers);
            Exec(c, Init(c), ls).memory == file
  {
    var c := Download.ClientConfig(file, n, servers);
    OutputExact(file, n, servers, ls);
    forall k | 0 <= k < n ensures TrailMatches(c.sessions[k], Trail(Calls(ls, k), 0)) {
      JointRunsRefine(c, ls, k);
      CallsSucceed(ls, k);
      StreamIsPrefix(c.sessions[k], Calls(ls, k));
      PartExact(c, ls, k);
    }
  }

  // ------------------------------------------------------------------
  // Liveness
  // ------------------------------------------------------------------

  ghost predicate AllHealthy(c: System.Config, s: State) {
    Shape(c, s) && forall k :: 0 <= k < |c.sessions| ==> Healthy(c.sessions[k], View(c, s, k))
  }

  ghost function TotalWork(c: System.Config, s: State, m: nat): int
    requires Shape(c, s) && m <= |c.sessions|
  {
    if m == 0 then 0 else TotalWork(c, s, m - 1) + Work(c.sessions[m - 1], View(c, s, m - 1))
  }

  lemma {:induction false} TotalFalls(c: System.Config, s: State, l: Label, m: nat)
    requires c.Valid() && Enabled(c, s, l) && Shape(c, Apply(c, s, l)) && m <= |c.sessions|
    requires Work(c.sessions[l.k], View(c, Apply(c, s, l), l.k)) < Work(c.sessions[l.k], View(c, s, l.k))
    ensures TotalWork(c, Apply(c, s, l), m) + (if l.k < m then 1 else 0) <= TotalWork(c, s, m)
  {
    if m > 0 {
      TotalFalls(c, s, l, m - 1);
      if m - 1 != l.k {
        OtherView(c, s, l, m - 1);
      }
    }
  }

  lemma HealthyStep(c: System.Config, s: State, l: Label)
    requires c.Valid() && AllHealthy(c, s) && Enabled(c, s, l) && Smooth(l.call)
    ensures AllHealthy(c, Apply(c, s, l))
    ensures TotalWork(c, Apply(c, s, l), |c.sessions|) < TotalWork(c, s, |c.sessions|)
  {
    OwnView(c, s, l);
    SmoothStep(c.sessions[l.k], View(c, s, l.k), l.call);
    TotalFalls(c, s, l, |c.sessions|);
    forall j | 0 <= j < |c.sessions| ensures Healthy(c.sessions[j], View(c, Apply(c, s, l), j)) {
      if j != l.k {
        OtherView(c, s, l, j);
      }
    }
  }

  predicate SmoothRun(ls: seq<Label>) {
    forall i :: 0 <= i < |ls| ==> Smooth(ls[i].call)
  }

  lemma {:induction false} HealthyRun(c: System.Config, s: State, ls: seq<Label>)
    requires c.Valid() && AllHealthy(c, s) && RunOk(c, s, ls) && SmoothRun(ls)
    ensures AllHealthy(c, Exec(c, s, ls))
    ensures |ls| + TotalWork(c, Exec(c, s, ls), |c.sessions|) <= TotalWork(c, s, |c.sessions|)
    decreases |ls|
  {
    if ls != [] {
      HealthyStep(c, s, ls[0]);
      HealthyRun(c, Apply(c, s, ls[0]), ls[1..]);
    }
  }

  lemma {:induction false} WorkIsNatural(c: System.Config, s: State, m: nat)
    requires AllHealthy(c, s) && m <= |c.sessions|
    ensures TotalWork(c, s, m) >= 0
  {
    if m > 0 {
      WorkIsNatural(c, s, m - 1);
      assert Healthy(c.sessions[m - 1], View(c, s, m - 1));
    }
  }

  /** A connection that waits to be accepted can be, or the one its server is busy with can go on. */
  lemma SomeoneMoves(c: System.Config, s: State, k: nat) returns (l: Label)
    requires c.Valid() && AllHealthy(c, s) && k < |c.sessions| && !s.lines[k].client.Stored?
    ensures Enabled(c, s, l) && Smooth(l.call)
  {
    NextCallEnabled(c.sessions[k], View(c, s, k));
    l := Label(k, NextCall(View(c, s, k)));
    if l.call.Accept? && !Vacant(c, s, k) {
      var j :| 0 <= j < |c.sessions| && c.sessions[j].server == c.sessions[k].server && Busy(s.lines[j].server);
      assert Healthy(c.sessions[j], View(c, s, j));
      BusyMoves(c.sessions[j], View(c, s, j));
      l := Label(j, NextCall(View(c, s, j)));
    }
  }

  lemma BusyMoves(sess: Session, x: Conn)
    requires sess.Valid() && Healthy(sess, x) && Busy(x.server)
    ensures var l := NextCall(x);
            Smooth(l) && !l.Accept? && Stream.Enabled(sess, x, l)
  {
  }

  lemma InitialShare(c: System.Config, k: nat)
    requires c.Valid() && k < |c.sessions|
    ensures Shape(c, Init(c)) && Work(c.sessions[k], View(c, Init(c), k)) == 3 * c.sessions[k].size + 1
  {
    InitView(c, k);
    HealthyOpen(c.sessions[k]);
  }

  ghost function SumSizes(c: System.Config, m: nat): nat
    requires m <= |c.sessions|
  {
    if m == 0 then 0 else SumSizes(c, m - 1) + c.sessions[m - 1].size
  }

  lemma {:induction false} SizesMakeFile(file: seq<Octet>, n: nat, servers: nat, m: nat)
    requires 0 < n <= |file| && servers > 0 && m <= n
    ensures SumSizes(Download.ClientConfig(file, n, servers), m)
            == if m == n then |file| else TaskOf(|file|, n, servers, m).offset
  {
    if m == 0 {
      Contiguous(|file|, n, servers, 0);
    } else {
      SizesMakeFile(file, n, servers, m - 1);
      Contiguous(|file|, n, servers, m - 1);
    }
  }

  /** The work of the first m connections at the start: three calls for each byte and one for each connection. */
  lemma {:induction false} InitialWork(c: System.Config, m: nat)
    requires c.Valid() && Shape(c, Init(c)) && m <= |c.sessions|
    ensures TotalWork(c, Init(c), m) == 3 * SumSizes(c, m) + m
  {
    if m > 0 {
      InitialWork(c, m - 1);
      InitialShare(c, m - 1);
    }
  }

  lemma InitHealthy(c: System.Config)
    requires c.Valid()
    ensures AllHealthy(c, Init(c))
  {
    forall k | 0 <= k < |c.sessions| ensures Shape(c, Init(c)) && Healthy(c.sessions[k], View(c, Init(c), k)) {
      InitView(c, k);
      HealthyOpen(c.sessions[k]);
    }
  }

  /**
    A download without failing calls takes at most three calls for each byte of
    the file and one for each connection.  Until the output is the file some
    connection can go on, although every server serves one at a time.
   */
  lemma SmoothDownloadFinishes(file: seq<Octet>, n: nat, servers: nat, ls: seq<Label>) returns (next: Option<Label>)
    requires 0 < n <= |file| && servers > 0 && SmoothRun(ls)
    requires var c := Download.ClientConfig(file, n, servers); RunOk(c, Init(c), ls)
    ensures |ls| <= 3 * |file| + n
    ensures var c := Download.ClientConfig(file, n, servers);
            var s := Exec(c, Init(c), ls);
            match next
            case None => AllStored(s) && s.memory == file
            case Some(l) => Smooth(l.call) && Enabled(c, s, l)
  {
    var c := Download.ClientConfig(file, n, servers);
    Download.ClientConfigValid(file, n, servers);
    InitHealthy(c);
    HealthyRun(c, Init(c), ls);
    var s := Exec(c, Init(c), ls);
    WorkIsNatural(c, s, n);
    InitialWork(c, n);
    SizesMakeFile(file, n, servers, n);
    if AllStored(s) {
      assert forall i :: 0 <= i < |ls| && ls[i].call.Write? ==> Smooth(ls[i].call);
      StoredMeansFile(file, n, servers, ls);
      next := None;
    } else {
      var k :| 0 <= k < |s.lines| && !s.lines[k].client.Stored?;
      var l := SomeoneMoves(c, s, k);
      next := Some(l);
    }
  }
}
