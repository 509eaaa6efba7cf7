/**
  One client downloading one file: the partition of the file becomes the
  configuration of the system, and the results about sessions become results
  about the output file.
 */
module Download {
  import opened Octets
  import opened StopAndWait
  import opened AckQueue
  import opened System
  import opened Refinement
  import opened Safety
  import opened Liveness
  import opened Partition

  /** Worker i fetches task i into the calloc'ed buffer at its own offset. */
  function ClientConfig(file: seq<Octet>, n: nat, servers: nat): Config
    requires 0 < n <= |file| && servers > 0
  {
    Config(seq(n, i requires 0 <= i < n =>
             var a := TaskOf(|file|, n, servers, i);
             Session(file, a.offset, a.size, a.server, 0, a.offset)),
           servers, |file|)
  }

  /** The sessions of a client, as tasks. */
  ghost function TasksIn(c: Config): seq<Task> {
    seq(|c.sessions|, k requires 0 <= k < |c.sessions| =>
      Task(c.sessions[k].server, c.sessions[k].offset, c.sessions[k].size))
  }

  /** The sessions of a client are the partition of the file, each stored at its own offset. */
  lemma ConfigSplits(file: seq<Octet>, n: nat, servers: nat)
    requires 0 < n <= |file| && servers > 0
    ensures var c := ClientConfig(file, n, servers);
            && |c.sessions| == n && c.memory == |file| && Splits(TasksIn(c), |file|, servers)
            && forall k :: 0 <= k < n ==> c.sessions[k].file == file && c.sessions[k].base == c.sessions[k].offset
  {
    PlanSplits(|file|, n, servers, TasksIn(ClientConfig(file, n, servers)));
  }

  lemma ClientConfigValid(file: seq<Octet>, n: nat, servers: nat)
    requires 0 < n <= |file| && servers > 0
    ensures ClientConfig(file, n, servers).Valid()
  {
    var c := ClientConfig(file, n, servers);
    forall k | 0 <= k < n
      ensures c.sessions[k].Valid() && c.sessions[k].server < servers
              && c.sessions[k].base + c.sessions[k].size <= c.memory
    {
      Contiguous(|file|, n, servers, k);
    }
    forall j, k | 0 <= j < k < n ensures Apart(c.sessions[j], c.sessions[k]) {
      Ordered(|file|, n, servers, j, k);
    }
  }

  /** The part of the buffer that belongs to worker k. */
  ghost function PartOf(c: Config, memory: seq<Octet>, k: nat): seq<Octet>
    requires c.Sound() && k < |c.sessions| && |memory| == c.memory
  {
    memory[c.sessions[k].base..c.sessions[k].base + c.sessions[k].size]
  }

  /** The buffer holds the file if and only if every part of it holds its chunk. */
  lemma SlicesMakeFile(file: seq<Octet>, n: nat, servers: nat, memory: seq<Octet>)
    requires 0 < n <= |file| == |memory| && servers > 0
    requires ClientConfig(file, n, servers).Valid()
    ensures var c := ClientConfig(file, n, servers);
            memory == file <==> forall k :: 0 <= k < n ==> PartOf(c, memory, k) == c.sessions[k].Chunk()
  {
    var c := ClientConfig(file, n, servers);
    if forall k :: 0 <= k < n ==> PartOf(c, memory, k) == c.sessions[k].Chunk() {
      forall x | 0 <= x < |file| ensures memory[x] == file[x] {
        var k := Covered(|file|, n, servers, x);
        var sess := c.sessions[k];
        assert PartOf(c, memory, k)[x - sess.base] == sess.Chunk()[x - sess.offset];
      }
    }
  }

  /** If every worker ends in success, whatever was lost or delayed on the way, the output is the file. */
  lemma SuccessMeansFile(file: seq<Octet>, n: nat, servers: nat, ls: seq<Label>)
    requires 0 < n <= |file| && servers > 0
    requires var c := ClientConfig(file, n, servers);
             System.RunOk(c, Init(c), ls) && AllSucceeded(System.Exec(c, Init(c), ls))
    ensures var c := ClientConfig(file, n, servers);
            System.Exec(c, Init(c), ls).memory == file
  {
    var c := ClientConfig(file, n, servers);
    ClientConfigValid(file, n, servers);
    var s := System.Exec(c, Init(c), ls);
    forall k | 0 <= k < n ensures Shape(c, s) && PartOf(c, s.memory, k) == c.sessions[k].Chunk() {
      SlicesArePrefixes(c, ls, k);
    }
    SlicesMakeFile(file, n, servers, s.memory);
  }

  /** A client with at most five connections for each server has at most five sessions on each. */
  lemma FiveForEachServer(file: seq<Octet>, n: nat, servers: nat)
    requires 0 < n <= |file| && servers > 0
    ensures n <= 5 * servers <==> FewSessions(ClientConfig(file, n, servers))
  {
    var c := ClientConfig(file, n, servers);
    forall v | 0 <= v < servers ensures SessionsOf(c, v) == Assigned(n, servers, v) {
    }
    if n <= 5 * servers {
      forall v | 0 <= v < servers ensures |SessionsOf(c, v)| <= 5 {
        AtMost(n, servers, v, 5);
      }
    } else {
      MoreThan(n, servers, 5);
      assert |SessionsOf(c, 0)| > 5;
    }
  }

  ghost predicate NobodyGivesUp(n: nat, ls: seq<Label>) {
    forall k :: 0 <= k < n ==> Silence(ls, k, 0) <= 5
  }

  lemma MaximalSucceeds(file: seq<Octet>, n: nat, servers: nat, ls: seq<Label>)
    requires 0 < n <= |file| && servers > 0 && NobodyGivesUp(n, ls)
    requires var c := ClientConfig(file, n, servers);
             && c.Valid() && CleanRun(c, Init(c), ls) && System.RunOk(c, Init(c), ls)
             && Maximal(c, System.Exec(c, Init(c), ls))
    ensures var c := ClientConfig(file, n, servers);
            AllSucceeded(System.Exec(c, Init(c), ls))
  {
    var c := ClientConfig(file, n, servers);
    var s := System.Exec(c, Init(c), ls);
    MaximalRunsDeliver(c, ls, 0);
    forall k | 0 <= k < n ensures s.workers[k].phase.Succeeded? {
      MaximalRunsDeliver(c, ls, k);
    }
  }

  /**
    Runs without faults are bounded.  One that can only go on with a fault or a
    timeout, and in which no worker timed out six times in a row, ends with the
    file.
   */
  lemma LosslessRunsDeliverTheFile(file: seq<Octet>, n: nat, servers: nat, ls: seq<Label>)
    requires 0 < n <= |file| && servers > 0
    requires var c := ClientConfig(file, n, servers);
             CleanRun(c, Init(c), ls) && System.RunOk(c, Init(c), ls)
    ensures var c := ClientConfig(file, n, servers);
            && |ls| <= StepBound(c)
            && (Maximal(c, System.Exec(c, Init(c), ls)) && NobodyGivesUp(n, ls) ==>
                  System.Exec(c, Init(c), ls).memory == file)
  {
    var c := ClientConfig(file, n, servers);
    ClientConfigValid(file, n, servers);
    var _ := CleanRunsProgress(c, ls);
    if Maximal(c, System.Exec(c, Init(c), ls)) && NobodyGivesUp(n, ls) {
      MaximalSucceeds(file, n, servers, ls);
      SuccessMeansFile(file, n, servers, ls);
    }
  }

  /**
    With at most five connections for each server the queues need no mention: a
    run without lost datagrams, failing calls and spurious wake-ups is bounded,
    and when only those and timeouts are left the output is the file, unless some
    worker timed out six times in a row.
   */
  lemma FiveForEachServerDeliver(file: seq<Octet>, n: nat, servers: nat, ls: seq<Label>)
    requires 0 < n <= |file| && servers > 0 && n <= 5 * servers
    requires var c := ClientConfig(file, n, servers); System.RunOk(c, Init(c), ls)
    requires forall i :: 0 <= i < |ls| ==> !Mishap(ls[i])
    ensures var c := ClientConfig(file, n, servers);
            var s := System.Exec(c, Init(c), ls);
            && |ls| <= StepBound(c)
            && (NobodyGivesUp(n, ls) && (forall l :: System.Enabled(c, s, l) ==> Mishap(l) || l.TimesOut?) ==>
                  s.memory == file)
  {
    var c := ClientConfig(file, n, servers);
    ClientConfigValid(file, n, servers);
    FiveForEachServer(file, n, servers);
    InvInit(c);
    NoMishapIsClean(c, Init(c), NoTokens(c), ls);
    LosslessRunsDeliverTheFile(file, n, servers, ls);
    if forall l :: System.Enabled(c, System.Exec(c, Init(c), ls), l) ==> Mishap(l) || l.TimesOut? {
      NoMishapIsMaximal(c, ls);
    }
  }
}
