/**
  How a client splits a file among its connections.  The same code stands in
  tftp/client.c and ftp/client.c: equal chunks, the last one takes the rest,
  servers in turn.  Machine arithmetic is written out: int is 32 bits wide,
  size_t 64.
 */
module Partition {
  import opened Octets

  const HALF_WORD: int := 0x1_0000_0000
  /** ftell returns a long, so no file is reported larger than this. */
  const FILE_MAX: int := 0x7fff_ffff_ffff_ffff

  /** Conversion to size_t: the value in range that differs by a multiple of 2^64. */
  function U64(x: int): (r: nat)
    ensures r < 0x1_0000_0000_0000_0000 && (x - r) % 0x1_0000_0000_0000_0000 == 0
  {
    x % WORD
  }

  /** Conversion to int: the value in range that differs by a multiple of 2^32. */
  function I32(x: int): (r: int)
    ensures -0x8000_0000 <= r < 0x8000_0000 && (x - r) % 0x1_0000_0000 == 0
  {
    var y := x % HALF_WORD;
    if y < HALF_WORD / 2 then y else y - HALF_WORD
  }

  /** An int stays as it is. */
  lemma IntKept(x: int)
    requires -0x8000_0000 <= x < 0x8000_0000
    ensures I32(x) == x
  {
  }

  datatype Task = Task(server: nat, offset: nat, size: nat)

  /** The comparison converts the count to size_t, so a negative count counts as a huge one. */
  function Connections(fileSize: nat, requested: int): int {
    if U64(requested) > fileSize then I32(fileSize) else requested
  }

  /** The server's test of a request against the file it has (tftp/server.c:84, ftp/server.c:91). */
  predicate RangeAccepted(offset: nat, size: nat, fileSize: nat) {
    !(offset >= fileSize || U64(offset + size) > fileSize)
  }

  /** Task i of n, in unbounded arithmetic. */
  function TaskOf(fileSize: nat, n: nat, servers: nat, i: nat): Task
    requires i < n <= fileSize && servers > 0
  {
    var chunk := fileSize / n;
    Task(i % servers, i * chunk, if i == n - 1 then fileSize - chunk * i else chunk)
  }

  /** The guard refuses exactly what reaches beyond the file, for offsets and sizes that can be those of a file. */
  lemma GuardIsRange(offset: nat, size: nat, fileSize: nat)
    requires offset <= 0x7fff_ffff_ffff_ffff && size <= 0x7fff_ffff_ffff_ffff
    ensures RangeAccepted(offset, size, fileSize) <==> offset < fileSize && offset + size <= fileSize
  {
    assert U64(offset + size) == offset + size;
  }

  lemma MulMono(a: nat, b: nat, k: nat)
    requires a <= b
    ensures a * k <= b * k
  {
  }

  lemma ChunkFits(fileSize: nat, n: nat)
    requires 0 < n <= fileSize
    ensures fileSize / n >= 1 && n * (fileSize / n) <= fileSize
  {
    assert fileSize == n * (fileSize / n) + fileSize % n;
  }

  /** Tasks are not empty and follow each other from 0 to the end of the file. */
  lemma Contiguous(fileSize: nat, n: nat, servers: nat, i: nat)
    requires i < n <= fileSize && servers > 0
    ensures var a := TaskOf(fileSize, n, servers, i);
            && a.size >= 1 && a.offset + a.size <= fileSize
            && (i == 0 ==> a.offset == 0)
            && (i + 1 < n ==> a.offset + a.size == TaskOf(fileSize, n, servers, i + 1).offset)
            && (i + 1 == n ==> a.offset + a.size == fileSize)
  {
    var chunk := fileSize / n;
    ChunkFits(fileSize, n);
    MulMono(i + 1, n, chunk);
    assert (i + 1) * chunk == i * chunk + chunk;
  }

  /** All tasks but the last have the same size, and the last one takes the remainder of the division as well. */
  lemma EvenSplit(fileSize: nat, n: nat, servers: nat, i: nat)
    requires i < n <= fileSize && servers > 0
    ensures var a := TaskOf(fileSize, n, servers, i);
            && a.offset == i * (fileSize / n)
            && a.size == fileSize / n + if i == n - 1 then fileSize % n else 0
  {
    var chunk := fileSize / n;
    assert fileSize == n * chunk + fileSize % n;
    assert n * chunk == (n - 1) * chunk + chunk;
    assert chunk * (n - 1) == (n - 1) * chunk;
  }

  /** The servers of the list take turns, and the first task goes to the first. */
  lemma ServersInTurn(fileSize: nat, n: nat, servers: nat, i: nat)
    requires i < n <= fileSize && servers > 0
    ensures var v := TaskOf(fileSize, n, servers, i).server;
            && v < servers && (i == 0 ==> v == 0)
            && (i + 1 < n ==> TaskOf(fileSize, n, servers, i + 1).server == if v + 1 == servers then 0 else v + 1)
  {
    var q, v := i / servers, i % servers;
    assert i == servers * q + v;
    if v + 1 == servers {
      assert servers * (q + 1) == servers * q + servers;
      DivUnique(i + 1, servers, q + 1, 0);
    } else {
      DivUnique(i + 1, servers, q, v + 1);
    }
  }

  /** Different tasks do not overlap. */
  lemma Ordered(fileSize: nat, n: nat, servers: nat, i: nat, j: nat)
    requires i < j < n <= fileSize && servers > 0
    ensures var a := TaskOf(fileSize, n, servers, i);
            a.offset + a.size <= TaskOf(fileSize, n, servers, j).offset
  {
    var chunk := fileSize / n;
    MulMono(i + 1, j, chunk);
    assert (i + 1) * chunk == i * chunk + chunk;
  }

  /** Every byte of the file belongs to a task. */
  lemma {:induction false} Covered(fileSize: nat, n: nat, servers: nat, x: nat) returns (i: nat)
    requires 0 < n <= fileSize && servers > 0 && x < fileSize
    ensures i < n
    ensures TaskOf(fileSize, n, servers, i).offset <= x
                 < TaskOf(fileSize, n, servers, i).offset + TaskOf(fileSize, n, servers, i).size
  {
    i := 0;
    while i < n && x >= TaskOf(fileSize, n, servers, i).offset + TaskOf(fileSize, n, servers, i).size
      invariant 0 <= i <= n
      invariant i < n ==> TaskOf(fileSize, n, servers, i).offset <= x
      invariant i == n ==> fileSize <= x
    {
      Contiguous(fileSize, n, servers, i);
      i := i + 1;
    }
  }

  /** The range of an int. */
  predicate IsInt(x: int) {
    -0x8000_0000 <= x < 0x8000_0000
  }

  /** The effective number of connections for every request that atoi can deliver. */
  lemma EffectiveConnections(fileSize: nat, requested: int)
    requires fileSize <= FILE_MAX && IsInt(requested)
    ensures Connections(fileSize, requested)
            == if requested < 0 then I32(fileSize) else if requested > fileSize then fileSize else requested
  {
    if requested >= 0 {
      assert U64(requested) == requested;
    } else {
      assert U64(requested) == WORD + requested;
    }
  }

  /**
    A partition of a file that is not empty is possible exactly for a positive
    request, or for a negative one when the size is positive as an int.  In all other cases the program
    divides by zero, or declares an array of negative length.
   */
  lemma PartitionPossible(fileSize: nat, requested: int)
    requires 1 <= fileSize <= FILE_MAX && IsInt(requested)
    ensures 1 <= Connections(fileSize, requested) <= fileSize
            <==> requested >= 1 || (requested < 0 && I32(fileSize) >= 1)
    ensures Connections(fileSize, requested) <= fileSize
  {
    EffectiveConnections(fileSize, requested);
  }

  /** None of the loop's 64-bit operations wraps. */
  lemma NoWrap(fileSize: nat, n: nat, servers: nat, i: nat)
    requires i < n <= fileSize <= FILE_MAX && servers > 0
    ensures var a := TaskOf(fileSize, n, servers, i);
            var chunk := fileSize / n;
            && U64(i * chunk) == a.offset && U64(chunk * i) == a.offset
            && U64(fileSize - a.offset) == fileSize - a.offset
            && 0 < a.size && U64(a.offset + a.size) == a.offset + a.size <= fileSize
            && RangeAccepted(a.offset, a.size, fileSize)
  {
    Contiguous(fileSize, n, servers, i);
    var chunk := fileSize / n;
    assert chunk * i == i * chunk == TaskOf(fileSize, n, servers, i).offset;
    InRange(i * chunk);
    InRange(fileSize - i * chunk);
    InRange(i * chunk + TaskOf(fileSize, n, servers, i).size);
  }

  lemma InRange(x: nat)
    requires x <= FILE_MAX
    ensures U64(x) == x
  {
  }

  /** How main gets through the partition: all DownloadTasks made, ended by its own check, or undefined. */
  datatype Outcome = Planned | Rejected | Undefined

  /** The body of the loop of main, in machine arithmetic, with the check that would end the program. */
  method MakeTask(fileSize: nat, n: nat, servers: nat, chunk: nat, i: nat) returns (valid: bool, task: Task)
    requires i < n <= fileSize <= FILE_MAX && servers > 0 && chunk == fileSize / n
    ensures valid && task == TaskOf(fileSize, n, servers, i)
    ensures RangeAccepted(task.offset, task.size, fileSize)
  {
    NoWrap(fileSize, n, servers, i);
    var offset := U64(i * chunk);
    var size := if i == n - 1 then U64(fileSize - U64(chunk * i)) else chunk;
    task := Task(i % servers, offset, size);
    valid := !(size <= 0 || U64(offset + size) > fileSize);
  }

  /**
    Tasks that make up a file: equal sizes, the remainder of the division in the
    last one, each task behind the one before it, and the servers in turn.
   */
  ghost predicate Splits(tasks: seq<Task>, fileSize: nat, servers: nat) {
    && |tasks| > 0 && tasks[0].server == 0 && tasks[0].offset == 0
    && (forall i, j :: 0 <= i < j < |tasks| && j == i + 1 ==>
          && tasks[i].size == fileSize / |tasks|
          && tasks[j].offset == tasks[i].offset + tasks[i].size
          && tasks[j].server == if tasks[i].server + 1 == servers then 0 else tasks[i].server + 1)
    && tasks[|tasks| - 1].size == fileSize / |tasks| + fileSize % |tasks|
  }

  lemma PlanSplits(fileSize: nat, n: nat, servers: nat, tasks: seq<Task>)
    requires 1 <= n <= fileSize && servers > 0 && |tasks| == n
    requires forall i :: 0 <= i < n ==> tasks[i] == TaskOf(fileSize, n, servers, i)
    ensures Splits(tasks, fileSize, servers)
  {
    ServersInTurn(fileSize, n, servers, 0);
    Contiguous(fileSize, n, servers, 0);
    EvenSplit(fileSize, n, servers, n - 1);
    forall i, j | 0 <= i < j < n && j == i + 1
      ensures tasks[i].size == fileSize / n && tasks[j].offset == tasks[i].offset + tasks[i].size
      ensures tasks[j].server == if tasks[i].server + 1 == servers then 0 else tasks[i].server + 1
    {
      ServersInTurn(fileSize, n, servers, i);
      Contiguous(fileSize, n, servers, i);
      EvenSplit(fileSize, n, servers, i);
    }
  }

  /**
    The loop of main.  It makes the intended DownloadTasks exactly when a partition
    is possible; then no product or sum wraps, and the check that would end the
    program never fires.
   */
  method Plan(fileSize: nat, requested: int, servers: nat) returns (outcome: Outcome, tasks: array<Task>)
    requires fileSize <= 0x7fff_ffff_ffff_ffff && servers > 0 && IsInt(requested)
    ensures outcome == if fileSize == 0 then Rejected
                       else if requested >= 1 || (requested < 0 && I32(fileSize) >= 1) then Planned
                       else Undefined
    ensures outcome == Planned ==>
              && tasks.Length == Connections(fileSize, requested) <= fileSize
              && forall i :: 0 <= i < tasks.Length ==>
                   && tasks[i] == TaskOf(fileSize, tasks.Length, servers, i)
                   && RangeAccepted(tasks[i].offset, tasks[i].size, fileSize)
    ensures outcome == Planned ==> Splits(tasks[..], fileSize, servers)
  {
    tasks := new Task[0];
    if fileSize <= 0 {
      return Rejected, tasks;
    }
    PartitionPossible(fileSize, requested);
    var n := Connections(fileSize, requested);
    if n <= 0 {
      return Undefined, tasks;
    }
    ChunkFits(fileSize, n);
    var chunk := fileSize / n;
    if chunk < 1 {
      chunk := 1;
    }
    tasks := new Task[n](_ => Task(0, 0, 0));
    var i := 0;
    while i < n
      invariant 0 <= i <= n
      invariant forall k :: 0 <= k < i ==>
                  tasks[k] == TaskOf(fileSize, n, servers, k)
                  && RangeAccepted(tasks[k].offset, tasks[k].size, fileSize)
    {
      var valid, task := MakeTask(fileSize, n, servers, chunk, i);
      tasks[i] := task;
      if !valid {
        return Rejected, tasks;
      }
      i := i + 1;
    }
    outcome := Planned;
    PlanSplits(fileSize, n, servers, tasks[..]);
  }

  // ------------------------------------------------------------------
  // Round robin
  // ------------------------------------------------------------------

  ghost function Assigned(n: nat, servers: nat, v: nat): set<nat>
    requires servers > 0
  {
    set i | 0 <= i < n && i % servers == v
  }

  lemma DivUnique(x: nat, m: nat, q: nat, r: nat)
    requires m > 0 && x == m * q + r && r < m
    ensures x / m == q && x % m == r
  {
    var p := x / m;
    assert x == m * p + x % m;
    if p < q {
      MulMono(p + 1, q, m);
    } else if q < p {
      MulMono(q + 1, p, m);
    }
  }

  lemma DivNext(x: nat, m: nat)
    requires m > 0
    ensures (x + 1) / m == x / m + if (x + 1) % m == 0 then 1 else 0
  {
    var q, r := x / m, x % m;
    if r + 1 < m {
      DivUnique(x + 1, m, q, r + 1);
    } else {
      assert m * (q + 1) == m * q + m;
      DivUnique(x + 1, m, q + 1, 0);
    }
  }

  lemma ShiftedMultiple(n: nat, m: nat, v: nat)
    requires v < m
    ensures (n + m - v) % m == 0 <==> n % m == v
  {
    var q, r := n / m, n % m;
    if r >= v {
      assert m * (q + 1) == m * q + m;
      if r == v { DivUnique(n + m - v, m, q + 1, 0); } else { DivUnique(n + m - v, m, q + 1, r - v); }
    } else {
      DivUnique(n + m - v, m, q, m + r - v);
    }
  }

  /** The tasks that go to server v. */
  ghost function TasksOf(fileSize: nat, n: nat, servers: nat, v: nat): set<nat>
    requires n <= fileSize && servers > 0
  {
    set i | 0 <= i < n && TaskOf(fileSize, n, servers, i).server == v
  }

  /** How many tasks go to server v. */
  lemma RoundRobin(fileSize: nat, n: nat, servers: nat, v: nat)
    requires n <= fileSize && v < servers
    ensures |set i | 0 <= i < n && TaskOf(fileSize, n, servers, i).server == v| == (n + servers - 1 - v) / servers
  {
    assert TasksOf(fileSize, n, servers, v) == Assigned(n, servers, v);
    AssignedCount(n, servers, v);
  }

  lemma {:induction false} AssignedCount(n: nat, servers: nat, v: nat)
    requires v < servers
    ensures |Assigned(n, servers, v)| == (n + servers - 1 - v) / servers
  {
    if n == 0 {
      assert Assigned(n, servers, v) == {};
      DivUnique(servers - 1 - v, servers, 0, servers - 1 - v);
    } else {
      AssignedCount(n - 1, servers, v);
      DivNext(n + servers - 2 - v, servers);
      ShiftedMultiple(n - 1, servers, v);
      if (n - 1) % servers == v {
        assert Assigned(n, servers, v) == Assigned(n - 1, servers, v) + {n - 1};
      } else {
        assert Assigned(n, servers, v) == Assigned(n - 1, servers, v);
      }
    }
  }

  /** The floor or the ceiling of n / servers. */
  lemma FloorOrCeiling(fileSize: nat, n: nat, servers: nat, v: nat)
    requires n <= fileSize && v < servers
    ensures n / servers <= |TasksOf(fileSize, n, servers, v)| <= (n + servers - 1) / servers
  {
    RoundRobin(fileSize, n, servers, v);
    DivMono(n, n + servers - 1 - v, servers);
    DivMono(n + servers - 1 - v, n + servers - 1, servers);
  }

  lemma DivMono(a: nat, b: nat, m: nat)
    requires a <= b && m > 0
    ensures a / m <= b / m
    decreases b - a
  {
    if a < b {
      DivNext(b - 1, m);
      DivMono(a, b - 1, m);
    }
  }

  /** With n <= 5 * servers connections no server gets more than 5 of them. */
  lemma AtMost(n: nat, servers: nat, v: nat, k: nat)
    requires v < servers && n <= k * servers
    ensures |Assigned(n, servers, v)| <= k
  {
    AssignedCount(n, servers, v);
    var x := n + servers - 1 - v;
    DivMono(x, k * servers + servers - 1, servers);
    DivUnique(k * servers + servers - 1, servers, k, servers - 1);
  }

  /** With more than that the first server gets too many. */
  lemma MoreThan(n: nat, servers: nat, k: nat)
    requires servers > 0 && n > k * servers
    ensures |Assigned(n, servers, 0)| > k
  {
    AssignedCount(n, servers, 0);
    DivMono(k * servers + servers, n + servers - 1, servers);
    assert k * servers + servers == servers * (k + 1);
    DivUnique(k * servers + servers, servers, k + 1, 0);
  }
}
