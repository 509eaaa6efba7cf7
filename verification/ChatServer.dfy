/**
  The shared arrays of irc/server.c and the critical sections of its handlers,
  as they work in place.  Each section is proved to do what the Rendezvous
  module says about it.
 */
module ChatServer {
  import opened Octets
  import opened Rendezvous

  /** `Overrun`: the source would go past an array, or use an index it has not set. */
  datatype Answer = Accepted | Refused | Overrun

  class Server {
    const clients: array<Client>
    var clientCount: nat
    const waiting: array<string>
    var waitingCount: nat

    ghost predicate Valid()
      reads this
    {
      && clients.Length == MAX_CLIENTS && clientCount <= MAX_CLIENTS
      && waiting.Length == MAX_WAITING && waitingCount <= MAX_WAITING
    }

    ghost function Contents(): Board
      reads this, clients, waiting
      requires Valid()
    {
      Board(clients[..], clientCount, waiting[..waitingCount])
    }

    constructor ()
      ensures Valid() && fresh(clients) && fresh(waiting)
      ensures Contents() == Init().board
    {
      clients := new Client[MAX_CLIENTS](_ => Client("", 0, 0));
      clientCount := 0;
      waiting := new string[MAX_WAITING](_ => "");
      waitingCount := 0;
      new;
      assert clients[..] == Init().board.slots;
    }

    method Register(socket: int, id: string) returns (answer: Answer)
      requires Valid()
      modifies this, clients
      ensures Valid()
      ensures answer == if Registered(old(Contents()), id) then Refused
                        else if old(clientCount) == 100 then Overrun else Accepted
      ensures answer.Accepted? ==> clientCount == old(clientCount) + 1 && clients[old(clientCount)] == Client(id, socket, -1)
      ensures Contents() == if answer.Overrun? then old(Contents()) else Admit(old(Contents()), socket, id)
    {
      var i := 0;
      while i < clientCount
        invariant 0 <= i <= clientCount
        invariant forall j :: 0 <= j < i ==> clients[j].id != id
      {
        if clients[i].id == id {
          return Refused;
        }
        i := i + 1;
      }
      if clientCount == MAX_CLIENTS {
        return Overrun;
      }
      clients[clientCount] := Client(id, socket, -1);
      clientCount := clientCount + 1;
      answer := Accepted;
    }

    method Deregister(socket: int)
      requires Valid()
      modifies this, clients
      ensures Valid()
      ensures Contents() == Expel(old(Contents()), socket)
    {
      var i := 0;
      while i < clientCount
        invariant 0 <= i <= clientCount && clientCount == old(clientCount)
        invariant clients[..] == old(clients[..])
        invariant forall j :: 0 <= j < i ==> clients[j].socket != socket
      {
        if clients[i].socket == socket {
          assert FindSocket(clients[..][..clientCount], socket) == i;
          clients[i] := clients[clientCount - 1];
          clientCount := clientCount - 1;
          return;
        }
        i := i + 1;
      }
      assert FindSocket(clients[..][..clientCount], socket) == clientCount;
    }

    /** The search that precedes every change of the waiting list. */
    method FindWaiting(id: string) returns (i: nat)
      requires Valid()
      ensures i == IndexOf(Contents().waiting, id)
    {
      i := 0;
      while i < waitingCount
        invariant 0 <= i <= waitingCount
        invariant forall j :: 0 <= j < i ==> waiting[j] != id
      {
        if waiting[i] == id {
          break;
        }
        i := i + 1;
      }
      assert forall j :: 0 <= j < i ==> waiting[..waitingCount][j] == waiting[j];
    }

    method BeginWait(id: string, port: int) returns (answer: Answer)
      requires Valid()
      modifies this, clients, waiting
      ensures Valid()
      ensures answer == if id in old(Contents()).waiting || port <= 0 then Refused
                        else if old(waitingCount) == 100 then Overrun else Accepted
      ensures waiting[..waitingCount] == old(waiting[..waitingCount]) + if answer.Accepted? then [id] else []
      ensures answer.Accepted? ==> clients[old(waitingCount)] == old(clients[waitingCount]).(port := port)
      ensures Contents() == if answer.Overrun? then old(Contents()) else Enlist(old(Contents()), id, port)
    {
      var i := FindWaiting(id);
      if i < waitingCount || port <= 0 {
        return Refused;
      } else if waitingCount == MAX_WAITING {
        return Overrun;
      }
      waiting[waitingCount] := id;
      clients[waitingCount] := clients[waitingCount].(port := port);
      waitingCount := waitingCount + 1;
      answer := Accepted;
    }

    /** The loop that moves the names behind place `at` down by one. */
    method ShiftDown(at: nat)
      requires Valid() && at < waitingCount
      modifies this`waitingCount, waiting
      ensures Valid() && waitingCount == old(waitingCount) - 1
      ensures waiting[..waitingCount] == RemoveAt(old(waiting[..waitingCount]), at)
    {
      ghost var names := waiting[..waitingCount];
      var i := at;
      while i < waitingCount - 1
        invariant at <= i <= waitingCount - 1 && waitingCount == old(waitingCount)
        invariant forall j :: 0 <= j < at ==> waiting[j] == names[j]
        invariant forall j :: at <= j < i ==> waiting[j] == names[j + 1]
        invariant forall j :: i <= j < waitingCount ==> waiting[j] == names[j]
      {
        waiting[i] := waiting[i + 1];
        i := i + 1;
      }
      waitingCount := waitingCount - 1;
      ghost var rest := names[at + 1..];
      assert forall j :: at <= j < waitingCount ==> waiting[j] == rest[j - at];
    }

    /** `/connect`: the port for the CONNECT reply, or nothing when the target is not waiting. */
    method Connect(target: string) returns (port: Option<int>)
      requires Valid()
      modifies this, waiting
      ensures Valid()
      ensures port == if target in old(Contents()).waiting then Some(Reply(old(Contents()), target)) else None
      ensures Contents() == Delist(old(Contents()), target)
    {
      var i := FindWaiting(target);
      if i == waitingCount {
        return None;
      }
      port := Some(clients[i].port);
      ShiftDown(i);
    }

    /** `/stop_wait`: the source looks for the client's place and does not notice when there is none. */
    method StopWait(id: string) returns (answer: Answer)
      requires Valid()
      modifies this, waiting
      ensures Valid()
      ensures answer == if id in old(Contents()).waiting then Accepted else Overrun
      ensures Contents() == Delist(old(Contents()), id)
    {
      var i := FindWaiting(id);
      if i == waitingCount {
        return Overrun;
      }
      ShiftDown(i);
      answer := Accepted;
    }
  }
}
