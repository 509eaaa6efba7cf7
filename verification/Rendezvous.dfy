/**
  The chat rendezvous server, irc/server.c: a registry of connected clients, a
  list of clients that wait for a partner, and handlers that change both, one
  critical section at a time and in any order.

  The port of a waiting client is kept in the registry, in the slot with the
  number of its place in the waiting list.  Removing a name from the list moves
  the names behind it but not the ports.
 */
module Rendezvous {

  const MAX_CLIENTS: nat := 100
  const MAX_WAITING: nat := 100

  datatype Client = Client(id: string, socket: int, port: int)

  /** The two shared arrays; slots from `count` on hold whatever was there before. */
  datatype Board = Board(slots: seq<Client>, count: nat, waiting: seq<string>)
  {
    ghost predicate Valid() {
      |slots| == MAX_CLIENTS && count <= MAX_CLIENTS && |waiting| <= MAX_WAITING
    }
  }

  // ------------------------------------------------------------------
  // The critical sections
  // ------------------------------------------------------------------

  /** Index of the first occurrence, or the length. */
  function IndexOf(names: seq<string>, id: string): (i: nat)
    ensures i <= |names|
    ensures i < |names| ==> names[i] == id
    ensures forall j :: 0 <= j < i ==> names[j] != id
    ensures i < |names| <==> id in names
  {
    if names == [] || names[0] == id then 0 else 1 + IndexOf(names[1..], id)
  }

  function FindSocket(slots: seq<Client>, socket: int): (i: nat)
    ensures i <= |slots|
    ensures i < |slots| ==> slots[i].socket == socket
    ensures forall j :: 0 <= j < i ==> slots[j].socket != socket
  {
    if slots == [] || slots[0].socket == socket then 0 else 1 + FindSocket(slots[1..], socket)
  }

  predicate Registered(b: Board, id: string)
    requires b.count <= |b.slots|
  {
    exists i :: 0 <= i < b.count && b.slots[i].id == id
  }

  function RemoveAt<T>(s: seq<T>, i: nat): seq<T>
    requires i < |s|
  {
    s[..i] + s[i + 1..]
  }

  /** Lines 46-62: refuse an id that is taken, else append. */
  function Admit(b: Board, socket: int, id: string): Board
    requires b.count <= |b.slots| && (Registered(b, id) || b.count < |b.slots|)
  {
    if Registered(b, id) then b
    else b.(slots := b.slots[b.count := Client(id, socket, -1)], count := b.count + 1)
  }

  /** Lines 79-87: the last entry takes the place of the one that leaves. */
  function Expel(b: Board, socket: int): Board
    requires b.count <= |b.slots|
  {
    var i := FindSocket(b.slots[..b.count], socket);
    if i == b.count then b
    else b.(slots := b.slots[i := b.slots[b.count - 1]], count := b.count - 1)
  }

  predicate Accepts(b: Board, id: string, port: int) {
    id !in b.waiting && port > 0
  }

  /** Lines 114-142. */
  function Enlist(b: Board, id: string, port: int): Board
    requires Accepts(b, id, port) ==> |b.waiting| < |b.slots|
  {
    if !Accepts(b, id, port) then b
    else
      var k := |b.waiting|;
      b.(waiting := b.waiting + [id], slots := b.slots[k := b.slots[k].(port := port)])
  }

  /** Lines 148-170 and 185-199: take a name off the list. */
  function Delist(b: Board, id: string): Board {
    var i := IndexOf(b.waiting, id);
    if i == |b.waiting| then b else b.(waiting := RemoveAt(b.waiting, i))
  }

  /** The port that a connector of `id` is told. */
  function Reply(b: Board, id: string): int
    requires b.Valid() && id in b.waiting
  {
    b.slots[IndexOf(b.waiting, id)].port
  }

  // ------------------------------------------------------------------
  // Runs
  // ------------------------------------------------------------------

  /** What the server has granted: waits it accepted, CONNECT replies, withdrawals. */
  datatype Grant = Offered(id: string, port: int) | Introduced(id: string, port: int) | Withdrawn(id: string)

  /** `live` gives the client id of every handler by its socket; `log` is the history. */
  datatype State = State(board: Board, live: map<int, string>, log: seq<Grant>)

  datatype Event = Register(socket: int, id: string) | Disconnect(socket: int) | Quit(socket: int)
                 | Wait(socket: int, port: int) | Connect(socket: int, target: string) | StopWait(socket: int)

  function Init(): State {
    State(Board(seq(MAX_CLIENTS, _ => Client("", 0, 0)), 0, []), map[], [])
  }

  /**
    What can happen, short of what the source does not guard against: a new
    client when the registry is full, a new name when the list is, and a
    `/stop_wait` of a client that is not listed.
   */
  predicate Enabled(s: State, e: Event) {
    && |s.board.slots| == MAX_CLIENTS && s.board.count <= MAX_CLIENTS && |s.board.waiting| <= MAX_WAITING
    && match e
       case Register(k, id) => k !in s.live && (Registered(s.board, id) || s.board.count < MAX_CLIENTS)
       case Wait(k, port) => k in s.live && (Accepts(s.board, s.live[k], port) ==> |s.board.waiting| < MAX_WAITING)
       case StopWait(k) => k in s.live && s.live[k] in s.board.waiting
       case _ => e.socket in s.live
  }

  /** `/quit` ends the handler without touching the registry. */
  function Apply(s: State, e: Event): State
    requires Enabled(s, e)
  {
    match e
    case Register(k, id) =>
      if Registered(s.board, id) then s
      else s.(board := Admit(s.board, k, id), live := s.live[k := id])
    case Disconnect(k) => s.(board := Expel(s.board, k), live := s.live - {k})
    case Quit(k) => s.(live := s.live - {k})
    case Wait(k, port) =>
      if !Accepts(s.board, s.live[k], port) then s
      else s.(board := Enlist(s.board, s.live[k], port), log := s.log + [Offered(s.live[k], port)])
    case Connect(k, target) =>
      if target !in s.board.waiting then s
      else s.(board := Delist(s.board, target), log := s.log + [Introduced(target, Reply(s.board, target))])
    case StopWait(k) =>
      s.(board := Delist(s.board, s.live[k]), log := s.log + [Withdrawn(s.live[k])])
  }

  predicate RunOk(s: State, es: seq<Event>)
    decreases |es|
  {
    es == [] || (Enabled(s, es[0]) && RunOk(Apply(s, es[0]), es[1..]))
  }

  function Exec(s: State, es: seq<Event>): State
    requires RunOk(s, es)
    decreases |es|
  {
    if es == [] then s else Exec(Apply(s, es[0]), es[1..])
  }

  // ------------------------------------------------------------------
  // No duplicates
  // ------------------------------------------------------------------

  ghost predicate DistinctNames(names: seq<string>) {
    forall i, j :: 0 <= i < j < |names| ==> names[i] != names[j]
  }

  ghost predicate DistinctIds(b: Board)
    requires b.count <= |b.slots|
  {
    forall i, j :: 0 <= i < j < b.count ==> b.slots[i].id != b.slots[j].id
  }

  ghost predicate Tidy(s: State) {
    s.board.Valid() && DistinctIds(s.board) && DistinctNames(s.board.waiting)
  }

  lemma RemoveAtFacts(names: seq<string>, i: nat)
    requires i < |names| && DistinctNames(names)
    ensures DistinctNames(RemoveAt(names, i))
    ensures forall id :: id in RemoveAt(names, i) <==> id in names && id != names[i]
  {
    var r := RemoveAt(names, i);
    assert forall j :: 0 <= j < |r| ==> r[j] == if j < i then names[j] else names[j + 1];
    forall id ensures id in r <==> id in names && id != names[i] {
      if id in names && id != names[i] {
        var j :| 0 <= j < |names| && names[j] == id;
        assert r[if j < i then j else j - 1] == id;
      }
    }
  }

  lemma TidyStep(s: State, e: Event)
    requires Tidy(s) && Enabled(s, e)
    ensures Tidy(Apply(s, e))
  {
    var b := s.board;
    if e.Connect? && e.target in b.waiting {
      RemoveAtFacts(b.waiting, IndexOf(b.waiting, e.target));
    } else if e.StopWait? {
      RemoveAtFacts(b.waiting, IndexOf(b.waiting, s.live[e.socket]));
    }
  }

  lemma {:induction false} TidyRun(s: State, es: seq<Event>)
    requires Tidy(s) && RunOk(s, es)
    ensures Tidy(Exec(s, es))
    decreases |es|
  {
    if es != [] {
      TidyStep(s, es[0]);
      TidyRun(Apply(s, es[0]), es[1..]);
    }
  }

  /** In every interleaving, registered ids and waiting ids are each without duplicates. */
  lemma NoDuplicates(es: seq<Event>)
    requires RunOk(Init(), es)
    ensures var b := Exec(Init(), es).board;
            b.Valid() && DistinctIds(b) && DistinctNames(b.waiting)
  {
    TidyRun(Init(), es);
  }

  // ------------------------------------------------------------------
  // What the commands do
  // ------------------------------------------------------------------

  /**
    A registration is refused exactly when the id stands in the registry;
    otherwise the client is connected under it and has the next slot, without a
    port.
   */
  lemma RegisterExactly(es: seq<Event>, k: int, id: string)
    requires RunOk(Init(), es) && k !in Exec(Init(), es).live
    ensures var s := Exec(Init(), es);
            var b := s.board;
            && b.Valid()
            && var taken := exists i :: 0 <= i < b.count && b.slots[i].id == id;
               && (Enabled(s, Register(k, id)) <==> taken || b.count < 100)
               && (taken ==> Apply(s, Register(k, id)) == s)
               && (!taken && b.count < 100 ==>
                     var s' := Apply(s, Register(k, id));
                     && s'.live == s.live[k := id] && s'.log == s.log && s'.board.waiting == b.waiting
                     && s'.board.count == b.count + 1 && s'.board.slots == b.slots[b.count := Client(id, k, -1)])
  {
    TidyRun(Init(), es);
  }

  /** A client can leave at any time; only a disconnect touches the registry, and neither touches the list. */
  lemma LeavingExactly(es: seq<Event>, k: int)
    requires RunOk(Init(), es) && k in Exec(Init(), es).live
    ensures var s := Exec(Init(), es);
            && Enabled(s, Quit(k)) && Apply(s, Quit(k)) == s.(live := s.live - {k})
            && Enabled(s, Disconnect(k))
            && var s' := Apply(s, Disconnect(k));
               && s'.live == s.live - {k} && s'.log == s.log && s'.board.waiting == s.board.waiting
               && s'.board.count == s.board.count - 1
  {
    MannedRun(Init(), es);
    assert HasEntry(Exec(Init(), es).board, k, Exec(Init(), es).live[k]);
  }

  /**
    `/wait` is accepted exactly for a positive port and a client that is not
    waiting: its name goes behind all others and the offer is recorded.  Otherwise
    nothing changes.
   */
  lemma WaitExactly(es: seq<Event>, k: int, port: int)
    requires RunOk(Init(), es) && k in Exec(Init(), es).live
    ensures var s := Exec(Init(), es);
            var id, names := s.live[k], s.board.waiting;
            && (Enabled(s, Wait(k, port)) <==> port <= 0 || id in names || |names| < 100)
            && (port <= 0 || id in names ==> Apply(s, Wait(k, port)) == s)
            && (port >= 1 && id !in names && |names| < 100 ==>
                  var s' := Apply(s, Wait(k, port));
                  && s'.board.waiting == names + [id] && s'.log == s.log + [Offered(id, port)]
                  && s'.live == s.live && s'.board.count == s.board.count
                  && s'.board.Valid() && s'.board.slots[|names|].port == port)
  {
    TidyRun(Init(), es);
  }

  /**
    `/connect` takes exactly its target off the list and tells the port in the
    target's slot, and does nothing when the target is not waiting.
   */
  lemma ConnectExactly(es: seq<Event>, k: int, target: string)
    requires RunOk(Init(), es) && k in Exec(Init(), es).live
    ensures var s := Exec(Init(), es);
            && Enabled(s, Connect(k, target))
            && var s' := Apply(s, Connect(k, target));
               if target !in s.board.waiting then s' == s
               else
                 && s'.board.slots == s.board.slots && s'.board.count == s.board.count && s'.live == s.live
                 && (forall id :: id in s'.board.waiting <==> id in s.board.waiting && id != target)
                 && exists i :: 0 <= i < |s.board.waiting| && s.board.waiting[i] == target && i < |s.board.slots|
                      && s'.board.waiting == s.board.waiting[..i] + s.board.waiting[i + 1..]
                      && s'.log == s.log + [Introduced(target, s.board.slots[i].port)]
  {
    TidyRun(Init(), es);
    var s := Exec(Init(), es);
    if target in s.board.waiting {
      var i := IndexOf(s.board.waiting, target);
      RemoveAtFacts(s.board.waiting, i);
      assert s.board.waiting[i] == target;
    }
  }

  /** `/stop_wait` of a waiting client takes exactly that client off the list. */
  lemma StopWaitExactly(es: seq<Event>, k: int)
    requires RunOk(Init(), es) && k in Exec(Init(), es).live
    ensures var s := Exec(Init(), es);
            && (Enabled(s, StopWait(k)) <==> s.live[k] in s.board.waiting)
            && (s.live[k] in s.board.waiting ==>
                  var s' := Apply(s, StopWait(k));
                  && s'.board.slots == s.board.slots && s'.live == s.live && s'.log == s.log + [Withdrawn(s.live[k])]
                  && (forall id :: id in s'.board.waiting <==> id in s.board.waiting && id != s.live[k]))
  {
    TidyRun(Init(), es);
    var s := Exec(Init(), es);
    if s.live[k] in s.board.waiting {
      RemoveAtFacts(s.board.waiting, IndexOf(s.board.waiting, s.live[k]));
    }
  }

  // ------------------------------------------------------------------
  // Every offer is used at most once
  // ------------------------------------------------------------------

  function Offers(log: seq<Grant>, id: string): nat {
    if log == [] then 0
    else Offers(log[..|log| - 1], id) + if log[|log| - 1].Offered? && log[|log| - 1].id == id then 1 else 0
  }

  function Introductions(log: seq<Grant>, id: string): nat {
    if log == [] then 0
    else Introductions(log[..|log| - 1], id) + if log[|log| - 1].Introduced? && log[|log| - 1].id == id then 1 else 0
  }

  function Withdrawals(log: seq<Grant>, id: string): nat {
    if log == [] then 0
    else Withdrawals(log[..|log| - 1], id) + if log[|log| - 1] == Withdrawn(id) then 1 else 0
  }

  ghost predicate Balanced(s: State, id: string) {
    Offers(s.log, id) == Introductions(s.log, id) + Withdrawals(s.log, id) + if id in s.board.waiting then 1 else 0
  }

  lemma CountAppend(log: seq<Grant>, g: Grant, id: string)
    ensures Offers(log + [g], id) == Offers(log, id) + if g.Offered? && g.id == id then 1 else 0
    ensures Introductions(log + [g], id) == Introductions(log, id) + if g.Introduced? && g.id == id then 1 else 0
    ensures Withdrawals(log + [g], id) == Withdrawals(log, id) + if g == Withdrawn(id) then 1 else 0
  {
    assert (log + [g])[..|log|] == log;
  }

  /** A change of the list together with the log entry it comes with. */
  lemma BalancedGrant(s: State, s': State, g: Grant, id: string)
    requires Balanced(s, id) && s'.log == s.log + [g]
    requires g.id != id ==> (id in s'.board.waiting <==> id in s.board.waiting)
    requires g.id == id ==> if g.Offered? then id !in s.board.waiting && id in s'.board.waiting
                            else id in s.board.waiting && id !in s'.board.waiting
    ensures Balanced(s', id)
  {
    CountAppend(s.log, g, id);
  }

  lemma BalancedDelist(s: State, s': State, g: Grant, id: string)
    requires DistinctNames(s.board.waiting) && Balanced(s, id) && !g.Offered? && g.id in s.board.waiting
    requires s'.board == Delist(s.board, g.id) && s'.log == s.log + [g]
    ensures Balanced(s', id)
  {
    RemoveAtFacts(s.board.waiting, IndexOf(s.board.waiting, g.id));
    BalancedGrant(s, s', g, id);
  }

  lemma BalancedStep(s: State, e: Event, id: string)
    requires Tidy(s) && Balanced(s, id) && Enabled(s, e)
    ensures Balanced(Apply(s, e), id)
  {
    if e.Connect? && e.target in s.board.waiting {
      BalancedDelist(s, Apply(s, e), Introduced(e.target, Reply(s.board, e.target)), id);
    } else if e.StopWait? {
      BalancedDelist(s, Apply(s, e), Withdrawn(s.live[e.socket]), id);
    } else if e.Wait? && Accepts(s.board, s.live[e.socket], e.port) {
      BalancedGrant(s, Apply(s, e), Offered(s.live[e.socket], e.port), id);
    } else {
      assert Apply(s, e).log == s.log && Apply(s, e).board.waiting == s.board.waiting;
    }
  }

  lemma {:induction false} BalancedRun(s: State, es: seq<Event>, id: string)
    requires Tidy(s) && Balanced(s, id) && RunOk(s, es)
    ensures Balanced(Exec(s, es), id)
    decreases |es|
  {
    if es != [] {
      TidyStep(s, es[0]);
      BalancedStep(s, es[0], id);
      BalancedRun(Apply(s, es[0]), es[1..], id);
    }
  }

  /**
    Conservation: over every run and for every id, the waits accepted are the
    CONNECT replies that name it, its withdrawals, and one more while it is
    listed.  So an offer goes to at most one connector, however connects race.
   */
  lemma OffersAreConserved(es: seq<Event>, id: string)
    requires RunOk(Init(), es)
    ensures var s := Exec(Init(), es);
            && Offers(s.log, id) == Introductions(s.log, id) + Withdrawals(s.log, id)
                                    + (if id in s.board.waiting then 1 else 0)
            && Introductions(s.log, id) + Withdrawals(s.log, id) <= Offers(s.log, id)
  {
    BalancedRun(Init(), es, id);
  }

  // ------------------------------------------------------------------
  // The port that is told
  // ------------------------------------------------------------------

  /**
    Events that move a waiting client away from the slot with its port, or
    overwrite that slot: a name ahead of it leaves the list, a registration
    lands on the slot, or the client registered in the slot is replaced.
   */
  ghost predicate Disturbs(s: State, e: Event, id: string)
    requires Enabled(s, e) && id in s.board.waiting
  {
    var b := s.board;
    var i := IndexOf(b.waiting, id);
    match e
    case Connect(_, target) => target in b.waiting && IndexOf(b.waiting, target) < i
    case StopWait(k) => IndexOf(b.waiting, s.live[k]) < i
    case Register(_, name) => !Registered(b, name) && b.count == i
    case Disconnect(k) => FindSocket(b.slots[..b.count], k) == i < b.count - 1
    case _ => false
  }

  /** The port a connector of `id` is told after an event that disturbs it. */
  ghost function Substitute(s: State, e: Event, id: string): int
    requires Enabled(s, e) && id in s.board.waiting && Disturbs(s, e, id)
  {
    var b := s.board;
    if e.Register? then -1
    else if e.Disconnect? then b.slots[b.count - 1].port
    else b.slots[IndexOf(b.waiting, id) - 1].port
  }

  lemma IndexIs(names: seq<string>, id: string, i: nat)
    requires i < |names| && names[i] == id && DistinctNames(names)
    ensures IndexOf(names, id) == i
  {
  }

  /** Where a name stands after another one was taken off the list. */
  lemma IndexAfterRemoval(names: seq<string>, id: string, k: nat)
    requires k < |names| && id in names && names[k] != id && DistinctNames(names)
    ensures id in RemoveAt(names, k)
    ensures IndexOf(RemoveAt(names, k), id) == IndexOf(names, id) - if k < IndexOf(names, id) then 1 else 0
  {
    RemoveAtFacts(names, k);
    var i := IndexOf(names, id);
    IndexIs(RemoveAt(names, k), id, if k < i then i - 1 else i);
  }

  /** What an event does to the place of a client that stays listed. */
  lemma PlaceAfter(s: State, e: Event, id: string)
    requires Tidy(s) && Enabled(s, e) && id in s.board.waiting && id in Apply(s, e).board.waiting
    ensures IndexOf(Apply(s, e).board.waiting, id)
            == IndexOf(s.board.waiting, id) - if (e.Connect? || e.StopWait?) && Disturbs(s, e, id) then 1 else 0
  {
    var b := s.board;
    var i := IndexOf(b.waiting, id);
    if e.Connect? && e.target in b.waiting {
      RemoveAtFacts(b.waiting, IndexOf(b.waiting, e.target));
      IndexAfterRemoval(b.waiting, id, IndexOf(b.waiting, e.target));
    } else if e.StopWait? {
      RemoveAtFacts(b.waiting, IndexOf(b.waiting, s.live[e.socket]));
      IndexAfterRemoval(b.waiting, id, IndexOf(b.waiting, s.live[e.socket]));
    } else if e.Wait? && Accepts(b, s.live[e.socket], e.port) {
      TidyStep(s, e);
      IndexIs(b.waiting + [s.live[e.socket]], id, i);
    }
  }

  lemma ReplyKept(s: State, e: Event, id: string)
    requires Tidy(s) && Enabled(s, e) && id in s.board.waiting && id in Apply(s, e).board.waiting
    requires !Disturbs(s, e, id)
    ensures Tidy(Apply(s, e)) && Reply(Apply(s, e).board, id) == Reply(s.board, id)
  {
    TidyStep(s, e);
    PlaceAfter(s, e, id);
  }

  lemma ReplyShifted(s: State, e: Event, id: string)
    requires Tidy(s) && Enabled(s, e) && id in s.board.waiting && id in Apply(s, e).board.waiting
    requires Disturbs(s, e, id) && (e.Connect? || e.StopWait?)
    ensures Tidy(Apply(s, e)) && Reply(Apply(s, e).board, id) == Substitute(s, e, id)
  {
    TidyStep(s, e);
    PlaceAfter(s, e, id);
    assert Apply(s, e).board.slots == s.board.slots;
  }

  lemma ReplyOverwritten(s: State, e: Event, id: string)
    requires Tidy(s) && Enabled(s, e) && id in s.board.waiting
    requires Disturbs(s, e, id) && (e.Register? || e.Disconnect?)
    ensures id in Apply(s, e).board.waiting && Tidy(Apply(s, e))
    ensures Reply(Apply(s, e).board, id) == Substitute(s, e, id)
  {
    TidyStep(s, e);
    assert Apply(s, e).board.waiting == s.board.waiting;
  }

  /**
    The port that a connector would be told changes exactly if the event
    disturbs the client and the slot it is left with holds another port: that of
    the name ahead, that of the last client registered, or the -1 of a new one.
   */
  lemma ReplyChangesIffDisturbed(s: State, e: Event, id: string)
    requires Tidy(s) && Enabled(s, e) && id in s.board.waiting && id in Apply(s, e).board.waiting
    ensures Tidy(Apply(s, e))
    ensures Reply(Apply(s, e).board, id) == if Disturbs(s, e, id) then Substitute(s, e, id) else Reply(s.board, id)
    ensures Reply(Apply(s, e).board, id) != Reply(s.board, id)
            <==> Disturbs(s, e, id) && Substitute(s, e, id) != Reply(s.board, id)
  {
    if Disturbs(s, e, id) {
      if e.Connect? || e.StopWait? {
        ReplyShifted(s, e, id);
      } else {
        ReplyOverwritten(s, e, id);
      }
    } else {
      ReplyKept(s, e, id);
    }
  }

  /** The port in the last offer of `id`. */
  function LastOffer(log: seq<Grant>, id: string): int {
    if log == [] then 0
    else if log[|log| - 1].Offered? && log[|log| - 1].id == id then log[|log| - 1].port
    else LastOffer(log[..|log| - 1], id)
  }

  /** No event of the run disturbs `id` while it is waiting. */
  ghost predicate Undisturbed(s: State, es: seq<Event>, id: string)
    requires RunOk(s, es)
    decreases |es|
  {
    es == [] || (&& (id in s.board.waiting && id in Apply(s, es[0]).board.waiting ==> !Disturbs(s, es[0], id))
                 && Undisturbed(Apply(s, es[0]), es[1..], id))
  }

  ghost predicate TellsLastOffer(s: State, id: string)
    requires s.board.Valid()
  {
    id in s.board.waiting ==> Reply(s.board, id) == LastOffer(s.log, id)
  }

  lemma TellsStep(s: State, e: Event, id: string)
    requires Tidy(s) && Enabled(s, e) && TellsLastOffer(s, id)
    requires id in s.board.waiting && id in Apply(s, e).board.waiting ==> !Disturbs(s, e, id)
    ensures Tidy(Apply(s, e)) && TellsLastOffer(Apply(s, e), id)
  {
    TidyStep(s, e);
    var b, s' := s.board, Apply(s, e);
    if id in s'.board.waiting {
      if s'.log != s.log {
        assert s'.log[..|s'.log| - 1] == s.log;
      }
      if id in b.waiting {
        ReplyKept(s, e, id);
      } else {
        NewcomerWaits(s, e, id);
        IndexIs(s'.board.waiting, id, |b.waiting|);
      }
    }
  }

  /** A name appears on the list only when its own wait is accepted. */
  lemma NewcomerWaits(s: State, e: Event, id: string)
    requires Tidy(s) && Enabled(s, e) && id !in s.board.waiting && id in Apply(s, e).board.waiting
    ensures e.Wait? && s.live[e.socket] == id && Accepts(s.board, id, e.port)
  {
    var b := s.board;
    if e.Connect? && e.target in b.waiting {
      RemoveAtFacts(b.waiting, IndexOf(b.waiting, e.target));
    } else if e.StopWait? {
      RemoveAtFacts(b.waiting, IndexOf(b.waiting, s.live[e.socket]));
    }
  }

  lemma {:induction false} TellsRun(s: State, es: seq<Event>, id: string)
    requires Tidy(s) && RunOk(s, es) && TellsLastOffer(s, id) && Undisturbed(s, es, id)
    ensures Tidy(Exec(s, es)) && TellsLastOffer(Exec(s, es), id)
    decreases |es|
  {
    if es != [] {
      TellsStep(s, es[0], id);
      TellsRun(Apply(s, es[0]), es[1..], id);
    }
  }

  /** In every run that does not disturb a waiting client, its connector is told the port it last announced. */
  lemma UndisturbedPortIsTold(es: seq<Event>, socket: int, id: string)
    requires RunOk(Init(), es) && Undisturbed(Init(), es, id)
    requires Enabled(Exec(Init(), es), Connect(socket, id)) && id in Exec(Init(), es).board.waiting
    ensures var s := Exec(Init(), es);
            Apply(s, Connect(socket, id)).log == s.log + [Introduced(id, LastOffer(s.log, id))]
  {
    TellsRun(Init(), es, id);
  }

  // ------------------------------------------------------------------
  // Who is registered
  // ------------------------------------------------------------------

  ghost predicate HasEntry(b: Board, socket: int, id: string)
    requires b.count <= |b.slots|
  {
    exists i :: 0 <= i < b.count && b.slots[i].socket == socket && b.slots[i].id == id
  }

  /** Every handler has its entry. */
  ghost predicate Manned(s: State)
    requires s.board.Valid()
  {
    forall k :: k in s.live ==> HasEntry(s.board, k, s.live[k])
  }

  /** A disconnect removes the first entry with its socket; after a `/quit` that may be another client's. */
  ghost predicate Removes(s: State, e: Event, id: string)
    requires s.board.Valid()
  {
    e.Disconnect?
    && var i := FindSocket(s.board.slots[..s.board.count], e.socket);
       i < s.board.count && s.board.slots[i].id == id
  }

  /** Expelling a socket removes one entry of that socket at most, and keeps all others. */
  lemma ExpelKeepsOthers(b: Board, socket: int)
    requires b.Valid() && DistinctIds(b)
    ensures Expel(b, socket).Valid()
    ensures forall k, id :: HasEntry(Expel(b, socket), k, id) ==> HasEntry(b, k, id)
    ensures var i := FindSocket(b.slots[..b.count], socket);
            forall k, id :: HasEntry(b, k, id)
              ==> (HasEntry(Expel(b, socket), k, id) <==> !(i < b.count && b.slots[i].id == id))
  {
    var r := Expel(b, socket);
    var i := FindSocket(b.slots[..b.count], socket);
    forall k, id | HasEntry(r, k, id) ensures HasEntry(b, k, id) {
      var j :| 0 <= j < r.count && r.slots[j].socket == k && r.slots[j].id == id;
      assert b.slots[if j == i && i < b.count then b.count - 1 else j] == r.slots[j];
    }
    forall k, id | HasEntry(b, k, id) && !(i < b.count && b.slots[i].id == id) ensures HasEntry(r, k, id) {
      var j :| 0 <= j < b.count && b.slots[j].socket == k && b.slots[j].id == id;
      assert r.slots[if j == b.count - 1 && i < b.count then i else j] == b.slots[j];
    }
    if i < b.count {
      forall k, id | b.slots[i].id == id ensures !HasEntry(r, k, id) {
        assert forall j :: 0 <= j < r.count ==> r.slots[j] == b.slots[if j == i then b.count - 1 else j];
      }
    }
  }

  lemma AdmitAdds(b: Board, socket: int, id: string)
    requires b.Valid() && b.count < MAX_CLIENTS && !Registered(b, id)
    ensures forall k, x :: HasEntry(Admit(b, socket, id), k, x) <==> HasEntry(b, k, x) || (k == socket && x == id)
  {
    var r := Admit(b, socket, id);
    forall k, x | HasEntry(b, k, x) ensures HasEntry(r, k, x) {
      var j :| 0 <= j < b.count && b.slots[j].socket == k && b.slots[j].id == x;
      assert r.slots[j] == b.slots[j];
    }
    assert r.slots[b.count] == Client(id, socket, -1);
    assert forall j :: 0 <= j < b.count ==> r.slots[j] == b.slots[j];
  }

  /** Boards with the same ids and sockets have the same entries. */
  lemma SameEntries(b: Board, r: Board)
    requires b.Valid() && r.Valid() && r.count == b.count
    requires forall i :: 0 <= i < b.count ==> r.slots[i].id == b.slots[i].id && r.slots[i].socket == b.slots[i].socket
    ensures forall x, y :: HasEntry(b, x, y) <==> HasEntry(r, x, y)
  {
    forall x, y ensures HasEntry(b, x, y) <==> HasEntry(r, x, y) {
      if HasEntry(b, x, y) {
        var j :| 0 <= j < b.count && b.slots[j].socket == x && b.slots[j].id == y;
        assert r.slots[j].id == y;
      }
      if HasEntry(r, x, y) {
        var j :| 0 <= j < b.count && r.slots[j].socket == x && r.slots[j].id == y;
        assert b.slots[j].id == y;
      }
    }
  }

  /** An entry is there after an event if it was added by it, or was there and is not the one removed. */
  lemma EntryStep(s: State, e: Event, k: int, id: string)
    requires Tidy(s) && Enabled(s, e)
    ensures Tidy(Apply(s, e))
    ensures HasEntry(Apply(s, e).board, k, id)
            <==> (HasEntry(s.board, k, id) && !Removes(s, e, id))
                 || (e == Register(k, id) && !Registered(s.board, id))
  {
    TidyStep(s, e);
    if e.Disconnect? {
      ExpelKeepsOthers(s.board, e.socket);
    } else if e.Register? {
      if !Registered(s.board, e.id) {
        AdmitAdds(s.board, e.socket, e.id);
      }
    } else {
      SameEntries(s.board, Apply(s, e).board);
    }
  }

  lemma EntryOf(b: Board, id: string) returns (k: int)
    requires b.Valid() && Registered(b, id)
    ensures HasEntry(b, k, id)
  {
    var j :| 0 <= j < b.count && b.slots[j].id == id;
    k := b.slots[j].socket;
  }

  lemma OneEntry(b: Board, k: int, x: int, id: string)
    requires b.Valid() && DistinctIds(b) && HasEntry(b, k, id) && HasEntry(b, x, id)
    ensures k == x
  {
  }

  /** Exactly which ids are taken after an event. */
  lemma RegisteredStep(s: State, e: Event, id: string)
    requires Tidy(s) && Enabled(s, e)
    ensures Tidy(Apply(s, e))
    ensures Registered(Apply(s, e).board, id)
            <==> (Registered(s.board, id) && !Removes(s, e, id)) || (e.Register? && e.id == id)
  {
    TidyStep(s, e);
    if Registered(s.board, id) {
      var k := EntryOf(s.board, id);
      EntryStep(s, e, k, id);
      if Registered(Apply(s, e).board, id) {
        var x := EntryOf(Apply(s, e).board, id);
        EntryStep(s, e, x, id);
        assert !Removes(s, e, id);
      }
    } else {
      if e.Register? && e.id == id {
        EntryStep(s, e, e.socket, id);
      }
      if Registered(Apply(s, e).board, id) {
        var x := EntryOf(Apply(s, e).board, id);
        EntryStep(s, e, x, id);
      }
    }
  }

  /** A disconnect can only remove an entry of its own socket, so every handler keeps its entry. */
  lemma MannedStep(s: State, e: Event)
    requires Tidy(s) && Manned(s) && Enabled(s, e)
    ensures Tidy(Apply(s, e)) && Manned(Apply(s, e))
  {
    TidyStep(s, e);
    var s' := Apply(s, e);
    forall k | k in s'.live ensures HasEntry(s'.board, k, s'.live[k]) {
      EntryStep(s, e, k, s'.live[k]);
    }
  }

  // ------------------------------------------------------------------
  // The id of a client that has quit
  // ------------------------------------------------------------------

  /** No event of the run removes the entry of `id`. */
  ghost predicate NeverRemoved(s: State, es: seq<Event>, id: string)
    requires Tidy(s) && RunOk(s, es)
    decreases |es|
  {
    es == [] || (TidyStep(s, es[0]); !Removes(s, es[0], id) && NeverRemoved(Apply(s, es[0]), es[1..], id))
  }

  /** The id is taken at the start of the run, at its end and in every state between. */
  ghost predicate AlwaysTaken(s: State, es: seq<Event>, id: string)
    requires Tidy(s) && RunOk(s, es)
    decreases |es|
  {
    && Registered(s.board, id)
    && (es != [] ==> (TidyStep(s, es[0]); AlwaysTaken(Apply(s, es[0]), es[1..], id)))
  }

  lemma {:induction false} TakenRun(s: State, es: seq<Event>, k: int, id: string)
    requires Tidy(s) && RunOk(s, es) && HasEntry(s.board, k, id)
    ensures Tidy(Exec(s, es))
    ensures AlwaysTaken(s, es, id) <==> NeverRemoved(s, es, id)
    ensures NeverRemoved(s, es, id) ==> HasEntry(Exec(s, es).board, k, id)
    decreases |es|
  {
    TidyRun(s, es);
    if es != [] {
      var s' := Apply(s, es[0]);
      EntryStep(s, es[0], k, id);
      RegisteredStep(s, es[0], id);
      if !Removes(s, es[0], id) {
        TakenRun(s', es[1..], k, id);
      } else {
        assert !AlwaysTaken(s', es[1..], id);
      }
    }
  }

  /**
    A client that has quit keeps its id taken, and registrations of it refused,
    through exactly those continuations in which its entry is not removed.  Only
    the disconnect of a later client with the same socket number can remove it,
    and the id is free as soon as one does.
   */
  lemma QuitKeepsIdTaken(pre: seq<Event>, k: int, es: seq<Event>)
    requires RunOk(Init(), pre) && Enabled(Exec(Init(), pre), Quit(k))
    requires RunOk(Apply(Exec(Init(), pre), Quit(k)), es)
    ensures var s0 := Apply(Exec(Init(), pre), Quit(k));
            var id := Exec(Init(), pre).live[k];
            var s := Exec(s0, es);
            && Tidy(s0) && Tidy(s) && k !in s0.live
            && (AlwaysTaken(s0, es, id) <==> NeverRemoved(s0, es, id))
            && (NeverRemoved(s0, es, id) ==>
                  && (forall x :: Enabled(s, Register(x, id)) ==> Apply(s, Register(x, id)) == s)
                  && (forall e :: Enabled(s, e) && Removes(s, e, id) ==>
                        e == Disconnect(k) && !Registered(Apply(s, e).board, id)))
  {
    var s1 := Exec(Init(), pre);
    var id := s1.live[k];
    var s0 := Apply(s1, Quit(k));
    MannedRun(Init(), pre);
    TidyStep(s1, Quit(k));
    EntryStep(s1, Quit(k), k, id);
    TakenRun(s0, es, k, id);
    var s := Exec(s0, es);
    if NeverRemoved(s0, es, id) {
      assert Registered(s.board, id);
      forall e | Enabled(s, e) && Removes(s, e, id)
        ensures e == Disconnect(k) && !Registered(Apply(s, e).board, id)
      {
        RegisteredStep(s, e, id);
        OneEntry(s.board, k, e.socket, id);
      }
    }
  }

  lemma {:induction false} MannedRun(s: State, es: seq<Event>)
    requires Tidy(s) && Manned(s) && RunOk(s, es)
    ensures Tidy(Exec(s, es)) && Manned(Exec(s, es))
    decreases |es|
  {
    if es != [] {
      MannedStep(s, es[0]);
      MannedRun(Apply(s, es[0]), es[1..]);
    }
  }

  // ------------------------------------------------------------------
  // Clients that stop waiting before they leave
  // ------------------------------------------------------------------

  ghost predicate ListedAreRegistered(b: Board)
    requires b.Valid()
  {
    forall id :: id in b.waiting ==> Registered(b, id)
  }

  /** The event does not remove the entry of a waiting client. */
  ghost predicate Mild(s: State, e: Event)
    requires s.board.Valid()
  {
    forall id :: id in s.board.waiting ==> !Removes(s, e, id)
  }

  ghost predicate MildRun(s: State, es: seq<Event>)
    requires Tidy(s) && RunOk(s, es)
    decreases |es|
  {
    es == [] || (TidyStep(s, es[0]); Mild(s, es[0]) && MildRun(Apply(s, es[0]), es[1..]))
  }

  /** Everyone on the list is registered, at the start of the run, at its end and between. */
  ghost predicate AlwaysListedRegistered(s: State, es: seq<Event>)
    requires Tidy(s) && RunOk(s, es)
    decreases |es|
  {
    && ListedAreRegistered(s.board)
    && (es != [] ==> (TidyStep(s, es[0]); AlwaysListedRegistered(Apply(s, es[0]), es[1..])))
  }

  /** Exactly the events that are not mild leave a waiting client without an entry. */
  lemma MildStep(s: State, e: Event)
    requires Tidy(s) && Manned(s) && ListedAreRegistered(s.board) && Enabled(s, e)
    ensures Tidy(Apply(s, e))
    ensures ListedAreRegistered(Apply(s, e).board) <==> Mild(s, e)
  {
    TidyStep(s, e);
    var s' := Apply(s, e);
    if Mild(s, e) {
      forall id | id in s'.board.waiting ensures Registered(s'.board, id) {
        RegisteredStep(s, e, id);
        if id !in s.board.waiting {
          NewcomerWaits(s, e, id);
          assert HasEntry(s.board, e.socket, id);
        }
      }
    } else {
      var id :| id in s.board.waiting && Removes(s, e, id);
      RegisteredStep(s, e, id);
    }
  }

  lemma {:induction false} MildRunExact(s: State, es: seq<Event>)
    requires Tidy(s) && Manned(s) && ListedAreRegistered(s.board) && RunOk(s, es)
    ensures AlwaysListedRegistered(s, es) <==> MildRun(s, es)
    ensures Tidy(Exec(s, es)) && (MildRun(s, es) ==> ListedAreRegistered(Exec(s, es).board))
    decreases |es|
  {
    TidyRun(s, es);
    if es != [] {
      MildStep(s, es[0]);
      MannedStep(s, es[0]);
      if Mild(s, es[0]) {
        MildRunExact(Apply(s, es[0]), es[1..]);
      } else {
        assert !AlwaysListedRegistered(Apply(s, es[0]), es[1..]);
      }
    }
  }

  lemma {:induction false} NamesCount(names: seq<string>)
    requires DistinctNames(names)
    ensures |set i | 0 <= i < |names| :: names[i]| == |names|
  {
    if names != [] {
      var rest := names[..|names| - 1];
      NamesCount(rest);
      assert (set i | 0 <= i < |names| :: names[i]) == (set i | 0 <= i < |rest| :: rest[i]) + {names[|names| - 1]};
    }
  }

  lemma {:induction false} IdsCount(slots: seq<Client>)
    ensures |set i | 0 <= i < |slots| :: slots[i].id| <= |slots|
  {
    if slots != [] {
      var rest := slots[..|slots| - 1];
      IdsCount(rest);
      assert (set i | 0 <= i < |slots| :: slots[i].id) == (set i | 0 <= i < |rest| :: rest[i].id) + {slots[|slots| - 1].id};
    }
  }

  /** Pigeonhole: registered ids that all differ from each other need that many entries. */
  lemma Pigeonhole(b: Board, names: seq<string>)
    requires b.Valid() && DistinctNames(names) && forall id :: id in names ==> Registered(b, id)
    ensures |names| <= b.count
  {
    var xs := set i | 0 <= i < |names| :: names[i];
    var slots := b.slots[..b.count];
    var ys := set i | 0 <= i < |slots| :: slots[i].id;
    NamesCount(names);
    IdsCount(slots);
    forall x | x in xs ensures x in ys {
      assert x in names;
      var j :| 0 <= j < b.count && b.slots[j].id == x;
      assert slots[j].id == x;
    }
    assert ys == xs + (ys - xs);
  }

  /**
    Everyone on the waiting list is registered throughout a run if and only if
    no event removes the entry of a waiting client.  The list then has room for
    every client that is not on it, a wait writes its port inside the registry,
    and a registration never resets the slot of a waiting client.
   */
  lemma MildRunsKeepPorts(es: seq<Event>)
    requires RunOk(Init(), es)
    ensures AlwaysListedRegistered(Init(), es) <==> MildRun(Init(), es)
    ensures MildRun(Init(), es) ==>
              var s := Exec(Init(), es);
              && s.board.Valid() && (forall id :: id in s.board.waiting ==> Registered(s.board, id))
              && (forall k :: k in s.live && s.live[k] !in s.board.waiting ==> |s.board.waiting| < s.board.count)
              && (forall e :: Enabled(s, e) && e.Register? ==> forall id :: id in s.board.waiting ==> !Disturbs(s, e, id))
  {
    MildRunExact(Init(), es);
    MannedRun(Init(), es);
    if MildRun(Init(), es) {
      RoomForPort(Exec(Init(), es));
    }
  }

  lemma RoomForPort(s: State)
    requires Tidy(s) && Manned(s) && ListedAreRegistered(s.board)
    ensures forall k :: k in s.live && s.live[k] !in s.board.waiting ==> |s.board.waiting| < s.board.count
    ensures forall e :: Enabled(s, e) && e.Register? ==> forall id :: id in s.board.waiting ==> !Disturbs(s, e, id)
  {
    var b := s.board;
    Pigeonhole(b, b.waiting);
    forall k | k in s.live && s.live[k] !in b.waiting ensures |b.waiting| < b.count {
      assert HasEntry(b, k, s.live[k]);
      assert Registered(b, s.live[k]);
      Pigeonhole(b, b.waiting + [s.live[k]]);
    }
  }

  /** A client that disconnects or quits is not on the list. */
  ghost predicate Polite(s: State, e: Event)
    requires Enabled(s, e)
  {
    e.Disconnect? || e.Quit? ==> s.live[e.socket] !in s.board.waiting
  }

  ghost predicate PoliteRun(s: State, es: seq<Event>)
    requires RunOk(s, es)
    decreases |es|
  {
    es == [] || (Polite(s, es[0]) && PoliteRun(Apply(s, es[0]), es[1..]))
  }

  ghost predicate Present(s: State, id: string) {
    exists k :: k in s.live && s.live[k] == id
  }

  /** Everyone on the list is still connected. */
  ghost predicate ListedArePresent(s: State) {
    forall id :: id in s.board.waiting ==> Present(s, id)
  }

  /** The entry that goes when a polite client disconnects is not that of another client still connected. */
  lemma PoliteIsMild(s: State, e: Event)
    requires Tidy(s) && Manned(s) && ListedArePresent(s) && Enabled(s, e) && Polite(s, e)
    ensures Mild(s, e)
  {
    forall id | id in s.board.waiting ensures !Removes(s, e, id) {
      if Removes(s, e, id) {
        var k :| k in s.live && s.live[k] == id;
        OneEntry(s.board, k, e.socket, id);
      }
    }
  }

  lemma PresentStep(s: State, e: Event)
    requires Tidy(s) && ListedArePresent(s) && Enabled(s, e) && Polite(s, e)
    ensures ListedArePresent(Apply(s, e))
  {
    var s' := Apply(s, e);
    forall id | id in s'.board.waiting ensures Present(s', id) {
      if id !in s.board.waiting {
        NewcomerWaits(s, e, id);
        assert s'.live[e.socket] == id;
      } else {
        var k :| k in s.live && s.live[k] == id;
        assert k in s'.live && s'.live[k] == id;
      }
    }
  }

  lemma {:induction false} PoliteRunIsMild(s: State, es: seq<Event>)
    requires Tidy(s) && Manned(s) && ListedArePresent(s) && RunOk(s, es) && PoliteRun(s, es)
    ensures MildRun(s, es)
    decreases |es|
  {
    if es != [] {
      PoliteIsMild(s, es[0]);
      PresentStep(s, es[0]);
      MannedStep(s, es[0]);
      PoliteRunIsMild(Apply(s, es[0]), es[1..]);
    }
  }

  /**
    If clients stop waiting before they disconnect or quit, everyone on the
    waiting list is registered, the list has room for everyone else, ports are
    written inside the registry and no registration resets a waiting client's
    slot, whatever socket numbers new connections get.
   */
  lemma PoliteRunsKeepPorts(es: seq<Event>)
    requires RunOk(Init(), es) && PoliteRun(Init(), es)
    ensures var s := Exec(Init(), es);
            && s.board.Valid() && (forall id :: id in s.board.waiting ==> Registered(s.board, id))
            && (forall k :: k in s.live && s.live[k] !in s.board.waiting ==> |s.board.waiting| < s.board.count)
            && (forall e :: Enabled(s, e) && e.Register? ==> forall id :: id in s.board.waiting ==> !Disturbs(s, e, id))
  {
    PoliteRunIsMild(Init(), es);
    MildRunsKeepPorts(es);
  }

  // ------------------------------------------------------------------
  // The condition on the port is needed
  // ------------------------------------------------------------------

  /** A client behind another one in the list, after the other one got its partner, is announced with the other's port. */
  lemma ShiftTellsForeignPort(s: State, k: int, a: string, b: string, p: int, q: int)
    requires Tidy(s) && s.board.waiting == [a, b] && s.board.slots[0].port == p && s.board.slots[1].port == q
    requires k in s.live && p != q
    ensures Enabled(s, Connect(k, a)) && Disturbs(s, Connect(k, a), b)
    ensures var s1 := Apply(s, Connect(k, a));
            Enabled(s1, Connect(k, b)) && Apply(s1, Connect(k, b)).log == s.log + [Introduced(a, p), Introduced(b, p)]
  {
  }

  lemma {:induction false} ExecLast(s: State, es: seq<Event>, e: Event)
    requires RunOk(s, es) && Enabled(Exec(s, es), e)
    ensures RunOk(s, es + [e]) && Exec(s, es + [e]) == Apply(Exec(s, es), e)
    decreases |es|
  {
    if es == [] {
      assert es + [e] == [e] && [e][1..] == [];
    } else {
      ExecLast(Apply(s, es[0]), es[1..], e);
      assert (es + [e])[1..] == es[1..] + [e];
    }
  }

  const THREE_CLIENTS := [Register(1, "a"), Register(2, "b"), Register(3, "c")]
  const TWO_WAITING := THREE_CLIENTS + [Wait(1, 5000)] + [Wait(2, 6000)]

  lemma ThreeClients()
    ensures RunOk(Init(), THREE_CLIENTS)
    ensures var s := Exec(Init(), THREE_CLIENTS);
            s.live == map[1 := "a", 2 := "b", 3 := "c"] && s.board.waiting == [] && s.log == [] && Tidy(s)
  {
    var s1 := Apply(Init(), Register(1, "a"));
    assert "a"[0] == 'a' && "b"[0] == 'b' && "c"[0] == 'c';
    ExecLast(Init(), [], Register(1, "a"));
    assert [] + [Register(1, "a")] == [Register(1, "a")];
    assert s1.board.slots[0].id == "a" && s1.board.count == 1 && !Registered(s1.board, "b");
    ExecLast(Init(), [Register(1, "a")], Register(2, "b"));
    assert [Register(1, "a")] + [Register(2, "b")] == [Register(1, "a"), Register(2, "b")];
    var s2 := Apply(s1, Register(2, "b"));
    assert s2.board.slots[1].id == "b" && s2.board.count == 2 && !Registered(s2.board, "c");
    ExecLast(Init(), [Register(1, "a"), Register(2, "b")], Register(3, "c"));
    assert THREE_CLIENTS == [Register(1, "a"), Register(2, "b")] + [Register(3, "c")];
    TidyRun(Init(), THREE_CLIENTS);
  }

  lemma TwoWaiting()
    ensures RunOk(Init(), TWO_WAITING)
    ensures var s := Exec(Init(), TWO_WAITING);
            && s.live == map[1 := "a", 2 := "b", 3 := "c"] && s.board.waiting == ["a", "b"] && Tidy(s)
            && s.board.slots[0].port == 5000 && s.board.slots[1].port == 6000
            && s.log == [Offered("a", 5000), Offered("b", 6000)]
  {
    ThreeClients();
    ExecLast(Init(), THREE_CLIENTS, Wait(1, 5000));
    assert "a"[0] == 'a' && "b"[0] == 'b';
    ExecLast(Init(), THREE_CLIENTS + [Wait(1, 5000)], Wait(2, 6000));
    TidyRun(Init(), TWO_WAITING);
  }

  /** A run from the start: two clients wait, the first gets its partner, then the second is announced with the first's port. */
  lemma ForeignPortTrace()
    ensures var es := TWO_WAITING + [Connect(3, "a")] + [Connect(3, "b")];
            && RunOk(Init(), es)
            && Exec(Init(), es).log == [Offered("a", 5000), Offered("b", 6000)]
                                       + [Introduced("a", 5000), Introduced("b", 5000)]
  {
    TwoWaiting();
    ShiftTellsForeignPort(Exec(Init(), TWO_WAITING), 3, "a", "b", 5000, 6000);
    ExecLast(Init(), TWO_WAITING, Connect(3, "a"));
    ExecLast(Init(), TWO_WAITING + [Connect(3, "a")], Connect(3, "b"));
  }

  // ------------------------------------------------------------------
  // A reused socket number removes the wrong entry
  // ------------------------------------------------------------------

  const QUIT_AND_REUSE := [Register(1, "a")] + [Quit(1)] + [Register(1, "b")] + [Disconnect(1)]

  /** "a" quits, "b" gets its socket number and disconnects: now "a" is free and "b", who has left, is registered. */
  lemma WrongEntryTrace()
    ensures RunOk(Init(), QUIT_AND_REUSE)
    ensures var s := Exec(Init(), QUIT_AND_REUSE);
            s.live == map[] && s.board.Valid() && !Registered(s.board, "a") && Registered(s.board, "b")
  {
    assert "a"[0] == 'a' && "b"[0] == 'b';
    ExecLast(Init(), [], Register(1, "a"));
    assert [] + [Register(1, "a")] == [Register(1, "a")];
    var s1 := Exec(Init(), [Register(1, "a")]);
    assert s1.board.count == 1 && s1.board.slots[0] == Client("a", 1, -1) && s1.live == map[1 := "a"];
    ExecLast(Init(), [Register(1, "a")], Quit(1));
    var s2 := Apply(s1, Quit(1));
    assert s2.live == map[] && !Registered(s2.board, "b");
    ExecLast(Init(), [Register(1, "a")] + [Quit(1)], Register(1, "b"));
    var s3 := Apply(s2, Register(1, "b"));
    assert s3.board.count == 2 && s3.board.slots[1].id == "b";
    ExecLast(Init(), [Register(1, "a")] + [Quit(1)] + [Register(1, "b")], Disconnect(1));
    assert FindSocket(s3.board.slots[..2], 1) == 0;
    assert Apply(s3, Disconnect(1)).board.slots[0].id == "b";
  }
}
