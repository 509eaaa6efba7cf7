/**
  The bounded ACK queue that all handlers of a tftp/server.c process share:
  the router appends, a handler looks for the ACK of its own packet and takes
  it out.  The functions describe one critical section each; the class is the
  array the program keeps.
 */
module AckQueue {

  const MAX_QUEUE_SIZE: nat := 5

  /** An AckPacket: sequence number and the address it came from. */
  datatype Entry = Entry(seqNum: nat, addr: nat)

  /** An ACK that finds the queue full is dropped. */
  function Enqueue(q: seq<Entry>, e: Entry): seq<Entry> {
    if |q| < MAX_QUEUE_SIZE then q + [e] else q
  }

  /** Index of the first matching entry, or |q|. */
  function Find(q: seq<Entry>, e: Entry): (i: nat)
    ensures i <= |q|
    ensures i < |q| ==> q[i] == e
    ensures e !in q[..i]
    ensures i < |q| <==> e in q
  {
    if q == [] then 0
    else if q[0] == e then 0
    else
      var i := 1 + Find(q[1..], e);
      assert q[..i] == [q[0]] + q[1..][..i - 1];
      i
  }

  function Take(q: seq<Entry>, e: Entry): (r: seq<Entry>)
    ensures e !in q ==> r == q
    ensures e in q ==> multiset(r) == multiset(q) - multiset{e} && |r| == |q| - 1
  {
    var i := Find(q, e);
    if i < |q| then
      assert q == q[..i] + [q[i]] + q[i + 1..];
      q[..i] + q[i + 1..]
    else q
  }

  /** Entries of one address only: at most one ACK of each session is queued. */
  ghost predicate OnePerAddress(q: seq<Entry>) {
    forall i, j :: 0 <= i < j < |q| ==> q[i].addr != q[j].addr
  }

  ghost function Addresses(q: seq<Entry>): set<nat> {
    set i | 0 <= i < |q| :: q[i].addr
  }

  lemma EnqueueKeepsOnePerAddress(q: seq<Entry>, e: Entry)
    requires OnePerAddress(q) && e.addr !in Addresses(q)
    ensures OnePerAddress(Enqueue(q, e))
  {
    assert forall i :: 0 <= i < |q| ==> q[i].addr in Addresses(q);
  }

  lemma TakeKeepsOnePerAddress(q: seq<Entry>, e: Entry)
    requires OnePerAddress(q)
    ensures OnePerAddress(Take(q, e))
    ensures forall x :: x in Take(q, e) <==> x in q && x != e
  {
    var i := Find(q, e);
    if i < |q| {
      var r := Take(q, e);
      assert forall j :: 0 <= j < |r| ==> r[j] == if j < i then q[j] else q[j + 1];
      assert forall x :: x in q <==> x in q[..i] || x == e || x in q[i + 1..] by {
        assert q == q[..i] + [q[i]] + q[i + 1..];
      }
    }
  }

  lemma {:induction false} OnePerAddressSize(q: seq<Entry>)
    requires OnePerAddress(q)
    ensures |Addresses(q)| == |q|
  {
    if q != [] {
      var rest := q[..|q| - 1];
      OnePerAddressSize(rest);
      assert Addresses(q) == Addresses(rest) + {q[|q| - 1].addr};
      assert q[|q| - 1].addr !in Addresses(rest);
    }
  }

  class Queue {
    const slots: array<Entry>
    var size: nat

    ghost predicate Valid()
      reads this
    {
      slots.Length == MAX_QUEUE_SIZE && size <= MAX_QUEUE_SIZE
    }

    ghost function Contents(): seq<Entry>
      reads this, slots
      requires Valid()
    {
      slots[..size]
    }

    constructor ()
      ensures Valid() && fresh(slots)
      ensures Contents() == []
    {
      slots := new Entry[MAX_QUEUE_SIZE](_ => Entry(0, 0));
      size := 0;
    }

    /** The router's critical section; `stored` tells whether the waiting handlers are signalled. */
    method Route(e: Entry) returns (stored: bool)
      requires Valid()
      modifies this, slots
      ensures Valid()
      ensures stored <==> old(size) < 5
      ensures Contents() == old(Contents()) + if stored then [e] else []
      ensures Contents() == Enqueue(old(Contents()), e)
    {
      stored := size < MAX_QUEUE_SIZE;
      if stored {
        slots[size] := e;
        size := size + 1;
      }
    }

    /** One pass of a handler over the queue: the first match is removed by moving the rest down. */
    method Scan(e: Entry) returns (received: bool)
      requires Valid()
      modifies this, slots
      ensures Valid()
      ensures received <==> e in old(Contents())
      ensures Contents() == Take(old(Contents()), e)
      ensures received ==> exists i :: 0 <= i < old(size) && old(Contents())[i] == e && e !in old(Contents())[..i]
                                       && Contents() == old(Contents())[..i] + old(Contents())[i + 1..]
    {
      received := false;
      var i := 0;
      while i < size
        invariant 0 <= i <= size
        invariant size == old(size) && slots[..] == old(slots[..])
        invariant e !in slots[..i]
      {
        if slots[i] == e {
          received := true;
          size := size - 1;
          assert Find(old(Contents()), e) == i;
          forall j | i <= j < size {
            slots[j] := slots[j + 1];
          }
          assert Contents() == old(Contents())[..i] + old(Contents())[i + 1..];
          return;
        }
        i := i + 1;
      }
    }
  }
}
