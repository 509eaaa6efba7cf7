/**
  The linked list of clients in archive/chat/src/clientlist.c, one call at a
  time: heap nodes relinked in place, a reference to the first node and a counter.
  `spine` is the sequence of nodes that can be reached from `top`.
 */
module ClientList {

  class Node {
    const id: string
    const ip: string
    const port: int
    var next: Node?

    constructor (id: string, ip: string, port: int)
      ensures this.id == id && this.ip == ip && this.port == port && next == null
    {
      this.id, this.ip, this.port := id, ip, port;
      next := null;
    }
  }

  datatype Entry = Entry(id: string, ip: string, port: int)

  // ------------------------------------------------------------------
  // The list as a sequence of entries
  // ------------------------------------------------------------------

  function IndexOf(entries: seq<Entry>, id: string): (i: nat)
    ensures i <= |entries|
    ensures i < |entries| ==> entries[i].id == id
    ensures forall j :: 0 <= j < i ==> entries[j].id != id
  {
    if entries == [] || entries[0].id == id then 0 else 1 + IndexOf(entries[1..], id)
  }

  predicate Has(entries: seq<Entry>, id: string) {
    IndexOf(entries, id) < |entries|
  }

  ghost predicate Distinct(entries: seq<Entry>) {
    forall i, j :: 0 <= i < j < |entries| ==> entries[i].id != entries[j].id
  }

  /** Append, unless the id is taken. */
  function Inserted(entries: seq<Entry>, e: Entry): seq<Entry> {
    if Has(entries, e.id) then entries else entries + [e]
  }

  function Removed(entries: seq<Entry>, id: string): seq<Entry> {
    var i := IndexOf(entries, id);
    if i == |entries| then entries else entries[..i] + entries[i + 1..]
  }

  lemma IndexUnique(entries: seq<Entry>, id: string, i: nat)
    requires i < |entries| && entries[i].id == id && forall j :: 0 <= j < i ==> entries[j].id != id
    ensures IndexOf(entries, id) == i
  {
  }

  lemma NotThere(entries: seq<Entry>, id: string)
    requires forall j :: 0 <= j < |entries| ==> entries[j].id != id
    ensures IndexOf(entries, id) == |entries|
  {
  }

  /** Inserting a new id and removing it gives the list back; ids stay different; the rest keeps its order. */
  lemma InsertThenRemove(entries: seq<Entry>, e: Entry)
    requires Distinct(entries)
    ensures Distinct(Inserted(entries, e))
    ensures !Has(entries, e.id) ==> Removed(Inserted(entries, e), e.id) == entries
  {
    if !Has(entries, e.id) {
      IndexUnique(entries + [e], e.id, |entries|);
    }
  }

  /** Exactly the entry with the id is cut out. */
  lemma RemovedIs(entries: seq<Entry>, id: string)
    ensures if forall i :: 0 <= i < |entries| ==> entries[i].id != id
            then !Has(entries, id) && Removed(entries, id) == entries
            else && Has(entries, id)
                 && (exists i :: 0 <= i < |entries| && entries[i].id == id
                                 && Removed(entries, id) == entries[..i] + entries[i + 1..])
  {
    var k := IndexOf(entries, id);
    if k < |entries| {
      assert entries[k].id == id;
    }
  }

  lemma RemoveFacts(entries: seq<Entry>, id: string)
    requires Distinct(entries)
    ensures Distinct(Removed(entries, id)) && !Has(Removed(entries, id), id)
    ensures forall other :: other != id ==> (Has(Removed(entries, id), other) <==> Has(entries, other))
  {
    var i, r := IndexOf(entries, id), Removed(entries, id);
    assert forall j :: 0 <= j < |r| ==> r[j] == if j < i then entries[j] else entries[j + 1];
    assert !Has(r, id) by {
      NotThere(r, id);
    }
    forall other | other != id ensures Has(r, other) <==> Has(entries, other) {
      var k := IndexOf(entries, other);
      if k < |entries| {
        assert r[if k < i then k else k - 1].id == other;
      } else {
        NotThere(r, other);
      }
    }
  }

  // ------------------------------------------------------------------
  // The list in the heap
  // ------------------------------------------------------------------

  /** The node behind place i of a spine. */
  ghost function Successor(spine: seq<Node>, i: nat): Node? {
    if i + 1 < |spine| then spine[i + 1] else null
  }

  ghost predicate NoRepeats(spine: seq<Node>) {
    forall i, j :: 0 <= i < j < |spine| ==> spine[i] != spine[j]
  }

  /** A spine without its node k: the node in front of k is followed by the one behind it. */
  lemma SpineWithout(spine: seq<Node>, k: nat, rest: seq<Node>)
    requires 1 <= k < |spine| && NoRepeats(spine) && rest == spine[..k] + spine[k + 1..]
    ensures NoRepeats(rest) && rest[0] == spine[0] && rest[k - 1] == spine[k - 1]
    ensures forall i :: 0 <= i < |rest| ==> rest[i] == spine[if i < k then i else i + 1]
    ensures forall i :: 0 <= i < |rest| ==>
              Successor(rest, i) == Successor(spine, if i < k - 1 then i else i + 1)
    ensures forall i :: 0 <= i < |rest| && i != k - 1 ==> rest[i] != spine[k - 1]
  {
    assert forall i :: 0 <= i < |rest| ==> rest[i] == spine[if i < k then i else i + 1];
  }

  class List {
    var top: Node?
    var numClients: int
    ghost var spine: seq<Node>

    /** The spine runs from `top` to null without meeting a node twice, and the counter is its length. */
    ghost predicate Valid()
      reads this, spine
    {
      && numClients == |spine|
      && top == (if spine == [] then null else spine[0])
      && (forall i :: 0 <= i < |spine| ==> spine[i].next == Successor(spine, i))
      && NoRepeats(spine)
    }

    ghost function Entries(): seq<Entry>
      reads this
    {
      seq(|spine|, i requires 0 <= i < |spine| reads this => Entry(spine[i].id, spine[i].ip, spine[i].port))
    }

    constructor ()
      ensures Valid() && spine == [] && Entries() == []
    {
      top := null;
      numClients := 0;
      spine := [];
    }

    /** lookup: the node with this id, if there is one. */
    method Lookup(id: string) returns (n: Node?)
      requires Valid()
      ensures n == null <==> !Has(Entries(), id)
      ensures n != null ==> n == spine[IndexOf(Entries(), id)] && n.id == id
    {
      n := top;
      ghost var i := 0;
      while n != null
        invariant 0 <= i <= |spine|
        invariant n == if i < |spine| then spine[i] else null
        invariant forall j :: 0 <= j < i ==> spine[j].id != id
        decreases |spine| - i
      {
        if n.id == id {
          IndexUnique(Entries(), id, i);
          return;
        }
        n := n.next;
        i := i + 1;
      }
      NotThere(Entries(), id);
    }

    /** The walk to the last node. */
    method Last() returns (n: Node)
      requires Valid() && spine != []
      ensures n == spine[|spine| - 1]
    {
      n := top;
      ghost var i := 0;
      while n.next != null
        invariant 0 <= i < |spine| && n == spine[i]
        decreases |spine| - i
      {
        n := n.next;
        i := i + 1;
      }
    }

    /** insertToList: append a new node, or refuse an id that is there. */
    method Insert(id: string, ip: string, port: int) returns (ok: bool)
      requires Valid()
      modifies this, spine
      ensures Valid()
      ensures ok <==> forall i :: 0 <= i < |old(Entries())| ==> old(Entries())[i].id != id
      ensures Entries() == old(Entries()) + if ok then [Entry(id, ip, port)] else []
      ensures Entries() == Inserted(old(Entries()), Entry(id, ip, port))
      ensures old(spine) <= spine && fresh(spine[old(|spine|)..])
    {
      var there := Lookup(id);
      if there != null {
        return false;
      }
      var node := new Node(id, ip, port);
      if top == null {
        top := node;
      } else {
        var last := Last();
        last.next := node;
      }
      spine := spine + [node];
      numClients := numClients + 1;
      ok := true;
    }

    /** The walk to the node in front of the one with this id. */
    method Before(id: string) returns (n: Node)
      requires Valid() && Has(Entries(), id) && spine[0].id != id
      ensures 1 <= IndexOf(Entries(), id) < |spine|
      ensures n == spine[IndexOf(Entries(), id) - 1] && n.next != null && n.next.id == id
    {
      assert Entries()[0].id == spine[0].id;
      n := top;
      ghost var k := IndexOf(Entries(), id);
      assert Entries()[k].id == spine[k].id;
      ghost var i := 0;
      while n.next != null && n.next.id != id
        invariant 0 <= i < k && n == spine[i]
        decreases |spine| - i
      {
        n := n.next;
        i := i + 1;
      }
      IndexUnique(Entries(), id, i + 1);
    }

    /** The first node leaves the list. */
    method DropFirst()
      requires Valid() && spine != []
      modifies this
      ensures Valid() && spine == old(spine)[1..]
    {
      assert spine[0].next == Successor(spine, 0);
      top := top.next;
      spine := spine[1..];
      numClients := numClients - 1;
    }

    /** The node behind n leaves the list. */
    method Unlink(n: Node, ghost k: nat)
      requires Valid() && 1 <= k < |spine| && n == spine[k - 1]
      modifies this, n
      ensures Valid() && spine == old(spine)[..k] + old(spine)[k + 1..]
    {
      assert spine[k - 1].next == Successor(spine, k - 1) && spine[k].next == Successor(spine, k);
      n.next := n.next.next;
      ghost var rest := spine[..k] + spine[k + 1..];
      SpineWithout(spine, k, rest);
      spine := rest;
      numClients := numClients - 1;
    }

    /** removeFromList: unlink the node with this id; the program ends when there is none. */
    method Remove(id: string) returns (ok: bool)
      requires Valid()
      modifies this, spine
      ensures Valid()
      ensures ok <==> Has(old(Entries()), id)
      ensures Entries() == Removed(old(Entries()), id)
      ensures ok ==> |spine| == old(|spine|) - 1 && old(spine)[IndexOf(old(Entries()), id)] !in spine
    {
      var there := Lookup(id);
      if there == null {
        return false;
      }
      ghost var k := IndexOf(Entries(), id);
      if top.id == id {
        IndexUnique(Entries(), id, 0);
        DropFirst();
      } else {
        assert Entries()[0].id == spine[0].id;
        var n := Before(id);
        Unlink(n, k);
      }
      ok := true;
    }

    /** makeEmpty: the program ends when the list is empty already. */
    method MakeEmpty() returns (ok: bool)
      requires Valid()
      modifies this
      ensures Valid() && spine == [] && top == null && numClients == 0
      ensures ok <==> old(numClients) > 0
    {
      if numClients == 0 {
        return false;
      }
      while numClients > 0
        invariant Valid()
        decreases numClients
      {
        DropFirst();
      }
      ok := true;
    }
  }
}
