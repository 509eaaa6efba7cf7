/**
  Two clients of irc/client.c on the way into a conversation and out of it: end
  0 waits with a listening socket, end 1 has been told its port and connects.
  Each end has a mode and a peer socket; a thread of its own accepts or
  receives, and the main loop and the signal handler send.  Messages arrive
  whole and in order.  The end of a connection shows up at the other side behind
  the messages sent before, or as an error that overtakes them.
 */
module ChatPair {

  datatype Mode = INFO | WAIT | CHAT

  /** `accepting` is the wait thread in accept; `exited` is set by /quit. */
  datatype End = End(mode: Mode, socketOpen: bool, accepting: bool, exited: bool)

  datatype Item = Text(line: string) | EndOfStream | Error

  /**
    inbox[i] is what end i has still to receive.  While it is `ringing`, the call
    of end 1 and what it sends stand in the listener of end 0; its id comes first.
    `leaveSent` tells whether a LEAVE was ever sent.
   */
  datatype Pair = Pair(ends: seq<End>, inbox: seq<seq<Item>>, dialed: bool, ringing: bool, answered: bool,
                       leaveSent: bool)
  {
    predicate Valid() {
      |ends| == 2 && |inbox| == 2
    }
  }

  /**
    `breaks` says that the signal also interrupts the blocking call of the end's
    thread, which has no SA_RESTART; `reset` that closing aborts the connection
    instead of ending it in order.
   */
  datatype Event =
    | Dial
    | Answer
    | Say(i: nat, line: string)
    | Interrupt(i: nat, breaks: bool)
    | Quit(i: nat, reset: bool)
    | Receive(i: nat, reset: bool)
    | Refused(i: nat)

  const LEAVE := "LEAVE"
  const STOP_WAIT := "/stop_wait"

  /** strncmp(buffer, "LEAVE", 5): any line that begins so counts. */
  predicate IsLeave(m: Item) {
    m.Text? && LEAVE <= m.line
  }

  /** Items on which the receiving thread closes the socket. */
  predicate IsFinal(m: Item) {
    IsLeave(m) || m.EndOfStream? || m.Error?
  }

  function Start(): Pair {
    Pair([End(WAIT, false, true, false), End(INFO, false, false, false)], [[], []], false, false, false, false)
  }

  function Other(i: nat): nat
    requires i < 2
  {
    1 - i
  }

  // ------------------------------------------------------------------
  // What one end does
  // ------------------------------------------------------------------

  /** handle_connect, once the call has got through. */
  function AfterConnect(e: End): End {
    e.(mode := CHAT, socketOpen := true)
  }

  /** The wait thread, once it has a call: `ok` if the caller's id came. */
  function AfterAccept(e: End, ok: bool): End {
    if ok then e.(mode := CHAT, socketOpen := true, accepting := false) else e.(accepting := false)
  }

  /** What the receiving thread makes of an item. */
  function AfterItem(e: End, m: Item): End {
    if IsFinal(m) then e.(mode := INFO, socketOpen := false) else e
  }

  /** What /quit leaves behind: nothing open.  It sends LEAVE to the peer in CHAT mode. */
  function AfterQuit(e: End): (End, seq<string>) {
    (e.(socketOpen := false, accepting := false, exited := true), if e.mode == CHAT then [LEAVE] else [])
  }

  /**
    Ctrl+C: what it sends to the peer and to the server.  In CHAT mode it closes
    nothing; in WAIT mode it closes the listener, but an accept that is not
    interrupted goes on and can still take a call.
   */
  function AfterSignal(e: End, breaks: bool): (End, seq<string>, seq<string>) {
    match e.mode
    case INFO => (e.(accepting := e.accepting && !breaks), [], [])
    case CHAT => (e, [LEAVE], [])
    case WAIT => (e.(mode := INFO, accepting := e.accepting && !breaks), [], [STOP_WAIT])
  }

  // ------------------------------------------------------------------
  // The pair
  // ------------------------------------------------------------------

  /** What is sent to end i arrives somewhere. */
  predicate Reachable(p: Pair, i: nat)
    requires p.Valid() && i < 2
  {
    p.ends[i].socketOpen || (i == 0 && p.ringing)
  }

  /** What is sent to an end that has closed is lost. */
  function Post(p: Pair, i: nat, m: Item): Pair
    requires p.Valid() && i < 2
  {
    var o := Other(i);
    p.(inbox := if Reachable(p, o) then p.inbox[o := p.inbox[o] + [m]] else p.inbox,
       leaveSent := p.leaveSent || IsLeave(m))
  }

  function PostAll(p: Pair, i: nat, lines: seq<string>): Pair
    requires p.Valid() && i < 2
  {
    if lines == [] then p else Post(p, i, Text(lines[0]))
  }

  /** End i becomes `after`; if that ends its part of the connection, the other side is told. */
  function Become(p: Pair, i: nat, after: End, reset: bool): Pair
    requires p.Valid() && i < 2
  {
    if Reachable(p, i) && !after.socketOpen && !after.accepting then Close(p, i, after, reset)
    else p.(ends := p.ends[i := after])
  }

  function Close(p: Pair, i: nat, after: End, reset: bool): Pair
    requires p.Valid() && i < 2
  {
    var o := Other(i);
    var rest := if reset then [Error] else p.inbox[o] + [EndOfStream];
    p.(ends := p.ends[i := after],
       ringing := p.ringing && i == 1,
       inbox := if Reachable(p, o) then p.inbox[i := []][o := rest] else p.inbox[i := []])
  }

  predicate Enabled(p: Pair, e: Event) {
    && p.Valid()
    && match e
       case Dial => !p.dialed && p.ends[1].mode == INFO && !p.ends[1].exited
       case Answer => p.ringing && p.ends[0].accepting
       case Say(i, _) => i < 2 && p.ends[i].mode == CHAT && p.ends[i].socketOpen
       case Receive(i, _) => i < 2 && p.ends[i].socketOpen && p.inbox[i] != []
       case Refused(i) => i < 2 && p.ends[i].socketOpen && !Reachable(p, Other(i))
       case Interrupt(i, _) => i < 2 && !p.ends[i].exited
       case Quit(i, _) => i < 2 && !p.ends[i].exited
  }

  /** The call was broken off before it was answered. */
  predicate Aborted(inbox: seq<Item>) {
    inbox != [] && inbox[0].Error?
  }

  /** The recv that the signal interrupted fails before it takes anything. */
  function Broken(p: Pair, i: nat, breaks: bool): Pair
    requires p.Valid() && i < 2
  {
    if breaks && p.ends[i].socketOpen then p.(inbox := p.inbox[i := [Error] + p.inbox[i]]) else p
  }

  function Apply(p: Pair, e: Event): Pair
    requires Enabled(p, e)
  {
    match e
    case Dial =>
      if p.ends[0].accepting then p.(dialed := true, ringing := true, ends := p.ends[1 := AfterConnect(p.ends[1])])
      else p.(dialed := true)
    case Answer =>
      if Aborted(p.inbox[0]) then Close(p, 0, AfterAccept(p.ends[0], false), false)
      else p.(ringing := false, answered := true, ends := p.ends[0 := AfterAccept(p.ends[0], true)])
    case Say(i, line) => Post(p, i, Text(line))
    case Interrupt(i, breaks) =>
      var (after, sent, _) := AfterSignal(p.ends[i], breaks);
      Become(Broken(PostAll(p, i, sent), i, breaks), i, after, true)
    case Quit(i, reset) =>
      var (after, sent) := AfterQuit(p.ends[i]);
      Become(PostAll(p, i, sent), i, after, reset)
    case Receive(i, reset) =>
      var m, rest := p.inbox[i][0], p.inbox[i][1..];
      Become(p.(inbox := p.inbox[i := rest]), i, AfterItem(p.ends[i], m), reset)
    case Refused(i) => p.(inbox := p.inbox[i := [Error]])
  }

  predicate RunOk(p: Pair, es: seq<Event>)
    decreases |es|
  {
    es == [] || (Enabled(p, es[0]) && RunOk(Apply(p, es[0]), es[1..]))
  }

  function Exec(p: Pair, es: seq<Event>): Pair
    requires RunOk(p, es)
    decreases |es|
  {
    if es == [] then p else Exec(Apply(p, es[0]), es[1..])
  }

  // ------------------------------------------------------------------
  // No end is left hanging
  // ------------------------------------------------------------------

  ghost predicate HasFinal(inbox: seq<Item>) {
    exists k :: 0 <= k < |inbox| && IsFinal(inbox[k])
  }

  /** The end has left the conversation: it has exited, is in INFO mode, or waits and never answered. */
  ghost predicate Closed(p: Pair, i: nat)
    requires p.Valid() && i < 2
  {
    && !p.ends[i].socketOpen
    && (p.ends[i].exited || p.ends[i].mode == INFO || (i == 0 && p.ends[i].mode == WAIT && !p.answered))
  }

  /** An end whose peer is gone is gone too, or has yet to receive the reason. */
  ghost predicate Informed(p: Pair, i: nat)
    requires p.Valid() && i < 2
  {
    Reachable(p, i) && !Reachable(p, Other(i)) ==> HasFinal(p.inbox[i])
  }

  ghost predicate EndInv(p: Pair, i: nat)
    requires p.Valid() && i < 2
  {
    && (p.ends[i].socketOpen <==> p.ends[i].mode == CHAT && !p.ends[i].exited)
    && (p.ends[i].exited ==> !p.ends[i].accepting)
    && (!Reachable(p, i) ==> p.inbox[i] == [])
    && Informed(p, i)
  }

  ghost predicate Inv(p: Pair) {
    && p.Valid() && EndInv(p, 0) && EndInv(p, 1)
    && (p.ringing ==> p.dialed && p.ends[0].accepting && !p.answered)
    && (p.ends[0].accepting ==> !p.ends[0].socketOpen && !p.answered)
    && !p.ends[1].accepting && p.ends[1].mode != WAIT
    && (p.answered ==> p.dialed && p.ends[0].mode != WAIT) && (p.ends[0].mode == CHAT ==> p.answered)
    && (!p.dialed ==> p.ends[1].mode == INFO && !p.leaveSent)
    && (p.leaveSent ==>
          || !Reachable(p, 0) || !Reachable(p, 1)
          || HasFinal(p.inbox[0]) || HasFinal(p.inbox[1]))
  }

  lemma FinalKept(a: seq<Item>, b: seq<Item>)
    ensures HasFinal(a) ==> HasFinal(a + b)
    ensures HasFinal(b) ==> HasFinal(a + b)
    ensures HasFinal(a + b) ==> HasFinal(a) || HasFinal(b)
  {
    if HasFinal(a) {
      var k :| 0 <= k < |a| && IsFinal(a[k]);
      assert (a + b)[k] == a[k];
    }
    if HasFinal(b) {
      var k :| 0 <= k < |b| && IsFinal(b[k]);
      assert (a + b)[|a| + k] == b[k];
    }
  }

  lemma FinalOne(m: Item)
    ensures HasFinal([m]) <==> IsFinal(m)
  {
    assert [m][0] == m;
  }

  lemma InvPost(p: Pair, i: nat, m: Item)
    requires Inv(p) && i < 2 && m.Text? && p.ends[i].socketOpen
    ensures Inv(Post(p, i, m))
  {
    FinalKept(p.inbox[Other(i)], [m]);
    FinalOne(m);
  }

  lemma InvClose(p: Pair, i: nat, after: End, reset: bool)
    requires i < 2 && Inv(p) && !after.socketOpen && !after.accepting
    requires after.exited || after.mode == INFO || (i == 0 && after.mode == WAIT && !p.answered)
    requires i == 1 ==> p.dialed && after.mode != WAIT
    requires i == 0 ==> (p.answered ==> after.mode != WAIT) && (after.mode == CHAT ==> p.answered)
    ensures Inv(Close(p, i, after, reset))
  {
    FinalKept(p.inbox[Other(i)], [EndOfStream]);
    FinalOne(EndOfStream);
    FinalOne(Error);
  }

  lemma InvBroken(p: Pair, i: nat, breaks: bool)
    requires Inv(p) && i < 2
    ensures Inv(Broken(p, i, breaks))
  {
    FinalKept([Error], p.inbox[i]);
    FinalOne(Error);
  }

  lemma InvFinal(p: Pair, i: nat, reset: bool)
    requires Inv(p) && Enabled(p, Receive(i, reset)) && IsFinal(p.inbox[i][0])
    ensures Inv(Apply(p, Receive(i, reset)))
  {
    var after := AfterItem(p.ends[i], p.inbox[i][0]);
    InvClose(p, i, after, reset);
    assert p.inbox[i := p.inbox[i][1..]][i := []] == p.inbox[i := []];
    assert Apply(p, Receive(i, reset)) == Close(p, i, after, reset);
  }

  lemma InvText(p: Pair, i: nat, reset: bool)
    requires Inv(p) && Enabled(p, Receive(i, reset)) && !IsFinal(p.inbox[i][0])
    ensures Inv(Apply(p, Receive(i, reset)))
  {
    var m, rest := p.inbox[i][0], p.inbox[i][1..];
    assert p.inbox[i] == [m] + rest;
    FinalKept([m], rest);
    FinalOne(m);
  }

  lemma InvQuit(p: Pair, i: nat, reset: bool)
    requires Inv(p) && Enabled(p, Quit(i, reset))
    ensures Inv(Apply(p, Quit(i, reset)))
  {
    var (after, sent) := AfterQuit(p.ends[i]);
    if p.ends[i].mode == CHAT {
      InvPost(p, i, Text(LEAVE));
      InvClose(Post(p, i, Text(LEAVE)), i, after, reset);
    } else if Reachable(p, i) {
      InvClose(p, i, after, reset);
    }
  }

  /** In CHAT mode Ctrl+C sends LEAVE, may break the receive, and does nothing else. */
  lemma LeaveIsPosted(p: Pair, i: nat, breaks: bool)
    requires Inv(p) && Enabled(p, Interrupt(i, breaks)) && p.ends[i].mode == CHAT
    ensures Apply(p, Interrupt(i, breaks)) == Broken(Post(p, i, Text("LEAVE")), i, breaks)
  {
    var q := Broken(Post(p, i, Text(LEAVE)), i, breaks);
    assert q.ends[i] == p.ends[i] && p.ends[i].socketOpen;
    assert q.ends[i := q.ends[i]] == q.ends;
  }

  lemma InvLeave(p: Pair, i: nat, breaks: bool)
    requires Inv(p) && Enabled(p, Interrupt(i, breaks)) && p.ends[i].mode == CHAT
    ensures Inv(Apply(p, Interrupt(i, breaks)))
  {
    var q := Post(p, i, Text(LEAVE));
    InvPost(p, i, Text(LEAVE));
    InvBroken(q, i, breaks);
    LeaveIsPosted(p, i, breaks);
  }

  lemma InvStopWait(p: Pair, i: nat, breaks: bool)
    requires Inv(p) && Enabled(p, Interrupt(i, breaks)) && p.ends[i].mode != CHAT
    ensures Inv(Apply(p, Interrupt(i, breaks)))
  {
    var after := AfterSignal(p.ends[i], breaks).0;
    assert Apply(p, Interrupt(i, breaks)) == Become(p, i, after, true);
    if Reachable(p, i) && !after.accepting {
      InvClose(p, i, after, true);
    }
  }

  lemma InvAnswer(p: Pair)
    requires Inv(p) && Enabled(p, Answer)
    ensures Inv(Apply(p, Answer))
  {
    if Aborted(p.inbox[0]) {
      InvClose(p, 0, AfterAccept(p.ends[0], false), false);
    }
  }

  lemma InvStep(p: Pair, e: Event)
    requires Inv(p) && Enabled(p, e)
    ensures Inv(Apply(p, e))
  {
    if e.Say? {
      InvPost(p, e.i, Text(e.line));
    } else if e.Interrupt? {
      if p.ends[e.i].mode == CHAT {
        InvLeave(p, e.i, e.breaks);
      } else {
        InvStopWait(p, e.i, e.breaks);
      }
    } else if e.Quit? {
      InvQuit(p, e.i, e.reset);
    } else if e.Answer? {
      InvAnswer(p);
    } else if e.Receive? {
      if IsFinal(p.inbox[e.i][0]) {
        InvFinal(p, e.i, e.reset);
      } else {
        InvText(p, e.i, e.reset);
      }
    } else if e.Refused? {
      FinalOne(Error);
    }
  }

  lemma {:induction false} InvRun(p: Pair, es: seq<Event>)
    requires Inv(p) && RunOk(p, es)
    ensures Inv(Exec(p, es))
    decreases |es|
  {
    if es != [] {
      InvStep(p, es[0]);
      InvRun(Apply(p, es[0]), es[1..]);
    }
  }

  /**
    In every run: an end with an open peer socket whose partner has gone has a
    LEAVE, an end of stream or an error to receive, and so has a call that rings
    after the caller has gone.
   */
  lemma NoEndIsLeftHanging(es: seq<Event>, i: nat)
    requires RunOk(Start(), es) && i < 2
    ensures var p := Exec(Start(), es);
            && p.Valid()
            && (!Reachable(p, Other(i)) ==> !Reachable(p, i) || HasFinal(p.inbox[i]))
            && (!Reachable(p, i) ==> Closed(p, i))
  {
    InvRun(Start(), es);
    assert Informed(Exec(Start(), es), i);
  }

  // ------------------------------------------------------------------
  // A conversation lasts until somebody leaves
  // ------------------------------------------------------------------

  /** An ordinary line is taken from the inbox, and that is all: both ends stay as they are. */
  lemma OrdinaryLineChangesNothing(es: seq<Event>, i: nat, reset: bool)
    requires RunOk(Start(), es) && Enabled(Exec(Start(), es), Receive(i, reset))
    requires var m := Exec(Start(), es).inbox[i][0]; m.Text? && !("LEAVE" <= m.line)
    ensures var p := Exec(Start(), es);
            Apply(p, Receive(i, reset)) == p.(inbox := p.inbox[i := p.inbox[i][1..]])
  {
    InvRun(Start(), es);
    var p := Exec(Start(), es);
    assert p.ends[i := p.ends[i]] == p.ends;
  }

  lemma OnlyOneEnd(p: Pair, i: nat, after: End, reset: bool)
    requires p.Valid() && i < 2
    ensures var q := Become(p, i, after, reset);
            q.Valid() && q.ends[i] == after && q.ends[Other(i)] == p.ends[Other(i)]
  {
  }

  lemma SignalEnds(p: Pair, i: nat, breaks: bool)
    requires Inv(p) && Enabled(p, Interrupt(i, breaks))
    ensures var q := Apply(p, Interrupt(i, breaks));
            && q.Valid() && q.ends[Other(i)] == p.ends[Other(i)]
            && (p.ends[i].mode == CHAT ==> q.ends[i] == p.ends[i])
  {
    var (after, sent, _) := AfterSignal(p.ends[i], breaks);
    OnlyOneEnd(Broken(PostAll(p, i, sent), i, breaks), i, after, true);
  }

  /** Events of the other end, and those that do not close, leave an open end as it is. */
  lemma OpenEndStays(p: Pair, e: Event, i: nat)
    requires Inv(p) && Enabled(p, e) && i < 2 && p.ends[i].socketOpen
    requires !((e.Receive? || e.Quit?) && e.i == i)
    ensures Apply(p, e).Valid() && Apply(p, e).ends[i] == p.ends[i]
  {
    if e.Receive? {
      OnlyOneEnd(p.(inbox := p.inbox[e.i := p.inbox[e.i][1..]]), e.i, AfterItem(p.ends[e.i], p.inbox[e.i][0]), e.reset);
    } else if e.Quit? {
      var (after, sent) := AfterQuit(p.ends[e.i]);
      OnlyOneEnd(PostAll(p, e.i, sent), e.i, after, e.reset);
    } else if e.Interrupt? {
      SignalEnds(p, e.i, e.breaks);
    }
  }

  lemma OwnReceive(p: Pair, i: nat, reset: bool)
    requires Inv(p) && Enabled(p, Receive(i, reset))
    ensures var q := Apply(p, Receive(i, reset));
            q.Valid() && q.ends[i] == AfterItem(p.ends[i], p.inbox[i][0])
  {
    OnlyOneEnd(p.(inbox := p.inbox[i := p.inbox[i][1..]]), i, AfterItem(p.ends[i], p.inbox[i][0]), reset);
  }

  lemma OwnQuit(p: Pair, i: nat, reset: bool)
    requires Inv(p) && Enabled(p, Quit(i, reset))
    ensures var q := Apply(p, Quit(i, reset));
            q.Valid() && !q.ends[i].socketOpen && q.ends[i].exited
  {
    var (after, sent) := AfterQuit(p.ends[i]);
    OnlyOneEnd(PostAll(p, i, sent), i, after, reset);
  }

  /**
    An end that is open closes in exactly two cases: its own /quit, and the receipt
    of a line that begins with LEAVE, of an end of stream or of an error, which
    takes it back to INFO mode.
   */
  lemma ClosesExactly(es: seq<Event>, e: Event, i: nat)
    requires RunOk(Start(), es) && Enabled(Exec(Start(), es), e) && i < 2 && Exec(Start(), es).Valid()
    requires Exec(Start(), es).ends[i].socketOpen
    ensures var p := Exec(Start(), es);
            var q := Apply(p, e);
            var final := e.Receive? && e.i == i
                         && match p.inbox[i][0] case Text(line) => "LEAVE" <= line case _ => true;
            && q.Valid()
            && (!q.ends[i].socketOpen <==> final || (e.Quit? && e.i == i))
            && (q.ends[i].socketOpen ==> q.ends[i] == p.ends[i])
            && (final ==> q.ends[i].mode == INFO)
  {
    InvRun(Start(), es);
    var p := Exec(Start(), es);
    if e.Receive? && e.i == i {
      OwnReceive(p, i, e.reset);
    } else if e.Quit? && e.i == i {
      OwnQuit(p, i, e.reset);
    } else {
      OpenEndStays(p, e, i);
    }
  }

  /** Nothing that an end may do is excluded, whatever the other one does. */
  lemma EndsAreFree(es: seq<Event>, i: nat, line: string, flag: bool)
    requires RunOk(Start(), es) && i < 2
    ensures var p := Exec(Start(), es);
            && p.Valid()
            && (p.ends[i].socketOpen ==> Enabled(p, Say(i, line)))
            && (p.ends[i].socketOpen && p.inbox[i] != [] ==> Enabled(p, Receive(i, flag)))
            && (p.ringing ==> Enabled(p, Answer))
            && (!p.ends[i].exited ==> Enabled(p, Interrupt(i, flag)) && Enabled(p, Quit(i, flag)))
  {
    InvRun(Start(), es);
  }

  /** A call that is answered puts both ends in CHAT mode, with a connection between them. */
  lemma CallGoesThrough()
    ensures RunOk(Start(), [Dial, Answer])
    ensures var p := Exec(Start(), [Dial, Answer]);
            && p.Valid() && p.inbox == [[], []] && !p.leaveSent
            && forall i :: 0 <= i < 2 ==> p.ends[i] == End(CHAT, true, false, false)
  {
    var p := Apply(Start(), Dial);
    assert [Dial, Answer][1..] == [Answer] && [Answer][1..] == [];
    assert RunOk(p, [Answer]) && Exec(p, [Answer]) == Apply(p, Answer);
  }

  /** The lines that end i sends in an event. */
  function Says(p: Pair, e: Event, i: nat): seq<string>
    requires p.Valid() && i < 2
  {
    if e.Say? && e.i == i then [e.line]
    else if (e.Interrupt? || e.Quit?) && e.i == i && p.ends[i].mode == CHAT then ["LEAVE"]
    else []
  }

  /** The line that end i receives in an event, if it receives one. */
  function Hears(p: Pair, e: Event, i: nat): seq<string>
    requires Enabled(p, e) && i < 2
  {
    if e.Receive? && e.i == i && p.inbox[i][0].Text? then [p.inbox[i][0].line] else []
  }

  function Spoken(p: Pair, es: seq<Event>, i: nat): seq<string>
    requires RunOk(p, es) && i < 2
    decreases |es|
  {
    if es == [] then [] else Says(p, es[0], i) + Spoken(Apply(p, es[0]), es[1..], i)
  }

  function Heard(p: Pair, es: seq<Event>, i: nat): seq<string>
    requires RunOk(p, es) && i < 2
    decreases |es|
  {
    if es == [] then [] else Hears(p, es[0], i) + Heard(Apply(p, es[0]), es[1..], i)
  }

  function Lines(inbox: seq<Item>): seq<string> {
    if inbox == [] then []
    else (if inbox[0].Text? then [inbox[0].line] else []) + Lines(inbox[1..])
  }

  lemma {:induction false} LinesAppend(a: seq<Item>, b: seq<Item>)
    ensures Lines(a + b) == Lines(a) + Lines(b)
    decreases |a|
  {
    if a == [] {
      assert a + b == b;
    } else {
      assert (a + b)[1..] == a[1..] + b;
      LinesAppend(a[1..], b);
    }
  }

  lemma LinesOne(m: Item)
    ensures Lines([m]) == if m.Text? then [m.line] else []
  {
    assert [m][1..] == [];
  }

  /** Both ends are in the connection. */
  ghost predicate Connected(p: Pair)
    requires p.Valid()
  {
    Reachable(p, 0) && Reachable(p, 1)
  }

  /** What end o has heard and will hear is what the other has said, all of it while both are connected. */
  ghost predicate Faithful(p: Pair, o: nat, heard: seq<string>, spoken: seq<string>)
    requires p.Valid() && o < 2
  {
    && heard + Lines(p.inbox[o]) <= spoken
    && (!p.dialed || Connected(p) ==> heard + Lines(p.inbox[o]) == spoken)
  }

  lemma FaithfulSay(p: Pair, o: nat, line: string, heard: seq<string>, spoken: seq<string>)
    requires o < 2 && Inv(p) && p.ends[Other(o)].socketOpen && Faithful(p, o, heard, spoken)
    ensures Faithful(Post(p, Other(o), Text(line)), o, heard, spoken + [line])
  {
    LinesAppend(p.inbox[o], [Text(line)]);
    LinesOne(Text(line));
    Regroup(heard, Lines(p.inbox[o]), [line]);
  }

  lemma Regroup(a: seq<string>, b: seq<string>, c: seq<string>)
    ensures (a + b) + c == a + (b + c)
  {
  }

  /** Closing either end adds no line and may lose some. */
  lemma FaithfulClose(p: Pair, i: nat, after: End, reset: bool, o: nat, heard: seq<string>, spoken: seq<string>)
    requires p.Valid() && i < 2 && o < 2 && p.dialed && !after.socketOpen && Faithful(p, o, heard, spoken)
    ensures Faithful(Close(p, i, after, reset), o, heard, spoken)
  {
    LinesAppend(p.inbox[o], [EndOfStream]);
    LinesOne(EndOfStream);
    LinesOne(Error);
    assert Lines(p.inbox[o]) + [] == Lines(p.inbox[o]);
    assert heard + [] <= heard + Lines(p.inbox[o]);
    assert Close(p, i, after, reset).inbox[o] == [] || Close(p, i, after, reset).inbox[o] == [Error]
           || Lines(Close(p, i, after, reset).inbox[o]) == Lines(p.inbox[o]);
  }

  /** An inbox that gains or loses only items that are no lines. */
  lemma FaithfulItems(p: Pair, q: Pair, o: nat, heard: seq<string>, spoken: seq<string>)
    requires p.Valid() && q.Valid() && o < 2 && Faithful(p, o, heard, spoken)
    requires Lines(q.inbox[o]) == Lines(p.inbox[o])
    requires !q.dialed || Connected(q) ==> !p.dialed || Connected(p)
    ensures Faithful(q, o, heard, spoken)
  {
  }

  lemma FaithfulReceive(p: Pair, i: nat, reset: bool, o: nat, heard: seq<string>, spoken: seq<string>)
    requires o < 2 && Inv(p) && Enabled(p, Receive(i, reset)) && Faithful(p, o, heard, spoken)
    ensures Faithful(Apply(p, Receive(i, reset)), o, heard + Hears(p, Receive(i, reset), o), spoken)
  {
    var m, rest := p.inbox[i][0], p.inbox[i][1..];
    var p1, now := p.(inbox := p.inbox[i := rest]), Hears(p, Receive(i, reset), o);
    if i == o {
      assert Lines(p.inbox[o]) == now + Lines(rest);
      Regroup(heard, now, Lines(rest));
    } else {
      assert heard + [] == heard;
    }
    assert Faithful(p1, o, heard + now, spoken);
    var after := AfterItem(p.ends[i], m);
    if IsFinal(m) {
      FaithfulClose(p1, i, after, reset, o, heard + now, spoken);
    } else {
      assert p.ends[i := p.ends[i]] == p.ends;
      assert Apply(p, Receive(i, reset)) == p1;
    }
  }

  lemma FaithfulQuit(p: Pair, i: nat, reset: bool, o: nat, heard: seq<string>, spoken: seq<string>)
    requires o < 2 && Inv(p) && Enabled(p, Quit(i, reset)) && Faithful(p, o, heard, spoken)
    ensures Faithful(Apply(p, Quit(i, reset)), o, heard, spoken + Says(p, Quit(i, reset), Other(o)))
  {
    var after := AfterQuit(p.ends[i]).0;
    assert spoken + [] == spoken;
    if p.ends[i].mode == CHAT {
      var p1 := Post(p, i, Text(LEAVE));
      if i == o {
        FaithfulOwn(p, o, Text(LEAVE), heard, spoken);
      } else {
        FaithfulSay(p, o, LEAVE, heard, spoken);
      }
      FaithfulClose(p1, i, after, reset, o, heard, spoken + Says(p, Quit(i, reset), Other(o)));
    } else if Reachable(p, i) {
      FaithfulClose(p, i, after, reset, o, heard, spoken);
    }
  }

  /** What end o says itself does not concern its own inbox. */
  lemma FaithfulOwn(p: Pair, o: nat, m: Item, heard: seq<string>, spoken: seq<string>)
    requires o < 2 && p.Valid() && Faithful(p, o, heard, spoken)
    ensures Faithful(Post(p, o, m), o, heard, spoken)
  {
  }

  lemma FaithfulBroken(p: Pair, i: nat, breaks: bool, o: nat, heard: seq<string>, spoken: seq<string>)
    requires i < 2 && o < 2 && p.Valid() && Faithful(p, o, heard, spoken)
    ensures Faithful(Broken(p, i, breaks), o, heard, spoken)
  {
    LinesAppend([Error], p.inbox[i]);
    LinesOne(Error);
    assert [] + Lines(p.inbox[i]) == Lines(p.inbox[i]);
    FaithfulItems(p, Broken(p, i, breaks), o, heard, spoken);
  }

  lemma FaithfulLeave(p: Pair, i: nat, breaks: bool, o: nat, heard: seq<string>, spoken: seq<string>)
    requires o < 2 && Inv(p) && Enabled(p, Interrupt(i, breaks)) && p.ends[i].mode == CHAT
    requires Faithful(p, o, heard, spoken)
    ensures Faithful(Apply(p, Interrupt(i, breaks)), o, heard, spoken + if i == Other(o) then ["LEAVE"] else [])
  {
    assert spoken + [] == spoken;
    if i == o {
      FaithfulOwn(p, o, Text(LEAVE), heard, spoken);
      FaithfulBroken(Post(p, i, Text(LEAVE)), i, breaks, o, heard, spoken);
    } else {
      FaithfulSay(p, o, LEAVE, heard, spoken);
      FaithfulBroken(Post(p, i, Text(LEAVE)), i, breaks, o, heard, spoken + ["LEAVE"]);
    }
    LeaveIsPosted(p, i, breaks);
  }

  lemma FaithfulStopWait(p: Pair, i: nat, breaks: bool, o: nat, heard: seq<string>, spoken: seq<string>)
    requires o < 2 && Inv(p) && Enabled(p, Interrupt(i, breaks)) && p.ends[i].mode != CHAT
    requires Faithful(p, o, heard, spoken)
    ensures Faithful(Apply(p, Interrupt(i, breaks)), o, heard, spoken)
  {
    var after := AfterSignal(p.ends[i], breaks).0;
    assert Apply(p, Interrupt(i, breaks)) == Become(p, i, after, true);
    if Reachable(p, i) && !after.accepting {
      FaithfulClose(p, i, after, true, o, heard, spoken);
    }
  }

  lemma FaithfulStep(p: Pair, e: Event, o: nat, heard: seq<string>, spoken: seq<string>)
    requires o < 2 && Inv(p) && Enabled(p, e) && Faithful(p, o, heard, spoken)
    ensures Apply(p, e).Valid()
    ensures Faithful(Apply(p, e), o, heard + Hears(p, e, o), spoken + Says(p, e, Other(o)))
  {
    InvStep(p, e);
    assert heard + [] == heard && spoken + [] == spoken;
    if e.Say? {
      if e.i == o {
        FaithfulOwn(p, o, Text(e.line), heard, spoken);
      } else {
        FaithfulSay(p, o, e.line, heard, spoken);
      }
    } else if e.Receive? {
      FaithfulReceive(p, e.i, e.reset, o, heard, spoken);
    } else if e.Quit? {
      FaithfulQuit(p, e.i, e.reset, o, heard, spoken);
    } else if e.Interrupt? {
      if p.ends[e.i].mode == CHAT {
        FaithfulLeave(p, e.i, e.breaks, o, heard, spoken);
      } else {
        FaithfulStopWait(p, e.i, e.breaks, o, heard, spoken);
      }
    } else {
      FaithfulRest(p, e, o, heard, spoken);
    }
  }

  lemma FaithfulRest(p: Pair, e: Event, o: nat, heard: seq<string>, spoken: seq<string>)
    requires o < 2 && Inv(p) && Enabled(p, e) && Faithful(p, o, heard, spoken) && (e.Dial? || e.Answer? || e.Refused?)
    ensures Faithful(Apply(p, e), o, heard, spoken)
  {
    if e.Answer? && Aborted(p.inbox[0]) {
      FaithfulClose(p, 0, AfterAccept(p.ends[0], false), false, o, heard, spoken);
    } else if e.Refused? {
      LinesOne(Error);
      assert heard + [] <= heard + Lines(p.inbox[o]);
    } else {
      FaithfulItems(p, Apply(p, e), o, heard, spoken);
    }
  }

  lemma {:induction false} FaithfulRun(p: Pair, es: seq<Event>, o: nat, heard: seq<string>, spoken: seq<string>)
    requires o < 2 && Inv(p) && RunOk(p, es) && Faithful(p, o, heard, spoken)
    ensures Exec(p, es).Valid()
    ensures Faithful(Exec(p, es), o, heard + Heard(p, es, o), spoken + Spoken(p, es, Other(o)))
    decreases |es|
  {
    if es == [] {
      assert heard + [] == heard && spoken + [] == spoken;
    } else {
      var h, w := Hears(p, es[0], o), Says(p, es[0], Other(o));
      var rest, q := es[1..], Apply(p, es[0]);
      FaithfulStep(p, es[0], o, heard, spoken);
      InvStep(p, es[0]);
      FaithfulRun(q, rest, o, heard + h, spoken + w);
      Regroup(heard, h, Heard(q, rest, o));
      Regroup(spoken, w, Spoken(q, rest, Other(o)));
    }
  }

  /**
    In every run an end hears the lines that the other one said, LEAVE included,
    in their order and from the first on; while both are connected no line is
    lost: what was said and not heard yet is in the inbox.
   */
  lemma LinesArriveInOrder(es: seq<Event>, o: nat)
    requires RunOk(Start(), es) && o < 2
    ensures var p := Exec(Start(), es);
            var heard, spoken := Heard(Start(), es, o), Spoken(Start(), es, Other(o));
            && heard <= spoken && p.Valid()
            && (Reachable(p, 0) && Reachable(p, 1) ==> heard + Lines(p.inbox[o]) == spoken)
  {
    assert [] + Heard(Start(), es, o) == Heard(Start(), es, o);
    assert [] + Spoken(Start(), es, Other(o)) == Spoken(Start(), es, Other(o));
    FaithfulRun(Start(), es, o, [], []);
  }

  // ------------------------------------------------------------------
  // Draining
  // ------------------------------------------------------------------

  /** The steps of the receiving and accepting threads. */
  predicate Draining(e: Event) {
    e.Receive? || e.Answer?
  }

  ghost predicate Drained(p: Pair)
    requires p.Valid()
  {
    !p.ringing && forall i :: 0 <= i < 2 && p.ends[i].socketOpen ==> p.inbox[i] == []
  }

  ghost function Pending(p: Pair): nat
    requires p.Valid()
  {
    |p.inbox[0]| + |p.inbox[1]| + (if p.ringing then 3 else 0)
    + (if p.ends[0].socketOpen then 2 else 0) + (if p.ends[1].socketOpen then 2 else 0)
  }

  lemma AnswerShrinks(p: Pair)
    requires Inv(p) && Enabled(p, Answer)
    ensures Apply(p, Answer).Valid() && Pending(Apply(p, Answer)) < Pending(p)
    ensures Apply(p, Answer).leaveSent == p.leaveSent
  {
  }

  lemma CloseShrinks(p: Pair, i: nat, after: End, reset: bool)
    requires p.Valid() && i < 2 && p.ends[i].socketOpen && !after.socketOpen && !p.ends[i].accepting
    ensures Close(p, i, after, reset).Valid() && Pending(Close(p, i, after, reset)) < Pending(p)
  {
  }

  lemma ReceiveShrinks(p: Pair, i: nat, reset: bool)
    requires Inv(p) && Enabled(p, Receive(i, reset))
    ensures var q := Apply(p, Receive(i, reset));
            q.Valid() && Pending(q) < Pending(p) && q.leaveSent == p.leaveSent
  {
    var p1, after := p.(inbox := p.inbox[i := p.inbox[i][1..]]), AfterItem(p.ends[i], p.inbox[i][0]);
    assert Pending(p1) < Pending(p);
    if IsFinal(p.inbox[i][0]) {
      CloseShrinks(p1, i, after, reset);
    }
  }

  lemma {:induction false} DrainsShrink(p: Pair, es: seq<Event>)
    requires Inv(p) && RunOk(p, es) && forall k :: 0 <= k < |es| ==> Draining(es[k])
    ensures Inv(Exec(p, es)) && |es| + Pending(Exec(p, es)) <= Pending(p)
    ensures Exec(p, es).leaveSent == p.leaveSent
    decreases |es|
  {
    if es != [] {
      InvStep(p, es[0]);
      if es[0].Answer? {
        AnswerShrinks(p);
      } else {
        ReceiveShrinks(p, es[0].i, es[0].reset);
      }
      DrainsShrink(Apply(p, es[0]), es[1..]);
    }
  }

  /** Nothing left to receive after a LEAVE: both ends have closed. */
  lemma DrainedMeansClosed(p: Pair)
    requires Inv(p) && p.leaveSent
    ensures Drained(p) <==> !p.ringing && Closed(p, 0) && Closed(p, 1)
  {
    assert Informed(p, 0) && Informed(p, 1);
    assert !HasFinal([]);
  }

  lemma NotDrainedCanDrain(p: Pair) returns (e: Event)
    requires Inv(p) && !Drained(p)
    ensures Draining(e) && Enabled(p, e)
  {
    if p.ringing {
      e := Answer;
    } else {
      var i :| 0 <= i < 2 && p.ends[i].socketOpen && p.inbox[i] != [];
      e := Receive(i, false);
    }
  }

  /**
    Once a LEAVE has been sent, by one end or by both, before or after the call
    was answered, taking what is there needs at most Pending steps and can always
    go on while something is left; when nothing is left both ends are out of the
    conversation with their sockets closed.
   */
  lemma LeaveClosesBoth(es: seq<Event>, rs: seq<Event>) returns (next: Event)
    requires RunOk(Start(), es) && Exec(Start(), es).leaveSent
    requires RunOk(Exec(Start(), es), rs) && forall k :: 0 <= k < |rs| ==> Draining(rs[k])
    ensures var p := Exec(Start(), es);
            var q := Exec(p, rs);
            && p.Valid() && q.Valid() && |rs| <= Pending(p)
            && (Drained(q) <==> !q.ringing && Closed(q, 0) && Closed(q, 1))
            && (!Drained(q) ==> Draining(next) && Enabled(q, next))
  {
    InvRun(Start(), es);
    DrainsShrink(Exec(Start(), es), rs);
    var q := Exec(Exec(Start(), es), rs);
    DrainedMeansClosed(q);
    next := Answer;
    if !Drained(q) {
      next := NotDrainedCanDrain(q);
    }
  }

  // ------------------------------------------------------------------
  // The client's own state
  // ------------------------------------------------------------------

  /** The global PeerInfo and ClientInfo of one client, and whether its wait thread is in accept. */
  class ChatClient {
    var mode: Mode
    var socketOpen: bool
    var listenerOpen: bool
    var serverOpen: bool
    var accepting: bool
    var exited: bool

    ghost function View(): End
      reads this
    {
      End(mode, socketOpen, accepting, exited)
    }

    constructor Waiting()
      ensures View() == Start().ends[0] && listenerOpen && serverOpen
    {
      mode, socketOpen, listenerOpen, serverOpen, accepting, exited := WAIT, false, true, true, true, false;
    }

    constructor Calling()
      ensures View() == Start().ends[1] && !listenerOpen && serverOpen
    {
      mode, socketOpen, listenerOpen, serverOpen, accepting, exited := INFO, false, false, true, false, false;
    }

    /** handle_sigint; `breaks` is what the signal does to the thread in accept. */
    method HandleSigint(breaks: bool) returns (toPeer: seq<string>, toServer: seq<string>)
      modifies this
      ensures (View(), toPeer, toServer) == AfterSignal(old(View()), breaks)
      ensures toPeer == (if old(mode) == CHAT then ["LEAVE"] else [])
      ensures toServer == (if old(mode) == WAIT then ["/stop_wait"] else [])
      ensures mode == (if old(mode) == WAIT then INFO else old(mode)) && socketOpen == old(socketOpen)
      ensures listenerOpen == (old(listenerOpen) && old(mode) != WAIT) && serverOpen == old(serverOpen)
    {
      toPeer, toServer := [], [];
      if mode == CHAT {
        toPeer := [LEAVE];
        return;
      }
      accepting := accepting && !breaks;
      if mode == WAIT {
        toServer := [STOP_WAIT];
        listenerOpen := false;
        mode := INFO;
      }
    }

    /** The rest of wait_for_connection after accept; `id` is what was received. */
    method TakeCall(id: string)
      modifies this
      ensures View() == AfterAccept(old(View()), id != "")
      ensures mode == (if id == "" then old(mode) else CHAT) && socketOpen == (old(socketOpen) || id != "")
      ensures listenerOpen == old(listenerOpen) && serverOpen == old(serverOpen)
    {
      accepting := false;
      if |id| == 0 {
        return;
      }
      socketOpen := true;
      mode := CHAT;
    }

    /** The body of receive_peer_messages after one recv; tells whether the thread ends. */
    method ReceivePeer(m: Item) returns (ends: bool)
      modifies this
      ensures View() == AfterItem(old(View()), m)
      ensures ends <==> (m.Text? ==> "LEAVE" <= m.line)
      ensures mode == (if ends then INFO else old(mode)) && socketOpen == (old(socketOpen) && !ends)
      ensures listenerOpen == old(listenerOpen) && serverOpen == old(serverOpen)
    {
      ends := m.EndOfStream? || m.Error? || IsLeave(m);
      if ends {
        socketOpen := false;
        mode := INFO;
      }
    }

    /** The /quit branch of the command loop; the exit at its end closes what is still open. */
    method QuitCommand() returns (sent: seq<string>)
      modifies this
      ensures (View(), sent) == AfterQuit(old(View()))
      ensures sent == (if old(mode) == CHAT then ["LEAVE"] else []) && exited
      ensures !socketOpen && !listenerOpen && !serverOpen
    {
      sent := [];
      if mode == CHAT {
        sent := [LEAVE];
        socketOpen := false;
      } else if mode == WAIT {
        listenerOpen := false;
      }
      serverOpen := false;
      Exit();
    }

    /** exit(0): the process and all its descriptors go. */
    method Exit()
      modifies this
      ensures View() == End(old(mode), false, false, true) && !listenerOpen && !serverOpen
    {
      socketOpen, listenerOpen, serverOpen, accepting, exited := false, false, false, false, true;
    }
  }
}
