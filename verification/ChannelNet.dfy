/**
 Two ends of one channel joined by FIFO queues, as a transition system. The invariant says
 that credit is conserved, that the byte streams arrive intact and in order, and that EOF
 and CLOSE come in their places, over every run.
 */
module ChannelNet {
  import opened Words
  import opened Channels

  /** An end with a record of what it has exchanged with its local descriptors and lost. */
  datatype End = End(
    c: Chan,
    read: seq<u8>,         // read from the local input
    written: seq<u8>,      // written to the local output
    extRead: seq<u8>,      // read from the local extended descriptor, for sending
    extWritten: seq<u8>,   // written to the local extended descriptor
    leaked: nat,           // bytes received without being charged to the window
    destroyed: nat,        // charged bytes thrown away without being credited back
    dropped: bool,         // regular data has been thrown away
    extDropped: bool)      // extended data has been thrown away

  /** An end after an event, and what the event sent. */
  datatype Moved = Moved(e: End, out: seq<Msg>)

  /** Both ends; `ab` is in flight from a to b. */
  datatype Net = Net(a: End, b: End, ab: seq<Msg>, ba: seq<Msg>)

  datatype Event =
    | Read(data: seq<u8>)
    | ReadFails
    | Write(n: nat)
    | WriteFails
    | ReadExt(data: seq<u8>)
    | WriteExt(n: nat)
    | ExtFails
    | CheckWindow
    | Poll
    | Drain
    | Reap
    | Deliver

  /** What the event loop allows an end to do. */
  predicate Enabled(e: End, incoming: seq<Msg>, ev: Event) {
    match ev
    case Read(_) => e.c.alive && e.c.istate == IOpen
    case ReadFails => e.c.alive
    case Write(n) => e.c.alive && e.c.ostate != OClosed && 0 < n <= |e.c.output|
    case WriteFails => e.c.alive && e.c.output != []
    case ReadExt(_) => e.c.alive && e.c.efd && e.c.opts.extUsage != ExtWrite
    case WriteExt(n) => e.c.alive && e.c.efd && e.c.opts.extUsage == ExtWrite && 0 < n <= |e.c.extended|
    case ExtFails => e.c.alive
    case CheckWindow => true
    case Poll => true
    case Drain => e.c.alive
    case Reap => e.c.alive
    case Deliver => incoming != []
  }

  /** A local event: the new end and what it sends. */
  function Local(e: End, ev: Event): Moved
    requires Enabled(e, [], ev)
  {
    match ev
    case Read(d) => Moved(e.(c := AfterRead(e.c, d), read := e.read + d), [])
    case ReadFails => Moved(e.(c := AfterReadFails(e.c)), [])
    case Write(n) => Moved(e.(c := AfterWrite(e.c, n), written := e.written + e.c.output[..n]), [])
    case WriteFails =>
      if e.c.ostate == OClosed then Moved(e, [])
      else
        var r := AfterWriteFails(e.c);
        Moved(e.(c := r.c, destroyed := e.destroyed + |e.c.output|, dropped := true), r.out)
    case ReadExt(d) =>
      Moved(e.(c := AfterReadExt(e.c, d), extRead := if e.c.opts.extUsage == ExtRead then e.extRead + d else e.extRead), [])
    case WriteExt(n) => Moved(e.(c := AfterWriteExt(e.c, n), extWritten := e.extWritten + e.c.extended[..n]), [])
    case ExtFails => Moved(e.(c := e.c.(efd := false)), [])
    case CheckWindow => With(e, AfterCheckWindow(e.c))
    case Poll => With(e, AfterPoll(e.c))
    case Drain => Moved(e.(c := AfterDrain(e.c)), [])
    case Reap => With(e, AfterReap(e.c))
  }

  function With(e: End, r: Emit): Moved {
    Moved(e.(c := r.c), r.out)
  }

  /** Bytes of a message that count against the window. */
  function Charge(m: Msg): nat {
    if m.Data? || m.Ext? then |m.data| else 0
  }

  /** A delivered message: the new end and its reply. Protocol errors leave the end as it is. */
  function Delivered(e: End, m: Msg): Moved {
    match Receive(e.c, m)
    case Accepted(c, reply) =>
      Moved(e.(c := c, dropped := e.dropped || (m.Data? && e.c.ostate != OOpen && m.data != [])), reply)
    case Ignored(c) =>
      Moved(e.(leaked := e.leaked + Charge(m), extDropped := e.extDropped || (m.Ext? && m.data != [])), [])
    case _ => Moved(e, [])
  }

  function Mirror(s: Net): Net {
    Net(s.b, s.a, s.ba, s.ab)
  }

  /** Net s with end a moved on. */
  function Apply(s: Net, m: Moved): Net {
    s.(a := m.e, ab := s.ab + m.out)
  }

  /** A step of end a. */
  function StepA(s: Net, ev: Event): Net
    requires Enabled(s.a, s.ba, ev)
  {
    if ev.Deliver? then Apply(s.(ba := s.ba[1..]), Delivered(s.a, s.ba[0])) else Apply(s, Local(s.a, ev))
  }

  predicate EventEnabled(s: Net, atA: bool, ev: Event) {
    if atA then Enabled(s.a, s.ba, ev) else Enabled(s.b, s.ab, ev)
  }

  function Step(s: Net, atA: bool, ev: Event): Net
    requires EventEnabled(s, atA, ev)
  {
    if atA then StepA(s, ev) else Mirror(StepA(Mirror(s), ev))
  }

  // ---- what is in flight ----

  function InFlight(q: seq<Msg>): nat {
    if q == [] then 0 else Charge(q[0]) + InFlight(q[1..])
  }

  function Credit(q: seq<Msg>): nat {
    if q == [] then 0 else (if q[0].Adjust? then q[0].credit else 0) + Credit(q[1..])
  }

  function Bytes(q: seq<Msg>): seq<u8> {
    if q == [] then [] else (if q[0].Data? then q[0].data else []) + Bytes(q[1..])
  }

  function ExtBytes(q: seq<Msg>): seq<u8> {
    if q == [] then [] else (if q[0].Ext? then q[0].data else []) + ExtBytes(q[1..])
  }

  /**
   The order RFC 4254 section 5.3 asks for, for a queue whose reader has already seen EOF or
   CLOSE or not: no data after EOF, one EOF at most, and nothing after CLOSE.
   */
  predicate Ordered(q: seq<Msg>, eof: bool, close: bool) {
    q == [] ||
    (!close && (q[0].Data? || q[0].Ext? || q[0].Eof? ==> !eof) && Ordered(q[1..], eof || q[0].Eof?, q[0].Close?))
  }

  predicate HasEof(q: seq<Msg>) {
    q != [] && (q[0].Eof? || HasEof(q[1..]))
  }

  predicate HasClose(q: seq<Msg>) {
    q != [] && (q[0].Close? || HasClose(q[1..]))
  }

  // ---- the invariant of one direction ----

  /** s is the sender, r the receiver, fwd the queue to r and back the queue to s. */
  ghost predicate CreditConserved(s: End, r: End, fwd: seq<Msg>, back: seq<Msg>) {
    s.c.remoteWindow + InFlight(fwd) + Credit(back) + r.leaked == r.c.localWindow
  }

  function ExtBuffered(c: Chan): nat {
    if c.opts.extUsage == ExtWrite then |c.extended| else 0
  }

  ghost predicate BudgetConserved(r: End) {
    r.c.localWindow + |r.c.output| + ExtBuffered(r.c) + r.c.localConsumed + r.destroyed == r.c.opts.localWindowMax
  }

  ghost predicate StreamIntact(s: End, r: End, fwd: seq<Msg>) {
    if r.dropped then r.written + r.c.output <= s.read && r.c.ostate != OOpen
    else r.written + r.c.output + (Bytes(fwd) + s.c.input) == s.read
  }

  ghost predicate ExtStreamIntact(s: End, r: End, fwd: seq<Msg>) {
    && (s.c.opts.extUsage != ExtRead ==> ExtBytes(fwd) == [] && s.extRead == [])
    && (s.c.opts.extUsage == ExtRead && r.c.opts.extUsage == ExtWrite ==>
          if r.extDropped then r.extWritten + r.c.extended <= s.extRead && !r.c.efd
          else r.extWritten + r.c.extended + (ExtBytes(fwd) + s.c.extended) == s.extRead)
  }

  ghost predicate InOrder(s: End, r: End, fwd: seq<Msg>) {
    && Ordered(fwd, r.c.eofRcvd, r.c.closeRcvd)
    && (s.c.eofSent <==> r.c.eofRcvd || HasEof(fwd))
    && (s.c.closeSent <==> r.c.closeRcvd || HasClose(fwd))
  }

  ghost predicate HalfClosed(s: End, r: End) {
    && (s.c.eofSent ==> s.c.istate == IClosed)
    && (s.c.closeSent ==> s.c.istate == IClosed && s.c.ostate == OClosed)
    && (s.c.closeRcvd ==> s.c.istate == IClosed && s.c.ostate != OOpen)
    && (s.c.eofRcvd ==> s.c.ostate != OOpen)
    && (s.c.ostate == OClosed ==> s.c.output == [])
    && (!s.c.alive ==> s.c.closeSent && s.c.closeRcvd)
    && (s.c.opts.forceDrain ==> s.c.opts.extUsage != ExtRead)
    && (s.c.eofSent && !r.c.closeSent ==> s.c.input == [] && (s.c.opts.extUsage == ExtRead ==> s.c.extended == [] && !s.c.efd))
  }

  ghost predicate Direction(s: End, r: End, fwd: seq<Msg>, back: seq<Msg>) {
    && CreditConserved(s, r, fwd, back)
    && BudgetConserved(r)
    && StreamIntact(s, r, fwd)
    && ExtStreamIntact(s, r, fwd)
    && InOrder(s, r, fwd)
    && HalfClosed(s, r)
  }

  ghost predicate Inv(s: Net) {
    Direction(s.a, s.b, s.ab, s.ba) && Direction(s.b, s.a, s.ba, s.ab)
  }

  // ---- queues ----

  lemma {:induction false} AppendCounts(q: seq<Msg>, m: Msg)
    ensures InFlight(q + [m]) == InFlight(q) + Charge(m)
    ensures Credit(q + [m]) == Credit(q) + (if m.Adjust? then m.credit else 0)
    ensures HasEof(q + [m]) <==> HasEof(q) || m.Eof?
    ensures HasClose(q + [m]) <==> HasClose(q) || m.Close?
  {
    if q == [] {
      assert q + [m] == [m];
    } else {
      AppendCounts(q[1..], m);
      assert (q + [m])[1..] == q[1..] + [m];
    }
  }

  lemma {:induction false} AppendBytes(q: seq<Msg>, m: Msg)
    ensures Bytes(q + [m]) == Bytes(q) + (if m.Data? then m.data else [])
  {
    var y := if m.Data? then m.data else [];
    if q == [] {
      assert q + [m] == [m];
      assert Bytes([]) == [];
    } else {
      var x := if q[0].Data? then q[0].data else [];
      AppendBytes(q[1..], m);
      assert (q + [m])[1..] == q[1..] + [m];
      assert x + (Bytes(q[1..]) + y) == x + Bytes(q[1..]) + y;
    }
  }

  lemma {:induction false} AppendExtBytes(q: seq<Msg>, m: Msg)
    ensures ExtBytes(q + [m]) == ExtBytes(q) + (if m.Ext? then m.data else [])
  {
    var y := if m.Ext? then m.data else [];
    if q == [] {
      assert q + [m] == [m];
      assert ExtBytes([]) == [];
    } else {
      var x := if q[0].Ext? then q[0].data else [];
      AppendExtBytes(q[1..], m);
      assert (q + [m])[1..] == q[1..] + [m];
      assert x + (ExtBytes(q[1..]) + y) == x + ExtBytes(q[1..]) + y;
    }
  }

  lemma Append(q: seq<Msg>, m: Msg)
    ensures InFlight(q + [m]) == InFlight(q) + Charge(m)
    ensures Credit(q + [m]) == Credit(q) + (if m.Adjust? then m.credit else 0)
    ensures Bytes(q + [m]) == Bytes(q) + (if m.Data? then m.data else [])
    ensures ExtBytes(q + [m]) == ExtBytes(q) + (if m.Ext? then m.data else [])
    ensures HasEof(q + [m]) <==> HasEof(q) || m.Eof?
    ensures HasClose(q + [m]) <==> HasClose(q) || m.Close?
  {
    AppendCounts(q, m);
    AppendBytes(q, m);
    AppendExtBytes(q, m);
  }

  lemma {:induction false} OrderedAppend(q: seq<Msg>, m: Msg, eof: bool, close: bool)
    requires Ordered(q, eof, close) && !close && !HasClose(q)
    requires m.Data? || m.Ext? || m.Eof? ==> !eof && !HasEof(q)
    ensures Ordered(q + [m], eof, close)
  {
    if q == [] {
      assert q + [m] == [m];
    } else {
      OrderedAppend(q[1..], m, eof || q[0].Eof?, false);
      assert (q + [m])[1..] == q[1..] + [m];
    }
  }

  /** A live end that has not sent CLOSE may send m. */
  ghost predicate MaySend(e: End, m: Msg) {
    !e.c.closeSent && (m.Data? || m.Ext? || m.Eof? ==> !e.c.eofSent)
  }

  lemma SendInOrder(s: End, r: End, fwd: seq<Msg>, m: Msg)
    requires InOrder(s, r, fwd) && MaySend(s, m)
    ensures Ordered(fwd + [m], r.c.eofRcvd, r.c.closeRcvd)
    ensures HasEof(fwd + [m]) <==> HasEof(fwd) || m.Eof?
    ensures HasClose(fwd + [m]) <==> HasClose(fwd) || m.Close?
  {
    Append(fwd, m);
    OrderedAppend(fwd, m, r.c.eofRcvd, r.c.closeRcvd);
  }

  // ---- local events without messages ----

  lemma ReadStep(s: Net, d: seq<u8>)
    requires Inv(s) && Enabled(s.a, s.ba, Read(d))
    ensures Inv(Apply(s, Local(s.a, Read(d))))
  {
    hide InFlight, Credit, Bytes, ExtBytes, Ordered, HasEof, HasClose;
    assert s.ab + [] == s.ab;
    assert s.b.written + s.b.c.output + (Bytes(s.ab) + (s.a.c.input + d))
        == s.b.written + s.b.c.output + (Bytes(s.ab) + s.a.c.input) + d;
  }

  lemma ReadFailsStep(s: Net)
    requires Inv(s) && Enabled(s.a, s.ba, ReadFails)
    ensures Inv(Apply(s, Local(s.a, ReadFails)))
  {
    hide InFlight, Credit, Bytes, ExtBytes, Ordered, HasEof, HasClose;
    assert s.ab + [] == s.ab;
  }

  lemma WriteStep(s: Net, n: nat)
    requires Inv(s) && Enabled(s.a, s.ba, Write(n))
    ensures Inv(Apply(s, Local(s.a, Write(n))))
  {
    hide InFlight, Credit, Bytes, ExtBytes, Ordered, HasEof, HasClose;
    assert s.ab + [] == s.ab;
    var c := s.a.c;
    assert s.a.written + c.output[..n] + c.output[n..] == s.a.written + c.output;
  }

  lemma ReadExtStep(s: Net, d: seq<u8>)
    requires Inv(s) && Enabled(s.a, s.ba, ReadExt(d))
    ensures Inv(Apply(s, Local(s.a, ReadExt(d))))
  {
    hide InFlight, Credit, Bytes, ExtBytes, Ordered, HasEof, HasClose;
    assert s.ab + [] == s.ab;
    assert s.b.extWritten + s.b.c.extended + (ExtBytes(s.ab) + (s.a.c.extended + d))
        == s.b.extWritten + s.b.c.extended + (ExtBytes(s.ab) + s.a.c.extended) + d;
  }

  lemma WriteExtStep(s: Net, n: nat)
    requires Inv(s) && Enabled(s.a, s.ba, WriteExt(n))
    ensures Inv(Apply(s, Local(s.a, WriteExt(n))))
  {
    hide InFlight, Credit, Bytes, ExtBytes, Ordered, HasEof, HasClose;
    assert s.ab + [] == s.ab;
    var c := s.a.c;
    assert s.a.extWritten + c.extended[..n] + c.extended[n..] == s.a.extWritten + c.extended;
  }

  lemma ExtFailsStep(s: Net)
    requires Inv(s) && Enabled(s.a, s.ba, ExtFails)
    ensures Inv(Apply(s, Local(s.a, ExtFails)))
  {
    hide InFlight, Credit, Bytes, ExtBytes, Ordered, HasEof, HasClose;
    assert s.ab + [] == s.ab;
  }

  lemma DrainStep(s: Net)
    requires Inv(s) && Enabled(s.a, s.ba, Drain)
    ensures Inv(Apply(s, Local(s.a, Drain)))
  {
    hide InFlight, Credit, Bytes, ExtBytes, Ordered, HasEof, HasClose;
    hide EfdOutputActive;
    assert s.ab + [] == s.ab;
  }

  // ---- local events that send ----

  lemma WriteFailsStep(s: Net)
    requires Inv(s) && Enabled(s.a, s.ba, WriteFails)
    ensures Inv(Apply(s, Local(s.a, WriteFails)))
  {
    hide InFlight, Credit, Bytes, ExtBytes, Ordered, HasEof, HasClose;
    assert s.ab + [] == s.ab;
    var out := Local(s.a, WriteFails).out;
    if out != [] {
      Append(s.ab, out[0]);
      SendInOrder(s.a, s.b, s.ab, out[0]);
    }
    assert s.a.written + [] <= s.a.written + s.a.c.output;
  }

  lemma CheckWindowStep(s: Net)
    requires Inv(s) && Enabled(s.a, s.ba, CheckWindow)
    ensures Inv(Apply(s, Local(s.a, CheckWindow)))
  {
    hide InFlight, Credit, Bytes, ExtBytes, Ordered, HasEof, HasClose;
    assert s.ab + [] == s.ab;
    var out := Local(s.a, CheckWindow).out;
    if out != [] {
      Append(s.ab, out[0]);
      SendInOrder(s.a, s.b, s.ab, out[0]);
    }
  }

  lemma ReapStep(s: Net)
    requires Inv(s) && Enabled(s.a, s.ba, Reap)
    ensures Inv(Apply(s, Local(s.a, Reap)))
  {
    hide InFlight, Credit, Bytes, ExtBytes, Ordered, HasEof, HasClose;
    assert s.ab + [] == s.ab;
    var out := Local(s.a, Reap).out;
    if out != [] {
      Append(s.ab, out[0]);
      SendInOrder(s.a, s.b, s.ab, out[0]);
    }
  }

  lemma SendDataStep(s: Net, n: nat)
    requires Inv(s) && s.a.c.istate != IClosed && n <= |s.a.c.input| && n <= s.a.c.remoteWindow
    ensures Inv(Apply(s, With(s.a, SendData(s.a.c, n))))
  {
    hide InFlight, Credit, Bytes, ExtBytes, Ordered, HasEof, HasClose;
    var c, m := s.a.c, Data(s.a.c.input[..n]);
    Append(s.ab, m);
    SendInOrder(s.a, s.b, s.ab, m);
    assert Bytes(s.ab) + m.data + c.input[n..] == Bytes(s.ab) + c.input;
  }

  lemma SendEofStep(s: Net)
    requires Inv(s) && s.a.c.istate == IWaitDrain && s.a.c.input == [] && !EfdInputActive(s.a.c)
    ensures Inv(Apply(s, With(s.a, SendEof(s.a.c))))
  {
    hide InFlight, Credit, Bytes, ExtBytes, Ordered, HasEof, HasClose;
    Append(s.ab, Eof);
    SendInOrder(s.a, s.b, s.ab, Eof);
  }

  lemma SendExtStep(s: Net, n: nat)
    requires Inv(s) && !s.a.c.eofSent && !s.a.c.closeSent && s.a.c.opts.extUsage == ExtRead
    requires n <= |s.a.c.extended| && n <= s.a.c.remoteWindow
    ensures Inv(Apply(s, With(s.a, SendExt(s.a.c, n))))
  {
    hide InFlight, Credit, Bytes, ExtBytes, Ordered, HasEof, HasClose;
    var c, m := s.a.c, Ext(s.a.c.extended[..n]);
    Append(s.ab, m);
    SendInOrder(s.a, s.b, s.ab, m);
    assert ExtBytes(s.ab) + m.data + c.extended[n..] == ExtBytes(s.ab) + c.extended;
  }

  lemma PollDataStep(s: Net)
    requires Inv(s)
    ensures Inv(Apply(s, With(s.a, PollData(s.a.c))))
  {
    hide Inv, SendData, SendEof;
    var c := s.a.c;
    assert s.ab + [] == s.ab;
    if c.istate != IClosed && c.input != [] {
      SendDataStep(s, Sendable(c, |c.input|));
    } else if c.istate == IWaitDrain && !EfdInputActive(c) {
      SendEofStep(s);
    }
  }

  lemma PollExtStep(s: Net)
    requires Inv(s) && !s.a.c.closeSent
    ensures Inv(Apply(s, With(s.a, PollExt(s.a.c))))
  {
    hide Inv, SendExt;
    var c := s.a.c;
    assert s.ab + [] == s.ab;
    if !c.eofSent && c.remoteWindow > 0 && c.extended != [] && c.opts.extUsage == ExtRead {
      SendExtStep(s, Sendable(c, |c.extended|));
    }
  }

  lemma PollStep(s: Net)
    requires Inv(s)
    ensures Inv(Apply(s, Local(s.a, Poll)))
  {
    hide Inv, PollData, PollExt;
    if s.a.c.alive && !Closing(s.a.c) {
      var e1 := PollData(s.a.c);
      var s1 := Apply(s, With(s.a, e1));
      PollDataStep(s);
      PollSendsNoClose(s.a.c);
      PollExtStep(s1);
      assert s.ab + e1.out + PollExt(e1.c).out == s.ab + (e1.out + PollExt(e1.c).out);
    } else {
      assert s.ab + [] == s.ab;
    }
  }

  lemma PollSendsNoClose(c: Chan)
    ensures PollData(c).c.closeSent == c.closeSent
  {
    hide Sendable, EfdInputActive;
  }

  // ---- delivery ----

  lemma Head(q: seq<Msg>, eof: bool, close: bool)
    requires q != [] && Ordered(q, eof, close)
    ensures InFlight(q) == Charge(q[0]) + InFlight(q[1..])
    ensures Credit(q) == (if q[0].Adjust? then q[0].credit else 0) + Credit(q[1..])
    ensures Bytes(q) == (if q[0].Data? then q[0].data else []) + Bytes(q[1..])
    ensures ExtBytes(q) == (if q[0].Ext? then q[0].data else []) + ExtBytes(q[1..])
    ensures HasEof(q) <==> q[0].Eof? || HasEof(q[1..])
    ensures HasClose(q) <==> q[0].Close? || HasClose(q[1..])
    ensures !close && (q[0].Data? || q[0].Ext? || q[0].Eof? ==> !eof)
    ensures Ordered(q[1..], eof || q[0].Eof?, q[0].Close?)
  {
  }

  /** After CLOSE nothing is left to deliver. */
  lemma ClosedQueueEmpty(q: seq<Msg>, eof: bool)
    requires Ordered(q, eof, true)
    ensures q == []
  {
  }

  /** The net after the head of ba has been delivered to a. */
  function AfterDeliver(s: Net): Net
    requires s.ba != []
  {
    Apply(s.(ba := s.ba[1..]), Delivered(s.a, s.ba[0]))
  }

  /** What delivery changes at the queue: the rest of ba is left, with the flags that follow it. */
  ghost predicate Arrived(s: Net, t: Net, m: Msg) {
    s.a.c.alive && s.ba == [m] + t.ba && t.b == s.b
  }

  lemma ArrivedHead(s: Net, t: Net, m: Msg)
    requires Inv(s) && Arrived(s, t, m)
    ensures InFlight(s.ba) == Charge(m) + InFlight(t.ba)
    ensures Credit(s.ba) == (if m.Adjust? then m.credit else 0) + Credit(t.ba)
    ensures Bytes(s.ba) == (if m.Data? then m.data else []) + Bytes(t.ba)
    ensures ExtBytes(s.ba) == (if m.Ext? then m.data else []) + ExtBytes(t.ba)
    ensures HasEof(s.ba) <==> m.Eof? || HasEof(t.ba)
    ensures HasClose(s.ba) <==> m.Close? || HasClose(t.ba)
    ensures !s.a.c.closeRcvd && (m.Data? || m.Ext? || m.Eof? ==> !s.a.c.eofRcvd)
    ensures Ordered(t.ba, s.a.c.eofRcvd || m.Eof?, m.Close?)
  {
    assert s.ba[1..] == t.ba;
    Head(s.ba, s.a.c.eofRcvd, s.a.c.closeRcvd);
  }

  lemma DeliverData(s: Net, t: Net, d: seq<u8>)
    requires Inv(s) && Arrived(s, t, Data(d))
    requires s.a.c.ostate == OOpen && |d| <= s.a.c.localWindow
    requires t.a == s.a.(c := s.a.c.(localWindow := s.a.c.localWindow - |d|, output := s.a.c.output + d)) && t.ab == s.ab
    ensures Inv(t)
  {
    hide InFlight, Credit, Bytes, ExtBytes, Ordered, HasEof, HasClose;
    ArrivedHead(s, t, Data(d));
    assert s.a.written + s.a.c.output + (d + Bytes(t.ba) + s.b.c.input)
        == s.a.written + (s.a.c.output + d) + (Bytes(t.ba) + s.b.c.input);
  }

  lemma DropData(s: Net, t: Net, d: seq<u8>)
    requires Inv(s) && Arrived(s, t, Data(d))
    requires s.a.c.ostate != OOpen && |d| <= s.a.c.localWindow && s.a.c.localConsumed + |d| < 0x1_0000_0000
    requires t.a == s.a.(c := s.a.c.(localWindow := s.a.c.localWindow - |d|, localConsumed := s.a.c.localConsumed + |d|),
                           dropped := s.a.dropped || d != []) && t.ab == s.ab
    ensures Inv(t)
  {
    hide InFlight, Credit, Bytes, ExtBytes, Ordered, HasEof, HasClose;
    ArrivedHead(s, t, Data(d));
  }

  lemma DeliverExt(s: Net, t: Net, d: seq<u8>)
    requires Inv(s) && Arrived(s, t, Ext(d))
    requires s.a.c.efd && s.a.c.opts.extUsage == ExtWrite && |d| <= s.a.c.localWindow
    requires t.a == s.a.(c := s.a.c.(localWindow := s.a.c.localWindow - |d|, extended := s.a.c.extended + d)) && t.ab == s.ab
    ensures Inv(t)
  {
    hide InFlight, Credit, Bytes, ExtBytes, Ordered, HasEof, HasClose;
    ArrivedHead(s, t, Ext(d));
    assert s.a.extWritten + s.a.c.extended + (d + ExtBytes(t.ba) + s.b.c.extended)
        == s.a.extWritten + (s.a.c.extended + d) + (ExtBytes(t.ba) + s.b.c.extended);
  }

  lemma IgnoreExt(s: Net, t: Net, d: seq<u8>)
    requires Inv(s) && Arrived(s, t, Ext(d))
    requires !s.a.c.efd || s.a.c.opts.extUsage != ExtWrite
    requires t.a == s.a.(leaked := s.a.leaked + |d|, extDropped := s.a.extDropped || d != []) && t.ab == s.ab
    ensures Inv(t)
  {
    hide InFlight, Credit, Bytes, ExtBytes, Ordered, HasEof, HasClose;
    ArrivedHead(s, t, Ext(d));
    if d == [] {
      assert ExtBytes(s.ba) == ExtBytes(t.ba);
    }
  }

  lemma DeliverAdjust(s: Net, t: Net, k: u32)
    requires Inv(s) && Arrived(s, t, Adjust(k))
    requires s.a.c.remoteWindow + k < 0x1_0000_0000
    requires t.a == s.a.(c := s.a.c.(remoteWindow := s.a.c.remoteWindow + k)) && t.ab == s.ab
    ensures Inv(t)
  {
    hide InFlight, Credit, Bytes, ExtBytes, Ordered, HasEof, HasClose;
    ArrivedHead(s, t, Adjust(k));
  }

  function StopOutput(o: OState): OState {
    if o == OOpen then OWaitDrain else o
  }

  lemma EofNoted(s: Net, t: Net)
    requires Inv(s) && Arrived(s, t, Eof)
    requires t.a == s.a.(c := NoteEof(s.a.c)) && t.ab == s.ab
    ensures Inv(t)
  {
    hide InFlight, Credit, Bytes, ExtBytes, Ordered, HasEof, HasClose;
    ArrivedHead(s, t, Eof);
  }

  lemma ForceDrainStep(s: Net)
    requires Inv(s) && s.a.c.alive
    ensures Inv(Apply(s, With(s.a, AfterForceDrain(s.a.c))))
  {
    assert s.ab + [] == s.ab;
    if s.a.c.opts.forceDrain && s.a.c.istate == IOpen {
      assert !EfdInputActive(s.a.c);
      ReadFailsStep(s);
      var s1 := Apply(s, Local(s.a, ReadFails));
      assert s1 == s.(a := s.a.(c := s.a.c.(istate := IWaitDrain)));
      hide Inv, SendEof;
      if s.a.c.input == [] {
        SendEofStep(s1);
      }
    }
  }

  lemma DeliverEow(s: Net, t: Net)
    requires Inv(s) && Arrived(s, t, Eow)
    requires t.a == s.a.(c := s.a.c.(istate := if s.a.c.istate == IOpen then IClosed else s.a.c.istate)) && t.ab == s.ab
    ensures Inv(t)
  {
    hide InFlight, Credit, Bytes, ExtBytes, Ordered, HasEof, HasClose;
    ArrivedHead(s, t, Eow);
  }

  lemma DeliverClose(s: Net, t: Net)
    requires Inv(s) && Arrived(s, t, Close)
    requires s.a.c.istate != IWaitDrain
    requires t.a == s.a.(c := s.a.c.(closeRcvd := true, ostate := StopOutput(s.a.c.ostate), istate := IClosed))
    requires t.ab == s.ab
    ensures Inv(t)
  {
    hide InFlight, Credit, Bytes, ExtBytes, Ordered, HasEof, HasClose;
    ArrivedHead(s, t, Close);
  }

  lemma DeliverCloseDraining(s: Net, t: Net)
    requires Inv(s) && Arrived(s, t, Close)
    requires s.a.c.istate == IWaitDrain
    requires t.a == s.a.(c := s.a.c.(closeRcvd := true, ostate := StopOutput(s.a.c.ostate), istate := IClosed, eofSent := true))
    requires t.ab == s.ab + [Eof]
    ensures Inv(t)
  {
    hide InFlight, Credit, Bytes, ExtBytes, Ordered, HasEof, HasClose;
    ArrivedHead(s, t, Close);
    Append(s.ab, Eof);
    SendInOrder(s.a, s.b, s.ab, Eof);
  }

  /**
   Between conforming ends a delivered message is never more than the window, never arrives
   for a freed channel, is never extended data after EOF and never overflows the window.
   */
  ghost predicate Benign(o: Outcome) {
    o.Accepted? || o.Ignored?
  }

  lemma DataStep(s: Net)
    requires Inv(s) && s.ba != [] && s.ba[0].Data?
    ensures Benign(Receive(s.a.c, s.ba[0])) && Inv(AfterDeliver(s))
  {
    WindowFacts(s);
    hide *;
    if s.a.c.ostate == OOpen {
      OpenDataStep(s);
    } else {
      ClosedDataStep(s);
    }
  }

  lemma OpenDataStep(s: Net)
    requires Inv(s) && s.ba != [] && s.ba[0].Data? && s.a.c.alive && s.a.c.ostate == OOpen
    requires Charge(s.ba[0]) <= s.a.c.localWindow
    ensures Benign(Receive(s.a.c, s.ba[0])) && Inv(AfterDeliver(s))
  {
    hide Inv;
    var m := s.ba[0];
    assert s.ab + [] == s.ab && s.ba == [m] + s.ba[1..];
    DeliverData(s, AfterDeliver(s), m.data);
  }

  lemma ClosedDataStep(s: Net)
    requires Inv(s) && s.ba != [] && s.ba[0].Data? && s.a.c.alive && s.a.c.ostate != OOpen
    requires Charge(s.ba[0]) <= s.a.c.localWindow && s.a.c.localConsumed + Charge(s.ba[0]) < 0x1_0000_0000
    ensures Benign(Receive(s.a.c, s.ba[0])) && Inv(AfterDeliver(s))
  {
    hide Inv;
    var m := s.ba[0];
    assert s.ab + [] == s.ab && s.ba == [m] + s.ba[1..];
    DropData(s, AfterDeliver(s), m.data);
  }

  lemma ExtStep(s: Net)
    requires Inv(s) && s.ba != [] && s.ba[0].Ext?
    ensures Benign(Receive(s.a.c, s.ba[0])) && Inv(AfterDeliver(s))
  {
    var m, t := s.ba[0], AfterDeliver(s);
    assert s.ab + [] == s.ab && s.ba == [m] + s.ba[1..];
    WindowFacts(s);
    hide Inv;
    if s.a.c.efd && s.a.c.opts.extUsage == ExtWrite {
      DeliverExt(s, t, m.data);
    } else {
      IgnoreExt(s, t, m.data);
    }
  }

  lemma AdjustStep(s: Net)
    requires Inv(s) && s.ba != [] && s.ba[0].Adjust?
    ensures Benign(Receive(s.a.c, s.ba[0])) && Inv(AfterDeliver(s))
  {
    var m, t := s.ba[0], AfterDeliver(s);
    assert s.ab + [] == s.ab && s.ba == [m] + s.ba[1..];
    WindowFacts(s);
    hide Inv;
    DeliverAdjust(s, t, m.credit);
  }

  lemma EofStep(s: Net)
    requires Inv(s) && s.ba != [] && s.ba[0].Eof?
    ensures Benign(Receive(s.a.c, s.ba[0])) && Inv(AfterDeliver(s))
  {
    WindowFacts(s);
    hide Inv, AfterForceDrain, AfterDrain, NoteEof;
    assert s.ba == [s.ba[0]] + s.ba[1..];
    var s1 := Net(s.a.(c := NoteEof(s.a.c)), s.b, s.ab, s.ba[1..]);
    EofNoted(s, s1);
    EofKeepsAlive(s.a.c);
    DrainStep(s1);
    var s2 := Apply(s1, Local(s1.a, Drain));
    assert s.ab + [] == s.ab;
    ForceDrainStep(s2);
    assert AfterDeliver(s) == Apply(s2, With(s2.a, AfterForceDrain(s2.a.c)));
  }

  lemma EofKeepsAlive(c: Chan)
    ensures NoteEof(c).alive == c.alive && AfterDrain(c).alive == c.alive
  {
  }

  lemma EowStep(s: Net)
    requires Inv(s) && s.ba != [] && s.ba[0].Eow?
    ensures Benign(Receive(s.a.c, s.ba[0])) && Inv(AfterDeliver(s))
  {
    var m, t := s.ba[0], AfterDeliver(s);
    assert s.ab + [] == s.ab && s.ba == [m] + s.ba[1..];
    WindowFacts(s);
    hide Inv;
    DeliverEow(s, t);
  }

  lemma CloseStep(s: Net)
    requires Inv(s) && s.ba != [] && s.ba[0].Close?
    ensures Benign(Receive(s.a.c, s.ba[0])) && Inv(AfterDeliver(s))
  {
    var m, t := s.ba[0], AfterDeliver(s);
    assert s.ab + [] == s.ab && s.ba == [m] + s.ba[1..];
    WindowFacts(s);
    hide Inv;
    if s.a.c.istate == IWaitDrain {
      DeliverCloseDraining(s, t);
    } else {
      DeliverClose(s, t);
    }
  }

  lemma DeliverStep(s: Net)
    requires Inv(s) && s.ba != []
    ensures Benign(Receive(s.a.c, s.ba[0])) && Inv(AfterDeliver(s))
  {
    hide *;
    match s.ba[0] {
      case Data(_) => DataStep(s);
      case Ext(_) => ExtStep(s);
      case Adjust(_) => AdjustStep(s);
      case Eof => EofStep(s);
      case Eow => EowStep(s);
      case Close => CloseStep(s);
    }
  }

  lemma StepAKeepsInv(s: Net, ev: Event)
    requires Inv(s) && Enabled(s.a, s.ba, ev)
    ensures Inv(StepA(s, ev))
  {
    hide Inv, Local, Delivered;
    match ev {
      case Read(d) => ReadStep(s, d);
      case ReadFails => ReadFailsStep(s);
      case Write(n) => WriteStep(s, n);
      case WriteFails => WriteFailsStep(s);
      case ReadExt(d) => ReadExtStep(s, d);
      case WriteExt(n) => WriteExtStep(s, n);
      case ExtFails => ExtFailsStep(s);
      case CheckWindow => CheckWindowStep(s);
      case Poll => PollStep(s);
      case Drain => DrainStep(s);
      case Reap => ReapStep(s);
      case Deliver => DeliverStep(s);
    }
  }

  /** Every step of either end keeps the invariant. */
  lemma StepKeepsInv(s: Net, atA: bool, ev: Event)
    requires Inv(s) && EventEnabled(s, atA, ev)
    ensures Inv(Step(s, atA, ev))
  {
    hide StepA, Direction;
    if atA {
      StepAKeepsInv(s, ev);
    } else {
      StepAKeepsInv(Mirror(s), ev);
    }
  }

  // ---- runs ----

  /** What a receiver offers and its peer has been told: by the open messages or by a first adjust in flight. */
  ghost predicate Offered(s: End, r: End, back: seq<Msg>) {
    || (s.c.remoteWindow == r.c.opts.localWindowMax && back == [])
    || (s.c.remoteWindow == 0 && back == [Adjust(r.c.opts.localWindowMax)])
  }

  /** A new end: fresh buffers and flags, nothing exchanged yet. */
  ghost predicate NewEnd(e: End) {
    && e.c == Fresh(e.c.opts, e.c.efd).(remoteWindow := e.c.remoteWindow, remoteMaxPacket := e.c.remoteMaxPacket)
    && (e.c.opts.forceDrain ==> e.c.opts.extUsage == ExtIgnore)
    && e == End(e.c, [], [], [], [], 0, 0, false, false)
  }

  ghost predicate Initial(s: Net) {
    NewEnd(s.a) && NewEnd(s.b) && Offered(s.a, s.b, s.ba) && Offered(s.b, s.a, s.ab)
  }

  datatype Move = Move(atA: bool, ev: Event)

  /** The state after a run from s; moves that are not enabled are skipped. */
  function Run(s: Net, moves: seq<Move>): Net
    decreases |moves|
  {
    if moves == [] then s
    else
      var before := Run(s, moves[..|moves| - 1]);
      var m := moves[|moves| - 1];
      if EventEnabled(before, m.atA, m.ev) then Step(before, m.atA, m.ev) else before
  }

  lemma InitialInv(s: Net)
    requires Initial(s)
    ensures Inv(s)
  {
    InitialDirection(s.a, s.b, s.ab, s.ba);
    InitialDirection(s.b, s.a, s.ba, s.ab);
  }

  lemma InitialDirection(s: End, r: End, fwd: seq<Msg>, back: seq<Msg>)
    requires NewEnd(s) && NewEnd(r) && Offered(s, r, back) && Offered(r, s, fwd)
    ensures Direction(s, r, fwd, back)
  {
    InitialQueue(fwd);
    InitialQueue(back);
    hide InFlight, Credit, Bytes, ExtBytes, Ordered, HasEof, HasClose;
  }

  lemma InitialQueue(q: seq<Msg>)
    requires q == [] || (|q| == 1 && q[0].Adjust?)
    ensures InFlight(q) == 0 && Bytes(q) == [] && ExtBytes(q) == [] && !HasEof(q) && !HasClose(q)
    ensures Credit(q) == if q == [] then 0 else q[0].credit
    ensures Ordered(q, false, false)
  {
    assert q != [] ==> q[1..] == [];
  }

  /** The invariant holds after every run. */
  lemma {:induction false} RunKeepsInv(s: Net, moves: seq<Move>)
    requires Initial(s)
    ensures Inv(Run(s, moves))
    decreases |moves|
  {
    hide Inv, Step;
    if moves == [] {
      InitialInv(s);
    } else {
      var m := moves[|moves| - 1];
      var before := Run(s, moves[..|moves| - 1]);
      RunKeepsInv(s, moves[..|moves| - 1]);
      if EventEnabled(before, m.atA, m.ev) {
        StepKeepsInv(before, m.atA, m.ev);
      }
    }
  }

  /** What the invariant says about the message that comes next. */
  lemma WindowFacts(s: Net)
    requires Inv(s) && s.ba != []
    ensures s.a.c.alive && (s.ba[0].Ext? ==> !s.a.c.eofRcvd)
    ensures Charge(s.ba[0]) <= s.a.c.localWindow && s.a.c.localConsumed + Charge(s.ba[0]) < 0x1_0000_0000
    ensures s.ba[0].Adjust? ==> s.a.c.remoteWindow + s.ba[0].credit < 0x1_0000_0000
  {
    if !s.a.c.alive {
      ClosedQueueEmpty(s.ba, s.a.c.eofRcvd);
    }
    Head(s.ba, s.a.c.eofRcvd, s.a.c.closeRcvd);
  }

  // ---- what the invariant means ----

  /** After any run, whatever is delivered next at either end is handled without an error. */
  lemma NoProtocolError(s: Net, moves: seq<Move>)
    requires Initial(s)
    ensures var t := Run(s, moves);
      && (t.ba != [] ==> Benign(Receive(t.a.c, t.ba[0])))
      && (t.ab != [] ==> Benign(Receive(t.b.c, t.ab[0])))
  {
    hide Run;
    var t := Run(s, moves);
    RunKeepsInv(s, moves);
    if t.ba != [] {
      DeliverStep(t);
    }
    if t.ab != [] {
      DeliverStep(Mirror(t));
    }
  }

  /** Credit held or in flight never exceeds the window, and equals it unless data was ignored. */
  lemma CreditBound(s: Net, moves: seq<Move>)
    requires Initial(s)
    ensures var t := Run(s, moves);
      && t.a.c.remoteWindow + InFlight(t.ab) + Credit(t.ba) <= t.b.c.localWindow <= t.b.c.opts.localWindowMax
      && (t.a.c.remoteWindow + InFlight(t.ab) + Credit(t.ba) == t.b.c.localWindow <==> t.b.leaked == 0)
  {
    hide Run;
    RunKeepsInv(s, moves);
  }

  /**
   What b has written is always a prefix of what a has read. With b's output open, and until data
   is thrown away, nothing is missing between the two; once EOF is in, b has all of it.
   */
  lemma StreamDelivered(s: Net, moves: seq<Move>)
    requires Initial(s)
    ensures var t := Run(s, moves);
      && t.b.written <= t.a.read
      && (t.b.c.ostate == OOpen || !t.b.dropped ==> t.b.written + t.b.c.output + Bytes(t.ab) + t.a.c.input == t.a.read)
      && (!t.b.dropped && t.b.c.eofRcvd && !t.b.c.closeSent ==> t.b.written + t.b.c.output == t.a.read)
  {
    hide Run, Direction;
    var t := Run(s, moves);
    RunKeepsInv(s, moves);
    StreamMeaning(t.a, t.b, t.ab, t.ba);
  }

  lemma StreamMeaning(s: End, r: End, fwd: seq<Msg>, back: seq<Msg>)
    requires Direction(s, r, fwd, back)
    ensures r.written <= s.read
    ensures r.c.ostate == OOpen || !r.dropped ==> r.written + r.c.output + Bytes(fwd) + s.c.input == s.read
    ensures !r.dropped && r.c.eofRcvd && !r.c.closeSent ==> r.written + r.c.output == s.read
  {
    assert r.written <= r.written + r.c.output;
    if !r.dropped {
      assert r.written + r.c.output + Bytes(fwd) + s.c.input == r.written + r.c.output + (Bytes(fwd) + s.c.input);
      if r.c.eofRcvd {
        NoBytesAfterEof(fwd, r.c.closeRcvd);
      }
    }
  }

  lemma {:induction false} NoBytesAfterEof(q: seq<Msg>, close: bool)
    requires Ordered(q, true, close)
    ensures Bytes(q) == [] && ExtBytes(q) == []
  {
    if q != [] {
      NoBytesAfterEof(q[1..], q[0].Close?);
    }
  }

  /** The same for extended data, where a sends it and b writes it. */
  lemma ExtStreamDelivered(s: Net, moves: seq<Move>)
    requires Initial(s)
    requires Run(s, moves).a.c.opts.extUsage == ExtRead && Run(s, moves).b.c.opts.extUsage == ExtWrite
    ensures var t := Run(s, moves);
      && t.b.extWritten <= t.a.extRead
      && (!t.b.extDropped ==> t.b.extWritten + t.b.c.extended + ExtBytes(t.ab) + t.a.c.extended == t.a.extRead)
      && (!t.b.extDropped && t.b.c.eofRcvd && !t.b.c.closeSent ==> t.b.extWritten + t.b.c.extended == t.a.extRead)
  {
    hide Run, Direction;
    var t := Run(s, moves);
    RunKeepsInv(s, moves);
    ExtStreamMeaning(t.a, t.b, t.ab, t.ba);
  }

  lemma ExtStreamMeaning(s: End, r: End, fwd: seq<Msg>, back: seq<Msg>)
    requires Direction(s, r, fwd, back) && s.c.opts.extUsage == ExtRead && r.c.opts.extUsage == ExtWrite
    ensures r.extWritten <= s.extRead
    ensures !r.extDropped ==> r.extWritten + r.c.extended + ExtBytes(fwd) + s.c.extended == s.extRead
    ensures !r.extDropped && r.c.eofRcvd && !r.c.closeSent ==> r.extWritten + r.c.extended == s.extRead
  {
    assert r.extWritten <= r.extWritten + r.c.extended;
    if !r.extDropped {
      assert r.extWritten + r.c.extended + ExtBytes(fwd) + s.c.extended
          == r.extWritten + r.c.extended + (ExtBytes(fwd) + s.c.extended);
      if r.c.eofRcvd {
        NoBytesAfterEof(fwd, r.c.closeRcvd);
      }
    }
  }

  /** A starved sender, nothing in flight, and a receiver that has written all it got. */
  ghost predicate Starved(t: Net) {
    && t.a.c.remoteWindow == 0 && InFlight(t.ab) == 0 && Credit(t.ba) == 0
    && t.b.c.output == [] && ExtBuffered(t.b.c) == 0
    && t.b.leaked == 0 && t.b.destroyed == 0
    && t.b.c.alive && !Closing(t.b.c)
  }

  /**
   A starved sender is given the whole window again, exactly if the window is at least 2, or
   is 1 with a maximum packet size of 0.
   */
  lemma NoCreditDeadlock(s: Net, moves: seq<Move>)
    requires Initial(s) && Starved(Run(s, moves))
    ensures var c := Run(s, moves).b.c;
      && (AdjustDue(c) <==> c.opts.localWindowMax >= 2 || (c.opts.localWindowMax == 1 && c.opts.localMaxPacket == 0))
      && (AdjustDue(c) ==> AfterCheckWindow(c).out == [Adjust(c.opts.localWindowMax)])
  {
    hide *;
    RunKeepsInv(s, moves);
    StarvedDirection(Run(s, moves));
  }

  lemma StarvedDirection(t: Net)
    requires Inv(t) && Starved(t)
    ensures AdjustDue(t.b.c) <==> t.b.c.opts.localWindowMax >= 2 || (t.b.c.opts.localWindowMax == 1 && t.b.c.opts.localMaxPacket == 0)
    ensures AdjustDue(t.b.c) ==> AfterCheckWindow(t.b.c).out == [Adjust(t.b.c.opts.localWindowMax)]
  {
    hide AdjustDue, AfterCheckWindow;
    StarvedWindow(t.b.c);
  }

  lemma StarvedWindow(c: Chan)
    requires c.alive && !Closing(c) && c.localWindow == 0 && c.localConsumed == c.opts.localWindowMax
    ensures AdjustDue(c) <==> c.opts.localWindowMax >= 2 || (c.opts.localWindowMax == 1 && c.opts.localMaxPacket == 0)
    ensures AdjustDue(c) ==> AfterCheckWindow(c).out == [Adjust(c.opts.localWindowMax)]
  {
    TriplePacketZero(c.opts.localMaxPacket);
  }

  lemma TriplePacketZero(p: u32)
    ensures Wrap32(3 * p) == 0 <==> p == 0
  {
  }

  /** Nothing follows CLOSE, and neither data nor a second EOF follows EOF. */
  lemma {:induction false} OrderedMeans(q: seq<Msg>, eof: bool, close: bool, i: nat, j: nat)
    requires Ordered(q, eof, close) && i < j < |q|
    ensures !q[i].Close? && !close
    ensures eof || q[i].Eof? ==> !q[j].Data? && !q[j].Ext? && !q[j].Eof?
  {
    if i > 0 {
      OrderedMeans(q[1..], eof || q[0].Eof?, q[0].Close?, i - 1, j - 1);
    } else if j > 1 {
      OrderedMeans(q[1..], eof || q[0].Eof?, q[0].Close?, 0, j - 1);
    }
  }

  /** An end is freed only after CLOSE has passed both ways, and then nothing more comes for it. */
  lemma FreedAfterBothCloses(s: Net, moves: seq<Move>)
    requires Initial(s) && !Run(s, moves).a.c.alive
    ensures var t := Run(s, moves);
      t.a.c.closeSent && t.a.c.closeRcvd && t.b.c.closeSent && t.ba == []
  {
    hide Run;
    RunKeepsInv(s, moves);
    ClosedQueueEmpty(Run(s, moves).ba, Run(s, moves).a.c.eofRcvd);
  }

  // ---- the exception is real ----

  lemma RunSnoc(s: Net, moves: seq<Move>, m: Move)
    ensures var before := Run(s, moves);
      Run(s, moves + [m]) == if EventEnabled(before, m.atA, m.ev) then Step(before, m.atA, m.ev) else before
  {
    assert (moves + [m])[..|moves|] == moves;
  }

  function TinyChan(): Chan {
    Fresh(Setup(ExtIgnore, false, false, 1, 32768), false).(remoteWindow := 1, remoteMaxPacket := 32768)
  }

  function TinyNet(): Net {
    var e := End(TinyChan(), [], [], [], [], 0, 0, false, false);
    Net(e, e, [], [])
  }

  /** The byte has been read, then sent, then delivered, then written. */
  function TinyAfter(n: nat): Net {
    var s, c := TinyNet(), TinyChan();
    if n == 0 then s
    else if n == 1 then s.(a := s.a.(c := c.(input := [7]), read := [7]))
    else if n == 2 then s.(a := s.a.(c := c.(remoteWindow := 0), read := [7]), ab := [Data([7])])
    else if n == 3 then s.(a := s.a.(c := c.(remoteWindow := 0), read := [7]),
                           b := s.b.(c := c.(localWindow := 0, output := [7])))
    else s.(a := s.a.(c := c.(remoteWindow := 0), read := [7]),
            b := s.b.(c := c.(localWindow := 0, localConsumed := 1), written := [7]))
  }

  lemma TinyRead()
    ensures EventEnabled(TinyAfter(0), true, Read([7])) && Step(TinyAfter(0), true, Read([7])) == TinyAfter(1)
  {
  }

  lemma TinyPoll()
    ensures EventEnabled(TinyAfter(1), true, Poll) && Step(TinyAfter(1), true, Poll) == TinyAfter(2)
  {
    var s := TinyAfter(1);
    assert Sendable(s.a.c, 1) == 1 && s.a.c.input[..1] == [7] && s.a.c.input[1..] == [];
    assert PollData(s.a.c) == Emit(s.a.c.(input := [], remoteWindow := 0), [Data([7])]);
    assert PollExt(PollData(s.a.c).c) == Emit(PollData(s.a.c).c, []);
  }

  lemma TinyDeliver()
    ensures EventEnabled(TinyAfter(2), false, Deliver) && Step(TinyAfter(2), false, Deliver) == TinyAfter(3)
  {
  }

  lemma TinyWrite()
    ensures EventEnabled(TinyAfter(3), false, Write(1)) && Step(TinyAfter(3), false, Write(1)) == TinyAfter(4)
  {
  }

  lemma TinyEnds()
    ensures Initial(TinyNet())
    ensures Starved(TinyAfter(4)) && !AdjustDue(TinyAfter(4).b.c)
  {
  }

  lemma TinyStart()
    ensures Run(TinyNet(), []) == TinyAfter(0)
  {
  }

  /** Window and packet size on offer are the same. */
  predicate SameLimits(c: Chan, c1: Chan) {
    c1.opts == c.opts
  }

  lemma StepKeepsLimits(s: Net, atA: bool, ev: Event)
    requires EventEnabled(s, atA, ev)
    ensures SameLimits(s.b.c, Step(s, atA, ev).b.c)
  {
    hide Local, Delivered;
    if !atA {
      if ev.Deliver? {
        DeliveredKeepsLimits(s.b, s.ab[0]);
      } else {
        LocalKeepsLimits(s.b, ev);
      }
    }
  }

  lemma PollKeepsLimits(c: Chan)
    ensures SameLimits(c, PollData(c).c) && SameLimits(c, PollExt(c).c)
  {
    hide Sendable, SendData, SendEof, SendExt, EfdInputActive;
    SendKeepsLimits(c, Sendable(c, |c.input|), Sendable(c, |c.extended|));
  }

  lemma SendKeepsLimits(c: Chan, n: nat, k: nat)
    requires n <= |c.input| && k <= |c.extended|
    ensures SameLimits(c, SendData(c, n).c) && SameLimits(c, SendEof(c).c) && SameLimits(c, SendExt(c, k).c)
  {
  }

  lemma LocalKeepsLimits(e: End, ev: Event)
    requires Enabled(e, [], ev)
    ensures SameLimits(e.c, Local(e, ev).e.c)
  {
    hide PollData, PollExt, AdjustDue, EfdOutputActive;
    PollKeepsLimits(e.c);
    PollKeepsLimits(PollData(e.c).c);
    match ev {
      case CheckWindow =>
      case Poll =>
      case Reap =>
      case _ =>
    }
  }

  lemma ReceiveKeepsLimits(c: Chan, m: Msg)
    ensures Receive(c, m).Accepted? ==> SameLimits(c, Receive(c, m).c)
  {
    hide ReceiveEof;
    EofKeepsLimits(c);
    match m {
      case Data(_) =>
      case Ext(_) =>
      case Close =>
      case _ =>
    }
  }

  lemma EofKeepsLimits(c: Chan)
    ensures ReceiveEof(c).Accepted? && SameLimits(c, ReceiveEof(c).c)
  {
    hide EfdOutputActive;
  }

  lemma DeliveredKeepsLimits(e: End, m: Msg)
    ensures SameLimits(e.c, Delivered(e, m).e.c)
  {
    hide Receive;
    ReceiveKeepsLimits(e.c, m);
  }

  lemma {:induction false} RunKeepsLimits(s: Net, moves: seq<Move>)
    ensures SameLimits(s.b.c, Run(s, moves).b.c)
    decreases |moves|
  {
    hide Step, EventEnabled;
    if moves != [] {
      var m := moves[|moves| - 1];
      var before := Run(s, moves[..|moves| - 1]);
      RunKeepsLimits(s, moves[..|moves| - 1]);
      if EventEnabled(before, m.atA, m.ev) {
        StepKeepsLimits(before, m.atA, m.ev);
      }
    }
  }

  /** With a window of 1 and a maximum packet size no adjust is ever due, in any run. */
  lemma TinyWindowNeverAdjusts(s: Net, moves: seq<Move>)
    requires Initial(s) && s.b.c.opts.localWindowMax == 1 && s.b.c.opts.localMaxPacket > 0
    ensures var c := Run(s, moves).b.c; !AdjustDue(c) && AfterCheckWindow(c) == Emit(c, [])
  {
    hide Run, Initial;
    CreditBound(s, moves);
    RunKeepsLimits(s, moves);
    TriplePacketZero(s.b.c.opts.localMaxPacket);
  }

  lemma TinyHalf()
    ensures Run(TinyNet(), [Move(true, Read([7])), Move(true, Poll)]) == TinyAfter(2)
  {
    hide *;
    var s0 := TinyNet();
    var m1, m2 := Move(true, Read([7])), Move(true, Poll);
    TinyStart();
    RunSnoc(s0, [], m1);
    RunSnoc(s0, [m1], m2);
    assert [] + [m1] == [m1] && [m1] + [m2] == [m1, m2];
    TinyRead();
    TinyPoll();
  }

  /** With a window of 1 and packets of 32768, one byte passes and then the sender is starved. */
  lemma TinyWindowStarves()
    ensures Initial(TinyNet())
    ensures var t := Run(TinyNet(), [Move(true, Read([7])), Move(true, Poll), Move(false, Deliver), Move(false, Write(1))]);
      Starved(t) && !AdjustDue(t.b.c)
  {
    hide *;
    var s0 := TinyNet();
    var m1, m2, m3, m4 := Move(true, Read([7])), Move(true, Poll), Move(false, Deliver), Move(false, Write(1));
    TinyEnds();
    TinyHalf();
    RunSnoc(s0, [m1, m2], m3);
    RunSnoc(s0, [m1, m2, m3], m4);
    assert [m1, m2] + [m3] == [m1, m2, m3] && [m1, m2, m3] + [m4] == [m1, m2, m3, m4];
    TinyDeliver();
    TinyWrite();
  }
}
