/**
 From every reachable state in which data can flow, some continuation delivers everything; and if
 each direction is finished or can flow, some continuation closes the channel and frees both ends.
 */
module ChannelDelivery {
  import Words
  import opened Channels
  import opened ChannelNet
  import opened ChannelLive

  // ---- steps of either end, written out ----

  lemma LocalOfA(t: Net, ev: Event)
    requires Enabled(t.a, t.ba, ev) && !ev.Deliver?
    ensures Step(t, true, ev) == Net(Local(t.a, ev).e, t.b, t.ab + Local(t.a, ev).out, t.ba)
  {
    hide Local;
  }

  lemma LocalOfB(t: Net, ev: Event)
    requires Enabled(t.b, t.ab, ev) && !ev.Deliver?
    ensures Step(t, false, ev) == Net(t.a, Local(t.b, ev).e, t.ab, t.ba + Local(t.b, ev).out)
  {
    hide Local;
  }

  lemma DeliverOfA(t: Net)
    requires t.ba != []
    ensures EventEnabled(t, true, Deliver)
    ensures Step(t, true, Deliver) == Net(Delivered(t.a, t.ba[0]).e, t.b, t.ab + Delivered(t.a, t.ba[0]).out, t.ba[1..])
  {
    hide Delivered;
  }

  lemma DeliverOfB(t: Net)
    requires t.ab != []
    ensures EventEnabled(t, false, Deliver)
    ensures Step(t, false, Deliver) == Net(t.a, Delivered(t.b, t.ab[0]).e, t.ab[1..], t.ba + Delivered(t.b, t.ab[0]).out)
  {
    hide Delivered;
  }

  // ---- draining one direction ----

  /** Bytes that a has yet to send. */
  function Work(c: Chan): nat {
    |c.input| + if c.opts.extUsage == ExtRead then |c.extended| else 0
  }

  /** Bytes that b has yet to write. */
  function Held(c: Chan): nat {
    |c.output| + ExtBuffered(c)
  }

  ghost predicate Ready(t: Net) {
    Sane(t) && Flowing(t.a, t.b)
  }

  /** What the receiver of open output is. */
  lemma ReceiverLive(t: Net)
    requires Ready(t)
    ensures t.b.c.alive && !Closing(t.b.c) && !t.b.c.eofRcvd && NoStop(t.ba)
    ensures !t.b.dropped && (t.a.c.istate == IClosed ==> t.a.c.eofSent)
  {
    hide InFlight, Credit, Bytes, ExtBytes, Ordered, HasEof, HasClose;
  }

  /** What a sender with something to send is. */
  lemma SenderLive(t: Net)
    requires Ready(t) && Work(t.a.c) > 0
    ensures t.a.c.alive && !Closing(t.a.c) && t.a.c.istate != IClosed && !t.a.c.eofSent
  {
    ReceiverLive(t);
    hide InFlight, Credit, Bytes, ExtBytes, Ordered, HasEof, HasClose;
  }

  ghost predicate Onward(t: Net, u: Net) {
    Ready(u) && Kept(t, u) && Reaches(t, u)
  }

  /** A gentle step of b that leaves it taking. */
  lemma OnwardB(t: Net, ev: Event)
    requires Ready(t) && EventEnabled(t, false, ev) && Gentle(t.b, ev)
    requires var u := Step(t, false, ev); Taking(u.b) && u.a == t.a
    ensures Onward(t, Step(t, false, ev))
  {
    GentleStep(t, false, ev);
    hide Sane, Step, Reaches, Taking, Whole, Gentle, EventEnabled;
  }

  /** A gentle step of a. */
  lemma OnwardA(t: Net, ev: Event)
    requires Ready(t) && EventEnabled(t, true, ev) && Gentle(t.a, ev)
    requires Step(t, true, ev).b == t.b
    ensures Onward(t, Step(t, true, ev))
  {
    GentleStep(t, true, ev);
    hide Sane, Step, Reaches, Taking, Whole, Gentle, EventEnabled;
  }

  /** Data in flight: b takes the next message. */
  lemma TakeNext(t: Net)
    requires Ready(t) && InFlight(t.ab) > 0
    ensures EventEnabled(t, false, Deliver)
    ensures var u := Step(t, false, Deliver); Onward(t, u) && u.a == t.a && |u.ab| < |t.ab|
  {
    QueueOrdered(t);
    ChargedHead(t.ab, t.b.c.eofRcvd, t.b.c.closeRcvd);
    hide InFlight;
    var m := t.ab[0];
    ReceiverLive(t);
    NextBenign(t);
    DeliverOfB(t);
    DeliveredTaking(t.b, m);
    hide Ready, Onward, Delivered, Step, EventEnabled;
    OnwardB(t, Deliver);
  }

  lemma QueueOrdered(t: Net)
    requires Ready(t)
    ensures Ordered(t.ab, t.b.c.eofRcvd, t.b.c.closeRcvd)
  {
    hide InFlight, Credit, Bytes, ExtBytes, Ordered, HasEof, HasClose;
  }

  lemma NextBenign(t: Net)
    requires Ready(t) && t.ab != []
    ensures Benign(Receive(t.b.c, t.ab[0])) && Taking(t.b)
    ensures t.ab[0].Ext? ==> t.b.c.opts.extUsage == ExtWrite || t.ab[0].data == []
  {
    hide Direction;
    DeliverStep(Mirror(t));
    if t.ab[0].Ext? {
      ExtOnlyFrom(Mirror(t));
    }
  }

  /** Output held: b writes it. */
  lemma WriteOut(t: Net)
    requires Ready(t) && t.b.c.output != []
    ensures EventEnabled(t, false, Write(|t.b.c.output|))
    ensures var u := Step(t, false, Write(|t.b.c.output|));
      Onward(t, u) && u.a == t.a && u.ab == t.ab && Held(u.b.c) < Held(t.b.c)
  {
    var ev := Write(|t.b.c.output|);
    ReceiverLive(t);
    LocalOfB(t, ev);
    LocalTaking(t.b, ev);
    OnwardB(t, ev);
    hide Ready, Onward, Step;
  }

  /** Extended data held: b writes it. */
  lemma WriteOutExt(t: Net)
    requires Ready(t) && ExtBuffered(t.b.c) > 0
    ensures EventEnabled(t, false, WriteExt(|t.b.c.extended|))
    ensures var u := Step(t, false, WriteExt(|t.b.c.extended|));
      Onward(t, u) && u.a == t.a && u.ab == t.ab && Held(u.b.c) < Held(t.b.c)
  {
    var ev := WriteExt(|t.b.c.extended|);
    ReceiverLive(t);
    LocalOfB(t, ev);
    LocalTaking(t.b, ev);
    OnwardB(t, ev);
    hide Ready, Onward, Step;
  }

  /** Something to send and a window: a polls. */
  lemma SendMore(t: Net)
    requires Ready(t) && Work(t.a.c) > 0 && t.a.c.remoteWindow > 0
    ensures EventEnabled(t, true, Poll)
    ensures var u := Step(t, true, Poll); Onward(t, u) && Work(u.a.c) < Work(t.a.c)
  {
    SenderLive(t);
    LocalOfA(t, Poll);
    OnwardA(t, Poll);
    var out, d, e := PollSends(t);
    PollTaking(t.a.c);
    hide Ready, Onward, AfterPoll, Bytes, ExtBytes;
  }

  /** No window, and messages for a: it takes the next one. */
  lemma TakeCredit(t: Net)
    requires Ready(t) && Work(t.a.c) > 0 && t.ba != []
    ensures EventEnabled(t, true, Deliver)
    ensures var u := Step(t, true, Deliver);
      Onward(t, u) && Work(u.a.c) == Work(t.a.c) && u.ab == t.ab && u.b == t.b && |u.ba| < |t.ba|
  {
    ReceiverLive(t);
    SenderLive(t);
    DrainsNoExt(t);
    DeliverOfA(t);
    WorkKept(t.a, t.ba[0]);
    assert t.ab + [] == t.ab;
    hide Ready, Onward, Delivered, Work, Step, EventEnabled;
    OnwardA(t, Deliver);
  }

  lemma DrainsNoExt(t: Net)
    requires Ready(t)
    ensures t.a.c.opts.forceDrain ==> t.a.c.opts.extUsage != ExtRead
  {
    hide InFlight, Credit, Bytes, ExtBytes, Ordered, HasEof, HasClose;
  }

  lemma WorkKept(e: End, m: Msg)
    requires e.c.alive && !m.Eow? && !m.Close? && Work(e.c) > 0 && (e.c.opts.forceDrain ==> e.c.opts.extUsage != ExtRead)
    ensures Work(Delivered(e, m).e.c) == Work(e.c) && Delivered(e, m).out == []
  {
    if Receive(e.c, m).Accepted? && !m.Eof? {
      ReceiveSteady(e.c, m);
      ReceiveExtended(e.c, m);
      hide Receive;
    } else if m.Eof? {
      EofWork(e.c);
      hide ReceiveEof;
    }
  }

  lemma ReceiveExtended(c: Chan, m: Msg)
    requires c.alive && (m.Data? || m.Ext? || m.Adjust?) && Receive(c, m).Accepted?
    ensures c.opts.extUsage == ExtRead ==> Receive(c, m).c.extended == c.extended
  {
    hide Words.Wrap32;
  }

  lemma EofWork(c: Chan)
    requires Work(c) > 0 && (c.opts.forceDrain ==> c.opts.extUsage != ExtRead)
    ensures ReceiveEof(c).Accepted? && ReceiveEof(c).reply == []
    ensures ReceiveEof(c).c.input == c.input && ReceiveEof(c).c.extended == c.extended && ReceiveEof(c).c.opts == c.opts
  {
    hide EfdOutputActive;
  }

  /** No window, no messages, nothing held: all credit is with b, which gives it back. */
  lemma GiveCredit(t: Net)
    requires Ready(t) && InFlight(t.ab) == 0 && Held(t.b.c) == 0 && t.a.c.remoteWindow == 0 && t.ba == []
    ensures EventEnabled(t, false, CheckWindow)
    ensures var u := Step(t, false, CheckWindow);
      && Onward(t, u) && u.a == t.a && u.ab == t.ab && Held(u.b.c) == Held(t.b.c)
      && u.b.c.localConsumed < t.b.c.localConsumed
  {
    ReceiverLive(t);
    AllCredit(t);
    StarvedWindow(t.b.c);
    LocalOfB(t, CheckWindow);
    LocalTaking(t.b, CheckWindow);
    hide Ready, Onward, AdjustDue;
    OnwardB(t, CheckWindow);
  }

  lemma AllCredit(t: Net)
    requires Ready(t) && InFlight(t.ab) == 0 && Held(t.b.c) == 0 && t.a.c.remoteWindow == 0 && t.ba == []
    ensures t.b.c.localWindow == 0 && t.b.c.localConsumed == t.b.c.opts.localWindowMax
  {
    assert Credit([]) == 0;
    hide Bytes, ExtBytes, Ordered, HasEof, HasClose;
  }

  /** Everything a had to send is written at b. */
  lemma {:induction false} Drains(t: Net) returns (u: Net)
    requires Ready(t)
    ensures Onward(t, u) && Work(u.a.c) == 0 && InFlight(u.ab) == 0 && Held(u.b.c) == 0
    decreases Work(t.a.c), |t.ab|, Held(t.b.c), t.b.c.localConsumed, |t.ba|
  {
    hide Ready, Onward, Step, EventEnabled, Work, Held, InFlight;
    var v := t;
    if InFlight(t.ab) > 0 {
      TakeNext(t);
      v := Step(t, false, Deliver);
    } else if t.b.c.output != [] {
      WriteOut(t);
      v := Step(t, false, Write(|t.b.c.output|));
    } else if ExtBuffered(t.b.c) > 0 {
      WriteOutExt(t);
      v := Step(t, false, WriteExt(|t.b.c.extended|));
    } else if Work(t.a.c) == 0 {
      NothingHeld(t);
      OnwardItself(t);
      return t;
    } else if t.a.c.remoteWindow > 0 {
      SendMore(t);
      v := Step(t, true, Poll);
    } else if t.ba != [] {
      TakeCredit(t);
      v := Step(t, true, Deliver);
    } else {
      NothingHeld(t);
      GiveCredit(t);
      v := Step(t, false, CheckWindow);
    }
    OnwardReady(t, v);
    u := Drains(v);
    OnwardOn(t, v, u);
  }

  lemma NothingHeld(t: Net)
    requires t.b.c.output == [] && ExtBuffered(t.b.c) == 0
    ensures Held(t.b.c) == 0
  {
  }

  lemma OnwardItself(t: Net)
    requires Ready(t)
    ensures Onward(t, t)
  {
    Stays(t);
    KeptItself(t);
    hide Ready, Kept, Reaches;
  }

  lemma OnwardReady(t: Net, u: Net)
    requires Onward(t, u)
    ensures Ready(u)
  {
  }

  lemma OnwardOn(t: Net, u: Net, v: Net)
    requires Onward(t, u) && Onward(u, v)
    ensures Onward(t, v)
  {
    hide Ready, Kept, Reaches;
    KeptOn(t, u, v);
    ReachesOn(t, u, v);
  }

  // ---- delivery ----

  lemma {:induction false} NoCharge(q: seq<Msg>)
    requires InFlight(q) == 0
    ensures Bytes(q) == [] && ExtBytes(q) == []
  {
    if q != [] {
      NoCharge(q[1..]);
    }
  }

  /** A drained direction has delivered everything. */
  lemma DrainedIsDelivered(t: Net)
    requires Ready(t) && Work(t.a.c) == 0 && InFlight(t.ab) == 0 && Held(t.b.c) == 0
    ensures t.b.written == t.a.read
    ensures t.a.c.opts.extUsage == ExtRead ==> t.b.extWritten == t.a.extRead
  {
    NoCharge(t.ab);
    ReceiverLive(t);
    hide InFlight, Credit, Bytes, ExtBytes, Ordered, HasEof, HasClose;
  }

  /**
   From every reachable state with b's output open, nothing ignored or destroyed there, a window of
   at least 2 and a packet size other than 0, some continuation ends with everything written at b
   that was read at a.
   */
  lemma AllDelivered(s: Net, moves: seq<Move>) returns (more: seq<Move>)
    requires Initial(s) && Flowing(Run(s, moves).a, Run(s, moves).b)
    ensures var t, u := Run(s, moves), Run(s, moves + more);
      && u.b.written == t.a.read
      && (t.a.c.opts.extUsage == ExtRead ==> u.b.extWritten == t.a.extRead)
  {
    var t := Run(s, moves);
    RunSane(s, moves);
    hide Run, Sane, Flowing, Work, Held, InFlight;
    var u := Drains(t);
    DrainedIsDelivered(u);
    hide Ready;
    assert OneWay(t.a.c, u.a.c) && u.a.read == t.a.read && u.a.extRead == t.a.extRead by {
      ForwardMeans(t, u);
    }
    more :| Run(t, more) == u;
    RunConcat(s, moves, more);
  }

  lemma ForwardMeans(t: Net, u: Net)
    requires Kept(t, u)
    ensures OneWay(t.a.c, u.a.c) && u.a.read == t.a.read && u.a.extRead == t.a.extRead
    ensures OneWay(t.b.c, u.b.c) && u.b.read == t.b.read && u.b.extRead == t.b.extRead
  {
    hide OneWay, Sound, Whole;
  }

  // ---- closing one input ----

  ghost predicate Goes(t: Net, u: Net) {
    Sane(u) && Kept(t, u) && Reaches(t, u)
  }

  lemma GoesItself(t: Net)
    requires Sane(t)
    ensures Goes(t, t)
  {
    Stays(t);
    KeptItself(t);
    hide Sane, Kept, Reaches;
  }

  lemma GoesOn(t: Net, u: Net, v: Net)
    requires Goes(t, u) && Goes(u, v)
    ensures Goes(t, v)
  {
    hide Sane, Kept, Reaches;
    KeptOn(t, u, v);
    ReachesOn(t, u, v);
  }

  /** An end whose input is not closed is alive and has neither sent nor seen CLOSE. */
  lemma OpenInput(t: Net)
    requires Sane(t) && t.a.c.istate != IClosed
    ensures t.a.c.alive && !Closing(t.a.c)
  {
    hide InFlight, Credit, Bytes, ExtBytes, Ordered, HasEof, HasClose;
  }

  /** The local input ends. */
  lemma StopReading(t: Net) returns (u: Net)
    requires Sane(t) && t.a.c.istate != IClosed
    ensures Goes(t, u) && u.a.c.istate != IOpen && u.b == t.b
  {
    OpenInput(t);
    hide Sane, Goes;
    if t.a.c.istate == IOpen {
      LocalOfA(t, ReadFails);
      u := Step(t, true, ReadFails);
      GoesBy(t, true, ReadFails);
    } else {
      u := t;
      GoesItself(t);
    }
  }

  /** So does the descriptor for extended data, if it is read from. */
  lemma StopReadingExt(t: Net) returns (u: Net)
    requires Sane(t) && t.a.c.istate != IClosed
    ensures Goes(t, u) && (u.a.c.opts.extUsage == ExtRead ==> !u.a.c.efd) && u.b == t.b
  {
    OpenInput(t);
    hide Sane, Goes;
    if t.a.c.opts.extUsage == ExtRead {
      LocalOfA(t, ExtFails);
      u := Step(t, true, ExtFails);
      GoesBy(t, true, ExtFails);
    } else {
      u := t;
      GoesItself(t);
    }
  }

  lemma GoesBy(t: Net, atA: bool, ev: Event)
    requires Sane(t) && EventEnabled(t, atA, ev) && Gentle(if atA then t.a else t.b, ev)
    ensures Goes(t, Step(t, atA, ev))
  {
    GentleStep(t, atA, ev);
    hide Sane, Kept, Reaches, Step;
  }

  /** A drained input says EOF and closes. */
  lemma SayEof(t: Net)
    requires Sane(t) && t.a.c.istate == IWaitDrain && Work(t.a.c) == 0 && (t.a.c.opts.extUsage == ExtRead ==> !t.a.c.efd)
    ensures Goes(t, Step(t, true, Poll)) && Step(t, true, Poll).a.c.istate == IClosed
  {
    OpenInput(t);
    LocalOfA(t, Poll);
    hide Sane, Goes;
    GoesBy(t, true, Poll);
    hide Sendable;
  }

  /** The input of a can be closed. */
  lemma CloseInput(t: Net) returns (u: Net)
    requires Sane(t) && Sound(t.a, t.b)
    ensures Goes(t, u) && u.a.c.istate == IClosed
  {
    hide Sane, Goes, Kept, OneWay, Sound;
    if t.a.c.istate == IClosed {
      u := t;
      GoesItself(t);
      return;
    }
    var v := StopReading(t);
    GoesMeans(t, v);
    if v.a.c.istate == IClosed {
      return v;
    }
    var w := StopReadingExt(v);
    GoesMeans(v, w);
    GoesOn(t, v, w);
    if w.a.c.istate == IClosed {
      return w;
    }
    SoundFlows(w);
    var x := Drains(w);
    OnwardGoes(w, x);
    GoesMeans(w, x);
    GoesOn(t, w, x);
    if x.a.c.istate == IClosed {
      return x;
    }
    SayEof(x);
    u := Step(x, true, Poll);
    GoesOn(t, x, u);
  }

  lemma GoesMeans(t: Net, u: Net)
    requires Goes(t, u)
    ensures Sane(u) && (Sound(t.a, t.b) ==> Sound(u.a, u.b))
    ensures (t.a.c.istate != IOpen ==> u.a.c.istate != IOpen) && (t.a.c.istate == IClosed ==> u.a.c.istate == IClosed)
    ensures (t.b.c.istate == IClosed ==> u.b.c.istate == IClosed)
    ensures u.a.c.opts == t.a.c.opts && (!t.a.c.efd ==> !u.a.c.efd)
  {
    hide Sane, Reaches, Sound, Whole;
  }

  lemma SoundFlows(t: Net)
    requires Sane(t) && Sound(t.a, t.b) && t.a.c.istate != IClosed
    ensures Ready(t)
  {
    hide Sane, Flowing;
  }

  lemma OnwardGoes(t: Net, u: Net)
    requires Onward(t, u)
    ensures Goes(t, u)
  {
    hide Sane, Flowing, Kept, Reaches;
  }

  // ---- the other end ----

  function Flipped(moves: seq<Move>): (r: seq<Move>)
    ensures |r| == |moves|
  {
    seq(|moves|, i requires 0 <= i < |moves| => Move(!moves[i].atA, moves[i].ev))
  }

  lemma {:induction false} RunMirror(t: Net, moves: seq<Move>)
    ensures Run(Mirror(t), Flipped(moves)) == Mirror(Run(t, moves))
    decreases |moves|
  {
    hide StepA, Enabled;
    if moves != [] {
      var n := |moves| - 1;
      RunMirror(t, moves[..n]);
      assert Flipped(moves)[..n] == Flipped(moves[..n]);
    }
  }

  lemma GoesMirror(t: Net, u: Net)
    requires Goes(Mirror(t), u)
    ensures Goes(t, Mirror(u))
  {
    MirrorSane(u);
    KeptMirror(t, u);
    hide Sane, Kept, Run;
    var moves :| Run(Mirror(t), moves) == u;
    RunMirror(Mirror(t), moves);
    assert Run(t, Flipped(moves)) == Mirror(u);
  }

  /** The input of b can be closed. */
  lemma CloseInputB(t: Net) returns (u: Net)
    requires Sane(t) && Sound(t.b, t.a)
    ensures Goes(t, u) && u.b.c.istate == IClosed
  {
    MirrorSane(t);
    hide Sane, Goes, Sound;
    var v := CloseInput(Mirror(t));
    GoesMirror(t, v);
    u := Mirror(v);
  }

  // ---- closing the outputs and freeing the ends ----

  /** How far an end is from being freed. */
  function Rank(c: Chan): nat {
    (if c.ostate == OOpen then 2 else if c.ostate == OWaitDrain then 1 else 0) + (if c.closeSent then 0 else 1) + (if c.alive then 1 else 0)
  }

  /** u is nearer to the end than t. */
  predicate Nearer(u: Net, t: Net) {
    var r, r1 := Rank(t.a.c) + Rank(t.b.c), Rank(u.a.c) + Rank(u.b.c);
    var q, q1 := |t.ab| + |t.ba|, |u.ab| + |u.ba|;
    r1 < r || (r1 == r && (q1 < q || (q1 == q && Held(u.a.c) + Held(u.b.c) < Held(t.a.c) + Held(t.b.c))))
  }

  /** Both inputs are closed. */
  ghost predicate Closed(t: Net) {
    Sane(t) && t.a.c.istate == IClosed && t.b.c.istate == IClosed
  }

  /** End a has a message to take, or something to do. */
  predicate Busy(t: Net) {
    t.ba != [] || (t.a.c.alive && (t.a.c.ostate != OClosed || !t.a.c.closeSent || t.a.c.closeRcvd))
  }

  lemma ClosedReply(e: End, m: Msg)
    requires e.c.istate == IClosed
    ensures Delivered(e, m).out == []
  {
    hide EfdOutputActive, Words.Wrap32;
  }

  lemma DeliveredRank(e: End, m: Msg)
    ensures Rank(Delivered(e, m).e.c) <= Rank(e.c)
  {
    if Receive(e.c, m).Accepted? && (m.Data? || m.Ext? || m.Adjust?) {
      ReceiveSteady(e.c, m);
      hide Receive;
    } else {
      hide EfdOutputActive, Words.Wrap32;
    }
  }

  /** A message is taken. */
  lemma TakeAny(t: Net)
    requires Closed(t) && t.ba != []
    ensures Nearer(StepA(t, Deliver), t)
  {
    ClosedReply(t.a, t.ba[0]);
    DeliveredRank(t.a, t.ba[0]);
    hide Delivered, Rank, Closed, Held;
  }

  /** With the peer's input closed and nothing in flight, an output that is not closed has seen EOF. */
  lemma DrainingOutput(t: Net)
    requires Closed(t) && t.ba == [] && t.a.c.ostate != OClosed
    ensures t.a.c.alive && t.a.c.eofRcvd && t.a.c.ostate == OWaitDrain
  {
    assert !HasEof([]) && !HasClose([]);
    hide InFlight, Credit, Bytes, ExtBytes, Ordered;
  }

  lemma WriteNearer(t: Net)
    requires Closed(t) && t.ba == [] && t.a.c.alive && t.a.c.ostate != OClosed && t.a.c.output != []
    ensures Enabled(t.a, t.ba, Write(|t.a.c.output|)) && Nearer(StepA(t, Write(|t.a.c.output|)), t)
  {
    assert t.ab + [] == t.ab;
    hide Closed, Words.Wrap32;
  }

  lemma WriteExtNearer(t: Net)
    requires Closed(t) && t.ba == [] && t.a.c.alive && t.a.c.opts.extUsage == ExtWrite && t.a.c.efd && t.a.c.extended != []
    ensures Enabled(t.a, t.ba, WriteExt(|t.a.c.extended|)) && Nearer(StepA(t, WriteExt(|t.a.c.extended|)), t)
  {
    assert t.ab + [] == t.ab;
    hide Closed, Words.Wrap32;
  }

  lemma DrainNearer(t: Net)
    requires Closed(t) && t.ba == [] && t.a.c.alive && t.a.c.ostate == OWaitDrain && t.a.c.output == [] && t.a.c.eofRcvd
    requires !(t.a.c.opts.extUsage == ExtWrite && t.a.c.efd && t.a.c.extended != [])
    ensures Nearer(StepA(t, Drain), t)
  {
    hide Closed, Held;
  }

  lemma ReapNearer(t: Net)
    requires Closed(t) && t.a.c.alive && t.a.c.ostate == OClosed && (!t.a.c.closeSent || t.a.c.closeRcvd)
    ensures Nearer(StepA(t, Reap), t)
  {
    ClosedIs(t);
    hide Closed, Held;
  }

  lemma ClosedIs(t: Net)
    requires Closed(t)
    ensures t.a.c.istate == IClosed && t.b.c.istate == IClosed
  {
    hide Sane;
  }

  /** A busy end has a gentle step that brings the end nearer. */
  lemma Progress(t: Net) returns (ev: Event)
    requires Closed(t) && Busy(t)
    ensures Enabled(t.a, t.ba, ev) && Gentle(t.a, ev) && Nearer(StepA(t, ev), t)
  {
    hide Closed, Nearer, StepA;
    if t.ba != [] {
      TakeAny(t);
      ev := Deliver;
    } else if t.a.c.ostate == OClosed {
      ReapNearer(t);
      ev := Reap;
    } else {
      DrainingOutput(t);
      if t.a.c.output != [] {
        WriteNearer(t);
        ev := Write(|t.a.c.output|);
      } else if t.a.c.opts.extUsage == ExtWrite && t.a.c.efd && t.a.c.extended != [] {
        WriteExtNearer(t);
        ev := WriteExt(|t.a.c.extended|);
      } else {
        DrainNearer(t);
        ev := Drain;
      }
    }
  }

  predicate Freed(t: Net) {
    !t.a.c.alive && !t.b.c.alive && t.ab == [] && t.ba == []
  }

  /** If no end is busy, both are freed. */
  lemma IdleIsFreed(t: Net)
    requires Closed(t) && !Busy(t) && !Busy(Mirror(t))
    ensures Freed(t)
  {
    assert !HasEof([]) && !HasClose([]);
    hide InFlight, Credit, Bytes, ExtBytes, Ordered;
  }

  lemma ClosedMirror(t: Net)
    requires Closed(t)
    ensures Closed(Mirror(t))
  {
    MirrorSane(t);
    hide Sane;
  }

  lemma NearerMirror(u: Net, t: Net)
    requires Nearer(u, Mirror(t))
    ensures Nearer(Mirror(u), t)
  {
    hide Rank, Held;
  }

  /** With both inputs closed, both ends can be freed. */
  lemma {:induction false} Finishes(t: Net) returns (u: Net)
    requires Closed(t)
    ensures Goes(t, u) && Freed(u)
    decreases Rank(t.a.c) + Rank(t.b.c), |t.ab| + |t.ba|, Held(t.a.c) + Held(t.b.c)
  {
    hide Goes, Busy, Rank, Held, StepA, Enabled, Gentle, Sane;
    if Busy(t) {
      var ev := Progress(t);
      u := FinishesFrom(t, true, ev);
    } else if Busy(Mirror(t)) {
      ClosedMirror(t);
      var ev := Progress(Mirror(t));
      NearerMirror(StepA(Mirror(t), ev), t);
      u := FinishesFrom(t, false, ev);
    } else {
      IdleIsFreed(t);
      GoesItself(t);
      u := t;
    }
  }

  lemma FinishesFrom(t: Net, atA: bool, ev: Event) returns (u: Net)
    requires Closed(t) && EventEnabled(t, atA, ev) && Gentle(if atA then t.a else t.b, ev) && Nearer(Step(t, atA, ev), t)
    ensures Goes(t, u) && Freed(u)
    decreases Rank(t.a.c) + Rank(t.b.c), |t.ab| + |t.ba|, Held(t.a.c) + Held(t.b.c), 0
  {
    hide Goes, Rank, Held, Step, EventEnabled, Gentle, Sane;
    var v := Step(t, atA, ev);
    GoesBy(t, atA, ev);
    GoesMeans(t, v);
    u := Finishes(v);
    GoesOn(t, v, u);
  }

  // ---- the whole life of a channel ----

  lemma FlowingIsWhole(t: Net)
    requires Sane(t) && Flowing(t.a, t.b)
    ensures Whole(t.a, t.b, t.ab)
  {
    ReceiverLive(t);
    hide Sane, Bytes;
  }

  /** A freed channel that was whole has delivered everything. */
  lemma FreedIsDelivered(t: Net)
    requires Sane(t) && Freed(t) && Whole(t.a, t.b, t.ab)
    ensures t.b.written == t.a.read
  {
    hide InFlight, Credit, Bytes, ExtBytes, Ordered, HasEof, HasClose;
  }

  /**
   From every reachable state in which each end has closed its input or can send to the other, some
   continuation frees both ends, and whatever was read at an end that can send is written at the other.
   */
  lemma BothFreed(s: Net, moves: seq<Move>) returns (more: seq<Move>)
    requires Initial(s)
    requires var t := Run(s, moves); Sound(t.a, t.b) && Sound(t.b, t.a)
    ensures var t, u := Run(s, moves), Run(s, moves + more);
      && !u.a.c.alive && !u.b.c.alive && u.ab == [] && u.ba == []
      && (Flowing(t.a, t.b) ==> u.b.written == t.a.read)
      && (Flowing(t.b, t.a) ==> u.a.written == t.b.read)
  {
    var t := Run(s, moves);
    RunSane(s, moves);
    hide Run, Sane, Sound, Flowing, Whole, OneWay, Closed;
    var v := CloseInput(t);
    GoesSound(t, v);
    var w := CloseInputB(v);
    GoesMeans(v, w);
    GoesOn(t, v, w);
    ClosedWhen(w);
    var u := Finishes(w);
    GoesOn(t, w, u);
    Delivers(t, u);
    more :| Run(t, more) == u;
    RunConcat(s, moves, more);
  }

  lemma GoesSound(t: Net, u: Net)
    requires Goes(t, u) && Sound(t.b, t.a)
    ensures Sane(u) && Sound(u.b, u.a)
  {
    hide Sane, Reaches, Sound, Whole, Forward;
  }

  lemma ClosedWhen(t: Net)
    requires Sane(t) && t.a.c.istate == IClosed && t.b.c.istate == IClosed
    ensures Closed(t)
  {
    hide Sane;
  }

  lemma Delivers(t: Net, u: Net)
    requires Sane(t) && Goes(t, u) && Freed(u)
    ensures Flowing(t.a, t.b) ==> u.b.written == t.a.read
    ensures Flowing(t.b, t.a) ==> u.a.written == t.b.read
  {
    hide Sane, Flowing, Whole, OneWay, Sound, Reaches;
    if Flowing(t.a, t.b) {
      FlowingIsWhole(t);
      FreedIsDelivered(u);
    }
    if Flowing(t.b, t.a) {
      MirrorSane(t);
      MirrorSane(u);
      FlowingIsWhole(Mirror(t));
      FreedIsDelivered(Mirror(u));
    }
  }
}
