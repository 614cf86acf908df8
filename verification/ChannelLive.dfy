/**
 What can still happen to a channel: a poll sends as much as fits, everything read at one end can
 be delivered to the other, and the channel can be closed and freed at both ends.
 */
module ChannelLive {
  import Words
  import opened Channels
  import opened ChannelNet

  type u8 = Words.u8

  // ---- one poll ----

  /** The longest prefix that window and packet size let through. */
  predicate Longest(d: seq<u8>, buffer: seq<u8>, window: int, packet: int) {
    && d <= buffer && |d| <= window && |d| <= packet
    && (|d| == |buffer| || |d| == window || |d| == packet)
  }

  /** What an end has to send. */
  function Unsent(c: Chan): seq<u8> {
    if c.istate == IClosed then [] else c.input
  }

  function UnsentExt(c: Chan): seq<u8> {
    if c.opts.extUsage == ExtRead && !c.eofSent then c.extended else []
  }

  /** The end c has sent d and then e in the messages out. */
  predicate SentOff(c: Chan, c1: Chan, out: seq<Msg>, d: seq<u8>, e: seq<u8>) {
    && Bytes(out) == d && ExtBytes(out) == e
    && |d| <= |c.input| && c1.input == c.input[|d|..]
    && (if e == [] then c1.extended == c.extended else |e| <= |c.extended| && c1.extended == c.extended[|e|..])
    && c1.remoteWindow == c.remoteWindow - |d| - |e|
  }

  lemma NoMessages()
    ensures Bytes([]) == [] && ExtBytes([]) == []
  {
  }

  lemma OneMessage(m: Msg)
    ensures Bytes([m]) == (if m.Data? then m.data else []) && ExtBytes([m]) == (if m.Ext? then m.data else [])
  {
    assert [m][1..] == [];
  }

  lemma SendDataSends(c: Chan, n: nat)
    requires n <= |c.input| && n <= c.remoteWindow
    ensures SentOff(c, SendData(c, n).c, SendData(c, n).out, c.input[..n], [])
    ensures SendData(c, n).c.opts == c.opts && SendData(c, n).c.remoteMaxPacket == c.remoteMaxPacket
    ensures UnsentExt(SendData(c, n).c) == UnsentExt(c)
  {
    OneMessage(Data(c.input[..n]));
    hide Bytes, ExtBytes;
  }

  lemma SendEofSends(c: Chan)
    requires !EfdInputActive(c)
    ensures SentOff(c, SendEof(c).c, SendEof(c).out, [], [])
    ensures SendEof(c).c.opts == c.opts && SendEof(c).c.remoteMaxPacket == c.remoteMaxPacket
    ensures UnsentExt(SendEof(c).c) == UnsentExt(c)
  {
    NoMessages();
    OneMessage(Eof);
    hide Bytes, ExtBytes;
  }

  lemma NothingSent(c: Chan)
    ensures SentOff(c, c, [], [], [])
  {
  }

  /** The regular half. */
  lemma PollDataSends(c: Chan) returns (d: seq<u8>)
    requires c.remoteMaxPacket > 0
    ensures Longest(d, Unsent(c), c.remoteWindow, c.remoteMaxPacket)
    ensures SentOff(c, PollData(c).c, PollData(c).out, d, [])
    ensures PollData(c).c.opts == c.opts && PollData(c).c.remoteMaxPacket == c.remoteMaxPacket
    ensures UnsentExt(PollData(c).c) == UnsentExt(c)
  {
    hide SendData, SendEof, SentOff, UnsentExt, EfdInputActive;
    d := [];
    NothingSent(c);
    if c.istate != IClosed && c.input != [] {
      var n := Sendable(c, |c.input|);
      if n > 0 {
        d := c.input[..n];
        SendDataSends(c, n);
      }
    } else if c.istate == IWaitDrain && !EfdInputActive(c) {
      SendEofSends(c);
    }
  }

  lemma SendExtSends(c: Chan, n: nat)
    requires n <= |c.extended| && n <= c.remoteWindow
    ensures SentOff(c, SendExt(c, n).c, SendExt(c, n).out, [], c.extended[..n])
  {
    OneMessage(Ext(c.extended[..n]));
    hide Bytes, ExtBytes;
  }

  /** The extended half. */
  lemma PollExtSends(c: Chan) returns (e: seq<u8>)
    requires c.remoteMaxPacket > 0
    ensures Longest(e, UnsentExt(c), c.remoteWindow, c.remoteMaxPacket)
    ensures SentOff(c, PollExt(c).c, PollExt(c).out, [], e)
  {
    hide SendExt, SentOff;
    e := [];
    NothingSent(c);
    if UnsentExt(c) != [] && c.remoteWindow > 0 {
      var n := Sendable(c, |c.extended|);
      e := c.extended[..n];
      SendExtSends(c, n);
    }
  }

  lemma PollExtOne(c: Chan)
    ensures |PollExt(c).out| <= 1
  {
  }

  lemma BytesConcat(p: seq<Msg>, q: seq<Msg>)
    requires |q| <= 1
    ensures Bytes(p + q) == Bytes(p) + Bytes(q) && ExtBytes(p + q) == ExtBytes(p) + ExtBytes(q)
  {
    NoMessages();
    if q == [] {
      assert p + q == p;
    } else {
      OneMessage(q[0]);
      hide Bytes, ExtBytes;
      Append(p, q[0]);
      assert q == [q[0]];
    }
  }

  /**
   A poll of a live end that has seen and sent no CLOSE sends the longest prefix of the input that
   fits, then the longest prefix of the extended data that fits in what is left of the window.
   */
  lemma PollSends(t: Net) returns (out: seq<Msg>, d: seq<u8>, e: seq<u8>)
    requires t.a.c.alive && !Closing(t.a.c) && t.a.c.remoteMaxPacket > 0
    ensures Step(t, true, Poll).ab == t.ab + out && Bytes(out) == d && ExtBytes(out) == e
    ensures Longest(d, Unsent(t.a.c), t.a.c.remoteWindow, t.a.c.remoteMaxPacket)
    ensures Longest(e, UnsentExt(t.a.c), t.a.c.remoteWindow - |d|, t.a.c.remoteMaxPacket)
    ensures SentOff(t.a.c, Step(t, true, Poll).a.c, out, d, e)
  {
    var c := t.a.c;
    var e1 := PollData(c);
    var e2 := PollExt(e1.c);
    d := PollDataSends(c);
    e := PollExtSends(e1.c);
    out := e1.out + e2.out;
    PollExtOne(e1.c);
    hide Bytes, ExtBytes, PollData, PollExt;
    BytesConcat(e1.out, e2.out);
  }

  // ---- continuations ----

  /** Some moves lead from t to u. */
  ghost predicate Reaches(t: Net, u: Net) {
    exists moves :: Run(t, moves) == u
  }

  lemma {:induction false} RunConcat(s: Net, p: seq<Move>, q: seq<Move>)
    ensures Run(s, p + q) == Run(Run(s, p), q)
    decreases |q|
  {
    hide Step, EventEnabled;
    if q == [] {
      assert p + q == p;
    } else {
      var n := |q| - 1;
      RunConcat(s, p, q[..n]);
      assert (p + q)[..|p| + n] == p + q[..n];
    }
  }

  lemma Stays(t: Net)
    ensures Reaches(t, t)
  {
    assert Run(t, []) == t;
  }

  lemma ReachesBy(t: Net, atA: bool, ev: Event)
    requires EventEnabled(t, atA, ev)
    ensures Reaches(t, Step(t, atA, ev))
  {
    hide Step, EventEnabled;
    RunSnoc(t, [], Move(atA, ev));
    assert Run(t, []) == t;
    assert Run(t, [] + [Move(atA, ev)]) == Step(t, atA, ev);
  }

  lemma ReachesOn(t: Net, u: Net, v: Net)
    requires Reaches(t, u) && Reaches(u, v)
    ensures Reaches(t, v)
  {
    hide Run;
    var p :| Run(t, p) == u;
    var q :| Run(u, q) == v;
    RunConcat(t, p, q);
  }

  // ---- nobody is told to stop without reason ----

  predicate NoStop(q: seq<Msg>) {
    forall i :: 0 <= i < |q| ==> !q[i].Eow? && !q[i].Close?
  }

  /** Until r closes its output it sends neither EOW nor CLOSE, and s closes its input only with EOF. */
  predicate Unstopped(s: End, r: End, back: seq<Msg>) {
    r.c.ostate != OClosed ==> NoStop(back) && (s.c.istate == IClosed ==> s.c.eofSent)
  }

  ghost predicate Sane(t: Net) {
    Inv(t) && Unstopped(t.a, t.b, t.ba) && Unstopped(t.b, t.a, t.ab)
  }

  /** Closed sides stay closed, only a closed output sends EOW or CLOSE, and input closes with EOF. */
  predicate Advances(c: Chan, c1: Chan, out: seq<Msg>) {
    && (c.ostate == OClosed ==> c1.ostate == OClosed)
    && (c1.ostate != OClosed ==> NoStop(out))
    && (c1.istate == IClosed && !c1.eofSent ==> c.istate == IClosed && !c.eofSent)
  }

  lemma PollAdvances(c: Chan)
    ensures Advances(c, AfterPoll(c).c, AfterPoll(c).out)
  {
    hide EfdInputActive, Sendable;
  }

  lemma LocalAdvances(e: End, ev: Event)
    requires Enabled(e, [], ev)
    ensures Advances(e.c, Local(e, ev).e.c, Local(e, ev).out)
  {
    PollAdvances(e.c);
    hide AfterPoll, AdjustDue, EfdOutputActive;
  }

  lemma ForceDrainAdvances(c: Chan)
    requires c.closeSent ==> c.istate == IClosed
    ensures Advances(c, AfterForceDrain(c).c, AfterForceDrain(c).out)
  {
  }

  lemma EofAdvances(c: Chan)
    requires c.closeSent ==> c.istate == IClosed
    ensures ReceiveEof(c).Accepted? && Advances(c, ReceiveEof(c).c, ReceiveEof(c).reply)
  {
    ForceDrainAdvances(AfterDrain(NoteEof(c)));
    hide AfterForceDrain, EfdOutputActive;
  }

  /** What data and window adjusts leave alone. */
  predicate Steady(c: Chan, c1: Chan) {
    && c1.opts == c.opts && c1.alive == c.alive && c1.istate == c.istate && c1.ostate == c.ostate
    && c1.closeSent == c.closeSent && c1.closeRcvd == c.closeRcvd && c1.eofSent == c.eofSent && c1.eofRcvd == c.eofRcvd
    && c1.input == c.input && c1.efd == c.efd && c1.remoteMaxPacket == c.remoteMaxPacket
  }

  lemma ReceiveSteady(c: Chan, m: Msg)
    requires (m.Data? || m.Ext? || m.Adjust?) && Receive(c, m).Accepted?
    ensures Steady(c, Receive(c, m).c) && Receive(c, m).reply == []
  {
    hide Steady;
    match m
    case Data(d) => DataSteady(c, d);
    case Ext(d) => ExtSteady(c, d);
    case Adjust(k) => AdjustSteady(c, k);
  }

  lemma DataSteady(c: Chan, d: seq<u8>)
    ensures ReceiveData(c, d).Accepted? ==> Steady(c, ReceiveData(c, d).c)
  {
    hide Words.Wrap32;
  }

  lemma ExtSteady(c: Chan, d: seq<u8>)
    ensures ReceiveExt(c, d).Accepted? ==> Steady(c, ReceiveExt(c, d).c)
  {
  }

  lemma AdjustSteady(c: Chan, k: Words.u32)
    ensures ReceiveAdjust(c, k).Accepted? ==> Steady(c, ReceiveAdjust(c, k).c)
  {
  }

  lemma DeliveredAdvances(e: End, m: Msg)
    requires e.c.alive && !m.Eow? && !m.Close? && (e.c.closeSent ==> e.c.istate == IClosed)
    ensures Advances(e.c, Delivered(e, m).e.c, Delivered(e, m).out)
  {
    if m.Eof? {
      EofAdvances(e.c);
      hide ReceiveEof;
    } else {
      if Receive(e.c, m).Accepted? {
        ReceiveSteady(e.c, m);
      }
      hide Receive;
    }
  }

  lemma StopAdvances(e: End, m: Msg)
    requires m.Eow? || m.Close?
    ensures e.c.ostate == OClosed ==> Delivered(e, m).e.c.ostate == OClosed
    ensures NoStop(Delivered(e, m).out)
  {
  }

  lemma NoStopConcat(p: seq<Msg>, q: seq<Msg>)
    requires NoStop(p) && NoStop(q)
    ensures NoStop(p + q)
  {
  }

  lemma AliveToReceive(t: Net)
    requires Inv(t) && t.ba != []
    ensures t.a.c.alive
  {
    WindowFacts(t);
  }

  lemma ClosedFirst(t: Net)
    requires Inv(t)
    ensures t.a.c.closeSent ==> t.a.c.istate == IClosed
  {
  }

  /** A step of end a keeps both directions unstopped. */
  lemma StepAUnstopped(t: Net, ev: Event)
    requires Sane(t) && Enabled(t.a, t.ba, ev)
    ensures var u := StepA(t, ev); Unstopped(u.a, u.b, u.ba) && Unstopped(u.b, u.a, u.ab)
  {
    ClosedFirst(t);
    if ev.Deliver? {
      AliveToReceive(t);
      hide Inv, Delivered, Advances;
      DeliverUnstopped(t);
    } else {
      hide Inv, Local, Advances;
      var m := Local(t.a, ev);
      LocalAdvances(t.a, ev);
      AdvanceUnstopped(t, m, t.ba);
    }
  }

  /** End a moves on, and part of its queue is left. */
  lemma AdvanceUnstopped(t: Net, m: Moved, rest: seq<Msg>)
    requires Unstopped(t.a, t.b, t.ba) && Unstopped(t.b, t.a, t.ab) && Advances(t.a.c, m.e.c, m.out)
    requires NoStop(t.ba) ==> NoStop(rest)
    ensures Unstopped(m.e, t.b, rest) && Unstopped(t.b, m.e, t.ab + m.out)
  {
    if m.e.c.ostate != OClosed {
      NoStopConcat(t.ab, m.out);
    }
    hide NoStop;
  }

  lemma DeliverUnstopped(t: Net)
    requires Unstopped(t.a, t.b, t.ba) && Unstopped(t.b, t.a, t.ab) && t.ba != [] && t.a.c.alive
    requires t.a.c.closeSent ==> t.a.c.istate == IClosed
    ensures var m := Delivered(t.a, t.ba[0]); Unstopped(m.e, t.b, t.ba[1..]) && Unstopped(t.b, m.e, t.ab + m.out)
  {
    var m := Delivered(t.a, t.ba[0]);
    assert NoStop(t.ba) ==> NoStop(t.ba[1..]);
    if t.ba[0].Eow? || t.ba[0].Close? {
      StopAdvances(t.a, t.ba[0]);
      hide Delivered;
      assert !NoStop(t.ba);
      if m.e.c.ostate != OClosed {
        NoStopConcat(t.ab, m.out);
      }
    } else {
      DeliveredAdvances(t.a, t.ba[0]);
      hide Delivered, Advances, NoStop;
      AdvanceUnstopped(t, m, t.ba[1..]);
    }
  }

  lemma StepSane(t: Net, atA: bool, ev: Event)
    requires Sane(t) && EventEnabled(t, atA, ev)
    ensures Sane(Step(t, atA, ev))
  {
    hide Inv, StepA, Unstopped;
    StepKeepsInv(t, atA, ev);
    if atA {
      StepAUnstopped(t, ev);
    } else {
      MirrorSane(t);
      StepAUnstopped(Mirror(t), ev);
    }
  }

  lemma MirrorSane(t: Net)
    requires Sane(t)
    ensures Sane(Mirror(t))
  {
    hide Direction, Unstopped;
  }

  lemma {:induction false} RunSane(s: Net, moves: seq<Move>)
    requires Initial(s)
    ensures Sane(Run(s, moves))
    decreases |moves|
  {
    hide Inv, Step;
    if moves == [] {
      InitialInv(s);
    } else {
      hide Sane;
      var m := moves[|moves| - 1];
      var before := Run(s, moves[..|moves| - 1]);
      RunSane(s, moves[..|moves| - 1]);
      if EventEnabled(before, m.atA, m.ev) {
        StepSane(before, m.atA, m.ev);
      }
    }
  }

  // ---- gentle moves: nothing new is read, and nothing is thrown away ----

  predicate Gentle(e: End, ev: Event) {
    !ev.Read? && !ev.ReadExt? && !ev.WriteFails? && (ev.ExtFails? ==> e.c.opts.extUsage != ExtWrite)
  }

  /** What only goes one way. */
  predicate OneWay(c: Chan, c1: Chan) {
    && c1.opts == c.opts && c1.remoteMaxPacket == c.remoteMaxPacket
    && (c.istate != IOpen ==> c1.istate != IOpen) && (c.istate == IClosed ==> c1.istate == IClosed)
    && (!c.efd ==> !c1.efd) && (c.input == [] ==> c1.input == [])
  }

  predicate Forward(e: End, e1: End) {
    OneWay(e.c, e1.c) && e1.read == e.read && e1.extRead == e.extRead
  }

  lemma PollOneWay(c: Chan)
    ensures OneWay(c, AfterPoll(c).c)
  {
    hide EfdInputActive, Sendable;
  }

  lemma SendingOneWay(c: Chan)
    ensures OneWay(c, AfterCheckWindow(c).c) && OneWay(c, AfterReap(c).c)
  {
    hide AdjustDue;
  }

  lemma DrainOneWay(c: Chan)
    ensures OneWay(c, AfterDrain(c))
  {
    hide EfdOutputActive;
  }

  lemma WritingOneWay(c: Chan, n: nat)
    ensures n <= |c.output| ==> OneWay(c, AfterWrite(c, n))
    ensures n <= |c.extended| ==> OneWay(c, AfterWriteExt(c, n))
    ensures OneWay(c, AfterReadFails(c)) && OneWay(c, c.(efd := false))
  {
  }

  lemma LocalForward(e: End, ev: Event)
    requires Enabled(e, [], ev) && Gentle(e, ev)
    ensures Forward(e, Local(e, ev).e)
  {
    hide OneWay, AfterPoll, AfterCheckWindow, AfterDrain, AfterReap, AfterWrite, AfterWriteExt, AfterReadFails;
    PollOneWay(e.c);
    SendingOneWay(e.c);
    DrainOneWay(e.c);
    WritingOneWay(e.c, if ev.Write? || ev.WriteExt? then ev.n else 0);
  }

  lemma StopOneWay(c: Chan)
    ensures OneWay(c, ReceiveClose(c).c) && OneWay(c, ReceiveEow(c).c)
  {
  }

  lemma EofOneWay(c: Chan)
    ensures OneWay(c, ReceiveEof(c).c)
  {
    hide OneWay, NoteEof, AfterDrain, AfterForceDrain;
    var c1 := NoteEof(c);
    var c2 := AfterDrain(c1);
    NoteOneWay(c);
    DrainOneWay(c1);
    ForceOneWay(c2);
    TwoSteps(c, c1, c2);
    TwoSteps(c, c2, AfterForceDrain(c2).c);
  }

  lemma NoteOneWay(c: Chan)
    ensures OneWay(c, NoteEof(c))
  {
  }

  lemma ForceOneWay(c: Chan)
    ensures OneWay(c, AfterForceDrain(c).c)
  {
  }

  lemma TwoSteps(c: Chan, c1: Chan, c2: Chan)
    requires OneWay(c, c1) && OneWay(c1, c2)
    ensures OneWay(c, c2)
  {
  }

  lemma ReceiveOneWay(c: Chan, m: Msg)
    requires Receive(c, m).Accepted?
    ensures OneWay(c, Receive(c, m).c)
  {
    if m.Data? || m.Ext? || m.Adjust? {
      ReceiveSteady(c, m);
      hide Receive;
    } else {
      hide OneWay, ReceiveEof, ReceiveClose, ReceiveEow;
      StopOneWay(c);
      EofOneWay(c);
    }
  }

  lemma DeliveredForward(e: End, m: Msg)
    ensures Forward(e, Delivered(e, m).e)
  {
    Itself(e.c);
    if Receive(e.c, m).Accepted? {
      ReceiveOneWay(e.c, m);
    }
    hide Receive, OneWay;
  }

  lemma Itself(c: Chan)
    ensures OneWay(c, c)
  {
  }

  /** The end takes what comes: its output is open, and no credit has been lost. */
  predicate Taking(e: End) {
    && e.c.ostate == OOpen && e.leaked == 0 && e.destroyed == 0 && e.c.opts.localWindowMax >= 2
    && (e.c.opts.extUsage == ExtWrite ==> e.c.efd)
  }

  /** Data can flow from s to r. */
  predicate Flowing(s: End, r: End) {
    Taking(r) && s.c.remoteMaxPacket > 0 && (s.c.opts.extUsage == ExtRead ==> r.c.opts.extUsage == ExtWrite)
  }

  lemma LocalTaking(e: End, ev: Event)
    requires Enabled(e, [], ev) && Gentle(e, ev) && Taking(e)
    ensures Taking(Local(e, ev).e)
  {
    PollTaking(e.c);
    hide AfterPoll, AdjustDue, EfdOutputActive;
  }

  lemma PollTaking(c: Chan)
    ensures var c1 := AfterPoll(c).c; c1.opts == c.opts && c1.ostate == c.ostate && c1.efd == c.efd
  {
    hide EfdInputActive, Sendable;
  }

  /** The messages that an open output gets before EOF and CLOSE. */
  lemma DeliveredTaking(e: End, m: Msg)
    requires e.c.alive && Taking(e) && (m.Data? || m.Ext? || m.Adjust? || m.Eow?) && Benign(Receive(e.c, m))
    requires m.Ext? ==> e.c.opts.extUsage == ExtWrite || m.data == []
    ensures Taking(Delivered(e, m).e)
  {
    if Receive(e.c, m).Accepted? && !m.Eow? {
      ReceiveSteady(e.c, m);
      hide Receive;
    }
  }

  /** s has closed its input, or data can flow from s to r. */
  predicate Sound(s: End, r: End) {
    s.c.istate == IClosed || Flowing(s, r)
  }

  lemma SenderSound(s: End, s1: End, r: End)
    requires Sound(s, r) && Forward(s, s1)
    ensures Sound(s1, r)
  {
  }

  /** The head of a queue with charged bytes in it is neither EOF nor CLOSE. */
  lemma ChargedHead(q: seq<Msg>, eof: bool, close: bool)
    requires Ordered(q, eof, close) && InFlight(q) > 0
    ensures q != [] && !q[0].Eof? && !q[0].Close?
  {
    if q[0].Eof? {
      NoChargeAfterEof(q[1..], false);
    } else if q[0].Close? {
      assert false;
    }
  }

  lemma {:induction false} NoChargeAfterEof(q: seq<Msg>, close: bool)
    requires Ordered(q, true, close)
    ensures InFlight(q) == 0
  {
    if q != [] {
      NoChargeAfterEof(q[1..], q[0].Close?);
    }
  }

  /** An end whose peer has sent EOF or CLOSE: the peer's input is closed. */
  lemma EndOfInput(t: Net)
    requires Inv(t) && t.ba != [] && (t.ba[0].Eof? || t.ba[0].Close?)
    ensures t.b.c.istate == IClosed
  {
    Head(t.ba, t.a.c.eofRcvd, t.a.c.closeRcvd);
  }

  /** Extended data comes only from an end that sends it. */
  lemma ExtOnlyFrom(t: Net)
    requires Inv(t) && t.ba != [] && t.ba[0].Ext?
    ensures t.b.c.opts.extUsage == ExtRead || t.ba[0].data == []
  {
    Head(t.ba, t.a.c.eofRcvd, t.a.c.closeRcvd);
  }

  lemma DeliverSound(t: Net)
    requires Inv(t) && t.ba != [] && Sound(t.b, t.a)
    ensures Sound(t.b, Delivered(t.a, t.ba[0]).e)
  {
    var m := t.ba[0];
    AliveToReceive(t);
    DeliverStep(t);
    if m.Eof? || m.Close? {
      EndOfInput(t);
    } else if t.b.c.istate != IClosed {
      if m.Ext? {
        ExtOnlyFrom(t);
      }
      hide Inv, Delivered, Taking;
      DeliveredTaking(t.a, m) by {
        TakingUsage(t.a, t.b);
      }
      DeliveredForward(t.a, m);
    }
  }

  lemma TakingUsage(r: End, s: End)
    requires Flowing(s, r)
    ensures Taking(r) && (s.c.opts.extUsage == ExtRead ==> r.c.opts.extUsage == ExtWrite)
  {
  }

  /** A gentle step of end a leaves both directions sound. */
  lemma GentleSound(t: Net, ev: Event)
    requires Inv(t) && Enabled(t.a, t.ba, ev) && Gentle(t.a, ev)
    ensures var u := StepA(t, ev);
      Forward(t.a, u.a) && (Sound(t.a, t.b) ==> Sound(u.a, u.b)) && (Sound(t.b, t.a) ==> Sound(u.b, u.a))
  {
    if ev.Deliver? {
      DeliveredForward(t.a, t.ba[0]);
      if Sound(t.b, t.a) {
        DeliverSound(t);
      }
      hide Inv, Delivered, Flowing, OneWay;
      LaterSound(t, Delivered(t.a, t.ba[0]).e);
    } else {
      LocalForward(t.a, ev);
      if Taking(t.a) {
        LocalTaking(t.a, ev);
      }
      hide Inv, Local, Taking;
      LaterSound(t, Local(t.a, ev).e);
    }
  }

  lemma LaterSound(t: Net, a1: End)
    requires Forward(t.a, a1)
    ensures Sound(t.a, t.b) ==> Sound(a1, t.b)
  {
    if Sound(t.a, t.b) {
      SenderSound(t.a, a1, t.b);
    }
  }

  // ---- what is read is not lost ----

  /** Nothing has been thrown away at r, nor will it be: its output is open, or nothing is left to come. */
  predicate Whole(s: End, r: End, fwd: seq<Msg>) {
    !r.dropped && (r.c.ostate == OOpen || (Bytes(fwd) == [] && s.c.input == []))
  }

  lemma PollSilent(c: Chan)
    requires c.input == []
    ensures Bytes(AfterPoll(c).out) == []
  {
    NoMessages();
    if c.alive && !Closing(c) {
      var e1 := PollData(c);
      var e2 := PollExt(e1.c);
      OneMessage(Eof);
      if e2.out != [] {
        OneMessage(e2.out[0]);
      }
      PollExtOne(e1.c);
      hide Bytes, ExtBytes;
      BytesConcat(e1.out, e2.out);
    }
  }

  lemma LocalSilent(e: End, ev: Event)
    requires Enabled(e, [], ev) && e.c.input == []
    ensures Bytes(Local(e, ev).out) == []
  {
    PollSilent(e.c);
    NoMessages();
    OneMessage(Eow);
    OneMessage(Close);
    OneMessage(Adjust(e.c.localConsumed));
    hide Bytes, AfterPoll, AdjustDue, EfdOutputActive;
  }

  lemma DeliveredReply(e: End, m: Msg)
    ensures Delivered(e, m).out == [] || Delivered(e, m).out == [Eof]
  {
    hide EfdOutputActive, Words.Wrap32;
  }

  lemma DeliveredSilent(e: End, m: Msg)
    ensures Bytes(Delivered(e, m).out) == []
  {
    DeliveredReply(e, m);
    NoMessages();
    OneMessage(Eof);
    hide Delivered, Bytes;
  }

  lemma SilentConcat(p: seq<Msg>, q: seq<Msg>)
    requires Bytes(p) == [] && Bytes(q) == []
    ensures Bytes(p + q) == []
    decreases |q|
  {
    hide Bytes;
    if q == [] {
      assert p + q == p;
    } else {
      var n := |q| - 1;
      AppendBytes(q[..n], q[n]);
      assert q == q[..n] + [q[n]];
      SilentConcat(p, q[..n]);
      AppendBytes(p + q[..n], q[n]);
      assert p + q == p + q[..n] + [q[n]];
    }
  }

  /** A step of the sender. */
  lemma SenderWhole(t: Net, m: Moved)
    requires Whole(t.a, t.b, t.ab) && Forward(t.a, m.e) && (t.a.c.input == [] ==> Bytes(m.out) == [])
    ensures Whole(m.e, t.b, t.ab + m.out)
  {
    hide Bytes;
    if t.b.c.ostate != OOpen {
      SilentConcat(t.ab, m.out);
    }
  }

  /** A gentle local step of the receiver. */
  lemma LocalWhole(t: Net, ev: Event)
    requires Enabled(t.a, [], ev) && Gentle(t.a, ev) && Whole(t.b, t.a, t.ba)
    ensures Whole(t.b, Local(t.a, ev).e, t.ba)
  {
    PollTaking(t.a.c);
    hide Bytes, AfterPoll, AdjustDue, EfdOutputActive;
  }

  /** EOF or CLOSE is next, and the output is still open: nothing follows, and nothing is left to be read. */
  lemma EndIsWhole(t: Net)
    requires Sane(t) && t.ba != [] && (t.ba[0].Eof? || t.ba[0].Close?) && t.a.c.ostate == OOpen
    ensures Bytes(t.ba[1..]) == [] && t.b.c.input == []
  {
    EndOfInput(t);
    Head(t.ba, t.a.c.eofRcvd, t.a.c.closeRcvd);
    if t.ba[0].Eof? {
      NoBytesAfterEof(t.ba[1..], false);
    } else {
      assert false;
    }
    hide Bytes, Ordered, InFlight, Credit, ExtBytes, HasEof, HasClose;
  }

  lemma DeliverWhole(t: Net)
    requires Sane(t) && t.ba != [] && Whole(t.b, t.a, t.ba)
    ensures Whole(t.b, Delivered(t.a, t.ba[0]).e, t.ba[1..])
  {
    var m := t.ba[0];
    AliveToReceive(t);
    Head(t.ba, t.a.c.eofRcvd, t.a.c.closeRcvd) by {
      hide Unstopped;
    }
    if (m.Eof? || m.Close?) && t.a.c.ostate == OOpen {
      EndIsWhole(t);
    }
    DroppedOnly(t.a, m);
    DeliveredOutput(t.a, m);
    hide Sane, Delivered, Bytes, Ordered, InFlight, Credit, ExtBytes, HasEof, HasClose;
  }

  lemma DroppedOnly(e: End, m: Msg)
    ensures Delivered(e, m).e.dropped ==> e.dropped || (m.Data? && m.data != [] && e.c.ostate != OOpen)
  {
    hide Receive;
  }

  lemma DeliveredOutput(e: End, m: Msg)
    ensures e.c.ostate != OOpen ==> Delivered(e, m).e.c.ostate != OOpen
    ensures !m.Eof? && !m.Close? ==> Delivered(e, m).e.c.ostate == e.c.ostate
  {
    if Receive(e.c, m).Accepted? && (m.Data? || m.Ext? || m.Adjust?) {
      ReceiveSteady(e.c, m);
      hide Receive;
    } else {
      hide EfdOutputActive, Words.Wrap32;
    }
  }

  // ---- a gentle step ----

  /** What a gentle step, and so any number of them, keeps. */
  predicate Kept(t: Net, u: Net) {
    && Forward(t.a, u.a) && Forward(t.b, u.b)
    && (Sound(t.a, t.b) ==> Sound(u.a, u.b)) && (Sound(t.b, t.a) ==> Sound(u.b, u.a))
    && (Whole(t.a, t.b, t.ab) ==> Whole(u.a, u.b, u.ab)) && (Whole(t.b, t.a, t.ba) ==> Whole(u.b, u.a, u.ba))
  }

  lemma KeptItself(t: Net)
    ensures Kept(t, t)
  {
    hide Sound, Whole;
  }

  lemma KeptOn(t: Net, u: Net, v: Net)
    requires Kept(t, u) && Kept(u, v)
    ensures Kept(t, v)
  {
    hide Sound, Whole;
  }

  lemma GentleWhole(t: Net, ev: Event)
    requires Sane(t) && Enabled(t.a, t.ba, ev) && Gentle(t.a, ev)
    ensures var u := StepA(t, ev);
      (Whole(t.a, t.b, t.ab) ==> Whole(u.a, u.b, u.ab)) && (Whole(t.b, t.a, t.ba) ==> Whole(u.b, u.a, u.ba))
  {
    if ev.Deliver? {
      var m := Delivered(t.a, t.ba[0]);
      if Whole(t.b, t.a, t.ba) {
        DeliverWhole(t);
      }
      DeliveredForward(t.a, t.ba[0]);
      DeliveredSilent(t.a, t.ba[0]);
      hide Sane, Delivered, Whole, Forward, Bytes;
      if Whole(t.a, t.b, t.ab) {
        SenderWhole(t, m);
      }
    } else {
      var m := Local(t.a, ev);
      if Whole(t.b, t.a, t.ba) {
        LocalWhole(t, ev);
      }
      LocalForward(t.a, ev);
      if t.a.c.input == [] {
        LocalSilent(t.a, ev);
      }
      hide Sane, Local, Whole, Forward, Bytes;
      if Whole(t.a, t.b, t.ab) {
        SenderWhole(t, m);
      }
    }
  }

  lemma GentleA(t: Net, ev: Event)
    requires Sane(t) && Enabled(t.a, t.ba, ev) && Gentle(t.a, ev)
    ensures Kept(t, StepA(t, ev))
  {
    hide Sound, Whole, OneWay;
    GentleWhole(t, ev);
    GentleSound(t, ev) by {
      SaneInv(t);
    }
    ForwardItself(t.b);
    StepAKeepsB(t, ev);
    hide Sane, StepA;
  }

  lemma SaneInv(t: Net)
    requires Sane(t)
    ensures Inv(t)
  {
  }

  lemma StepAKeepsB(t: Net, ev: Event)
    requires Enabled(t.a, t.ba, ev)
    ensures StepA(t, ev).b == t.b
  {
  }

  lemma ForwardItself(e: End)
    ensures Forward(e, e)
  {
  }

  lemma KeptMirror(t: Net, u: Net)
    requires Kept(Mirror(t), u)
    ensures Kept(t, Mirror(u))
  {
    hide Sound, Whole, Forward;
  }

  /** A gentle step of either end. */
  lemma GentleStep(t: Net, atA: bool, ev: Event)
    requires Sane(t) && EventEnabled(t, atA, ev) && Gentle(if atA then t.a else t.b, ev)
    ensures var u := Step(t, atA, ev); Sane(u) && Kept(t, u) && Reaches(t, u)
  {
    StepSane(t, atA, ev);
    ReachesBy(t, atA, ev);
    hide Sane, Kept, StepA, Reaches, Enabled, Gentle;
    if atA {
      GentleA(t, ev);
    } else {
      MirrorSane(t);
      GentleA(Mirror(t), ev);
      KeptMirror(t, StepA(Mirror(t), ev));
    }
  }

  // ---- end of write ----

  predicate HasEow(q: seq<Msg>) {
    exists i :: 0 <= i < |q| && q[i].Eow?
  }

  /** If r has thrown output away and says so, s no longer reads, or will be told. */
  predicate Told(s: End, r: End, back: seq<Msg>) {
    r.destroyed > 0 && r.c.opts.sendsEow ==> s.c.istate != IOpen || HasEow(back)
  }

  lemma PollInput(c: Chan)
    ensures c.istate != IOpen ==> AfterPoll(c).c.istate != IOpen
    ensures AfterPoll(c).c.opts == c.opts
  {
    hide EfdInputActive, Sendable;
  }

  /** What a local step does to reading and to what was thrown away. */
  lemma LocalTells(e: End, ev: Event)
    requires Enabled(e, [], ev)
    ensures var m := Local(e, ev);
      && (e.c.istate != IOpen ==> m.e.c.istate != IOpen) && m.e.c.opts == e.c.opts
      && (m.e.destroyed == e.destroyed || (e.c.opts.sendsEow ==> m.out == [Eow]))
  {
    PollInput(e.c);
    hide AfterPoll, AdjustDue, EfdOutputActive, Words.Wrap32;
  }

  lemma DeliveredTells(e: End, m: Msg)
    requires e.c.alive
    ensures var d := Delivered(e, m);
      && (e.c.istate != IOpen || m.Eow? ==> d.e.c.istate != IOpen) && d.e.c.opts == e.c.opts && d.e.destroyed == e.destroyed
  {
    DeliveredForward(e, m);
    if m.Eow? {
      hide OneWay;
    } else {
      hide Receive;
    }
  }

  lemma EowStays(q: seq<Msg>, out: seq<Msg>)
    ensures HasEow(q) || out == [Eow] ==> HasEow(q + out)
    ensures q != [] && HasEow(q) && !q[0].Eow? ==> HasEow(q[1..])
  {
    if HasEow(q) {
      var i :| 0 <= i < |q| && q[i].Eow?;
      assert (q + out)[i].Eow?;
      if i > 0 {
        assert q[1..][i - 1].Eow?;
      }
    }
    if out == [Eow] {
      assert (q + out)[|q|].Eow?;
    }
  }

  lemma StepATold(t: Net, ev: Event)
    requires Inv(t) && Enabled(t.a, t.ba, ev) && Told(t.a, t.b, t.ba) && Told(t.b, t.a, t.ab)
    ensures var u := StepA(t, ev); Told(u.a, u.b, u.ba) && Told(u.b, u.a, u.ab)
  {
    if ev.Deliver? {
      AliveToReceive(t);
      DeliveredTells(t.a, t.ba[0]);
      hide Inv, Delivered, HasEow;
      EowStays(t.ba, []);
      EowStays(t.ab, Delivered(t.a, t.ba[0]).out);
    } else {
      LocalTells(t.a, ev);
      hide Inv, Local, HasEow;
      EowStays(t.ab, Local(t.a, ev).out);
    }
  }

  /** In every run: an end reads on after its peer has thrown output away only while EOW is under way, if EOW is sent at all. */
  lemma {:induction false} EowTells(s: Net, moves: seq<Move>)
    requires Initial(s)
    ensures var t := Run(s, moves); Told(t.a, t.b, t.ba) && Told(t.b, t.a, t.ab)
    decreases |moves|
  {
    if moves != [] {
      var m := moves[|moves| - 1];
      var t := Run(s, moves[..|moves| - 1]);
      EowTells(s, moves[..|moves| - 1]);
      RunKeepsInv(s, moves[..|moves| - 1]);
      hide Inv, Told, StepA;
      if EventEnabled(t, m.atA, m.ev) {
        if m.atA {
          StepATold(t, m.ev);
        } else {
          MirrorInv(t);
          StepATold(Mirror(t), m.ev);
        }
      }
    }
  }

  lemma MirrorInv(t: Net)
    requires Inv(t)
    ensures Inv(Mirror(t))
  {
    hide Direction;
  }
}
