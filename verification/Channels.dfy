/**
 One end of an SSH protocol 2 channel: buffers, flow-control windows and the half-close
 state machine. `Chan` is a snapshot of the end; the class `Channel` updates the fields in
 place and each of its methods is specified by a function on snapshots.
 */
module Channels {
  import opened Words

  datatype IState = IOpen | IWaitDrain | IClosed
  datatype OState = OOpen | OWaitDrain | OClosed
  datatype ExtUsage = ExtIgnore | ExtRead | ExtWrite

  /** Channel messages; extended data always carries the stderr code. */
  datatype Msg =
    | Data(data: seq<u8>)
    | Ext(data: seq<u8>)
    | Adjust(credit: u32)
    | Eof
    | Eow
    | Close

  /** What a channel is given when it is made. */
  datatype Setup = Setup(extUsage: ExtUsage, sendsEow: bool, forceDrain: bool, localWindowMax: u32, localMaxPacket: u32)

  datatype Chan = Chan(
    opts: Setup,
    alive: bool,
    istate: IState, ostate: OState,
    closeSent: bool, closeRcvd: bool, eofSent: bool, eofRcvd: bool,
    input: seq<u8>, output: seq<u8>, extended: seq<u8>,
    efd: bool, remoteWindow: u32, remoteMaxPacket: u32, localWindow: u32, localConsumed: u32)

  /** A local step's new state and the messages it sends. */
  datatype Emit = Emit(c: Chan, out: seq<Msg>)

  /** What became of a received message. */
  datatype Outcome =
    | Accepted(c: Chan, reply: seq<Msg>)
    | Ignored(c: Chan)          // not charged to the window: no reader for extended data
    | TooMuch(c: Chan)          // more data than the window allows, dropped
    | Disconnect                // protocol error
    | Overflow                  // window adjust overflows the remote window, fatal

  // ---- predicates on snapshots ----

  predicate Closing(c: Chan) {
    c.closeSent || c.closeRcvd
  }

  /** Extended data may still have to be sent. */
  predicate EfdInputActive(c: Chan) {
    c.opts.extUsage == ExtRead && (c.efd || c.extended != [])
  }

  /** Extended data may still have to be written locally. */
  predicate EfdOutputActive(c: Chan) {
    c.opts.extUsage == ExtWrite && c.efd && (!(c.eofRcvd || c.closeRcvd) || c.extended != [])
  }

  function Min(a: int, b: int): int {
    if a <= b then a else b
  }

  // ---- local steps ----

  function AfterRead(c: Chan, data: seq<u8>): Chan {
    c.(input := c.input + data)
  }

  function AfterReadFails(c: Chan): Chan {
    if c.istate == IOpen then c.(istate := IWaitDrain) else c
  }

  function AfterWrite(c: Chan, n: nat): Chan
    requires n <= |c.output|
  {
    c.(output := c.output[n..], localConsumed := Wrap32(c.localConsumed + n))
  }

  function AfterWriteFails(c: Chan): Emit {
    if c.ostate == OClosed then Emit(c, [])
    else Emit(c.(output := [], ostate := OClosed), if c.opts.sendsEow then [Eow] else [])
  }

  function AfterReadExt(c: Chan, data: seq<u8>): Chan {
    if c.opts.extUsage == ExtRead then c.(extended := c.extended + data) else c
  }

  function AfterWriteExt(c: Chan, n: nat): Chan
    requires n <= |c.extended|
  {
    c.(extended := c.extended[n..], localConsumed := Wrap32(c.localConsumed + n))
  }

  /** Is a window adjust due? */
  predicate AdjustDue(c: Chan) {
    && c.alive && !Closing(c)
    && (Wrap32(c.opts.localWindowMax - c.localWindow) > Wrap32(3 * c.opts.localMaxPacket) || c.localWindow < c.opts.localWindowMax / 2)
    && c.localConsumed > 0
  }

  function AfterCheckWindow(c: Chan): Emit {
    if AdjustDue(c) then
      Emit(c.(localWindow := Wrap32(c.localWindow + c.localConsumed), localConsumed := 0), [Adjust(c.localConsumed)])
    else
      Emit(c, [])
  }

  /** How much of a buffer of length len the windows let through. */
  function Sendable(c: Chan, len: nat): (n: nat)
    ensures n <= len && n <= c.remoteWindow && n <= c.remoteMaxPacket
  {
    Min(Min(len, c.remoteWindow), c.remoteMaxPacket)
  }

  function SendData(c: Chan, n: nat): Emit
    requires n <= |c.input|
  {
    Emit(c.(input := c.input[n..], remoteWindow := Wrap32(c.remoteWindow - n)), [Data(c.input[..n])])
  }

  /** The input is drained: say so unless CLOSE has been sent. */
  function SendEof(c: Chan): Emit {
    if c.closeSent then Emit(c.(istate := IClosed), []) else Emit(c.(istate := IClosed, eofSent := true), [Eof])
  }

  function SendExt(c: Chan, n: nat): Emit
    requires n <= |c.extended|
  {
    Emit(c.(extended := c.extended[n..], remoteWindow := Wrap32(c.remoteWindow - n)), [Ext(c.extended[..n])])
  }

  /** The regular-data half of the output poll. */
  function PollData(c: Chan): Emit {
    if c.istate != IClosed && c.input != [] then
      (if Sendable(c, |c.input|) == 0 then Emit(c, []) else SendData(c, Sendable(c, |c.input|)))
    else if c.istate == IWaitDrain && !EfdInputActive(c) then SendEof(c)
    else Emit(c, [])
  }

  /** The extended-data half of the output poll. */
  function PollExt(c: Chan): Emit {
    if !c.eofSent && c.remoteWindow > 0 && c.extended != [] && c.opts.extUsage == ExtRead then
      SendExt(c, Sendable(c, |c.extended|))
    else
      Emit(c, [])
  }

  function AfterPoll(c: Chan): Emit {
    if !c.alive || Closing(c) then Emit(c, [])
    else
      var e1 := PollData(c);
      var e2 := PollExt(e1.c);
      Emit(e2.c, e1.out + e2.out)
  }

  /** The output side is closed once it has been drained. */
  function AfterDrain(c: Chan): Chan {
    if c.ostate == OWaitDrain && c.output == [] && !EfdOutputActive(c) then c.(ostate := OClosed) else c
  }

  /** With both sides closed, send CLOSE; with CLOSE passed both ways, free the channel. */
  function AfterReap(c: Chan): Emit {
    if c.istate == IClosed && c.ostate == OClosed then
      Emit(c.(closeSent := true, alive := !c.closeRcvd), if c.closeSent then [] else [Close])
    else
      Emit(c, [])
  }

  // ---- received messages ----

  function ReceiveData(c: Chan, data: seq<u8>): Outcome {
    if c.ostate != OOpen then
      Accepted(c.(localWindow := Wrap32(c.localWindow - |data|), localConsumed := Wrap32(c.localConsumed + |data|)), [])
    else if |data| > c.localWindow then
      TooMuch(c)
    else
      Accepted(c.(localWindow := Wrap32(c.localWindow - |data|), output := c.output + data), [])
  }

  function ReceiveExt(c: Chan, data: seq<u8>): Outcome {
    if c.eofRcvd then Disconnect
    else if !c.efd || c.opts.extUsage != ExtWrite then Ignored(c)
    else if |data| > c.localWindow then TooMuch(c)
    else Accepted(c.(localWindow := Wrap32(c.localWindow - |data|), extended := c.extended + data), [])
  }

  function ReceiveAdjust(c: Chan, credit: u32): Outcome {
    var sum := Wrap32(c.remoteWindow + credit);
    if sum < c.remoteWindow then Overflow else Accepted(c.(remoteWindow := sum), [])
  }

  function ReceiveEof(c: Chan): Outcome {
    var r := AfterForceDrain(AfterDrain(NoteEof(c)));
    Accepted(r.c, r.out)
  }

  function NoteEof(c: Chan): Chan {
    c.(eofRcvd := true, ostate := if c.ostate == OOpen then OWaitDrain else c.ostate)
  }

  /** A channel that drains on EOF stops reading, and says so at once if nothing is buffered. */
  function AfterForceDrain(c: Chan): Emit {
    if !c.opts.forceDrain || c.istate != IOpen then Emit(c, [])
    else if c.input != [] then Emit(c.(istate := IWaitDrain), [])
    else SendEof(c.(istate := IWaitDrain))
  }

  function ReceiveClose(c: Chan): Outcome {
    var c1 := c.(closeRcvd := true, ostate := if c.ostate == OOpen then OWaitDrain else c.ostate, istate := IClosed);
    if c.istate == IWaitDrain then Accepted(c1.(eofSent := true), [Eof]) else Accepted(c1, [])
  }

  function ReceiveEow(c: Chan): Outcome {
    Accepted(if c.istate == IOpen then c.(istate := IClosed) else c, [])
  }

  function Receive(c: Chan, m: Msg): Outcome {
    if !c.alive then (if m.Adjust? then Ignored(c) else Disconnect)
    else match m
      case Data(d) => ReceiveData(c, d)
      case Ext(d) => ReceiveExt(c, d)
      case Adjust(k) => ReceiveAdjust(c, k)
      case Eof => ReceiveEof(c)
      case Eow => ReceiveEow(c)
      case Close => ReceiveClose(c)
  }

  // ---- the channel object ----

  class Channel {
    var alive: bool
    var istate: IState
    var ostate: OState
    var closeSent: bool
    var closeRcvd: bool
    var eofSent: bool
    var eofRcvd: bool
    var input: seq<u8>
    var output: seq<u8>
    var extended: seq<u8>
    var extUsage: ExtUsage
    var efd: bool
    var sendsEow: bool
    var forceDrain: bool
    var remoteWindow: u32
    var remoteMaxPacket: u32
    var localWindow: u32
    var localWindowMax: u32
    var localConsumed: u32
    var localMaxPacket: u32

    function State(): Chan
      reads this
    {
      Chan(Setup(extUsage, sendsEow, forceDrain, localWindowMax, localMaxPacket),
           alive, istate, ostate, closeSent, closeRcvd, eofSent, eofRcvd, input, output, extended,
           efd, remoteWindow, remoteMaxPacket, localWindow, localConsumed)
    }

    constructor (opts: Setup, hasEfd: bool)
      ensures State() == Fresh(opts, hasEfd)
    {
      alive, istate, ostate := true, IOpen, OOpen;
      closeSent, closeRcvd, eofSent, eofRcvd := false, false, false, false;
      input, output, extended := [], [], [];
      extUsage, efd, sendsEow, forceDrain := opts.extUsage, hasEfd, opts.sendsEow, opts.forceDrain;
      localWindow, localWindowMax, localMaxPacket := opts.localWindowMax, opts.localWindowMax, opts.localMaxPacket;
      localConsumed := 0;
      remoteWindow, remoteMaxPacket := 0, 0;
    }

    /** channel_handle_rfd: data is what read(2) returned, empty if it failed. */
    method HandleRfd(data: seq<u8>)
      modifies this
      ensures State() == if data == [] then AfterReadFails(old(State())) else AfterRead(old(State()), data)
    {
      if |data| == 0 {
        if istate == IOpen {
          istate := IWaitDrain;
        }
        return;
      }
      input := input + data;
    }

    /** channel_handle_wfd: n is what write(2) returned, 0 if it failed. */
    method HandleWfd(n: nat) returns (out: seq<Msg>)
      requires 0 < |output| && n <= |output|
      modifies this
      ensures n > 0 ==> State() == AfterWrite(old(State()), n) && out == []
      ensures n == 0 ==> Emit(State(), out) == AfterWriteFails(old(State()))
    {
      out := [];
      var olen := |output|;
      if n == 0 {
        if ostate != OClosed {
          output := [];
          if sendsEow {
            out := [Eow];
          }
          ostate := OClosed;
        }
        return;
      }
      output := output[n..];
      localConsumed := Wrap32(localConsumed + (olen - |output|));
    }

    /** channel_handle_efd, writing; a failed write closes the descriptor. */
    method WriteEfd(n: nat)
      requires efd && extUsage == ExtWrite && 0 < |extended| && n <= |extended|
      modifies this
      ensures State() == if n == 0 then old(State()).(efd := false) else AfterWriteExt(old(State()), n)
    {
      if n == 0 {
        efd := false;
      } else {
        extended := extended[n..];
        localConsumed := Wrap32(localConsumed + n);
      }
    }

    /** channel_handle_efd, reading; a failed read closes the descriptor. */
    method ReadEfd(data: seq<u8>)
      requires efd && extUsage != ExtWrite
      modifies this
      ensures State() == if data == [] then old(State()).(efd := false) else AfterReadExt(old(State()), data)
    {
      if |data| == 0 {
        efd := false;
      } else if extUsage != ExtIgnore {
        extended := extended + data;
      }
    }

    method CheckWindow() returns (out: seq<Msg>)
      modifies this
      ensures Emit(State(), out) == AfterCheckWindow(old(State()))
    {
      out := [];
      if alive && !(closeSent || closeRcvd)
         && (Wrap32(localWindowMax - localWindow) > Wrap32(localMaxPacket * 3) || localWindow < localWindowMax / 2)
         && localConsumed > 0 {
        out := [Adjust(localConsumed)];
        localWindow := Wrap32(localWindow + localConsumed);
        localConsumed := 0;
      }
    }

    method OutputPoll() returns (out: seq<Msg>)
      modifies this
      ensures Emit(State(), out) == AfterPoll(old(State()))
    {
      out := [];
      if !alive || closeSent || closeRcvd {
        return;
      }
      var regular := PollRegular();
      var extra := PollExtended();
      out := regular + extra;
    }

    method PollRegular() returns (out: seq<Msg>)
      modifies this
      ensures Emit(State(), out) == PollData(old(State()))
    {
      out := [];
      if istate != IClosed && |input| > 0 {
        var len := |input|;
        if len > remoteWindow {
          len := remoteWindow;
        }
        if len > remoteMaxPacket {
          len := remoteMaxPacket;
        }
        if len > 0 {
          out := [Data(input[..len])];
          input := input[len..];
          remoteWindow := Wrap32(remoteWindow - len);
        }
      } else if istate == IWaitDrain {
        if !(extUsage == ExtRead && (efd || |extended| > 0)) {
          if !closeSent {
            out := [Eof];
            eofSent := true;
          }
          istate := IClosed;
        }
      }
    }

    method PollExtended() returns (out: seq<Msg>)
      modifies this
      ensures Emit(State(), out) == PollExt(old(State()))
    {
      out := [];
      if !eofSent && remoteWindow > 0 && |extended| > 0 && extUsage == ExtRead {
        var len := |extended|;
        if len > remoteWindow {
          len := remoteWindow;
        }
        if len > remoteMaxPacket {
          len := remoteMaxPacket;
        }
        out := [Ext(extended[..len])];
        extended := extended[len..];
        remoteWindow := Wrap32(remoteWindow - len);
      }
    }

    /** The drained-output test of channel_pre_open. */
    method DrainOutput()
      modifies this
      ensures State() == AfterDrain(old(State()))
    {
      if ostate == OWaitDrain && |output| == 0 {
        if !(extUsage == ExtWrite && efd && (!(eofRcvd || closeRcvd) || |extended| > 0)) {
          ostate := OClosed;
        }
      }
    }

    /** chan_is_dead with permission to send CLOSE, and the channel_free that follows it. */
    method Reap() returns (out: seq<Msg>)
      modifies this
      ensures Emit(State(), out) == AfterReap(old(State()))
    {
      out := [];
      if istate != IClosed || ostate != OClosed {
        return;
      }
      if !closeSent {
        out := [Close];
        closeSent := true;
      }
      alive := !(closeSent && closeRcvd);
    }

    /** channel_input_data. `res` says which exit was taken. */
    method InputData(d: seq<u8>) returns (res: Outcome)
      requires alive
      modifies this
      ensures res == Receive(old(State()), Data(d)) && State() == Left(res, old(State()))
    {
      if ostate != OOpen {
        localWindow := Wrap32(localWindow - |d|);
        localConsumed := Wrap32(localConsumed + |d|);
        return Accepted(State(), []);
      }
      if |d| > localWindow {
        return TooMuch(State());
      }
      localWindow := Wrap32(localWindow - |d|);
      output := output + d;
      return Accepted(State(), []);
    }

    /** channel_input_extended_data */
    method InputExtendedData(d: seq<u8>) returns (res: Outcome)
      requires alive
      modifies this
      ensures res == Receive(old(State()), Ext(d)) && State() == Left(res, old(State()))
    {
      if eofRcvd {
        return Disconnect;
      }
      if !efd || extUsage != ExtWrite {
        return Ignored(State());
      }
      if |d| > localWindow {
        return TooMuch(State());
      }
      localWindow := Wrap32(localWindow - |d|);
      extended := extended + d;
      return Accepted(State(), []);
    }

    /** channel_input_window_adjust */
    method InputWindowAdjust(k: u32) returns (res: Outcome)
      requires alive
      modifies this
      ensures res == Receive(old(State()), Adjust(k)) && State() == Left(res, old(State()))
    {
      var sum := Wrap32(remoteWindow + k);
      if sum < remoteWindow {
        return Overflow;
      }
      remoteWindow := sum;
      return Accepted(State(), []);
    }

    /** channel_input_ieof */
    method InputEof() returns (res: Outcome)
      requires alive
      modifies this
      ensures res == Receive(old(State()), Eof) && State() == Left(res, old(State()))
    {
      hide AfterDrain, AfterForceDrain, NoteEof;
      RcvdEof();
      DrainOutput();
      var reply := ForceDrain();
      return Accepted(State(), reply);
    }

    /** chan_rcvd_eof2 */
    method RcvdEof()
      modifies this`eofRcvd, this`ostate
      ensures State() == NoteEof(old(State()))
    {
      eofRcvd := true;
      if ostate == OOpen {
        ostate := OWaitDrain;
      }
    }

    /** The force_drain branch of channel_input_ieof. */
    method ForceDrain() returns (out: seq<Msg>)
      modifies this`istate, this`eofSent
      ensures Emit(State(), out) == AfterForceDrain(old(State()))
    {
      hide SendEof;
      out := [];
      if forceDrain && istate == IOpen {
        istate := IWaitDrain;
        if |input| == 0 {
          out := IbufEmpty();
        }
      }
    }

    /** chan_ibuf_empty */
    method IbufEmpty() returns (out: seq<Msg>)
      requires istate == IWaitDrain && input == []
      modifies this`istate, this`eofSent
      ensures Emit(State(), out) == SendEof(old(State()))
    {
      out := [];
      if !closeSent {
        out := [Eof];
        eofSent := true;
      }
      istate := IClosed;
    }

    /** channel_input_oclose */
    method InputClose() returns (res: Outcome)
      requires alive
      modifies this`closeRcvd, this`ostate, this`istate, this`eofSent
      ensures res == Receive(old(State()), Close) && State() == Left(res, old(State()))
    {
      var reply: seq<Msg> := [];
      closeRcvd := true;
      if ostate == OOpen {
        ostate := OWaitDrain;
      }
      if istate == IWaitDrain {
        reply := [Eof];
        eofSent := true;
      }
      istate := IClosed;
      return Accepted(State(), reply);
    }
  }

  /** The state after a received message: unchanged unless it was accepted. */
  function Left(res: Outcome, before: Chan): Chan {
    if res.Accepted? then res.c else before
  }

  /** A channel as channel_new leaves it, with the descriptors it was given. */
  function Fresh(opts: Setup, hasEfd: bool): Chan {
    Chan(opts, true, IOpen, OOpen, false, false, false, false, [], [], [], hasEfd, 0, 0, opts.localWindowMax, 0)
  }
}
