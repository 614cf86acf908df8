/**
 Mux clients, the master and the server over whole runs. A message of a client is acted on
 when the master reads it; messages of the server wait in a queue until the master reads them.
 Every channel has a number `k` of its own here, which no message carries.
 */
module MuxNet {
  import opened Options
  import opened Words
  import opened MuxProxy

  /**
   A channel between a mux client and the server: the server's number for it once it has one,
   whether the server has refused it, whether the master has passed the number on, whether the
   client's CLOSE (or refusal) has passed, and whether the server's CLOSE was sent and has passed.
   */
  datatype Chan = Chan(client: nat, downId: nat, slot: Option<nat>, peerId: Option<nat>,
                       refused: bool, claimed: bool, downClosed: bool, upSent: bool, upClosed: bool)

  /** A message of the server about channel k: addressed to a slot, or a request to open. */
  datatype Item =
    | ToSlot(k: nat, slot: nat, kind: nat, body: Bytes)
    | Offer(k: nat, host: string, port: nat, sender: nat, body: Bytes)

  /** What became of a message of the server. */
  datatype Delivery = Delivered(client: nat, frame: Frame) | Offered(client: nat, sender: nat, body: Bytes) | Lost

  /** A message of a client, as the client sent it; an OPEN or CONFIRMATION is about channel k. */
  datatype Asked = Asked(client: nat, msg: Down, k: Option<nat>)

  /** The messages of clients, and what the server got for each: None if it was refused. */
  datatype Calls = Calls(asked: seq<Asked>, passed: seq<Option<Down>>)

  /** `sent` holds all messages of the server; the first |log| of them have been read. */
  datatype World = World(slots: seq<Slot>, permits: seq<Permit>, chans: seq<Chan>, sent: seq<Item>, log: seq<Delivery>,
                         calls: Calls, fatal: bool)

  const START: World := World([], [], [], [], [], Calls([], []), false)

  datatype Event =
    | ClientOpen(client: nat, ctype: string, id: nat, rest: Bytes)
    | ClientConfirm(k: nat, id: nat, rest: Bytes)
    | ClientRefuse(k: nat, payload: Bytes)
    | ClientClose(k: nat, payload: Bytes)
    | ClientForward(client: nat, request: string, host: string, port: nat, payload: Bytes)
    | ClientSend(client: nat, kind: nat, payload: Bytes)
    | PeerOffer(host: string, port: nat, sender: nat, body: Bytes)
    | PeerRefuse(k: nat, body: Bytes)
    | PeerConfirm(k: nat, body: Bytes)
    | PeerSend(k: nat, kind: nat, body: Bytes)
    | PeerClose(k: nat)
    | Deliver
    | LocalOpen
    | LocalFree(i: nat)

  /** The server may give out this number: all channels that had it are closed in both directions. */
  predicate Available(w: World, id: nat) {
    id != UNSET && forall j :: 0 <= j < |w.chans| && w.chans[j].peerId == Some(id) ==> w.chans[j].downClosed && w.chans[j].upSent
  }

  /** The client has been offered the channel and has not answered. */
  predicate Undecided(c: Chan) {
    c.claimed && c.peerId.Some? && c.slot.None? && !c.downClosed
  }

  /** Global requests, OPEN, CONFIRMATION and CLOSE; the proxy looks into no other message of a client. */
  predicate ReadByProxy(kind: nat) {
    kind == 80 || kind == 90 || kind == CONFIRM || kind == CLOSE
  }

  /** What clients and server do; clients stay connected. */
  predicate Conforms(w: World, e: Event) {
    match e
    case ClientOpen(_, _, _, _) => true
    case ClientConfirm(k, _, _) => k < |w.chans| && Undecided(w.chans[k])
    case ClientRefuse(k, _) => k < |w.chans| && Undecided(w.chans[k])
    case ClientClose(k, payload) =>
      k < |w.chans| && w.chans[k].claimed && w.chans[k].slot.Some? && !w.chans[k].downClosed
      && |payload| >= 4 && w.chans[k].peerId == Some(U32At(payload))
    case ClientForward(_, _, _, _, _) => true
    case ClientSend(_, kind, _) => !ReadByProxy(kind)
    case PeerOffer(host, port, sender, _) => ListenClient(w.permits, host, port).Some? && Available(w, sender)
    case PeerRefuse(k, _) => k < |w.chans| && w.chans[k].slot.Some? && w.chans[k].peerId.None? && !w.chans[k].refused
    case PeerConfirm(k, body) =>
      && k < |w.chans| && w.chans[k].slot.Some? && w.chans[k].peerId.None? && !w.chans[k].refused
      && |body| > 4 && Available(w, U32At(body))
    case PeerSend(k, kind, _) =>
      && k < |w.chans| && w.chans[k].slot.Some? && !w.chans[k].refused && !w.chans[k].upSent
      && Proxied(kind) && kind != CONFIRM && kind != FAILURE && kind != CLOSE
    case PeerClose(k) => k < |w.chans| && w.chans[k].slot.Some? && w.chans[k].peerId.Some? && !w.chans[k].upSent
    case Deliver => |w.log| < |w.sent|
    case LocalOpen => true
    case LocalFree(i) => i < |w.slots| && w.slots[i].Used? && w.slots[i].owner.None?
  }

  // ---- one step ----

  function Step(w: World, e: Event): World {
    if w.fatal || !Conforms(w, e) then w
    else
      match e
      case ClientOpen(client, ctype, id, rest) =>
        var d := Downstream(w.slots, w.permits, client, OpenDown(ctype, id, rest));
        if d.DownFatal? then w.(fatal := true)
        else w.(slots := d.slots, chans := w.chans + [Chan(client, id, Some(d.msg.id), None, false, false, false, false, false)],
                calls := Record(w.calls, client, OpenDown(ctype, id, rest), Some(|w.chans|), d))
      case ClientConfirm(k, id, rest) =>
        var c := w.chans[k];
        var d := Downstream(w.slots, w.permits, c.client, ConfirmDown(c.peerId.value, id, rest));
        if d.DownFatal? then w.(fatal := true)
        else w.(slots := d.slots, chans := w.chans[k := c.(downId := id, slot := Some(d.msg.id))],
                calls := Record(w.calls, c.client, ConfirmDown(c.peerId.value, id, rest), Some(k), d))
      case ClientRefuse(k, payload) =>
        var d := Downstream(w.slots, w.permits, w.chans[k].client, OtherDown(FAILURE, payload));
        w.(slots := d.slots, chans := w.chans[k := w.chans[k].(downClosed := true, upSent := true, upClosed := true)],
           calls := Record(w.calls, w.chans[k].client, OtherDown(FAILURE, payload), None, d))
      case ClientClose(k, payload) =>
        var d := Downstream(w.slots, w.permits, w.chans[k].client, CloseDown(payload));
        w.(slots := d.slots, chans := w.chans[k := w.chans[k].(downClosed := true)],
           calls := Record(w.calls, w.chans[k].client, CloseDown(payload), None, d))
      case ClientForward(client, request, host, port, payload) =>
        var d := Downstream(w.slots, w.permits, client, GlobalDown(request, host, port, payload));
        w.(permits := if d.Passed? then d.permits else w.permits,
           calls := Record(w.calls, client, GlobalDown(request, host, port, payload), None, d))
      case ClientSend(client, kind, payload) =>
        var d := Downstream(w.slots, w.permits, client, OtherDown(kind, payload));
        w.(slots := d.slots, calls := Record(w.calls, client, OtherDown(kind, payload), None, d))
      case PeerOffer(host, port, sender, body) =>
        w.(chans := w.chans + [Chan(ListenClient(w.permits, host, port).value, 0, None, Some(sender), false, false, false, false, false)],
           sent := w.sent + [Offer(|w.chans|, host, port, sender, body)])
      case PeerRefuse(k, body) =>
        w.(chans := w.chans[k := w.chans[k].(refused := true)],
           sent := w.sent + [ToSlot(k, w.chans[k].slot.value, FAILURE, body)])
      case PeerConfirm(k, body) =>
        w.(chans := w.chans[k := w.chans[k].(peerId := Some(U32At(body)))],
           sent := w.sent + [ToSlot(k, w.chans[k].slot.value, CONFIRM, body)])
      case PeerSend(k, kind, body) => w.(sent := w.sent + [ToSlot(k, w.chans[k].slot.value, kind, body)])
      case PeerClose(k) =>
        w.(chans := w.chans[k := w.chans[k].(upSent := true)],
           sent := w.sent + [ToSlot(k, w.chans[k].slot.value, CLOSE, [])])
      case Deliver => Read(w, w.sent[|w.log|])
      case LocalOpen =>
        var p := Place(w.slots, Used(None, UNSET, false, false));
        if p.None? then w.(fatal := true) else w.(slots := p.value.slots)
      case LocalFree(i) => w.(slots := w.slots[i := Free])
  }

  function Record(c: Calls, client: nat, m: Down, k: Option<nat>, d: DownResult): Calls {
    Calls(c.asked + [Asked(client, m, k)], c.passed + [if d.Passed? then Some(d.msg) else None])
  }

  /** The master reads a message of the server. */
  function Read(w: World, item: Item): World {
    match item
    case ToSlot(k, slot, kind, body) =>
      var u := Upstream(w.slots, slot, kind, body);
      if u.NotProxied? then w.(log := w.log + [Lost])
      else w.(slots := u.slots, log := w.log + [Delivered(u.client, u.frame)], chans := AfterRead(w.chans, k, kind))
    case Offer(k, host, port, sender, body) =>
      var c := ListenClient(w.permits, host, port);
      if c.None? || k >= |w.chans| then w.(log := w.log + [Lost])
      else w.(log := w.log + [Offered(c.value, sender, body)], chans := w.chans[k := w.chans[k].(claimed := true)])
  }

  function AfterRead(chans: seq<Chan>, k: nat, kind: nat): (r: seq<Chan>)
    ensures |r| == |chans|
  {
    if k >= |chans| then chans
    else if kind == CONFIRM then chans[k := chans[k].(claimed := true)]
    else if kind == CLOSE then chans[k := chans[k].(upClosed := true)]
    else chans
  }

  function Run(events: seq<Event>): World {
    if events == [] then START else Step(Run(events[..|events| - 1]), events[|events| - 1])
  }

  // ---- the table and the channels ----

  predicate Over(c: Chan) {
    c.downClosed && c.upClosed
  }

  /** The channel is the one in slot i. */
  predicate Holds(c: Chan, i: nat) {
    c.slot == Some(i) && !Over(c)
  }

  /** What the slot of an open channel holds. */
  function SlotOf(c: Chan): Slot
  {
    Used(Some(Owner(c.client, c.downId)), if c.claimed && c.peerId.Some? then c.peerId.value else UNSET, c.downClosed, c.upClosed)
  }

  predicate InSlot(slots: seq<Slot>, c: Chan, i: nat) {
    Holds(c, i) ==> i < |slots| && slots[i] == SlotOf(c)
  }

  ghost predicate TableOk(slots: seq<Slot>, chans: seq<Chan>) {
    && (forall k, i: nat :: 0 <= k < |chans| ==> InSlot(slots, chans[k], i))
    && (forall j, k, i: nat :: 0 <= j < |chans| && 0 <= k < |chans| && Holds(chans[j], i) && Holds(chans[k], i) ==> j == k)
    && (forall i: nat :: i < |slots| ==> Owned(slots[i], chans, i))
  }

  /** A used slot is the master's own or holds one of the channels. */
  ghost predicate Owned(s: Slot, chans: seq<Chan>, i: nat) {
    s.Used? ==> if s.owner.None? then s.remoteId == UNSET else exists k :: 0 <= k < |chans| && Holds(chans[k], i)
  }

  predicate FlagsOk(c: Chan) {
    && (c.downClosed ==> c.claimed)
    && (c.claimed ==> c.peerId.Some?)
    && (c.upClosed ==> c.upSent)
    && (c.upSent ==> c.peerId.Some?)
    && (c.refused ==> c.slot.Some? && c.peerId.None?)
    && (c.slot.None? ==> c.peerId.Some? && (c.downClosed || c.upSent ==> Over(c)))
    && c.peerId != Some(UNSET)
  }

  predicate AllFlagsOk(chans: seq<Chan>) {
    forall k :: 0 <= k < |chans| ==> FlagsOk(chans[k])
  }

  /** Of two channels with the same number that the master has passed on, one is over. */
  predicate ClaimsOk(chans: seq<Chan>) {
    forall j, k :: 0 <= j < k < |chans| && chans[j].claimed && chans[k].claimed && chans[j].peerId == chans[k].peerId
      ==> Over(chans[j]) || Over(chans[k])
  }

  // ---- the queue ----

  predicate IsClose(item: Item, k: nat) {
    item.ToSlot? && item.kind == CLOSE && item.k == k
  }

  /** The message tells the number the server gave the channel. */
  predicate IsClaim(item: Item) {
    item.Offer? || (item.kind == CONFIRM && |item.body| > 4)
  }

  function Claimed(item: Item): nat
    requires IsClaim(item)
  {
    if item.Offer? then item.sender else U32At(item.body)
  }

  predicate ItemOk(chans: seq<Chan>, item: Item) {
    && item.k < |chans| && !chans[item.k].upClosed
    && (if item.Offer? then chans[item.k].slot.None? else chans[item.k].slot == Some(item.slot) && (item.kind == CONFIRM ==> IsClaim(item)))
    && (IsClaim(item) ==> !chans[item.k].claimed && chans[item.k].peerId == Some(Claimed(item)))
    && (IsClose(item, item.k) ==> chans[item.k].upSent)
    && (item.ToSlot? ==> Proxied(item.kind))
  }

  predicate ItemsOk(chans: seq<Chan>, sent: seq<Item>, n: nat) {
    forall a :: n <= a < |sent| ==> ItemOk(chans, sent[a])
  }

  /** A CLOSE is the last message about its channel, and one that was sent but not read is waiting. */
  predicate ClosesOk(chans: seq<Chan>, sent: seq<Item>, n: nat) {
    && (forall a, b :: n <= a < b < |sent| ==> !IsClose(sent[a], sent[b].k))
    && (forall k :: 0 <= k < |chans| && chans[k].upSent && !chans[k].upClosed ==> CloseBefore(sent, n, |sent|, k))
  }

  predicate CloseBefore(sent: seq<Item>, n: nat, b: nat, k: nat)
  {
    exists a :: n <= a < b && a < |sent| && IsClose(sent[a], k)
  }

  /** Waiting messages that tell a number: channels that had it before are closed by then. */
  predicate WaitingOk(chans: seq<Chan>, sent: seq<Item>, n: nat) {
    && (forall a, b :: n <= a < b < |sent| && IsClaim(sent[a]) && IsClaim(sent[b]) ==> Claimed(sent[a]) != Claimed(sent[b]))
    && (forall b, j :: n <= b < |sent| && 0 <= j < |chans| && Rivals(chans[j], j, sent[b]) ==>
          chans[j].downClosed && (chans[j].upClosed || CloseBefore(sent, n, b, j)))
  }

  /** Channel j has the number that the message gives to another one. */
  predicate Rivals(c: Chan, j: nat, item: Item) {
    IsClaim(item) && item.k != j && c.claimed && c.peerId == Some(Claimed(item))
  }

  // ---- the log ----

  /** What should become of a message: its channel's client gets it, under its own number. */
  function Intended(chans: seq<Chan>, item: Item): Delivery
    requires item.k < |chans|
  {
    match item
    case ToSlot(k, _, kind, body) => Delivered(chans[k].client, Frame(chans[k].downId, kind, body))
    case Offer(k, _, _, sender, body) => Offered(chans[k].client, sender, body)
  }

  predicate LogOk(chans: seq<Chan>, sent: seq<Item>, log: seq<Delivery>) {
    && |log| <= |sent|
    && forall n :: 0 <= n < |log| ==>
         sent[n].k < |chans| && (sent[n].ToSlot? ==> chans[sent[n].k].slot.Some?) && log[n] == Intended(chans, sent[n])
  }

  predicate ProtocolOk(chans: seq<Chan>, sent: seq<Item>, n: nat) {
    && AllFlagsOk(chans) && ClaimsOk(chans)
    && ItemsOk(chans, sent, n) && ClosesOk(chans, sent, n) && WaitingOk(chans, sent, n)
  }

  /** An offer is for the client that asked for its address first. */
  predicate OffersOk(permits: seq<Permit>, chans: seq<Chan>, sent: seq<Item>) {
    forall a :: 0 <= a < |sent| && sent[a].Offer? ==>
      sent[a].k < |chans| && ListenClient(permits, sent[a].host, sent[a].port) == Some(chans[sent[a].k].client)
  }

  ghost predicate Inv(w: World) {
    && TableOk(w.slots, w.chans) && ProtocolOk(w.chans, w.sent, |w.log|) && LogOk(w.chans, w.sent, w.log)
    && OffersOk(w.permits, w.chans, w.sent)
  }
}
