/**
 The mux proxy: channels of mux clients are carried over one connection, each under the
 number of a slot in the master's channel table.
 */
module MuxProxy {
  import opened Options
  import opened Words

  const CONFIRM := 91
  const FAILURE := 92
  const CLOSE := 97

  /** The kinds of channel messages: OPEN_CONFIRMATION to CHANNEL_FAILURE. */
  predicate Proxied(kind: nat) {
    91 <= kind <= 100
  }

  /** The remote id of a channel that has none yet: -1 in an int, all ones on the wire. */
  const UNSET: nat := 0xffff_ffff

  /** The mux client a proxy channel belongs to and the number that client gave the channel. */
  datatype Owner = Owner(client: nat, downId: nat)

  /** An entry of the channel table; channels without owner are the master's own. */
  datatype Slot = Free | Used(owner: Option<Owner>, remoteId: nat, sent: bool, rcvd: bool)

  // ---- the channel table ----

  function FirstFree(slots: seq<Slot>): (i: nat)
    ensures i <= |slots| && (i < |slots| ==> slots[i] == Free) && forall j :: 0 <= j < i ==> slots[j] != Free
  {
    if slots == [] || slots[0] == Free then 0
    else
      var i := FirstFree(slots[1..]);
      assert forall j :: 0 < j < i + 1 ==> slots[j] == slots[1..][j - 1];
      i + 1
  }

  datatype Placed = Placed(slots: seq<Slot>, i: nat)

  /** channel_new: the first free slot, or ten more slots; None is the fatal error of a huge table. */
  function Place(slots: seq<Slot>, s: Slot): (r: Option<Placed>)
    ensures r.Some? ==> |r.value.slots| >= |slots| && r.value.i < |r.value.slots| && r.value.slots[r.value.i] == s
    ensures r.Some? ==> forall j :: 0 <= j < |slots| && j != r.value.i ==> r.value.slots[j] == slots[j]
    ensures r.Some? ==> forall j :: |slots| <= j < |r.value.slots| && j != r.value.i ==> r.value.slots[j] == Free
    ensures r.Some? && r.value.i < |slots| ==> slots[r.value.i] == Free && |r.value.slots| == |slots|
    ensures r.Some? && r.value.i >= |slots| ==> Free !in slots && r.value.i == |slots| && |r.value.slots| == |slots| + 10
    ensures r.Some? ==> forall j :: 0 <= j < r.value.i && j < |slots| ==> slots[j] != Free
    ensures r.None? <==> Free !in slots && |slots| > 10000
  {
    var i := FirstFree(slots);
    if i < |slots| then Some(Placed(slots[i := s], i))
    else if |slots| > 10000 then None
    else Some(Placed(slots + [s] + seq(9, _ => Free), i))
  }

  /** channel_by_remote_id: the first channel with that remote id. */
  function ByRemoteId(slots: seq<Slot>, id: nat): (r: Option<nat>)
    ensures r.Some? ==> r.value < |slots| && HasRemoteId(slots[r.value], id)
    ensures forall j :: 0 <= j < (if r.Some? then r.value else |slots|) ==> !HasRemoteId(slots[j], id)
  {
    if slots == [] then None
    else if HasRemoteId(slots[0], id) then Some(0)
    else
      var r := ByRemoteId(slots[1..], id);
      assert forall j :: 0 < j < |slots| ==> slots[j] == slots[1..][j - 1];
      if r.None? then None else Some(r.value + 1)
  }

  predicate HasRemoteId(s: Slot, id: nat) {
    s.Used? && s.remoteId == id
  }

  // ---- messages of mux clients ----

  /** A message from a mux client, as far as the proxy reads it. */
  datatype Down =
    | OpenDown(ctype: string, id: nat, rest: Bytes)
    | ConfirmDown(remoteId: nat, id: nat, rest: Bytes)
    | CloseDown(payload: Bytes)
    | GlobalDown(request: string, host: string, port: nat, payload: Bytes)
    | OtherDown(kind: nat, payload: Bytes)

  /** A remote forwarding asked for by a client. */
  datatype Permit = Permit(host: string, port: nat, client: nat)

  /** channel_rfwd_bind_host, for servers without the old address bug */
  function BindHost(host: string): string {
    if host == "" || host == "*" then "" else host
  }

  /** channel_connect_by_listen_address: the client that first asked for that address. */
  function ListenClient(permits: seq<Permit>, host: string, port: nat): (r: Option<nat>)
    ensures r.Some? <==> exists i :: 0 <= i < |permits| && Listens(permits[i], host, port)
    ensures r.Some? ==> exists i :: 0 <= i < |permits| && FirstListener(permits, i, host, port) && r.value == permits[i].client
  {
    if permits == [] then None
    else if Listens(permits[0], host, port) then
      assert FirstListener(permits, 0, host, port);
      Some(permits[0].client)
    else
      assert forall i :: 0 < i < |permits| ==> permits[i] == permits[1..][i - 1];
      assert forall i :: 0 <= i < |permits| - 1 && FirstListener(permits[1..], i, host, port) ==> FirstListener(permits, i + 1, host, port);
      ListenClient(permits[1..], host, port)
  }

  predicate FirstListener(permits: seq<Permit>, i: nat, host: string, port: nat)
    requires i < |permits|
  {
    Listens(permits[i], host, port) && forall j :: 0 <= j < i ==> !Listens(permits[j], host, port)
  }

  predicate Listens(p: Permit, host: string, port: nat) {
    p.port == port && BindHost(p.host) == host
  }

  /** Any address may be asked for as "" or "*", and comes back as ""; every other one comes back as it is. */
  lemma ListensIff(p: Permit, host: string, port: nat)
    ensures Listens(p, host, port) <==> p.port == port && if p.host == "*" || p.host == "" then host == "" else host == p.host
  {
  }

  /** Asking for more addresses takes none away from a client. */
  lemma {:induction false} ListenStable(permits: seq<Permit>, p: Permit, host: string, port: nat)
    requires ListenClient(permits, host, port).Some?
    ensures ListenClient(permits + [p], host, port) == ListenClient(permits, host, port)
  {
    hide Listens;
    if !Listens(permits[0], host, port) {
      ListenStable(permits[1..], p, host, port);
      assert (permits + [p])[1..] == permits[1..] + [p];
    }
  }

  /** What goes on to the server; an error for the client; or the fatal error of channel_new. */
  datatype DownResult = DownFatal | DownError | Passed(slots: seq<Slot>, permits: seq<Permit>, msg: Down)

  /** channel_proxy_downstream on a message that could be read. */
  function Downstream(slots: seq<Slot>, permits: seq<Permit>, client: nat, m: Down): DownResult {
    match m
    case OpenDown(ctype, id, rest) =>
      var p := Place(slots, Used(Some(Owner(client, id)), UNSET, false, false));
      if p.None? then DownFatal else Passed(p.value.slots, permits, OpenDown(ctype, p.value.i, rest))
    case ConfirmDown(remoteId, id, rest) =>
      var p := Place(slots, Used(Some(Owner(client, id)), remoteId, false, false));
      if p.None? then DownFatal else Passed(p.value.slots, permits, ConfirmDown(remoteId, p.value.i, rest))
    case CloseDown(payload) =>
      var c := if |payload| < 4 then None else ByRemoteId(slots, U32At(payload));
      if c.None? then Passed(slots, permits, m) else Passed(slots[c.value := CloseSent(slots[c.value])], permits, m)
    case GlobalDown(request, host, port, _) =>
      if request != "tcpip-forward" || port > 65535 then DownError
      else Passed(slots, permits + [Permit(host, port, client)], m)
    case OtherDown(_, _) => Passed(slots, permits, m)
  }

  function CloseSent(s: Slot): Slot
    requires s.Used?
  {
    if s.rcvd then Free else s.(sent := true)
  }

  function CloseReceived(s: Slot): Slot
    requires s.Used?
  {
    if s.sent then Free else s.(rcvd := true)
  }

  // ---- messages of the server ----

  /** A message that the mux client gets: its own number for the channel, and the payload after it. */
  datatype Frame = Frame(id: nat, kind: nat, body: Bytes)

  datatype UpResult = NotProxied | Relayed(slots: seq<Slot>, client: nat, frame: Frame)

  /** channel_proxy_upstream for a message addressed to a slot. */
  function Upstream(slots: seq<Slot>, i: nat, kind: nat, body: Bytes): UpResult {
    if i >= |slots| || slots[i].Free? || slots[i].owner.None? || !Proxied(kind) then NotProxied
    else
      var s := slots[i];
      Relayed(slots[i := AfterUp(s, kind, body)], s.owner.value.client, Frame(s.owner.value.downId, kind, body))
  }

  function AfterUp(s: Slot, kind: nat, body: Bytes): Slot
    requires s.Used?
  {
    if kind == CONFIRM then (if |body| > 4 then s.(remoteId := U32At(body)) else s)
    else if kind == CLOSE then CloseReceived(s)
    else s
  }

  // ---- the table as it is updated in place ----

  class ChannelTable {
    var slots: seq<Slot>
    var permits: seq<Permit>

    constructor ()
      ensures slots == [] && permits == []
    {
      slots, permits := [], [];
    }

    /** channel_new */
    method New(s: Slot) returns (r: Option<nat>)
      requires s.Used?
      modifies this`slots
      ensures var p := Place(old(slots), s);
        if p.None? then r.None? && slots == old(slots) else slots == p.value.slots && r == Some(p.value.i)
    {
      var found := -1;
      for i := 0 to |slots|
        invariant found == -1 && forall j :: 0 <= j < i ==> slots[j] != Free
      {
        if slots[i] == Free {
          found := i;
          break;
        }
      }
      if found < 0 {
        found := |slots|;
        if |slots| > 10000 {
          return None;
        }
        for i := 0 to 10
          invariant slots == old(slots) + seq(i, _ => Free)
        {
          slots := slots + [Free];
        }
      }
      slots := slots[found := s];
      assert FirstFree(old(slots)) == found;
      assert slots == Place(old(slots), s).value.slots;
      r := Some(found);
    }

    /** channel_by_remote_id */
    method Find(id: nat) returns (r: Option<nat>)
      ensures r == ByRemoteId(slots, id)
    {
      for i := 0 to |slots|
        invariant forall j :: 0 <= j < i ==> !HasRemoteId(slots[j], id)
      {
        if slots[i].Used? && slots[i].remoteId == id {
          return Some(i);
        }
      }
      r := None;
    }

    /** channel_connect_by_listen_address */
    method Listener(host: string, port: nat) returns (r: Option<nat>)
      ensures r == ListenClient(permits, host, port)
    {
      assert permits[0..] == permits;
      for i := 0 to |permits|
        invariant ListenClient(permits, host, port) == ListenClient(permits[i..], host, port)
      {
        if permits[i].port == port && BindHost(permits[i].host) == host {
          return Some(permits[i].client);
        }
        assert permits[i..][1..] == permits[i + 1..];
      }
      r := None;
    }

    /** channel_proxy_downstream; None is an error or the fatal one. */
    method ProxyDownstream(client: nat, m: Down) returns (out: Option<Down>)
      modifies this
      ensures var d := Downstream(old(slots), old(permits), client, m);
        if d.Passed? then slots == d.slots && permits == d.permits && out == Some(d.msg)
        else out.None? && slots == old(slots) && permits == old(permits)
    {
      hide ByRemoteId, U32At;
      match m
      case OpenDown(ctype, id, rest) =>
        var c := New(Used(Some(Owner(client, id)), UNSET, false, false));
        out := if c.None? then None else Some(OpenDown(ctype, c.value, rest));
      case ConfirmDown(remoteId, id, rest) =>
        var c := New(Used(Some(Owner(client, id)), UNSET, false, false));
        if c.None? {
          return None;
        }
        slots := slots[c.value := slots[c.value].(remoteId := remoteId)];
        out := Some(ConfirmDown(remoteId, c.value, rest));
      case CloseDown(payload) =>
        out := Some(m);
        if |payload| < 4 {
          return;
        }
        var c := Find(U32At(payload));
        if c.Some? {
          if slots[c.value].rcvd {
            slots := slots[c.value := Free];
          } else {
            slots := slots[c.value := slots[c.value].(sent := true)];
          }
        }
      case GlobalDown(request, host, port, _) =>
        if request != "tcpip-forward" || port > 65535 {
          return None;
        }
        permits := permits + [Permit(host, port, client)];
        out := Some(m);
      case OtherDown(_, _) =>
        out := Some(m);
    }

    /** channel_proxy_upstream */
    method ProxyUpstream(i: nat, kind: nat, body: Bytes) returns (out: Option<Relay>)
      modifies this`slots
      ensures var u := Upstream(old(slots), i, kind, body);
        if u.NotProxied? then out.None? && slots == old(slots) else slots == u.slots && out == Some(Relay(u.client, u.frame))
    {
      if i >= |slots| || slots[i].Free? || slots[i].owner.None? {
        return None;
      }
      if !Proxied(kind) {
        return None;
      }
      var s := slots[i];
      out := Some(Relay(s.owner.value.client, Frame(s.owner.value.downId, kind, body)));
      if kind == CONFIRM {
        if |body| > 4 {
          slots := slots[i := s.(remoteId := U32At(body))];
        }
      } else if kind == CLOSE {
        if s.sent {
          slots := slots[i := Free];
        } else {
          slots := slots[i := s.(rcvd := true)];
        }
      }
    }
  }

  datatype Relay = Relay(client: nat, frame: Frame)
}
