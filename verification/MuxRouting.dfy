/** Every message of the server reaches the mux client it is for, in every run. */
module MuxRouting {
  import opened Options
  import opened Words
  import opened MuxProxy
  import opened MuxNet

  // ---- the table ----

  lemma HolderIn(slots: seq<Slot>, chans: seq<Chan>, i: nat) returns (k: nat)
    requires TableOk(slots, chans) && i < |slots| && slots[i].Used? && slots[i].owner.Some?
    ensures k < |chans| && Holds(chans[k], i)
  {
    assert Owned(slots[i], chans, i);
    k :| 0 <= k < |chans| && Holds(chans[k], i);
  }

  lemma SlotHeld(slots: seq<Slot>, chans: seq<Chan>, k: nat, i: nat)
    requires TableOk(slots, chans) && k < |chans| && Holds(chans[k], i)
    ensures i < |slots| && slots[i] == SlotOf(chans[k])
  {
    assert InSlot(slots, chans[k], i);
  }

  /** A channel changes together with its slot. */
  lemma TableUpdate(slots: seq<Slot>, chans: seq<Chan>, k: nat, i: nat, c: Chan)
    requires TableOk(slots, chans) && k < |chans| && i < |slots| && Holds(chans[k], i) && c.slot == Some(i)
    ensures TableOk(slots[i := if Over(c) then Free else SlotOf(c)], chans[k := c])
  {
    var slots1 := slots[i := if Over(c) then Free else SlotOf(c)];
    var chans1 := chans[k := c];
    forall j, x: nat | 0 <= j < |chans1|
      ensures InSlot(slots1, chans1[j], x)
    {
      if Holds(chans1[j], x) && j != k {
        SlotHeld(slots, chans, j, x);
      }
    }
    forall x: nat | x < |slots1|
      ensures Owned(slots1[x], chans1, x)
    {
      if slots1[x].Used? && x == i {
        assert Holds(chans1[k], i);
      } else if slots1[x].Used? {
        assert Owned(slots[x], chans, x);
        if slots[x].owner.Some? {
          var j := HolderIn(slots, chans, x);
          assert Holds(chans1[j], x);
        }
      }
    }
  }

  /** A channel gets a slot of its own. */
  lemma TablePlace(slots: seq<Slot>, chans: seq<Chan>, s: Slot, p: Placed, chans1: seq<Chan>, k: nat)
    requires TableOk(slots, chans) && Place(slots, s) == Some(p)
    requires k < |chans1| && |chans| <= |chans1| <= |chans| + 1 && (|chans1| > |chans| ==> k == |chans|)
    requires forall j :: 0 <= j < |chans| && j != k ==> chans1[j] == chans[j]
    requires k < |chans| ==> chans[k].slot.None?
    requires chans1[k].slot == Some(p.i) && !Over(chans1[k]) && SlotOf(chans1[k]) == s
    ensures TableOk(p.slots, chans1)
  {
    hide Place;
    PlaceFacts(slots, s);
    forall j, x: nat | 0 <= j < |chans1|
      ensures InSlot(p.slots, chans1[j], x)
      ensures j != k && Holds(chans1[j], x) ==> x != p.i
    {
      if Holds(chans1[j], x) && j != k {
        SlotHeld(slots, chans, j, x);
      }
    }
    forall x: nat | x < |p.slots|
      ensures Owned(p.slots[x], chans1, x)
    {
      if p.slots[x].Used? && x == p.i {
        assert Holds(chans1[k], x);
      } else if p.slots[x].Used? {
        assert Owned(slots[x], chans, x);
        if slots[x].owner.Some? {
          var j := HolderIn(slots, chans, x);
          assert Holds(chans1[j], x);
        }
      }
    }
  }

  lemma PlaceFacts(slots: seq<Slot>, s: Slot)
    requires Place(slots, s).Some?
    ensures var p := Place(slots, s).value;
      && |p.slots| >= |slots| && p.i < |p.slots| && p.slots[p.i] == s
      && (forall j :: 0 <= j < |slots| && j != p.i ==> p.slots[j] == slots[j])
      && (forall j :: |slots| <= j < |p.slots| && j != p.i ==> p.slots[j] == Free)
      && (p.i < |slots| ==> slots[p.i] == Free)
  {
  }

  /** Channels change, but not those with a slot in what the slot shows. */
  lemma TableKept(slots: seq<Slot>, chans: seq<Chan>, chans1: seq<Chan>)
    requires TableOk(slots, chans) && |chans| <= |chans1|
    requires forall j :: 0 <= j < |chans| ==>
      chans1[j].slot == chans[j].slot && (chans[j].slot.Some? ==> SlotOf(chans1[j]) == SlotOf(chans[j]))
    requires forall j :: |chans| <= j < |chans1| ==> chans1[j].slot.None?
    ensures TableOk(slots, chans1)
  {
    forall j, x: nat | 0 <= j < |chans1|
      ensures InSlot(slots, chans1[j], x)
      ensures Holds(chans1[j], x) <==> j < |chans| && Holds(chans[j], x)
    {
      if j < |chans| && Holds(chans[j], x) {
        SlotHeld(slots, chans, j, x);
      }
    }
    forall x: nat | x < |slots|
      ensures Owned(slots[x], chans1, x)
    {
      assert Owned(slots[x], chans, x);
      if slots[x].Used? && slots[x].owner.Some? {
        var j := HolderIn(slots, chans, x);
        assert Holds(chans1[j], x);
      }
    }
  }

  /** The master opens or frees a channel of its own. */
  lemma TableLocal(slots: seq<Slot>, chans: seq<Chan>, slots1: seq<Slot>, i: nat)
    requires TableOk(slots, chans) && |slots| <= |slots1| && i < |slots1|
    requires forall j :: 0 <= j < |slots| && j != i ==> slots1[j] == slots[j]
    requires forall j :: |slots| <= j < |slots1| && j != i ==> slots1[j] == Free
    requires i < |slots| && slots[i].Used? ==> slots[i].owner.None?
    requires slots1[i] == Free || slots1[i] == Used(None, UNSET, false, false)
    ensures TableOk(slots1, chans)
  {
    forall j, x: nat | 0 <= j < |chans|
      ensures InSlot(slots1, chans[j], x)
    {
      if Holds(chans[j], x) {
        SlotHeld(slots, chans, j, x);
      }
    }
    forall x: nat | x < |slots1|
      ensures Owned(slots1[x], chans, x)
    {
      if x != i && x < |slots| {
        assert Owned(slots[x], chans, x);
      }
    }
  }

  /** The slot of an open channel whose number is known is found by that number. */
  lemma FoundByNumber(w: World, k: nat)
    requires Inv(w) && k < |w.chans| && w.chans[k].claimed && w.chans[k].slot.Some? && !w.chans[k].downClosed
    ensures w.chans[k].peerId.Some? && ByRemoteId(w.slots, w.chans[k].peerId.value) == w.chans[k].slot
    ensures w.chans[k].slot.value < |w.slots| && w.slots[w.chans[k].slot.value] == SlotOf(w.chans[k])
  {
    hide LogOk, ItemsOk, ClosesOk, WaitingOk;
    var c := w.chans[k];
    var i := c.slot.value;
    assert FlagsOk(c) && Holds(c, i);
    SlotHeld(w.slots, w.chans, k, i);
    forall x: nat | x < |w.slots| && HasRemoteId(w.slots[x], c.peerId.value)
      ensures x == i
    {
      assert Owned(w.slots[x], w.chans, x);
      var j := HolderIn(w.slots, w.chans, x);
      SlotHeld(w.slots, w.chans, j, x);
    }
  }

  // ---- the queue ----

  /** A new channel that the server has not numbered. */
  lemma ProtocolOpen(chans: seq<Chan>, c: Chan, sent: seq<Item>, n: nat)
    requires ProtocolOk(chans, sent, n) && FlagsOk(c) && !c.claimed && !c.upSent
    ensures ProtocolOk(chans + [c], sent, n)
  {
    hide FlagsOk, Over, CloseBefore;
  }

  /** Nothing the server can see of channel k changes: the client closes it or has got a slot for it. */
  lemma ProtocolClient(chans: seq<Chan>, k: nat, c: Chan, sent: seq<Item>, n: nat)
    requires ProtocolOk(chans, sent, n) && k < |chans| && FlagsOk(c)
    requires c.claimed && chans[k].claimed && c.peerId == chans[k].peerId && c.upSent == chans[k].upSent && c.upClosed == chans[k].upClosed
    requires chans[k].downClosed ==> c.downClosed
    requires c.slot == chans[k].slot || chans[k].slot.None?
    ensures ProtocolOk(chans[k := c], sent, n)
  {
    hide FlagsOk, CloseBefore;
  }

  /** The client refuses a channel. */
  lemma ProtocolRefuse(chans: seq<Chan>, k: nat, c: Chan, sent: seq<Item>, n: nat)
    requires ProtocolOk(chans, sent, n) && k < |chans| && chans[k].claimed && chans[k].slot.None? && FlagsOk(c)
    requires c == chans[k].(downClosed := true, upSent := true, upClosed := true)
    ensures ProtocolOk(chans[k := c], sent, n)
  {
    hide FlagsOk, CloseBefore;
  }

  lemma CloseBeforeGrows(sent: seq<Item>, item: Item, n: nat)
    ensures forall b, k: nat :: 0 <= b <= |sent| && CloseBefore(sent, n, b, k) ==> CloseBefore(sent + [item], n, b, k)
    ensures forall k: nat :: CloseBefore(sent, n, |sent|, k) ==> CloseBefore(sent + [item], n, |sent| + 1, k)
  {
    forall b: nat, k: nat | b <= |sent| && CloseBefore(sent, n, b, k)
      ensures CloseBefore(sent + [item], n, b, k) && CloseBefore(sent + [item], n, |sent| + 1, k)
    {
      var a :| n <= a < b && a < |sent| && IsClose(sent[a], k);
      assert IsClose((sent + [item])[a], k);
    }
  }

  /** The server sends a message that is neither a confirmation nor a CLOSE. */
  lemma ProtocolSend(chans: seq<Chan>, k: nat, item: Item, sent: seq<Item>, n: nat)
    requires ProtocolOk(chans, sent, n) && n <= |sent| && k < |chans| && !chans[k].upSent
    requires item.ToSlot? && item.k == k && chans[k].slot == Some(item.slot)
    requires Proxied(item.kind) && item.kind != CONFIRM && item.kind != CLOSE
    ensures ProtocolOk(chans, sent + [item], n)
  {
    hide CloseBefore;
    CloseBeforeGrows(sent, item, n);
    assert FlagsOk(chans[k]);
  }

  /** The server refuses a channel: it does not number it any more. */
  lemma ProtocolRefused(chans: seq<Chan>, k: nat, sent: seq<Item>, n: nat)
    requires ProtocolOk(chans, sent, n) && k < |chans| && chans[k].slot.Some? && chans[k].peerId.None?
    ensures ProtocolOk(chans[k := chans[k].(refused := true)], sent, n)
  {
    assert FlagsOk(chans[k]);
    hide CloseBefore;
  }

  lemma ProtocolClose(chans: seq<Chan>, k: nat, item: Item, sent: seq<Item>, n: nat)
    requires ProtocolOk(chans, sent, n) && n <= |sent| && k < |chans| && !chans[k].upSent && chans[k].peerId.Some?
    requires item.ToSlot? && item.k == k && chans[k].slot == Some(item.slot) && item.kind == CLOSE
    ensures ProtocolOk(chans[k := chans[k].(upSent := true)], sent + [item], n)
  {
    assert FlagsOk(chans[k]);
    CloseBeforeGrows(sent, item, n);
    assert CloseBefore(sent + [item], n, |sent| + 1, k) by {
      assert IsClose((sent + [item])[|sent|], k);
    }
    hide CloseBefore;
  }

  /** The number is not told by any waiting message, and channels that had it are closed in time. */
  lemma Unclaimed(w: World, id: nat)
    requires ProtocolOk(w.chans, w.sent, |w.log|) && Available(w, id)
    ensures forall a :: |w.log| <= a < |w.sent| && IsClaim(w.sent[a]) ==> Claimed(w.sent[a]) != id
    ensures forall j :: 0 <= j < |w.chans| && w.chans[j].peerId == Some(id) ==>
      w.chans[j].downClosed && (w.chans[j].upClosed || CloseBefore(w.sent, |w.log|, |w.sent|, j))
  {
    hide CloseBefore;
    forall a | |w.log| <= a < |w.sent| && IsClaim(w.sent[a])
      ensures Claimed(w.sent[a]) != id
    {
      assert ItemOk(w.chans, w.sent[a]);
      assert FlagsOk(w.chans[w.sent[a].k]);
    }
  }

  lemma ProtocolConfirm(w: World, k: nat, item: Item)
    requires ProtocolOk(w.chans, w.sent, |w.log|) && |w.log| <= |w.sent| && k < |w.chans| && w.chans[k].peerId.None?
    requires item.ToSlot? && item.k == k && w.chans[k].slot == Some(item.slot) && item.kind == CONFIRM && |item.body| > 4
    requires !w.chans[k].refused
    requires Available(w, U32At(item.body))
    ensures ProtocolOk(w.chans[k := w.chans[k].(peerId := Some(U32At(item.body)))], w.sent + [item], |w.log|)
  {
    assert FlagsOk(w.chans[k]);
    Unclaimed(w, U32At(item.body));
    CloseBeforeGrows(w.sent, item, |w.log|);
    hide CloseBefore, U32At;
  }

  lemma ProtocolOffer(w: World, c: Chan, item: Item)
    requires ProtocolOk(w.chans, w.sent, |w.log|) && |w.log| <= |w.sent|
    requires item.Offer? && item.k == |w.chans| && Available(w, item.sender)
    requires FlagsOk(c) && !c.claimed && !c.upSent && c.slot.None? && c.peerId == Some(item.sender)
    ensures ProtocolOk(w.chans + [c], w.sent + [item], |w.log|)
  {
    Unclaimed(w, item.sender);
    CloseBeforeGrows(w.sent, item, |w.log|);
    hide CloseBefore;
  }

  // ---- reading ----

  lemma CloseBeforeShifts(sent: seq<Item>, n: nat, b: nat, k: nat)
    requires n < |sent| && CloseBefore(sent, n, b, k) && !IsClose(sent[n], k)
    ensures CloseBefore(sent, n + 1, b, k)
  {
    var a :| n <= a < b && a < |sent| && IsClose(sent[a], k);
  }

  lemma ProtocolReadClaim(chans: seq<Chan>, sent: seq<Item>, n: nat)
    requires ProtocolOk(chans, sent, n) && n < |sent| && IsClaim(sent[n])
    ensures sent[n].k < |chans| && ProtocolOk(chans[sent[n].k := chans[sent[n].k].(claimed := true)], sent, n + 1)
  {
    var k := sent[n].k;
    assert ItemOk(chans, sent[n]) && FlagsOk(chans[k]);
    forall j: nat, b: nat | n <= b <= |sent| && CloseBefore(sent, n, b, j)
      ensures CloseBefore(sent, n + 1, b, j)
    {
      CloseBeforeShifts(sent, n, b, j);
    }
    forall j | 0 <= j < |chans| && Rivals(chans[j], j, sent[n])
      ensures Over(chans[j])
    {
    }
    hide CloseBefore;
  }

  lemma ProtocolReadClose(chans: seq<Chan>, sent: seq<Item>, n: nat)
    requires ProtocolOk(chans, sent, n) && n < |sent| && sent[n].ToSlot? && sent[n].kind == CLOSE
    ensures sent[n].k < |chans| && ProtocolOk(chans[sent[n].k := chans[sent[n].k].(upClosed := true)], sent, n + 1)
  {
    var k := sent[n].k;
    assert ItemOk(chans, sent[n]) && FlagsOk(chans[k]);
    forall j: nat, b: nat | n <= b <= |sent| && j != k && CloseBefore(sent, n, b, j)
      ensures CloseBefore(sent, n + 1, b, j)
    {
      CloseBeforeShifts(sent, n, b, j);
    }
    assert IsClose(sent[n], k);
    hide CloseBefore;
  }

  lemma ProtocolReadOther(chans: seq<Chan>, sent: seq<Item>, n: nat)
    requires ProtocolOk(chans, sent, n) && n < |sent| && sent[n].ToSlot? && sent[n].kind != CLOSE && sent[n].kind != CONFIRM
    ensures ProtocolOk(chans, sent, n + 1)
  {
    forall j: nat, b: nat | n <= b <= |sent| && CloseBefore(sent, n, b, j)
      ensures CloseBefore(sent, n + 1, b, j)
    {
      CloseBeforeShifts(sent, n, b, j);
    }
    hide CloseBefore;
  }

  // ---- the log ----

  lemma LogKept(chans: seq<Chan>, chans1: seq<Chan>, sent: seq<Item>, sent1: seq<Item>, log: seq<Delivery>)
    requires LogOk(chans, sent, log) && |chans| <= |chans1| && sent <= sent1
    requires forall j :: 0 <= j < |chans| ==> chans1[j].client == chans[j].client
    requires forall j :: 0 <= j < |chans| && chans[j].slot.Some? ==> chans1[j].slot.Some? && chans1[j].downId == chans[j].downId
    ensures LogOk(chans1, sent1, log)
  {
  }

  lemma LogNext(chans: seq<Chan>, sent: seq<Item>, log: seq<Delivery>, d: Delivery)
    requires LogOk(chans, sent, log) && |log| < |sent|
    requires var item := sent[|log|]; item.k < |chans| && (item.ToSlot? ==> chans[item.k].slot.Some?) && d == Intended(chans, item)
    ensures LogOk(chans, sent, log + [d])
  {
    hide Intended;
  }

  // ---- offers ----

  lemma OffersKept(permits: seq<Permit>, chans: seq<Chan>, chans1: seq<Chan>, sent: seq<Item>)
    requires OffersOk(permits, chans, sent) && |chans| <= |chans1|
    requires forall j :: 0 <= j < |chans| ==> chans1[j].client == chans[j].client
    ensures OffersOk(permits, chans1, sent)
  {
    hide ListenClient;
  }

  lemma OffersSent(permits: seq<Permit>, chans: seq<Chan>, sent: seq<Item>, item: Item)
    requires OffersOk(permits, chans, sent)
    requires item.Offer? ==> item.k < |chans| && ListenClient(permits, item.host, item.port) == Some(chans[item.k].client)
    ensures OffersOk(permits, chans, sent + [item])
  {
    hide ListenClient;
  }

  lemma OffersPermitted(permits: seq<Permit>, p: Permit, chans: seq<Chan>, sent: seq<Item>)
    requires OffersOk(permits, chans, sent)
    ensures OffersOk(permits + [p], chans, sent)
  {
    hide ListenClient;
    forall a | 0 <= a < |sent| && sent[a].Offer?
      ensures ListenClient(permits + [p], sent[a].host, sent[a].port) == Some(chans[sent[a].k].client)
    {
      ListenStable(permits, p, sent[a].host, sent[a].port);
    }
  }

  // ---- the steps ----

  /** The proxy does to the slot what reading the message does to the channel. */
  lemma SlotAfterUp(c: Chan, c1: Chan, kind: nat, body: Bytes)
    requires FlagsOk(c) && !c.upClosed && c.slot.Some?
    requires kind == CONFIRM ==> |body| > 4 && c.peerId == Some(U32At(body)) && c1 == c.(claimed := true)
    requires kind == CLOSE ==> c1 == c.(upClosed := true)
    requires kind != CONFIRM && kind != CLOSE ==> c1 == c
    ensures AfterUp(SlotOf(c), kind, body) == if Over(c1) then Free else SlotOf(c1)
  {
    hide U32At;
  }

  /** A waiting message about a channel: its slot is the channel's. */
  lemma Waiting(w: World)
    requires Inv(w) && |w.log| < |w.sent|
    ensures var item := w.sent[|w.log|]; ItemOk(w.chans, item) && FlagsOk(w.chans[item.k])
    ensures var item := w.sent[|w.log|]; item.ToSlot? ==>
      Holds(w.chans[item.k], item.slot) && item.slot < |w.slots| && w.slots[item.slot] == SlotOf(w.chans[item.k])
  {
    var item := w.sent[|w.log|];
    assert ItemOk(w.chans, item);
    hide LogOk, ClosesOk, WaitingOk, ClaimsOk;
    if item.ToSlot? {
      SlotHeld(w.slots, w.chans, item.k, item.slot);
    }
  }

  lemma ReadRelays(w: World)
    requires Inv(w) && |w.log| < |w.sent| && w.sent[|w.log|].ToSlot?
    ensures var item := w.sent[|w.log|]; item.k < |w.chans| && var c1 := AfterRead(w.chans, item.k, item.kind);
      && item.slot < |w.slots|
      && Read(w, item) == w.(slots := w.slots[item.slot := if Over(c1[item.k]) then Free else SlotOf(c1[item.k])],
                             log := w.log + [Intended(w.chans, item)], chans := c1)
  {
    Waiting(w);
    var item := w.sent[|w.log|];
    hide Inv, SlotOf, AfterUp, Over;
    SlotShape(w.chans[item.k]);
    SlotAfterUp(w.chans[item.k], AfterRead(w.chans, item.k, item.kind)[item.k], item.kind, item.body);
  }

  lemma SlotShape(c: Chan)
    ensures SlotOf(c).Used? && SlotOf(c).owner == Some(Owner(c.client, c.downId))
  {
  }

  lemma ReadSlotOk(w: World)
    requires Inv(w) && |w.log| < |w.sent| && w.sent[|w.log|].ToSlot?
    ensures Inv(Read(w, w.sent[|w.log|]))
  {
    var item := w.sent[|w.log|];
    var n := |w.log|;
    Waiting(w);
    ReadRelays(w);
    var chans1 := AfterRead(w.chans, item.k, item.kind);
    hide TableOk, LogOk, ProtocolOk, OffersOk, ItemsOk, Read, Intended, Holds, SlotOf, Over;
    assert chans1 == w.chans[item.k := chans1[item.k]];
    TableUpdate(w.slots, w.chans, item.k, item.slot, chans1[item.k]);
    if item.kind == CONFIRM {
      ProtocolReadClaim(w.chans, w.sent, n);
    } else if item.kind == CLOSE {
      ProtocolReadClose(w.chans, w.sent, n);
    } else {
      ProtocolReadOther(w.chans, w.sent, n);
    }
    LogNext(w.chans, w.sent, w.log, Intended(w.chans, item));
    LogKept(w.chans, chans1, w.sent, w.sent, w.log + [Intended(w.chans, item)]);
    OffersKept(w.permits, w.chans, chans1, w.sent);
  }

  lemma OfferFor(w: World)
    requires Inv(w) && |w.log| < |w.sent| && w.sent[|w.log|].Offer?
    ensures var item := w.sent[|w.log|];
      item.k < |w.chans| && ListenClient(w.permits, item.host, item.port) == Some(w.chans[item.k].client)
  {
    assert ItemOk(w.chans, w.sent[|w.log|]);
  }

  lemma ReadOfferOk(w: World)
    requires Inv(w) && |w.log| < |w.sent| && w.sent[|w.log|].Offer?
    ensures Inv(Read(w, w.sent[|w.log|]))
  {
    var item := w.sent[|w.log|];
    var n := |w.log|;
    Waiting(w);
    OfferFor(w);
    var chans1 := w.chans[item.k := w.chans[item.k].(claimed := true)];
    hide TableOk, LogOk, ProtocolOk, OffersOk, ItemsOk, Holds, SlotOf, Over, ListenClient;
    TableKept(w.slots, w.chans, chans1);
    ProtocolReadClaim(w.chans, w.sent, |w.log|);
    LogNext(w.chans, w.sent, w.log, Intended(w.chans, item));
    LogKept(w.chans, chans1, w.sent, w.sent, w.log + [Intended(w.chans, item)]);
    OffersKept(w.permits, w.chans, chans1, w.sent);
  }

  lemma ClientOpenOk(w: World, e: Event)
    requires Inv(w) && e.ClientOpen?
    ensures Inv(Step(w, e))
  {
    hide TableOk, LogOk, ProtocolOk, OffersOk, ItemsOk, Place;
    var s := Used(Some(Owner(e.client, e.id)), UNSET, false, false);
    var p := Place(w.slots, s);
    if p.Some? {
      var c := Chan(e.client, e.id, Some(p.value.i), None, false, false, false, false, false);
      TablePlace(w.slots, w.chans, s, p.value, w.chans + [c], |w.chans|);
      ProtocolOpen(w.chans, c, w.sent, |w.log|);
      LogKept(w.chans, w.chans + [c], w.sent, w.sent, w.log);
      OffersKept(w.permits, w.chans, w.chans + [c], w.sent);
    }
  }

  lemma FlagsAt(w: World, k: nat)
    requires Inv(w) && k < |w.chans|
    ensures FlagsOk(w.chans[k]) && |w.log| <= |w.sent| && ItemsOk(w.chans, w.sent, |w.log|)
  {
  }

  lemma ClientConfirmOk(w: World, e: Event)
    requires Inv(w) && e.ClientConfirm? && Conforms(w, e)
    ensures Inv(Step(w, e))
  {
    FlagsAt(w, e.k);
    hide TableOk, LogOk, ProtocolOk, OffersOk, ItemsOk, Place;
    var c := w.chans[e.k];
    var s := Used(Some(Owner(c.client, e.id)), c.peerId.value, false, false);
    var p := Place(w.slots, s);
    if p.Some? {
      var chans1 := w.chans[e.k := c.(downId := e.id, slot := Some(p.value.i))];
      TablePlace(w.slots, w.chans, s, p.value, chans1, e.k);
      ProtocolClient(w.chans, e.k, chans1[e.k], w.sent, |w.log|);
      LogKept(w.chans, chans1, w.sent, w.sent, w.log);
      OffersKept(w.permits, w.chans, chans1, w.sent);
    }
  }

  lemma ClientRefuseOk(w: World, e: Event)
    requires Inv(w) && e.ClientRefuse? && Conforms(w, e)
    ensures Inv(Step(w, e))
  {
    FlagsAt(w, e.k);
    hide TableOk, LogOk, ProtocolOk, OffersOk, ItemsOk;
    var c := w.chans[e.k].(downClosed := true, upSent := true, upClosed := true);
    TableKept(w.slots, w.chans, w.chans[e.k := c]);
    ProtocolRefuse(w.chans, e.k, c, w.sent, |w.log|);
    LogKept(w.chans, w.chans[e.k := c], w.sent, w.sent, w.log);
    OffersKept(w.permits, w.chans, w.chans[e.k := c], w.sent);
  }

  lemma ClientCloseOk(w: World, e: Event)
    requires Inv(w) && e.ClientClose? && Conforms(w, e)
    ensures Inv(Step(w, e))
  {
    FlagsAt(w, e.k);
    FoundByNumber(w, e.k);
    hide TableOk, LogOk, ProtocolOk, OffersOk, ItemsOk, ByRemoteId, U32At;
    var c := w.chans[e.k].(downClosed := true);
    var i := c.slot.value;
    TableUpdate(w.slots, w.chans, e.k, i, c);
    assert CloseSent(w.slots[i]) == if Over(c) then Free else SlotOf(c);
    ProtocolClient(w.chans, e.k, c, w.sent, |w.log|);
    LogKept(w.chans, w.chans[e.k := c], w.sent, w.sent, w.log);
    OffersKept(w.permits, w.chans, w.chans[e.k := c], w.sent);
  }

  lemma PeerOfferOk(w: World, e: Event)
    requires Inv(w) && e.PeerOffer? && Conforms(w, e)
    ensures Inv(Step(w, e))
  {
    assert |w.log| <= |w.sent|;
    hide TableOk, LogOk, ProtocolOk, OffersOk, ItemsOk, Available, ListenClient;
    var client := ListenClient(w.permits, e.host, e.port).value;
    var c := Chan(client, 0, None, Some(e.sender), false, false, false, false, false);
    assert e.sender != UNSET by {
      NotUnset(w, e.sender);
    }
    var item := Offer(|w.chans|, e.host, e.port, e.sender, e.body);
    TableKept(w.slots, w.chans, w.chans + [c]);
    ProtocolOffer(w, c, item);
    LogKept(w.chans, w.chans + [c], w.sent, w.sent + [item], w.log);
    OffersKept(w.permits, w.chans, w.chans + [c], w.sent);
    OffersSent(w.permits, w.chans + [c], w.sent, item);
  }

  lemma NotUnset(w: World, id: nat)
    requires Available(w, id)
    ensures id != UNSET
  {
  }

  lemma PeerConfirmOk(w: World, e: Event)
    requires Inv(w) && e.PeerConfirm? && Conforms(w, e)
    ensures Inv(Step(w, e))
  {
    FlagsAt(w, e.k);
    hide TableOk, LogOk, ProtocolOk, OffersOk, ItemsOk, Available, U32At;
    var c := w.chans[e.k].(peerId := Some(U32At(e.body)));
    var item := ToSlot(e.k, w.chans[e.k].slot.value, CONFIRM, e.body);
    TableKept(w.slots, w.chans, w.chans[e.k := c]);
    ProtocolConfirm(w, e.k, item);
    LogKept(w.chans, w.chans[e.k := c], w.sent, w.sent + [item], w.log);
    OffersKept(w.permits, w.chans, w.chans[e.k := c], w.sent);
    OffersSent(w.permits, w.chans[e.k := c], w.sent, item);
  }

  lemma PeerSendOk(w: World, e: Event)
    requires Inv(w) && e.PeerSend? && Conforms(w, e)
    ensures Inv(Step(w, e))
  {
    FlagsAt(w, e.k);
    hide TableOk, LogOk, ProtocolOk, OffersOk, ItemsOk;
    var item := ToSlot(e.k, w.chans[e.k].slot.value, e.kind, e.body);
    ProtocolSend(w.chans, e.k, item, w.sent, |w.log|);
    LogKept(w.chans, w.chans, w.sent, w.sent + [item], w.log);
    OffersSent(w.permits, w.chans, w.sent, item);
  }

  lemma PeerRefuseOk(w: World, e: Event)
    requires Inv(w) && e.PeerRefuse? && Conforms(w, e)
    ensures Inv(Step(w, e))
  {
    FlagsAt(w, e.k);
    hide TableOk, LogOk, ProtocolOk, OffersOk, ItemsOk;
    var c := w.chans[e.k].(refused := true);
    var item := ToSlot(e.k, w.chans[e.k].slot.value, FAILURE, e.body);
    TableKept(w.slots, w.chans, w.chans[e.k := c]);
    ProtocolRefused(w.chans, e.k, w.sent, |w.log|);
    ProtocolSend(w.chans[e.k := c], e.k, item, w.sent, |w.log|);
    LogKept(w.chans, w.chans[e.k := c], w.sent, w.sent + [item], w.log);
    OffersKept(w.permits, w.chans, w.chans[e.k := c], w.sent);
    OffersSent(w.permits, w.chans[e.k := c], w.sent, item);
  }

  lemma ClientForwardOk(w: World, e: Event)
    requires Inv(w) && e.ClientForward?
    ensures Inv(Step(w, e))
  {
    hide TableOk, LogOk, ProtocolOk, OffersOk, ItemsOk;
    OffersPermitted(w.permits, Permit(e.host, e.port, e.client), w.chans, w.sent);
  }

  lemma ClientSendOk(w: World, e: Event)
    requires Inv(w) && e.ClientSend?
    ensures Inv(Step(w, e))
  {
    hide TableOk, LogOk, ProtocolOk, OffersOk, ItemsOk;
  }

  lemma PeerCloseOk(w: World, e: Event)
    requires Inv(w) && e.PeerClose? && Conforms(w, e)
    ensures Inv(Step(w, e))
  {
    FlagsAt(w, e.k);
    hide TableOk, LogOk, ProtocolOk, OffersOk, ItemsOk;
    var c := w.chans[e.k].(upSent := true);
    var item := ToSlot(e.k, w.chans[e.k].slot.value, CLOSE, []);
    TableKept(w.slots, w.chans, w.chans[e.k := c]);
    ProtocolClose(w.chans, e.k, item, w.sent, |w.log|);
    LogKept(w.chans, w.chans[e.k := c], w.sent, w.sent + [item], w.log);
    OffersKept(w.permits, w.chans, w.chans[e.k := c], w.sent);
    OffersSent(w.permits, w.chans[e.k := c], w.sent, item);
  }

  lemma LocalOk(w: World, e: Event)
    requires Inv(w) && (e.LocalOpen? || e.LocalFree?) && Conforms(w, e)
    ensures Inv(Step(w, e))
  {
    hide TableOk, LogOk, ProtocolOk, OffersOk, ItemsOk, Place;
    if e.LocalFree? {
      TableLocal(w.slots, w.chans, w.slots[e.i := Free], e.i);
    } else {
      var s := Used(None, UNSET, false, false);
      var p := Place(w.slots, s);
      if p.Some? {
        PlaceFacts(w.slots, s);
        TableLocal(w.slots, w.chans, p.value.slots, p.value.i);
      }
    }
  }

  /** Whatever clients, server and master do next, the invariant stays. */
  lemma StepOk(w: World, e: Event)
    requires Inv(w)
    ensures Inv(Step(w, e))
  {
    hide Inv, Conforms, Read, Downstream, Place, U32At, ListenClient;
    if !w.fatal && Conforms(w, e) {
      match e
      case ClientOpen(_, _, _, _) => ClientOpenOk(w, e);
      case ClientConfirm(_, _, _) => ClientConfirmOk(w, e);
      case ClientRefuse(_, _) => ClientRefuseOk(w, e);
      case ClientClose(_, _) => ClientCloseOk(w, e);
      case ClientForward(_, _, _, _, _) => ClientForwardOk(w, e);
      case ClientSend(_, _, _) => ClientSendOk(w, e);
      case PeerOffer(_, _, _, _) => PeerOfferOk(w, e);
      case PeerRefuse(_, _) => PeerRefuseOk(w, e);
      case PeerConfirm(_, _) => PeerConfirmOk(w, e);
      case PeerSend(_, _, _) => PeerSendOk(w, e);
      case PeerClose(_) => PeerCloseOk(w, e);
      case Deliver => DeliverOk(w);
      case LocalOpen => LocalOk(w, e);
      case LocalFree(_) => LocalOk(w, e);
    }
  }

  lemma DeliverOk(w: World)
    requires Inv(w) && !w.fatal && Conforms(w, Deliver)
    ensures Inv(Step(w, Deliver))
  {
    hide Inv, Read;
    if w.sent[|w.log|].ToSlot? {
      ReadSlotOk(w);
    } else {
      ReadOfferOk(w);
    }
  }

  lemma {:induction false} RunOk(events: seq<Event>)
    ensures Inv(Run(events))
  {
    if events != [] {
      hide Inv, Step;
      RunOk(events[..|events| - 1]);
      StepOk(Run(events[..|events| - 1]), events[|events| - 1]);
    }
  }

  // ---- from the clients to the server ----

  /** What the server gets for a message: only the number of an OPEN or CONFIRMATION is changed, to the channel's slot. */
  predicate Carried(chans: seq<Chan>, a: Asked, p: Option<Down>) {
    match a.msg
    case OpenDown(ctype, id, rest) =>
      && a.k.Some? && a.k.value < |chans| && OwnSlot(chans[a.k.value], a.client, id)
      && p == Some(OpenDown(ctype, chans[a.k.value].slot.value, rest))
    case ConfirmDown(remoteId, id, rest) =>
      && a.k.Some? && a.k.value < |chans| && OwnSlot(chans[a.k.value], a.client, id) && chans[a.k.value].peerId == Some(remoteId)
      && p == Some(ConfirmDown(remoteId, chans[a.k.value].slot.value, rest))
    case GlobalDown(request, _, port, _) => p == if request == "tcpip-forward" && port <= 65535 then Some(a.msg) else None
    case CloseDown(_) => p == Some(a.msg)
    case OtherDown(_, _) => p == Some(a.msg)
  }

  /** The channel has a slot, and is the client's, under that number. */
  predicate OwnSlot(c: Chan, client: nat, id: nat) {
    c.slot.Some? && c.client == client && c.downId == id
  }

  predicate AllCarried(chans: seq<Chan>, calls: Calls) {
    && |calls.passed| == |calls.asked|
    && forall n :: 0 <= n < |calls.asked| ==> Carried(chans, calls.asked[n], calls.passed[n])
  }

  /** What later events leave of a channel. */
  predicate Lasting(c: Chan, c1: Chan) {
    && c1.client == c.client && (c.peerId.Some? ==> c1.peerId == c.peerId)
    && (c.slot.Some? ==> c1.slot == c.slot && c1.downId == c.downId)
  }

  predicate AllLasting(chans: seq<Chan>, chans1: seq<Chan>) {
    |chans| <= |chans1| && forall k :: 0 <= k < |chans| ==> Lasting(chans[k], chans1[k])
  }

  lemma StepLasts(w: World, e: Event)
    ensures AllLasting(w.chans, Step(w, e).chans)
  {
    hide Place, Downstream, Available, ListenClient, U32At, Upstream;
  }

  lemma CarriedLasts(chans: seq<Chan>, chans1: seq<Chan>, calls: Calls)
    requires AllCarried(chans, calls) && AllLasting(chans, chans1)
    ensures AllCarried(chans1, calls)
  {
    forall n | 0 <= n < |calls.asked|
      ensures Carried(chans1, calls.asked[n], calls.passed[n])
    {
      assert Carried(chans, calls.asked[n], calls.passed[n]);
      var a := calls.asked[n];
      if a.k.Some? && a.k.value < |chans| {
        assert Lasting(chans[a.k.value], chans1[a.k.value]);
      }
    }
  }

  lemma CarriedMore(chans: seq<Chan>, calls: Calls, a: Asked, p: Option<Down>)
    requires AllCarried(chans, calls) && Carried(chans, a, p)
    ensures AllCarried(chans, Calls(calls.asked + [a], calls.passed + [p]))
  {
    hide Carried;
  }

  /** What one event adds to the calls. */
  lemma StepCalls(w: World, e: Event)
    ensures var t := Step(w, e);
      t.calls == w.calls || exists a, p :: t.calls == Calls(w.calls.asked + [a], w.calls.passed + [p]) && Carried(t.chans, a, p)
  {
    hide Available, ListenClient, U32At, Upstream, ByRemoteId, FirstFree;
    var t := Step(w, e);
    if t.calls != w.calls {
      var a, p := t.calls.asked[|w.calls.asked|], t.calls.passed[|w.calls.passed|];
      assert Carried(t.chans, a, p);
    }
  }

  lemma StepCarries(w: World, e: Event)
    requires AllCarried(w.chans, w.calls)
    ensures AllCarried(Step(w, e).chans, Step(w, e).calls)
  {
    hide Step, AllCarried, AllLasting;
    StepLasts(w, e);
    StepCalls(w, e);
    var t := Step(w, e);
    CarriedLasts(w.chans, t.chans, w.calls);
    if t.calls != w.calls {
      var a, p :| t.calls == Calls(w.calls.asked + [a], w.calls.passed + [p]) && Carried(t.chans, a, p);
      CarriedMore(t.chans, w.calls, a, p);
    }
  }

  lemma {:induction false} RunCarries(events: seq<Event>)
    ensures AllCarried(Run(events).chans, Run(events).calls)
  {
    if events != [] {
      hide AllCarried, Step;
      RunCarries(events[..|events| - 1]);
      StepCarries(Run(events[..|events| - 1]), events[|events| - 1]);
    }
  }

  /**
   In every run the n-th message of a client went on to the server as the n-th, with kind, channel
   type and payload unchanged. Only the sender's number of an OPEN or CONFIRMATION is replaced, by a
   slot that is that client's channel of that number. Only a global request other than a forwarding
   of a proper port is refused.
   */
  lemma Forwarding(events: seq<Event>, n: nat)
    requires n < |Run(events).calls.asked|
    ensures var w := Run(events);
      |w.calls.passed| == |w.calls.asked| && Carried(w.chans, w.calls.asked[n], w.calls.passed[n])
  {
    hide Run;
    RunCarries(events);
  }

  // ---- what it means ----

  /**
   In every run the n-th message of the server was passed to the client of the channel it is
   about, under that client's own number for it, with kind and payload unchanged; no message
   is lost and none overtakes another. A request to open goes to the client that first asked for
   its address.
   */
  lemma Routing(events: seq<Event>, n: nat)
    requires n < |Run(events).log|
    ensures var w := Run(events);
      && n < |w.sent| && w.sent[n].k < |w.chans|
      && w.log[n] == Intended(w.chans, w.sent[n])
      && (w.sent[n].Offer? ==> ListenClient(w.permits, w.sent[n].host, w.sent[n].port) == Some(w.chans[w.sent[n].k].client))
  {
    RunOk(events);
    hide Run, TableOk, ProtocolOk, Intended, ListenClient;
  }

  /** While CLOSE has not passed both ways the channel keeps its slot, and nobody else has it. */
  lemma SlotKept(events: seq<Event>, k: nat)
    requires k < |Run(events).chans|
    ensures var w := Run(events); var c := w.chans[k];
      c.slot.Some? && !(c.downClosed && c.upClosed) ==>
        && c.slot.value < |w.slots| && w.slots[c.slot.value] == SlotOf(c)
        && forall j :: 0 <= j < |w.chans| && j != k && w.chans[j].slot == c.slot ==> w.chans[j].downClosed && w.chans[j].upClosed
  {
    RunOk(events);
    hide Run, ProtocolOk, LogOk, SlotOf;
    var w := Run(events);
    var c := w.chans[k];
    if c.slot.Some? && !Over(c) {
      SlotHeld(w.slots, w.chans, k, c.slot.value);
      assert Holds(c, c.slot.value);
      assert forall j :: 0 <= j < |w.chans| && w.chans[j].slot == c.slot && !Over(w.chans[j]) ==> Holds(w.chans[j], c.slot.value);
    }
  }

  /** A proxy slot in use is that of a channel for which CLOSE has not passed both ways. */
  lemma SlotFreed(events: seq<Event>, i: nat)
    requires i < |Run(events).slots| && Run(events).slots[i].Used? && Run(events).slots[i].owner.Some?
    ensures exists k :: 0 <= k < |Run(events).chans| && Holds(Run(events).chans[k], i)
  {
    RunOk(events);
    hide Run;
    var w := Run(events);
    var k := HolderIn(w.slots, w.chans, i);
  }

  /** Nothing that happens later changes a channel that the server has refused. */
  lemma StepKeepsRefused(w: World, e: Event, k: nat)
    requires Inv(w) && k < |w.chans| && w.chans[k].refused
    ensures k < |Step(w, e).chans| && Step(w, e).chans[k] == w.chans[k]
  {
    FlagsAt(w, k);
    hide TableOk, LogOk, OffersOk, ClaimsOk, ClosesOk, WaitingOk, Place, Downstream, Available, ListenClient, U32At;
    if e.Deliver? && |w.log| < |w.sent| {
      assert ItemOk(w.chans, w.sent[|w.log|]);
    }
  }

  lemma {:induction false} RunKeepsRefused(events: seq<Event>, more: seq<Event>, k: nat)
    requires k < |Run(events).chans| && Run(events).chans[k].refused
    ensures k < |Run(events + more).chans| && Run(events + more).chans[k] == Run(events).chans[k]
    decreases |more|
  {
    hide Step;
    if more == [] {
      assert events + more == events;
    } else {
      var n := |more| - 1;
      RunKeepsRefused(events, more[..n], k);
      assert (events + more)[..|events| + n] == events + more[..n];
      RunOk(events + more[..n]);
      StepKeepsRefused(Run(events + more[..n]), more[n], k);
    }
  }

  /** OPEN_FAILURE is not booked: the slot of a refused channel stays in use, whatever comes later. */
  lemma RefusedKeepsSlot(events: seq<Event>, more: seq<Event>, k: nat)
    requires k < |Run(events).chans| && Run(events).chans[k].refused
    ensures var c := Run(events).chans[k]; var slots := Run(events + more).slots;
      && c.slot.Some? && c.slot.value < |slots|
      && slots[c.slot.value] == Used(Some(Owner(c.client, c.downId)), UNSET, false, false)
  {
    RunKeepsRefused(events, more, k);
    RunOk(events + more);
    var w := Run(events + more);
    hide Run, LogOk, OffersOk, ClaimsOk, ItemsOk, ClosesOk, WaitingOk;
    var c := w.chans[k];
    assert FlagsOk(c);
    assert Holds(c, c.slot.value);
    SlotHeld(w.slots, w.chans, k, c.slot.value);
  }

  /** The CLOSE of a client is booked on its own channel. */
  lemma CloseFindsOwn(events: seq<Event>, k: nat, payload: Bytes)
    requires Conforms(Run(events), ClientClose(k, payload))
    ensures ByRemoteId(Run(events).slots, U32At(payload)) == Run(events).chans[k].slot
  {
    RunOk(events);
    FoundByNumber(Run(events), k);
  }

  // ---- the number -1 ----

  /** Remote ids that are set are distinct. */
  predicate DistinctIds(slots: seq<Slot>) {
    forall i, j :: 0 <= i < j < |slots| && slots[i].Used? && slots[j].Used? && slots[i].remoteId == slots[j].remoteId
      ==> slots[i].remoteId == UNSET
  }

  /**
   The server's number 2^32-1 is taken for "none": a channel that has it is found by its
   number exactly if no channel without a number comes before it.
   */
  lemma FoundIff(slots: seq<Slot>, i: nat)
    requires DistinctIds(slots) && i < |slots| && slots[i].Used?
    ensures ByRemoteId(slots, slots[i].remoteId) == Some(i) <==>
      slots[i].remoteId != UNSET || forall j :: 0 <= j < i ==> !HasRemoteId(slots[j], UNSET)
  {
    var r := ByRemoteId(slots, slots[i].remoteId);
    assert HasRemoteId(slots[i], slots[i].remoteId);
    assert r.Some? && r.value <= i;
    if r.value < i {
      assert HasRemoteId(slots[r.value], slots[i].remoteId);
    }
  }

  /** The channel of a mux client itself has no number, and takes the CLOSE meant for the proxy channel. */
  lemma UnsetMisbooks(owner: Owner)
    ensures var slots := [Used(None, UNSET, false, false), Used(Some(owner), UNSET, false, true)];
      Downstream(slots, [], owner.client, CloseDown([255, 255, 255, 255])).slots
        == [Used(None, UNSET, true, false), Used(Some(owner), UNSET, false, true)]
  {
    var slots := [Used(None, UNSET, false, false), Used(Some(owner), UNSET, false, true)];
    assert U32At([255, 255, 255, 255]) == UNSET;
    assert HasRemoteId(slots[0], UNSET);
    assert ByRemoteId(slots, UNSET) == Some(0);
  }
}
