/** The invariant of the user authentication state machine, kept by every message. */
module UserAuthProofs {
  import opened Options
  import opened AuthMethods
  import opened UserAuth

  // ---- successes and list entries ----

  /** The success w ticks off the list entry t. */
  predicate Matches(t: string, w: Win) {
    Removes(MatchToken(t, w.name, w.sub))
  }

  /** The entries are ticked off, in order, by a subsequence of the successes. */
  predicate Embeds(ts: seq<string>, ws: seq<Win>)
    decreases |ws|
  {
    if ts == [] then true
    else if ws == [] then false
    else EmbedsAtEnd(ts, ws) || Embeds(ts, ws[..|ws| - 1])
  }

  /** The same with the last entry ticked off by the last success. */
  predicate EmbedsAtEnd(ts: seq<string>, ws: seq<Win>)
    requires ts != [] && ws != []
    decreases |ws|, 0
  {
    Matches(ts[|ts| - 1], ws[|ws| - 1]) && Embeds(ts[..|ts| - 1], ws[..|ws| - 1])
  }

  lemma EmbedsSkip(ts: seq<string>, ws: seq<Win>, w: Win)
    requires Embeds(ts, ws)
    ensures Embeds(ts, ws + [w])
  {
    assert (ws + [w])[..|ws|] == ws;
  }

  lemma EmbedsTake(ts: seq<string>, t: string, ws: seq<Win>, w: Win)
    requires Embeds(ts, ws) && Matches(t, w)
    ensures EmbedsAtEnd(ts + [t], ws + [w]) && Embeds(ts + [t], ws + [w])
  {
    assert (ws + [w])[..|ws|] == ws && (ts + [t])[..|ts|] == ts;
  }

  /** Increasing positions of successes, one for each entry. */
  predicate Picks(idx: seq<nat>, ts: seq<string>, ws: seq<Win>) {
    && |idx| == |ts|
    && (forall i :: 0 <= i < |idx| ==> idx[i] < |ws| && Matches(ts[i], ws[idx[i]]))
    && (forall i, j :: 0 <= i < j < |idx| ==> idx[i] < idx[j])
  }

  /** Embedding means that there are such positions. */
  lemma {:induction false} EmbedsPicks(ts: seq<string>, ws: seq<Win>) returns (idx: seq<nat>)
    requires Embeds(ts, ws)
    ensures Picks(idx, ts, ws)
    ensures ts != [] && ws != [] && EmbedsAtEnd(ts, ws) ==> idx[|idx| - 1] == |ws| - 1
    decreases |ws|
  {
    if ts == [] {
      idx := [];
    } else if EmbedsAtEnd(ts, ws) {
      idx := EmbedsPicks(ts[..|ts| - 1], ws[..|ws| - 1]);
      idx := idx + [|ws| - 1];
    } else {
      idx := EmbedsPicks(ts, ws[..|ws| - 1]);
    }
  }

  // ---- publickey entries and keys ----

  function PubEntries(ts: seq<string>): nat {
    if ts == [] then 0 else PubEntries(ts[..|ts| - 1]) + if NameOf(ts[|ts| - 1]) == PUBLICKEY then 1 else 0
  }

  function PubWins(ws: seq<Win>): nat {
    if ws == [] then 0 else PubWins(ws[..|ws| - 1]) + if ws[|ws| - 1].name == PUBLICKEY then 1 else 0
  }

  /** A matching entry has the method's name. */
  lemma MatchName(t: string, w: Win)
    requires Matches(t, w) && ':' !in w.name
    ensures NameOf(t) == w.name
  {
    ColonFree(w.name, t);
  }

  lemma {:induction false} ColonFree(name: string, t: string)
    requires ':' !in name && name <= t && (|t| == |name| || t[|name|] == ':')
    ensures ColonAt(t) == |name| && NameOf(t) == name
  {
    if name != "" {
      ColonFree(name[1..], t[1..]);
    }
  }

  lemma {:induction false} EmbedsCounts(ts: seq<string>, ws: seq<Win>)
    requires Embeds(ts, ws) && forall w :: w in ws ==> ':' !in w.name
    ensures PubEntries(ts) <= PubWins(ws)
    decreases |ws|
  {
    if ts != [] {
      var n := |ws| - 1;
      assert ws[n] in ws && forall w :: w in ws[..n] ==> w in ws;
      if EmbedsAtEnd(ts, ws) {
        EmbedsCounts(ts[..|ts| - 1], ws[..n]);
        MatchName(ts[|ts| - 1], ws[n]);
      } else {
        EmbedsCounts(ts, ws[..n]);
      }
    }
  }

  predicate DistinctKeys(keys: seq<Key>) {
    forall i, j :: 0 <= i < j < |keys| ==> !EqualPublic(keys[i], keys[j])
  }

  // ---- the invariant ----

  /** Submethods are device names, which have no comma. */
  predicate ConfigOk(cfg: Config) {
    forall d :: d in cfg.devices ==> ',' !in d
  }

  /** What is left of a list. */
  function Left(list: string): seq<string> {
    if list == "" then [] else Tokens(list)
  }

  /** The entries no longer in the list have been ticked off in order. */
  predicate Progress(orig: string, list: string, ws: seq<Win>) {
    var ts, rest := Tokens(orig), Left(list);
    Suffix(ts, rest) && Embeds(Before(ts, rest), ws)
  }

  predicate Suffix(ts: seq<string>, rest: seq<string>) {
    |rest| <= |ts| && rest == ts[|ts| - |rest|..]
  }

  function Before(ts: seq<string>, rest: seq<string>): seq<string>
    requires Suffix(ts, rest)
  {
    ts[..|ts| - |rest|]
  }

  lemma SuffixTail(ts: seq<string>, rest: seq<string>)
    requires Suffix(ts, rest) && rest != []
    ensures Suffix(ts, rest[1..]) && Before(ts, rest[1..]) == Before(ts, rest) + [rest[0]]
  {
  }

  lemma SuffixEnds(ts: seq<string>)
    ensures Suffix(ts, []) && Before(ts, []) == ts && Suffix(ts, ts) && Before(ts, ts) == []
  {
  }

  predicate NonEmptyTokens(list: string) {
    forall t :: t in Tokens(list) ==> t != ""
  }

  predicate ListsOk(cfg: Config, lists: seq<string>, orig: seq<string>, wins: seq<Win>) {
    && |lists| == |orig|
    && (forall k :: 0 <= k < |orig| ==> orig[k] in cfg.lists && NonEmptyTokens(orig[k]))
    && (forall k :: 0 <= k < |lists| ==> Progress(orig[k], lists[k], wins))
  }

  predicate Distinct(ds: seq<nat>) {
    forall i, j :: 0 <= i < j < |ds| ==> ds[i] != ds[j]
  }

  /** A context has a device, allowed by the lists, and has started no device twice. */
  predicate KbdOk(cfg: Config, lists: seq<string>, kbd: Option<Kbd>) {
    kbd.Some? ==>
      var k := kbd.value;
      && k.device.Some? && k.device.value < |cfg.devices|
      && Allowed(cfg, lists, KBDINT, Some(cfg.devices[k.device.value]))
      && k.device.value in k.done
      && Distinct(k.started) && forall d :: d in k.started ==> d in k.done
  }

  predicate WinsOk(cfg: Config, isRoot: bool, wins: seq<Win>) {
    forall w :: w in wins ==>
      && (isRoot ==> RootAllowed(cfg, w.name, w.forced))
      && IsMethod(w.name) && (w.sub.Some? ==> w.sub.value in cfg.devices)
  }

  predicate KeysOk(keys: seq<Key>, wins: seq<Win>) {
    DistinctKeys(keys) && PubWins(wins) <= |keys|
  }

  predicate TriesOk(cfg: Config, failures: nat, running: bool) {
    cfg.maxTries >= 1 ==> failures <= cfg.maxTries && (running ==> failures < cfg.maxTries)
  }

  /** Some configured list is done, its last entry by the last success. */
  predicate ListDone(cfg: Config, orig: seq<string>, wins: seq<Win>) {
    wins != [] && (cfg.lists != [] ==> exists k :: 0 <= k < |orig| && EmbedsAtEnd(Tokens(orig[k]), wins))
  }

  predicate NoneEmpty(lists: seq<string>) {
    forall k :: 0 <= k < |lists| ==> lists[k] != ""
  }

  predicate Inv(cfg: Config, s: Auth) {
    && ListsOk(cfg, s.lists, s.orig, s.wins)
    && (s.end == Running ==> NoneEmpty(s.lists))
    && KbdOk(cfg, s.lists, s.kbd) && (s.handler <==> s.kbd.Some?)
    && WinsOk(cfg, s.isRoot, s.wins)
    && KeysOk(s.keys, s.wins)
    && TriesOk(cfg, s.failures, s.end == Running)
    && !s.end.FatalInvalidUser? && !s.end.FatalPostponed? && !s.end.FatalNoContext?
    && (s.end == Succeeded ==> s.valid && ListDone(cfg, s.orig, s.wins))
    && (s.attempt == 0 ==> s == START)
  }

  // ---- lists ----

  /** One list, after the success w was taken off it or not. */
  lemma ProgressStep(orig: string, list: string, ws: seq<Win>, w: Win)
    requires Progress(orig, list, ws) && NonEmptyTokens(orig) && list != "" && Names(w.name, w.sub)
    ensures Progress(orig, list, ws + [w])
    ensures var r := RemoveMethod(list, w.name, w.sub);
      r.Some? ==> Progress(orig, r.value, ws + [w]) && (r.value == "" ==> EmbedsAtEnd(Tokens(orig), ws + [w]))
  {
    hide RemoveMethod, Tokens, Embeds, EmbedsAtEnd, Matches;
    var ts, rest := Tokens(orig), Tokens(list);
    EmbedsSkip(Before(ts, rest), ws, w);
    RemoveIsTail(list, w.name, w.sub);
    var r := RemoveMethod(list, w.name, w.sub);
    if r.Some? {
      MatchesHead(list, w);
      ProgressTaken(orig, list, r.value, ws, w);
    }
  }

  lemma ProgressTaken(orig: string, list: string, list1: string, ws: seq<Win>, w: Win)
    requires Progress(orig, list, ws) && NonEmptyTokens(orig) && list != ""
    requires Matches(Tokens(list)[0], w)
    requires if |Tokens(list)| == 1 then list1 == "" else Tokens(list1) == Tokens(list)[1..]
    ensures Progress(orig, list1, ws + [w]) && (list1 == "" ==> EmbedsAtEnd(Tokens(orig), ws + [w]))
  {
    hide Tokens, Embeds, EmbedsAtEnd, Matches, Suffix, Before, NonEmptyTokens;
    var ts, rest := Tokens(orig), Tokens(list);
    EmbedsTake(Before(ts, rest), rest[0], ws, w);
    SuffixTail(ts, rest);
    LastEntry(orig, list);
    SuffixEnds(ts);
    assert Left(list1) == rest[1..];
  }

  lemma MatchesHead(list: string, w: Win)
    requires Removes(MatchToken(Head(list), w.name, w.sub))
    ensures Matches(Tokens(list)[0], w)
  {
  }

  /** A list that becomes empty had one entry left. */
  lemma LastEntry(orig: string, list: string)
    requires NonEmptyTokens(orig) && list != "" && Suffix(Tokens(orig), Tokens(list))
    ensures |Tokens(list)| > 1 ==> Tokens(list)[1..] != Tokens("")
  {
    if |Tokens(list)| > 1 {
      assert Tokens(list)[1] in Tokens(orig);
      assert Tokens("")[0] == "";
    }
  }

  lemma WinLists(cfg: Config, lists: seq<string>, orig: seq<string>, wins: seq<Win>, w: Win)
    requires ListsOk(cfg, lists, orig, wins) && NoneEmpty(lists) && Names(w.name, w.sub)
    ensures ListsOk(cfg, lists, orig, wins + [w])
    ensures var u := UpdateFrom(lists, 0, w.name, w.sub);
      && ListsOk(cfg, u.lists, orig, wins + [w])
      && (!u.complete ==> NoneEmpty(u.lists))
      && (u.complete ==> ListDone(cfg, orig, wins + [w]))
  {
    hide Progress, NonEmptyTokens, RemoveMethod, UpdateFrom, EmbedsAtEnd, Tokens, Names;
    var u := UpdateFrom(lists, 0, w.name, w.sub);
    forall k | 0 <= k < |lists|
      ensures Progress(orig[k], u.lists[k], wins + [w]) && (!u.complete ==> u.lists[k] != "")
      ensures Progress(orig[k], lists[k], wins + [w])
    {
      ProgressStep(orig[k], lists[k], wins, w);
      UpdateFromFacts(lists, 0, w.name, w.sub, k);
    }
    if u.complete {
      var k := UpdateComplete(lists, 0, w.name, w.sub);
      ProgressStep(orig[k], lists[k], wins, w);
    }
  }

  // ---- finishing ----

  /** What an attempt must have established before it may be finished as a success. */
  predicate Ready(cfg: Config, s: Auth, name: string, sub: Option<string>) {
    && s.valid && !s.postponed && s.kbd.None? && !s.handler
    && IsMethod(name) && (sub.Some? ==> sub.value in cfg.devices)
    && PubWins(s.wins) + (if name == PUBLICKEY then 1 else 0) <= |s.keys|
  }

  lemma MethodNames(name: string)
    requires IsMethod(name)
    ensures ',' !in name && ':' !in name && name != ""
  {
  }

  lemma FailOk(cfg: Config, s: Auth, partial: bool, name: string)
    requires Inv(cfg, s) && s.end == Running && s.attempt > 0
    ensures Inv(cfg, Fail(cfg, s, partial, name))
  {
    hide ListsOk, NoneEmpty, KbdOk, WinsOk, KeysOk, ListDone;
  }

  lemma WinsSnoc(cfg: Config, s: Auth, w: Win)
    requires WinsOk(cfg, s.isRoot, s.wins) && KeysOk(s.keys, s.wins)
    requires Ready(cfg, s, w.name, w.sub) && (s.isRoot ==> RootAllowed(cfg, w.name, w.forced))
    ensures WinsOk(cfg, s.isRoot, s.wins + [w]) && KeysOk(s.keys, s.wins + [w])
  {
    hide RootAllowed;
    var ws := s.wins + [w];
    assert ws[..|s.wins|] == s.wins;
    assert forall x :: x in ws ==> x in s.wins || x == w;
  }

  /** The state with the success recorded and the lists updated. */
  ghost function Won(s: Auth, w: Win, lists: seq<string>): Auth {
    s.(wins := s.wins + [w], lists := lists)
  }

  lemma WonOk(cfg: Config, s: Auth, w: Win, lists: seq<string>)
    requires Inv(cfg, s) && s.end == Running && s.attempt > 0 && s.kbd.None?
    requires WinsOk(cfg, s.isRoot, s.wins + [w]) && KeysOk(s.keys, s.wins + [w])
    requires ListsOk(cfg, lists, s.orig, s.wins + [w])
    ensures NoneEmpty(lists) ==> Inv(cfg, Won(s, w, lists))
    ensures Inv(cfg, Won(s, w, lists).(end := FatalNotInLists))
    ensures s.valid && ListDone(cfg, s.orig, s.wins + [w]) ==> Inv(cfg, Won(s, w, lists).(end := Succeeded))
  {
    hide ListsOk, NoneEmpty, KbdOk, WinsOk, KeysOk, TriesOk, UpdateFrom, RootAllowed, Fail, IsMethod, ListDone, PubWins, Names;
    NoContext(cfg, lists);
    Stopped(cfg, s.failures);
  }

  lemma WinOk(cfg: Config, s: Auth, w: Win)
    requires Inv(cfg, s) && s.end == Running && s.attempt > 0 && ConfigOk(cfg)
    requires Ready(cfg, s, w.name, w.sub) && (s.isRoot ==> RootAllowed(cfg, w.name, w.forced))
    ensures Inv(cfg, Win1(cfg, s, w))
  {
    MethodNames(w.name);
    assert Names(w.name, w.sub);
    hide ListsOk, NoneEmpty, KbdOk, WinsOk, KeysOk, TriesOk, UpdateFrom, RootAllowed, Fail, IsMethod, ListDone, PubWins, Names;
    WinLists(cfg, s.lists, s.orig, s.wins, w);
    WinsSnoc(cfg, s, w);
    var u := UpdateFrom(s.lists, 0, w.name, w.sub);
    NoLists(cfg, s.wins + [w], s.orig);
    WonOk(cfg, s, w, s.lists);
    WonOk(cfg, s, w, u.lists);
    hide Inv;
    if cfg.lists != [] && u.found && !u.complete {
      FailOk(cfg, Won(s, w, u.lists), true, w.name);
    }
  }

  lemma Stopped(cfg: Config, failures: nat)
    ensures TriesOk(cfg, failures, true) ==> TriesOk(cfg, failures, false)
  {
  }

  lemma NoLists(cfg: Config, wins: seq<Win>, orig: seq<string>)
    ensures cfg.lists == [] && wins != [] ==> ListDone(cfg, orig, wins)
  {
  }

  lemma NoContext(cfg: Config, lists: seq<string>)
    ensures KbdOk(cfg, lists, None)
  {
  }

  lemma FinishOk(cfg: Config, s: Auth, authenticated: bool, name: string, sub: Option<string>, forced: bool)
    requires Inv(cfg, s) && s.end == Running && s.attempt > 0 && ConfigOk(cfg)
    requires authenticated ==> Ready(cfg, s, name, sub)
    ensures Inv(cfg, Finish(cfg, s, authenticated, name, sub, forced))
  {
    hide Inv, Win1, Fail;
    if authenticated && (!s.isRoot || RootAllowed(cfg, name, forced)) {
      WinOk(cfg, s, Win(name, sub, forced));
    } else if !s.postponed {
      FailOk(cfg, s, false, name);
    }
  }

  // ---- setting up ----

  lemma FreshList(cfg: Config, noneEnabled: bool, list: string)
    requires ListValid(cfg, noneEnabled, list)
    ensures list != "" && NonEmptyTokens(list) && Progress(list, list, [])
  {
    hide Tokens, CommaAt;
    assert NameOf("") == "";
    SuffixEnds(Tokens(list));
  }

  lemma {:induction false} ValidListsAre(cfg: Config, noneEnabled: bool, lists: seq<string>, list: string)
    ensures list in ValidLists(cfg, noneEnabled, lists) <==> list in lists && ListValid(cfg, noneEnabled, list)
  {
    hide ListValid;
    if lists != [] {
      ValidListsAre(cfg, noneEnabled, lists[1..], list);
      assert lists == [lists[0]] + lists[1..];
    }
  }

  lemma SetupOk(cfg: Config, e: Event)
    requires e.Request?
    ensures Inv(cfg, Setup(cfg, START, e))
  {
    var lists := ValidLists(cfg, true, cfg.lists);
    forall k | 0 <= k < |lists|
      ensures lists[k] in cfg.lists && lists[k] != "" && NonEmptyTokens(lists[k]) && Progress(lists[k], lists[k], [])
    {
      assert lists[k] in lists;
      ValidListsAre(cfg, true, cfg.lists, lists[k]);
      FreshList(cfg, true, lists[k]);
    }
    hide Tokens, Progress, NonEmptyTokens, ListValid, ValidLists;
  }

  lemma AttemptOk(cfg: Config, s: Auth, ending: Ending)
    requires Inv(cfg, s) && s.attempt > 0 && s.end == Running
    requires ending == Running || ending == Disconnected || ending == FatalReplies
    ensures Inv(cfg, s.(attempt := s.attempt + 1, end := ending)) && Inv(cfg, s.(end := ending))
  {
    hide ListsOk, NoneEmpty, KbdOk, WinsOk, KeysOk, TriesOk, ListDone;
    Stopped(cfg, s.failures);
  }

  lemma StopOk(cfg: Config, s: Auth, postponed: bool)
    requires Inv(cfg, s) && s.attempt > 0
    ensures Inv(cfg, Stop(s).(postponed := postponed)) && Inv(cfg, s.(postponed := postponed))
  {
    hide ListsOk, NoneEmpty, KbdOk, WinsOk, KeysOk, TriesOk, ListDone;
    NoContext(cfg, s.lists);
  }

  // ---- devices ----

  /** k1 is k with perhaps one more device chosen: one not used before, and allowed. */
  predicate Chosen(cfg: Config, lists: seq<string>, k: Kbd, k1: Kbd) {
    && k.done <= k1.done && k1.started == k.started
    && (k1.device != k.device ==>
          && k1.device.Some? && k1.device.value < |cfg.devices|
          && k1.device.value !in k.done && k1.device.value in k1.done
          && Allowed(cfg, lists, KBDINT, Some(cfg.devices[k1.device.value])))
  }

  lemma {:induction false} PickChooses(cfg: Config, lists: seq<string>, devs: string, k: Kbd, i: nat)
    requires i <= |cfg.devices|
    ensures Chosen(cfg, lists, k, PickFrom(cfg, lists, devs, k, i))
    ensures PickFrom(cfg, lists, devs, k, i).devices == k.devices
    decreases |cfg.devices| - i
  {
    hide Allowed, Selects;
    if i < |cfg.devices| {
      var taken := !(i in k.done || !Allowed(cfg, lists, KBDINT, Some(cfg.devices[i])) || !Selects(devs, cfg.devices[i]));
      PickChooses(cfg, lists, devs, if taken then k.(device := Some(i), done := k.done + {i}) else k, i + 1);
    }
  }

  lemma {:induction false} NextChooses(cfg: Config, lists: seq<string>, k: Kbd)
    requires k.device.None?
    ensures Chosen(cfg, lists, k, NextDevice(cfg, lists, k))
    decreases if k.devices.Some? then |k.devices.value| + 1 else 0
  {
    hide Allowed, PickFrom;
    if k.devices.Some? && CommaAt(k.devices.value) != 0 {
      var devs := k.devices.value;
      var n := CommaAt(devs);
      PickChooses(cfg, lists, devs, k, 0);
      var k1 := PickFrom(cfg, lists, devs, k, 0).(devices := if n < |devs| then Some(devs[n + 1..]) else None);
      if k1.device.None? {
        NextChooses(cfg, lists, k1);
      }
    }
  }

  lemma ChosenOk(cfg: Config, lists: seq<string>, k: Kbd, k1: Kbd, nreq: nat)
    requires Chosen(cfg, lists, k, k1) && k.device.None? && k1.device.Some?
    requires Distinct(k.started) && forall d :: d in k.started ==> d in k.done
    ensures KbdOk(cfg, lists, Some(k1.(nreq := nreq, started := k1.started + [k1.device.value])))
  {
    hide Allowed;
    assert forall i :: 0 <= i < |k.started| ==> k.started[i] in k.started;
  }

  lemma ContextOk(cfg: Config, s: Auth, k: Kbd)
    requires Inv(cfg, s) && s.attempt > 0 && KbdOk(cfg, s.lists, Some(k))
    ensures Inv(cfg, s.(kbd := Some(k), handler := true, postponed := true))
  {
    hide ListsOk, NoneEmpty, KbdOk, WinsOk, KeysOk, TriesOk, ListDone;
  }

  lemma StartOk(cfg: Config, s: Auth, k: Kbd, started: bool, nreq: nat)
    requires Inv(cfg, s) && s.attempt > 0
    requires Distinct(k.started) && forall d :: d in k.started ==> d in k.done
    ensures var t := StartDevice(cfg, s, k, started, nreq);
      Inv(cfg, t) && t.end == s.end && t.attempt == s.attempt && t.lists == s.lists
  {
    hide Inv, Allowed, NextDevice, Distinct, Chosen, KbdOk;
    var k0 := k.(device := None);
    NextChooses(cfg, s.lists, k0);
    StopOk(cfg, s, s.postponed);
    var k1 := NextDevice(cfg, s.lists, k0);
    if k1.device.Some? && started {
      ChosenOk(cfg, s.lists, k0, k1, nreq);
      ContextOk(cfg, s, k1.(nreq := nreq, started := k1.started + [k1.device.value]));
    }
  }

  // ---- trying a method ----

  lemma KeyRecorded(keys: seq<Key>, wins: seq<Win>, key: Key)
    requires KeysOk(keys, wins) && !AlreadyUsed(keys, key)
    ensures KeysOk(keys + [key], wins) && PubWins(wins) + 1 <= |keys + [key]|
  {
    hide PubWins;
  }

  lemma TryOk(cfg: Config, s: Auth, name: string, a: Attempt)
    requires Inv(cfg, s) && s.end == Running && s.attempt > 0 && !s.postponed && s.kbd.None?
    requires IsMethod(name) && Fits(name, a)
    ensures var t := Try(cfg, s, name, a);
      && Inv(cfg, t.s) && t.s.end == Running && t.s.attempt == s.attempt
      && (t.authenticated ==> Ready(cfg, t.s, name, None) && t.s.lists == s.lists && name != KBDINT)
  {
    hide ListsOk, NoneEmpty, KbdOk, WinsOk, TriesOk, ListDone, StartDevice;
    match a
    case Verdict(ok) =>
    case Pubkey(key, _, _, _, _) =>
      if key.Some? && !AlreadyUsed(s.keys, key.value) {
        KeyRecorded(s.keys, s.wins, key.value);
      }
    case Interactive(devs, started, nreq) =>
      StartOk(cfg, s, NewKbd(cfg, devs), started, nreq);
  }

  // ---- steps and runs ----

  lemma LookupMethod(cfg: Config, s: Auth, name: string)
    requires Lookup(cfg, s, name)
    ensures IsMethod(name)
  {
  }

  lemma OpenOk(cfg: Config, s: Auth, e: Event)
    requires Inv(cfg, s) && s.end == Running && e.Request?
    ensures Inv(cfg, Open(cfg, s, e)) && Open(cfg, s, e).attempt > 0
  {
    if s.attempt == 0 {
      assert s == START;
      SetupOk(cfg, e);
    } else {
      AttemptOk(cfg, s, Running);
      AttemptOk(cfg, s, Disconnected);
    }
  }

  lemma RequestOk(cfg: Config, s: Auth, e: Event)
    requires Inv(cfg, s) && s.end == Running && ConfigOk(cfg) && e.Request?
    ensures Inv(cfg, OnRequest(cfg, s, e))
  {
    hide Inv, Finish, Try, Ready, Fits, Lookup, Setup, ConfigOk;
    OpenOk(cfg, s, e);
    var s1 := Open(cfg, s, e);
    if s1.end == Running {
      StopOk(cfg, s1, false);
      var s2 := Stop(s1).(postponed := false);
      if Lookup(cfg, s2, e.name) && s2.failures < cfg.maxTries {
        if Fits(e.name, e.attempt) {
          LookupMethod(cfg, s2, e.name);
          TryOk(cfg, s2, e.name, e.attempt);
          var t := Try(cfg, s2, e.name, e.attempt);
          FinishOk(cfg, t.s, t.authenticated, e.name, None, e.forced);
        } else {
          AttemptOk(cfg, s2, Disconnected);
        }
      } else {
        FinishOk(cfg, s2, false, e.name, None, e.forced);
      }
    }
  }

  /** The context of a registered handler. */
  lemma HandlerContext(cfg: Config, s: Auth)
    requires Inv(cfg, s) && s.handler
    ensures s.kbd.Some? && s.attempt > 0
    ensures var k := s.kbd.value;
      && k.device.Some? && k.device.value < |cfg.devices| && k.device.value in k.done
      && Distinct(k.started) && forall d :: d in k.started ==> d in k.done
  {
  }

  /** A further question to the same device. */
  lemma AgainOk(cfg: Config, s: Auth, nreq: nat)
    requires Inv(cfg, s) && s.handler
    ensures Inv(cfg, s.(postponed := true, kbd := Some(s.kbd.value.(nreq := nreq))))
  {
    hide ListsOk, NoneEmpty, WinsOk, KeysOk, TriesOk, ListDone, Allowed;
  }

  lemma ReadyForInteractive(cfg: Config, s: Auth, dev: string)
    requires Inv(cfg, s) && s.valid && !s.postponed && s.kbd.None? && dev in cfg.devices
    ensures Ready(cfg, s, KBDINT, Some(dev))
  {
  }

  lemma RespondedOk(cfg: Config, s: Auth, e: Event)
    requires Inv(cfg, s) && s.end == Running && s.handler && !s.postponed && e.InfoResponse?
    ensures var t := Responded(cfg, s, s.kbd.value, e); var k := s.kbd.value;
      && Inv(cfg, t) && t.end == Running && t.attempt == s.attempt && t.lists == s.lists
      && k.device.Some? && k.device.value < |cfg.devices|
      && (e.result == 0 && s.valid ==> Ready(cfg, t, KBDINT, Some(cfg.devices[k.device.value])))
  {
    HandlerContext(cfg, s);
    hide Inv, StartDevice, Ready, Distinct;
    var k := s.kbd.value;
    if e.result == 1 && e.again {
      AgainOk(cfg, s, e.nreq);
    } else if e.result == 0 && s.valid {
      StopOk(cfg, s, false);
      ReadyForInteractive(cfg, Stop(s), cfg.devices[k.device.value]);
    } else {
      StartOk(cfg, s, k, e.nextStarted, e.nreq);
    }
  }

  lemma InfoResponseOk(cfg: Config, s: Auth, e: Event)
    requires Inv(cfg, s) && s.end == Running && ConfigOk(cfg) && e.InfoResponse?
    ensures Inv(cfg, OnInfoResponse(cfg, s, e))
  {
    hide Inv, Finish, Ready, Responded, ConfigOk, Distinct;
    if s.handler {
      HandlerContext(cfg, s);
      var k := s.kbd.value;
      var s1 := s.(postponed := false);
      StopOk(cfg, s, false);
      AttemptOk(cfg, s1, FatalReplies);
      RespondedOk(cfg, s1, e);
      FinishOk(cfg, Responded(cfg, s1, k, e), e.result == 0 && s.valid, KBDINT, Some(cfg.devices[k.device.value]), e.forced);
    } else if s.attempt > 0 {
      AttemptOk(cfg, s, Disconnected);
    }
  }

  lemma StartInv(cfg: Config)
    ensures Inv(cfg, START)
  {
  }

  /** Every message keeps the invariant, whatever the back ends answer. */
  lemma StepOk(cfg: Config, s: Auth, e: Event)
    requires Inv(cfg, s) && ConfigOk(cfg)
    ensures Inv(cfg, Step(cfg, s, e))
  {
    hide Inv, OnRequest, OnInfoResponse, ConfigOk;
    if s.end == Running {
      if e.Request? {
        RequestOk(cfg, s, e);
      } else {
        InfoResponseOk(cfg, s, e);
      }
    }
  }

  lemma {:induction false} RunOk(cfg: Config, events: seq<Event>)
    requires ConfigOk(cfg)
    ensures Inv(cfg, Run(cfg, events))
  {
    hide Inv, Step, ConfigOk;
    if events == [] {
      StartInv(cfg);
    } else {
      RunOk(cfg, events[..|events| - 1]);
      StepOk(cfg, Run(cfg, events[..|events| - 1]), events[|events| - 1]);
    }
  }
}
