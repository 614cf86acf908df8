/** What holds of user authentication after every sequence of messages. */
module UserAuthRuns {
  import opened Options
  import opened AuthMethods
  import opened UserAuth
  import opened UserAuthProofs

  // ---- successes come from messages ----

  /** The back end accepted what the request carried. */
  predicate Accepted(a: Attempt) {
    match a
    case Verdict(ok) => ok
    case Pubkey(key, typeOk, haveSig, allowed, verified) => key.Some? && typeOk && haveSig && allowed && verified
    case Interactive(_, _, _) => false
  }

  /** The keyboard-interactive device that an info response goes to. */
  function Answering(cfg: Config, s: Auth): Option<string> {
    if s.handler && s.kbd.Some? && s.kbd.value.device.Some? && s.kbd.value.device.value < |cfg.devices| then
      Some(cfg.devices[s.kbd.value.device.value])
    else None
  }

  /** The message e, read in state s, reports the success w. */
  predicate Evidence(cfg: Config, s: Auth, e: Event, w: Win) {
    match e
    case Request(_, _, name, attempt, _, _, forced) =>
      w == Win(name, None, forced) && Fits(name, attempt) && Accepted(attempt)
    case InfoResponse(_, result, _, _, _, forced) =>
      result == 0 && Answering(cfg, s).Some? && w == Win(KBDINT, Answering(cfg, s), forced)
  }

  /** t has at most the success that e reports on top of s, and that one if it has just succeeded. */
  ghost predicate WinsGrow(cfg: Config, s: Auth, e: Event, t: Auth) {
    && (t.wins == s.wins || exists w :: Evidence(cfg, s, e, w) && t.wins == s.wins + [w])
    && (t.end == Succeeded ==> |t.wins| > |s.wins|)
  }

  lemma FinishWins(cfg: Config, s: Auth, authenticated: bool, name: string, sub: Option<string>, forced: bool)
    requires s.end == Running
    ensures var t := Finish(cfg, s, authenticated, name, sub, forced);
      && (t.wins == s.wins || (authenticated && t.wins == s.wins + [Win(name, sub, forced)]))
      && (t.end == Succeeded ==> |t.wins| > |s.wins|)
  {
    hide RootAllowed, Win1, Fail;
    WinAppends(cfg, s, Win(name, sub, forced));
    FailKeepsWins(cfg, s, false, name);
  }

  lemma WinAppends(cfg: Config, s: Auth, w: Win)
    ensures Win1(cfg, s, w).wins == s.wins + [w]
  {
    hide UpdateFrom;
  }

  lemma FailKeepsWins(cfg: Config, s: Auth, partial: bool, name: string)
    requires s.end == Running
    ensures Fail(cfg, s, partial, name).wins == s.wins && Fail(cfg, s, partial, name).end != Succeeded
  {
  }

  lemma TryWins(cfg: Config, s: Auth, name: string, a: Attempt)
    ensures var t := Try(cfg, s, name, a);
      t.s.wins == s.wins && t.s.end == s.end && (t.authenticated ==> Accepted(a))
  {
    hide NextDevice, AlreadyUsed, NewKbd;
  }

  lemma OpenWins(cfg: Config, s: Auth, e: Event)
    requires e.Request? && s.end == Running
    ensures var t := Open(cfg, s, e); t.wins == s.wins && t.end != Succeeded
  {
    hide ValidLists;
  }

  lemma StepWins(cfg: Config, s: Auth, e: Event)
    requires s.end == Running
    ensures WinsGrow(cfg, s, e, Step(cfg, s, e))
  {
    hide Finish, Try, Lookup, Fits, Open, NextDevice;
    if e.Request? {
      OpenWins(cfg, s, e);
      var s2 := Stop(Open(cfg, s, e)).(postponed := false);
      if s2.end == Running {
        TryWins(cfg, s2, e.name, e.attempt);
        var t := Try(cfg, s2, e.name, e.attempt);
        FinishWins(cfg, t.s, t.authenticated, e.name, None, e.forced);
        FinishWins(cfg, s2, false, e.name, None, e.forced);
        assert Fits(e.name, e.attempt) && t.authenticated ==> Evidence(cfg, s, e, Win(e.name, None, e.forced));
      }
    } else if Answering(cfg, s).Some? {
      InfoWins(cfg, s, e);
    }
  }

  lemma RespondedKeeps(cfg: Config, s: Auth, k: Kbd, e: Event)
    requires e.InfoResponse?
    ensures var t := Responded(cfg, s, k, e); t.wins == s.wins && t.keys == s.keys && t.lists == s.lists && t.end == s.end
  {
    hide NextDevice;
  }

  lemma InfoWins(cfg: Config, s: Auth, e: Event)
    requires s.end == Running && e.InfoResponse?
    requires Answering(cfg, s).Some?
    ensures WinsGrow(cfg, s, e, OnInfoResponse(cfg, s, e))
  {
    hide Finish, Responded;
    var k := s.kbd.value;
    var s1 := s.(postponed := false);
    var dev := cfg.devices[k.device.value];
    RespondedKeeps(cfg, s1, k, e);
    FinishWins(cfg, Responded(cfg, s1, k, e), e.result == 0 && s.valid, KBDINT, Some(dev), e.forced);
    assert e.result == 0 ==> Evidence(cfg, s, e, Win(KBDINT, Some(dev), e.forced));
  }

  predicate Increasing(idx: seq<nat>) {
    forall i, j :: 0 <= i < j < |idx| ==> idx[i] < idx[j]
  }

  /** Increasing positions of the messages that report the successes. */
  predicate Reported(cfg: Config, idx: seq<nat>, ws: seq<Win>, events: seq<Event>) {
    && |idx| == |ws| && Increasing(idx)
    && forall i :: 0 <= i < |idx| ==> idx[i] < |events| && Evidence(cfg, StateBefore(cfg, events, idx[i]), events[idx[i]], ws[i])
  }

  /** The state in which message i is read. */
  function StateBefore(cfg: Config, events: seq<Event>, i: nat): Auth
    requires i <= |events|
  {
    Run(cfg, events[..i])
  }

  lemma StateBeforePrefix(cfg: Config, events: seq<Event>, n: nat, i: nat)
    requires i <= n <= |events|
    ensures StateBefore(cfg, events[..n], i) == StateBefore(cfg, events, i)
  {
    assert events[..n][..i] == events[..i];
  }

  /** The message that ends the dialogue with a success is the one that reports the last success. */
  lemma {:induction false} WinsReported(cfg: Config, events: seq<Event>) returns (idx: seq<nat>)
    ensures Reported(cfg, idx, Run(cfg, events).wins, events)
    ensures LastStep(cfg, events) && Run(cfg, events).end == Succeeded ==> idx != [] && idx[|idx| - 1] == |events| - 1
  {
    hide Step, Evidence;
    if events == [] {
      idx := [];
    } else {
      var n := |events| - 1;
      var s := Run(cfg, events[..n]);
      idx := WinsReported(cfg, events[..n]);
      forall i | 0 <= i < |idx|
        ensures StateBefore(cfg, events[..n], idx[i]) == StateBefore(cfg, events, idx[i])
      {
        StateBeforePrefix(cfg, events, n, idx[i]);
      }
      Unchanged(cfg, s, events[n]);
      if s.end == Running {
        StepWins(cfg, s, events[n]);
        if Run(cfg, events).wins != s.wins {
          idx := idx + [n];
        }
      }
    }
  }

  lemma Unchanged(cfg: Config, s: Auth, e: Event)
    ensures s.end != Running ==> Step(cfg, s, e) == s
  {
  }

  /** The dialogue was still going on before the last message. */
  predicate LastStep(cfg: Config, events: seq<Event>) {
    events != [] && Run(cfg, events[..|events| - 1]).end == Running
  }

  // ---- success ----

  /**
   The message e, read in state s, ticks off the list entry t: it carries what its method expects
   and the back end accepts it, or the device that was asked says that the answer is right.
   */
  predicate Earns(cfg: Config, s: Auth, e: Event, t: string) {
    match e
    case Request(_, _, name, attempt, _, _, _) =>
      Fits(name, attempt) && Accepted(attempt) && Removes(MatchToken(t, name, None))
    case InfoResponse(_, result, _, _, _, _) =>
      result == 0 && Answering(cfg, s).Some? && Removes(MatchToken(t, KBDINT, Answering(cfg, s)))
  }

  /** Increasing positions of messages that tick off the entries. */
  predicate EarnedAt(cfg: Config, idx: seq<nat>, ts: seq<string>, events: seq<Event>) {
    && |idx| == |ts| && Increasing(idx)
    && forall i :: 0 <= i < |idx| ==> idx[i] < |events| && Earns(cfg, StateBefore(cfg, events, idx[i]), events[idx[i]], ts[i])
  }

  lemma EvidenceEarns(cfg: Config, s: Auth, e: Event, w: Win, t: string)
    requires Evidence(cfg, s, e, w) && Matches(t, w)
    ensures Earns(cfg, s, e, t)
  {
    hide MatchToken;
  }

  lemma Compose(cfg: Config, pick: seq<nat>, at: seq<nat>, ts: seq<string>, ws: seq<Win>, events: seq<Event>) returns (idx: seq<nat>)
    requires Picks(pick, ts, ws) && Reported(cfg, at, ws, events)
    ensures |idx| == |pick| && EarnedAt(cfg, idx, ts, events)
    ensures forall i :: 0 <= i < |pick| ==> pick[i] < |at| && idx[i] == at[pick[i]]
  {
    hide Evidence, Matches, Earns, StateBefore;
    idx := seq(|pick|, i requires 0 <= i < |pick| => at[pick[i]]);
    forall i | 0 <= i < |idx|
      ensures Earns(cfg, StateBefore(cfg, events, idx[i]), events[idx[i]], ts[i])
    {
      EvidenceEarns(cfg, StateBefore(cfg, events, idx[i]), events[idx[i]], ws[pick[i]], ts[i]);
    }
  }

  /**
   SSH_MSG_USERAUTH_SUCCESS is sent only to a valid user whose last method passed the root
   policy and, if AuthenticationMethods is set, only if messages of this run ticked off the
   entries of some configured list in order, the last entry by the last message.
   */
  lemma SuccessIsEarned(cfg: Config, events: seq<Event>)
    requires ConfigOk(cfg) && LastStep(cfg, events) && Run(cfg, events).end == Succeeded
    ensures var s := Run(cfg, events);
      && s.valid && s.wins != [] && Evidence(cfg, StateBefore(cfg, events, |events| - 1), events[|events| - 1], s.wins[|s.wins| - 1])
      && (s.isRoot ==> RootAllowed(cfg, s.wins[|s.wins| - 1].name, s.wins[|s.wins| - 1].forced))
    ensures cfg.lists != [] ==>
      exists list, idx :: list in cfg.lists && EarnedAt(cfg, idx, Tokens(list), events) && idx != [] && idx[|idx| - 1] == |events| - 1
  {
    RunOk(cfg, events);
    var at := WinsReported(cfg, events);
    hide Run, Evidence, LastStep, EarnedAt, Inv, RootAllowed, Tokens, StateBefore;
    var s := Run(cfg, events);
    LastWin(cfg, s);
    if cfg.lists != [] {
      var list, idx := ListEarned(cfg, s, at, events);
    }
  }

  lemma ListEarned(cfg: Config, s: Auth, at: seq<nat>, events: seq<Event>) returns (list: string, idx: seq<nat>)
    requires Inv(cfg, s) && s.end == Succeeded && cfg.lists != [] && Reported(cfg, at, s.wins, events)
    ensures list in cfg.lists && EarnedAt(cfg, idx, Tokens(list), events)
    ensures idx != [] && at != [] && idx[|idx| - 1] == at[|at| - 1]
  {
    hide Inv, EarnedAt, Evidence, Embeds, EmbedsAtEnd, StateBefore;
    list := DoneList(cfg, s);
    var pick := EmbedsPicks(Tokens(list), s.wins);
    idx := Compose(cfg, pick, at, Tokens(list), s.wins, events);
  }

  lemma LastWin(cfg: Config, s: Auth)
    requires Inv(cfg, s) && s.end == Succeeded
    ensures s.valid && s.wins != []
    ensures s.isRoot ==> RootAllowed(cfg, s.wins[|s.wins| - 1].name, s.wins[|s.wins| - 1].forced)
  {
    assert s.wins[|s.wins| - 1] in s.wins;
  }

  lemma DoneList(cfg: Config, s: Auth) returns (list: string)
    requires Inv(cfg, s) && s.end == Succeeded && cfg.lists != []
    ensures list in cfg.lists && s.wins != [] && EmbedsAtEnd(Tokens(list), s.wins) && Embeds(Tokens(list), s.wins)
  {
    var k :| 0 <= k < |s.orig| && EmbedsAtEnd(Tokens(s.orig[k]), s.wins);
    list := s.orig[k];
  }

  // ---- keys ----

  /** A list with k publickey entries is completed only with k keys, no two of them equal. */
  lemma DistinctKeysPerEntry(cfg: Config, events: seq<Event>)
    requires ConfigOk(cfg) && Run(cfg, events).end == Succeeded && cfg.lists != []
    ensures var s := Run(cfg, events);
      && DistinctKeys(s.keys)
      && exists list :: list in cfg.lists && Embeds(Tokens(list), s.wins) && PubEntries(Tokens(list)) <= |s.keys|
  {
    RunOk(cfg, events);
    hide Run;
    var s := Run(cfg, events);
    var list := DoneList(cfg, s);
    forall w | w in s.wins
      ensures ':' !in w.name
    {
      MethodNames(w.name);
    }
    EmbedsCounts(Tokens(list), s.wins);
  }

  /** Every recorded key was verified in a request of this run, and no two are equal. */
  lemma {:induction false} KeysVerified(cfg: Config, events: seq<Event>)
    requires ConfigOk(cfg)
    ensures DistinctKeys(Run(cfg, events).keys)
    ensures forall key :: key in Run(cfg, events).keys ==>
      exists e :: e in events && e.Request? && e.name == PUBLICKEY && e.attempt.Pubkey? && Accepted(e.attempt) && e.attempt.key == Some(key)
  {
    RunOk(cfg, events);
    hide Step, Inv;
    if events != [] {
      var n := |events| - 1;
      KeysVerified(cfg, events[..n]);
      StepKeys(cfg, Run(cfg, events[..n]), events[n]);
      assert forall e :: e in events[..n] ==> e in events;
      assert events[n] in events;
    }
  }

  lemma StepKeys(cfg: Config, s: Auth, e: Event)
    ensures var t := Step(cfg, s, e);
      t.keys == s.keys ||
      (e.Request? && e.name == PUBLICKEY && e.attempt.Pubkey? && Accepted(e.attempt) && t.keys == s.keys + [e.attempt.key.value])
  {
    hide Finish, Try, Open, StartDevice, Lookup;
    if e.Request? {
      var s2 := Stop(Open(cfg, s, e)).(postponed := false);
      OpenKeys(cfg, s, e);
      TryKeys(cfg, s2, e.name, e.attempt);
      var t := Try(cfg, s2, e.name, e.attempt);
      FinishKeys(cfg, t.s, t.authenticated, e.name, None, e.forced);
      FinishKeys(cfg, s2, false, e.name, None, e.forced);
    } else {
      InfoKeys(cfg, s, e);
    }
  }

  lemma OpenKeys(cfg: Config, s: Auth, e: Event)
    requires e.Request?
    ensures Open(cfg, s, e).keys == s.keys
  {
    hide ValidLists, IsConnection;
  }

  lemma FinishKeys(cfg: Config, s: Auth, authenticated: bool, name: string, sub: Option<string>, forced: bool)
    ensures Finish(cfg, s, authenticated, name, sub, forced).keys == s.keys
  {
    hide RootAllowed, UpdateFrom;
  }

  lemma TryKeys(cfg: Config, s: Auth, name: string, a: Attempt)
    ensures var t := Try(cfg, s, name, a);
      t.s.keys == s.keys || (a.Pubkey? && Accepted(a) && t.s.keys == s.keys + [a.key.value])
  {
    hide NextDevice, AlreadyUsed, NewKbd;
  }

  lemma InfoKeys(cfg: Config, s: Auth, e: Event)
    requires e.InfoResponse?
    ensures OnInfoResponse(cfg, s, e).keys == s.keys
  {
    hide Finish, Responded;
    if s.kbd.Some? && s.kbd.value.device.Some? && s.kbd.value.device.value < |cfg.devices| {
      var k := s.kbd.value;
      var s1 := s.(postponed := false);
      RespondedKeeps(cfg, s1, k, e);
      FinishKeys(cfg, Responded(cfg, s1, k, e), e.result == 0 && s.valid, KBDINT, Some(cfg.devices[k.device.value]), e.forced);
    }
  }

  // ---- fatal errors and the retry counter ----

  /** The internal errors of userauth_finish and of the info response handler are not reached. */
  lemma NoInternalError(cfg: Config, events: seq<Event>)
    requires ConfigOk(cfg)
    ensures !Run(cfg, events).end.FatalInvalidUser?
    ensures !Run(cfg, events).end.FatalPostponed?
    ensures !Run(cfg, events).end.FatalNoContext?
  {
    RunOk(cfg, events);
    hide Run;
  }

  /** Within one keyboard-interactive context no device is started twice. */
  lemma DeviceOnce(cfg: Config, events: seq<Event>)
    requires ConfigOk(cfg)
    ensures var s := Run(cfg, events); s.kbd.Some? ==> Distinct(s.kbd.value.started)
  {
    RunOk(cfg, events);
    hide Run;
  }

  /** No request ever gets past the setting up of the lists. */
  predicate NoListLeft(cfg: Config) {
    cfg.lists != [] && ValidLists(cfg, true, cfg.lists) == []
  }

  lemma {:induction false} NothingTried(cfg: Config, events: seq<Event>)
    requires NoListLeft(cfg)
    ensures Run(cfg, events) == START || (Run(cfg, events).end == Disconnected && Run(cfg, events).failures == 0)
  {
    hide ValidLists;
    if events != [] {
      NothingTried(cfg, events[..|events| - 1]);
    }
  }

  /** With MaxAuthTries 0 the first failed password is counted. */
  lemma ZeroTriesExceeded(cfg: Config)
    requires cfg.maxTries == 0 && !NoListLeft(cfg)
    ensures Run(cfg, [Request("u", "ssh-connection", "password", Verdict(false), true, false, false)]).failures == 1
  {
    hide ValidLists, Lookup;
    var e := Request("u", "ssh-connection", "password", Verdict(false), true, false, false);
    assert [e][..0] == [];
    assert Run(cfg, [e]) == Step(cfg, START, e);
  }

  /** The retry counter stays within MaxAuthTries in every run exactly under this condition. */
  lemma FailuresBoundedIff(cfg: Config)
    requires ConfigOk(cfg)
    ensures (forall events :: Run(cfg, events).failures <= cfg.maxTries) <==>
      cfg.maxTries >= 1 || (cfg.maxTries == 0 && NoListLeft(cfg))
  {
    hide NoListLeft, ConfigOk, Step;
    if cfg.maxTries >= 1 {
      forall events
        ensures Run(cfg, events).failures <= cfg.maxTries
      {
        FailuresBounded(cfg, events);
      }
    } else if cfg.maxTries == 0 && NoListLeft(cfg) {
      forall events
        ensures Run(cfg, events).failures <= cfg.maxTries
      {
        NothingTried(cfg, events);
      }
    } else if cfg.maxTries == 0 {
      ZeroTriesExceeded(cfg);
    } else {
      assert Run(cfg, []).failures == 0;
    }
  }

  /** Below MaxAuthTries while the dialogue goes on, never above it. */
  lemma FailuresBounded(cfg: Config, events: seq<Event>)
    requires ConfigOk(cfg) && cfg.maxTries >= 1
    ensures Run(cfg, events).failures <= cfg.maxTries
    ensures Run(cfg, events).end == Running ==> Run(cfg, events).failures < cfg.maxTries
  {
    RunOk(cfg, events);
    hide Run;
  }

  // ---- "method not in AuthenticationMethods" ----

  /** Only keyboard-interactive entries carry a submethod. */
  predicate SubmethodsOk(cfg: Config) {
    forall list, t :: list in cfg.lists && t in Tokens(list) && ':' in t ==> NameOf(t) == KBDINT
  }

  lemma {:induction false} FoundIff(lists: seq<string>, i: nat, name: string, sub: Option<string>)
    requires i <= |lists|
    ensures UpdateFrom(lists, i, name, sub).found <==> exists k :: i <= k < |lists| && RemoveMethod(lists[k], name, sub).Some?
    decreases |lists| - i
  {
    hide RemoveMethod;
    if i < |lists| {
      var r := RemoveMethod(lists[i], name, sub);
      if r.Some? {
        assert RemoveMethod(lists[i], name, sub).Some?;
      } else {
        FoundIff(lists, i + 1, name, sub);
      }
    }
  }

  /** With a submethod given, what is allowed can be taken off some list. */
  lemma SubmethodFound(cfg: Config, lists: seq<string>, name: string, sub: string)
    requires cfg.lists != [] && Allowed(cfg, lists, name, Some(sub))
    ensures UpdateFrom(lists, 0, name, Some(sub)).found
  {
    hide UpdateFrom;
    FoundIff(lists, 0, name, Some(sub));
    var i :| 0 <= i < |lists| && ListStartsWith(lists[i], name, Some(sub)) != NoMatch;
    assert RemoveMethod(lists[i], name, Some(sub)).Some?;
  }

  /** A list that admits the method without removing it has a submethod in its first entry. */
  lemma PartialHead(list: string, name: string)
    requires IsMethod(name) && ListStartsWith(list, name, None) == MatchPartial
    ensures ':' in Head(list) && NameOf(Head(list)) == name
  {
    MethodNames(name);
    StartsWithIsHeadMatch(list, name, None);
    hide ListStartsWith, IsMethod;
    assert Head(list)[|name|] == ':';
    ColonFree(name, Head(list));
  }

  lemma RemainingHead(orig: string, list: string, ws: seq<Win>)
    requires Progress(orig, list, ws) && list != ""
    ensures Head(list) in Tokens(orig)
  {
    hide Tokens, Embeds;
    assert Tokens(list)[0] == Head(list);
  }

  lemma MethodFound(cfg: Config, s: Auth, name: string)
    requires Inv(cfg, s) && s.end == Running && SubmethodsOk(cfg)
    requires cfg.lists != [] && IsMethod(name) && name != KBDINT && Allowed(cfg, s.lists, name, None)
    ensures UpdateFrom(s.lists, 0, name, None).found
  {
    hide UpdateFrom, Progress, NonEmptyTokens, Tokens, NameOf, IsMethod, Head, ListStartsWith;
    FoundIff(s.lists, 0, name, None);
    var i :| 0 <= i < |s.lists| && ListStartsWith(s.lists[i], name, None) != NoMatch;
    if ListStartsWith(s.lists[i], name, None) == MatchPartial {
      PartialHead(s.lists[i], name);
      RemainingHead(s.orig[i], s.lists[i], s.wins);
      assert false;
    } else {
      NotBoth(s.lists[i], name);
      assert RemoveMethod(s.lists[i], name, None).Some?;
    }
  }

  lemma NotBoth(list: string, name: string)
    ensures ListStartsWith(list, name, None) != MatchBoth
  {
  }

  lemma FinishFinds(cfg: Config, s: Auth, authenticated: bool, name: string, sub: Option<string>, forced: bool)
    requires s.end == Running
    requires authenticated && cfg.lists != [] ==> UpdateFrom(s.lists, 0, name, sub).found
    ensures !Finish(cfg, s, authenticated, name, sub, forced).end.FatalNotInLists?
  {
    hide RootAllowed, UpdateFrom;
  }

  lemma RequestFinds(cfg: Config, s: Auth, e: Event)
    requires Inv(cfg, s) && s.end == Running && SubmethodsOk(cfg) && ConfigOk(cfg) && e.Request?
    ensures !OnRequest(cfg, s, e).end.FatalNotInLists?
  {
    hide Inv, Finish, Try, Ready, Fits, Setup, ConfigOk, UpdateFrom, SubmethodsOk, Allowed, IsMethod, Enabled;
    OpenOk(cfg, s, e);
    OpenWins(cfg, s, e);
    var s1 := Open(cfg, s, e);
    if s1.end == Running {
      StopOk(cfg, s1, false);
      var s2 := Stop(s1).(postponed := false);
      if Lookup(cfg, s2, e.name) && s2.failures < cfg.maxTries && Fits(e.name, e.attempt) {
        TryOk(cfg, s2, e.name, e.attempt);
        var t := Try(cfg, s2, e.name, e.attempt);
        if t.authenticated && cfg.lists != [] {
          MethodFound(cfg, s2, e.name);
        }
        FinishFinds(cfg, t.s, t.authenticated, e.name, None, e.forced);
      } else {
        FinishFinds(cfg, s2, false, e.name, None, e.forced);
      }
    } else {
      OpenEnds(cfg, s, e);
    }
  }

  lemma OpenEnds(cfg: Config, s: Auth, e: Event)
    requires e.Request? && s.end == Running
    ensures !Open(cfg, s, e).end.FatalNotInLists?
  {
    hide ValidLists;
  }

  lemma HandlerAllowed(cfg: Config, s: Auth)
    requires Inv(cfg, s) && s.handler
    ensures s.kbd.value.device.value < |cfg.devices| && Allowed(cfg, s.lists, KBDINT, Some(cfg.devices[s.kbd.value.device.value]))
  {
  }

  lemma InfoFinds(cfg: Config, s: Auth, e: Event)
    requires Inv(cfg, s) && s.end == Running && ConfigOk(cfg) && e.InfoResponse?
    ensures !OnInfoResponse(cfg, s, e).end.FatalNotInLists?
  {
    hide Inv, Finish, Responded, Allowed, UpdateFrom, ConfigOk, Distinct;
    if s.handler {
      HandlerContext(cfg, s);
      HandlerAllowed(cfg, s);
      var k := s.kbd.value;
      var s1 := s.(postponed := false);
      var dev := cfg.devices[k.device.value];
      if cfg.lists != [] {
        SubmethodFound(cfg, s.lists, KBDINT, dev);
      }
      RespondedKeeps(cfg, s1, k, e);
      FinishFinds(cfg, Responded(cfg, s1, k, e), e.result == 0 && s.valid, KBDINT, Some(dev), e.forced);
    }
  }

  /** If only keyboard-interactive entries carry a submethod, a success is always in some list. */
  lemma {:induction false} AlwaysInLists(cfg: Config, events: seq<Event>)
    requires ConfigOk(cfg) && SubmethodsOk(cfg)
    ensures !Run(cfg, events).end.FatalNotInLists?
  {
    hide Inv, OnRequest, OnInfoResponse, ConfigOk, SubmethodsOk;
    if events != [] {
      var n := |events| - 1;
      var s := Run(cfg, events[..n]);
      AlwaysInLists(cfg, events[..n]);
      RunOk(cfg, events[..n]);
      if s.end == Running {
        if events[n].Request? {
          RequestFinds(cfg, s, events[n]);
        } else {
          InfoFinds(cfg, s, events[n]);
        }
      }
    }
  }

  /** Some list starts with the method and a submethod, and none with the method alone. */
  predicate OnlySubmethods(lists: seq<string>, name: string) {
    && (exists k :: 0 <= k < |lists| && name + ":" <= Head(lists[k]))
    && (forall k :: 0 <= k < |lists| ==> Head(lists[k]) != name)
  }

  /** A success is fatal exactly if no list starts with it. */
  lemma WinNotInListsIff(cfg: Config, s: Auth, w: Win)
    requires cfg.lists != [] && s.end == Running && Names(w.name, w.sub)
    ensures Win1(cfg, s, w).end.FatalNotInLists? <==>
      forall k :: 0 <= k < |s.lists| ==> !Removes(MatchToken(Head(s.lists[k]), w.name, w.sub))
  {
    hide UpdateFrom, RemoveMethod, MatchToken, Removes, Head, Names;
    FoundIff(s.lists, 0, w.name, w.sub);
    forall k | 0 <= k < |s.lists|
      ensures RemoveMethod(s.lists[k], w.name, w.sub).Some? <==> Removes(MatchToken(Head(s.lists[k]), w.name, w.sub))
    {
      RemoveIsTail(s.lists[k], w.name, w.sub);
    }
  }

  /** A method that is admitted as such but in no list: every list that names it wants a submethod. */
  lemma AdmittedIff(cfg: Config, lists: seq<string>, name: string)
    requires cfg.lists != [] && Names(name, None) && Allowed(cfg, lists, name, None)
    ensures (forall k :: 0 <= k < |lists| ==> !Removes(MatchToken(Head(lists[k]), name, None))) <==> OnlySubmethods(lists, name)
  {
    var i :| 0 <= i < |lists| && ListStartsWith(lists[i], name, None) != NoMatch;
    StartsWithIsHeadMatch(lists[i], name, None);
    hide ListStartsWith, Head, Names;
  }

  /** The request authenticates the user and passes the root policy. */
  predicate Authenticates(cfg: Config, s: Auth, e: Event)
    requires e.Request?
  {
    var s2 := Stop(Open(cfg, s, e)).(postponed := false);
    && s2.end == Running && Lookup(cfg, s2, e.name) && s2.failures < cfg.maxTries && Fits(e.name, e.attempt)
    && Try(cfg, s2, e.name, e.attempt).authenticated && (!s2.isRoot || RootAllowed(cfg, e.name, e.forced))
  }

  /** The request authenticates, but every list that starts with its method wants a submethod. */
  predicate Blocked(cfg: Config, s: Auth, e: Event) {
    e.Request? && Authenticates(cfg, s, e) && cfg.lists != [] && OnlySubmethods(Open(cfg, s, e).lists, e.name)
  }

  lemma FinishNotInListsIff(cfg: Config, s: Auth, authenticated: bool, name: string, forced: bool)
    requires s.end == Running && (authenticated ==> Ready(cfg, s, name, None) && Allowed(cfg, s.lists, name, None))
    ensures Finish(cfg, s, authenticated, name, None, forced).end.FatalNotInLists? <==>
      && authenticated && (!s.isRoot || RootAllowed(cfg, name, forced))
      && cfg.lists != [] && OnlySubmethods(s.lists, name)
  {
    hide Win1, RootAllowed, OnlySubmethods, Allowed, IsMethod, PubWins;
    if authenticated {
      MethodNames(name);
      if cfg.lists != [] {
        WinNotInListsIff(cfg, s, Win(name, None, forced));
        AdmittedIff(cfg, s.lists, name);
      } else {
        WinEnds(cfg, s, Win(name, None, forced));
      }
    }
  }

  lemma WinEnds(cfg: Config, s: Auth, w: Win)
    requires s.end == Running && cfg.lists == []
    ensures !Win1(cfg, s, w).end.FatalNotInLists?
  {
  }

  /** A request is fatal for this reason exactly if it is blocked. */
  lemma RequestNotInListsIff(cfg: Config, s: Auth, e: Event)
    requires Inv(cfg, s) && s.end == Running && ConfigOk(cfg) && e.Request?
    ensures OnRequest(cfg, s, e).end.FatalNotInLists? <==> Blocked(cfg, s, e)
  {
    hide Inv, Finish, Try, Ready, Fits, Open, ConfigOk, Allowed, IsMethod, Enabled, OnlySubmethods, RootAllowed;
    OpenOk(cfg, s, e);
    OpenEnds(cfg, s, e);
    var s2 := Stop(Open(cfg, s, e)).(postponed := false);
    if s2.end == Running {
      StopOk(cfg, Open(cfg, s, e), false);
      FinishNotInListsIff(cfg, s2, false, e.name, e.forced);
      if Lookup(cfg, s2, e.name) && s2.failures < cfg.maxTries && Fits(e.name, e.attempt) {
        TryOk(cfg, s2, e.name, e.attempt);
        TryRoot(cfg, s2, e.name, e.attempt);
        var t := Try(cfg, s2, e.name, e.attempt);
        FinishNotInListsIff(cfg, t.s, t.authenticated, e.name, e.forced);
      }
    }
  }

  lemma TryRoot(cfg: Config, s: Auth, name: string, a: Attempt)
    ensures Try(cfg, s, name, a).s.isRoot == s.isRoot && Try(cfg, s, name, a).s.lists == s.lists
  {
    hide NextDevice, AlreadyUsed, NewKbd;
  }

  /** The error ends a run exactly if some message of it is a blocked request; an info response never causes it. */
  lemma {:induction false} NotInListsIff(cfg: Config, events: seq<Event>)
    requires ConfigOk(cfg)
    ensures Run(cfg, events).end.FatalNotInLists? <==>
      exists n :: 0 <= n < |events| && StateBefore(cfg, events, n).end == Running && Blocked(cfg, StateBefore(cfg, events, n), events[n])
  {
    hide Inv, OnRequest, OnInfoResponse, ConfigOk, Blocked;
    if events != [] {
      var m := |events| - 1;
      var s := Run(cfg, events[..m]);
      NotInListsIff(cfg, events[..m]);
      RunOk(cfg, events[..m]);
      forall n | 0 <= n < m
        ensures StateBefore(cfg, events[..m], n) == StateBefore(cfg, events, n)
      {
        StateBeforePrefix(cfg, events, m, n);
      }
      assert StateBefore(cfg, events, m) == s;
      BlockedIsRequest(cfg, s, events[m]);
      if s.end == Running {
        if events[m].Request? {
          RequestNotInListsIff(cfg, s, events[m]);
        } else {
          InfoFinds(cfg, s, events[m]);
        }
      }
    }
  }

  lemma BlockedIsRequest(cfg: Config, s: Auth, e: Event)
    ensures Blocked(cfg, s, e) ==> e.Request?
  {
  }

  /** A configuration with a blocked request: its one list starts with "publickey:x". */
  lemma NotInListsReached(cfg: Config)
    requires cfg.lists == ["publickey:x"] && PUBLICKEY in cfg.enabled && cfg.maxTries > 0
    ensures Run(cfg, [Request("u", "ssh-connection", PUBLICKEY, Pubkey(Some(Key(0, 0)), true, true, true, true), true, false, false)]).end
      == FatalNotInLists
  {
    var e := Request("u", "ssh-connection", PUBLICKEY, Pubkey(Some(Key(0, 0)), true, true, true, true), true, false, false);
    SubmethodList(cfg);
    hide ValidLists, ListStartsWith, UpdateFrom;
    var s2 := Stop(Open(cfg, START, e)).(postponed := false);
    assert Lookup(cfg, s2, PUBLICKEY) by {
      assert s2.lists[0] == "publickey:x";
    }
    var t := Try(cfg, s2, PUBLICKEY, e.attempt);
    assert t.authenticated && t.s.lists == ["publickey:x"];
    assert OnRequest(cfg, START, e) == Finish(cfg, t.s, true, PUBLICKEY, None, false);
    assert [e][..0] == [];
  }

  lemma SubmethodList(cfg: Config)
    requires cfg.lists == ["publickey:x"] && PUBLICKEY in cfg.enabled
    ensures ValidLists(cfg, true, cfg.lists) == cfg.lists
    ensures ListStartsWith("publickey:x", PUBLICKEY, None) == MatchPartial
    ensures !UpdateFrom(["publickey:x"], 0, PUBLICKEY, None).found
  {
    hide ListStartsWith, UpdateFrom, RemoveMethod, ListValid;
    var list := "publickey:x";
    PartialOnly(list);
    FoundIff([list], 0, PUBLICKEY, None);
    SubmethodValid(cfg, list);
    assert cfg.lists[1..] == [];
  }

  lemma SubmethodValid(cfg: Config, list: string)
    requires list == "publickey:x" && PUBLICKEY in cfg.enabled
    ensures ListValid(cfg, true, list)
  {
    hide Tokens, NameOf, ColonAt;
    OneToken(list);
    ColonFree(PUBLICKEY, list);
  }

  lemma PartialOnly(list: string)
    requires list == "publickey:x"
    ensures ListStartsWith(list, PUBLICKEY, None) == MatchPartial && RemoveMethod(list, PUBLICKEY, None) == None
  {
  }

  lemma {:induction false} OneToken(s: string)
    requires ',' !in s
    ensures CommaAt(s) == |s| && Tokens(s) == [s]
  {
    if s != "" {
      OneToken(s[1..]);
    }
  }
}
