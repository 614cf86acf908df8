/**
 The other direction: authentication succeeds as soon as some list is an in-order
 subsequence of the successes. And which wrong answers are counted.
 */
module UserAuthComplete {
  import opened Options
  import opened AuthMethods
  import opened UserAuth
  import opened UserAuthProofs
  import opened UserAuthRuns

  // ---- ticking entries off greedily ----

  /** How many entries are ticked off if each success takes the next entry whenever it matches. */
  function Reach(ts: seq<string>, ws: seq<Win>): (n: nat)
    ensures n <= |ts|
  {
    if ws == [] then 0
    else
      var n := Reach(ts, ws[..|ws| - 1]);
      if n < |ts| && Matches(ts[n], ws[|ws| - 1]) then n + 1 else n
  }

  lemma {:induction false} ReachEmbeds(ts: seq<string>, ws: seq<Win>)
    ensures Embeds(ts[..Reach(ts, ws)], ws)
  {
    hide Matches, Embeds;
    if ws == [] {
      EmbedsNothing(ts[..0], ws);
    } else {
      var n := |ws| - 1;
      var r := Reach(ts, ws[..n]);
      ReachEmbeds(ts, ws[..n]);
      assert ws[..n] + [ws[n]] == ws;
      EmbedsSkip(ts[..r], ws[..n], ws[n]);
      if r < |ts| && Matches(ts[r], ws[n]) {
        EmbedsTake(ts[..r], ts[r], ws[..n], ws[n]);
        assert ts[..r] + [ts[r]] == ts[..r + 1];
      }
    }
  }

  lemma EmbedsNothing(ts: seq<string>, ws: seq<Win>)
    requires ts == []
    ensures Embeds(ts, ws)
  {
  }

  lemma EmbedsCases(ts: seq<string>, ws: seq<Win>)
    requires ts != [] && Embeds(ts, ws)
    ensures ws != []
    ensures (Matches(ts[|ts| - 1], ws[|ws| - 1]) && Embeds(ts[..|ts| - 1], ws[..|ws| - 1])) || Embeds(ts, ws[..|ws| - 1])
  {
    hide Matches;
  }

  /** No other choice of successes ticks off more. */
  lemma {:induction false} GreedyIsBest(ts: seq<string>, ws: seq<Win>, n: nat)
    requires n <= |ts| && Embeds(ts[..n], ws)
    ensures n <= Reach(ts, ws)
  {
    hide Matches, Embeds;
    if n > 0 {
      EmbedsCases(ts[..n], ws);
      var m := |ws| - 1;
      assert ts[..n][n - 1] == ts[n - 1] && ts[..n][..n - 1] == ts[..n - 1];
      if Embeds(ts[..n], ws[..m]) {
        GreedyIsBest(ts, ws[..m], n);
      } else {
        GreedyIsBest(ts, ws[..m], n - 1);
      }
    }
  }

  /** A list is a subsequence of the successes exactly if the greedy way gets through it. */
  lemma EmbedsIff(ts: seq<string>, ws: seq<Win>)
    ensures Embeds(ts, ws) <==> Reach(ts, ws) == |ts|
  {
    hide Embeds, Reach;
    ReachEmbeds(ts, ws);
    assert ts[..|ts|] == ts;
    if Embeds(ts, ws) {
      GreedyIsBest(ts, ws, |ts|);
    }
  }

  // ---- the lists follow the greedy way ----

  /** What is left of the list is what the greedy way has not ticked off. */
  predicate Follows(orig: string, list: string, ws: seq<Win>) {
    Reach(Tokens(orig), ws) + |Left(list)| == |Tokens(orig)|
  }

  predicate Greedy(lists: seq<string>, orig: seq<string>, wins: seq<Win>) {
    |lists| == |orig| && forall k :: 0 <= k < |orig| ==> Follows(orig[k], lists[k], wins)
  }

  lemma FollowsStep(orig: string, list: string, ws: seq<Win>, w: Win)
    requires Progress(orig, list, ws) && Follows(orig, list, ws) && NonEmptyTokens(orig) && list != "" && Names(w.name, w.sub)
    ensures var r := RemoveMethod(list, w.name, w.sub);
      Follows(orig, if r.Some? then r.value else list, ws + [w])
  {
    hide RemoveMethod, Tokens, Embeds, MatchToken, Removes, NonEmptyTokens, Suffix, Before, Reach;
    var ts, rest := Tokens(orig), Tokens(list);
    ReachSnoc(ts, ws, w);
    RemoveIsTail(list, w.name, w.sub);
    LastEntry(orig, list);
    SuffixHead(ts, rest);
    HeadIsFirst(list);
    var r := RemoveMethod(list, w.name, w.sub);
    if r.Some? {
      assert Left(r.value) == rest[1..];
    }
  }

  lemma ReachSnoc(ts: seq<string>, ws: seq<Win>, w: Win)
    ensures Reach(ts, ws + [w]) == Reach(ts, ws) + if Reach(ts, ws) < |ts| && Matches(ts[Reach(ts, ws)], w) then 1 else 0
  {
    hide Matches;
    assert (ws + [w])[..|ws|] == ws;
  }

  lemma SuffixHead(ts: seq<string>, rest: seq<string>)
    requires Suffix(ts, rest) && rest != []
    ensures |rest| <= |ts| && rest[0] == ts[|ts| - |rest|]
  {
  }

  lemma HeadIsFirst(list: string)
    ensures Tokens(list)[0] == Head(list)
  {
  }

  lemma UpdateFollows(cfg: Config, lists: seq<string>, orig: seq<string>, wins: seq<Win>, w: Win)
    requires ListsOk(cfg, lists, orig, wins) && Greedy(lists, orig, wins) && NoneEmpty(lists) && Names(w.name, w.sub)
    requires !UpdateFrom(lists, 0, w.name, w.sub).complete
    ensures Greedy(UpdateFrom(lists, 0, w.name, w.sub).lists, orig, wins + [w])
  {
    hide Progress, NonEmptyTokens, RemoveMethod, UpdateFrom, Tokens, Names, Follows;
    var u := UpdateFrom(lists, 0, w.name, w.sub);
    forall k | 0 <= k < |lists|
      ensures Follows(orig[k], u.lists[k], wins + [w])
    {
      FollowsStep(orig[k], lists[k], wins, w);
      UpdateFromFacts(lists, 0, w.name, w.sub, k);
    }
  }

  /** A list that the success completes is found complete by the update. */
  lemma UpdateCompletes(cfg: Config, lists: seq<string>, orig: seq<string>, wins: seq<Win>, w: Win, k: nat)
    requires ListsOk(cfg, lists, orig, wins) && Greedy(lists, orig, wins) && NoneEmpty(lists) && Names(w.name, w.sub)
    requires k < |orig| && Embeds(Tokens(orig[k]), wins + [w])
    ensures UpdateFrom(lists, 0, w.name, w.sub).complete && UpdateFrom(lists, 0, w.name, w.sub).found
  {
    hide Progress, NonEmptyTokens, RemoveMethod, UpdateFrom, Tokens, Names, Embeds, Reach, Left;
    var u := UpdateFrom(lists, 0, w.name, w.sub);
    EmbedsIff(Tokens(orig[k]), wins + [w]);
    FollowsStep(orig[k], lists[k], wins, w);
    UpdateFromFacts(lists, 0, w.name, w.sub, k);
    LeftNothing(lists[k]);
    var r := RemoveMethod(lists[k], w.name, w.sub);
    if r.Some? {
      LeftNothing(r.value);
    }
  }

  lemma LeftNothing(list: string)
    ensures |Left(list)| == 0 <==> list == ""
  {
  }

  // ---- runs ----

  ghost predicate Complete(cfg: Config, s: Auth) {
    s.end == Running ==>
      && Greedy(s.lists, s.orig, s.wins) && (cfg.lists == [] ==> s.wins == [])
      && (s.attempt > 0 ==> s.orig == ValidLists(cfg, true, cfg.lists))
  }

  /** Same lists and successes. */
  predicate SameLists(s: Auth, t: Auth) {
    t.lists == s.lists && t.orig == s.orig && t.wins == s.wins && (t.attempt > 0 ==> s.attempt > 0)
  }

  lemma FailKeeps(cfg: Config, s: Auth, partial: bool, name: string)
    ensures SameLists(s, Fail(cfg, s, partial, name)) && Fail(cfg, s, partial, name).failures >= s.failures
  {
  }

  lemma WinComplete(cfg: Config, s: Auth, w: Win)
    requires Inv(cfg, s) && s.end == Running && Complete(cfg, s) && Names(w.name, w.sub)
    ensures Complete(cfg, Win1(cfg, s, w))
  {
    hide ListsOk, KbdOk, WinsOk, KeysOk, TriesOk, ListDone, UpdateFrom, Fail, Greedy, Names, ValidLists;
    var u := UpdateFrom(s.lists, 0, w.name, w.sub);
    if cfg.lists != [] && u.found && !u.complete {
      UpdateFollows(cfg, s.lists, s.orig, s.wins, w);
      FailKeeps(cfg, s.(wins := s.wins + [w], lists := u.lists), true, w.name);
    }
  }

  lemma FinishComplete(cfg: Config, s: Auth, authenticated: bool, name: string, sub: Option<string>, forced: bool)
    requires Inv(cfg, s) && s.end == Running && Complete(cfg, s) && (authenticated ==> Names(name, sub))
    ensures Complete(cfg, Finish(cfg, s, authenticated, name, sub, forced))
  {
    hide Inv, Win1, Fail, RootAllowed, Greedy, ValidLists;
    FailKeeps(cfg, s, false, name);
    if authenticated {
      WinComplete(cfg, s, Win(name, sub, forced));
    }
  }

  lemma SameComplete(cfg: Config, s: Auth, t: Auth)
    requires Complete(cfg, s) && SameLists(s, t) && s.end == Running
    ensures Complete(cfg, t)
  {
    hide Greedy, ValidLists;
  }

  lemma TrySame(cfg: Config, s: Auth, name: string, a: Attempt)
    ensures SameLists(s, Try(cfg, s, name, a).s)
  {
    hide NextDevice, AlreadyUsed, NewKbd;
  }

  lemma {:induction false} FreshReach(ts: seq<string>)
    ensures Reach(ts, []) == 0
  {
  }

  lemma FreshFollows(cfg: Config, list: string)
    requires list in ValidLists(cfg, true, cfg.lists)
    ensures Follows(list, list, [])
  {
    hide Tokens;
    ValidListsAre(cfg, true, cfg.lists, list);
    FreshReach(Tokens(list));
  }

  lemma FirstComplete(cfg: Config, e: Event)
    requires e.Request?
    ensures Complete(cfg, Setup(cfg, START, e))
  {
    hide ValidLists, Follows;
    var lists := ValidLists(cfg, true, cfg.lists);
    forall k | 0 <= k < |lists|
      ensures Follows(lists[k], lists[k], [])
    {
      assert lists[k] in lists;
      FreshFollows(cfg, lists[k]);
    }
  }

  lemma OpenComplete(cfg: Config, s: Auth, e: Event)
    requires Inv(cfg, s) && s.end == Running && Complete(cfg, s) && e.Request?
    ensures Complete(cfg, Open(cfg, s, e))
  {
    hide Inv, Complete, Setup;
    if s.attempt == 0 {
      NotStarted(cfg, s);
      FirstComplete(cfg, e);
    } else {
      SameComplete(cfg, s, Open(cfg, s, e));
    }
  }

  lemma NotStarted(cfg: Config, s: Auth)
    requires Inv(cfg, s) && s.attempt == 0
    ensures s == START
  {
  }

  lemma RequestComplete(cfg: Config, s: Auth, e: Event)
    requires Inv(cfg, s) && s.end == Running && Complete(cfg, s) && ConfigOk(cfg) && e.Request?
    ensures Complete(cfg, OnRequest(cfg, s, e))
  {
    hide Inv, Finish, Try, Fits, Lookup, Open, ConfigOk, Complete, Ready, IsMethod;
    OpenOk(cfg, s, e);
    OpenComplete(cfg, s, e);
    var s1 := Open(cfg, s, e);
    if s1.end == Running {
      StopOk(cfg, s1, false);
      var s2 := Stop(s1).(postponed := false);
      SameComplete(cfg, s1, s2);
      SameComplete(cfg, s1, s2.(end := Disconnected));
      FinishComplete(cfg, s2, false, e.name, None, e.forced);
      if Lookup(cfg, s2, e.name) && Fits(e.name, e.attempt) {
        LookupMethod(cfg, s2, e.name);
        MethodNames(e.name);
        TryOk(cfg, s2, e.name, e.attempt);
        TrySame(cfg, s2, e.name, e.attempt);
        var t := Try(cfg, s2, e.name, e.attempt);
        SameComplete(cfg, s2, t.s);
        FinishComplete(cfg, t.s, t.authenticated, e.name, None, e.forced);
      }
    }
  }

  lemma ResponseComplete(cfg: Config, s: Auth, e: Event)
    requires Inv(cfg, s) && s.end == Running && Complete(cfg, s) && ConfigOk(cfg) && e.InfoResponse?
    ensures Complete(cfg, OnInfoResponse(cfg, s, e))
  {
    hide Inv, Finish, Responded, ConfigOk, Distinct, Complete, Ready, Names, SameLists;
    if s.handler {
      HandlerContext(cfg, s);
      KbdintNames(cfg, cfg.devices[s.kbd.value.device.value]);
      var k := s.kbd.value;
      var s1 := s.(postponed := false);
      StopOk(cfg, s, false);
      PostponedSame(s);
      SameComplete(cfg, s, s1);
      SameComplete(cfg, s, s1.(end := FatalReplies));
      RespondedOk(cfg, s1, e);
      RespondedSame(cfg, s1, k, e);
      var s2 := Responded(cfg, s1, k, e);
      SameComplete(cfg, s1, s2);
      FinishComplete(cfg, s2, e.result == 0 && s.valid, KBDINT, Some(cfg.devices[k.device.value]), e.forced);
    } else {
      StoppedSame(s);
      SameComplete(cfg, s, s.(end := Disconnected));
    }
  }

  lemma StoppedSame(s: Auth)
    ensures SameLists(s, s.(end := Disconnected))
  {
  }

  lemma PostponedSame(s: Auth)
    ensures SameLists(s, s.(postponed := false)) && SameLists(s, s.(postponed := false, end := FatalReplies))
  {
  }

  lemma KbdintNames(cfg: Config, dev: string)
    requires ConfigOk(cfg) && dev in cfg.devices
    ensures Names(KBDINT, Some(dev))
  {
  }

  lemma RespondedSame(cfg: Config, s: Auth, k: Kbd, e: Event)
    requires e.InfoResponse?
    ensures SameLists(s, Responded(cfg, s, k, e))
  {
    hide NextDevice;
  }

  lemma {:induction false} RunComplete(cfg: Config, events: seq<Event>)
    requires ConfigOk(cfg)
    ensures Complete(cfg, Run(cfg, events))
  {
    hide Inv, OnRequest, OnInfoResponse, ConfigOk, Greedy;
    if events == [] {
      StartComplete();
    } else {
      var n := |events| - 1;
      var s := Run(cfg, events[..n]);
      RunComplete(cfg, events[..n]);
      RunOk(cfg, events[..n]);
      if s.end == Running {
        if events[n].Request? {
          RequestComplete(cfg, s, events[n]);
        } else {
          ResponseComplete(cfg, s, events[n]);
        }
      }
    }
  }

  lemma StartComplete()
    ensures Greedy(START.lists, START.orig, START.wins)
  {
  }

  /** While the dialogue goes on, no list is a subsequence of the successes; without lists there are none. */
  lemma RunningMeansIncomplete(cfg: Config, events: seq<Event>, list: string)
    requires ConfigOk(cfg) && Run(cfg, events).end == Running
    ensures cfg.lists == [] ==> Run(cfg, events).wins == []
    ensures Run(cfg, events).attempt > 0 && list in ValidLists(cfg, true, cfg.lists) ==> !Embeds(Tokens(list), Run(cfg, events).wins)
  {
    RunComplete(cfg, events);
    RunOk(cfg, events);
    hide Run, Embeds, Reach, ValidLists;
    var s := Run(cfg, events);
    if s.attempt > 0 && list in s.orig {
      var k :| 0 <= k < |s.orig| && s.orig[k] == list;
      EmbedsIff(Tokens(list), s.wins);
      LeftNothing(s.lists[k]);
      assert Follows(s.orig[k], s.lists[k], s.wins);
    }
  }

  /** A success in a state whose lists follow the greedy way: it succeeds exactly if it completes a list. */
  lemma WinSucceedsIff(cfg: Config, s: Auth, w: Win)
    requires Inv(cfg, s) && s.end == Running && Complete(cfg, s) && s.attempt > 0 && Names(w.name, w.sub)
    ensures Win1(cfg, s, w).end == Succeeded <==> Completed(cfg, s.wins + [w])
  {
    hide ListsOk, KbdOk, WinsOk, KeysOk, TriesOk, UpdateFrom, Tokens, Names, Greedy, Fail, ValidLists, Embeds, EmbedsAtEnd, NoneEmpty;
    if cfg.lists != [] {
      FailEnds(cfg, s, w);
      if Completed(cfg, s.wins + [w]) {
        var list :| list in ValidLists(cfg, true, cfg.lists) && Embeds(Tokens(list), s.wins + [w]);
        var k :| 0 <= k < |s.orig| && s.orig[k] == list;
        UpdateCompletes(cfg, s.lists, s.orig, s.wins, w, k);
      }
      if UpdateFrom(s.lists, 0, w.name, w.sub).complete {
        WinLists(cfg, s.lists, s.orig, s.wins, w);
        DoneCompleted(cfg, s.orig, s.wins + [w]);
      }
    }
  }

  /** Some valid list is an in-order subsequence of the successes, or there are no lists. */
  predicate Completed(cfg: Config, wins: seq<Win>) {
    cfg.lists == [] || exists list :: list in ValidLists(cfg, true, cfg.lists) && Embeds(Tokens(list), wins)
  }

  lemma FailEnds(cfg: Config, s: Auth, w: Win)
    requires s.end == Running
    ensures var u := UpdateFrom(s.lists, 0, w.name, w.sub);
      Fail(cfg, s.(wins := s.wins + [w]).(lists := u.lists), true, w.name).end != Succeeded
  {
    hide UpdateFrom;
  }

  lemma DoneCompleted(cfg: Config, orig: seq<string>, wins: seq<Win>)
    requires ListDone(cfg, orig, wins) && cfg.lists != [] && orig == ValidLists(cfg, true, cfg.lists)
    ensures Completed(cfg, wins)
  {
    hide Matches, Tokens, ValidLists;
    var k :| 0 <= k < |orig| && EmbedsAtEnd(Tokens(orig[k]), wins);
    assert orig[k] in orig;
  }

  /** What a message makes of the successes, and the end it leads to. */
  ghost predicate Decides(cfg: Config, s: Auth, t: Auth) {
    |t.wins| > |s.wins| ==> (t.end == Succeeded <==> Completed(cfg, t.wins))
  }

  lemma FinishDecides(cfg: Config, s: Auth, authenticated: bool, name: string, sub: Option<string>, forced: bool)
    requires Inv(cfg, s) && s.end == Running && Complete(cfg, s) && s.attempt > 0 && (authenticated ==> Names(name, sub))
    ensures Decides(cfg, s, Finish(cfg, s, authenticated, name, sub, forced))
  {
    hide Inv, Win1, RootAllowed, Completed, Complete, Names;
    FailKeeps(cfg, s, false, name);
    if authenticated {
      WinSucceedsIff(cfg, s, Win(name, sub, forced));
      WinAppends(cfg, s, Win(name, sub, forced));
    }
    hide Fail;
  }

  lemma RequestDecides(cfg: Config, s: Auth, e: Event)
    requires Inv(cfg, s) && s.end == Running && Complete(cfg, s) && ConfigOk(cfg) && e.Request?
    ensures Decides(cfg, s, OnRequest(cfg, s, e))
  {
    hide Inv, Finish, Try, Fits, Lookup, Open, ConfigOk, Complete, Ready, IsMethod, Completed;
    OpenOk(cfg, s, e);
    OpenWins(cfg, s, e);
    OpenComplete(cfg, s, e);
    var s1 := Open(cfg, s, e);
    if s1.end == Running {
      StopOk(cfg, s1, false);
      var s2 := Stop(s1).(postponed := false);
      SameComplete(cfg, s1, s2);
      FinishDecides(cfg, s2, false, e.name, None, e.forced);
      if Lookup(cfg, s2, e.name) && Fits(e.name, e.attempt) {
        LookupMethod(cfg, s2, e.name);
        MethodNames(e.name);
        TryOk(cfg, s2, e.name, e.attempt);
        TrySame(cfg, s2, e.name, e.attempt);
        var t := Try(cfg, s2, e.name, e.attempt);
        SameComplete(cfg, s2, t.s);
        FinishDecides(cfg, t.s, t.authenticated, e.name, None, e.forced);
      }
    }
  }

  lemma ResponseDecides(cfg: Config, s: Auth, e: Event)
    requires Inv(cfg, s) && s.end == Running && Complete(cfg, s) && ConfigOk(cfg) && e.InfoResponse?
    ensures Decides(cfg, s, OnInfoResponse(cfg, s, e))
  {
    hide Inv, Finish, Responded, ConfigOk, Distinct, Complete, Ready, Names, SameLists, Completed;
    if s.handler {
      HandlerContext(cfg, s);
      KbdintNames(cfg, cfg.devices[s.kbd.value.device.value]);
      var k := s.kbd.value;
      var s1 := s.(postponed := false);
      StopOk(cfg, s, false);
      PostponedSame(s);
      SameComplete(cfg, s, s1);
      RespondedOk(cfg, s1, e);
      RespondedSame(cfg, s1, k, e);
      RespondedKeeps(cfg, s1, k, e);
      var s2 := Responded(cfg, s1, k, e);
      SameComplete(cfg, s1, s2);
      FinishDecides(cfg, s2, e.result == 0 && s.valid, KBDINT, Some(cfg.devices[k.device.value]), e.forced);
    }
  }

  /**
   A message that brings a success ends the dialogue with success exactly if, with it, some valid
   list is an in-order subsequence of all successes, or no lists are set.
   */
  lemma SuccessIff(cfg: Config, events: seq<Event>, e: Event)
    requires ConfigOk(cfg) && Run(cfg, events).end == Running
    requires |Step(cfg, Run(cfg, events), e).wins| > |Run(cfg, events).wins|
    ensures Step(cfg, Run(cfg, events), e).end == Succeeded <==> Completed(cfg, Step(cfg, Run(cfg, events), e).wins)
  {
    RunComplete(cfg, events);
    RunOk(cfg, events);
    hide Run, Inv, OnRequest, OnInfoResponse, ConfigOk, Complete, Completed;
    if e.Request? {
      RequestDecides(cfg, Run(cfg, events), e);
    } else {
      ResponseDecides(cfg, Run(cfg, events), e);
    }
  }

  // ---- which wrong answers are counted ----

  /** A wrong password. */
  predicate IsGuess(e: Event) {
    e.Request? && e.name == "password" && e.attempt == Verdict(false)
  }

  /** A wrong answer to the questions of a keyboard-interactive device. */
  predicate IsWrongReply(cfg: Config, s: Auth, e: Event) {
    && e.InfoResponse? && Answering(cfg, s).Some?
    && e.nresp == s.kbd.value.nreq && e.nresp <= 100 && e.result != 0 && e.result != 1
  }

  /** A wrong password or a wrong answer that is looked at. */
  predicate IsWrong(cfg: Config, s: Auth, e: Event) {
    s.end == Running && (IsGuess(e) || IsWrongReply(cfg, s, e))
  }

  /** The context has a further device, and it starts. */
  predicate NextStarts(cfg: Config, s: Auth, e: Event) {
    && e.InfoResponse? && s.kbd.Some? && e.nextStarted
    && NextDevice(cfg, s.lists, s.kbd.value.(device := None)).device.Some?
  }

  lemma GuessCounts(cfg: Config, s: Auth, e: Event)
    requires s.end == Running && IsGuess(e)
    ensures Step(cfg, s, e).end == Running ==> Step(cfg, s, e).failures == s.failures + 1
  {
    hide Lookup, Open, RootAllowed, Win1;
    OpenSameFailures(cfg, s, e);
    assert e.name != "none";
  }

  /** A wrong answer is counted exactly if no further device starts. */
  lemma WrongReplyCounts(cfg: Config, s: Auth, e: Event)
    requires s.end == Running && IsWrongReply(cfg, s, e)
    ensures Step(cfg, s, e).failures == s.failures + if NextStarts(cfg, s, e) then 0 else 1
  {
    var k := s.kbd.value;
    var s1 := s.(postponed := false);
    var s2 := Responded(cfg, s1, k, e);
    RepliedState(cfg, s1, k, e);
    hide Responded, Win1, RootAllowed, NextStarts;
    assert Step(cfg, s, e) == Finish(cfg, s2, false, KBDINT, Some(cfg.devices[k.device.value]), e.forced);
    KbdintIsNotNone();
  }

  lemma RepliedState(cfg: Config, s: Auth, k: Kbd, e: Event)
    requires e.InfoResponse? && e.result != 0 && e.result != 1 && s.kbd == Some(k) && !s.postponed
    ensures var t := Responded(cfg, s, k, e); t.postponed == NextStarts(cfg, s, e) && t.failures == s.failures && t.attempt == s.attempt
  {
    hide NextDevice;
  }

  lemma KbdintIsNotNone()
    ensures KBDINT != "none"
  {
    assert |KBDINT| != |"none"|;
  }

  lemma FinishGrows(cfg: Config, s: Auth, authenticated: bool, name: string, sub: Option<string>, forced: bool)
    ensures Finish(cfg, s, authenticated, name, sub, forced).failures >= s.failures
  {
    hide UpdateFrom, RootAllowed;
  }

  lemma FailuresGrow(cfg: Config, s: Auth, e: Event)
    ensures Step(cfg, s, e).failures >= s.failures
  {
    hide Finish, Try, Lookup, Fits, Open, Responded;
    if e.Request? {
      var s2 := Stop(Open(cfg, s, e)).(postponed := false);
      OpenSameFailures(cfg, s, e);
      TrySameFailures(cfg, s2, e.name, e.attempt);
      var t := Try(cfg, s2, e.name, e.attempt);
      FinishGrows(cfg, t.s, t.authenticated, e.name, None, e.forced);
      FinishGrows(cfg, s2, false, e.name, None, e.forced);
    } else if Answering(cfg, s).Some? {
      var k := s.kbd.value;
      var s1 := s.(postponed := false);
      RespondedSameFailures(cfg, s1, k, e);
      FinishGrows(cfg, Responded(cfg, s1, k, e), e.result == 0 && s.valid, KBDINT, Some(cfg.devices[k.device.value]), e.forced);
    }
  }

  lemma OpenSameFailures(cfg: Config, s: Auth, e: Event)
    requires e.Request?
    ensures Open(cfg, s, e).failures == s.failures
  {
    hide ValidLists, IsConnection;
  }

  lemma TrySameFailures(cfg: Config, s: Auth, name: string, a: Attempt)
    ensures Try(cfg, s, name, a).s.failures == s.failures
  {
    hide NextDevice, AlreadyUsed, NewKbd;
  }

  lemma RespondedSameFailures(cfg: Config, s: Auth, k: Kbd, e: Event)
    requires e.InfoResponse?
    ensures Responded(cfg, s, k, e).failures == s.failures
  {
    hide NextDevice;
  }

  /** All wrong answers looked at in a run. */
  function WrongAnswers(cfg: Config, events: seq<Event>): nat {
    if events == [] then 0
    else
      var n := |events| - 1;
      WrongAnswers(cfg, events[..n]) + if IsWrong(cfg, Run(cfg, events[..n]), events[n]) then 1 else 0
  }

  /** Those that no further device follows. */
  function FinalWrongAnswers(cfg: Config, events: seq<Event>): nat {
    if events == [] then 0
    else
      var n := |events| - 1;
      var s := Run(cfg, events[..n]);
      FinalWrongAnswers(cfg, events[..n]) + if IsWrong(cfg, s, events[n]) && !NextStarts(cfg, s, events[n]) then 1 else 0
  }

  lemma FinalCounts(cfg: Config, s: Auth, e: Event)
    requires IsWrong(cfg, s, e) && !NextStarts(cfg, s, e)
    ensures Step(cfg, s, e).end == Running ==> Step(cfg, s, e).failures == s.failures + 1
  {
    hide Step, IsGuess, IsWrongReply;
    if IsGuess(e) {
      GuessCounts(cfg, s, e);
    } else {
      WrongReplyCounts(cfg, s, e);
    }
  }

  lemma {:induction false} FinalsCounted(cfg: Config, events: seq<Event>)
    requires ConfigOk(cfg) && cfg.maxTries >= 1
    ensures FinalWrongAnswers(cfg, events) <= cfg.maxTries
    ensures Run(cfg, events).end == Running ==> FinalWrongAnswers(cfg, events) <= Run(cfg, events).failures
  {
    hide Step, ConfigOk, IsGuess, IsWrongReply, NextStarts;
    if events != [] {
      var n := |events| - 1;
      var s := Run(cfg, events[..n]);
      FinalsCounted(cfg, events[..n]);
      FailuresBounded(cfg, events[..n]);
      FailuresGrow(cfg, s, events[n]);
      Unchanged(cfg, s, events[n]);
      if IsWrong(cfg, s, events[n]) && !NextStarts(cfg, s, events[n]) {
        FinalCounts(cfg, s, events[n]);
      }
    }
  }

  /** No run gets more than MaxAuthTries wrong answers looked at that no further device follows. */
  lemma FinalsBounded(cfg: Config, events: seq<Event>)
    requires ConfigOk(cfg) && cfg.maxTries >= 1
    ensures FinalWrongAnswers(cfg, events) <= cfg.maxTries
  {
    FinalsCounted(cfg, events);
  }

  // ---- one device ----

  /** The lists admit two keyboard-interactive devices. */
  predicate TwoAllowed(cfg: Config, lists: seq<string>) {
    exists a, b :: 0 <= a < b < |cfg.devices| && DeviceAllowed(cfg, lists, a) && DeviceAllowed(cfg, lists, b)
  }

  predicate DeviceAllowed(cfg: Config, lists: seq<string>, d: nat)
    requires d < |cfg.devices|
  {
    Allowed(cfg, lists, KBDINT, Some(cfg.devices[d]))
  }

  /** Where only one device is admitted none is left once it has been asked. */
  lemma NoFurtherDevice(cfg: Config, s: Auth, e: Event)
    requires Inv(cfg, s) && !TwoAllowed(cfg, s.lists) && IsWrongReply(cfg, s, e)
    ensures !NextStarts(cfg, s, e)
  {
    HandlerContext(cfg, s);
    HandlerAllowed(cfg, s);
    var k := s.kbd.value.(device := None);
    NextChooses(cfg, s.lists, k);
    hide Inv, NextDevice, Allowed, Distinct, TwoAllowed;
    var d := NextDevice(cfg, s.lists, k).device;
    if d.Some? {
      BothAllowed(cfg, s.lists, s.kbd.value.device.value, d.value);
    }
  }

  lemma BothAllowed(cfg: Config, lists: seq<string>, a: nat, b: nat)
    requires a < |cfg.devices| && b < |cfg.devices| && a != b
    requires DeviceAllowed(cfg, lists, a) && DeviceAllowed(cfg, lists, b)
    ensures TwoAllowed(cfg, lists)
  {
    hide DeviceAllowed;
    if a < b {
      assert DeviceAllowed(cfg, lists, a) && DeviceAllowed(cfg, lists, b);
    } else {
      assert DeviceAllowed(cfg, lists, b) && DeviceAllowed(cfg, lists, a);
    }
  }

  /** Keyboard-interactive authentication is to be had. */
  predicate Interactively(cfg: Config) {
    KBDINT in cfg.enabled && cfg.challengeResponse
  }

  lemma NoContextStep(cfg: Config, s: Auth, e: Event)
    requires !Interactively(cfg) && s.kbd.None?
    ensures Step(cfg, s, e).kbd.None?
  {
    hide Finish, Open, Allowed, StartDevice;
    if e.Request? {
      KbdintIsNotNone();
      var s2 := Stop(Open(cfg, s, e)).(postponed := false);
      OpenSameContext(cfg, s, e);
      var t := Try(cfg, s2, e.name, e.attempt);
      FinishSameContext(cfg, t.s, t.authenticated, e.name, None, e.forced);
      FinishSameContext(cfg, s2, false, e.name, None, e.forced);
    }
  }

  lemma OpenSameContext(cfg: Config, s: Auth, e: Event)
    requires e.Request?
    ensures Open(cfg, s, e).kbd == s.kbd
  {
    hide ValidLists, IsConnection;
  }

  lemma FinishSameContext(cfg: Config, s: Auth, authenticated: bool, name: string, sub: Option<string>, forced: bool)
    ensures Finish(cfg, s, authenticated, name, sub, forced).kbd == s.kbd
  {
    hide UpdateFrom, RootAllowed;
  }

  lemma {:induction false} NeverAsked(cfg: Config, events: seq<Event>)
    requires !Interactively(cfg)
    ensures Run(cfg, events).kbd.None?
  {
    hide Step, Interactively;
    if events != [] {
      NeverAsked(cfg, events[..|events| - 1]);
      NoContextStep(cfg, Run(cfg, events[..|events| - 1]), events[|events| - 1]);
    }
  }

  /** In every state of the run while it goes on, at most one device is admitted. */
  ghost predicate OneAllowed(cfg: Config) {
    forall events :: Run(cfg, events).end == Running ==> !TwoAllowed(cfg, Run(cfg, events).lists)
  }

  lemma {:induction false} AllFinal(cfg: Config, events: seq<Event>)
    requires ConfigOk(cfg) && (!Interactively(cfg) || OneAllowed(cfg))
    ensures WrongAnswers(cfg, events) == FinalWrongAnswers(cfg, events)
  {
    hide Inv, Step, ConfigOk, IsGuess, IsWrongReply, NextStarts, Run, Interactively, TwoAllowed;
    if events != [] {
      var n := |events| - 1;
      var s := Run(cfg, events[..n]);
      AllFinal(cfg, events[..n]);
      RunOk(cfg, events[..n]);
      GuessIsFinal(cfg, s, events[n]);
      if IsWrong(cfg, s, events[n]) && IsWrongReply(cfg, s, events[n]) {
        if Interactively(cfg) {
          NoFurtherDevice(cfg, s, events[n]);
        } else {
          NeverAsked(cfg, events[..n]);
          ReplyNeedsContext(cfg, s, events[n]);
        }
      }
    }
  }

  lemma ReplyNeedsContext(cfg: Config, s: Auth, e: Event)
    ensures IsWrongReply(cfg, s, e) ==> s.kbd.Some?
  {
  }

  lemma GuessIsFinal(cfg: Config, s: Auth, e: Event)
    ensures IsGuess(e) ==> !NextStarts(cfg, s, e)
  {
  }

  // ---- two devices ----

  lemma {:induction false} PickDone(cfg: Config, lists: seq<string>, devs: string, k: Kbd, i: nat, d: nat)
    requires i <= |cfg.devices| && d in PickFrom(cfg, lists, devs, k, i).done
    ensures d in k.done || (d < |cfg.devices| && Selects(devs, cfg.devices[d]))
    decreases |cfg.devices| - i
  {
    hide Allowed, Selects;
    if i < |cfg.devices| {
      var taken := !(i in k.done || !Allowed(cfg, lists, KBDINT, Some(cfg.devices[i])) || !Selects(devs, cfg.devices[i]));
      PickDone(cfg, lists, devs, if taken then k.(device := Some(i), done := k.done + {i}) else k, i + 1, d);
    }
  }

  lemma {:induction false} PickStays(cfg: Config, lists: seq<string>, devs: string, k: Kbd, i: nat)
    requires i <= |cfg.devices| && k.device.Some?
    ensures PickFrom(cfg, lists, devs, k, i).device.Some?
    decreases |cfg.devices| - i
  {
    hide Allowed, Selects;
    if i < |cfg.devices| {
      PickStays(cfg, lists, devs, k, i + 1);
      PickStays(cfg, lists, devs, k.(device := Some(i), done := k.done + {i}), i + 1);
    }
  }

  /** A device that is selected, allowed and not used leads to some device being taken. */
  lemma {:induction false} PickFinds(cfg: Config, lists: seq<string>, devs: string, k: Kbd, i: nat, d: nat)
    requires i <= d < |cfg.devices| && d !in k.done
    requires Allowed(cfg, lists, KBDINT, Some(cfg.devices[d])) && Selects(devs, cfg.devices[d])
    ensures PickFrom(cfg, lists, devs, k, i).device.Some?
    decreases d - i
  {
    hide Allowed, Selects;
    if i == d {
      PickStays(cfg, lists, devs, k.(device := Some(i), done := k.done + {i}), i + 1);
    } else {
      var taken := !(i in k.done || !Allowed(cfg, lists, KBDINT, Some(cfg.devices[i])) || !Selects(devs, cfg.devices[i]));
      PickFinds(cfg, lists, devs, if taken then k.(device := Some(i), done := k.done + {i}) else k, i + 1, d);
    }
  }

  /** Two devices that the lists admit, the first with a name at least as long. */
  predicate TwoDevices(cfg: Config, lists: seq<string>, a: nat, b: nat) {
    && a < |cfg.devices| && b < |cfg.devices| && cfg.devices[a] != cfg.devices[b]
    && |cfg.devices[a]| >= |cfg.devices[b]| > 0
    && DeviceAllowed(cfg, lists, a) && DeviceAllowed(cfg, lists, b)
  }

  /** The device string that names them in that order. */
  function Named(cfg: Config, a: nat, b: nat): string
    requires a < |cfg.devices| && b < |cfg.devices|
  {
    cfg.devices[a] + "," + cfg.devices[b]
  }

  lemma {:induction false} CommaAfter(x: string, y: string)
    requires ',' !in x
    ensures CommaAt(x + "," + y) == |x|
  {
    if x != "" {
      CommaAfter(x[1..], y);
      assert (x + "," + y)[1..] == x[1..] + "," + y;
    }
  }

  /** The first search takes a device and leaves b; the string left names b. */
  lemma FirstDevice(cfg: Config, lists: seq<string>, a: nat, b: nat)
    requires ConfigOk(cfg) && TwoDevices(cfg, lists, a, b)
    ensures var k := NextDevice(cfg, lists, NewKbd(cfg, Named(cfg, a, b)));
      k.device.Some? && k.device.value < |cfg.devices| && b !in k.done && k.devices == Some(cfg.devices[b])
  {
    var x, y := cfg.devices[a], cfg.devices[b];
    var devs := Named(cfg, a, b);
    var k := NewKbd(cfg, devs);
    CommaAfter(x, y);
    assert devs[..|x|] == x && devs[|x| + 1..] == y;
    hide Allowed;
    PickFinds(cfg, lists, devs, k, 0, a);
    PickChooses(cfg, lists, devs, k, 0);
    var p := PickFrom(cfg, lists, devs, k, 0);
    assert x <= y ==> x == y;
    if b in p.done {
      PickDone(cfg, lists, devs, k, 0, b);
      assert false;
    }
    hide PickFrom;
  }

  /** The second search finds a device too. */
  lemma SecondDevice(cfg: Config, lists: seq<string>, b: nat, k: Kbd)
    requires ConfigOk(cfg) && b < |cfg.devices| && cfg.devices[b] != "" && DeviceAllowed(cfg, lists, b)
    requires b !in k.done && k.devices == Some(cfg.devices[b]) && k.device.None?
    ensures NextDevice(cfg, lists, k).device.Some?
  {
    var y := cfg.devices[b];
    OneToken(y);
    assert y[..|y|] == y;
    hide Allowed;
    PickFinds(cfg, lists, y, k, 0, b);
    hide PickFrom;
  }

  /** A device that is admitted makes its method admitted. */
  lemma DeviceAdmitsMethod(cfg: Config, lists: seq<string>, d: nat)
    requires d < |cfg.devices| && DeviceAllowed(cfg, lists, d)
    ensures Allowed(cfg, lists, KBDINT, None)
  {
    if cfg.lists != [] {
      var i :| 0 <= i < |lists| && ListStartsWith(lists[i], KBDINT, Some(cfg.devices[d])) != NoMatch;
      assert ListStartsWith(lists[i], KBDINT, None) != NoMatch;
    }
  }

  /** A request for both devices, of the user and service that are set, or else of any. */
  function Ask(cfg: Config, s: Auth, a: nat, b: nat): Event
    requires a < |cfg.devices| && b < |cfg.devices|
  {
    Request(s.user, if s.attempt == 0 then "ssh-connection" else s.service, KBDINT,
            Interactive(Named(cfg, a, b), true, 1), true, false, false)
  }

  const WRONG: Event := InfoResponse(1, 2, false, true, 1, false)

  /** The dialogue goes on with the same user, service, lists and failure count. */
  predicate GoesOn(s0: Auth, s: Auth) {
    && s.end == Running && s.failures == s0.failures && s.lists == s0.lists
    && s.user == s0.user && (s == s0 || (s.attempt > 0 && s.service == if s0.attempt == 0 then "ssh-connection" else s0.service))
  }

  /** A device has asked one question and b is still to come. */
  predicate Asked(cfg: Config, s: Auth, b: nat) {
    && s.handler && s.kbd.Some? && s.kbd.value.nreq == 1
    && s.kbd.value.device.Some? && s.kbd.value.device.value < |cfg.devices|
    && b < |cfg.devices| && b !in s.kbd.value.done && s.kbd.value.devices == Some(cfg.devices[b])
  }

  lemma AskOpens(cfg: Config, s0: Auth, s: Auth, a: nat, b: nat)
    requires GoesOn(s0, s) && (s.attempt == 0 ==> s == START && cfg.lists == []) && a < |cfg.devices| && b < |cfg.devices|
    ensures var t := Open(cfg, s, Ask(cfg, s0, a, b)); GoesOn(s0, t) && t.attempt > 0
  {
    hide Named;
  }

  lemma AskStarts(cfg: Config, s0: Auth, s: Auth, a: nat, b: nat)
    requires ConfigOk(cfg) && TwoDevices(cfg, s0.lists, a, b) && Interactively(cfg) && s0.failures < cfg.maxTries
    requires GoesOn(s0, s) && (s.attempt == 0 ==> s == START && cfg.lists == [])
    ensures var t := Step(cfg, s, Ask(cfg, s0, a, b)); GoesOn(s0, t) && t.attempt > 0 && Asked(cfg, t, b)
  {
    var e := Ask(cfg, s0, a, b);
    FirstDevice(cfg, s0.lists, a, b);
    AskOpens(cfg, s0, s, a, b);
    DeviceAdmitsMethod(cfg, s0.lists, a);
    KbdintIsNotNone();
    hide NextDevice, NewKbd, Named, Open, ConfigOk, Allowed, DeviceAllowed, Finish;
    var s2 := Stop(Open(cfg, s, e)).(postponed := false);
    assert Lookup(cfg, s2, KBDINT) && Fits(KBDINT, e.attempt);
    var t := Try(cfg, s2, KBDINT, e.attempt);
    assert t.s.postponed && !t.authenticated;
    assert Step(cfg, s, e) == Finish(cfg, t.s, false, KBDINT, None, false);
    FinishPostponed(cfg, t.s, KBDINT, None, false);
  }

  lemma FinishPostponed(cfg: Config, s: Auth, name: string, sub: Option<string>, forced: bool)
    requires s.postponed
    ensures Finish(cfg, s, false, name, sub, forced) == s
  {
  }

  /** A wrong answer while a further device is left goes uncounted, and the dialogue goes on. */
  lemma WrongGoesOn(cfg: Config, s0: Auth, s: Auth, a: nat, b: nat)
    requires ConfigOk(cfg) && TwoDevices(cfg, s0.lists, a, b) && GoesOn(s0, s) && s.attempt > 0 && Asked(cfg, s, b)
    ensures var t := Step(cfg, s, WRONG); IsWrongReply(cfg, s, WRONG) && GoesOn(s0, t) && t.attempt > 0
  {
    SecondDevice(cfg, s.lists, b, s.kbd.value.(device := None));
    hide NextDevice, ConfigOk, Finish, DeviceAllowed;
    var s1 := s.(postponed := false);
    var t := Responded(cfg, s1, s.kbd.value, WRONG);
    assert t.postponed;
    assert Step(cfg, s, WRONG) == Finish(cfg, t, false, KBDINT, Answering(cfg, s), false);
    FinishPostponed(cfg, t, KBDINT, Answering(cfg, s), false);
  }

  /** n rounds of asking and answering wrong. */
  function Rounds(ask: Event, n: nat): seq<Event> {
    if n == 0 then [] else Rounds(ask, n - 1) + [ask, WRONG]
  }

  lemma OneMore(cfg: Config, events: seq<Event>, e: Event)
    ensures Run(cfg, events + [e]) == Step(cfg, Run(cfg, events), e)
    ensures WrongAnswers(cfg, events + [e]) == WrongAnswers(cfg, events) + if IsWrong(cfg, Run(cfg, events), e) then 1 else 0
  {
    hide Step, IsWrong;
    assert (events + [e])[..|events|] == events;
  }

  /** One round: one more wrong answer, and the dialogue goes on. */
  lemma OneRound(cfg: Config, s0: Auth, before: seq<Event>, a: nat, b: nat)
    requires ConfigOk(cfg) && TwoDevices(cfg, s0.lists, a, b) && Interactively(cfg) && s0.failures < cfg.maxTries
    requires var s := Run(cfg, before); GoesOn(s0, s) && (s.attempt == 0 ==> s == START && cfg.lists == [])
    ensures var all := before + [Ask(cfg, s0, a, b)] + [WRONG];
      && GoesOn(s0, Run(cfg, all)) && Run(cfg, all).attempt > 0 && WrongAnswers(cfg, all) == WrongAnswers(cfg, before) + 1
  {
    var ask := Ask(cfg, s0, a, b);
    hide *;
    AskStarts(cfg, s0, Run(cfg, before), a, b);
    AskIsNotWrong(cfg, s0, a, b, Run(cfg, before));
    OneMore(cfg, before, ask);
    WrongGoesOn(cfg, s0, Run(cfg, before + [ask]), a, b);
    RunningWrong(cfg, s0, Run(cfg, before + [ask]));
    OneMore(cfg, before + [ask], WRONG);
  }

  lemma RoundsStep(ask: Event, events: seq<Event>, n: nat)
    ensures Rounds(ask, 0) == [] && events + Rounds(ask, 0) == events
    ensures n > 0 ==> events + Rounds(ask, n) == events + Rounds(ask, n - 1) + [ask] + [WRONG]
  {
  }

  /** After `more` there are n more wrong answers, none of them counted, and the dialogue goes on. */
  predicate Uncounted(cfg: Config, events: seq<Event>, more: seq<Event>, n: nat) {
    var s, t := Run(cfg, events), Run(cfg, events + more);
    GoesOn(s, t) && (n > 0 ==> t.attempt > 0) && WrongAnswers(cfg, events + more) == WrongAnswers(cfg, events) + n
  }

  lemma UncountedMeans(cfg: Config, events: seq<Event>, more: seq<Event>, n: nat)
    ensures Uncounted(cfg, events, more, n) <==>
      && GoesOn(Run(cfg, events), Run(cfg, events + more)) && (n > 0 ==> Run(cfg, events + more).attempt > 0)
      && WrongAnswers(cfg, events + more) == WrongAnswers(cfg, events) + n
  {
    hide GoesOn, Run, WrongAnswers;
  }

  /** After any run that goes on and admits two devices: n more wrong answers, none counted, for every n. */
  lemma {:induction false} RoundsUncounted(cfg: Config, events: seq<Event>, a: nat, b: nat, n: nat)
    requires ConfigOk(cfg) && Interactively(cfg) && cfg.maxTries >= 1
    requires Run(cfg, events).end == Running && TwoDevices(cfg, Run(cfg, events).lists, a, b)
    ensures Uncounted(cfg, events, Rounds(Ask(cfg, Run(cfg, events), a, b), n), n)
  {
    hide *;
    RunFacts(cfg, events, a, b);
    var s0 := Run(cfg, events);
    var ask := Ask(cfg, s0, a, b);
    RoundsStep(ask, events, n);
    UncountedMeans(cfg, events, Rounds(ask, n), n);
    if n == 0 {
      StaysOn(s0);
    } else {
      var before := events + Rounds(ask, n - 1);
      RoundsUncounted(cfg, events, a, b, n - 1);
      UncountedMeans(cfg, events, Rounds(ask, n - 1), n - 1);
      StartedOrNot(cfg, s0, Run(cfg, before), n - 1);
      OneRound(cfg, s0, before, a, b);
    }
  }

  lemma RunningWrong(cfg: Config, s0: Auth, s: Auth)
    requires GoesOn(s0, s) && IsWrongReply(cfg, s, WRONG)
    ensures IsWrong(cfg, s, WRONG)
  {
  }

  lemma StaysOn(s: Auth)
    requires s.end == Running
    ensures GoesOn(s, s)
  {
  }

  lemma StartedOrNot(cfg: Config, s0: Auth, s: Auth, n: nat)
    requires GoesOn(s0, s) && (n > 0 ==> s.attempt > 0) && (s0.attempt == 0 ==> s0 == START && cfg.lists == [])
    ensures s.attempt == 0 ==> s == START && cfg.lists == []
  {
  }

  lemma RunFacts(cfg: Config, events: seq<Event>, a: nat, b: nat)
    requires ConfigOk(cfg) && Run(cfg, events).end == Running && cfg.maxTries >= 1 && TwoDevices(cfg, Run(cfg, events).lists, a, b)
    ensures Run(cfg, events).failures < cfg.maxTries
    ensures Run(cfg, events).attempt == 0 ==> Run(cfg, events) == START && cfg.lists == []
    ensures a < |cfg.devices| && b < |cfg.devices|
  {
    RunOk(cfg, events);
    FailuresBounded(cfg, events);
    hide Run;
    var s := Run(cfg, events);
    if s.attempt == 0 {
      NotStarted(cfg, s);
    }
  }

  lemma AskIsNotWrong(cfg: Config, s0: Auth, a: nat, b: nat, s: Auth)
    requires a < |cfg.devices| && b < |cfg.devices|
    ensures !IsWrong(cfg, s, Ask(cfg, s0, a, b))
  {
    assert |KBDINT| != |"password"|;
  }

  // ---- the exact condition ----

  /** Device names are distinct and not empty. */
  predicate NamesOk(cfg: Config) {
    && (forall i :: 0 <= i < |cfg.devices| ==> cfg.devices[i] != "")
    && (forall i, j :: 0 <= i < j < |cfg.devices| ==> cfg.devices[i] != cfg.devices[j])
  }

  lemma OrderedPair(cfg: Config, lists: seq<string>) returns (a: nat, b: nat)
    requires NamesOk(cfg) && TwoAllowed(cfg, lists)
    ensures TwoDevices(cfg, lists, a, b)
  {
    var i, j :| 0 <= i < j < |cfg.devices| && DeviceAllowed(cfg, lists, i) && DeviceAllowed(cfg, lists, j);
    if |cfg.devices[i]| >= |cfg.devices[j]| {
      a, b := i, j;
    } else {
      a, b := j, i;
    }
    hide DeviceAllowed;
  }

  /**
   Every run has at most MaxAuthTries wrong answers looked at exactly if keyboard-interactive
   authentication is not to be had or never two of its devices are admitted.
   */
  lemma WrongAnswersBoundedIff(cfg: Config)
    requires ConfigOk(cfg) && NamesOk(cfg) && cfg.maxTries >= 1
    ensures (forall events :: WrongAnswers(cfg, events) <= cfg.maxTries) <==> !Interactively(cfg) || OneAllowed(cfg)
  {
    hide ConfigOk, WrongAnswers, Run, Interactively, TwoAllowed, NamesOk, Ask, Rounds, TwoDevices, GoesOn;
    if !Interactively(cfg) || OneAllowed(cfg) {
      forall events
        ensures WrongAnswers(cfg, events) <= cfg.maxTries
      {
        AllFinal(cfg, events);
        FinalsBounded(cfg, events);
      }
    } else {
      var events :| Run(cfg, events).end == Running && TwoAllowed(cfg, Run(cfg, events).lists);
      var a, b := OrderedPair(cfg, Run(cfg, events).lists);
      RunFacts(cfg, events, a, b);
      RoundsUncounted(cfg, events, a, b, cfg.maxTries + 1);
      assert WrongAnswers(cfg, events + Rounds(Ask(cfg, Run(cfg, events), a, b), cfg.maxTries + 1)) > cfg.maxTries;
    }
  }

  /** With at most one device that is so, whatever the lists; without lists only then. */
  lemma OneDeviceIff(cfg: Config)
    ensures |cfg.devices| <= 1 ==> OneAllowed(cfg)
    ensures cfg.lists == [] ==> (OneAllowed(cfg) <==> |cfg.devices| <= 1)
  {
    if |cfg.devices| <= 1 {
      forall events | Run(cfg, events).end == Running
        ensures !TwoAllowed(cfg, Run(cfg, events).lists)
      {
      }
    } else if cfg.lists == [] {
      assert Run(cfg, []) == START;
      assert DeviceAllowed(cfg, START.lists, 0) && DeviceAllowed(cfg, START.lists, 1);
      assert TwoAllowed(cfg, START.lists);
    }
  }

  /** So with at most one device no run has more than MaxAuthTries wrong answers looked at. */
  lemma WrongAnswersBounded(cfg: Config, events: seq<Event>)
    requires ConfigOk(cfg) && cfg.maxTries >= 1 && |cfg.devices| <= 1
    ensures WrongAnswers(cfg, events) <= cfg.maxTries
  {
    hide ConfigOk, WrongAnswers, OneAllowed;
    OneDeviceIff(cfg);
    AllFinal(cfg, events);
    FinalsBounded(cfg, events);
  }
}
