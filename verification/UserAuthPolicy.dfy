/**
 What a message must bring to count as a success, written out in terms of the configuration and
 the fields of the messages, and proved to be exactly what the state machine asks for.
 */
module UserAuthPolicy {
  import opened Options
  import opened AuthMethods
  import opened UserAuth
  import opened UserAuthProofs
  import opened UserAuthRuns

  // ---- the policy ----

  /** The method is known and switched on; "none" only until it has been tried. */
  predicate SwitchedOn(cfg: Config, noneLeft: bool, name: string) {
    || (name == "none" && noneLeft)
    || (name in {"publickey", "password", "keyboard-interactive", "hostbased"} && name in cfg.enabled)
  }

  /** A list that names only methods that are switched on. */
  predicate Usable(cfg: Config, list: string) {
    list != "" && forall t :: t in Tokens(list) ==> SwitchedOn(cfg, true, NameOf(t))
  }

  /** The list's first entry is the method, perhaps with a submethod. */
  predicate Starts(list: string, name: string) {
    Head(list) == name || name + ":" <= Head(list)
  }

  /** The request is in place: the first one finds a usable list, a later one keeps user and service. */
  predicate InPlace(cfg: Config, s: Auth, e: Event)
    requires e.Request?
  {
    if s.attempt == 0 then cfg.lists == [] || exists list :: list in cfg.lists && Usable(cfg, list)
    else e.user == s.user && e.service == s.service
  }

  predicate UserExists(s: Auth, e: Event)
    requires e.Request?
  {
    if s.attempt == 0 then e.userOk && e.service == "ssh-connection" else s.valid
  }

  predicate ByRoot(s: Auth, e: Event)
    requires e.Request?
  {
    if s.attempt == 0 then e.isRoot else s.isRoot
  }

  /** Some list that is left asks for the method next. */
  predicate AskedFor(cfg: Config, s: Auth, name: string) {
    || cfg.lists == []
    || if s.attempt == 0 then exists list :: list in cfg.lists && Usable(cfg, list) && Starts(list, name)
       else exists list :: list in s.lists && Starts(list, name)
  }

  /** The back end is convinced: a verified key not used before, or a plain yes. */
  predicate Convinces(s: Auth, e: Event)
    requires e.Request?
  {
    var a := e.attempt;
    if e.name == "publickey" then
      && a.Pubkey? && a.key.Some? && a.typeOk && a.haveSig && a.allowed && a.verified
      && forall i :: 0 <= i < |s.keys| ==> s.keys[i].public != a.key.value.public
    else e.name != "keyboard-interactive" && a.Verdict? && a.ok
  }

  /** PermitRootLogin. */
  predicate RootMay(root: RootPolicy, name: string, forced: bool) {
    && root != RootNo
    && (root == RootNoPasswd ==> name == "publickey" || name == "hostbased")
    && (root == RootForcedOnly ==> forced)
  }

  /** Everything but the root policy. */
  predicate WouldCount(cfg: Config, s: Auth, e: Event)
    requires e.Request?
  {
    && InPlace(cfg, s, e) && UserExists(s, e) && s.failures < cfg.maxTries
    && SwitchedOn(cfg, s.noneEnabled, e.name) && AskedFor(cfg, s, e.name) && Convinces(s, e)
  }

  predicate Counts(cfg: Config, s: Auth, e: Event)
    requires e.Request?
  {
    WouldCount(cfg, s, e) && (ByRoot(s, e) ==> RootMay(cfg.root, e.name, e.forced))
  }

  // ---- the state machine's tests ----

  lemma RootMayIs(cfg: Config, name: string, forced: bool)
    ensures RootAllowed(cfg, name, forced) <==> RootMay(cfg.root, name, forced)
  {
  }

  lemma SwitchedOnIs(cfg: Config, noneLeft: bool, name: string)
    ensures IsMethod(name) && Enabled(cfg, noneLeft, name) <==> SwitchedOn(cfg, noneLeft, name)
  {
  }

  lemma UsableIs(cfg: Config, list: string)
    ensures ListValid(cfg, true, list) <==> Usable(cfg, list)
  {
    hide SwitchedOn, IsMethod, Enabled, Tokens, NameOf;
    forall t
      ensures KnownEntry(cfg, true, t) <==> SwitchedOn(cfg, true, NameOf(t))
    {
      SwitchedOnIs(cfg, true, NameOf(t));
    }
  }

  lemma StartsIs(list: string, name: string)
    requires IsMethod(name)
    ensures ListStartsWith(list, name, None) != NoMatch <==> Starts(list, name)
  {
    MethodNames(name);
    hide IsMethod, Names, Head, ListStartsWith;
    StartsWithIsHeadMatch(list, name, None) by {
      NamesOfMethod(name);
    }
  }

  lemma NamesOfMethod(name: string)
    requires ',' !in name && ':' !in name
    ensures Names(name, None)
  {
  }

  lemma UsableLists(cfg: Config, list: string)
    ensures list in ValidLists(cfg, true, cfg.lists) <==> list in cfg.lists && Usable(cfg, list)
  {
    hide Usable, ListValid, ValidLists;
    ValidListsAre(cfg, true, cfg.lists, list);
    UsableIs(cfg, list);
  }

  lemma SomeUsable(cfg: Config)
    ensures ValidLists(cfg, true, cfg.lists) != [] <==> exists list :: list in cfg.lists && Usable(cfg, list)
  {
    hide Usable, ValidLists;
    var v := ValidLists(cfg, true, cfg.lists);
    if v != [] {
      UsableLists(cfg, v[0]);
    }
    if list :| list in cfg.lists && Usable(cfg, list) {
      UsableLists(cfg, list);
    }
  }

  /** What opening the request e in state s leaves. */
  predicate Opened(cfg: Config, s: Auth, e: Event, t: Auth)
    requires e.Request?
  {
    && (t.end == Running <==> InPlace(cfg, s, e))
    && t.valid == UserExists(s, e) && t.isRoot == ByRoot(s, e)
    && t.failures == s.failures && t.keys == s.keys && t.noneEnabled == s.noneEnabled && t.wins == s.wins
    && t.attempt == s.attempt + 1
    && t.lists == if s.attempt == 0 then ValidLists(cfg, true, cfg.lists) else s.lists
  }

  lemma OpenIs(cfg: Config, s: Auth, e: Event)
    requires Inv(cfg, s) && s.end == Running && e.Request?
    ensures Opened(cfg, s, e, Open(cfg, s, e))
  {
    NotYetStarted(cfg, s);
    hide Inv, ValidLists, Usable, Opened, Setup;
    if s.attempt == 0 {
      OpenFirst(cfg, e);
    } else {
      OpenLater(cfg, s, e);
    }
  }

  lemma OpenFirst(cfg: Config, e: Event)
    requires e.Request?
    ensures Opened(cfg, START, e, Setup(cfg, START, e))
  {
    hide ValidLists, Usable;
    SomeUsable(cfg);
  }

  lemma OpenLater(cfg: Config, s: Auth, e: Event)
    requires e.Request? && s.attempt > 0 && s.end == Running
    ensures Opened(cfg, s, e, Open(cfg, s, e))
  {
    hide ValidLists, Usable, Setup;
  }

  lemma NotYetStarted(cfg: Config, s: Auth)
    requires Inv(cfg, s)
    ensures s.attempt == 0 ==> s == START
  {
  }

  /** Looking up the method. */
  lemma LookupIs(cfg: Config, s: Auth, s2: Auth, name: string)
    requires s2.noneEnabled == s.noneEnabled && s2.lists == if s.attempt == 0 then ValidLists(cfg, true, cfg.lists) else s.lists
    ensures Lookup(cfg, s2, name) <==> SwitchedOn(cfg, s.noneEnabled, name) && AskedFor(cfg, s, name)
  {
    hide ValidLists, SwitchedOn, Enabled, IsMethod, Usable, Starts;
    SwitchedOnIs(cfg, s.noneEnabled, name);
    if IsMethod(name) && cfg.lists != [] {
      AllowedIs(cfg, s2.lists, name);
      if s.attempt == 0 {
        forall list
          ensures list in s2.lists <==> list in cfg.lists && Usable(cfg, list)
        {
          UsableLists(cfg, list);
        }
      }
    }
  }

  lemma AllowedIs(cfg: Config, lists: seq<string>, name: string)
    requires cfg.lists != [] && IsMethod(name)
    ensures Allowed(cfg, lists, name, None) <==> exists list :: list in lists && Starts(list, name)
  {
    hide Starts, ListStartsWith, IsMethod;
    forall list
      ensures ListStartsWith(list, name, None) != NoMatch <==> Starts(list, name)
    {
      StartsIs(list, name);
    }
  }

  /** Running the back end. */
  lemma TryIs(cfg: Config, s: Auth, e: Event, s2: Auth)
    requires e.Request? && s2.keys == s.keys && IsMethod(e.name)
    ensures Convinces(s, e) ==> Fits(e.name, e.attempt)
    ensures Fits(e.name, e.attempt) ==> (Try(cfg, s2, e.name, e.attempt).authenticated <==> Convinces(s, e) && s2.valid)
  {
    hide NextDevice, NewKbd;
  }

  lemma TryKeeps(cfg: Config, s: Auth, name: string, a: Attempt)
    ensures var t := Try(cfg, s, name, a).s;
      t.wins == s.wins && t.isRoot == s.isRoot && t.failures == s.failures && t.attempt == s.attempt && t.end == s.end && t.valid == s.valid
  {
    hide NextDevice, NewKbd, AlreadyUsed;
  }

  /** Finishing an attempt: what becomes of successes and of the failure count. */
  lemma FinishIs(cfg: Config, s: Auth, authenticated: bool, name: string, sub: Option<string>, forced: bool)
    requires s.end == Running && (authenticated ==> s.valid && !s.postponed)
    ensures var t := Finish(cfg, s, authenticated, name, sub, forced);
      if authenticated && (s.isRoot ==> RootMay(cfg.root, name, forced)) then
        t.wins == s.wins + [Win(name, sub, forced)] && t.failures == s.failures
      else
        t.wins == s.wins && t.failures == s.failures + if s.postponed || (s.attempt <= 1 && name == "none") then 0 else 1
  {
    RootMayIs(cfg, name, forced);
    hide Win1, Fail, RootAllowed, RootMay;
    WinAppends(cfg, s, Win(name, sub, forced));
    WinCount(cfg, s, Win(name, sub, forced));
    FailKeepsWins(cfg, s, false, name);
    FailCount(cfg, s, name);
  }

  lemma WinCount(cfg: Config, s: Auth, w: Win)
    ensures Win1(cfg, s, w).failures == s.failures
  {
    hide UpdateFrom;
  }

  lemma FailCount(cfg: Config, s: Auth, name: string)
    ensures Fail(cfg, s, false, name).failures == s.failures + if s.attempt <= 1 && name == "none" then 0 else 1
  {
  }

  // ---- requests ----

  /** The request is tried, but its fields are not what its method expects. */
  predicate Misfits(cfg: Config, s: Auth, e: Event)
    requires e.Request?
  {
    && s.failures < cfg.maxTries && SwitchedOn(cfg, s.noneEnabled, e.name) && AskedFor(cfg, s, e.name)
    && !Fits(e.name, e.attempt)
  }

  /** The request is tried, and the answer left to later: a key that would do is asked about, or a device asks. */
  predicate Postpones(cfg: Config, s: Auth, e: Event)
    requires e.Request?
  {
    && s.failures < cfg.maxTries && SwitchedOn(cfg, s.noneEnabled, e.name) && AskedFor(cfg, s, e.name)
    && Fits(e.name, e.attempt) && (KeyQuery(s, e) || DeviceAsks(cfg, s, e))
  }

  predicate KeyQuery(s: Auth, e: Event)
    requires e.Request?
  {
    var a := e.attempt;
    && a.Pubkey? && UserExists(s, e) && a.key.Some? && a.typeOk && !a.haveSig && a.allowed
    && forall i :: 0 <= i < |s.keys| ==> s.keys[i].public != a.key.value.public
  }

  predicate DeviceAsks(cfg: Config, s: Auth, e: Event)
    requires e.Request?
  {
    && e.attempt.Interactive? && cfg.challengeResponse && e.attempt.started
    && NextDevice(cfg, Open(cfg, s, e).lists, NewKbd(cfg, e.attempt.devs)).device.Some?
  }

  lemma TryPostpones(cfg: Config, s: Auth, e: Event, s2: Auth)
    requires e.Request? && s2.keys == s.keys && s2.valid == UserExists(s, e) && s2.lists == Open(cfg, s, e).lists && !s2.postponed
    requires Fits(e.name, e.attempt)
    ensures Try(cfg, s2, e.name, e.attempt).s.postponed <==> KeyQuery(s, e) || DeviceAsks(cfg, s, e)
  {
    hide NextDevice, Join, Open, UserExists;
  }

  /**
   A request is a success exactly if it counts. Otherwise it is a counted failure, unless it is
   out of place, does not fit its method, is postponed, or is a first "none".
   */
  lemma RequestDecided(cfg: Config, s: Auth, e: Event)
    requires ConfigOk(cfg) && Inv(cfg, s) && s.end == Running && e.Request?
    ensures var t := Step(cfg, s, e);
      if Counts(cfg, s, e) then t.wins == s.wins + [Win(e.name, None, e.forced)] && t.failures == s.failures
      else
        && t.wins == s.wins
        && t.failures == s.failures +
             if !InPlace(cfg, s, e) || Misfits(cfg, s, e) || Postpones(cfg, s, e) || (s.attempt == 0 && e.name == "none") then 0 else 1
  {
    hide Inv, Open, Finish, Try, ConfigOk, Fits, Convinces, KeyQuery, DeviceAsks, SwitchedOn, AskedFor, InPlace, UserExists, ByRoot, RootMay, Lookup, ValidLists, IsMethod;
    OpenOk(cfg, s, e);
    OpenIs(cfg, s, e);
    var s1 := Open(cfg, s, e);
    var s2 := Stop(s1).(postponed := false);
    if s1.end == Running {
      StopOk(cfg, s1, false);
      LookupIs(cfg, s, s2, e.name);
      FinishIs(cfg, s2, false, e.name, None, e.forced);
      if Lookup(cfg, s2, e.name) && s2.failures < cfg.maxTries {
        LookupMethod(cfg, s2, e.name);
        TryIs(cfg, s, e, s2);
        if Fits(e.name, e.attempt) {
          TryPostpones(cfg, s, e, s2);
          Tried(cfg, s2, e);
        }
      }
    }
  }

  lemma LookupMethod(cfg: Config, s: Auth, name: string)
    requires Lookup(cfg, s, name)
    ensures IsMethod(name)
  {
  }

  lemma Tried(cfg: Config, s: Auth, e: Event)
    requires Inv(cfg, s) && s.end == Running && s.attempt > 0 && !s.postponed && s.kbd.None?
    requires e.Request? && IsMethod(e.name) && Fits(e.name, e.attempt)
    ensures var r := Try(cfg, s, e.name, e.attempt); var t := Finish(cfg, r.s, r.authenticated, e.name, None, e.forced);
      if r.authenticated && (s.isRoot ==> RootMay(cfg.root, e.name, e.forced)) then
        t.wins == s.wins + [Win(e.name, None, e.forced)] && t.failures == s.failures
      else
        t.wins == s.wins && t.failures == s.failures + if r.s.postponed || (s.attempt <= 1 && e.name == "none") then 0 else 1
  {
    hide Inv, Finish, Try, Fits, RootMay, IsMethod;
    TryOk(cfg, s, e.name, e.attempt);
    TryKeeps(cfg, s, e.name, e.attempt);
    var r := Try(cfg, s, e.name, e.attempt);
    ReadyMeans(cfg, r.s, e.name);
    FinishIs(cfg, r.s, r.authenticated, e.name, None, e.forced);
  }

  lemma ReadyMeans(cfg: Config, s: Auth, name: string)
    ensures Ready(cfg, s, name, None) ==> s.valid && !s.postponed
  {
  }

  /** A request in place ends any pending question, unless it starts a device itself; and "none" is tried only once. */
  lemma RequestResets(cfg: Config, s: Auth, e: Event)
    requires Inv(cfg, s) && s.end == Running && e.Request? && InPlace(cfg, s, e)
    ensures var t := Step(cfg, s, e);
      && (t.handler ==> Postpones(cfg, s, e) && DeviceAsks(cfg, s, e))
      && (e.name == "none" && s.failures < cfg.maxTries && AskedFor(cfg, s, e.name) && Fits(e.name, e.attempt) ==> !t.noneEnabled)
  {
    hide Inv, Open, Finish, Try, Fits, SwitchedOn, AskedFor, InPlace, Lookup, ValidLists, IsMethod, DeviceAsks, KeyQuery;
    OpenIs(cfg, s, e);
    var s2 := Stop(Open(cfg, s, e)).(postponed := false);
    LookupIs(cfg, s, s2, e.name);
    FinishLeaves(cfg, s2, false, e.name, None, e.forced);
    if Lookup(cfg, s2, e.name) && s2.failures < cfg.maxTries && Fits(e.name, e.attempt) {
      TryLeaves(cfg, s, e, s2);
      var r := Try(cfg, s2, e.name, e.attempt);
      FinishLeaves(cfg, r.s, r.authenticated, e.name, None, e.forced);
    } else {
      NoneSwitched(cfg, s.noneEnabled);
    }
  }

  lemma NoneSwitched(cfg: Config, noneLeft: bool)
    ensures SwitchedOn(cfg, noneLeft, "none") <==> noneLeft
  {
    assert |"publickey"| != |"none"| && |"password"| != |"none"| && |"keyboard-interactive"| != |"none"| && |"hostbased"| != |"none"|;
  }

  lemma TryLeaves(cfg: Config, s: Auth, e: Event, s2: Auth)
    requires e.Request? && Fits(e.name, e.attempt) && s2.lists == Open(cfg, s, e).lists && !s2.handler
    ensures var r := Try(cfg, s2, e.name, e.attempt).s;
      (r.handler ==> DeviceAsks(cfg, s, e)) && (e.name == "none" ==> !r.noneEnabled)
  {
    hide NextDevice, Join, Open;
  }

  lemma FinishLeaves(cfg: Config, s: Auth, authenticated: bool, name: string, sub: Option<string>, forced: bool)
    ensures var t := Finish(cfg, s, authenticated, name, sub, forced); t.handler == s.handler && t.noneEnabled == s.noneEnabled
  {
    hide Win1, Fail, RootAllowed;
    WinLeaves(cfg, s, Win(name, sub, forced));
    FailLeaves(cfg, s, false, name);
  }

  lemma WinLeaves(cfg: Config, s: Auth, w: Win)
    ensures Win1(cfg, s, w).handler == s.handler && Win1(cfg, s, w).noneEnabled == s.noneEnabled
  {
    hide UpdateFrom, Fail;
    FailLeaves(cfg, s.(wins := s.wins + [w], lists := UpdateFrom(s.lists, 0, w.name, w.sub).lists), true, w.name);
  }

  lemma FailLeaves(cfg: Config, s: Auth, partial: bool, name: string)
    ensures Fail(cfg, s, partial, name).handler == s.handler && Fail(cfg, s, partial, name).noneEnabled == s.noneEnabled
  {
  }

  /** An attempt by root that the back end accepts is a success if the policy allows it, and else a counted failure. */
  lemma RootDecides(cfg: Config, s: Auth, e: Event)
    requires ConfigOk(cfg) && Inv(cfg, s) && s.end == Running && e.Request? && WouldCount(cfg, s, e) && ByRoot(s, e)
    ensures var t := Step(cfg, s, e);
      if RootMay(cfg.root, e.name, e.forced) then t.wins == s.wins + [Win(e.name, None, e.forced)]
      else t.wins == s.wins && t.failures == s.failures + if s.attempt == 0 && e.name == "none" then 0 else 1
  {
    RequestDecided(cfg, s, e);
    NotLater(cfg, s, e);
    hide Inv, ConfigOk, Step, RootMay, InPlace, UserExists, SwitchedOn, AskedFor, Convinces, ByRoot, Misfits, Postpones;
  }

  lemma NotLater(cfg: Config, s: Auth, e: Event)
    requires e.Request? && Convinces(s, e) && SwitchedOn(cfg, s.noneEnabled, e.name)
    ensures !Misfits(cfg, s, e) && !Postpones(cfg, s, e)
  {
    hide NextDevice, NewKbd, Open, AskedFor, UserExists;
  }

  // ---- choosing a device ----

  /** Device j may be started for this entry of the device string: the entry is a prefix of its name. */
  predicate Fitting(cfg: Config, lists: seq<string>, entry: string, done: set<nat>, j: nat)
    requires j < |cfg.devices|
  {
    && j !in done && |entry| <= |cfg.devices[j]| && cfg.devices[j][..|entry|] == entry
    && Allowed(cfg, lists, "keyboard-interactive", Some(cfg.devices[j]))
  }

  /** A pass over the table uses up every device that fits and takes the last of them. */
  lemma {:induction false} PickExact(cfg: Config, lists: seq<string>, devs: string, k: Kbd, i: nat)
    requires i <= |cfg.devices|
    ensures var r := PickFrom(cfg, lists, devs, k, i);
      && (forall j :: j in r.done <==> j in k.done || (i <= j < |cfg.devices| && Fitting(cfg, lists, Head(devs), k.done, j)))
      && (if exists j :: i <= j < |cfg.devices| && Fitting(cfg, lists, Head(devs), k.done, j) then
            r.device.Some? && LastFitting(cfg, lists, Head(devs), k.done, i, r.device.value)
          else r.device == k.device)
      && r.devices == k.devices && r.started == k.started
    decreases |cfg.devices| - i
  {
    hide Allowed;
    if i < |cfg.devices| {
      SelectsIs(devs, cfg.devices[i]);
      hide Selects;
      if Fitting(cfg, lists, Head(devs), k.done, i) {
        var k1 := k.(device := Some(i), done := k.done + {i});
        PickExact(cfg, lists, devs, k1, i + 1);
        assert forall j :: i < j < |cfg.devices| ==>
          (Fitting(cfg, lists, Head(devs), k1.done, j) <==> Fitting(cfg, lists, Head(devs), k.done, j));
      } else {
        PickExact(cfg, lists, devs, k, i + 1);
      }
    }
  }

  predicate LastFitting(cfg: Config, lists: seq<string>, entry: string, done: set<nat>, i: nat, d: nat) {
    && i <= d < |cfg.devices| && Fitting(cfg, lists, entry, done, d)
    && forall j :: d < j < |cfg.devices| ==> !Fitting(cfg, lists, entry, done, j)
  }

  lemma SelectsIs(devs: string, name: string)
    ensures Selects(devs, name) <==> |Head(devs)| <= |name| && name[..|Head(devs)|] == Head(devs)
  {
  }

  lemma {:induction false} CommaPrefix(b: string, y: string)
    requires CommaAt(b) < |b|
    ensures CommaAt(b + y) == CommaAt(b)
  {
    if b[0] != ',' {
      assert (b + y)[1..] == b[1..] + y;
      CommaPrefix(b[1..], y);
    }
  }

  lemma {:induction false} CommaEnds(b: string, y: string)
    requires CommaAt(b) == |b|
    ensures CommaAt(b + ("," + y)) == |b|
  {
    if b != "" {
      assert (b + ("," + y))[1..] == b[1..] + ("," + y);
      CommaEnds(b[1..], y);
    }
  }

  lemma {:induction false} Unfolded(s: string)
    ensures var n := CommaAt(s); Tokens(s) == if n == |s| then [s] else [s[..n]] + Tokens(s[n + 1..])
  {
    hide CommaAt;
  }

  lemma {:induction false} TokensSnoc(b: string, x: string)
    requires ',' !in x
    ensures Tokens(b + ("," + x)) == Tokens(b) + [x]
  {
    hide Tokens, CommaAt;
    var s, n := b + ("," + x), CommaAt(b);
    Unfolded(s);
    Unfolded(b);
    CutAt(b, x, n);
    if n == |b| {
      CommaEnds(b, x);
      OneToken(x);
    } else {
      CommaPrefix(b, "," + x);
      TokensSnoc(b[n + 1..], x);
      Regrouped(b[..n], Tokens(b[n + 1..]), x);
    }
  }

  lemma CutAt(b: string, x: string, n: nat)
    requires n <= |b|
    ensures var s := b + ("," + x);
      s[..n] == b[..n] && if n == |b| then s[n + 1..] == x && s[..n] == b else s[n + 1..] == b[n + 1..] + ("," + x)
  {
  }

  lemma Regrouped(h: string, ts: seq<string>, x: string)
    ensures [h] + (ts + [x]) == [h] + ts + [x]
  {
  }

  /** The string that names all devices has them as its entries, in order. */
  lemma {:induction false} JoinedEntries(names: seq<string>)
    requires names != [] && forall i :: 0 <= i < |names| ==> names[i] != "" && ',' !in names[i]
    ensures Tokens(Join(names)) == names && Join(names) != ""
  {
    hide Tokens;
    var n := |names| - 1;
    var b := Join(names[..n]);
    assert names == names[..n] + [names[n]];
    if n == 0 {
      assert names[..n] == [] && b == "" && "" + names[0] == names[0];
      OneToken(names[0]);
    } else {
      JoinedEntries(names[..n]);
      assert b + "," + names[n] == b + ("," + names[n]);
      TokensSnoc(b, names[n]);
    }
  }

  // ---- answers to a device ----

  /** The device that was asked says that the answer is right. */
  predicate AnsweredRight(cfg: Config, s: Auth, e: Event)
    requires e.InfoResponse?
  {
    Answering(cfg, s).Some? && e.nresp == s.kbd.value.nreq && e.nresp <= 100 && e.result == 0 && s.valid
  }

  /** A right answer is a success, unless root may not log in that way: then it is a counted failure. */
  lemma ResponseDecided(cfg: Config, s: Auth, e: Event)
    requires ConfigOk(cfg) && Inv(cfg, s) && s.end == Running && e.InfoResponse?
    ensures var t := Step(cfg, s, e);
      if AnsweredRight(cfg, s, e) && (s.isRoot ==> RootMay(cfg.root, "keyboard-interactive", e.forced)) then
        t.wins == s.wins + [Win("keyboard-interactive", Answering(cfg, s), e.forced)] && t.failures == s.failures
      else
        t.wins == s.wins && (AnsweredRight(cfg, s, e) ==> t.failures == s.failures + 1)
  {
    hide Inv, ConfigOk, Finish, Responded, RootMay;
    if s.handler {
      HandlerContext(cfg, s);
      var k := s.kbd.value;
      var s1 := s.(postponed := false);
      if e.nresp == k.nreq && e.nresp <= 100 {
        RespondedKeeps(cfg, s1, k, e);
        RespondedRight(cfg, s1, k, e);
        var dev := cfg.devices[k.device.value];
        FinishIs(cfg, Responded(cfg, s1, k, e), e.result == 0 && s.valid, KBDINT, Some(dev), e.forced);
        assert KBDINT != "none" by {
          assert |KBDINT| != |"none"|;
        }
      }
    }
  }

  lemma RespondedRight(cfg: Config, s: Auth, k: Kbd, e: Event)
    requires e.InfoResponse? && !s.postponed
    ensures var t := Responded(cfg, s, k, e);
      t.valid == s.valid && t.isRoot == s.isRoot && t.failures == s.failures && (e.result == 0 && s.valid ==> !t.postponed)
  {
    hide NextDevice;
  }

  // ---- runs ----

  /** The first request fixes who the user is, and no later one may say otherwise. */
  predicate Identified(events: seq<Event>, s: Auth, f: nat)
    requires f < |events| && events[f].Request?
  {
    && s.user == events[f].user && s.service == events[f].service && s.isRoot == events[f].isRoot
    && s.valid == (events[f].userOk && events[f].service == "ssh-connection")
    && forall i :: 0 <= i < f ==> events[i].InfoResponse?
  }

  lemma {:induction false} FirstRequest(cfg: Config, events: seq<Event>)
    requires Run(cfg, events).attempt > 0
    ensures exists f :: 0 <= f < |events| && events[f].Request? && Identified(events, Run(cfg, events), f)
  {
    hide Step, Identified;
    var n := |events| - 1;
    var s := Run(cfg, events[..n]);
    if s.attempt > 0 {
      FirstRequest(cfg, events[..n]);
      var f :| 0 <= f < n && events[..n][f].Request? && Identified(events[..n], s, f);
      SameUser(cfg, s, events[n]);
      IdentityKept(events, n, s, Step(cfg, s, events[n]), f);
    } else {
      NothingBefore(cfg, events[..n]);
      UserSet(cfg, s, events, n);
    }
  }

  lemma SameUser(cfg: Config, s: Auth, e: Event)
    requires s.attempt > 0
    ensures var t := Step(cfg, s, e);
      t.user == s.user && t.service == s.service && t.isRoot == s.isRoot && t.valid == s.valid && t.attempt > 0
  {
    hide OnRequest, OnInfoResponse;
    if s.end == Running {
      if e.Request? {
        RequestSameUser(cfg, s, e);
      } else {
        ResponseSameUser(cfg, s, e);
      }
    }
  }

  lemma RequestSameUser(cfg: Config, s: Auth, e: Event)
    requires s.attempt > 0 && e.Request?
    ensures var t := OnRequest(cfg, s, e);
      t.user == s.user && t.service == s.service && t.isRoot == s.isRoot && t.valid == s.valid && t.attempt > 0
  {
    hide Open, Attempted;
    OpenSameUser(cfg, s, e);
    AttemptedSameUser(cfg, Stop(Open(cfg, s, e)).(postponed := false), e);
  }

  lemma OpenSameUser(cfg: Config, s: Auth, e: Event)
    requires s.attempt > 0 && e.Request?
    ensures var t := Open(cfg, s, e);
      t.user == s.user && t.service == s.service && t.isRoot == s.isRoot && t.valid == s.valid && t.attempt > 0
  {
    hide Setup;
  }

  lemma AttemptedSameUser(cfg: Config, s: Auth, e: Event)
    requires e.Request?
    ensures Same(s, Attempted(cfg, s, e))
  {
    hide Finish, Try, Lookup, Fits;
    TrySameUser(cfg, s, e.name, e.attempt);
    var t := Try(cfg, s, e.name, e.attempt);
    FinishSameUser(cfg, t.s, t.authenticated, e.name, None, e.forced);
    FinishSameUser(cfg, s, false, e.name, None, e.forced);
  }

  lemma ResponseSameUser(cfg: Config, s: Auth, e: Event)
    requires e.InfoResponse?
    ensures Same(s, OnInfoResponse(cfg, s, e))
  {
    hide Finish, Responded;
    if Answering(cfg, s).Some? {
      var k := s.kbd.value;
      var s1 := s.(postponed := false);
      RespondedSameUser(cfg, s1, k, e);
      FinishSameUser(cfg, Responded(cfg, s1, k, e), e.result == 0 && s.valid, KBDINT, Answering(cfg, s), e.forced);
    }
  }

  /** The same user, in the same dialogue. */
  predicate Same(s: Auth, t: Auth) {
    t.user == s.user && t.service == s.service && t.isRoot == s.isRoot && t.valid == s.valid && t.attempt == s.attempt
  }

  lemma TrySameUser(cfg: Config, s: Auth, name: string, a: Attempt)
    ensures Same(s, Try(cfg, s, name, a).s)
  {
    hide NextDevice, NewKbd, AlreadyUsed;
  }

  lemma FinishSameUser(cfg: Config, s: Auth, authenticated: bool, name: string, sub: Option<string>, forced: bool)
    ensures Same(s, Finish(cfg, s, authenticated, name, sub, forced))
  {
    hide UpdateFrom, RootAllowed;
  }

  lemma RespondedSameUser(cfg: Config, s: Auth, k: Kbd, e: Event)
    requires e.InfoResponse?
    ensures Same(s, Responded(cfg, s, k, e))
  {
    hide NextDevice;
  }

  lemma IdentityKept(events: seq<Event>, n: nat, s: Auth, t: Auth, f: nat)
    requires n < |events| && f < n && events[f].Request? && Identified(events[..n], s, f)
    requires t.user == s.user && t.service == s.service && t.isRoot == s.isRoot && t.valid == s.valid
    ensures Identified(events, t, f)
  {
    assert forall i :: 0 <= i < n ==> events[..n][i] == events[i];
  }

  lemma {:induction false} NothingBefore(cfg: Config, events: seq<Event>)
    requires Run(cfg, events).attempt == 0
    ensures Run(cfg, events) == START && forall i :: 0 <= i < |events| ==> events[i].InfoResponse?
  {
    hide Step;
    if events != [] {
      var n := |events| - 1;
      var s := Run(cfg, events[..n]);
      if s.attempt > 0 {
        SameUser(cfg, s, events[n]);
        assert false;
      }
      NothingBefore(cfg, events[..n]);
      FirstStep(cfg, events[n]);
      assert forall i :: 0 <= i < n ==> events[i] == events[..n][i];
    }
  }

  /** From the start, an info response changes nothing and a request fixes the user. */
  lemma FirstStep(cfg: Config, e: Event)
    ensures var t := Step(cfg, START, e);
      if e.Request? then
        && t.user == e.user && t.service == e.service && t.isRoot == e.isRoot
        && t.valid == (e.userOk && e.service == "ssh-connection") && t.attempt == 1
      else t == START
  {
    hide Attempted, ValidLists;
    if e.Request? {
      AttemptedSameUser(cfg, Stop(Open(cfg, START, e)).(postponed := false), e);
    }
  }

  lemma UserSet(cfg: Config, s: Auth, events: seq<Event>, n: nat)
    requires n == |events| - 1 && s == START && Step(cfg, s, events[n]).attempt > 0
    requires forall i :: 0 <= i < n ==> events[..n][i].InfoResponse?
    ensures exists f :: 0 <= f < |events| && events[f].Request? && Identified(events, Step(cfg, s, events[n]), f)
  {
    hide Step;
    FirstStep(cfg, events[n]);
    assert forall i :: 0 <= i < n ==> events[i] == events[..n][i];
    assert Identified(events, Step(cfg, s, events[n]), n);
  }

  /**
   SSH_MSG_USERAUTH_SUCCESS, from the configuration and the messages alone. The user of the first
   request exists and asked for "ssh-connection". The last message is a request that counts or a
   right answer. If the user is root, PermitRootLogin is not "no"; with "prohibit-password" the last
   message is a publickey or hostbased request; with "forced-commands-only" a command is forced.
   */
  lemma SuccessPolicy(cfg: Config, events: seq<Event>)
    requires ConfigOk(cfg) && LastStep(cfg, events) && Run(cfg, events).end == Succeeded
    ensures exists f :: 0 <= f < |events| && events[f].Request? && events[f].userOk && events[f].service == "ssh-connection"
                        && Identified(events, Run(cfg, events), f)
    ensures var s, e := StateBefore(cfg, events, |events| - 1), events[|events| - 1];
      if e.Request? then Counts(cfg, s, e) else AnsweredRight(cfg, s, e)
    ensures Run(cfg, events).isRoot ==>
      var e := events[|events| - 1];
      && cfg.root != RootNo
      && (cfg.root == RootNoPasswd ==> e.Request? && (e.name == "publickey" || e.name == "hostbased"))
      && (cfg.root == RootForcedOnly ==> e.forced)
  {
    var n := |events| - 1;
    var s, e := Run(cfg, events[..n]), events[n];
    RunOk(cfg, events[..n]);
    RunOk(cfg, events);
    StepWins(cfg, s, e);
    LastWin(cfg, Run(cfg, events));
    SucceededStarted(cfg, events);
    FirstRequest(cfg, events);
    LastRoot(cfg, s, e);
    hide Run, Inv, Step, ConfigOk, Identified, WouldCount, AnsweredRight, ByRoot;
    if e.Request? {
      RequestDecided(cfg, s, e);
    } else {
      ResponseDecided(cfg, s, e);
      RootAnswers(cfg.root, e.forced);
    }
    var f :| 0 <= f < |events| && events[f].Request? && Identified(events, Run(cfg, events), f);
    assert events[f].userOk && events[f].service == "ssh-connection" by {
      IdentityMeans(events, Run(cfg, events), f);
    }
  }

  lemma IdentityMeans(events: seq<Event>, s: Auth, f: nat)
    requires f < |events| && events[f].Request? && Identified(events, s, f) && s.valid
    ensures events[f].userOk && events[f].service == "ssh-connection"
  {
  }

  lemma LastRoot(cfg: Config, s: Auth, e: Event)
    requires Inv(cfg, s)
    ensures Step(cfg, s, e).isRoot == if e.Request? && s.end == Running then ByRoot(s, e) else s.isRoot
  {
    NotYetStarted(cfg, s);
    hide Inv, Step;
    Unchanged(cfg, s, e);
    if s.attempt == 0 {
      FirstStep(cfg, e);
    } else {
      SameUser(cfg, s, e);
    }
  }

  lemma RootAnswers(root: RootPolicy, forced: bool)
    ensures RootMay(root, "keyboard-interactive", forced) ==>
      root != RootNo && root != RootNoPasswd && (root == RootForcedOnly ==> forced)
  {
    assert |"keyboard-interactive"| != |"publickey"| && |"keyboard-interactive"| != |"hostbased"|;
  }

  lemma SucceededStarted(cfg: Config, events: seq<Event>)
    requires Run(cfg, events).end == Succeeded
    ensures Run(cfg, events).attempt > 0
  {
    hide Run;
    if Run(cfg, events).attempt == 0 {
      NothingBefore(cfg, events);
    }
  }
}
