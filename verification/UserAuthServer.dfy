/** The server's authentication context as it is updated in place, against the state machine. */
module UserAuthServer {
  import opened Options
  import opened AuthMethods
  import opened UserAuth

  const METHODS: seq<string> := ["none", PUBLICKEY, "password", KBDINT, "hostbased"]

  // ---- strings ----

  /** One list checked entry by entry, as strsep takes it apart. */
  method MethodsValid(cfg: Config, noneEnabled: bool, list: string) returns (ok: bool)
    ensures ok <==> ListValid(cfg, noneEnabled, list)
  {
    hide Tokens, KnownEntry, CommaAt, ColonAt, IsMethod, Enabled, NameOf;
    if list == "" {
      return false;
    }
    var rest := Some(list);
    ghost var seen: seq<string> := [];
    while rest.Some?
      invariant rest.Some? ==> seen + Tokens(rest.value) == Tokens(list)
      invariant rest.None? ==> seen == Tokens(list)
      invariant forall t :: t in seen ==> KnownEntry(cfg, noneEnabled, t)
      decreases if rest.Some? then |rest.value| + 1 else 0
    {
      var s := rest.value;
      var n := CommaAt(s);
      TokensStep(s);
      assert Tokens(s)[0] == Head(s) == s[..n];
      assert Tokens(list) == seen + [s[..n]] + Tokens(s)[1..];
      seen := seen + [s[..n]];
      var known := EntryKnown(cfg, noneEnabled, s[..n]);
      if !known {
        assert s[..n] in Tokens(list);
        return false;
      }
      rest := if n < |s| then Some(s[n + 1..]) else None;
    }
    ok := true;
  }

  /** An entry without its submethod, looked up in the method table. */
  method EntryKnown(cfg: Config, noneEnabled: bool, t: string) returns (known: bool)
    ensures known <==> KnownEntry(cfg, noneEnabled, t)
  {
    known := MethodKnown(cfg, noneEnabled, t[..ColonAt(t)]);
  }

  /** The method table searched for an enabled method. */
  method MethodKnown(cfg: Config, noneEnabled: bool, name: string) returns (found: bool)
    ensures found <==> IsMethod(name) && Enabled(cfg, noneEnabled, name)
  {
    hide Enabled;
    TableHolds(name);
    for i := 0 to |METHODS|
      invariant name !in METHODS[..i]
    {
      if METHODS[i] == name {
        return Enabled(cfg, noneEnabled, name);
      }
    }
    assert METHODS[..|METHODS|] == METHODS;
    found := false;
  }

  lemma TableHolds(name: string)
    ensures IsMethod(name) <==> name in METHODS
  {
  }

  // ---- the keyboard-interactive context ----

  class KbdintContext {
    var devices: Option<string>
    var device: Option<nat>
    var done: set<nat>
    var nreq: nat
    ghost var started: seq<nat>

    ghost function Value(): Kbd
      reads this
    {
      Kbd(devices, device, done, nreq, started)
    }

    constructor (cfg: Config, devs: string)
      ensures Value() == NewKbd(cfg, devs)
    {
      devices, device, done, nreq, started := None, None, {}, 0, [];
      new;
      if devs == "" {
        var b := "";
        for i := 0 to |cfg.devices|
          invariant b == Join(cfg.devices[..i])
        {
          assert cfg.devices[..i + 1][..i] == cfg.devices[..i];
          if |b| > 0 {
            b := b + ",";
          }
          b := b + cfg.devices[i];
        }
        assert cfg.devices[..|cfg.devices|] == cfg.devices;
        devices := Some(b);
      } else {
        devices := Some(devs);
      }
    }

    /** One pass over the device table. */
    method Pick(cfg: Config, lists: seq<string>, devs: string)
      modifies this
      ensures Value() == PickFrom(cfg, lists, devs, old(Value()), 0)
    {
      hide Allowed;
      for i := 0 to |cfg.devices|
        invariant PickFrom(cfg, lists, devs, Value(), i) == PickFrom(cfg, lists, devs, old(Value()), 0)
      {
        var allowed := IsAllowed(cfg, lists, KBDINT, Some(cfg.devices[i]));
        if i !in done && allowed && devs[..CommaAt(devs)] <= cfg.devices[i] {
          device := Some(i);
          done := done + {i};
        }
      }
    }

    /** kbdint_next_device */
    method NextDevice(cfg: Config, lists: seq<string>) returns (ok: bool)
      modifies this
      ensures Value() == UserAuth.NextDevice(cfg, lists, old(Value()).(device := None))
      ensures ok == device.Some?
    {
      hide PickFrom, CommaAt;
      device := None;
      var looking := true;
      while looking
        invariant !looking ==> Value() == UserAuth.NextDevice(cfg, lists, old(Value()).(device := None))
        invariant looking ==> device.None?
        invariant looking ==>
          UserAuth.NextDevice(cfg, lists, Value()) == UserAuth.NextDevice(cfg, lists, old(Value()).(device := None))
        decreases looking, if devices.Some? then |devices.value| + 1 else 0
      {
        var len := if devices.Some? then CommaAt(devices.value) else 0;
        if len == 0 {
          looking := false;
        } else {
          var t := devices.value;
          PickKeeps(cfg, lists, t, Value(), 0);
          Pick(cfg, lists, t);
          devices := if len < |t| then Some(t[len + 1..]) else None;
          looking := devices.Some? && device.None?;
        }
      }
      ok := device.Some?;
    }
  }

  lemma {:induction false} PickKeeps(cfg: Config, lists: seq<string>, devs: string, k: Kbd, i: nat)
    requires i <= |cfg.devices|
    ensures PickFrom(cfg, lists, devs, k, i).devices == k.devices
    decreases |cfg.devices| - i
  {
    hide Allowed, Selects;
    if i < |cfg.devices| {
      PickKeeps(cfg, lists, devs, k, i + 1);
      PickKeeps(cfg, lists, devs, k.(device := Some(i), done := k.done + {i}), i + 1);
    }
  }

  /** auth2_method_allowed */
  method IsAllowed(cfg: Config, lists: seq<string>, name: string, sub: Option<string>) returns (b: bool)
    ensures b <==> Allowed(cfg, lists, name, sub)
  {
    if cfg.lists == [] {
      return true;
    }
    for i := 0 to |lists|
      invariant forall k :: 0 <= k < i ==> ListStartsWith(lists[k], name, sub) == NoMatch
    {
      if ListStartsWith(lists[i], name, sub) != NoMatch {
        return true;
      }
    }
    b := false;
  }

  // ---- the authentication context ----

  class Authctxt {
    const cfg: Config
    var attempt: nat
    var failures: nat
    var valid: bool
    var isRoot: bool
    var postponed: bool
    var user: string
    var service: string
    var authMethods: seq<string>
    var kbd: KbdintContext?
    var handler: bool
    var prevUserkeys: seq<Key>
    var noneEnabled: bool
    var end: Ending
    ghost var orig: seq<string>
    ghost var wins: seq<Win>

    ghost function Context(): Option<Kbd>
      reads this`kbd, kbd
    {
      if kbd == null then None else Some(kbd.Value())
    }

    ghost function State(): Auth
      reads this, kbd
    {
      Auth(attempt, failures, valid, isRoot, postponed, user, service, authMethods, orig,
           Context(), handler, prevUserkeys, noneEnabled, wins, end)
    }

    constructor (cfg: Config)
      ensures State() == START && this.cfg == cfg && kbd == null
    {
      this.cfg := cfg;
      attempt, failures, valid, isRoot, postponed, user, service := 0, 0, false, false, false, "", "";
      authMethods, kbd, handler, prevUserkeys, noneEnabled, end := [], null, false, [], true, Running;
      orig, wins := [], [];
    }

    // ---- methods lists ----

    /** auth2_setup_methods_lists */
    method SetupMethodsLists() returns (ok: bool)
      requires authMethods == []
      modifies this`authMethods
      ensures authMethods == ValidLists(cfg, noneEnabled, cfg.lists)
      ensures ok <==> cfg.lists == [] || authMethods != []
    {
      hide ListValid, ValidLists;
      NothingValid(cfg, noneEnabled);
      if cfg.lists == [] {
        return true;
      }
      assert cfg.lists[0..] == cfg.lists;
      for i := 0 to |cfg.lists|
        invariant authMethods + ValidLists(cfg, noneEnabled, cfg.lists[i..]) == ValidLists(cfg, noneEnabled, cfg.lists)
      {
        ValidStep(cfg, noneEnabled, i);
        var good := MethodsValid(cfg, noneEnabled, cfg.lists[i]);
        if good {
          authMethods := authMethods + [cfg.lists[i]];
        }
      }
      assert cfg.lists[|cfg.lists|..] == [];
      ok := authMethods != [];
    }

    /** auth2_update_methods_lists; a success that is in no list is fatal. */
    method UpdateMethodsLists(name: string, sub: Option<string>) returns (complete: bool)
      modifies this`authMethods, this`end
      ensures var u := UpdateFrom(old(authMethods), 0, name, sub);
        authMethods == u.lists && complete == u.complete && end == if u.found then old(end) else FatalNotInLists
    {
      hide RemoveMethod;
      ghost var goal := UpdateFrom(authMethods, 0, name, sub);
      var found := false;
      for i := 0 to |authMethods|
        invariant |authMethods| == old(|authMethods|) && end == old(end)
        invariant var u := UpdateFrom(authMethods, i, name, sub); goal == u.(found := found || u.found)
      {
        var r := RemoveMethod(authMethods[i], name, sub);
        if r.Some? {
          found := true;
          authMethods := authMethods[i := r.value];
          if r.value == "" {
            return true;
          }
        }
      }
      if !found {
        end := FatalNotInLists;
      }
      complete := false;
    }

    // ---- public keys ----

    /** auth2_userkey_already_used */
    method UserkeyAlreadyUsed(key: Key) returns (used: bool)
      ensures used <==> AlreadyUsed(prevUserkeys, key)
    {
      for i := 0 to |prevUserkeys|
        invariant forall k :: 0 <= k < i ==> !EqualPublic(key, prevUserkeys[k])
      {
        if EqualPublic(key, prevUserkeys[i]) {
          return true;
        }
      }
      used := false;
    }

    /** auth2_record_userkey */
    method RecordUserkey(key: Key)
      modifies this`prevUserkeys
      ensures prevUserkeys == old(prevUserkeys) + [key]
    {
      prevUserkeys := prevUserkeys + [key];
    }

    /** userauth_pubkey */
    method UserauthPubkey(a: Attempt) returns (authenticated: bool)
      requires a.Pubkey?
      modifies this`prevUserkeys, this`postponed
      ensures Tried(State(), authenticated) == TryPubkey(old(State()), a)
    {
      hide AlreadyUsed;
      if !valid || a.key.None? {
        return false;
      }
      var used := UserkeyAlreadyUsed(a.key.value);
      if used || !a.typeOk {
        return false;
      }
      authenticated := false;
      if a.haveSig {
        if a.allowed && a.verified {
          authenticated := true;
          RecordUserkey(a.key.value);
        }
      } else if a.allowed {
        postponed := true;
      }
    }

    // ---- keyboard-interactive ----

    /** auth2_challenge_stop */
    method ChallengeStop()
      modifies this`handler, this`kbd
      ensures State() == Stop(old(State())) && kbd == null
    {
      handler := false;
      kbd := null;
    }

    /** auth2_challenge_start */
    method ChallengeStart(started: bool, nreq: nat)
      requires kbd != null
      modifies this`handler, this`kbd, this`postponed, kbd
      ensures State() == StartDevice(cfg, old(State()), old(kbd.Value()), started, nreq)
      ensures kbd == null || kbd == old(kbd)
    {
      var ok := kbd.NextDevice(cfg, authMethods);
      if !ok || !started {
        ChallengeStop();
        return;
      }
      kbd.nreq := nreq;
      kbd.started := kbd.started + [kbd.device.value];
      handler := true;
      postponed := true;
    }

    // ---- finishing ----

    /** The failure reply of userauth_finish. */
    method ReplyFailure(partial: bool, name: string)
      modifies this`failures, this`end
      ensures State() == UserAuth.Fail(cfg, old(State()), partial, name)
    {
      if !partial && (attempt > 1 || name != "none") {
        failures := failures + 1;
      }
      if failures >= cfg.maxTries {
        end := Disconnected;
      }
    }

    /** The success branch of userauth_finish. */
    method Succeed(name: string, sub: Option<string>, forced: bool)
      requires end == Running
      modifies this`failures, this`end, this`authMethods, this`wins
      ensures State() == Win1(cfg, old(State()), Win(name, sub, forced))
    {
      hide UpdateFrom, Fail;
      wins := wins + [Win(name, sub, forced)];
      if cfg.lists != [] {
        NotFoundUnchanged(authMethods, 0, name, sub);
        var complete := UpdateMethodsLists(name, sub);
        if end != Running {
          return;
        }
        if !complete {
          ReplyFailure(true, name);
          return;
        }
      }
      end := Succeeded;
    }

    /** userauth_finish */
    method Finish(success: bool, name: string, sub: Option<string>, forced: bool)
      requires end == Running
      modifies this`failures, this`end, this`authMethods, this`wins
      ensures State() == UserAuth.Finish(cfg, old(State()), success, name, sub, forced)
    {
      hide Win1, RootAllowed, Fail;
      if !valid && success {
        end := FatalInvalidUser;
      } else if success && postponed {
        end := FatalPostponed;
      } else if success && !(isRoot && !RootAllowed(cfg, name, forced)) {
        Succeed(name, sub, forced);
      } else if !postponed {
        ReplyFailure(false, name);
      }
    }

    // ---- the message handlers ----

    /** Runs the back end of the method. */
    method TryMethod(name: string, a: Attempt) returns (authenticated: bool)
      requires kbd == null
      modifies this`noneEnabled, this`prevUserkeys, this`postponed, this`kbd, this`handler
      ensures Tried(State(), authenticated) == Try(cfg, old(State()), name, a)
      ensures kbd == null || fresh(kbd)
    {
      hide AlreadyUsed, UserAuth.NextDevice, NewKbd;
      match a
      case Verdict(ok) =>
        if name == "none" {
          noneEnabled := false;
        }
        authenticated := ok && valid;
      case Pubkey(_, _, _, _, _) =>
        authenticated := UserauthPubkey(a);
      case Interactive(devs, started, nreq) =>
        if cfg.challengeResponse {
          ghost var s := State();
          kbd := new KbdintContext(cfg, devs);
          ChallengeStart(started, nreq);
          assert State() == StartDevice(cfg, s.(kbd := Some(NewKbd(cfg, devs))), NewKbd(cfg, devs), started, nreq);
        }
        authenticated := false;
    }

    /** The first request fixes user and service. */
    method SetUser(e: Event)
      requires e.Request?
      modifies this`attempt, this`isRoot, this`user, this`service, this`valid
      ensures attempt == 1 && isRoot == e.isRoot && user == e.user && service == e.service
      ensures valid <==> e.userOk && IsConnection(e.service)
    {
      attempt, isRoot, user, service := 1, e.isRoot, e.user, e.service;
      valid := e.userOk && IsConnection(e.service);
    }

    /** The first request; it says whether there is any list left. */
    method BeginRequest(e: Event) returns (ok: bool)
      requires e.Request? && authMethods == []
      modifies this
      ensures kbd == old(kbd) && State() == Begin(old(State()), e, ValidLists(cfg, old(noneEnabled), cfg.lists))
      ensures ok <==> cfg.lists == [] || authMethods != []
    {
      hide ValidLists, IsConnection;
      SetUser(e);
      ok := SetupMethodsLists();
      orig := authMethods;
    }

    /** Later requests may not change user or service. */
    method OpenRequest(e: Event)
      requires e.Request? && end == Running && (attempt == 0 ==> authMethods == [])
      modifies this
      ensures kbd == old(kbd) && State() == Open(cfg, old(State()), e)
    {
      hide Begin, ValidLists;
      if attempt == 0 {
        var ok := BeginRequest(e);
        if !ok {
          end := Disconnected;
        }
      } else {
        attempt := attempt + 1;
        if e.user != user || e.service != service {
          end := Disconnected;
        }
      }
    }

    /** Tries the method and replies. */
    method AttemptMethod(e: Event)
      requires e.Request? && end == Running && kbd == null
      modifies this
      ensures State() == Attempted(cfg, old(State()), e)
      ensures kbd == null || fresh(kbd)
    {
      hide Try, UserAuth.Finish, Lookup, Fits;
      var authenticated := false;
      var known := LookupMethod(e.name);
      if known && failures < cfg.maxTries {
        if !Fits(e.name, e.attempt) {
          end := Disconnected;
          return;
        }
        TryKeepsEnd(cfg, State(), e.name, e.attempt);
        authenticated := TryMethod(e.name, e.attempt);
      }
      Finish(authenticated, e.name, None, e.forced);
    }

    /** input_userauth_request */
    method InputRequest(e: Event)
      requires e.Request? && end == Running
      requires attempt == 0 ==> authMethods == []
      modifies this
      ensures State() == OnRequest(cfg, old(State()), e)
      ensures kbd == null || kbd == old(kbd) || fresh(kbd)
    {
      hide Attempted, Open;
      OpenRequest(e);
      if end == Running {
        ChallengeStop();
        postponed := false;
        AttemptMethod(e);
      }
    }

    /** authmethod_lookup */
    method LookupMethod(name: string) returns (known: bool)
      ensures known <==> Lookup(cfg, State(), name)
    {
      hide Allowed, Enabled, IsMethod;
      var found := MethodKnown(cfg, noneEnabled, name);
      if found {
        known := IsAllowed(cfg, authMethods, name, None);
      } else {
        known := false;
      }
    }

    /** input_userauth_info_response, once the packet has been dispatched to it */
    method InputInfoResponse(e: Event)
      requires e.InfoResponse? && end == Running && handler
      modifies this, kbd
      ensures State() == OnInfoResponse(cfg, old(State()), e)
      ensures kbd == null || kbd == old(kbd)
    {
      hide UserAuth.Finish, StartDevice;
      if kbd == null || kbd.device.None? {
        end := FatalNoContext;
        return;
      }
      ghost var k := kbd.Value();
      postponed := false;
      if e.nresp != kbd.nreq || e.nresp > 100 {
        end := FatalReplies;
        return;
      }
      if kbd.device.value >= |cfg.devices| {
        end := FatalNoContext;
        return;
      }
      ghost var s1 := State();
      var dev := cfg.devices[kbd.device.value];
      var authenticated := e.result == 0 && valid;
      if e.result == 1 && e.again {
        kbd.nreq := e.nreq;
        postponed := true;
      }
      if !postponed {
        if authenticated {
          ChallengeStop();
        } else {
          ChallengeStart(e.nextStarted, e.nreq);
        }
      }
      assert State() == Responded(cfg, s1, k, e);
      Finish(authenticated, KBDINT, Some(dev), e.forced);
    }

    /** The dispatch of an info response: the default handler until the first request, then none. */
    method DispatchInfoResponse(e: Event)
      requires e.InfoResponse? && end == Running
      modifies this, kbd
      ensures State() == OnInfoResponse(cfg, old(State()), e)
      ensures kbd == null || kbd == old(kbd)
    {
      if handler {
        InputInfoResponse(e);
      } else if attempt > 0 {
        end := Disconnected;
      }
    }
  }

  lemma NothingValid(cfg: Config, noneEnabled: bool)
    ensures ValidLists(cfg, noneEnabled, []) == []
  {
  }

  lemma ValidStep(cfg: Config, noneEnabled: bool, i: nat)
    requires i < |cfg.lists|
    ensures ValidLists(cfg, noneEnabled, cfg.lists[i..]) ==
      (if ListValid(cfg, noneEnabled, cfg.lists[i]) then [cfg.lists[i]] else []) + ValidLists(cfg, noneEnabled, cfg.lists[i + 1..])
  {
    hide ListValid;
    assert cfg.lists[i..][1..] == cfg.lists[i + 1..];
  }

  lemma {:induction false} NotFoundUnchanged(lists: seq<string>, i: nat, name: string, sub: Option<string>)
    requires i <= |lists|
    ensures !UpdateFrom(lists, i, name, sub).found ==> UpdateFrom(lists, i, name, sub).lists == lists
    decreases |lists| - i
  {
    hide RemoveMethod;
    if i < |lists| {
      var r := RemoveMethod(lists[i], name, sub);
      NotFoundUnchanged(lists, i + 1, name, sub);
    }
  }

  lemma TryKeepsEnd(cfg: Config, s: Auth, name: string, a: Attempt)
    ensures Try(cfg, s, name, a).s.end == s.end
  {
    hide NextDevice, AlreadyUsed, NewKbd;
  }
}
