/**
 The server's user authentication state machine: requests, the methods lists, the retry
 counter, public keys already used, and the keyboard-interactive device loop. Verdicts of
 the authentication back ends are inputs.
 */
module UserAuth {
  import opened Options
  import opened AuthMethods

  const PUBLICKEY := "publickey"
  const KBDINT := "keyboard-interactive"

  /** The method table. */
  predicate IsMethod(name: string) {
    name == "none" || name == PUBLICKEY || name == "password" || name == KBDINT || name == "hostbased"
  }

  datatype RootPolicy = RootYes | RootNoPasswd | RootForcedOnly | RootNo

  datatype Config = Config(
    lists: seq<string>,          // AuthenticationMethods
    maxTries: int,               // MaxAuthTries
    enabled: set<string>,        // enabled methods other than "none"
    root: RootPolicy,
    challengeResponse: bool,
    devices: seq<string>)        // keyboard-interactive devices

  /** A key: its public part decides equality, the rest (a certificate, say) does not. */
  datatype Key = Key(public: nat, rest: nat)

  predicate EqualPublic(a: Key, b: Key) {
    a.public == b.public
  }

  /** The keyboard-interactive context; `started` records the devices it has started. */
  datatype Kbd = Kbd(devices: Option<string>, device: Option<nat>, done: set<nat>, nreq: nat, started: seq<nat>)

  datatype Ending =
    | Running
    | Succeeded
    | Disconnected
    | FatalInvalidUser      // authenticated invalid user
    | FatalPostponed        // authenticated and postponed
    | FatalNotInLists       // method not in AuthenticationMethods
    | FatalNoContext        // info response without context or device
    | FatalReplies          // wrong number of replies

  /** A success that counted: method, submethod, and whether a forced command was set. */
  datatype Win = Win(name: string, sub: Option<string>, forced: bool)

  /** Authctxt, the "none" switch and the info-response handler; `wins` and `orig` are records. */
  datatype Auth = Auth(
    attempt: nat, failures: nat, valid: bool, isRoot: bool, postponed: bool,
    user: string, service: string,
    lists: seq<string>, orig: seq<string>,
    kbd: Option<Kbd>, handler: bool,
    keys: seq<Key>, noneEnabled: bool,
    wins: seq<Win>, end: Ending)

  const START: Auth := Auth(0, 0, false, false, false, "", "", [], [], None, false, [], true, [], Running)

  // ---- inputs ----

  /** What a method's request carries and what its back end says. */
  datatype Attempt =
    | Verdict(ok: bool)                                             // none, password, hostbased
    | Pubkey(key: Option<Key>, typeOk: bool, haveSig: bool, allowed: bool, verified: bool)
    | Interactive(devs: string, started: bool, nreq: nat)

  datatype Event =
    | Request(user: string, service: string, name: string, attempt: Attempt, userOk: bool, isRoot: bool, forced: bool)
    | InfoResponse(nresp: nat, result: int, again: bool, nextStarted: bool, nreq: nat, forced: bool)

  // ---- methods lists ----

  function NameOf(token: string): string
  {
    token[..ColonAt(token)]
  }

  function ColonAt(s: string): (n: nat)
    ensures n <= |s| && ':' !in s[..n] && (n < |s| ==> s[n] == ':')
  {
    if s == "" || s[0] == ':' then 0
    else
      var n := ColonAt(s[1..]);
      assert s[..n + 1] == [s[0]] + s[1..][..n];
      n + 1
  }

  predicate Enabled(cfg: Config, noneEnabled: bool, name: string) {
    if name == "none" then noneEnabled else name in cfg.enabled
  }

  predicate KnownEntry(cfg: Config, noneEnabled: bool, t: string) {
    IsMethod(NameOf(t)) && Enabled(cfg, noneEnabled, NameOf(t))
  }

  /** auth2_methods_valid with need_enable */
  predicate ListValid(cfg: Config, noneEnabled: bool, list: string) {
    list != "" && forall t :: t in Tokens(list) ==> KnownEntry(cfg, noneEnabled, t)
  }

  /** The lists without those that name a disabled or unknown method. */
  function ValidLists(cfg: Config, noneEnabled: bool, lists: seq<string>): seq<string> {
    if lists == [] then []
    else (if ListValid(cfg, noneEnabled, lists[0]) then [lists[0]] else []) + ValidLists(cfg, noneEnabled, lists[1..])
  }

  /** auth2_method_allowed */
  predicate Allowed(cfg: Config, lists: seq<string>, name: string, sub: Option<string>) {
    cfg.lists == [] || exists i :: 0 <= i < |lists| && ListStartsWith(lists[i], name, sub) != NoMatch
  }

  /** authmethod_lookup */
  predicate Lookup(cfg: Config, s: Auth, name: string) {
    IsMethod(name) && Enabled(cfg, s.noneEnabled, name) && Allowed(cfg, s.lists, name, None)
  }

  /** auth_root_allowed */
  predicate RootAllowed(cfg: Config, name: string, forced: bool) {
    match cfg.root
    case RootYes => true
    case RootNoPasswd => name == PUBLICKEY || name == "hostbased"
    case RootForcedOnly => forced
    case RootNo => false
  }

  // ---- finishing an attempt ----

  /** userauth_finish */
  function Finish(cfg: Config, s: Auth, authenticated: bool, name: string, sub: Option<string>, forced: bool): Auth {
    if authenticated && !s.valid then s.(end := FatalInvalidUser)
    else if authenticated && s.postponed then s.(end := FatalPostponed)
    else if authenticated && (!s.isRoot || RootAllowed(cfg, name, forced)) then Win1(cfg, s, Win(name, sub, forced))
    else if s.postponed then s
    else Fail(cfg, s, false, name)
  }

  /** A success that passed the root policy. */
  function Win1(cfg: Config, s: Auth, w: Win): Auth {
    var s1 := s.(wins := s.wins + [w]);
    if cfg.lists == [] then s1.(end := Succeeded)
    else
      var u := UpdateFrom(s.lists, 0, w.name, w.sub);
      if !u.found then s1.(end := FatalNotInLists)
      else if u.complete then s1.(lists := u.lists, end := Succeeded)
      else Fail(cfg, s1.(lists := u.lists), true, w.name)
  }

  /** The failure reply: counted unless partial or a first "none". */
  function Fail(cfg: Config, s: Auth, partial: bool, name: string): Auth {
    var s1 := if !partial && (s.attempt > 1 || name != "none") then s.(failures := s.failures + 1) else s;
    if s1.failures >= cfg.maxTries then s1.(end := Disconnected) else s1
  }

  // ---- public keys ----

  /** auth2_userkey_already_used */
  predicate AlreadyUsed(keys: seq<Key>, key: Key) {
    exists i :: 0 <= i < |keys| && EqualPublic(key, keys[i])
  }

  /** userauth_pubkey: the new state and whether the user is authenticated. */
  datatype Tried = Tried(s: Auth, authenticated: bool)

  function TryPubkey(s: Auth, a: Attempt): Tried
    requires a.Pubkey?
  {
    if !s.valid || a.key.None? || AlreadyUsed(s.keys, a.key.value) || !a.typeOk then Tried(s, false)
    else if a.haveSig then
      (if a.allowed && a.verified then Tried(s.(keys := s.keys + [a.key.value]), true) else Tried(s, false))
    else Tried(s.(postponed := s.postponed || a.allowed), false)
  }

  // ---- keyboard-interactive devices ----

  /** Does the first entry of the device string select this device? A prefix of its name does. */
  predicate Selects(devs: string, name: string) {
    devs[..CommaAt(devs)] <= name
  }

  /** One pass over the device table from i on: the last device that matches is taken. */
  function PickFrom(cfg: Config, lists: seq<string>, devs: string, k: Kbd, i: nat): Kbd
    requires i <= |cfg.devices|
    decreases |cfg.devices| - i
  {
    if i == |cfg.devices| then k
    else if i in k.done || !Allowed(cfg, lists, KBDINT, Some(cfg.devices[i])) || !Selects(devs, cfg.devices[i]) then
      PickFrom(cfg, lists, devs, k, i + 1)
    else
      PickFrom(cfg, lists, devs, k.(device := Some(i), done := k.done + {i}), i + 1)
  }

  /** kbdint_next_device on a context without a device. */
  function NextDevice(cfg: Config, lists: seq<string>, k: Kbd): Kbd
    requires k.device.None?
    decreases if k.devices.Some? then |k.devices.value| + 1 else 0
  {
    if k.devices.None? || CommaAt(k.devices.value) == 0 then k
    else
      var devs := k.devices.value;
      var n := CommaAt(devs);
      var k1 := PickFrom(cfg, lists, devs, k, 0).(devices := if n < |devs| then Some(devs[n + 1..]) else None);
      if k1.device.None? then NextDevice(cfg, lists, k1) else k1
  }

  /** auth2_challenge_stop */
  function Stop(s: Auth): Auth {
    s.(kbd := None, handler := false)
  }

  /** auth2_challenge_start; `started` says whether the device came up and asked its questions. */
  function StartDevice(cfg: Config, s: Auth, k: Kbd, started: bool, nreq: nat): Auth {
    var k1 := NextDevice(cfg, s.lists, k.(device := None));
    if k1.device.None? || !started then Stop(s)
    else s.(kbd := Some(k1.(nreq := nreq, started := k1.started + [k1.device.value])), handler := true, postponed := true)
  }

  /** kbdint_alloc: the device string, or all devices if it is empty. */
  function NewKbd(cfg: Config, devs: string): Kbd {
    Kbd(Some(if devs == "" then Join(cfg.devices) else devs), None, {}, 0, [])
  }

  function Join(names: seq<string>): string {
    if names == [] then ""
    else
      var b := Join(names[..|names| - 1]);
      (if b != "" then b + "," else b) + names[|names| - 1]
  }

  // ---- the two message handlers ----

  /** Runs the method's back end. */
  function Try(cfg: Config, s: Auth, name: string, a: Attempt): Tried {
    match a
    case Verdict(ok) => Tried(if name == "none" then s.(noneEnabled := false) else s, ok && s.valid)
    case Pubkey(_, _, _, _, _) => TryPubkey(s, a)
    case Interactive(devs, started, nreq) =>
      if cfg.challengeResponse then Tried(StartDevice(cfg, s, NewKbd(cfg, devs), started, nreq), false) else Tried(s, false)
  }

  /** A request carries what its method expects. */
  predicate Fits(name: string, a: Attempt) {
    if name == PUBLICKEY then a.Pubkey? else if name == KBDINT then a.Interactive? else a.Verdict?
  }

  predicate IsConnection(service: string) {
    service == "ssh-connection"
  }

  /** The first request fixes user and service and sets up the lists. */
  function Begin(s: Auth, e: Event, lists: seq<string>): Auth
    requires e.Request?
  {
    Auth(1, s.failures, e.userOk && IsConnection(e.service), e.isRoot, s.postponed, e.user, e.service, lists, lists,
         s.kbd, s.handler, s.keys, s.noneEnabled, s.wins, s.end)
  }

  function Setup(cfg: Config, s: Auth, e: Event): Auth
    requires e.Request?
  {
    var s1 := Begin(s, e, ValidLists(cfg, s.noneEnabled, cfg.lists));
    if cfg.lists != [] && s1.lists == [] then s1.(end := Disconnected) else s1
  }

  /** Counts the request; a later one may not change user or service. */
  function Open(cfg: Config, s: Auth, e: Event): Auth
    requires e.Request?
  {
    if s.attempt == 0 then Setup(cfg, s, e)
    else if e.user != s.user || e.service != s.service then s.(attempt := s.attempt + 1, end := Disconnected)
    else s.(attempt := s.attempt + 1)
  }

  /** Tries the method, if it is to be had, and replies. */
  function Attempted(cfg: Config, s: Auth, e: Event): Auth
    requires e.Request?
  {
    if Lookup(cfg, s, e.name) && s.failures < cfg.maxTries then
      if !Fits(e.name, e.attempt) then s.(end := Disconnected)
      else
        var t := Try(cfg, s, e.name, e.attempt);
        Finish(cfg, t.s, t.authenticated, e.name, None, e.forced)
    else
      Finish(cfg, s, false, e.name, None, e.forced)
  }

  /** input_userauth_request */
  function OnRequest(cfg: Config, s: Auth, e: Event): Auth
    requires e.Request?
  {
    var s1 := Open(cfg, s, e);
    if s1.end != Running then s1 else Attempted(cfg, Stop(s1).(postponed := false), e)
  }

  /** After the device's answer: a further question, the end of the context, or the next device. */
  function Responded(cfg: Config, s: Auth, k: Kbd, e: Event): Auth
    requires e.InfoResponse?
  {
    if e.result == 1 && e.again then s.(postponed := true, kbd := Some(k.(nreq := e.nreq)))
    else if e.result == 0 && s.valid then Stop(s)
    else StartDevice(cfg, s, k, e.nextStarted, e.nreq)
  }

  /**
   input_userauth_info_response. Before the first request an info response gets the reply
   "unimplemented"; later one without a registered handler ends the connection.
   */
  function OnInfoResponse(cfg: Config, s: Auth, e: Event): Auth
    requires e.InfoResponse?
  {
    if !s.handler then (if s.attempt == 0 then s else s.(end := Disconnected))
    else if s.kbd.None? || s.kbd.value.device.None? then s.(end := FatalNoContext)
    else
      var k := s.kbd.value;
      var s1 := s.(postponed := false);
      if e.nresp != k.nreq || e.nresp > 100 then s1.(end := FatalReplies)
      else if k.device.value >= |cfg.devices| then s1.(end := FatalNoContext)
      else
        var dev := cfg.devices[k.device.value];
        var authenticated := e.result == 0 && s.valid;
        Finish(cfg, Responded(cfg, s1, k, e), authenticated, KBDINT, Some(dev), e.forced)
  }

  function Step(cfg: Config, s: Auth, e: Event): Auth {
    if s.end != Running then s else if e.Request? then OnRequest(cfg, s, e) else OnInfoResponse(cfg, s, e)
  }

  function Run(cfg: Config, events: seq<Event>): Auth {
    if events == [] then START else Step(cfg, Run(cfg, events[..|events| - 1]), events[|events| - 1])
  }
}
