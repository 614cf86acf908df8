/**
 AuthenticationMethods lists: comma-separated strings of methods, each perhaps with a
 colon and a submethod, that are edited in place as methods succeed.
 */
module AuthMethods {
  import opened Options

  datatype Match = NoMatch | MatchMethod | MatchBoth | MatchPartial

  // ---- the comma-split list ----

  /** Length of the text before the first comma. */
  function CommaAt(s: string): (n: nat)
    ensures n <= |s| && ',' !in s[..n] && (n < |s| ==> s[n] == ',')
  {
    if s == "" || s[0] == ',' then 0
    else
      var n := CommaAt(s[1..]);
      assert s[..n + 1] == [s[0]] + s[1..][..n];
      n + 1
  }

  function Head(s: string): string {
    s[..CommaAt(s)]
  }

  function Tokens(s: string): (ts: seq<string>)
    ensures ts != [] && ts[0] == Head(s)
  {
    if CommaAt(s) == |s| then [s] else [Head(s)] + Tokens(s[CommaAt(s) + 1..])
  }

  /** How a list entry matches a method that succeeded, or is asked for, with its submethod. */
  function MatchToken(t: string, name: string, sub: Option<string>): Match {
    if t == name then MatchMethod
    else if name + ":" <= t then
      (if sub.None? then MatchPartial else if t == name + ":" + sub.value then MatchBoth else NoMatch)
    else NoMatch
  }

  /** Method names have neither comma nor colon, submethod names no comma. */
  predicate Names(name: string, sub: Option<string>) {
    ',' !in name && ':' !in name && (sub.Some? ==> ',' !in sub.value)
  }

  // ---- the string edits ----

  /** list_starts_with */
  function ListStartsWith(methods: string, name: string, sub: Option<string>): (m: Match)
    ensures m == MatchMethod ==> |name| <= |methods|
    ensures m == MatchBoth ==> sub.Some? && |name| + 1 + |sub.value| <= |methods|
  {
    if !(name <= methods) then NoMatch
    else
      var p := methods[|name|..];
      if p != "" && p[0] == ':' then
        if sub.None? then MatchPartial
        else
          var q := p[1..];
          if !(sub.value <= q) then NoMatch
          else EndOfEntry(q[|sub.value|..], MatchBoth)
      else EndOfEntry(p, MatchMethod)
  }

  function EndOfEntry(p: string, m: Match): Match {
    if p != "" && p[0] != ',' then NoMatch else m
  }

  predicate Removes(m: Match) {
    m == MatchMethod || m == MatchBoth
  }

  /** remove_method: the remaining list, or None if the list does not start with the method. */
  function RemoveMethod(methods: string, name: string, sub: Option<string>): Option<string> {
    var m := ListStartsWith(methods, name, sub);
    if !Removes(m) then None else Some(Rest(methods, |name| + if m == MatchBoth then 1 + |sub.value| else 0))
  }

  /** The text from l on, past a comma. */
  function Rest(methods: string, l: nat): string
    requires l <= |methods|
  {
    var p := methods[l..];
    if p != "" && p[0] == ',' then p[1..] else p
  }

  // ---- the edits refine list operations ----

  /** A comma-free prefix of a string lies within its first entry. */
  lemma PrefixInHead(s: string, x: string)
    requires ',' !in x
    ensures x <= s <==> x <= Head(s)
    ensures x <= s ==> (|x| == |s| || s[|x|] == ',' <==> x == Head(s))
  {
    var n := CommaAt(s);
    if x <= s {
      assert s[..|x|] == x;
      assert |x| <= n;
      if |x| < n {
        assert s[|x|] == s[..n][|x|];
      }
    }
  }

  /** list_starts_with looks at the first entry and nothing else. */
  lemma StartsWithIsHeadMatch(methods: string, name: string, sub: Option<string>)
    requires Names(name, sub)
    ensures ListStartsWith(methods, name, sub) == MatchToken(Head(methods), name, sub)
  {
    var h := Head(methods);
    PrefixInHead(methods, name);
    PrefixInHead(methods, name + ":");
    if sub.Some? {
      PrefixInHead(methods, name + ":" + sub.value);
    }
    if name <= methods {
      var p := methods[|name|..];
      assert methods == name + p;
      if p != "" && p[0] == ':' {
        assert name + ":" <= methods;
        if sub.Some? {
          var q := p[1..];
          assert methods == name + ":" + q;
          if sub.value <= q {
            assert methods == name + ":" + sub.value + q[|sub.value|..];
          }
        }
      }
    }
  }

  /** remove_method drops the first entry of the split list, when that entry matches. */
  lemma RemoveIsTail(methods: string, name: string, sub: Option<string>)
    requires Names(name, sub)
    ensures RemoveMethod(methods, name, sub).Some? <==> Removes(MatchToken(Head(methods), name, sub))
    ensures RemoveMethod(methods, name, sub).Some? ==>
              var rest := RemoveMethod(methods, name, sub).value;
              if |Tokens(methods)| == 1 then rest == "" else Tokens(rest) == Tokens(methods)[1..]
  {
    hide RemoveMethod, Tokens, MatchToken, CommaAt, Rest;
    RemovedText(methods, name, sub);
    HeadLength(methods);
    TokensStep(methods);
  }

  lemma RemovedText(methods: string, name: string, sub: Option<string>)
    requires Names(name, sub)
    ensures RemoveMethod(methods, name, sub) ==
      if !Removes(MatchToken(Head(methods), name, sub)) then None else Some(Rest(methods, CommaAt(methods)))
  {
    hide ListStartsWith, Rest, MatchToken, Head, CommaAt;
    StartsWithIsHeadMatch(methods, name, sub);
    MatchLength(Head(methods), name, sub);
    HeadLength(methods);
  }

  lemma MatchLength(t: string, name: string, sub: Option<string>)
    ensures MatchToken(t, name, sub) == MatchMethod ==> |t| == |name|
    ensures MatchToken(t, name, sub) == MatchBoth ==> sub.Some? && |t| == |name| + 1 + |sub.value|
  {
  }

  lemma HeadLength(s: string)
    ensures |Head(s)| == CommaAt(s)
    ensures Rest(s, CommaAt(s)) == if CommaAt(s) < |s| then s[CommaAt(s) + 1..] else ""
  {
    hide CommaAt;
    var n := CommaAt(s);
    assert n < |s| ==> s[n..][1..] == s[n + 1..];
  }

  lemma TokensStep(s: string)
    ensures CommaAt(s) == |s| ==> |Tokens(s)| == 1
    ensures CommaAt(s) < |s| ==> |Tokens(s)| > 1 && Tokens(s)[1..] == Tokens(s[CommaAt(s) + 1..])
  {
    hide CommaAt;
  }

  // ---- updating all lists ----

  /** The lists after a success, whether any was shortened, and whether one was completed. */
  datatype Updated = Updated(lists: seq<string>, found: bool, complete: bool)

  /** auth2_update_methods_lists from list i on: it stops at the first list completed. */
  function UpdateFrom(lists: seq<string>, i: nat, name: string, sub: Option<string>): (u: Updated)
    requires i <= |lists|
    ensures |u.lists| == |lists|
    decreases |lists| - i
  {
    if i == |lists| then Updated(lists, false, false)
    else
      var r := RemoveMethod(lists[i], name, sub);
      if r.None? then UpdateFrom(lists, i + 1, name, sub)
      else if r.value == "" then Updated(lists[i := ""], true, true)
      else UpdateFrom(lists[i := r.value], i + 1, name, sub).(found := true)
  }

  /** What happens to each list: shortened if it starts with the method and is looked at, else kept. */
  lemma {:induction false} UpdateFromFacts(lists: seq<string>, i: nat, name: string, sub: Option<string>, k: nat)
    requires i <= |lists| && k < |lists|
    ensures var u := UpdateFrom(lists, i, name, sub); var r := RemoveMethod(lists[k], name, sub);
      && (u.lists[k] == lists[k] || (r.Some? && u.lists[k] == r.value && u.found))
      && (k >= i && r.Some? ==> u.found)
      && (k >= i && !u.complete && r.Some? ==> u.lists[k] == r.value && r.value != "")
    decreases |lists| - i
  {
    hide RemoveMethod;
    if i < |lists| {
      var r := RemoveMethod(lists[i], name, sub);
      if r.None? {
        UpdateFromFacts(lists, i + 1, name, sub, k);
      } else if r.value != "" {
        UpdateFromFacts(lists[i := r.value], i + 1, name, sub, k);
        if k == i {
          UpdateFromKeeps(lists[i := r.value], i + 1, name, sub, i);
        }
      }
    }
  }

  lemma {:induction false} UpdateFromKeeps(lists: seq<string>, i: nat, name: string, sub: Option<string>, k: nat)
    requires i <= |lists| && k < i
    ensures UpdateFrom(lists, i, name, sub).lists[k] == lists[k]
    decreases |lists| - i
  {
    hide RemoveMethod;
    if i < |lists| {
      var r := RemoveMethod(lists[i], name, sub);
      if r.None? {
        UpdateFromKeeps(lists, i + 1, name, sub, k);
      } else if r.value != "" {
        UpdateFromKeeps(lists[i := r.value], i + 1, name, sub, k);
      }
    }
  }

  /** A completed update has emptied one list, by removing its only entry. */
  lemma {:induction false} UpdateComplete(lists: seq<string>, i: nat, name: string, sub: Option<string>) returns (k: nat)
    requires i <= |lists| && UpdateFrom(lists, i, name, sub).complete
    ensures i <= k < |lists| && RemoveMethod(lists[k], name, sub) == Some("")
    decreases |lists| - i
  {
    hide RemoveMethod;
    var r := RemoveMethod(lists[i], name, sub);
    if r.None? {
      k := UpdateComplete(lists, i + 1, name, sub);
    } else if r.value == "" {
      k := i;
    } else {
      k := UpdateComplete(lists[i := r.value], i + 1, name, sub);
    }
  }
}
