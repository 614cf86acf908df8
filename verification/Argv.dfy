/**
 Splitting a command line into arguments and assembling one from arguments. Both work on C
 strings; a Dafny string here is the text before the terminating NUL.
 */
module Argv {
  import opened Options

  /** No quote is open. */
  const NONE := '\0'

  predicate IsBlank(c: char) {
    c == ' ' || c == '\t'
  }

  /** The characters that a backslash escapes. */
  predicate IsSpecial(c: char) {
    c == '\\' || c == '\'' || c == '"'
  }

  /** s starts with an escape that the parser recognises. */
  predicate StartsEscape(s: string) {
    |s| >= 2 && s[0] == '\\' && IsSpecial(s[1])
  }

  // ---- the printer ----

  function EscapedChar(c: char): string {
    if IsSpecial(c) then ['\\', c] else [c]
  }

  function Escaped(a: string): string {
    if a == "" then "" else EscapedChar(a[0]) + Escaped(a[1..])
  }

  predicate HasBlank(a: string) {
    exists i :: 0 <= i < |a| && IsBlank(a[i])
  }

  function Printed(a: string): string {
    if HasBlank(a) then "\"" + Escaped(a) + "\"" else Escaped(a)
  }

  /** Each argument with a blank before it. */
  function Tail(argv: seq<string>): string {
    if argv == [] then "" else " " + (Printed(argv[0]) + Tail(argv[1..]))
  }

  function Assembled(argv: seq<string>): string {
    if argv == [] then "" else Printed(argv[0]) + Tail(argv[1..])
  }

  // ---- the parser ----

  /** A token's text, and what follows its terminator, if it had one. */
  datatype Token = Token(text: string, rest: Option<string>)

  function Prefix(c: char, t: Token): Token {
    t.(text := [c] + t.text)
  }

  /** The token at the start of s, inside `quote` if that is not NONE. */
  function Scan(s: string, quote: char): (t: Token)
    ensures t.rest.Some? ==> |t.rest.value| < |s|
  {
    if s == "" then Token("", None)
    else if StartsEscape(s) then Prefix(s[1], Scan(s[2..], quote))
    else if s[0] == '\\' then Prefix('\\', Scan(s[1..], quote))
    else if (quote == NONE && IsBlank(s[0])) || (quote != NONE && s[0] == quote) then Token("", Some(s[1..]))
    else Prefix(s[0], Scan(s[1..], quote))
  }

  /** The quote that a token starts with. */
  function Quote(s: string): char
    requires s != ""
  {
    if !StartsEscape(s) && (s[0] == '\'' || s[0] == '"') then s[0] else NONE
  }

  /** Where a token's text starts: after a quote, or after the first backslash of an escape. */
  function Body(s: string): string
    requires s != ""
  {
    if StartsEscape(s) || Quote(s) != NONE then s[1..] else s
  }

  datatype Split = Vector(argv: seq<string>) | Invalid

  function Cons(a: string, r: Split): Split {
    if r.Vector? then Vector([a] + r.argv) else Invalid
  }

  function SplitOf(s: string): Split
    decreases |s|
  {
    if s == "" then Vector([])
    else if IsBlank(s[0]) then SplitOf(s[1..])
    else
      var t := Scan(Body(s), Quote(s));
      if t.rest.Some? then Cons(t.text, SplitOf(t.rest.value))
      else if Quote(s) != NONE then Invalid
      else Vector([t.text])
  }

  // ---- round trip ----

  lemma ScanEscape(c: char, s: string, quote: char)
    requires IsSpecial(c)
    ensures Scan(['\\', c] + s, quote) == Prefix(c, Scan(s, quote))
  {
    assert (['\\', c] + s)[2..] == s;
  }

  lemma ScanChar(c: char, s: string, quote: char)
    requires if c == '\\' then s == "" || !IsSpecial(s[0]) else !EndsToken(c, quote)
    ensures Scan([c] + s, quote) == Prefix(c, Scan(s, quote))
  {
    assert ([c] + s)[1..] == s;
  }

  predicate EndsToken(c: char, quote: char) {
    c != '\\' && ((quote == NONE && IsBlank(c)) || (quote != NONE && c == quote))
  }

  lemma EscapedCons(a: string, r: string)
    requires a != ""
    ensures Escaped(a) + r == EscapedChar(a[0]) + (Escaped(a[1..]) + r)
  {
  }

  lemma {:induction false} ScanQuoted(a: string, r: string)
    ensures Scan(Escaped(a) + ("\"" + r), '"') == Token(a, Some(r))
  {
    if a == "" {
      var s := "\"" + r;
      assert Escaped(a) + s == s && s[1..] == r;
    } else {
      hide Scan, Escaped;
      var s' := Escaped(a[1..]) + ("\"" + r);
      EscapedCons(a, "\"" + r);
      ScanQuoted(a[1..], r);
      if IsSpecial(a[0]) {
        ScanEscape(a[0], s', '"');
      } else {
        ScanChar(a[0], s', '"');
      }
      assert [a[0]] + a[1..] == a;
    }
  }

  /** What may follow an unquoted argument: nothing, or a blank. */
  predicate Follows(r: string) {
    r == "" || r[0] == ' '
  }

  function After(r: string): Option<string> {
    if r == "" then None else Some(r[1..])
  }

  lemma {:induction false} ScanPlain(a: string, r: string)
    requires !HasBlank(a) && Follows(r)
    ensures Scan(Escaped(a) + r, NONE) == Token(a, After(r))
  {
    if a == "" {
      assert Escaped(a) + r == r;
    } else {
      NoBlankTail(a);
      hide Scan, Escaped, HasBlank;
      var s' := Escaped(a[1..]) + r;
      EscapedCons(a, r);
      ScanPlain(a[1..], r);
      if IsSpecial(a[0]) {
        ScanEscape(a[0], s', NONE);
      } else {
        ScanChar(a[0], s', NONE);
      }
      assert [a[0]] + a[1..] == a;
    }
  }

  lemma NoBlankTail(a: string)
    requires a != "" && !HasBlank(a)
    ensures !HasBlank(a[1..]) && !IsBlank(a[0])
  {
    assert forall i :: 0 <= i < |a| - 1 ==> a[1..][i] == a[i + 1];
  }

  /** The same with the first backslash gone, as at the start of an unquoted token. */
  lemma {:induction false} ScanShifted(a: string, r: string)
    requires a != "" && IsSpecial(a[0]) && !HasBlank(a) && Follows(r)
    ensures Scan([a[0]] + (Escaped(a[1..]) + r), NONE) == Token(a, After(r))
  {
    hide Scan, HasBlank;
    var s' := Escaped(a[1..]) + r;
    NoBlankTail(a);
    if a == [a[0]] {
      assert s' == r;
    } else {
      EscapedCons(a[1..], r);
    }
    hide Escaped;
    assert [a[0]] + a[1..] == a;
    if a[0] == '\\' && |a| > 1 && IsSpecial(a[1]) {
      var s'' := [a[1]] + (Escaped(a[1..][1..]) + r);
      ScanShifted(a[1..], r);
      assert [a[0]] + s' == ['\\', '\\'] + s'';
      ScanEscape('\\', s'', NONE);
    } else {
      ScanPlain(a[1..], r);
      ScanChar(a[0], s', NONE);
    }
  }

  lemma SplitQuoted(a: string, r: string)
    ensures SplitOf("\"" + (Escaped(a) + ("\"" + r))) == Cons(a, SplitOf(r))
  {
    var s := "\"" + (Escaped(a) + ("\"" + r));
    hide Scan, Escaped;
    ScanQuoted(a, r);
    assert s[1..] == Escaped(a) + ("\"" + r);
  }

  /** An unquoted token whose text has been scanned. */
  lemma SplitScanned(s: string, a: string, r: string)
    requires s != "" && !IsBlank(s[0]) && Quote(s) == NONE && Follows(r)
    requires Scan(Body(s), NONE) == Token(a, After(r))
    ensures SplitOf(s) == Cons(a, SplitOf(r))
  {
    hide Scan;
    if r != "" {
      assert SplitOf(r) == SplitOf(r[1..]);
    }
  }

  lemma StartSpecial(c: char, tail: string)
    requires IsSpecial(c)
    ensures var s := ['\\', c] + tail; Quote(s) == NONE && Body(s) == [c] + tail
  {
    assert (['\\', c] + tail)[1..] == [c] + tail;
  }

  lemma SplitPlain(a: string, r: string)
    requires a != "" && !HasBlank(a) && Follows(r)
    ensures SplitOf(Escaped(a) + r) == Cons(a, SplitOf(r))
  {
    NoBlankTail(a);
    hide Scan, SplitOf, Escaped, HasBlank;
    var tail := Escaped(a[1..]) + r;
    EscapedCons(a, r);
    if IsSpecial(a[0]) {
      StartSpecial(a[0], tail);
      ScanShifted(a, r);
    } else {
      ScanPlain(a, r);
    }
    SplitScanned(Escaped(a) + r, a, r);
  }

  /** A printed argument in front of r comes back as the first argument. */
  lemma SplitPrinted(a: string, r: string)
    requires a != "" && Follows(r)
    ensures SplitOf(Printed(a) + r) == Cons(a, SplitOf(r))
  {
    hide SplitOf, Escaped;
    if HasBlank(a) {
      SplitQuoted(a, r);
      assert Printed(a) + r == "\"" + (Escaped(a) + ("\"" + r));
    } else {
      SplitPlain(a, r);
    }
  }

  predicate IsQuote(c: char) {
    c == '\'' || c == '"'
  }

  /** Text that stands for itself inside quotes of kind q. */
  predicate Literal(a: string, q: char) {
    forall i :: 0 <= i < |a| ==> a[i] != q && a[i] != '\\'
  }

  lemma {:induction false} ScanLiteral(a: string, q: char, r: string)
    requires IsQuote(q) && Literal(a, q)
    ensures Scan(a + ([q] + r), q) == Token(a, Some(r))
  {
    if a == "" {
      assert a + ([q] + r) == [q] + r && ([q] + r)[1..] == r;
    } else {
      hide Scan;
      assert forall i :: 0 <= i < |a| - 1 ==> a[1..][i] == a[i + 1];
      ScanLiteral(a[1..], q, r);
      ScanChar(a[0], a[1..] + ([q] + r), q);
      assert a + ([q] + r) == [a[0]] + (a[1..] + ([q] + r)) && [a[0]] + a[1..] == a;
    }
  }

  /** Quotes of either kind: the text between them is one argument, blanks and the other quotes included. */
  lemma SplitLiteral(a: string, q: char, r: string)
    requires IsQuote(q) && Literal(a, q)
    ensures SplitOf([q] + (a + ([q] + r))) == Cons(a, SplitOf(r))
  {
    var s := [q] + (a + ([q] + r));
    ScanLiteral(a, q, r);
    hide Scan;
    assert s[1..] == a + ([q] + r);
  }

  lemma {:induction false} ScanOpen(a: string, q: char)
    requires IsQuote(q) && Literal(a, q)
    ensures Scan(a, q) == Token(a, None)
  {
    if a != "" {
      hide Scan;
      assert forall i :: 0 <= i < |a| - 1 ==> a[1..][i] == a[i + 1];
      ScanOpen(a[1..], q);
      ScanChar(a[0], a[1..], q);
      assert [a[0]] + a[1..] == a;
    }
  }

  /** A quote that is never closed is an error. */
  lemma SplitUnbalanced(a: string, q: char)
    requires IsQuote(q) && Literal(a, q)
    ensures SplitOf([q] + a) == Invalid
  {
    var s := [q] + a;
    ScanOpen(a, q);
    hide Scan;
    assert s[1..] == a;
  }

  /** Blanks and tabs separate: what stands before one, without quotes, blanks and backslashes, is an argument. */
  lemma {:induction false} SplitWord(a: string, b: char, r: string)
    requires a != "" && !HasBlank(a) && IsPlain(a) && (b == ' ' || b == '\t')
    ensures SplitOf(a + ([b] + r)) == Cons(a, SplitOf(r))
  {
    ScanWord(a, b, r);
    NoBlankTail(a);
    hide Scan, HasBlank;
  }

  /** No backslashes, and no quote at the start. */
  predicate IsPlain(a: string) {
    (a != "" ==> !IsQuote(a[0])) && forall i :: 0 <= i < |a| ==> a[i] != '\\'
  }

  lemma {:induction false} ScanWord(a: string, b: char, r: string)
    requires !HasBlank(a) && (forall i :: 0 <= i < |a| ==> a[i] != '\\') && (b == ' ' || b == '\t')
    ensures Scan(a + ([b] + r), NONE) == Token(a, Some(r))
  {
    if a == "" {
      assert a + ([b] + r) == [b] + r && ([b] + r)[1..] == r;
    } else {
      NoBlankTail(a);
      hide Scan, HasBlank;
      assert forall i :: 0 <= i < |a| - 1 ==> a[1..][i] == a[i + 1];
      ScanWord(a[1..], b, r);
      ScanChar(a[0], a[1..] + ([b] + r), NONE);
      assert a + ([b] + r) == [a[0]] + (a[1..] + ([b] + r)) && [a[0]] + a[1..] == a;
    }
  }

  function NonEmpty(argv: seq<string>): seq<string> {
    if argv == [] then [] else (if argv[0] == "" then [] else [argv[0]]) + NonEmpty(argv[1..])
  }

  lemma {:induction false} SplitTail(argv: seq<string>)
    ensures SplitOf(Tail(argv)) == Vector(NonEmpty(argv))
  {
    if argv != [] {
      var r := Tail(argv[1..]);
      assert Tail(argv)[1..] == Printed(argv[0]) + r;
      SplitTail(argv[1..]);
      if argv[0] == "" {
        assert "" + r == r;
      } else {
        SplitPrinted(argv[0], r);
      }
    }
  }

  /** Splitting an assembled vector gives back exactly its non-empty arguments. */
  lemma SplitAssembled(argv: seq<string>)
    ensures SplitOf(Assembled(argv)) == Vector(NonEmpty(argv))
  {
    SplitTail(argv);
    if argv != [] {
      assert Tail(argv)[1..] == Assembled(argv);
    }
  }

  /** The round trip is the identity exactly on vectors without empty arguments. */
  lemma RoundTripIff(argv: seq<string>)
    ensures SplitOf(Assembled(argv)) == Vector(argv) <==> "" !in argv
  {
    SplitAssembled(argv);
    NonEmptyIff(argv);
  }

  lemma {:induction false} NonEmptyIff(argv: seq<string>)
    ensures |NonEmpty(argv)| <= |argv|
    ensures NonEmpty(argv) == argv <==> "" !in argv
  {
    if argv != [] {
      NonEmptyIff(argv[1..]);
      assert argv == [argv[0]] + argv[1..];
      if argv[0] != "" {
        assert NonEmpty(argv)[1..] == NonEmpty(argv[1..]);
      }
    }
  }

  // ---- the loops ----

  lemma {:induction false} EscapedSnoc(a: string, c: char)
    ensures Escaped(a + [c]) == Escaped(a) + EscapedChar(c)
  {
    if a == "" {
      assert a + [c] == [c];
      assert [c][1..] == "";
    } else {
      assert (a + [c])[1..] == a[1..] + [c];
      EscapedSnoc(a[1..], c);
      assert EscapedChar(a[0]) + (Escaped(a[1..]) + EscapedChar(c)) == EscapedChar(a[0]) + Escaped(a[1..]) + EscapedChar(c);
    }
  }

  /** Escapes one argument; also says whether it needs quotes. */
  method EscapeArg(a: string) returns (arg: string, ws: bool)
    ensures arg == Escaped(a) && ws == HasBlank(a)
  {
    arg, ws := "", false;
    for j := 0 to |a|
      invariant arg == Escaped(a[..j])
      invariant ws == exists i :: 0 <= i < j && IsBlank(a[i])
    {
      hide Escaped;
      var c := a[j];
      EscapedSnoc(a[..j], c);
      assert a[..j + 1] == a[..j] + [c];
      if c == ' ' || c == '\t' {
        ws := true;
        arg := arg + [c];
      } else if c == '\\' || c == '\'' || c == '"' {
        arg := arg + ['\\', c];
      } else {
        arg := arg + [c];
      }
    }
    assert a[..|a|] == a;
  }

  lemma {:induction false} TailSnoc(argv: seq<string>, a: string)
    ensures Tail(argv + [a]) == Tail(argv) + (" " + Printed(a))
  {
    if argv == [] {
      assert argv + [a] == [a];
      assert Tail([]) == "";
      assert Tail([a]) == " " + (Printed(a) + "");
    } else {
      hide Printed;
      assert (argv + [a])[1..] == argv[1..] + [a];
      TailSnoc(argv[1..], a);
      var p, t, e := Printed(argv[0]), Tail(argv[1..]), " " + Printed(a);
      assert " " + (p + (t + e)) == " " + (p + t) + e;
    }
  }

  lemma AssembledSnoc(argv: seq<string>, a: string)
    ensures Assembled(argv + [a]) == Assembled(argv) + (if argv == [] then "" else " ") + Printed(a)
  {
    hide Printed, Tail;
    if argv == [] {
      assert argv + [a] == [a];
      assert Tail([]) == "" by { TailNil(); }
      assert [a][1..] == [];
      assert Printed(a) + "" == "" + "" + Printed(a);
    } else {
      assert (argv + [a])[1..] == argv[1..] + [a];
      TailSnoc(argv[1..], a);
      var p, t := Printed(argv[0]), Tail(argv[1..]);
      assert p + (t + (" " + Printed(a))) == p + t + " " + Printed(a);
    }
  }

  lemma TailNil()
    ensures Tail([]) == ""
  {
  }

  method AppendArg(prefix: string, blank: bool, a: string) returns (buf: string)
    ensures buf == prefix + (if blank then " " else "") + Printed(a)
  {
    hide Escaped, HasBlank;
    var arg, ws := EscapeArg(a);
    buf := prefix + if blank then " " else "";
    if ws {
      buf := buf + "\"";
    }
    buf := buf + arg;
    if ws {
      buf := buf + "\"";
    }
  }

  method AssembleArgv(argv: seq<string>) returns (buf: string)
    ensures buf == Assembled(argv)
  {
    buf := "";
    for i := 0 to |argv|
      invariant buf == Assembled(argv[..i])
    {
      hide *;
      AssembledSnoc(argv[..i], argv[i]);
      assert argv[..i + 1] == argv[..i] + [argv[i]];
      buf := AppendArg(buf, i != 0, argv[i]);
    }
    assert argv[..|argv|] == argv;
  }

  /** A token with text already copied in front. */
  ghost function Grow(arg: string, t: Token): Token {
    Token(arg + t.text, t.rest)
  }

  lemma GrowPrefix(arg: string, c: char, t: Token)
    ensures Grow(arg, Prefix(c, t)) == Grow(arg + [c], t)
  {
    assert arg + ([c] + t.text) == arg + [c] + t.text;
  }

  /** One step of the scanner at position i. */
  lemma ScanAt(s: string, i: nat, quote: char)
    requires i < |s|
    ensures StartsEscape(s[i..]) ==> Scan(s[i..], quote) == Prefix(s[i + 1], Scan(s[i + 2..], quote))
    ensures !StartsEscape(s[i..]) && !EndsToken(s[i], quote) ==> Scan(s[i..], quote) == Prefix(s[i], Scan(s[i + 1..], quote))
    ensures EndsToken(s[i], quote) ==> Scan(s[i..], quote) == Token("", Some(s[i + 1..]))
  {
    assert s[i..][1..] == s[i + 1..];
    assert i + 2 <= |s| ==> s[i..][2..] == s[i + 2..];
  }

  /** Copies a token's text, removing escapes; `end` is its terminator or the end of the string. */
  method CopyToken(s: string, start: nat, quote: char) returns (arg: string, end: nat)
    requires start <= |s|
    ensures start <= end <= |s|
    ensures Scan(s[start..], quote) == Token(arg, if end == |s| then None else Some(s[end + 1..]))
  {
    var i := start;
    arg := "";
    ghost var all := Scan(s[start..], quote);
    while i < |s|
      invariant start <= i <= |s|
      invariant all == Grow(arg, Scan(s[i..], quote))
    {
      hide Scan;
      ScanAt(s, i, quote);
      if s[i] == '\\' {
        if i + 1 < |s| && (s[i + 1] == '\'' || s[i + 1] == '"' || s[i + 1] == '\\') {
          GrowPrefix(arg, s[i + 1], Scan(s[i + 2..], quote));
          i := i + 1;
          arg := arg + [s[i]];
        } else {
          GrowPrefix(arg, s[i], Scan(s[i + 1..], quote));
          arg := arg + [s[i]];
        }
      } else if quote == NONE && (s[i] == ' ' || s[i] == '\t') {
        return arg, i;
      } else if quote != NONE && s[i] == quote {
        return arg, i;
      } else {
        GrowPrefix(arg, s[i], Scan(s[i + 1..], quote));
        arg := arg + [s[i]];
      }
      i := i + 1;
    }
    end := i;
  }

  /** What is left to do after the arguments found so far. */
  ghost function Then(argv: seq<string>, r: Split): Split {
    if r.Vector? then Vector(argv + r.argv) else Invalid
  }

  lemma ThenCons(argv: seq<string>, a: string, r: Split)
    ensures Then(argv, Cons(a, r)) == Then(argv + [a], r)
  {
    if r.Vector? {
      assert argv + ([a] + r.argv) == argv + [a] + r.argv;
    }
  }

  method SplitArgv(s: string) returns (r: Split)
    ensures r == SplitOf(s)
  {
    var argv: seq<string> := [];
    var i := 0;
    while i < |s|
      invariant 0 <= i <= |s|
      invariant SplitOf(s) == Then(argv, SplitOf(s[i..]))
    {
      hide Scan;
      assert s[i..][1..] == s[i + 1..];
      if s[i] == ' ' || s[i] == '\t' {
        i := i + 1;
        continue;
      }
      var quote, start := NONE, i;
      if s[i] == '\\' && i + 1 < |s| && (s[i + 1] == '\'' || s[i + 1] == '"' || s[i + 1] == '\\') {
        start := i + 1;
      } else if s[i] == '\'' || s[i] == '"' {
        quote, start := s[i], i + 1;
      }
      assert Body(s[i..]) == s[start..] && Quote(s[i..]) == quote;
      var arg, end := CopyToken(s, start, quote);
      if end == |s| {
        if quote != NONE {
          return Invalid;
        }
        return Vector(argv + [arg]);
      }
      ThenCons(argv, arg, SplitOf(s[end + 1..]));
      argv := argv + [arg];
      i := end + 1;
    }
    return Vector(argv);
  }
}
