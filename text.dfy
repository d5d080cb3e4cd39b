/** ASCII string helpers the core relies on: Poco::icompare, the decimal
    parts of Poco::NumberParser and Poco::format, and the whitespace trimming
    of Poco::StringTokenizer. */
module Text {
  import opened Results

  predicate IsDigit(c: char) { '0' <= c <= '9' }

  function DigitValue(c: char): (d: nat)
    requires IsDigit(c)
    ensures d < 10
  {
    c as int - '0' as int
  }

  function DigitChar(d: nat): (c: char)
    requires d < 10
    ensures IsDigit(c) && DigitValue(c) == d
  {
    ('0' as int + d) as char
  }

  /** Poco::Ascii::isSpace: blank, tab, line feed, vertical tab, form feed, carriage return. */
  predicate IsSpace(c: char) { c == ' ' || c == '\t' || c == '\n' || c == '\U{B}' || c == '\U{C}' || c == '\r' }

  function LowerChar(c: char): char {
    if 'A' <= c <= 'Z' then (c as int - 'A' as int + 'a' as int) as char else c
  }

  function ToLower(s: string): (r: string)
    ensures |r| == |s|
    ensures forall i :: 0 <= i < |s| ==> r[i] == LowerChar(s[i])
  {
    if s == [] then [] else [LowerChar(s[0])] + ToLower(s[1..])
  }

  /** Poco::icompare(a, b) == 0: equal length and equal characters after
      mapping upper-case ASCII letters to lower case. */
  predicate IEquals(a: string, b: string) {
    |a| == |b| && forall i :: 0 <= i < |a| ==> LowerChar(a[i]) == LowerChar(b[i])
  }

  /** Comparing without case is comparing the lower-case forms. */
  lemma IEqualsLower(a: string, b: string)
    ensures IEquals(a, b) <==> ToLower(a) == ToLower(b)
  {
    if ToLower(a) == ToLower(b) {
      forall i | 0 <= i < |a| ensures LowerChar(a[i]) == LowerChar(b[i]) {
        assert ToLower(a)[i] == ToLower(b)[i];
      }
    }
  }

  predicate NoUpper(s: string) { forall i :: 0 <= i < |s| ==> !('A' <= s[i] <= 'Z') }

  /** Between strings without upper-case letters, comparing without case is
      plain equality. */
  lemma IEqualsNoUpper(a: string, b: string)
    requires NoUpper(a) && NoUpper(b)
    ensures IEquals(a, b) <==> a == b
  {
    if IEquals(a, b) {
      forall i | 0 <= i < |a| ensures a[i] == b[i] {
        assert LowerChar(a[i]) == a[i] && LowerChar(b[i]) == b[i];
      }
    }
  }

  /** Lower-casing one side does not change a comparison without case. */
  lemma IEqualsToLower(a: string, b: string)
    ensures IEquals(ToLower(a), b) == IEquals(a, b)
  {
    var l := ToLower(a);
    if |l| == |b| {
      forall i | 0 <= i < |l| ensures LowerChar(l[i]) == LowerChar(a[i]) {
        assert l[i] == LowerChar(a[i]);
      }
    }
  }

  predicate AllDigits(s: string) { forall i :: 0 <= i < |s| ==> IsDigit(s[i]) }

  /** The value of a string of decimal digits, most significant first. */
  function DigitsValue(s: string): nat
    requires AllDigits(s)
  {
    if s == [] then 0 else 10 * DigitsValue(s[..|s| - 1]) + DigitValue(s[|s| - 1])
  }

  /** NumberParser::parseUnsigned, restricted to plain digit strings. */
  function ParseUnsigned(s: string): (r: Option<nat>)
    ensures r.Some? <==> s != [] && AllDigits(s)
  {
    if s != [] && AllDigits(s) then Some(DigitsValue(s)) else None
  }

  /** NumberParser::tryParse for int, restricted to an optional sign followed
      by digits. */
  function ParseInt(s: string): (r: Option<int>)
    ensures r.Some? && s != [] && IsDigit(s[0]) ==> r.value >= 0
    ensures r.Some? ==> |s| > 0
  {
    if s != [] && (s[0] == '-' || s[0] == '+') then
      match ParseUnsigned(s[1..])
      case None => None
      case Some(n) => var v: int := if s[0] == '-' then 0 - n as int else n; Some(v)
    else
      match ParseUnsigned(s)
      case None => None
      case Some(n) => Some(n)
  }

  /** The decimal notation of n, without leading zeros (the %z of Poco::format). */
  function Decimal(n: nat): (s: string)
    ensures s != [] && AllDigits(s)
  {
    if n < 10 then [DigitChar(n)] else Decimal(n / 10) + [DigitChar(n % 10)]
  }

  /** Parsing the decimal notation of a number gives the number back. */
  lemma {:induction false} DecimalRoundTrip(n: nat)
    ensures ParseUnsigned(Decimal(n)) == Some(n)
    ensures DigitsValue(Decimal(n)) == n
  {
    var s := Decimal(n);
    if n >= 10 {
      DecimalRoundTrip(n / 10);
      assert s[..|s| - 1] == Decimal(n / 10);
      assert DigitsValue(s) == 10 * (n / 10) + n % 10;
    }
    assert DigitsValue(s) == n;
  }

  function TrimLeft(s: string): (r: string)
    ensures r == [] || !IsSpace(r[0])
    ensures |r| <= |s| && r == s[|s| - |r|..]
  {
    if s != [] && IsSpace(s[0]) then TrimLeft(s[1..]) else s
  }

  function TrimRight(s: string): (r: string)
    ensures r == [] || !IsSpace(r[|r| - 1])
    ensures |r| <= |s| && r == s[..|r|]
  {
    if s != [] && IsSpace(s[|s| - 1]) then TrimRight(s[..|s| - 1]) else s
  }

  /** Poco::trim: strip leading and trailing white space. */
  function Trim(s: string): (r: string)
    ensures r == [] || (!IsSpace(r[0]) && !IsSpace(r[|r| - 1]))
    ensures forall c :: c in r ==> c in s
  {
    var l := TrimLeft(s);
    assert forall c :: c in l ==> c in s;
    TrimRight(l)
  }

  // ---------------------------------------------------------------------
  // Poco::StringTokenizer with TOK_IGNORE_EMPTY | TOK_TRIM

  /** The pieces of `s` between separators (any character of `seps`), in
      order; n separators make n + 1 pieces. */
  function Split(s: string, seps: string): (r: seq<string>)
    ensures |r| >= 1
  {
    if s == [] then [[]]
    else
      var rest := Split(s[1..], seps);
      if s[0] in seps then [[]] + rest else [[s[0]] + rest[0]] + rest[1..]
  }

  /** The trimmed pieces, without the empty ones. */
  function Clean(pieces: seq<string>): (r: seq<string>)
    ensures |r| <= |pieces|
  {
    if pieces == [] then []
    else
      var t := Trim(pieces[0]);
      if t == [] then Clean(pieces[1..]) else [t] + Clean(pieces[1..])
  }

  /** The tokens StringTokenizer(s, seps, TOK_IGNORE_EMPTY | TOK_TRIM)
      yields. */
  function Tokens(s: string, seps: string): seq<string> {
    Clean(Split(s, seps))
  }

  /** A token as the tokenizer can yield it: not empty, no separator, no
      white space at either end. */
  predicate Proper(t: string, seps: string) {
    t != [] && !IsSpace(t[0]) && !IsSpace(t[|t| - 1]) && forall c :: c in t ==> c !in seps
  }

  /** The tokens joined with separator `sep` between them. */
  function JoinWith(ts: seq<string>, sep: char): string {
    if ts == [] then [] else if |ts| == 1 then ts[0] else ts[0] + [sep] + JoinWith(ts[1..], sep)
  }

  lemma {:induction false} SplitPlain(a: string, seps: string)
    requires forall c :: c in a ==> c !in seps
    ensures Split(a, seps) == [a]
  {
    if a != [] {
      SplitPlain(a[1..], seps);
      assert [a[0]] + a[1..] == a;
    }
  }

  lemma {:induction false} SplitAt(a: string, sep: char, b: string, seps: string)
    requires forall c :: c in a ==> c !in seps
    requires sep in seps
    ensures Split(a + [sep] + b, seps) == [a] + Split(b, seps)
  {
    var s := a + [sep] + b;
    if a == [] {
      assert s[1..] == b;
    } else {
      assert s[1..] == a[1..] + [sep] + b;
      SplitAt(a[1..], sep, b, seps);
      assert [a[0]] + a[1..] == a;
    }
  }

  lemma TrimProper(t: string, seps: string)
    requires Proper(t, seps)
    ensures Trim(t) == t
  {
  }

  /** Every token is proper. */
  lemma {:induction false} CleanProper(pieces: seq<string>, seps: string)
    requires forall i :: 0 <= i < |pieces| ==> forall c :: c in pieces[i] ==> c !in seps
    ensures forall i :: 0 <= i < |Clean(pieces)| ==> Proper(Clean(pieces)[i], seps)
  {
    if pieces != [] {
      var tail := pieces[1..];
      assert forall i :: 0 <= i < |tail| ==> tail[i] == pieces[i + 1];
      CleanProper(tail, seps);
      var rest := Clean(tail);
      var t := Trim(pieces[0]);
      assert forall c :: c in t ==> c !in seps;
      if t != [] {
        var r := [t] + rest;
        assert Clean(pieces) == r;
        forall i | 0 <= i < |r| ensures Proper(r[i], seps) {
          if i > 0 { assert r[i] == rest[i - 1]; }
        }
      } else {
        assert Clean(pieces) == rest;
      }
    }
  }

  lemma {:induction false} SplitNoSeparator(s: string, seps: string)
    ensures forall i :: 0 <= i < |Split(s, seps)| ==> forall c :: c in Split(s, seps)[i] ==> c !in seps
  {
    if s != [] {
      SplitNoSeparator(s[1..], seps);
      var rest := Split(s[1..], seps);
      if s[0] !in seps {
        assert forall c :: c in [s[0]] + rest[0] ==> c == s[0] || c in rest[0];
      }
    }
  }

  /** What the tokenizer yields are proper tokens. */
  lemma TokensProper(s: string, seps: string)
    ensures forall i :: 0 <= i < |Tokens(s, seps)| ==> Proper(Tokens(s, seps)[i], seps)
  {
    SplitNoSeparator(s, seps);
    CleanProper(Split(s, seps), seps);
  }

  /** Joining proper tokens with a separator and tokenizing gives the tokens
      back. */
  lemma {:induction false} TokensJoinRoundTrip(ts: seq<string>, sep: char, seps: string)
    requires sep in seps
    requires forall i :: 0 <= i < |ts| ==> Proper(ts[i], seps)
    ensures Tokens(JoinWith(ts, sep), seps) == ts
  {
    if ts == [] {
    } else if |ts| == 1 {
      SplitPlain(ts[0], seps);
      TrimProper(ts[0], seps);
    } else {
      var rest := ts[1..];
      assert forall i :: 0 <= i < |rest| ==> rest[i] == ts[i + 1];
      TokensJoinRoundTrip(rest, sep, seps);
      var tail := JoinWith(rest, sep);
      assert JoinWith(ts, sep) == ts[0] + [sep] + tail;
      SplitAt(ts[0], sep, tail, seps);
      TrimProper(ts[0], seps);
      var pieces := [ts[0]] + Split(tail, seps);
      assert pieces[0] == ts[0] && pieces[1..] == Split(tail, seps);
      assert Clean(pieces) == [ts[0]] + Clean(Split(tail, seps));
      assert [ts[0]] + rest == ts;
    }
  }
}
