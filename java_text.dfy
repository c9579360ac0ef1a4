// The pieces of java.lang.String and java.lang.Integer that the service's
// text handling relies on: isBlank, trim, startsWith, split (with and
// without a limit), Integer.parseInt / Integer.toString and 32-bit `int`
// arithmetic.  Strings are sequences of chars; no locale is involved.
module JavaText {
  import opened Wrappers

  // ---------------------------------------------------------------------
  // Character classes

  /** Character.isWhitespace, which String.isBlank uses. */
  predicate IsWhitespace(c: char)
  {
    c == ' ' || c == '\t' || c == '\n' || c == '\U{B}' || c == '\U{C}' || c == '\r'
    || ('\U{1C}' <= c <= '\U{1F}')
    || c == '\U{1680}' || ('\U{2000}' <= c <= '\U{2006}') || ('\U{2008}' <= c <= '\U{200A}')
    || c == '\U{2028}' || c == '\U{2029}' || c == '\U{205F}' || c == '\U{3000}'
  }

  /** String.isBlank: empty or only whitespace. */
  predicate IsBlank(s: string)
  {
    forall i :: 0 <= i < |s| ==> IsWhitespace(s[i])
  }

  /** What String.trim removes: every char at or below U+0020. */
  predicate IsTrimmed(c: char)
  {
    c <= ' '
  }

  predicate IsDigit(c: char)
  {
    '0' <= c <= '9'
  }

  predicate AllDigits(s: string)
  {
    forall i :: 0 <= i < |s| ==> IsDigit(s[i])
  }

  predicate StartsWith(s: string, prefix: string)
  {
    |prefix| <= |s| && s[..|prefix|] == prefix
  }

  predicate EndsWith(s: string, suffix: string)
  {
    |suffix| <= |s| && s[|s| - |suffix|..] == suffix
  }

  /** `sub` occurs somewhere in `s` (Python's `in`, Java's contains). */
  predicate ContainsText(s: string, sub: string)
    decreases |s|
  {
    StartsWith(s, sub) || (|s| > 0 && ContainsText(s[1..], sub))
  }

  // ---------------------------------------------------------------------
  // String.trim

  /** Number of leading chars String.trim drops. */
  function LeadingCut(s: string): (i: nat)
    ensures i <= |s|
    ensures forall k :: 0 <= k < i ==> IsTrimmed(s[k])
    ensures i < |s| ==> !IsTrimmed(s[i])
  {
    if |s| == 0 || !IsTrimmed(s[0]) then 0
    else
      var j := LeadingCut(s[1..]);
      assert forall k :: 1 <= k < j + 1 ==> s[k] == s[1..][k - 1];
      j + 1
  }

  /** Length String.trim keeps before dropping the trailing chars. */
  function TrailingKeep(s: string): (j: nat)
    ensures j <= |s|
    ensures forall k :: j <= k < |s| ==> IsTrimmed(s[k])
    ensures j > 0 ==> !IsTrimmed(s[j - 1])
  {
    if |s| == 0 || !IsTrimmed(s[|s| - 1]) then |s|
    else
      var j := TrailingKeep(s[..|s| - 1]);
      assert forall k :: j <= k < |s| - 1 ==> s[k] == s[..|s| - 1][k];
      j
  }

  /** String.trim: the text between the leading and trailing runs of chars <= ' '. */
  function Trim(s: string): (r: string)
  {
    var i := LeadingCut(s);
    var j := TrailingKeep(s);
    if j <= i then [] else s[i..j]
  }

  lemma TrimIsInnerSlice(s: string)
    ensures var r := Trim(s);
      exists i, j :: 0 <= i <= j <= |s| && r == s[i..j]
        && (forall k :: 0 <= k < i ==> IsTrimmed(s[k]))
        && (forall k :: j <= k < |s| ==> IsTrimmed(s[k]))
    ensures Trim(s) == [] || (!IsTrimmed(Trim(s)[0]) && !IsTrimmed(Trim(s)[|Trim(s)| - 1]))
  {
    var i := LeadingCut(s);
    var j := TrailingKeep(s);
    if j <= i {
      assert forall k :: 0 <= k < |s| ==> IsTrimmed(s[k]);
      assert Trim(s) == s[i..i];
    } else {
      assert Trim(s) == s[i..j];
    }
  }

  /** Appending chars that trim removes does not change the trimmed text. */
  lemma {:induction false} TrimIgnoresTrailing(s: string, tail: string)
    requires forall k :: 0 <= k < |tail| ==> IsTrimmed(tail[k])
    ensures Trim(s + tail) == Trim(s)
  {
    var t := s + tail;
    if LeadingCut(s) == |s| {
      // s is all trimmable, so is t
      assert forall k :: 0 <= k < |t| ==> IsTrimmed(t[k]);
      LeadingAll(t);
      LeadingAll(s);
    } else {
      LeadingPrefix(s, tail);
      TrailingSuffix(s, tail);
      assert t[LeadingCut(s)..TrailingKeep(s)] == s[LeadingCut(s)..TrailingKeep(s)];
    }
  }

  lemma LeadingAll(s: string)
    requires forall k :: 0 <= k < |s| ==> IsTrimmed(s[k])
    ensures LeadingCut(s) == |s| && Trim(s) == []
  {
  }

  lemma LeadingPrefix(s: string, tail: string)
    requires LeadingCut(s) < |s|
    ensures LeadingCut(s + tail) == LeadingCut(s)
  {
    var t := s + tail;
    assert forall k :: 0 <= k < |s| ==> t[k] == s[k];
  }

  lemma TrailingSuffix(s: string, tail: string)
    requires forall k :: 0 <= k < |tail| ==> IsTrimmed(tail[k])
    ensures TrailingKeep(s + tail) == TrailingKeep(s)
  {
    var t := s + tail;
    assert forall k :: 0 <= k < |s| ==> t[k] == s[k];
    assert forall k :: |s| <= k < |t| ==> t[k] == tail[k - |s|];
  }

  // ---------------------------------------------------------------------
  // String.split on a single literal char

  function IndexOf(s: string, c: char): (i: nat)
    requires c in s
    ensures i < |s| && s[i] == c && c !in s[..i]
  {
    if s[0] == c then 0
    else
      var j := IndexOf(s[1..], c);
      assert s[..j + 1] == [s[0]] + s[1..][..j];
      j + 1
  }

  /** Every field between occurrences of `c`, empty ones included (Python's str.split). */
  function SplitAll(s: string, c: char): (parts: seq<string>)
    ensures |parts| >= 1
    decreases |s|
  {
    if c !in s then [s]
    else
      var i := IndexOf(s, c);
      [s[..i]] + SplitAll(s[i + 1..], c)
  }

  function DropTrailingEmpty(parts: seq<string>): (r: seq<string>)
    ensures |r| <= |parts| && r == parts[..|r|]
    ensures r == [] || r[|r| - 1] != ""
    ensures forall k :: |r| <= k < |parts| ==> parts[k] == ""
  {
    if |parts| > 0 && parts[|parts| - 1] == "" then DropTrailingEmpty(parts[..|parts| - 1])
    else parts
  }

  /**
   * String.split(regex) for a regex matching one literal char: an input with
   * no match gives itself alone; otherwise every field, with the empty fields
   * at the end removed.
   */
  function JavaSplit(s: string, c: char): seq<string>
  {
    if c !in s then [s] else DropTrailingEmpty(SplitAll(s, c))
  }

  /** String.split(regex, 2): the text before the first match and all the rest. */
  function SplitFirst(s: string, c: char): (parts: seq<string>)
    ensures c !in s ==> parts == [s]
    ensures c in s ==> |parts| == 2 && parts[0] + [c] + parts[1] == s && c !in parts[0]
  {
    if c !in s then [s]
    else
      var i := IndexOf(s, c);
      assert s[..i] + [c] + s[i + 1..] == s;
      [s[..i], s[i + 1..]]
  }

  function Join(parts: seq<string>, sep: string): string
  {
    if |parts| == 0 then ""
    else if |parts| == 1 then parts[0]
    else parts[0] + sep + Join(parts[1..], sep)
  }

  /** Splitting at the first `c` recovers the text on either side of it. */
  lemma SplitFirstAround(a: string, c: char, rest: string)
    requires c !in a
    ensures SplitFirst(a + [c] + rest, c) == [a, rest]
  {
    var s := a + [c] + rest;
    IndexOfAfter(a, c, rest);
    assert s[..|a|] == a && s[|a| + 1..] == rest;
  }

  lemma IndexOfAfter(a: string, c: char, rest: string)
    requires c !in a
    ensures IndexOf(a + [c] + rest, c) == |a|
  {
    var s := a + [c] + rest;
    var i := IndexOf(s, c);
    assert s[|a|] == c;
    assert forall k :: 0 <= k < |a| ==> s[k] == a[k];
    assert forall k :: 0 <= k < i ==> s[..i][k] == s[k];
  }

  lemma SplitAllCons(a: string, c: char, rest: string)
    requires c !in a
    ensures SplitAll(a + [c] + rest, c) == [a] + SplitAll(rest, c)
  {
    var s := a + [c] + rest;
    assert s[|a|] == c;
    IndexOfAfter(a, c, rest);
    assert s[..|a|] == a;
    assert s[|a| + 1..] == rest;
  }

  lemma {:induction false} SplitAllOfJoin(parts: seq<string>, c: char)
    requires |parts| >= 1
    requires forall k :: 0 <= k < |parts| ==> c !in parts[k]
    ensures SplitAll(Join(parts, [c]), c) == parts
    decreases |parts|
  {
    if |parts| > 1 {
      SplitAllCons(parts[0], c, Join(parts[1..], [c]));
      SplitAllOfJoin(parts[1..], c);
      assert parts == [parts[0]] + parts[1..];
    }
  }

  lemma SplitAllTwo(a: string, c: char, b: string)
    requires c !in a && c !in b
    ensures SplitAll(a + [c] + b, c) == [a, b]
  {
    SplitAllOfJoin([a, b], c);
    assert Join([a, b], [c]) == a + [c] + Join([b], [c]);
  }

  // ---------------------------------------------------------------------
  // 32-bit int, Integer.parseInt and Integer.toString

  const IntMin: int := -0x8000_0000
  const IntMax: int := 0x7FFF_FFFF

  predicate IsInt32(n: int)
  {
    IntMin <= n <= IntMax
  }

  /** Two's-complement wrap-around of Java `int` arithmetic. */
  function Wrap32(n: int): (r: int)
    ensures IsInt32(r)
    ensures IsInt32(n) ==> r == n
    ensures (r - n) % 0x1_0000_0000 == 0
  {
    (n - IntMin) % 0x1_0000_0000 + IntMin
  }

  function DigitChar(d: nat): char
    requires d < 10
  {
    ['0', '1', '2', '3', '4', '5', '6', '7', '8', '9'][d]
  }

  function DigitsValue(s: string): nat
    requires AllDigits(s)
  {
    if s == [] then 0 else DigitsValue(s[..|s| - 1]) * 10 + (s[|s| - 1] as int - '0' as int)
  }

  /** Decimal digits of `n`, no leading zero (Integer.toString of a non-negative int). */
  function NatDigits(n: nat): (s: string)
    ensures |s| >= 1 && AllDigits(s)
  {
    if n < 10 then [DigitChar(n)] else NatDigits(n / 10) + [DigitChar(n % 10)]
  }

  /** Integer.toString. */
  function IntToString(n: int): (s: string)
    ensures |s| >= 1
    ensures forall k :: 0 <= k < |s| ==> IsDigit(s[k]) || (k == 0 && s[k] == '-')
  {
    if n < 0 then "-" + NatDigits(-n) else NatDigits(n)
  }

  /**
   * Integer.parseInt (radix 10): an optional '+' or '-', then at least one
   * digit, and the value must fit in an `int`; anything else is a
   * NumberFormatException (None).
   */
  function ParseInt(s: string): (r: Option<int>)
    ensures r.Some? ==> IsInt32(r.value) && |s| >= 1
    ensures r.Some? ==> forall k :: 0 <= k < |s| ==> IsDigit(s[k]) || (k == 0 && (s[k] == '-' || s[k] == '+'))
    ensures r.Some? && r.value < 0 ==> s[0] == '-'
  {
    if |s| == 0 then None
    else if s[0] == '-' || s[0] == '+' then
      if |s| == 1 || !AllDigits(s[1..]) then None
      else
        var d: int := DigitsValue(s[1..]);
        var v := if s[0] == '-' then -d else d;
        if IsInt32(v) then Some(v) else None
    else if AllDigits(s) then
      var v := DigitsValue(s);
      if IsInt32(v) then Some(v) else None
    else None
  }

  lemma {:induction false} NatDigitsValue(n: nat)
    ensures DigitsValue(NatDigits(n)) == n
  {
    if n >= 10 {
      var s := NatDigits(n);
      NatDigitsValue(n / 10);
      assert s[..|s| - 1] == NatDigits(n / 10);
    }
  }

  /** Integer.parseInt inverts Integer.toString on every `int`. */
  lemma ParseIntToString(n: int)
    requires IsInt32(n)
    ensures ParseInt(IntToString(n)) == Some(n)
  {
    var s := IntToString(n);
    if n < 0 {
      var d := NatDigits(-n);
      NatDigitsValue(-n);
      assert s[0] == '-' && s[1..] == d;
    } else {
      NatDigitsValue(n);
      assert s == NatDigits(n) && AllDigits(s);
    }
  }

  lemma IntToStringHasNo(n: int, c: char)
    requires !IsDigit(c) && c != '-'
    ensures c !in IntToString(n)
  {
  }
}
