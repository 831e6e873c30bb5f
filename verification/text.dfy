/** String primitives shared by the site's widgets: the character classes their regular
    expressions use, JavaScript's `trim` and `split`, decimal digit strings, and the
    leftmost-match search that `String.prototype.match` performs with a non-global regex. */
module Text {

  datatype Option<+T> = None | Some(value: T)

  /** The whitespace `String.prototype.trim` removes, restricted to ASCII. */
  predicate IsSpace(c: char) {
    c == ' ' || c == '\t' || c == '\n' || c == '\r' || c == '\U{B}' || c == '\U{C}'
  }

  /** `\d` */
  predicate IsDigit(c: char) {
    '0' <= c <= '9'
  }

  /** `[A-Za-z0-9_-]`, the character class of a Drive identifier. */
  predicate IsIdChar(c: char) {
    ('A' <= c <= 'Z') || ('a' <= c <= 'z') || IsDigit(c) || c == '_' || c == '-'
  }

  predicate AllIdChars(s: string) {
    forall i :: 0 <= i < |s| ==> IsIdChar(s[i])
  }

  /** Identifier characters include no `/`. */
  lemma IdCharsHaveNoSlash(s: string)
    requires AllIdChars(s)
    ensures '/' !in s
  {
    assert forall k :: 0 <= k < |s| ==> s[k] != '/';
  }

  /** `s` holds the literal `p` starting at position `i`. */
  predicate StartsWithAt(s: string, i: nat, p: string) {
    i + |p| <= |s| && s[i..i + |p|] == p
  }

  /** A literal placed between two strings is found right after the first. */
  lemma LiteralInside(a: string, b: string, c: string)
    ensures StartsWithAt(a + b + c, |a|, b)
  {
    assert (a + b + c)[|a|..|a| + |b|] == b;
  }

  /** A literal cannot start where one of its characters is missing. */
  lemma CharMismatch(s: string, i: nat, p: string, k: nat)
    requires k < |p| && i + k < |s| && s[i + k] != p[k]
    ensures !StartsWithAt(s, i, p)
  {
    assert i + |p| <= |s| ==> s[i..i + |p|][k] == s[i + k];
  }

  /** `s.includes(p)` */
  predicate Contains(s: string, p: string) {
    exists i :: 0 <= i <= |s| && StartsWithAt(s, i, p)
  }

  /** Length of the longest run of characters satisfying `p` that starts at `j`:
      what a greedy `[...]+` or `\d+` consumes there. */
  function SpanLen(s: string, j: nat, p: char -> bool): (n: nat)
    requires j <= |s|
    ensures j + n <= |s|
    ensures forall k :: j <= k < j + n ==> p(s[k])
    ensures j + n == |s| || !p(s[j + n])
    decreases |s| - j
  {
    if j < |s| && p(s[j]) then 1 + SpanLen(s, j + 1, p) else 0
  }

  // ---------------------------------------------------------------------------
  // trim

  function TrimStart(s: string): (r: string)
    ensures |r| <= |s| && r == s[|s| - |r|..]
    ensures forall i :: 0 <= i < |s| - |r| ==> IsSpace(s[i])
    ensures r == [] || !IsSpace(r[0])
  {
    if s != [] && IsSpace(s[0]) then TrimStart(s[1..]) else s
  }

  function TrimEnd(s: string): (r: string)
    ensures |r| <= |s| && r == s[..|r|]
    ensures forall i :: |r| <= i < |s| ==> IsSpace(s[i])
    ensures r == [] || !IsSpace(r[|r| - 1])
  {
    if s != [] && IsSpace(s[|s| - 1]) then TrimEnd(s[..|s| - 1]) else s
  }

  /** Trimming both ends leaves a slice of the text. */
  lemma {:induction false} TrimInside(s: string, t: string, r: string)
    requires |t| <= |s| && t == s[|s| - |t|..]
    requires |r| <= |t| && r == t[..|r|]
    ensures StartsWithAt(s, |s| - |t|, r)
  {
    assert s[|s| - |t|..|s| - |t| + |r|] == t[..|r|];
  }

  /** `s.trim()`: the slice of `s` left after removing leading and trailing whitespace. */
  function Trim(s: string): (r: string)
    ensures |r| <= |s|
    ensures r == [] || (!IsSpace(r[0]) && !IsSpace(r[|r| - 1]))
    ensures exists i :: 0 <= i <= |s| && StartsWithAt(s, i, r)
    ensures (s == [] || (!IsSpace(s[0]) && !IsSpace(s[|s| - 1]))) ==> r == s
  {
    var t := TrimStart(s);
    var r := TrimEnd(t);
    TrimInside(s, t, r);
    assert r != [] ==> r[0] == t[0];
    assert (s == [] || !IsSpace(s[0])) ==> t == s;
    r
  }

  lemma {:induction false} TrimStartSpaces(a: string, t: string)
    requires forall i :: 0 <= i < |a| ==> IsSpace(a[i])
    requires t == [] || !IsSpace(t[0])
    ensures TrimStart(a + t) == t
  {
    if a != [] {
      assert (a + t)[1..] == a[1..] + t;
      TrimStartSpaces(a[1..], t);
    } else {
      assert a + t == t;
    }
  }

  lemma {:induction false} TrimEndSpaces(t: string, b: string)
    requires forall i :: 0 <= i < |b| ==> IsSpace(b[i])
    requires t == [] || !IsSpace(t[|t| - 1])
    ensures TrimEnd(t + b) == t
  {
    if b != [] {
      assert (t + b)[..|t + b| - 1] == t + b[..|b| - 1];
      TrimEndSpaces(t, b[..|b| - 1]);
    } else {
      assert t + b == t;
    }
  }

  /** `trim` removes exactly the whitespace around a text that has none at its ends. */
  lemma TrimAround(a: string, core: string, b: string)
    requires forall i :: 0 <= i < |a| ==> IsSpace(a[i])
    requires forall i :: 0 <= i < |b| ==> IsSpace(b[i])
    requires core != [] && !IsSpace(core[0]) && !IsSpace(core[|core| - 1])
    ensures Trim(a + core + b) == core
  {
    assert a + core + b == a + (core + b);
    TrimStartSpaces(a, core + b);
    TrimEndSpaces(core, b);
  }

  /** Trimming adds no character. */
  lemma TrimKeepsOut(s: string, c: char)
    requires c !in s
    ensures c !in Trim(s)
  {
    var t := Trim(s);
    var i :| 0 <= i <= |s| && StartsWithAt(s, i, t);
    forall k | 0 <= k < |t|
      ensures t[k] != c
    {
      assert t[k] == s[i + k];
    }
  }

  /** A string of identifier characters has no whitespace at either end, so `trim` keeps it. */
  lemma TrimKeepsIds(s: string)
    requires AllIdChars(s)
    ensures Trim(s) == s
  {
  }

  // ---------------------------------------------------------------------------
  // indexOf / lastIndexOf / split / join

  /** `s.indexOf(c)`, with `|s|` standing for "not found". */
  function IndexOf(s: string, c: char): (h: nat)
    ensures h <= |s|
    ensures h < |s| ==> s[h] == c
    ensures forall i :: 0 <= i < h ==> s[i] != c
  {
    if s == [] then 0 else if s[0] == c then 0 else 1 + IndexOf(s[1..], c)
  }

  /** `s.lastIndexOf(c)` */
  function LastIndexOf(s: string, c: char): (r: Option<nat>)
    ensures r.Some? ==> r.value < |s| && s[r.value] == c
    ensures r.Some? ==> forall i :: r.value < i < |s| ==> s[i] != c
    ensures r.None? ==> c !in s
  {
    if s == [] then None
    else if s[|s| - 1] == c then Some(|s| - 1)
    else LastIndexOf(s[..|s| - 1], c)
  }

  /** A character that does not occur is not found. */
  lemma IndexOfAbsent(s: string, c: char)
    requires c !in s
    ensures IndexOf(s, c) == |s| && s[..IndexOf(s, c)] == s
  {
  }

  /** `s.split(sep)` for a one-character separator: the pieces between separators,
      with an empty piece wherever two separators touch or one sits at an end. */
  function Split(s: string, sep: char): (parts: seq<string>)
    ensures |parts| >= 1
  {
    if s == [] then [[]]
    else
      var rest := Split(s[1..], sep);
      if s[0] == sep then [[]] + rest else [[s[0]] + rest[0]] + rest[1..]
  }

  /** `parts.join(sep)` */
  function Join(parts: seq<string>, sep: char): string {
    if parts == [] then []
    else if |parts| == 1 then parts[0]
    else parts[0] + [sep] + Join(parts[1..], sep)
  }

  /** An empty first piece joins to a leading separator. */
  lemma JoinEmptyHead(rest: seq<string>, sep: char)
    requires |rest| >= 1
    ensures Join([[]] + rest, sep) == [sep] + Join(rest, sep)
  {
    assert ([[]] + rest)[1..] == rest;
  }

  /** A character put in front of the first piece comes first in the join. */
  lemma JoinConsHead(c: char, rest: seq<string>, sep: char)
    requires |rest| >= 1
    ensures Join([[c] + rest[0]] + rest[1..], sep) == [c] + Join(rest, sep)
  {
    var parts := [[c] + rest[0]] + rest[1..];
    if |rest| > 1 {
      assert parts[1..] == rest[1..];
    }
  }

  /** Joining the pieces of a split with the same separator gives back the string. */
  lemma {:induction false} JoinSplit(s: string, sep: char)
    ensures Join(Split(s, sep), sep) == s
  {
    if s != [] {
      var t := s[1..];
      JoinSplit(t, sep);
      if s[0] == sep {
        JoinEmptyHead(Split(t, sep), sep);
      } else {
        JoinConsHead(s[0], Split(t, sep), sep);
      }
      assert s == [s[0]] + t;
    }
  }

  /** The first piece is the text before the first separator; the other pieces are the
      pieces of the text after it. A string without the separator splits into itself alone. */
  lemma {:induction false} SplitAtFirst(s: string, sep: char)
    ensures var parts := Split(s, sep); var h := IndexOf(s, sep);
      && (h == |s| <==> |parts| == 1)
      && parts[0] == s[..h]
      && (h < |s| ==> parts[1..] == Split(s[h + 1..], sep))
  {
    if s != [] {
      var t := s[1..];
      SplitAtFirst(t, sep);
      var rest := Split(t, sep);
      var parts := Split(s, sep);
      if s[0] == sep {
        assert IndexOf(s, sep) == 0;
        assert parts == [[]] + rest;
        assert parts[1..] == rest;
      } else {
        var h := IndexOf(t, sep);
        assert IndexOf(s, sep) == 1 + h;
        assert parts == [[s[0]] + rest[0]] + rest[1..];
        assert s[..1 + h] == [s[0]] + t[..h];
        if h < |t| {
          assert parts[1..] == rest[1..];
          assert s[1 + h + 1..] == t[h + 1..];
        }
      }
    }
  }

  /** Joined back, the pieces after the first are exactly the text after the first
      separator; there are two pieces or more exactly when the separator occurs. */
  lemma {:induction false} SplitHeadRest(s: string, sep: char)
    ensures var parts := Split(s, sep); var h := IndexOf(s, sep);
      && (|parts| >= 2 <==> h < |s|)
      && parts[0] == s[..h]
      && (h < |s| ==> Join(parts[1..], sep) == s[h + 1..])
  {
    SplitAtFirst(s, sep);
    var h := IndexOf(s, sep);
    if h < |s| {
      JoinSplit(s[h + 1..], sep);
    }
  }

  // ---------------------------------------------------------------------------
  // decimal digit strings

  function DigitChar(d: nat): (c: char)
    requires d < 10
    ensures IsDigit(c)
  {
    ('0' as int + d) as char
  }

  /** Value of a decimal digit character (0 for anything else). */
  function DigitValue(c: char): (d: nat)
    ensures d < 10
  {
    if IsDigit(c) then (c as int - '0' as int) as nat else 0
  }

  predicate AllDigits(t: string) {
    forall i :: 0 <= i < |t| ==> IsDigit(t[i])
  }

  /** `parseInt` of a string of decimal digits. */
  function DigitsValue(s: string): nat {
    if s == [] then 0 else DigitsValue(s[..|s| - 1]) * 10 + DigitValue(s[|s| - 1])
  }

  /** A run of at most four digits reads as a number below the matching power of ten. */
  lemma {:induction false} DigitsValueBelow(s: string)
    ensures |s| <= 1 ==> DigitsValue(s) < 10
    ensures |s| <= 2 ==> DigitsValue(s) < 100
    ensures |s| <= 3 ==> DigitsValue(s) < 1000
    ensures |s| <= 4 ==> DigitsValue(s) < 10000
  {
    if s != [] {
      DigitsValueBelow(s[..|s| - 1]);
    }
  }

  /** `String(n)` for a non-negative integer: its decimal digits, without leading zeros. */
  function NatText(n: nat): (t: string)
    ensures |t| >= 1 && forall i :: 0 <= i < |t| ==> IsDigit(t[i])
    ensures |t| > 1 ==> t[0] != '0'
  {
    if n < 10 then [DigitChar(n)] else NatText(n / 10) + [DigitChar(n % 10)]
  }

  /** Reading back the decimal text of a number gives the number. */
  lemma {:induction false} NatTextRoundTrip(n: nat)
    ensures DigitsValue(NatText(n)) == n
  {
    if n >= 10 {
      NatTextRoundTrip(n / 10);
      var t := NatText(n);
      assert t[..|t| - 1] == NatText(n / 10);
    }
  }

  /** A run of `n` digits at `i` that the end or a non-digit closes is what `SpanLen`
      measures. */
  lemma {:induction false} DigitRun(t: string, i: nat, n: nat)
    requires i + n <= |t|
    requires forall k :: i <= k < i + n ==> IsDigit(t[k])
    requires i + n == |t| || !IsDigit(t[i + n])
    ensures SpanLen(t, i, IsDigit) == n
  {
  }

  /** A number written out between a literal and a text that does not start with a digit
      is read back whole: the run of digits after the literal is exactly its decimal text. */
  lemma {:induction false} NumberBetween(a: string, n: nat, t: string)
    requires t == [] || !IsDigit(t[0])
    ensures var s := a + NatText(n) + t;
      && StartsWithAt(s, 0, a)
      && SpanLen(s, |a|, IsDigit) == |NatText(n)|
      && DigitsValue(s[|a|..|a| + |NatText(n)|]) == n
      && s[|a| + |NatText(n)|..] == t
  {
    var d := NatText(n);
    var s := a + d + t;
    assert s[..|a|] == a;
    assert s[|a|..|a| + |d|] == d;
    assert s[|a| + |d|..] == t;
    forall k | |a| <= k < |a| + |d| ensures IsDigit(s[k]) {
      assert s[k] == d[k - |a|];
    }
    assert |a| + |d| < |s| ==> s[|a| + |d|] == t[0];
    DigitRun(s, |a|, |d|);
    NatTextRoundTrip(n);
  }

  /** The decimal text of a number below 10000 has as many digits as the number's order of
      magnitude says. */
  lemma {:induction false} NatTextLength(n: nat)
    ensures n < 10 ==> |NatText(n)| == 1
    ensures 10 <= n < 100 ==> |NatText(n)| == 2
    ensures 100 <= n < 1000 ==> |NatText(n)| == 3
    ensures 1000 <= n < 10000 ==> |NatText(n)| == 4
  {
    if n >= 10 {
      NatTextLength(n / 10);
    }
  }

  // ---------------------------------------------------------------------------
  // leftmost match

  /** The result of the first position, scanning from `from` upwards, at which the
      matcher `m` succeeds: how a non-global regex's `match` picks its match. */
  function FirstMatch<T>(s: string, from: nat, m: (string, nat) -> Option<T>): Option<T>
    decreases |s| + 1 - from
  {
    if from > |s| then None
    else if m(s, from).Some? then m(s, from)
    else FirstMatch(s, from + 1, m)
  }

  /** The search returns the match at a position where `m` succeeds and no earlier one does. */
  lemma {:induction false} FirstMatchAt<T>(s: string, from: nat, m: (string, nat) -> Option<T>, i: nat)
    requires from <= i <= |s|
    requires m(s, i).Some?
    requires forall j :: from <= j < i ==> m(s, j).None?
    ensures FirstMatch(s, from, m) == m(s, i)
    decreases i - from
  {
    if from < i {
      FirstMatchAt(s, from + 1, m, i);
    }
  }

  /** The search fails exactly when `m` fails at every position. */
  lemma {:induction false} FirstMatchNone<T>(s: string, from: nat, m: (string, nat) -> Option<T>)
    ensures FirstMatch(s, from, m).None? <==> forall i :: from <= i <= |s| ==> m(s, i).None?
    decreases |s| + 1 - from
  {
    if from <= |s| {
      FirstMatchNone(s, from + 1, m);
    }
  }

  /** A successful search names the leftmost position at which `m` succeeds. */
  lemma {:induction false} FirstMatchFound<T>(s: string, from: nat, m: (string, nat) -> Option<T>)
    requires FirstMatch(s, from, m).Some?
    ensures exists i :: from <= i <= |s| && m(s, i) == FirstMatch(s, from, m)
                        && forall j :: from <= j < i ==> m(s, j).None?
    decreases |s| + 1 - from
  {
    if m(s, from).None? {
      FirstMatchFound(s, from + 1, m);
    }
  }
}
