/** String operations of the JavaScript standard library that the modelled code relies on,
    restricted to what the code needs: ASCII case folding, `trim`, `includes`, `split`/`join`,
    splitting into maximal runs (`split(/re+/).filter(Boolean)`), decimal rendering and `padStart`. */
module Text {
  import opened Wrappers

  predicate IsDigit(c: char) { '0' <= c <= '9' }

  /** `[A-Za-z0-9]` */
  predicate IsAsciiAlnum(c: char) { 'A' <= c <= 'Z' || 'a' <= c <= 'z' || '0' <= c <= '9' }

  function LowerChar(c: char): char {
    if 'A' <= c <= 'Z' then (c as int + 32) as char else c
  }

  /** `String.prototype.toLowerCase`, on the ASCII letters only. */
  function ToLower(s: string): (r: string)
    ensures |r| == |s|
    ensures forall i :: 0 <= i < |s| ==> r[i] == LowerChar(s[i])
  {
    if s == [] then [] else [LowerChar(s[0])] + ToLower(s[1..])
  }

  /** Lowercasing leaves a text without capital letters unchanged. */
  lemma {:induction false} ToLowerNoop(s: string)
    requires forall i :: 0 <= i < |s| ==> !('A' <= s[i] <= 'Z')
    ensures ToLower(s) == s
  {
    if s != [] {
      ToLowerNoop(s[1..]);
    }
  }

  /** The characters `String.prototype.trim` and the regex class `\s` treat as white space
      (ECMAScript WhiteSpace and LineTerminator). */
  predicate IsWhitespace(c: char) {
    c == ' ' || c == '\t' || c == '\n' || c == '\r' || c == '\U{000B}' || c == '\U{000C}'
    || c == '\U{00A0}' || c == '\U{1680}' || ('\U{2000}' <= c <= '\U{200A}')
    || c == '\U{2028}' || c == '\U{2029}' || c == '\U{202F}' || c == '\U{205F}'
    || c == '\U{3000}' || c == '\U{FEFF}'
  }

  function TrimStart(s: string): (r: string)
    ensures |r| <= |s| && r == s[|s| - |r|..]
    ensures r == [] || !IsWhitespace(r[0])
    ensures forall i :: 0 <= i < |s| - |r| ==> IsWhitespace(s[i])
  {
    if s != [] && IsWhitespace(s[0]) then TrimStart(s[1..]) else s
  }

  function TrimEnd(s: string): (r: string)
    ensures |r| <= |s| && r == s[..|r|]
    ensures r == [] || !IsWhitespace(r[|r| - 1])
    ensures forall i :: |r| <= i < |s| ==> IsWhitespace(s[i])
  {
    if s != [] && IsWhitespace(s[|s| - 1]) then TrimEnd(s[..|s| - 1]) else s
  }

  /** `String.prototype.trim` */
  function Trim(s: string): (r: string) {
    TrimEnd(TrimStart(s))
  }

  /** A trimmed string neither starts nor ends with white space. */
  lemma TrimEnds(s: string)
    ensures var r := Trim(s); r == [] || (!IsWhitespace(r[0]) && !IsWhitespace(r[|r| - 1]))
  {
    var t := TrimStart(s);
    var r := TrimEnd(t);
    if r != [] {
      assert r[0] == t[0];
    }
  }

  lemma TrimStartNoop(s: string)
    requires s == [] || !IsWhitespace(s[0])
    ensures TrimStart(s) == s
  {}

  lemma TrimEndNoop(s: string)
    requires s == [] || !IsWhitespace(s[|s| - 1])
    ensures TrimEnd(s) == s
  {}

  lemma TrimNoop(s: string)
    requires s == [] || (!IsWhitespace(s[0]) && !IsWhitespace(s[|s| - 1]))
    ensures Trim(s) == s
  {
    TrimStartNoop(s);
    TrimEndNoop(s);
  }

  /** Trimming is idempotent. */
  lemma TrimIdempotent(s: string)
    ensures Trim(Trim(s)) == Trim(s)
  {
    TrimEnds(s);
    TrimNoop(Trim(s));
  }

  /** `s.includes(sub)` */
  predicate Contains(s: string, sub: string) {
    exists i :: 0 <= i <= |s| && sub <= s[i..]
  }

  lemma ContainsAt(s: string, sub: string, i: nat)
    requires i + |sub| <= |s| && s[i..i + |sub|] == sub
    ensures Contains(s, sub)
  {
    assert sub <= s[i..];
  }

  /** A text written around `sub` contains it. */
  lemma ContainsMiddle(pre: string, sub: string, post: string)
    ensures Contains(pre + sub + post, sub)
  {
    assert (pre + sub + post)[|pre|..|pre| + |sub|] == sub;
    ContainsAt(pre + sub + post, sub, |pre|);
  }

  /** Occurrences of `sub` in a prefix of `s` are occurrences in `s`. */
  lemma ContainsPrefix(s: string, t: string, sub: string)
    requires Contains(s, sub)
    ensures Contains(s + t, sub)
  {
    var i :| 0 <= i <= |s| && sub <= s[i..];
    assert (s + t)[i..i + |sub|] == s[i..i + |sub|];
    ContainsAt(s + t, sub, i);
  }

  /** A text lacking one of the characters of `sub` does not contain it. */
  lemma LacksChar(s: string, sub: string, j: nat)
    requires j < |sub| && sub[j] !in s
    ensures !Contains(s, sub)
  {
    forall i | 0 <= i <= |s| ensures !(sub <= s[i..]) {
      if i + j < |s| {
        assert s[i..][j] == s[i + j];
      }
    }
  }

  /** `keywords.some(k => s.includes(k))` */
  predicate ContainsAny(s: string, keywords: seq<string>) {
    exists k :: k in keywords && Contains(s, k)
  }

  lemma ContainsAnyAt(s: string, keywords: seq<string>, j: nat)
    requires j < |keywords| && Contains(s, keywords[j])
    ensures ContainsAny(s, keywords)
  {
    assert keywords[j] in keywords;
  }

  /** Position of the first occurrence of `sub` at or after `from`, as `s.indexOf(sub, from)`. */
  function IndexFrom(s: string, sub: string, from: nat): (r: Option<nat>)
    requires from <= |s|
    ensures r.Some? ==> from <= r.value && r.value + |sub| <= |s| && sub <= s[r.value..]
    ensures r.Some? ==> forall j :: from <= j < r.value ==> !(sub <= s[j..])
    ensures r.None? ==> forall j :: from <= j <= |s| ==> !(sub <= s[j..])
    decreases |s| - from
  {
    if sub <= s[from..] then Some(from)
    else if from == |s| then None
    else IndexFrom(s, sub, from + 1)
  }

  /** `s.indexOf(sub)`, with `None` for -1. */
  function IndexOf(s: string, sub: string): (r: Option<nat>)
    ensures r.Some? ==> r.value + |sub| <= |s| && s[r.value..r.value + |sub|] == sub
    ensures r.Some? ==> forall j :: 0 <= j < r.value ==> !(sub <= s[j..])
    ensures r.None? <==> !Contains(s, sub)
  {
    IndexFrom(s, sub, 0)
  }

  /** The first occurrence found at or after `from` is the one that the search characterises. */
  lemma {:induction false} IndexFromIs(s: string, sub: string, from: nat, i: nat)
    requires from <= i && i + |sub| <= |s| && sub <= s[i..]
    requires forall j :: from <= j < i ==> !(sub <= s[j..])
    ensures IndexFrom(s, sub, from) == Some(i)
    decreases i - from
  {
    if from < i {
      IndexFromIs(s, sub, from + 1, i);
    }
  }

  lemma IndexOfIs(s: string, sub: string, i: nat)
    requires i + |sub| <= |s| && sub <= s[i..]
    requires forall j :: 0 <= j < i ==> !(sub <= s[j..])
    ensures IndexOf(s, sub) == Some(i)
  {
    IndexFromIs(s, sub, 0, i);
  }

  /** The first occurrence of a one-character string is the first position holding that character. */
  lemma IndexOfChar(s: string, c: char, i: nat)
    requires i < |s| && s[i] == c
    requires forall j :: 0 <= j < i ==> s[j] != c
    ensures IndexOf(s, [c]) == Some(i)
  {
    forall j | 0 <= j < i ensures !([c] <= s[j..]) {
      assert s[j..][0] == s[j];
    }
    assert [c] <= s[i..] by {
      assert s[i..][0] == s[i];
    }
    IndexOfIs(s, [c], i);
  }

  /** `s.split(sep)` for a non-empty string separator. */
  function Split(s: string, sep: string): (parts: seq<string>)
    requires sep != []
    ensures |parts| >= 1
    ensures forall k :: 0 <= k < |parts| ==> !Contains(parts[k], sep)
    decreases |s|
  {
    match IndexOf(s, sep)
    case None => [s]
    case Some(i) =>
      var head := s[..i];
      assert !Contains(head, sep) by {
        forall j | 0 <= j <= |head| ensures !(sep <= head[j..]) {
          if j + |sep| <= i {
            assert head[j..][..|sep|] == s[j..][..|sep|];
          }
        }
      }
      [head] + Split(s[i + |sep|..], sep)
  }

  /** `parts.join(sep)` */
  function Join(parts: seq<string>, sep: string): string {
    if parts == [] then []
    else if |parts| == 1 then parts[0]
    else parts[0] + sep + Join(parts[1..], sep)
  }

  /** Joining the pieces of a split with the same separator gives back the original text. */
  lemma {:induction false} JoinSplit(s: string, sep: string)
    requires sep != []
    ensures Join(Split(s, sep), sep) == s
    decreases |s|
  {
    match IndexOf(s, sep)
    case None =>
    case Some(i) =>
      var rest := s[i + |sep|..];
      var tail := Split(rest, sep);
      JoinSplit(rest, sep);
      var parts := [s[..i]] + tail;
      assert Split(s, sep) == parts;
      assert parts[1..] == tail;
      assert Join(parts, sep) == s[..i] + sep + Join(tail, sep);
      assert s == s[..i] + sep + rest;
  }

  /** Length of the longest prefix of `s` whose characters all satisfy `keep`. */
  function RunLength(s: string, keep: char -> bool): (n: nat)
    ensures n <= |s|
  {
    if s == [] || !keep(s[0]) then 0 else 1 + RunLength(s[1..], keep)
  }

  /** The run is maximal: every character in it satisfies `keep`, the one after it does not. */
  lemma {:induction false} RunLengthFacts(s: string, keep: char -> bool)
    ensures forall i :: 0 <= i < RunLength(s, keep) ==> keep(s[i])
    ensures RunLength(s, keep) == |s| || !keep(s[RunLength(s, keep)])
  {
    if s != [] && keep(s[0]) {
      RunLengthFacts(s[1..], keep);
      assert forall i :: 1 <= i < RunLength(s, keep) ==> s[i] == s[1..][i - 1];
    }
  }

  /** The maximal runs of characters satisfying `keep`, left to right: `s.split(/[^keep]+/).filter(Boolean)`. */
  function Runs(s: string, keep: char -> bool): (r: seq<string>)
    decreases |s|
  {
    if s == [] then []
    else if !keep(s[0]) then Runs(s[1..], keep)
    else
      var n := RunLength(s, keep);
      [s[..n]] + Runs(s[n..], keep)
  }

  /** Every run is non-empty and made of characters satisfying `keep`. */
  lemma {:induction false} RunsAreRuns(s: string, keep: char -> bool)
    ensures forall k :: 0 <= k < |Runs(s, keep)| ==>
      Runs(s, keep)[k] != [] && forall i :: 0 <= i < |Runs(s, keep)[k]| ==> keep(Runs(s, keep)[k][i])
    decreases |s|
  {
    if s == [] {
    } else if !keep(s[0]) {
      RunsAreRuns(s[1..], keep);
    } else {
      RunLengthFacts(s, keep);
      var n := RunLength(s, keep);
      RunsAreRuns(s[n..], keep);
      var r := Runs(s, keep);
      assert r == [s[..n]] + Runs(s[n..], keep);
      assert forall k :: 1 <= k < |r| ==> r[k] == Runs(s[n..], keep)[k - 1];
    }
  }

  /** `s.split(/\s+/).filter(Boolean)` */
  function Words(s: string): seq<string> {
    Runs(s, c => !IsWhitespace(c))
  }

  function DigitChar(d: nat): (c: char)
    requires d < 10
    ensures IsDigit(c)
  {
    ('0' as int + d) as char
  }

  /** Decimal rendering of a natural number, as `String(n)`. */
  function NatToString(n: nat): (r: string)
    ensures r != [] && forall i :: 0 <= i < |r| ==> IsDigit(r[i])
  {
    if n < 10 then [DigitChar(n)] else NatToString(n / 10) + [DigitChar(n % 10)]
  }

  /** `s.padStart(width, pad)` for a one-character pad. */
  function PadStart(s: string, width: nat, pad: char): (r: string)
    ensures |r| == if |s| < width then width else |s|
    ensures r == seq(|r| - |s|, _ => pad) + s
  {
    if |s| < width then seq(width - |s|, _ => pad) + s else s
  }

  /** A decimal rendering left-padded with zeros to `width` digits. */
  function Padded(n: nat, width: nat): (r: string)
    ensures forall i :: 0 <= i < |r| ==> IsDigit(r[i])
  {
    PadStart(NatToString(n), width, '0')
  }

  /** A decimal rendering of an integer, with a minus sign for negative values, as `String(n)`. */
  function IntToString(n: int): (r: string)
    ensures r != []
  {
    if n < 0 then "-" + NatToString(-n) else NatToString(n)
  }

  /** The number a string of decimal digits denotes. */
  function DigitsValue(s: string): nat
    requires forall i :: 0 <= i < |s| ==> IsDigit(s[i])
  {
    if s == [] then 0
    else
      assert IsDigit(s[|s| - 1]);
      DigitsValue(s[..|s| - 1]) * 10 + (s[|s| - 1] as int - '0' as int)
  }

  /** Reading a rendering back gives the number. */
  lemma {:induction false} NatToStringValue(n: nat)
    ensures DigitsValue(NatToString(n)) == n
  {
    if n >= 10 {
      NatToStringValue(n / 10);
      var r := NatToString(n);
      assert r[..|r| - 1] == NatToString(n / 10);
    }
  }

  /** Leading zeros do not change the value. */
  lemma {:induction false} LeadingZerosValue(k: nat, s: string)
    requires forall i :: 0 <= i < |s| ==> IsDigit(s[i])
    ensures var z := seq(k, _ => '0') + s; (forall i :: 0 <= i < |z| ==> IsDigit(z[i])) && DigitsValue(z) == DigitsValue(s)
    decreases |s| + k
  {
    var z := seq(k, _ => '0') + s;
    if s == [] {
      if k > 0 {
        assert z[..|z| - 1] == seq(k - 1, _ => '0') + [];
        LeadingZerosValue(k - 1, []);
      }
    } else {
      assert z[..|z| - 1] == seq(k, _ => '0') + s[..|s| - 1];
      LeadingZerosValue(k, s[..|s| - 1]);
    }
  }

  /** A zero-padded rendering reads back as the number, so different numbers are padded differently. */
  lemma PaddedValue(n: nat, width: nat)
    ensures DigitsValue(Padded(n, width)) == n
  {
    var d := NatToString(n);
    NatToStringValue(n);
    LeadingZerosValue(|Padded(n, width)| - |d|, d);
  }

  /** A string whose every character satisfies `keep` is one run. */
  lemma {:induction false} RunLengthAll(s: string, keep: char -> bool)
    requires forall i :: 0 <= i < |s| ==> keep(s[i])
    ensures RunLength(s, keep) == |s|
  {
    if s != [] {
      assert forall i :: 0 <= i < |s| - 1 ==> s[1..][i] == s[i + 1];
      RunLengthAll(s[1..], keep);
    }
  }

  /** A run over a concatenation stops inside the first part unless it covers all of it. */
  lemma {:induction false} RunLengthAppend(x: string, y: string, keep: char -> bool)
    ensures RunLength(x + y, keep) == if RunLength(x, keep) < |x| then RunLength(x, keep) else |x| + RunLength(y, keep)
  {
    if x == [] {
      assert x + y == y;
    } else if keep(x[0]) {
      assert (x + y)[0] == x[0];
      assert (x + y)[1..] == x[1..] + y;
      RunLengthAppend(x[1..], y, keep);
    } else {
      assert (x + y)[0] == x[0];
    }
  }
}
