/** The order-id regular expression `/\b[A-Za-z0-9]{6,}\b/` that both the intent classifier
    (intent-classifier.js) and the assistant engine (engine.js) use.

    At a start position `i` the greedy `[A-Za-z0-9]{6,}` takes the whole run of ASCII letters and
    digits beginning at `i`; backtracking cannot help, because inside that run both neighbours of
    every position are word characters, so no `\b` can hold there. A match therefore starts at `i`
    exactly when `i` is a word boundary, the run is at least six long, and the character after the
    run is not a word character (in `\w` but not in the run is only `_`). */
module Patterns {
  import opened Wrappers
  import opened Text

  /** The regex class `\w`. */
  predicate IsWordChar(c: char) { IsAsciiAlnum(c) || c == '_' }

  /** Length of the run of `[A-Za-z0-9]` that starts at position `i`. */
  function AlnumRunAt(s: string, i: nat): (n: nat)
    requires i <= |s|
    ensures i + n <= |s|
    ensures forall k :: i <= k < i + n ==> IsAsciiAlnum(s[k])
    ensures i + n == |s| || !IsAsciiAlnum(s[i + n])
  {
    RunLengthFacts(s[i..], IsAsciiAlnum);
    var n := RunLength(s[i..], IsAsciiAlnum);
    assert forall k :: i <= k < i + n ==> s[k] == s[i..][k - i];
    n
  }

  /** `/\b[A-Za-z0-9]{6,}\b/` has a match that starts at position `i`. */
  predicate OrderIdAt(s: string, i: nat) {
    i < |s|
    && (i == 0 || !IsWordChar(s[i - 1]))
    && AlnumRunAt(s, i) >= 6
    && (i + AlnumRunAt(s, i) == |s| || !IsWordChar(s[i + AlnumRunAt(s, i)]))
  }

  /** `/\b[A-Za-z0-9]{6,}\b/.test(s)` */
  predicate HasOrderId(s: string) {
    exists i :: 0 <= i < |s| && OrderIdAt(s, i)
  }

  /** The leftmost match position at or after `from`. */
  function FirstOrderIdFrom(s: string, from: nat): (r: Option<nat>)
    requires from <= |s|
    ensures r.Some? ==> from <= r.value < |s| && OrderIdAt(s, r.value)
    ensures r.Some? ==> forall j :: from <= j < r.value ==> !OrderIdAt(s, j)
    ensures r.None? ==> forall j :: from <= j < |s| ==> !OrderIdAt(s, j)
    decreases |s| - from
  {
    if from == |s| then None
    else if OrderIdAt(s, from) then Some(from)
    else FirstOrderIdFrom(s, from + 1)
  }

  /** `s.match(/\b[A-Za-z0-9]{6,}\b/)?.[0]`: the text of the leftmost match. */
  function MatchOrderId(s: string): (r: Option<string>)
    ensures r.None? <==> !HasOrderId(s)
    ensures r.Some? ==> exists i :: 0 <= i < |s| && OrderIdAt(s, i) && r.value == s[i..i + AlnumRunAt(s, i)]
                                    && forall j :: 0 <= j < i ==> !OrderIdAt(s, j)
  {
    match FirstOrderIdFrom(s, 0)
    case None => None
    case Some(i) => Some(s[i..i + AlnumRunAt(s, i)])
  }

  /** A match is a run of at least six ASCII letters and digits. */
  lemma MatchIsAlnumRun(s: string)
    requires MatchOrderId(s).Some?
    ensures var m := MatchOrderId(s).value; |m| >= 6 && forall k :: 0 <= k < |m| ==> IsAsciiAlnum(m[k])
  {
    var i := FirstOrderIdFrom(s, 0).value;
    var m := s[i..i + AlnumRunAt(s, i)];
    assert forall k :: 0 <= k < |m| ==> m[k] == s[i + k];
  }
}
