/** The storefront's offline support assistant (apps/storefront/src/assistant/engine.ts): small
    talk by substring, an order-status line for the first order reference in the message, and the
    ground-truth answer whose question shares the most words with the message.

    The ground-truth list is a parameter. The order lookup `getOrderStatus` is an HTTP request; its
    outcomes are the map `orders`, and an id missing from it stands for a request that fails, which
    makes `askSupport` reject. */
module SupportEngine {
  import opened Wrappers
  import opened Text
  import opened Records

  /** One entry of the ground-truth list. */
  datatype QA = QA(qid: string, category: string, question: string, answer: string)

  /** What `getOrderStatus` resolves to. */
  datatype OrderInfo = OrderInfo(orderId: string, status: string, carrier: Option<string>, eta: Option<string>)

  /** `{ reply, citation }`, with `null` as `None`. */
  datatype SupportReply = SupportReply(reply: string, citation: Option<string>)

  // Masking

  const Bullets := "\U{2022}\U{2022}\U{2022}"

  /** `maskId(id)` (lines 8-11): ids of at most four characters are shown whole, longer ones as
      three bullets and their last four characters. */
  function MaskId(id: string): (r: string)
    ensures |id| <= 4 ==> r == id
    ensures |id| > 4 ==> |r| == 7 && r[..3] == Bullets && r[3..] == id[|id| - 4..]
  {
    if |id| <= 4 then id else Bullets + id[|id| - 4..]
  }

  /** A masked long id reveals nothing but its last four characters: two long ids with the same
      ending mask alike. */
  lemma {:induction false} MaskRevealsOnlyTail(a: string, b: string)
    requires |a| > 4 && |b| > 4 && a[|a| - 4..] == b[|b| - 4..]
    ensures MaskId(a) == MaskId(b)
  {
    var ma, mb := MaskId(a), MaskId(b);
    assert ma == ma[..3] + ma[3..];
    assert mb == mb[..3] + mb[3..];
  }

  // Word overlap

  /** `[a-z0-9]` */
  predicate IsTokenChar(c: char) { 'a' <= c <= 'z' || '0' <= c <= '9' }

  /** `new Set(s.toLowerCase().split(/[^a-z0-9]+/).filter(Boolean))` */
  function Tokens(s: string): set<string> {
    set t | t in Runs(ToLower(s), IsTokenChar)
  }

  /** The words are non-empty and made of lowercase ASCII letters and digits only. */
  lemma TokensAreWords(s: string)
    ensures forall t :: t in Tokens(s) ==> t != [] && forall i :: 0 <= i < |t| ==> IsTokenChar(t[i])
  {
    RunsAreRuns(ToLower(s), IsTokenChar);
  }

  /** The words of the message that also occur in the question. */
  function Overlap(q: string, question: string): set<string> {
    Tokens(q) * Tokens(question)
  }

  /** `score(q, qa)` (lines 13-19): the loop over the message's distinct words counts those the
      question also has, so the score is the size of the overlap, and never more than the number
      of distinct words in the message. */
  method Score(q: string, qa: QA) returns (overlap: nat)
    ensures overlap == |Overlap(q, qa.question)|
    ensures overlap <= |Tokens(q)|
  {
    var tokens := Tokens(q);
    var cand := Tokens(qa.question);
    var rest := tokens;
    ghost var seen: set<string> := {};
    overlap := 0;
    while rest != {}
      invariant rest + seen == tokens && rest !! seen
      invariant overlap == |seen * cand| && overlap <= |seen|
      decreases |rest|
    {
      var t :| t in rest;
      if t in cand {
        assert (seen + {t}) * cand == seen * cand + {t};
        overlap := overlap + 1;
      } else {
        assert (seen + {t}) * cand == seen * cand;
      }
      rest := rest - {t};
      seen := seen + {t};
    }
    assert seen == tokens;
  }

  /** The scores of the entries, in list order. */
  function Scores(q: string, gt: seq<QA>): (r: seq<nat>)
    ensures |r| == |gt| && forall k :: 0 <= k < |gt| ==> r[k] == |Overlap(q, gt[k].question)|
  {
    if gt == [] then [] else [|Overlap(q, gt[0].question)|] + Scores(q, gt[1..])
  }

  /** `ranked[0]` (lines 47-48): the sort by descending score is stable, so the top entry is the
      first one with the highest score. */
  function TopOf(scores: seq<nat>): (k: nat)
    requires scores != []
    ensures k < |scores|
    ensures forall j :: 0 <= j < |scores| ==> scores[j] <= scores[k]
    ensures forall j :: 0 <= j < k ==> scores[j] < scores[k]
  {
    if |scores| == 1 then 0
    else
      var k := TopOf(scores[..|scores| - 1]);
      if scores[|scores| - 1] > scores[k] then |scores| - 1 else k
  }

  // Order references

  /** `[A-Z0-9]` */
  predicate IsRefChar(c: char) { 'A' <= c <= 'Z' || '0' <= c <= '9' }

  /** The characters of `[A-Z0-9]` from position `i` on. */
  function RefRunAt(s: string, i: nat): (n: nat)
    requires i <= |s|
    ensures i + n <= |s|
    ensures forall k :: i <= k < i + n ==> IsRefChar(s[k])
    ensures i + n == |s| || !IsRefChar(s[i + n])
  {
    RunLengthFacts(s[i..], IsRefChar);
    var n := RunLength(s[i..], IsRefChar);
    assert forall k :: i <= k < i + n ==> s[k] == s[i..][k - i];
    n
  }

  /** The leftmost position at or after `from` where `/[A-Z0-9]{10,}/` can match. */
  function FirstRefFrom(s: string, from: nat): (r: Option<nat>)
    requires from <= |s|
    ensures r.Some? ==> from <= r.value < |s| && RefRunAt(s, r.value) >= 10
    ensures r.Some? ==> forall j :: from <= j < r.value ==> RefRunAt(s, j) < 10
    ensures r.None? ==> forall j :: from <= j < |s| ==> RefRunAt(s, j) < 10
    decreases |s| - from
  {
    if from == |s| then None
    else if RefRunAt(s, from) >= 10 then Some(from)
    else FirstRefFrom(s, from + 1)
  }

  /** `input.match(ORDER_RE)[0]` (lines 6, 41): the leftmost match, which the greedy quantifier
      extends over the whole run of `[A-Z0-9]`. */
  function OrderRef(s: string): Option<string> {
    match FirstRefFrom(s, 0)
    case None => None
    case Some(i) => Some(s[i..i + RefRunAt(s, i)])
  }

  lemma RefRunStep(s: string, i: nat)
    requires 0 < i <= |s| && IsRefChar(s[i - 1])
    ensures RefRunAt(s, i - 1) == 1 + RefRunAt(s, i)
  {
    assert s[i - 1..][1..] == s[i..];
  }

  /** The reference looked up, found at position `i`, is a whole run of at least ten capital
      letters and digits: `RefRunAt` ends the run where `[A-Z0-9]` stops, and the character just
      before it is not in `[A-Z0-9]` either. */
  lemma OrderRefIsRun(s: string, i: nat)
    requires FirstRefFrom(s, 0) == Some(i)
    ensures OrderRef(s) == Some(s[i..i + RefRunAt(s, i)]) && RefRunAt(s, i) >= 10
    ensures i == 0 || !IsRefChar(s[i - 1])
  {
    if i > 0 && IsRefChar(s[i - 1]) {
      RefRunStep(s, i);
      assert false;
    }
  }

  // askSupport

  const Greetings: seq<string> := ["hello", "hi", "hey", "good morning", "good afternoon", "good evening"]
  const Farewells: seq<string> := ["goodbye", "bye", "see you", "farewell", "have a good day", "take care"]
  const Thanks: seq<string> := ["thank you", "thanks", "appreciate it", "much appreciated"]

  const GreetingReply := "Hello! How can I help you today? I can assist with shipping, returns, warranty, payments, or check your order status if you provide an order ID."
  const FarewellReply := "Goodbye! Have a great day and feel free to reach out if you need any help."
  const ThanksReply := "You're welcome! I'm happy to help. Is there anything else I can assist you with?"
  const Refusal := "Sorry" + "\U{2014}I can't answer that. Please ask about shipping, returns, warranty, payments, or share an order ID."

  /** The text the small-talk lists are matched against: the input lowercased, then trimmed. */
  function Normalized(input: string): string {
    Trim(ToLower(input))
  }

  /** The small-talk reply for the input, if the input has one: greetings first, then farewells,
      then thanks (lines 29-39). */
  function SmallTalk(normalized: string): Option<string> {
    if ContainsAny(normalized, Greetings) then Some(GreetingReply)
    else if ContainsAny(normalized, Farewells) then Some(FarewellReply)
    else if ContainsAny(normalized, Thanks) then Some(ThanksReply)
    else None
  }

  /** `${text} [${qid}]` */
  function Cited(text: string, qid: string): string {
    text + " [" + qid + "]"
  }

  /** `Order ${masked}: ${status}${carrier}${eta}.` (lines 55-58). */
  function StatusLine(info: OrderInfo): string {
    "Order " + MaskId(info.orderId) + ": " + info.status
    + (if Truthy(info.carrier) then " via " + info.carrier.value else "")
    + (if Truthy(info.eta) then "; ETA " + info.eta.value else "")
    + "."
  }

  /** The entry `ranked[0]` when it scores above zero. */
  function Confident(input: string, gt: seq<QA>): (r: Option<nat>)
    ensures r.Some? ==> r.value < |gt|
  {
    if gt == [] then None
    else
      var scores := Scores(input, gt);
      var k := TopOf(scores);
      if scores[k] > 0 then Some(k) else None
  }

  /** Lines 47-65, once small talk is ruled out and the status, if any, is known. */
  function Answer(input: string, gt: seq<QA>, status: Option<OrderInfo>): SupportReply {
    var top := Confident(input, gt);
    if top.None? && status.None? then SupportReply(Refusal, None)
    else
      var answer := if top.Some? then Cited(gt[top.value].answer, gt[top.value].qid) else "";
      var cite := if top.Some? then Some("[" + gt[top.value].qid + "]") else None;
      match status
      case Some(info) => SupportReply(if answer != "" then StatusLine(info) + "\n\n" + answer else StatusLine(info), cite)
      case None => SupportReply(answer, cite)
  }

  /** `askSupport(input)` (lines 21-66). */
  function AskSupport(input: string, gt: seq<QA>, orders: map<string, OrderInfo>): Result<SupportReply, string> {
    match SmallTalk(Normalized(input))
    case Some(text) => Success(SupportReply(text, None))
    case None =>
      match OrderRef(input)
      case Some(id) =>
        if id in orders then Success(Answer(input, gt, Some(orders[id]))) else Failure("Order not found")
      case None => Success(Answer(input, gt, None))
  }

  /** Small talk is answered before anything is looked up, never with a citation, and greetings
      take precedence over farewells, farewells over thanks. */
  lemma SmallTalkFirst(input: string, gt: seq<QA>, orders: map<string, OrderInfo>)
    requires ContainsAny(Normalized(input), Greetings) || ContainsAny(Normalized(input), Farewells)
             || ContainsAny(Normalized(input), Thanks)
    ensures AskSupport(input, gt, orders).Success? && AskSupport(input, gt, orders).value.citation.None?
    ensures var r := AskSupport(input, gt, orders).value.reply;
      && (ContainsAny(Normalized(input), Greetings) ==> r == GreetingReply)
      && (!ContainsAny(Normalized(input), Greetings) && ContainsAny(Normalized(input), Farewells) ==> r == FarewellReply)
      && (!ContainsAny(Normalized(input), Greetings) && !ContainsAny(Normalized(input), Farewells) ==> r == ThanksReply)
  {}

  /** Any message containing "hi" is a greeting, whatever else it asks. */
  lemma HiIsGreeting(input: string, gt: seq<QA>, orders: map<string, OrderInfo>)
    requires Contains(Normalized(input), "hi")
    ensures AskSupport(input, gt, orders) == Success(SupportReply(GreetingReply, None))
  {
    HiIsGreetingText(Normalized(input));
  }

  lemma HiIsGreetingText(normalized: string)
    requires Contains(normalized, "hi")
    ensures SmallTalk(normalized) == Some(GreetingReply)
  {
    ContainsAnyAt(normalized, Greetings, 1);
  }

  /** "shipping" among them. */
  lemma ShippingIsGreeting(gt: seq<QA>, orders: map<string, OrderInfo>)
    ensures AskSupport("shipping", gt, orders) == Success(SupportReply(GreetingReply, None))
  {
    ShippingHasHi();
    HiIsGreeting("shipping", gt, orders);
  }

  lemma ShippingHasHi()
    ensures Contains(Normalized("shipping"), "hi")
  {
    var s := "shipping";
    assert s[0] == 's' && s[|s| - 1] == 'g' && s[1] == 'h' && s[2] == 'i';
    NormalizedNoop(s);
    ContainsPair(s, 1, 'h', 'i');
  }

  /** A text without capital letters and without white space at either end is its own
      normalised form. */
  lemma NormalizedNoop(s: string)
    requires forall i :: 0 <= i < |s| ==> !('A' <= s[i] <= 'Z')
    requires s == [] || (!IsWhitespace(s[0]) && !IsWhitespace(s[|s| - 1]))
    ensures Normalized(s) == s
  {
    ToLowerNoop(s);
    TrimNoop(s);
  }

  lemma ContainsPair(s: string, i: nat, a: char, b: char)
    requires i + 1 < |s| && s[i] == a && s[i + 1] == b
    ensures Contains(s, [a, b])
  {
    ContainsAt(s, [a, b], i);
  }

  /** The request fails exactly when the message is not small talk and its order reference is
      unknown to the order service. */
  lemma AskSupportFails(input: string, gt: seq<QA>, orders: map<string, OrderInfo>)
    ensures AskSupport(input, gt, orders).Failure? <==>
      SmallTalk(Normalized(input)).None? && OrderRef(input).Some? && OrderRef(input).value !in orders
  {}

  /** The refusal, without a citation, is given exactly when the message is not small talk, has no
      order reference, and no entry shares a word with it (or there are no entries). */
  lemma RefusalWhenNothingMatches(input: string, gt: seq<QA>, orders: map<string, OrderInfo>)
    ensures AskSupport(input, gt, orders) == Success(SupportReply(Refusal, None)) <==>
      && SmallTalk(Normalized(input)).None? && OrderRef(input).None?
      && forall k :: 0 <= k < |gt| ==> Overlap(input, gt[k].question) == {}
  {
    ConfidentIff(input, gt);
    match SmallTalk(Normalized(input))
    case Some(_) =>
      SmallTalkNotRefusal(Normalized(input));
    case None =>
      match OrderRef(input)
      case Some(id) =>
        if id in orders {
          AnswerIsRefusal(input, gt, Some(orders[id]));
        }
      case None =>
        AnswerIsRefusal(input, gt, None);
  }

  /** Once small talk is ruled out, the refusal is the reply exactly when there is neither a
      confident answer nor a status, and it never comes with a citation. */
  lemma AnswerIsRefusal(input: string, gt: seq<QA>, status: Option<OrderInfo>)
    ensures Answer(input, gt, status).reply == Refusal <==> Confident(input, gt).None? && status.None?
    ensures Answer(input, gt, status).reply == Refusal ==> Answer(input, gt, status).citation.None?
  {
    var a := Answer(input, gt, status).reply;
    assert Refusal[0] == 'S' && Refusal[|Refusal| - 1] == '.';
    match status
    case Some(info) =>
      StatusLineNotRefusal(info);
      var line := StatusLine(info);
      assert a[0] == line[0];
    case None =>
      if Confident(input, gt).Some? {
        var k := Confident(input, gt).value;
        CitedEnds(gt[k].answer, gt[k].qid);
      }
  }

  lemma ConfidentIff(input: string, gt: seq<QA>)
    ensures Confident(input, gt).None? <==> forall k :: 0 <= k < |gt| ==> Overlap(input, gt[k].question) == {}
  {
    if gt != [] {
      var scores := Scores(input, gt);
      var k := TopOf(scores);
      if scores[k] == 0 {
        forall j | 0 <= j < |gt| ensures Overlap(input, gt[j].question) == {} {
          assert scores[j] == 0;
        }
      } else {
        assert Overlap(input, gt[k].question) != {};
      }
    }
  }

  lemma CitedEnds(text: string, qid: string)
    ensures Cited(text, qid)[|Cited(text, qid)| - 1] == ']'
  {}

  lemma StatusLineNotRefusal(info: OrderInfo)
    ensures |StatusLine(info)| >= 6 && StatusLine(info)[0] == 'O'
  {
    var line := StatusLine(info);
    assert line == "Order " + line[6..];
  }

  lemma SmallTalkNotRefusal(normalized: string)
    requires SmallTalk(normalized).Some?
    ensures SmallTalk(normalized).value != Refusal
  {}

  /** With a known order reference the reply opens with the order's status line; the top answer,
      cited, follows after a blank line when some entry shares a word with the message, and only
      then is there a citation. */
  lemma StatusReply(input: string, gt: seq<QA>, orders: map<string, OrderInfo>)
    requires SmallTalk(Normalized(input)).None? && OrderRef(input).Some? && OrderRef(input).value in orders
    ensures var r := AskSupport(input, gt, orders); var line := StatusLine(orders[OrderRef(input).value]);
      && r.Success?
      && (Confident(input, gt).None? ==> r.value == SupportReply(line, None))
      && (Confident(input, gt).Some? ==>
            var e := gt[Confident(input, gt).value];
            r.value == SupportReply(line + "\n\n" + Cited(e.answer, e.qid), Some("[" + e.qid + "]")))
  {
    if Confident(input, gt).Some? {
      var e := gt[Confident(input, gt).value];
      assert Cited(e.answer, e.qid) != "";
    }
  }

  /** Without an order reference, a message that shares a word with some entry gets the first
      best-scoring entry's answer, cited, and that entry's id as the citation. */
  lemma AnswerReply(input: string, gt: seq<QA>, orders: map<string, OrderInfo>)
    requires SmallTalk(Normalized(input)).None? && OrderRef(input).None?
    requires exists k :: 0 <= k < |gt| && Overlap(input, gt[k].question) != {}
    ensures var r := AskSupport(input, gt, orders);
      exists k :: 0 <= k < |gt|
        && r == Success(SupportReply(Cited(gt[k].answer, gt[k].qid), Some("[" + gt[k].qid + "]")))
        && (forall j :: 0 <= j < |gt| ==> |Overlap(input, gt[j].question)| <= |Overlap(input, gt[k].question)|)
        && (forall j :: 0 <= j < k ==> |Overlap(input, gt[j].question)| < |Overlap(input, gt[k].question)|)
  {
    ConfidentIff(input, gt);
    var k := Confident(input, gt).value;
    ConfidentIsTop(input, gt, k);
    assert AskSupport(input, gt, orders) == Success(Answer(input, gt, None));
  }

  /** The confident entry is the first one with the highest score. */
  lemma ConfidentIsTop(input: string, gt: seq<QA>, k: nat)
    requires Confident(input, gt) == Some(k)
    ensures k < |gt| && Overlap(input, gt[k].question) != {}
    ensures forall j :: 0 <= j < |gt| ==> |Overlap(input, gt[j].question)| <= |Overlap(input, gt[k].question)|
    ensures forall j :: 0 <= j < k ==> |Overlap(input, gt[j].question)| < |Overlap(input, gt[k].question)|
  {
    var scores := Scores(input, gt);
    assert k == TopOf(scores);
  }
}
