/** The keyword intent classifier of the assistant (apps/api/src/assistant/intent-classifier.js).
    The configuration is a value: the contents of docs/prompts.yaml when that file loads, the
    built-in default otherwise. */
module IntentClassifier {
  import opened Wrappers
  import opened Text
  import opened Patterns

  const PolicyQuestion := "policy_question"
  const OrderStatus := "order_status"
  const ProductSearch := "product_search"
  const Complaint := "complaint"
  const Chitchat := "chitchat"
  const OffTopic := "off_topic"
  const Violation := "violation"

  /** The classifier's `intents` list, in the order the loop visits them. */
  const Intents: seq<string> := [PolicyQuestion, OrderStatus, ProductSearch, Complaint, Chitchat, OffTopic, Violation]

  /** The phrases that make an input an order-status question on their own. */
  const OrderKeywords: seq<string> := ["order", "tracking", "status", "where is my order", "my order"]

  const DefaultBehavior := "Provide helpful assistance"

  datatype Identity = Identity(name: string, role: string, personality: string)
  datatype IntentConfig = IntentConfig(keywords: seq<string>, behavior: string)
  datatype Config = Config(identity: Identity, intents: map<string, IntentConfig>)

  const PolicyKeywords: seq<string> := ["policy", "return", "refund", "warranty", "shipping", "delivery", "privacy", "terms"]
  const ViolationKeywords: seq<string> := ["hate", "abuse", "inappropriate", "offensive"]

  /** `getDefaultConfig()` (lines 35-73). */
  function DefaultConfig(): Config {
    Config(
      Identity("Alex", "Customer Support Specialist", "Friendly, helpful, and professional"),
      map[
        PolicyQuestion := IntentConfig(PolicyKeywords, "Provide detailed policy information with citations"),
        OrderStatus := IntentConfig(["order", "tracking", "status", "delivery", "shipped", "where is my order"],
                                    "Check order status and provide tracking information"),
        ProductSearch := IntentConfig(["product", "search", "find", "looking for", "available", "in stock"],
                                      "Search products and provide recommendations"),
        Complaint := IntentConfig(["problem", "issue", "complaint", "wrong", "broken", "defective", "angry", "frustrated"],
                                  "Show empathy and escalate to human support"),
        Chitchat := IntentConfig(["hello", "hi", "hey", "good morning", "good afternoon", "how are you", "thanks", "thank you"],
                                 "Be friendly and redirect to support topics"),
        OffTopic := IntentConfig(["weather", "sports", "politics", "unrelated"],
                                 "Politely redirect to store-related topics"),
        Violation := IntentConfig(ViolationKeywords, "Set clear boundaries and redirect")])
  }

  /** `matchesIntent(input, intent)` (lines 101-108): false for an intent without configuration,
      otherwise some keyword, lowercased, occurs in the input. */
  predicate MatchesIntent(cfg: Config, input: string, intent: string) {
    intent in cfg.intents && exists k :: k in cfg.intents[intent].keywords && Contains(input, ToLower(k))
  }

  /** `matchesOrderStatus(input)` (lines 110-118). */
  predicate MatchesOrderStatus(input: string) {
    (HasOrderId(input) && Contains(input, "order")) || ContainsAny(input, OrderKeywords)
  }

  /** The id-pattern disjunct adds nothing: it also demands "order", which is itself a keyword. */
  lemma OrderStatusIsKeywords(input: string)
    ensures MatchesOrderStatus(input) <==> ContainsAny(input, OrderKeywords)
  {
    if HasOrderId(input) && Contains(input, "order") {
      assert "order" in OrderKeywords;
    }
  }

  /** The loop of lines 89-95 over `intents`, skipping violation and order status: the first
      intent that matches. */
  function FirstMatch(cfg: Config, input: string, intents: seq<string>): (r: Option<string>)
    ensures r.Some? ==> r.value in intents && r.value != Violation && r.value != OrderStatus && MatchesIntent(cfg, input, r.value)
    ensures r.None? <==> forall k :: 0 <= k < |intents| && intents[k] != Violation && intents[k] != OrderStatus ==>
                                       !MatchesIntent(cfg, input, intents[k])
  {
    if intents == [] then None
    else if intents[0] != Violation && intents[0] != OrderStatus && MatchesIntent(cfg, input, intents[0]) then Some(intents[0])
    else
      assert forall k :: 1 <= k < |intents| ==> intents[k] == intents[1..][k - 1];
      FirstMatch(cfg, input, intents[1..])
  }

  /** The intent found is the first eligible one that matches: no eligible intent before its
      position matches. */
  lemma {:induction false} FirstMatchIsFirst(cfg: Config, input: string, intents: seq<string>)
    requires FirstMatch(cfg, input, intents).Some?
    ensures exists k ::
              && 0 <= k < |intents| && intents[k] == FirstMatch(cfg, input, intents).value
              && forall j :: 0 <= j < k && intents[j] != Violation && intents[j] != OrderStatus ==>
                   !MatchesIntent(cfg, input, intents[j])
  {
    var r := FirstMatch(cfg, input, intents).value;
    if intents[0] != Violation && intents[0] != OrderStatus && MatchesIntent(cfg, input, intents[0]) {
      assert intents[0] == r;
    } else {
      var tail := intents[1..];
      FirstMatchIsFirst(cfg, input, tail);
      var k :| 0 <= k < |tail| && tail[k] == r
        && forall j :: 0 <= j < k && tail[j] != Violation && tail[j] != OrderStatus ==> !MatchesIntent(cfg, input, tail[j]);
      assert intents[k + 1] == r;
      assert forall j :: 1 <= j < k + 1 ==> intents[j] == tail[j - 1];
    }
  }

  /** The text that is matched: the input lowercased, then trimmed. */
  function Normalize(userInput: string): string {
    Trim(ToLower(userInput))
  }

  /** `classifyIntent(userInput)` (lines 75-99): violation exactly when a violation keyword occurs,
      whatever else the input says; order status exactly when, without a violation keyword, an
      order phrase occurs; the result is always one of the seven intents. */
  function ClassifyIntent(cfg: Config, userInput: string): (r: string)
    ensures r in Intents
    ensures r == Violation <==> MatchesIntent(cfg, Normalize(userInput), Violation)
    ensures r == OrderStatus <==> !MatchesIntent(cfg, Normalize(userInput), Violation) && MatchesOrderStatus(Normalize(userInput))
  {
    var input := Normalize(userInput);
    if MatchesIntent(cfg, input, Violation) then Violation
    else if MatchesOrderStatus(input) then OrderStatus
    else match FirstMatch(cfg, input, Intents)
      case Some(intent) => intent
      case None => Chitchat
  }

  /** With neither a violation nor an order-status phrase, the result is the first of
      policy_question, product_search, complaint, chitchat and off_topic whose keywords occur, and
      chitchat when none does. */
  lemma ClassifyFallsThrough(cfg: Config, userInput: string)
    requires !MatchesIntent(cfg, Normalize(userInput), Violation) && !MatchesOrderStatus(Normalize(userInput))
    ensures var input := Normalize(userInput); var r := ClassifyIntent(cfg, userInput);
      (exists k :: 0 <= k < |Intents| && Intents[k] == r && MatchesIntent(cfg, input, r)
         && forall j :: 0 <= j < k && Intents[j] != Violation && Intents[j] != OrderStatus ==>
              !MatchesIntent(cfg, input, Intents[j]))
      || (r == Chitchat && forall k :: 0 <= k < |Intents| && Intents[k] != Violation && Intents[k] != OrderStatus ==>
                             !MatchesIntent(cfg, input, Intents[k]))
  {
    var input := Normalize(userInput);
    if FirstMatch(cfg, input, Intents).Some? {
      FirstMatchIsFirst(cfg, input, Intents);
    }
  }

  /** The keyword lists of the built-in configuration for the two intents the next lemmas need. */
  lemma DefaultKeywords()
    ensures HasPolicyAndViolationKeywords(DefaultConfig())
  {}

  predicate HasPolicyAndViolationKeywords(cfg: Config) {
    && PolicyQuestion in cfg.intents && cfg.intents[PolicyQuestion].keywords == PolicyKeywords
    && Violation in cfg.intents && cfg.intents[Violation].keywords == ViolationKeywords
  }

  /** "delivery" is both a policy and an order-status keyword of the built-in configuration, but
      the input "delivery" alone is a policy question: the order-status check uses its own phrase
      list, which lacks it, and policy_question comes first in the list. */
  lemma DeliveryIsPolicyQuestion()
    ensures ClassifyIntent(DefaultConfig(), "Delivery") == PolicyQuestion
  {
    DefaultKeywords();
    DeliveryClassified(DefaultConfig());
  }

  /** The same for every configuration with the built-in policy and violation keywords. */
  lemma DeliveryClassified(cfg: Config)
    requires HasPolicyAndViolationKeywords(cfg)
    ensures ClassifyIntent(cfg, "Delivery") == PolicyQuestion
  {
    var input := "delivery";
    DeliveryNormalized();
    DeliveryNoViolation(cfg);
    DeliveryNoOrderPhrase();
    OrderStatusIsKeywords(input);
    DeliveryFirstMatch(cfg);
  }

  lemma DeliveryFirstMatch(cfg: Config)
    requires HasPolicyAndViolationKeywords(cfg)
    ensures FirstMatch(cfg, "delivery", Intents) == Some(PolicyQuestion)
  {
    DeliveryIsPolicy(cfg);
    assert Intents[0] == PolicyQuestion;
  }

  lemma DeliveryNormalized()
    ensures Normalize("Delivery") == "delivery"
  {
    assert ToLower("Delivery") == "delivery";
    TrimNoop("delivery");
  }

  lemma DeliveryNoViolation(cfg: Config)
    requires HasPolicyAndViolationKeywords(cfg)
    ensures !MatchesIntent(cfg, "delivery", Violation)
  {
    var s := "delivery";
    assert 'h' !in s && 'a' !in s && 'n' !in s && 'o' !in s;
    NoViolationIn(s);
  }

  /** A text without the letters h, a, n and o holds no violation keyword. */
  lemma NoViolationIn(s: string)
    requires 'h' !in s && 'a' !in s && 'n' !in s && 'o' !in s
    ensures forall k :: k in ViolationKeywords ==> !Contains(s, ToLower(k))
  {
    forall k | k in ViolationKeywords ensures !Contains(s, ToLower(k)) {
      var i :| 0 <= i < |ViolationKeywords| && ViolationKeywords[i] == k;
      LacksLowered(s, k, if i == 2 then 1 else 0);
    }
  }

  /** A text lacking the lowercase form of one character of `k` does not contain `k` lowercased. */
  lemma LacksLowered(s: string, k: string, j: nat)
    requires j < |k| && LowerChar(k[j]) !in s
    ensures !Contains(s, ToLower(k))
  {
    LacksChar(s, ToLower(k), j);
  }

  lemma DeliveryNoOrderPhrase()
    ensures !ContainsAny("delivery", OrderKeywords)
  {
    LacksChar("delivery", "order", 0);
    LacksChar("delivery", "tracking", 0);
    LacksChar("delivery", "status", 0);
    LacksChar("delivery", "where is my order", 0);
    LacksChar("delivery", "my order", 0);
  }

  lemma DeliveryIsPolicy(cfg: Config)
    requires HasPolicyAndViolationKeywords(cfg)
    ensures MatchesIntent(cfg, "delivery", PolicyQuestion)
  {
    var k := PolicyKeywords[5];
    assert k == "delivery" && k in PolicyKeywords;
    ToLowerNoop(k);
    ContainsAt("delivery", "delivery", 0);
  }

  /** `getIntentBehavior(intent)` (lines 120-122): the configured behaviour text, or the fallback
      for an unknown intent or an empty text. */
  function GetIntentBehavior(cfg: Config, intent: string): (r: string)
    ensures r == DefaultBehavior <==>
      intent !in cfg.intents || cfg.intents[intent].behavior in {"", DefaultBehavior}
    ensures r != DefaultBehavior ==> r == cfg.intents[intent].behavior
    ensures intent in cfg.intents && cfg.intents[intent].behavior != "" ==> r == cfg.intents[intent].behavior
  {
    if intent in cfg.intents && cfg.intents[intent].behavior != "" then cfg.intents[intent].behavior
    else DefaultBehavior
  }

  /** Every intent of the list has a behaviour text in the built-in configuration. */
  lemma DefaultBehaviors(intent: string)
    requires intent in Intents
    ensures GetIntentBehavior(DefaultConfig(), intent) != DefaultBehavior
  {}
}
