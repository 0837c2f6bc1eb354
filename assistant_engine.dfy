/** The server-side assistant (apps/api/src/assistant/engine.js): the LLM base-URL normalisation
    of the constructor, the markdown knowledge-base splitter, content categories and policy
    selection, order-id and citation extraction, product-search formatting and the dispatch of
    `processQuery`. Every collaborator whose answer the engine awaits (the LLM service, the
    function registry, the random greeting pick) is a parameter. */
module AssistantEngine {
  import opened Wrappers
  import opened Text
  import opened Patterns
  import opened Records
  import opened EventStream
  import opened IntentClassifier

  // ---------------------------------------------------------------------------------------------
  // The LLM base URL (lines 13-24)

  predicate IsSlash(c: char) { c == '/' }
  predicate IsSlashOrSpace(c: char) { c == '/' || IsWhitespace(c) }

  /** Length of a leading case-insensitive `http://` (7) or `https://` (8), 0 when there is none:
      the test `/^https?:\/\//i`. */
  function SchemeLength(u: string): (n: nat)
    ensures n == 0 || n == 7 || n == 8
    ensures n <= |u|
  {
    if |u| >= 7 && LowerChar(u[0]) == 'h' && LowerChar(u[1]) == 't' && LowerChar(u[2]) == 't' && LowerChar(u[3]) == 'p' then
      if u[4..7] == "://" then 7
      else if |u| >= 8 && LowerChar(u[4]) == 's' && u[5..8] == "://" then 8
      else 0
    else 0
  }

  /** Only the scheme itself decides the test: whatever follows it does not matter. */
  lemma SchemeKept(u: string, t: string)
    requires SchemeLength(u) > 0
    ensures SchemeLength(u[..SchemeLength(u)] + t) == SchemeLength(u)
  {
    var n := SchemeLength(u);
    var v := u[..n] + t;
    assert v[..n] == u[..n];
    assert v[4..7] == u[4..7];
    if n == 8 {
      assert v[5..8] == u[5..8];
    }
  }

  /** The longest prefix of `u` that does not end with a character `drop` removes, as
      `u.replace(/[drop]+$/, '')`. */
  function DropTrailing(u: string, drop: char -> bool): (r: string)
    ensures |r| <= |u| && r == u[..|r|]
    ensures r == [] || !drop(r[|r| - 1])
  {
    if u != [] && drop(u[|u| - 1]) then DropTrailing(u[..|u| - 1], drop) else u
  }

  /** Only characters `drop` removes are removed. */
  lemma {:induction false} DropTrailingDrops(u: string, drop: char -> bool)
    ensures forall i :: |DropTrailing(u, drop)| <= i < |u| ==> drop(u[i])
  {
    if u != [] && drop(u[|u| - 1]) {
      DropTrailingDrops(u[..|u| - 1], drop);
    }
  }

  lemma DropTrailingNoop(u: string, drop: char -> bool)
    requires u == [] || !drop(u[|u| - 1])
    ensures DropTrailing(u, drop) == u
  {}

  /** The trimmed URL with `https://` in front when it has no scheme (lines 18-20). */
  function Prefixed(u: string): string {
    if SchemeLength(u) > 0 then u else "https://" + u
  }

  /** Lines 17-22 as written: trim, prefix `https://` when the scheme is missing, strip trailing
      slashes. Exactly the final run of slashes of the prefixed URL is removed: the result is a
      prefix of it, everything cut off is a slash, and the result does not end with one. */
  function NormalizeAsWritten(raw: string): (r: string)
    ensures |r| <= |Prefixed(Trim(raw))| && r == Prefixed(Trim(raw))[..|r|]
    ensures forall k :: |r| <= k < |Prefixed(Trim(raw))| ==> Prefixed(Trim(raw))[k] == '/'
    ensures r == [] || r[|r| - 1] != '/'
  {
    var c := Prefixed(Trim(raw));
    DropTrailingDrops(c, IsSlash);
    DropTrailing(c, IsSlash)
  }

  /** Normalising as written is not idempotent: a bare scheme such as `http://` loses its
      slashes, what is left no longer has a scheme, and a second pass prefixes `https://`. */
  lemma NormalizeAsWrittenNotIdempotent(raw: string)
    requires SchemeLength(Trim(raw)) == 7 == |Trim(raw)|
    ensures var once := NormalizeAsWritten(raw);
      once == Trim(raw)[..5] && SchemeLength(once) == 0
      && NormalizeAsWritten(once) == "https://" + once != once
  {
    var u := Trim(raw);
    assert u[4..7] == "://";
    assert u[4] == ':' && u[5] == '/' && u[6] == '/' by {
      assert u[4..7][0] == u[4] && u[4..7][1] == u[5] && u[4..7][2] == u[6];
    }
    assert DropTrailing(u, IsSlash) == DropTrailing(u[..6], IsSlash);
    assert u[..6][..5] == u[..5];
    assert DropTrailing(u[..6], IsSlash) == DropTrailing(u[..5], IsSlash);
    var once := u[..5];
    DropTrailingNoop(once, IsSlash);
    assert NormalizeAsWritten(raw) == once;
    assert LowerChar(once[0]) == 'h';
    assert !IsWhitespace(once[0]) && !IsWhitespace(once[4]);
    TrimNoop(once);
    var twice := "https://" + once;
    assert twice[|twice| - 1] == ':';
    DropTrailingNoop(twice, IsSlash);
    assert |twice| != |once|;
  }

  /** The scheme normalisation keeps, or `https://` when there is none. */
  function KeptScheme(u: string): string {
    if SchemeLength(u) > 0 then u[..SchemeLength(u)] else "https://"
  }

  /** What follows the scheme, without trailing slashes and white space. */
  function UrlRest(u: string): (r: string)
    ensures r == [] || !IsSlashOrSpace(r[|r| - 1])
  {
    DropTrailing(if SchemeLength(u) > 0 then u[SchemeLength(u)..] else u, IsSlashOrSpace)
  }

  /** The normalisation the comment of line 15 intends: trim, keep the scheme or supply
      `https://`, and strip trailing slashes and the white space among them from what follows the
      scheme only. */
  function NormalizeBaseUrl(raw: string): string {
    NormalizeTrimmed(Trim(raw))
  }

  /** Normalisation once the URL is trimmed. */
  function NormalizeTrimmed(u: string): string {
    KeptScheme(u) + UrlRest(u)
  }

  /** The normalised URL always has a scheme: the one the trimmed input starts with, or
      `https://` when it has none. */
  lemma NormalizeKeepsScheme(raw: string)
    ensures SchemeLength(NormalizeBaseUrl(raw)) > 0
    ensures NormalizeBaseUrl(raw)[..SchemeLength(NormalizeBaseUrl(raw))] ==
      if SchemeLength(Trim(raw)) > 0 then Trim(raw)[..SchemeLength(Trim(raw))] else "https://"
  {
    SchemeOf(Trim(raw), UrlRest(Trim(raw)));
  }

  /** The scheme that normalisation keeps or supplies is the one its result starts with. */
  lemma SchemeOf(u: string, rest: string)
    ensures SchemeLength(KeptScheme(u) + rest) == |KeptScheme(u)| > 0
    ensures (KeptScheme(u) + rest)[..|KeptScheme(u)|] == KeptScheme(u)
  {
    var n := SchemeLength(u);
    if n > 0 {
      SchemeKept(u, rest);
      assert |u[..n]| == n;
    } else {
      HttpsScheme();
      SchemeKept("https://", rest);
    }
  }

  lemma HttpsScheme()
    ensures SchemeLength("https://") == 8 && "https://"[..8] == "https://"
  {
    var u := "https://";
    assert u[4..7][0] == 's' != "://"[0];
    assert u[5..8] == "://" by {
      assert u[5..8][0] == ':' && u[5..8][1] == '/' && u[5..8][2] == '/';
    }
    assert LowerChar(u[0]) == 'h' && LowerChar(u[1]) == 't' && LowerChar(u[2]) == 't' && LowerChar(u[3]) == 'p';
    assert LowerChar(u[4]) == 's';
  }

  /** The normalised URL has no white space at either end. */
  lemma NormalizedTrimmed(u: string)
    ensures Trim(NormalizeTrimmed(u)) == NormalizeTrimmed(u)
  {
    var r := NormalizeTrimmed(u);
    var scheme := KeptScheme(u);
    var rest := UrlRest(u);
    assert r == scheme + rest;
    SchemeOf(u, rest);
    assert r[0] == scheme[0];
    assert !IsWhitespace(r[0]);
    assert !IsWhitespace(r[|r| - 1]);
    TrimNoop(r);
  }

  /** The normalised URL is its scheme followed by the normalised rest. */
  lemma NormalizedParts(u: string)
    ensures KeptScheme(NormalizeTrimmed(u)) == KeptScheme(u)
    ensures UrlRest(NormalizeTrimmed(u)) == UrlRest(u)
  {
    var r := NormalizeTrimmed(u);
    SchemeOf(u, UrlRest(u));
    assert r == KeptScheme(u) + UrlRest(u);
    assert r[|KeptScheme(u)|..] == UrlRest(u);
    DropTrailingNoop(UrlRest(u), IsSlashOrSpace);
  }

  /** Normalising twice gives the same URL as normalising once. */
  lemma NormalizeIdempotent(raw: string)
    ensures NormalizeBaseUrl(NormalizeBaseUrl(raw)) == NormalizeBaseUrl(raw)
  {
    var u := Trim(raw);
    var r := NormalizeTrimmed(u);
    NormalizedTrimmed(u);
    NormalizedParts(u);
    assert NormalizeBaseUrl(r) == NormalizeTrimmed(r);
  }

  /** The engine's state after construction: `LLM_BASE_URL` normalised when it is set and
      non-empty, kept as it is otherwise; the knowledge base and the classifier's configuration
      come from files this model does not read. */
  class Engine {
    var llmBaseUrl: Option<string>
    const knowledgeBase: seq<Policy>
    const config: Config

    constructor(env: Option<string>, kb: seq<Policy>, cfg: Config)
      ensures llmBaseUrl == (if Truthy(env) then Some(NormalizeBaseUrl(env.value)) else env)
      ensures knowledgeBase == kb && config == cfg
    {
      knowledgeBase := kb;
      config := cfg;
      llmBaseUrl := env;
      new;
      if Truthy(llmBaseUrl) {
        llmBaseUrl := Some(NormalizeBaseUrl(llmBaseUrl.value));
      }
    }

    /** `this.processQuery(userInput, context)` on the engine's own base URL, knowledge base and
        classifier configuration: the reply of `ProcessQuery`, whose intent is the classified one
        or `error`. */
    method Query(userInput: string, ctx: QueryContext, w: Collaborators) returns (a: Answer)
      requires w.pick < 3
      ensures a == ProcessQuery(config, knowledgeBase, llmBaseUrl, userInput, ctx, w)
      ensures a.intent == ErrorIntent || a.intent == ClassifyIntent(config, userInput)
    {
      a := ProcessQuery(config, knowledgeBase, llmBaseUrl, userInput, ctx, w);
      ProcessQueryError(config, knowledgeBase, llmBaseUrl, userInput, ctx, w);
    }
  }

  // ---------------------------------------------------------------------------------------------
  // Knowledge-base entries

  datatype Policy = Policy(id: string, question: string, answer: string, category: string, lastUpdated: string)

  /** A category rule: the category and the keywords that select it. */
  datatype Rule = Rule(category: string, keywords: seq<string>)

  /** Lines 83-88, in their order. */
  const ContentRules: seq<Rule> := [
    Rule("returns", ["return", "refund"]),
    Rule("shipping", ["shipping", "delivery"]),
    Rule("payment", ["payment", "card"]),
    Rule("orders", ["order", "tracking"]),
    Rule("account", ["account", "registration"]),
    Rule("privacy", ["security", "privacy"])]

  const General := "general"

  /** The `categoryKeywords` object of lines 267-273, in declaration order. */
  const PolicyRules: seq<Rule> := [
    Rule("returns", ["return", "refund", "exchange", "money back"]),
    Rule("shipping", ["shipping", "delivery", "ship", "transit", "carrier"]),
    Rule("warranty", ["warranty", "guarantee", "defect", "broken"]),
    Rule("privacy", ["privacy", "data", "personal", "information"]),
    Rule("payment", ["payment", "billing", "charge", "credit", "debit"])]

  /** The first rule at or after `from` with a keyword in the text. */
  function FirstRule(text: string, rules: seq<Rule>, from: nat): (r: Option<nat>)
    requires from <= |rules|
    ensures r.Some? ==> from <= r.value < |rules| && ContainsAny(text, rules[r.value].keywords)
    ensures r.Some? ==> forall j :: from <= j < r.value ==> !ContainsAny(text, rules[j].keywords)
    ensures r.None? ==> forall j :: from <= j < |rules| ==> !ContainsAny(text, rules[j].keywords)
    decreases |rules| - from
  {
    if from == |rules| then None
    else if ContainsAny(text, rules[from].keywords) then Some(from)
    else FirstRule(text, rules, from + 1)
  }

  /** `categorizeContent(title, content)` (lines 80-91). */
  function CategorizeContent(title: string, content: string): (r: string)
    ensures r in ["returns", "shipping", "payment", "orders", "account", "privacy", General]
  {
    match FirstRule(ToLower(title + " " + content), ContentRules, 0)
    case Some(k) => ContentRules[k].category
    case None => General
  }

  /** The category is that of the first rule, in the fixed order, with a keyword in the lowercased
      `title + ' ' + content`, and `general` exactly when no rule has one. */
  lemma CategorizeFirstMatch(title: string, content: string)
    ensures var text := ToLower(title + " " + content); var r := CategorizeContent(title, content);
      && (forall k :: 0 <= k < |ContentRules| && ContainsAny(text, ContentRules[k].keywords)
                      && (forall j :: 0 <= j < k ==> !ContainsAny(text, ContentRules[j].keywords)) ==>
            r == ContentRules[k].category)
      && (r == General <==> forall k :: 0 <= k < |ContentRules| ==> !ContainsAny(text, ContentRules[k].keywords))
  {
    var text := ToLower(title + " " + content);
    var f := FirstRule(text, ContentRules, 0);
    if f.Some? {
      forall k | 0 <= k < |ContentRules| && ContainsAny(text, ContentRules[k].keywords)
                 && (forall j :: 0 <= j < k ==> !ContainsAny(text, ContentRules[j].keywords))
        ensures k == f.value
      {
        if k < f.value {} else if k > f.value {}
      }
    }
  }

  /** A text with a keyword of some rule is categorised by that rule or an earlier one, never by a
      later one and never as general. */
  lemma CategoryPrecedence(title: string, content: string, k: nat)
    requires k < |ContentRules| && ContainsAny(ToLower(title + " " + content), ContentRules[k].keywords)
    ensures exists j :: 0 <= j <= k && CategorizeContent(title, content) == ContentRules[j].category
  {
    var text := ToLower(title + " " + content);
    var j := FirstRule(text, ContentRules, 0).value;
    assert j <= k;
    assert CategorizeContent(title, content) == ContentRules[j].category;
  }

  /** The entries of `kb` with category `c`, in order: `kb.filter(p => p.category === c)`. */
  function WithCategory(kb: seq<Policy>, c: string): (r: seq<Policy>)
    ensures |r| <= |kb|
    ensures forall p :: p in r <==> p in kb && p.category == c
  {
    if kb == [] then []
    else (if kb[0].category == c then [kb[0]] else []) + WithCategory(kb[1..], c)
  }

  /** The filter distributes over concatenation, so it keeps the knowledge base's order. */
  lemma {:induction false} WithCategoryAppend(a: seq<Policy>, b: seq<Policy>, c: string)
    ensures WithCategory(a + b, c) == WithCategory(a, c) + WithCategory(b, c)
  {
    if a == [] {
      assert a + b == b;
    } else {
      assert (a + b)[0] == a[0] && (a + b)[1..] == a[1..] + b;
      WithCategoryAppend(a[1..], b, c);
    }
  }

  /** The filter of one entry is that entry when it has the category, and nothing otherwise. */
  lemma WithCategorySingle(p: Policy, c: string)
    ensures WithCategory([p], c) == if p.category == c then [p] else []
  {
    assert [p][1..] == [];
  }

  /** The first entry of the filter is the knowledge base's first entry of that category. */
  lemma {:induction false} WithCategoryFirst(kb: seq<Policy>, c: string, i: nat)
    requires i < |kb| && kb[i].category == c
    requires forall j :: 0 <= j < i ==> kb[j].category != c
    ensures WithCategory(kb, c) != [] && WithCategory(kb, c)[0] == kb[i]
  {
    if i > 0 {
      WithCategoryFirst(kb[1..], c, i - 1);
    }
  }

  /** `findRelevantPolicies(userInput)` (lines 262-290). */
  function FindRelevantPolicies(kb: seq<Policy>, userInput: string): (r: seq<Policy>)
    ensures |r| <= |kb|
  {
    match FirstRule(ToLower(userInput), PolicyRules, 0)
    case Some(k) => WithCategory(kb, PolicyRules[k].category)
    case None => kb[..if |kb| < 3 then |kb| else 3]
  }

  /** On the lowercased input, the first category in declaration order with a keyword present
      selects every entry of that category, in knowledge-base order (the properties of
      `WithCategory`); with no category, the first three entries. */
  lemma FindRelevantFirstMatch(kb: seq<Policy>, userInput: string)
    ensures var input := ToLower(userInput); var r := FindRelevantPolicies(kb, userInput);
      && (forall k :: 0 <= k < |PolicyRules| && ContainsAny(input, PolicyRules[k].keywords)
                      && (forall j :: 0 <= j < k ==> !ContainsAny(input, PolicyRules[j].keywords)) ==>
            r == WithCategory(kb, PolicyRules[k].category)
            && forall p :: p in r <==> p in kb && p.category == PolicyRules[k].category)
      && ((forall k :: 0 <= k < |PolicyRules| ==> !ContainsAny(input, PolicyRules[k].keywords)) ==>
            r == kb[..if |kb| < 3 then |kb| else 3])
  {
    var input := ToLower(userInput);
    var f := FirstRule(input, PolicyRules, 0);
    if f.Some? {
      forall k | 0 <= k < |PolicyRules| && ContainsAny(input, PolicyRules[k].keywords)
                 && (forall j :: 0 <= j < k ==> !ContainsAny(input, PolicyRules[j].keywords))
        ensures k == f.value
      {
        if k < f.value {} else if k > f.value {}
      }
    }
  }

  /** `extractOrderId(input)` (lines 292-297) on the raw input: the leftmost run of at least six
      ASCII letters and digits between word boundaries, `None` when there is none. */
  function ExtractOrderId(input: string): (r: Option<string>)
    ensures r.None? <==> !HasOrderId(input)
    ensures r.Some? ==> |r.value| >= 6 && (forall k :: 0 <= k < |r.value| ==> IsAsciiAlnum(r.value[k]))
    ensures r.Some? ==> exists i :: 0 <= i < |input| && OrderIdAt(input, i) && r.value == input[i..i + AlnumRunAt(input, i)]
                                    && forall j :: 0 <= j < i ==> !OrderIdAt(input, j)
  {
    var m := MatchOrderId(input);
    if m.Some? then MatchIsAlnumRun(input); m else m
  }

  // ---------------------------------------------------------------------------------------------
  // The markdown knowledge base (lines 54-78)

  const DocMarker := "## Doc"

  /** The id of the piece at `index`: `Doc` and the index padded to two digits. */
  function DocId(index: nat): string {
    "Doc" + Padded(index, 2)
  }

  /** Different pieces get different ids. */
  lemma DocIdInjective(a: nat, b: nat)
    requires DocId(a) == DocId(b)
    ensures a == b
  {
    assert DocId(a)[3..] == Padded(a, 2);
    assert DocId(b)[3..] == Padded(b, 2);
    PaddedValue(a, 2);
    PaddedValue(b, 2);
  }

  /** The title and the body of a piece: the trimmed first line of the trimmed piece and the
      trimmed rest. */
  function SectionParts(section: string): (string, string) {
    var lines := Split(Trim(section), "\n");
    (Trim(lines[0]), Trim(Join(lines[1..], "\n")))
  }

  /** Both parts are trimmed. */
  lemma SectionPartsTrimmed(section: string)
    ensures var (title, body) := SectionParts(section); Trim(title) == title && Trim(body) == body
  {
    var lines := Split(Trim(section), "\n");
    TrimIdempotent(lines[0]);
    TrimIdempotent(Join(lines[1..], "\n"));
  }

  /** The title and body of every piece of the split. */
  function PartsOf(sections: seq<string>): (parts: seq<(string, string)>)
    ensures |parts| == |sections|
  {
    seq(|sections|, i requires 0 <= i < |sections| => SectionParts(sections[i]))
  }

  /** A piece gives an entry when both its title and its body are non-empty. */
  predicate Kept(part: (string, string)) {
    part.0 != [] && part.1 != []
  }

  /** The entry of the piece at `index`. */
  function PartPolicy(part: (string, string), index: nat, stamp: string): Policy {
    Policy(DocId(index), part.0, part.1, CategorizeContent(part.0, part.1), stamp)
  }

  /** The positions, from 1 to `n - 1` and in increasing order, of the pieces `keep` accepts;
      piece 0 is the text before the first marker. */
  function KeptIndexes<T>(xs: seq<T>, n: nat, keep: T -> bool): (r: seq<nat>)
    requires n <= |xs|
    ensures forall k :: 0 <= k < |r| ==> 1 <= r[k] < n && keep(xs[r[k]])
  {
    if n <= 1 then []
    else
      var prev := KeptIndexes(xs, n - 1, keep);
      if keep(xs[n - 1]) then prev + [n - 1] else prev
  }

  /** The positions increase, so no piece is visited twice. */
  lemma {:induction false} KeptIndexesIncrease<T>(xs: seq<T>, n: nat, keep: T -> bool)
    requires n <= |xs|
    ensures forall j, k :: 0 <= j < k < |KeptIndexes(xs, n, keep)| ==> KeptIndexes(xs, n, keep)[j] < KeptIndexes(xs, n, keep)[k]
  {
    if n > 1 {
      KeptIndexesIncrease(xs, n - 1, keep);
      var pix := KeptIndexes(xs, n - 1, keep);
      var ix := KeptIndexes(xs, n, keep);
      if keep(xs[n - 1]) {
        assert ix == pix + [n - 1];
        forall j, k | 0 <= j < k < |ix| ensures ix[j] < ix[k] {
          assert ix[j] == pix[j] < n - 1;
          if k < |pix| {
            assert ix[k] == pix[k];
          } else {
            assert ix[k] == n - 1;
          }
        }
      } else {
        assert ix == pix;
      }
    }
  }

  /** The entries of the kept pieces among the first `n`, in order. */
  function Entries(parts: seq<(string, string)>, n: nat, stamp: string): (r: seq<Policy>)
    requires n <= |parts|
    ensures |r| == |KeptIndexes(parts, n, Kept)|
  {
    var ix := KeptIndexes(parts, n, Kept);
    seq(|ix|, k requires 0 <= k < |ix| => PartPolicy(parts[ix[k]], ix[k], stamp))
  }

  /** One more piece adds its entry when it is kept. */
  lemma EntriesStep(parts: seq<(string, string)>, n: nat, stamp: string)
    requires 1 <= n < |parts|
    ensures Entries(parts, n + 1, stamp) ==
      Entries(parts, n, stamp) + (if Kept(parts[n]) then [PartPolicy(parts[n], n, stamp)] else [])
  {
    var pix := KeptIndexes(parts, n, Kept);
    var ix := KeptIndexes(parts, n + 1, Kept);
    if Kept(parts[n]) {
      assert ix == pix + [n];
    } else {
      assert ix == pix;
    }
  }

  /** The knowledge base a markdown file gives when every entry is stamped `lastUpdated`. */
  function KnowledgeBase(content: string, stamp: string): seq<Policy> {
    var parts := PartsOf(Split(content, DocMarker));
    Entries(parts, |parts|, stamp)
  }

  /** The position of the piece the `k`-th entry comes from. */
  function EntrySource(content: string, stamp: string, k: nat): nat
    requires k < |KnowledgeBase(content, stamp)|
  {
    var parts := PartsOf(Split(content, DocMarker));
    KeptIndexes(parts, |parts|, Kept)[k]
  }

  /** Each entry comes from a piece after the header whose title and body are non-empty: its id
      names the piece, its question and answer are the piece's title and body, its category the
      one its text gives and its timestamp that of the parse. */
  lemma EntryFacts(content: string, stamp: string, k: nat)
    requires k < |KnowledgeBase(content, stamp)|
    ensures 1 <= EntrySource(content, stamp, k) < |Split(content, DocMarker)|
    ensures Kept(SectionParts(Split(content, DocMarker)[EntrySource(content, stamp, k)]))
    ensures KnowledgeBase(content, stamp)[k] ==
      PartPolicy(SectionParts(Split(content, DocMarker)[EntrySource(content, stamp, k)]), EntrySource(content, stamp, k), stamp)
  {
    var sections := Split(content, DocMarker);
    var parts := PartsOf(sections);
    var i := KeptIndexes(parts, |parts|, Kept)[k];
    assert parts[i] == SectionParts(sections[i]);
  }

  /** The question and answer of every entry are trimmed and non-empty. */
  lemma EntryTrimmed(content: string, stamp: string, k: nat)
    requires k < |KnowledgeBase(content, stamp)|
    ensures KnowledgeBase(content, stamp)[k].question != [] && KnowledgeBase(content, stamp)[k].answer != []
    ensures Trim(KnowledgeBase(content, stamp)[k].question) == KnowledgeBase(content, stamp)[k].question
    ensures Trim(KnowledgeBase(content, stamp)[k].answer) == KnowledgeBase(content, stamp)[k].answer
  {
    EntryFacts(content, stamp, k);
    SectionPartsTrimmed(Split(content, DocMarker)[EntrySource(content, stamp, k)]);
  }

  /** No two entries share an id. */
  lemma KnowledgeBaseIdsDistinct(content: string, stamp: string)
    ensures var kb := KnowledgeBase(content, stamp);
      forall j, k :: 0 <= j < k < |kb| ==> kb[j].id != kb[k].id
  {
    var parts := PartsOf(Split(content, DocMarker));
    var kb := KnowledgeBase(content, stamp);
    var ix := KeptIndexes(parts, |parts|, Kept);
    KeptIndexesIncrease(parts, |parts|, Kept);
    forall j, k | 0 <= j < k < |kb| ensures kb[j].id != kb[k].id {
      if kb[j].id == kb[k].id {
        DocIdInjective(ix[j], ix[k]);
      }
    }
  }

  /** A file without the marker has no entries: its only piece is the header that is skipped. */
  lemma NoMarkerNoEntries(content: string, stamp: string)
    requires !Contains(content, DocMarker)
    ensures KnowledgeBase(content, stamp) == []
  {
    assert Split(content, DocMarker) == [content];
  }

  /** `parseMarkdownKnowledgeBase(content)` (lines 54-78): the `forEach` over the pieces of the
      split, pushing one entry per kept piece; `now` is the clock the timestamps read. */
  method ParseMarkdownKnowledgeBase(content: string, now: Date) returns (policies: seq<Policy>)
    ensures policies == KnowledgeBase(content, IsoString(now))
  {
    var sections := Split(content, DocMarker);
    ghost var parts := PartsOf(sections);
    var stamp := IsoString(now);
    policies := [];
    for index := 0 to |sections|
      invariant policies == Entries(parts, if index == 0 then 0 else index, stamp)
    {
      if index == 0 {
        continue;
      }
      var part := SectionParts(sections[index]);
      assert part == parts[index];
      EntriesStep(parts, index, stamp);
      if part.0 != [] && part.1 != [] {
        policies := policies + [PartPolicy(part, index, stamp)];
      }
    }
  }

  /** The first rule with a keyword is the one at `k` when no earlier rule has one. */
  lemma {:induction false} FirstRuleIs(text: string, rules: seq<Rule>, from: nat, k: nat)
    requires from <= k < |rules| && ContainsAny(text, rules[k].keywords)
    requires forall j :: from <= j < k ==> !ContainsAny(text, rules[j].keywords)
    ensures FirstRule(text, rules, from) == Some(k)
    decreases k - from
  {
    if from < k {
      FirstRuleIs(text, rules, from + 1, k);
    }
  }

  /** No category `c` in `kb`, no entry selected for it. */
  lemma {:induction false} WithCategoryNone(kb: seq<Policy>, c: string)
    requires forall k :: 0 <= k < |kb| ==> kb[k].category != c
    ensures WithCategory(kb, c) == []
  {
    if kb != [] {
      assert forall k :: 0 <= k < |kb| - 1 ==> kb[1..][k] == kb[k + 1];
      WithCategoryNone(kb[1..], c);
    }
  }

  /** Content is never categorised as warranty. */
  lemma NotWarranty(title: string, content: string)
    ensures CategorizeContent(title, content) != "warranty"
  {}

  /** No entry of a markdown knowledge base has the warranty category. */
  lemma NoWarrantyEntries(content: string, stamp: string)
    ensures forall k :: 0 <= k < |KnowledgeBase(content, stamp)| ==> KnowledgeBase(content, stamp)[k].category != "warranty"
  {
    forall k | 0 <= k < |KnowledgeBase(content, stamp)| ensures KnowledgeBase(content, stamp)[k].category != "warranty" {
      EntryFacts(content, stamp, k);
      var part := SectionParts(Split(content, DocMarker)[EntrySource(content, stamp, k)]);
      NotWarranty(part.0, part.1);
    }
  }

  /** A warranty question never finds an entry of a markdown knowledge base: warranty is a policy
      category but no content is ever categorised as warranty. */
  lemma WarrantyFindsNoMarkdownEntry(content: string, stamp: string, userInput: string)
    requires ContainsAny(ToLower(userInput), PolicyRules[2].keywords)
    requires !ContainsAny(ToLower(userInput), PolicyRules[0].keywords) && !ContainsAny(ToLower(userInput), PolicyRules[1].keywords)
    ensures FindRelevantPolicies(KnowledgeBase(content, stamp), userInput) == []
  {
    FirstRuleIs(ToLower(userInput), PolicyRules, 0, 2);
    NoWarrantyEntries(content, stamp);
    WithCategoryNone(KnowledgeBase(content, stamp), "warranty");
  }

  // ---------------------------------------------------------------------------------------------
  // Citations (lines 299-307)

  /** The character class `[A-Za-z0-9.]`. */
  predicate IsCiteChar(c: char) { IsAsciiAlnum(c) || c == '.' }

  /** Length of the run of citation characters that starts at position `k`. */
  function CiteRunFrom(s: string, k: nat): (n: nat)
    requires k <= |s|
    ensures k + n <= |s|
    decreases |s| - k
  {
    if k == |s| || !IsCiteChar(s[k]) then 0 else 1 + CiteRunFrom(s, k + 1)
  }

  /** Length of the run of citation characters just after position `i`. */
  function CiteRun(s: string, i: nat): (n: nat)
    requires i < |s|
    ensures i + 1 + n <= |s|
  {
    CiteRunFrom(s, i + 1)
  }

  /** The run from `k` is `m` long when `m` citation characters follow and then another one. */
  lemma {:induction false} CiteRunIs(s: string, k: nat, m: nat)
    requires k + m < |s| && !IsCiteChar(s[k + m])
    requires forall j :: k <= j < k + m ==> IsCiteChar(s[j])
    ensures CiteRunFrom(s, k) == m
    decreases m
  {
    if m > 0 {
      CiteRunIs(s, k + 1, m - 1);
    }
  }

  /** Appending text that does not start with a citation character leaves the runs of `a`. */
  lemma {:induction false} CiteRunFromAppend(a: string, t: string, k: nat)
    requires k <= |a| && t != [] && !IsCiteChar(t[0])
    ensures CiteRunFrom(a + t, k) == CiteRunFrom(a, k)
    decreases |a| - k
  {
    if k == |a| {
      assert (a + t)[k] == t[0];
    } else {
      assert (a + t)[k] == a[k];
      CiteRunFromAppend(a, t, k + 1);
    }
  }

  /** `/\[([A-Za-z0-9.]+)\]/` matches at position `i`. Greediness cannot pick a shorter run, as the
      character after any shorter run is a class character and not `]`. */
  predicate CitationAt(s: string, i: nat) {
    i < |s| && s[i] == '[' && CiteRun(s, i) >= 1 && i + 1 + CiteRun(s, i) < |s| && s[i + 1 + CiteRun(s, i)] == ']'
  }

  /** The captured groups of the matches from position `from` on, left to right and not
      overlapping: after a match the scan resumes behind the `]` that closed it. */
  function Citations(s: string, from: nat): (r: seq<string>)
    decreases |s| - from
  {
    if from >= |s| then []
    else if CitationAt(s, from) then [s[from + 1..from + 1 + CiteRun(s, from)]] + Citations(s, from + 2 + CiteRun(s, from))
    else Citations(s, from + 1)
  }

  /** One `exec` from `lastIndex` `from`: the leftmost match at or after it. */
  function NextCitation(s: string, from: nat): (r: Option<nat>)
    requires from <= |s|
    ensures r.Some? ==> from <= r.value && CitationAt(s, r.value)
    ensures r.Some? ==> forall j :: from <= j < r.value ==> !CitationAt(s, j)
    ensures r.None? ==> forall j :: from <= j < |s| ==> !CitationAt(s, j)
    decreases |s| - from
  {
    if from == |s| then None
    else if CitationAt(s, from) then Some(from)
    else NextCitation(s, from + 1)
  }

  /** `exec` skips no match: the matches from `from` are the one `exec` finds, then those after it,
      and none when it finds nothing. */
  lemma {:induction false} NextCitationStep(s: string, from: nat)
    requires from <= |s|
    ensures NextCitation(s, from).None? ==> Citations(s, from) == []
    ensures NextCitation(s, from).Some? ==>
      Citations(s, from) == Citations(s, NextCitation(s, from).value)
    decreases |s| - from
  {
    if from < |s| && !CitationAt(s, from) {
      NextCitationStep(s, from + 1);
    }
  }

  /** One round of the loop below: the match `exec` finds is the next citation. */
  lemma ExtractStep(text: string, from: nat, i: nat, done: seq<string>)
    requires from <= |text| && NextCitation(text, from) == Some(i)
    ensures i + 2 + CiteRun(text, i) <= |text|
    ensures done + [text[i + 1..i + 1 + CiteRun(text, i)]] + Citations(text, i + 2 + CiteRun(text, i)) == done + Citations(text, from)
  {
    NextCitationStep(text, from);
    var x := text[i + 1..i + 1 + CiteRun(text, i)];
    var rest := Citations(text, i + 2 + CiteRun(text, i));
    assert Citations(text, from) == [x] + rest;
    assert done + [x] + rest == done + ([x] + rest);
  }

  /** `extractCitations(text)`: the `while` loop over `exec`. */
  method ExtractCitations(text: string) returns (citations: seq<string>)
    ensures citations == Citations(text, 0)
  {
    citations := [];
    var lastIndex := 0;
    var m := NextCitation(text, 0);
    while m.Some?
      invariant lastIndex <= |text| && m == NextCitation(text, lastIndex)
      invariant citations + Citations(text, lastIndex) == Citations(text, 0)
      decreases |text| - lastIndex
    {
      var i := m.value;
      var n := CiteRun(text, i);
      ExtractStep(text, lastIndex, i, citations);
      citations := citations + [text[i + 1..i + 1 + n]];
      lastIndex := i + 2 + n;
      m := NextCitation(text, lastIndex);
    }
    NextCitationStep(text, lastIndex);
  }

  /** Appending text that starts with a space does not change a position's run or whether a
      match starts there. */
  lemma CitationAtAppend(a: string, t: string, j: nat)
    requires j < |a| && t != [] && t[0] == ' '
    ensures CiteRun(a + t, j) == CiteRun(a, j)
    ensures CitationAt(a + t, j) <==> CitationAt(a, j)
  {
    CiteRunFromAppend(a, t, j + 1);
    assert (a + t)[j] == a[j];
    var n := CiteRun(a, j);
    if j + 1 + n < |a| {
      assert (a + t)[j + 1 + n] == a[j + 1 + n];
    } else {
      assert (a + t)[j + 1 + n] == t[0];
    }
  }

  /** The text line 185 appends to a fallback answer. */
  function CiteSuffix(id: string): string {
    " [" + id + "]"
  }

  /** The appended `[id]` is a match, and its run is `id`. */
  lemma AppendedCitation(a: string, id: string)
    requires id != [] && forall k :: 0 <= k < |id| ==> IsCiteChar(id[k])
    ensures CitationAt(a + CiteSuffix(id), |a| + 1) && CiteRun(a + CiteSuffix(id), |a| + 1) == |id|
    ensures !CitationAt(a + CiteSuffix(id), |a|)
  {
    var s := a + CiteSuffix(id);
    var i := |a| + 1;
    assert forall j :: i + 1 <= j < i + 1 + |id| ==> s[j] == id[j - i - 1];
    assert s[|a|] == ' ' && s[i] == '[' && s[i + 1 + |id|] == ']';
    CiteRunIs(s, i + 1, |id|);
  }

  /** A match at `from` is the first citation from there. */
  lemma CitationsAtMatch(s: string, from: nat)
    requires from < |s| && CitationAt(s, from)
    ensures Citations(s, from) == [s[from + 1..from + 1 + CiteRun(s, from)]] + Citations(s, from + 2 + CiteRun(s, from))
  {}

  /** Without a match at `from` the scan moves on by one. */
  lemma CitationsAtNoMatch(s: string, from: nat)
    requires from < |s| && !CitationAt(s, from)
    ensures Citations(s, from) == Citations(s, from + 1)
  {}

  /** From the end of `a` on, the only match is the appended one. */
  lemma CitationsOfSuffix(a: string, id: string)
    requires id != [] && forall k :: 0 <= k < |id| ==> IsCiteChar(id[k])
    ensures Citations(a + CiteSuffix(id), |a|) == [id]
  {
    AppendedCitation(a, id);
    SuffixCapture(a, id);
    LastCitation(a + CiteSuffix(id), |a|, id);
  }

  lemma SuffixCapture(a: string, id: string)
    ensures |a + CiteSuffix(id)| == |a| + 3 + |id|
    ensures (a + CiteSuffix(id))[|a| + 2..|a| + 2 + |id|] == id
  {
    var s := a + CiteSuffix(id);
    assert forall j :: 0 <= j < |id| ==> s[|a| + 2 + j] == id[j];
  }

  /** A text whose last three characters past `p` close a match at `p + 1`, with none at `p`, has
      that one citation from `p` on. */
  lemma LastCitation(s: string, p: nat, x: string)
    requires p + 1 < |s| && !CitationAt(s, p) && CitationAt(s, p + 1) && p + 3 + CiteRun(s, p + 1) == |s|
    requires s[p + 2..p + 2 + CiteRun(s, p + 1)] == x
    ensures Citations(s, p) == [x]
  {
    CitationsAtNoMatch(s, p);
    CitationsAtMatch(s, p + 1);
  }

  /** A match of `a` before its end is a match of `a + CiteSuffix(id)` with the same capture. */
  lemma CitationsAppendMatch(a: string, id: string, from: nat)
    requires from < |a| && CitationAt(a, from)
    requires Citations(a + CiteSuffix(id), from + 2 + CiteRun(a, from)) == Citations(a, from + 2 + CiteRun(a, from)) + [id]
    ensures Citations(a + CiteSuffix(id), from) == Citations(a, from) + [id]
  {
    var s := a + CiteSuffix(id);
    CitationAtAppend(a, CiteSuffix(id), from);
    var n := CiteRun(a, from);
    CitationsAtMatch(s, from);
    CitationsAtMatch(a, from);
    assert s[from + 1..from + 1 + n] == a[from + 1..from + 1 + n];
    ConsSnoc(a[from + 1..from + 1 + n], Citations(a, from + 2 + n), id);
  }

  /** A position of `a` without a match is one of `a + CiteSuffix(id)` too. */
  lemma CitationsAppendNoMatch(a: string, id: string, from: nat)
    requires from < |a| && !CitationAt(a, from)
    requires Citations(a + CiteSuffix(id), from + 1) == Citations(a, from + 1) + [id]
    ensures Citations(a + CiteSuffix(id), from) == Citations(a, from) + [id]
  {
    CitationAtAppend(a, CiteSuffix(id), from);
    CitationsAtNoMatch(a + CiteSuffix(id), from);
    CitationsAtNoMatch(a, from);
  }

  /** The matches of `a + CiteSuffix(id)` from `from` are those of `a`, then `id`. */
  lemma {:induction false} CitationsAppendFrom(a: string, id: string, from: nat)
    requires from <= |a| && id != [] && forall k :: 0 <= k < |id| ==> IsCiteChar(id[k])
    ensures Citations(a + CiteSuffix(id), from) == Citations(a, from) + [id]
    decreases |a| - from
  {
    if from == |a| {
      CitationsOfSuffix(a, id);
    } else if CitationAt(a, from) {
      CitationsAppendFrom(a, id, from + 2 + CiteRun(a, from));
      CitationsAppendMatch(a, id, from);
    } else {
      CitationsAppendFrom(a, id, from + 1);
      CitationsAppendNoMatch(a, id, from);
    }
  }

  lemma ConsSnoc<T>(x: T, xs: seq<T>, y: T)
    ensures [x] + (xs + [y]) == ([x] + xs) + [y]
  {}

  /** The fallback answer of line 185 cites the entry it comes from, after whatever its answer
      cites itself. */
  lemma CitationsAppend(answer: string, id: string)
    requires id != [] && forall k :: 0 <= k < |id| ==> IsCiteChar(id[k])
    ensures Citations(answer + " [" + id + "]", 0) == Citations(answer, 0) + [id]
  {
    assert answer + " [" + id + "]" == answer + CiteSuffix(id);
    CitationsAppendFrom(answer, id, 0);
  }

  // ---------------------------------------------------------------------------------------------
  // Product-search formatting (lines 375-387)

  /** A product as `searchProducts` returns it; `price` is the text JavaScript renders for it. */
  datatype ProductHit = ProductHit(name: string, price: string, description: Option<string>, stock: int)

  const SearchHeader := "Here are some products that match your search:\n\n"

  /** The lines for the `number`-th product. */
  function ProductBlock(number: nat, p: ProductHit): string {
    NatToString(number) + ". **" + p.name + "** - $" + p.price + "\n"
    + (if Truthy(p.description) then "   " + p.description.value + "\n" else "")
    + "   Stock: " + IntToString(p.stock) + " available\n\n"
  }

  /** The header, then one numbered block per product in order. */
  function ProductListing(ps: seq<ProductHit>): (r: string)
    ensures SearchHeader <= r
  {
    if ps == [] then SearchHeader
    else ProductListing(ps[..|ps| - 1]) + ProductBlock(|ps|, ps[|ps| - 1])
  }

  /** Every product's block, numbered from 1 by its position, occurs in the listing. */
  lemma {:induction false} ListingShowsEach(ps: seq<ProductHit>, k: nat)
    requires k < |ps|
    ensures Contains(ProductListing(ps), ProductBlock(k + 1, ps[k]))
  {
    var init := ps[..|ps| - 1];
    var last := ProductBlock(|ps|, ps[|ps| - 1]);
    if k == |ps| - 1 {
      var l := ProductListing(init);
      assert (l + last)[|l|..|l| + |last|] == last;
      ContainsAt(l + last, last, |l|);
    } else {
      assert init[k] == ps[k];
      ListingShowsEach(init, k);
      ContainsPrefix(ProductListing(init), last, ProductBlock(k + 1, ps[k]));
    }
  }

  /** `formatProductSearch(products)`: the `forEach` appending one block per product. */
  method FormatProductSearch(products: seq<ProductHit>) returns (response: string)
    ensures response == ProductListing(products)
  {
    response := SearchHeader;
    for i := 0 to |products|
      invariant response == ProductListing(products[..i])
    {
      assert products[..i + 1][..i] == products[..i];
      response := response + ProductBlock(i + 1, products[i]);
    }
    assert products[..|products|] == products;
  }

  // ---------------------------------------------------------------------------------------------
  // processQuery (lines 93-163) and its handlers

  /** The `context` argument: absent (the default `{}`), `null`, or an object with `orderId`. */
  datatype QueryContext = NoContext | NullContext | WithOrderId(orderId: Option<string>)

  /** What the LLM call yields: `response.data.output`, or a throw (no base URL, network, timeout). */
  datatype LlmReply = LlmOutput(output: Option<string>) | LlmThrows

  /** What `getOrderStatus` yields: success with the text `formatOrderStatus` makes of the order,
      `success: false`, or a throw. */
  datatype OrderLookup = OrderFound(summary: string) | OrderMissing | LookupThrows

  /** What `searchProducts` yields. */
  datatype SearchOutcome = SearchFound(products: seq<ProductHit>) | SearchUnsuccessful | SearchThrows

  /** The answers of the collaborators for one query; `pick` is `Math.floor(Math.random() * 3)`. */
  datatype Collaborators = Collaborators(llm: LlmReply, order: OrderLookup, search: SearchOutcome, pick: nat)

  /** The reply, without its timing fields. */
  datatype Answer = Answer(text: string, intent: string, citations: seq<string>, functionsCalled: seq<string>)

  const ErrorIntent := "error"
  const ErrorText := "I apologize, but I'm experiencing some technical difficulties. Please try again or contact our support team directly."
  const VaguePolicyText := "I'd be happy to help with policy questions! Could you be more specific about what you'd like to know? For example, you can ask about our return policy, shipping options, or warranty information."
  const LlmEmptyText := "I apologize, but I had trouble processing your request."
  const AskOrderIdText := "I'd be happy to help you check your order status! Could you please provide your order ID?"
  const OrderTroubleText := "I'm having trouble accessing your order information right now. Please try again in a moment."
  const NoProductsText := "I couldn't find any products matching your search. Could you try different keywords or browse our catalog?"
  const SearchTroubleText := "I'm having trouble searching our products right now. Please try again in a moment."
  const OffTopicText := "I'd be happy to chat, but I'm here specifically to help with questions about our products, orders, and policies. Is there anything store-related I can assist you with?"
  const ViolationText := "I'm here to help with customer service questions in a respectful manner. If you have questions about our products, orders, or policies, I'd be happy to assist you."

  function NotFoundText(orderId: string): string {
    "I couldn't find an order with ID " + orderId + ". Please double-check your order ID and try again."
  }

  lemma NotFoundNamesId(orderId: string)
    ensures Contains(NotFoundText(orderId), orderId)
  {
    var pre := "I couldn't find an order with ID ";
    var t := NotFoundText(orderId);
    assert t[|pre|..|pre| + |orderId|] == orderId;
    ContainsAt(t, orderId, |pre|);
  }

  const ComplaintOpening := "I'm really sorry to hear about this issue, and I understand your frustration. As "
  const ComplaintClosing := ", I want to make sure we resolve this for you. Let me connect you with our senior support team who can provide immediate assistance. In the meantime, could you provide your order number so we can look into this right away?"

  function ComplaintText(name: string): string {
    ComplaintOpening + name + ComplaintClosing
  }

  /** The three greeting templates, as the text before and after the assistant's name. */
  const GreetingOpenings: seq<string> := ["Hello! I'm ", "Hi there! ", "Good to meet you! I'm "]
  const GreetingClosings: seq<string> := [
    ", your customer support specialist. How can I help you today?",
    " here. What can I assist you with today?",
    " and I'm here to help with any questions about our products or orders."]

  function Greeting(name: string, pick: nat): string
    requires pick < 3
  {
    GreetingOpenings[pick] + name + GreetingClosings[pick]
  }

  /** The complaint reply and each of the three greetings name the configured assistant. */
  lemma TextsNameAssistant(name: string, pick: nat)
    requires pick < 3
    ensures Contains(ComplaintText(name), name)
    ensures Contains(Greeting(name, pick), name)
  {
    ContainsMiddle(ComplaintOpening, name, ComplaintClosing);
    ContainsMiddle(GreetingOpenings[pick], name, GreetingClosings[pick]);
  }

  function DefaultText(name: string): string {
    "I'm " + name + ", your customer support specialist. I can help you with questions about our products, order status, shipping, returns, and more. What would you like to know?"
  }

  /** `handlePolicyQuestion(userInput)` (lines 165-187): the fixed prompt when no entry is
      relevant; the LLM's output (or its fallback sentence when empty) when the call succeeds; the
      first relevant entry's answer with its id in brackets when the call throws, which it does
      whenever no base URL is configured. */
  function PolicyAnswer(kb: seq<Policy>, llmBaseUrl: Option<string>, userInput: string, llm: LlmReply): (r: string)
    ensures FindRelevantPolicies(kb, userInput) == [] ==> r == VaguePolicyText
    ensures var ps := FindRelevantPolicies(kb, userInput);
      ps != [] && (!Truthy(llmBaseUrl) || llm.LlmThrows?) ==> r == ps[0].answer + " [" + ps[0].id + "]"
    ensures FindRelevantPolicies(kb, userInput) != [] && Truthy(llmBaseUrl) && llm.LlmOutput? ==>
      r == (if Truthy(llm.output) then llm.output.value else LlmEmptyText)
  {
    var ps := FindRelevantPolicies(kb, userInput);
    if ps == [] then VaguePolicyText
    else if !Truthy(llmBaseUrl) || llm.LlmThrows? then ps[0].answer + " [" + ps[0].id + "]"
    else if Truthy(llm.output) then llm.output.value
    else LlmEmptyText
  }

  /** `this.extractOrderId(userInput) || context.orderId`: the id in the text wins; a `null`
      context throws when it has to be consulted. */
  function OrderIdFor(userInput: string, ctx: QueryContext): (r: Result<Option<string>, string>)
    ensures HasOrderId(userInput) ==> r == Success(ExtractOrderId(userInput))
    ensures !HasOrderId(userInput) ==> (r.Failure? <==> ctx.NullContext?)
    ensures !HasOrderId(userInput) && r.Success? ==>
      r.value == (if ctx.WithOrderId? && Truthy(ctx.orderId) then ctx.orderId else None)
  {
    var found := ExtractOrderId(userInput);
    if found.Some? then Success(found)
    else match ctx
      case NoContext => Success(None)
      case NullContext => Failure("Cannot read properties of null")
      case WithOrderId(o) => Success(if Truthy(o) then o else None)
  }

  /** `handleOrderStatus` once the id is known (lines 193-208): without an id it asks for one;
      with one, a found order's formatted status is the reply, a missing order's reply names the
      id that was looked up, and a failing lookup gets the apology. */
  function OrderAnswer(orderId: Option<string>, lookup: OrderLookup): (r: string)
    ensures orderId.None? ==> r == AskOrderIdText
    ensures orderId.Some? && lookup.OrderFound? ==> r == lookup.summary
    ensures orderId.Some? && lookup.OrderMissing? ==> Contains(r, orderId.value)
    ensures orderId.Some? && lookup.LookupThrows? ==> r == OrderTroubleText
  {
    if orderId.None? then AskOrderIdText
    else match lookup
      case OrderFound(summary) => summary
      case OrderMissing => NotFoundNamesId(orderId.value); NotFoundText(orderId.value)
      case LookupThrows => OrderTroubleText
  }

  /** `handleProductSearch` (lines 211-229). */
  function SearchAnswer(search: SearchOutcome): (r: string)
    ensures search.SearchFound? && search.products != [] ==> r == ProductListing(search.products)
    ensures search.SearchUnsuccessful? || (search.SearchFound? && search.products == []) ==> r == NoProductsText
    ensures search.SearchThrows? ==> r == SearchTroubleText
  {
    match search
    case SearchFound(ps) => if ps == [] then NoProductsText else ProductListing(ps)
    case SearchUnsuccessful => NoProductsText
    case SearchThrows => SearchTroubleText
  }

  /** The reply text of the handlers other than order status (lines 115-146). */
  function HandlerText(cfg: Config, kb: seq<Policy>, llmBaseUrl: Option<string>, userInput: string,
                       intent: string, w: Collaborators): string
    requires w.pick < 3
  {
    var name := cfg.identity.name;
    if intent == PolicyQuestion then PolicyAnswer(kb, llmBaseUrl, userInput, w.llm)
    else if intent == ProductSearch then SearchAnswer(w.search)
    else if intent == Complaint then ComplaintText(name)
    else if intent == Chitchat then Greeting(name, w.pick)
    else if intent == OffTopic then OffTopicText
    else if intent == Violation then ViolationText
    else DefaultText(name)
  }

  /** `processQuery(userInput, context)` (lines 93-163): the intent decides the handler, the
      functions reported and whether citations are extracted. The only throw that reaches the
      outer `catch` is reading `orderId` from a `null` context. */
  function ProcessQuery(cfg: Config, kb: seq<Policy>, llmBaseUrl: Option<string>, userInput: string,
                        ctx: QueryContext, w: Collaborators): Answer
    requires w.pick < 3
  {
    var intent := ClassifyIntent(cfg, userInput);
    if intent == OrderStatus then
      match OrderIdFor(userInput, ctx)
      case Failure(_) => Answer(ErrorText, ErrorIntent, [], [])
      case Success(id) => Answer(OrderAnswer(id, w.order), intent, [], ["getOrderStatus"])
    else
      var text := HandlerText(cfg, kb, llmBaseUrl, userInput, intent, w);
      Answer(text, intent, if intent == PolicyQuestion then Citations(text, 0) else [],
             if intent == ProductSearch then ["searchProducts"] else [])
  }

  /** A complaint or a chitchat reply introduces the assistant by the name the configuration's
      identity gives it. */
  lemma RepliesNameAssistant(cfg: Config, kb: seq<Policy>, llmBaseUrl: Option<string>, userInput: string,
                             ctx: QueryContext, w: Collaborators)
    requires w.pick < 3
    requires ClassifyIntent(cfg, userInput) == Complaint || ClassifyIntent(cfg, userInput) == Chitchat
    ensures Contains(ProcessQuery(cfg, kb, llmBaseUrl, userInput, ctx, w).text, cfg.identity.name)
  {
    IntentNamesDistinct();
    TextsNameAssistant(cfg.identity.name, w.pick);
  }

  /** The intent names and `error` are all different. */
  lemma IntentNamesDistinct()
    ensures ErrorIntent !in Intents
    ensures OrderStatus != PolicyQuestion && OrderStatus != ProductSearch && PolicyQuestion != ProductSearch
  {
    assert ErrorIntent[0] == 'e';
    assert PolicyQuestion[0] == 'p' && ProductSearch[1] == 'r' && PolicyQuestion[1] == 'o';
    assert OrderStatus[0] == 'o' && Complaint[0] == 'c' && Chitchat[0] == 'c' && Violation[0] == 'v';
    assert OffTopic[0] == 'o' && OffTopic[1] == 'f' && OrderStatus[1] == 'r';
  }

  /** The reply is the apology with intent `error` exactly for an order-status question without
      an id in its text and a `null` context; otherwise its intent is the classified one. */
  lemma ProcessQueryError(cfg: Config, kb: seq<Policy>, llmBaseUrl: Option<string>, userInput: string,
                          ctx: QueryContext, w: Collaborators)
    requires w.pick < 3
    ensures ProcessQuery(cfg, kb, llmBaseUrl, userInput, ctx, w).intent == ErrorIntent <==>
      ClassifyIntent(cfg, userInput) == OrderStatus && !HasOrderId(userInput) && ctx.NullContext?
    ensures ProcessQuery(cfg, kb, llmBaseUrl, userInput, ctx, w).intent == ErrorIntent ==>
      ProcessQuery(cfg, kb, llmBaseUrl, userInput, ctx, w) == Answer(ErrorText, ErrorIntent, [], [])
    ensures ProcessQuery(cfg, kb, llmBaseUrl, userInput, ctx, w).intent != ErrorIntent ==>
      ProcessQuery(cfg, kb, llmBaseUrl, userInput, ctx, w).intent == ClassifyIntent(cfg, userInput)
  {
    IntentNamesDistinct();
  }

  /** `functionsCalled` names `getOrderStatus` for an order-status reply and `searchProducts` for
      a product search, and nothing otherwise; only a policy reply carries citations, and they are
      those its text contains. */
  lemma ProcessQueryReports(cfg: Config, kb: seq<Policy>, llmBaseUrl: Option<string>, userInput: string,
                            ctx: QueryContext, w: Collaborators)
    requires w.pick < 3
    ensures var r := ProcessQuery(cfg, kb, llmBaseUrl, userInput, ctx, w);
      r.functionsCalled == if r.intent == OrderStatus then ["getOrderStatus"] else if r.intent == ProductSearch then ["searchProducts"] else []
    ensures var r := ProcessQuery(cfg, kb, llmBaseUrl, userInput, ctx, w);
      (r.citations != [] ==> r.intent == PolicyQuestion) && (r.intent == PolicyQuestion ==> r.citations == Citations(r.text, 0))
  {
    IntentNamesDistinct();
  }

  /** A policy question is answered by the policy handler, a product search by the search
      handler, and an order-status question whose id is known by the order handler. */
  lemma ProcessQueryText(cfg: Config, kb: seq<Policy>, llmBaseUrl: Option<string>, userInput: string,
                         ctx: QueryContext, w: Collaborators)
    requires w.pick < 3
    ensures ClassifyIntent(cfg, userInput) == PolicyQuestion ==>
      ProcessQuery(cfg, kb, llmBaseUrl, userInput, ctx, w).text == PolicyAnswer(kb, llmBaseUrl, userInput, w.llm)
    ensures ClassifyIntent(cfg, userInput) == ProductSearch ==>
      ProcessQuery(cfg, kb, llmBaseUrl, userInput, ctx, w).text == SearchAnswer(w.search)
    ensures ClassifyIntent(cfg, userInput) == OrderStatus && OrderIdFor(userInput, ctx).Success? ==>
      ProcessQuery(cfg, kb, llmBaseUrl, userInput, ctx, w).text == OrderAnswer(OrderIdFor(userInput, ctx).value, w.order)
  {
    IntentNamesDistinct();
  }

  /** An order id in the text takes precedence over the context, whatever the context holds;
      with neither, the reply asks for the id. */
  lemma TextIdWins(cfg: Config, kb: seq<Policy>, llmBaseUrl: Option<string>, userInput: string,
                   ctx: QueryContext, other: QueryContext, w: Collaborators)
    requires w.pick < 3 && ClassifyIntent(cfg, userInput) == OrderStatus
    ensures HasOrderId(userInput) ==>
      ProcessQuery(cfg, kb, llmBaseUrl, userInput, ctx, w) == ProcessQuery(cfg, kb, llmBaseUrl, userInput, other, w)
      && ProcessQuery(cfg, kb, llmBaseUrl, userInput, ctx, w).text == OrderAnswer(ExtractOrderId(userInput), w.order)
    ensures !HasOrderId(userInput) && !ctx.NullContext? && !(ctx.WithOrderId? && Truthy(ctx.orderId)) ==>
      ProcessQuery(cfg, kb, llmBaseUrl, userInput, ctx, w) == Answer(AskOrderIdText, OrderStatus, [], ["getOrderStatus"])
  {}

  /** When the LLM cannot answer, a policy question gets the first relevant entry's answer with
      its id in brackets, and that id is the last citation extracted from the reply. */
  lemma PolicyFallbackCites(cfg: Config, kb: seq<Policy>, llmBaseUrl: Option<string>, userInput: string,
                            ctx: QueryContext, w: Collaborators)
    requires w.pick < 3 && ClassifyIntent(cfg, userInput) == PolicyQuestion
    requires !Truthy(llmBaseUrl) || w.llm.LlmThrows?
    requires var ps := FindRelevantPolicies(kb, userInput);
      ps != [] && ps[0].id != [] && forall k :: 0 <= k < |ps[0].id| ==> IsCiteChar(ps[0].id[k])
    ensures var p := FindRelevantPolicies(kb, userInput)[0]; var r := ProcessQuery(cfg, kb, llmBaseUrl, userInput, ctx, w);
      r.text == p.answer + " [" + p.id + "]" && r.citations == Citations(p.answer, 0) + [p.id]
  {
    var p := FindRelevantPolicies(kb, userInput)[0];
    CitationsAppend(p.answer, p.id);
  }

  /** Markdown ids are citation text, so the fallback citation applies to them. */
  lemma DocIdIsCitable(index: nat)
    ensures DocId(index) != [] && forall k :: 0 <= k < |DocId(index)| ==> IsCiteChar(DocId(index)[k])
  {
    var d := DocId(index);
    assert forall k :: 3 <= k < |d| ==> d[k] == Padded(index, 2)[k - 3];
  }
}
