/** The storefront's catalog page (apps/storefront/src/pages/catalog.tsx): the tag list offered as
    a filter, and the products shown for a search text, a tag and a price order.

    The product list is a parameter (the page's `listProducts()`). Strings are ordered character
    by character, as `Array.prototype.sort` orders them without a comparator. */
module Catalog {
  import opened Wrappers
  import opened Text

  /** A product as the storefront pages read it. */
  datatype StoreProduct = StoreProduct(
    id: string, title: string, price: int, image: string, tags: seq<string>, stockQty: int,
    description: Option<string>)

  // Order-preserving selection

  /** `a` is `b` with some elements left out, the rest in their order. */
  predicate Subsequence<T(==)>(a: seq<T>, b: seq<T>)
    decreases |b|
  {
    a == [] || (b != [] && ((a[0] == b[0] && Subsequence(a[1..], b[1..])) || Subsequence(a, b[1..])))
  }

  lemma {:induction false} SubsequenceRefl<T>(a: seq<T>)
    ensures Subsequence(a, a)
    decreases |a|
  {
    if a != [] {
      SubsequenceRefl(a[1..]);
    }
  }

  /** Leaving out elements twice leaves out elements once. */
  lemma {:induction false} SubsequenceTrans<T>(a: seq<T>, b: seq<T>, c: seq<T>)
    requires Subsequence(a, b) && Subsequence(b, c)
    ensures Subsequence(a, c)
    decreases |c|
  {
    if a != [] {
      if Subsequence(b, c[1..]) {
        SubsequenceTrans(a, b, c[1..]);
      } else if a[0] == b[0] && Subsequence(a[1..], b[1..]) {
        SubsequenceTrans(a[1..], b[1..], c[1..]);
      } else {
        SubsequenceTrans(a, b[1..], c[1..]);
      }
    }
  }

  // String order

  /** `a` sorts before `b`: the first differing character is smaller, or `a` is a proper prefix. */
  predicate Less(a: string, b: string)
    decreases |a|
  {
    b != [] && (a == [] || a[0] < b[0] || (a[0] == b[0] && Less(a[1..], b[1..])))
  }

  lemma {:induction false} LessIrreflexive(a: string)
    ensures !Less(a, a)
    decreases |a|
  {
    if a != [] {
      LessIrreflexive(a[1..]);
    }
  }

  lemma {:induction false} LessTrans(a: string, b: string, c: string)
    requires Less(a, b) && Less(b, c)
    ensures Less(a, c)
    decreases |a|
  {
    if a != [] && a[0] == b[0] && b[0] == c[0] {
      LessTrans(a[1..], b[1..], c[1..]);
    }
  }

  /** Any two different strings are ordered one way. */
  lemma {:induction false} LessTotal(a: string, b: string)
    ensures a == b || Less(a, b) || Less(b, a)
    decreases |a|
  {
    if a != [] && b != [] && a[0] == b[0] {
      LessTotal(a[1..], b[1..]);
      if a[1..] == b[1..] {
        assert a == [a[0]] + a[1..] && b == [b[0]] + b[1..];
      }
    }
  }

  /** No later element sorts before an earlier one. */
  predicate Sorted(s: seq<string>) {
    forall i, j :: 0 <= i < j < |s| ==> !Less(s[j], s[i])
  }

  predicate NoDuplicates<T(==)>(s: seq<T>) {
    forall i, j :: 0 <= i < j < |s| ==> s[i] != s[j]
  }

  /** The insertion step of the sort. */
  function Insert(x: string, s: seq<string>): (r: seq<string>)
    requires Sorted(s)
    ensures forall e :: e in r <==> e == x || e in s
    ensures |r| == |s| + 1 && Sorted(r)
    ensures NoDuplicates(s) && x !in s ==> NoDuplicates(r)
  {
    if s == [] then [x]
    else if !Less(s[0], x) then
      assert forall k :: 0 <= k < |s| ==> !Less(s[k], x) by {
        forall k | 0 <= k < |s| ensures !Less(s[k], x) {
          if k > 0 && Less(s[k], x) {
            LessTotal(s[0], s[k]);
            if s[0] != s[k] {
              LessTrans(s[0], s[k], x);
            }
          }
        }
      }
      [x] + s
    else
      assert Sorted(s[1..]) by {
        forall i, j | 0 <= i < j < |s[1..]| ensures !Less(s[1..][j], s[1..][i]) {
          assert s[1..][i] == s[i + 1] && s[1..][j] == s[j + 1];
        }
      }
      var rest := Insert(x, s[1..]);
      assert forall e :: e in rest ==> !Less(e, s[0]) by {
        forall e | e in rest ensures !Less(e, s[0]) {
          if e == x {
            if Less(x, s[0]) {
              LessTrans(x, s[0], x);
              LessIrreflexive(x);
            }
          } else {
            var k :| 1 <= k < |s| && s[k] == e;
          }
        }
      }
      var r := [s[0]] + rest;
      assert forall j :: 1 <= j < |r| ==> r[j] in rest by {
        forall j | 1 <= j < |r| ensures r[j] in rest { assert r[j] == rest[j - 1]; }
      }
      r
  }

  /** `array.sort()`: the same elements, sorted. */
  function SortStrings(xs: seq<string>): (r: seq<string>)
    ensures forall e :: e in r <==> e in xs
    ensures |r| == |xs| && Sorted(r)
    ensures NoDuplicates(xs) ==> NoDuplicates(r)
  {
    if xs == [] then []
    else
      assert NoDuplicates(xs) ==> NoDuplicates(xs[1..]) && xs[0] !in xs[1..] by {
        if NoDuplicates(xs) {
          forall i, j | 0 <= i < j < |xs[1..]| ensures xs[1..][i] != xs[1..][j] {
            assert xs[1..][i] == xs[i + 1] && xs[1..][j] == xs[j + 1];
          }
          forall k | 0 <= k < |xs[1..]| ensures xs[1..][k] != xs[0] {
            assert xs[1..][k] == xs[k + 1];
          }
        }
      }
      var r := Insert(xs[0], SortStrings(xs[1..]));
      assert forall e :: e in xs <==> e == xs[0] || e in xs[1..] by {
        assert xs == [xs[0]] + xs[1..];
      }
      r
  }

  /** A sorted list without repeats is strictly increasing. */
  lemma SortedStrictly(s: seq<string>)
    requires Sorted(s) && NoDuplicates(s)
    ensures forall i, j :: 0 <= i < j < |s| ==> Less(s[i], s[j])
  {
    forall i, j | 0 <= i < j < |s| ensures Less(s[i], s[j]) {
      LessTotal(s[i], s[j]);
    }
  }

  // allTags

  /** Some product carries the tag. */
  predicate Tagged(products: seq<StoreProduct>, t: string) {
    exists k :: 0 <= k < |products| && t in products[k].tags
  }

  /** `allTags` (lines 11-15): the loops add every tag of every product to a set, which keeps
      first occurrences in order; the set's elements are then sorted. The result lists each tag
      of some product exactly once, in increasing order. */
  method AllTags(products: seq<StoreProduct>) returns (tags: seq<string>)
    ensures forall t :: t in tags <==> Tagged(products, t)
    ensures forall i, j :: 0 <= i < j < |tags| ==> Less(tags[i], tags[j])
  {
    var seen: seq<string> := [];
    for i := 0 to |products|
      invariant NoDuplicates(seen)
      invariant forall t :: t in seen <==> Tagged(products[..i], t)
    {
      var ts := products[i].tags;
      for j := 0 to |ts|
        invariant NoDuplicates(seen)
        invariant forall t :: t in seen <==> Tagged(products[..i], t) || t in ts[..j]
      {
        if ts[j] !in seen {
          seen := seen + [ts[j]];
        }
        assert ts[..j + 1] == ts[..j] + [ts[j]];
      }
      assert ts[..|ts|] == ts;
      TaggedSnoc(products, i);
    }
    assert products[..|products|] == products;
    tags := SortStrings(seen);
    SortedStrictly(tags);
  }

  lemma TaggedSnoc(products: seq<StoreProduct>, i: nat)
    requires i < |products|
    ensures forall t :: Tagged(products[..i + 1], t) <==> Tagged(products[..i], t) || t in products[i].tags
  {
    forall t ensures Tagged(products[..i + 1], t) <==> Tagged(products[..i], t) || t in products[i].tags {
      if Tagged(products[..i + 1], t) {
        var k :| 0 <= k < i + 1 && t in products[..i + 1][k].tags;
        if k < i {
          assert products[..i][k] == products[..i + 1][k];
        }
      }
      if Tagged(products[..i], t) {
        var k :| 0 <= k < i && t in products[..i][k].tags;
        assert products[..i + 1][k] == products[..i][k];
      }
      if t in products[i].tags {
        assert products[..i + 1][i] == products[i];
      }
    }
  }

  // filtered

  /** `tokens.every(t => p.title.toLowerCase().includes(t) || p.tags.some(x => x.toLowerCase().includes(t)))` */
  predicate MatchesTokens(p: StoreProduct, tokens: seq<string>) {
    forall k :: 0 <= k < |tokens| ==>
      Contains(ToLower(p.title), tokens[k]) || exists x :: x in p.tags && Contains(ToLower(x), tokens[k])
  }

  /** `out.filter(p => tokens.every(...))` */
  function MatchingTokens(ps: seq<StoreProduct>, tokens: seq<string>): (r: seq<StoreProduct>)
    ensures forall p :: p in r <==> p in ps && MatchesTokens(p, tokens)
    ensures Subsequence(r, ps)
    ensures forall p :: multiset(r)[p] == if MatchesTokens(p, tokens) then multiset(ps)[p] else 0
  {
    if ps == [] then []
    else
      assert ps == [ps[0]] + ps[1..];
      if MatchesTokens(ps[0], tokens) then
      var r := [ps[0]] + MatchingTokens(ps[1..], tokens);
      assert r[1..] == MatchingTokens(ps[1..], tokens);
      r
    else MatchingTokens(ps[1..], tokens)
  }

  /** `out.filter(p => p.tags.includes(tag))` */
  function WithTag(ps: seq<StoreProduct>, tag: string): (r: seq<StoreProduct>)
    ensures forall p :: p in r <==> p in ps && tag in p.tags
    ensures Subsequence(r, ps)
    ensures forall p :: multiset(r)[p] == if tag in p.tags then multiset(ps)[p] else 0
  {
    if ps == [] then []
    else
      assert ps == [ps[0]] + ps[1..];
      if tag in ps[0].tags then
      var r := [ps[0]] + WithTag(ps[1..], tag);
      assert r[1..] == WithTag(ps[1..], tag);
      r
    else WithTag(ps[1..], tag)
  }

  /** The order a comparator `(a, b) => a.price - b.price` (ascending) or `b.price - a.price`
      (descending) puts first. */
  predicate PriceBefore(x: StoreProduct, y: StoreProduct, ascending: bool) {
    if ascending then x.price <= y.price else x.price >= y.price
  }

  predicate SortedByPrice(s: seq<StoreProduct>, ascending: bool) {
    forall i, j :: 0 <= i < j < |s| ==> PriceBefore(s[i], s[j], ascending)
  }

  /** The stable insertion step: `x` goes before the first element it may precede. */
  function InsertByPrice(x: StoreProduct, s: seq<StoreProduct>, ascending: bool): (r: seq<StoreProduct>)
    requires SortedByPrice(s, ascending)
    ensures multiset(r) == multiset(s) + multiset{x}
    ensures SortedByPrice(r, ascending)
  {
    if s == [] then [x]
    else if PriceBefore(x, s[0], ascending) then
      SortedCons(x, s, ascending);
      [x] + s
    else
      SortedTail(s, ascending);
      var rest := InsertByPrice(x, s[1..], ascending);
      HeadBeforeInserted(x, s, rest, ascending);
      assert rest[0] in rest;
      SortedCons(s[0], rest, ascending);
      assert s == [s[0]] + s[1..];
      [s[0]] + rest
  }

  lemma SortedTail(s: seq<StoreProduct>, ascending: bool)
    requires s != [] && SortedByPrice(s, ascending)
    ensures SortedByPrice(s[1..], ascending)
  {
    forall i, j | 0 <= i < j < |s[1..]| ensures PriceBefore(s[1..][i], s[1..][j], ascending) {
      assert s[1..][i] == s[i + 1] && s[1..][j] == s[j + 1];
    }
  }

  /** A product that may precede a sorted list's first element may precede all of it. */
  lemma SortedCons(h: StoreProduct, t: seq<StoreProduct>, ascending: bool)
    requires SortedByPrice(t, ascending)
    requires t != [] ==> PriceBefore(h, t[0], ascending)
    ensures SortedByPrice([h] + t, ascending)
  {
    var r := [h] + t;
    forall i, j | 0 <= i < j < |r| ensures PriceBefore(r[i], r[j], ascending) {
      assert r[j] == t[j - 1];
      if i == 0 {
        assert j - 1 > 0 ==> PriceBefore(t[0], t[j - 1], ascending);
      } else {
        assert r[i] == t[i - 1];
      }
    }
  }

  lemma HeadBeforeInserted(x: StoreProduct, s: seq<StoreProduct>, rest: seq<StoreProduct>, ascending: bool)
    requires s != [] && SortedByPrice(s, ascending) && !PriceBefore(x, s[0], ascending)
    requires multiset(rest) == multiset(s[1..]) + multiset{x}
    ensures forall e :: e in rest ==> PriceBefore(s[0], e, ascending)
  {
    forall e | e in rest ensures PriceBefore(s[0], e, ascending) {
      assert e in multiset(rest);
      if e != x {
        assert e in multiset(s[1..]);
        var k :| 0 <= k < |s[1..]| && s[1..][k] == e;
        assert s[k + 1] == e;
      }
    }
  }

  /** `out.slice().sort(comparator)`: a sorted copy, a permutation of the list. */
  function SortByPrice(s: seq<StoreProduct>, ascending: bool): (r: seq<StoreProduct>)
    ensures multiset(r) == multiset(s)
    ensures SortedByPrice(r, ascending)
  {
    if s == [] then []
    else
      assert s == [s[0]] + s[1..];
      InsertByPrice(s[0], SortByPrice(s[1..], ascending), ascending)
  }

  /** The products of one price, in the order of `s`. */
  function AtPrice(s: seq<StoreProduct>, v: int): seq<StoreProduct> {
    if s == [] then [] else (if s[0].price == v then [s[0]] else []) + AtPrice(s[1..], v)
  }

  /** The insertion step puts `x` before every product of its own price. */
  lemma {:induction false} InsertAtPrice(x: StoreProduct, s: seq<StoreProduct>, ascending: bool, v: int)
    requires SortedByPrice(s, ascending)
    ensures AtPrice(InsertByPrice(x, s, ascending), v) == (if x.price == v then [x] else []) + AtPrice(s, v)
  {
    if s == [] {
    } else if PriceBefore(x, s[0], ascending) {
      assert ([x] + s)[1..] == s;
    } else {
      SortedTail(s, ascending);
      var rest := InsertByPrice(x, s[1..], ascending);
      InsertAtPrice(x, s[1..], ascending, v);
      assert InsertByPrice(x, s, ascending) == [s[0]] + rest;
      assert ([s[0]] + rest)[1..] == rest;
      assert x.price != s[0].price;
    }
  }

  /** The sort is stable, like `Array.prototype.sort`: for every price, the products of that price
      come out in the order they came in. */
  lemma {:induction false} SortByPriceStable(s: seq<StoreProduct>, ascending: bool, v: int)
    ensures AtPrice(SortByPrice(s, ascending), v) == AtPrice(s, v)
  {
    if s != [] {
      SortByPriceStable(s[1..], ascending, v);
      InsertAtPrice(s[0], SortByPrice(s[1..], ascending), ascending, v);
    }
  }

  /** The search text's tokens: `q.toLowerCase().split(/\s+/).filter(Boolean)`. */
  function QueryTokens(q: string): seq<string> {
    Words(ToLower(q))
  }

  /** The two filters, before any sorting. */
  function Selected(products: seq<StoreProduct>, q: string, tag: string): (r: seq<StoreProduct>)
    ensures Subsequence(r, products)
    ensures forall p :: p in r <==>
      p in products && (q == "" || MatchesTokens(p, QueryTokens(q))) && (tag == "" || tag in p.tags)
    ensures forall p :: multiset(r)[p] ==
                        if (q == "" || MatchesTokens(p, QueryTokens(q))) && (tag == "" || tag in p.tags)
                        then multiset(products)[p] else 0
  {
    var out := if q != "" then MatchingTokens(products, QueryTokens(q)) else products;
    SubsequenceRefl(products);
    if tag != "" then
      SubsequenceTrans(WithTag(out, tag), out, products);
      WithTag(out, tag)
    else out
  }

  /** `filtered` (lines 17-27). */
  function Filtered(products: seq<StoreProduct>, q: string, tag: string, sort: string): seq<StoreProduct> {
    var out := Selected(products, q, tag);
    if sort == "asc" then SortByPrice(out, true)
    else if sort == "desc" then SortByPrice(out, false)
    else out
  }

  /** A product is shown exactly when it matches every search token and carries the tag (an
      empty search text or tag does not filter); `asc` and `desc` reorder the selection by price,
      any other order keeps it in catalog order. */
  lemma FilteredShows(products: seq<StoreProduct>, q: string, tag: string, sort: string)
    ensures var r := Filtered(products, q, tag, sort);
      && multiset(r) == multiset(Selected(products, q, tag))
      && (forall p :: p in r <==>
            p in products && (q == "" || MatchesTokens(p, QueryTokens(q))) && (tag == "" || tag in p.tags))
      && (sort == "asc" ==> SortedByPrice(r, true))
      && (sort == "desc" ==> SortedByPrice(r, false))
      && (sort != "asc" && sort != "desc" ==> Subsequence(r, products))
  {
    var s := Selected(products, q, tag);
    var r := Filtered(products, q, tag, sort);
    forall p ensures p in r <==> p in s {
      assert p in r <==> p in multiset(r);
      assert p in s <==> p in multiset(s);
    }
  }

  /** Without a search text, a tag or an order, every product is shown, in catalog order. */
  lemma FilteredNothing(products: seq<StoreProduct>)
    ensures Filtered(products, "", "", "") == products
  {}
}
