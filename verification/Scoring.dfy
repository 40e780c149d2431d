/**
 From matched rules to ranked products: the filters sent to the product catalogue, the
 score of each product, and the in-place exchange sort. Scores are exact reals.
 */
module Scoring {
  import opened Rules
  import opened Wrappers

  datatype Product = Product(
    id: string,
    name: string,
    description: string,
    price: real,
    category: string,
    tags: seq<string>,
    imageUrl: string)

  /** A product with its score and the names of the rules that gave it the score. */
  datatype Recommendation = Recommendation(product: Product, score: real, matchedRules: seq<string>)

  // ----- Filters -----

  /** What the catalogue is asked for; it sees tags and categories in no fixed order. */
  datatype Filters = Filters(tags: set<string>, categories: set<string>, minPrice: real, maxPrice: real)

  const PRICE_CEILING := 1000000.0

  function TagSet(rules: seq<Rule>): set<string> {
    set i, t | 0 <= i < |rules| && t in rules[i].actions.tags :: t
  }

  function CategorySet(rules: seq<Rule>): set<string> {
    set i, c | 0 <= i < |rules| && c in rules[i].actions.categories :: c
  }

  ghost predicate HasMin(r: Rule, p: real) {
    r.actions.priceRange.Some? && r.actions.priceRange.value.min == p
  }

  /** A maximum that is not positive means no maximum. */
  ghost predicate HasMax(r: Rule, p: real) {
    r.actions.priceRange.Some? && r.actions.priceRange.value.max == p && p > 0.0
  }

  /** The price is acceptable to the rule. */
  predicate InRange(r: Rule, p: real) {
    r.actions.priceRange.Some? ==>
      var range := r.actions.priceRange.value;
      range.min <= p && (range.max > 0.0 ==> p <= range.max)
  }

  /** The price is in the basic interval and acceptable to every rule. */
  ghost predicate Acceptable(rules: seq<Rule>, p: real) {
    0.0 <= p <= PRICE_CEILING && forall r :: r in rules ==> InRange(r, p)
  }

  /** The largest of 0 and the rules' minimum prices. */
  ghost predicate IsMinPrice(rules: seq<Rule>, p: real) {
    && p >= 0.0
    && (forall r, q :: r in rules && HasMin(r, q) ==> q <= p)
    && (p == 0.0 || exists r :: r in rules && HasMin(r, p))
  }

  /** The smallest of the ceiling and the rules' maximum prices. */
  ghost predicate IsMaxPrice(rules: seq<Rule>, p: real) {
    && p <= PRICE_CEILING
    && (forall r, q :: r in rules && HasMax(r, q) ==> p <= q)
    && (p == PRICE_CEILING || exists r :: r in rules && HasMax(r, p))
  }

  ghost predicate IsFilters(rules: seq<Rule>, f: Filters) {
    && f.tags == TagSet(rules)
    && f.categories == CategorySet(rules)
    && IsMinPrice(rules, f.minPrice)
    && IsMaxPrice(rules, f.maxPrice)
  }

  function FiltersOf(rules: seq<Rule>): (f: Filters)
    ensures IsFilters(rules, f)
  {
    if rules == [] then Filters({}, {}, 0.0, PRICE_CEILING)
    else
      var front, r := rules[..|rules| - 1], rules[|rules| - 1];
      var f := FiltersOf(front);
      var range := r.actions.priceRange;
      var min := if range.Some? && range.value.min > f.minPrice then range.value.min else f.minPrice;
      var max := if range.Some? && range.value.max > 0.0 && range.value.max < f.maxPrice then range.value.max
                 else f.maxPrice;
      assert rules == front + [r];
      PricesNext(front, r, f.minPrice, f.maxPrice, min, max);
      Filters(TagSet(rules), CategorySet(rules), min, max)
  }

  /** Acceptable, written out over the fields: between 0 and 1000000, not below any rule's
      minimum and not above any rule's maximum that is positive. */
  lemma AcceptableWrittenOut(rules: seq<Rule>, p: real)
    ensures Acceptable(rules, p) <==>
              && 0.0 <= p <= 1000000.0
              && forall r :: r in rules && r.actions.priceRange.Some? ==>
                   var range := r.actions.priceRange.value;
                   range.min <= p && (range.max <= 0.0 || p <= range.max)
  {
    if forall r :: r in rules && r.actions.priceRange.Some? ==>
         var range := r.actions.priceRange.value;
         range.min <= p && (range.max <= 0.0 || p <= range.max)
    {
      assert forall r :: r in rules ==> InRange(r, p);
    }
    if forall r :: r in rules ==> InRange(r, p) {
      forall r | r in rules && r.actions.priceRange.Some?
        ensures var range := r.actions.priceRange.value;
          range.min <= p && (range.max <= 0.0 || p <= range.max)
      {
        assert InRange(r, p);
      }
    }
  }

  predicate Distinct(s: seq<string>) {
    forall i, j :: 0 <= i < j < |s| ==> s[i] != s[j]
  }

  /** Lists a set in some order, as a range over a map does. */
  method ListOf(s: set<string>) returns (list: seq<string>)
    ensures Distinct(list)
    ensures forall x :: x in list <==> x in s
  {
    list := [];
    var todo := s;
    while todo != {}
      invariant todo <= s
      invariant Distinct(list)
      invariant forall x :: x in list <==> x in s && x !in todo
      decreases |todo|
    {
      var x :| x in todo;
      todo := todo - {x};
      list := list + [x];
    }
  }

  method AggregateFilters(rules: seq<Rule>)
    returns (tags: seq<string>, categories: seq<string>, minPrice: real, maxPrice: real)
    ensures Distinct(tags) && Distinct(categories)
    ensures forall t :: t in tags <==> exists r :: r in rules && t in r.actions.tags
    ensures forall c :: c in categories <==> exists r :: r in rules && c in r.actions.categories
    ensures IsMinPrice(rules, minPrice) && IsMaxPrice(rules, maxPrice)
    ensures forall p :: Acceptable(rules, p) <==> minPrice <= p <= maxPrice
    ensures (forall r :: r in rules ==> r.actions.priceRange.None?) ==> minPrice == 0.0 && maxPrice == 1000000.0
  {
    var tagMap: set<string>, categoryMap: set<string> := {}, {};
    minPrice, maxPrice := 0.0, PRICE_CEILING;
    for i := 0 to |rules|
      invariant tagMap == TagSet(rules[..i])
      invariant categoryMap == CategorySet(rules[..i])
      invariant IsMinPrice(rules[..i], minPrice)
      invariant IsMaxPrice(rules[..i], maxPrice)
    {
      var rule := rules[i];
      var front := rules[..i];
      assert rules[..i + 1] == front + [rule];
      for j := 0 to |rule.actions.tags|
        invariant forall t :: t in tagMap <==> t in TagSet(front) || t in rule.actions.tags[..j]
      {
        tagMap := tagMap + {rule.actions.tags[j]};
      }
      for j := 0 to |rule.actions.categories|
        invariant forall c :: c in categoryMap <==> c in CategorySet(front) || c in rule.actions.categories[..j]
      {
        categoryMap := categoryMap + {rule.actions.categories[j]};
      }
      SetsNext(front, rule, tagMap, categoryMap);
      ghost var min, max := minPrice, maxPrice;
      if rule.actions.priceRange.Some? {
        var range := rule.actions.priceRange.value;
        if range.min > minPrice {
          minPrice := range.min;
        }
        if range.max > 0.0 && range.max < maxPrice {
          maxPrice := range.max;
        }
      }
      PricesNext(front, rule, min, max, minPrice, maxPrice);
    }
    assert rules[..|rules|] == rules;
    PricesAreIntersection(rules, minPrice, maxPrice);
    tags := ListOf(tagMap);
    categories := ListOf(categoryMap);
    SetsAsUnions(rules);
  }

  lemma SetsNext(front: seq<Rule>, rule: Rule, tags: set<string>, categories: set<string>)
    requires forall t :: t in tags <==> t in TagSet(front) || t in rule.actions.tags
    requires forall c :: c in categories <==> c in CategorySet(front) || c in rule.actions.categories
    ensures tags == TagSet(front + [rule]) && categories == CategorySet(front + [rule])
  {
    var rules := front + [rule];
    assert rules[|front|] == rule && forall i :: 0 <= i < |front| ==> rules[i] == front[i];
  }

  lemma SetsAsUnions(rules: seq<Rule>)
    ensures forall t :: t in TagSet(rules) <==> exists r :: r in rules && t in r.actions.tags
    ensures forall c :: c in CategorySet(rules) <==> exists r :: r in rules && c in r.actions.categories
  {
  }

  lemma PricesNext(front: seq<Rule>, rule: Rule, min: real, max: real, min': real, max': real)
    requires IsMinPrice(front, min) && IsMaxPrice(front, max)
    requires var range := rule.actions.priceRange;
      && min' == (if range.Some? && range.value.min > min then range.value.min else min)
      && max' == (if range.Some? && range.value.max > 0.0 && range.value.max < max then range.value.max else max)
    ensures IsMinPrice(front + [rule], min') && IsMaxPrice(front + [rule], max')
  {
    var rules := front + [rule];
    assert forall r :: r in rules <==> r in front || r == rule;
    assert min' != min ==> HasMin(rule, min');
    assert max' != max ==> HasMax(rule, max');
  }

  /** The price interval is the intersection of [0, ceiling] with every rule's range. */
  lemma PricesAreIntersection(rules: seq<Rule>, min: real, max: real)
    requires IsMinPrice(rules, min) && IsMaxPrice(rules, max)
    ensures forall p :: Acceptable(rules, p) <==> min <= p <= max
  {
    forall p ensures Acceptable(rules, p) <==> min <= p <= max {
      if min <= p <= max {
        forall r | r in rules && r.actions.priceRange.Some? ensures InRange(r, p) {
          assert HasMin(r, r.actions.priceRange.value.min);
          assert r.actions.priceRange.value.max > 0.0 ==> HasMax(r, r.actions.priceRange.value.max);
        }
      }
      if Acceptable(rules, p) {
        if min != 0.0 {
          var r :| r in rules && HasMin(r, min);
          assert InRange(r, p);
        }
        if max != PRICE_CEILING {
          var r :| r in rules && HasMax(r, max);
          assert InRange(r, p);
        }
      }
    }
  }

  /** The filters depend only on which rules matched, not on their order or repetition. */
  lemma FiltersIgnoreOrder(rules: seq<Rule>, other: seq<Rule>)
    requires forall r :: r in rules <==> r in other
    ensures FiltersOf(rules) == FiltersOf(other)
  {
    var f, g := FiltersOf(rules), FiltersOf(other);
    SetsAsUnions(rules);
    SetsAsUnions(other);
    assert f.tags == g.tags && f.categories == g.categories;
    PricesOrdered(rules, f, other, g);
    PricesOrdered(other, g, rules, f);
  }

  lemma PricesOrdered(rules: seq<Rule>, f: Filters, more: seq<Rule>, g: Filters)
    requires IsFilters(rules, f) && IsFilters(more, g)
    requires forall r :: r in rules ==> r in more
    ensures f.minPrice <= g.minPrice && g.maxPrice <= f.maxPrice
  {
    if f.minPrice != 0.0 {
      var r :| r in rules && HasMin(r, f.minPrice);
      assert r in more;
    }
    if f.maxPrice != PRICE_CEILING {
      var r :| r in rules && HasMax(r, f.maxPrice);
      assert r in more;
    }
  }

  function Larger(a: real, b: real): real { if a >= b then a else b }

  function Smaller(a: real, b: real): real { if a <= b then a else b }

  /** Without price ranges the catalogue is asked for prices from 0 to 1000000. */
  lemma {:induction false} NoPriceRanges(rules: seq<Rule>)
    requires forall r :: r in rules ==> r.actions.priceRange.None?
    ensures FiltersOf(rules).minPrice == 0.0 && FiltersOf(rules).maxPrice == 1000000.0
  {
    if rules != [] {
      var n := |rules| - 1;
      assert rules[n] in rules;
      NoPriceRanges(rules[..n]);
    }
  }

  /** The filters of one rule: its tags and categories, its minimum price if that is
      positive, and its maximum price if that is positive and below the ceiling. */
  lemma FiltersOfOne(r: Rule)
    ensures var f, range := FiltersOf([r]), r.actions.priceRange;
      && (forall t :: t in f.tags <==> t in r.actions.tags)
      && (forall c :: c in f.categories <==> c in r.actions.categories)
      && f.minPrice == (if range.Some? && range.value.min > 0.0 then range.value.min else 0.0)
      && f.maxPrice == if range.Some? && 0.0 < range.value.max < 1000000.0 then range.value.max else 1000000.0
  {
    var rules := [r];
    assert rules[..0] == [];
    NoPriceRanges(rules[..0]);
    SetsAsUnions(rules);
    assert forall q :: q in rules <==> q == r;
  }

  /** The filters of two lists of rules together: the union of tags and of categories, the
      larger minimum and the smaller maximum. With FiltersOfOne this fixes all filters. */
  lemma FiltersJoin(a: seq<Rule>, b: seq<Rule>)
    ensures var f, g, h := FiltersOf(a), FiltersOf(b), FiltersOf(a + b);
      && h.tags == f.tags + g.tags && h.categories == f.categories + g.categories
      && h.minPrice == Larger(f.minPrice, g.minPrice)
      && h.maxPrice == Smaller(f.maxPrice, g.maxPrice)
  {
    SetsAsUnions(a);
    SetsAsUnions(b);
    SetsAsUnions(a + b);
    assert FiltersOf(a + b).tags == FiltersOf(a).tags + FiltersOf(b).tags;
    assert FiltersOf(a + b).categories == FiltersOf(a).categories + FiltersOf(b).categories;
    MinimaJoin(a, b, FiltersOf(a).minPrice, FiltersOf(b).minPrice, FiltersOf(a + b).minPrice);
    MaximaJoin(a, b, FiltersOf(a).maxPrice, FiltersOf(b).maxPrice, FiltersOf(a + b).maxPrice);
  }

  lemma MinimaJoin(a: seq<Rule>, b: seq<Rule>, p: real, q: real, m: real)
    requires IsMinPrice(a, p) && IsMinPrice(b, q) && IsMinPrice(a + b, m)
    ensures m == Larger(p, q)
  {
    assert forall r :: r in a + b <==> r in a || r in b;
    if p != 0.0 {
      var r :| r in a && HasMin(r, p);
      assert r in a + b;
    }
    if q != 0.0 {
      var r :| r in b && HasMin(r, q);
      assert r in a + b;
    }
  }

  lemma MaximaJoin(a: seq<Rule>, b: seq<Rule>, p: real, q: real, m: real)
    requires IsMaxPrice(a, p) && IsMaxPrice(b, q) && IsMaxPrice(a + b, m)
    ensures m == Smaller(p, q)
  {
    assert forall r :: r in a + b <==> r in a || r in b;
    if p != PRICE_CEILING {
      var r :| r in a && HasMax(r, p);
      assert r in a + b;
    }
    if q != PRICE_CEILING {
      var r :| r in b && HasMax(r, q);
      assert r in a + b;
    }
  }

  /** More rules ask for more tags and categories, in a narrower price interval. */
  lemma MoreRulesNarrowPrices(rules: seq<Rule>, more: seq<Rule>)
    requires forall r :: r in rules ==> r in more
    ensures FiltersOf(rules).minPrice <= FiltersOf(more).minPrice
    ensures FiltersOf(more).maxPrice <= FiltersOf(rules).maxPrice
    ensures FiltersOf(rules).tags <= FiltersOf(more).tags
    ensures FiltersOf(rules).categories <= FiltersOf(more).categories
  {
    PricesOrdered(rules, FiltersOf(rules), more, FiltersOf(more));
    SetsAsUnions(rules);
    SetsAsUnions(more);
  }

  // ----- Scores -----

  predicate SharesTag(r: Rule, p: Product) {
    exists t :: t in r.actions.tags && t in p.tags
  }

  /** Every rule occurrence that shares a tag adds its score once. */
  function ScoreOf(p: Product, rules: seq<Rule>): real {
    if rules == [] then 0.0
    else
      var r := rules[|rules| - 1];
      ScoreOf(p, rules[..|rules| - 1]) + if SharesTag(r, p) then CalculateScore(r) else 0.0
  }

  function NamesOf(p: Product, rules: seq<Rule>): seq<string> {
    if rules == [] then []
    else
      var r := rules[|rules| - 1];
      NamesOf(p, rules[..|rules| - 1]) + if SharesTag(r, p) then [r.name] else []
  }

  /** Scores and names add up over the rules, in their order. */
  lemma {:induction false} ScoresAddUp(p: Product, a: seq<Rule>, b: seq<Rule>)
    ensures ScoreOf(p, a + b) == ScoreOf(p, a) + ScoreOf(p, b)
    ensures NamesOf(p, a + b) == NamesOf(p, a) + NamesOf(p, b)
  {
    if b == [] {
      assert a + b == a;
    } else {
      var n := |b| - 1;
      ScoresAddUp(p, a, b[..n]);
      assert (a + b)[..|a + b| - 1] == a + b[..n];
    }
  }

  /** One rule gives its score and its name if it has a tag of the product, else nothing. */
  lemma ScoreOfOne(p: Product, r: Rule)
    ensures ScoreOf(p, [r]) == if exists t :: t in r.actions.tags && t in p.tags then CalculateScore(r) else 0.0
    ensures NamesOf(p, [r]) == if exists t :: t in r.actions.tags && t in p.tags then [r.name] else []
  {
    assert [r][..0] == [];
  }

  /** The scored products in the order they came in. */
  function Scored(products: seq<Product>, rules: seq<Rule>): (s: seq<Recommendation>)
    ensures |s| == |products|
    ensures forall i :: 0 <= i < |s| ==>
      s[i] == Recommendation(products[i], ScoreOf(products[i], rules), NamesOf(products[i], rules))
  {
    seq(|products|, i requires 0 <= i < |products| =>
      Recommendation(products[i], ScoreOf(products[i], rules), NamesOf(products[i], rules)))
  }

  // ----- The exchange sort -----

  /** One pass of the inner loop for position i, from position j on. */
  function Pass(s: seq<Recommendation>, i: nat, j: nat): (t: seq<Recommendation>)
    requires i < |s| && i < j
    ensures |t| == |s|
    decreases |s| - j
  {
    if j >= |s| then s
    else if s[j].score > s[i].score then Pass(s[i := s[j]][j := s[i]], i, j + 1)
    else Pass(s, i, j + 1)
  }

  /** The outer loop from position i on. */
  function ExchangeSort(s: seq<Recommendation>, i: nat): (t: seq<Recommendation>)
    ensures |t| == |s|
    decreases |s| - i
  {
    if i >= |s| then s else ExchangeSort(Pass(s, i, i + 1), i + 1)
  }

  function Ranked(products: seq<Product>, rules: seq<Rule>): seq<Recommendation> {
    ExchangeSort(Scored(products, rules), 0)
  }

  predicate Descending(s: seq<Recommendation>) {
    forall i, j :: 0 <= i < j < |s| ==> s[i].score >= s[j].score
  }

  lemma SwapKeepsElements<T>(s: seq<T>, i: nat, j: nat)
    requires i < |s| && j < |s|
    ensures multiset(s[i := s[j]][j := s[i]]) == multiset(s)
  {
  }

  /** Equal elements behind equal prefixes of the same length. */
  lemma SuffixElements<T>(s: seq<T>, t: seq<T>, i: nat)
    requires |s| == |t| && i <= |s| && s[..i] == t[..i] && multiset(s) == multiset(t)
    ensures multiset(s[i..]) == multiset(t[i..])
  {
    assert s == s[..i] + s[i..];
    assert t == t[..i] + t[i..];
    assert multiset(s[i..]) == multiset(s) - multiset(s[..i]);
    assert multiset(t[i..]) == multiset(t) - multiset(t[..i]);
  }

  /** A pass leaves everything below i alone and loses nothing. */
  lemma {:induction false} PassRearranges(s: seq<Recommendation>, i: nat, j: nat)
    requires i < |s| && i < j
    ensures Pass(s, i, j)[..i] == s[..i]
    ensures multiset(Pass(s, i, j)) == multiset(s)
    decreases |s| - j
  {
    if j < |s| {
      if s[j].score > s[i].score {
        var u := s[i := s[j]][j := s[i]];
        SwapKeepsElements(s, i, j);
        PassRearranges(u, i, j + 1);
        assert Pass(s, i, j) == Pass(u, i, j + 1);
        assert u[..i] == s[..i];
      } else {
        PassRearranges(s, i, j + 1);
        assert Pass(s, i, j) == Pass(s, i, j + 1);
      }
    }
  }

  /** A pass brings the largest score to i. */
  lemma {:induction false} PassSelects(s: seq<Recommendation>, i: nat, j: nat)
    requires i < |s| && i < j
    requires forall k :: i < k < j && k < |s| ==> s[i].score >= s[k].score
    ensures var t := Pass(s, i, j);
      forall k :: i < k < |t| ==> t[i].score >= t[k].score
    decreases |s| - j
  {
    if j < |s| {
      if s[j].score > s[i].score {
        var u := s[i := s[j]][j := s[i]];
        PassSelects(u, i, j + 1);
        assert Pass(s, i, j) == Pass(u, i, j + 1);
      } else {
        PassSelects(s, i, j + 1);
        assert Pass(s, i, j) == Pass(s, i, j + 1);
      }
    }
  }

  lemma {:induction false} ExchangeSortSorts(s: seq<Recommendation>, i: nat)
    requires i <= |s|
    requires forall p, q :: 0 <= p < i && p < q < |s| ==> s[p].score >= s[q].score
    ensures Descending(ExchangeSort(s, i))
    ensures multiset(ExchangeSort(s, i)) == multiset(s)
    decreases |s| - i
  {
    if i < |s| {
      var t := Pass(s, i, i + 1);
      PassSelects(s, i, i + 1);
      PassRearranges(s, i, i + 1);
      SuffixElements(s, t, i);
      forall p, q | 0 <= p < i + 1 && p < q < |t| ensures t[p].score >= t[q].score {
        if p < i {
          assert t[..i][p] == s[..i][p];
          if q < i {
            assert t[..i][q] == s[..i][q];
          } else {
            assert t[i..][q - i] in multiset(s[i..]);
            var k :| 0 <= k < |s[i..]| && s[i..][k] == t[q];
            assert s[i + k] == t[q];
          }
        }
      }
      ExchangeSortSorts(t, i + 1);
    }
  }

  // ----- Where equal scores end up -----

  /** The position of the leftmost of the greatest scores from i up to, but not at, k. */
  function Best(s: seq<Recommendation>, i: nat, k: nat): (l: nat)
    requires i < k <= |s|
    ensures i <= l < k
    ensures forall m :: i <= m < k ==> s[m].score <= s[l].score
    ensures forall m :: i <= m < l ==> s[m].score < s[l].score
    decreases k
  {
    if k == i + 1 then i
    else
      var l := Best(s, i, k - 1);
      if s[k - 1].score > s[l].score then k - 1 else l
  }

  /** What a pass for position i leaves at a later position k. */
  function Moved(s: seq<Recommendation>, i: nat, k: nat): Recommendation
    requires i < k < |s|
  {
    var l := Best(s, i, k);
    if s[k].score > s[l].score then s[l] else s[k]
  }

  /** The body of the inner loop. */
  function Compared(u: seq<Recommendation>, i: nat, j: nat): (t: seq<Recommendation>)
    requires i < j < |u|
    ensures |t| == |u| && forall k :: 0 <= k < |u| && k != i && k != j ==> t[k] == u[k]
  {
    if u[j].score > u[i].score then u[i := u[j]][j := u[i]] else u
  }

  lemma ComparedMoves(s: seq<Recommendation>, u: seq<Recommendation>, i: nat, j: nat)
    requires |u| == |s| && i < j < |s| && u[i] == s[Best(s, i, j)] && u[j] == s[j]
    ensures var t := Compared(u, i, j);
      t[i] == s[Best(s, i, j + 1)] && t[j] == Moved(s, i, j)
  {
  }

  /** u is s after the inner loop has reached j: the greatest score so far is at i, and
      nothing from j on has moved. */
  lemma {:induction false} PassFrom(s: seq<Recommendation>, u: seq<Recommendation>, i: nat, j: nat)
    requires |u| == |s| && i < j <= |s| && u[i] == s[Best(s, i, j)]
    requires forall k :: j <= k < |s| ==> u[k] == s[k]
    ensures var t := Pass(u, i, j);
      && (forall k :: 0 <= k < j && k != i ==> t[k] == u[k])
      && t[i] == s[Best(s, i, |s|)]
      && (forall k :: j <= k < |s| ==> t[k] == Moved(s, i, k))
    decreases |s| - j
  {
    if j < |s| {
      var next := Compared(u, i, j);
      ComparedMoves(s, u, i, j);
      assert Pass(u, i, j) == Pass(next, i, j + 1);
      PassFrom(s, next, i, j + 1);
    }
  }

  /** What one pass of the outer loop does, exactly: the leftmost of the greatest scores
      comes to i; every score greater than all before it makes way for the leftmost
      greatest one before it; everything else stays. */
  lemma PassMoves(s: seq<Recommendation>, i: nat)
    requires i < |s|
    ensures var t := Pass(s, i, i + 1);
      && t[..i] == s[..i]
      && t[i] == s[Best(s, i, |s|)]
      && (forall k :: i < k < |s| ==> t[k] == Moved(s, i, k))
  {
    PassFrom(s, s, i, i + 1);
  }

  lemma {:induction false} PassStays(s: seq<Recommendation>, i: nat, j: nat)
    requires i < |s| && i < j && forall k :: j <= k < |s| ==> s[k].score <= s[i].score
    ensures Pass(s, i, j) == s
    decreases |s| - j
  {
    if j < |s| {
      PassStays(s, i, j + 1);
    }
  }

  /** What is in descending order stays as it is, equal scores included. */
  lemma {:induction false} SortedStays(s: seq<Recommendation>, i: nat)
    requires Descending(s)
    ensures ExchangeSort(s, i) == s
    decreases |s| - i
  {
    if i < |s| {
      PassStays(s, i, i + 1);
      SortedStays(s, i + 1);
    }
  }

  /** Later passes leave the front alone. */
  lemma {:induction false} FrontStays(s: seq<Recommendation>, i: nat)
    requires i <= |s|
    ensures ExchangeSort(s, i)[..i] == s[..i]
    decreases |s| - i
  {
    if i < |s| {
      var t := Pass(s, i, i + 1);
      PassMoves(s, i);
      FrontStays(t, i + 1);
      assert ExchangeSort(s, i)[..i] == ExchangeSort(s, i)[..i + 1][..i] == t[..i + 1][..i];
    }
  }

  /** Of all with the greatest score, the one that came first ends up first. */
  lemma FirstIsBest(s: seq<Recommendation>)
    requires s != []
    ensures ExchangeSort(s, 0)[0] == s[Best(s, 0, |s|)]
  {
    var t := Pass(s, 0, 1);
    PassMoves(s, 0);
    FrontStays(t, 1);
    assert ExchangeSort(t, 1)[..1][0] == t[..1][0];
  }

  /** Products that come in order of their scores are returned in that order, also where
      scores are equal; and of all products with the greatest score the one that came
      first is ranked first. */
  lemma RankingKeepsTies(products: seq<Product>, rules: seq<Rule>)
    ensures var s, ranked := Scored(products, rules), Ranked(products, rules);
      && (Descending(s) ==> ranked == s)
      && (products != [] ==> ranked[0] == s[Best(s, 0, |s|)])
  {
    var s := Scored(products, rules);
    if Descending(s) {
      SortedStays(s, 0);
    }
    if s != [] {
      FirstIsBest(s);
    }
  }

  /** Ranking is a score-descending rearrangement in which every product keeps its own
      score and rule names. */
  lemma RankedIsSortedPermutation(products: seq<Product>, rules: seq<Rule>)
    ensures Descending(Ranked(products, rules))
    ensures multiset(Ranked(products, rules)) == multiset(Scored(products, rules))
  {
    ExchangeSortSorts(Scored(products, rules), 0);
  }

  /** The loop of scoreProducts over an array, in place. */
  method SortInPlace(a: array<Recommendation>)
    modifies a
    ensures a[..] == ExchangeSort(old(a[..]), 0)
    ensures Descending(a[..])
    ensures multiset(a[..]) == multiset(old(a[..]))
  {
    ghost var was := a[..];
    for i := 0 to a.Length
      invariant ExchangeSort(a[..], i) == ExchangeSort(was, 0)
    {
      ghost var before := a[..];
      for j := i + 1 to a.Length
        invariant Pass(a[..], i, j) == Pass(before, i, i + 1)
      {
        ghost var now := a[..];
        if a[j].score > a[i].score {
          a[i], a[j] := a[j], a[i];
          assert a[..] == now[i := now[j]][j := now[i]];
        }
      }
    }
    ExchangeSortSorts(was, 0);
  }

  method ScoreProducts(products: seq<Product>, rules: seq<Rule>) returns (ranked: seq<Recommendation>)
    ensures ranked == Ranked(products, rules)
    ensures Descending(ranked)
    ensures multiset(ranked) == multiset(Scored(products, rules))
  {
    var scored: seq<Recommendation> := [];
    for i := 0 to |products|
      invariant scored == Scored(products[..i], rules)
    {
      var product := products[i];
      var score, names := 0.0, [];
      for k := 0 to |rules|
        invariant score == ScoreOf(product, rules[..k])
        invariant names == NamesOf(product, rules[..k])
      {
        var rule := rules[k];
        assert rules[..k + 1][..k] == rules[..k];
        var matches := TagsOverlap(rule, product);
        if matches {
          score := score + CalculateScore(rule);
          names := names + [rule.name];
        }
      }
      assert rules[..|rules|] == rules;
      scored := scored + [Recommendation(product, score, names)];
    }
    assert products[..|products|] == products;
    var a := new Recommendation[|scored|](i requires 0 <= i < |scored| => scored[i]);
    assert a[..] == scored;
    SortInPlace(a);
    ranked := a[..];
  }

  method TagsOverlap(rule: Rule, product: Product) returns (matches: bool)
    ensures matches <==> SharesTag(rule, product)
  {
    matches := false;
    for i := 0 to |rule.actions.tags|
      invariant matches <==> exists t :: t in rule.actions.tags[..i] && t in product.tags
    {
      var tag := rule.actions.tags[i];
      assert rule.actions.tags[..i + 1] == rule.actions.tags[..i] + [tag];
      for j := 0 to |product.tags|
        invariant !matches && forall k :: 0 <= k < j ==> product.tags[k] != tag
      {
        if tag == product.tags[j] {
          matches := true;
          break;
        }
      }
      if matches {
        assert tag in rule.actions.tags;
        break;
      }
    }
    if !matches {
      assert rule.actions.tags[..|rule.actions.tags|] == rule.actions.tags;
    }
  }

  // ----- Order of the matched rules does not matter -----

  function Without<T>(s: seq<T>, i: nat): seq<T>
    requires i < |s|
  {
    s[..i] + s[i + 1..]
  }

  lemma WithoutFront<T>(s: seq<T>, i: nat)
    requires i < |s| - 1
    ensures Without(s, i) == Without(s[..|s| - 1], i) + [s[|s| - 1]]
    ensures Without(s, i)[..|s| - 2] == Without(s[..|s| - 1], i)
  {
  }

  function ShareOf(r: Rule, p: Product): real {
    if SharesTag(r, p) then CalculateScore(r) else 0.0
  }

  lemma {:induction false} ScoreTakeOut(p: Product, rules: seq<Rule>, i: nat)
    requires i < |rules|
    ensures ScoreOf(p, rules) == ScoreOf(p, Without(rules, i)) + ShareOf(rules[i], p)
  {
    var n := |rules| - 1;
    if i < n {
      ScoreTakeOut(p, rules[..n], i);
      WithoutFront(rules, i);
    } else {
      assert Without(rules, i) == rules[..n];
    }
  }

  function NameShare(r: Rule, p: Product): seq<string> {
    if SharesTag(r, p) then [r.name] else []
  }

  lemma {:induction false} NamesTakeOut(p: Product, rules: seq<Rule>, i: nat)
    requires i < |rules|
    ensures multiset(NamesOf(p, rules)) == multiset(NamesOf(p, Without(rules, i))) + multiset(NameShare(rules[i], p))
  {
    var n := |rules| - 1;
    if i < n {
      NamesTakeOut(p, rules[..n], i);
      WithoutFront(rules, i);
      var last := NameShare(rules[n], p);
      assert NamesOf(p, rules) == NamesOf(p, rules[..n]) + last;
      assert NamesOf(p, Without(rules, i)) == NamesOf(p, Without(rules[..n], i)) + last;
      SwapAdded(multiset(NamesOf(p, Without(rules[..n], i))), multiset(NameShare(rules[i], p)), multiset(last));
    } else {
      assert Without(rules, i) == rules[..n];
      assert NamesOf(p, rules) == NamesOf(p, rules[..n]) + NameShare(rules[n], p);
    }
  }

  lemma SwapAdded<T>(a: multiset<T>, x: multiset<T>, y: multiset<T>)
    ensures (a + x) + y == (a + y) + x
  {
  }

  /** Score and multiset of names do not depend on the order of the rules. */
  lemma {:induction false} ScoreIgnoresOrder(p: Product, rules: seq<Rule>, other: seq<Rule>)
    requires multiset(rules) == multiset(other)
    ensures ScoreOf(p, rules) == ScoreOf(p, other)
    ensures multiset(NamesOf(p, rules)) == multiset(NamesOf(p, other))
  {
    if rules == [] {
      assert |multiset(other)| == 0;
    } else {
      var n := |rules| - 1;
      var r := rules[n];
      var i := SameElements(rules, other);
      ScoreIgnoresOrder(p, rules[..n], Without(other, i));
      ScoreTakeOut(p, other, i);
      NamesTakeOut(p, other, i);
      assert NamesOf(p, rules) == NamesOf(p, rules[..n]) + NameShare(r, p);
    }
  }

  /** The last element can be taken out of both. */
  lemma SameElements<T>(s: seq<T>, t: seq<T>) returns (i: nat)
    requires s != [] && multiset(s) == multiset(t)
    ensures i < |t| && t[i] == s[|s| - 1]
    ensures multiset(s[..|s| - 1]) == multiset(Without(t, i))
  {
    var n := |s| - 1;
    assert s[n] in multiset(t);
    i :| 0 <= i < |t| && t[i] == s[n];
    assert s == s[..n] + [s[n]];
    assert t == t[..i] + [t[i]] + t[i + 1..];
    assert multiset(Without(t, i)) == multiset(t) - multiset{s[n]};
    assert multiset(s[..n]) == multiset(s) - multiset{s[n]};
  }

  /** Same product, same score, and the same rule names up to their order. */
  ghost predicate Alike(a: Recommendation, b: Recommendation) {
    a.product == b.product && a.score == b.score && multiset(a.matchedRules) == multiset(b.matchedRules)
  }

  ghost predicate SameUpToNames(s: seq<Recommendation>, t: seq<Recommendation>) {
    |s| == |t| && forall i :: 0 <= i < |s| ==> Alike(s[i], t[i])
  }

  lemma {:induction false} PassKeepsAlike(s: seq<Recommendation>, t: seq<Recommendation>, i: nat, j: nat)
    requires SameUpToNames(s, t) && i < |s| && i < j
    ensures SameUpToNames(Pass(s, i, j), Pass(t, i, j))
    decreases |s| - j
  {
    if j < |s| {
      assert Alike(s[i], t[i]) && Alike(s[j], t[j]);
      if s[j].score > s[i].score {
        PassKeepsAlike(s[i := s[j]][j := s[i]], t[i := t[j]][j := t[i]], i, j + 1);
      } else {
        PassKeepsAlike(s, t, i, j + 1);
      }
    }
  }

  lemma {:induction false} SortKeepsAlike(s: seq<Recommendation>, t: seq<Recommendation>, i: nat)
    requires SameUpToNames(s, t)
    ensures SameUpToNames(ExchangeSort(s, i), ExchangeSort(t, i))
    decreases |s| - i
  {
    if i < |s| {
      PassKeepsAlike(s, t, i, i + 1);
      SortKeepsAlike(Pass(s, i, i + 1), Pass(t, i, i + 1), i + 1);
    }
  }

  /** However the engine's unstable sort breaks ties, the catalogue is asked the same
      question, and the same products come back in the same order with the same scores;
      only the order of the rule names may differ. */
  lemma TieBreaksDoNotMatter(rules: seq<Rule>, other: seq<Rule>, products: seq<Product>)
    requires multiset(rules) == multiset(other)
    ensures FiltersOf(rules) == FiltersOf(other)
    ensures SameUpToNames(Ranked(products, rules), Ranked(products, other))
  {
    forall r ensures r in rules <==> r in other {
      assert r in rules <==> r in multiset(rules);
      assert r in other <==> r in multiset(other);
    }
    FiltersIgnoreOrder(rules, other);
    forall p
      ensures ScoreOf(p, rules) == ScoreOf(p, other)
      ensures multiset(NamesOf(p, rules)) == multiset(NamesOf(p, other))
    {
      ScoreIgnoresOrder(p, rules, other);
    }
    SortKeepsAlike(Scored(products, rules), Scored(products, other), 0);
  }

  // ----- Monotone ranking -----

  ghost predicate NonNegative(rules: seq<Rule>) {
    forall r :: r in rules ==> r.priority >= 0 && r.weight >= 0.0
  }

  /** A product that carries every tag of another scores at least as high, and higher
      when it also shares a tag with a positive rule that the other misses. */
  lemma {:induction false} MoreTagsScoreHigher(rules: seq<Rule>, more: Product, less: Product)
    requires NonNegative(rules)
    requires forall t :: t in less.tags ==> t in more.tags
    ensures ScoreOf(more, rules) >= ScoreOf(less, rules)
    ensures (exists r :: r in rules && SharesTag(r, more) && !SharesTag(r, less) && CalculateScore(r) > 0.0) ==>
            ScoreOf(more, rules) > ScoreOf(less, rules)
  {
    if rules != [] {
      var n := |rules| - 1;
      var r, front := rules[n], rules[..n];
      assert rules == front + [r];
      assert r in rules && forall q :: q in front ==> q in rules;
      MoreTagsScoreHigher(front, more, less);
      ScoreNonNegative(r);
      if SharesTag(r, less) {
        var t :| t in r.actions.tags && t in less.tags;
        assert t in more.tags;
      }
    }
  }

  /** And in the ranking the first one comes before the second one. */
  lemma MoreTagsRankHigher(products: seq<Product>, rules: seq<Rule>, i: nat, j: nat)
    requires NonNegative(rules)
    requires i < |Ranked(products, rules)| && j < |Ranked(products, rules)|
    requires var more, less := Ranked(products, rules)[i].product, Ranked(products, rules)[j].product;
      && (forall t :: t in less.tags ==> t in more.tags)
      && (exists r :: r in rules && SharesTag(r, more) && !SharesTag(r, less) && CalculateScore(r) > 0.0)
    ensures i < j
  {
    var ranked := Ranked(products, rules);
    RankedIsSortedPermutation(products, rules);
    OwnScore(products, rules, i);
    OwnScore(products, rules, j);
    MoreTagsScoreHigher(rules, ranked[i].product, ranked[j].product);
  }

  lemma OwnScore(products: seq<Product>, rules: seq<Rule>, i: nat)
    requires i < |Ranked(products, rules)|
    ensures var e := Ranked(products, rules)[i];
      e.product in products && e.score == ScoreOf(e.product, rules) && e.matchedRules == NamesOf(e.product, rules)
  {
    RankedIsSortedPermutation(products, rules);
    var e := Ranked(products, rules)[i];
    assert e in multiset(Scored(products, rules));
    var k :| 0 <= k < |products| && Scored(products, rules)[k] == e;
  }
}
