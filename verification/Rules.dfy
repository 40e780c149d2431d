/**
 Rules, the context of a request, and the counting matcher that decides
 whether a rule applies to a context.
 */
module Rules {
  import opened Wrappers

  datatype PriceRange = PriceRange(min: real, max: real)

  datatype Conditions = Conditions(
    mood: seq<string>,
    timeOfDay: seq<string>,
    weather: seq<string>,
    occasion: seq<string>,
    preferences: map<string, string>,
    tags: seq<string>,
    logic: string)

  datatype Actions = Actions(
    tags: seq<string>,
    categories: seq<string>,
    priceRange: Option<PriceRange>,
    boost: real)

  datatype Rule = Rule(
    id: string,
    name: string,
    priority: int,
    conditions: Conditions,
    actions: Actions,
    weight: real,
    version: int,
    active: bool)

  datatype MatchContext = MatchContext(
    mood: string,
    timeOfDay: string,
    weather: string,
    occasion: string,
    preferences: map<string, string>,
    historyTags: seq<string>)

  // ----- What matching means -----

  /** The six things a rule can put a condition on. */
  datatype Dimension = Mood | TimeOfDay | Weather | Occasion | Preferences | HistoryTags

  /** The rule has a condition on dimension d. */
  ghost predicate Present(c: Conditions, d: Dimension) {
    match d
    case Mood => |c.mood| > 0
    case TimeOfDay => |c.timeOfDay| > 0
    case Weather => |c.weather| > 0
    case Occasion => |c.occasion| > 0
    case Preferences => |c.preferences| > 0
    case HistoryTags => |c.tags| > 0
  }

  /** The context satisfies the rule's condition on dimension d. */
  ghost predicate Holds(c: Conditions, ctx: MatchContext, d: Dimension) {
    match d
    case Mood => ctx.mood in c.mood
    case TimeOfDay => ctx.timeOfDay in c.timeOfDay
    case Weather => ctx.weather in c.weather
    case Occasion => ctx.occasion in c.occasion
    case Preferences => Submap(c.preferences, ctx.preferences)
    case HistoryTags => Overlap(c.tags, ctx.historyTags)
  }

  ghost predicate Submap(small: map<string, string>, large: map<string, string>) {
    forall k :: k in small ==> k in large && large[k] == small[k]
  }

  ghost predicate Overlap(a: seq<string>, b: seq<string>) {
    exists t :: t in a && t in b
  }

  /** An OR rule needs one present condition to hold; every other rule needs at
      least one present condition and all of the present ones to hold. */
  ghost predicate Matching(r: Rule, ctx: MatchContext) {
    var c := r.conditions;
    && r.active
    && (exists d :: Present(c, d) && (c.logic == "OR" ==> Holds(c, ctx, d)))
    && (c.logic != "OR" ==> forall d :: Present(c, d) ==> Holds(c, ctx, d))
  }

  // ----- How the service decides it -----

  function MatchesSlice(value: string, candidates: seq<string>): (r: bool)
    ensures r <==> value in candidates
  {
    candidates != [] && (value == candidates[0] || MatchesSlice(value, candidates[1..]))
  }

  /** Keys are visited in any order, as in a range over a map. */
  method MatchesPreferences(userPrefs: map<string, string>, rulePrefs: map<string, string>) returns (r: bool)
    ensures r <==> Submap(rulePrefs, userPrefs)
  {
    var todo := rulePrefs.Keys;
    while todo != {}
      invariant todo <= rulePrefs.Keys
      invariant forall k :: k in rulePrefs && k !in todo ==> k in userPrefs && userPrefs[k] == rulePrefs[k]
      decreases |todo|
    {
      var key :| key in todo;
      if key !in userPrefs || userPrefs[key] != rulePrefs[key] {
        return false;
      }
      todo := todo - {key};
    }
    return true;
  }

  method MatchesTags(userTags: seq<string>, ruleTags: seq<string>) returns (r: bool)
    ensures r <==> Overlap(ruleTags, userTags)
  {
    var tagMap: set<string> := {};
    for i := 0 to |userTags|
      invariant forall t :: t in tagMap <==> t in userTags[..i]
    {
      tagMap := tagMap + {userTags[i]};
    }
    assert userTags[..|userTags|] == userTags;
    for i := 0 to |ruleTags|
      invariant forall j :: 0 <= j < i ==> ruleTags[j] !in userTags
    {
      if ruleTags[i] in tagMap {
        return true;
      }
    }
    return false;
  }

  /** Applies the rule's logic to the two counts. */
  method Matches(r: Rule, ctx: MatchContext) returns (ok: bool)
    ensures ok <==> Matching(r, ctx)
  {
    if !r.active {
      return false;
    }
    var matchCount, totalConditions := CountConditions(r.conditions, ctx);
    TallyDecides(r, ctx);
    if r.conditions.logic == "OR" {
      return matchCount > 0;
    }
    return totalConditions > 0 && matchCount == totalConditions;
  }

  /** Counts the conditions that are present and those of them that hold. */
  method CountConditions(c: Conditions, ctx: MatchContext) returns (matchCount: nat, totalConditions: nat)
    ensures totalConditions == PresentCount(c)
    ensures matchCount == MetCount(c, ctx)
  {
    matchCount, totalConditions := CountKeyedConditions(c, ctx);
    ghost var t0, m0 := totalConditions, matchCount;

    if |c.occasion| > 0 {
      totalConditions := totalConditions + 1;
      if MatchesSlice(ctx.occasion, c.occasion) {
        matchCount := matchCount + 1;
      }
    }
    ghost var t1, m1 := totalConditions, matchCount;
    assert t1 == t0 + Bit(Present(c, Occasion)) && m1 == m0 + Bit(Met(c, ctx, Occasion));

    if |c.preferences| > 0 {
      totalConditions := totalConditions + 1;
      var hit := MatchesPreferences(ctx.preferences, c.preferences);
      if hit {
        matchCount := matchCount + 1;
      }
    }
    ghost var t2, m2 := totalConditions, matchCount;
    assert t2 == t1 + Bit(Present(c, Preferences)) && m2 == m1 + Bit(Met(c, ctx, Preferences));

    if |c.tags| > 0 {
      totalConditions := totalConditions + 1;
      var hit := MatchesTags(ctx.historyTags, c.tags);
      if hit {
        matchCount := matchCount + 1;
      }
    }
    ghost var t3, m3 := totalConditions, matchCount;
    assert t3 == t2 + Bit(Present(c, HistoryTags)) && m3 == m2 + Bit(Met(c, ctx, HistoryTags));
  }

  /** The first three conditions: mood, time of day and weather. */
  method CountKeyedConditions(c: Conditions, ctx: MatchContext) returns (matchCount: nat, totalConditions: nat)
    ensures totalConditions == PresentKeyed(c)
    ensures matchCount == MetKeyed(c, ctx)
  {
    matchCount, totalConditions := 0, 0;
    ghost var t0, m0 := 0, 0;

    if |c.mood| > 0 {
      totalConditions := totalConditions + 1;
      if MatchesSlice(ctx.mood, c.mood) {
        matchCount := matchCount + 1;
      }
    }
    ghost var t1, m1 := totalConditions, matchCount;
    assert t1 == t0 + Bit(Present(c, Mood)) && m1 == m0 + Bit(Met(c, ctx, Mood));

    if |c.timeOfDay| > 0 {
      totalConditions := totalConditions + 1;
      if MatchesSlice(ctx.timeOfDay, c.timeOfDay) {
        matchCount := matchCount + 1;
      }
    }
    ghost var t2, m2 := totalConditions, matchCount;
    assert t2 == t1 + Bit(Present(c, TimeOfDay)) && m2 == m1 + Bit(Met(c, ctx, TimeOfDay));

    if |c.weather| > 0 {
      totalConditions := totalConditions + 1;
      if MatchesSlice(ctx.weather, c.weather) {
        matchCount := matchCount + 1;
      }
    }
    ghost var t3, m3 := totalConditions, matchCount;
    assert t3 == t2 + Bit(Present(c, Weather)) && m3 == m2 + Bit(Met(c, ctx, Weather));
  }

  ghost function Bit(b: bool): nat { if b then 1 else 0 }

  ghost predicate Met(c: Conditions, ctx: MatchContext, d: Dimension) {
    Present(c, d) && Holds(c, ctx, d)
  }

  ghost function PresentKeyed(c: Conditions): nat {
    Bit(Present(c, Mood)) + Bit(Present(c, TimeOfDay)) + Bit(Present(c, Weather))
  }

  ghost function PresentCount(c: Conditions): nat {
    PresentKeyed(c) + Bit(Present(c, Occasion)) + Bit(Present(c, Preferences)) + Bit(Present(c, HistoryTags))
  }

  ghost function MetKeyed(c: Conditions, ctx: MatchContext): nat {
    Bit(Met(c, ctx, Mood)) + Bit(Met(c, ctx, TimeOfDay)) + Bit(Met(c, ctx, Weather))
  }

  ghost function MetCount(c: Conditions, ctx: MatchContext): nat {
    MetKeyed(c, ctx) + Bit(Met(c, ctx, Occasion)) + Bit(Met(c, ctx, Preferences)) + Bit(Met(c, ctx, HistoryTags))
  }

  /** The two counts are the numbers of dimensions present and met. */
  lemma CountsAreSizes(c: Conditions, ctx: MatchContext)
    ensures PresentCount(c) == |set d: Dimension | Present(c, d)|
    ensures MetCount(c, ctx) == |set d: Dimension | Present(c, d) && Holds(c, ctx, d)|
  {
    SizeByDimension(set d: Dimension | Present(c, d));
    SizeByDimension(set d: Dimension | Present(c, d) && Holds(c, ctx, d));
  }

  lemma SizeByDimension(ds: set<Dimension>)
    ensures |ds| == Bit(Mood in ds) + Bit(TimeOfDay in ds) + Bit(Weather in ds) +
                    Bit(Occasion in ds) + Bit(Preferences in ds) + Bit(HistoryTags in ds)
  {
    var rest := WithoutThree(ds, Mood, TimeOfDay, Weather);
    var none := WithoutThree(rest, Occasion, Preferences, HistoryTags);
    forall d: Dimension ensures d !in none {
      match d case Mood => case TimeOfDay => case Weather => case Occasion => case Preferences => case HistoryTags =>
    }
    assert none == {};
  }

  lemma WithoutThree(ds: set<Dimension>, a: Dimension, b: Dimension, c: Dimension) returns (rest: set<Dimension>)
    requires a != b && b != c && a != c
    ensures |ds| == Bit(a in ds) + Bit(b in ds) + Bit(c in ds) + |rest|
    ensures a !in rest && b !in rest && c !in rest
    ensures forall d :: d != a && d != b && d != c ==> (d in rest <==> d in ds)
  {
    rest := WithoutOne(ds, a);
    rest := WithoutOne(rest, b);
    rest := WithoutOne(rest, c);
  }

  lemma WithoutOne(ds: set<Dimension>, d: Dimension) returns (rest: set<Dimension>)
    ensures |ds| == Bit(d in ds) + |rest|
    ensures d !in rest && forall e :: e != d ==> (e in rest <==> e in ds)
  {
    rest := ds - {d};
    if d !in ds {
      assert rest == ds;
    }
  }

  lemma CountPositive(c: Conditions, ctx: MatchContext, d: Dimension)
    ensures Present(c, d) ==> PresentCount(c) > 0
    ensures Met(c, ctx, d) ==> MetCount(c, ctx) > 0
    ensures MetCount(c, ctx) == PresentCount(c) && Present(c, d) ==> Holds(c, ctx, d)
  {
    match d case Mood => case TimeOfDay => case Weather => case Occasion => case Preferences => case HistoryTags =>
  }

  /** The two counts decide the match. */
  lemma TallyDecides(r: Rule, ctx: MatchContext)
    requires r.active
    ensures Matching(r, ctx) <==>
            if r.conditions.logic == "OR" then MetCount(r.conditions, ctx) > 0
            else PresentCount(r.conditions) > 0 && MetCount(r.conditions, ctx) == PresentCount(r.conditions)
  {
    var c := r.conditions;
    forall d: Dimension
      ensures Present(c, d) ==> PresentCount(c) > 0
      ensures Met(c, ctx, d) ==> MetCount(c, ctx) > 0
      ensures MetCount(c, ctx) == PresentCount(c) && Present(c, d) ==> Holds(c, ctx, d)
    {
      CountPositive(c, ctx, d);
    }
    if Matching(r, ctx) {
      var d :| Present(c, d) && (c.logic == "OR" ==> Holds(c, ctx, d));
      assert c.logic == "OR" ==> Met(c, ctx, d);
    }
  }

  // ----- Properties of matching -----

  /** Matching written out over the fields of the rule and the context: an OR rule needs
      one list or map that is met; every other rule needs one that is not empty, and all
      that are not empty to be met. */
  lemma MatchingWrittenOut(r: Rule, ctx: MatchContext)
    ensures var c := r.conditions;
      Matching(r, ctx) <==>
        && r.active
        && if c.logic == "OR" then
             || ctx.mood in c.mood || ctx.timeOfDay in c.timeOfDay
             || ctx.weather in c.weather || ctx.occasion in c.occasion
             || (|c.preferences| > 0 && forall k :: k in c.preferences ==> (k, c.preferences[k]) in ctx.preferences.Items)
             || (exists t :: t in c.tags && t in ctx.historyTags)
           else
             && (|c.mood| + |c.timeOfDay| + |c.weather| + |c.occasion| + |c.preferences| + |c.tags| > 0)
             && (c.mood == [] || ctx.mood in c.mood) && (c.timeOfDay == [] || ctx.timeOfDay in c.timeOfDay)
             && (c.weather == [] || ctx.weather in c.weather) && (c.occasion == [] || ctx.occasion in c.occasion)
             && (forall k :: k in c.preferences ==> (k, c.preferences[k]) in ctx.preferences.Items)
             && (c.tags == [] || exists t :: t in c.tags && t in ctx.historyTags)
  {
    var c := r.conditions;
    assert Submap(c.preferences, ctx.preferences) <==>
           forall k :: k in c.preferences ==> (k, c.preferences[k]) in ctx.preferences.Items;
    assert |c.preferences| == 0 ==> c.preferences == map[];
    if c.logic == "OR" {
      OrWrittenOut(c, ctx);
    } else {
      AndWrittenOut(c, ctx);
    }
  }

  lemma OrWrittenOut(c: Conditions, ctx: MatchContext)
    ensures (exists d :: Present(c, d) && Holds(c, ctx, d)) <==>
            Met(c, ctx, Mood) || Met(c, ctx, TimeOfDay) || Met(c, ctx, Weather) ||
            Met(c, ctx, Occasion) || Met(c, ctx, Preferences) || Met(c, ctx, HistoryTags)
  {
    if d :| Present(c, d) && Holds(c, ctx, d) {
      assert Met(c, ctx, d);
      match d case Mood => case TimeOfDay => case Weather => case Occasion => case Preferences => case HistoryTags =>
    }
  }

  lemma AndWrittenOut(c: Conditions, ctx: MatchContext)
    ensures (forall d :: Present(c, d) ==> Holds(c, ctx, d)) <==>
            (Present(c, Mood) ==> Holds(c, ctx, Mood)) && (Present(c, TimeOfDay) ==> Holds(c, ctx, TimeOfDay)) &&
            (Present(c, Weather) ==> Holds(c, ctx, Weather)) && (Present(c, Occasion) ==> Holds(c, ctx, Occasion)) &&
            (Present(c, Preferences) ==> Holds(c, ctx, Preferences)) &&
            (Present(c, HistoryTags) ==> Holds(c, ctx, HistoryTags))
    ensures (exists d :: Present(c, d)) <==>
            Present(c, Mood) || Present(c, TimeOfDay) || Present(c, Weather) ||
            Present(c, Occasion) || Present(c, Preferences) || Present(c, HistoryTags)
  {
    if (Present(c, Mood) ==> Holds(c, ctx, Mood)) && (Present(c, TimeOfDay) ==> Holds(c, ctx, TimeOfDay)) &&
       (Present(c, Weather) ==> Holds(c, ctx, Weather)) && (Present(c, Occasion) ==> Holds(c, ctx, Occasion)) &&
       (Present(c, Preferences) ==> Holds(c, ctx, Preferences)) &&
       (Present(c, HistoryTags) ==> Holds(c, ctx, HistoryTags)) {
      forall d | Present(c, d) ensures Holds(c, ctx, d) {
        match d case Mood => case TimeOfDay => case Weather => case Occasion => case Preferences => case HistoryTags =>
      }
    }
    if d :| Present(c, d) {
      match d case Mood => case TimeOfDay => case Weather => case Occasion => case Preferences => case HistoryTags =>
    }
  }

  /** Whatever matches under AND (or under any unknown logic string) matches under OR. */
  lemma AndMatchImpliesOrMatch(r: Rule, ctx: MatchContext, logic: string)
    requires Matching(r.(conditions := r.conditions.(logic := logic)), ctx)
    ensures Matching(r.(conditions := r.conditions.(logic := "OR")), ctx)
  {
    var c := r.conditions.(logic := logic);
    var o := r.conditions.(logic := "OR");
    var d :| Present(c, d) && (logic == "OR" ==> Holds(c, ctx, d));
    assert Holds(c, ctx, d);
    assert Present(o, d) && Holds(o, ctx, d);
  }

  /** Extra purchase-history tags and extra preference keys never lose a match. */
  lemma MoreContextKeepsMatches(r: Rule, ctx: MatchContext, more: MatchContext)
    requires Matching(r, ctx)
    requires more.mood == ctx.mood && more.timeOfDay == ctx.timeOfDay
    requires more.weather == ctx.weather && more.occasion == ctx.occasion
    requires Submap(ctx.preferences, more.preferences)
    requires forall t :: t in ctx.historyTags ==> t in more.historyTags
    ensures Matching(r, more)
  {
    var c := r.conditions;
    forall d | Holds(c, ctx, d) ensures Holds(c, more, d) {
      match d case Mood => case TimeOfDay => case Weather => case Occasion => case Preferences => case HistoryTags =>
    }
    var d :| Present(c, d) && (c.logic == "OR" ==> Holds(c, ctx, d));
    assert c.logic == "OR" ==> Holds(c, more, d);
  }

  /** The rule ignores everything about a request that is not part of the cache key. */
  ghost predicate IgnoresUnkeyed(r: Rule) {
    !Present(r.conditions, Occasion) && !Present(r.conditions, Preferences) && !Present(r.conditions, HistoryTags)
  }

  lemma UnkeyedIrrelevant(r: Rule, ctx: MatchContext, other: MatchContext)
    requires IgnoresUnkeyed(r)
    requires other.mood == ctx.mood && other.timeOfDay == ctx.timeOfDay && other.weather == ctx.weather
    ensures Matching(r, ctx) <==> Matching(r, other)
  {
    var c := r.conditions;
    forall d | Present(c, d) ensures Holds(c, ctx, d) <==> Holds(c, other, d) {
      match d case Mood => case TimeOfDay => case Weather => case Occasion => case Preferences => case HistoryTags =>
    }
    if Matching(r, ctx) {
      var d :| Present(c, d) && (c.logic == "OR" ==> Holds(c, ctx, d));
      assert c.logic == "OR" ==> Holds(c, other, d);
    }
    if Matching(r, other) {
      var d :| Present(c, d) && (c.logic == "OR" ==> Holds(c, other, d));
      assert c.logic == "OR" ==> Holds(c, ctx, d);
    }
  }

  // ----- Scores -----

  function CalculateScore(r: Rule): real {
    var base := r.priority as real * r.weight;
    if r.actions.boost > 0.0 then base * (1.0 + r.actions.boost) else base
  }

  /** The score is proportional to the weight. */
  lemma ScoreScalesWithWeight(r: Rule, k: real)
    ensures CalculateScore(r.(weight := k * r.weight)) == k * CalculateScore(r)
  {
    var p, boost := r.priority as real, r.actions.boost;
    assert p * (k * r.weight) == k * (p * r.weight);
    if boost > 0.0 {
      assert (k * (p * r.weight)) * (1.0 + boost) == k * ((p * r.weight) * (1.0 + boost));
    }
  }

  /** The scores of two priorities add up. */
  lemma PrioritiesAdd(r: Rule, p: int, q: int)
    ensures CalculateScore(r.(priority := p + q)) ==
            CalculateScore(r.(priority := p)) + CalculateScore(r.(priority := q))
  {
    var boost := r.actions.boost;
    assert (p + q) as real == p as real + q as real;
    var a, b := p as real * r.weight, q as real * r.weight;
    assert (p + q) as real * r.weight == a + b;
    if boost > 0.0 {
      assert (a + b) * (1.0 + boost) == a * (1.0 + boost) + b * (1.0 + boost);
    }
  }

  /** Priority 1 and weight 1 give exactly one plus the boost, and 1 without a boost.
      With the two lemmas above this fixes every score. */
  lemma UnitScore(r: Rule)
    requires r.priority == 1 && r.weight == 1.0
    ensures CalculateScore(r) == if r.actions.boost > 0.0 then 1.0 + r.actions.boost else 1.0
  {
  }

  /** A positive boost b gives one plus b times the plain score. */
  lemma BoostFactor(r: Rule)
    ensures var plain := r.(actions := r.actions.(boost := 0.0));
      CalculateScore(r) == if r.actions.boost > 0.0 then (1.0 + r.actions.boost) * CalculateScore(plain)
                           else CalculateScore(plain)
  {
    var base, boost := r.priority as real * r.weight, r.actions.boost;
    assert base * (1.0 + boost) == (1.0 + boost) * base;
  }

  lemma ScoreNonNegative(r: Rule)
    requires r.priority >= 0 && r.weight >= 0.0
    ensures CalculateScore(r) >= 0.0
  {
    ProductNonNegative(r.priority as real, r.weight);
    if r.actions.boost > 0.0 {
      ProductNonNegative(r.priority as real * r.weight, 1.0 + r.actions.boost);
    }
  }

  /** Whatever the signs of priority and weight: a positive boost takes the score further
      from zero, so it raises exactly the positive scores and lowers exactly the negative
      ones; any other boost has no effect. */
  lemma BoostStretches(r: Rule)
    ensures var plain := r.(actions := r.actions.(boost := 0.0));
      && (CalculateScore(r) > CalculateScore(plain) <==> r.actions.boost > 0.0 && CalculateScore(plain) > 0.0)
      && (CalculateScore(r) < CalculateScore(plain) <==> r.actions.boost > 0.0 && CalculateScore(plain) < 0.0)
  {
  }

  lemma ProductNonNegative(x: real, y: real)
    requires x >= 0.0 && y >= 0.0
    ensures x * y >= 0.0
  {
  }
}
