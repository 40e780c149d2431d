/**
 What the cache key leaves out. Occasion, preferences and purchase history are no part of
 the key; this module says exactly which rule sets evaluate alike for all requests that
 share a key.
 */
module KeyCoverage {
  import opened Engine
  import opened IndexScan
  import opened Rules

  /** The contexts agree on everything the cache key is made of. */
  ghost predicate SameKeyed(ctx: MatchContext, other: MatchContext) {
    ctx.mood == other.mood && ctx.timeOfDay == other.timeOfDay && ctx.weather == other.weather
  }

  ghost predicate SameEvaluations(rules: seq<Rule>, ctx: MatchContext, other: MatchContext) {
    multiset(MatchingOnes(Candidates(rules, ctx.mood), ctx)) ==
    multiset(MatchingOnes(Candidates(rules, other.mood), other))
  }

  /** Whether the rule is matched follows from the key: it is inactive, or looks at nothing
      the key omits, or is an OR rule that is only ever found under a mood it lists. */
  ghost predicate KeyDetermined(r: Rule) {
    || !r.active
    || IgnoresUnkeyed(r)
    || (r.conditions.logic == "OR" && r.conditions.mood != [] && WILDCARD !in r.conditions.mood)
  }

  lemma DeterminedRuleAgrees(r: Rule, ctx: MatchContext, other: MatchContext)
    requires KeyDetermined(r) && SameKeyed(ctx, other)
    requires Idx(ctx.mood, r) + Idx(WILDCARD, r) > 0
    ensures Matching(r, ctx) <==> Matching(r, other)
  {
    if IgnoresUnkeyed(r) {
      UnkeyedIrrelevant(r, ctx, other);
    } else if r.active {
      assert Present(r.conditions, Mood) && Holds(r.conditions, ctx, Mood) && Holds(r.conditions, other, Mood);
    }
  }

  lemma AgreeingRulesSameEvaluations(rules: seq<Rule>, ctx: MatchContext, other: MatchContext)
    requires ctx.mood == other.mood
    requires forall r :: r in rules && Idx(ctx.mood, r) + Idx(WILDCARD, r) > 0 ==>
               (Matching(r, ctx) <==> Matching(r, other))
    ensures SameEvaluations(rules, ctx, other)
  {
    var mine := multiset(MatchingOnes(Candidates(rules, ctx.mood), ctx));
    var others := multiset(MatchingOnes(Candidates(rules, other.mood), other));
    forall r ensures mine[r] == others[r] {
      IndexedCount(rules, ctx, r);
      IndexedCount(rules, other, r);
      NoneOrNowhere(multiset(rules)[r], Idx(ctx.mood, r) + Idx(WILDCARD, r));
    }
    assert mine == others;
  }

  lemma NoneOrNowhere(k: nat, i: nat)
    ensures k == 0 || i == 0 ==> k * i == 0
    ensures k > 0 && i > 0 ==> k * i > 0
  {
    if k > 0 && i > 0 {
      assert k * i >= k * 1;
    }
  }

  /** The same context with nothing of what the key omits that could satisfy the rule. */
  ghost function Spoiled(c: Conditions, ctx: MatchContext): MatchContext {
    ctx.(occasion := NewText(c.occasion), preferences := map[], historyTags := [])
  }

  lemma SpoiledFails(c: Conditions, ctx: MatchContext, d: Dimension)
    requires Present(c, d) && (d == Occasion || d == Preferences || d == HistoryTags)
    ensures !Holds(c, Spoiled(c, ctx), d)
  {
    match d
    case Occasion => assert NewText(c.occasion) !in c.occasion;
    case Preferences =>
      var k :| k in c.preferences;
    case HistoryTags =>
    case _ =>
  }

  /** For any other rule there are two requests with the same key, of which the rule, found
      through the index for both, matches only the first. */
  lemma UndeterminedRuleDiffers(r: Rule) returns (ctx: MatchContext, other: MatchContext)
    requires !KeyDetermined(r)
    ensures SameKeyed(ctx, other) && Idx(ctx.mood, r) + Idx(WILDCARD, r) > 0
    ensures Matching(r, ctx) && !Matching(r, other)
  {
    var c := r.conditions;
    var d := if Present(c, Occasion) then Occasion else if Present(c, Preferences) then Preferences else HistoryTags;
    if c.logic == "OR" {
      ctx := Satisfying(c, NewText(c.mood)).(timeOfDay := NewText(c.timeOfDay), weather := NewText(c.weather));
      other := Spoiled(c, ctx);
      OnlyUnkeyedHold(r, ctx, d);
    } else {
      ctx := Satisfying(c, if c.mood == [] then "any" else c.mood[0]);
      other := Spoiled(c, ctx);
      AllHold(r, ctx, d);
    }
  }

  lemma OnlyUnkeyedHold(r: Rule, ctx: MatchContext, d: Dimension)
    requires var c := r.conditions;
      && r.active && c.logic == "OR" && (c.mood == [] || WILDCARD in c.mood)
      && Present(c, d) && (d == Occasion || d == Preferences || d == HistoryTags)
      && ctx == Satisfying(c, NewText(c.mood)).(timeOfDay := NewText(c.timeOfDay), weather := NewText(c.weather))
    ensures Matching(r, ctx) && !Matching(r, Spoiled(r.conditions, ctx))
    ensures Idx(WILDCARD, r) > 0
  {
    var c := r.conditions;
    assert Holds(c, ctx, d) by {
      if d == HistoryTags {
        assert c.tags[0] in ctx.historyTags;
      }
    }
    forall e | Present(c, e) ensures !Holds(c, Spoiled(c, ctx), e) {
      if e == Occasion || e == Preferences || e == HistoryTags {
        SpoiledFails(c, ctx, e);
      } else {
        assert NewText(c.mood) !in c.mood && NewText(c.timeOfDay) !in c.timeOfDay && NewText(c.weather) !in c.weather;
      }
    }
  }

  lemma AllHold(r: Rule, ctx: MatchContext, d: Dimension)
    requires var c := r.conditions;
      && r.active && c.logic != "OR"
      && Present(c, d) && (d == Occasion || d == Preferences || d == HistoryTags)
      && ctx == Satisfying(c, if c.mood == [] then "any" else c.mood[0])
    ensures Matching(r, ctx) && !Matching(r, Spoiled(r.conditions, ctx))
    ensures Idx(ctx.mood, r) + Idx(WILDCARD, r) > 0
  {
    var c := r.conditions;
    forall e | Present(c, e) ensures Holds(c, ctx, e) {
      if e == HistoryTags {
        assert c.tags[0] in ctx.historyTags;
      }
    }
    SpoiledFails(c, ctx, d);
    assert c.mood != [] ==> c.mood[0] in multiset(c.mood);
  }

  /** All requests that share a key are evaluated alike if and only if every loaded rule is
      determined by the key. */
  lemma KeyDeterminesEvaluation(rules: seq<Rule>)
    ensures (forall ctx: MatchContext, other: MatchContext ::
               SameKeyed(ctx, other) ==> SameEvaluations(rules, ctx, other)) <==>
            (forall r :: r in rules ==> KeyDetermined(r))
  {
    if forall r :: r in rules ==> KeyDetermined(r) {
      forall ctx: MatchContext, other: MatchContext | SameKeyed(ctx, other) ensures SameEvaluations(rules, ctx, other) {
        DeterminedRulesAgree(rules, ctx, other);
      }
    } else {
      var r :| r in rules && !KeyDetermined(r);
      var ctx, other := UndeterminedRuleDiffers(r);
      EvaluationsDiffer(rules, r, ctx, other);
    }
  }

  lemma DeterminedRulesAgree(rules: seq<Rule>, ctx: MatchContext, other: MatchContext)
    requires SameKeyed(ctx, other) && forall r :: r in rules ==> KeyDetermined(r)
    ensures SameEvaluations(rules, ctx, other)
  {
    forall r | r in rules && Idx(ctx.mood, r) + Idx(WILDCARD, r) > 0 ensures Matching(r, ctx) <==> Matching(r, other) {
      DeterminedRuleAgrees(r, ctx, other);
    }
    AgreeingRulesSameEvaluations(rules, ctx, other);
  }

  lemma EvaluationsDiffer(rules: seq<Rule>, r: Rule, ctx: MatchContext, other: MatchContext)
    requires r in rules && ctx.mood == other.mood && Idx(ctx.mood, r) + Idx(WILDCARD, r) > 0
    requires Matching(r, ctx) && !Matching(r, other)
    ensures !SameEvaluations(rules, ctx, other)
    ensures r in MatchingOnes(Candidates(rules, ctx.mood), ctx)
  {
    IndexedCount(rules, ctx, r);
    IndexedCount(rules, other, r);
    NoneOrNowhere(multiset(rules)[r], Idx(ctx.mood, r) + Idx(WILDCARD, r));
    assert r in multiset(rules);
    assert r in multiset(MatchingOnes(Candidates(rules, ctx.mood), ctx));
  }
}
