/**
 The mood index against a plain scan of all rules: how often each rule is found,
 and exactly which rule sets make the two agree.
 */
module IndexScan {
  import opened Engine
  import opened Rules
  import Wrappers

  // ----- Multiplicity -----

  lemma {:induction false} MatchingOnesCount(rules: seq<Rule>, ctx: MatchContext, r: Rule)
    ensures multiset(MatchingOnes(rules, ctx))[r] == if Matching(r, ctx) then multiset(rules)[r] else 0
  {
    if rules != [] {
      var n := |rules| - 1;
      assert rules == rules[..n] + [rules[n]];
      MatchingOnesCount(rules[..n], ctx, r);
    }
  }

  lemma {:induction false} BucketCount(rules: seq<Rule>, m: string, r: Rule)
    ensures multiset(Bucket(rules, m))[r] == multiset(rules)[r] * Idx(m, r)
  {
    if rules != [] {
      var n := |rules| - 1;
      var last, front := rules[n], rules[..n];
      assert rules == front + [last];
      BucketCount(front, m, r);
      RepeatCount(last, Idx(m, last), r);
      var k := multiset(front)[r];
      assert multiset(rules)[r] == k + if last == r then 1 else 0;
      Distribute(k, Idx(m, r));
    }
  }

  lemma Distribute(k: nat, i: nat)
    ensures (k + 1) * i == k * i + i
  {
  }

  lemma {:induction false} RepeatCount<T>(x: T, n: nat, y: T)
    ensures multiset(Repeat(x, n))[y] == if x == y then n else 0
  {
    if n > 0 {
      assert Repeat(x, n) == Repeat(x, n - 1) + [x];
      RepeatCount(x, n - 1, y);
    }
  }

  /** Evaluate finds a matching rule once per entry under the context's mood plus once
      per entry under the wildcard, for each time it was loaded; others never. */
  lemma Multiplicity(rules: seq<Rule>, ctx: MatchContext, matched: seq<Rule>, r: Rule)
    requires Evaluation(rules, ctx, matched)
    ensures multiset(matched)[r] ==
            if Matching(r, ctx) then multiset(rules)[r] * (Idx(ctx.mood, r) + Idx(WILDCARD, r)) else 0
  {
    IndexedCount(rules, ctx, r);
  }

  lemma IndexedCount(rules: seq<Rule>, ctx: MatchContext, r: Rule)
    ensures multiset(MatchingOnes(Candidates(rules, ctx.mood), ctx))[r] ==
            if Matching(r, ctx) then multiset(rules)[r] * (Idx(ctx.mood, r) + Idx(WILDCARD, r)) else 0
  {
    var mine, wild := Bucket(rules, ctx.mood), Bucket(rules, WILDCARD);
    MatchingOnesCount(mine + wild, ctx, r);
    BucketCount(rules, ctx.mood, r);
    BucketCount(rules, WILDCARD, r);
    SumOfProducts(multiset(rules)[r], Idx(ctx.mood, r), Idx(WILDCARD, r));
    assert multiset(mine + wild)[r] == multiset(mine)[r] + multiset(wild)[r];
  }

  lemma SumOfProducts(k: nat, i: nat, j: nat)
    ensures k * (i + j) == k * i + k * j
  {
  }

  // ----- Agreement with the scan -----

  /** Evaluating through the index finds what scanning all rules finds, equally often. */
  ghost predicate AgreesWithScan(rules: seq<Rule>, ctx: MatchContext) {
    multiset(MatchingOnes(Candidates(rules, ctx.mood), ctx)) == multiset(MatchingOnes(rules, ctx))
  }

  lemma AgreesWhen(rules: seq<Rule>, ctx: MatchContext)
    ensures AgreesWithScan(rules, ctx) <==>
            forall r :: r in rules && Matching(r, ctx) ==> Idx(ctx.mood, r) + Idx(WILDCARD, r) == 1
  {
    if AgreesWithScan(rules, ctx) {
      forall r | r in rules && Matching(r, ctx) ensures Idx(ctx.mood, r) + Idx(WILDCARD, r) == 1 {
        SameCount(rules, ctx, r);
      }
    }
    if forall r :: r in rules && Matching(r, ctx) ==> Idx(ctx.mood, r) + Idx(WILDCARD, r) == 1 {
      var found := multiset(MatchingOnes(Candidates(rules, ctx.mood), ctx));
      var scanned := multiset(MatchingOnes(rules, ctx));
      forall r ensures found[r] == scanned[r] {
        SameCount(rules, ctx, r);
      }
      assert found == scanned;
    }
  }

  lemma SameCount(rules: seq<Rule>, ctx: MatchContext, r: Rule)
    ensures multiset(MatchingOnes(Candidates(rules, ctx.mood), ctx))[r] == multiset(MatchingOnes(rules, ctx))[r] <==>
            (r in rules && Matching(r, ctx) ==> Idx(ctx.mood, r) + Idx(WILDCARD, r) == 1)
  {
    IndexedCount(rules, ctx, r);
    MatchingOnesCount(rules, ctx, r);
    CompareCounts(multiset(rules)[r], Idx(ctx.mood, r) + Idx(WILDCARD, r), Matching(r, ctx));
  }

  lemma CompareCounts(k: nat, i: nat, matches: bool)
    ensures (if matches then k * i else 0) == (if matches then k else 0) <==> (k > 0 && matches ==> i == 1)
  {
    TimesOne(k, i);
  }

  lemma TimesOne(k: nat, i: nat)
    ensures k * i == k <==> k == 0 || i == 1
  {
    if i >= 2 && k > 0 {
      assert k * i == k * (i - 1) + k;
      assert k * (i - 1) >= 1;
    }
  }

  predicate HasOtherCondition(c: Conditions) {
    |c.timeOfDay| > 0 || |c.weather| > 0 || |c.occasion| > 0 || |c.preferences| > 0 || |c.tags| > 0
  }

  /** The shape of a rule that the index finds exactly as often as a scan would:
      inactive rules and rules without moods always; an OR rule with moods and another
      condition only when its mood list is just the wildcard; any other rule when its
      list has no repetition and no wildcard, or nothing but wildcards. */
  ghost predicate IndexExact(r: Rule) {
    var moods := r.conditions.mood;
    || !r.active
    || |moods| == 0
    || if r.conditions.logic == "OR" && HasOtherCondition(r.conditions) then moods == [WILDCARD]
       else (forall m :: m in moods ==> m == WILDCARD) || (WILDCARD !in moods && NoDuplicates(moods))
  }

  /** A context that satisfies every condition of the rule but possibly the mood. */
  ghost function Satisfying(c: Conditions, mood: string): MatchContext {
    MatchContext(
      mood,
      if |c.timeOfDay| > 0 then c.timeOfDay[0] else "",
      if |c.weather| > 0 then c.weather[0] else "",
      if |c.occasion| > 0 then c.occasion[0] else "",
      c.preferences,
      c.tags)
  }

  lemma SatisfyingMatches(r: Rule, mood: string)
    requires r.active && |r.conditions.mood| > 0
    requires mood in r.conditions.mood || (r.conditions.logic == "OR" && HasOtherCondition(r.conditions))
    ensures Matching(r, Satisfying(r.conditions, mood))
  {
    var c := r.conditions;
    var ctx := Satisfying(c, mood);
    forall d | d != Mood && Present(c, d) ensures Holds(c, ctx, d) {
      match d case Mood => case TimeOfDay => case Weather => case Occasion => case Preferences =>
      case HistoryTags => assert c.tags[0] in ctx.historyTags;
    }
    if mood in c.mood {
      assert Present(c, Mood) && Holds(c, ctx, Mood);
    } else {
      var d := if |c.timeOfDay| > 0 then TimeOfDay else if |c.weather| > 0 then Weather
        else if |c.occasion| > 0 then Occasion else if |c.preferences| > 0 then Preferences else HistoryTags;
      assert Present(c, d) && Holds(c, ctx, d);
    }
  }

  /** A text longer than any in the list, and not the wildcard. */
  ghost function NewText(listed: seq<string>): (t: string)
    ensures |t| >= 2
    ensures forall k :: k in listed ==> |k| < |t|
  {
    if listed == [] then "ab" else NewText(listed[1..]) + listed[0]
  }

  lemma CountInNoDuplicates(ms: seq<string>, m: string)
    requires NoDuplicates(ms)
    ensures multiset(ms)[m] == if m in ms then 1 else 0
  {
    if ms != [] {
      assert ms == [ms[0]] + ms[1..];
      CountInNoDuplicates(ms[1..], m);
    }
  }

  /** A list in which no mood occurs twice has no duplicates. */
  lemma {:induction false} OnceEach(ms: seq<string>)
    requires forall m :: m in ms ==> multiset(ms)[m] == 1
    ensures NoDuplicates(ms)
  {
    forall i, j | 0 <= i < j < |ms| ensures ms[i] != ms[j] {
      assert ms == ms[..j] + ms[j..];
      assert multiset(ms) == multiset(ms[..j]) + multiset(ms[j..]);
      assert ms[..j][i] == ms[i] && ms[j..][0] == ms[j];
      assert ms[i] in multiset(ms[..j]) && ms[j] in multiset(ms[j..]);
      assert ms[j] in ms;
    }
  }

  lemma ExactRuleFoundOnce(r: Rule, ctx: MatchContext)
    requires IndexExact(r) && Matching(r, ctx) && ctx.mood != WILDCARD
    ensures Idx(ctx.mood, r) + Idx(WILDCARD, r) == 1
  {
    var c := r.conditions;
    if |c.mood| > 0 {
      if c.logic == "OR" && HasOtherCondition(c) {
      } else {
        assert ctx.mood in c.mood by {
          var d :| Present(c, d) && (c.logic == "OR" ==> Holds(c, ctx, d));
          assert Present(c, Mood);
          assert c.logic == "OR" ==> d == Mood;
        }
        CountInNoDuplicates(c.mood, ctx.mood);
      }
    }
  }

  /** A rule of the wrong shape is missed or repeated for some context. */
  lemma InexactRuleMiscounted(r: Rule) returns (ctx: MatchContext)
    requires !IndexExact(r)
    ensures ctx.mood != WILDCARD && Matching(r, ctx)
    ensures Idx(ctx.mood, r) + Idx(WILDCARD, r) != 1
  {
    var c := r.conditions;
    var wild := multiset(c.mood)[WILDCARD];
    if c.logic == "OR" && HasOtherCondition(c) && wild != 1 {
      var m := NewText(c.mood);
      assert m !in c.mood;
      SatisfyingMatches(r, m);
      ctx := Satisfying(c, m);
    } else {
      var m :| m in c.mood && m != WILDCARD && (wild > 0 || multiset(c.mood)[m] != 1) by {
        SomeMoodMiscounted(r);
      }
      SatisfyingMatches(r, m);
      ctx := Satisfying(c, m);
    }
  }

  lemma SomeMoodMiscounted(r: Rule)
    requires !IndexExact(r)
    requires var c := r.conditions;
      !(c.logic == "OR" && HasOtherCondition(c) && multiset(c.mood)[WILDCARD] != 1)
    ensures exists m :: m in r.conditions.mood && m != WILDCARD &&
              (WILDCARD in r.conditions.mood || multiset(r.conditions.mood)[m] != 1)
  {
    var moods := r.conditions.mood;
    if WILDCARD in moods {
      if forall m :: m in moods ==> m == WILDCARD {
        AllSame(moods, WILDCARD);
        assert false;
      }
    } else if forall m :: m in moods ==> multiset(moods)[m] == 1 {
      OnceEach(moods);
      assert false;
    }
  }

  lemma AllSame(ms: seq<string>, x: string)
    requires forall m :: m in ms ==> m == x
    ensures multiset(ms)[x] == |ms|
    ensures |ms| == 1 ==> ms == [x]
  {
    if ms != [] {
      assert ms == [ms[0]] + ms[1..];
      assert forall m :: m in ms[1..] ==> m in ms;
      assert ms[0] in ms;
      AllSame(ms[1..], x);
    }
  }

  /** For every context whose mood is not the literal wildcard, the index finds what a
      scan finds if and only if every loaded rule has the exact shape. */
  lemma IndexRefinesScan(rules: seq<Rule>)
    ensures (forall ctx: MatchContext :: ctx.mood != WILDCARD ==> AgreesWithScan(rules, ctx)) <==>
            (forall r :: r in rules ==> IndexExact(r))
  {
    if forall r :: r in rules ==> IndexExact(r) {
      forall ctx: MatchContext | ctx.mood != WILDCARD ensures AgreesWithScan(rules, ctx) {
        forall r | r in rules && Matching(r, ctx) ensures Idx(ctx.mood, r) + Idx(WILDCARD, r) == 1 {
          ExactRuleFoundOnce(r, ctx);
        }
        AgreesWhen(rules, ctx);
      }
    } else {
      var r :| r in rules && !IndexExact(r);
      var ctx := InexactRuleMiscounted(r);
      AgreesWhen(rules, ctx);
      assert !AgreesWithScan(rules, ctx);
    }
  }

  /** With the literal wildcard as the mood of the request, the wildcard bucket is
      scanned twice, so index and scan agree only when nothing matches at all. */
  lemma WildcardMoodDoubles(rules: seq<Rule>, ctx: MatchContext)
    requires ctx.mood == WILDCARD
    ensures AgreesWithScan(rules, ctx) <==> forall r :: r in rules ==> !Matching(r, ctx)
  {
    AgreesWhen(rules, ctx);
    forall r | r in rules && Matching(r, ctx) ensures Idx(ctx.mood, r) + Idx(WILDCARD, r) != 1 {
    }
  }

  // ----- Three rules the index miscounts -----

  ghost function PlainRule(conditions: Conditions): Rule {
    Rule("1", "rule", 10, conditions, Actions(["tag"], [], Wrappers.None, 0.0), 1.0, 1, true)
  }

  /** An OR rule with a mood list and another condition is missed under other moods. */
  lemma OrRuleMissed()
    ensures var r := PlainRule(Conditions(["happy"], ["morning"], [], [], map[], [], "OR"));
      var ctx := MatchContext("sad", "morning", "", "", map[], []);
      MatchingOnes([r], ctx) == [r] && MatchingOnes(Candidates([r], "sad"), ctx) == []
  {
    var r := PlainRule(Conditions(["happy"], ["morning"], [], [], map[], [], "OR"));
    var ctx := MatchContext("sad", "morning", "", "", map[], []);
    assert Present(r.conditions, TimeOfDay) && Holds(r.conditions, ctx, TimeOfDay);
    assert Idx("sad", r) == 0 && Idx(WILDCARD, r) == 0;
    assert [r][..0] == [];
    assert Bucket([r][..0], "sad") == [] && Bucket([r][..0], WILDCARD) == [];
    assert Candidates([r], "sad") == [];
    assert MatchingOnes([r], ctx) == MatchingOnes([r][..0], ctx) + [r];
  }

  /** A mood listed twice makes the rule match twice. */
  lemma RepeatedMoodDoubles()
    ensures var r := PlainRule(Conditions(["happy", "happy"], [], [], [], map[], [], "AND"));
      var ctx := MatchContext("happy", "", "", "", map[], []);
      multiset(MatchingOnes([r], ctx)) == multiset{r} && multiset(MatchingOnes(Candidates([r], "happy"), ctx))[r] == 2
  {
    var r := PlainRule(Conditions(["happy", "happy"], [], [], [], map[], [], "AND"));
    var ctx := MatchContext("happy", "", "", "", map[], []);
    assert Present(r.conditions, Mood) && Holds(r.conditions, ctx, Mood);
    forall d | Present(r.conditions, d) ensures Holds(r.conditions, ctx, d) {
      match d case Mood => case TimeOfDay => case Weather => case Occasion => case Preferences => case HistoryTags =>
    }
    IndexedCount([r], ctx, r);
    assert Idx("happy", r) == 2 && Idx(WILDCARD, r) == 0;
    assert [r][..0] == [];
    assert MatchingOnes([r], ctx) == MatchingOnes([r][..0], ctx) + [r];
  }

  /** A literal wildcard beside the mood puts the rule in both scanned buckets. */
  lemma WildcardBesideMoodDoubles()
    ensures var r := PlainRule(Conditions(["happy", WILDCARD], [], [], [], map[], [], "AND"));
      var ctx := MatchContext("happy", "", "", "", map[], []);
      multiset(MatchingOnes([r], ctx)) == multiset{r} && multiset(MatchingOnes(Candidates([r], "happy"), ctx))[r] == 2
  {
    var r := PlainRule(Conditions(["happy", WILDCARD], [], [], [], map[], [], "AND"));
    var ctx := MatchContext("happy", "", "", "", map[], []);
    assert Present(r.conditions, Mood) && Holds(r.conditions, ctx, Mood);
    forall d | Present(r.conditions, d) ensures Holds(r.conditions, ctx, d) {
      match d case Mood => case TimeOfDay => case Weather => case Occasion => case Preferences => case HistoryTags =>
    }
    IndexedCount([r], ctx, r);
    assert Idx("happy", r) == 1 && Idx(WILDCARD, r) == 1;
    assert [r][..0] == [];
    assert MatchingOnes([r], ctx) == MatchingOnes([r][..0], ctx) + [r];
  }
}
