/**
 Runs that show what the restrictions in Protocol are for: two requests that share a key
 although a rule tells them apart, two users whose keys print alike, a version that comes
 back, a rule change between the two reads of a reload, and two reloads that overlap.
 Each run ends with a request served from the cache, and keeps to every part of the
 discipline but the one it is about.
 */
module CounterRuns {
  import opened CacheKeys
  import opened Engine
  import opened IndexScan
  import opened KeyCoverage
  import opened Protocol
  import opened Rules
  import opened Scoring
  import opened Wrappers
  import Cache

  const ALL := {Growing, Snapshots, Apart}

  /** The run leads from start to end and keeps these parts of the discipline. */
  ghost predicate Leads(c: Config, ds: set<Discipline>, start: State, states: seq<State>, steps: seq<Step>,
                        end: State)
  {
    && Run(c, states, steps) && states[0] == start && states[|states| - 1] == end
    && forall d, i :: d in ds && 0 <= i < |steps| ==> Obeys(d, states[i], steps[i])
  }

  /** Keeping all parts is what Protocol calls disciplined. */
  lemma AllIsDisciplined(c: Config, start: State, states: seq<State>, steps: seq<Step>, end: State)
    requires Leads(c, ALL, start, states, steps, end)
    ensures DisciplinedRun(c, states, steps)
  {
  }

  lemma Extend(c: Config, ds: set<Discipline>, start: State, states: seq<State>, steps: seq<Step>, s: State, step: Step)
    returns (states': seq<State>, steps': seq<Step>)
    requires Leads(c, ds, start, states, steps, s) && Enabled(s, step)
    requires forall d :: d in ds ==> Obeys(d, s, step)
    ensures Leads(c, ds, start, states', steps', After(c, s, step))
  {
    states' := states + [After(c, s, step)];
    steps' := steps + [step];
    forall i | 0 <= i < |steps'|
      ensures Enabled(states'[i], steps'[i]) && states'[i + 1] == After(c, states'[i], steps'[i])
      ensures forall d :: d in ds ==> Obeys(d, states'[i], steps'[i])
    {
      if i < |steps| {
        assert states'[i] == states[i] && states'[i + 1] == states[i + 1];
      }
    }
  }

  // ----- One request, and then another -----

  /** One request runs from its arrival to the moment before its look-up. */
  lemma ToLookUp(c: Config, ds: set<Discipline>, start: State, states: seq<State>, steps: seq<Step>, s: State, id: nat,
                 req: Request, mood: string)
    returns (states': seq<State>, steps': seq<Step>, s': State)
    requires Leads(c, ds, start, states, steps, s) && id !in s.threads && req.userId != ""
    ensures Leads(c, ds, start, states', steps', s')
    ensures s' == s.(threads := s.threads[id := HaveKey(Work(req, mood, KeyFor(mood, req, s.version)))])
  {
    var s1 := After(c, s, Arrive(id, req));
    var s2 := After(c, s1, GetMood(id, mood));
    s' := After(c, s2, MakeKey(id));
    states', steps' := Extend(c, ds, start, states, steps, s, Arrive(id, req));
    states', steps' := Extend(c, ds, start, states', steps', s1, GetMood(id, mood));
    states', steps' := Extend(c, ds, start, states', steps', s2, MakeKey(id));
    assert s'.threads == s.threads[id := HaveKey(Work(req, mood, KeyFor(mood, req, s.version)))];
  }

  function FreshValue(c: Config, s: State, w: Work, matched: seq<Rule>): Value {
    Value(Recommended(c, matched), w, Computation(s.rules, s.version, s.swaps, matched))
  }

  /** A request that misses evaluates and fetches its products. */
  lemma ToStoring(c: Config, ds: set<Discipline>, start: State, states: seq<State>, steps: seq<Step>, s: State, id: nat,
                  matched: seq<Rule>)
    returns (states': seq<State>, steps': seq<Step>, s': State)
    requires Leads(c, ds, start, states, steps, s) && Enabled(s, LookUp(id)) && s.store == map[] && matched != []
    requires Evaluation(s.rules, ContextOf(s.threads[id].work.mood, s.threads[id].work.req), matched)
    ensures Leads(c, ds, start, states', steps', s')
    ensures s' == s.(threads := s.threads[id := Storing(FreshValue(c, s, s.threads[id].work, matched))])
  {
    var w := s.threads[id].work;
    var v := FreshValue(c, s, w, matched);
    var s1 := s.(threads := s.threads[id := Missed(w)]);
    var s2 := s1.(threads := s1.threads[id := Evaluated(w, v.comp)]);
    s' := s2.(threads := s2.threads[id := Storing(v)]);
    assert After(c, s, LookUp(id)) == s1;
    states', steps' := Extend(c, ds, start, states, steps, s, LookUp(id));
    assert After(c, s1, Evaluate(id, matched)) == s2;
    states', steps' := Extend(c, ds, start, states', steps', s1, Evaluate(id, matched));
    FetchStep(c, s2, id, w, v.comp);
    states', steps' := Extend(c, ds, start, states', steps', s2, Fetch(id));
    assert s'.threads == s.threads[id := Storing(v)];
  }

  lemma FetchStep(c: Config, s: State, id: nat, w: Work, comp: Computation)
    requires id in s.threads && s.threads[id] == Evaluated(w, comp)
    ensures After(c, s, Fetch(id)) ==
            s.(threads := s.threads[id := Storing(Value(Recommended(c, comp.matched), w, comp))])
  {
  }

  lemma StoreStep(c: Config, s: State, id: nat, v: Value)
    requires id in s.threads && s.threads[id] == Storing(v)
    ensures After(c, s, Store(id)) ==
            s.(store := s.store[KeyString(v.setter.key) := Cache.Entry(v, s.now + c.ttl)],
               threads := s.threads[id := Answered(Computed(v))])
  {
  }

  /** The thread was served this value from the cache. */
  ghost predicate AnsweredWith(s: State, id: nat, w: Work, v: Value) {
    id in s.threads && s.threads[id] == Answered(FromCache(w, v))
  }

  /** Thread 0 stores its answer, and thread 1, whose key prints alike, is served it. */
  lemma StoredThenServed(c: Config, ds: set<Discipline>, start: State, states: seq<State>, steps: seq<Step>, s: State,
                         v: Value, w1: Work)
    returns (states': seq<State>, steps': seq<Step>, s': State)
    requires Leads(c, ds, start, states, steps, s)
    requires 0 in s.threads && s.threads[0] == Storing(v) && 1 in s.threads && s.threads[1] == HaveKey(w1)
    requires KeyString(v.setter.key) == KeyString(w1.key)
    ensures Leads(c, ds, start, states', steps', s') && AnsweredWith(s', 1, w1, v)
    ensures s' == s.(store := s'.store, threads := s'.threads)
  {
    var mid := s.(store := s.store[KeyString(v.setter.key) := Cache.Entry(v, s.now + c.ttl)],
                  threads := s.threads[0 := Answered(Computed(v))]);
    StoreStep(c, s, 0, v);
    states', steps' := Extend(c, ds, start, states, steps, s, Store(0));
    assert mid.threads[1] == HaveKey(w1);
    assert Found(mid, w1) == Some(v);
    s' := After(c, mid, LookUp(1));
    states', steps' := Extend(c, ds, start, states', steps', mid, LookUp(1));
  }

  /** Request 0 evaluates and stores its answer, and request 1 is served it. */
  lemma FirstThenSecond(c: Config, ds: set<Discipline>, start: State, states: seq<State>, steps: seq<Step>, s: State,
                        w0: Work, w1: Work, matched: seq<Rule>)
    returns (states': seq<State>, steps': seq<Step>, s': State)
    requires Leads(c, ds, start, states, steps, s) && s.store == map[]
    requires 0 in s.threads && s.threads[0] == HaveKey(w0) && 1 in s.threads && s.threads[1] == HaveKey(w1)
    requires KeyString(w0.key) == KeyString(w1.key)
    requires Evaluation(s.rules, ContextOf(w0.mood, w0.req), matched) && matched != []
    ensures Leads(c, ds, start, states', steps', s')
    ensures AnsweredWith(s', 1, w1, FreshValue(c, s, w0, matched))
    ensures s' == s.(store := s'.store, threads := s'.threads)
  {
    var mid;
    states', steps', mid := ToStoring(c, ds, start, states, steps, s, 0, matched);
    states', steps', s' := StoredThenServed(c, ds, start, states', steps', mid, FreshValue(c, s, w0, matched), w1);
  }

  /** Whatever the rules, whenever a request a finds a match: some disciplined run serves
      a's answer to any request b whose key prints like a's. */
  lemma SecondIsServedFirstsAnswer(c: Config, s: State, mood: string, a: Request, mood': string, b: Request,
                                   matched: seq<Rule>)
    returns (states: seq<State>, steps: seq<Step>, end: State, v: Value)
    requires Init(s) && a.userId != "" && b.userId != ""
    requires KeyString(KeyFor(mood, a, s.version)) == KeyString(KeyFor(mood', b, s.version))
    requires Evaluation(s.rules, ContextOf(mood, a), matched) && matched != []
    ensures Leads(c, ALL, s, states, steps, end)
    ensures AnsweredWith(end, 1, Work(b, mood', KeyFor(mood', b, s.version)), v)
    ensures v.recommendations == Recommended(c, matched)
    ensures v.setter == Work(a, mood, KeyFor(mood, a, s.version))
    ensures v.comp == Computation(s.rules, s.version, 0, matched)
  {
    var t;
    states, steps := [s], [];
    states, steps, t := ToLookUp(c, ALL, s, states, steps, s, 0, a, mood);
    states, steps, t := ToLookUp(c, ALL, s, states, steps, t, 1, b, mood');
    var w0, w1 := Work(a, mood, KeyFor(mood, a, s.version)), Work(b, mood', KeyFor(mood', b, s.version));
    v := FreshValue(c, t, w0, matched);
    states, steps, end := FirstThenSecond(c, ALL, s, states, steps, t, w0, w1, matched);
  }

  // ----- What the key leaves out shows in the recommendations -----

  /** This action tag tells rule r from every other loaded rule of the same name. */
  ghost predicate Telling(rules: seq<Rule>, r: Rule, tag: string) {
    tag in r.actions.tags && forall q :: q in rules && q.name == r.name && tag in q.actions.tags ==> q == r
  }

  function TaggedProduct(tag: string): Product {
    Product("1", "product", "", 1.0, "", [tag], "")
  }

  /** A catalogue of one product. */
  function OneProduct(ttl: nat, tag: string): Config {
    Config(ttl, (f: Filters) => [TaggedProduct(tag)])
  }

  lemma {:induction false} NamesOfMembers(p: Product, rules: seq<Rule>, name: string)
    ensures name in NamesOf(p, rules) <==> exists r :: r in rules && r.name == name && SharesTag(r, p)
  {
    if rules != [] {
      var n := |rules| - 1;
      assert rules == rules[..n] + [rules[n]];
      NamesOfMembers(p, rules[..n], name);
    }
  }

  /** Evaluations of which only the first contains the rule are told apart. */
  lemma RuleShows(ttl: nat, rules: seq<Rule>, r: Rule, tag: string, matched: seq<Rule>, own: seq<Rule>)
    requires Telling(rules, r, tag) && r in matched && r !in own
    requires forall q :: q in own ==> q in rules
    ensures !SameUpToNames(Recommended(OneProduct(ttl, tag), matched), Replied(OneProduct(ttl, tag), own))
  {
    var c, p := OneProduct(ttl, tag), TaggedProduct(tag);
    var mine, others := Recommended(c, matched), Recommended(c, own);
    assert |mine| == 1 && |others| == 1;
    OwnScore([p], matched, 0);
    OwnScore([p], own, 0);
    NamesOfMembers(p, matched, r.name);
    NamesOfMembers(p, own, r.name);
    assert SharesTag(r, p);
    assert r.name in multiset(mine[0].matchedRules);
    assert r.name !in multiset(others[0].matchedRules);
  }

  lemma EvaluatedAreLoaded(rules: seq<Rule>, ctx: MatchContext, matched: seq<Rule>, r: Rule)
    requires Evaluation(rules, ctx, matched) && r in matched
    ensures r in rules && Matching(r, ctx)
  {
    Multiplicity(rules, ctx, matched, r);
    assert r in multiset(matched);
    assert multiset(rules)[r] > 0;
  }

  function RequestOf(ctx: MatchContext): Request {
    Request("user", ctx.timeOfDay, ctx.weather, ctx.occasion, ctx.preferences, ctx.historyTags)
  }

  /** For a rule that the key does not determine there is an evaluation of one context
      that no evaluation of another context with the same key agrees with. */
  lemma UndeterminedRuleShows(ttl: nat, rules: seq<Rule>, r: Rule, tag: string)
    returns (ctx: MatchContext, other: MatchContext, matched: seq<Rule>)
    requires r in rules && !KeyDetermined(r) && Telling(rules, r, tag)
    ensures SameKeyed(ctx, other) && Evaluation(rules, ctx, matched) && matched != []
    ensures forall own :: Evaluation(rules, other, own) ==>
              !SameUpToNames(Recommended(OneProduct(ttl, tag), matched), Replied(OneProduct(ttl, tag), own))
  {
    ctx, other := UndeterminedRuleDiffers(r);
    EvaluationsDiffer(rules, r, ctx, other);
    var found := MatchingOnes(Candidates(rules, ctx.mood), ctx);
    matched := SomeOrder(found);
    assert r in multiset(found);
    forall own | Evaluation(rules, other, own)
      ensures !SameUpToNames(Recommended(OneProduct(ttl, tag), matched), Replied(OneProduct(ttl, tag), own))
    {
      forall q | q in own ensures q in rules && q != r {
        EvaluatedAreLoaded(rules, other, own, q);
      }
      RuleShows(ttl, rules, r, tag, matched, own);
    }
  }

  /** As soon as one loaded rule is not determined by the key, and has an action tag that
      tells it from other rules of its name: with some catalogue, some disciplined run
      serves a request recommendations that none of its own evaluations gives. */
  lemma UndeterminedRuleLeaks(ttl: nat, s: State, r: Rule, tag: string)
    returns (states: seq<State>, steps: seq<Step>, end: State, w: Work, v: Value)
    requires Init(s) && r in s.rules && !KeyDetermined(r) && Telling(s.rules, r, tag)
    ensures Leads(OneProduct(ttl, tag), ALL, s, states, steps, end) && AnsweredWith(end, 1, w, v)
    ensures w.key == v.setter.key && v.comp.rules == s.rules
    ensures forall own :: Evaluation(s.rules, ContextOf(w.mood, w.req), own) ==>
              !SameUpToNames(v.recommendations, Replied(OneProduct(ttl, tag), own))
  {
    var ctx, other, matched := UndeterminedRuleShows(ttl, s.rules, r, tag);
    var a, b := RequestOf(ctx), RequestOf(other);
    w := Work(b, ctx.mood, KeyFor(ctx.mood, b, s.version));
    assert ContextOf(ctx.mood, a) == ctx && ContextOf(w.mood, w.req) == other;
    states, steps, end, v := SecondIsServedFirstsAnswer(OneProduct(ttl, tag), s, ctx.mood, a, ctx.mood, b, matched);
  }

  /** Both contexts are recommended the same products with the same scores and names. */
  ghost predicate SameRecommendations(c: Config, rules: seq<Rule>, ctx: MatchContext, other: MatchContext) {
    forall m, o :: Evaluation(rules, ctx, m) && Evaluation(rules, other, o) ==>
      SameUpToNames(Replied(c, m), Replied(c, o))
  }

  /** For rules with telling tags: all requests that share a key are recommended the same,
      whatever the catalogue, if and only if every loaded rule is determined by the key. */
  lemma KeyDeterminesRecommendations(rules: seq<Rule>)
    requires forall r :: r in rules ==> exists tag :: Telling(rules, r, tag)
    ensures (forall c: Config, ctx: MatchContext, other: MatchContext ::
               SameKeyed(ctx, other) ==> SameRecommendations(c, rules, ctx, other)) <==>
            (forall r :: r in rules ==> KeyDetermined(r))
  {
    if forall r :: r in rules ==> KeyDetermined(r) {
      forall c: Config, ctx: MatchContext, other: MatchContext | SameKeyed(ctx, other)
        ensures SameRecommendations(c, rules, ctx, other)
      {
        DeterminedRulesRecommend(c, rules, ctx, other);
      }
    } else {
      var r :| r in rules && !KeyDetermined(r);
      var tag :| Telling(rules, r, tag);
      var ctx, other, matched := UndeterminedRuleShows(0, rules, r, tag);
      var own := SomeOrder(MatchingOnes(Candidates(rules, other.mood), other));
      var c := OneProduct(0, tag);
      assert !SameUpToNames(Replied(c, matched), Replied(c, own));
      assert !SameRecommendations(c, rules, ctx, other);
    }
  }

  lemma DeterminedRulesRecommend(c: Config, rules: seq<Rule>, ctx: MatchContext, other: MatchContext)
    requires SameKeyed(ctx, other) && forall r :: r in rules ==> KeyDetermined(r)
    ensures SameRecommendations(c, rules, ctx, other)
  {
    DeterminedRulesAgree(rules, ctx, other);
    forall m, o | Evaluation(rules, ctx, m) && Evaluation(rules, other, o)
      ensures SameUpToNames(Replied(c, m), Replied(c, o))
    {
      RepeatedEvaluationsAgree(c, rules, ctx, m, o);
      assert |multiset(m)| == |multiset(o)|;
    }
  }

  // ----- One rule with one condition -----

  ghost function OneRule(conditions: Conditions): Rule {
    Rule("1", "rule", 10, conditions, Actions(["tag"], [], None, 0.0), 1.0, 1, true)
  }

  /** The rule has one condition, not on the mood, that only the first context meets. */
  lemma OnlyFirstMatches(conditions: Conditions, d: Dimension, ctx: MatchContext, other: MatchContext)
    requires d != Mood && forall e :: Present(conditions, e) <==> e == d
    requires Holds(conditions, ctx, d) && !Holds(conditions, other, d)
    requires ctx.mood != WILDCARD && other.mood != WILDCARD
    ensures Evaluation([OneRule(conditions)], ctx, [OneRule(conditions)])
    ensures forall own :: Evaluation([OneRule(conditions)], other, own) ==> own == []
  {
    var r := OneRule(conditions);
    assert !Present(conditions, Mood);
    OnlyCandidate(r, ctx.mood);
    OnlyCandidate(r, other.mood);
    assert Matching(r, ctx) && !Matching(r, other);
    assert [r][..0] == [];
    assert MatchingOnes([r], ctx) == MatchingOnes([r][..0], ctx) + [r];
    assert MatchingOnes([r], other) == MatchingOnes([r][..0], other);
    forall own | Evaluation([r], other, own) ensures own == [] {
      assert |multiset(own)| == 0;
    }
  }

  lemma OnlyCandidate(r: Rule, mood: string)
    requires |r.conditions.mood| == 0 && mood != WILDCARD
    ensures Candidates([r], mood) == [r]
  {
    assert [r][..0] == [];
    assert Bucket([r], mood) == Bucket([r][..0], mood) + Repeat(r, Idx(mood, r));
    assert Bucket([r], WILDCARD) == Bucket([r][..0], WILDCARD) + Repeat(r, Idx(WILDCARD, r));
    assert Repeat(r, 1) == [r];
  }

  ghost function OnOccasion(occasion: string): Conditions {
    Conditions([], [], [], [occasion], map[], [], "AND")
  }

  ghost function InWeather(weather: string): Conditions {
    Conditions([], [], [weather], [], map[], [], "AND")
  }

  /** One rule for an occasion: the same user's request without the occasion matches
      nothing, yet after a request with it, it is served that one's recommendations. */
  lemma OccasionIsNotInTheKey(c: Config, s: State, mood: string, party: Request)
    returns (states: seq<State>, steps: seq<Step>, end: State, w: Work, v: Value)
    requires Init(s) && s.rules == [OneRule(OnOccasion(party.occasion))]
    requires mood != WILDCARD && party.userId != "" && party.occasion != ""
    ensures Leads(c, ALL, s, states, steps, end) && AnsweredWith(end, 1, w, v)
    ensures w.req == party.(occasion := "") && v.recommendations == Recommended(c, s.rules)
    ensures forall own :: Evaluation(s.rules, ContextOf(mood, w.req), own) ==> own == []
  {
    var plain := party.(occasion := "");
    OnlyFirstMatches(OnOccasion(party.occasion), Occasion, ContextOf(mood, party), ContextOf(mood, plain));
    w := Work(plain, mood, KeyFor(mood, plain, s.version));
    states, steps, end, v := SecondIsServedFirstsAnswer(c, s, mood, party, mood, plain, s.rules);
  }

  /** A user whose name continues another's after a colon, in a weather that ends where
      the name begins: the two keys print alike. */
  lemma SplitElsewhere(mood: string, a: Request, rest: string, user: string, version: int)
    requires a.userId == rest + ":" + user
    ensures KeyString(KeyFor(mood, a, version)) ==
            KeyString(KeyFor(mood, a.(userId := user, weather := a.weather + ":" + rest), version))
  {
    var b := a.(userId := user, weather := a.weather + ":" + rest);
    var front := mood + ":" + a.timeOfDay + ":";
    assert Body(KeyFor(mood, a, version)) == front + a.weather + ":" + rest + ":" + user;
    assert Body(KeyFor(mood, b, version)) == front + a.weather + ":" + rest + ":" + user;
    PrintAlike(KeyFor(mood, a, version), KeyFor(mood, b, version));
  }

  /** Colons in two fields, and one rule for a's weather, which is part of the key: a
      request of another user in another weather matches nothing and is served a's
      recommendations. */
  lemma ColonsMixUsers(c: Config, s: State, mood: string, a: Request, rest: string, user: string)
    returns (states: seq<State>, steps: seq<Step>, end: State, w: Work, v: Value)
    requires Init(s) && s.rules == [OneRule(InWeather(a.weather))]
    requires mood != WILDCARD && user != "" && a.userId == rest + ":" + user
    ensures Leads(c, ALL, s, states, steps, end) && AnsweredWith(end, 1, w, v)
    ensures w.req.userId == user != a.userId == v.setter.req.userId
    ensures v.recommendations == Recommended(c, s.rules)
    ensures forall r :: r in s.rules ==> KeyDetermined(r)
    ensures forall own :: Evaluation(s.rules, ContextOf(mood, w.req), own) ==> own == []
  {
    var b := a.(userId := user, weather := a.weather + ":" + rest);
    assert |b.weather| > |a.weather| && |a.userId| > |user|;
    OnlyFirstMatches(InWeather(a.weather), Weather, ContextOf(mood, a), ContextOf(mood, b));
    SplitElsewhere(mood, a, rest, user, s.version);
    w := Work(b, mood, KeyFor(mood, b, s.version));
    states, steps, end, v := SecondIsServedFirstsAnswer(c, s, mood, a, mood, b, s.rules);
  }

  // ----- Undisciplined stores and reloads -----

  /** One rule-update handler from its start to its swap, while the store stays as it is. */
  lemma ToSwapped(c: Config, ds: set<Discipline>, start: State, states: seq<State>, steps: seq<Step>, s: State)
    returns (states': seq<State>, steps': seq<Step>, s': State)
    requires Leads(c, ds, start, states, steps, s) && s.reloads == map[]
    ensures Leads(c, ds, start, states', steps', s')
    ensures s' == s.(rules := s.dbRules, version := s.dbVersion, swaps := s.swaps + 1,
                     reloads := map[0 := Swapped(s.swaps + 1)])
  {
    var s1 := s.(reloads := map[0 := Started]);
    var s2 := s.(reloads := map[0 := HaveRules(s.dbRules)]);
    var s3 := s.(reloads := map[0 := HaveBoth(s.dbRules, s.dbVersion)]);
    s' := s.(rules := s.dbRules, version := s.dbVersion, swaps := s.swaps + 1,
             reloads := map[0 := Swapped(s.swaps + 1)]);
    states', steps' := Extend(c, ds, start, states, steps, s, StartReload(0));
    states', steps' := Extend(c, ds, start, states', steps', s1, ReadRules(0));
    states', steps' := Extend(c, ds, start, states', steps', s2, ReadVersion(0));
    states', steps' := Extend(c, ds, start, states', steps', s3, Swap(0));
  }

  /** The store's version grows and then falls back, as when the rule with the highest
      version is deactivated: a request evaluates before the handler swaps and stores
      after it has cleared, and a later request under the version that has come back is
      served that answer, computed on rules the store no longer shows. */
  lemma ReturningVersionServesOldRules(c: Config, s: State, between: seq<Rule>, high: int, rules: seq<Rule>,
                                       mood: string, req: Request, matched: seq<Rule>)
    returns (states: seq<State>, steps: seq<Step>, end: State, w: Work, v: Value)
    requires Init(s) && req.userId != "" && high > s.version && rules != s.rules
    requires Evaluation(s.rules, ContextOf(mood, req), matched) && matched != []
    ensures Leads(c, {Snapshots, Apart}, s, states, steps, end) && AnsweredWith(end, 1, w, v)
    ensures w.key.ruleVersion == v.comp.version == end.version == end.dbVersion
    ensures end.rules == end.dbRules == rules != v.comp.rules
    ensures end.reloads == map[]
  {
    var ds := {Snapshots, Apart};
    w := Work(req, mood, KeyFor(mood, req, s.version));
    v := FreshValue(c, s, w, matched);
    var t0, t1, t3;
    states, steps, t0 := ToLookUp(c, ds, s, [s], [], s, 0, req, mood);
    states, steps, t1 := ToStoring(c, ds, s, states, steps, t0, 0, matched);
    var t2 := ChangedTwice(t1, between, high, rules, s.version);
    states, steps := Extend(c, ds, s, states, steps, t1, ChangeRules(between, high));
    var up := After(c, t1, ChangeRules(between, high));
    states, steps := Extend(c, ds, s, states, steps, up, ChangeRules(rules, s.version));
    states, steps, t3 := ToSwapped(c, ds, s, states, steps, t2);
    var t4 := t3.(store := map[], reloads := map[]);
    assert After(c, t3, ClearCache(0)) == t4;
    states, steps := Extend(c, ds, s, states, steps, t3, ClearCache(0));
    var t5;
    states, steps, t5 := ToLookUp(c, ds, s, states, steps, t4, 1, req, mood);
    states, steps, end := StoredThenServed(c, ds, s, states, steps, t5, v, w);
  }

  ghost function ChangedTwice(s: State, between: seq<Rule>, high: int, rules: seq<Rule>, version: int): State {
    s.(dbRules := rules, dbVersion := version, published := s.published[high := between][version := rules])
  }

  /** A rule change between the two reads of a reload: a request is served an answer that
      is labelled with the new version and was computed on the old rules. */
  lemma ChangeBetweenReadsServesOldRules(c: Config, s: State, rules: seq<Rule>, version: int, mood: string,
                                         req: Request, matched: seq<Rule>)
    returns (states: seq<State>, steps: seq<Step>, end: State, w: Work, v: Value)
    requires Init(s) && req.userId != "" && version > s.version && rules != s.rules
    requires Evaluation(s.rules, ContextOf(mood, req), matched) && matched != []
    ensures Leads(c, {Growing, Apart}, s, states, steps, end) && AnsweredWith(end, 1, w, v)
    ensures w.key.ruleVersion == v.comp.version == version
    ensures version in end.published && end.published[version] == rules != v.comp.rules
  {
    var ds := {Growing, Apart};
    var s1 := s.(reloads := map[0 := Started]);
    var s2 := s1.(reloads := map[0 := HaveRules(s.rules)]);
    var s3 := s2.(dbRules := rules, dbVersion := version, published := s.published[version := rules]);
    var s4 := s3.(reloads := map[0 := HaveBoth(s.rules, version)]);
    var s5 := s4.(version := version, swaps := 1, reloads := map[0 := Swapped(1)]);
    states, steps := Extend(c, ds, s, [s], [], s, StartReload(0));
    states, steps := Extend(c, ds, s, states, steps, s1, ReadRules(0));
    states, steps := Extend(c, ds, s, states, steps, s2, ChangeRules(rules, version));
    states, steps := Extend(c, ds, s, states, steps, s3, ReadVersion(0));
    states, steps := Extend(c, ds, s, states, steps, s4, Swap(0));
    w := Work(req, mood, KeyFor(mood, req, version));
    var t;
    states, steps, t := ToLookUp(c, ds, s, states, steps, s5, 0, req, mood);
    states, steps, t := ToLookUp(c, ds, s, states, steps, t, 1, req, mood);
    v := FreshValue(c, t, w, matched);
    states, steps, end := FirstThenSecond(c, ds, s, states, steps, t, w, w, matched);
  }

  /** Two overlapping reloads: a request that looked up under the new version is served an
      answer computed on the old rules, under the old version. */
  lemma OverlappingReloadsServeOldVersion(c: Config, s: State, rules: seq<Rule>, version: int, mood: string,
                                          req: Request, matched: seq<Rule>)
    returns (states: seq<State>, steps: seq<Step>, end: State, w: Work, v: Value)
    requires Init(s) && req.userId != "" && version > s.version
    requires Evaluation(s.rules, ContextOf(mood, req), matched) && matched != []
    ensures Leads(c, {Growing, Snapshots}, s, states, steps, end) && AnsweredWith(end, 1, w, v)
    ensures w.key.ruleVersion == version > v.comp.version
  {
    var ds := {Growing, Snapshots};
    var t := BothReloadsRead(s, rules, version);
    states, steps := ReadBoth(c, s, rules, version);
    var t1 := t.(rules := rules, version := version, swaps := 1, reloads := t.reloads[1 := Swapped(1)]);
    states, steps := Extend(c, ds, s, states, steps, t, Swap(1));
    w := Work(req, mood, KeyFor(mood, req, version));
    var t2, t3;
    states, steps, t2 := ToLookUp(c, ds, s, states, steps, t1, 0, req, mood);
    states, steps, t3 := ToLookUp(c, ds, s, states, steps, t2, 1, req, mood);
    var t4 := t3.(rules := s.rules, version := s.version, swaps := 2, reloads := t3.reloads[0 := Swapped(2)]);
    states, steps := Extend(c, ds, s, states, steps, t3, Swap(0));
    v := FreshValue(c, t4, w, matched);
    states, steps, end := FirstThenSecond(c, ds, s, states, steps, t4, w, w, matched);
  }

  /** Reload 0 has read the old rules, the store has changed, and reload 1 has read the new. */
  ghost function BothReloadsRead(s: State, rules: seq<Rule>, version: int): State {
    s.(dbRules := rules, dbVersion := version, published := s.published[version := rules],
       reloads := map[0 := HaveBoth(s.rules, s.version), 1 := HaveBoth(rules, version)])
  }

  lemma ReadBoth(c: Config, s: State, rules: seq<Rule>, version: int) returns (states: seq<State>, steps: seq<Step>)
    requires Init(s) && version > s.version
    ensures Leads(c, {Growing, Snapshots}, s, states, steps, BothReloadsRead(s, rules, version))
  {
    var ds := {Growing, Snapshots};
    var s1 := s.(reloads := map[0 := Started]);
    var s2 := s1.(reloads := map[0 := HaveRules(s.rules)]);
    var s3 := s2.(reloads := map[0 := HaveBoth(s.rules, s.version)]);
    states, steps := Extend(c, ds, s, [s], [], s, StartReload(0));
    states, steps := Extend(c, ds, s, states, steps, s1, ReadRules(0));
    states, steps := Extend(c, ds, s, states, steps, s2, ReadVersion(0));
    var s4 := s3.(dbRules := rules, dbVersion := version, published := s.published[version := rules]);
    var s5 := s4.(reloads := s4.reloads[1 := Started]);
    var s6 := s5.(reloads := s4.reloads[1 := HaveRules(rules)]);
    states, steps := Extend(c, ds, s, states, steps, s3, ChangeRules(rules, version));
    states, steps := Extend(c, ds, s, states, steps, s4, StartReload(1));
    states, steps := Extend(c, ds, s, states, steps, s5, ReadRules(1));
    states, steps := Extend(c, ds, s, states, steps, s6, ReadVersion(1));
  }
}
