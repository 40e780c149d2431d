/**
 The rule engine: rules held in memory, indexed by mood, replaced as a whole by
 Load and Reload, and evaluated against a context through the index.
 */
module Engine {
  import opened Rules
  import opened Wrappers

  /** The bucket of the rules that have no mood condition. */
  const WILDCARD := "*"

  // ----- What the index holds -----

  /** How often rule r is entered in the bucket of mood m. */
  function Idx(m: string, r: Rule): nat {
    if |r.conditions.mood| > 0 then multiset(r.conditions.mood)[m]
    else if m == WILDCARD then 1 else 0
  }

  function Repeat<T>(x: T, n: nat): seq<T> {
    seq(n, _ => x)
  }

  /** The bucket of mood m: the rules in load order, each as often as it is entered. */
  function Bucket(rules: seq<Rule>, m: string): seq<Rule> {
    if rules == [] then []
    else
      var r := rules[|rules| - 1];
      Bucket(rules[..|rules| - 1], m) + Repeat(r, Idx(m, r))
  }

  /** The rules Evaluate looks at: the bucket of the mood, then the wildcard bucket. */
  function Candidates(rules: seq<Rule>, m: string): seq<Rule> {
    Bucket(rules, m) + Bucket(rules, WILDCARD)
  }

  function Lookup<T>(index: map<string, seq<T>>, m: string): seq<T> {
    if m in index then index[m] else []
  }

  /** The index holds exactly the buckets of these rules, and no empty bucket. */
  ghost predicate Indexes(index: map<string, seq<Rule>>, rules: seq<Rule>) {
    && (forall m :: Lookup(index, m) == Bucket(rules, m))
    && (forall m :: m in index ==> index[m] != [])
  }

  /** Buckets add up over the rules, in load order. */
  lemma {:induction false} BucketsAddUp(a: seq<Rule>, b: seq<Rule>, m: string)
    ensures Bucket(a + b, m) == Bucket(a, m) + Bucket(b, m)
  {
    if b == [] {
      assert a + b == a;
    } else {
      var n := |b| - 1;
      BucketsAddUp(a, b[..n], m);
      assert (a + b)[..|a + b| - 1] == a + b[..n];
    }
  }

  /** One rule is entered once per listing of the mood; without moods it is entered once,
      under the star. With BucketsAddUp this fixes every bucket. */
  lemma BucketOfOne(r: Rule, m: string)
    ensures var n := if |r.conditions.mood| > 0 then multiset(r.conditions.mood)[m] else if m == "*" then 1 else 0;
      Bucket([r], m) == seq(n, _ => r)
  {
    assert [r][..0] == [];
  }

  lemma {:induction false} BucketMember(rules: seq<Rule>, m: string, r: Rule)
    requires r in Bucket(rules, m)
    ensures r in rules
    ensures if |r.conditions.mood| > 0 then m in r.conditions.mood else m == "*"
  {
    var n := |rules| - 1;
    if r in Repeat(rules[n], Idx(m, rules[n])) {
      assert r == rules[n];
    } else {
      BucketMember(rules[..n], m, r);
    }
  }

  /** The rules that list the mood come first, then those under the star. */
  lemma MoodBeforeWildcard(rules: seq<Rule>, m: string, i: nat)
    requires m != "*" && i < |Candidates(rules, m)|
    ensures var moods := Candidates(rules, m)[i].conditions.mood;
      if i < |Bucket(rules, m)| then m in moods else moods == [] || "*" in moods
  {
    var mine := Bucket(rules, m);
    if i < |mine| {
      BucketMember(rules, m, mine[i]);
    } else {
      BucketMember(rules, "*", Bucket(rules, "*")[i - |mine|]);
    }
  }

  // ----- What Evaluate returns -----

  ghost function MatchingOnes(rules: seq<Rule>, ctx: MatchContext): seq<Rule> {
    if rules == [] then []
    else
      var r := rules[|rules| - 1];
      MatchingOnes(rules[..|rules| - 1], ctx) + if Matching(r, ctx) then [r] else []
  }

  /** The comparator handed to the sort: higher priority first, then higher score. */
  predicate Before(a: Rule, b: Rule) {
    if a.priority != b.priority then a.priority > b.priority
    else CalculateScore(a) > CalculateScore(b)
  }

  ghost predicate Ordered(rules: seq<Rule>) {
    forall i, j :: 0 <= i < j < |rules| ==> !Before(rules[j], rules[i])
  }

  /** One possible answer of Evaluate: the sort is not stable, so every ordered
      arrangement of the matching candidates is allowed. */
  ghost predicate Evaluation(rules: seq<Rule>, ctx: MatchContext, matched: seq<Rule>) {
    && Ordered(matched)
    && multiset(matched) == multiset(MatchingOnes(Candidates(rules, ctx.mood), ctx))
  }

  /** Ordered means: by priority from high to low, and by score from high to low among
      rules of one priority. */
  lemma OrderedByPriorityThenScore(rules: seq<Rule>, i: nat, j: nat)
    requires Ordered(rules) && i < j < |rules|
    ensures rules[i].priority >= rules[j].priority
    ensures rules[i].priority == rules[j].priority ==> CalculateScore(rules[i]) >= CalculateScore(rules[j])
  {
    assert !Before(rules[j], rules[i]);
  }

  /** Some ordered arrangement of the input; callers learn nothing about ties. */
  method SortRules(rules: seq<Rule>) returns (sorted: seq<Rule>)
    ensures Ordered(sorted)
    ensures multiset(sorted) == multiset(rules)
  {
    sorted := [];
    for i := 0 to |rules|
      invariant Ordered(sorted)
      invariant multiset(sorted) == multiset(rules[..i])
    {
      assert rules[..i + 1] == rules[..i] + [rules[i]];
      sorted := InsertRule(sorted, rules[i]);
    }
    assert rules[..|rules|] == rules;
  }

  method InsertRule(s: seq<Rule>, r: Rule) returns (t: seq<Rule>)
    requires Ordered(s)
    ensures Ordered(t)
    ensures multiset(t) == multiset(s) + multiset{r}
  {
    var i := |s|;
    while i > 0 && Before(r, s[i - 1])
      invariant 0 <= i <= |s|
      invariant i < |s| ==> Before(r, s[i])
    {
      i := i - 1;
    }
    InsertKeepsOrder(s, r, i);
    t := s[..i] + [r] + s[i..];
  }

  /** There is always an evaluation. */
  lemma SomeOrder(rules: seq<Rule>) returns (sorted: seq<Rule>)
    ensures Ordered(sorted) && multiset(sorted) == multiset(rules)
  {
    if rules == [] {
      sorted := [];
    } else {
      var n := |rules| - 1;
      var r := rules[n];
      var front := SomeOrder(rules[..n]);
      var i := |front|;
      while i > 0 && Before(r, front[i - 1])
        invariant 0 <= i <= |front|
        invariant i < |front| ==> Before(r, front[i])
      {
        i := i - 1;
      }
      InsertKeepsOrder(front, r, i);
      sorted := front[..i] + [r] + front[i..];
      assert rules == rules[..n] + [r];
    }
  }

  lemma InsertKeepsOrder(s: seq<Rule>, r: Rule, i: nat)
    requires Ordered(s) && i <= |s|
    requires i > 0 ==> !Before(r, s[i - 1])
    requires i < |s| ==> Before(r, s[i])
    ensures Ordered(s[..i] + [r] + s[i..])
    ensures multiset(s[..i] + [r] + s[i..]) == multiset(s) + multiset{r}
  {
    InsertedElements(s, r, i);
    var t := s[..i] + [r] + s[i..];
    forall p, q | 0 <= p < q < |t| ensures !Before(t[q], t[p]) {
      if q == i {
        BeforeIsWeakOrder(r, s[i - 1], s[p]);
      } else if p == i {
        BeforeIsWeakOrder(s[q - 1], s[i], r);
      }
    }
  }

  lemma InsertedElements<T>(s: seq<T>, x: T, i: nat)
    requires i <= |s|
    ensures multiset(s[..i] + [x] + s[i..]) == multiset(s) + multiset{x}
  {
    assert s == s[..i] + s[i..];
  }

  lemma BeforeIsWeakOrder(a: Rule, b: Rule, c: Rule)
    requires !Before(a, b) && !Before(b, c)
    ensures !Before(a, c)
  {
  }

  datatype EvaluationStats = EvaluationStats(rulesEvaluated: nat, rulesMatched: nat, version: int)

  class RuleEngine {
    var rules: seq<Rule>
    var rulesByMood: map<string, seq<Rule>>
    var version: int

    /** The index is the index of the current rules. */
    ghost predicate Valid()
      reads this
    {
      Indexes(rulesByMood, rules)
    }

    constructor ()
      ensures Valid()
      ensures rules == [] && version == 0
    {
      rules := [];
      rulesByMood := map[];
      version := 0;
    }

    /** Both store reads come first; when one fails nothing changes. */
    method Load(readRules: Result<seq<Rule>, string>, readVersion: Result<int, string>) returns (err: Option<string>)
      requires Valid()
      modifies this
      ensures Valid()
      ensures err.None? <==> readRules.Success? && readVersion.Success?
      ensures err.None? ==> rules == readRules.value && version == readVersion.value
      ensures err.Some? ==> unchanged(this)
      ensures readRules.Failure? ==> err == Some("failed to load rules: " + readRules.error)
      ensures readRules.Success? && readVersion.Failure? ==>
        err == Some("failed to get max version: " + readVersion.error)
    {
      if readRules.Failure? {
        return Some("failed to load rules: " + readRules.error);
      }
      if readVersion.Failure? {
        return Some("failed to get max version: " + readVersion.error);
      }
      rules := readRules.value;
      version := readVersion.value;
      BuildIndex();
      return None;
    }

    method Reload(readRules: Result<seq<Rule>, string>, readVersion: Result<int, string>) returns (err: Option<string>)
      requires Valid()
      modifies this
      ensures Valid()
      ensures err.None? <==> readRules.Success? && readVersion.Success?
      ensures err.None? ==> rules == readRules.value && version == readVersion.value
      ensures err.Some? ==> unchanged(this)
      ensures readRules.Failure? ==> err == Some("failed to reload rules: " + readRules.error)
      ensures readRules.Success? && readVersion.Failure? ==>
        err == Some("failed to get max version: " + readVersion.error)
    {
      if readRules.Failure? {
        return Some("failed to reload rules: " + readRules.error);
      }
      if readVersion.Failure? {
        return Some("failed to get max version: " + readVersion.error);
      }
      rules := readRules.value;
      version := readVersion.value;
      BuildIndex();
      return None;
    }

    /** Rebuilds the index from the current rules, whatever it held before. */
    method BuildIndex()
      modifies this`rulesByMood
      ensures Valid()
    {
      rulesByMood := map[];
      for i := 0 to |rules|
        invariant Indexes(rulesByMood, rules[..i])
      {
        IndexRule(rules[i], rules[..i]);
        EnteredAll(rulesByMood, rules, i);
      }
      assert rules[..|rules|] == rules;
    }

    /** Enters one rule, under each of its moods or under the wildcard. */
    method IndexRule(rule: Rule, ghost done: seq<Rule>)
      requires Indexes(rulesByMood, done)
      modifies this`rulesByMood
      ensures EntersPart(rulesByMood, done, rule,
        if |rule.conditions.mood| > 0 then rule.conditions.mood else [WILDCARD])
    {
      NothingEntered(rulesByMood, done, rule);
      if |rule.conditions.mood| > 0 {
        IndexUnder(rule, rule.conditions.mood, done);
      } else {
        // Rules without a mood condition match all moods
        EnterOne(rule, WILDCARD, done, []);
      }
    }

    method IndexUnder(rule: Rule, moods: seq<string>, ghost done: seq<Rule>)
      requires EntersPart(rulesByMood, done, rule, [])
      modifies this`rulesByMood
      ensures EntersPart(rulesByMood, done, rule, moods)
    {
      assert moods[..0] == [];
      for j := 0 to |moods|
        invariant EntersPart(rulesByMood, done, rule, moods[..j])
      {
        EnterOne(rule, moods[j], done, moods[..j]);
        assert moods[..j + 1] == moods[..j] + [moods[j]];
      }
      assert moods[..|moods|] == moods;
    }

    /** rulesByMood[mood] = append(rulesByMood[mood], rule) */
    method EnterOne(rule: Rule, mood: string, ghost done: seq<Rule>, ghost listed: seq<string>)
      requires EntersPart(rulesByMood, done, rule, listed)
      modifies this`rulesByMood
      ensures EntersPart(rulesByMood, done, rule, listed + [mood])
    {
      EnterNext(rulesByMood, done, rule, listed, mood);
      rulesByMood := Enter(rulesByMood, mood, rule);
    }

    /** Scans the bucket of the mood and then the wildcard bucket. */
    method Evaluate(ctx: MatchContext) returns (matched: seq<Rule>, stats: EvaluationStats)
      requires Valid()
      ensures Evaluation(rules, ctx, matched)
      ensures stats == EvaluationStats(|Candidates(rules, ctx.mood)|, |matched|, version)
    {
      var candidateRules := Lookup(rulesByMood, ctx.mood);
      candidateRules := candidateRules + Lookup(rulesByMood, WILDCARD);
      matched := [];
      var evaluated := 0;
      for i := 0 to |candidateRules|
        invariant evaluated == i
        invariant matched == MatchingOnes(candidateRules[..i], ctx)
      {
        evaluated := evaluated + 1;
        assert candidateRules[..i + 1][..i] == candidateRules[..i];
        var ok := Matches(candidateRules[i], ctx);
        if ok {
          matched := matched + [candidateRules[i]];
        }
      }
      assert candidateRules[..|candidateRules|] == candidateRules;
      matched := SortRules(matched);
      stats := EvaluationStats(evaluated, |matched|, version);
    }
  }

  // ----- Building the index, one entry at a time -----

  function Enter(index: map<string, seq<Rule>>, mood: string, rule: Rule): map<string, seq<Rule>> {
    index[mood := Lookup(index, mood) + [rule]]
  }

  /** The index of the rules done so far, with this rule entered under the listed moods. */
  ghost predicate EntersPart(index: map<string, seq<Rule>>, done: seq<Rule>, rule: Rule, listed: seq<string>) {
    && (forall m :: Lookup(index, m) == Bucket(done, m) + Repeat(rule, multiset(listed)[m]))
    && (forall m :: m in index ==> index[m] != [])
  }

  lemma NothingEntered(index: map<string, seq<Rule>>, done: seq<Rule>, rule: Rule)
    requires Indexes(index, done)
    ensures EntersPart(index, done, rule, [])
  {
  }

  lemma EnterNext(index: map<string, seq<Rule>>, done: seq<Rule>, rule: Rule, listed: seq<string>, mood: string)
    requires EntersPart(index, done, rule, listed)
    ensures EntersPart(Enter(index, mood, rule), done, rule, listed + [mood])
  {
    var next := Enter(index, mood, rule);
    forall m ensures Lookup(next, m) == Bucket(done, m) + Repeat(rule, multiset(listed + [mood])[m]) {
      EnterAt(index, Bucket(done, m), rule, listed, mood, m);
    }
  }

  lemma EnterAt(index: map<string, seq<Rule>>, before: seq<Rule>, rule: Rule, listed: seq<string>,
                mood: string, m: string)
    requires Lookup(index, m) == before + Repeat(rule, multiset(listed)[m])
    ensures Lookup(Enter(index, mood, rule), m) == before + Repeat(rule, multiset(listed + [mood])[m])
  {
    var n := multiset(listed)[m];
    assert multiset(listed + [mood])[m] == n + if m == mood then 1 else 0;
    if m == mood {
      assert Repeat(rule, n + 1) == Repeat(rule, n) + [rule];
    }
  }

  lemma EnteredAll(index: map<string, seq<Rule>>, rules: seq<Rule>, i: nat)
    requires i < |rules|
    requires var moods := rules[i].conditions.mood;
      EntersPart(index, rules[..i], rules[i], if |moods| > 0 then moods else [WILDCARD])
    ensures Indexes(index, rules[..i + 1])
  {
    assert rules[..i + 1][..i] == rules[..i];
    forall m ensures Lookup(index, m) == Bucket(rules[..i + 1], m) {
      var values := if |rules[i].conditions.mood| > 0 then rules[i].conditions.mood else [WILDCARD];
      assert multiset(values)[m] == Idx(m, rules[i]);
    }
  }

  // ----- The size of the index -----

  /** How many entries a rule takes in the index. */
  function Entries(r: Rule): nat {
    if |r.conditions.mood| > 0 then |r.conditions.mood| else 1
  }

  function TotalEntries(rules: seq<Rule>): nat {
    if rules == [] then 0 else TotalEntries(rules[..|rules| - 1]) + Entries(rules[|rules| - 1])
  }

  /** The number of entries in the buckets of the moods ms. */
  function BucketSizes(ms: seq<string>, rules: seq<Rule>): nat {
    if ms == [] then 0 else |Bucket(rules, ms[0])| + BucketSizes(ms[1..], rules)
  }

  function CopiesOver(ms: seq<string>, r: Rule): nat {
    if ms == [] then 0 else Idx(ms[0], r) + CopiesOver(ms[1..], r)
  }

  function CountOver(ms: seq<string>, values: seq<string>): nat {
    if ms == [] then 0 else multiset(values)[ms[0]] + CountOver(ms[1..], values)
  }

  predicate NoDuplicates(ms: seq<string>) {
    forall i, j :: 0 <= i < j < |ms| ==> ms[i] != ms[j]
  }

  lemma {:induction false} CountOverNext(ms: seq<string>, values: seq<string>, v: string)
    requires NoDuplicates(ms)
    ensures CountOver(ms, values + [v]) == CountOver(ms, values) + if v in ms then 1 else 0
  {
    if ms != [] {
      CountOverNext(ms[1..], values, v);
    }
  }

  lemma {:induction false} CountOverAll(ms: seq<string>, values: seq<string>)
    requires NoDuplicates(ms)
    requires forall v :: v in values ==> v in ms
    ensures CountOver(ms, values) == |values|
  {
    if values == [] {
      CountOverNone(ms);
    } else {
      var n := |values| - 1;
      assert values == values[..n] + [values[n]];
      CountOverAll(ms, values[..n]);
      CountOverNext(ms, values[..n], values[n]);
    }
  }

  lemma CountOverNone(ms: seq<string>)
    ensures CountOver(ms, []) == 0
  {
  }

  lemma {:induction false} CopiesAreEntries(ms: seq<string>, r: Rule)
    requires NoDuplicates(ms) && WILDCARD in ms
    requires forall m :: m in r.conditions.mood ==> m in ms
    ensures CopiesOver(ms, r) == Entries(r)
  {
    if |r.conditions.mood| > 0 {
      CopiesAsCount(ms, r, r.conditions.mood);
      CountOverAll(ms, r.conditions.mood);
    } else {
      CopiesAsCount(ms, r, [WILDCARD]);
      CountOverAll(ms, [WILDCARD]);
    }
  }

  lemma {:induction false} CopiesAsCount(ms: seq<string>, r: Rule, values: seq<string>)
    requires values == if |r.conditions.mood| > 0 then r.conditions.mood else [WILDCARD]
    ensures CopiesOver(ms, r) == CountOver(ms, values)
  {
    if ms != [] {
      CopiesAsCount(ms[1..], r, values);
    }
  }

  lemma {:induction false} BucketSizesNext(ms: seq<string>, rules: seq<Rule>)
    requires rules != []
    ensures BucketSizes(ms, rules) == BucketSizes(ms, rules[..|rules| - 1]) + CopiesOver(ms, rules[|rules| - 1])
  {
    if ms != [] {
      BucketSizesNext(ms[1..], rules);
    }
  }

  /** Counted over a list of distinct moods that covers all the rules' moods. */
  lemma {:induction false} CoveredSize(ms: seq<string>, rules: seq<Rule>)
    requires NoDuplicates(ms) && WILDCARD in ms
    requires forall r, m :: r in rules && m in r.conditions.mood ==> m in ms
    ensures BucketSizes(ms, rules) == TotalEntries(rules)
  {
    if rules == [] {
      EmptyBuckets(ms);
    } else {
      CoveredSize(ms, rules[..|rules| - 1]);
      BucketSizesNext(ms, rules);
      CopiesAreEntries(ms, rules[|rules| - 1]);
    }
  }

  lemma EmptyBuckets(ms: seq<string>)
    ensures BucketSizes(ms, []) == 0
  {
  }

  lemma {:induction false} InBucket(rules: seq<Rule>, r: Rule, m: string)
    requires r in rules && Idx(m, r) > 0
    ensures r in Bucket(rules, m)
  {
    var n := |rules| - 1;
    if r == rules[n] {
      assert Repeat(r, Idx(m, r))[0] == r;
    } else {
      InBucket(rules[..n], r, m);
    }
  }

  ghost function SomeKey(keys: set<string>): string
    requires keys != {}
  {
    var k :| k in keys;
    k
  }

  /** The total length of the buckets under these keys. */
  ghost function Sizes(index: map<string, seq<Rule>>, keys: set<string>): nat
    requires keys <= index.Keys
    decreases keys
  {
    if keys == {} then 0
    else
      var k := SomeKey(keys);
      |index[k]| + Sizes(index, keys - {k})
  }

  /** Lists the keys, to count the buckets one by one. */
  lemma {:induction false} ListKeys(index: map<string, seq<Rule>>, rules: seq<Rule>, keys: set<string>)
    returns (ms: seq<string>)
    requires Indexes(index, rules) && keys <= index.Keys
    ensures NoDuplicates(ms) && forall m :: m in ms <==> m in keys
    ensures BucketSizes(ms, rules) == Sizes(index, keys)
    decreases keys
  {
    if keys == {} {
      ms := [];
    } else {
      var k := SomeKey(keys);
      var rest := ListKeys(index, rules, keys - {k});
      ms := [k] + rest;
      assert ms[1..] == rest;
      assert Lookup(index, k) == Bucket(rules, k);
    }
  }

  lemma {:induction false} EmptyBucketAtEnd(ms: seq<string>, rules: seq<Rule>, m: string)
    requires Bucket(rules, m) == []
    ensures BucketSizes(ms + [m], rules) == BucketSizes(ms, rules)
  {
    if ms == [] {
      assert [m][1..] == [];
    } else {
      EmptyBucketAtEnd(ms[1..], rules, m);
      assert (ms + [m])[1..] == ms[1..] + [m];
    }
  }

  /** All the buckets of an index together hold one entry per listed mood of each rule,
      and one for each rule without moods. */
  lemma IndexSize(index: map<string, seq<Rule>>, rules: seq<Rule>)
    requires Indexes(index, rules)
    ensures Sizes(index, index.Keys) == TotalEntries(rules)
  {
    var ms := ListKeys(index, rules, index.Keys);
    forall r, m | r in rules && m in r.conditions.mood ensures m in ms {
      assert multiset(r.conditions.mood)[m] > 0;
      InBucket(rules, r, m);
      assert Lookup(index, m) == Bucket(rules, m);
    }
    if WILDCARD in index {
      CoveredSize(ms, rules);
    } else {
      assert Lookup(index, WILDCARD) == Bucket(rules, WILDCARD);
      EmptyBucketAtEnd(ms, rules, WILDCARD);
      CoveredSize(ms + [WILDCARD], rules);
    }
  }
}
