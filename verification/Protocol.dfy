/**
 Recommend requests, rule-update handlers, the rule store and the cache, running against
 each other. Every locked section of the service is one step, and steps of any number of
 requests and handlers interleave freely.
 */
module Protocol {
  import opened CacheKeys
  import opened Engine
  import opened KeyCoverage
  import opened Rules
  import opened Scoring
  import opened Wrappers
  import Cache

  /** The time to live of cache entries, and the product catalogue. */
  datatype Config = Config(ttl: nat, catalogue: Filters -> seq<Product>)

  datatype Request = Request(
    userId: string,
    timeOfDay: string,
    weather: string,
    occasion: string,
    preferences: map<string, string>,
    historyTags: seq<string>)

  function ContextOf(mood: string, req: Request): MatchContext {
    MatchContext(mood, req.timeOfDay, req.weather, req.occasion, req.preferences, req.historyTags)
  }

  function KeyFor(mood: string, req: Request, version: int): CacheKey {
    CacheKey(mood, req.timeOfDay, req.weather, req.userId, version)
  }

  /** What each of the six conditions of a rule sees of a request and its user's mood. */
  lemma ConditionsSeeTheRequest(c: Conditions, mood: string, req: Request)
    ensures var ctx := ContextOf(mood, req);
      && (Holds(c, ctx, Mood) <==> mood in c.mood)
      && (Holds(c, ctx, TimeOfDay) <==> req.timeOfDay in c.timeOfDay)
      && (Holds(c, ctx, Weather) <==> req.weather in c.weather)
      && (Holds(c, ctx, Occasion) <==> req.occasion in c.occasion)
      && (Holds(c, ctx, Preferences) <==>
            forall k :: k in c.preferences ==> k in req.preferences && req.preferences[k] == c.preferences[k])
      && (Holds(c, ctx, HistoryTags) <==> exists t :: t in c.tags && t in req.historyTags)
  {
  }

  /** The key a request is cached under, as text. */
  lemma KeyOfRequest(mood: string, req: Request, version: int)
    ensures KeyString(KeyFor(mood, req, version)) ==
            "recommendation:" + mood + ":" + req.timeOfDay + ":" + req.weather + ":" + req.userId + ":v" + Decimal(version)
  {
  }

  /** A request that knows its mood and has formed its cache key. */
  datatype Work = Work(req: Request, mood: string, key: CacheKey)

  /** What one evaluation used and found. The service keeps the version; the rules, and
      the number of index swaps that came before, are kept here for the proofs. */
  datatype Computation = Computation(rules: seq<Rule>, version: int, swap: nat, matched: seq<Rule>)

  /** A cached answer, with the request that stored it. */
  datatype Value = Value(recommendations: seq<Recommendation>, setter: Work, comp: Computation)

  datatype Answer =
    | Refused
    | NoMatch(work: Work, comp: Computation)
    | FromCache(work: Work, value: Value)
    | Computed(value: Value)

  /** Where a request stands between two locked sections. */
  datatype Thread =
    | Arrived(req: Request)
    | HaveMood(req: Request, mood: string)
    | HaveKey(work: Work)
    | Missed(work: Work)
    | Evaluated(work: Work, comp: Computation)
    | Storing(value: Value)
    | Answered(answer: Answer)

  /** Where a rule-update handler stands. */
  datatype Reloading =
    | Started
    | HaveRules(rules: seq<Rule>)
    | HaveBoth(rules: seq<Rule>, version: int)
    | Swapped(swap: nat)

  /** published remembers which rules the store ever showed under each version. */
  datatype State = State(
    now: int,
    dbRules: seq<Rule>,
    dbVersion: int,
    published: map<int, seq<Rule>>,
    rules: seq<Rule>,
    version: int,
    swaps: nat,
    store: Cache.Store<Value>,
    threads: map<nat, Thread>,
    reloads: map<nat, Reloading>)

  datatype Step =
    | Tick(elapsed: nat)
    | ChangeRules(rules: seq<Rule>, version: int)
    | StartReload(id: nat)
    | ReadRules(id: nat)
    | ReadVersion(id: nat)
    | FailReload(id: nat)
    | Swap(id: nat)
    | ClearCache(id: nat)
    | Arrive(id: nat, req: Request)
    | GetMood(id: nat, mood: string)
    | Refuse(id: nat)
    | MakeKey(id: nat)
    | LookUp(id: nat)
    | Evaluate(id: nat, matched: seq<Rule>)
    | Fetch(id: nat)
    | Store(id: nat)
    | CleanUp

  ghost predicate Enabled(s: State, step: Step) {
    match step
    case Tick(_) => true
    case ChangeRules(_, _) => true
    case StartReload(id) => id !in s.reloads
    case ReadRules(id) => id in s.reloads && s.reloads[id].Started?
    case ReadVersion(id) => id in s.reloads && s.reloads[id].HaveRules?
    case FailReload(id) => id in s.reloads && (s.reloads[id].Started? || s.reloads[id].HaveRules?)
    case Swap(id) => id in s.reloads && s.reloads[id].HaveBoth?
    case ClearCache(id) => id in s.reloads && s.reloads[id].Swapped?
    case Arrive(id, req) => id !in s.threads && req.userId != ""
    case GetMood(id, _) => id in s.threads && s.threads[id].Arrived?
    case Refuse(id) => id in s.threads && (s.threads[id].Arrived? || s.threads[id].Evaluated?)
    case MakeKey(id) => id in s.threads && s.threads[id].HaveMood?
    case LookUp(id) => id in s.threads && s.threads[id].HaveKey?
    case Evaluate(id, matched) =>
      && id in s.threads && s.threads[id].Missed?
      && var w := s.threads[id].work;
      && Evaluation(s.rules, ContextOf(w.mood, w.req), matched)
    case Fetch(id) => id in s.threads && s.threads[id].Evaluated?
    case Store(id) => id in s.threads && s.threads[id].Storing?
    case CleanUp => true
  }

  function Found(s: State, w: Work): Option<Value> {
    Cache.GetAt(s.store, KeyString(w.key), s.now)
  }

  /** This step is a look-up that finds an answer. */
  ghost predicate Hit(s: State, step: Step) {
    && step.LookUp? && Enabled(s, step)
    && Found(s, s.threads[step.id].work).Some?
  }

  /** The request that looks up, and what it is served. */
  ghost function Looking(s: State, step: Step): Work
    requires Hit(s, step)
  {
    s.threads[step.id].work
  }

  ghost function Served(s: State, step: Step): Value
    requires Hit(s, step)
  {
    Found(s, Looking(s, step)).value
  }

  ghost function After(c: Config, s: State, step: Step): State
    requires Enabled(s, step)
  {
    match step
    case Tick(elapsed) => s.(now := s.now + elapsed)
    case ChangeRules(rules, version) =>
      s.(dbRules := rules, dbVersion := version, published := s.published[version := rules])
    case StartReload(id) => s.(reloads := s.reloads[id := Started])
    case ReadRules(id) => s.(reloads := s.reloads[id := HaveRules(s.dbRules)])
    case ReadVersion(id) => s.(reloads := s.reloads[id := HaveBoth(s.reloads[id].rules, s.dbVersion)])
    case FailReload(id) => s.(reloads := s.reloads - {id})
    case Swap(id) =>
      s.(rules := s.reloads[id].rules, version := s.reloads[id].version, swaps := s.swaps + 1,
         reloads := s.reloads[id := Swapped(s.swaps + 1)])
    case ClearCache(id) =>
      s.(store := Cache.Apply(s.store, c.ttl, Cache.Event(Cache.Invalidate("*"), s.now)), reloads := s.reloads - {id})
    case Arrive(id, req) => s.(threads := s.threads[id := Arrived(req)])
    case GetMood(id, mood) => s.(threads := s.threads[id := HaveMood(s.threads[id].req, mood)])
    case Refuse(id) => s.(threads := s.threads[id := Answered(Refused)])
    case MakeKey(id) =>
      var t := s.threads[id];
      s.(threads := s.threads[id := HaveKey(Work(t.req, t.mood, KeyFor(t.mood, t.req, s.version)))])
    case LookUp(id) =>
      var w := s.threads[id].work;
      s.(threads := s.threads[id := if Found(s, w).Some? then Answered(FromCache(w, Found(s, w).value)) else Missed(w)])
    case Evaluate(id, matched) =>
      var w := s.threads[id].work;
      var comp := Computation(s.rules, s.version, s.swaps, matched);
      s.(threads := s.threads[id := if matched == [] then Answered(NoMatch(w, comp)) else Evaluated(w, comp)])
    case Fetch(id) =>
      var t := s.threads[id];
      s.(threads := s.threads[id := Storing(Value(Recommended(c, t.comp.matched), t.work, t.comp))])
    case Store(id) =>
      var v := s.threads[id].value;
      s.(store := Cache.Apply(s.store, c.ttl, Cache.Event(Cache.Set(v.setter.key, v), s.now)),
         threads := s.threads[id := Answered(Computed(v))])
    case CleanUp => s.(store := Cache.Apply(s.store, c.ttl, Cache.Event(Cache.Cleanup, s.now)))
  }

  /** The products recommended for these matched rules. */
  function Recommended(c: Config, matched: seq<Rule>): seq<Recommendation> {
    Ranked(c.catalogue(FiltersOf(matched)), matched)
  }

  /** What a request that evaluated to matched is answered; no match recommends nothing. */
  function Replied(c: Config, matched: seq<Rule>): seq<Recommendation> {
    if matched == [] then [] else Recommended(c, matched)
  }

  /** The rules have been loaded once and nothing else has happened. */
  ghost predicate Init(s: State) {
    && s.published == map[s.dbVersion := s.dbRules]
    && s.rules == s.dbRules && s.version == s.dbVersion && s.swaps == 0
    && s.store == map[] && s.threads == map[] && s.reloads == map[]
  }

  ghost predicate Run(c: Config, states: seq<State>, steps: seq<Step>) {
    && |states| == |steps| + 1
    && Init(states[0])
    && forall i :: 0 <= i < |steps| ==> Enabled(states[i], steps[i]) && states[i + 1] == After(c, states[i], steps[i])
  }

  // ----- Every answer comes from an evaluation of somebody's request -----

  ghost predicate WorkOk(w: Work) {
    w.key == KeyFor(w.mood, w.req, w.key.ruleVersion)
  }

  ghost predicate CompOk(w: Work, comp: Computation) {
    WorkOk(w) && Evaluation(comp.rules, ContextOf(w.mood, w.req), comp.matched)
  }

  /** The recommendations are those of the request that stored them, and it had a match. */
  ghost predicate Genuine(c: Config, v: Value) {
    CompOk(v.setter, v.comp) && v.comp.matched != [] && v.recommendations == Recommended(c, v.comp.matched)
  }

  ghost predicate ThreadGenuine(c: Config, t: Thread) {
    match t
    case Arrived(_) => true
    case HaveMood(_, _) => true
    case HaveKey(w) => WorkOk(w)
    case Missed(w) => WorkOk(w)
    case Evaluated(w, comp) => CompOk(w, comp) && comp.matched != []
    case Storing(v) => Genuine(c, v)
    case Answered(Refused) => true
    case Answered(NoMatch(w, comp)) => CompOk(w, comp) && comp.matched == []
    case Answered(FromCache(w, v)) => WorkOk(w) && Genuine(c, v) && KeyString(w.key) == KeyString(v.setter.key)
    case Answered(Computed(v)) => Genuine(c, v)
  }

  ghost predicate EntryGenuine(c: Config, s: State, k: string)
    requires k in s.store
  {
    var e := s.store[k];
    Genuine(c, e.value) && KeyString(e.value.setter.key) == k && e.expiration <= s.now + c.ttl
  }

  ghost predicate GenuineInv(c: Config, s: State) {
    && (forall id :: id in s.threads ==> ThreadGenuine(c, s.threads[id]))
    && (forall k :: k in s.store ==> EntryGenuine(c, s, k))
  }

  /** What a step can do to the store: an entry after it was there before, or the step
      stored it; and clearing leaves nothing. */
  lemma StoreAfter(c: Config, s: State, step: Step, s': State, k: string)
    requires Enabled(s, step) && s' == After(c, s, step) && k in s'.store
    ensures (k in s.store && s'.store[k] == s.store[k] && !step.ClearCache?) || StoredAt(c, s, step, k, s'.store[k])
  {
  }

  /** This step stores exactly this entry under this key. */
  ghost predicate StoredAt(c: Config, s: State, step: Step, k: string, e: Cache.Entry<Value>) {
    && step.Store? && step.id in s.threads
    && s.threads[step.id] == Storing(e.value)
    && KeyString(e.value.setter.key) == k
    && e.expiration == s.now + c.ttl
  }

  lemma LookUpGenuine(c: Config, s: State, id: nat)
    requires GenuineInv(c, s) && Enabled(s, LookUp(id))
    ensures ThreadGenuine(c, After(c, s, LookUp(id)).threads[id])
  {
    var w := s.threads[id].work;
    assert ThreadGenuine(c, s.threads[id]);
    if Found(s, w).Some? {
      assert EntryGenuine(c, s, KeyString(w.key));
    }
  }

  lemma ThreadGenuineKept(c: Config, s: State, step: Step, id: nat)
    requires GenuineInv(c, s) && Enabled(s, step) && id in After(c, s, step).threads
    ensures ThreadGenuine(c, After(c, s, step).threads[id])
  {
    if id in s.threads {
      assert ThreadGenuine(c, s.threads[id]);
    }
    if step.LookUp? && id == step.id {
      LookUpGenuine(c, s, id);
    }
  }

  lemma EntryGenuineKept(c: Config, s: State, step: Step, k: string)
    requires GenuineInv(c, s) && Enabled(s, step) && k in After(c, s, step).store
    ensures EntryGenuine(c, After(c, s, step), k)
  {
    var s' := After(c, s, step);
    StoreAfter(c, s, step, s', k);
    if StoredAt(c, s, step, k, s'.store[k]) {
      assert ThreadGenuine(c, s.threads[step.id]);
    } else {
      assert EntryGenuine(c, s, k);
      ClockForward(c, s, step);
    }
  }

  lemma ClockForward(c: Config, s: State, step: Step)
    requires Enabled(s, step)
    ensures s.now <= After(c, s, step).now
  {
  }

  lemma GenuineKept(c: Config, s: State, step: Step)
    requires GenuineInv(c, s) && Enabled(s, step)
    ensures GenuineInv(c, After(c, s, step))
  {
    var s' := After(c, s, step);
    forall id | id in s'.threads ensures ThreadGenuine(c, s'.threads[id]) {
      ThreadGenuineKept(c, s, step, id);
    }
    forall k | k in s'.store ensures EntryGenuine(c, s', k) {
      EntryGenuineKept(c, s, step, k);
    }
  }

  lemma {:induction false} GenuineAlways(c: Config, states: seq<State>, steps: seq<Step>, n: nat)
    requires Run(c, states, steps) && n < |states|
    ensures GenuineInv(c, states[n])
  {
    if n > 0 {
      GenuineAlways(c, states, steps, n - 1);
      GenuineKept(c, states[n - 1], steps[n - 1]);
    }
  }

  // ----- Cache transparency -----

  /** Evaluating the same request twice on the same rules asks the catalogue the same
      question and gives the same ranked products and scores, however ties fall. */
  lemma RepeatedEvaluationsAgree(c: Config, rules: seq<Rule>, ctx: MatchContext, matched: seq<Rule>, again: seq<Rule>)
    requires Evaluation(rules, ctx, matched) && Evaluation(rules, ctx, again)
    ensures FiltersOf(matched) == FiltersOf(again)
    ensures SameUpToNames(Recommended(c, matched), Recommended(c, again))
  {
    TieBreaksDoNotMatter(matched, again, c.catalogue(FiltersOf(matched)));
  }

  /** The two requests agree on everything that the key leaves out, or every rule is
      determined by the key. */
  ghost predicate SameToRules(rules: seq<Rule>, a: Request, b: Request) {
    || (a.occasion == b.occasion && a.preferences == b.preferences && a.historyTags == b.historyTags)
    || (forall r :: r in rules ==> KeyDetermined(r))
  }

  /** The answer is, up to the order of rule names, what evaluating the request on these
      rules would give, whatever way ties are broken. */
  ghost predicate AnswersAs(c: Config, rules: seq<Rule>, w: Work, v: Value) {
    forall matched :: Evaluation(rules, ContextOf(w.mood, w.req), matched) ==>
      matched != [] && SameUpToNames(v.recommendations, Replied(c, matched))
  }

  /** A request and a genuine entry under its key agree when the keys are free of colons
      but for one fixed field, and the rules behind the entry do not tell the two requests
      apart by what the key leaves out; CounterRuns shows what happens otherwise. */
  lemma GenuineAnswers(c: Config, w: Work, v: Value, f: nat)
    requires WorkOk(w) && Genuine(c, v) && KeyString(w.key) == KeyString(v.setter.key)
    requires f < 4 && ColonFreeBut(w.key, f) && ColonFreeBut(v.setter.key, f)
    requires SameToRules(v.comp.rules, w.req, v.setter.req)
    ensures AnswersAs(c, v.comp.rules, w, v)
  {
    KeysInjective(w.key, v.setter.key, f);
    var ctx, other := ContextOf(w.mood, w.req), ContextOf(v.setter.mood, v.setter.req);
    if forall r :: r in v.comp.rules ==> KeyDetermined(r) {
      KeyDeterminesEvaluation(v.comp.rules);
      assert SameKeyed(ctx, other);
      assert SameEvaluations(v.comp.rules, ctx, other);
    } else {
      assert ctx == other;
    }
    forall matched | Evaluation(v.comp.rules, ctx, matched)
      ensures matched != [] && SameUpToNames(v.recommendations, Replied(c, matched))
    {
      RepeatedEvaluationsAgree(c, v.comp.rules, ctx, v.comp.matched, matched);
      assert multiset(matched) == multiset(v.comp.matched);
      assert v.comp.matched[0] in multiset(matched);
    }
  }

  /** Over every run, with no discipline at all: a hit is what evaluating the request on
      the entry's rules would give. */
  lemma HitsFitTheirRules(c: Config, states: seq<State>, steps: seq<Step>, look: nat, f: nat)
    requires Run(c, states, steps) && look < |steps| && Hit(states[look], steps[look])
    requires var w, v := Looking(states[look], steps[look]), Served(states[look], steps[look]);
      && f < 4 && ColonFreeBut(w.key, f) && ColonFreeBut(v.setter.key, f)
      && SameToRules(v.comp.rules, w.req, v.setter.req)
    ensures var w, v := Looking(states[look], steps[look]), Served(states[look], steps[look]);
      AnswersAs(c, v.comp.rules, w, v)
  {
    GenuineAlways(c, states, steps, look);
    var s, step := states[look], steps[look];
    KeyedWorkOk(c, s, step.id);
    FoundGenuine(c, s, KeyString(Looking(s, step).key), Served(s, step));
    GenuineAnswers(c, Looking(s, step), Served(s, step), f);
  }

  lemma KeyedWorkOk(c: Config, s: State, id: nat)
    requires GenuineInv(c, s) && id in s.threads && s.threads[id].HaveKey?
    ensures WorkOk(s.threads[id].work)
  {
    assert ThreadGenuine(c, s.threads[id]);
  }

  lemma FoundGenuine(c: Config, s: State, k: string, v: Value)
    requires GenuineInv(c, s) && Cache.GetAt(s.store, k, s.now) == Some(v)
    ensures Genuine(c, v) && KeyString(v.setter.key) == k
  {
    assert EntryGenuine(c, s, k);
  }

  // ----- Freshness, when the rule store and the handlers are disciplined -----

  /** What is expected of the store and the handlers: versions grow with every change, no
      change falls between the two reads of a reload, and no reload starts while another
      one has not swapped yet. */
  datatype Discipline = Growing | Snapshots | Apart

  ghost predicate Obeys(d: Discipline, s: State, step: Step) {
    match d
    case Growing => step.ChangeRules? ==> step.version > s.dbVersion
    case Snapshots => step.ChangeRules? ==> forall id :: id in s.reloads ==> !s.reloads[id].HaveRules?
    case Apart => step.StartReload? ==> forall id :: id in s.reloads ==> s.reloads[id].Swapped?
  }

  ghost predicate Disciplined(s: State, step: Step) {
    Obeys(Growing, s, step) && Obeys(Snapshots, s, step) && Obeys(Apart, s, step)
  }

  ghost predicate DisciplinedRun(c: Config, states: seq<State>, steps: seq<Step>) {
    Run(c, states, steps) && forall i :: 0 <= i < |steps| ==> Disciplined(states[i], steps[i])
  }

  /** These are the rules the store published under this version. */
  ghost predicate Labelled(s: State, version: int, rules: seq<Rule>) {
    version in s.published && s.published[version] == rules
  }

  ghost predicate CompFresh(s: State, w: Work, comp: Computation) {
    Labelled(s, comp.version, comp.rules) && w.key.ruleVersion <= comp.version <= s.version
  }

  ghost predicate ThreadFresh(s: State, t: Thread) {
    match t
    case Arrived(_) => true
    case HaveMood(_, _) => true
    case HaveKey(w) => w.key.ruleVersion <= s.version
    case Missed(w) => w.key.ruleVersion <= s.version
    case Evaluated(w, comp) => CompFresh(s, w, comp)
    case Storing(v) => CompFresh(s, v.setter, v.comp)
    case Answered(Refused) => true
    case Answered(NoMatch(w, comp)) => CompFresh(s, w, comp)
    case Answered(FromCache(w, v)) => CompFresh(s, w, v.comp)
    case Answered(Computed(v)) => CompFresh(s, v.setter, v.comp)
  }

  ghost predicate ReloadFresh(s: State, r: Reloading) {
    match r
    case Started => true
    case HaveRules(rules) => rules == s.dbRules
    case HaveBoth(rules, version) => Labelled(s, version, rules) && s.version <= version
    case Swapped(_) => true
  }

  ghost predicate LabelsOk(s: State) {
    && Labelled(s, s.dbVersion, s.dbRules)
    && (forall v :: v in s.published ==> v <= s.dbVersion)
    && Labelled(s, s.version, s.rules)
  }

  ghost predicate OneBeforeSwap(s: State) {
    forall i, j :: i in s.reloads && j in s.reloads && !s.reloads[i].Swapped? && !s.reloads[j].Swapped? ==> i == j
  }

  ghost predicate FreshInv(s: State) {
    && LabelsOk(s)
    && OneBeforeSwap(s)
    && (forall i :: i in s.reloads ==> ReloadFresh(s, s.reloads[i]))
    && (forall id :: id in s.threads ==> ThreadFresh(s, s.threads[id]))
    && (forall k :: k in s.store ==> CompFresh(s, s.store[k].value.setter, s.store[k].value.comp))
  }

  /** Nothing that was labelled loses its label, and the engine's version does not go back. */
  ghost predicate KeepsLabels(s: State, s': State) {
    && s.version <= s'.version
    && forall v, rules :: Labelled(s, v, rules) ==> Labelled(s', v, rules)
  }

  lemma LabelsKept(c: Config, s: State, step: Step)
    requires FreshInv(s) && Enabled(s, step) && Disciplined(s, step)
    ensures var s' := After(c, s, step);
      LabelsOk(s') && KeepsLabels(s, s')
  {
    if step.Swap? {
      assert ReloadFresh(s, s.reloads[step.id]);
    }
  }

  lemma ReloadsKept(c: Config, s: State, step: Step)
    requires FreshInv(s) && Enabled(s, step) && Disciplined(s, step)
    ensures var s' := After(c, s, step);
      && OneBeforeSwap(s')
      && (forall i :: i in s'.reloads ==> ReloadFresh(s', s'.reloads[i]))
  {
    var s' := After(c, s, step);
    LabelsKept(c, s, step);
    forall i | i in s'.reloads ensures ReloadFresh(s', s'.reloads[i]) {
      assert i in s.reloads ==> ReloadFresh(s, s.reloads[i]);
    }
  }

  /** Labels that are kept keep a thread fresh. */
  lemma SameThreadKept(s: State, s': State, t: Thread)
    requires ThreadFresh(s, t) && KeepsLabels(s, s')
    ensures ThreadFresh(s', t)
  {
  }

  lemma LookUpFresh(c: Config, s: State, id: nat)
    requires GenuineInv(c, s) && FreshInv(s) && Enabled(s, LookUp(id))
    ensures var s' := After(c, s, LookUp(id));
      ThreadFresh(s', s'.threads[id])
  {
    assert ThreadFresh(s, s.threads[id]);
    var w := s.threads[id].work;
    if Found(s, w).Some? {
      assert EntryGenuine(c, s, KeyString(w.key));
      VersionRoundTrip(w.key);
      VersionRoundTrip(Found(s, w).value.setter.key);
    }
  }

  lemma ThreadKept(c: Config, s: State, step: Step, id: nat)
    requires GenuineInv(c, s) && FreshInv(s) && Enabled(s, step) && Disciplined(s, step)
    requires id in After(c, s, step).threads
    ensures ThreadFresh(After(c, s, step), After(c, s, step).threads[id])
  {
    var s' := After(c, s, step);
    LabelsKept(c, s, step);
    if id in s.threads && s'.threads[id] == s.threads[id] {
      SameThreadKept(s, s', s.threads[id]);
    } else if step.LookUp? {
      LookUpFresh(c, s, id);
    } else if !step.Arrive? {
      assert ThreadFresh(s, s.threads[id]);
    }
  }

  lemma EntriesKept(c: Config, s: State, step: Step)
    requires FreshInv(s) && Enabled(s, step) && Disciplined(s, step)
    ensures var s' := After(c, s, step);
      forall k :: k in s'.store ==> CompFresh(s', s'.store[k].value.setter, s'.store[k].value.comp)
  {
    LabelsKept(c, s, step);
    var s' := After(c, s, step);
    forall k | k in s'.store ensures CompFresh(s', s'.store[k].value.setter, s'.store[k].value.comp) {
      StoreAfter(c, s, step, s', k);
      if step.Store? {
        assert ThreadFresh(s, s.threads[step.id]);
      }
    }
  }

  lemma {:induction false} FreshAlways(c: Config, states: seq<State>, steps: seq<Step>, n: nat)
    requires DisciplinedRun(c, states, steps) && n < |states|
    ensures GenuineInv(c, states[n]) && FreshInv(states[n])
  {
    GenuineAlways(c, states, steps, n);
    if n > 0 {
      FreshAlways(c, states, steps, n - 1);
      LabelsKept(c, states[n - 1], steps[n - 1]);
      ReloadsKept(c, states[n - 1], steps[n - 1]);
      EntriesKept(c, states[n - 1], steps[n - 1]);
      forall id | id in states[n].threads ensures ThreadFresh(states[n], states[n].threads[id]) {
        ThreadKept(c, states[n - 1], steps[n - 1], id);
      }
    }
  }

  /** Over every disciplined run: a request that looks the cache up under version v is
      only ever served an answer computed on rules of version v or later, though not later
      than the engine's, and those are exactly the rules the store published under that
      version. */
  lemma HitsAreFresh(c: Config, states: seq<State>, steps: seq<Step>, look: nat)
    requires DisciplinedRun(c, states, steps) && look < |steps| && Hit(states[look], steps[look])
    ensures var s, w, v := states[look], Looking(states[look], steps[look]), Served(states[look], steps[look]);
      && w.key.ruleVersion <= v.comp.version <= s.version
      && v.comp.version in s.published
      && s.published[v.comp.version] == v.comp.rules
  {
    FreshAlways(c, states, steps, look);
    FreshHit(c, states[look], steps[look]);
  }

  lemma FreshHit(c: Config, s: State, step: Step)
    requires GenuineInv(c, s) && FreshInv(s) && Hit(s, step)
    ensures CompFresh(s, Looking(s, step), Served(s, step).comp)
  {
    LookUpFresh(c, s, step.id);
  }

  /** Over every disciplined run: a request that looks up under the engine's version is
      served what a fresh evaluation on the engine's rules would give it at that moment. */
  lemma HitsAreTransparent(c: Config, states: seq<State>, steps: seq<Step>, look: nat, f: nat)
    requires DisciplinedRun(c, states, steps) && look < |steps| && Hit(states[look], steps[look])
    requires var s, w, v := states[look], Looking(states[look], steps[look]), Served(states[look], steps[look]);
      && w.key.ruleVersion == s.version
      && f < 4 && ColonFreeBut(w.key, f) && ColonFreeBut(v.setter.key, f)
      && SameToRules(s.rules, w.req, v.setter.req)
    ensures var s, w, v := states[look], Looking(states[look], steps[look]), Served(states[look], steps[look]);
      AnswersAs(c, s.rules, w, v)
  {
    FreshAlways(c, states, steps, look);
    FreshHit(c, states[look], steps[look]);
    CurrentRules(states[look], Looking(states[look], steps[look]), Served(states[look], steps[look]).comp);
    HitsFitTheirRules(c, states, steps, look, f);
  }

  /** What is as fresh as the engine's version was computed on the engine's rules. */
  lemma CurrentRules(s: State, w: Work, comp: Computation)
    requires LabelsOk(s) && CompFresh(s, w, comp) && w.key.ruleVersion == s.version
    ensures comp.rules == s.rules
  {
  }

  // ----- Bounded staleness, whatever versions and reloads do -----

  /** The evaluation is under way or its result not yet stored. */
  ghost predicate InFlight(t: Thread, comp: Computation) {
    (t.Evaluated? && t.comp == comp) || (t.Storing? && t.value.comp == comp)
  }

  /** Every entry was stored by some step of the run, and the cache has not been cleared
      since. */
  lemma {:induction false} EntryHistory(c: Config, states: seq<State>, steps: seq<Step>, n: nat, k: string)
    returns (i: nat)
    requires Run(c, states, steps) && n < |states| && k in states[n].store
    ensures i < n && StoredAt(c, states[i], steps[i], k, states[n].store[k])
    ensures forall j :: i < j < n ==> !steps[j].ClearCache?
    decreases n
  {
    assert n > 0;
    StoreAfter(c, states[n - 1], steps[n - 1], states[n], k);
    if StoredAt(c, states[n - 1], steps[n - 1], k, states[n].store[k]) {
      i := n - 1;
    } else {
      i := EntryHistory(c, states, steps, n - 1, k);
    }
  }

  lemma InFlightBefore(c: Config, s: State, step: Step, s': State, id: nat, comp: Computation)
    requires Enabled(s, step) && s' == After(c, s, step)
    requires id in s'.threads && InFlight(s'.threads[id], comp)
    ensures (id in s.threads && InFlight(s.threads[id], comp)) || EvaluatedAt(s, step, id, comp)
  {
  }

  ghost predicate EvaluatedAt(s: State, step: Step, id: nat, comp: Computation) {
    step == Evaluate(id, comp.matched) && comp == Computation(s.rules, s.version, s.swaps, comp.matched)
  }

  /** Every computation in flight was made by an Evaluate step of the same request, on the
      rules, the version and the swap count of that moment. */
  lemma {:induction false} ComputationHistory(c: Config, states: seq<State>, steps: seq<Step>, n: nat, id: nat,
                                              comp: Computation)
    returns (i: nat)
    requires Run(c, states, steps) && n < |states| && id in states[n].threads && InFlight(states[n].threads[id], comp)
    ensures i < n && EvaluatedAt(states[i], steps[i], id, comp)
    decreases n
  {
    assert n > 0;
    InFlightBefore(c, states[n - 1], steps[n - 1], states[n], id, comp);
    if EvaluatedAt(states[n - 1], steps[n - 1], id, comp) {
      i := n - 1;
    } else {
      i := ComputationHistory(c, states, steps, n - 1, id, comp);
    }
  }

  /** Over every run: when a look-up returns an answer computed before the g-th swap,
      although the handler of the g-th swap has cleared the cache since, then the answer
      was stored after that clear, no more than ttl ago, by a request that had evaluated
      the rules before the swap. */
  lemma StalenessIsBounded(c: Config, states: seq<State>, steps: seq<Step>, clear: nat, look: nat)
      returns (eval: nat, stored: nat)
    requires Run(c, states, steps) && clear < look < |steps|
    requires steps[clear].ClearCache? && Hit(states[look], steps[look])
    requires Served(states[look], steps[look]).comp.swap < states[clear].reloads[steps[clear].id].swap
    ensures clear < stored < look && eval < stored
    ensures var v := Served(states[look], steps[look]);
      && steps[stored].Store? && states[stored].threads[steps[stored].id] == Storing(v)
      && steps[eval] == Evaluate(steps[stored].id, v.comp.matched)
      && states[eval].swaps < states[clear].reloads[steps[clear].id].swap
      && states[eval].rules == v.comp.rules
    ensures states[look].now <= states[stored].now + c.ttl
  {
    var k := KeyString(Looking(states[look], steps[look]).key);
    stored := EntryHistory(c, states, steps, look, k);
    NotBeforeClear(c, states, steps, clear, stored, look, k);
    var v := Served(states[look], steps[look]);
    assert InFlight(states[stored].threads[steps[stored].id], v.comp);
    eval := ComputationHistory(c, states, steps, stored, steps[stored].id, v.comp);
  }

  lemma NotBeforeClear(c: Config, states: seq<State>, steps: seq<Step>, clear: nat, stored: nat, look: nat, k: string)
    requires Run(c, states, steps) && clear < look < |states| && stored < look
    requires steps[clear].ClearCache? && steps[stored].Store?
    requires forall j :: stored < j < look ==> !steps[j].ClearCache?
    ensures clear < stored
  {
  }

  // ----- Hits take effect at one moment of the request -----

  /** A request that holds a key formed it, at the engine's version of that moment. */
  lemma {:induction false} KeyHistory(c: Config, states: seq<State>, steps: seq<Step>, n: nat, id: nat)
    returns (i: nat)
    requires Run(c, states, steps) && n < |states| && id in states[n].threads && states[n].threads[id].HaveKey?
    ensures i < n && steps[i] == MakeKey(id) && states[i].version == states[n].threads[id].work.key.ruleVersion
    decreases n
  {
    assert n > 0;
    if steps[n - 1] == MakeKey(id) {
      i := n - 1;
    } else {
      assert id in states[n - 1].threads && states[n - 1].threads[id] == states[n].threads[id];
      i := KeyHistory(c, states, steps, n - 1, id);
    }
  }

  lemma LabelsAcross(s: State, s': State, s'': State)
    requires KeepsLabels(s, s') && KeepsLabels(s', s'')
    ensures KeepsLabels(s, s'')
  {
  }

  lemma LabelsStep(c: Config, states: seq<State>, steps: seq<Step>, n: nat)
    requires DisciplinedRun(c, states, steps) && n < |steps|
    ensures KeepsLabels(states[n], states[n + 1])
  {
    FreshAlways(c, states, steps, n);
    LabelsKept(c, states[n], steps[n]);
  }

  lemma {:induction false} LabelsThrough(states: seq<State>, m: nat, n: nat)
    requires m <= n < |states| && KeepsLabels(states[m], states[m])
    requires forall i :: m <= i < n ==> KeepsLabels(states[i], states[i + 1])
    ensures KeepsLabels(states[m], states[n])
  {
    if m < n {
      LabelsThrough(states, m, n - 1);
      LabelsAcross(states[m], states[n - 1], states[n - 1 + 1]);
    }
  }

  /** Over disciplined runs versions do not go back and labels stay. */
  lemma LabelsStay(c: Config, states: seq<State>, steps: seq<Step>, m: nat, n: nat)
    requires DisciplinedRun(c, states, steps) && m <= n < |states|
    ensures KeepsLabels(states[m], states[n])
  {
    forall i | m <= i < n ensures KeepsLabels(states[i], states[i + 1]) {
      LabelsStep(c, states, steps, i);
    }
    LabelsThrough(states, m, n);
  }

  /** Over every disciplined run, even when the rules are replaced while the request is
      under way: there is a moment between the forming of its key and its look-up at which
      the engine held the very rules, under the very version, of the answer it is served. */
  lemma HitsBelongToTheRequest(c: Config, states: seq<State>, steps: seq<Step>, look: nat)
      returns (made: nat, moment: nat)
    requires DisciplinedRun(c, states, steps) && look < |steps| && Hit(states[look], steps[look])
    ensures made <= moment <= look && made < look && steps[made] == MakeKey(steps[look].id)
    ensures var v := Served(states[look], steps[look]);
      states[moment].rules == v.comp.rules && states[moment].version == v.comp.version
  {
    var v := Served(states[look], steps[look]);
    made := KeyHistory(c, states, steps, look, steps[look].id);
    var eval := AnswerHistory(c, states, steps, look, KeyString(Looking(states[look], steps[look]).key));
    if made <= eval {
      moment := eval;
    } else {
      moment := made;
      HitsAreFresh(c, states, steps, look);
      SameVersionSameRules(c, states, steps, eval, made);
    }
  }

  /** The rules behind an entry were the engine's at some earlier moment. */
  lemma AnswerHistory(c: Config, states: seq<State>, steps: seq<Step>, n: nat, k: string) returns (eval: nat)
    requires Run(c, states, steps) && n < |states| && k in states[n].store
    ensures eval < n
    ensures var comp := states[n].store[k].value.comp;
      states[eval].rules == comp.rules && states[eval].version == comp.version
  {
    var comp := states[n].store[k].value.comp;
    var stored := EntryHistory(c, states, steps, n, k);
    assert InFlight(states[stored].threads[steps[stored].id], comp);
    eval := ComputationHistory(c, states, steps, stored, steps[stored].id, comp);
  }

  /** In a disciplined run the engine holds the same rules whenever it is at one version. */
  lemma SameVersionSameRules(c: Config, states: seq<State>, steps: seq<Step>, m: nat, n: nat)
    requires DisciplinedRun(c, states, steps) && m <= n < |states|
    ensures states[m].version <= states[n].version
    ensures states[m].version == states[n].version ==> states[m].rules == states[n].rules
  {
    LabelsStay(c, states, steps, m, n);
    FreshAlways(c, states, steps, m);
    FreshAlways(c, states, steps, n);
    assert Labelled(states[m], states[m].version, states[m].rules);
    assert Labelled(states[n], states[n].version, states[n].rules);
  }

  /** So a hit is what a fresh evaluation at some moment of the request would have given. */
  lemma HitsLinearize(c: Config, states: seq<State>, steps: seq<Step>, look: nat, f: nat)
      returns (made: nat, moment: nat)
    requires DisciplinedRun(c, states, steps) && look < |steps| && Hit(states[look], steps[look])
    requires var w, v := Looking(states[look], steps[look]), Served(states[look], steps[look]);
      f < 4 && ColonFreeBut(w.key, f) && ColonFreeBut(v.setter.key, f)
    ensures made <= moment <= look && made < look && steps[made] == MakeKey(steps[look].id)
    ensures var w, v := Looking(states[look], steps[look]), Served(states[look], steps[look]);
      SameToRules(states[moment].rules, w.req, v.setter.req) ==> AnswersAs(c, states[moment].rules, w, v)
  {
    made, moment := HitsBelongToTheRequest(c, states, steps, look);
    var w, v := Looking(states[look], steps[look]), Served(states[look], steps[look]);
    if SameToRules(states[moment].rules, w.req, v.setter.req) {
      HitsFitTheirRules(c, states, steps, look, f);
    }
  }

  // ----- And it ends -----

  /** No computation from before the g-th swap is in flight, and every entry from before
      it expires by the deadline. */
  ghost predicate Settled(s: State, g: nat, deadline: int) {
    && g <= s.swaps
    && (forall id :: id in s.threads ==> ThreadSince(s.threads[id], g))
    && (forall k :: k in s.store ==> s.store[k].value.comp.swap >= g || s.store[k].expiration <= deadline)
  }

  ghost predicate ThreadSince(t: Thread, g: nat) {
    (t.Evaluated? ==> t.comp.swap >= g) && (t.Storing? ==> t.value.comp.swap >= g)
  }

  lemma SettledKept(c: Config, s: State, step: Step, g: nat, deadline: int)
    requires Settled(s, g, deadline) && Enabled(s, step)
    ensures Settled(After(c, s, step), g, deadline)
  {
    var s' := After(c, s, step);
    forall id | id in s'.threads ensures ThreadSince(s'.threads[id], g) {
      assert id in s.threads ==> ThreadSince(s.threads[id], g);
    }
    forall k | k in s'.store ensures s'.store[k].value.comp.swap >= g || s'.store[k].expiration <= deadline {
      StoreAfter(c, s, step, s', k);
      if step.Store? {
        assert ThreadSince(s.threads[step.id], g);
      }
    }
  }

  lemma {:induction false} SettledStays(c: Config, states: seq<State>, steps: seq<Step>, m: nat, n: nat, g: nat,
                                        deadline: int)
    requires Run(c, states, steps) && m <= n < |states| && Settled(states[m], g, deadline)
    ensures Settled(states[n], g, deadline)
    ensures states[m].now <= states[n].now
  {
    if m < n {
      SettledStays(c, states, steps, m, n - 1, g, deadline);
      SettledKept(c, states[n - 1], steps[n - 1], g, deadline);
    }
  }

  /** No request holds a computation from before the g-th swap. */
  ghost predicate Drained(s: State, g: nat) {
    g <= s.swaps && forall id :: id in s.threads ==> ThreadSince(s.threads[id], g)
  }

  /** Over every run, with or without a clear: once the requests that evaluated before the
      g-th swap are done, no look-up more than ttl later returns anything computed before
      that swap. */
  lemma StalenessEnds(c: Config, states: seq<State>, steps: seq<Step>, m: nat, n: nat, g: nat, w: Work)
    requires Run(c, states, steps) && m <= n < |states| && Drained(states[m], g)
    requires states[n].now > states[m].now + c.ttl
    ensures Found(states[n], w).Some? ==> Found(states[n], w).value.comp.swap >= g
  {
    GenuineAlways(c, states, steps, m);
    forall k | k in states[m].store ensures states[m].store[k].expiration <= states[m].now + c.ttl {
      assert EntryGenuine(c, states[m], k);
    }
    SettledStays(c, states, steps, m, n, g, states[m].now + c.ttl);
  }

  /** And if they are done when the handler clears the cache, nothing computed before its
      swap is ever served again. */
  lemma ClearEndsStaleness(c: Config, states: seq<State>, steps: seq<Step>, clear: nat, n: nat, w: Work)
    requires Run(c, states, steps) && clear < |steps| && clear < n < |states|
    requires steps[clear].ClearCache?
    requires Drained(states[clear], states[clear].reloads[steps[clear].id].swap)
    ensures Found(states[n], w).Some? ==>
              Found(states[n], w).value.comp.swap >= states[clear].reloads[steps[clear].id].swap
  {
    var g := states[clear].reloads[steps[clear].id].swap;
    var s := states[clear + 1];
    assert forall k :: k !in s.store;
    SettledStays(c, states, steps, clear + 1, n, g, s.now - 1);
  }
}
