/**
 The request as a method and the request as a thread are the same thing: running the
 steps of one thread without interruption gives the answer and the store that
 MoodRuleServer.Recommend gives; and so for the rule-update handler.
 */
module OneThread {
  import opened CacheKeys
  import opened Engine
  import opened Protocol
  import opened Rules
  import opened Scoring
  import opened Server
  import opened Wrappers
  import Cache

  predicate ByThread(step: Step, id: nat) {
    match step
    case Arrive(i, _) => i == id
    case GetMood(i, _) => i == id
    case Refuse(i) => i == id
    case MakeKey(i) => i == id
    case LookUp(i) => i == id
    case Evaluate(i, _) => i == id
    case Fetch(i) => i == id
    case Store(i) => i == id
    case _ => false
  }

  /** Steps of one thread, one directly after the other. */
  ghost predicate Alone(c: Config, id: nat, s: State, steps: seq<Step>, s': State)
    decreases |steps|
  {
    if steps == [] then s == s'
    else ByThread(steps[0], id) && Enabled(s, steps[0]) && Alone(c, id, After(c, s, steps[0]), steps[1..], s')
  }

  lemma First(c: Config, id: nat, s: State, step: Step, next: State, rest: seq<Step>, s': State)
    returns (steps: seq<Step>)
    requires ByThread(step, id) && Enabled(s, step) && After(c, s, step) == next
    requires Alone(c, id, next, rest, s')
    ensures Alone(c, id, s, steps, s')
  {
    steps := [step] + rest;
    assert steps[1..] == rest;
  }

  // ----- What the thread's state means to the server -----

  ghost function ReplyOf(v: Value): Reply {
    FreshReply(v.comp.rules, v.comp.version, ContextOf(v.setter.mood, v.setter.req), v.comp.matched, v.recommendations)
  }

  /** The server's answer is the thread's. */
  ghost predicate SameAnswer(a: Answer, answer: Result<Reply, Code>) {
    match a
    case Refused => answer.Failure?
    case NoMatch(w, comp) => answer == Success(FreshReply(comp.rules, comp.version, ContextOf(w.mood, w.req), [], []))
    case FromCache(_, v) => answer == Success(ReplyOf(v).(fromCache := true))
    case Computed(v) => answer == Success(ReplyOf(v))
  }

  /** The server's store holds the replies of the values in the state's store. */
  ghost predicate SameStore(s: State, store: Cache.Store<Reply>) {
    && s.store.Keys == store.Keys
    && forall k :: k in store ==> store[k] == Cache.Entry(ReplyOf(s.store[k].value), s.store[k].expiration)
  }

  /** Where both catalogues answer, they answer alike. */
  ghost predicate SameCatalogue(c: Config, products: Option<ProductClient>) {
    products.Some? ==>
      forall f: Filters :: products.value(f).Success? ==> products.value(f).value == c.catalogue(f)
  }

  /** The thread has answered, and nothing but it and the store has changed. */
  ghost predicate Ends(s: State, id: nat, s': State, answer: Result<Reply, Code>, store': Cache.Store<Reply>) {
    && id in s'.threads && s'.threads[id].Answered? && SameAnswer(s'.threads[id].answer, answer)
    && SameStore(s', store')
    && s' == s.(threads := s.threads[id := s'.threads[id]], store := s'.store)
  }

  ghost function WithThread(s: State, id: nat, t: Thread): State {
    s.(threads := s.threads[id := t])
  }

  // ----- The thread's path -----

  lemma ArrivalSteps(c: Config, s: State, id: nat, req: Request, mood: string)
    requires id !in s.threads && req.userId != ""
    ensures After(c, s, Arrive(id, req)) == WithThread(s, id, Arrived(req))
    ensures After(c, WithThread(s, id, Arrived(req)), GetMood(id, mood)) == WithThread(s, id, HaveMood(req, mood))
    ensures After(c, WithThread(s, id, HaveMood(req, mood)), MakeKey(id)) ==
            WithThread(s, id, HaveKey(Work(req, mood, KeyFor(mood, req, s.version))))
  {
  }

  /** From the arrival to the key, before whatever follows. */
  lemma FromArrival(c: Config, s: State, id: nat, req: Request, mood: string, rest: seq<Step>, s': State)
    returns (steps: seq<Step>)
    requires id !in s.threads && req.userId != ""
    requires Alone(c, id, WithThread(s, id, HaveKey(Work(req, mood, KeyFor(mood, req, s.version)))), rest, s')
    ensures Alone(c, id, s, steps, s')
  {
    var s1, s2 := WithThread(s, id, Arrived(req)), WithThread(s, id, HaveMood(req, mood));
    var s3 := WithThread(s, id, HaveKey(Work(req, mood, KeyFor(mood, req, s.version))));
    ArrivalSteps(c, s, id, req, mood);
    steps := First(c, id, s2, MakeKey(id), s3, rest, s');
    steps := First(c, id, s1, GetMood(id, mood), s2, steps, s');
    steps := First(c, id, s, Arrive(id, req), s1, steps, s');
  }

  lemma LookUpStep(c: Config, s: State, id: nat, w: Work)
    ensures var start := WithThread(s, id, HaveKey(w));
      && Enabled(start, LookUp(id))
      && After(c, start, LookUp(id)) ==
         WithThread(s, id, if Found(s, w).Some? then Answered(FromCache(w, Found(s, w).value)) else Missed(w))
  {
    var start := WithThread(s, id, HaveKey(w));
    assert start.threads[id] == HaveKey(w) && start.store == s.store && start.now == s.now;
    assert Found(start, w) == Found(s, w);
    var next := if Found(s, w).Some? then Answered(FromCache(w, Found(s, w).value)) else Missed(w);
    assert start.threads[id := next] == s.threads[id := next];
  }

  lemma EvaluateStep(c: Config, s: State, id: nat, w: Work, matched: seq<Rule>)
    requires Evaluation(s.rules, ContextOf(w.mood, w.req), matched)
    ensures var start, comp := WithThread(s, id, Missed(w)), Computation(s.rules, s.version, s.swaps, matched);
      && Enabled(start, Evaluate(id, matched))
      && After(c, start, Evaluate(id, matched)) ==
         WithThread(s, id, if matched == [] then Answered(NoMatch(w, comp)) else Evaluated(w, comp))
  {
    var start, comp := WithThread(s, id, Missed(w)), Computation(s.rules, s.version, s.swaps, matched);
    var next := if matched == [] then Answered(NoMatch(w, comp)) else Evaluated(w, comp);
    assert start.threads[id := next] == s.threads[id := next];
  }

  /** What is found in the state's store is found in the server's. */
  lemma FoundInBoth(s: State, w: Work, store: Cache.Store<Reply>)
    requires SameStore(s, store)
    ensures var cached := Cache.GetAt(store, KeyString(w.key), s.now);
      cached == if Found(s, w).Some? then Some(ReplyOf(Found(s, w).value)) else None
  {
  }

  lemma WhenHit(c: Config, s: State, id: nat, w: Work, store: Cache.Store<Reply>) returns (steps: seq<Step>, s': State)
    requires SameStore(s, store) && Found(s, w).Some?
    ensures Alone(c, id, WithThread(s, id, HaveKey(w)), steps, s')
    ensures Ends(s, id, s', Success(ReplyOf(Found(s, w).value).(fromCache := true)), store)
  {
    var start := WithThread(s, id, HaveKey(w));
    s' := WithThread(s, id, Answered(FromCache(w, Found(s, w).value)));
    LookUpStep(c, s, id, w);
    steps := First(c, id, start, LookUp(id), s', [], s');
  }

  /** From the look-up that misses through the evaluation, before whatever follows. */
  lemma WhenMissed(c: Config, s: State, id: nat, w: Work, matched: seq<Rule>, next: Thread, rest: seq<Step>, s': State)
    returns (steps: seq<Step>)
    requires Found(s, w).None? && Evaluation(s.rules, ContextOf(w.mood, w.req), matched)
    requires var comp := Computation(s.rules, s.version, s.swaps, matched);
      next == if matched == [] then Answered(NoMatch(w, comp)) else Evaluated(w, comp)
    requires Alone(c, id, WithThread(s, id, next), rest, s')
    ensures Alone(c, id, WithThread(s, id, HaveKey(w)), steps, s')
  {
    var start, s1 := WithThread(s, id, HaveKey(w)), WithThread(s, id, Missed(w));
    LookUpStep(c, s, id, w);
    EvaluateStep(c, s, id, w, matched);
    steps := First(c, id, s1, Evaluate(id, matched), WithThread(s, id, next), rest, s');
    steps := First(c, id, start, LookUp(id), s1, steps, s');
  }

  lemma WhenRefused(c: Config, s: State, id: nat, w: Work, comp: Computation) returns (rest: seq<Step>, s': State)
    ensures Alone(c, id, WithThread(s, id, Evaluated(w, comp)), rest, s')
    ensures s' == WithThread(s, id, Answered(Refused))
  {
    var start := WithThread(s, id, Evaluated(w, comp));
    s' := WithThread(s, id, Answered(Refused));
    assert After(c, start, Refuse(id)) == s';
    rest := First(c, id, start, Refuse(id), s', [], s');
  }

  lemma FetchStep(c: Config, s: State, id: nat, w: Work, comp: Computation)
    ensures var start, v := WithThread(s, id, Evaluated(w, comp)), Value(Recommended(c, comp.matched), w, comp);
      Enabled(start, Fetch(id)) && After(c, start, Fetch(id)) == WithThread(s, id, Storing(v))
  {
    var v := Value(Recommended(c, comp.matched), w, comp);
    assert s.threads[id := Evaluated(w, comp)][id := Storing(v)] == s.threads[id := Storing(v)];
  }

  ghost function AfterStore(c: Config, s: State, id: nat, v: Value): State {
    WithThread(s, id, Answered(Computed(v))).(
      store := s.store[KeyString(v.setter.key) := Cache.Entry(v, s.now + c.ttl)])
  }

  lemma StoreStep(c: Config, s: State, id: nat, v: Value)
    ensures var start := WithThread(s, id, Storing(v));
      Enabled(start, Store(id)) && After(c, start, Store(id)) == AfterStore(c, s, id, v)
  {
    assert s.threads[id := Storing(v)][id := Answered(Computed(v))] == s.threads[id := Answered(Computed(v))];
  }

  lemma WhenStored(c: Config, s: State, id: nat, w: Work, comp: Computation) returns (rest: seq<Step>, s': State)
    ensures Alone(c, id, WithThread(s, id, Evaluated(w, comp)), rest, s')
    ensures s' == AfterStore(c, s, id, Value(Recommended(c, comp.matched), w, comp))
  {
    var v := Value(Recommended(c, comp.matched), w, comp);
    var start, s1 := WithThread(s, id, Evaluated(w, comp)), WithThread(s, id, Storing(v));
    s' := AfterStore(c, s, id, v);
    FetchStep(c, s, id, w, comp);
    StoreStep(c, s, id, v);
    rest := First(c, id, s1, Store(id), s', [], s');
    rest := First(c, id, start, Fetch(id), s1, rest, s');
  }

  lemma StoredEnds(s: State, id: nat, v: Value, k: string, expiration: int, store: Cache.Store<Reply>)
    requires SameStore(s, store)
    ensures Ends(s, id, WithThread(s, id, Answered(Computed(v))).(store := s.store[k := Cache.Entry(v, expiration)]),
                 Success(ReplyOf(v)), store[k := Cache.Entry(ReplyOf(v), expiration)])
  {
    var s' := WithThread(s, id, Answered(Computed(v))).(store := s.store[k := Cache.Entry(v, expiration)]);
    StoredInBoth(s, k, Cache.Entry(v, expiration), store);
    assert s'.threads[id] == Answered(Computed(v));
  }

  lemma AnswerEnds(c: Config, s: State, id: nat, v: Value, store: Cache.Store<Reply>)
    requires SameStore(s, store) && v.comp.matched != []
    ensures Ends(s, id, AfterStore(c, s, id, v), Success(ReplyOf(v)),
                 Kept(store, KeyString(v.setter.key), s.now + c.ttl, Success(ReplyOf(v))))
  {
    StoredEnds(s, id, v, KeyString(v.setter.key), s.now + c.ttl, store);
  }

  lemma StoredInBoth(s: State, k: string, e: Cache.Entry<Value>, store: Cache.Store<Reply>)
    requires SameStore(s, store)
    ensures SameStore(s.(store := s.store[k := e]), store[k := Cache.Entry(ReplyOf(e.value), e.expiration)])
  {
  }

  /** A match that is answered is answered with the thread's value. */
  lemma SameReply(c: Config, s: State, w: Work, comp: Computation, products: Option<ProductClient>)
    requires comp == Computation(s.rules, s.version, s.swaps, comp.matched) && comp.matched != []
    requires SameCatalogue(c, products)
    ensures var answer := AfterMiss(s.rules, s.version, products, ContextOf(w.mood, w.req), comp.matched);
      answer.Failure? || answer == Success(ReplyOf(Value(Recommended(c, comp.matched), w, comp)))
  {
  }

  lemma NoMatchMiss(c: Config, s: State, id: nat, w: Work, store: Cache.Store<Reply>)
    returns (steps: seq<Step>, s': State)
    requires SameStore(s, store) && Found(s, w).None?
    requires Evaluation(s.rules, ContextOf(w.mood, w.req), [])
    ensures Alone(c, id, WithThread(s, id, HaveKey(w)), steps, s')
    ensures Ends(s, id, s', Success(FreshReply(s.rules, s.version, ContextOf(w.mood, w.req), [], [])), store)
  {
    var comp := Computation(s.rules, s.version, s.swaps, []);
    s' := WithThread(s, id, Answered(NoMatch(w, comp)));
    steps := WhenMissed(c, s, id, w, [], Answered(NoMatch(w, comp)), [], s');
  }

  lemma RefusedMiss(c: Config, s: State, id: nat, w: Work, matched: seq<Rule>, code: Code, store: Cache.Store<Reply>)
    returns (steps: seq<Step>, s': State)
    requires SameStore(s, store) && Found(s, w).None? && matched != []
    requires Evaluation(s.rules, ContextOf(w.mood, w.req), matched)
    ensures Alone(c, id, WithThread(s, id, HaveKey(w)), steps, s') && Ends(s, id, s', Failure(code), store)
  {
    var comp := Computation(s.rules, s.version, s.swaps, matched);
    var rest;
    rest, s' := WhenRefused(c, s, id, w, comp);
    steps := WhenMissed(c, s, id, w, matched, Evaluated(w, comp), rest, s');
  }

  lemma StoredMiss(c: Config, s: State, id: nat, w: Work, matched: seq<Rule>, store: Cache.Store<Reply>)
    returns (steps: seq<Step>, s': State)
    requires SameStore(s, store) && Found(s, w).None? && matched != []
    requires Evaluation(s.rules, ContextOf(w.mood, w.req), matched)
    ensures Alone(c, id, WithThread(s, id, HaveKey(w)), steps, s')
    ensures var v := Value(Recommended(c, matched), w, Computation(s.rules, s.version, s.swaps, matched));
      Ends(s, id, s', Success(ReplyOf(v)),
           Kept(store, KeyString(w.key), s.now + c.ttl, Success(ReplyOf(v))))
  {
    var comp := Computation(s.rules, s.version, s.swaps, matched);
    var rest;
    rest, s' := WhenStored(c, s, id, w, comp);
    AnswerEnds(c, s, id, Value(Recommended(c, matched), w, comp), store);
    steps := WhenMissed(c, s, id, w, matched, Evaluated(w, comp), rest, s');
  }

  lemma MatchMiss(c: Config, s: State, id: nat, w: Work, matched: seq<Rule>, answer: Result<Reply, Code>,
                  store: Cache.Store<Reply>)
    returns (steps: seq<Step>, s': State)
    requires SameStore(s, store) && Found(s, w).None? && matched != []
    requires Evaluation(s.rules, ContextOf(w.mood, w.req), matched)
    requires var v := Value(Recommended(c, matched), w, Computation(s.rules, s.version, s.swaps, matched));
      answer.Failure? || answer == Success(ReplyOf(v))
    ensures Alone(c, id, WithThread(s, id, HaveKey(w)), steps, s')
    ensures Ends(s, id, s', answer, Kept(store, KeyString(w.key), s.now + c.ttl, answer))
  {
    if answer.Failure? {
      steps, s' := RefusedMiss(c, s, id, w, matched, answer.error, store);
    } else {
      steps, s' := StoredMiss(c, s, id, w, matched, store);
    }
  }

  /** After a miss. */
  lemma MissIsOneThread(c: Config, s: State, id: nat, w: Work, matched: seq<Rule>, products: Option<ProductClient>,
                        store: Cache.Store<Reply>)
    returns (steps: seq<Step>, s': State)
    requires SameStore(s, store) && SameCatalogue(c, products) && Found(s, w).None?
    requires Evaluation(s.rules, ContextOf(w.mood, w.req), matched)
    ensures Alone(c, id, WithThread(s, id, HaveKey(w)), steps, s')
    ensures var answer := AfterMiss(s.rules, s.version, products, ContextOf(w.mood, w.req), matched);
      Ends(s, id, s', answer, Kept(store, KeyString(w.key), s.now + c.ttl, answer))
  {
    if matched == [] {
      steps, s' := NoMatchMiss(c, s, id, w, store);
    } else {
      SameReply(c, s, w, Computation(s.rules, s.version, s.swaps, matched), products);
      var answer := AfterMiss(s.rules, s.version, products, ContextOf(w.mood, w.req), matched);
      steps, s' := MatchMiss(c, s, id, w, matched, answer, store);
    }
  }

  /** Whatever Recommend may answer and leave in its cache for a request whose mood is
      known, the thread alone answers and leaves, from any state with the same engine,
      the same store and the same clock. */
  lemma RecommendIsOneThread(c: Config, s: State, id: nat, req: Request, mood: string, products: Option<ProductClient>,
                             store: Cache.Store<Reply>, answer: Result<Reply, Code>, store': Cache.Store<Reply>)
    returns (steps: seq<Step>, s': State)
    requires id !in s.threads && req.userId != "" && SameStore(s, store) && SameCatalogue(c, products)
    requires Recommends(s.rules, s.version, c.ttl, products, store, mood, req, s.now, answer, store')
    ensures Alone(c, id, s, steps, s') && Ends(s, id, s', answer, store')
  {
    var w := Work(req, mood, KeyFor(mood, req, s.version));
    FoundInBoth(s, w, store);
    if Found(s, w).Some? {
      steps, s' := WhenHit(c, s, id, w, store);
    } else {
      var matched :|
        && Evaluation(s.rules, ContextOf(mood, req), matched)
        && answer == AfterMiss(s.rules, s.version, products, ContextOf(mood, req), matched)
        && store' == Kept(store, KeyString(w.key), s.now + c.ttl, answer);
      steps, s' := MissIsOneThread(c, s, id, w, matched, products, store);
    }
    steps := FromArrival(c, s, id, req, mood, steps, s');
  }

  /** A reply computed after a miss recommends what the thread is said to reply. */
  lemma ReplyIsReplied(c: Config, rules: seq<Rule>, version: int, products: Option<ProductClient>, ctx: MatchContext,
                       matched: seq<Rule>)
    requires SameCatalogue(c, products)
    ensures var answer := AfterMiss(rules, version, products, ctx, matched);
      answer.Success? ==> answer.value.recommendations == Replied(c, matched)
  {
  }

  // ----- The rule-update handler -----

  /** The handler's steps without interruption do what MoodRuleServer.HandleRuleUpdated
      does: the engine holds what the store holds, and the cache is empty. */
  lemma HandlerIsOneReload(c: Config, s: State, id: nat) returns (s1: State, s2: State, s3: State, s4: State, s5: State)
    requires id !in s.reloads
    ensures Enabled(s, StartReload(id)) && s1 == After(c, s, StartReload(id))
    ensures Enabled(s1, ReadRules(id)) && s2 == After(c, s1, ReadRules(id))
    ensures Enabled(s2, ReadVersion(id)) && s3 == After(c, s2, ReadVersion(id))
    ensures Enabled(s3, Swap(id)) && s4 == After(c, s3, Swap(id))
    ensures Enabled(s4, ClearCache(id)) && s5 == After(c, s4, ClearCache(id))
    ensures s5 == s.(rules := s.dbRules, version := s.dbVersion, swaps := s.swaps + 1, store := map[])
  {
    s1 := After(c, s, StartReload(id));
    s2 := After(c, s1, ReadRules(id));
    s3 := After(c, s2, ReadVersion(id));
    s4 := After(c, s3, Swap(id));
    s5 := After(c, s4, ClearCache(id));
    assert s5.reloads == s.reloads;
    assert s5.store == map[];
  }
}
