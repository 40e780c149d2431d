/** The Recommend request and the rule-update handler, run one at a time. */
module Server {
  import opened CacheKeys
  import opened Engine
  import opened Protocol
  import opened Rules
  import opened Scoring
  import opened Wrappers
  import Cache

  datatype Code = InvalidArgument | FailedPrecondition | Internal | Unavailable

  datatype Reply = Reply(
    recommendations: seq<Recommendation>,
    rulesEvaluated: nat,
    rulesMatched: nat,
    ruleVersion: int,
    fromCache: bool)

  /** The auth service and the product catalogue; None when the client is missing. */
  type AuthClient = string -> Result<string, string>
  type ProductClient = Filters -> Result<seq<Product>, string>

  /** The reply to a request whose rules were evaluated to matched. */
  ghost function FreshReply(rules: seq<Rule>, version: int, ctx: MatchContext, matched: seq<Rule>,
                            ranked: seq<Recommendation>): Reply
  {
    Reply(ranked, |Candidates(rules, ctx.mood)|, |matched|, version, false)
  }

  /** What a request that missed the cache is answered, given the rules found for it. */
  ghost function AfterMiss(rules: seq<Rule>, version: int, products: Option<ProductClient>, ctx: MatchContext,
                           matched: seq<Rule>): Result<Reply, Code>
  {
    if matched == [] then Success(FreshReply(rules, version, ctx, [], []))
    else if products.None? then Failure(Unavailable)
    else if products.value(FiltersOf(matched)).Failure? then Failure(Internal)
    else
      var ranked := Ranked(products.value(FiltersOf(matched)).value, matched);
      Success(FreshReply(rules, version, ctx, matched, ranked))
  }

  /** The same, written out: the codes, the counts, and where the products come from. */
  lemma AfterMissWrittenOut(rules: seq<Rule>, version: int, products: Option<ProductClient>, ctx: MatchContext,
                            matched: seq<Rule>)
    ensures var answer := AfterMiss(rules, version, products, ctx, matched);
      var evaluated := |Bucket(rules, ctx.mood)| + |Bucket(rules, "*")|;
      && (matched == [] ==> answer == Success(Reply([], evaluated, 0, version, false)))
      && (matched != [] && products.None? ==> answer == Failure(Unavailable))
      && (matched != [] && products.Some? ==>
            var listed := products.value(FiltersOf(matched));
            if listed.Failure? then answer == Failure(Internal)
            else answer == Success(Reply(Ranked(listed.value, matched), evaluated, |matched|, version, false)))
  {
  }

  /** The store after an answer: only one with matches is stored. */
  function Kept(store: Cache.Store<Reply>, key: string, expiration: int, answer: Result<Reply, Code>): Cache.Store<Reply>
  {
    if answer.Success? && answer.value.rulesMatched > 0 then store[key := Cache.Entry(answer.value, expiration)]
    else store
  }

  /** A request whose mood is known, from the store it finds to its answer and the store
      it leaves. */
  ghost predicate Recommends(rules: seq<Rule>, version: int, ttl: int, products: Option<ProductClient>,
                             store: Cache.Store<Reply>, mood: string, req: Request, now: int,
                             answer: Result<Reply, Code>, store': Cache.Store<Reply>)
  {
    var key := KeyString(KeyFor(mood, req, version));
    var cached := Cache.GetAt(store, key, now);
    if cached.Some? then answer == Success(cached.value.(fromCache := true)) && store' == store
    else
      exists matched ::
        && Evaluation(rules, ContextOf(mood, req), matched)
        && answer == AfterMiss(rules, version, products, ContextOf(mood, req), matched)
        && store' == Kept(store, key, now + ttl, answer)
  }

  lemma MissRecommends(rules: seq<Rule>, version: int, ttl: int, products: Option<ProductClient>,
                       store: Cache.Store<Reply>, mood: string, req: Request, now: int,
                       answer: Result<Reply, Code>, matched: seq<Rule>)
    requires Cache.GetAt(store, KeyString(KeyFor(mood, req, version)), now) == None
    requires Evaluation(rules, ContextOf(mood, req), matched)
    requires answer == AfterMiss(rules, version, products, ContextOf(mood, req), matched)
    ensures Recommends(rules, version, ttl, products, store, mood, req, now, answer,
                       Kept(store, KeyString(KeyFor(mood, req, version)), now + ttl, answer))
  {
  }

  /** The lists and bounds that AggregateFilters returns are the filters of the rules. */
  lemma SameFilters(rules: seq<Rule>, tags: seq<string>, categories: seq<string>, min: real, max: real)
    requires forall t :: t in tags <==> exists r :: r in rules && t in r.actions.tags
    requires forall c :: c in categories <==> exists r :: r in rules && c in r.actions.categories
    requires IsMinPrice(rules, min) && IsMaxPrice(rules, max)
    ensures Filters((set t | t in tags), (set t | t in categories), min, max) == FiltersOf(rules)
  {
    var f := Filters((set t | t in tags), (set t | t in categories), min, max);
    SetsAsUnions(rules);
    assert f.tags == TagSet(rules) && f.categories == CategorySet(rules);
    PricesOrdered(rules, f, rules, FiltersOf(rules));
    PricesOrdered(rules, FiltersOf(rules), rules, f);
  }

  class MoodRuleServer {
    const engine: RuleEngine
    const cache: Cache.MemoryCache<Reply>
    const auth: Option<AuthClient>
    const products: Option<ProductClient>

    constructor (engine: RuleEngine, cache: Cache.MemoryCache<Reply>,
                 auth: Option<AuthClient>, products: Option<ProductClient>)
      ensures this.engine == engine && this.cache == cache && this.auth == auth && this.products == products
    {
      this.engine, this.cache, this.auth, this.products := engine, cache, auth, products;
    }

    ghost predicate Valid()
      reads this, engine, cache
    {
      engine.Valid() && cache.Valid()
    }

    /** What the cache holds for this request, by the history of its calls. */
    ghost function Cached(mood: string, req: Request, now: int): Option<Reply>
      reads this, engine, cache
    {
      Cache.Recall(cache.history, cache.ttl, KeyString(KeyFor(mood, req, engine.version)), now)
    }

    /** Answers from the cache, or evaluates, asks the catalogue, ranks and stores. Only a
        complete answer is stored; an empty match is answered but not stored. */
    method Recommend(req: Request, now: int) returns (answer: Result<Reply, Code>)
      requires Valid() && Cache.NotBefore(cache.history, now)
      modifies cache`store, cache`history
      ensures Valid()
      ensures req.userId == "" ==> answer == Failure(InvalidArgument)
      ensures req.userId != "" && auth.None? ==> answer == Failure(FailedPrecondition)
      ensures req.userId != "" && auth.Some? && auth.value(req.userId).Failure? ==> answer == Failure(Internal)
      ensures answer.Failure? ==> cache.history == old(cache.history)
      ensures req.userId != "" && auth.Some? && auth.value(req.userId).Success? ==>
        var mood := auth.value(req.userId).value;
        var cached := old(Cached(mood, req, now));
        && Recommends(engine.rules, engine.version, cache.ttl, products, old(cache.store), mood, req, now,
                      answer, cache.store)
        && (cached.Some? ==> answer == Success(cached.value.(fromCache := true)))
        && (cached.None? && answer.Success? ==> !answer.value.fromCache && answer.value.ruleVersion == engine.version)
        && (answer.Failure? ==> answer.error == if products.None? then Unavailable else Internal)
        && cache.history == old(cache.history) +
             if cached.None? && answer.Success? && answer.value.rulesMatched > 0
             then [Cache.Event(Cache.Set(KeyFor(mood, req, engine.version), answer.value), now)]
             else []
    {
      if req.userId == "" {
        return Failure(InvalidArgument);
      }
      if auth.None? {
        return Failure(FailedPrecondition);
      }
      var fetched := auth.value(req.userId);
      if fetched.Failure? {
        return Failure(Internal);
      }
      answer := RecommendFor(fetched.value, req, now);
    }

    /** The part of Recommend that follows once the mood is known. */
    method RecommendFor(mood: string, req: Request, now: int) returns (answer: Result<Reply, Code>)
      requires Valid() && Cache.NotBefore(cache.history, now)
      modifies cache`store, cache`history
      ensures Valid()
      ensures Recommends(engine.rules, engine.version, cache.ttl, products, old(cache.store), mood, req, now,
                         answer, cache.store)
      ensures var cached := old(Cached(mood, req, now));
        && (cached.Some? ==> answer == Success(cached.value.(fromCache := true)))
        && (cached.None? && answer.Success? ==> !answer.value.fromCache && answer.value.ruleVersion == engine.version)
        && (answer.Failure? ==> answer.error == if products.None? then Unavailable else Internal)
        && cache.history == old(cache.history) +
             if cached.None? && answer.Success? && answer.value.rulesMatched > 0
             then [Cache.Event(Cache.Set(KeyFor(mood, req, engine.version), answer.value), now)]
             else []
    {
      var key := KeyFor(mood, req, engine.version);
      var cached := cache.Get(key, now);
      if cached.Some? {
        return Success(cached.value.(fromCache := true));
      }
      answer := Compute(ContextOf(mood, req));
      ghost var matched :|
        && Evaluation(engine.rules, ContextOf(mood, req), matched)
        && answer == AfterMiss(engine.rules, engine.version, products, ContextOf(mood, req), matched);
      Keep(key, answer, now);
      MissRecommends(engine.rules, engine.version, cache.ttl, products, old(cache.store), mood, req, now,
                     answer, matched);
    }

    /** Stores a complete answer. */
    method Keep(key: CacheKey, answer: Result<Reply, Code>, now: int)
      requires Valid() && Cache.NotBefore(cache.history, now)
      modifies cache`store, cache`history
      ensures Valid()
      ensures cache.store == Kept(old(cache.store), KeyString(key), now + cache.ttl, answer)
      ensures cache.history == old(cache.history) +
                if answer.Success? && answer.value.rulesMatched > 0
                then [Cache.Event(Cache.Set(key, answer.value), now)] else []
    {
      if answer.Success? && answer.value.rulesMatched > 0 {
        cache.Set(key, answer.value, now);
      }
    }

    /** The part of Recommend between a cache miss and the store. */
    method Compute(ctx: MatchContext) returns (answer: Result<Reply, Code>)
      requires engine.Valid()
      ensures exists matched ::
        && Evaluation(engine.rules, ctx, matched)
        && answer == AfterMiss(engine.rules, engine.version, products, ctx, matched)
      ensures answer.Success? ==> !answer.value.fromCache && answer.value.ruleVersion == engine.version
      ensures answer.Failure? ==> answer.error == if products.None? then Unavailable else Internal
    {
      var matchedRules, stats := engine.Evaluate(ctx);
      if |matchedRules| == 0 {
        return Success(Reply([], stats.rulesEvaluated, stats.rulesMatched, stats.version, false));
      }
      var tags, categories, minPrice, maxPrice := AggregateFilters(matchedRules);
      if products.None? {
        return Failure(Unavailable);
      }
      var filters := Filters((set t | t in tags), (set t | t in categories), minPrice, maxPrice);
      SameFilters(matchedRules, tags, categories, minPrice, maxPrice);
      var listed := products.value(filters);
      if listed.Failure? {
        return Failure(Internal);
      }
      var ranked := ScoreProducts(listed.value, matchedRules);
      return Success(Reply(ranked, stats.rulesEvaluated, stats.rulesMatched, stats.version, false));
    }

    /** The rule-update handler: reload, then clear the cache, then announce the clearing.
        A failed read changes nothing and announces nothing. */
    method HandleRuleUpdated(readRules: Result<seq<Rule>, string>, readVersion: Result<int, string>, now: int)
      returns (err: Option<string>, announced: bool)
      requires Valid() && Cache.NotBefore(cache.history, now)
      modifies engine, cache`store, cache`history
      ensures Valid()
      ensures announced <==> err.None?
      ensures err.None? <==> readRules.Success? && readVersion.Success?
      ensures err.None? ==>
        && engine.rules == readRules.value && engine.version == readVersion.value
        && cache.store == map[]
        && (forall mood, req, later :: Cached(mood, req, later) == None)
      ensures err.Some? ==> unchanged(engine) && unchanged(cache)
      ensures readRules.Failure? ==>
        err == Some("failed to reload rules: " + ("failed to reload rules: " + readRules.error))
      ensures readRules.Success? && readVersion.Failure? ==>
        err == Some("failed to reload rules: " + ("failed to get max version: " + readVersion.error))
    {
      var failed := engine.Reload(readRules, readVersion);
      if failed.Some? {
        return Some("failed to reload rules: " + failed.value), false;
      }
      cache.InvalidateByPattern("*", now);
      assert cache.store == map[];
      forall mood, req, later ensures Cached(mood, req, later) == None {
        NothingAfterClear(old(cache.history), now, cache.ttl, KeyString(KeyFor(mood, req, engine.version)), later);
      }
      return None, true;
    }
  }

  lemma NothingAfterClear(history: seq<Cache.Event<Reply>>, now: int, ttl: int, key: string, later: int)
    ensures Cache.Recall(history + [Cache.Event(Cache.Invalidate("*"), now)], ttl, key, later) == None
  {
  }
}
