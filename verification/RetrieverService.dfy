/** Routing a query over retrieval providers, normalising what they return and publishing the context
    (plugins/memory/retriever_service.py). */
module RetrieverService {
  import opened Sequences
  import opened Retrievals
  import C = ContextBuilder
  import G = GovernanceValidator
  import S = StableSort
  import V = VectorStore

  datatype Number = Missing | Num(value: real) | NotANumber

  /** A result as a provider returns it; `item` carries the fields other than similarity and score. */
  datatype RawResult = RawResult(item: Retrieval, similarity: Number, score: Number)

  /** What a provider answers: results, a RetrieverError, or any other exception. */
  datatype Response = Results(raw: seq<RawResult>) | RetrieverFailed | OtherFailure

  datatype Outcome = Returned(results: seq<Retrieval>) | Raised

  /** The governance settings of a service; `decay` is the factor for a timestamp in the past, None when
      the timestamp cannot be parsed or is not in the past. */
  datatype Settings = Settings(minTrust: real, halfLife: int, decay: string -> Option<real>)

  /* ----- normalisation ----- */

  function Clamp(s: real): real
  {
    if s < 0.0 then 0.0 else if s > 1.0 then 1.0 else s
  }

  /** Cosines in [-1, 1] are mapped to [0, 1], anything else is clamped. */
  function NormalizeSimilarity(n: Number): Option<real>
  {
    match n
    case Missing => None
    case NotANumber => Some(0.0)
    case Num(s) => Some(Clamp(if -1.0 <= s <= 1.0 then (s + 1.0) / 2.0 else s))
  }

  function BaseScore(raw: RawResult): real
  {
    match raw.score
    case Num(s) => Clamp(s)
    case NotANumber => 0.0
    case Missing => Clamp(RealOr(NormalizeSimilarity(raw.similarity), 0.0))
  }

  function Timestamp(r: Retrieval): string
  {
    if TextOr(r.updatedAt, "") != "" then r.updatedAt.value else TextOr(r.createdAt, "")
  }

  function DecayFactor(cfg: Settings, r: Retrieval): real
  {
    if cfg.halfLife != 0 && Timestamp(r) != "" then RealOr(cfg.decay(Timestamp(r)), 1.0) else 1.0
  }

  function FinalScore(cfg: Settings, raw: RawResult): (s: real)
    ensures 0.0 <= s <= 1.0
  {
    Weighted(BaseScore(raw), DecayFactor(cfg, raw.item), RealOr(raw.item.trust, 1.0))
  }

  function Weighted(base: real, decay: real, trust: real): (s: real)
    ensures 0.0 <= s <= 1.0
  {
    Clamp(base * decay * trust)
  }

  /** `_apply_governance_and_normalize`. */
  function Normalize(cfg: Settings, provider: string): RawResult -> Retrieval
  {
    (raw: RawResult) =>
      raw.item.(
        provider := Some(provider),
        trust := Some(RealOr(raw.item.trust, 1.0)),
        similarity := NormalizeSimilarity(raw.similarity),
        score := Some(FinalScore(cfg, raw)))
  }

  function Trusted(cfg: Settings): Retrieval -> bool
  {
    (r: Retrieval) => RealOr(r.trust, 1.0) >= cfg.minTrust
  }

  function Accepted(cfg: Settings, provider: string, raw: seq<RawResult>): seq<Retrieval>
  {
    Filter(Map(raw, Normalize(cfg, provider)), Trusted(cfg))
  }

  /** Whatever a provider returns, the accepted results carry its name, meet the trust threshold and have
      their score and similarity, if any, in [0, 1]. */
  lemma AcceptedAreNormal(cfg: Settings, provider: string, raw: seq<RawResult>, r: Retrieval)
    requires r in Accepted(cfg, provider, raw)
    ensures r.provider == Some(provider)
    ensures r.trust != None && r.trust.value >= cfg.minTrust
    ensures r.score != None && 0.0 <= r.score.value <= 1.0
    ensures r.similarity != None ==> 0.0 <= r.similarity.value <= 1.0
  {
    var normal := Map(raw, Normalize(cfg, provider));
    FilterMember(normal, Trusted(cfg), r);
    var i :| 0 <= i < |normal| && normal[i] == r;
    assert r == Normalize(cfg, provider)(raw[i]);
  }

  /** On cosines the clamp does nothing and the map keeps strict order; on all numbers it keeps order. */
  lemma SimilarityKeepsOrder(a: real, b: real)
    ensures -1.0 <= a <= 1.0 ==> NormalizeSimilarity(Num(a)) == Some((a + 1.0) / 2.0)
    ensures a <= b ==> NormalizeSimilarity(Num(a)).value <= NormalizeSimilarity(Num(b)).value
    ensures -1.0 <= a <= 1.0 && -1.0 <= b <= 1.0 && a < b ==>
      NormalizeSimilarity(Num(a)).value < NormalizeSimilarity(Num(b)).value
  {
  }

  /** The results of a vector store query keep their ranking through the service's normalisation. */
  lemma StoreRankingSurvives(sqrt: real -> real, query: V.Vector, rows: seq<V.Entry>, k: nat)
    requires V.IsSquareRoot(sqrt)
    ensures var top := V.TopK(sqrt, query, rows, k);
      && (forall i :: 0 <= i < |top| ==>
            NormalizeSimilarity(Num(top[i].similarity)) == Some((top[i].similarity + 1.0) / 2.0))
      && (forall i, j :: 0 <= i < j < |top| ==>
            NormalizeSimilarity(Num(top[i].similarity)).value >= NormalizeSimilarity(Num(top[j].similarity)).value)
  {
    var top := V.TopK(sqrt, query, rows, k);
    V.TopKIsBest(sqrt, query, rows, k);
    V.DescendingOrder();
    forall i | 0 <= i < |top| ensures -1.0 <= top[i].similarity <= 1.0 {
      var scored := Map(rows, V.Scored(sqrt, query));
      S.SortMember(scored, V.Similarity, V.Descending, top[i]);
      var j :| 0 <= j < |scored| && scored[j] == top[i];
      V.CosineRange(sqrt, query, rows[j].vector);
    }
    forall i, j | 0 <= i < j < |top|
      ensures NormalizeSimilarity(Num(top[i].similarity)).value >= NormalizeSimilarity(Num(top[j].similarity)).value
    {
      assert V.Descending(V.Similarity(top[i]), V.Similarity(top[j]));
      SimilarityKeepsOrder(top[j].similarity, top[i].similarity);
    }
  }

  /** What normalisation does to a result: provider, trust, similarity and score are set, all else stays. */
  lemma NormalizedByFields(cfg: Settings, provider: string, raw: RawResult)
    ensures var (r, item) := (Normalize(cfg, provider)(raw), raw.item);
      && r.provider == Some(provider)
      && r.trust == Some(if item.trust == None then 1.0 else item.trust.value)
      && r.id == item.id && r.chunkId == item.chunkId && r.content == item.content && r.meta == item.meta
      && r.sourcePath == item.sourcePath && r.createdAt == item.createdAt && r.updatedAt == item.updatedAt
      && (raw.similarity == Missing <==> r.similarity == None)
      && (raw.similarity == NotANumber ==> r.similarity == Some(0.0))
      && (raw.similarity.Num? ==>
            r.similarity == Some(if raw.similarity.value < -1.0 then 0.0
                                 else if raw.similarity.value > 1.0 then 1.0 else (raw.similarity.value + 1.0) / 2.0))
  {
  }

  /** What the score starts from: the given one brought into [0, 1], else the normalised similarity, else zero. */
  lemma BaseByFields(raw: RawResult)
    ensures var similarity := NormalizeSimilarity(raw.similarity);
      BaseScore(raw) ==
        if raw.score.NotANumber? || (raw.score.Missing? && similarity == None) then 0.0
        else if raw.score.Missing? then similarity.value
        else if raw.score.value < 0.0 then 0.0 else if raw.score.value > 1.0 then 1.0 else raw.score.value
  {
  }

  /** A result decays when there is a half-life and a time stamp in the past, the update before the creation. */
  lemma DecayByFields(cfg: Settings, item: Retrieval)
    ensures
      var stamp := if item.updatedAt != None && item.updatedAt.value != "" then item.updatedAt.value
        else if item.createdAt != None then item.createdAt.value else "";
      DecayFactor(cfg, item) ==
        if cfg.halfLife == 0 || stamp == "" || cfg.decay(stamp) == None then 1.0 else cfg.decay(stamp).value
  {
  }

  /** The score is what it starts from, times the decay, times the trust, brought into [0, 1]. */
  lemma ScoreIsProduct(cfg: Settings, provider: string, raw: RawResult, base: real, decay: real, trust: real)
    requires base == BaseScore(raw) && decay == DecayFactor(cfg, raw.item)
    requires trust == if raw.item.trust == None then 1.0 else raw.item.trust.value
    ensures var score := base * decay * trust;
      Normalize(cfg, provider)(raw).score == Some(if score < 0.0 then 0.0 else if score > 1.0 then 1.0 else score)
  {
    assert FinalScore(cfg, raw) == Weighted(base, decay, trust);
    assert Normalize(cfg, provider)(raw).score == Some(FinalScore(cfg, raw));
    WeightedIs(base, decay, trust, base * decay * trust);
  }

  lemma WeightedIs(base: real, decay: real, trust: real, score: real)
    requires score == base * decay * trust
    ensures Weighted(base, decay, trust) == if score < 0.0 then 0.0 else if score > 1.0 then 1.0 else score
  {
  }

  /** A missing trust is full trust. */
  predicate TrustedEnough(cfg: Settings, trust: Option<real>)
  {
    if trust == None then 1.0 >= cfg.minTrust else trust.value >= cfg.minTrust
  }

  /** Accepted are the normalised results that are trusted enough, and no others. */
  lemma AcceptedIff(cfg: Settings, provider: string, raw: seq<RawResult>, r: Retrieval)
    ensures r in Accepted(cfg, provider, raw) <==>
      exists x :: x in raw && r == Normalize(cfg, provider)(x) && TrustedEnough(cfg, x.item.trust)
  {
    var normal := Map(raw, Normalize(cfg, provider));
    FilterMember(normal, Trusted(cfg), r);
    if r in normal {
      var i :| 0 <= i < |normal| && normal[i] == r;
      assert raw[i] in raw && r == Normalize(cfg, provider)(raw[i]);
    }
    if x :| x in raw && r == Normalize(cfg, provider)(x) && TrustedEnough(cfg, x.item.trust) {
      var i :| 0 <= i < |raw| && raw[i] == x;
      assert normal[i] == r;
    }
  }

  /* ----- routing ----- */

  datatype Routed = Routed(outcome: Outcome, failures: nat)

  /** Asks the providers from the `i`-th on, one after the other, until one returns something or breaks.
      `answers` gives the answer to each question, so a provider that is asked twice can change its mind. */
  function Route(cfg: Settings, names: seq<string>, answers: nat -> Response, i: nat): Routed
    requires i <= |names|
    decreases |names| - i
  {
    if i == |names| then Routed(Returned([]), 0)
    else match answers(i)
      case OtherFailure => Routed(Raised, 0)
      case RetrieverFailed =>
        var rest := Route(cfg, names, answers, i + 1);
        rest.(failures := rest.failures + 1)
      case Results(raw) =>
        var results := Accepted(cfg, names[i], raw);
        if results != [] then Routed(Returned(results), 0) else Route(cfg, names, answers, i + 1)
  }

  /** A question that ends the search. */
  predicate Settles(cfg: Settings, names: seq<string>, answers: nat -> Response, i: nat)
    requires i < |names|
  {
    answers(i).OtherFailure? || (answers(i).Results? && Accepted(cfg, names[i], answers(i).raw) != [])
  }

  /** How many of the first `n` questions were answered with a RetrieverError. */
  function FailuresAmong(answers: nat -> Response, n: nat): nat
  {
    if n == 0 then 0 else FailuresAmong(answers, n - 1) + if answers(n - 1).RetrieverFailed? then 1 else 0
  }

  /** The first question that settles the search decides the outcome; the failures counted are those before
      it.  When none settles, nothing is returned. */
  lemma RouteTakesFirst(cfg: Settings, names: seq<string>, answers: nat -> Response) returns (stop: nat)
    ensures stop <= |names|
    ensures forall i :: 0 <= i < stop ==> !Settles(cfg, names, answers, i)
    ensures stop < |names| ==> Settles(cfg, names, answers, stop)
    ensures Route(cfg, names, answers, 0).failures == FailuresAmong(answers, stop)
    ensures Route(cfg, names, answers, 0).outcome ==
      if stop == |names| then Returned([])
      else if answers(stop).OtherFailure? then Raised
      else Returned(Accepted(cfg, names[stop], answers(stop).raw))
  {
    stop := RouteFrom(cfg, names, answers, 0);
  }

  lemma {:induction false} RouteFrom(cfg: Settings, names: seq<string>, answers: nat -> Response, from: nat)
    returns (stop: nat)
    requires from <= |names|
    ensures from <= stop <= |names|
    ensures forall i :: from <= i < stop ==> !Settles(cfg, names, answers, i)
    ensures stop < |names| ==> Settles(cfg, names, answers, stop)
    ensures Route(cfg, names, answers, from).failures + FailuresAmong(answers, from) == FailuresAmong(answers, stop)
    ensures Route(cfg, names, answers, from).outcome ==
      if stop == |names| then Returned([])
      else if answers(stop).OtherFailure? then Raised
      else Returned(Accepted(cfg, names[stop], answers(stop).raw))
    decreases |names| - from
  {
    if from == |names| || Settles(cfg, names, answers, from) {
      stop := from;
    } else {
      stop := RouteFrom(cfg, names, answers, from + 1);
    }
  }

  /* ----- the service ----- */

  /** What a provider answers to a lookup by id. */
  datatype Lookup = Found(raw: RawResult) | NotFound | LookupFailed | LookupBroke

  datatype GetOutcome = Got(result: Retrieval) | Nothing | GetRaised

  predicate InUse(name: string, providers: set<string>)
  {
    name != "" && name in providers
  }

  function Usable(providers: set<string>): string -> bool
  {
    name => InUse(name, providers)
  }

  function Registered(providers: set<string>): string -> bool
  {
    name => name in providers
  }

  /** Which of the listed providers are asked: by a query those that are registered under a name, by a search
      all that are registered; in the order of the list. */
  lemma AskedIff(listed: seq<string>, providers: set<string>, name: string)
    ensures name in Filter(listed, Usable(providers)) <==> name in listed && name != "" && name in providers
    ensures name in Filter(listed, Registered(providers)) <==> name in listed && name in providers
  {
    FilterMember(listed, Usable(providers), name);
    FilterMember(listed, Registered(providers), name);
  }

  /** A usable primary is asked before anyone else. */
  lemma PrimaryFirst(primary: string, fallback: seq<string>, providers: set<string>)
    requires primary != "" && primary in providers
    ensures Filter([primary] + fallback, Usable(providers)) == [primary] + Filter(fallback, Usable(providers))
    ensures Filter([primary] + fallback, Registered(providers)) == [primary] + Filter(fallback, Registered(providers))
  {
    assert ([primary] + fallback)[1..] == fallback;
  }

  class RetrieverService {
    const primary: string
    const fallback: seq<string>
    const settings: Settings
    const tokenBudget: int
    const validator: G.Validator?
    var providers: set<string>
    var queries: nat
    var fallbacks: nat
    var lastReport: Option<G.Report>
    var lastContext: Option<C.Context>

    constructor (primary: string, fallback: seq<string>, settings: Settings, tokenBudget: int, validator: G.Validator?)
      ensures this.primary == primary && this.fallback == fallback && this.settings == settings
      ensures this.tokenBudget == tokenBudget && this.validator == validator
      ensures providers == {} && queries == fallbacks == 0 && lastReport == None && lastContext == None
    {
      this.primary, this.fallback, this.settings := primary, fallback, settings;
      this.tokenBudget, this.validator := tokenBudget, validator;
      providers, queries, fallbacks, lastReport, lastContext := {}, 0, 0, None, None;
    }

    method RegisterProvider(name: string)
      modifies `providers
      ensures providers == old(providers) + {name}
    {
      providers := providers + {name};
    }

    /** The context `results` are published in: with the validator's own report on these results if there
        is a validator and something was returned. */
    ghost predicate Published(results: seq<Retrieval>, age: string -> Option<real>)
      reads this, validator
    {
      var shown := if validator == null || results == [] then None else validator.lastReportV2;
      && lastContext == Some(C.ContextFor(results, tokenBudget, shown))
      && (validator != null && results != [] ==>
            && shown != None
            && shown.value.annotations == G.Annotations(validator.policy, validator.overrides, age, results))
    }

    /** Has the validator, if there is one, report on `results`. */
    method RunValidator(results: seq<Retrieval>, age: string -> Option<real>) returns (governance: Option<G.ReportV2>)
      modifies this, validator
      ensures Reported(results, age, governance)
      ensures validator != null ==> lastReport == validator.lastReport
      ensures unchanged(`queries, `fallbacks, `providers)
    {
      governance := None;
      if validator != null {
        var report := validator.Validate(results, age);
        lastReport := Some(report);
        governance := validator.lastReportV2;
      }
    }

    /** The report the validator, if there is one, has just made on `results`. */
    ghost predicate Reported(results: seq<Retrieval>, age: string -> Option<real>, governance: Option<G.ReportV2>)
      reads this, validator
    {
      if validator == null then governance == None
      else
        && governance == validator.lastReportV2 != None
        && governance.value.annotations == G.Annotations(validator.policy, validator.overrides, age, results)
    }

    method Publish(results: seq<Retrieval>, age: string -> Option<real>)
      modifies this, validator
      ensures Published(results, age)
      ensures validator != null ==> lastReport == validator.lastReport
      ensures unchanged(`queries, `fallbacks, `providers)
    {
      var governance := RunValidator(results, age);
      SetContext(results, age, governance);
    }

    /** The report is not shown when nothing was returned. */
    method SetContext(results: seq<Retrieval>, ghost age: string -> Option<real>, governance: Option<G.ReportV2>)
      requires Reported(results, age, governance)
      modifies `lastContext
      ensures Published(results, age)
    {
      var ctx := C.BuildContext(results, tokenBudget, if results == [] then None else governance);
      lastContext := Some(ctx);
    }

    function Order(provider: Option<string>): seq<string>
    {
      if TextOr(provider, "") != "" then [provider.value] else [primary] + fallback
    }

    /** The loop shared by `query_vector` and `search`, over the registered providers in order. */
    method Ask(names: seq<string>, answers: nat -> Response, age: string -> Option<real>) returns (outcome: Outcome)
      modifies this, validator
      ensures outcome == Route(settings, names, answers, 0).outcome
      ensures fallbacks == old(fallbacks) + Route(settings, names, answers, 0).failures
      ensures outcome.Returned? ==> Published(outcome.results, age)
      ensures outcome.Raised? ==> lastContext == old(lastContext)
      ensures queries == old(queries) && providers == old(providers)
    {
      var i := 0;
      while i < |names|
        invariant 0 <= i <= |names|
        invariant queries == old(queries) && providers == old(providers) && lastContext == old(lastContext)
        invariant Route(settings, names, answers, 0).outcome == Route(settings, names, answers, i).outcome
        invariant old(fallbacks) + Route(settings, names, answers, 0).failures
               == fallbacks + Route(settings, names, answers, i).failures
      {
        match answers(i) {
          case OtherFailure =>
            return Raised;
          case RetrieverFailed =>
            fallbacks := fallbacks + 1;
          case Results(raw) =>
            var results := Accepted(settings, names[i], raw);
            if results != [] {
              Publish(results, age);
              return Returned(results);
            }
        }
        i := i + 1;
      }
      Publish([], age);
      outcome := Returned([]);
    }

    /** `query_vector`: an empty provider name is passed over. */
    method QueryVector(provider: Option<string>, answers: nat -> Response, age: string -> Option<real>)
      returns (outcome: Outcome)
      modifies this, validator
      ensures var listed := if provider != None && provider.value != "" then [provider.value] else [primary] + fallback;
        var routed := Route(settings, Filter(listed, Usable(old(providers))), answers, 0);
        && outcome == routed.outcome
        && fallbacks == old(fallbacks) + routed.failures
      ensures queries == old(queries) + 1 && providers == old(providers)
      ensures outcome.Returned? ==> Published(outcome.results, age)
      ensures outcome.Raised? ==> lastContext == old(lastContext)
    {
      queries := queries + 1;
      outcome := Ask(Filter(Order(provider), Usable(providers)), answers, age);
    }

    /** `search`: as `query_vector`, but not counted as a query and without the test for an empty name. */
    method Search(provider: Option<string>, answers: nat -> Response, age: string -> Option<real>)
      returns (outcome: Outcome)
      modifies this, validator
      ensures var listed := if provider != None && provider.value != "" then [provider.value] else [primary] + fallback;
        var routed := Route(settings, Filter(listed, Registered(old(providers))), answers, 0);
        && outcome == routed.outcome
        && fallbacks == old(fallbacks) + routed.failures
      ensures queries == old(queries) && providers == old(providers)
      ensures outcome.Returned? ==> Published(outcome.results, age)
      ensures outcome.Raised? ==> lastContext == old(lastContext)
    {
      outcome := Ask(Filter(Order(provider), Registered(providers)), answers, age);
    }

    function Target(provider: Option<string>): string
    {
      if TextOr(provider, "") != "" then provider.value else primary
    }

    /** `get`: when nothing is returned, the published context is emptied exactly if the provider was
        asked and had no such record; otherwise the context of the previous call stays. */
    method Get(provider: Option<string>, answer: Lookup, age: string -> Option<real>) returns (outcome: GetOutcome)
      modifies this, validator
      ensures var target := if provider != None && provider.value != "" then provider.value else primary;
        && outcome == (
             if target !in old(providers) || answer.NotFound? || answer.LookupFailed? then Nothing
             else if answer.LookupBroke? then GetRaised
             else Got(Normalize(settings, target)(answer.raw)))
        && (!outcome.Got? ==> (lastContext ==
              if target in old(providers) && answer.NotFound?
              then Some(C.ContextFor([], tokenBudget, None)) else old(lastContext)))
      ensures outcome.Got? ==> Published([outcome.result], age)
    {
      var target := Target(provider);
      if target !in providers {
        return Nothing;
      }
      match answer
      case LookupFailed =>
        return Nothing;
      case LookupBroke =>
        return GetRaised;
      case NotFound =>
        var ctx := C.BuildContext([], tokenBudget, None);
        lastContext := Some(ctx);
        return Nothing;
      case Found(raw) =>
        var normalized := Normalize(settings, target)(raw);
        Publish([normalized], age);
        return Got(normalized);
    }
  }

  /* ----- annotations in the published context ----- */

  function NamedBy(name: string): Retrieval -> bool
  {
    (r: Retrieval) => TextOr(ChunkKey(r), "") == name
  }

  /** `f` annotates each result under the result's own name. */
  ghost predicate KeepsNames(f: Retrieval -> G.Annotation)
  {
    forall r :: f(r).chunkId == TextOr(ChunkKey(r), "")
  }

  /** A chunk id finds the annotation of the last result that has it. */
  lemma {:induction false} LastAnnotationFound(f: Retrieval -> G.Annotation, rs: seq<Retrieval>, name: string)
    requires KeepsNames(f)
    ensures var same := Filter(rs, NamedBy(name));
      C.FindAnnotation(Map(rs, f), Some(name)) == if same == [] then None else Some(f(same[|same| - 1]))
  {
    if rs != [] {
      var before, last := rs[..|rs| - 1], rs[|rs| - 1];
      assert rs == before + [last];
      LastAnnotationFound(f, before, name);
      MapLast(before, last, f);
      FilterLast(before, last, NamedBy(name));
      assert Map(rs, f)[..|rs| - 1] == Map(before, f);
    }
  }

  lemma {:induction false} NoNameFindsNothing(anns: seq<G.Annotation>)
    ensures C.FindAnnotation(anns, None) == None
  {
    if anns != [] {
      NoNameFindsNothing(anns[..|anns| - 1]);
    }
  }

  /** Looking up a name finds what annotates the last result of that name; without a name nothing is found,
      although every result was judged. */
  lemma AnnotationOfName(f: Retrieval -> G.Annotation, rs: seq<Retrieval>, key: Option<string>)
    requires KeepsNames(f)
    ensures var found := C.FindAnnotation(Map(rs, f), key);
      if key == None then found == None
      else
        var same := Filter(rs, NamedBy(key.value));
        found == if same == [] then None else Some(f(same[|same| - 1]))
  {
    if key == None {
      NoNameFindsNothing(Map(rs, f));
    } else {
      LastAnnotationFound(f, rs, key.value);
    }
  }

  /** The results that the annotations cannot tell from `r` by name. */
  function Namesakes(rs: seq<Retrieval>, r: Retrieval): seq<Retrieval>
  {
    Filter(rs, NamedBy(TextOr(ChunkKey(r), "")))
  }

  lemma ChosenIsNamesake(rs: seq<Retrieval>, budget: int, r: Retrieval)
    requires r in C.Chosen(rs, budget)
    ensures r in rs && r in Namesakes(rs, r)
  {
    C.ChosenFromResults(rs, budget, r);
    FilterMember(rs, NamedBy(TextOr(ChunkKey(r), "")), r);
  }

  lemma VerdictKeepsNames(p: G.Policy, overrides: map<string, real>, age: string -> Option<real>)
    ensures KeepsNames(G.Verdict(p, overrides, age))
  {
  }

  /** The annotation on the `i`-th block of the context made of `rs`. */
  predicate Annotated(rs: seq<Retrieval>, budget: int, report: G.ReportV2, i: nat, a: Option<G.Annotation>)
    requires i < |C.Chosen(rs, budget)|
  {
    var ctx := C.ContextFor(rs, budget, Some(report));
    && ctx.annotations != None && |ctx.annotations.value| == |ctx.blocks| == |C.Chosen(rs, budget)|
    && ctx.blocks[i] == C.MakeBlock(C.Chosen(rs, budget)[i])
    && ctx.annotations.value[i] == a
  }

  /** The last result that has the name of `r`. */
  function LastNamesake(rs: seq<Retrieval>, r: Retrieval): Retrieval
    requires Namesakes(rs, r) != []
  {
    Namesakes(rs, r)[|Namesakes(rs, r)| - 1]
  }

  /** The annotation that `r`'s name leads to. */
  function ByName(f: Retrieval -> G.Annotation, rs: seq<Retrieval>, r: Retrieval): Option<G.Annotation>
  {
    if ChunkKey(r) == None || Namesakes(rs, r) == [] then None else Some(f(LastNamesake(rs, r)))
  }

  lemma FoundByName(f: Retrieval -> G.Annotation, rs: seq<Retrieval>, r: Retrieval)
    requires KeepsNames(f)
    ensures C.FindAnnotation(Map(rs, f), ChunkKey(r)) == ByName(f, rs, r)
  {
    AnnotationOfName(f, rs, ChunkKey(r));
  }

  lemma ByNameIff(f: Retrieval -> G.Annotation, rs: seq<Retrieval>, r: Retrieval)
    requires Namesakes(rs, r) != []
    ensures ByName(f, rs, r) == Some(f(r)) <==> ChunkKey(r) != None && f(LastNamesake(rs, r)) == f(r)
  {
  }

  lemma AnnotatedAsFound(rs: seq<Retrieval>, budget: int, report: G.ReportV2, i: nat)
    requires report.annotations != [] && i < |C.Chosen(rs, budget)|
    ensures forall a :: Annotated(rs, budget, report, i, a) <==>
      a == C.FindAnnotation(report.annotations, ChunkKey(C.Chosen(rs, budget)[i]))
  {
  }

  /** Whatever annotates the results, a block is given the annotation of the last result of its name. */
  lemma AnnotatedByName(f: Retrieval -> G.Annotation, rs: seq<Retrieval>, budget: int, report: G.ReportV2, i: nat,
                        r: Retrieval)
    requires KeepsNames(f) && report.annotations == Map(rs, f)
    requires i < |C.Chosen(rs, budget)| && r == C.Chosen(rs, budget)[i]
    ensures Namesakes(rs, r) != []
    ensures forall a :: Annotated(rs, budget, report, i, a) <==> a == ByName(f, rs, r)
  {
    ChosenIsNamesake(rs, budget, r);
    FoundByName(f, rs, r);
    AnnotatedAsFound(rs, budget, report, i);
  }

  /** A block of the published context is annotated with the verdict on the very result it was made from
      exactly when that result has a name and the last result of the name has the same verdict. */
  lemma OwnAnnotationIff(p: G.Policy, overrides: map<string, real>, age: string -> Option<real>, rs: seq<Retrieval>,
                         budget: int, report: G.ReportV2, i: nat)
    requires report.annotations == G.Annotations(p, overrides, age, rs)
    requires i < |C.Chosen(rs, budget)|
    ensures var (r, verdict) := (C.Chosen(rs, budget)[i], G.Verdict(p, overrides, age));
      && Namesakes(rs, r) != []
      && Annotated(rs, budget, report, i, ByName(verdict, rs, r))
      && (Annotated(rs, budget, report, i, Some(verdict(r))) <==>
            ChunkKey(r) != None && verdict(LastNamesake(rs, r)) == verdict(r))
  {
    var r, verdict := C.Chosen(rs, budget)[i], G.Verdict(p, overrides, age);
    VerdictKeepsNames(p, overrides, age);
    AnnotatedByName(verdict, rs, budget, report, i, r);
    ByNameIff(verdict, rs, r);
  }

  /** No two results share a name and every result has one. */
  predicate DistinctlyNamed(rs: seq<Retrieval>)
  {
    && (forall r :: r in rs ==> ChunkKey(r) != None)
    && (forall j, k :: 0 <= j < k < |rs| ==> ChunkKey(rs[j]) != ChunkKey(rs[k]))
  }

  lemma OwnAnnotation(f: Retrieval -> G.Annotation, rs: seq<Retrieval>, budget: int, report: G.ReportV2, i: nat,
                      r: Retrieval)
    requires KeepsNames(f) && report.annotations == Map(rs, f) && DistinctlyNamed(rs)
    requires i < |C.Chosen(rs, budget)| && r == C.Chosen(rs, budget)[i]
    ensures Annotated(rs, budget, report, i, Some(f(r)))
  {
    ChosenIsNamesake(rs, budget, r);
    OnlyNamesake(rs, r);
    ByNameIff(f, rs, r);
    AnnotatedByName(f, rs, budget, report, i, r);
  }

  /** Then every block is annotated with its own verdict. */
  lemma DistinctNamesSuffice(p: G.Policy, overrides: map<string, real>, age: string -> Option<real>,
                             rs: seq<Retrieval>, budget: int, report: G.ReportV2, i: nat)
    requires report.annotations == G.Annotations(p, overrides, age, rs)
    requires i < |C.Chosen(rs, budget)| && DistinctlyNamed(rs)
    ensures Annotated(rs, budget, report, i, Some(G.Verdict(p, overrides, age)(C.Chosen(rs, budget)[i])))
  {
    VerdictKeepsNames(p, overrides, age);
    OwnAnnotation(G.Verdict(p, overrides, age), rs, budget, report, i, C.Chosen(rs, budget)[i]);
  }

  lemma OnlyNamesake(rs: seq<Retrieval>, r: Retrieval)
    requires r in rs && DistinctlyNamed(rs)
    ensures Namesakes(rs, r) == [r]
  {
    var named := NamedBy(TextOr(ChunkKey(r), ""));
    var k :| 0 <= k < |rs| && rs[k] == r;
    forall j | 0 <= j < |rs| && j != k ensures !named(rs[j]) {
      assert rs[j] in rs && ChunkKey(rs[j]) != ChunkKey(r);
    }
    OneKept(rs, named, k);
    FilterMember(rs, named, r);
  }

  /* ----- a verdict on the wrong result ----- */

  function PolicyOfTrust(minTrust: real): G.Policy
  {
    G.Policy(minTrust, None, None, [], [], [], [], map[])
  }

  /** A result of the chunk `c`. */
  function ChunkC(content: string, score: real, trust: real): Retrieval
  {
    Retrieval(None, Some("c"), Some(content), Some(score), Some(trust), None, None, None, None, None, map[])
  }

  lemma OneOfChunkC(content: string, budget: int)
    requires content != "" && C.EstimateTokens(content) <= budget
    ensures C.Chosen([ChunkC(content, 1.0, 0.1), ChunkC(content, 0.5, 1.0)], budget) == [ChunkC(content, 1.0, 0.1)]
  {
    var a, b := ChunkC(content, 1.0, 0.1), ChunkC(content, 0.5, 1.0);
    FilterAll([a, b], C.HasContent);
    C.RankOrder();
    S.SortFixed([a, b], C.RankOf, C.RankLe);
    assert C.Ranked([a, b]) == [a, b];
    assert [a, b][..1] == [a];
    assert C.Dedup([a]) == [a] by { C.DedupOfDistinct([a]); }
    assert C.Dedup([a, b]) == [a];
    assert C.Cost([a]) == C.TokensOf(a) + C.Cost([a][1..]);
    C.PackAll([a], budget);
  }

  lemma LaterNamesakeShown(f: Retrieval -> G.Annotation, a: Retrieval, b: Retrieval, budget: int, report: G.ReportV2)
    requires KeepsNames(f) && report.annotations == Map([a, b], f)
    requires ChunkKey(a) == ChunkKey(b) != None && C.Chosen([a, b], budget) == [a]
    ensures Annotated([a, b], budget, report, 0, Some(f(b)))
  {
    FilterAll([a, b], NamedBy(TextOr(ChunkKey(a), "")));
    assert LastNamesake([a, b], a) == b;
    AnnotatedByName(f, [a, b], budget, report, 0, a);
  }

  lemma TrustDecides(content: string, age: string -> Option<real>)
    ensures var verdict := G.Verdict(PolicyOfTrust(0.5), map[], age);
      !verdict(ChunkC(content, 1.0, 0.1)).kept && verdict(ChunkC(content, 0.5, 1.0)).kept
  {
    var p, a, b := PolicyOfTrust(0.5), ChunkC(content, 1.0, 0.1), ChunkC(content, 0.5, 1.0);
    assert G.DerivedTrust(map[], a) == 0.1 && G.DerivedTrust(map[], b) == 1.0;
    assert G.Plain(G.LowTrust) in G.ReasonsFor(p, map[], age, a);
  }

  /** Two results of one chunk, the better-ranked of which has too little trust: its block is the only one, and
      it is annotated as kept, which is the verdict on the other. */
  lemma WrongVerdictShown(content: string, budget: int, age: string -> Option<real>, report: G.ReportV2)
    requires content != "" && C.EstimateTokens(content) <= budget
    requires report.annotations ==
      G.Annotations(PolicyOfTrust(0.5), map[], age, [ChunkC(content, 1.0, 0.1), ChunkC(content, 0.5, 1.0)])
    ensures var (a, b) := (ChunkC(content, 1.0, 0.1), ChunkC(content, 0.5, 1.0));
      var verdict := G.Verdict(PolicyOfTrust(0.5), map[], age);
      && C.Chosen([a, b], budget) == [a]
      && Annotated([a, b], budget, report, 0, Some(verdict(b)))
      && !verdict(a).kept && verdict(b).kept
  {
    OneOfChunkC(content, budget);
    TrustDecides(content, age);
    VerdictKeepsNames(PolicyOfTrust(0.5), map[], age);
    LaterNamesakeShown(G.Verdict(PolicyOfTrust(0.5), map[], age), ChunkC(content, 1.0, 0.1), ChunkC(content, 0.5, 1.0),
                       budget, report);
  }
}
