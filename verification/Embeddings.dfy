/** The bridge from a batch embedding model to a one-text callable: two caches in front of a
    provider that may fail at any request. The provider is an arbitrary function of the
    request and of how many requests came before it, and the bridge's log is what it saw. */
module Embeddings {
  import opened Wrappers

  type Vector = seq<real>

  datatype Mode = DocumentMode | QueryMode

  /** What one request comes to: vectors - perhaps too few or too many - or a failure, raised
      by the SDK or already one of the tool's own typed errors. */
  datatype Response = Vectors(vectors: seq<Vector>) | SdkFailure | TypedFailure

  type Provider = (Mode, nat, seq<string>) -> Response

  datatype Error = AdapterError | TypedError | ValueError | KeyError

  datatype Request = Request(mode: Mode, texts: seq<string>, ok: bool)

  type Cache = map<string, Vector>

  datatype State = State(documents: Cache, queries: Cache, queryTexts: set<string>, log: seq<Request>)

  function CallEmbedder(provider: Provider, mode: Mode, sent: nat, texts: seq<string>): Result<seq<Vector>, Error> {
    match provider(mode, sent, texts)
    case TypedFailure => Err(TypedError)
    case SdkFailure => Err(AdapterError)
    case Vectors(vectors) => if |vectors| != |texts| then Err(AdapterError) else Ok(vectors)
  }

  /** The distinct texts, each at its first place. */
  function Distinct(texts: seq<string>): seq<string> {
    if texts == [] then []
    else
      var n := |texts| - 1;
      if texts[n] in texts[..n] then Distinct(texts[..n]) else Distinct(texts[..n]) + [texts[n]]
  }

  function NotIn(texts: seq<string>, cached: set<string>): seq<string> {
    if texts == [] then []
    else if texts[0] in cached then NotIn(texts[1..], cached)
    else [texts[0]] + NotIn(texts[1..], cached)
  }

  function Chunk(texts: seq<string>, size: nat): seq<string> {
    if |texts| <= size then texts else texts[..size]
  }

  function Rest(texts: seq<string>, size: nat): seq<string> {
    if |texts| <= size then [] else texts[size..]
  }

  function WithBatch(cache: Cache, texts: seq<string>, vectors: seq<Vector>): Cache
    requires |texts| == |vectors|
  {
    if texts == [] then cache
    else
      var n := |texts| - 1;
      WithBatch(cache, texts[..n], vectors[..n])[texts[n] := vectors[n]]
  }

  datatype Filled = Filled(cache: Cache, log: seq<Request>, failure: Option<Error>)

  /** Send the missing texts batch by batch, caching each batch as it arrives and stopping at
      the first that fails. */
  function FillFrom(
    provider: Provider, mode: Mode, size: nat, cache: Cache, log: seq<Request>, missing: seq<string>): Filled
    requires size > 0
    decreases |missing|
  {
    if missing == [] then Filled(cache, log, None)
    else
      var chunk := Chunk(missing, size);
      var r := CallEmbedder(provider, mode, |log|, chunk);
      var log' := log + [Request(mode, chunk, r.Ok?)];
      if r.Err? then Filled(cache, log', Some(r.error))
      else FillFrom(provider, mode, size, WithBatch(cache, chunk, r.value), log', Rest(missing, size))
  }

  /** A zero batch size is no range step at all, and a negative one yields no batch. */
  function Fill(
    provider: Provider, mode: Mode, size: int, cache: Cache, log: seq<Request>, texts: seq<string>): Filled
  {
    if size == 0 then Filled(cache, log, Some(ValueError))
    else if size < 0 then Filled(cache, log, None)
    else FillFrom(provider, mode, size, cache, log, NotIn(Distinct(texts), cache.Keys))
  }

  datatype Op = Prefetch(texts: seq<string>) | PrefetchQueries(texts: seq<string>) | Lookup(text: string)

  function AfterPrefetch(provider: Provider, size: int, s: State, texts: seq<string>): (State, Option<Error>) {
    var f := Fill(provider, DocumentMode, size, s.documents, s.log, texts);
    (s.(documents := f.cache, log := f.log), f.failure)
  }

  function AfterPrefetchQueries(provider: Provider, size: int, s: State, texts: seq<string>): (State, Option<Error>) {
    var distinct := Distinct(texts);
    var f := Fill(provider, QueryMode, size, s.queries, s.log, NotIn(distinct, s.documents.Keys));
    (s.(queries := f.cache, queryTexts := s.queryTexts + (set t | t in distinct), log := f.log), f.failure)
  }

  function AfterLookup(provider: Provider, size: int, s: State, text: string): (State, Result<Vector, Error>) {
    if text in s.documents then (s, Ok(s.documents[text]))
    else if text in s.queries then (s, Ok(s.queries[text]))
    else if text in s.queryTexts then
      var (after, failure) := AfterPrefetchQueries(provider, size, s, [text]);
      (after, if failure.Some? then Err(failure.value)
              else if text in after.queries then Ok(after.queries[text])
              else Err(KeyError))
    else
      var (after, failure) := AfterPrefetch(provider, size, s, [text]);
      (after, if failure.Some? then Err(failure.value)
              else if text in after.documents then Ok(after.documents[text])
              else Err(KeyError))
  }

  function After(provider: Provider, size: int, s: State, op: Op): State {
    match op
    case Prefetch(texts) => AfterPrefetch(provider, size, s, texts).0
    case PrefetchQueries(texts) => AfterPrefetchQueries(provider, size, s, texts).0
    case Lookup(text) => AfterLookup(provider, size, s, text).0
  }

  const EMPTY := State(map[], map[], {}, [])

  /** Every operation of a history in turn; a failed one leaves what it had cached. */
  function AfterHistory(provider: Provider, size: int, history: seq<Op>): State {
    if history == [] then EMPTY
    else
      var n := |history| - 1;
      After(provider, size, AfterHistory(provider, size, history[..n]), history[n])
  }

  class EmbedderBridge {
    const provider: Provider
    const batchSize: int
    var documents: Cache
    var queries: Cache
    var queryTexts: set<string>
    var log: seq<Request>

    function Abstract(): State
      reads this
    {
      State(documents, queries, queryTexts, log)
    }

    constructor (provider: Provider, batchSize: int)
      ensures this.provider == provider && this.batchSize == batchSize && Abstract() == EMPTY
    {
      this.provider, this.batchSize := provider, batchSize;
      documents, queries, queryTexts, log := map[], map[], {}, [];
    }

    method Prefetch(texts: seq<string>) returns (failure: Option<Error>)
      modifies this
      ensures (Abstract(), failure) == AfterPrefetch(provider, batchSize, old(Abstract()), texts)
    {
      documents, failure := FillCache(documents, DocumentMode, texts);
    }

    method PrefetchQueries(texts: seq<string>) returns (failure: Option<Error>)
      modifies this
      ensures (Abstract(), failure) == AfterPrefetchQueries(provider, batchSize, old(Abstract()), texts)
    {
      var distinct := Distinct(texts);
      queryTexts := queryTexts + set t | t in distinct;
      var unindexed := NotIn(distinct, documents.Keys);
      queries, failure := FillCache(queries, QueryMode, unindexed);
    }

    method Call(text: string) returns (r: Result<Vector, Error>)
      modifies this
      ensures (Abstract(), r) == AfterLookup(provider, batchSize, old(Abstract()), text)
    {
      if text in documents {
        return Ok(documents[text]);
      }
      if text in queries {
        return Ok(queries[text]);
      }
      if text in queryTexts {
        var failure := PrefetchQueries([text]);
        if failure.Some? {
          return Err(failure.value);
        }
        return if text in queries then Ok(queries[text]) else Err(KeyError);
      }
      var failure := Prefetch([text]);
      if failure.Some? {
        return Err(failure.value);
      }
      return if text in documents then Ok(documents[text]) else Err(KeyError);
    }

    /** The batching loop. The cache is handed in and back: it is one of the two fields. */
    method FillCache(before: Cache, mode: Mode, texts: seq<string>)
      returns (cache: Cache, failure: Option<Error>)
      modifies this`log
      ensures Filled(cache, log, failure) == Fill(provider, mode, batchSize, before, old(log), texts)
    {
      cache := before;
      if batchSize == 0 {
        return cache, Some(ValueError);
      }
      var missing := NotIn(Distinct(texts), cache.Keys);
      if batchSize < 0 {
        return cache, None;
      }
      while missing != []
        invariant FillFrom(provider, mode, batchSize, cache, log, missing)
               == Fill(provider, mode, batchSize, before, old(log), texts)
        decreases |missing|
      {
        var chunk := Chunk(missing, batchSize);
        var r := CallEmbedder(provider, mode, |log|, chunk);
        log := log + [Request(mode, chunk, r.Ok?)];
        if r.Err? {
          return cache, Some(r.error);
        }
        cache := WithBatch(cache, chunk, r.value);
        missing := Rest(missing, batchSize);
      }
      return cache, None;
    }
  }

  /** The chunk at which sending `missing` batch by batch fails, if it does. */
  function Refused(provider: Provider, mode: Mode, size: nat, sent: nat, missing: seq<string>): Option<seq<string>>
    requires size > 0
    decreases |missing|
  {
    if missing == [] then None
    else if CallEmbedder(provider, mode, sent, Chunk(missing, size)).Err? then Some(Chunk(missing, size))
    else Refused(provider, mode, size, sent + 1, Rest(missing, size))
  }

  function Flatten<T>(batches: seq<seq<T>>): seq<T> {
    if batches == [] then [] else batches[0] + Flatten(batches[1..])
  }

  lemma FlattenStep<T>(chunk: seq<T>, later: seq<seq<T>>)
    ensures Flatten([chunk] + later) == chunk + Flatten(later)
  {
    assert ([chunk] + later)[1..] == later;
  }

  /** The vectors each answered batch was answered with. */
  function Answers(provider: Provider, mode: Mode, size: nat, sent: nat, missing: seq<string>): seq<seq<Vector>>
    requires size > 0
    decreases |missing|
  {
    if missing == [] || CallEmbedder(provider, mode, sent, Chunk(missing, size)).Err? then []
    else
      [CallEmbedder(provider, mode, sent, Chunk(missing, size)).value]
      + Answers(provider, mode, size, sent + 1, Rest(missing, size))
  }

  /** `embed_batched`: the chunks of all the texts, in input order. */
  method EmbedBatched(provider: Provider, mode: Mode, sent: nat, texts: seq<string>, batchSize: int)
    returns (r: Result<seq<Vector>, Error>)
    ensures batchSize == 0 ==> r == Err(ValueError)
    ensures batchSize < 0 ==> r == Ok([])
    ensures batchSize > 0 ==> (r.Err? <==> Refused(provider, mode, batchSize, sent, texts).Some?)
    ensures batchSize > 0 && r.Ok? ==>
              |r.value| == |texts| && r.value == Flatten(Answers(provider, mode, batchSize, sent, texts))
    ensures batchSize > 0 && r.Err? ==>
              var answered := |Answers(provider, mode, batchSize, sent, texts)|;
              var refused := Refused(provider, mode, batchSize, sent, texts);
              refused.Some? && CallEmbedder(provider, mode, sent + answered, refused.value) == Err(r.error)
    ensures batchSize > 0 && r.Ok? ==> OneByOne(provider, mode, texts, r.value)
  {
    if batchSize == 0 {
      return Err(ValueError);
    }
    if batchSize < 0 {
      return Ok([]);
    }
    var vectors: seq<Vector> := [];
    var calls: nat := sent;
    SoFarStart(provider, mode, batchSize, sent, texts);
    while |vectors| < |texts|
      invariant SoFar(provider, mode, batchSize, sent, texts, calls, vectors)
      decreases |texts| - |vectors|
    {
      var chunk := Chunk(texts[|vectors|..], batchSize);
      var batch := CallEmbedder(provider, mode, calls, chunk);
      if batch.Err? {
        SoFarRefused(provider, mode, batchSize, sent, texts, calls, vectors);
        return Err(batch.error);
      }
      SoFarStep(provider, mode, batchSize, sent, texts, calls, vectors);
      calls := calls + 1;
      vectors := vectors + batch.value;
    }
    SoFarDone(provider, mode, batchSize, sent, texts, calls, vectors);
    HonestPointwise(provider, mode, batchSize, sent, texts);
    return Ok(vectors);
  }

  /** As many vectors as texts, and from a provider that has one vector for each text in this
      mode, those in order. */
  ghost predicate OneByOne(provider: Provider, mode: Mode, texts: seq<string>, vectors: seq<Vector>) {
    && |vectors| == |texts|
    && forall vec | Honest(provider, vec) :: forall i | 0 <= i < |texts| :: vectors[i] == vec(mode, texts[i])
  }

  lemma HonestPointwise(provider: Provider, mode: Mode, size: nat, sent: nat, texts: seq<string>)
    requires size > 0 && Refused(provider, mode, size, sent, texts).None?
    ensures OneByOne(provider, mode, texts, Flatten(Answers(provider, mode, size, sent, texts)))
  {
    AnswersFill(provider, mode, size, sent, texts);
    forall vec | Honest(provider, vec)
      ensures forall i | 0 <= i < |texts| ::
                Flatten(Answers(provider, mode, size, sent, texts))[i] == vec(mode, texts[i])
    {
      HonestAnswers(provider, mode, size, sent, texts, vec);
    }
  }

  lemma {:induction false} AnswersFill(provider: Provider, mode: Mode, size: nat, sent: nat, texts: seq<string>)
    requires size > 0 && Refused(provider, mode, size, sent, texts).None?
    ensures |Flatten(Answers(provider, mode, size, sent, texts))| == |texts|
    decreases |texts|
  {
    if texts != [] {
      AnswersFill(provider, mode, size, sent + 1, Rest(texts, size));
      AnswersStep(provider, mode, size, sent, texts, []);
    }
  }

  /** Where the loop stands: the vectors so far and what the rest will be answered make up all
      the answers, and whatever will be refused is still ahead. */
  ghost predicate SoFar(
    provider: Provider, mode: Mode, size: nat, sent: nat, texts: seq<string>, calls: nat, vectors: seq<Vector>)
    requires size > 0
  {
    && |vectors| <= |texts| && sent <= calls
    && var rest := texts[|vectors|..];
       && Refused(provider, mode, size, calls, rest) == Refused(provider, mode, size, sent, texts)
       && vectors + Flatten(Answers(provider, mode, size, calls, rest))
          == Flatten(Answers(provider, mode, size, sent, texts))
       && calls - sent + |Answers(provider, mode, size, calls, rest)| == |Answers(provider, mode, size, sent, texts)|
  }

  lemma SoFarStart(provider: Provider, mode: Mode, size: nat, sent: nat, texts: seq<string>)
    requires size > 0
    ensures SoFar(provider, mode, size, sent, texts, sent, [])
  {
    assert texts[0..] == texts;
  }

  lemma SoFarStep(
    provider: Provider, mode: Mode, size: nat, sent: nat, texts: seq<string>, calls: nat, vectors: seq<Vector>)
    requires size > 0 && SoFar(provider, mode, size, sent, texts, calls, vectors) && |vectors| < |texts|
    requires CallEmbedder(provider, mode, calls, Chunk(texts[|vectors|..], size)).Ok?
    ensures
      var batch := CallEmbedder(provider, mode, calls, Chunk(texts[|vectors|..], size)).value;
      |batch| > 0 && SoFar(provider, mode, size, sent, texts, calls + 1, vectors + batch)
  {
    var rest := texts[|vectors|..];
    var batch := CallEmbedder(provider, mode, calls, Chunk(rest, size)).value;
    AnswersStep(provider, mode, size, calls, rest, vectors);
    assert texts[|vectors + batch|..] == Rest(rest, size);
  }

  lemma SoFarRefused(
    provider: Provider, mode: Mode, size: nat, sent: nat, texts: seq<string>, calls: nat, vectors: seq<Vector>)
    requires size > 0 && SoFar(provider, mode, size, sent, texts, calls, vectors) && |vectors| < |texts|
    requires CallEmbedder(provider, mode, calls, Chunk(texts[|vectors|..], size)).Err?
    ensures Refused(provider, mode, size, sent, texts) == Some(Chunk(texts[|vectors|..], size))
    ensures calls == sent + |Answers(provider, mode, size, sent, texts)|
  {
  }

  lemma SoFarDone(
    provider: Provider, mode: Mode, size: nat, sent: nat, texts: seq<string>, calls: nat, vectors: seq<Vector>)
    requires size > 0 && SoFar(provider, mode, size, sent, texts, calls, vectors) && |vectors| == |texts|
    ensures Refused(provider, mode, size, sent, texts).None?
    ensures vectors == Flatten(Answers(provider, mode, size, sent, texts))
  {
    assert texts[|vectors|..] == [];
  }

  lemma AnswersStep(
    provider: Provider, mode: Mode, size: nat, sent: nat, missing: seq<string>, vectors: seq<Vector>)
    requires size > 0 && missing != [] && CallEmbedder(provider, mode, sent, Chunk(missing, size)).Ok?
    ensures
      var batch := CallEmbedder(provider, mode, sent, Chunk(missing, size)).value;
      var later := Answers(provider, mode, size, sent + 1, Rest(missing, size));
      && Refused(provider, mode, size, sent, missing) == Refused(provider, mode, size, sent + 1, Rest(missing, size))
      && |Answers(provider, mode, size, sent, missing)| == 1 + |later|
      && vectors + Flatten(Answers(provider, mode, size, sent, missing)) == vectors + batch + Flatten(later)
  {
    FlattenStep(CallEmbedder(provider, mode, sent, Chunk(missing, size)).value,
                Answers(provider, mode, size, sent + 1, Rest(missing, size)));
  }

  /** With a provider that answers each text with the model's vector, and nothing refused, the
      answers are the texts' vectors in order. */
  lemma {:induction false} HonestAnswers(
    provider: Provider, mode: Mode, size: nat, sent: nat, texts: seq<string>, vec: (Mode, string) -> Vector)
    requires size > 0 && Honest(provider, vec) && Refused(provider, mode, size, sent, texts).None?
    ensures
      var vectors := Flatten(Answers(provider, mode, size, sent, texts));
      |vectors| == |texts| && forall i | 0 <= i < |texts| :: vectors[i] == vec(mode, texts[i])
    decreases |texts|
  {
    if texts != [] {
      var chunk, rest := Chunk(texts, size), Rest(texts, size);
      HonestAnswers(provider, mode, size, sent + 1, rest, vec);
      AnswersStep(provider, mode, size, sent, texts, []);
      HonestBatch(provider, mode, sent, chunk, vec);
      assert texts == chunk + rest;
    }
  }

  /** A provider that, whenever it answers with the right count, answers each text with the
      vector the model has for it in that mode. Nothing is asked of when it fails. */
  ghost predicate Honest(provider: Provider, vec: (Mode, string) -> Vector) {
    forall mode, sent, texts ::
      var r := provider(mode, sent, texts);
      r.Vectors? && |r.vectors| == |texts| ==>
        forall i | 0 <= i < |texts| :: r.vectors[i] == vec(mode, texts[i])
  }

  lemma HonestBatch(provider: Provider, mode: Mode, sent: nat, texts: seq<string>, vec: (Mode, string) -> Vector)
    requires Honest(provider, vec) && CallEmbedder(provider, mode, sent, texts).Ok?
    ensures forall i | 0 <= i < |texts| :: CallEmbedder(provider, mode, sent, texts).value[i] == vec(mode, texts[i])
  {
  }
}
