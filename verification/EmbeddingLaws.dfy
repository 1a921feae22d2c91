/** What the bridge promises over every history of prefetches, query registrations and calls,
    whatever requests fail: which vector a text gets, what each request carried, and that no
    text is paid for twice. */
module EmbeddingLaws {
  import opened Embeddings
  import opened Wrappers

  /** The texts successfully sent in one mode, in order. */
  function Sent(log: seq<Request>, mode: Mode): seq<string> {
    if log == [] then []
    else
      var n := |log| - 1;
      if log[n].mode == mode && log[n].ok then Sent(log[..n], mode) + log[n].texts else Sent(log[..n], mode)
  }

  ghost predicate NoRepeats(texts: seq<string>) {
    forall i, j | 0 <= i < j < |texts| :: texts[i] != texts[j]
  }

  ghost predicate RequestsFit(log: seq<Request>, size: int) {
    forall r | r in log :: 1 <= |r.texts| <= size
  }

  /** A cache holds exactly what was successfully sent in its mode, and nothing was sent
      twice. Nothing is asked of the provider. */
  ghost predicate Mirrors(cache: Cache, log: seq<Request>, mode: Mode) {
    && (forall x :: x in cache <==> x in Sent(log, mode))
    && NoRepeats(Sent(log, mode))
  }

  /** Each cached vector is the one the model has for the text in that mode. */
  ghost predicate TrueTo(cache: Cache, mode: Mode, vec: (Mode, string) -> Vector) {
    forall x | x in cache :: cache[x] == vec(mode, x)
  }

  lemma SentSnoc(log: seq<Request>, r: Request, mode: Mode)
    ensures Sent(log + [r], mode) == if r.mode == mode && r.ok then Sent(log, mode) + r.texts else Sent(log, mode)
  {
    assert (log + [r])[..|log|] == log;
  }

  lemma {:induction false} DistinctLaws(texts: seq<string>)
    ensures NoRepeats(Distinct(texts))
    ensures forall x :: x in Distinct(texts) <==> x in texts
  {
    if texts != [] {
      var n := |texts| - 1;
      DistinctLaws(texts[..n]);
      assert texts == texts[..n] + [texts[n]];
    }
  }

  lemma {:induction false} NotInLaws(texts: seq<string>, cached: set<string>)
    requires NoRepeats(texts)
    ensures NoRepeats(NotIn(texts, cached))
    ensures forall x :: x in NotIn(texts, cached) <==> x in texts && x !in cached
  {
    if texts != [] {
      assert NoRepeats(texts[1..]);
      NotInLaws(texts[1..], cached);
    }
  }

  lemma {:induction false} WithBatchKeys(cache: Cache, texts: seq<string>, vectors: seq<Vector>, x: string)
    requires |texts| == |vectors|
    ensures x in WithBatch(cache, texts, vectors) <==> x in cache || x in texts
  {
    if texts != [] {
      var n := |texts| - 1;
      assert texts == texts[..n] + [texts[n]];
      WithBatchKeys(cache, texts[..n], vectors[..n], x);
    }
  }

  lemma {:induction false} WithBatchKeepsOld(cache: Cache, texts: seq<string>, vectors: seq<Vector>, x: string)
    requires |texts| == |vectors| && x in cache && x !in texts
    ensures x in WithBatch(cache, texts, vectors) && WithBatch(cache, texts, vectors)[x] == cache[x]
  {
    if texts != [] {
      var n := |texts| - 1;
      assert texts[n] in texts;
      WithBatchKeepsOld(cache, texts[..n], vectors[..n], x);
    }
  }

  lemma {:induction false} WithBatchAddsNew(cache: Cache, texts: seq<string>, vectors: seq<Vector>, i: nat)
    requires |texts| == |vectors| && NoRepeats(texts) && i < |texts|
    ensures texts[i] in WithBatch(cache, texts, vectors) && WithBatch(cache, texts, vectors)[texts[i]] == vectors[i]
  {
    var n := |texts| - 1;
    if i < n {
      assert NoRepeats(texts[..n]);
      WithBatchAddsNew(cache, texts[..n], vectors[..n], i);
    }
  }

  /** One successful batch of new texts keeps the mirror. */
  lemma OneBatch(mode: Mode, cache: Cache, log: seq<Request>, chunk: seq<string>, vectors: seq<Vector>)
    requires Mirrors(cache, log, mode) && |chunk| == |vectors|
    requires NoRepeats(chunk) && forall x | x in chunk :: x !in cache
    ensures Mirrors(WithBatch(cache, chunk, vectors), log + [Request(mode, chunk, true)], mode)
  {
    var now, sent := WithBatch(cache, chunk, vectors), Sent(log, mode);
    SentSnoc(log, Request(mode, chunk, true), mode);
    forall x ensures x in now <==> x in sent + chunk {
      WithBatchKeys(cache, chunk, vectors, x);
    }
    NoRepeatsTogether(sent, chunk);
  }

  lemma NoRepeatsTogether(a: seq<string>, b: seq<string>)
    requires NoRepeats(a) && NoRepeats(b) && forall x | x in b :: x !in a
    ensures NoRepeats(a + b)
  {
    var all := a + b;
    forall i, j | 0 <= i < j < |all| ensures all[i] != all[j] {
      if i < |a| <= j {
        assert all[i] == a[i] && all[j] == b[j - |a|] && b[j - |a|] in b;
      }
    }
  }

  lemma {:induction false} BatchIsTrue(
    mode: Mode, vec: (Mode, string) -> Vector, cache: Cache, texts: seq<string>, vectors: seq<Vector>)
    requires TrueTo(cache, mode, vec) && |texts| == |vectors|
    requires forall i | 0 <= i < |texts| :: vectors[i] == vec(mode, texts[i])
    ensures TrueTo(WithBatch(cache, texts, vectors), mode, vec)
  {
    if texts != [] {
      var n := |texts| - 1;
      BatchIsTrue(mode, vec, cache, texts[..n], vectors[..n]);
    }
  }

  lemma ChunkAndRest(missing: seq<string>, size: nat)
    requires size > 0 && missing != []
    ensures missing == Chunk(missing, size) + Rest(missing, size)
    ensures 1 <= |Chunk(missing, size)| <= size
  {
  }

  lemma PartsNoRepeats(a: seq<string>, b: seq<string>)
    requires NoRepeats(a + b)
    ensures NoRepeats(a) && NoRepeats(b) && forall x | x in b :: x !in a
  {
    var all := a + b;
    assert forall i | 0 <= i < |a| :: all[i] == a[i];
    assert forall i | 0 <= i < |b| :: all[|a| + i] == b[i];
  }

  /** A fill from texts not yet cached keeps the mirror, and the requests in bounds. */
  lemma {:induction false} FillFromMirrors(
    provider: Provider, mode: Mode, size: nat, cache: Cache, log: seq<Request>, missing: seq<string>)
    requires size > 0 && Mirrors(cache, log, mode) && RequestsFit(log, size)
    requires NoRepeats(missing) && forall x | x in missing :: x !in cache
    ensures
      var f := FillFrom(provider, mode, size, cache, log, missing);
      Mirrors(f.cache, f.log, mode) && RequestsFit(f.log, size)
    decreases |missing|
  {
    if missing != [] {
      var chunk, rest := Chunk(missing, size), Rest(missing, size);
      ChunkAndRest(missing, size);
      PartsNoRepeats(chunk, rest);
      var r := CallEmbedder(provider, mode, |log|, chunk);
      if r.Ok? {
        OneBatch(mode, cache, log, chunk, r.value);
        forall x { WithBatchKeys(cache, chunk, r.value, x); }
        FillFromMirrors(
          provider, mode, size, WithBatch(cache, chunk, r.value), log + [Request(mode, chunk, true)], rest);
      } else {
        SentSnoc(log, Request(mode, chunk, false), mode);
      }
    }
  }

  /** It sends nothing in the other mode. */
  lemma {:induction false} FillFromSendsItsMode(
    provider: Provider, mode: Mode, size: nat, cache: Cache, log: seq<Request>, missing: seq<string>, other: Mode)
    requires size > 0 && other != mode
    ensures Sent(FillFrom(provider, mode, size, cache, log, missing).log, other) == Sent(log, other)
    decreases |missing|
  {
    if missing != [] {
      var chunk := Chunk(missing, size);
      var r := CallEmbedder(provider, mode, |log|, chunk);
      SentSnoc(log, Request(mode, chunk, r.Ok?), other);
      if r.Ok? {
        FillFromSendsItsMode(
          provider, mode, size, WithBatch(cache, chunk, r.value), log + [Request(mode, chunk, true)],
          Rest(missing, size), other);
      }
    }
  }

  /** It loses no key, gains none but the missing texts, and all of those if it does not fail. */
  lemma {:induction false} FillFromGrows(
    provider: Provider, mode: Mode, size: nat, cache: Cache, log: seq<Request>, missing: seq<string>, x: string)
    requires size > 0
    ensures
      var f := FillFrom(provider, mode, size, cache, log, missing);
      && (x in cache ==> x in f.cache)
      && (x in f.cache ==> x in cache || x in missing)
      && (f.failure.None? && x in missing ==> x in f.cache)
    decreases |missing|
  {
    if missing != [] {
      var chunk := Chunk(missing, size);
      ChunkAndRest(missing, size);
      var r := CallEmbedder(provider, mode, |log|, chunk);
      if r.Ok? {
        WithBatchKeys(cache, chunk, r.value, x);
        FillFromGrows(
          provider, mode, size, WithBatch(cache, chunk, r.value), log + [Request(mode, chunk, true)],
          Rest(missing, size), x);
      }
    }
  }

  lemma {:induction false} FillFromIsTrue(
    provider: Provider, vec: (Mode, string) -> Vector, mode: Mode, size: nat, cache: Cache, log: seq<Request>,
    missing: seq<string>)
    requires size > 0 && Honest(provider, vec) && TrueTo(cache, mode, vec)
    ensures TrueTo(FillFrom(provider, mode, size, cache, log, missing).cache, mode, vec)
    decreases |missing|
  {
    if missing != [] {
      var chunk := Chunk(missing, size);
      var r := CallEmbedder(provider, mode, |log|, chunk);
      if r.Ok? {
        HonestBatch(provider, mode, |log|, chunk, vec);
        BatchIsTrue(mode, vec, cache, chunk, r.value);
        FillFromIsTrue(
          provider, vec, mode, size, WithBatch(cache, chunk, r.value), log + [Request(mode, chunk, true)],
          Rest(missing, size));
      }
    }
  }

  /** What holds of the bridge after any history, of any provider. */
  ghost predicate Invariant(s: State, size: int) {
    && Mirrors(s.documents, s.log, DocumentMode)
    && Mirrors(s.queries, s.log, QueryMode)
    && s.queries.Keys <= s.queryTexts
    && RequestsFit(s.log, size)
  }

  ghost predicate AllTrue(s: State, vec: (Mode, string) -> Vector) {
    TrueTo(s.documents, DocumentMode, vec) && TrueTo(s.queries, QueryMode, vec)
  }

  lemma FillMirrors(provider: Provider, mode: Mode, size: int, cache: Cache, log: seq<Request>, texts: seq<string>)
    requires Mirrors(cache, log, mode) && RequestsFit(log, size)
    ensures
      var f := Fill(provider, mode, size, cache, log, texts);
      && Mirrors(f.cache, f.log, mode) && RequestsFit(f.log, size)
      && (forall other | other != mode :: Sent(f.log, other) == Sent(log, other))
  {
    if size > 0 {
      var missing := NotIn(Distinct(texts), cache.Keys);
      DistinctLaws(texts);
      NotInLaws(Distinct(texts), cache.Keys);
      FillFromMirrors(provider, mode, size, cache, log, missing);
      forall other | other != mode {
        FillFromSendsItsMode(provider, mode, size, cache, log, missing, other);
      }
    }
  }

  lemma FillGrows(
    provider: Provider, mode: Mode, size: int, cache: Cache, log: seq<Request>, texts: seq<string>, x: string)
    ensures
      var f := Fill(provider, mode, size, cache, log, texts);
      (x in cache ==> x in f.cache) && (x in f.cache ==> x in cache || x in texts)
  {
    if size > 0 {
      DistinctLaws(texts);
      NotInLaws(Distinct(texts), cache.Keys);
      FillFromGrows(provider, mode, size, cache, log, NotIn(Distinct(texts), cache.Keys), x);
    }
  }

  lemma PrefetchKeeps(provider: Provider, size: int, s: State, texts: seq<string>)
    requires Invariant(s, size)
    ensures Invariant(AfterPrefetch(provider, size, s, texts).0, size)
  {
    FillMirrors(provider, DocumentMode, size, s.documents, s.log, texts);
  }

  lemma PrefetchQueriesKeeps(provider: Provider, size: int, s: State, texts: seq<string>)
    requires Invariant(s, size)
    ensures Invariant(AfterPrefetchQueries(provider, size, s, texts).0, size)
  {
    var unindexed := NotIn(Distinct(texts), s.documents.Keys);
    DistinctLaws(texts);
    NotInLaws(Distinct(texts), s.documents.Keys);
    FillMirrors(provider, QueryMode, size, s.queries, s.log, unindexed);
    var after := AfterPrefetchQueries(provider, size, s, texts).0;
    forall x | x in after.queries ensures x in after.queryTexts {
      FillGrows(provider, QueryMode, size, s.queries, s.log, unindexed, x);
    }
  }

  ghost predicate Registered(history: seq<Op>, text: string) {
    exists op | op in history :: op.PrefetchQueries? && text in op.texts
  }

  lemma OpKeepsInvariant(provider: Provider, size: int, s: State, op: Op)
    requires Invariant(s, size)
    ensures Invariant(After(provider, size, s, op), size)
  {
    match op
    case Prefetch(texts) => PrefetchKeeps(provider, size, s, texts);
    case PrefetchQueries(texts) => PrefetchQueriesKeeps(provider, size, s, texts);
    case Lookup(text) =>
      PrefetchKeeps(provider, size, s, [text]);
      PrefetchQueriesKeeps(provider, size, s, [text]);
  }

  /** Over every history, whatever the provider answers or fails to: the caches hold exactly
      what was successfully sent, every request carries between one and `size` texts, and no
      text is successfully sent twice in one mode. */
  lemma {:induction false} HistoryKeepsInvariant(provider: Provider, size: int, history: seq<Op>)
    ensures Invariant(AfterHistory(provider, size, history), size)
  {
    if history != [] {
      var n := |history| - 1;
      HistoryKeepsInvariant(provider, size, history[..n]);
      OpKeepsInvariant(provider, size, AfterHistory(provider, size, history[..n]), history[n]);
    }
  }

  lemma FillIsTrue(
    provider: Provider, vec: (Mode, string) -> Vector, mode: Mode, size: int, cache: Cache, log: seq<Request>,
    texts: seq<string>)
    requires Honest(provider, vec) && TrueTo(cache, mode, vec)
    ensures TrueTo(Fill(provider, mode, size, cache, log, texts).cache, mode, vec)
  {
    if size > 0 {
      FillFromIsTrue(provider, vec, mode, size, cache, log, NotIn(Distinct(texts), cache.Keys));
    }
  }

  lemma OpIsTrue(provider: Provider, vec: (Mode, string) -> Vector, size: int, s: State, op: Op)
    requires Honest(provider, vec) && AllTrue(s, vec)
    ensures AllTrue(After(provider, size, s, op), vec)
  {
    match op
    case Prefetch(texts) => FillIsTrue(provider, vec, DocumentMode, size, s.documents, s.log, texts);
    case PrefetchQueries(texts) =>
      FillIsTrue(provider, vec, QueryMode, size, s.queries, s.log, NotIn(Distinct(texts), s.documents.Keys));
    case Lookup(text) =>
      FillIsTrue(provider, vec, DocumentMode, size, s.documents, s.log, [text]);
      FillIsTrue(provider, vec, QueryMode, size, s.queries, s.log, NotIn(Distinct([text]), s.documents.Keys));
  }

  /** A provider that answers each text with the model's vector fills the caches with those. */
  lemma {:induction false} HistoryIsTrue(
    provider: Provider, vec: (Mode, string) -> Vector, size: int, history: seq<Op>)
    requires Honest(provider, vec)
    ensures AllTrue(AfterHistory(provider, size, history), vec)
  {
    if history != [] {
      var n := |history| - 1;
      HistoryIsTrue(provider, vec, size, history[..n]);
      OpIsTrue(provider, vec, size, AfterHistory(provider, size, history[..n]), history[n]);
    }
  }

  lemma OpRegisters(provider: Provider, size: int, s: State, op: Op, text: string)
    ensures text in After(provider, size, s, op).queryTexts
       <==> text in s.queryTexts || (op.PrefetchQueries? && text in op.texts)
  {
    match op
    case Prefetch(_) =>
    case PrefetchQueries(texts) => DistinctLaws(texts);
    case Lookup(t) => DistinctLaws([t]);
  }

  /** A text counts as a query exactly if some registration named it - even one whose
      embedding failed. */
  lemma {:induction false} HistoryRegisters(provider: Provider, size: int, history: seq<Op>, text: string)
    ensures text in AfterHistory(provider, size, history).queryTexts <==> Registered(history, text)
  {
    if history != [] {
      var n := |history| - 1;
      HistoryRegisters(provider, size, history[..n], text);
      OpRegisters(provider, size, AfterHistory(provider, size, history[..n]), history[n], text);
      assert history == history[..n] + [history[n]];
    }
  }

  /** Refinement of the two-line specification: after any history, a successful call gives a
      text the document vector if it was ever embedded as a document or was never registered
      as a query, and the query vector otherwise. */
  lemma CallAfterHistory(
    provider: Provider, vec: (Mode, string) -> Vector, size: int, history: seq<Op>, text: string)
    requires Honest(provider, vec)
    ensures
      var s := AfterHistory(provider, size, history);
      var (after, r) := AfterLookup(provider, size, s, text);
      r.Ok? ==>
        r.value == if text in Sent(s.log, DocumentMode) || !Registered(history, text)
                   then vec(DocumentMode, text) else vec(QueryMode, text)
  {
    var s := AfterHistory(provider, size, history);
    HistoryKeepsInvariant(provider, size, history);
    HistoryRegisters(provider, size, history, text);
    HistoryIsTrue(provider, vec, size, history);
    OpIsTrue(provider, vec, size, s, Lookup(text));
    OpKeepsInvariant(provider, size, s, Lookup(text));
  }

  /** No operation takes a document out of the cache. */
  lemma OnceSentStaysSent(provider: Provider, size: int, s: State, op: Op, text: string)
    requires text in s.documents
    ensures text in After(provider, size, s, op).documents
  {
    match op
    case Prefetch(texts) => FillGrows(provider, DocumentMode, size, s.documents, s.log, texts, text);
    case PrefetchQueries(_) =>
    case Lookup(t) => FillGrows(provider, DocumentMode, size, s.documents, s.log, [t], text);
  }

  lemma AfterOneMore(provider: Provider, size: int, history: seq<Op>, op: Op)
    ensures AfterHistory(provider, size, history + [op])
         == After(provider, size, AfterHistory(provider, size, history), op)
  {
    assert (history + [op])[..|history|] == history;
  }

  lemma {:induction false} DocumentsStay(
    provider: Provider, size: int, history: seq<Op>, more: seq<Op>, text: string)
    requires text in AfterHistory(provider, size, history).documents
    ensures text in AfterHistory(provider, size, history + more).documents
  {
    if more == [] {
      assert history + more == history;
    } else {
      var n := |more| - 1;
      var before := history + more[..n];
      assert history + more == before + [more[n]];
      DocumentsStay(provider, size, history, more[..n], text);
      OnceSentStaysSent(provider, size, AfterHistory(provider, size, before), more[n], text);
      AfterOneMore(provider, size, before, more[n]);
    }
  }

  /** Once a document, always a document: whatever follows, a call gives the document vector
      and sends nothing, even where the text is registered as a query later. */
  lemma OnceADocument(
    provider: Provider, vec: (Mode, string) -> Vector, size: int, history: seq<Op>, more: seq<Op>, text: string)
    requires Honest(provider, vec)
    requires text in Sent(AfterHistory(provider, size, history).log, DocumentMode)
    ensures
      var s := AfterHistory(provider, size, history + more);
      AfterLookup(provider, size, s, text) == (s, Ok(vec(DocumentMode, text)))
  {
    HistoryKeepsInvariant(provider, size, history);
    DocumentsStay(provider, size, history, more, text);
    HistoryIsTrue(provider, vec, size, history + more);
  }

  // ---------- Accounting for one fill ----------

  function Batches(missing: seq<string>, size: nat): seq<seq<string>>
    requires size > 0
    decreases |missing|
  {
    if missing == [] then [] else [Chunk(missing, size)] + Batches(Rest(missing, size), size)
  }

  function Requests(mode: Mode, batches: seq<seq<string>>): seq<Request> {
    if batches == [] then [] else [Request(mode, batches[0], true)] + Requests(mode, batches[1..])
  }

  /** The batches are the missing texts, cut in order into runs of 1 to `size`. */
  lemma {:induction false} BatchesCover(missing: seq<string>, size: nat)
    requires size > 0
    ensures Flatten(Batches(missing, size)) == missing
    ensures forall b | b in Batches(missing, size) :: 1 <= |b| <= size
    decreases |missing|
  {
    if missing != [] {
      ChunkAndRest(missing, size);
      BatchesCover(Rest(missing, size), size);
    }
  }

  /** The batches a fill gets answered before it fails or ends. */
  function Answered(provider: Provider, mode: Mode, size: nat, sent: nat, missing: seq<string>): seq<seq<string>>
    requires size > 0
    decreases |missing|
  {
    if missing == [] || CallEmbedder(provider, mode, sent, Chunk(missing, size)).Err? then []
    else [Chunk(missing, size)] + Answered(provider, mode, size, sent + 1, Rest(missing, size))
  }

  /** The answered batches are the first ones, the refused one is the next, and nothing is
      refused exactly when all were answered. */
  lemma {:induction false} AnsweredThenRefused(
    provider: Provider, mode: Mode, size: nat, sent: nat, missing: seq<string>)
    requires size > 0
    ensures
      var answered := Answered(provider, mode, size, sent, missing);
      var refused := Refused(provider, mode, size, sent, missing);
      if refused.None? then answered == Batches(missing, size)
      else answered + [refused.value] <= Batches(missing, size)
    decreases |missing|
  {
    if missing != [] {
      var chunk, rest := Chunk(missing, size), Rest(missing, size);
      AnsweredThenRefused(provider, mode, size, sent + 1, rest);
      if CallEmbedder(provider, mode, sent, chunk).Ok? && Refused(provider, mode, size, sent, missing).Some? {
        var later := Answered(provider, mode, size, sent + 1, rest);
        var refused := Refused(provider, mode, size, sent, missing).value;
        assert [chunk] + later + [refused] == [chunk] + (later + [refused]);
      }
    }
  }

  function Failure(mode: Mode, refused: Option<seq<string>>): seq<Request> {
    if refused.None? then [] else [Request(mode, refused.value, false)]
  }

  lemma FillStep(
    provider: Provider, mode: Mode, size: nat, cache: Cache, log: seq<Request>, missing: seq<string>)
    requires size > 0 && missing != []
    requires CallEmbedder(provider, mode, |log|, Chunk(missing, size)).Ok?
    ensures
      var chunk, rest := Chunk(missing, size), Rest(missing, size);
      var vectors := CallEmbedder(provider, mode, |log|, chunk).value;
      && FillFrom(provider, mode, size, cache, log, missing)
         == FillFrom(provider, mode, size, WithBatch(cache, chunk, vectors), log + [Request(mode, chunk, true)], rest)
      && Answered(provider, mode, size, |log|, missing) == [chunk] + Answered(provider, mode, size, |log| + 1, rest)
      && Refused(provider, mode, size, |log|, missing) == Refused(provider, mode, size, |log| + 1, rest)
  {
  }

  lemma RequestsStep(log: seq<Request>, mode: Mode, chunk: seq<string>, later: seq<seq<string>>, tail: seq<Request>)
    ensures log + [Request(mode, chunk, true)] + Requests(mode, later) + tail
         == log + Requests(mode, [chunk] + later) + tail
  {
    assert ([chunk] + later)[1..] == later;
  }

  /** A fill sends the answered batches in order, then the refused one if any, and no more. */
  lemma {:induction false} FillSends(
    provider: Provider, mode: Mode, size: nat, cache: Cache, log: seq<Request>, missing: seq<string>)
    requires size > 0
    ensures
      var f := FillFrom(provider, mode, size, cache, log, missing);
      var refused := Refused(provider, mode, size, |log|, missing);
      && (f.failure.None? <==> refused.None?)
      && f.log == log + Requests(mode, Answered(provider, mode, size, |log|, missing)) + Failure(mode, refused)
    decreases |missing|
  {
    if missing != [] && CallEmbedder(provider, mode, |log|, Chunk(missing, size)).Ok? {
      var chunk, rest := Chunk(missing, size), Rest(missing, size);
      var vectors := CallEmbedder(provider, mode, |log|, chunk).value;
      var log' := log + [Request(mode, chunk, true)];
      FillStep(provider, mode, size, cache, log, missing);
      FillSends(provider, mode, size, WithBatch(cache, chunk, vectors), log', rest);
      RequestsStep(log, mode, chunk, Answered(provider, mode, size, |log'|, rest),
                   Failure(mode, Refused(provider, mode, size, |log'|, rest)));
    }
  }

  /** One vector to a text, batch by batch. */
  ghost predicate Match(batches: seq<seq<string>>, answers: seq<seq<Vector>>) {
    |batches| == |answers| && forall i | 0 <= i < |batches| :: |batches[i]| == |answers[i]|
  }

  function WithBatches(cache: Cache, batches: seq<seq<string>>, answers: seq<seq<Vector>>): Cache
    requires Match(batches, answers)
    decreases |batches|
  {
    if batches == [] then cache
    else WithBatches(WithBatch(cache, batches[0], answers[0]), batches[1..], answers[1..])
  }

  lemma {:induction false} BatchAfterBatch(
    cache: Cache, a: seq<string>, va: seq<Vector>, b: seq<string>, vb: seq<Vector>)
    requires |a| == |va| && |b| == |vb|
    ensures WithBatch(WithBatch(cache, a, va), b, vb) == WithBatch(cache, a + b, va + vb)
  {
    if b == [] {
      assert a + b == a && va + vb == va;
    } else {
      var n := |b| - 1;
      BatchAfterBatch(cache, a, va, b[..n], vb[..n]);
      assert (a + b)[..|a| + n] == a + b[..n] && (va + vb)[..|a| + n] == va + vb[..n];
    }
  }

  lemma {:induction false} BatchesAreOne(cache: Cache, batches: seq<seq<string>>, answers: seq<seq<Vector>>)
    requires Match(batches, answers)
    ensures |Flatten(batches)| == |Flatten(answers)|
    ensures WithBatches(cache, batches, answers) == WithBatch(cache, Flatten(batches), Flatten(answers))
    decreases |batches|
  {
    if batches != [] {
      BatchesAreOne(WithBatch(cache, batches[0], answers[0]), batches[1..], answers[1..]);
      BatchAfterBatch(cache, batches[0], answers[0], Flatten(batches[1..]), Flatten(answers[1..]));
    }
  }

  lemma {:induction false} FillStores(
    provider: Provider, mode: Mode, size: nat, cache: Cache, log: seq<Request>, missing: seq<string>)
    requires size > 0
    ensures
      var answered := Answered(provider, mode, size, |log|, missing);
      var answers := Answers(provider, mode, size, |log|, missing);
      && Match(answered, answers)
      && FillFrom(provider, mode, size, cache, log, missing).cache == WithBatches(cache, answered, answers)
    decreases |missing|
  {
    if missing != [] && CallEmbedder(provider, mode, |log|, Chunk(missing, size)).Ok? {
      var chunk, rest := Chunk(missing, size), Rest(missing, size);
      var vectors := CallEmbedder(provider, mode, |log|, chunk).value;
      var log' := log + [Request(mode, chunk, true)];
      FillStep(provider, mode, size, cache, log, missing);
      FillStores(provider, mode, size, WithBatch(cache, chunk, vectors), log', rest);
      StoreFirst(cache, chunk, vectors, Answered(provider, mode, size, |log'|, rest),
                 Answers(provider, mode, size, |log'|, rest));
    }
  }

  lemma StoreFirst(
    cache: Cache, chunk: seq<string>, vectors: seq<Vector>, batches: seq<seq<string>>, answers: seq<seq<Vector>>)
    requires |chunk| == |vectors| && Match(batches, answers)
    ensures Match([chunk] + batches, [vectors] + answers)
    ensures WithBatches(cache, [chunk] + batches, [vectors] + answers)
         == WithBatches(WithBatch(cache, chunk, vectors), batches, answers)
  {
    assert ([chunk] + batches)[1..] == batches && ([vectors] + answers)[1..] == answers;
  }

  /** A fill leaves exactly this cache: the old one with each answered text under the vector
      the provider answered it with. A failure keeps every batch before it and nothing of the
      one it hit. */
  lemma FillCaches(
    provider: Provider, mode: Mode, size: nat, cache: Cache, log: seq<Request>, missing: seq<string>)
    requires size > 0
    ensures
      var texts := Flatten(Answered(provider, mode, size, |log|, missing));
      var vectors := Flatten(Answers(provider, mode, size, |log|, missing));
      && |texts| == |vectors|
      && FillFrom(provider, mode, size, cache, log, missing).cache == WithBatch(cache, texts, vectors)
  {
    FillStores(provider, mode, size, cache, log, missing);
    BatchesAreOne(cache, Answered(provider, mode, size, |log|, missing), Answers(provider, mode, size, |log|, missing));
  }

  /** What that says text by text, where the missing texts are distinct: the i-th text answered
      has the i-th vector, and every text not answered is as it was. */
  lemma FillCachesPointwise(
    provider: Provider, mode: Mode, size: nat, cache: Cache, log: seq<Request>, missing: seq<string>, x: string)
    requires size > 0 && NoRepeats(missing)
    ensures
      var now := FillFrom(provider, mode, size, cache, log, missing).cache;
      var texts := Flatten(Answered(provider, mode, size, |log|, missing));
      var vectors := Flatten(Answers(provider, mode, size, |log|, missing));
      && |texts| == |vectors|
      && (x in now <==> x in cache || x in texts)
      && (forall i | 0 <= i < |texts| && texts[i] == x :: now[x] == vectors[i])
      && (x in cache && x !in texts ==> now[x] == cache[x])
  {
    FillCaches(provider, mode, size, cache, log, missing);
    var texts := Flatten(Answered(provider, mode, size, |log|, missing));
    var vectors := Flatten(Answers(provider, mode, size, |log|, missing));
    WithBatchKeys(cache, texts, vectors, x);
    AnsweredIsPrefix(provider, mode, size, |log|, missing);
    forall i | 0 <= i < |texts| && texts[i] == x ensures WithBatch(cache, texts, vectors)[x] == vectors[i] {
      WithBatchAddsNew(cache, texts, vectors, i);
    }
    if x in cache && x !in texts {
      WithBatchKeepsOld(cache, texts, vectors, x);
    }
  }

  /** The answered texts are the first of the missing ones. */
  lemma {:induction false} AnsweredIsPrefix(provider: Provider, mode: Mode, size: nat, sent: nat, missing: seq<string>)
    requires size > 0
    ensures Flatten(Answered(provider, mode, size, sent, missing)) <= missing
    decreases |missing|
  {
    if missing != [] && CallEmbedder(provider, mode, sent, Chunk(missing, size)).Ok? {
      ChunkAndRest(missing, size);
      AnsweredIsPrefix(provider, mode, size, sent + 1, Rest(missing, size));
      FlattenStep(Chunk(missing, size), Answered(provider, mode, size, sent + 1, Rest(missing, size)));
    }
  }

  /** Nothing already cached is overwritten. */
  lemma FillKeepsOldValues(
    provider: Provider, mode: Mode, size: nat, cache: Cache, log: seq<Request>, missing: seq<string>, x: string)
    requires size > 0 && x in cache && x !in missing
    ensures
      var now := FillFrom(provider, mode, size, cache, log, missing).cache;
      x in now && now[x] == cache[x]
  {
    FillCaches(provider, mode, size, cache, log, missing);
    AnsweredIsPrefix(provider, mode, size, |log|, missing);
    WithBatchKeepsOld(cache, Flatten(Answered(provider, mode, size, |log|, missing)),
                      Flatten(Answers(provider, mode, size, |log|, missing)), x);
  }
}
