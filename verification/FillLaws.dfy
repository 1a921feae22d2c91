/** One fill of a bridge's cache, request by request: which texts each carries, how many, what
    the provider made of it, and what a failure is reported as. */
module FillLaws {
  import opened EmbeddingLaws
  import opened Embeddings
  import opened Wrappers

  function Least(a: nat, b: nat): nat {
    if a <= b then a else b
  }

  /** The provider answered with one vector a text. */
  predicate Accepts(provider: Provider, mode: Mode, sent: nat, texts: seq<string>) {
    var r := provider(mode, sent, texts);
    r.Vectors? && |r.vectors| == |texts|
  }

  /** The request in place `i` of a fill: the next `size` texts in order, or what is left. */
  predicate IsRequest(provider: Provider, mode: Mode, size: nat, sent: nat, missing: seq<string>, i: nat, r: Request) {
    && i * size < |missing|
    && r.mode == mode
    && r.texts == missing[i * size..Least(i * size + size, |missing|)]
    && (r.ok <==> Accepts(provider, mode, sent + i, r.texts))
  }

  /** Requests in order, each full and answered but perhaps the last. */
  ghost predicate AreRequests(
    provider: Provider, mode: Mode, size: nat, sent: nat, missing: seq<string>, more: seq<Request>)
  {
    && (forall i | 0 <= i < |more| :: IsRequest(provider, mode, size, sent, missing, i, more[i]))
    && (forall i | 0 <= i < |more| - 1 :: |more[i].texts| == size && more[i].ok)
  }

  /** What ends a fill: the first refused request, or having sent everything. */
  predicate Ends(size: nat, missing: seq<string>, more: seq<Request>, failure: Option<Error>) {
    if failure.Some? then more != [] && !more[|more| - 1].ok
    else (more != [] ==> more[|more| - 1].ok) && |missing| <= |more| * size
  }

  lemma NextPlace(i: nat, size: nat)
    ensures (i + 1) * size == size + i * size
  {
  }

  lemma LaterRequest(
    provider: Provider, mode: Mode, size: nat, sent: nat, missing: seq<string>, i: nat, r: Request)
    requires 0 < size < |missing| && IsRequest(provider, mode, size, sent + 1, missing[size..], i, r)
    ensures IsRequest(provider, mode, size, sent, missing, i + 1, r)
  {
    NextPlace(i, size);
    var rest := missing[size..];
    var from, to := i * size, Least(i * size + size, |rest|);
    assert rest[from..to] == missing[size + from..size + to];
  }

  lemma FirstRequest(
    provider: Provider, mode: Mode, size: nat, sent: nat, missing: seq<string>, later: seq<Request>, ok: bool)
    requires size > 0 && missing != []
    requires ok <==> Accepts(provider, mode, sent, Chunk(missing, size))
    requires AreRequests(provider, mode, size, sent + 1, Rest(missing, size), later)
    requires later != [] ==> ok
    ensures AreRequests(provider, mode, size, sent, missing, [Request(mode, Chunk(missing, size), ok)] + later)
  {
    var first := Request(mode, Chunk(missing, size), ok);
    var more := [first] + later;
    assert 0 * size == 0 && IsRequest(provider, mode, size, sent, missing, 0, first);
    if later != [] {
      assert IsRequest(provider, mode, size, sent + 1, Rest(missing, size), 0, later[0]);
      assert |missing| > size;
    }
    forall i | 0 < i < |more| ensures IsRequest(provider, mode, size, sent, missing, i, more[i]) {
      assert IsRequest(provider, mode, size, sent + 1, missing[size..], i - 1, later[i - 1]);
      LaterRequest(provider, mode, size, sent, missing, i - 1, later[i - 1]);
    }
    forall i | 0 < i < |more| - 1 ensures |more[i].texts| == size && more[i].ok {
      assert more[i] == later[i - 1];
    }
  }

  lemma EndsLater(size: nat, missing: seq<string>, first: Request, later: seq<Request>, failure: Option<Error>)
    requires size > 0 && first.ok && Ends(size, Rest(missing, size), later, failure)
    ensures Ends(size, missing, [first] + later, failure)
  {
    NextPlace(|later|, size);
    if later != [] {
      assert ([first] + later)[|later|] == later[|later| - 1];
    }
  }

  /** What a fill from `log` came to, told from the calls it made. */
  ghost predicate IsFill(
    provider: Provider, mode: Mode, size: nat, log: seq<Request>, missing: seq<string>, f: Filled)
  {
    && log <= f.log
    && AreRequests(provider, mode, size, |log|, missing, f.log[|log|..])
    && Ends(size, missing, f.log[|log|..], f.failure)
  }

  lemma RefusedAtOnce(
    provider: Provider, mode: Mode, size: nat, cache: Cache, log: seq<Request>, missing: seq<string>, e: Error)
    requires size > 0 && missing != [] && !Accepts(provider, mode, |log|, Chunk(missing, size))
    ensures IsFill(provider, mode, size, log, missing,
                   Filled(cache, log + [Request(mode, Chunk(missing, size), false)], Some(e)))
  {
    var first := Request(mode, Chunk(missing, size), false);
    FirstRequest(provider, mode, size, |log|, missing, [], false);
    assert (log + [first])[|log|..] == [first] + [];
  }

  lemma AnsweredFirst(provider: Provider, mode: Mode, size: nat, log: seq<Request>, missing: seq<string>, f: Filled)
    requires size > 0 && missing != [] && Accepts(provider, mode, |log|, Chunk(missing, size))
    requires IsFill(provider, mode, size, log + [Request(mode, Chunk(missing, size), true)], Rest(missing, size), f)
    ensures IsFill(provider, mode, size, log, missing, f)
  {
    var first := Request(mode, Chunk(missing, size), true);
    var later := f.log[|log| + 1..];
    assert (log + [first])[|log|] == first && f.log[|log|] == first;
    assert f.log[|log|..] == [first] + later;
    FirstRequest(provider, mode, size, |log|, missing, later, true);
    EndsLater(size, missing, first, later, f.failure);
  }

  /** Everything a fill adds to the log: the missing texts in order, exactly `size` of them to
      every request but the last, up to the first the provider refuses. */
  lemma {:induction false} FillRequests(
    provider: Provider, mode: Mode, size: nat, cache: Cache, log: seq<Request>, missing: seq<string>)
    requires size > 0
    ensures IsFill(provider, mode, size, log, missing, FillFrom(provider, mode, size, cache, log, missing))
    decreases |missing|
  {
    if missing == [] {
      assert log[|log|..] == [];
    } else {
      var chunk, rest := Chunk(missing, size), Rest(missing, size);
      var r := CallEmbedder(provider, mode, |log|, chunk);
      if r.Ok? {
        FillRequests(provider, mode, size, WithBatch(cache, chunk, r.value), log + [Request(mode, chunk, true)], rest);
        AnsweredFirst(provider, mode, size, log, missing, FillFrom(provider, mode, size, cache, log, missing));
      } else {
        RefusedAtOnce(provider, mode, size, cache, log, missing, r.error);
      }
    }
  }

  // ---------- Which texts are missing ----------

  /** The order of first appearance: any place of a later one has an earlier one before it. */
  ghost predicate InFirstOrder(some: seq<string>, texts: seq<string>) {
    forall i, j, p | 0 <= i < j < |some| && 0 <= p < |texts| && texts[p] == some[j] :: some[i] in texts[..p]
  }

  lemma {:induction false} DistinctInOrder(texts: seq<string>)
    ensures InFirstOrder(Distinct(texts), texts)
  {
    if texts != [] {
      var n := |texts| - 1;
      DistinctInOrder(texts[..n]);
      DistinctLaws(texts);
      DistinctLaws(texts[..n]);
      var some := Distinct(texts);
      forall i, j, p | 0 <= i < j < |some| && 0 <= p < |texts| && texts[p] == some[j]
        ensures some[i] in texts[..p]
      {
        if p < n {
          assert texts[..n][p] == some[j] && texts[..n][..p] == texts[..p];
        } else {
          assert i < |Distinct(texts[..n])| && some[i] in Distinct(texts[..n]);
        }
      }
    }
  }

  lemma {:induction false} NotInKeepsOrder(some: seq<string>, cached: set<string>, texts: seq<string>)
    requires InFirstOrder(some, texts)
    ensures InFirstOrder(NotIn(some, cached), texts)
    ensures forall x | x in NotIn(some, cached) :: x in some
  {
    if some != [] {
      assert forall i | 0 <= i < |some| - 1 :: some[1..][i] == some[i + 1];
      assert InFirstOrder(some[1..], texts);
      NotInKeepsOrder(some[1..], cached, texts);
      var kept, rest := NotIn(some, cached), NotIn(some[1..], cached);
      if some[0] !in cached {
        forall i, j, p | 0 <= i < j < |kept| && 0 <= p < |texts| && texts[p] == kept[j] ensures kept[i] in texts[..p] {
          if i == 0 {
            assert kept[j] == rest[j - 1] && rest[j - 1] in some[1..];
            var k :| 1 <= k < |some| && some[k] == kept[j];
          } else {
            assert kept[i] == rest[i - 1] && kept[j] == rest[j - 1];
          }
        }
      }
    }
  }

  /** A fill asks for each text given that is not cached, once, in order of first appearance. */
  ghost predicate AsksFor(missing: seq<string>, texts: seq<string>, cache: Cache) {
    && NoRepeats(missing)
    && (forall x :: x in missing <==> x in texts && x !in cache)
    && InFirstOrder(missing, texts)
  }

  /** The whole of a fill, from the texts handed in: with a positive batch size the requests
      it makes, and without one none. */
  lemma FillFromTexts(provider: Provider, mode: Mode, size: int, cache: Cache, log: seq<Request>, texts: seq<string>)
    ensures
      var f := Fill(provider, mode, size, cache, log, texts);
      && (size > 0 ==>
            exists missing :: AsksFor(missing, texts, cache) && IsFill(provider, mode, size, log, missing, f))
      && (size <= 0 ==> f.log == log && f.cache == cache)
      && (size == 0 ==> f.failure == Some(ValueError))
      && (size < 0 ==> f.failure == None)
  {
    if size > 0 {
      var missing := NotIn(Distinct(texts), cache.Keys);
      DistinctLaws(texts);
      DistinctInOrder(texts);
      NotInLaws(Distinct(texts), cache.Keys);
      NotInKeepsOrder(Distinct(texts), cache.Keys, texts);
      FillRequests(provider, mode, size, cache, log, missing);
      assert AsksFor(missing, texts, cache);
    }
  }

  /** What the last request of a failed fill came to. */
  predicate Raises(provider: Provider, mode: Mode, sent: nat, f: Filled) {
    f.failure.Some? ==>
      && |f.log| > sent
      && var r := provider(mode, |f.log| - 1, f.log[|f.log| - 1].texts);
         f.failure.value == if r.TypedFailure? then TypedError else AdapterError
  }

  lemma RaisesAtOnce(
    provider: Provider, mode: Mode, cache: Cache, log: seq<Request>, chunk: seq<string>, error: Error)
    requires CallEmbedder(provider, mode, |log|, chunk) == Err(error)
    ensures Raises(provider, mode, |log|, Filled(cache, log + [Request(mode, chunk, false)], Some(error)))
  {
  }

  lemma RaisesLater(provider: Provider, mode: Mode, sent: nat, f: Filled)
    requires Raises(provider, mode, sent + 1, f)
    ensures Raises(provider, mode, sent, f)
  {
  }

  /** What a failed fill raises: the provider's own typed error as it is, and an adapter error
      for anything else, be it an SDK failure or the wrong number of vectors. */
  lemma {:induction false} FillRaises(
    provider: Provider, mode: Mode, size: nat, cache: Cache, log: seq<Request>, missing: seq<string>)
    requires size > 0
    ensures Raises(provider, mode, |log|, FillFrom(provider, mode, size, cache, log, missing))
    decreases |missing|
  {
    if missing != [] {
      var chunk, rest := Chunk(missing, size), Rest(missing, size);
      var r := CallEmbedder(provider, mode, |log|, chunk);
      if r.Ok? {
        var cache', log' := WithBatch(cache, chunk, r.value), log + [Request(mode, chunk, true)];
        FillRaises(provider, mode, size, cache', log', rest);
        RaisesLater(provider, mode, |log|, FillFrom(provider, mode, size, cache', log', rest));
      } else {
        RaisesAtOnce(provider, mode, cache, log, chunk, r.error);
      }
    }
  }
}
