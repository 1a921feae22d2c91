/** Laws of the vector store: its ranking, replacement by id, isolation between tenants, what a
    delete erases, and that better recall never returns fewer foreign hits. */
module VectorLaws {
  import opened FakeVectors
  import opened Isolation
  import opened OrderedDict
  import opened Wrappers

  // ---------- Recall ----------

  function ForeignCount(hits: seq<Hit>, tenant: Uuid): nat {
    if hits == [] then 0
    else (if hits[0].tenant == tenant then 0 else 1) + ForeignCount(hits[1..], tenant)
  }

  /** Cutting at k, spelled from the front. */
  lemma SliceStep<T>(h: T, rest: seq<T>, k: int)
    ensures k >= 1 ==> Slice([h] + rest, k) == [h] + Slice(rest, k - 1)
    ensures k == 0 ==> Slice([h] + rest, k) == []
    ensures k < 0 && |rest| >= -k ==> Slice([h] + rest, k) == [h] + Slice(rest, k)
    ensures k < 0 && |rest| < -k ==> Slice([h] + rest, k) == []
  {
  }

  lemma {:induction false} OneMorePlace(hits: seq<Hit>, tenant: Uuid, k: nat)
    ensures ForeignCount(Slice(hits, k + 1), tenant) <= ForeignCount(Slice(hits, k), tenant) + 1
  {
    if hits != [] {
      SliceStep(hits[0], hits[1..], k + 1);
      SliceStep(hits[0], hits[1..], k);
      assert [hits[0]] + hits[1..] == hits;
      if k > 0 {
        OneMorePlace(hits[1..], tenant, k - 1);
      }
    }
  }

  ghost predicate MoreRecall(c: Config, c': Config) {
    c' == c.(recall := c'.recall) && c.recall <= c'.recall
  }

  /** Every survivor keeps surviving as recall rises, so foreign hits only gain places. */
  lemma {:induction false} MoreRecallMoreForeign(
    c: Config, c': Config, tenant: Uuid, query: string, ranked: seq<Hit>, k: int)
    requires MoreRecall(c, c')
    ensures |Surviving(c, tenant, query, ranked)| <= |Surviving(c', tenant, query, ranked)|
    ensures ForeignCount(Slice(Surviving(c, tenant, query, ranked), k), tenant)
         <= ForeignCount(Slice(Surviving(c', tenant, query, ranked), k), tenant)
    decreases |ranked|
  {
    if ranked != [] {
      var h, rest := ranked[0], ranked[1..];
      var few, many := Surviving(c, tenant, query, rest), Surviving(c', tenant, query, rest);
      MoreRecallMoreForeign(c, c', tenant, query, rest, k);
      SliceStep(h, few, k);
      SliceStep(h, many, k);
      if Survives(c, tenant, query, h) {
        MoreRecallMoreForeign(c, c', tenant, query, rest, k - 1);
      } else if Survives(c', tenant, query, h) && k > 0 {
        OneMorePlace(many, tenant, k - 1);
      }
    }
  }

  /** For fixed contents, query and k - any integer k - raising the recall never lowers the
      number of foreign hits among those returned. */
  lemma RecallMonotone(
    c: Config, c': Config, docs: Documents, tenant: Uuid, query: string, k: int, user: Option<Uuid>)
    requires MoreRecall(c, c')
    ensures ForeignCount(QueryHits(c, docs, tenant, query, k, user), tenant)
         <= ForeignCount(QueryHits(c', docs, tenant, query, k, user), tenant)
  {
    SameScope(c, c', docs, tenant, user);
    var candidates := Scope(c, docs, tenant, user);
    SameRanking(c, c', query, candidates);
    var ranked := Ranked(c, query, candidates);
    if c.recall < 1.0 {
      if c'.recall < 1.0 {
        MoreRecallMoreForeign(c, c', tenant, query, ranked, k);
      } else {
        UnfilteredLeaksMost(c, tenant, query, ranked, k);
      }
    }
  }

  lemma {:induction false} UnfilteredLeaksMost(c: Config, tenant: Uuid, query: string, ranked: seq<Hit>, k: int)
    ensures |Surviving(c, tenant, query, ranked)| <= |ranked|
    ensures ForeignCount(Slice(Surviving(c, tenant, query, ranked), k), tenant)
         <= ForeignCount(Slice(ranked, k), tenant)
    decreases |ranked|
  {
    if ranked != [] {
      var h, rest := ranked[0], ranked[1..];
      UnfilteredLeaksMost(c, tenant, query, rest, k);
      SliceStep(h, Surviving(c, tenant, query, rest), k);
      SliceStep(h, rest, k);
      assert [h] + rest == ranked;
      if Survives(c, tenant, query, h) {
        UnfilteredLeaksMost(c, tenant, query, rest, k - 1);
      } else if k > 0 {
        OneMorePlace(rest, tenant, k - 1);
      }
    }
  }

  lemma SameScope(c: Config, c': Config, docs: Documents, tenant: Uuid, user: Option<Uuid>)
    requires MoreRecall(c, c')
    ensures Scope(c, docs, tenant, user) == Scope(c', docs, tenant, user)
  {
  }

  lemma {:induction false} SameScores(c: Config, c': Config, query: string, candidates: seq<(Uuid, Document)>)
    requires MoreRecall(c, c')
    ensures Scored(c, query, candidates) == Scored(c', query, candidates)
  {
    if candidates != [] {
      SameScores(c, c', query, candidates[..|candidates| - 1]);
    }
  }

  lemma SameRanking(c: Config, c': Config, query: string, candidates: seq<(Uuid, Document)>)
    requires MoreRecall(c, c')
    ensures Ranked(c, query, candidates) == Ranked(c', query, candidates)
  {
    SameScores(c, c', query, candidates);
  }

  /** How many of a suite's queries return at least one foreign hit, canary or not. */
  function QueriesWithForeignHits(c: Config, docs: Documents, queries: seq<(Uuid, string, int)>): nat {
    if queries == [] then 0
    else
      var (tenant, text, k) := queries[0];
      (if ForeignCount(QueryHits(c, docs, tenant, text, k, None), tenant) > 0 then 1 else 0) +
      QueriesWithForeignHits(c, docs, queries[1..])
  }

  /** Over one corpus and one suite of queries, more recall never lowers the number of queries
      that return a foreign hit. */
  lemma {:induction false} ForeignQueriesMonotone(
    c: Config, c': Config, docs: Documents, queries: seq<(Uuid, string, int)>)
    requires MoreRecall(c, c')
    ensures QueriesWithForeignHits(c, docs, queries) <= QueriesWithForeignHits(c', docs, queries)
  {
    if queries != [] {
      var (tenant, text, k) := queries[0];
      RecallMonotone(c, c', docs, tenant, text, k, None);
      ForeignQueriesMonotone(c, c', docs, queries[1..]);
    }
  }

  // ---------- Ranking ----------

  lemma {:induction false} StringLeTotal(a: string, b: string)
    ensures StringLe(a, b) || StringLe(b, a)
  {
    if a != [] && b != [] && a[0] == b[0] {
      StringLeTotal(a[1..], b[1..]);
    }
  }

  lemma {:induction false} StringLeTransitive(a: string, b: string, c: string)
    requires StringLe(a, b) && StringLe(b, c)
    ensures StringLe(a, c)
  {
    if a != [] && a[0] == b[0] == c[0] {
      StringLeTransitive(a[1..], b[1..], c[1..]);
    }
  }

  lemma BeforeTransitive(a: Hit, b: Hit, c: Hit)
    requires Before(a, b) && Before(b, c)
    ensures Before(a, c)
  {
    if a.score == b.score == c.score {
      StringLeTransitive(a.docId, b.docId, c.docId);
    }
  }

  ghost predicate InOrder(hits: seq<Hit>) {
    forall i, j | 0 <= i < j < |hits| :: Before(hits[i], hits[j])
  }

  lemma {:induction false} InsertAdds(hits: seq<Hit>, h: Hit)
    ensures multiset(Insert(hits, h)) == multiset(hits) + multiset{h}
  {
    if hits != [] {
      InsertAdds(hits[..|hits| - 1], h);
      assert hits == hits[..|hits| - 1] + [hits[|hits| - 1]];
    }
  }

  lemma {:induction false} InsertKeepsOrder(hits: seq<Hit>, h: Hit)
    requires InOrder(hits)
    ensures InOrder(Insert(hits, h))
  {
    if hits != [] {
      var n := |hits| - 1;
      if Before(hits[n], h) {
        forall i | 0 <= i < n ensures Before(hits[i], h) {
          BeforeTransitive(hits[i], hits[n], h);
        }
      } else {
        InsertKeepsOrder(hits[..n], h);
        StringLeTotal(h.docId, hits[n].docId);
        AllBefore(hits[..n], h, hits[n]);
      }
    }
  }

  lemma AllBefore(hits: seq<Hit>, h: Hit, last: Hit)
    requires forall x | x in hits :: Before(x, last)
    requires Before(h, last)
    ensures forall x | x in Insert(hits, h) :: Before(x, last)
  {
    InsertAdds(hits, h);
    forall x | x in Insert(hits, h) ensures x in hits || x == h {
      assert x in multiset(Insert(hits, h));
    }
  }

  lemma {:induction false} SortedKeepsAll(hits: seq<Hit>)
    ensures multiset(Sorted(hits)) == multiset(hits)
  {
    if hits != [] {
      var front, last := hits[..|hits| - 1], hits[|hits| - 1];
      calc {
        multiset(Sorted(hits));
        { InsertAdds(Sorted(front), last); }
        multiset(Sorted(front)) + multiset{last};
        { SortedKeepsAll(front); }
        multiset(front) + multiset{last};
        multiset(front + [last]);
        { assert hits == front + [last]; }
        multiset(hits);
      }
    }
  }

  lemma {:induction false} SortedIsOrdered(hits: seq<Hit>)
    ensures InOrder(Sorted(hits))
  {
    if hits != [] {
      SortedIsOrdered(hits[..|hits| - 1]);
      InsertKeepsOrder(Sorted(hits[..|hits| - 1]), hits[|hits| - 1]);
    }
  }

  /** The hits with one rank key, in order. */
  function WithKey(hits: seq<Hit>, score: nat, docId: string): seq<Hit> {
    if hits == [] then []
    else
      var n := |hits| - 1;
      if hits[n].score == score && hits[n].docId == docId then WithKey(hits[..n], score, docId) + [hits[n]]
      else WithKey(hits[..n], score, docId)
  }

  lemma {:induction false} InsertIsStable(hits: seq<Hit>, h: Hit, score: nat, docId: string)
    ensures WithKey(Insert(hits, h), score, docId) == WithKey(hits + [h], score, docId)
  {
    assert (hits + [h])[..|hits|] == hits;
    if hits != [] && !Before(hits[|hits| - 1], h) {
      var n := |hits| - 1;
      InsertIsStable(hits[..n], h, score, docId);
      assert (hits[..n] + [h])[..n] == hits[..n];
      assert Insert(hits, h)[..|Insert(hits, h)| - 1] == Insert(hits[..n], h);
      StringLeTotal(h.docId, h.docId);
    }
  }

  /** Hits that tie on the whole key - two tenants' documents under one id - keep their order. */
  lemma {:induction false} SortIsStable(hits: seq<Hit>, score: nat, docId: string)
    ensures WithKey(Sorted(hits), score, docId) == WithKey(hits, score, docId)
  {
    if hits != [] {
      var n := |hits| - 1;
      SortIsStable(hits[..n], score, docId);
      InsertIsStable(Sorted(hits[..n]), hits[n], score, docId);
      assert (Sorted(hits[..n]) + [hits[n]])[..|Sorted(hits[..n])|] == Sorted(hits[..n]);
    }
  }

  lemma {:induction false} ScoredExactly(config: Config, query: string, candidates: seq<(Uuid, Document)>, h: Hit)
    ensures h in Scored(config, query, candidates)
       <==> exists i | 0 <= i < |candidates| ::
              Score(config, query, candidates[i].1) > 0 && h == HitOf(config, query, candidates[i])
  {
    if candidates != [] {
      var n := |candidates| - 1;
      ScoredExactly(config, query, candidates[..n], h);
      forall i | 0 <= i < n ensures candidates[..n][i] == candidates[i] {
      }
      if Score(config, query, candidates[n].1) > 0 && h == HitOf(config, query, candidates[n]) {
        assert Scored(config, query, candidates)[|Scored(config, query, candidates)| - 1] == h;
      }
    }
  }

  function HitOf(config: Config, query: string, candidate: (Uuid, Document)): Hit {
    Hit(candidate.1.docId, candidate.0, Score(config, query, candidate.1), candidate.1.content)
  }

  /** The ranking is ordered - best score first, ties by document id - and holds exactly the
      candidates that share a token with the query. */
  lemma RankingIsRight(config: Config, query: string, candidates: seq<(Uuid, Document)>)
    ensures InOrder(Ranked(config, query, candidates))
    ensures |Ranked(config, query, candidates)| == |Scored(config, query, candidates)|
    ensures forall h :: h in Ranked(config, query, candidates)
                   <==> exists i | 0 <= i < |candidates| ::
                          Score(config, query, candidates[i].1) > 0 && h == HitOf(config, query, candidates[i])
  {
    var scored := Scored(config, query, candidates);
    SortedIsOrdered(scored);
    SortedKeepsAll(scored);
    assert |Sorted(scored)| == |multiset(Sorted(scored))|;
    forall h ensures h in Sorted(scored) <==> h in scored {
      assert h in Sorted(scored) <==> h in multiset(Sorted(scored));
      assert h in scored <==> h in multiset(scored);
    }
    forall h { ScoredExactly(config, query, candidates, h); }
  }

  // ---------- Replacement by id ----------

  function Find(ds: seq<Document>, docId: string): Option<Document> {
    if ds == [] then None
    else if ds[0].docId == docId then Some(ds[0])
    else Find(ds[1..], docId)
  }

  /** The last of `ds` with this id. */
  function FindLast(ds: seq<Document>, docId: string): Option<Document> {
    if ds == [] then None
    else if ds[|ds| - 1].docId == docId then Some(ds[|ds| - 1])
    else FindLast(ds[..|ds| - 1], docId)
  }

  lemma {:induction false} LastByIdFinds(ds: seq<Document>, docId: string)
    ensures Get(LastById(ds), docId) == FindLast(ds, docId)
  {
    if ds != [] {
      var n := |ds| - 1;
      LastByIdFinds(ds[..n], docId);
      GetOfSet(LastById(ds[..n]), ds[n].docId, ds[n], docId);
    }
  }

  ghost predicate KeyedById(d: Dict<string, Document>) {
    forall i | 0 <= i < |d| :: d[i].1.docId == d[i].0
  }

  lemma {:induction false} SetKeepsKeyed(d: Dict<string, Document>, v: Document)
    requires KeyedById(d)
    ensures KeyedById(Set(d, v.docId, v))
  {
    if d != [] && d[0].0 != v.docId {
      SetKeepsKeyed(d[1..], v);
    }
  }

  lemma {:induction false} LastByIdKeyed(ds: seq<Document>)
    ensures KeyedById(LastById(ds))
  {
    if ds != [] {
      LastByIdKeyed(ds[..|ds| - 1]);
      SetKeepsKeyed(LastById(ds[..|ds| - 1]), ds[|ds| - 1]);
    }
  }

  lemma {:induction false} FindInValues(d: Dict<string, Document>, docId: string)
    requires KeyedById(d)
    ensures Find(Values(d), docId) == Get(d, docId)
  {
    if d != [] {
      FindInValues(d[1..], docId);
    }
  }

  lemma {:induction false} FindInNotReplaced(held: seq<Document>, incoming: Dict<string, Document>, docId: string)
    ensures Find(NotReplaced(held, incoming), docId)
         == if Get(incoming, docId).Some? then None else Find(held, docId)
  {
    if held != [] {
      FindInNotReplaced(held[1..], incoming, docId);
    }
  }

  lemma {:induction false} FindInConcat(a: seq<Document>, b: seq<Document>, docId: string)
    ensures Find(a + b, docId) == if Find(a, docId).Some? then Find(a, docId) else Find(b, docId)
  {
    if a == [] {
      assert a + b == b;
    } else {
      FindInConcat(a[1..], b, docId);
      assert (a + b)[1..] == a[1..] + b;
    }
  }

  lemma {:induction false} FetchIsFind(tenant: Uuid, ds: seq<Document>, docId: string)
    ensures
      var found := Find(ds, docId);
      FirstWithId(Pairs(tenant, ds), docId)
        == if found.None? then None else Some(Hit(docId, tenant, 1, found.value.content))
  {
    if ds != [] {
      FetchIsFind(tenant, ds[1..], docId);
      assert Pairs(tenant, ds)[1..] == Pairs(tenant, ds[1..]);
    }
  }

  /** Read your writes: after an upsert a tenant-level fetch on an unshared store returns the
      last document given for the id, and what it returned before for every other id. */
  lemma FetchAfterUpsert(config: Config, docs: Documents, tenant: Uuid, written: seq<Document>, docId: string)
    requires !config.sharedIndex
    ensures
      var after := Step(config, docs, tenant, Upsert(written)).0;
      var last := FindLast(written, docId);
      Step(config, after, tenant, Fetch(docId, None)).1 ==
        if last.Some? then Fetched(Some(Hit(docId, tenant, 1, last.value.content)))
        else Step(config, docs, tenant, Fetch(docId, None)).1
  {
    var held := GetOr(docs, tenant, []);
    var incoming := LastById(written);
    var now := Upserted(held, written);
    GetOfSet(docs, tenant, now, tenant);
    FetchIsFind(tenant, now, docId);
    FetchIsFind(tenant, held, docId);
    FindInConcat(NotReplaced(held, incoming), Values(incoming), docId);
    FindInNotReplaced(held, incoming, docId);
    LastByIdKeyed(written);
    FindInValues(incoming, docId);
    LastByIdFinds(written, docId);
  }

  // ---------- Isolation ----------

  function View(docs: Documents, t: Uuid): Option<seq<Document>> {
    Get(docs, t)
  }

  lemma StepView(config: Config, docs: Documents, u: Uuid, op: Op, t: Uuid)
    ensures View(Step(config, docs, u, op).0, t) ==
      if t == u && op.Upsert? then Some(Upserted(GetOr(docs, u, []), op.documents))
      else if t == u && op.Erase? && !config.softDelete then None
      else View(docs, t)
  {
    if op.Upsert? {
      GetOfSet(docs, u, Upserted(GetOr(docs, u, []), op.documents), t);
    } else if op.Erase? {
      GetOfRemove(docs, u, t);
    }
  }

  /** Over every interleaving of upserts, queries, fetches and deletes a tenant sees exactly
      what it would see alone, if and only if the index is not shared. */
  lemma VectorIsolationIff(config: Config)
    ensures NonInterfering(VectorSystem(config)) <==> !config.sharedIndex
  {
    var sys := VectorSystem(config);
    if !config.sharedIndex {
      forall s, r, t, op | View(s, t) == View(r, t)
        ensures sys.step(s, t, op).1 == sys.step(r, t, op).1
        ensures View(sys.step(s, t, op).0, t) == View(sys.step(r, t, op).0, t)
      {
        StepView(config, s, t, op, t);
        StepView(config, r, t, op, t);
      }
      forall s, t, u, op | t != u ensures View(sys.step(s, u, op).0, t) == View(s, t) {
        StepView(config, s, u, op, t);
      }
      PrivateViewSuffices(sys, View);
    } else {
      AliceIsNotBob();
      var d := Document("doc", "", "secret", [], None);
      FetchAfterFirstUpsert(config, d);
      TwoStepWitness(sys, ALICE, Upsert([d]), BOB, Fetch("doc", None));
    }
  }

  // ---------- Erasure ----------

  function Cut(docs: Documents, t: Uuid): Documents {
    Remove(docs, t)
  }

  lemma CutCarriesOthers(config: Config, s: Documents, t: Uuid, u: Uuid, op: Op)
    requires t != u
    ensures Cut(Step(config, s, u, op).0, t) == Step(config, Cut(s, t), u, op).0
  {
    if op.Upsert? {
      RemoveOfSet(s, u, Upserted(GetOr(s, u, []), op.documents), t);
      GetOfRemove(s, t, u);
    } else if op.Erase? {
      RemovesCommute(s, t, u);
    }
  }

  lemma CutIgnoresOwn(config: Config, s: Documents, t: Uuid, op: Op)
    ensures Cut(Step(config, s, t, op).0, t) == Cut(s, t)
  {
    if op.Upsert? {
      RemoveOfSet(s, t, Upserted(GetOr(s, t, []), op.documents), t);
    } else if op.Erase? {
      RemoveTwice(s, t);
    }
  }

  /** Taking a tenant out of the end of a trace is leaving it out all along. */
  lemma {:induction false} CutFollows(config: Config, trace: seq<Event<Op>>, t: Uuid)
    ensures Cut(AfterTrace(VectorSystem(config), VectorSystem(config).empty, trace), t)
         == AfterTrace(VectorSystem(config), VectorSystem(config).empty, WithoutTenant(trace, t))
  {
    var sys := VectorSystem(config);
    if trace != [] {
      var n, e := |trace| - 1, trace[|trace| - 1];
      var s, others := AfterTrace(sys, sys.empty, trace[..n]), WithoutTenant(trace[..n], t);
      CutFollows(config, trace[..n], t);
      if e.tenant == t {
        CutIgnoresOwn(config, s, t, e.op);
      } else {
        CutCarriesOthers(config, s, t, e.tenant, e.op);
        AfterSnoc(sys, sys.empty, others, e);
      }
    }
  }

  lemma FetchAfterFirstUpsert(config: Config, d: Document)
    ensures
      var after := Step(config, [], ALICE, Upsert([d])).0;
      && after == [(ALICE, [d])]
      && forall u | u == ALICE || config.sharedIndex ::
           Step(config, after, u, Fetch(d.docId, None)).1 == Fetched(Some(Hit(d.docId, ALICE, 1, d.content)))
  {
    var after: Documents := [(ALICE, [d])];
    assert [d][..0] == [] && LastById([d]) == [(d.docId, d)];
    assert Values([(d.docId, d)]) == [d] && [] + [d] == [d];
    assert AllPairs(after) == Pairs(ALICE, [d]) + AllPairs([]);
    assert AllPairs(after)[0] == (ALICE, d);
  }

  /** After a delete nobody - the tenant itself or another, on a shared index or not - ever sees
      anything but what it would see had the tenant never acted, if and only if the backend
      does not soft-delete. */
  lemma VectorErasureIff(config: Config)
    ensures Erases(VectorSystem(config), Erase) <==> !config.softDelete
  {
    var sys := VectorSystem(config);
    if config.softDelete {
      var d := Document("doc", "", "secret", [], None);
      FetchAfterFirstUpsert(config, d);
      ResidueWitness(sys, Erase, ALICE, Upsert([d]), ALICE, Fetch("doc", None));
    } else {
      forall trace, t
        ensures sys.step(AfterTrace(sys, sys.empty, trace), t, Erase).0
             == AfterTrace(sys, sys.empty, WithoutTenant(trace, t))
      {
        CutFollows(config, trace, t);
      }
      SameStateErases(sys, Erase);
    }
  }
}
