/** What a read from the vector store shows and to whom, in the terms of the documents stored:
    their owners, the tenants they are stored under, and the fields they are searched by. */
module VectorUsers {
  import opened FakeVectors
  import opened Isolation
  import opened OrderedDict
  import opened VectorLaws
  import opened Wrappers

  // ---------- Other users' documents ----------

  predicate OwnOrShared(d: Document, user: Uuid) {
    d.owner == None || d.owner == Some(user)
  }

  /** The documents that are the user's or nobody's, in order. */
  function OthersDropped(ds: seq<Document>, user: Uuid): seq<Document> {
    if ds == [] then []
    else if OwnOrShared(ds[0], user) then [ds[0]] + OthersDropped(ds[1..], user)
    else OthersDropped(ds[1..], user)
  }

  function ContentsFor(docs: Documents, user: Uuid): Documents {
    if docs == [] then [] else [(docs[0].0, OthersDropped(docs[0].1, user))] + ContentsFor(docs[1..], user)
  }

  /** Two contents that agree, as far as a tenant reaches, once other users' documents are dropped. */
  predicate AgreeFor(config: Config, docs: Documents, docs': Documents, tenant: Uuid, user: Uuid) {
    if config.sharedIndex then ContentsFor(docs, user) == ContentsFor(docs', user)
    else OthersDropped(GetOr(docs, tenant, []), user) == OthersDropped(GetOr(docs', tenant, []), user)
  }

  lemma {:induction false} VisibleOfConcat(a: seq<(Uuid, Document)>, b: seq<(Uuid, Document)>, user: Uuid)
    ensures VisibleTo(a + b, user) == VisibleTo(a, user) + VisibleTo(b, user)
  {
    if a == [] {
      assert a + b == b;
    } else {
      assert (a + b)[0] == a[0] && (a + b)[1..] == a[1..] + b;
      VisibleOfConcat(a[1..], b, user);
      Regroup(if OwnOrShared(a[0].1, user) then [a[0]] else [], VisibleTo(a[1..], user), VisibleTo(b, user));
    }
  }

  lemma {:induction false} VisibleOfPairs(owner: Uuid, ds: seq<Document>, user: Uuid)
    ensures VisibleTo(Pairs(owner, ds), user) == Pairs(owner, OthersDropped(ds, user))
  {
    if ds != [] {
      VisibleOfPairs(owner, ds[1..], user);
      assert Pairs(owner, ds)[1..] == Pairs(owner, ds[1..]);
    }
  }

  lemma {:induction false} VisibleOfAll(docs: Documents, user: Uuid)
    ensures VisibleTo(AllPairs(docs), user) == AllPairs(ContentsFor(docs, user))
  {
    if docs != [] {
      VisibleOfConcat(Pairs(docs[0].0, docs[0].1), AllPairs(docs[1..]), user);
      VisibleOfPairs(docs[0].0, docs[0].1, user);
      VisibleOfAll(docs[1..], user);
    }
  }

  lemma ScopeForUser(config: Config, docs: Documents, tenant: Uuid, user: Uuid)
    requires config.userScoped
    ensures Scope(config, docs, tenant, Some(user))
         == if config.sharedIndex then AllPairs(ContentsFor(docs, user))
            else Pairs(tenant, OthersDropped(GetOr(docs, tenant, []), user))
  {
    VisibleOfAll(docs, user);
    VisibleOfPairs(tenant, GetOr(docs, tenant, []), user);
  }

  predicate ReadsAs(op: Op, user: Uuid) {
    (op.Query? || op.Fetch?) && op.user == Some(user)
  }

  /** On a user-scoped store nothing a user reads depends on other users' documents. */
  lemma ReadsIgnoreOthers(config: Config, docs: Documents, docs': Documents, tenant: Uuid, user: Uuid, op: Op)
    requires config.userScoped && AgreeFor(config, docs, docs', tenant, user) && ReadsAs(op, user)
    ensures Step(config, docs, tenant, op).1 == Step(config, docs', tenant, op).1
  {
    ScopeForUser(config, docs, tenant, user);
    ScopeForUser(config, docs', tenant, user);
  }

  // ---------- What is found ----------

  /** A document stored under tenant `t`, where a session of `tenant` reaches. */
  predicate Stored(config: Config, docs: Documents, tenant: Uuid, t: Uuid, d: Document) {
    if config.sharedIndex then exists i | 0 <= i < |docs| :: docs[i].0 == t && d in docs[i].1
    else t == tenant && d in GetOr(docs, tenant, [])
  }

  predicate MayShow(config: Config, user: Option<Uuid>, d: Document) {
    config.userScoped && user.Some? ==> d.owner == None || d.owner == user
  }

  lemma InPairs(owner: Uuid, ds: seq<Document>, t: Uuid, d: Document)
    ensures (t, d) in Pairs(owner, ds) <==> t == owner && d in ds
  {
    if t == owner && d in ds {
      var i :| 0 <= i < |ds| && ds[i] == d;
      assert Pairs(owner, ds)[i] == (t, d);
    }
  }

  lemma {:induction false} InAllPairs(docs: Documents, t: Uuid, d: Document)
    ensures (t, d) in AllPairs(docs) <==> exists i | 0 <= i < |docs| :: docs[i].0 == t && d in docs[i].1
  {
    if docs != [] {
      InPairs(docs[0].0, docs[0].1, t, d);
      InAllPairs(docs[1..], t, d);
      forall i | 0 < i < |docs| ensures docs[i] == docs[1..][i - 1] {
      }
    }
  }

  lemma {:induction false} InVisible(pairs: seq<(Uuid, Document)>, user: Uuid, p: (Uuid, Document))
    ensures p in VisibleTo(pairs, user) <==> p in pairs && OwnOrShared(p.1, user)
  {
    if pairs != [] {
      InVisible(pairs[1..], user, p);
    }
  }

  lemma ScopeHolds(config: Config, docs: Documents, tenant: Uuid, user: Option<Uuid>, t: Uuid, d: Document)
    ensures (t, d) in Scope(config, docs, tenant, user)
       <==> Stored(config, docs, tenant, t, d) && MayShow(config, user, d)
  {
    InAllPairs(docs, t, d);
    InPairs(tenant, GetOr(docs, tenant, []), t, d);
    if config.userScoped && user.Some? {
      InVisible(if config.sharedIndex then AllPairs(docs) else Pairs(tenant, GetOr(docs, tenant, [])),
                user.value, (t, d));
    }
  }

  lemma {:induction false} FirstWithIdIsThere(pairs: seq<(Uuid, Document)>, docId: string)
    ensures FirstWithId(pairs, docId).None? <==> forall p | p in pairs :: p.1.docId != docId
    ensures
      var hit := FirstWithId(pairs, docId);
      hit.Some? ==> exists p :: p in pairs && p.1.docId == docId && hit.value == Hit(docId, p.0, 1, p.1.content)
  {
    if pairs != [] {
      FirstWithIdIsThere(pairs[1..], docId);
      assert pairs == [pairs[0]] + pairs[1..];
    }
  }

  predicate FoundAt(
    config: Config, docs: Documents, tenant: Uuid, user: Option<Uuid>, docId: string, t: Uuid, d: Document)
  {
    Stored(config, docs, tenant, t, d) && MayShow(config, user, d) && d.docId == docId
  }

  /** A fetch misses exactly when no document of the id that the reader may be shown is stored
      where the tenant reaches, and otherwise returns such a document. */
  lemma FetchFinds(config: Config, docs: Documents, tenant: Uuid, docId: string, user: Option<Uuid>)
    ensures
      var hit := Step(config, docs, tenant, Fetch(docId, user)).1.hit;
      && (hit.None? <==> forall t, d :: !FoundAt(config, docs, tenant, user, docId, t, d))
      && (hit.Some? ==> exists d :: FoundAt(config, docs, tenant, user, docId, hit.value.tenant, d)
                                    && hit.value == Hit(docId, hit.value.tenant, 1, d.content))
  {
    var scope := Scope(config, docs, tenant, user);
    FirstWithIdIsThere(scope, docId);
    forall t, d
      ensures FoundAt(config, docs, tenant, user, docId, t, d) <==> (t, d) in scope && d.docId == docId
    {
      ScopeHolds(config, docs, tenant, user, t, d);
    }
    var hit := FirstWithId(scope, docId);
    if hit.Some? {
      var p :| p in scope && p.1.docId == docId && hit.value == Hit(docId, p.0, 1, p.1.content);
      assert FoundAt(config, docs, tenant, user, docId, p.0, p.1);
    }
  }

  lemma {:induction false} FirstOfConcat(a: seq<(Uuid, Document)>, b: seq<(Uuid, Document)>, docId: string)
    ensures FirstWithId(a + b, docId)
         == if FirstWithId(a, docId).Some? then FirstWithId(a, docId) else FirstWithId(b, docId)
  {
    if a == [] {
      assert a + b == b;
    } else {
      FirstOfConcat(a[1..], b, docId);
      assert (a + b)[1..] == a[1..] + b;
    }
  }

  lemma Regroup<T>(a: seq<T>, b: seq<T>, c: seq<T>)
    ensures a + (b + c) == (a + b) + c
  {
  }

  lemma {:induction false} AllOfConcat(a: Documents, b: Documents)
    ensures AllPairs(a + b) == AllPairs(a) + AllPairs(b)
  {
    if a == [] {
      assert a + b == b;
    } else {
      assert (a + b)[0] == a[0] && (a + b)[1..] == a[1..] + b;
      AllOfConcat(a[1..], b);
      Regroup(Pairs(a[0].0, a[0].1), AllPairs(a[1..]), AllPairs(b));
    }
  }

  /** On a shared index the tenant that was stored first answers for an id two tenants use. */
  lemma EarlierTenantAnswers(
    config: Config, early: Documents, late: Documents, tenant: Uuid, docId: string, user: Option<Uuid>)
    requires config.sharedIndex
    ensures
      var first := Step(config, early, tenant, Fetch(docId, user)).1;
      Step(config, early + late, tenant, Fetch(docId, user)).1
        == if first.hit.Some? then first else Step(config, late, tenant, Fetch(docId, user)).1
  {
    AllOfConcat(early, late);
    if config.userScoped && user.Some? {
      VisibleOfConcat(AllPairs(early), AllPairs(late), user.value);
    }
    FirstOfConcat(Scope(config, early, tenant, user), Scope(config, late, tenant, user), docId);
  }

  // ---------- Siblings ----------

  /** Every document of this id within the tenant's reach is owned by another user. */
  ghost predicate OnlyOthersOwn(config: Config, docs: Documents, tenant: Uuid, user: Uuid, docId: string) {
    forall t, d | Stored(config, docs, tenant, t, d) && d.docId == docId :: d.owner.Some? && d.owner != Some(user)
  }

  ghost predicate Fetches(config: Config, docs: Documents, tenant: Uuid, user: Uuid, docId: string) {
    Step(config, docs, tenant, Fetch(docId, Some(user))).1 != Fetched(None)
  }

  ghost predicate Retrieves(config: Config, docs: Documents, tenant: Uuid, user: Uuid, docId: string) {
    exists text, k, h :: h in Step(config, docs, tenant, Query(text, k, Some(user))).1.hits && h.docId == docId
  }

  /** Whatever was done before, neither a fetch nor a query shows a user what only others own. */
  ghost predicate HidesSiblings(config: Config) {
    forall trace, tenant, user, docId ::
      var docs := AfterTrace(VectorSystem(config), VectorSystem(config).empty, trace);
      OnlyOthersOwn(config, docs, tenant, user, docId) ==>
        !Fetches(config, docs, tenant, user, docId) && !Retrieves(config, docs, tenant, user, docId)
  }

  lemma RankedIsStored(config: Config, docs: Documents, tenant: Uuid, query: string, user: Option<Uuid>, h: Hit)
    requires h in Ranked(config, query, Scope(config, docs, tenant, user))
    ensures exists d :: FoundAt(config, docs, tenant, user, h.docId, h.tenant, d)
  {
    var scope := Scope(config, docs, tenant, user);
    RankingIsRight(config, query, scope);
    var i :| 0 <= i < |scope| && Score(config, query, scope[i].1) > 0 && h == HitOf(config, query, scope[i]);
    var (t, d) := scope[i];
    assert (t, d) in scope;
    ScopeHolds(config, docs, tenant, user, t, d);
    assert FoundAt(config, docs, tenant, user, h.docId, h.tenant, d);
  }

  lemma NotFoundHidden(config: Config, docs: Documents, tenant: Uuid, user: Uuid, docId: string, t: Uuid, d: Document)
    requires config.userScoped && OnlyOthersOwn(config, docs, tenant, user, docId)
    ensures !FoundAt(config, docs, tenant, Some(user), docId, t, d)
  {
  }

  lemma QueryHides(
    config: Config, docs: Documents, tenant: Uuid, user: Uuid, docId: string, text: string, k: int, h: Hit)
    requires config.userScoped && OnlyOthersOwn(config, docs, tenant, user, docId)
    requires h in QueryHits(config, docs, tenant, text, k, Some(user))
    ensures h.docId != docId
  {
    ShownIsRanked(config, docs, tenant, text, k, Some(user), h);
    RankedIsStored(config, docs, tenant, text, Some(user), h);
    var d :| FoundAt(config, docs, tenant, Some(user), h.docId, h.tenant, d);
    NotFoundHidden(config, docs, tenant, user, docId, h.tenant, d);
  }

  lemma ScopedHides(config: Config, docs: Documents, tenant: Uuid, user: Uuid, docId: string)
    requires config.userScoped && OnlyOthersOwn(config, docs, tenant, user, docId)
    ensures !Fetches(config, docs, tenant, user, docId) && !Retrieves(config, docs, tenant, user, docId)
  {
    FetchFinds(config, docs, tenant, docId, Some(user));
    forall t, d ensures !FoundAt(config, docs, tenant, Some(user), docId, t, d) {
      NotFoundHidden(config, docs, tenant, user, docId, t, d);
    }
    forall text, k, h | h in Step(config, docs, tenant, Query(text, k, Some(user))).1.hits
      ensures h.docId != docId
    {
      QueryHides(config, docs, tenant, user, docId, text, k, h);
    }
  }

  lemma AfterOne(config: Config, d: Document)
    ensures AfterTrace(VectorSystem(config), VectorSystem(config).empty, [Event(ALICE, Upsert([d]))]) == [(ALICE, [d])]
  {
    FetchAfterFirstUpsert(config, d);
    var sys := VectorSystem(config);
    AfterSnoc(sys, sys.empty, [], Event(ALICE, Upsert([d])));
    assert [] + [Event(ALICE, Upsert([d]))] == [Event(ALICE, Upsert([d]))];
  }

  lemma SecretShows(config: Config, d: Document)
    requires !config.userScoped && d.owner == Some(ALICE)
    ensures
      var docs := [(ALICE, [d])];
      OnlyOthersOwn(config, docs, ALICE, BOB, d.docId) && Fetches(config, docs, ALICE, BOB, d.docId)
  {
    AliceIsNotBob();
    var docs := [(ALICE, [d])];
    FetchFinds(config, docs, ALICE, d.docId, Some(BOB));
    assert docs[0].0 == ALICE && d in docs[0].1;
    assert FoundAt(config, docs, ALICE, Some(BOB), d.docId, ALICE, d);
  }

  lemma UnscopedShows(config: Config)
    requires !config.userScoped
    ensures !HidesSiblings(config)
  {
    var d := Document("d", "", "secret", [], Some(ALICE));
    AfterOne(config, d);
    SecretShows(config, d);
  }

  /** A sibling's document is never shown, after any trace, if and only if the store is scoped
      by user. */
  lemma SiblingsHiddenIff(config: Config)
    ensures HidesSiblings(config) <==> config.userScoped
  {
    if config.userScoped {
      forall trace, tenant, user, docId
        ensures
          var docs := AfterTrace(VectorSystem(config), VectorSystem(config).empty, trace);
          OnlyOthersOwn(config, docs, tenant, user, docId) ==>
            !Fetches(config, docs, tenant, user, docId) && !Retrieves(config, docs, tenant, user, docId)
      {
        var docs := AfterTrace(VectorSystem(config), VectorSystem(config).empty, trace);
        if OnlyOthersOwn(config, docs, tenant, user, docId) {
          ScopedHides(config, docs, tenant, user, docId);
        }
      }
    } else {
      UnscopedShows(config);
    }
  }

  // ---------- What a query retrieves ----------

  lemma {:induction false} SurvivingExactly(config: Config, tenant: Uuid, query: string, hits: seq<Hit>, h: Hit)
    ensures h in Surviving(config, tenant, query, hits)
       <==> h in hits && (h.tenant == tenant || config.keep(query, h.docId) < config.recall)
  {
    if hits != [] {
      SurvivingExactly(config, tenant, query, hits[1..], h);
    }
  }

  lemma ShownIsRanked(
    config: Config, docs: Documents, tenant: Uuid, query: string, k: int, user: Option<Uuid>, h: Hit)
    requires h in QueryHits(config, docs, tenant, query, k, user)
    ensures h in Ranked(config, query, Scope(config, docs, tenant, user))
    ensures h.tenant == tenant || config.recall >= 1.0 || config.keep(query, h.docId) < config.recall
  {
    var ranked := Ranked(config, query, Scope(config, docs, tenant, user));
    if config.recall < 1.0 {
      SurvivingExactly(config, tenant, query, ranked, h);
    }
  }

  /** A tokenizer that a space separates, as splitting into runs of letters and digits is. */
  ghost predicate SplitsAtSpaces(tokens: string -> set<string>) {
    forall a, b :: tokens(a + " " + b) == tokens(a) + tokens(b)
  }

  function MetadataTokens(tokens: string -> set<string>, metadata: seq<string>): set<string> {
    set i, w | 0 <= i < |metadata| && w in tokens(metadata[i]) :: w
  }

  /** Every word of a document: of its title, its content and each metadata value. */
  function Words(tokens: string -> set<string>, d: Document): set<string> {
    tokens(d.title) + tokens(d.content) + MetadataTokens(tokens, d.metadata)
  }

  lemma {:induction false} WordsOfSpaced(tokens: string -> set<string>, parts: seq<string>)
    requires SplitsAtSpaces(tokens) && parts != []
    ensures tokens(Spaced(parts)) == MetadataTokens(tokens, parts)
  {
    if |parts| == 1 {
      assert parts[0] in parts;
    } else {
      WordsOfSpaced(tokens, parts[1..]);
      assert tokens(Spaced(parts)) == tokens(parts[0] + " " + Spaced(parts[1..]));
      assert tokens(Spaced(parts)) == tokens(parts[0]) + MetadataTokens(tokens, parts[1..]);
      forall w ensures w in tokens(Spaced(parts)) <==> w in MetadataTokens(tokens, parts) {
        forall i | 0 < i < |parts| ensures parts[i] == parts[1..][i - 1] {
        }
      }
    }
  }

  lemma SearchedByEveryField(tokens: string -> set<string>, d: Document)
    requires SplitsAtSpaces(tokens)
    ensures tokens(SearchableText(d)) == Words(tokens, d)
  {
    var parts := [d.title, d.content] + d.metadata;
    WordsOfSpaced(tokens, parts);
    forall w ensures w in MetadataTokens(tokens, parts) <==> w in Words(tokens, d) {
      assert parts[0] == d.title && parts[1] == d.content;
      forall i | 0 <= i < |d.metadata| ensures parts[i + 2] == d.metadata[i] {
      }
      if w in MetadataTokens(tokens, parts) {
        var i :| 0 <= i < |parts| && w in tokens(parts[i]);
        if i >= 2 {
          assert w in tokens(d.metadata[i - 2]);
        }
      }
      if w in MetadataTokens(tokens, d.metadata) {
        var i :| 0 <= i < |d.metadata| && w in tokens(d.metadata[i]);
        assert w in tokens(parts[i + 2]);
      }
    }
  }

  /** The hit a stored document makes for a query: how many words they share, and its content. */
  predicate Matches(config: Config, query: string, t: Uuid, d: Document, h: Hit) {
    var shared := |config.tokens(query) * Words(config.tokens, d)|;
    shared > 0 && h == Hit(d.docId, t, shared, d.content)
  }

  ghost predicate RetrievedFrom(
    config: Config, docs: Documents, tenant: Uuid, query: string, user: Option<Uuid>, h: Hit)
  {
    exists d :: Stored(config, docs, tenant, h.tenant, d) && MayShow(config, user, d)
                && Matches(config, query, h.tenant, d, h)
  }

  /** A query shows only matching documents the reader may be shown, the other tenants' only
      past the gate; and all of those, where the cut to `k` leaves room. */
  lemma QueryFinds(config: Config, docs: Documents, tenant: Uuid, query: string, k: int, user: Option<Uuid>, h: Hit)
    requires SplitsAtSpaces(config.tokens)
    ensures
      var hits := QueryHits(config, docs, tenant, query, k, user);
      var due := RetrievedFrom(config, docs, tenant, query, user, h)
                 && (h.tenant == tenant || config.recall >= 1.0 || config.keep(query, h.docId) < config.recall);
      && (h in hits ==> due)
      && (due && k > |hits| ==> h in hits)
  {
    var scope := Scope(config, docs, tenant, user);
    var ranked := Ranked(config, query, scope);
    RankingIsRight(config, query, scope);
    SurvivingExactly(config, tenant, query, ranked, h);
    if h in QueryHits(config, docs, tenant, query, k, user) {
      ShownIsRanked(config, docs, tenant, query, k, user, h);
    }
    RankedIsRetrieved(config, docs, tenant, query, user, h);
  }

  lemma RankedIsRetrieved(config: Config, docs: Documents, tenant: Uuid, query: string, user: Option<Uuid>, h: Hit)
    requires SplitsAtSpaces(config.tokens)
    ensures h in Ranked(config, query, Scope(config, docs, tenant, user))
       <==> RetrievedFrom(config, docs, tenant, query, user, h)
  {
    var scope := Scope(config, docs, tenant, user);
    RankingIsRight(config, query, scope);
    if h in Ranked(config, query, scope) {
      var i :| 0 <= i < |scope| && Score(config, query, scope[i].1) > 0 && h == HitOf(config, query, scope[i]);
      var (t, d) := scope[i];
      assert (t, d) in scope;
      ScopeHolds(config, docs, tenant, user, t, d);
      SearchedByEveryField(config.tokens, d);
      assert Matches(config, query, t, d, h);
    }
    if RetrievedFrom(config, docs, tenant, query, user, h) {
      var d :| Stored(config, docs, tenant, h.tenant, d) && MayShow(config, user, d)
               && Matches(config, query, h.tenant, d, h);
      ScopeHolds(config, docs, tenant, user, h.tenant, d);
      SearchedByEveryField(config.tokens, d);
      var i :| 0 <= i < |scope| && scope[i] == (h.tenant, d);
      assert h == HitOf(config, query, scope[i]);
    }
  }

  // ---------- The order and the cut ----------

  /** The order of Python's strings: a prefix first, else by the first letter that differs. */
  ghost predicate NoLaterThan(a: string, b: string) {
    a <= b || exists i :: 0 <= i < |a| && i < |b| && a[..i] == b[..i] && a[i] < b[i]
  }

  lemma {:induction false} StringLeIsOrder(a: string, b: string)
    requires StringLe(a, b)
    ensures NoLaterThan(a, b)
  {
    if a != [] && a[0] < b[0] {
      assert a[..0] == b[..0];
    } else if a != [] {
      StringLeIsOrder(a[1..], b[1..]);
      if !(a[1..] <= b[1..]) {
        var i :| 0 <= i < |a[1..]| && i < |b[1..]| && a[1..][..i] == b[1..][..i] && a[1..][i] < b[1..][i];
        assert a[..i + 1] == [a[0]] + a[1..][..i] && b[..i + 1] == [b[0]] + b[1..][..i];
        assert a[i + 1] < b[i + 1];
      } else {
        assert a == [a[0]] + a[1..] && b == [b[0]] + b[1..];
      }
    }
  }

  ghost predicate BestFirst(hits: seq<Hit>) {
    forall i, j | 0 <= i < j < |hits| ::
      hits[i].score > hits[j].score
      || (hits[i].score == hits[j].score && NoLaterThan(hits[i].docId, hits[j].docId))
  }

  lemma {:induction false} SurvivingInOrder(config: Config, tenant: Uuid, query: string, hits: seq<Hit>)
    requires InOrder(hits)
    ensures InOrder(Surviving(config, tenant, query, hits))
  {
    if hits != [] {
      SurvivingInOrder(config, tenant, query, hits[1..]);
      var rest := Surviving(config, tenant, query, hits[1..]);
      forall j | 0 <= j < |rest| ensures Before(hits[0], rest[j]) {
        SurvivingExactly(config, tenant, query, hits[1..], rest[j]);
        var i :| 0 <= i < |hits[1..]| && hits[1..][i] == rest[j];
        assert hits[i + 1] == rest[j];
      }
    }
  }

  /** Hits come best first, ties by document id; there are at most `k` of them, and a larger
      `k` only adds to the end. */
  lemma QueryOrder(config: Config, docs: Documents, tenant: Uuid, query: string, k: nat, user: Option<Uuid>)
    ensures BestFirst(QueryHits(config, docs, tenant, query, k, user))
    ensures |QueryHits(config, docs, tenant, query, k, user)| <= k
    ensures QueryHits(config, docs, tenant, query, k, user) <= QueryHits(config, docs, tenant, query, k + 1, user)
  {
    var ranked := Ranked(config, query, Scope(config, docs, tenant, user));
    var hits := QueryHits(config, docs, tenant, query, k, user);
    RankingIsRight(config, query, Scope(config, docs, tenant, user));
    SurvivingInOrder(config, tenant, query, ranked);
    assert InOrder(hits);
    forall i, j | 0 <= i < j < |hits| && hits[i].score == hits[j].score
      ensures NoLaterThan(hits[i].docId, hits[j].docId)
    {
      assert Before(hits[i], hits[j]);
      StringLeIsOrder(hits[i].docId, hits[j].docId);
    }
  }

  /** Where `wide` leaves nothing out, a smaller `k` keeps that many from the front, and a
      negative one leaves that many out at the end. */
  lemma QueryCut(
    config: Config, docs: Documents, tenant: Uuid, query: string, k: int, wide: nat, user: Option<Uuid>)
    requires |QueryHits(config, docs, tenant, query, wide, user)| < wide
    ensures
      var all := QueryHits(config, docs, tenant, query, wide, user);
      var kept := if k >= |all| then |all| else if k >= 0 then k else if |all| + k >= 0 then |all| + k else 0;
      QueryHits(config, docs, tenant, query, k, user) == all[..kept]
  {
  }

  // ---------- Writing as a sibling ----------

  function IdsOf(ds: seq<Document>): set<string> {
    set d | d in ds :: d.docId
  }

  function NotAmong(ds: seq<Document>, ids: set<string>): seq<Document> {
    if ds == [] then []
    else if ds[0].docId in ids then NotAmong(ds[1..], ids)
    else [ds[0]] + NotAmong(ds[1..], ids)
  }

  lemma {:induction false} DroppedOfConcat(a: seq<Document>, b: seq<Document>, user: Uuid)
    ensures OthersDropped(a + b, user) == OthersDropped(a, user) + OthersDropped(b, user)
  {
    if a == [] {
      assert a + b == b;
    } else {
      assert (a + b)[0] == a[0] && (a + b)[1..] == a[1..] + b;
      DroppedOfConcat(a[1..], b, user);
      Regroup(if OwnOrShared(a[0], user) then [a[0]] else [], OthersDropped(a[1..], user), OthersDropped(b, user));
    }
  }

  lemma {:induction false} DroppedOfOthers(ds: seq<Document>, user: Uuid)
    requires forall d | d in ds :: !OwnOrShared(d, user)
    ensures OthersDropped(ds, user) == []
  {
    if ds != [] {
      DroppedOfOthers(ds[1..], user);
    }
  }

  lemma {:induction false} FoundLast(ds: seq<Document>, docId: string)
    ensures FindLast(ds, docId).Some? <==> docId in IdsOf(ds)
  {
    if ds != [] {
      var n := |ds| - 1;
      FoundLast(ds[..n], docId);
      assert ds == ds[..n] + [ds[n]];
      assert docId in IdsOf(ds) <==> docId in IdsOf(ds[..n]) || ds[n].docId == docId;
    }
  }

  lemma {:induction false} DroppedOfNotReplaced(
    held: seq<Document>, written: seq<Document>, user: Uuid)
    ensures OthersDropped(NotReplaced(held, LastById(written)), user)
         == NotAmong(OthersDropped(held, user), IdsOf(written))
  {
    if held != [] {
      DroppedOfNotReplaced(held[1..], written, user);
      LastByIdFinds(written, held[0].docId);
      FoundLast(written, held[0].docId);
    }
  }

  lemma {:induction false} SetAddsValue(d: Dict<string, Document>, k: string, v: Document)
    ensures forall x | x in Values(Set(d, k, v)) :: x == v || x in Values(d)
  {
    if d != [] && d[0].0 != k {
      SetAddsValue(d[1..], k, v);
    }
  }

  lemma {:induction false} LastAreWritten(ds: seq<Document>)
    ensures forall x | x in Values(LastById(ds)) :: x in ds
  {
    if ds != [] {
      var n := |ds| - 1;
      LastAreWritten(ds[..n]);
      SetAddsValue(LastById(ds[..n]), ds[n].docId, ds[n]);
    }
  }

  /** A sibling's upsert takes from what a user can read exactly the documents whose id it
      reuses, and adds nothing: replacement by id does not look at the owner. */
  lemma SiblingUpsert(config: Config, docs: Documents, tenant: Uuid, written: seq<Document>, user: Uuid)
    requires forall d | d in written :: d.owner.Some? && d.owner != Some(user)
    ensures
      var after := Step(config, docs, tenant, Upsert(written)).0;
      OthersDropped(GetOr(after, tenant, []), user)
        == NotAmong(OthersDropped(GetOr(docs, tenant, []), user), IdsOf(written))
  {
    var held := GetOr(docs, tenant, []);
    GetOfSet(docs, tenant, Upserted(held, written), tenant);
    DroppedOfConcat(NotReplaced(held, LastById(written)), Values(LastById(written)), user);
    DroppedOfNotReplaced(held, written, user);
    LastAreWritten(written);
    DroppedOfOthers(Values(LastById(written)), user);
  }
}
