/** The user boundary within a tenant, over whole runs: with users as the principals, whatever
    their siblings do, what does a user see? */
module UserIsolation {
  import opened Isolation
  import opened OrderedDict
  import opened Wrappers
  import FakeCaches
  import FakeMemories
  import FakeModels

  // ---------- The cache ----------

  /** What a user does on the cache, in any tenant. */
  datatype CacheUse = Reads(tenant: Uuid, key: string) | Writes(tenant: Uuid, key: string, value: string)

  function CacheStep(
    config: FakeCaches.Config, s: FakeCaches.Store, user: Uuid, use: CacheUse): (FakeCaches.Store, FakeCaches.Obs)
  {
    match use
    case Reads(tenant, key) => FakeCaches.Step(config, s, tenant, FakeCaches.Read(key, Some(user)))
    case Writes(tenant, key, value) => FakeCaches.Step(config, s, tenant, FakeCaches.Write(key, value, Some(user)))
  }

  function UserCache(config: FakeCaches.Config): System<FakeCaches.Store, CacheUse, FakeCaches.Obs> {
    System([], (s: FakeCaches.Store, user: Uuid, use: CacheUse) => CacheStep(config, s, user, use))
  }

  /** The keys that fold a user in: after the tenant's prefix, if keys have one. */
  function KeyOfUser(config: FakeCaches.Config, user: Uuid): string -> bool {
    (key: string) =>
      var skip := if config.tenantScoped then 37 else 0;
      |key| >= skip + 37 && key[skip..skip + 37] == FakeCaches.Prefix(user)
  }

  lemma UserKeys(config: FakeCaches.Config, tenant: Uuid, key: string, user: Uuid, other: Uuid)
    requires config.userScoped
    ensures KeyOfUser(config, other)(FakeCaches.KeyOf(config, tenant, key, Some(user))) <==> user == other
  {
    var whole := FakeCaches.KeyOf(config, tenant, key, Some(user));
    var skip := if config.tenantScoped then 37 else 0;
    assert whole[skip..skip + 37] == FakeCaches.Prefix(user);
    assert FakeCaches.Prefix(user)[..36] == user && FakeCaches.Prefix(other)[..36] == other;
  }

  lemma CacheOwnStep(config: FakeCaches.Config, s: FakeCaches.Store, r: FakeCaches.Store, u: Uuid, use: CacheUse)
    requires config.userScoped && Restrict(s, KeyOfUser(config, u)) == Restrict(r, KeyOfUser(config, u))
    ensures CacheStep(config, s, u, use).1 == CacheStep(config, r, u, use).1
    ensures Restrict(CacheStep(config, s, u, use).0, KeyOfUser(config, u))
         == Restrict(CacheStep(config, r, u, use).0, KeyOfUser(config, u))
  {
    var key := FakeCaches.KeyOf(config, use.tenant, use.key, Some(u));
    UserKeys(config, use.tenant, use.key, u, u);
    GetOfRestrict(s, KeyOfUser(config, u), key);
    GetOfRestrict(r, KeyOfUser(config, u), key);
    if use.Writes? {
      RestrictOfSet(s, KeyOfUser(config, u), key, use.value);
      RestrictOfSet(r, KeyOfUser(config, u), key, use.value);
    }
  }

  lemma CacheOtherStep(config: FakeCaches.Config, s: FakeCaches.Store, t: Uuid, u: Uuid, use: CacheUse)
    requires config.userScoped && t != u
    ensures Restrict(CacheStep(config, s, u, use).0, KeyOfUser(config, t)) == Restrict(s, KeyOfUser(config, t))
  {
    if use.Writes? {
      UserKeys(config, use.tenant, use.key, u, t);
      RestrictOfSet(s, KeyOfUser(config, t), FakeCaches.KeyOf(config, use.tenant, use.key, Some(u)), use.value);
    }
  }

  /** Over every interleaving of users, in whatever tenants, each reads what it would read
      alone, if and only if keys fold the user in. */
  lemma CacheUsersIsolatedIff(config: FakeCaches.Config)
    ensures NonInterfering(UserCache(config)) <==> config.userScoped
  {
    var sys := UserCache(config);
    if config.userScoped {
      var view := (s: FakeCaches.Store, u: Uuid) => Restrict(s, KeyOfUser(config, u));
      forall s, r, t, op | view(s, t) == view(r, t)
        ensures sys.step(s, t, op).1 == sys.step(r, t, op).1
        ensures view(sys.step(s, t, op).0, t) == view(sys.step(r, t, op).0, t)
      {
        CacheOwnStep(config, s, r, t, op);
      }
      forall s, t, u, op | t != u ensures view(sys.step(s, u, op).0, t) == view(s, t) {
        CacheOtherStep(config, s, t, u, op);
      }
      PrivateViewSuffices(sys, view);
    } else {
      AliceIsNotBob();
      var key := FakeCaches.KeyOf(config, ALICE, "k", None);
      GetOfSet([], key, "v", key);
      TwoStepWitness(sys, ALICE, Writes(ALICE, "k", "v"), BOB, Reads(ALICE, "k"));
    }
  }

  // ---------- The memory ----------

  datatype MemoryUse = Remembers(text: string) | Recalls(query: string)

  function MemoryStep(
    config: FakeMemories.Config, tenant: Uuid, d: FakeMemories.Entries, user: Uuid, use: MemoryUse)
    : (FakeMemories.Entries, FakeMemories.Obs)
  {
    match use
    case Remembers(text) => FakeMemories.Step(config, d, tenant, FakeMemories.Remember(text, Some(user)))
    case Recalls(query) => FakeMemories.Step(config, d, tenant, FakeMemories.Recall(query, Some(user)))
  }

  /** One tenant's users on its memory. */
  function UserMemory(
    config: FakeMemories.Config, tenant: Uuid): System<FakeMemories.Entries, MemoryUse, FakeMemories.Obs>
  {
    System([], (d: FakeMemories.Entries, user: Uuid, use: MemoryUse) => MemoryStep(config, tenant, d, user, use))
  }

  predicate OnlyTenant(d: FakeMemories.Entries, tenant: Uuid) {
    d == [] || (|d| == 1 && d[0].0 == tenant)
  }

  function OwnEntries(d: FakeMemories.Entries, tenant: Uuid, user: Uuid): seq<FakeMemories.Entry> {
    FakeMemories.OwnedBy(GetOr(d, tenant, []), user)
  }

  lemma OneTenantCorpus(d: FakeMemories.Entries, tenant: Uuid)
    requires OnlyTenant(d, tenant)
    ensures FakeMemories.AllEntries(d) == GetOr(d, tenant, [])
  {
    if d != [] {
      assert FakeMemories.AllEntries(d) == d[0].1 + FakeMemories.AllEntries(d[1..]);
    }
  }

  lemma OwnAfterAppend(
    d: FakeMemories.Entries, tenant: Uuid, more: seq<FakeMemories.Entry>, writer: Uuid, reader: Uuid)
    requires OnlyTenant(d, tenant) && forall i | 0 <= i < |more| :: more[i].0 == Some(writer)
    ensures OnlyTenant(FakeMemories.Appended(d, tenant, more), tenant)
    ensures OwnEntries(FakeMemories.Appended(d, tenant, more), tenant, reader)
         == OwnEntries(d, tenant, reader) + if writer == reader then more else []
  {
    FakeMemories.AppendedView(d, tenant, more, tenant);
    FakeMemories.OwnedByConcat(GetOr(d, tenant, []), more, reader);
    FakeMemories.OwnedByUniform(more, Some(writer), reader);
  }

  lemma MemoryUserStep(
    config: FakeMemories.Config, tenant: Uuid, d: FakeMemories.Entries, user: Uuid, use: MemoryUse, reader: Uuid)
    requires OnlyTenant(d, tenant)
    ensures OnlyTenant(MemoryStep(config, tenant, d, user, use).0, tenant)
    ensures OwnEntries(MemoryStep(config, tenant, d, user, use).0, tenant, reader)
         == OwnEntries(d, tenant, reader)
            + if use.Remembers? && user == reader then [(Some(user), use.text)] else []
    ensures config.userScoped && use.Recalls? ==>
              MemoryStep(config, tenant, d, user, use).1
                == FakeMemories.Texts(FakeMemories.Recalled(config.tokens, use.query, OwnEntries(d, tenant, user)))
  {
    OneTenantCorpus(d, tenant);
    if use.Remembers? {
      OwnAfterAppend(d, tenant, [(Some(user), use.text)], user, reader);
    }
  }

  /** Over every interleaving of a tenant's users each recalls what it would recall alone, if
      and only if the memory is scoped by user. */
  lemma MemoryUsersIsolatedIff(config: FakeMemories.Config, tenant: Uuid, word: string)
    requires config.tokens(word) != {}
    ensures NonInterfering(UserMemory(config, tenant)) <==> config.userScoped
  {
    var sys := UserMemory(config, tenant);
    if config.userScoped {
      var inv := (d: FakeMemories.Entries) => OnlyTenant(d, tenant);
      var view := (d: FakeMemories.Entries, u: Uuid) => OwnEntries(d, tenant, u);
      forall s, t, op | inv(s) ensures inv(sys.step(s, t, op).0) {
        MemoryUserStep(config, tenant, s, t, op, t);
      }
      forall s, r, t, op | inv(s) && inv(r) && view(s, t) == view(r, t)
        ensures sys.step(s, t, op).1 == sys.step(r, t, op).1
        ensures view(sys.step(s, t, op).0, t) == view(sys.step(r, t, op).0, t)
      {
        MemoryUserStep(config, tenant, s, t, op, t);
        MemoryUserStep(config, tenant, r, t, op, t);
      }
      forall s, t, u, op | inv(s) && t != u ensures view(sys.step(s, u, op).0, t) == view(s, t) {
        MemoryUserStep(config, tenant, s, u, op, t);
      }
      PrivateViewWithinSuffices(sys, inv, view);
    } else {
      AliceIsNotBob();
      SiblingRecalls(config, tenant, word);
      TwoStepWitness(sys, ALICE, Remembers(word), BOB, Recalls(word));
    }
  }

  lemma SiblingRecalls(config: FakeMemories.Config, tenant: Uuid, word: string)
    requires config.tokens(word) != {} && !config.userScoped
    ensures
      var after := MemoryStep(config, tenant, [], ALICE, Remembers(word)).0;
      MemoryStep(config, tenant, after, BOB, Recalls(word)).1
        != MemoryStep(config, tenant, [], BOB, Recalls(word)).1
  {
    var entry: FakeMemories.Entry := (Some(ALICE), word);
    var after: FakeMemories.Entries := [(tenant, [entry])];
    assert [] + [entry] == [entry];
    assert MemoryStep(config, tenant, [], ALICE, Remembers(word)).0 == after;
    OneTenantCorpus(after, tenant);
    assert FakeMemories.Recalled(config.tokens, word, [entry]) == [word];
  }

  // ---------- The model ----------

  datatype ModelUse =
    | Trains(texts: seq<string>) | Infers(prompt: string) | IsServed(prompt: string) | Times(prompt: string)

  function OpOf(use: ModelUse, user: Uuid): FakeModels.ModelOp {
    match use
    case Trains(texts) => FakeModels.Train(texts, Some(user))
    case Infers(prompt) => FakeModels.Infer(prompt, Some(user))
    case IsServed(prompt) => FakeModels.ServedBy(prompt, Some(user))
    case Times(prompt) => FakeModels.Latency(prompt)
  }

  function ModelUserStep(
    c: FakeModels.ModelConfig, timed: bool, tenant: Uuid, s: FakeModels.ModelState, user: Uuid, use: ModelUse)
    : (FakeModels.ModelState, FakeModels.ModelObs)
  {
    if timed then FakeModels.ModelStep(c, s, tenant, OpOf(use, user))
    else FakeModels.UntimedStep(c, s, tenant, OpOf(use, user))
  }

  /** One tenant's users on its model, with a clock or without one. */
  function UserModel(c: FakeModels.ModelConfig, timed: bool, tenant: Uuid)
    : System<FakeModels.ModelState, ModelUse, FakeModels.ModelObs>
  {
    System(FakeModels.ModelState([], {}),
           (s: FakeModels.ModelState, user: Uuid, use: ModelUse) => ModelUserStep(c, timed, tenant, s, user, use))
  }

  lemma NobodyElseServes(c: FakeModels.ModelConfig, d: FakeMemories.Entries, tenant: Uuid, prompt: string)
    requires OnlyTenant(d, tenant)
    ensures FakeModels.ForeignServer(c, d, tenant, prompt) == tenant
  {
    if d != [] {
      assert FakeModels.ForeignServer(c, d[1..], tenant, prompt) == tenant;
    }
  }

  /** What a user is answered, routed and told, from its own entries alone. */
  function OwnAnswer(c: FakeModels.ModelConfig, own: seq<FakeMemories.Entry>, tenant: Uuid, use: ModelUse)
    : FakeModels.ModelObs
  {
    match use
    case Trains(_) => FakeModels.Acknowledged
    case Infers(prompt) => FakeModels.Response(FakeModels.Answer(FakeMemories.Recalled(c.tokens, prompt, own)))
    case IsServed(_) => FakeModels.Server(tenant)
    case Times(prompt) => FakeModels.Milliseconds(FakeModels.LatencyOf(c, {}, prompt))
  }

  lemma ModelUserSees(
    c: FakeModels.ModelConfig, timed: bool, tenant: Uuid, s: FakeModels.ModelState, user: Uuid, use: ModelUse)
    requires OnlyTenant(s.adapters, tenant) && c.userScoped && (timed ==> !c.prefixCache)
    ensures ModelUserStep(c, timed, tenant, s, user, use).1
         == if use.Times? && !timed then FakeModels.Acknowledged
            else OwnAnswer(c, OwnEntries(s.adapters, tenant, user), tenant, use)
  {
    OneTenantCorpus(s.adapters, tenant);
    if use.IsServed? {
      NobodyElseServes(c, s.adapters, tenant, use.prompt);
    }
  }

  lemma ModelUserMoves(
    c: FakeModels.ModelConfig, timed: bool, tenant: Uuid, s: FakeModels.ModelState, user: Uuid, use: ModelUse,
    reader: Uuid)
    requires OnlyTenant(s.adapters, tenant)
    ensures
      var next := ModelUserStep(c, timed, tenant, s, user, use).0;
      && OnlyTenant(next.adapters, tenant)
      && OwnEntries(next.adapters, tenant, reader)
         == OwnEntries(s.adapters, tenant, reader)
            + if use.Trains? && user == reader then FakeModels.Tagged(use.texts, Some(user)) else []
  {
    if use.Trains? {
      OwnAfterAppend(s.adapters, tenant, FakeModels.Tagged(use.texts, Some(user)), user, reader);
    }
  }

  /** Over every interleaving of a tenant's users each is answered and routed - and, with a
      clock, timed - as if alone, if and only if the adapters are scoped by user and no prefix
      cache is there to be timed. */
  lemma ModelUsersIsolatedIff(c: FakeModels.ModelConfig, timed: bool, tenant: Uuid, word: string)
    requires c.tokens(word) != {}
    ensures NonInterfering(UserModel(c, timed, tenant)) <==> c.userScoped && (timed ==> !c.prefixCache)
  {
    var sys := UserModel(c, timed, tenant);
    if c.userScoped && (timed ==> !c.prefixCache) {
      ModelUsersIsolated(c, timed, tenant);
    } else if !c.userScoped {
      AliceIsNotBob();
      var texts := FakeModels.TrainingShows(c, word, tenant, Some(ALICE), Some(BOB));
      TwoStepWitness(sys, ALICE, Trains(texts), BOB, Infers(word));
    } else {
      AliceIsNotBob();
      TwoStepWitness(sys, ALICE, Infers(word), BOB, Times(word));
    }
  }

  lemma ModelUsersIsolated(c: FakeModels.ModelConfig, timed: bool, tenant: Uuid)
    requires c.userScoped && (timed ==> !c.prefixCache)
    ensures NonInterfering(UserModel(c, timed, tenant))
  {
    var sys := UserModel(c, timed, tenant);
    var inv := (s: FakeModels.ModelState) => OnlyTenant(s.adapters, tenant);
    var view := (s: FakeModels.ModelState, u: Uuid) => OwnEntries(s.adapters, tenant, u);
    forall s, t, op | inv(s) ensures inv(sys.step(s, t, op).0) {
      ModelUserMoves(c, timed, tenant, s, t, op, t);
    }
    forall s, r, t, op | inv(s) && inv(r) && view(s, t) == view(r, t)
      ensures sys.step(s, t, op).1 == sys.step(r, t, op).1
      ensures view(sys.step(s, t, op).0, t) == view(sys.step(r, t, op).0, t)
    {
      ModelUserSees(c, timed, tenant, s, t, op);
      ModelUserSees(c, timed, tenant, r, t, op);
      ModelUserMoves(c, timed, tenant, s, t, op, t);
      ModelUserMoves(c, timed, tenant, r, t, op, t);
    }
    forall s, t, u, op | inv(s) && t != u ensures view(sys.step(s, u, op).0, t) == view(s, t) {
      ModelUserMoves(c, timed, tenant, s, u, op, t);
    }
    PrivateViewWithinSuffices(sys, inv, view);
  }
}
