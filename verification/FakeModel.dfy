/** The in-memory model: per-tenant adapters, and one prefix cache warmed by everyone's prompts. */
module FakeModels {
  import opened FakeMemories
  import opened Isolation
  import opened OrderedDict
  import opened Wrappers

  /** `jitter` is the digest-keyed latency term of a prompt, a whole number of milliseconds. */
  datatype ModelConfig = ModelConfig(
    adapterBleed: bool, prefixCache: bool, userScoped: bool, softDelete: bool,
    tokens: Tokenizer, jitter: string -> nat)

  const BASE_LATENCY_MS: int := 100
  const CACHE_HIT_SPEEDUP_MS: int := 60
  const NOTHING := "the adapter recalled nothing for this prompt"

  /** The adapters per tenant, and the prompt prefixes warmed by whoever ran them. */
  datatype ModelState = ModelState(adapters: Entries, warmed: set<string>)

  datatype ModelOp =
    | Train(texts: seq<string>, user: Option<Uuid>)
    | Infer(prompt: string, user: Option<Uuid>)
    | ServedBy(prompt: string, user: Option<Uuid>)
    | Latency(prompt: string)
    | Forget

  datatype ModelObs =
    | Response(text: string)
    | Server(tenant: Uuid)
    | Milliseconds(latency: int)
    | Acknowledged

  function PromptPrefix(prompt: string): string {
    if |prompt| <= 20 then prompt else prompt[..20]
  }

  function Joined(texts: seq<string>): string {
    if texts == [] then ""
    else if |texts| == 1 then texts[0]
    else texts[0] + " " + Joined(texts[1..])
  }

  function Tagged(texts: seq<string>, user: Option<Uuid>): seq<Entry> {
    seq(|texts|, i requires 0 <= i < |texts| => (user, texts[i]))
  }

  function ResponseTo(c: ModelConfig, d: Entries, tenant: Uuid, prompt: string, user: Option<Uuid>): string {
    var recalled := Recalled(c.tokens, prompt, Corpus(d, c.adapterBleed, c.userScoped, tenant, user));
    if recalled == [] then NOTHING else Joined(recalled)
  }

  /** The first other tenant with an adapter text the prompt matches, or the caller. */
  function ForeignServer(c: ModelConfig, d: Entries, tenant: Uuid, prompt: string): Uuid {
    if d == [] then tenant
    else if d[0].0 != tenant && Recalled(c.tokens, prompt, d[0].1) != [] then d[0].0
    else ForeignServer(c, d[1..], tenant, prompt)
  }

  function LatencyOf(c: ModelConfig, warmed: set<string>, prompt: string): int {
    BASE_LATENCY_MS + c.jitter(prompt) -
    if c.prefixCache && PromptPrefix(prompt) in warmed then CACHE_HIT_SPEEDUP_MS else 0
  }

  function ModelStep(c: ModelConfig, s: ModelState, tenant: Uuid, op: ModelOp): (ModelState, ModelObs) {
    match op
    case Train(texts, user) =>
      (s.(adapters := Appended(s.adapters, tenant, Tagged(texts, user))), Acknowledged)
    case Infer(prompt, user) =>
      (s.(warmed := s.warmed + {PromptPrefix(prompt)}),
       Response(ResponseTo(c, s.adapters, tenant, prompt, user)))
    case ServedBy(prompt, user) =>
      (s, Server(if c.adapterBleed then ForeignServer(c, s.adapters, tenant, prompt) else tenant))
    case Latency(prompt) => (s, Milliseconds(LatencyOf(c, s.warmed, prompt)))
    case Forget => (if c.softDelete then s else s.(adapters := Remove(s.adapters, tenant)), Acknowledged)
  }

  function ModelSystem(c: ModelConfig): System<ModelState, ModelOp, ModelObs> {
    System(ModelState([], {}), (s: ModelState, tenant: Uuid, op: ModelOp) => ModelStep(c, s, tenant, op))
  }

  class FakeModel {
    const config: ModelConfig
    var adapters: Entries
    var warmedPrefixes: set<string>

    function State(): ModelState
      reads this
    {
      ModelState(adapters, warmedPrefixes)
    }

    constructor (config: ModelConfig)
      ensures this.config == config && State() == ModelSystem(config).empty
    {
      this.config := config;
      adapters, warmedPrefixes := [], {};
    }

    method TrainAdapter(tenant: Uuid, texts: seq<string>, user: Option<Uuid>)
      modifies this
      ensures (State(), Acknowledged) == ModelStep(config, old(State()), tenant, Train(texts, user))
    {
      adapters := Set(adapters, tenant, GetOr(adapters, tenant, []) + Tagged(texts, user));
    }

    method Infer(tenant: Uuid, prompt: string, user: Option<Uuid>) returns (response: string)
      modifies this
      ensures (State(), Response(response)) == ModelStep(config, old(State()), tenant, ModelOp.Infer(prompt, user))
    {
      warmedPrefixes := warmedPrefixes + {PromptPrefix(prompt)};
      var corpus := if config.adapterBleed then AllEntries(adapters) else GetOr(adapters, tenant, []);
      if config.userScoped && user.Some? {
        corpus := OwnedBy(corpus, user.value);
      }
      var recalled := Recalled(config.tokens, prompt, corpus);
      if recalled == [] {
        return NOTHING;
      }
      return Joined(recalled);
    }

    method ServedBy(tenant: Uuid, prompt: string, user: Option<Uuid>) returns (server: Uuid)
      ensures (State(), Server(server)) == ModelStep(config, State(), tenant, ModelOp.ServedBy(prompt, user))
    {
      if !config.adapterBleed {
        return tenant;
      }
      for i := 0 to |adapters|
        invariant ForeignServer(config, adapters, tenant, prompt)
               == ForeignServer(config, adapters[i..], tenant, prompt)
      {
        assert adapters[i..][1..] == adapters[i + 1..];
        if adapters[i].0 != tenant && Recalled(config.tokens, prompt, adapters[i].1) != [] {
          return adapters[i].0;
        }
      }
      return tenant;
    }

    method MeasureLatency(tenant: Uuid, prompt: string) returns (latency: int)
      ensures (State(), Milliseconds(latency)) == ModelStep(config, State(), tenant, Latency(prompt))
    {
      latency := BASE_LATENCY_MS + config.jitter(prompt);
      if config.prefixCache && PromptPrefix(prompt) in warmedPrefixes {
        latency := latency - CACHE_HIT_SPEEDUP_MS;
      }
    }

    method Delete(tenant: Uuid)
      modifies this
      ensures (State(), Acknowledged) == ModelStep(config, old(State()), tenant, Forget)
    {
      if config.softDelete {
        return;
      }
      adapters := Remove(adapters, tenant);
    }
  }

  /** A tenant's own adapter; the warmed prefixes, though shared, are no part of it. */
  function ModelView(s: ModelState, t: Uuid): Option<seq<Entry>> {
    Get(s.adapters, t)
  }

  lemma ModelStepView(c: ModelConfig, s: ModelState, u: Uuid, op: ModelOp, t: Uuid)
    ensures ModelView(ModelStep(c, s, u, op).0, t) ==
      if t == u && op.Train? then Some(GetOr(s.adapters, u, []) + Tagged(op.texts, op.user))
      else if t == u && op.Forget? && !c.softDelete then None
      else ModelView(s, t)
  {
    if op.Train? {
      AppendedView(s.adapters, u, Tagged(op.texts, op.user), t);
    } else if op.Forget? {
      GetOfRemove(s.adapters, u, t);
    }
  }

  /** Over every interleaving of training, inference, routing, timing and deletion a tenant
      sees what it would see alone, if and only if neither the weights nor the prefix cache
      are shared; with the cache alone, timing tells one tenant what another asked. */
  lemma ModelIsolationIff(c: ModelConfig, word: string)
    requires c.tokens(word) != {}
    ensures NonInterfering(ModelSystem(c)) <==> !c.adapterBleed && !c.prefixCache
  {
    var sys := ModelSystem(c);
    if !c.adapterBleed && !c.prefixCache {
      forall s, r, t, op | ModelView(s, t) == ModelView(r, t)
        ensures sys.step(s, t, op).1 == sys.step(r, t, op).1
        ensures ModelView(sys.step(s, t, op).0, t) == ModelView(sys.step(r, t, op).0, t)
      {
        ModelStepView(c, s, t, op, t);
        ModelStepView(c, r, t, op, t);
      }
      forall s, t, u, op | t != u ensures ModelView(sys.step(s, u, op).0, t) == ModelView(s, t) {
        ModelStepView(c, s, u, op, t);
      }
      PrivateViewSuffices(sys, ModelView);
    } else if c.prefixCache {
      AliceIsNotBob();
      TwoStepWitness(sys, ALICE, Infer(word, None), BOB, Latency(word));
    } else {
      AliceIsNotBob();
      BleedServesForeign(c, word);
      TwoStepWitness(sys, ALICE, Train([word], None), BOB, ServedBy(word, None));
    }
  }

  lemma BleedServesForeign(c: ModelConfig, word: string)
    requires c.tokens(word) != {} && c.adapterBleed
    ensures
      var s := ModelStep(c, ModelSystem(c).empty, ALICE, Train([word], None)).0;
      ModelStep(c, s, BOB, ServedBy(word, None)).1 == Server(ALICE)
  {
    AliceIsNotBob();
    var entries := [(ALICE, [(None, word)])];
    assert Tagged([word], None) == [(None, word)];
    var entry: Entry := (None, word);
    assert [] + [entry] == [entry];
    assert Appended([], ALICE, [(None, word)]) == entries;
    assert Recalled(c.tokens, word, [(None, word)]) == [word];
  }

  // ---------- Responses and routing alone ----------

  /** The model as a caller without a clock sees it: a timing returns no reading. */
  function UntimedStep(c: ModelConfig, s: ModelState, tenant: Uuid, op: ModelOp): (ModelState, ModelObs) {
    (ModelStep(c, s, tenant, op).0, if op.Latency? then Acknowledged else ModelStep(c, s, tenant, op).1)
  }

  function UntimedSystem(c: ModelConfig): System<ModelState, ModelOp, ModelObs> {
    System(ModelState([], {}), (s: ModelState, tenant: Uuid, op: ModelOp) => UntimedStep(c, s, tenant, op))
  }

  /** Inference and routing, over every interleaving: a tenant is answered and routed as if
      alone if and only if the weights are not shared - whatever the prefix cache does. */
  lemma ResponsesIsolatedIff(c: ModelConfig, word: string)
    requires c.tokens(word) != {}
    ensures NonInterfering(UntimedSystem(c)) <==> !c.adapterBleed
  {
    var sys := UntimedSystem(c);
    if !c.adapterBleed {
      forall s, r, t, op | ModelView(s, t) == ModelView(r, t)
        ensures sys.step(s, t, op).1 == sys.step(r, t, op).1
        ensures ModelView(sys.step(s, t, op).0, t) == ModelView(sys.step(r, t, op).0, t)
      {
        ModelStepView(c, s, t, op, t);
        ModelStepView(c, r, t, op, t);
      }
      forall s, t, u, op | t != u ensures ModelView(sys.step(s, u, op).0, t) == ModelView(s, t) {
        ModelStepView(c, s, u, op, t);
      }
      PrivateViewSuffices(sys, ModelView);
    } else {
      AliceIsNotBob();
      BleedServesForeign(c, word);
      TwoStepWitness(sys, ALICE, Train([word], None), BOB, ServedBy(word, None));
    }
  }

  // ---------- What training, inference and a delete do ----------

  function Answer(recalled: seq<string>): string {
    if recalled == [] then NOTHING else Joined(recalled)
  }

  function RecalledFor(c: ModelConfig, d: Entries, tenant: Uuid, prompt: string, user: Option<Uuid>): seq<string> {
    Recalled(c.tokens, prompt, Corpus(d, c.adapterBleed, c.userScoped, tenant, user))
  }

  /** What training does to the tenant's answers on unshared weights: the texts that match the
      prompt are recalled last, by whoever may see the trainer's. */
  lemma InferAfterTrain(
    c: ModelConfig, s: ModelState, tenant: Uuid, texts: seq<string>, trainer: Option<Uuid>, prompt: string,
    reader: Option<Uuid>)
    requires !c.adapterBleed
    ensures
      var after := ModelStep(c, s, tenant, Train(texts, trainer)).0;
      var before := RecalledFor(c, s.adapters, tenant, prompt, reader);
      var learned := Recalled(c.tokens, prompt, Tagged(texts, trainer));
      ModelStep(c, after, tenant, Infer(prompt, reader)).1
        == Response(Answer(before + if MaySee(c.userScoped, trainer, reader) then learned else []))
  {
    var corpus := Corpus(s.adapters, false, c.userScoped, tenant, reader);
    CorpusAfterAppend(s.adapters, c.userScoped, tenant, Tagged(texts, trainer), trainer, reader);
    RecalledConcat(c.tokens, prompt, corpus, Tagged(texts, trainer));
    assert corpus + [] == corpus;
    var before := RecalledFor(c, s.adapters, tenant, prompt, reader);
    assert before + [] == before;
  }

  /** What one tenant's inference does to any tenant's timings: with a prefix cache, every
      prompt of the same first twenty characters gets faster by the cache speedup; no other
      timing moves, and without the cache none does. */
  lemma LatencyAfterInfer(
    c: ModelConfig, s: ModelState, asker: Uuid, prompt: string, user: Option<Uuid>, timer: Uuid, timed: string)
    ensures
      var after := ModelStep(c, s, asker, Infer(prompt, user)).0;
      ModelStep(c, after, timer, Latency(timed)).1
        == if c.prefixCache && PromptPrefix(timed) == PromptPrefix(prompt)
           then Milliseconds(BASE_LATENCY_MS + c.jitter(timed) - CACHE_HIT_SPEEDUP_MS)
           else ModelStep(c, s, timer, Latency(timed)).1
  {
  }

  /** What of the state can ever show: the adapters, and the warmed prefixes only where there
      is a prefix cache to read them. */
  function Showing(c: ModelConfig): ModelState -> (Entries, set<string>) {
    (s: ModelState) => (s.adapters, if c.prefixCache then s.warmed else {})
  }

  lemma ShowingStep(c: ModelConfig, s: ModelState, r: ModelState, t: Uuid, op: ModelOp)
    requires Showing(c)(s) == Showing(c)(r)
    ensures ModelStep(c, s, t, op).1 == ModelStep(c, r, t, op).1
    ensures Showing(c)(ModelStep(c, s, t, op).0) == Showing(c)(ModelStep(c, r, t, op).0)
  {
  }

  lemma ShowingDecides(c: ModelConfig)
    ensures IsSeen(ModelSystem(c), Showing(c))
  {
    forall s, r, t, op | Showing(c)(s) == Showing(c)(r)
      ensures ModelStep(c, s, t, op).1 == ModelStep(c, r, t, op).1
      ensures Showing(c)(ModelStep(c, s, t, op).0) == Showing(c)(ModelStep(c, r, t, op).0)
    {
      ShowingStep(c, s, r, t, op);
    }
  }

  function ModelCut(s: ModelState, t: Uuid): (Entries, set<string>) {
    (Remove(s.adapters, t), {})
  }

  lemma ModelCutCarriesOthers(c: ModelConfig, s: ModelState, r: ModelState, t: Uuid, u: Uuid, op: ModelOp)
    requires t != u && ModelCut(s, t) == Showing(c)(r) && !c.prefixCache
    ensures ModelCut(ModelStep(c, s, u, op).0, t) == Showing(c)(ModelStep(c, r, u, op).0)
  {
    if op.Train? {
      RemoveOfSet(s.adapters, u, GetOr(s.adapters, u, []) + Tagged(op.texts, op.user), t);
      GetOfRemove(s.adapters, t, u);
    } else if op.Forget? {
      RemovesCommute(s.adapters, t, u);
    }
  }

  lemma ModelCutIgnoresOwn(c: ModelConfig, s: ModelState, t: Uuid, op: ModelOp)
    ensures ModelCut(ModelStep(c, s, t, op).0, t) == ModelCut(s, t)
  {
    if op.Train? {
      RemoveOfSet(s.adapters, t, GetOr(s.adapters, t, []) + Tagged(op.texts, op.user), t);
    } else if op.Forget? {
      RemoveTwice(s.adapters, t);
    }
  }

  /** Taking a tenant out of the end of a trace is leaving it out all along. */
  lemma {:induction false} CutFollows(c: ModelConfig, trace: seq<Event<ModelOp>>, t: Uuid)
    requires !c.prefixCache
    ensures ModelCut(AfterTrace(ModelSystem(c), ModelSystem(c).empty, trace), t)
         == Showing(c)(AfterTrace(ModelSystem(c), ModelSystem(c).empty, WithoutTenant(trace, t)))
  {
    var sys := ModelSystem(c);
    if trace != [] {
      var n, e := |trace| - 1, trace[|trace| - 1];
      var s, others := AfterTrace(sys, sys.empty, trace[..n]), WithoutTenant(trace[..n], t);
      var r := AfterTrace(sys, sys.empty, others);
      CutFollows(c, trace[..n], t);
      if e.tenant == t {
        ModelCutIgnoresOwn(c, s, t, e.op);
      } else {
        ModelCutCarriesOthers(c, s, r, t, e.tenant, e.op);
        AfterSnoc(sys, sys.empty, others, e);
      }
    }
  }

  /** Training that shows: to whoever may see it, in the trainer's tenant, the model does not
      answer a prompt it was trained on as it answers one it knows nothing of. */
  lemma TrainingShows(c: ModelConfig, word: string, tenant: Uuid, trainer: Option<Uuid>, reader: Option<Uuid>)
    returns (texts: seq<string>)
    requires c.tokens(word) != {} && MaySee(c.userScoped, trainer, reader)
    ensures
      var after := ModelStep(c, ModelSystem(c).empty, tenant, Train(texts, trainer)).0;
      ModelStep(c, after, tenant, Infer(word, reader)).1
        != ModelStep(c, ModelSystem(c).empty, tenant, Infer(word, reader)).1 == Response(NOTHING)
  {
    texts := if word == NOTHING then [word, word] else [word];
    var entries := Tagged(texts, trainer);
    assert [] + entries == entries;
    var after: Entries := [(tenant, entries)];
    assert Appended([], tenant, entries) == after;
    assert AllEntries(after) == entries + AllEntries([]) == entries;
    assert texts[1..] == if word == NOTHING then [word] else [];
    if reader.Some? {
      OwnedByUniform(entries, trainer, reader.value);
    }
    RecalledAll(c, word, texts, trainer);
  }

  lemma {:induction false} RecalledAll(c: ModelConfig, word: string, texts: seq<string>, user: Option<Uuid>)
    requires c.tokens(word) != {} && forall i | 0 <= i < |texts| :: texts[i] == word
    ensures Recalled(c.tokens, word, Tagged(texts, user)) == texts
  {
    if texts != [] {
      assert Tagged(texts, user)[1..] == Tagged(texts[1..], user);
      assert forall i | 0 <= i < |texts[1..]| :: texts[1..][i] == texts[i + 1];
      RecalledAll(c, word, texts[1..], user);
    }
  }

  lemma DeleteLeavesResidue(c: ModelConfig, word: string)
    requires c.tokens(word) != {} && (c.softDelete || c.prefixCache)
    ensures !Erases(ModelSystem(c), Forget)
  {
    if c.softDelete {
      var texts := TrainingShows(c, word, ALICE, None, None);
      ResidueWitness(ModelSystem(c), Forget, ALICE, Train(texts, None), ALICE, Infer(word, None));
    } else {
      ResidueWitness(ModelSystem(c), Forget, ALICE, Infer(word, None), BOB, Latency(word));
    }
  }

  /** After a delete nobody is ever answered, routed or timed but as it would be had the tenant
      never acted, if and only if the backend does not soft-delete and keeps no prefix cache:
      the cache goes on telling what a deleted tenant once asked. */
  lemma ModelErasureIff(c: ModelConfig, word: string)
    requires c.tokens(word) != {}
    ensures Erases(ModelSystem(c), Forget) <==> !c.softDelete && !c.prefixCache
  {
    var sys := ModelSystem(c);
    if c.softDelete || c.prefixCache {
      DeleteLeavesResidue(c, word);
    } else {
      forall trace, t
        ensures Showing(c)(sys.step(AfterTrace(sys, sys.empty, trace), t, Forget).0)
             == Showing(c)(AfterTrace(sys, sys.empty, WithoutTenant(trace, t)))
      {
        CutFollows(c, trace, t);
      }
      ShowingDecides(c);
      SameSeenErases(sys, Forget, Showing(c));
    }
  }
}
