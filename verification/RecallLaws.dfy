/** What the memory recalls, the model answers and its clock tells, in the terms of the entries
    written and the prompts asked. */
module RecallLaws {
  import opened FakeMemories
  import opened FakeModels
  import opened Isolation
  import opened OrderedDict
  import opened Wrappers

  // ---------- What is recalled ----------

  /** Written by whoever a caller in `tenant` reads with: every tenant's, or its own. */
  predicate Written(d: Entries, shared: bool, tenant: Uuid, e: Entry) {
    if shared then exists i | 0 <= i < |d| :: e in d[i].1 else e in GetOr(d, tenant, [])
  }

  predicate SharesToken(tokens: Tokenizer, a: string, b: string) {
    exists w | w in tokens(a) :: w in tokens(b)
  }

  /** An entry the reader may see that shares a token with what it asks. */
  predicate Answers(
    d: Entries, shared: bool, userScoped: bool, tokens: Tokenizer, tenant: Uuid, query: string, user: Option<Uuid>,
    e: Entry)
  {
    && Written(d, shared, tenant, e)
    && (userScoped && user.Some? ==> e.0 == None || e.0 == user)
    && SharesToken(tokens, query, e.1)
  }

  lemma {:induction false} InAllEntries(d: Entries, e: Entry)
    ensures e in AllEntries(d) <==> exists i | 0 <= i < |d| :: e in d[i].1
  {
    if d != [] {
      InAllEntries(d[1..], e);
      forall i | 0 < i < |d| ensures d[i] == d[1..][i - 1] {
      }
    }
  }

  lemma {:induction false} InOwnedBy(entries: seq<Entry>, user: Uuid, e: Entry)
    ensures e in OwnedBy(entries, user) <==> e in entries && (e.0 == None || e.0 == Some(user))
  {
    if entries != [] {
      InOwnedBy(entries[1..], user, e);
      assert entries == [entries[0]] + entries[1..];
    }
  }

  lemma OverlapIsShared(tokens: Tokenizer, a: string, b: string)
    ensures Overlap(tokens, a, b) <==> SharesToken(tokens, a, b)
  {
    var common := tokens(a) * tokens(b);
    if common != {} {
      var w :| w in common;
    }
    forall w | w in tokens(a) && w in tokens(b) ensures w in common {
    }
  }

  lemma {:induction false} InRecalled(tokens: Tokenizer, query: string, corpus: seq<Entry>, text: string)
    ensures text in Recalled(tokens, query, corpus)
       <==> exists e :: e in corpus && e.1 == text && SharesToken(tokens, query, e.1)
  {
    if corpus != [] {
      InRecalled(tokens, query, corpus[1..], text);
      assert corpus == [corpus[0]] + corpus[1..];
      OverlapIsShared(tokens, query, corpus[0].1);
    }
  }

  lemma CorpusRecalls(
    d: Entries, shared: bool, userScoped: bool, tokens: Tokenizer, tenant: Uuid, query: string, user: Option<Uuid>,
    text: string)
    ensures text in Recalled(tokens, query, Corpus(d, shared, userScoped, tenant, user))
       <==> exists e: Entry :: e.1 == text && Answers(d, shared, userScoped, tokens, tenant, query, user, e)
  {
    var corpus := Corpus(d, shared, userScoped, tenant, user);
    InRecalled(tokens, query, corpus, text);
    forall e ensures e in corpus && SharesToken(tokens, query, e.1)
                <==> Answers(d, shared, userScoped, tokens, tenant, query, user, e)
    {
      InAllEntries(d, e);
      if user.Some? {
        InOwnedBy(if shared then AllEntries(d) else GetOr(d, tenant, []), user.value, e);
      }
    }
  }

  /** A memory recalls exactly the texts written where the caller reads - in any tenant, if the
      memory is shared - that it may see and that share a token with the query. */
  lemma RecallsIff(config: Config, d: Entries, tenant: Uuid, query: string, user: Option<Uuid>, text: string)
    ensures text in Step(config, d, tenant, Recall(query, user)).1.texts
       <==> exists e: Entry :: e.1 == text
                        && Answers(d, config.sharedMemory, config.userScoped, config.tokens, tenant, query, user, e)
  {
    CorpusRecalls(d, config.sharedMemory, config.userScoped, config.tokens, tenant, query, user, text);
  }

  lemma Regroup<T>(a: seq<T>, b: seq<T>, c: seq<T>)
    ensures a + (b + c) == (a + b) + c
  {
  }

  lemma {:induction false} AllOfConcat(a: Entries, b: Entries)
    ensures AllEntries(a + b) == AllEntries(a) + AllEntries(b)
  {
    if a == [] {
      assert a + b == b;
    } else {
      assert (a + b)[0] == a[0] && (a + b)[1..] == a[1..] + b;
      AllOfConcat(a[1..], b);
      Regroup(a[0].1, AllEntries(a[1..]), AllEntries(b));
    }
  }

  /** A shared memory recalls tenant by tenant, in the order they first wrote. */
  lemma EarlierTenantsFirst(
    config: Config, early: Entries, late: Entries, tenant: Uuid, query: string, user: Option<Uuid>)
    requires config.sharedMemory
    ensures Step(config, early + late, tenant, Recall(query, user)).1.texts
         == Step(config, early, tenant, Recall(query, user)).1.texts
            + Step(config, late, tenant, Recall(query, user)).1.texts
  {
    AllOfConcat(early, late);
    var a, b := AllEntries(early), AllEntries(late);
    if config.userScoped && user.Some? {
      OwnedByConcat(a, b, user.value);
      RecalledConcat(config.tokens, query, OwnedBy(a, user.value), OwnedBy(b, user.value));
    } else {
      RecalledConcat(config.tokens, query, a, b);
    }
  }

  // ---------- What the model answers ----------

  lemma {:induction false} JoinedOfTwo(a: seq<string>, b: seq<string>)
    requires a != [] && b != []
    ensures Joined(a + b) == Joined(a) + " " + Joined(b)
  {
    assert (a + b)[1..] == a[1..] + b;
    if |a| == 1 {
      assert a[1..] + b == b;
    } else {
      JoinedOfTwo(a[1..], b);
      var rest, other := Joined(a[1..]), Joined(b);
      assert a[0] + " " + (rest + " " + other) == (a[0] + " " + rest) + " " + other;
    }
  }

  /** An answer is the matching texts the caller may see, a space between any two; and with
      none, the fixed reply. */
  lemma AnswerIff(c: ModelConfig, s: ModelState, tenant: Uuid, prompt: string, user: Option<Uuid>)
    ensures
      var answer := ModelStep(c, s, tenant, Infer(prompt, user)).1;
      var recalled := RecalledFor(c, s.adapters, tenant, prompt, user);
      && (forall text :: text in recalled <==>
            exists e: Entry :: e.1 == text
                        && Answers(s.adapters, c.adapterBleed, c.userScoped, c.tokens, tenant, prompt, user, e))
      && (recalled == [] ==> answer == Response("the adapter recalled nothing for this prompt"))
      && (|recalled| == 1 ==> answer == Response(recalled[0]))
      && (forall n | 0 < n < |recalled| ::
            answer == Response(Joined(recalled[..n]) + " " + Joined(recalled[n..])))
  {
    var recalled := RecalledFor(c, s.adapters, tenant, prompt, user);
    forall text {
      CorpusRecalls(s.adapters, c.adapterBleed, c.userScoped, c.tokens, tenant, prompt, user, text);
    }
    forall n | 0 < n < |recalled| ensures Joined(recalled) == Joined(recalled[..n]) + " " + Joined(recalled[n..]) {
      assert recalled == recalled[..n] + recalled[n..];
      JoinedOfTwo(recalled[..n], recalled[n..]);
    }
  }

  /** Whether a tenant's adapter holds anything that shares a token with the prompt. */
  predicate Knows(c: ModelConfig, prompt: string, entries: seq<Entry>) {
    exists e | e in entries :: SharesToken(c.tokens, prompt, e.1)
  }

  lemma KnowsIff(c: ModelConfig, prompt: string, entries: seq<Entry>)
    ensures Recalled(c.tokens, prompt, entries) != [] <==> Knows(c, prompt, entries)
  {
    var recalled := Recalled(c.tokens, prompt, entries);
    if recalled != [] {
      InRecalled(c.tokens, prompt, entries, recalled[0]);
    }
    forall e | e in entries && SharesToken(c.tokens, prompt, e.1) ensures recalled != [] {
      InRecalled(c.tokens, prompt, entries, e.1);
    }
  }

  /** The first other tenant that knows something of the prompt. */
  predicate FirstForeign(c: ModelConfig, d: Entries, tenant: Uuid, prompt: string, i: nat)
    requires i < |d|
  {
    && d[i].0 != tenant && Knows(c, prompt, d[i].1)
    && forall j | 0 <= j < i :: d[j].0 == tenant || !Knows(c, prompt, d[j].1)
  }

  lemma {:induction false} ForeignServerIs(c: ModelConfig, d: Entries, tenant: Uuid, prompt: string)
    ensures (forall i | 0 <= i < |d| :: d[i].0 == tenant || !Knows(c, prompt, d[i].1)) ==>
              ForeignServer(c, d, tenant, prompt) == tenant
    ensures forall i | 0 <= i < |d| && FirstForeign(c, d, tenant, prompt, i) ::
              ForeignServer(c, d, tenant, prompt) == d[i].0
  {
    if d != [] {
      KnowsIff(c, prompt, d[0].1);
      ForeignServerIs(c, d[1..], tenant, prompt);
      assert forall i | 0 < i < |d| :: d[i] == d[1..][i - 1];
      forall i | 0 < i < |d| && FirstForeign(c, d, tenant, prompt, i)
        ensures FirstForeign(c, d[1..], tenant, prompt, i - 1)
      {
      }
    }
  }

  /** A prompt is served by the first other tenant trained on anything it matches, where the
      weights are shared; by the caller's own adapter otherwise. */
  lemma ServedByIff(c: ModelConfig, s: ModelState, tenant: Uuid, prompt: string, user: Option<Uuid>)
    ensures
      var server := ModelStep(c, s, tenant, ServedBy(prompt, user)).1;
      var d := s.adapters;
      && (!c.adapterBleed || (forall i | 0 <= i < |d| :: d[i].0 == tenant || !Knows(c, prompt, d[i].1)) ==>
            server == Server(tenant))
      && (c.adapterBleed ==>
            forall i | 0 <= i < |d| && FirstForeign(c, d, tenant, prompt, i) :: server == Server(d[i].0))
  {
    ForeignServerIs(c, s.adapters, tenant, prompt);
  }

  // ---------- What the clock tells ----------

  /** Two prompts one cached prefix serves: the same, or the same in their first 20 characters. */
  predicate SamePrefix(a: string, b: string) {
    a == b || (|a| >= 20 && |b| >= 20 && a[..20] == b[..20])
  }

  predicate Asked(trace: seq<Event<ModelOp>>, timed: string) {
    exists i | 0 <= i < |trace| :: trace[i].op.Infer? && SamePrefix(trace[i].op.prompt, timed)
  }

  lemma SamePrefixIff(a: string, b: string)
    ensures PromptPrefix(a) == PromptPrefix(b) <==> SamePrefix(a, b)
  {
  }

  lemma {:induction false} WarmedIffAsked(c: ModelConfig, trace: seq<Event<ModelOp>>, timed: string)
    ensures PromptPrefix(timed) in AfterTrace(ModelSystem(c), ModelSystem(c).empty, trace).warmed
       <==> Asked(trace, timed)
  {
    if trace != [] {
      var n := |trace| - 1;
      WarmedIffAsked(c, trace[..n], timed);
      assert forall i | 0 <= i < n :: trace[..n][i] == trace[i];
      if trace[n].op.Infer? {
        SamePrefixIff(trace[n].op.prompt, timed);
      }
    }
  }

  /** After any trace a prompt takes 100 ms and its own jitter, less 60 ms exactly when there
      is a prefix cache and somebody - of whatever tenant - has asked one with its prefix. */
  lemma LatencyTellsWhatWasAsked(c: ModelConfig, trace: seq<Event<ModelOp>>, timer: Uuid, timed: string)
    ensures
      var s := AfterTrace(ModelSystem(c), ModelSystem(c).empty, trace);
      ModelStep(c, s, timer, Latency(timed)).1
        == Milliseconds(100 + c.jitter(timed) - if c.prefixCache && Asked(trace, timed) then 60 else 0)
  {
    WarmedIffAsked(c, trace, timed);
  }
}
