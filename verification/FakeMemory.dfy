/** The in-memory long-term memory: per tenant, a list of texts tagged with the user that wrote
    them, recalled by shared tokens. */
module FakeMemories {
  import opened Isolation
  import opened OrderedDict
  import opened Wrappers

  /** `tokens` is the lower-cased alphanumeric tokenizer; nothing here depends on which. */
  type Tokenizer = string -> set<string>

  type Entry = (Option<Uuid>, string)

  type Entries = Dict<Uuid, seq<Entry>>

  predicate Overlap(tokens: Tokenizer, a: string, b: string) {
    tokens(a) * tokens(b) != {}
  }

  function AllEntries(d: Entries): seq<Entry> {
    if d == [] then [] else d[0].1 + AllEntries(d[1..])
  }

  /** What a caller may recall from: everyone's entries or its own tenant's, and on a
      user-scoped store only the shared ones and the caller's. */
  function Corpus(d: Entries, shared: bool, userScoped: bool, tenant: Uuid, user: Option<Uuid>): seq<Entry> {
    var all := if shared then AllEntries(d) else GetOr(d, tenant, []);
    if userScoped && user.Some? then OwnedBy(all, user.value) else all
  }

  function OwnedBy(entries: seq<Entry>, user: Uuid): seq<Entry> {
    if entries == [] then []
    else if entries[0].0 in {None, Some(user)} then [entries[0]] + OwnedBy(entries[1..], user)
    else OwnedBy(entries[1..], user)
  }

  function Recalled(tokens: Tokenizer, query: string, corpus: seq<Entry>): seq<string> {
    if corpus == [] then []
    else if Overlap(tokens, query, corpus[0].1) then [corpus[0].1] + Recalled(tokens, query, corpus[1..])
    else Recalled(tokens, query, corpus[1..])
  }

  function Appended(d: Entries, tenant: Uuid, more: seq<Entry>): Entries {
    Set(d, tenant, GetOr(d, tenant, []) + more)
  }

  datatype Config = Config(sharedMemory: bool, userScoped: bool, softDelete: bool, tokens: Tokenizer)

  datatype Op =
    | Remember(text: string, user: Option<Uuid>)
    | Recall(query: string, user: Option<Uuid>)
    | Erase

  datatype Obs = Texts(texts: seq<string>) | Done

  function Step(config: Config, d: Entries, tenant: Uuid, op: Op): (Entries, Obs) {
    match op
    case Remember(text, user) => (Appended(d, tenant, [(user, text)]), Done)
    case Recall(query, user) =>
      var corpus := Corpus(d, config.sharedMemory, config.userScoped, tenant, user);
      (d, Texts(Recalled(config.tokens, query, corpus)))
    case Erase => (if config.softDelete then d else Remove(d, tenant), Done)
  }

  function MemorySystem(config: Config): System<Entries, Op, Obs> {
    System([], (d: Entries, tenant: Uuid, op: Op) => Step(config, d, tenant, op))
  }

  class FakeMemory {
    const config: Config
    var entries: Entries

    constructor (config: Config)
      ensures this.config == config && entries == MemorySystem(config).empty
    {
      this.config := config;
      entries := [];
    }

    method Remember(tenant: Uuid, text: string, user: Option<Uuid>)
      modifies this`entries
      ensures (entries, Done) == Step(config, old(entries), tenant, Op.Remember(text, user))
    {
      entries := Set(entries, tenant, GetOr(entries, tenant, []) + [(user, text)]);
    }

    method Recall(tenant: Uuid, query: string, user: Option<Uuid>) returns (texts: seq<string>)
      ensures (entries, Texts(texts)) == Step(config, entries, tenant, Op.Recall(query, user))
    {
      var corpus := if config.sharedMemory then AllEntries(entries) else GetOr(entries, tenant, []);
      if config.userScoped && user.Some? {
        corpus := OwnedBy(corpus, user.value);
      }
      texts := Recalled(config.tokens, query, corpus);
    }

    method Delete(tenant: Uuid)
      modifies this`entries
      ensures (entries, Done) == Step(config, old(entries), tenant, Erase)
    {
      if config.softDelete {
        return;
      }
      entries := Remove(entries, tenant);
    }
  }

  function View(d: Entries, t: Uuid): Option<seq<Entry>> {
    Get(d, t)
  }

  lemma AppendedView(d: Entries, u: Uuid, more: seq<Entry>, t: Uuid)
    ensures View(Appended(d, u, more), t)
         == if t == u then Some(GetOr(d, u, []) + more) else View(d, t)
  {
    GetOfSet(d, u, GetOr(d, u, []) + more, t);
  }

  lemma RecallAfterFirst(config: Config, word: string, u: Uuid)
    requires config.tokens(word) != {} && (u == ALICE || config.sharedMemory)
    ensures
      var after := Step(config, [], ALICE, Remember(word, None)).0;
      && Step(config, after, u, Recall(word, None)).1 == Texts([word])
      && Step(config, [], u, Recall(word, None)).1 == Texts([])
  {
    var after := [(ALICE, [(None, word)])];
    var entry: Entry := (None, word);
    assert [] + [entry] == [entry];
    assert Step(config, [], ALICE, Remember(word, None)).0 == after;
    assert AllEntries(after) == [(None, word)] + AllEntries([]) == [(None, word)];
    assert Recalled(config.tokens, word, [(None, word)]) == [word];
  }

  /** Over every interleaving a tenant recalls exactly what it would recall alone, if and only
      if the memory is not shared. (A tokenizer with no tokens at all recalls nothing ever.) */
  lemma MemoryIsolationIff(config: Config, word: string)
    requires config.tokens(word) != {}
    ensures NonInterfering(MemorySystem(config)) <==> !config.sharedMemory
  {
    var sys := MemorySystem(config);
    if !config.sharedMemory {
      forall s, r, t, op | View(s, t) == View(r, t)
        ensures sys.step(s, t, op).1 == sys.step(r, t, op).1
        ensures View(sys.step(s, t, op).0, t) == View(sys.step(r, t, op).0, t)
      {
        StepView(config, s, t, op, t);
        StepView(config, r, t, op, t);
      }
      forall s, t, u, op | t != u ensures View(sys.step(s, u, op).0, t) == View(s, t) {
        StepView(config, s, u, op, t);
      }
      PrivateViewSuffices(sys, View);
    } else {
      AliceIsNotBob();
      RecallAfterFirst(config, word, BOB);
      TwoStepWitness(sys, ALICE, Remember(word, None), BOB, Recall(word, None));
    }
  }

  lemma StepView(config: Config, d: Entries, u: Uuid, op: Op, t: Uuid)
    ensures View(Step(config, d, u, op).0, t) ==
      if t != u then View(d, t)
      else
        match op
        case Remember(text, user) => Some(GetOr(d, u, []) + [(user, text)])
        case Recall(_, _) => View(d, t)
        case Erase => if config.softDelete then View(d, t) else None
  {
    match op
    case Remember(text, user) => AppendedView(d, u, [(user, text)], t);
    case Recall(_, _) =>
    case Erase => GetOfRemove(d, u, t);
  }

  // ---------- What a write and a delete do ----------

  lemma {:induction false} OwnedByConcat(a: seq<Entry>, b: seq<Entry>, user: Uuid)
    ensures OwnedBy(a + b, user) == OwnedBy(a, user) + OwnedBy(b, user)
  {
    if a == [] {
      assert a + b == b;
    } else {
      assert (a + b)[1..] == a[1..] + b;
      OwnedByConcat(a[1..], b, user);
    }
  }

  lemma {:induction false} RecalledConcat(tokens: Tokenizer, query: string, a: seq<Entry>, b: seq<Entry>)
    ensures Recalled(tokens, query, a + b) == Recalled(tokens, query, a) + Recalled(tokens, query, b)
  {
    if a == [] {
      assert a + b == b;
    } else {
      assert (a + b)[1..] == a[1..] + b;
      RecalledConcat(tokens, query, a[1..], b);
    }
  }

  /** Whether `reader` may see what `writer` wrote, in one tenant. */
  predicate MaySee(userScoped: bool, writer: Option<Uuid>, reader: Option<Uuid>) {
    userScoped && reader.Some? ==> writer in {None, reader}
  }

  lemma CorpusAfterAppend(
    d: Entries, userScoped: bool, tenant: Uuid, more: seq<Entry>, writer: Option<Uuid>, reader: Option<Uuid>)
    requires forall i | 0 <= i < |more| :: more[i].0 == writer
    ensures Corpus(Appended(d, tenant, more), false, userScoped, tenant, reader)
         == Corpus(d, false, userScoped, tenant, reader) + if MaySee(userScoped, writer, reader) then more else []
  {
    AppendedView(d, tenant, more, tenant);
    if userScoped && reader.Some? {
      OwnedByConcat(GetOr(d, tenant, []), more, reader.value);
      OwnedByUniform(more, writer, reader.value);
    }
  }

  lemma {:induction false} OwnedByUniform(entries: seq<Entry>, writer: Option<Uuid>, reader: Uuid)
    requires forall i | 0 <= i < |entries| :: entries[i].0 == writer
    ensures OwnedBy(entries, reader) == if writer in {None, Some(reader)} then entries else []
  {
    if entries != [] {
      assert forall i | 0 <= i < |entries[1..]| :: entries[1..][i] == entries[i + 1];
      OwnedByUniform(entries[1..], writer, reader);
    }
  }

  /** What one remembered text does to the tenant's recalls on an unshared memory: it is
      recalled last, by whoever may see the writer's entries and asks with a shared token, and
      nothing else about any recall changes. */
  lemma RecallAfterRemember(
    config: Config, d: Entries, tenant: Uuid, text: string, writer: Option<Uuid>, query: string, reader: Option<Uuid>)
    requires !config.sharedMemory
    ensures
      var after := Step(config, d, tenant, Remember(text, writer)).0;
      var before := Step(config, d, tenant, Recall(query, reader)).1.texts;
      Step(config, after, tenant, Recall(query, reader)).1.texts
        == if MaySee(config.userScoped, writer, reader) && Overlap(config.tokens, query, text)
           then before + [text] else before
  {
    var entry: Entry := (writer, text);
    var corpus := Corpus(d, false, config.userScoped, tenant, reader);
    CorpusAfterAppend(d, config.userScoped, tenant, [entry], writer, reader);
    RecalledConcat(config.tokens, query, corpus, [entry]);
    assert corpus + [] == corpus;
    var recalled := Recalled(config.tokens, query, corpus);
    assert recalled + [] == recalled;
    assert Recalled(config.tokens, query, [entry])
        == if Overlap(config.tokens, query, text) then [text] else [] by {
      assert [entry][1..] == [];
    }
  }

  function Cut(d: Entries, t: Uuid): Entries {
    Remove(d, t)
  }

  lemma CutCarriesOthers(config: Config, s: Entries, t: Uuid, u: Uuid, op: Op)
    requires t != u
    ensures Cut(Step(config, s, u, op).0, t) == Step(config, Cut(s, t), u, op).0
  {
    match op
    case Remember(text, user) =>
      RemoveOfSet(s, u, GetOr(s, u, []) + [(user, text)], t);
      GetOfRemove(s, t, u);
    case Recall(_, _) =>
    case Erase => RemovesCommute(s, t, u);
  }

  lemma CutIgnoresOwn(config: Config, s: Entries, t: Uuid, op: Op)
    ensures Cut(Step(config, s, t, op).0, t) == Cut(s, t)
  {
    match op
    case Remember(text, user) => RemoveOfSet(s, t, GetOr(s, t, []) + [(user, text)], t);
    case Recall(_, _) =>
    case Erase => RemoveTwice(s, t);
  }

  /** Taking a tenant out of the end of a trace is leaving it out all along. */
  lemma {:induction false} CutFollows(config: Config, trace: seq<Event<Op>>, t: Uuid)
    ensures Cut(AfterTrace(MemorySystem(config), MemorySystem(config).empty, trace), t)
         == AfterTrace(MemorySystem(config), MemorySystem(config).empty, WithoutTenant(trace, t))
  {
    var sys := MemorySystem(config);
    if trace != [] {
      var n, e := |trace| - 1, trace[|trace| - 1];
      var s, others := AfterTrace(sys, sys.empty, trace[..n]), WithoutTenant(trace[..n], t);
      CutFollows(config, trace[..n], t);
      if e.tenant == t {
        CutIgnoresOwn(config, s, t, e.op);
      } else {
        CutCarriesOthers(config, s, t, e.tenant, e.op);
        AfterSnoc(sys, sys.empty, others, e);
      }
    }
  }

  /** After a delete nobody - sharing the memory or not - ever recalls anything but what it would
      had the tenant remembered nothing, if and only if the backend does not soft-delete. */
  lemma MemoryErasureIff(config: Config, word: string)
    requires config.tokens(word) != {}
    ensures Erases(MemorySystem(config), Erase) <==> !config.softDelete
  {
    var sys := MemorySystem(config);
    if config.softDelete {
      RecallAfterFirst(config, word, ALICE);
      ResidueWitness(sys, Erase, ALICE, Remember(word, None), ALICE, Recall(word, None));
    } else {
      forall trace, t
        ensures sys.step(AfterTrace(sys, sys.empty, trace), t, Erase).0
             == AfterTrace(sys, sys.empty, WithoutTenant(trace, t))
      {
        CutFollows(config, trace, t);
      }
      SameStateErases(sys, Erase);
    }
  }
}
