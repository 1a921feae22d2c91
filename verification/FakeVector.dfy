/** The in-memory vector store: documents per tenant, ranked by shared tokens, with a modelled
    recall that drops some of the other tenants' hits before the cut to the best k. */
module FakeVectors {
  import opened Isolation
  import opened OrderedDict
  import opened Wrappers

  datatype Document = Document(
    docId: string, title: string, content: string, metadata: seq<string>, owner: Option<Uuid>)

  datatype Hit = Hit(docId: string, tenant: Uuid, score: nat, content: string)

  /** `tokens` is the tokenizer and `keep` the query- and document-keyed gate value. */
  datatype Config = Config(
    sharedIndex: bool, userScoped: bool, softDelete: bool, recall: real,
    tokens: string -> set<string>, keep: (string, string) -> real)

  type Documents = Dict<Uuid, seq<Document>>

  // ---------- Ranking ----------

  function Spaced(parts: seq<string>): string {
    if parts == [] then ""
    else if |parts| == 1 then parts[0]
    else parts[0] + " " + Spaced(parts[1..])
  }

  function SearchableText(d: Document): string {
    Spaced([d.title, d.content] + d.metadata)
  }

  function Score(config: Config, query: string, d: Document): nat {
    |config.tokens(query) * config.tokens(SearchableText(d))|
  }

  predicate StringLe(a: string, b: string) {
    a == [] || (b != [] && (a[0] < b[0] || (a[0] == b[0] && StringLe(a[1..], b[1..]))))
  }

  /** Better score first, then the smaller document id. */
  predicate Before(a: Hit, b: Hit) {
    a.score > b.score || (a.score == b.score && StringLe(a.docId, b.docId))
  }

  function Scored(config: Config, query: string, candidates: seq<(Uuid, Document)>): seq<Hit> {
    if candidates == [] then []
    else
      var n := |candidates| - 1;
      var (owner, d) := candidates[n];
      var rest := Scored(config, query, candidates[..n]);
      if Score(config, query, d) > 0 then
        rest + [Hit(d.docId, owner, Score(config, query, d), d.content)]
      else rest
  }

  /** The stable sort: a later hit goes after every earlier one that may precede it. */
  function Insert(hits: seq<Hit>, h: Hit): seq<Hit> {
    if hits == [] then [h]
    else if Before(hits[|hits| - 1], h) then hits + [h]
    else Insert(hits[..|hits| - 1], h) + [hits[|hits| - 1]]
  }

  function Sorted(hits: seq<Hit>): seq<Hit> {
    if hits == [] then [] else Insert(Sorted(hits[..|hits| - 1]), hits[|hits| - 1])
  }

  function Ranked(config: Config, query: string, candidates: seq<(Uuid, Document)>): seq<Hit> {
    Sorted(Scored(config, query, candidates))
  }

  /** Python's `hits[:k]`, for any integer `k`. */
  function Slice<T>(s: seq<T>, k: int): seq<T> {
    if k >= |s| then s
    else if k >= 0 then s[..k]
    else if -k >= |s| then []
    else s[..|s| + k]
  }

  // ---------- The store ----------

  function Pairs(owner: Uuid, ds: seq<Document>): seq<(Uuid, Document)> {
    seq(|ds|, i requires 0 <= i < |ds| => (owner, ds[i]))
  }

  function AllPairs(docs: Documents): seq<(Uuid, Document)> {
    if docs == [] then [] else Pairs(docs[0].0, docs[0].1) + AllPairs(docs[1..])
  }

  function VisibleTo(pairs: seq<(Uuid, Document)>, user: Uuid): seq<(Uuid, Document)> {
    if pairs == [] then []
    else if pairs[0].1.owner in {None, Some(user)} then [pairs[0]] + VisibleTo(pairs[1..], user)
    else VisibleTo(pairs[1..], user)
  }

  function Scope(config: Config, docs: Documents, tenant: Uuid, user: Option<Uuid>): seq<(Uuid, Document)> {
    var all := if config.sharedIndex then AllPairs(docs) else Pairs(tenant, GetOr(docs, tenant, []));
    if config.userScoped && user.Some? then VisibleTo(all, user.value) else all
  }

  /** The last document given for each id, at the place of the first. */
  function LastById(documents: seq<Document>): Dict<string, Document> {
    if documents == [] then []
    else
      var n := |documents| - 1;
      Set(LastById(documents[..n]), documents[n].docId, documents[n])
  }

  function NotReplaced(held: seq<Document>, incoming: Dict<string, Document>): seq<Document> {
    if held == [] then []
    else if Get(incoming, held[0].docId).Some? then NotReplaced(held[1..], incoming)
    else [held[0]] + NotReplaced(held[1..], incoming)
  }

  function Upserted(held: seq<Document>, documents: seq<Document>): seq<Document> {
    NotReplaced(held, LastById(documents)) + Values(LastById(documents))
  }

  predicate Survives(config: Config, tenant: Uuid, query: string, h: Hit) {
    h.tenant == tenant || config.keep(query, h.docId) < config.recall
  }

  function Surviving(config: Config, tenant: Uuid, query: string, hits: seq<Hit>): seq<Hit> {
    if hits == [] then []
    else if Survives(config, tenant, query, hits[0]) then
      [hits[0]] + Surviving(config, tenant, query, hits[1..])
    else Surviving(config, tenant, query, hits[1..])
  }

  function QueryHits(
    config: Config, docs: Documents, tenant: Uuid, query: string, k: int, user: Option<Uuid>): seq<Hit>
  {
    var ranked := Ranked(config, query, Scope(config, docs, tenant, user));
    if config.recall >= 1.0 then Slice(ranked, k)
    else Slice(Surviving(config, tenant, query, ranked), k)
  }

  function FirstWithId(pairs: seq<(Uuid, Document)>, docId: string): Option<Hit> {
    if pairs == [] then None
    else if pairs[0].1.docId == docId then Some(Hit(docId, pairs[0].0, 1, pairs[0].1.content))
    else FirstWithId(pairs[1..], docId)
  }

  datatype Op =
    | Upsert(documents: seq<Document>)
    | Query(text: string, k: int, user: Option<Uuid>)
    | Fetch(docId: string, user: Option<Uuid>)
    | Erase

  datatype Obs = Hits(hits: seq<Hit>) | Fetched(hit: Option<Hit>) | Done

  function Step(config: Config, docs: Documents, tenant: Uuid, op: Op): (Documents, Obs) {
    match op
    case Upsert(documents) => (Set(docs, tenant, Upserted(GetOr(docs, tenant, []), documents)), Done)
    case Query(text, k, user) => (docs, Hits(QueryHits(config, docs, tenant, text, k, user)))
    case Fetch(docId, user) => (docs, Fetched(FirstWithId(Scope(config, docs, tenant, user), docId)))
    case Erase => (if config.softDelete then docs else Remove(docs, tenant), Done)
  }

  function VectorSystem(config: Config): System<Documents, Op, Obs> {
    System([], (docs: Documents, tenant: Uuid, op: Op) => Step(config, docs, tenant, op))
  }

  class FakeVectorStore {
    const config: Config
    var documents: Documents

    constructor (config: Config)
      ensures this.config == config && documents == VectorSystem(config).empty
    {
      this.config := config;
      documents := [];
    }

    method Upsert(tenant: Uuid, incoming: seq<Document>)
      modifies this`documents
      ensures (documents, Done) == Step(config, old(documents), tenant, Op.Upsert(incoming))
    {
      var held := GetOr(documents, tenant, []);
      var byId: Dict<string, Document> := [];
      for i := 0 to |incoming|
        invariant byId == LastById(incoming[..i])
      {
        assert incoming[..i + 1][..i] == incoming[..i];
        byId := Set(byId, incoming[i].docId, incoming[i]);
      }
      assert incoming[..|incoming|] == incoming;
      documents := Set(documents, tenant, NotReplaced(held, byId) + Values(byId));
    }

    method Rank(query: string, candidates: seq<(Uuid, Document)>, k: Option<int>) returns (hits: seq<Hit>)
      ensures hits == (if k.None? then Ranked(config, query, candidates)
                       else Slice(Ranked(config, query, candidates), k.value))
    {
      hits := [];
      for i := 0 to |candidates|
        invariant hits == Scored(config, query, candidates[..i])
      {
        assert candidates[..i + 1][..i] == candidates[..i];
        var (owner, d) := candidates[i];
        var score := Score(config, query, d);
        if score > 0 {
          hits := hits + [Hit(d.docId, owner, score, d.content)];
        }
      }
      assert candidates[..|candidates|] == candidates;
      hits := Sorted(hits);
      if k.Some? {
        hits := Slice(hits, k.value);
      }
    }

    method Query(tenant: Uuid, text: string, k: int, user: Option<Uuid>) returns (hits: seq<Hit>)
      ensures (documents, Hits(hits)) == Step(config, documents, tenant, Op.Query(text, k, user))
    {
      var scope := Scope(config, documents, tenant, user);
      if config.recall >= 1.0 {
        hits := Rank(text, scope, Some(k));
        return;
      }
      var ranked := Rank(text, scope, None);
      hits := Slice(Surviving(config, tenant, text, ranked), k);
    }

    method Fetch(tenant: Uuid, docId: string, user: Option<Uuid>) returns (hit: Option<Hit>)
      ensures (documents, Fetched(hit)) == Step(config, documents, tenant, Op.Fetch(docId, user))
    {
      var scope := Scope(config, documents, tenant, user);
      for i := 0 to |scope|
        invariant FirstWithId(scope, docId) == FirstWithId(scope[i..], docId)
      {
        assert scope[i..][1..] == scope[i + 1..];
        if scope[i].1.docId == docId {
          return Some(Hit(docId, scope[i].0, 1, scope[i].1.content));
        }
      }
      return None;
    }

    method Delete(tenant: Uuid)
      modifies this`documents
      ensures (documents, Done) == Step(config, old(documents), tenant, Erase)
    {
      if config.softDelete {
        return;
      }
      documents := Remove(documents, tenant);
    }
  }
}
