/** The embedding sweep's own rate counts the queries that show a foreign canary, not those
    that show any foreign document. More recall can hide a canary behind the documents that
    carry none; here is exactly when it cannot. */
module CanaryLaws {
  import opened FakeVectors
  import opened Isolation
  import opened VectorLaws
  import opened Wrappers

  /** What the detector calls a canary that is foreign to the asker, of any hit: another
      tenant's, or a sibling user's in the asker's own tenant. */
  type Canary = Hit -> bool

  predicate Shows(hits: seq<Hit>, canary: Canary) {
    exists i | 0 <= i < |hits| :: canary(hits[i])
  }

  function Kept(hits: seq<Hit>, alive: Hit -> bool): seq<Hit> {
    if hits == [] then []
    else if alive(hits[0]) then [hits[0]] + Kept(hits[1..], alive)
    else Kept(hits[1..], alive)
  }

  /** The hits a query's recall lets through. */
  function Alive(c: Config, tenant: Uuid, query: string): Hit -> bool {
    (h: Hit) => c.recall >= 1.0 || Survives(c, tenant, query, h)
  }

  lemma {:induction false} KeptIsSurviving(c: Config, tenant: Uuid, query: string, hits: seq<Hit>)
    ensures Kept(hits, Alive(c, tenant, query))
         == if c.recall >= 1.0 then hits else Surviving(c, tenant, query, hits)
  {
    if hits != [] {
      KeptIsSurviving(c, tenant, query, hits[1..]);
    }
  }

  lemma QueryIsKept(c: Config, docs: Documents, tenant: Uuid, query: string, k: int, user: Option<Uuid>)
    ensures QueryHits(c, docs, tenant, query, k, user)
         == Slice(Kept(Ranked(c, query, Scope(c, docs, tenant, user)), Alive(c, tenant, query)), k)
  {
    KeptIsSurviving(c, tenant, query, Ranked(c, query, Scope(c, docs, tenant, user)));
  }

  // ---------- When a canary can be hidden ----------

  /** How many of the hits are the asker's own tenant's. */
  function Owns(hits: seq<Hit>, tenant: Uuid): nat {
    if hits == [] then 0 else (if hits[0].tenant == tenant then 1 else 0) + Owns(hits[1..], tenant)
  }

  /** How many of the hits are foreign and carry no canary. */
  function Bystanders(hits: seq<Hit>, tenant: Uuid, canary: Canary): nat {
    if hits == [] then 0
    else (if hits[0].tenant != tenant && !canary(hits[0]) then 1 else 0) + Bystanders(hits[1..], tenant, canary)
  }

  predicate OwnCanary(h: Hit, tenant: Uuid, canary: Canary) {
    h.tenant == tenant && canary(h)
  }

  /** The canary in place `i` fits among the first `k` behind the asker's own hits alone, and
      no longer fits behind them and the bystanders together - with `extra` more of these. */
  predicate CrowdedOut(hits: seq<Hit>, tenant: Uuid, canary: Canary, k: int, extra: nat, i: nat)
    requires i < |hits|
  {
    && canary(hits[i]) && (forall j | 0 <= j < i :: !OwnCanary(hits[j], tenant, canary))
    && var own := Owns(hits[..i], tenant);
       own < k <= own + extra + Bystanders(hits[..i], tenant, canary)
  }

  predicate Hidable(hits: seq<Hit>, tenant: Uuid, canary: Canary, k: int, extra: nat) {
    exists i | 0 <= i < |hits| :: CrowdedOut(hits, tenant, canary, k, extra, i)
  }

  function OwnOne(h: Hit, tenant: Uuid): nat {
    if h.tenant == tenant then 1 else 0
  }

  function BystanderOne(h: Hit, tenant: Uuid, canary: Canary): nat {
    if h.tenant != tenant && !canary(h) then 1 else 0
  }

  lemma CrowdedStep(h: Hit, rest: seq<Hit>, tenant: Uuid, canary: Canary, k: int, extra: nat, i: nat)
    requires i < |rest| && !OwnCanary(h, tenant, canary)
    requires CrowdedOut(rest, tenant, canary, k - OwnOne(h, tenant), extra + BystanderOne(h, tenant, canary), i)
    ensures CrowdedOut([h] + rest, tenant, canary, k, extra, i + 1)
  {
    var hits := [h] + rest;
    assert hits[..i + 1] == [h] + rest[..i] && ([h] + rest[..i])[1..] == rest[..i];
    forall j | 0 <= j < i + 1 ensures !OwnCanary(hits[j], tenant, canary) {
      assert j > 0 ==> hits[j] == rest[j - 1];
    }
  }

  /** A canary in front is hidden by the crowd before it alone, and whatever hides one behind
      it - the first hit taking a place, or joining the crowd - hides one of them all. */
  lemma HidableStep(h: Hit, rest: seq<Hit>, tenant: Uuid, canary: Canary, k: int, extra: nat)
    ensures canary(h) && 0 < k <= extra ==> Hidable([h] + rest, tenant, canary, k, extra)
    ensures !OwnCanary(h, tenant, canary) &&
            Hidable(rest, tenant, canary, k - OwnOne(h, tenant), extra + BystanderOne(h, tenant, canary))
        ==> Hidable([h] + rest, tenant, canary, k, extra)
  {
    assert ([h] + rest)[..0] == [];
    if canary(h) && 0 < k <= extra {
      assert CrowdedOut([h] + rest, tenant, canary, k, extra, 0);
    }
    var less, more := k - OwnOne(h, tenant), extra + BystanderOne(h, tenant, canary);
    if !OwnCanary(h, tenant, canary) && Hidable(rest, tenant, canary, less, more) {
      var i: nat :| i < |rest| && CrowdedOut(rest, tenant, canary, less, more, i);
      CrowdedStep(h, rest, tenant, canary, k, extra, i);
    }
  }

  /** A smaller crowd hides no more, nor does one that lost as many as there are places fewer. */
  lemma SmallerCrowd(hits: seq<Hit>, tenant: Uuid, canary: Canary, k: int, extra: nat)
    ensures Hidable(hits, tenant, canary, k, extra) || Hidable(hits, tenant, canary, k - 1, extra)
        ==> Hidable(hits, tenant, canary, k, extra + 1)
  {
    if Hidable(hits, tenant, canary, k, extra) {
      var i: nat :| i < |hits| && CrowdedOut(hits, tenant, canary, k, extra, i);
      assert CrowdedOut(hits, tenant, canary, k, extra + 1, i);
    }
    if Hidable(hits, tenant, canary, k - 1, extra) {
      var i: nat :| i < |hits| && CrowdedOut(hits, tenant, canary, k - 1, extra, i);
      assert CrowdedOut(hits, tenant, canary, k, extra + 1, i);
    }
  }

  lemma ShowsStep(h: Hit, rest: seq<Hit>, canary: Canary)
    ensures Shows([h] + rest, canary) <==> canary(h) || Shows(rest, canary)
  {
    if canary(h) {
      assert canary(([h] + rest)[0]);
    }
    if Shows(rest, canary) {
      var i :| 0 <= i < |rest| && canary(rest[i]);
      assert canary(([h] + rest)[i + 1]);
    }
  }

  lemma CutShowsStep(h: Hit, rest: seq<Hit>, canary: Canary, k: nat)
    requires !canary(h)
    ensures Shows(Slice([h] + rest, k), canary) <==> k > 0 && Shows(Slice(rest, k - 1), canary)
  {
    SliceStep(h, rest, k);
    if k > 0 {
      ShowsStep(h, Slice(rest, k - 1), canary);
    }
  }

  /** `many` lets through all that `few` does, and neither drops the asker's own hits. */
  ghost predicate Wider(few: Hit -> bool, many: Hit -> bool, tenant: Uuid) {
    forall h :: (few(h) ==> many(h)) && (h.tenant == tenant ==> few(h))
  }

  function Places(k: nat, extra: nat): nat {
    if extra < k then k - extra else 0
  }

  /** Where no canary can be crowded out, one that shows behind few goes on showing behind
      many, `extra` places fewer. */
  lemma {:induction false} StaysShown(
    hits: seq<Hit>, tenant: Uuid, canary: Canary, few: Hit -> bool, many: Hit -> bool, k: nat, extra: nat)
    requires Wider(few, many, tenant) && !Hidable(hits, tenant, canary, k, extra)
    requires Shows(Slice(Kept(hits, few), k), canary)
    ensures Shows(Slice(Kept(hits, many), Places(k, extra)), canary)
    decreases |hits|
  {
    if hits != [] {
      var h, rest := hits[0], hits[1..];
      assert hits == [h] + rest;
      HidableStep(h, rest, tenant, canary, k, extra);
      SliceStep(h, Kept(rest, few), k);
      SliceStep(h, Kept(rest, many), Places(k, extra));
      if canary(h) && many(h) {
        ShowsStep(h, Slice(Kept(rest, many), Places(k, extra) - 1), canary);
      } else if canary(h) {
        StaysShown(rest, tenant, canary, few, many, k, extra);
      } else {
        StaysShownBehind(h, rest, tenant, canary, few, many, k, extra);
      }
    }
  }

  lemma StaysShownBehind(
    h: Hit, rest: seq<Hit>, tenant: Uuid, canary: Canary, few: Hit -> bool, many: Hit -> bool, k: nat, extra: nat)
    requires Wider(few, many, tenant) && !canary(h)
    requires !Hidable(rest, tenant, canary, k - OwnOne(h, tenant), extra + BystanderOne(h, tenant, canary))
    requires Shows(Slice(Kept([h] + rest, few), k), canary)
    ensures Shows(Slice(Kept([h] + rest, many), Places(k, extra)), canary)
    decreases |rest| + 1, 0
  {
    assert ([h] + rest)[1..] == rest;
    CutShowsStep(h, Kept(rest, few), canary, k);
    CutShowsStep(h, Kept(rest, many), canary, Places(k, extra));
    if h.tenant != tenant {
      SmallerCrowd(rest, tenant, canary, k, extra);
    }
    if few(h) {
      StaysShown(rest, tenant, canary, few, many, k - 1, extra);
    } else if many(h) {
      StaysShown(rest, tenant, canary, few, many, k, extra + 1);
    } else {
      StaysShown(rest, tenant, canary, few, many, k, extra);
    }
  }

  /** A negative `k` cuts from the end, and nothing shown is lost to a longer list. */
  lemma {:induction false} StaysShownFromEnd(
    hits: seq<Hit>, canary: Canary, few: Hit -> bool, many: Hit -> bool, k: int)
    requires k < 0 && forall h :: few(h) ==> many(h)
    ensures |Kept(hits, few)| <= |Kept(hits, many)|
    ensures Shows(Slice(Kept(hits, few), k), canary) ==> Shows(Slice(Kept(hits, many), k), canary)
  {
    if hits != [] {
      var h, rest := hits[0], hits[1..];
      StaysShownFromEnd(rest, canary, few, many, k);
      SliceStep(h, Kept(rest, few), k);
      SliceStep(h, Kept(rest, many), k);
      ShowsStep(h, Slice(Kept(rest, few), k), canary);
      ShowsStep(h, Slice(Kept(rest, many), k), canary);
    }
  }

  // ---------- A gate that hides one that can be hidden ----------

  ghost predicate DistinctForeign(hits: seq<Hit>, tenant: Uuid) {
    forall i, j | 0 <= i < j < |hits| && hits[i].tenant != tenant && hits[j].tenant != tenant ::
      hits[i].docId != hits[j].docId
  }

  /** The gate that lets the hit in place `i` through first, then the bystanders before it, and
      every other foreign hit last. */
  function HidingGate(hits: seq<Hit>, tenant: Uuid, canary: Canary, i: nat): (string, string) -> real
    requires i < |hits|
  {
    (query: string, docId: string) =>
      if hits[i].tenant != tenant && docId == hits[i].docId then 0.1
      else if exists j | 0 <= j < i :: BystanderOne(hits[j], tenant, canary) == 1 && hits[j].docId == docId then 0.6
      else 0.95
  }

  lemma {:induction false} KeptConcat(a: seq<Hit>, b: seq<Hit>, alive: Hit -> bool)
    ensures Kept(a + b, alive) == Kept(a, alive) + Kept(b, alive)
  {
    if a == [] {
      assert a + b == b;
    } else {
      assert (a + b)[1..] == a[1..] + b;
      KeptConcat(a[1..], b, alive);
    }
  }

  /** Before the hidden canary: exactly the asker's own hits, or those and the bystanders. */
  lemma {:induction false} KeptBefore(hits: seq<Hit>, tenant: Uuid, canary: Canary, alive: Hit -> bool, all: bool)
    requires forall j | 0 <= j < |hits| ::
               alive(hits[j]) <==> hits[j].tenant == tenant || (all && BystanderOne(hits[j], tenant, canary) == 1)
    requires forall j | 0 <= j < |hits| :: !OwnCanary(hits[j], tenant, canary)
    ensures |Kept(hits, alive)| == Owns(hits, tenant) + if all then Bystanders(hits, tenant, canary) else 0
    ensures !Shows(Kept(hits, alive), canary)
  {
    if hits != [] {
      var h, rest := hits[0], hits[1..];
      assert forall j | 0 <= j < |rest| :: rest[j] == hits[j + 1];
      KeptBefore(rest, tenant, canary, alive, all);
      assert alive(h) <==> h.tenant == tenant || (all && BystanderOne(h, tenant, canary) == 1);
      assert !OwnCanary(h, tenant, canary);
      ShowsStep(h, Kept(rest, alive), canary);
    }
  }

  function Gated(c: Config, gate: (string, string) -> real, recall: real): Config {
    c.(keep := gate, recall := recall)
  }

  /** A gate value is in [0, 1), as a digest read as a fraction is. */
  ghost predicate IsGate(gate: (string, string) -> real) {
    forall query, docId :: 0.0 <= gate(query, docId) < 1.0
  }

  lemma GateBefore(c: Config, hits: seq<Hit>, tenant: Uuid, query: string, canary: Canary, i: nat, all: bool, j: nat)
    requires i < |hits| && DistinctForeign(hits, tenant) && j <= i
    requires forall j | 0 <= j < i :: !OwnCanary(hits[j], tenant, canary)
    ensures
      var alive := Alive(Gated(c, HidingGate(hits, tenant, canary, i), if all then 0.9 else 0.5), tenant, query);
      alive(hits[j]) <==> hits[j].tenant == tenant || j == i || (all && BystanderOne(hits[j], tenant, canary) == 1)
  {
  }

  lemma ShowsInPlace(hits: seq<Hit>, canary: Canary, alive: Hit -> bool, k: int, i: nat)
    requires i < |hits| && alive(hits[i]) && canary(hits[i]) && |Kept(hits[..i], alive)| < k
    ensures Shows(Slice(Kept(hits, alive), k), canary)
  {
    var before, from := hits[..i], hits[i..];
    assert hits == before + from;
    KeptConcat(before, from, alive);
    var place := |Kept(before, alive)|;
    assert Kept(hits, alive)[place] == hits[i];
    assert Slice(Kept(hits, alive), k)[place] == hits[i];
  }

  lemma HiddenPast(hits: seq<Hit>, canary: Canary, alive: Hit -> bool, k: nat, i: nat)
    requires i < |hits| && k <= |Kept(hits[..i], alive)| && !Shows(Kept(hits[..i], alive), canary)
    ensures !Shows(Slice(Kept(hits, alive), k), canary)
  {
    var before, from := hits[..i], hits[i..];
    assert hits == before + from;
    KeptConcat(before, from, alive);
    assert forall j | 0 <= j < k :: Slice(Kept(hits, alive), k)[j] == Kept(before, alive)[j];
  }

  /** Under that gate a canary shows at one recall and none does at a higher one. */
  lemma GateHides(c: Config, hits: seq<Hit>, tenant: Uuid, query: string, canary: Canary, k: int, i: nat)
    requires i < |hits| && CrowdedOut(hits, tenant, canary, k, 0, i) && DistinctForeign(hits, tenant)
    ensures
      var gate := HidingGate(hits, tenant, canary, i);
      && IsGate(gate)
      && Shows(Slice(Kept(hits, Alive(Gated(c, gate, 0.5), tenant, query)), k), canary)
      && !Shows(Slice(Kept(hits, Alive(Gated(c, gate, 0.9), tenant, query)), k), canary)
  {
    var gate := HidingGate(hits, tenant, canary, i);
    GateSorts(c, hits, tenant, query, canary, i, false);
    GateSorts(c, hits, tenant, query, canary, i, true);
    ShowsInPlace(hits, canary, Alive(Gated(c, gate, 0.5), tenant, query), k, i);
    HiddenPast(hits, canary, Alive(Gated(c, gate, 0.9), tenant, query), k, i);
  }

  lemma GateSorts(c: Config, hits: seq<Hit>, tenant: Uuid, query: string, canary: Canary, i: nat, all: bool)
    requires i < |hits| && DistinctForeign(hits, tenant)
    requires forall j | 0 <= j < i :: !OwnCanary(hits[j], tenant, canary)
    ensures
      var alive := Alive(Gated(c, HidingGate(hits, tenant, canary, i), if all then 0.9 else 0.5), tenant, query);
      && alive(hits[i]) && !Shows(Kept(hits[..i], alive), canary)
      && |Kept(hits[..i], alive)|
         == Owns(hits[..i], tenant) + if all then Bystanders(hits[..i], tenant, canary) else 0
  {
    var alive := Alive(Gated(c, HidingGate(hits, tenant, canary, i), if all then 0.9 else 0.5), tenant, query);
    var before := hits[..i];
    forall j | 0 <= j < i
      ensures alive(before[j]) <==> before[j].tenant == tenant || (all && BystanderOne(before[j], tenant, canary) == 1)
    {
      GateBefore(c, hits, tenant, query, canary, i, all, j);
    }
    GateBefore(c, hits, tenant, query, canary, i, all, i);
    KeptBefore(before, tenant, canary, alive, all);
  }

  // ---------- The theorem ----------

  ghost predicate NeverHides(
    c: Config, docs: Documents, tenant: Uuid, query: string, k: int, user: Option<Uuid>, canary: Canary)
  {
    forall gate, less, more | IsGate(gate) && less <= more ::
      Shows(QueryHits(Gated(c, gate, less), docs, tenant, query, k, user), canary) ==>
        Shows(QueryHits(Gated(c, gate, more), docs, tenant, query, k, user), canary)
  }

  lemma SameRankingGated(
    c: Config, gate: (string, string) -> real, recall: real, docs: Documents, tenant: Uuid, query: string,
    user: Option<Uuid>)
    ensures Ranked(Gated(c, gate, recall), query, Scope(Gated(c, gate, recall), docs, tenant, user))
         == Ranked(c, query, Scope(c, docs, tenant, user))
  {
    SameScoresGated(c, gate, recall, query, Scope(c, docs, tenant, user));
  }

  lemma {:induction false} SameScoresGated(
    c: Config, gate: (string, string) -> real, recall: real, query: string, candidates: seq<(Uuid, Document)>)
    ensures Scored(Gated(c, gate, recall), query, candidates) == Scored(c, query, candidates)
  {
    if candidates != [] {
      SameScoresGated(c, gate, recall, query, candidates[..|candidates| - 1]);
    }
  }

  /** For fixed contents and any integer `k`: where no canary in the ranking can be crowded out,
      more recall never hides what a query showed. */
  lemma MoreRecallStillShows(
    c: Config, c': Config, docs: Documents, tenant: Uuid, query: string, k: int, user: Option<Uuid>, canary: Canary)
    requires MoreRecall(c, c')
    requires !Hidable(Ranked(c, query, Scope(c, docs, tenant, user)), tenant, canary, k, 0)
    requires Shows(QueryHits(c, docs, tenant, query, k, user), canary)
    ensures Shows(QueryHits(c', docs, tenant, query, k, user), canary)
  {
    var ranked := Ranked(c, query, Scope(c, docs, tenant, user));
    SameScope(c, c', docs, tenant, user);
    SameRanking(c, c', query, Scope(c, docs, tenant, user));
    QueryIsKept(c, docs, tenant, query, k, user);
    QueryIsKept(c', docs, tenant, query, k, user);
    var few, many := Alive(c, tenant, query), Alive(c', tenant, query);
    if k < 0 {
      StaysShownFromEnd(ranked, canary, few, many, k);
    } else {
      StaysShown(ranked, tenant, canary, few, many, k, 0);
    }
  }

  /** And exactly there: with no two foreign documents of one id in the ranking, no gate and no
      pair of recalls hides a canary, if and only if none can be crowded out. */
  lemma NeverHidesIff(
    c: Config, docs: Documents, tenant: Uuid, query: string, k: int, user: Option<Uuid>, canary: Canary)
    requires DistinctForeign(Ranked(c, query, Scope(c, docs, tenant, user)), tenant)
    ensures NeverHides(c, docs, tenant, query, k, user, canary)
       <==> !Hidable(Ranked(c, query, Scope(c, docs, tenant, user)), tenant, canary, k, 0)
  {
    var ranked := Ranked(c, query, Scope(c, docs, tenant, user));
    if Hidable(ranked, tenant, canary, k, 0) {
      var i: nat :| i < |ranked| && CrowdedOut(ranked, tenant, canary, k, 0, i);
      HiddenByGate(c, docs, tenant, query, k, user, canary, i);
    } else {
      forall gate, less, more |
        IsGate(gate) && less <= more && Shows(QueryHits(Gated(c, gate, less), docs, tenant, query, k, user), canary)
        ensures Shows(QueryHits(Gated(c, gate, more), docs, tenant, query, k, user), canary)
      {
        SameRankingGated(c, gate, less, docs, tenant, query, user);
        MoreRecallStillShows(Gated(c, gate, less), Gated(c, gate, more), docs, tenant, query, k, user, canary);
      }
    }
  }

  lemma HiddenByGate(
    c: Config, docs: Documents, tenant: Uuid, query: string, k: int, user: Option<Uuid>, canary: Canary, i: nat)
    requires i < |Ranked(c, query, Scope(c, docs, tenant, user))|
    requires DistinctForeign(Ranked(c, query, Scope(c, docs, tenant, user)), tenant)
    requires CrowdedOut(Ranked(c, query, Scope(c, docs, tenant, user)), tenant, canary, k, 0, i)
    ensures !NeverHides(c, docs, tenant, query, k, user, canary)
  {
    var ranked := Ranked(c, query, Scope(c, docs, tenant, user));
    var gate := HidingGate(ranked, tenant, canary, i);
    GateHides(c, ranked, tenant, query, canary, k, i);
    SameRankingGated(c, gate, 0.5, docs, tenant, query, user);
    SameRankingGated(c, gate, 0.9, docs, tenant, query, user);
    QueryIsKept(Gated(c, gate, 0.5), docs, tenant, query, k, user);
    QueryIsKept(Gated(c, gate, 0.9), docs, tenant, query, k, user);
  }

  // ---------- The sweep's rate ----------

  /** One benign query of the sweep, and what is a canary to the principal who asks it. */
  datatype SweepStep = SweepStep(tenant: Uuid, text: string, k: int, canary: Canary)

  function Hits(c: Config, docs: Documents, step: SweepStep): seq<Hit> {
    QueryHits(c, docs, step.tenant, step.text, step.k, None)
  }

  /** How many of the sweep's queries show a canary: the rate is this over their number. */
  function CanaryQueries(c: Config, docs: Documents, steps: seq<SweepStep>): nat {
    if steps == [] then 0
    else (if Shows(Hits(c, docs, steps[0]), steps[0].canary) then 1 else 0) + CanaryQueries(c, docs, steps[1..])
  }

  ghost predicate StepHides(c: Config, docs: Documents, step: SweepStep) {
    Hidable(Ranked(c, step.text, Scope(c, docs, step.tenant, None)), step.tenant, step.canary, step.k, 0)
  }

  /** Over one corpus and one plan of queries, none of which can have a canary crowded out, a
      stronger model's retrieval-pivot rate is never lower. */
  lemma {:induction false} PivotRateMonotone(c: Config, c': Config, docs: Documents, steps: seq<SweepStep>)
    requires MoreRecall(c, c')
    requires forall i | 0 <= i < |steps| :: !StepHides(c, docs, steps[i])
    ensures CanaryQueries(c, docs, steps) <= CanaryQueries(c', docs, steps)
  {
    if steps != [] {
      var s := steps[0];
      assert forall i | 0 <= i < |steps[1..]| :: steps[1..][i] == steps[i + 1];
      PivotRateMonotone(c, c', docs, steps[1..]);
      if Shows(Hits(c, docs, s), s.canary) {
        MoreRecallStillShows(c, c', docs, s.tenant, s.text, s.k, None, s.canary);
      }
    }
  }

  // ---------- A rate that falls ----------

  function HitOf(owner: Uuid, d: Document, score: nat): Hit {
    Hit(d.docId, owner, score, d.content)
  }

  lemma ScoredPair(c: Config, query: string, owner: Uuid, first: Document, second: Document, score: nat)
    requires Score(c, query, first) == Score(c, query, second) == score > 0
    ensures Scored(c, query, [(owner, first), (owner, second)])
         == [HitOf(owner, first, score), HitOf(owner, second, score)]
  {
    var pairs := [(owner, first), (owner, second)];
    var one := [(owner, first)];
    assert pairs[..1] == one && one[..0] == [];
    assert Scored(c, query, one) == [HitOf(owner, first, score)];
  }

  lemma SortedPair(a: Hit, b: Hit)
    requires Before(a, b)
    ensures Sorted([a, b]) == [a, b]
  {
    var pair, one := [a, b], [a];
    assert pair[..1] == one && one[..0] == [];
    assert Sorted(one) == Insert([], a) == one;
    assert Sorted(pair) == Insert(one, b) == one + [b];
  }

  lemma RankedPair(c: Config, query: string, owner: Uuid, first: Document, second: Document, score: nat)
    requires Score(c, query, first) == Score(c, query, second) == score > 0 && StringLe(first.docId, second.docId)
    ensures Ranked(c, query, [(owner, first), (owner, second)])
         == [HitOf(owner, first, score), HitOf(owner, second, score)]
  {
    ScoredPair(c, query, owner, first, second, score);
    SortedPair(HitOf(owner, first, score), HitOf(owner, second, score));
  }

  lemma ScopeOfOne(c: Config, asker: Uuid, owner: Uuid, first: Document, second: Document)
    requires c.sharedIndex
    ensures Scope(c, [(owner, [first, second])], asker, None) == [(owner, first), (owner, second)]
  {
    var docs: Documents := [(owner, [first, second])];
    assert docs[1..] == [] && AllPairs(docs) == Pairs(owner, [first, second]) + [];
  }

  /** Two foreign documents that match a query equally well, the first without a canary: where
      the gate lets only the second through, full recall hides its canary behind the first. */
  lemma MoreRecallHides(
    c: Config, asker: Uuid, owner: Uuid, first: Document, second: Document, query: string, canary: Canary)
    requires c.sharedIndex && c.recall < 1.0 && asker != owner
    requires Score(c, query, first) == Score(c, query, second) > 0 && StringLe(first.docId, second.docId)
    requires c.keep(query, second.docId) < c.recall <= c.keep(query, first.docId)
    requires !canary(HitOf(owner, first, Score(c, query, first)))
    requires canary(HitOf(owner, second, Score(c, query, second)))
    ensures Shows(QueryHits(c, [(owner, [first, second])], asker, query, 1, None), canary)
    ensures !Shows(QueryHits(c.(recall := 1.0), [(owner, [first, second])], asker, query, 1, None), canary)
  {
    var full, score := c.(recall := 1.0), Score(c, query, first);
    var a, b := HitOf(owner, first, score), HitOf(owner, second, score);
    ScopeOfOne(c, asker, owner, first, second);
    ScopeOfOne(full, asker, owner, first, second);
    RankedPair(c, query, owner, first, second, score);
    RankedPair(full, query, owner, first, second, score);
    assert [a, b][1..] == [b] && [b][1..] == [];
    assert Surviving(c, asker, query, [b]) == [b];
    assert QueryHits(c, [(owner, [first, second])], asker, query, 1, None) == [b];
    assert QueryHits(full, [(owner, [first, second])], asker, query, 1, None) == [a];
    assert canary([b][0]);
  }

  const FILLER := Document("a", "", "filler", [], None)
  const PIVOT := Document("m", "", "canary", [], None)

  function Weak(): Config {
    Config(true, false, false, 0.5, (text: string) => {"record"},
           (query: string, docId: string) => if docId == "m" then 0.1 else 0.6)
  }

  function Pivots(): Canary {
    (h: Hit) => h.content == "canary"
  }

  /** The sweep's rate can fall as recall rises: from one query in one to none. */
  lemma PivotRateCanFall()
    ensures MoreRecall(Weak(), Weak().(recall := 1.0)) && IsGate(Weak().keep)
    ensures
      var docs, steps := [(BOB, [FILLER, PIVOT])], [SweepStep(ALICE, "", 1, Pivots())];
      CanaryQueries(Weak(), docs, steps) == 1 && CanaryQueries(Weak().(recall := 1.0), docs, steps) == 0
  {
    AliceIsNotBob();
    var steps := [SweepStep(ALICE, "", 1, Pivots())];
    assert {"record"} * {"record"} == {"record"};
    assert Score(Weak(), "", FILLER) == Score(Weak(), "", PIVOT) == 1;
    assert "filler"[0] != "canary"[0];
    MoreRecallHides(Weak(), ALICE, BOB, FILLER, PIVOT, "", Pivots());
    assert steps[1..] == [];
  }
}
