/** A tenant's corpus: pivot documents spread evenly through it, each naming a shared entity
    and carrying one marker, and filler documents carrying none. */
module Corpus {
  import opened Decimal
  import opened Markers
  import opened Records
  import opened Wrappers

  datatype SharedEntity = SharedEntity(kind: string, value: string)

  /** `shortId` stands for the first eight hexadecimal digits of the tenant's id. */
  datatype TenantSpec = TenantSpec(
    tenant: Uuid, shortId: string, displayName: string, industry: string, corpusSize: nat, users: seq<Uuid>)

  datatype Document = Document(
    id: string, tenant: Uuid, docType: string, title: string, content: string, metadata: map<string, string>,
    markerIds: seq<string>, owner: Option<Uuid>)

  /** The templates. A pivot's body is some lead, the entity, some tail, and its marker. */
  datatype Wording = Wording(
    docType: nat -> string,
    heading: string -> string,
    lead: (string, string, string) -> string,
    tail: (string, string, string) -> string,
    filler: (Uuid, nat) -> string)

  datatype Error = ConfigError

  type Pivots = map<nat, (Marker, SharedEntity)>

  type Locations = map<string, seq<Location>>

  function Slot(i: nat, n: nat, size: nat): nat
    requires n > 0
  {
    (i * size) / n
  }

  function PivotsUpTo(markers: seq<Marker>, entities: seq<SharedEntity>, size: nat, upto: nat): Pivots
    requires markers != [] && entities != [] && upto <= |markers|
  {
    if upto == 0 then map[]
    else
      var i := upto - 1;
      PivotsUpTo(markers, entities, size, i)[Slot(i, |markers|, size) := (markers[i], entities[i % |entities|])]
  }

  function PivotsOf(markers: seq<Marker>, entities: seq<SharedEntity>, size: nat): Pivots {
    if markers == [] || entities == [] then map[] else PivotsUpTo(markers, entities, size, |markers|)
  }

  lemma SlotStep(i: nat, n: nat, size: nat)
    requires 0 < n <= size
    ensures Slot(i, n, size) < Slot(i + 1, n, size)
  {
    var a, b := i * size, (i + 1) * size;
    assert b == a + size;
    var q := a / n;
    assert a == q * n + a % n;
    assert b / n >= q + 1 by {
      assert b >= (q + 1) * n;
      var p := b / n;
      assert b == p * n + b % n;
      if p < q + 1 {
        TimesApart(p, q + 1, n);
        assert false;
      }
    }
  }

  lemma {:induction false} SlotsIncrease(i: nat, j: nat, n: nat, size: nat)
    requires 0 < n <= size && i < j
    ensures Slot(i, n, size) < Slot(j, n, size)
    decreases j
  {
    SlotStep(j - 1, n, size);
    if i < j - 1 {
      SlotsIncrease(i, j - 1, n, size);
    }
  }

  lemma SlotBounds(i: nat, n: nat, size: nat)
    requires 0 < n <= size && i < n
    ensures Slot(i, n, size) < size
  {
    SlotsIncrease(i, n, n, size);
    DivModUnique(n * size, n, size, 0);
  }

  /** The markers are spread: each has a slot of its own, below the corpus size, and there
      are no other pivots. */
  lemma {:induction false} PivotsAreSpread(markers: seq<Marker>, entities: seq<SharedEntity>, size: nat, upto: nat)
    requires markers != [] && entities != [] && upto <= |markers| <= size
    ensures
      var pivots := PivotsUpTo(markers, entities, size, upto);
      && (forall i | 0 <= i < upto ::
            var slot := Slot(i, |markers|, size);
            slot < size && slot in pivots && pivots[slot] == (markers[i], entities[i % |entities|]))
      && (forall d | d in pivots :: exists i :: 0 <= i < upto && Slot(i, |markers|, size) == d)
  {
    if upto > 0 {
      PivotsAreSpread(markers, entities, size, upto - 1);
      SlotBounds(upto - 1, |markers|, size);
      forall i | 0 <= i < upto - 1 ensures Slot(i, |markers|, size) < Slot(upto - 1, |markers|, size) {
        SlotsIncrease(i, upto - 1, |markers|, size);
      }
    }
  }

  method PivotAssignments(markers: seq<Marker>, entities: seq<SharedEntity>, size: nat)
    returns (r: Result<Pivots, Error>)
    ensures r == if entities != [] && markers != [] && size < |markers| then Err(ConfigError)
                 else Ok(PivotsOf(markers, entities, size))
  {
    if entities == [] || markers == [] {
      return Ok(map[]);
    }
    if size < |markers| {
      return Err(ConfigError);
    }
    var assignments: Pivots := map[];
    for i := 0 to |markers|
      invariant assignments == PivotsUpTo(markers, entities, size, i)
    {
      var slot := (i * size) / |markers|;
      assignments := assignments[slot := (markers[i], entities[i % |entities|])];
    }
    return Ok(assignments);
  }

  function DocId(shortId: string, index: nat): string {
    "doc-" + shortId + "-" + Padded(4, index)
  }

  function Fields(docId: string): seq<Location> {
    [Location(docId, Body), Location(docId, Title), Location(docId, Metadata)]
  }

  function PivotContent(w: Wording, docType: string, e: SharedEntity, marker: Marker, industry: string): string {
    w.lead(e.kind, docType, industry) + e.value + w.tail(e.kind, docType, industry) + marker.plaintext + "."
  }

  function DocumentAt(w: Wording, t: TenantSpec, pivots: Pivots, index: nat): Document {
    var docType := w.docType(index % 5);
    var title := w.heading(docType) + " #" + Padded(4, index);
    var metadata := map["doc_type" := docType, "tenant" := t.displayName];
    if index in pivots then
      var (marker, entity) := pivots[index];
      Document(DocId(t.shortId, index), t.tenant, docType, title + " (ref " + marker.plaintext + ")",
               PivotContent(w, docType, entity, marker, t.industry), metadata["marker_ref" := marker.plaintext],
               [marker.id], marker.owner)
    else
      Document(DocId(t.shortId, index), t.tenant, docType, title, w.filler(t.tenant, index), metadata, [], None)
  }

  function Documents(w: Wording, t: TenantSpec, pivots: Pivots): seq<Document> {
    seq(t.corpusSize, i requires 0 <= i < t.corpusSize => DocumentAt(w, t, pivots, i))
  }

  /** Where a marker id has been planted in the first `upto` documents, in order. */
  function Planted(t: TenantSpec, pivots: Pivots, id: string, upto: nat): seq<Location> {
    if upto == 0 then []
    else if upto - 1 in pivots && pivots[upto - 1].0.id == id
    then Planted(t, pivots, id, upto - 1) + Fields(DocId(t.shortId, upto - 1))
    else Planted(t, pivots, id, upto - 1)
  }

  lemma {:induction false} PivotsCarryMarkers(
    markers: seq<Marker>, entities: seq<SharedEntity>, size: nat, upto: nat, slot: nat)
    requires markers != [] && entities != [] && upto <= |markers|
    requires slot in PivotsUpTo(markers, entities, size, upto)
    ensures PivotsUpTo(markers, entities, size, upto)[slot].0 in markers
  {
    if slot != Slot(upto - 1, |markers|, size) {
      PivotsCarryMarkers(markers, entities, size, upto - 1, slot);
    }
  }

  /** One turn of the corpus loop, short of recording where the marker went. */
  method Compose(w: Wording, t: TenantSpec, pivots: Pivots, k: nat) returns (d: Document)
    ensures d == DocumentAt(w, t, pivots, k)
  {
    var docType := w.docType(k % 5);
    var title := w.heading(docType) + " #" + Padded(4, k);
    var metadata := map["doc_type" := docType, "tenant" := t.displayName];
    var content, markerIds, owner := w.filler(t.tenant, k), [], None;
    if k in pivots {
      var (marker, entity) := pivots[k];
      content := PivotContent(w, docType, entity, marker, t.industry);
      title := title + " (ref " + marker.plaintext + ")";
      metadata := metadata["marker_ref" := marker.plaintext];
      markerIds, owner := [marker.id], marker.owner;
    }
    d := Document(DocId(t.shortId, k), t.tenant, docType, title, content, metadata, markerIds, owner);
  }

  method GenerateCorpus(w: Wording, t: TenantSpec, markers: seq<Marker>, entities: seq<SharedEntity>)
    returns (r: Result<(seq<Document>, Locations), Error>)
    ensures r.Err? <==> entities != [] && markers != [] && t.corpusSize < |markers|
    ensures r.Ok? ==>
              var pivots := PivotsOf(markers, entities, t.corpusSize);
              && r.value.0 == Documents(w, t, pivots)
              && r.value.1.Keys == (set m | m in markers :: m.id)
              && forall id | id in r.value.1 :: r.value.1[id] == Planted(t, pivots, id, t.corpusSize)
  {
    var placed := PivotAssignments(markers, entities, t.corpusSize);
    if placed.Err? {
      return Err(placed.error);
    }
    var pivots := placed.value;
    var ids := set m | m in markers :: m.id;
    var locations: Locations := map id | id in ids :: [];
    var documents: seq<Document> := [];
    for k := 0 to t.corpusSize
      invariant |documents| == k && forall j | 0 <= j < k :: documents[j] == DocumentAt(w, t, pivots, j)
      invariant locations.Keys == ids
      invariant forall id | id in locations :: locations[id] == Planted(t, pivots, id, k)
    {
      var document := Compose(w, t, pivots, k);
      documents := documents + [document];
      if k in pivots {
        PivotsCarryMarkers(markers, entities, t.corpusSize, |markers|, k);
        var id := pivots[k].0.id;
        locations := locations[id := locations[id] + Fields(document.id)];
      }
    }
    assert documents == Documents(w, t, pivots);
    return Ok((documents, locations));
  }
}
