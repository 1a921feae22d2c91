/** Planting is a bijection: each marker is in one document, in its body, title and metadata,
    and nowhere else. */
module CorpusLaws {
  import opened Corpus
  import opened Decimal
  import opened Markers
  import opened Wrappers

  ghost predicate DistinctMarkers(markers: seq<Marker>) {
    forall i, j | 0 <= i < j < |markers| :: markers[i].id != markers[j].id
  }

  /** Whether `needle` occurs in `haystack`. */
  ghost predicate Contains(haystack: string, needle: string) {
    exists before, after :: haystack == before + needle + after
  }

  lemma MarkerInSlot(markers: seq<Marker>, entities: seq<SharedEntity>, size: nat, i: nat, k: nat)
    requires entities != [] && i < |markers| <= size && DistinctMarkers(markers)
    ensures
      var pivots := PivotsOf(markers, entities, size);
      k in pivots && pivots[k].0.id == markers[i].id <==> k == Slot(i, |markers|, size)
  {
    PivotsAreSpread(markers, entities, size, |markers|);
    var pivots := PivotsOf(markers, entities, size);
    if k in pivots && pivots[k].0.id == markers[i].id {
      var j :| 0 <= j < |markers| && Slot(j, |markers|, size) == k;
      assert pivots[k].0 == markers[j];
      assert j == i;
    }
  }

  lemma {:induction false} PlantedOnce(
    t: TenantSpec, markers: seq<Marker>, entities: seq<SharedEntity>, i: nat, upto: nat)
    requires entities != [] && i < |markers| <= t.corpusSize && DistinctMarkers(markers) && upto <= t.corpusSize
    ensures
      var slot := Slot(i, |markers|, t.corpusSize);
      Planted(t, PivotsOf(markers, entities, t.corpusSize), markers[i].id, upto)
        == if slot < upto then Fields(DocId(t.shortId, slot)) else []
  {
    if upto > 0 {
      PlantedOnce(t, markers, entities, i, upto - 1);
      MarkerInSlot(markers, entities, t.corpusSize, i, upto - 1);
    }
  }

  lemma CarriedIn(w: Wording, t: TenantSpec, pivots: Pivots, k: nat, id: string)
    ensures id in DocumentAt(w, t, pivots, k).markerIds <==> k in pivots && pivots[k].0.id == id
  {
  }

  /** The marker behind an id a document carries. */
  lemma CarriedMarker(
    w: Wording, t: TenantSpec, markers: seq<Marker>, entities: seq<SharedEntity>, k: nat, id: string) returns (m: nat)
    requires k < t.corpusSize
    requires id in Documents(w, t, PivotsOf(markers, entities, t.corpusSize))[k].markerIds
    ensures m < |markers| && markers[m].id == id
  {
    var pivots := PivotsOf(markers, entities, t.corpusSize);
    CarriedIn(w, t, pivots, k, id);
    PivotsCarryMarkers(markers, entities, t.corpusSize, |markers|, k);
    m :| 0 <= m < |markers| && markers[m] == pivots[k].0;
  }

  /** The bijection. Each marker is carried by exactly one document, which belongs to the
      marker's owner, and its recorded locations are that document's three fields. */
  lemma EachMarkerInOneDocument(w: Wording, t: TenantSpec, markers: seq<Marker>, entities: seq<SharedEntity>, i: nat)
    requires entities != [] && i < |markers| <= t.corpusSize && DistinctMarkers(markers)
    ensures
      var pivots := PivotsOf(markers, entities, t.corpusSize);
      var documents := Documents(w, t, pivots);
      var slot := Slot(i, |markers|, t.corpusSize);
      && slot < |documents|
      && documents[slot].markerIds == [markers[i].id] && documents[slot].owner == markers[i].owner
      && (forall k | 0 <= k < |documents| :: markers[i].id in documents[k].markerIds <==> k == slot)
      && Planted(t, pivots, markers[i].id, t.corpusSize) == Fields(documents[slot].id)
  {
    var pivots := PivotsOf(markers, entities, t.corpusSize);
    PivotsAreSpread(markers, entities, t.corpusSize, |markers|);
    PlantedOnce(t, markers, entities, i, t.corpusSize);
    forall k | 0 <= k < t.corpusSize
      ensures markers[i].id in DocumentAt(w, t, pivots, k).markerIds <==> k == Slot(i, |markers|, t.corpusSize)
    {
      CarriedIn(w, t, pivots, k, markers[i].id);
      MarkerInSlot(markers, entities, t.corpusSize, i, k);
    }
  }

  /** A marker's one document names a shared entity and the marker in the same body, and the
      marker again in its title and metadata. */
  lemma PivotNamesBoth(w: Wording, t: TenantSpec, markers: seq<Marker>, entities: seq<SharedEntity>, i: nat)
    requires entities != [] && i < |markers| <= t.corpusSize
    ensures
      var slot := Slot(i, |markers|, t.corpusSize);
      var documents := Documents(w, t, PivotsOf(markers, entities, t.corpusSize));
      && slot < |documents|
      && Contains(documents[slot].content, entities[i % |entities|].value)
      && Contains(documents[slot].content, markers[i].plaintext)
      && Contains(documents[slot].title, markers[i].plaintext)
      && "marker_ref" in documents[slot].metadata && documents[slot].metadata["marker_ref"] == markers[i].plaintext
  {
    var slot := Slot(i, |markers|, t.corpusSize);
    PivotsAreSpread(markers, entities, t.corpusSize, |markers|);
    var d := DocumentAt(w, t, PivotsOf(markers, entities, t.corpusSize), slot);
    var e, text := entities[i % |entities|], markers[i].plaintext;
    var lead, tail := w.lead(e.kind, d.docType, t.industry), w.tail(e.kind, d.docType, t.industry);
    assert d.content == lead + e.value + (tail + text + ".");
    assert d.content == (lead + e.value + tail) + text + ".";
    var heading := w.heading(d.docType) + " #" + Padded(4, slot) + " (ref ";
    assert d.title == heading + text + ")";
  }

  /** A document that is no marker's slot carries no marker and has no owner. */
  lemma FillersCarryNothing(w: Wording, t: TenantSpec, markers: seq<Marker>, entities: seq<SharedEntity>, k: nat)
    requires entities != [] && 0 < |markers| <= t.corpusSize && k < t.corpusSize
    requires forall i | 0 <= i < |markers| :: Slot(i, |markers|, t.corpusSize) != k
    ensures
      var d := Documents(w, t, PivotsOf(markers, entities, t.corpusSize))[k];
      d.markerIds == [] && d.owner == None
  {
    PivotsAreSpread(markers, entities, t.corpusSize, |markers|);
  }

  /** The pivot of one marker. */
  lemma PivotOf(markers: seq<Marker>, entities: seq<SharedEntity>, size: nat, i: nat)
    requires entities != [] && i < |markers| <= size
    ensures
      var pivots, slot := PivotsOf(markers, entities, size), Slot(i, |markers|, size);
      slot < size && slot in pivots && pivots[slot] == (markers[i], entities[i % |entities|])
  {
    PivotsAreSpread(markers, entities, size, |markers|);
  }

  /** Where a pivot comes from. */
  lemma OriginOf(markers: seq<Marker>, entities: seq<SharedEntity>, size: nat, d: nat) returns (i: nat)
    requires entities != [] && 0 < |markers| <= size && d in PivotsOf(markers, entities, size)
    ensures i < |markers| && PivotsOf(markers, entities, size)[d] == (markers[i], entities[i % |entities|])
  {
    PivotsAreSpread(markers, entities, size, |markers|);
    i :| 0 <= i < |markers| && Slot(i, |markers|, size) == d;
  }

  lemma InTurn(i: nat, n: nat)
    requires i < n
    ensures i % n == i
  {
  }

  /** Every shared entity gets a pivot, where the markers are no fewer: the entity in place `e`
      is paired with marker `e`, and the document in that marker's slot names it. */
  lemma EntitiesCovered(w: Wording, t: TenantSpec, markers: seq<Marker>, entities: seq<SharedEntity>, e: nat)
    requires e < |entities| && e < |markers| <= t.corpusSize
    ensures
      var pivots, slot := PivotsOf(markers, entities, t.corpusSize), Slot(e, |markers|, t.corpusSize);
      && slot < |Documents(w, t, pivots)| && slot in pivots && pivots[slot] == (markers[e], entities[e])
      && Contains(Documents(w, t, pivots)[slot].content, entities[e].value)
  {
    InTurn(e, |entities|);
    PivotOf(markers, entities, t.corpusSize, e);
    PivotNamesBoth(w, t, markers, entities, e);
  }

  /** And no others do: with distinct entities, exactly the first as many as there are markers
      are in some pivot. */
  lemma EntityHasPivotIff(markers: seq<Marker>, entities: seq<SharedEntity>, size: nat, e: nat)
    requires e < |entities| && 0 < |markers| <= size
    requires forall i, j | 0 <= i < j < |entities| :: entities[i] != entities[j]
    ensures
      var pivots := PivotsOf(markers, entities, size);
      (exists d :: d in pivots && pivots[d].1 == entities[e]) <==> e < |markers|
  {
    var pivots := PivotsOf(markers, entities, size);
    if e < |markers| {
      InTurn(e, |entities|);
      PivotOf(markers, entities, size, e);
    } else {
      forall d | d in pivots ensures pivots[d].1 != entities[e] {
        var i := OriginOf(markers, entities, size, d);
        InTurn(i, |entities|);
      }
    }
  }

  lemma DocumentIdsDiffer(w: Wording, t: TenantSpec, pivots: Pivots, j: nat, k: nat)
    requires j < t.corpusSize && k < t.corpusSize
    ensures Documents(w, t, pivots)[j].id == Documents(w, t, pivots)[k].id <==> j == k
  {
    PaddedIsInjective("doc-" + t.shortId + "-", 4, j, k);
  }

  /** A slot is the place in the corpus a marker's share of the way along, rounded down. */
  lemma SlotIsFloor(i: nat, n: nat, size: nat)
    requires n > 0
    ensures Slot(i, n, size) * n <= i * size < Slot(i, n, size) * n + n
  {
    var a := i * size;
    assert a == a / n * n + a % n;
  }

  /** What every document of a corpus says of itself, whatever it carries. */
  lemma DocumentSays(w: Wording, t: TenantSpec, pivots: Pivots, k: nat)
    requires k < t.corpusSize
    ensures
      && |Documents(w, t, pivots)| == t.corpusSize
      && var d := Documents(w, t, pivots)[k];
         && d.id == "doc-" + t.shortId + "-" + Padded(4, k) && d.tenant == t.tenant
         && d.docType == w.docType(k % 5)
         && w.heading(d.docType) + " #" + Padded(4, k) <= d.title
         && "doc_type" in d.metadata && d.metadata["doc_type"] == d.docType
         && "tenant" in d.metadata && d.metadata["tenant"] == t.displayName
         && ("marker_ref" in d.metadata <==> k in pivots)
         && (k !in pivots ==>
               d.title == w.heading(d.docType) + " #" + Padded(4, k) && d.content == w.filler(t.tenant, k))
  {
    assert "tenant"[0] != "marker_ref"[0] && "tenant"[0] != "doc_type"[0] && "marker_ref"[0] != "doc_type"[0];
  }

  /** Whether a document holds a text in the field a location names. */
  ghost predicate HoldsAt(d: Document, place: Location, text: string) {
    && d.id == place.docId
    && match place.field
       case Body => Contains(d.content, text)
       case Title => Contains(d.title, text)
       case Metadata => exists key :: key in d.metadata && d.metadata[key] == text
  }

  /** Recorded locations are true and complete: a marker's are the body, the title and the
      metadata of one document, and the marker's text is in each. */
  lemma LocationsAreTrue(w: Wording, t: TenantSpec, markers: seq<Marker>, entities: seq<SharedEntity>, i: nat)
    requires entities != [] && i < |markers| <= t.corpusSize && DistinctMarkers(markers)
    ensures
      var pivots := PivotsOf(markers, entities, t.corpusSize);
      var places, slot := Planted(t, pivots, markers[i].id, t.corpusSize), Slot(i, |markers|, t.corpusSize);
      && |places| == 3 && places[0].field == Body && places[1].field == Title && places[2].field == Metadata
      && slot < |Documents(w, t, pivots)|
      && forall place | place in places :: HoldsAt(Documents(w, t, pivots)[slot], place, markers[i].plaintext)
  {
    EachMarkerInOneDocument(w, t, markers, entities, i);
    PivotNamesBoth(w, t, markers, entities, i);
  }
}
