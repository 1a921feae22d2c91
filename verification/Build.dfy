/** The whole substrate: every tenant's markers numbered in one sequence, its corpus, and the
    places its markers were planted. */
module Build {
  import opened Corpus
  import opened CorpusLaws
  import opened Decimal
  import opened Markers
  import opened Wrappers

  /** The random words of the tenant in each place, the templates, the digest an embedding
      address carries, and the model it names. */
  datatype Sources = Sources(words: nat -> Words, wording: Wording, digest: string -> string, models: seq<string>)

  datatype Substrate = Substrate(markers: seq<Marker>, documents: seq<Document>)

  function EmbeddingRef(sources: Sources, marker: Marker): Option<string> {
    if !marker.kind.EntityCanary? then None
    else
      var model := if sources.models != [] then sources.models[0] else "fake-deterministic";
      Some(model + "/" + sources.digest(marker.plaintext))
  }

  function PlantedMarkers(
    sources: Sources, t: TenantSpec, markers: seq<Marker>, locations: Locations): seq<Marker>
    requires forall m | m in markers :: m.id in locations
  {
    seq(|markers|, i requires 0 <= i < |markers| =>
      markers[i].(locations := locations[markers[i].id], embedding := EmbeddingRef(sources, markers[i])))
  }

  /** A tenant's markers before planting, by its place in the scenario. */
  function Drawn(sources: Sources, tenants: seq<TenantSpec>, k: nat): (markers: seq<Marker>)
    requires k < |tenants|
    ensures |markers| == PER_TENANT
  {
    MarkersOf(sources.words(k), tenants[k].tenant, tenants[k].users, k * PER_TENANT)
  }

  function PivotsAt(sources: Sources, tenants: seq<TenantSpec>, entities: seq<SharedEntity>, k: nat): Pivots
    requires k < |tenants|
  {
    PivotsOf(Drawn(sources, tenants, k), entities, tenants[k].corpusSize)
  }

  /** A tenant's markers with the places they were planted. */
  function TenantMarkers(
    sources: Sources, tenants: seq<TenantSpec>, entities: seq<SharedEntity>, k: nat): (markers: seq<Marker>)
    requires k < |tenants|
    ensures |markers| == PER_TENANT
  {
    var drawn, pivots := Drawn(sources, tenants, k), PivotsAt(sources, tenants, entities, k);
    seq(PER_TENANT, i requires 0 <= i < PER_TENANT =>
      drawn[i].(locations := Planted(tenants[k], pivots, drawn[i].id, tenants[k].corpusSize),
                embedding := EmbeddingRef(sources, drawn[i])))
  }

  function TenantDocuments(
    sources: Sources, tenants: seq<TenantSpec>, entities: seq<SharedEntity>, k: nat): seq<Document>
    requires k < |tenants|
  {
    Documents(sources.wording, tenants[k], PivotsAt(sources, tenants, entities, k))
  }

  function Joined<T>(parts: seq<seq<T>>): seq<T> {
    if parts == [] then [] else Joined(parts[..|parts| - 1]) + parts[|parts| - 1]
  }

  function MarkerParts(sources: Sources, tenants: seq<TenantSpec>, entities: seq<SharedEntity>): seq<seq<Marker>> {
    seq(|tenants|, k requires 0 <= k < |tenants| => TenantMarkers(sources, tenants, entities, k))
  }

  function DocumentParts(sources: Sources, tenants: seq<TenantSpec>, entities: seq<SharedEntity>): seq<seq<Document>> {
    seq(|tenants|, k requires 0 <= k < |tenants| => TenantDocuments(sources, tenants, entities, k))
  }

  /** A tenant's corpus has room for its markers, or nothing is to be planted in it. */
  predicate Fits(t: TenantSpec, entities: seq<SharedEntity>) {
    entities == [] || t.corpusSize >= PER_TENANT
  }

  ghost predicate AllFit(tenants: seq<TenantSpec>, entities: seq<SharedEntity>) {
    forall t | t in tenants :: Fits(t, entities)
  }

  /** One turn of the loop: a tenant's planted markers and its documents. */
  method Provision(sources: Sources, tenants: seq<TenantSpec>, entities: seq<SharedEntity>, k: nat, sequence: nat)
    returns (r: Result<(seq<Marker>, seq<Document>), Error>)
    requires k < |tenants| && sequence == k * PER_TENANT
    ensures r.Ok? <==> Fits(tenants[k], entities)
    ensures r.Ok? ==> r.value.0 == TenantMarkers(sources, tenants, entities, k)
    ensures r.Ok? ==> r.value.1 == TenantDocuments(sources, tenants, entities, k)
  {
    var t := tenants[k];
    var drawn := GenerateMarkers(sources.words(k), t.tenant, t.users, sequence);
    var corpus := GenerateCorpus(sources.wording, t, drawn, entities);
    if corpus.Err? {
      return Err(corpus.error);
    }
    var planted := PlantedMarkers(sources, t, drawn, corpus.value.1);
    assert planted == TenantMarkers(sources, tenants, entities, k);
    return Ok((planted, corpus.value.0));
  }

  method BuildSubstrate(sources: Sources, tenants: seq<TenantSpec>, entities: seq<SharedEntity>)
    returns (r: Result<Substrate, Error>)
    ensures r.Ok? <==> AllFit(tenants, entities)
    ensures r.Ok? ==> r.value.markers == Joined(MarkerParts(sources, tenants, entities))
    ensures r.Ok? ==> r.value.documents == Joined(DocumentParts(sources, tenants, entities))
  {
    var markers: seq<Marker> := [];
    var documents: seq<Document> := [];
    var sequence := 0;
    ghost var theirMarkers := MarkerParts(sources, tenants, entities);
    ghost var theirDocuments := DocumentParts(sources, tenants, entities);
    for k := 0 to |tenants|
      invariant AllFit(tenants[..k], entities)
      invariant sequence == k * PER_TENANT
      invariant markers == Joined(theirMarkers[..k])
      invariant documents == Joined(theirDocuments[..k])
    {
      var tenant := Provision(sources, tenants, entities, k, sequence);
      assert tenants[k] in tenants;
      if tenant.Err? {
        return Err(tenant.error);
      }
      sequence := sequence + |tenant.value.0|;
      markers := markers + tenant.value.0;
      documents := documents + tenant.value.1;
      assert tenants[..k + 1] == tenants[..k] + [tenants[k]];
      JoinedSnoc(theirMarkers, k);
      JoinedSnoc(theirDocuments, k);
    }
    assert tenants[..|tenants|] == tenants;
    assert theirMarkers[..|tenants|] == theirMarkers && theirDocuments[..|tenants|] == theirDocuments;
    return Ok(Substrate(markers, documents));
  }

  lemma JoinedSnoc<T>(parts: seq<seq<T>>, k: nat)
    requires k < |parts|
    ensures Joined(parts[..k + 1]) == Joined(parts[..k]) + parts[k]
  {
    assert parts[..k + 1][..k] == parts[..k];
  }

  /** Parts of equal length, joined: the place of an item tells its part. */
  lemma {:induction false} JoinedAt(parts: seq<seq<Marker>>, n: nat)
    requires forall part | part in parts :: |part| == PER_TENANT
    ensures |Joined(parts)| == |parts| * PER_TENANT
    ensures n < |Joined(parts)| ==>
              n / PER_TENANT < |parts| && Joined(parts)[n] == parts[n / PER_TENANT][n % PER_TENANT]
  {
    if parts != [] {
      var last := |parts| - 1;
      JoinedAt(parts[..last], n);
      if last * PER_TENANT <= n < |parts| * PER_TENANT {
        DivModUnique(n, PER_TENANT, last, n - last * PER_TENANT);
      }
    }
  }

  /** Where the marker of each number comes from. */
  lemma NumberedByPlace(sources: Sources, tenants: seq<TenantSpec>, entities: seq<SharedEntity>, n: nat)
    ensures |Joined(MarkerParts(sources, tenants, entities))| == |tenants| * PER_TENANT
    ensures n < |tenants| * PER_TENANT ==>
              && n / PER_TENANT < |tenants|
              && Joined(MarkerParts(sources, tenants, entities))[n]
                 == TenantMarkers(sources, tenants, entities, n / PER_TENANT)[n % PER_TENANT]
  {
    JoinedAt(MarkerParts(sources, tenants, entities), n);
  }

  /** Across all tenants the marker ids are the numbers from zero on, without a gap, so no two
      are equal; and a marker's number tells its tenant. */
  lemma MarkerIdsAreContiguous(
    sources: Sources, tenants: seq<TenantSpec>, entities: seq<SharedEntity>, m: nat, n: nat)
    requires m < |tenants| * PER_TENANT && n < |tenants| * PER_TENANT
    ensures
      var markers := Joined(MarkerParts(sources, tenants, entities));
      && m < |markers| && n < |markers|
      && markers[m].id == "mkr-" + Padded(5, m)
      && (markers[m].id == markers[n].id <==> m == n)
      && markers[m].tenant == tenants[m / PER_TENANT].tenant
  {
    NumberedByPlace(sources, tenants, entities, m);
    NumberedByPlace(sources, tenants, entities, n);
    PaddedIsInjective("mkr-", 5, m, n);
  }

  lemma DrawnAreDistinct(sources: Sources, tenants: seq<TenantSpec>, k: nat)
    requires k < |tenants|
    ensures DistinctMarkers(Drawn(sources, tenants, k))
  {
    var drawn := Drawn(sources, tenants, k);
    forall i, j | 0 <= i < j < |drawn| ensures drawn[i].id != drawn[j].id {
      PaddedIsInjective("mkr-", 5, k * PER_TENANT + i, k * PER_TENANT + j);
    }
  }

  /** Every marker of a built substrate is planted in exactly one document of its own tenant,
      in all three fields; without shared entities nothing is planted at all. */
  lemma EveryMarkerIsPlanted(sources: Sources, tenants: seq<TenantSpec>, entities: seq<SharedEntity>, n: nat)
    requires n < |Joined(MarkerParts(sources, tenants, entities))|
    requires AllFit(tenants, entities)
    ensures n / PER_TENANT < |tenants|
    ensures
      var marker := Joined(MarkerParts(sources, tenants, entities))[n];
      var t := tenants[n / PER_TENANT];
      var documents := TenantDocuments(sources, tenants, entities, n / PER_TENANT);
      var slot := Slot(n % PER_TENANT, PER_TENANT, t.corpusSize);
      if entities == [] then marker.locations == []
      else
        && slot < |documents| && marker.locations == Fields(documents[slot].id)
        && documents[slot].markerIds == [marker.id] && documents[slot].owner == marker.owner
        && forall k | 0 <= k < |documents| :: marker.id in documents[k].markerIds <==> k == slot
  {
    NumberedByPlace(sources, tenants, entities, n);
    var k, i := n / PER_TENANT, n % PER_TENANT;
    if entities == [] {
      NothingPlanted(tenants[k], Drawn(sources, tenants, k)[i].id, tenants[k].corpusSize);
    } else {
      assert tenants[k] in tenants && Fits(tenants[k], entities);
      DrawnAreDistinct(sources, tenants, k);
      EachMarkerInOneDocument(sources.wording, tenants[k], Drawn(sources, tenants, k), entities, i);
    }
  }

  // ---------- One document in the whole substrate ----------

  /** Where an item of a part is in the parts joined. */
  function Place<T>(parts: seq<seq<T>>, k: nat, i: nat): nat
    requires k < |parts|
  {
    |Joined(parts[..k])| + i
  }

  lemma {:induction false} JoinedPlace<T>(parts: seq<seq<T>>, k: nat, i: nat)
    requires k < |parts| && i < |parts[k]|
    ensures Place(parts, k, i) < |Joined(parts)| && Joined(parts)[Place(parts, k, i)] == parts[k][i]
  {
    var last := |parts| - 1;
    if k < last {
      JoinedPlace(parts[..last], k, i);
      assert parts[..last][..k] == parts[..k];
    }
  }

  /** The part an item of the joined parts comes from. */
  lemma {:induction false} JoinedOrigin<T>(parts: seq<seq<T>>, j: nat) returns (k: nat, i: nat)
    requires j < |Joined(parts)|
    ensures k < |parts| && i < |parts[k]| && Place(parts, k, i) == j && Joined(parts)[j] == parts[k][i]
  {
    var last := |parts| - 1;
    var front := Joined(parts[..last]);
    if j < |front| {
      k, i := JoinedOrigin(parts[..last], j);
      assert parts[..last][..k] == parts[..k];
    } else {
      k, i := last, j - |front|;
    }
  }

  /** A document carries only its own tenant's marker ids. */
  lemma OnlyOwnMarkers(sources: Sources, tenants: seq<TenantSpec>, entities: seq<SharedEntity>, k: nat, i: nat, n: nat)
    requires k < |tenants| && i < tenants[k].corpusSize
    requires MarkerId(n) in TenantDocuments(sources, tenants, entities, k)[i].markerIds
    ensures n / PER_TENANT == k
  {
    var m := CarriedMarker(sources.wording, tenants[k], Drawn(sources, tenants, k), entities, i, MarkerId(n));
    PaddedIsInjective("mkr-", 5, k * PER_TENANT + m, n);
    DivModUnique(n, PER_TENANT, k, m);
  }

  /** Over the whole substrate, all tenants' documents together, exactly one document carries a
      marker: the one in its slot of its own tenant's corpus. */
  lemma EveryMarkerInOneDocumentOfAll(sources: Sources, tenants: seq<TenantSpec>, entities: seq<SharedEntity>, n: nat)
    requires n < |Joined(MarkerParts(sources, tenants, entities))| && entities != []
    requires AllFit(tenants, entities)
    ensures n / PER_TENANT < |tenants|
    ensures
      var documents := Joined(DocumentParts(sources, tenants, entities));
      var k := n / PER_TENANT;
      var place := Place(DocumentParts(sources, tenants, entities), k,
                         Slot(n % PER_TENANT, PER_TENANT, tenants[k].corpusSize));
      && place < |documents| && documents[place].tenant == tenants[k].tenant
      && forall j | 0 <= j < |documents| ::
           Joined(MarkerParts(sources, tenants, entities))[n].id in documents[j].markerIds <==> j == place
  {
    NumberedByPlace(sources, tenants, entities, n);
    EveryMarkerIsPlanted(sources, tenants, entities, n);
    var parts, k := DocumentParts(sources, tenants, entities), n / PER_TENANT;
    var slot := Slot(n % PER_TENANT, PER_TENANT, tenants[k].corpusSize);
    var id := Joined(MarkerParts(sources, tenants, entities))[n].id;
    MarkerIdsAreContiguous(sources, tenants, entities, n, n);
    JoinedPlace(parts, k, slot);
    forall j | 0 <= j < |Joined(parts)| ensures id in Joined(parts)[j].markerIds <==> j == Place(parts, k, slot) {
      var a, b := JoinedOrigin(parts, j);
      if id in Joined(parts)[j].markerIds {
        OnlyOwnMarkers(sources, tenants, entities, a, b, n);
      }
    }
  }

  lemma {:induction false} NothingPlanted(t: TenantSpec, id: string, upto: nat)
    ensures Planted(t, map[], id, upto) == []
  {
    if upto > 0 {
      NothingPlanted(t, id, upto - 1);
    }
  }

  /** Which markers get an embedding address: the entity canaries, each the first model named in
      the scenario, or the built-in one, and the digest of what the marker says. */
  lemma OnlyEntitiesAreEmbedded(sources: Sources, tenants: seq<TenantSpec>, entities: seq<SharedEntity>, n: nat)
    requires n < |Joined(MarkerParts(sources, tenants, entities))|
    ensures
      var m := Joined(MarkerParts(sources, tenants, entities))[n];
      && (m.kind != EntityCanary ==> m.embedding == None)
      && (m.kind == EntityCanary && sources.models == [] ==>
            m.embedding == Some("fake-deterministic/" + sources.digest(m.plaintext)))
      && (m.kind == EntityCanary && sources.models != [] ==>
            m.embedding == Some(sources.models[0] + "/" + sources.digest(m.plaintext)))
  {
    NumberedByPlace(sources, tenants, entities, n);
    var m := Joined(MarkerParts(sources, tenants, entities))[n];
    assert "fake-deterministic" + "/" == "fake-deterministic/";
    assert m.embedding == EmbeddingRef(sources, m);
  }
}
