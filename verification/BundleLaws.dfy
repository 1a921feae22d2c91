/** What a passing bundle establishes, and that an honestly built one passes. */
module BundleLaws {
  import opened Bundle
  import opened InToto
  import opened Merkle
  import opened Wrappers

  lemma {:induction false} RepeatsIffNotDistinct(entries: seq<Member>)
    ensures Repeats(entries) <==> !DistinctNames(entries)
  {
    if entries != [] {
      var n := |entries| - 1;
      RepeatsIffNotDistinct(entries[..n]);
      if entries[n].name in Names(entries[..n]) {
        var m :| m in entries[..n] && m.name == entries[n].name;
        var i :| 0 <= i < n && entries[i] == m;
      }
    }
  }

  lemma {:induction false} ContentOf(entries: seq<Member>, m: Member)
    requires DistinctNames(entries) && m in entries
    ensures Content(entries, m.name) == m.content
  {
    if entries[0] != m {
      assert entries == [entries[0]] + entries[1..];
      assert DistinctNames(entries[1..]);
      var i :| 0 < i < |entries| && entries[i] == m;
      assert entries[0].name != entries[i].name;
      ContentOf(entries[1..], m);
    }
  }

  lemma OpenShape(env: Env, archive: Archive)
    requires Open(env, archive).Ok?
    ensures archive.Archive? && !Repeats(archive.entries) && AllReadable(archive.entries)
    ensures MANIFEST in Names(archive.entries)
    ensures Open(env, archive).value.contents == Contents(archive.entries)
  {
  }

  lemma ContentsOfDistinct(entries: seq<Member>)
    requires DistinctNames(entries) && AllReadable(entries)
    ensures Contents(entries).Keys == Names(entries) - {MANIFEST}
    ensures forall m | m in entries && m.name != MANIFEST ::
              m.name in Contents(entries) && m.content == Some(Contents(entries)[m.name])
  {
    forall m | m in entries ensures Content(entries, m.name) == m.content {
      ContentOf(entries, m);
    }
    forall n | n in Names(entries) && n != MANIFEST ensures n in Contents(entries) {
      var m :| m in entries && m.name == n;
      assert Content(entries, n) == m.content;
    }
  }

  /** Soundness of the member checks. A passing archive has no repeated name; apart from the
      manifest itself its members are exactly those the manifest lists; each is a name this
      tool writes; and each one's content has the digest listed for it. */
  lemma PassingArchive(env: Env, archive: Archive)
    requires Passes(env, archive)
    ensures archive.Archive? && DistinctNames(archive.entries)
    ensures
      var o := Open(env, archive).value;
      && MANIFEST !in o.digests && Names(archive.entries) == o.digests.Keys + {MANIFEST}
      && forall m | m in archive.entries && m.name != MANIFEST :: (
           && Known(m.name) && m.content.Some? && m.name in o.digests
           && o.digests[m.name] == Str(env.hash(m.content.value)))
  {
    OpenShape(env, archive);
    var entries, o := archive.entries, Open(env, archive).value;
    RepeatsIffNotDistinct(entries);
    ContentsOfDistinct(entries);
    assert o.digests.Keys == Names(entries) - {MANIFEST};
    forall m | m in entries && m.name != MANIFEST
      ensures m.name in o.digests && Known(m.name) && m.content.Some?
      ensures o.digests[m.name] == Str(env.hash(m.content.value))
    {
      assert m.name in o.contents;
    }
  }

  function Evidence(env: Env, archive: Archive): Option<Bytes> {
    var o := Open(env, archive);
    if o.Ok? && EVIDENCE in o.value.contents then Some(o.value.contents[EVIDENCE]) else None
  }

  /** A member of an archive that opens. */
  ghost predicate Carries(env: Env, archive: Archive, name: string, content: Bytes) {
    var o := Open(env, archive);
    o.Ok? && name in o.value.contents && o.value.contents[name] == content
  }

  /** The signed evidence decides the rest: two passing bundles with the same evidence carry,
      as JSON, the same run record. */
  lemma SameEvidenceSameRun(env: Env, a: Archive, b: Archive, runA: Bytes, runB: Bytes)
    requires Passes(env, a) && Passes(env, b) && Evidence(env, a) == Evidence(env, b)
    requires Carries(env, a, RUN, runA) && Carries(env, b, RUN, runB)
    ensures env.codec.parse(runA).Some? && env.codec.parse(runA) == env.codec.parse(runB)
  {
  }

  /** Their PDFs are the same bytes, or here are two inputs with one hash. */
  lemma SameEvidenceSamePdf(env: Env, a: Archive, b: Archive, nameA: string, nameB: string, pdfA: Bytes, pdfB: Bytes)
    requires Passes(env, a) && Passes(env, b) && Evidence(env, a) == Evidence(env, b)
    requires nameA in PDFS && nameB in PDFS && Carries(env, a, nameA, pdfA) && Carries(env, b, nameB, pdfB)
    ensures pdfA == pdfB || (pdfA != pdfB && env.hash(pdfA) == env.hash(pdfB))
  {
    var pack := env.readPack(Evidence(env, a).value).value;
    assert pack.pdfRef == Some(env.hash(pdfA)) && pack.pdfRef == Some(env.hash(pdfB));
  }

  /** The statement a sidecar carries: by itself, or inside an envelope. */
  function Carried(env: Env, name: string, raw: Bytes): Option<Json> {
    var parsed := env.codec.parse(raw);
    if parsed.None? then None
    else if name == DSSE then EnvelopeStatement(env.codec, parsed.value)
    else parsed
  }

  lemma DsseIsNoStatement()
    ensures DSSE !in STATEMENTS
  {
    assert |DSSE| != |STATEMENTS[0]| && |DSSE| != |STATEMENTS[1]|;
  }

  lemma BoundSidecar(env: Env, o: Opened, pack: Pack, name: string)
    requires SidecarsBound(env, o, pack) && (name in STATEMENTS || name == DSSE) && name in o.contents
    ensures Carried(env, name, o.contents[name]).Some?
    ensures VerifyStatement(env.codec, Carried(env, name, o.contents[name]).value, pack)
  {
    DsseIsNoStatement();
    if name == DSSE {
      assert EnvelopeBound(env, o.contents[name], pack);
    } else {
      assert StatementBound(env, o.contents[name], pack);
    }
  }

  lemma SidecarVerifies(env: Env, archive: Archive, name: string, raw: Bytes)
    requires Passes(env, archive) && (name in STATEMENTS || name == DSSE) && Carries(env, archive, name, raw)
    ensures
      && Carried(env, name, raw).Some?
      && VerifyStatement(env.codec, Carried(env, name, raw).value, env.readPack(Evidence(env, archive).value).value)
  {
    var o := Open(env, archive).value;
    BoundSidecar(env, o, env.readPack(o.contents[EVIDENCE]).value, name);
  }

  /** One subject each, of one name and one digest, and one predicate. */
  predicate SameAttestation(x: Json, y: Json) {
    && Get(x, "predicate") == Get(y, "predicate")
    && Get(x, "subject").Arr? && Get(y, "subject").Arr?
    && |Get(x, "subject").items| == 1 == |Get(y, "subject").items|
    && var s, t := Get(x, "subject").items[0], Get(y, "subject").items[0];
       Get(s, "name") == Get(t, "name") && Get(Get(s, "digest"), "sha256") == Get(Get(t, "digest"), "sha256")
  }

  lemma OnePackOneAttestation(codec: Codec, x: Json, y: Json, pack: Pack)
    requires Faithful(codec) && VerifyStatement(codec, x, pack) && VerifyStatement(codec, y, pack)
    ensures SameAttestation(x, y)
  {
    assert codec.parse(codec.dump(Get(x, "predicate"))) == codec.parse(codec.dump(Get(y, "predicate")));
  }

  /** Every attestation in either bundle, bare or enveloped, names the same subject by the
      same digest and asserts the same predicate. */
  lemma SameEvidenceSameAttestation(
    env: Env, a: Archive, b: Archive, nameA: string, nameB: string, rawA: Bytes, rawB: Bytes)
    requires Faithful(env.codec)
    requires Passes(env, a) && Passes(env, b) && Evidence(env, a) == Evidence(env, b)
    requires (nameA in STATEMENTS || nameA == DSSE) && Carries(env, a, nameA, rawA)
    requires (nameB in STATEMENTS || nameB == DSSE) && Carries(env, b, nameB, rawB)
    ensures Carried(env, nameA, rawA).Some? && Carried(env, nameB, rawB).Some?
    ensures SameAttestation(Carried(env, nameA, rawA).value, Carried(env, nameB, rawB).value)
  {
    SidecarVerifies(env, a, nameA, rawA);
    SidecarVerifies(env, b, nameB, rawB);
    OnePackOneAttestation(
      env.codec, Carried(env, nameA, rawA).value, Carried(env, nameB, rawB).value,
      env.readPack(Evidence(env, a).value).value);
  }
}
