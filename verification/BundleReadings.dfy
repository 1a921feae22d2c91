/** A passing bundle in the terms of its archive: which members it may hold under which names,
    and what each must agree with. */
module BundleReadings {
  import opened Bundle
  import opened BundleLaws
  import opened InToto
  import opened Merkle
  import opened Wrappers

  const BOUND_MEMBERS: set<string> :=
    {"evidence.json", "run.json", "evidence.dsse.json", "audit-pack.pdf", "erasure-attestation.pdf",
     "attestation.intoto.json", "erasure-attestation.intoto.json"}

  const OTHER_MEMBERS: set<string> :=
    {"PACK-README.md", "sectum-ai.config.redacted.yaml", "ground-truth-manifest.json.aes"}

  ghost predicate HasName(entries: seq<Member>, name: string) {
    exists m :: m in entries && m.name == name
  }

  ghost predicate HasMember(entries: seq<Member>, name: string, content: Bytes) {
    exists m :: m in entries && m.name == name && m.content == Some(content)
  }

  /** Every member is readable and no two share a name. */
  ghost predicate WellFormed(entries: seq<Member>) {
    && (forall m | m in entries :: m.content.Some?)
    && (forall i, j | 0 <= i < j < |entries| :: entries[i].name != entries[j].name)
  }

  /** The manifest member is a JSON object that names no other evidence, and lists these digests. */
  ghost predicate Lists(env: Env, entries: seq<Member>, digests: map<string, Json>) {
    exists raw, fields ::
      && HasMember(entries, "bundle-manifest.json", raw) && env.codec.parse(raw) == Some(Obj(fields))
      && ("evidence" in fields ==> fields["evidence"] == Str("evidence.json"))
      && (if "members" in fields then fields["members"] == Obj(digests) else digests == map[])
  }

  /** The list is exactly the other members, each of a name this tool writes, by its digest. */
  ghost predicate DigestsAgree(env: Env, entries: seq<Member>, digests: map<string, Json>) {
    && (forall n :: n in digests <==> n != "bundle-manifest.json" && HasName(entries, n))
    && forall n, raw | n != "bundle-manifest.json" && HasMember(entries, n, raw) ::
         n in BOUND_MEMBERS + OTHER_MEMBERS && n in digests && digests[n] == Str(env.hash(raw))
  }

  /** The PDF handed to the pack's own verification: the audit pack, or else the attestation. */
  ghost predicate IsFirstPdf(entries: seq<Member>, pdf: Option<Bytes>) {
    if HasName(entries, "audit-pack.pdf") then pdf.Some? && HasMember(entries, "audit-pack.pdf", pdf.value)
    else if HasName(entries, "erasure-attestation.pdf") then
      pdf.Some? && HasMember(entries, "erasure-attestation.pdf", pdf.value)
    else pdf.None?
  }

  ghost predicate BindsPdfs(env: Env, entries: seq<Member>, pack: Pack) {
    && (forall raw | HasMember(entries, "audit-pack.pdf", raw) :: pack.pdfRef == Some(env.hash(raw)))
    && (forall raw | HasMember(entries, "erasure-attestation.pdf", raw) :: pack.pdfRef == Some(env.hash(raw)))
    && (pack.pdfRef.Some? ==>
          HasName(entries, "audit-pack.pdf") || HasName(entries, "erasure-attestation.pdf"))
  }

  ghost predicate BindsStatement(env: Env, entries: seq<Member>, name: string, pack: Pack) {
    forall raw | HasMember(entries, name, raw) ::
      var statement := env.codec.parse(raw);
      statement.Some? && VerifyStatement(env.codec, statement.value, pack)
  }

  ghost predicate BindsEnvelope(env: Env, entries: seq<Member>, pack: Pack) {
    forall raw | HasMember(entries, "evidence.dsse.json", raw) ::
      var envelope := env.codec.parse(raw);
      envelope.Some? && VerifyEnvelope(env.codec, envelope.value, pack)
  }

  /** Everything a reader of the archive could take for evidence agrees with the pack. */
  ghost predicate BindsTo(env: Env, entries: seq<Member>, pack: Pack) {
    && (forall raw | HasMember(entries, "run.json", raw) :: env.codec.parse(raw) == Some(pack.run))
    && BindsPdfs(env, entries, pack)
    && BindsStatement(env, entries, "attestation.intoto.json", pack)
    && BindsStatement(env, entries, "erasure-attestation.intoto.json", pack)
    && BindsEnvelope(env, entries, pack)
    && forall pdf, c | IsFirstPdf(entries, pdf) && c in env.verifyPack(pack, pdf) :: c.ok || c.name == "audit-pdf"
  }

  ghost predicate ReadsAs(env: Env, entries: seq<Member>, pack: Pack) {
    exists raw :: HasMember(entries, "evidence.json", raw) && env.stamped(raw) && env.readPack(raw) == Some(pack)
  }

  // ---------- Members and contents ----------

  lemma WellFormedIff(entries: seq<Member>)
    ensures WellFormed(entries) <==> !Repeats(entries) && AllReadable(entries)
  {
    RepeatsIffNotDistinct(entries);
  }

  lemma ContentIs(entries: seq<Member>, n: string, raw: Bytes)
    requires WellFormed(entries)
    ensures n in Names(entries) <==> HasName(entries, n)
    ensures n in Names(entries) && Content(entries, n) == Some(raw) <==> HasMember(entries, n, raw)
  {
    forall m | m in entries ensures Content(entries, m.name) == m.content {
      ContentOf(entries, m);
    }
  }

  lemma ContentsAre(entries: seq<Member>, n: string, raw: Bytes)
    requires WellFormed(entries)
    ensures n in Contents(entries) <==> n != "bundle-manifest.json" && HasName(entries, n)
    ensures n in Contents(entries) && Contents(entries)[n] == raw
       <==> n != "bundle-manifest.json" && HasMember(entries, n, raw)
  {
    ContentIs(entries, n, raw);
    if n in Names(entries) {
      var m :| m in entries && m.name == n;
      ContentOf(entries, m);
    }
  }

  /** Contents that are exactly an archive's members, but for the manifest. */
  ghost predicate Mirror(entries: seq<Member>, contents: map<string, Bytes>) {
    && (forall n :: n in contents <==> n != "bundle-manifest.json" && HasName(entries, n))
    && (forall n, raw | n != "bundle-manifest.json" && HasMember(entries, n, raw) ::
          n in contents && contents[n] == raw)
    && (forall n | n in contents :: HasMember(entries, n, contents[n]))
  }

  lemma ContentsMirror(entries: seq<Member>)
    requires WellFormed(entries)
    ensures Mirror(entries, Contents(entries))
  {
    forall n ensures n in Contents(entries) <==> n != "bundle-manifest.json" && HasName(entries, n) {
      ContentsAre(entries, n, []);
    }
    forall n, raw | n != "bundle-manifest.json" && HasMember(entries, n, raw)
      ensures n in Contents(entries) && Contents(entries)[n] == raw
    {
      ContentsAre(entries, n, raw);
    }
    forall n | n in Contents(entries) ensures HasMember(entries, n, Contents(entries)[n]) {
      ContentsAre(entries, n, Contents(entries)[n]);
    }
  }

  lemma KnownNames(n: string)
    ensures Known(n) <==> n in BOUND_MEMBERS + OTHER_MEMBERS
  {
  }

  // ---------- Opening ----------

  lemma ListedOpens(env: Env, entries: seq<Member>, digests: map<string, Json>)
    requires WellFormed(entries) && Lists(env, entries, digests)
    ensures Open(env, Archive(entries)) == Ok(Opened(digests, Contents(entries)))
  {
    WellFormedIff(entries);
    var raw, fields :|
      && HasMember(entries, "bundle-manifest.json", raw) && env.codec.parse(raw) == Some(Obj(fields))
      && ("evidence" in fields ==> fields["evidence"] == Str("evidence.json"))
      && (if "members" in fields then fields["members"] == Obj(digests) else digests == map[]);
    ContentIs(entries, "bundle-manifest.json", raw);
  }

  /** What an archive that opens has for a manifest. */
  ghost predicate ManifestIs(env: Env, raw: Option<Bytes>, digests: map<string, Json>) {
    && raw.Some? && env.codec.parse(raw.value).Some? && env.codec.parse(raw.value).value.Obj?
    && var fields := env.codec.parse(raw.value).value.fields;
       && ("evidence" in fields ==> fields["evidence"] == Str(EVIDENCE))
       && (if "members" in fields then fields["members"] == Obj(digests) else digests == map[])
  }

  lemma OpenedManifest(env: Env, entries: seq<Member>)
    requires Open(env, Archive(entries)).Ok?
    ensures ManifestIs(env, Content(entries, MANIFEST), Open(env, Archive(entries)).value.digests)
    ensures !Repeats(entries) && AllReadable(entries) && MANIFEST in Names(entries)
  {
  }

  lemma OpenedLists(env: Env, entries: seq<Member>)
    requires Open(env, Archive(entries)).Ok?
    ensures WellFormed(entries) && Lists(env, entries, Open(env, Archive(entries)).value.digests)
  {
    OpenedManifest(env, entries);
    WellFormedIff(entries);
    var raw := Content(entries, MANIFEST).value;
    ContentIs(entries, "bundle-manifest.json", raw);
    assert env.codec.parse(raw) == Some(Obj(env.codec.parse(raw).value.fields));
  }

  // ---------- Agreeing ----------

  lemma MembersIff(env: Env, entries: seq<Member>, o: Opened)
    requires Mirror(entries, o.contents)
    ensures MembersAgree(env, o) <==> DigestsAgree(env, entries, o.digests)
  {
    forall n ensures Known(n) <==> n in BOUND_MEMBERS + OTHER_MEMBERS {
      KnownNames(n);
    }
    if DigestsAgree(env, entries, o.digests) {
      assert o.digests.Keys == o.contents.Keys;
      forall n | n in o.digests ensures Known(n) && o.digests[n] == Str(env.hash(o.contents[n])) {
        assert HasMember(entries, n, o.contents[n]);
      }
    }
  }

  lemma NotTheManifest()
    ensures "bundle-manifest.json" !in BOUND_MEMBERS
  {
    assert forall n | n in BOUND_MEMBERS :: n[0] != 'b';
  }

  lemma RunIff(env: Env, entries: seq<Member>, o: Opened, pack: Pack)
    requires Mirror(entries, o.contents)
    ensures RunBound(env, o, pack)
       <==> forall raw | HasMember(entries, "run.json", raw) :: env.codec.parse(raw) == Some(pack.run)
  {
    NotTheManifest();
    assert "run.json" in BOUND_MEMBERS;
    if "run.json" in o.contents {
      assert HasMember(entries, "run.json", o.contents["run.json"]);
    }
  }

  ghost predicate BindsPdf(env: Env, entries: seq<Member>, name: string, pack: Pack) {
    forall raw | HasMember(entries, name, raw) :: pack.pdfRef == Some(env.hash(raw))
  }

  lemma OnePdfIff(env: Env, entries: seq<Member>, o: Opened, name: string, pack: Pack)
    requires Mirror(entries, o.contents) && name in BOUND_MEMBERS
    ensures BindsPdf(env, entries, name, pack)
       <==> (name in o.contents ==> pack.pdfRef == Some(env.hash(o.contents[name])))
    ensures HasName(entries, name) <==> name in o.contents
  {
    NotTheManifest();
    if name in o.contents {
      assert HasMember(entries, name, o.contents[name]);
    }
  }

  lemma PdfsIff(env: Env, entries: seq<Member>, o: Opened, pack: Pack)
    requires Mirror(entries, o.contents)
    ensures PdfsBound(env, o, pack) <==> BindsPdfs(env, entries, pack)
  {
    OnePdfIff(env, entries, o, "audit-pack.pdf", pack);
    OnePdfIff(env, entries, o, "erasure-attestation.pdf", pack);
    assert PDFS[0] == "audit-pack.pdf" && PDFS[1] == "erasure-attestation.pdf";
  }

  lemma OneStatementIff(env: Env, entries: seq<Member>, o: Opened, name: string, pack: Pack)
    requires Mirror(entries, o.contents) && name in BOUND_MEMBERS
    ensures BindsStatement(env, entries, name, pack)
       <==> (name in o.contents ==> StatementBound(env, o.contents[name], pack))
  {
    NotTheManifest();
    if name in o.contents {
      assert HasMember(entries, name, o.contents[name]);
    }
  }

  lemma EnvelopeIff(env: Env, entries: seq<Member>, o: Opened, pack: Pack)
    requires Mirror(entries, o.contents)
    ensures BindsEnvelope(env, entries, pack) <==> (DSSE in o.contents ==> EnvelopeBound(env, o.contents[DSSE], pack))
  {
    NotTheManifest();
    assert DSSE == "evidence.dsse.json" && DSSE in BOUND_MEMBERS;
    if DSSE in o.contents {
      assert HasMember(entries, DSSE, o.contents[DSSE]);
    }
  }

  lemma SidecarsIff(env: Env, entries: seq<Member>, o: Opened, pack: Pack)
    requires Mirror(entries, o.contents)
    ensures SidecarsBound(env, o, pack) <==>
              && BindsStatement(env, entries, "attestation.intoto.json", pack)
              && BindsStatement(env, entries, "erasure-attestation.intoto.json", pack)
              && BindsEnvelope(env, entries, pack)
  {
    OneStatementIff(env, entries, o, "attestation.intoto.json", pack);
    OneStatementIff(env, entries, o, "erasure-attestation.intoto.json", pack);
    EnvelopeIff(env, entries, o, pack);
    assert STATEMENTS[0] == "attestation.intoto.json" && STATEMENTS[1] == "erasure-attestation.intoto.json";
  }

  lemma FirstPdfIff(env: Env, entries: seq<Member>, o: Opened, pack: Pack, pdf: Option<Bytes>)
    requires Mirror(entries, o.contents)
    ensures IsFirstPdf(entries, pdf) <==> pdf == FirstPdf(o.contents)
  {
    OnePdfIff(env, entries, o, "audit-pack.pdf", pack);
    OnePdfIff(env, entries, o, "erasure-attestation.pdf", pack);
    NotTheManifest();
    assert PDFS[0] == "audit-pack.pdf" && PDFS[1] == "erasure-attestation.pdf";
  }

  lemma BoundIff(env: Env, entries: seq<Member>, o: Opened, pack: Pack)
    requires Mirror(entries, o.contents)
    ensures AllBound(env, o, pack) <==> BindsTo(env, entries, pack)
  {
    RunIff(env, entries, o, pack);
    PdfsIff(env, entries, o, pack);
    SidecarsIff(env, entries, o, pack);
    forall pdf ensures IsFirstPdf(entries, pdf) <==> pdf == FirstPdf(o.contents) {
      FirstPdfIff(env, entries, o, pack, pdf);
    }
  }

  ghost predicate Attests(env: Env, entries: seq<Member>) {
    exists pack :: ReadsAs(env, entries, pack) && BindsTo(env, entries, pack)
  }

  lemma PackIff(env: Env, entries: seq<Member>, o: Opened)
    requires Mirror(entries, o.contents)
    ensures PackBinds(env, o) <==> Attests(env, entries)
  {
    NotTheManifest();
    assert "evidence.json" in BOUND_MEMBERS;
    if PackBinds(env, o) {
      var pack := env.readPack(o.contents[EVIDENCE]).value;
      assert HasMember(entries, "evidence.json", o.contents[EVIDENCE]);
      BoundIff(env, entries, o, pack);
    }
    if Attests(env, entries) {
      var pack :| ReadsAs(env, entries, pack) && BindsTo(env, entries, pack);
      BoundIff(env, entries, o, pack);
    }
  }

  ghost predicate Agrees(env: Env, entries: seq<Member>) {
    exists digests :: Lists(env, entries, digests) && DigestsAgree(env, entries, digests)
  }

  lemma PassingReads(env: Env, entries: seq<Member>)
    requires Passes(env, Archive(entries))
    ensures WellFormed(entries) && Agrees(env, entries) && Attests(env, entries)
  {
    OpenShape(env, Archive(entries));
    OpenedLists(env, entries);
    ContentsMirror(entries);
    var o := Open(env, Archive(entries)).value;
    MembersIff(env, entries, o);
    PackIff(env, entries, o);
  }

  lemma ReadingPasses(env: Env, entries: seq<Member>)
    requires WellFormed(entries) && Agrees(env, entries) && Attests(env, entries)
    ensures Passes(env, Archive(entries))
  {
    var digests :| Lists(env, entries, digests) && DigestsAgree(env, entries, digests);
    ListedOpens(env, entries, digests);
    ContentsMirror(entries);
    var o := Opened(digests, Contents(entries));
    MembersIff(env, entries, o);
    PackIff(env, entries, o);
  }

  /** A bundle passes exactly when: it is an archive of readable members with no repeated name;
      its manifest lists precisely the other members, all of names this tool writes, by their
      digests; and its evidence is a pack with which the run record, every PDF, every statement
      and the envelope agree and which verifies, but for its own word on the PDF. */
  lemma PassesIff(env: Env, archive: Archive)
    ensures Passes(env, archive) <==>
              && archive.Archive? && WellFormed(archive.entries)
              && Agrees(env, archive.entries) && Attests(env, archive.entries)
  {
    if Passes(env, archive) {
      OpenShape(env, archive);
      PassingReads(env, archive.entries);
    }
    if archive.Archive? && WellFormed(archive.entries)
       && Agrees(env, archive.entries) && Attests(env, archive.entries) {
      ReadingPasses(env, archive.entries);
    }
  }
}
