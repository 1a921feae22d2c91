/** The single-archive evidence bundle: building one with its digest manifest, and the checks
    that force an archive to agree with the pack inside it. The ZIP container, hashing, and
    what verifying a pack by itself finds are parameters. */
module Bundle {
  import opened InToto
  import opened Merkle
  import opened Wrappers

  const EVIDENCE := "evidence.json"
  const MANIFEST := "bundle-manifest.json"
  const RUN := "run.json"
  const DSSE := "evidence.dsse.json"
  const PDFS := ["audit-pack.pdf", "erasure-attestation.pdf"]
  const STATEMENTS := ["attestation.intoto.json", "erasure-attestation.intoto.json"]
  const UNBOUND := ["PACK-README.md", "sectum-ai.config.redacted.yaml", "ground-truth-manifest.json.aes"]

  predicate Known(name: string) {
    name == EVIDENCE || name == RUN || name == DSSE || name in PDFS || name in STATEMENTS || name in UNBOUND
  }

  /** A member whose stored checksum fails has no readable content. */
  datatype Member = Member(name: string, content: Option<Bytes>)

  datatype Archive = Unreadable | Archive(entries: seq<Member>)

  datatype PackCheck = PackCheck(name: string, ok: bool)

  datatype Env = Env(
    codec: Codec,
    render: Json -> Bytes,
    hash: Bytes -> string,
    sorted: set<string> -> seq<string>,
    stamped: Bytes -> bool,
    readPack: Bytes -> Option<Pack>,
    verifyPack: (Pack, Option<Bytes>) -> seq<PackCheck>)

  ghost predicate Sorts(env: Env) {
    forall names :: (
      && (forall n :: n in env.sorted(names) <==> n in names)
      && (forall i, j | 0 <= i < j < |env.sorted(names)| :: env.sorted(names)[i] != env.sorted(names)[j]))
  }

  datatype CheckName =
    | Readable | Duplicates | Manifest | MemberDigest(member: string) | EvidencePack | SchemaStamps
    | BundledRun | OfPack(name: string) | AuditPdf(member: string) | PdfMissing
    | Attestation(member: string) | DsseEnvelope

  datatype Check = Check(name: CheckName, ok: bool)

  predicate AllOk(checks: seq<Check>) {
    forall c | c in checks :: c.ok
  }

  // ---------- Opening an archive ----------

  ghost predicate DistinctNames(entries: seq<Member>) {
    forall i, j | 0 <= i < j < |entries| :: entries[i].name != entries[j].name
  }

  function Names(entries: seq<Member>): set<string> {
    set m | m in entries :: m.name
  }

  /** The names repeat exactly when there are fewer of them than of entries. */
  predicate Repeats(entries: seq<Member>) {
    if entries == [] then false
    else
      var n := |entries| - 1;
      Repeats(entries[..n]) || entries[n].name in Names(entries[..n])
  }

  function Content(entries: seq<Member>, name: string): Option<Bytes> {
    if entries == [] then None
    else if entries[0].name == name then entries[0].content
    else Content(entries[1..], name)
  }

  datatype Opened = Opened(digests: map<string, Json>, contents: map<string, Bytes>)

  predicate AllReadable(entries: seq<Member>) {
    forall m | m in entries :: m.content.Some?
  }

  function Contents(entries: seq<Member>): map<string, Bytes> {
    map n | n in Names(entries) && n != MANIFEST && Content(entries, n).Some? :: Content(entries, n).value
  }

  /** Every refusal that comes before a member is checked. */
  function Open(env: Env, archive: Archive): Result<Opened, CheckName> {
    if archive.Unreadable? then Err(Readable)
    else if Repeats(archive.entries) then Err(Duplicates)
    else if MANIFEST !in Names(archive.entries) then Err(Manifest)
    else
      var raw := Content(archive.entries, MANIFEST);
      if raw.None? || env.codec.parse(raw.value).None? then Err(Readable)
      else
        var manifest := env.codec.parse(raw.value).value;
        if !manifest.Obj? then Err(Manifest)
        else if "evidence" in manifest.fields && manifest.fields["evidence"] != Str(EVIDENCE) then Err(Manifest)
        else if "members" in manifest.fields && !manifest.fields["members"].Obj? then Err(Manifest)
        else if !AllReadable(archive.entries) then Err(Readable)
        else
          var digests := if "members" in manifest.fields then manifest.fields["members"].fields else map[];
          Ok(Opened(digests, Contents(archive.entries)))
  }

  // ---------- What a passing bundle is ----------

  ghost predicate MembersAgree(env: Env, o: Opened) {
    && o.digests.Keys == o.contents.Keys
    && forall n | n in o.digests :: Known(n) && o.digests[n] == Str(env.hash(o.contents[n]))
  }

  ghost predicate RunBound(env: Env, o: Opened, pack: Pack) {
    RUN in o.contents ==> env.codec.parse(o.contents[RUN]) == Some(pack.run)
  }

  ghost predicate PdfsBound(env: Env, o: Opened, pack: Pack) {
    && (forall n | n in PDFS && n in o.contents :: pack.pdfRef == Some(env.hash(o.contents[n])))
    && (pack.pdfRef.Some? ==> exists n :: n in PDFS && n in o.contents)
  }

  predicate StatementBound(env: Env, raw: Bytes, pack: Pack) {
    var statement := env.codec.parse(raw);
    statement.Some? && VerifyStatement(env.codec, statement.value, pack)
  }

  predicate EnvelopeBound(env: Env, raw: Bytes, pack: Pack) {
    var envelope := env.codec.parse(raw);
    envelope.Some? && VerifyEnvelope(env.codec, envelope.value, pack)
  }

  ghost predicate SidecarsBound(env: Env, o: Opened, pack: Pack) {
    && (forall n | n in STATEMENTS && n in o.contents :: StatementBound(env, o.contents[n], pack))
    && (DSSE in o.contents ==> EnvelopeBound(env, o.contents[DSSE], pack))
  }

  function FirstPdf(contents: map<string, Bytes>): Option<Bytes> {
    if PDFS[0] in contents then Some(contents[PDFS[0]])
    else if PDFS[1] in contents then Some(contents[PDFS[1]])
    else None
  }

  /** What verifying the pack alone finds, but for its word on the PDF. */
  predicate PackVerifies(env: Env, o: Opened, pack: Pack) {
    forall c | c in env.verifyPack(pack, FirstPdf(o.contents)) && c.name != "audit-pdf" :: c.ok
  }

  ghost predicate AllBound(env: Env, o: Opened, pack: Pack) {
    RunBound(env, o, pack) && PackVerifies(env, o, pack) && PdfsBound(env, o, pack) && SidecarsBound(env, o, pack)
  }

  ghost predicate PackBinds(env: Env, o: Opened) {
    && EVIDENCE in o.contents
    && env.stamped(o.contents[EVIDENCE])
    && env.readPack(o.contents[EVIDENCE]).Some?
    && AllBound(env, o, env.readPack(o.contents[EVIDENCE]).value)
  }

  ghost predicate Passes(env: Env, archive: Archive) {
    var outcome := Open(env, archive);
    outcome.Ok? && MembersAgree(env, outcome.value) && PackBinds(env, outcome.value)
  }

  // ---------- Verifying ----------

  /** One listed member: a name this tool writes, present, with the digest recorded for it. */
  predicate ListedOk(env: Env, o: Opened, n: string)
    requires n in o.digests
  {
    Known(n) && n in o.contents && o.digests[n] == Str(env.hash(o.contents[n]))
  }

  method ListedChecks(env: Env, o: Opened) returns (checks: seq<Check>)
    requires Sorts(env)
    ensures AllOk(checks) <==> forall n | n in o.digests :: ListedOk(env, o, n)
  {
    checks := [];
    var listed := env.sorted(o.digests.Keys);
    assert forall n :: n in listed <==> n in o.digests.Keys;
    for i := 0 to |listed|
      invariant AllOk(checks) <==> forall j | 0 <= j < i :: ListedOk(env, o, listed[j])
    {
      checks := checks + [Check(MemberDigest(listed[i]), ListedOk(env, o, listed[i]))];
    }
  }

  method UnlistedChecks(env: Env, o: Opened) returns (checks: seq<Check>)
    requires Sorts(env)
    ensures AllOk(checks) <==> o.contents.Keys <= o.digests.Keys
  {
    checks := [];
    var present := env.sorted(o.contents.Keys);
    assert forall n :: n in present <==> n in o.contents.Keys;
    for i := 0 to |present|
      invariant AllOk(checks) <==> forall j | 0 <= j < i :: present[j] in o.digests
    {
      if present[i] !in o.digests {
        checks := checks + [Check(MemberDigest(present[i]), false)];
        assert checks[|checks| - 1] in checks;
      }
    }
  }

  method MemberChecks(env: Env, o: Opened) returns (checks: seq<Check>)
    requires Sorts(env)
    ensures AllOk(checks) <==> MembersAgree(env, o)
  {
    var listed := ListedChecks(env, o);
    var unlisted := UnlistedChecks(env, o);
    checks := listed + unlisted;
  }

  method PdfChecks(env: Env, o: Opened, pack: Pack) returns (checks: seq<Check>)
    ensures AllOk(checks) <==> PdfsBound(env, o, pack)
  {
    checks := [];
    var present := false;
    for i := 0 to |PDFS|
      invariant present <==> exists j | 0 <= j < i :: PDFS[j] in o.contents
      invariant AllOk(checks) <==>
                  forall j | 0 <= j < i && PDFS[j] in o.contents :: pack.pdfRef == Some(env.hash(o.contents[PDFS[j]]))
    {
      if PDFS[i] in o.contents {
        present := true;
        checks := checks + [Check(AuditPdf(PDFS[i]), pack.pdfRef == Some(env.hash(o.contents[PDFS[i]])))];
      }
    }
    if pack.pdfRef.Some? && !present {
      checks := checks + [Check(PdfMissing, false)];
      assert checks[|checks| - 1] in checks;
    }
  }

  method SidecarChecks(env: Env, o: Opened, pack: Pack) returns (checks: seq<Check>)
    ensures AllOk(checks) <==> SidecarsBound(env, o, pack)
  {
    checks := [];
    for i := 0 to |STATEMENTS|
      invariant AllOk(checks) <==>
                  forall j | 0 <= j < i && STATEMENTS[j] in o.contents ::
                    StatementBound(env, o.contents[STATEMENTS[j]], pack)
    {
      if STATEMENTS[i] in o.contents {
        checks := checks + [Check(Attestation(STATEMENTS[i]), StatementBound(env, o.contents[STATEMENTS[i]], pack))];
      }
    }
    if DSSE in o.contents {
      checks := checks + [Check(DsseEnvelope, EnvelopeBound(env, o.contents[DSSE], pack))];
    }
  }

  method PackChecks(env: Env, o: Opened, pack: Pack) returns (checks: seq<Check>)
    ensures AllOk(checks) <==> PackVerifies(env, o, pack)
  {
    checks := [];
    var found := env.verifyPack(pack, FirstPdf(o.contents));
    for i := 0 to |found|
      invariant AllOk(checks) <==> forall j | 0 <= j < i && found[j].name != "audit-pdf" :: found[j].ok
    {
      if found[i].name != "audit-pdf" {
        checks := checks + [Check(OfPack(found[i].name), found[i].ok)];
      }
    }
  }

  method BindingChecks(env: Env, o: Opened, pack: Pack) returns (checks: seq<Check>)
    ensures AllOk(checks) <==> AllBound(env, o, pack)
  {
    checks := [];
    if RUN in o.contents {
      checks := [Check(BundledRun, env.codec.parse(o.contents[RUN]) == Some(pack.run))];
    }
    var ofPack := PackChecks(env, o, pack);
    var ofPdfs := PdfChecks(env, o, pack);
    var ofSidecars := SidecarChecks(env, o, pack);
    checks := checks + ofPack + ofPdfs + ofSidecars;
  }

  /** The verdict, in itemized checks: it passes exactly when the archive opens, its members
      are the manifest's and known and unaltered, and everything in it binds to its pack. */
  method VerifyBundle(env: Env, archive: Archive) returns (passed: bool, checks: seq<Check>)
    requires Sorts(env)
    ensures passed <==> AllOk(checks)
    ensures passed <==> Passes(env, archive)
  {
    var outcome := Open(env, archive);
    if outcome.Err? {
      checks := [Check(outcome.error, false)];
      return AllOk(checks), checks;
    }
    var o := outcome.value;
    checks := MemberChecks(env, o);
    if EVIDENCE !in o.contents {
      checks := checks + [Check(EvidencePack, false)];
      return false, checks;
    }
    var evidence := o.contents[EVIDENCE];
    if !env.stamped(evidence) {
      checks := checks + [Check(SchemaStamps, false)];
      return false, checks;
    }
    var read := env.readPack(evidence);
    if read.None? {
      checks := checks + [Check(EvidencePack, false)];
      return false, checks;
    }
    var bindings := BindingChecks(env, o, read.value);
    checks := checks + bindings;
    passed := AllOk(checks);
  }
}
