/** Building a bundle, and the round trip: what is built opens as what went in, passes every
    member check exactly if its names are ones this tool writes, and passes altogether when
    its members come from the pack and the pack verifies. */
module BundleBuild {
  import opened Bundle
  import opened BundleLaws
  import opened InToto
  import opened Merkle
  import opened Wrappers

  datatype BuildError = ValueError

  function Digests(env: Env, members: map<string, Bytes>): map<string, Json> {
    map n | n in members :: Str(env.hash(members[n]))
  }

  function ManifestJson(env: Env, members: map<string, Bytes>): Json {
    Obj(map["evidence" := Str(EVIDENCE), "members" := Obj(Digests(env, members))])
  }

  function Payload(env: Env, members: map<string, Bytes>): map<string, Bytes> {
    members[MANIFEST := env.render(ManifestJson(env, members))]
  }

  /** The entries, in the order of their names. */
  ghost predicate Holds(env: Env, entries: seq<Member>, members: map<string, Bytes>) {
    var names := env.sorted(Payload(env, members).Keys);
    && |entries| == |names|
    && forall i | 0 <= i < |names| :: (
         && names[i] in Payload(env, members)
         && entries[i] == Member(names[i], Some(Payload(env, members)[names[i]])))
  }

  method BuildBundle(env: Env, members: map<string, Bytes>) returns (r: Result<seq<Member>, BuildError>)
    requires Sorts(env)
    ensures r.Err? <==> EVIDENCE !in members || MANIFEST in members
    ensures r.Ok? ==> Holds(env, r.value, members)
  {
    if EVIDENCE !in members || MANIFEST in members {
      return Err(ValueError);
    }
    var payload := Payload(env, members);
    var names := env.sorted(payload.Keys);
    assert forall n :: n in names <==> n in payload.Keys;
    var entries: seq<Member> := [];
    for i := 0 to |names|
      invariant |entries| == i
      invariant forall j | 0 <= j < i :: names[j] in payload && entries[j] == Member(names[j], Some(payload[names[j]]))
    {
      assert names[i] in names;
      entries := entries + [Member(names[i], Some(payload[names[i]]))];
    }
    return Ok(entries);
  }

  /** What the pretty printer writes parses back. */
  ghost predicate Renders(env: Env) {
    forall j :: env.codec.parse(env.render(j)) == Some(j)
  }

  lemma BuiltEntries(env: Env, members: map<string, Bytes>, entries: seq<Member>)
    requires Sorts(env) && Holds(env, entries, members)
    ensures DistinctNames(entries) && AllReadable(entries) && Names(entries) == Payload(env, members).Keys
    ensures forall n | n in Payload(env, members) :: Content(entries, n) == Some(Payload(env, members)[n])
  {
    var payload := Payload(env, members);
    var names := env.sorted(payload.Keys);
    assert forall n :: n in names <==> n in payload.Keys;
    forall n | n in payload ensures n in Names(entries) && Content(entries, n) == Some(payload[n]) {
      var i :| 0 <= i < |names| && names[i] == n;
      assert entries[i] in entries;
      assert DistinctNames(entries);
      ContentOf(entries, entries[i]);
    }
  }

  lemma ManifestFields(env: Env, members: map<string, Bytes>)
    ensures
      var m := ManifestJson(env, members);
      && "evidence" in m.fields && m.fields["evidence"] == Str(EVIDENCE)
      && "members" in m.fields && m.fields["members"] == Obj(Digests(env, members))
  {
    assert |"evidence"| != |"members"|;
  }

  lemma BuiltContents(env: Env, members: map<string, Bytes>, entries: seq<Member>)
    requires Sorts(env) && Holds(env, entries, members) && MANIFEST !in members
    ensures Contents(entries) == members
  {
    BuiltEntries(env, members, entries);
    assert Contents(entries).Keys == members.Keys;
  }

  /** A built archive opens as the digests and the members it was built from. */
  lemma BuiltArchiveOpens(env: Env, members: map<string, Bytes>, entries: seq<Member>)
    requires Sorts(env) && Renders(env) && Holds(env, entries, members) && MANIFEST !in members
    ensures Open(env, Archive(entries)) == Ok(Opened(Digests(env, members), members))
  {
    BuiltEntries(env, members, entries);
    BuiltContents(env, members, entries);
    RepeatsIffNotDistinct(entries);
    ManifestFields(env, members);
    assert MANIFEST in Payload(env, members);
    assert env.codec.parse(env.render(ManifestJson(env, members))) == Some(ManifestJson(env, members));
  }

  /** Building accepts names that verifying refuses: the member checks pass exactly if every
      name is one this tool writes. */
  lemma BuiltMembersPassIffKnown(env: Env, members: map<string, Bytes>, entries: seq<Member>)
    requires Sorts(env) && Renders(env) && Holds(env, entries, members) && MANIFEST !in members
    ensures Open(env, Archive(entries)).Ok?
    ensures MembersAgree(env, Open(env, Archive(entries)).value) <==> forall n | n in members :: Known(n)
  {
    BuiltArchiveOpens(env, members, entries);
    var o := Opened(Digests(env, members), members);
    assert o.digests.Keys == o.contents.Keys;
    forall n | n in members ensures o.digests[n] == Str(env.hash(o.contents[n])) {
    }
  }

  /** Members drawn from one pack: its own run record, statement, envelope and PDF. */
  ghost predicate DrawnFrom(env: Env, members: map<string, Bytes>, pack: Pack) {
    && EVIDENCE in members && env.stamped(members[EVIDENCE]) && env.readPack(members[EVIDENCE]) == Some(pack)
    && (RUN in members ==> env.codec.parse(members[RUN]) == Some(pack.run))
    && (forall n | n in STATEMENTS && n in members :: members[n] == env.codec.dump(Statement(env.codec, pack)))
    && (DSSE in members ==> members[DSSE] == env.codec.dump(Envelope(env.codec, pack)))
    && (forall n | n in PDFS && n in members :: pack.pdfRef == Some(env.hash(members[n])))
    && (pack.pdfRef.Some? ==> exists n :: n in PDFS && n in members)
  }

  /** An honest bundle passes exactly when its pack does. */
  lemma HonestBundlePasses(env: Env, members: map<string, Bytes>, entries: seq<Member>, pack: Pack)
    requires Sorts(env) && Renders(env) && Faithful(env.codec)
    requires MANIFEST !in members && Holds(env, entries, members)
    requires DrawnFrom(env, members, pack) && forall n | n in members :: Known(n)
    ensures Passes(env, Archive(entries))
       <==> PackVerifies(env, Opened(Digests(env, members), members), pack)
  {
    BuiltArchiveOpens(env, members, entries);
    BuiltMembersPassIffKnown(env, members, entries);
    StatementRoundTrip(env.codec, pack);
    var o := Opened(Digests(env, members), members);
    assert SidecarsBound(env, o, pack);
    assert RunBound(env, o, pack) && PdfsBound(env, o, pack);
  }
}
