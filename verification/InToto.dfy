/** The in-toto statement derived from an evidence pack, the DSSE envelope that carries it,
    and what checking either one against a pack establishes. JSON text, base64 and hashing
    are parameters. */
module InToto {
  import opened Merkle
  import opened Utf8
  import opened Wrappers

  /** A finite float, by its 64 bits: what its shortest numeral reads back as. */
  type Double = bits: bv64 | bits & 0x7FF0_0000_0000_0000 != 0x7FF0_0000_0000_0000

  /** A number is an integer or a float, as the text that writes it tells them apart. */
  datatype Json =
    | Null | Bool(truth: bool) | Int(n: int) | Float(bits: Double) | Str(text: string)
    | Arr(items: seq<Json>) | Obj(fields: map<string, Json>)

  datatype Codec = Codec(
    parse: Bytes -> Option<Json>,
    dump: Json -> Bytes,
    encode64: Bytes -> string,
    decode64: string -> Option<Bytes>,
    blank: string -> bool)

  /** Text reads back as what it was written from. */
  ghost predicate Faithful(codec: Codec) {
    && (forall j :: codec.parse(codec.dump(j)) == Some(j))
    && (forall b :: codec.decode64(codec.encode64(b)) == Some(b))
  }

  /** The fields of a pack the statement draws on. `run` is the run record as JSON and
      `runDigest` the digest of its canonical form. */
  datatype Pack = Pack(
    run: Json, runId: string, runDigest: string, schemaVersion: string, scenarioHash: string,
    manifestHash: string, startedAt: string, finishedAt: string, metrics: Json, findingCount: nat,
    controlMappings: seq<Json>, tsaToken: Option<string>, rekorProof: Option<string>, pdfRef: Option<string>)

  const STATEMENT_TYPE := "https://in-toto.io/Statement/v1"
  const PREDICATE_TYPE := "https://sectum.ai/attestation/multi-tenant-verification/v1"
  const PAYLOAD_TYPE := "application/vnd.in-toto+json"

  predicate Claimed(codec: Codec, text: Option<string>) {
    text.Some? && text.value != "" && !codec.blank(text.value)
  }

  /** A claimed token that is not JSON: an outside authority's, by its shape alone. */
  predicate ExternalAnchor(codec: Codec, token: Option<string>) {
    Claimed(codec, token) && codec.parse(Encode(token.value)).None?
  }

  function Anchors(codec: Codec, pack: Pack): Json {
    Obj(map["timestamp" := Bool(ExternalAnchor(codec, pack.tsaToken)),
            "transparency_log" := Bool(Claimed(codec, pack.rekorProof))])
  }

  function Predicate(codec: Codec, pack: Pack): Json {
    Obj(map[
      "schema_version" := Str(pack.schemaVersion),
      "scenario_hash" := Str(pack.scenarioHash),
      "manifest_hash" := Str(pack.manifestHash),
      "started_at" := Str(pack.startedAt),
      "finished_at" := Str(pack.finishedAt),
      "metrics" := pack.metrics,
      "finding_count" := Int(pack.findingCount),
      "control_mappings" := Arr(pack.controlMappings),
      "anchors" := Anchors(codec, pack)])
  }

  function Subject(pack: Pack): Json {
    Obj(map["name" := Str(pack.runId), "digest" := Obj(map["sha256" := Str(pack.runDigest)])])
  }

  function Statement(codec: Codec, pack: Pack): Json {
    Obj(map["_type" := Str(STATEMENT_TYPE), "subject" := Arr([Subject(pack)]),
            "predicateType" := Str(PREDICATE_TYPE), "predicate" := Predicate(codec, pack)])
  }

  /** `get` on a JSON object; an absent key reads as null, as in the comparisons below. */
  function Get(j: Json, key: string): Json {
    if j.Obj? && key in j.fields then j.fields[key] else Null
  }

  predicate SubjectBinds(subject: Json, pack: Pack) {
    && subject.Obj? && Get(subject, "digest").Obj?
    && Get(Get(subject, "digest"), "sha256") == Str(pack.runDigest)
    && Get(subject, "name") == Str(pack.runId)
  }

  /** Whether a statement verifies against a pack. Everything but an object is an error. */
  predicate VerifyStatement(codec: Codec, statement: Json, pack: Pack) {
    && statement.Obj?
    && Get(statement, "_type") == Str(STATEMENT_TYPE)
    && Get(statement, "predicateType") == Str(PREDICATE_TYPE)
    && Get(statement, "subject").Arr?
    && |Get(statement, "subject").items| == 1
    && SubjectBinds(Get(statement, "subject").items[0], pack)
    && codec.dump(Get(statement, "predicate")) == codec.dump(Predicate(codec, pack))
  }

  function Envelope(codec: Codec, pack: Pack): Json {
    Obj(map["payloadType" := Str(PAYLOAD_TYPE),
            "payload" := Str(codec.encode64(codec.dump(Statement(codec, pack)))), "signatures" := Arr([])])
  }

  function EnvelopeStatement(codec: Codec, envelope: Json): Option<Json> {
    if !envelope.Obj? || Get(envelope, "payloadType") != Str(PAYLOAD_TYPE) || !Get(envelope, "payload").Str? then None
    else
      var decoded := codec.decode64(Get(envelope, "payload").text);
      if decoded.None? then None
      else
        var statement := codec.parse(decoded.value);
        if statement.None? || !statement.value.Obj? then None else statement
  }

  predicate VerifyEnvelope(codec: Codec, envelope: Json, pack: Pack) {
    var statement := EnvelopeStatement(codec, envelope);
    statement.Some? && VerifyStatement(codec, statement.value, pack)
  }

  // ---------- Laws ----------

  lemma KeysDiffer()
    ensures "name" != "digest"
    ensures "_type" != "subject" && "_type" != "predicateType" && "_type" != "predicate"
    ensures "subject" != "predicateType" && "subject" != "predicate" && "predicateType" != "predicate"
    ensures "payloadType" != "payload" && "payloadType" != "signatures" && "payload" != "signatures"
  {
  }

  lemma StatementFields(codec: Codec, pack: Pack)
    ensures
      var s := Statement(codec, pack);
      && Get(s, "_type") == Str(STATEMENT_TYPE) && Get(s, "predicateType") == Str(PREDICATE_TYPE)
      && Get(s, "subject") == Arr([Subject(pack)]) && Get(s, "predicate") == Predicate(codec, pack)
    ensures SubjectBinds(Subject(pack), pack)
  {
    KeysDiffer();
  }

  /** The statement a pack yields verifies against it, and the envelope that carries it gives
      back exactly that statement. */
  lemma StatementRoundTrip(codec: Codec, pack: Pack)
    requires Faithful(codec)
    ensures VerifyStatement(codec, Statement(codec, pack), pack)
    ensures EnvelopeStatement(codec, Envelope(codec, pack)) == Some(Statement(codec, pack))
    ensures VerifyEnvelope(codec, Envelope(codec, pack), pack)
  {
    StatementFields(codec, pack);
    KeysDiffer();
  }

  /** A statement speaks for one result: two packs it verifies against share the run's name
      and digest and the whole predicate. */
  lemma StatementBindsOneResult(codec: Codec, statement: Json, p: Pack, q: Pack)
    requires Faithful(codec)
    requires VerifyStatement(codec, statement, p) && VerifyStatement(codec, statement, q)
    ensures p.runId == q.runId && p.runDigest == q.runDigest && Predicate(codec, p) == Predicate(codec, q)
  {
    assert codec.parse(codec.dump(Predicate(codec, p))) == codec.parse(codec.dump(Predicate(codec, q)));
  }

  lemma PredicateTexts(codec: Codec, pack: Pack)
    ensures
      var p := Predicate(codec, pack);
      && Get(p, "schema_version") == Str(pack.schemaVersion) && Get(p, "started_at") == Str(pack.startedAt)
      && Get(p, "finished_at") == Str(pack.finishedAt)
      && Get(p, "control_mappings") == Arr(pack.controlMappings)
  {
  }

  lemma PredicateHashes(codec: Codec, pack: Pack)
    ensures
      var p := Predicate(codec, pack);
      && Get(p, "scenario_hash") == Str(pack.scenarioHash) && Get(p, "manifest_hash") == Str(pack.manifestHash)
      && Get(p, "finding_count") == Int(pack.findingCount)
  {
    assert "scenario_hash"[0] != "manifest_hash"[0] && "scenario_hash"[0] != "finding_count"[0];
    assert "manifest_hash"[0] != "finding_count"[0];
  }

  lemma PredicateResults(codec: Codec, pack: Pack)
    ensures
      var p := Predicate(codec, pack);
      Get(p, "metrics") == pack.metrics && Get(p, "anchors") == Anchors(codec, pack)
  {
    assert "metrics"[0] != "anchors"[0];
  }

  lemma AnchorFields(codec: Codec, pack: Pack)
    ensures Get(Anchors(codec, pack), "timestamp") == Bool(ExternalAnchor(codec, pack.tsaToken))
    ensures Get(Anchors(codec, pack), "transparency_log") == Bool(Claimed(codec, pack.rekorProof))
  {
  }

  /** And the predicate hides nothing: packs with one predicate agree on every field a policy
      reads from it, and on which anchors they claim. */
  lemma PredicateTellsAll(codec: Codec, p: Pack, q: Pack)
    requires Predicate(codec, p) == Predicate(codec, q)
    ensures p.findingCount == q.findingCount && p.metrics == q.metrics && p.controlMappings == q.controlMappings
    ensures p.schemaVersion == q.schemaVersion && p.scenarioHash == q.scenarioHash && p.manifestHash == q.manifestHash
    ensures p.startedAt == q.startedAt && p.finishedAt == q.finishedAt
    ensures ExternalAnchor(codec, p.tsaToken) == ExternalAnchor(codec, q.tsaToken)
    ensures Claimed(codec, p.rekorProof) == Claimed(codec, q.rekorProof)
  {
    PredicateTexts(codec, p);
    PredicateTexts(codec, q);
    PredicateHashes(codec, p);
    PredicateHashes(codec, q);
    PredicateResults(codec, p);
    PredicateResults(codec, q);
    AnchorFields(codec, p);
    AnchorFields(codec, q);
  }

  /** The field of a JSON object, if it is one and has it. */
  predicate Has(j: Json, key: string, value: Json) {
    j.Obj? && key in j.fields && j.fields[key] == value
  }

  /** What the predicate says of a pack, key by key; the two anchors are claimed by a token or a
      proof that is neither empty nor blank, and a timestamp only by one that is not JSON. */
  predicate SaysOf(codec: Codec, j: Json, pack: Pack) {
    && Has(j, "schema_version", Str(pack.schemaVersion)) && Has(j, "scenario_hash", Str(pack.scenarioHash))
    && Has(j, "manifest_hash", Str(pack.manifestHash)) && Has(j, "started_at", Str(pack.startedAt))
    && Has(j, "finished_at", Str(pack.finishedAt)) && Has(j, "metrics", pack.metrics)
    && Has(j, "finding_count", Int(pack.findingCount)) && Has(j, "control_mappings", Arr(pack.controlMappings))
    && j.Obj? && "anchors" in j.fields
    && Has(j.fields["anchors"], "timestamp",
           Bool(pack.tsaToken.Some? && pack.tsaToken.value != "" && !codec.blank(pack.tsaToken.value)
                && codec.parse(Encode(pack.tsaToken.value)) == None))
    && Has(j.fields["anchors"], "transparency_log",
           Bool(pack.rekorProof.Some? && pack.rekorProof.value != "" && !codec.blank(pack.rekorProof.value)))
  }

  lemma PredicateSays(codec: Codec, pack: Pack)
    ensures SaysOf(codec, Predicate(codec, pack), pack)
  {
    PredicateTexts(codec, pack);
    PredicateHashes(codec, pack);
    PredicateResults(codec, pack);
    AnchorFields(codec, pack);
  }

  /** The one subject of a statement: the run by name, and by the digest of its record. */
  predicate NamesRun(subject: Json, pack: Pack) {
    && Has(subject, "name", Str(pack.runId))
    && subject.Obj? && "digest" in subject.fields
    && Has(subject.fields["digest"], "sha256", Str(pack.runDigest))
  }

  /** What an accepted statement is, field by field: of the two published types, about this run
      and no other subject, and saying exactly what the pack says. */
  lemma AcceptedStatement(codec: Codec, statement: Json, pack: Pack)
    requires Faithful(codec) && VerifyStatement(codec, statement, pack)
    ensures Has(statement, "_type", Str("https://in-toto.io/Statement/v1"))
    ensures Has(statement, "predicateType", Str("https://sectum.ai/attestation/multi-tenant-verification/v1"))
    ensures
      && statement.Obj? && "subject" in statement.fields && "predicate" in statement.fields
      && statement.fields["subject"].Arr? && |statement.fields["subject"].items| == 1
      && NamesRun(statement.fields["subject"].items[0], pack)
      && SaysOf(codec, statement.fields["predicate"], pack)
  {
    var said := Get(statement, "predicate");
    assert codec.parse(codec.dump(said)) == codec.parse(codec.dump(Predicate(codec, pack)));
    assert said == Predicate(codec, pack);
    PredicateSays(codec, pack);
  }

  /** What an accepted envelope is: of the published payload type, carrying as base64 the text
      of a statement that is accepted. */
  lemma AcceptedEnvelope(codec: Codec, envelope: Json, pack: Pack)
    requires VerifyEnvelope(codec, envelope, pack)
    ensures Has(envelope, "payloadType", Str("application/vnd.in-toto+json"))
    ensures
      && envelope.Obj? && "payload" in envelope.fields && envelope.fields["payload"].Str?
      && var bytes := codec.decode64(envelope.fields["payload"].text);
         && bytes.Some? && codec.parse(bytes.value).Some?
         && VerifyStatement(codec, codec.parse(bytes.value).value, pack)
  {
  }

  /** The statement that is built, key by key and with no key besides. */
  lemma BuiltStatement(codec: Codec, pack: Pack)
    ensures
      var s := Statement(codec, pack);
      && s.fields.Keys == {"_type", "subject", "predicateType", "predicate"}
      && Has(s, "_type", Str("https://in-toto.io/Statement/v1"))
      && Has(s, "predicateType", Str("https://sectum.ai/attestation/multi-tenant-verification/v1"))
      && s.fields["subject"].Arr? && |s.fields["subject"].items| == 1
      && NamesRun(s.fields["subject"].items[0], pack)
      && SaysOf(codec, s.fields["predicate"], pack)
  {
    KeysDiffer();
    StatementFields(codec, pack);
    PredicateSays(codec, pack);
  }

  /** The envelope around it: unsigned, with the statement's text as base64. */
  lemma BuiltEnvelope(codec: Codec, pack: Pack)
    ensures
      var e := Envelope(codec, pack);
      && e.fields.Keys == {"payloadType", "payload", "signatures"}
      && Has(e, "payloadType", Str("application/vnd.in-toto+json")) && Has(e, "signatures", Arr([]))
      && Has(e, "payload", Str(codec.encode64(codec.dump(Statement(codec, pack)))))
  {
    KeysDiffer();
  }

  /** What an envelope carries: an object, written as JSON and then base64 under the published
      payload type; and anything else carries nothing. */
  lemma EnvelopeCarries(codec: Codec, envelope: Json, statement: Json)
    ensures EnvelopeStatement(codec, envelope) == Some(statement) <==>
              && Has(envelope, "payloadType", Str("application/vnd.in-toto+json"))
              && envelope.Obj? && "payload" in envelope.fields && envelope.fields["payload"].Str?
              && codec.decode64(envelope.fields["payload"].text).Some?
              && codec.parse(codec.decode64(envelope.fields["payload"].text).value) == Some(statement)
              && statement.Obj?
  {
  }
}
