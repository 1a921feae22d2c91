/** What the finding-level diff promises: a partition, an order, and exactly when its two
    gates stay quiet - for any two sequences of findings, repeated ids included. */
module FindingDiffLaws {
  import opened FindingDiffs
  import opened Records

  ghost predicate DistinctIds(findings: seq<Finding>) {
    forall i, j | 0 <= i < j < |findings| :: findings[i].findingId != findings[j].findingId
  }

  ghost predicate Subsequence(a: seq<Finding>, b: seq<Finding>) {
    || a == []
    || (b != [] && (
          || (a[|a| - 1] == b[|b| - 1] && Subsequence(a[..|a| - 1], b[..|b| - 1]))
          || Subsequence(a, b[..|b| - 1])))
  }

  // ---------- Buckets ----------

  lemma {:induction false} SelectIds(findings: seq<Finding>, keep: string -> bool, id: string)
    ensures id in Ids(Select(findings, keep)) <==> id in Ids(findings) && keep(id)
  {
    if findings != [] {
      var n := |findings| - 1;
      SelectIds(findings[..n], keep, id);
      assert findings == findings[..n] + [findings[n]];
      IdsSnoc(findings[..n], findings[n]);
      IdsSnoc(Select(findings[..n], keep), findings[n]);
    }
  }

  lemma SubsequenceSnoc(a: seq<Finding>, b: seq<Finding>, f: Finding)
    requires Subsequence(a, b)
    ensures Subsequence(a, b + [f]) && Subsequence(a + [f], b + [f])
  {
    assert (b + [f])[..|b|] == b && (a + [f])[..|a|] == a;
  }

  lemma {:induction false} SelectKeepsOrder(findings: seq<Finding>, keep: string -> bool)
    ensures Subsequence(Select(findings, keep), findings)
  {
    if findings != [] {
      var n := |findings| - 1;
      SelectKeepsOrder(findings[..n], keep);
      SubsequenceSnoc(Select(findings[..n], keep), findings[..n], findings[n]);
      assert findings == findings[..n] + [findings[n]];
    }
  }

  lemma {:induction false} SelectOnce(findings: seq<Finding>, keep: string -> bool)
    ensures DistinctIds(Select(findings, keep))
  {
    if findings != [] {
      var n, before := |findings| - 1, Select(findings[..|findings| - 1], keep);
      SelectOnce(findings[..n], keep);
      SelectIds(findings[..n], keep, findings[n].findingId);
      assert forall i | 0 <= i < |before| :: before[i].findingId in Ids(before);
    }
  }

  lemma SelectIdSet(findings: seq<Finding>, keep: string -> bool)
    ensures Ids(Select(findings, keep)) == set id | id in Ids(findings) && keep(id)
  {
    forall id ensures id in Ids(Select(findings, keep)) <==> id in Ids(findings) && keep(id) {
      SelectIds(findings, keep, id);
    }
  }

  lemma {:induction false} SelectFirsts(findings: seq<Finding>, keep: string -> bool, f: Finding)
    requires f in Select(findings, keep)
    ensures f.findingId in Ids(findings) && f == First(findings, f.findingId)
  {
    var n := |findings| - 1;
    assert findings == findings[..n] + [findings[n]];
    assert f.findingId in Ids(Select(findings, keep));
    SelectIds(findings, keep, f.findingId);
    SelectIds(findings[..n], keep, f.findingId);
    FirstSnoc(findings[..n], findings[n], f.findingId);
    if f in Select(findings[..n], keep) {
      SelectFirsts(findings[..n], keep, f);
    }
  }

  lemma {:induction false} ConfirmedOnlyLaws(findings: seq<Finding>, f: Finding)
    ensures f in ConfirmedOnly(findings) <==> f in findings && f.status.Confirmed?
  {
    if findings != [] {
      var n := |findings| - 1;
      ConfirmedOnlyLaws(findings[..n], f);
      assert findings == findings[..n] + [findings[n]];
    }
  }

  /** Whatever repeats: by id, what appeared and what persists split the later run, what was
      resolved and what persists split the earlier one. */
  lemma BucketsPartition(earlier: seq<Finding>, later: seq<Finding>)
    ensures
      var d := Diff(earlier, later);
      && Ids(d.appeared) + Ids(d.persisting) == Ids(later) && Ids(d.appeared) !! Ids(d.persisting)
      && Ids(d.resolved) + Ids(d.persisting) == Ids(earlier) && Ids(d.resolved) !! Ids(d.persisting)
  {
    SelectIdSet(later, Outside(Ids(earlier)));
    SelectIdSet(earlier, Outside(Ids(later)));
    SelectIdSet(later, Inside(Ids(earlier)));
  }

  /** A bucket lists an id once, in its run's order, and in its first copy there. */
  ghost predicate InOrder(bucket: seq<Finding>, source: seq<Finding>) {
    && DistinctIds(bucket)
    && Subsequence(bucket, source)
    && forall f | f in bucket :: f.findingId in Ids(source) && f == First(source, f.findingId)
  }

  lemma SelectInOrder(findings: seq<Finding>, keep: string -> bool)
    ensures InOrder(Select(findings, keep), findings)
  {
    SelectKeepsOrder(findings, keep);
    SelectOnce(findings, keep);
    forall f | f in Select(findings, keep) ensures f.findingId in Ids(findings) && f == First(findings, f.findingId) {
      SelectFirsts(findings, keep, f);
    }
  }

  lemma BucketsInOrder(earlier: seq<Finding>, later: seq<Finding>)
    ensures
      var d := Diff(earlier, later);
      && InOrder(d.appeared, later) && InOrder(d.persisting, later) && InOrder(d.resolved, earlier)
      && InOrder(d.newlyConfirmed, ConfirmedOnly(later))
  {
    SelectInOrder(later, Outside(Ids(earlier)));
    SelectInOrder(earlier, Outside(Ids(later)));
    SelectInOrder(later, Inside(Ids(earlier)));
    SelectInOrder(ConfirmedOnly(later), Outside(Ids(ConfirmedOnly(earlier))));
  }

  // ---------- Gates ----------

  ghost predicate ConfirmedId(findings: seq<Finding>, id: string) {
    exists f | f in findings :: f.findingId == id && f.status.Confirmed?
  }

  lemma ConfirmedIds(findings: seq<Finding>, id: string)
    ensures id in Ids(ConfirmedOnly(findings)) <==> ConfirmedId(findings, id)
  {
    forall f {
      ConfirmedOnlyLaws(findings, f);
    }
  }

  lemma NewlyConfirmedIds(earlier: seq<Finding>, later: seq<Finding>, id: string)
    ensures id in Ids(Diff(earlier, later).newlyConfirmed) <==> ConfirmedId(later, id) && !ConfirmedId(earlier, id)
  {
    SelectIds(ConfirmedOnly(later), Outside(Ids(ConfirmedOnly(earlier))), id);
    ConfirmedIds(earlier, id);
    ConfirmedIds(later, id);
  }

  lemma {:induction false} ChangedLaws(earlier: seq<Finding>, later: seq<Finding>, c: Change)
    ensures c in Changed(earlier, later) <==>
              && c.current.findingId in Ids(earlier) && c.current.findingId in Ids(later)
              && c.previous == First(earlier, c.current.findingId)
              && c.current == First(later, c.current.findingId)
              && (c.previous.status != c.current.status || c.previous.severity != c.current.severity)
  {
    if later != [] {
      var n, f, id := |later| - 1, later[|later| - 1], c.current.findingId;
      assert later == later[..n] + [f];
      ChangedLaws(earlier, later[..n], c);
      IdsSnoc(later[..n], f);
      if id in Ids(later) {
        FirstSnoc(later[..n], f, id);
      }
    }
  }

  lemma {:induction false} EscalationLaws(changed: seq<Change>, c: Change)
    ensures c in Escalations(changed) <==> c in changed && Escalated(c)
  {
    if changed != [] {
      EscalationLaws(changed[1..], c);
      assert changed == [changed[0]] + changed[1..];
    }
  }

  lemma {:induction false} FirstIsOne(findings: seq<Finding>, id: string)
    requires id in Ids(findings)
    ensures First(findings, id) in findings && First(findings, id).findingId == id
  {
    if findings[0].findingId != id {
      assert findings == [findings[0]] + findings[1..];
      FirstIsOne(findings[1..], id);
    }
  }

  /** Both copies the diff compares are confirmed, and the later one is worse. */
  ghost predicate FirstsEscalate(earlier: seq<Finding>, later: seq<Finding>, id: string) {
    id in Ids(earlier) && id in Ids(later) && Escalated(Change(First(earlier, id), First(later, id)))
  }

  lemma EscalationIds(earlier: seq<Finding>, later: seq<Finding>, c: Change)
    ensures c in Escalations(Changed(earlier, later)) <==>
              && FirstsEscalate(earlier, later, c.current.findingId)
              && c == Change(First(earlier, c.current.findingId), First(later, c.current.findingId))
  {
    EscalationLaws(Changed(earlier, later), c);
    ChangedLaws(earlier, later, c);
  }

  /** Exactly when both finding gates stay quiet, for any two sequences: every id confirmed
      later was confirmed earlier, and no id's first copies escalate. */
  lemma QuietIff(earlier: seq<Finding>, later: seq<Finding>)
    ensures Quiet(earlier, later) <==>
              && (forall id | ConfirmedId(later, id) :: ConfirmedId(earlier, id))
              && (forall id :: !FirstsEscalate(earlier, later, id))
  {
    var d := Diff(earlier, later);
    forall id {
      NewlyConfirmedIds(earlier, later, id);
    }
    if d.newlyConfirmed != [] {
      assert d.newlyConfirmed[0].findingId in Ids(d.newlyConfirmed);
    }
    if Escalations(d.changed) != [] {
      EscalationIds(earlier, later, Escalations(d.changed)[0]);
    }
    forall id | FirstsEscalate(earlier, later, id) ensures Escalations(d.changed) != [] {
      FirstIsOne(later, id);
      EscalationIds(earlier, later, Change(First(earlier, id), First(later, id)));
    }
  }

  /** The two gates never name the same finding, whatever repeats. */
  lemma GatesAreDisjoint(earlier: seq<Finding>, later: seq<Finding>, f: Finding, c: Change)
    requires f in Diff(earlier, later).newlyConfirmed && c in Escalations(Diff(earlier, later).changed)
    ensures f.findingId != c.current.findingId && f != c.current
  {
    EscalationIds(earlier, later, c);
    FirstIsOne(earlier, c.current.findingId);
    assert ConfirmedId(earlier, c.current.findingId);
    assert f.findingId in Ids(Diff(earlier, later).newlyConfirmed);
    NewlyConfirmedIds(earlier, later, f.findingId);
  }

  /** No run gates against itself. */
  lemma QuietOnItself(findings: seq<Finding>)
    ensures Quiet(findings, findings)
  {
    QuietIff(findings, findings);
  }

  // ---------- Distinct ids ----------

  lemma FirstIsTheOne(findings: seq<Finding>, f: Finding)
    requires DistinctIds(findings) && f in findings
    ensures f.findingId in Ids(findings) && First(findings, f.findingId) == f
  {
    FirstIsOne(findings, f.findingId);
    var g := First(findings, f.findingId);
    var i :| 0 <= i < |findings| && findings[i] == f;
    var j :| 0 <= j < |findings| && findings[j] == g;
    assert i == j;
  }

  /** The later finding was already known: an earlier confirmed one has its id and is no less
      severe. */
  ghost predicate Known(earlier: seq<Finding>, f: Finding) {
    exists e | e in earlier ::
      e.findingId == f.findingId && e.status.Confirmed? && e.severity.Rank() >= f.severity.Rank()
  }

  /** With distinct ids, the gates stay quiet if and only if every later confirmed finding was
      already known. */
  lemma QuietIffKnown(earlier: seq<Finding>, later: seq<Finding>)
    requires DistinctIds(earlier) && DistinctIds(later)
    ensures Quiet(earlier, later) <==> forall f | f in later && f.status.Confirmed? :: Known(earlier, f)
  {
    QuietIff(earlier, later);
    if Quiet(earlier, later) {
      forall f | f in later && f.status.Confirmed? ensures Known(earlier, f) {
        assert ConfirmedId(later, f.findingId);
        var e :| e in earlier && e.findingId == f.findingId && e.status.Confirmed?;
        FirstIsTheOne(earlier, e);
        FirstIsTheOne(later, f);
        assert !FirstsEscalate(earlier, later, f.findingId);
      }
    }
    if forall f | f in later && f.status.Confirmed? :: Known(earlier, f) {
      forall id | ConfirmedId(later, id) ensures ConfirmedId(earlier, id) {
        var f :| f in later && f.findingId == id && f.status.Confirmed?;
        assert Known(earlier, f);
      }
      forall id ensures !FirstsEscalate(earlier, later, id) {
        if FirstsEscalate(earlier, later, id) {
          FirstIsOne(later, id);
          var f := First(later, id);
          var e :| e in earlier && e.findingId == id && e.status.Confirmed? && e.severity.Rank() >= f.severity.Rank();
          FirstIsTheOne(earlier, e);
          assert false;
        }
      }
    }
  }

  // ---------- Chaining quiet diffs ----------

  /** Every id with a confirmed finding has a confirmed first copy - the copy a diff compares. */
  ghost predicate FirstCopiesConfirmed(findings: seq<Finding>) {
    forall id | ConfirmedId(findings, id) :: id in Ids(findings) && First(findings, id).status.Confirmed?
  }

  ghost predicate Chains(b: seq<Finding>) {
    forall a, c | Quiet(a, b) && Quiet(b, c) :: Quiet(a, c)
  }

  /** An escalation over two steps is one over the first or over the second, where the middle
      copy is confirmed. */
  lemma ChainedFirsts(a: seq<Finding>, b: seq<Finding>, c: seq<Finding>, id: string)
    requires FirstsEscalate(a, c, id) && id in Ids(b) && First(b, id).status.Confirmed?
    ensures FirstsEscalate(a, b, id) || FirstsEscalate(b, c, id)
  {
  }

  lemma QuietChains(a: seq<Finding>, b: seq<Finding>, c: seq<Finding>)
    requires FirstCopiesConfirmed(b) && Quiet(a, b) && Quiet(b, c)
    ensures Quiet(a, c)
  {
    QuietIff(a, b);
    QuietIff(b, c);
    QuietIff(a, c);
    forall id ensures !FirstsEscalate(a, c, id) {
      if id in Ids(c) && First(c, id).status.Confirmed? {
        FirstIsOne(c, id);
        assert ConfirmedId(c, id);
        if FirstsEscalate(a, c, id) {
          ChainedFirsts(a, b, c, id);
        }
      }
    }
  }

  lemma FirstOfCons(f: Finding, findings: seq<Finding>, id: string)
    ensures id in Ids([f] + findings) <==> id == f.findingId || id in Ids(findings)
    ensures id in Ids([f] + findings) ==>
              First([f] + findings, id) == if id == f.findingId then f else First(findings, id)
    ensures ConfirmedId([f] + findings, id)
       <==> (id == f.findingId && f.status.Confirmed?) || ConfirmedId(findings, id)
  {
    var all := [f] + findings;
    assert all[1..] == findings;
    assert f in all;
    forall g | g in findings ensures g in all {
    }
  }

  lemma SingleConfirmed(f: Finding, id: string)
    ensures id in Ids([f]) <==> id == f.findingId
    ensures id in Ids([f]) ==> First([f], id) == f
    ensures ConfirmedId([f], id) <==> id == f.findingId && f.status.Confirmed?
  {
    assert f in [f];
  }

  lemma QuietUnderEarlierCopy(low: Finding, b: seq<Finding>)
    requires low.findingId in Ids(b) && First(b, low.findingId).status.Unverified?
    ensures Quiet([low] + b, b)
  {
    QuietIff([low] + b, b);
    forall id | ConfirmedId(b, id) ensures ConfirmedId([low] + b, id) {
      FirstOfCons(low, b, id);
    }
    forall id ensures !FirstsEscalate([low] + b, b, id) {
      FirstOfCons(low, b, id);
    }
  }

  lemma QuietBehindUnverifiedCopy(b: seq<Finding>, high: Finding)
    requires ConfirmedId(b, high.findingId)
    requires high.findingId in Ids(b) && First(b, high.findingId).status.Unverified?
    ensures Quiet(b, [high])
  {
    QuietIff(b, [high]);
    forall id ensures ConfirmedId([high], id) ==> ConfirmedId(b, id)
              ensures !FirstsEscalate(b, [high], id)
    {
      SingleConfirmed(high, id);
    }
  }

  /** Where some first copy is unverified, a chain breaks: put a harmless confirmed copy of the
      id in front, and follow with a critical one. */
  lemma UnverifiedFirstCopyBreaks(b: seq<Finding>, f: Finding)
    requires f in b && f.status.Confirmed? && f.findingId in Ids(b) && First(b, f.findingId).status.Unverified?
    ensures
      var low, high := f.(severity := Info), f.(severity := Critical);
      Quiet([low] + b, b) && Quiet(b, [high]) && !Quiet([low] + b, [high])
  {
    var low, high, id := f.(severity := Info), f.(severity := Critical), f.findingId;
    QuietUnderEarlierCopy(low, b);
    assert ConfirmedId(b, id);
    QuietBehindUnverifiedCopy(b, high);
    QuietIff([low] + b, [high]);
    FirstOfCons(low, b, id);
    SingleConfirmed(high, id);
    assert FirstsEscalate([low] + b, [high], id);
  }

  lemma NoChain(a: seq<Finding>, b: seq<Finding>, c: seq<Finding>)
    requires Quiet(a, b) && Quiet(b, c) && !Quiet(a, c)
    ensures !Chains(b)
  {
  }

  lemma NoChainOtherwise(b: seq<Finding>)
    requires !FirstCopiesConfirmed(b)
    ensures !Chains(b)
  {
    var id :| ConfirmedId(b, id) && !(id in Ids(b) && First(b, id).status.Confirmed?);
    var f :| f in b && f.findingId == id && f.status.Confirmed?;
    UnverifiedFirstCopyBreaks(b, f);
    NoChain([f.(severity := Info)] + b, b, [f.(severity := Critical)]);
  }

  /** Exactly which middle records let quiet diffs chain, whatever comes before and after: those
      whose confirmed ids all have a confirmed first copy. */
  lemma QuietChainsIff(b: seq<Finding>)
    ensures Chains(b) <==> FirstCopiesConfirmed(b)
  {
    if FirstCopiesConfirmed(b) {
      forall a, c | Quiet(a, b) && Quiet(b, c) ensures Quiet(a, c) {
        QuietChains(a, b, c);
      }
    } else {
      NoChainOtherwise(b);
    }
  }

  /** Distinct ids are enough, and only of the middle record: a run quiet against its
      predecessor, which was quiet against the baseline, is quiet against the baseline. */
  lemma QuietIsTransitive(a: seq<Finding>, b: seq<Finding>, c: seq<Finding>)
    requires DistinctIds(b) && Quiet(a, b) && Quiet(b, c)
    ensures Quiet(a, c)
  {
    forall id | ConfirmedId(b, id) ensures id in Ids(b) && First(b, id).status.Confirmed? {
      var f :| f in b && f.findingId == id && f.status.Confirmed?;
      FirstIsTheOne(b, f);
    }
    QuietChains(a, b, c);
  }

  /** The gates, where every finding bears the one id. */
  lemma OneId(earlier: seq<Finding>, later: seq<Finding>)
    requires earlier != [] && later != [] && ConfirmedId(earlier, later[0].findingId)
    requires forall f | f in earlier || f in later :: f.findingId == later[0].findingId
    ensures Quiet(earlier, later) <==> !Escalated(Change(earlier[0], later[0]))
  {
    QuietIff(earlier, later);
    assert earlier[0] in earlier && later[0] in later;
    assert FirstsEscalate(earlier, later, later[0].findingId) <==> Escalated(Change(earlier[0], later[0]));
  }

  /** Repeated ids break the chain: an unverified first copy of a confirmed finding hides its
      escalation, so two quiet diffs add up to one that gates. */
  lemma RepeatedIdsHideAnEscalation(known: Finding, unverified: Finding, worse: Finding)
    requires known.findingId == unverified.findingId == worse.findingId
    requires known.status.Confirmed? && unverified.status.Unverified? && worse.status.Confirmed?
    requires worse.severity.Rank() > known.severity.Rank()
    ensures Quiet([known], [unverified, known]) && Quiet([unverified, known], [worse]) && !Quiet([known], [worse])
  {
    var a, b, c := [known], [unverified, known], [worse];
    assert a[0] in a && b[1] in b;
    OneId(a, b);
    OneId(b, c);
    OneId(a, c);
  }
}
