/** The finding-level diff of two runs: buckets by finding id, the findings newly confirmed,
    and the ones that changed in place. Ids may repeat on either side. */
module FindingDiffs {
  import opened Records

  datatype Change = Change(previous: Finding, current: Finding)

  datatype FindingDiff = FindingDiff(
    appeared: seq<Finding>,
    resolved: seq<Finding>,
    persisting: seq<Finding>,
    newlyConfirmed: seq<Finding>,
    changed: seq<Change>)

  function Ids(findings: seq<Finding>): set<string> {
    set f | f in findings :: f.findingId
  }

  function ConfirmedOnly(findings: seq<Finding>): seq<Finding> {
    if findings == [] then []
    else
      var n := |findings| - 1;
      if findings[n].status.Confirmed? then ConfirmedOnly(findings[..n]) + [findings[n]]
      else ConfirmedOnly(findings[..n])
  }

  /** The first finding of each kept id, in order. */
  function Select(findings: seq<Finding>, keep: string -> bool): seq<Finding> {
    if findings == [] then []
    else
      var n := |findings| - 1;
      if keep(findings[n].findingId) && findings[n].findingId !in Ids(findings[..n])
      then Select(findings[..n], keep) + [findings[n]]
      else Select(findings[..n], keep)
  }

  /** The first finding of an id. */
  function First(findings: seq<Finding>, id: string): Finding
    requires id in Ids(findings)
  {
    if findings[0].findingId == id then findings[0] else First(findings[1..], id)
  }

  function Changed(earlier: seq<Finding>, later: seq<Finding>): seq<Change> {
    if later == [] then []
    else
      var n, f := |later| - 1, later[|later| - 1];
      if f.findingId in Ids(later[..n]) || f.findingId !in Ids(earlier) then Changed(earlier, later[..n])
      else
        var previous := First(earlier, f.findingId);
        if previous.status != f.status || previous.severity != f.severity
        then Changed(earlier, later[..n]) + [Change(previous, f)]
        else Changed(earlier, later[..n])
  }

  function Outside(ids: set<string>): string -> bool {
    id => id !in ids
  }

  function Inside(ids: set<string>): string -> bool {
    id => id in ids
  }

  function Diff(earlier: seq<Finding>, later: seq<Finding>): FindingDiff {
    FindingDiff(
      Select(later, Outside(Ids(earlier))),
      Select(earlier, Outside(Ids(later))),
      Select(later, Inside(Ids(earlier))),
      Select(ConfirmedOnly(later), Outside(Ids(ConfirmedOnly(earlier)))),
      Changed(earlier, later))
  }

  predicate Escalated(c: Change) {
    && c.current.severity.Rank() > c.previous.severity.Rank()
    && c.previous.status.Confirmed? && c.current.status.Confirmed?
  }

  function Escalations(changed: seq<Change>): seq<Change> {
    if changed == [] then []
    else if Escalated(changed[0]) then [changed[0]] + Escalations(changed[1..])
    else Escalations(changed[1..])
  }

  /** The two finding gates. */
  predicate Quiet(earlier: seq<Finding>, later: seq<Finding>) {
    Diff(earlier, later).newlyConfirmed == [] && Escalations(Diff(earlier, later).changed) == []
  }

  method SelectFirst(findings: seq<Finding>, keep: string -> bool) returns (chosen: seq<Finding>)
    ensures chosen == Select(findings, keep)
  {
    var seen: set<string> := {};
    chosen := [];
    for i := 0 to |findings|
      invariant seen == set id | id in Ids(findings[..i]) && keep(id)
      invariant chosen == Select(findings[..i], keep)
    {
      var id := findings[i].findingId;
      assert findings[..i + 1] == findings[..i] + [findings[i]];
      IdsSnoc(findings[..i], findings[i]);
      if id in seen || !keep(id) {
        continue;
      }
      seen := seen + {id};
      chosen := chosen + [findings[i]];
    }
    assert findings[..|findings|] == findings;
  }

  method ChangedInPlace(earlier: seq<Finding>, later: seq<Finding>, byId: map<string, Finding>)
    returns (changed: seq<Change>)
    requires byId.Keys == Ids(earlier) && forall id | id in byId :: byId[id] == First(earlier, id)
    ensures changed == Changed(earlier, later)
  {
    var seen: set<string> := {};
    changed := [];
    for i := 0 to |later|
      invariant seen == Ids(later[..i]) * Ids(earlier)
      invariant changed == Changed(earlier, later[..i])
    {
      var finding, id := later[i], later[i].findingId;
      assert later[..i + 1] == later[..i] + [finding];
      IdsSnoc(later[..i], finding);
      if id in seen || id !in byId {
        continue;
      }
      seen := seen + {id};
      var previous := byId[id];
      if previous.status != finding.status || previous.severity != finding.severity {
        changed := changed + [Change(previous, finding)];
      }
    }
    assert later[..|later|] == later;
  }

  method DiffFindings(earlier: seq<Finding>, later: seq<Finding>) returns (d: FindingDiff)
    ensures d == Diff(earlier, later)
  {
    var byId: map<string, Finding> := map[];
    for i := 0 to |earlier|
      invariant byId.Keys == Ids(earlier[..i])
      invariant forall id | id in byId :: byId[id] == First(earlier[..i], id)
    {
      assert earlier[..i + 1] == earlier[..i] + [earlier[i]];
      IdsSnoc(earlier[..i], earlier[i]);
      forall id | id in Ids(earlier[..i + 1]) {
        FirstSnoc(earlier[..i], earlier[i], id);
      }
      if earlier[i].findingId !in byId {
        byId := byId[earlier[i].findingId := earlier[i]];
      }
    }
    assert earlier[..|earlier|] == earlier;
    var newlyConfirmed := SelectFirst(ConfirmedOnly(later), Outside(Ids(ConfirmedOnly(earlier))));
    var changed := ChangedInPlace(earlier, later, byId);
    var appeared := SelectFirst(later, Outside(Ids(earlier)));
    var resolved := SelectFirst(earlier, Outside(Ids(later)));
    var persisting := SelectFirst(later, Inside(Ids(earlier)));
    return FindingDiff(appeared, resolved, persisting, newlyConfirmed, changed);
  }

  lemma IdsSnoc(findings: seq<Finding>, f: Finding)
    ensures Ids(findings + [f]) == Ids(findings) + {f.findingId}
  {
    assert f in findings + [f];
    forall g | g in findings ensures g in findings + [f] {
    }
  }

  lemma {:induction false} FirstSnoc(findings: seq<Finding>, f: Finding, id: string)
    requires id in Ids(findings + [f])
    ensures First(findings + [f], id) == if id in Ids(findings) then First(findings, id) else f
  {
    if findings == [] {
      assert findings + [f] == [f];
    } else if findings[0].findingId != id {
      assert (findings + [f])[1..] == findings[1..] + [f];
      assert findings == [findings[0]] + findings[1..];
      FirstSnoc(findings[1..], f, id);
    }
  }
}
