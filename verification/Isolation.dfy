/** Non-interference between tenants - or whoever the principals are - and erasure, both in terms
    of what is observed, for any store given by its step function. */
module Isolation {

  /** A tenant or user id in its canonical text: 36 characters, none of them a colon. */
  type Uuid = s: string | |s| == 36 && ':' !in s
    witness "00000000-0000-0000-0000-000000000000"

  const ALICE: Uuid := "aaaaaaaa-0000-0000-0000-000000000000"
  const BOB: Uuid := "bbbbbbbb-0000-0000-0000-000000000000"

  lemma AliceIsNotBob()
    ensures ALICE != BOB
  {
    assert ALICE[0] != BOB[0];
  }

  datatype Event<Op> = Event(tenant: Uuid, op: Op)

  /** A store: its empty state, and what one tenant's operation does and shows. */
  datatype System<!State, !Op, Obs> = System(empty: State, step: (State, Uuid, Op) -> (State, Obs))

  /** Everything `t` observes while `trace` runs from `s`, in order. */
  function Observed<State, Op, Obs>(
    sys: System<State, Op, Obs>, s: State, trace: seq<Event<Op>>, t: Uuid): seq<Obs>
  {
    if trace == [] then []
    else
      var (next, seen) := sys.step(s, trace[0].tenant, trace[0].op);
      var rest := Observed(sys, next, trace[1..], t);
      if trace[0].tenant == t then [seen] + rest else rest
  }

  /** The trace with every other tenant's operations removed. */
  function OwnEvents<Op>(trace: seq<Event<Op>>, t: Uuid): seq<Event<Op>> {
    if trace == [] then []
    else if trace[0].tenant == t then [trace[0]] + OwnEvents(trace[1..], t)
    else OwnEvents(trace[1..], t)
  }

  /** No interleaving of other tenants' writes, deletes and reads changes what a tenant sees. */
  ghost predicate NonInterfering<State(!new), Op(!new), Obs(!new)>(sys: System<State, Op, Obs>) {
    forall trace, t ::
      Observed(sys, sys.empty, trace, t) == Observed(sys, sys.empty, OwnEvents(trace, t), t)
  }

  /** A view is what a tenant's operations depend on, and no other tenant's change. */
  ghost predicate IsPrivateView<State(!new), Op(!new), Obs(!new), View(!new)>(
    sys: System<State, Op, Obs>, view: (State, Uuid) -> View)
  {
    && (forall s, r, t, op | view(s, t) == view(r, t) ::
          && sys.step(s, t, op).1 == sys.step(r, t, op).1
          && view(sys.step(s, t, op).0, t) == view(sys.step(r, t, op).0, t))
    && (forall s, t, u, op | t != u :: view(sys.step(s, u, op).0, t) == view(s, t))
  }

  /** The same, of the states a system can be in: `inv` holds of the empty one and is kept. */
  ghost predicate IsPrivateViewWithin<State(!new), Op(!new), Obs(!new), View(!new)>(
    sys: System<State, Op, Obs>, inv: State -> bool, view: (State, Uuid) -> View)
  {
    && inv(sys.empty) && (forall s, t, op | inv(s) :: inv(sys.step(s, t, op).0))
    && (forall s, r, t, op | inv(s) && inv(r) && view(s, t) == view(r, t) ::
          && sys.step(s, t, op).1 == sys.step(r, t, op).1
          && view(sys.step(s, t, op).0, t) == view(sys.step(r, t, op).0, t))
    && (forall s, t, u, op | inv(s) && t != u :: view(sys.step(s, u, op).0, t) == view(s, t))
  }

  lemma {:induction false} ViewDecides<State(!new), Op(!new), Obs(!new), View(!new)>(
    sys: System<State, Op, Obs>, inv: State -> bool, view: (State, Uuid) -> View, s: State, r: State,
    trace: seq<Event<Op>>, t: Uuid)
    requires IsPrivateViewWithin(sys, inv, view) && inv(s) && inv(r) && view(s, t) == view(r, t)
    ensures Observed(sys, s, trace, t) == Observed(sys, r, OwnEvents(trace, t), t)
  {
    if trace != [] {
      var e := trace[0];
      var s' := sys.step(s, e.tenant, e.op).0;
      if e.tenant == t {
        var r' := sys.step(r, t, e.op).0;
        ViewDecides(sys, inv, view, s', r', trace[1..], t);
        assert OwnEvents(trace, t)[1..] == OwnEvents(trace[1..], t);
      } else {
        ViewDecides(sys, inv, view, s', r, trace[1..], t);
      }
    }
  }

  /** The unwinding theorem: a store with a private view does not interfere. */
  lemma PrivateViewWithinSuffices<State(!new), Op(!new), Obs(!new), View(!new)>(
    sys: System<State, Op, Obs>, inv: State -> bool, view: (State, Uuid) -> View)
    requires IsPrivateViewWithin(sys, inv, view)
    ensures NonInterfering(sys)
  {
    forall trace, t
      ensures Observed(sys, sys.empty, trace, t) == Observed(sys, sys.empty, OwnEvents(trace, t), t)
    {
      ViewDecides(sys, inv, view, sys.empty, sys.empty, trace, t);
    }
  }

  lemma PrivateViewSuffices<State(!new), Op(!new), Obs(!new), View(!new)>(
    sys: System<State, Op, Obs>, view: (State, Uuid) -> View)
    requires IsPrivateView(sys, view)
    ensures NonInterfering(sys)
  {
    PrivateViewWithinSuffices(sys, (s: State) => true, view);
  }

  /** One operation by `u` that changes what `t`'s next operation shows is interference. */
  lemma TwoStepWitness<State(!new), Op(!new), Obs(!new)>(
    sys: System<State, Op, Obs>, u: Uuid, a: Op, t: Uuid, b: Op)
    requires t != u
    requires sys.step(sys.step(sys.empty, u, a).0, t, b).1 != sys.step(sys.empty, t, b).1
    ensures !NonInterfering(sys)
  {
    var trace := [Event(u, a), Event(t, b)];
    assert trace[1..] == [Event(t, b)] && [Event(t, b)][1..] == [];
    var own := OwnEvents(trace, t);
    assert OwnEvents(trace[1..], t) == [Event(t, b)];
    assert own == [Event(t, b)];
    var s := sys.step(sys.empty, u, a).0;
    assert Observed(sys, sys.empty, trace, t) == Observed(sys, s, [Event(t, b)], t)
        == [sys.step(s, t, b).1];
    assert Observed(sys, sys.empty, own, t) == [sys.step(sys.empty, t, b).1];
  }

  // ---------- Erasure ----------

  function AfterTrace<State, Op, Obs>(sys: System<State, Op, Obs>, s: State, trace: seq<Event<Op>>): State {
    if trace == [] then s
    else
      var n := |trace| - 1;
      sys.step(AfterTrace(sys, s, trace[..n]), trace[n].tenant, trace[n].op).0
  }

  /** The trace as if the tenant had never been there. */
  function WithoutTenant<Op>(trace: seq<Event<Op>>, t: Uuid): seq<Event<Op>> {
    if trace == [] then []
    else
      var n := |trace| - 1;
      if trace[n].tenant == t then WithoutTenant(trace[..n], t) else WithoutTenant(trace[..n], t) + [trace[n]]
  }

  /** After any trace, erasing a tenant leaves nothing of it to see: whatever follows, and
      whoever looks, all that is observed is what would be had the tenant never acted. */
  ghost predicate Erases<State(!new), Op(!new), Obs(!new)>(sys: System<State, Op, Obs>, erase: Op) {
    forall trace, t, later, reader ::
      Observed(sys, sys.step(AfterTrace(sys, sys.empty, trace), t, erase).0, later, reader)
        == Observed(sys, AfterTrace(sys, sys.empty, WithoutTenant(trace, t)), later, reader)
  }

  lemma AfterSnoc<State, Op, Obs>(sys: System<State, Op, Obs>, s: State, trace: seq<Event<Op>>, e: Event<Op>)
    ensures AfterTrace(sys, s, trace + [e]) == sys.step(AfterTrace(sys, s, trace), e.tenant, e.op).0
  {
    assert (trace + [e])[..|trace|] == trace;
  }

  /** `seen` is all of a state that any operation shows, or carries on. */
  ghost predicate IsSeen<State(!new), Op(!new), Obs(!new), Seen(!new)>(
    sys: System<State, Op, Obs>, seen: State -> Seen)
  {
    forall s, r, t, op | seen(s) == seen(r) ::
      sys.step(s, t, op).1 == sys.step(r, t, op).1 && seen(sys.step(s, t, op).0) == seen(sys.step(r, t, op).0)
  }

  lemma {:induction false} SeenDecides<State(!new), Op(!new), Obs(!new), Seen(!new)>(
    sys: System<State, Op, Obs>, seen: State -> Seen, s: State, r: State, later: seq<Event<Op>>, reader: Uuid)
    requires IsSeen(sys, seen) && seen(s) == seen(r)
    ensures Observed(sys, s, later, reader) == Observed(sys, r, later, reader)
  {
    if later != [] {
      var e := later[0];
      SeenDecides(sys, seen, sys.step(s, e.tenant, e.op).0, sys.step(r, e.tenant, e.op).0, later[1..], reader);
    }
  }

  /** It is enough that what can be seen is what it would be had the tenant never acted. */
  lemma SameSeenErases<State(!new), Op(!new), Obs(!new), Seen(!new)>(
    sys: System<State, Op, Obs>, erase: Op, seen: State -> Seen)
    requires IsSeen(sys, seen)
    requires forall trace, t ::
               seen(sys.step(AfterTrace(sys, sys.empty, trace), t, erase).0)
                 == seen(AfterTrace(sys, sys.empty, WithoutTenant(trace, t)))
    ensures Erases(sys, erase)
  {
    forall trace, t, later, reader
      ensures Observed(sys, sys.step(AfterTrace(sys, sys.empty, trace), t, erase).0, later, reader)
           == Observed(sys, AfterTrace(sys, sys.empty, WithoutTenant(trace, t)), later, reader)
    {
      SeenDecides(sys, seen, sys.step(AfterTrace(sys, sys.empty, trace), t, erase).0,
                  AfterTrace(sys, sys.empty, WithoutTenant(trace, t)), later, reader);
    }
  }

  lemma SameStateErases<State(!new), Op(!new), Obs(!new)>(sys: System<State, Op, Obs>, erase: Op)
    requires forall trace, t ::
               sys.step(AfterTrace(sys, sys.empty, trace), t, erase).0
                 == AfterTrace(sys, sys.empty, WithoutTenant(trace, t))
    ensures Erases(sys, erase)
  {
    SameSeenErases(sys, erase, (s: State) => s);
  }

  /** One operation that a reader can still see after its tenant's erasure. */
  lemma ResidueWitness<State(!new), Op(!new), Obs(!new)>(
    sys: System<State, Op, Obs>, erase: Op, t: Uuid, op: Op, reader: Uuid, look: Op)
    requires
      var after := sys.step(sys.step(sys.empty, t, op).0, t, erase).0;
      sys.step(after, reader, look).1 != sys.step(sys.empty, reader, look).1
    ensures !Erases(sys, erase)
  {
    var trace, later := [Event(t, op)], [Event(reader, look)];
    assert trace[..0] == [] && later[1..] == [];
    assert AfterTrace(sys, sys.empty, trace) == sys.step(sys.empty, t, op).0;
    assert WithoutTenant(trace, t) == [];
    var after := sys.step(sys.step(sys.empty, t, op).0, t, erase).0;
    assert Observed(sys, after, later, reader) == [sys.step(after, reader, look).1];
    assert Observed(sys, sys.empty, later, reader) == [sys.step(sys.empty, reader, look).1];
  }
}
