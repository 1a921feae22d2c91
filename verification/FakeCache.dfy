/** The in-memory cache: one string-keyed dictionary shared by every tenant, whose keys fold
    the tenant and the user in. */
module FakeCaches {
  import opened Isolation
  import opened OrderedDict
  import opened Wrappers

  datatype Config = Config(tenantScoped: bool, userScoped: bool, softDelete: bool)

  type Store = Dict<string, string>

  function Prefix(tenant: Uuid): string {
    tenant + ":"
  }

  function KeyOf(config: Config, tenant: Uuid, key: string, user: Option<Uuid>): string {
    (if config.tenantScoped then Prefix(tenant) else "") +
    (if config.userScoped && user.Some? then Prefix(user.value) else "") + key
  }

  function StartsWith(prefix: string): string -> bool {
    key => prefix <= key
  }

  datatype Op =
    | Read(key: string, user: Option<Uuid>)
    | Write(key: string, value: string, user: Option<Uuid>)
    | ReadAll
    | Erase

  datatype Obs = Value(value: Option<string>) | AllValues(values: seq<string>) | Done

  function Erased(config: Config, store: Store, tenant: Uuid): Store {
    if config.softDelete || !config.tenantScoped then store
    else Without(store, StartsWith(Prefix(tenant)))
  }

  function ReadableValues(config: Config, store: Store, tenant: Uuid): seq<string> {
    if !config.tenantScoped then Values(store)
    else Values(Restrict(store, StartsWith(Prefix(tenant))))
  }

  function Step(config: Config, store: Store, tenant: Uuid, op: Op): (Store, Obs) {
    match op
    case Read(key, user) => (store, Value(Get(store, KeyOf(config, tenant, key, user))))
    case Write(key, value, user) => (Set(store, KeyOf(config, tenant, key, user), value), Done)
    case ReadAll => (store, AllValues(ReadableValues(config, store, tenant)))
    case Erase => (Erased(config, store, tenant), Done)
  }

  function CacheSystem(config: Config): System<Store, Op, Obs> {
    System([], (store: Store, tenant: Uuid, op: Op) => Step(config, store, tenant, op))
  }

  class FakeCache {
    const config: Config
    var store: Store

    constructor (config: Config)
      ensures this.config == config && store == CacheSystem(config).empty
    {
      this.config := config;
      store := [];
    }

    method Get(tenant: Uuid, key: string, user: Option<Uuid>) returns (value: Option<string>)
      ensures (store, Value(value)) == Step(config, store, tenant, Read(key, user))
    {
      value := OrderedDict.Get(store, KeyOf(config, tenant, key, user));
    }

    method Set(tenant: Uuid, key: string, value: string, user: Option<Uuid>)
      modifies this`store
      ensures (store, Done) == Step(config, old(store), tenant, Write(key, value, user))
    {
      store := OrderedDict.Set(store, KeyOf(config, tenant, key, user), value);
    }

    method AllValues(tenant: Uuid) returns (values: seq<string>)
      ensures (store, Obs.AllValues(values)) == Step(config, store, tenant, ReadAll)
    {
      if !config.tenantScoped {
        values := Values(store);
      } else {
        values := Values(Restrict(store, StartsWith(Prefix(tenant))));
      }
    }

    method Delete(tenant: Uuid)
      modifies this`store
      ensures (store, Done) == Step(config, old(store), tenant, Erase)
    {
      if config.softDelete || !config.tenantScoped {
        return;
      }
      var doomed := Restrict(store, StartsWith(Prefix(tenant)));
      WithoutNothing(store, doomed);
      for i := 0 to |doomed|
        invariant store == Without(old(store), Among(doomed[..i]))
      {
        RemoveOneMore(old(store), doomed, i);
        store := Remove(store, doomed[i].0);
      }
      assert doomed[..|doomed|] == doomed;
      WithoutItsRestriction(store, StartsWith(Prefix(tenant)));
      WithoutItsRestriction(old(store), StartsWith(Prefix(tenant)));
    }
  }

  // ---------- Deleting the listed keys one by one ----------

  function Among(items: Store): string -> bool {
    key => exists i | 0 <= i < |items| :: items[i].0 == key
  }

  lemma {:induction false} WithoutNothing(d: Store, items: Store)
    ensures Without(d, Among(items[..0])) == d
  {
    if d != [] {
      WithoutNothing(d[1..], items);
    }
  }

  lemma {:induction false} RemoveOneMore(d: Store, items: Store, i: nat)
    requires i < |items|
    ensures Remove(Without(d, Among(items[..i])), items[i].0) == Without(d, Among(items[..i + 1]))
  {
    if d != [] {
      RemoveOneMore(d[1..], items, i);
      var key := d[0].0;
      assert Among(items[..i + 1])(key) <==> Among(items[..i])(key) || items[i].0 == key by {
        if Among(items[..i])(key) {
          var k :| 0 <= k < i && items[..i][k].0 == key;
          assert items[..i + 1][k].0 == key;
        }
        assert items[..i + 1][i] == items[i];
      }
    }
  }

  lemma {:induction false} RestrictionHas(d: Store, drop: string -> bool, i: nat)
    requires i < |d| && drop(d[i].0)
    ensures Among(Restrict(d, drop))(d[i].0)
  {
    if i == 0 {
      assert Restrict(d, drop)[0] == d[0];
    } else {
      RestrictionHas(d[1..], drop, i - 1);
      var rest := Restrict(d[1..], drop);
      var k :| 0 <= k < |rest| && rest[k].0 == d[i].0;
      assert Restrict(d, drop)[if drop(d[0].0) then k + 1 else k].0 == d[i].0;
    }
  }

  lemma {:induction false} RestrictionKeeps(d: Store, drop: string -> bool)
    ensures forall i | 0 <= i < |Restrict(d, drop)| :: drop(Restrict(d, drop)[i].0)
  {
    if d != [] {
      RestrictionKeeps(d[1..], drop);
    }
  }

  lemma WithoutItsRestriction(d: Store, drop: string -> bool)
    ensures Without(d, Among(Restrict(d, drop))) == Without(d, drop)
  {
    RestrictionKeeps(d, drop);
    forall i | 0 <= i < |d| && drop(d[i].0) ensures Among(Restrict(d, drop))(d[i].0) {
      RestrictionHas(d, drop, i);
    }
    SameDropsSame(d, Among(Restrict(d, drop)), drop);
  }

  lemma {:induction false} SameDropsSame(d: Store, p: string -> bool, q: string -> bool)
    requires forall i | 0 <= i < |d| :: p(d[i].0) == q(d[i].0)
    ensures Without(d, p) == Without(d, q)
  {
    if d != [] {
      assert forall i | 0 <= i < |d[1..]| :: d[1..][i] == d[i + 1];
      SameDropsSame(d[1..], p, q);
    }
  }

  // ---------- Isolation ----------

  /** Tenant prefixes never overlap: ids have one length and no colon inside. */
  lemma OnePrefix(t: Uuid, u: Uuid, key: string)
    requires Prefix(t) <= key && Prefix(u) <= key
    ensures t == u
  {
    assert t == key[..36] && u == key[..36];
  }

  lemma KeyHasPrefix(config: Config, tenant: Uuid, key: string, user: Option<Uuid>)
    requires config.tenantScoped
    ensures Prefix(tenant) <= KeyOf(config, tenant, key, user)
  {
  }

  /** A user's keys are no sibling's, and on a user-scoped cache never collide with them. */
  lemma SiblingKeysDiffer(config: Config, tenant: Uuid, u: Uuid, v: Uuid, key: string, key': string)
    requires config.userScoped && u != v
    ensures KeyOf(config, tenant, key, Some(u)) != KeyOf(config, tenant, key', Some(v))
  {
    var skip := if config.tenantScoped then |Prefix(tenant)| else 0;
    var a, b := KeyOf(config, tenant, key, Some(u)), KeyOf(config, tenant, key', Some(v));
    assert a[skip..] == Prefix(u) + key && b[skip..] == Prefix(v) + key';
    assert a[skip..][..36] == u && b[skip..][..36] == v;
  }

  function View(store: Store, t: Uuid): Store {
    Restrict(store, StartsWith(Prefix(t)))
  }

  lemma OwnStep(config: Config, s: Store, r: Store, t: Uuid, op: Op)
    requires config.tenantScoped && View(s, t) == View(r, t)
    ensures Step(config, s, t, op).1 == Step(config, r, t, op).1
    ensures View(Step(config, s, t, op).0, t) == View(Step(config, r, t, op).0, t)
  {
    var own := StartsWith(Prefix(t));
    match op
    case Read(key, user) =>
      KeyHasPrefix(config, t, key, user);
      GetOfRestrict(s, own, KeyOf(config, t, key, user));
      GetOfRestrict(r, own, KeyOf(config, t, key, user));
    case Write(key, value, user) =>
      KeyHasPrefix(config, t, key, user);
      RestrictOfSet(s, own, KeyOf(config, t, key, user), value);
      RestrictOfSet(r, own, KeyOf(config, t, key, user), value);
    case ReadAll =>
    case Erase =>
      NothingLeft(s, own);
      NothingLeft(r, own);
  }

  lemma {:induction false} NothingLeft(d: Store, drop: string -> bool)
    ensures Restrict(Without(d, drop), drop) == []
  {
    if d != [] {
      NothingLeft(d[1..], drop);
    }
  }

  lemma OtherStep(config: Config, s: Store, t: Uuid, u: Uuid, op: Op)
    requires config.tenantScoped && t != u
    ensures View(Step(config, s, u, op).0, t) == View(s, t)
  {
    match op
    case Read(_, _) =>
    case ReadAll =>
    case Write(key, value, user) =>
      KeyHasPrefix(config, u, key, user);
      if Prefix(t) <= KeyOf(config, u, key, user) {
        OnePrefix(t, u, KeyOf(config, u, key, user));
      }
      RestrictOfSet(s, StartsWith(Prefix(t)), KeyOf(config, u, key, user), value);
    case Erase =>
      forall i | 0 <= i < |s| ensures !(StartsWith(Prefix(t))(s[i].0) && StartsWith(Prefix(u))(s[i].0)) {
        if Prefix(t) <= s[i].0 && Prefix(u) <= s[i].0 {
          OnePrefix(t, u, s[i].0);
        }
      }
      RestrictOfWithout(s, StartsWith(Prefix(t)), StartsWith(Prefix(u)));
  }

  /** Over every interleaving a tenant sees exactly what it would see alone, if and only if
      the cache folds the tenant into its keys. */
  lemma CacheIsolationIff(config: Config)
    ensures NonInterfering(CacheSystem(config)) <==> config.tenantScoped
  {
    var sys := CacheSystem(config);
    if config.tenantScoped {
      forall s, r, t, op | View(s, t) == View(r, t)
        ensures sys.step(s, t, op).1 == sys.step(r, t, op).1
        ensures View(sys.step(s, t, op).0, t) == View(sys.step(r, t, op).0, t)
      {
        OwnStep(config, s, r, t, op);
      }
      forall s, t, u, op | t != u ensures View(sys.step(s, u, op).0, t) == View(s, t) {
        OtherStep(config, s, t, u, op);
      }
      PrivateViewSuffices(sys, View);
    } else {
      AliceIsNotBob();
      var key := KeyOf(config, ALICE, "k", None);
      GetOfSet([], key, "v", key);
      TwoStepWitness(sys, ALICE, Write("k", "v", None), BOB, Read("k", None));
    }
  }

  // ---------- What a write and a delete do ----------

  /** Read your writes: the writer reads the value back under the same key; another tenant of a
      tenant-scoped cache, and a sibling user of a user-scoped one, read what they read before. */
  lemma ReadAfterWrite(
    config: Config, store: Store, tenant: Uuid, key: string, value: string, user: Option<Uuid>,
    reader: Uuid, asked: string, as_: Option<Uuid>)
    ensures
      var after := Step(config, store, tenant, Write(key, value, user)).0;
      var read := Step(config, after, reader, Read(asked, as_)).1;
      && (reader == tenant && asked == key && as_ == user ==> read == Value(Some(value)))
      && ((config.tenantScoped && reader != tenant)
          || (config.userScoped && reader == tenant && user.Some? && as_.Some? && user != as_)
          || (reader == tenant && user == as_ && asked != key)
          ==> read == Step(config, store, reader, Read(asked, as_)).1)
  {
    var written, wanted := KeyOf(config, tenant, key, user), KeyOf(config, reader, asked, as_);
    GetOfSet(store, written, value, wanted);
    if config.tenantScoped && reader != tenant {
      KeyHasPrefix(config, tenant, key, user);
      KeyHasPrefix(config, reader, asked, as_);
      if written == wanted {
        OnePrefix(tenant, reader, written);
      }
    } else if reader == tenant && user == as_ {
      SameSlotOnlyForSameKey(config, tenant, key, asked, user);
    } else if config.userScoped && reader == tenant && user.Some? && as_.Some? && user != as_ {
      SiblingKeysDiffer(config, tenant, user.value, as_.value, key, asked);
    }
  }

  /** Who else reads a value back: every tenant, where keys do not fold the tenant in; every user,
      where they do not fold the user in; and, where they do, the user whose prefix a
      tenant-level writer spelled out in its key. */
  lemma SlotsShared(
    config: Config, store: Store, tenant: Uuid, key: string, value: string, user: Option<Uuid>,
    reader: Uuid, asked: string, as_: Option<Uuid>)
    requires reader == tenant || !config.tenantScoped
    requires
      || (asked == key && (as_ == user || !config.userScoped))
      || (config.userScoped && user.None? && as_.Some? && key == as_.value + ":" + asked)
    ensures
      var after := Step(config, store, tenant, Write(key, value, user)).0;
      Step(config, after, reader, Read(asked, as_)).1 == Value(Some(value))
  {
    var written, wanted := KeyOf(config, tenant, key, user), KeyOf(config, reader, asked, as_);
    assert written == wanted;
    GetOfSet(store, written, value, wanted);
  }

  lemma SameSlotOnlyForSameKey(config: Config, tenant: Uuid, key: string, key': string, user: Option<Uuid>)
    ensures KeyOf(config, tenant, key, user) == KeyOf(config, tenant, key', user) <==> key == key'
  {
    var scope := KeyOf(config, tenant, "", user);
    assert KeyOf(config, tenant, key, user) == scope + key && KeyOf(config, tenant, key', user) == scope + key';
    assert (scope + key)[|scope|..] == key && (scope + key')[|scope|..] == key';
  }

  lemma {:induction false} SetIsListed(d: Store, k: string, v: string)
    ensures v in Values(Set(d, k, v))
  {
    if d != [] && d[0].0 != k {
      SetIsListed(d[1..], k, v);
    }
  }

  /** The listing shows the tenant its own new value, and no other tenant of a tenant-scoped
      cache anything new. */
  lemma ListedAfterWrite(
    config: Config, store: Store, tenant: Uuid, key: string, value: string, user: Option<Uuid>, reader: Uuid)
    ensures
      var after := Step(config, store, tenant, Write(key, value, user)).0;
      && value in Step(config, after, tenant, ReadAll).1.values
      && (config.tenantScoped && reader != tenant ==>
            Step(config, after, reader, ReadAll).1 == Step(config, store, reader, ReadAll).1)
  {
    var slot := KeyOf(config, tenant, key, user);
    SetIsListed(store, slot, value);
    if config.tenantScoped {
      KeyHasPrefix(config, tenant, key, user);
      RestrictOfSet(store, StartsWith(Prefix(tenant)), slot, value);
      SetIsListed(Restrict(store, StartsWith(Prefix(tenant))), slot, value);
      if reader != tenant {
        OtherStep(config, store, reader, tenant, Write(key, value, user));
      }
    }
  }

  function Cut(store: Store, t: Uuid): Store {
    Without(store, StartsWith(Prefix(t)))
  }

  lemma CutCarriesOthers(config: Config, s: Store, t: Uuid, u: Uuid, op: Op)
    requires t != u && config.tenantScoped
    ensures Cut(Step(config, s, u, op).0, t) == Step(config, Cut(s, t), u, op).0
  {
    match op
    case Write(key, value, user) =>
      KeyHasPrefix(config, u, key, user);
      var slot := KeyOf(config, u, key, user);
      if Prefix(t) <= slot {
        OnePrefix(t, u, slot);
      }
      WithoutOfSet(s, StartsWith(Prefix(t)), slot, value);
    case Erase => WithoutsCommute(s, StartsWith(Prefix(t)), StartsWith(Prefix(u)));
    case _ =>
  }

  lemma CutIgnoresOwn(config: Config, s: Store, t: Uuid, op: Op)
    requires config.tenantScoped
    ensures Cut(Step(config, s, t, op).0, t) == Cut(s, t)
  {
    match op
    case Write(key, value, user) =>
      KeyHasPrefix(config, t, key, user);
      WithoutOfSet(s, StartsWith(Prefix(t)), KeyOf(config, t, key, user), value);
    case Erase => WithoutTwice(s, StartsWith(Prefix(t)));
    case _ =>
  }

  /** Taking a tenant out of the end of a trace is leaving it out all along. */
  lemma {:induction false} CutFollows(config: Config, trace: seq<Event<Op>>, t: Uuid)
    requires config.tenantScoped
    ensures Cut(AfterTrace(CacheSystem(config), CacheSystem(config).empty, trace), t)
         == AfterTrace(CacheSystem(config), CacheSystem(config).empty, WithoutTenant(trace, t))
  {
    var sys := CacheSystem(config);
    if trace != [] {
      var n, e := |trace| - 1, trace[|trace| - 1];
      var s, others := AfterTrace(sys, sys.empty, trace[..n]), WithoutTenant(trace[..n], t);
      CutFollows(config, trace[..n], t);
      if e.tenant == t {
        CutIgnoresOwn(config, s, t, e.op);
      } else {
        CutCarriesOthers(config, s, t, e.tenant, e.op);
        AfterSnoc(sys, sys.empty, others, e);
      }
    }
  }

  /** After a delete nobody ever sees anything but what it would see had the tenant never
      acted, if and only if keys fold the tenant in and the backend does not soft-delete. */
  lemma CacheErasureIff(config: Config)
    ensures Erases(CacheSystem(config), Erase) <==> config.tenantScoped && !config.softDelete
  {
    var sys := CacheSystem(config);
    if config.softDelete || !config.tenantScoped {
      var key := KeyOf(config, ALICE, "k", None);
      GetOfSet([], key, "v", key);
      ResidueWitness(sys, Erase, ALICE, Write("k", "v", None), ALICE, Read("k", None));
    } else {
      forall trace, t
        ensures sys.step(AfterTrace(sys, sys.empty, trace), t, Erase).0
             == AfterTrace(sys, sys.empty, WithoutTenant(trace, t))
      {
        CutFollows(config, trace, t);
      }
      SameStateErases(sys, Erase);
    }
  }
}
