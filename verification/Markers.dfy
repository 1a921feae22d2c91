/** Canary markers: six a tenant, numbered from a running sequence and dealt to the tenant's
    users in turn. What a canary says is drawn at random and is a parameter here. */
module Markers {
  import opened Decimal
  import opened Records
  import opened Wrappers

  datatype MarkerType = HardCanary | EntityCanary | SecretCanary

  datatype Field = Body | Title | Metadata

  datatype Location = Location(docId: string, field: Field)

  datatype Marker = Marker(
    id: string, kind: MarkerType, tenant: Uuid, owner: Option<Uuid>, plaintext: string,
    locations: seq<Location>, embedding: Option<string>)

  const PER_TYPE: nat := 2
  const PER_TENANT: nat := 6

  function TypeAt(t: nat): MarkerType
    requires t < 3
  {
    match t
    case 0 => HardCanary
    case 1 => EntityCanary
    case 2 => SecretCanary
  }

  /** The three secret shapes rotate with the tenant. */
  function Shape(start: nat, local: nat): nat {
    (start / PER_TENANT + local) % 3
  }

  /** What a marker says: from its type, its shape if it is a secret, and its number. */
  type Words = (MarkerType, nat, nat) -> string

  function MarkerId(number: nat): string {
    "mkr-" + Padded(5, number)
  }

  function Owner(users: seq<Uuid>, k: nat): Option<Uuid> {
    if users == [] then None else Some(users[k % |users|])
  }

  function MarkerAt(words: Words, tenant: Uuid, users: seq<Uuid>, start: nat, k: nat): Marker
    requires k < PER_TENANT
  {
    var kind := TypeAt(k / PER_TYPE);
    Marker(MarkerId(start + k), kind, tenant, Owner(users, k), words(kind, Shape(start, k % PER_TYPE), start + k),
           [], None)
  }

  function MarkersOf(words: Words, tenant: Uuid, users: seq<Uuid>, start: nat): (markers: seq<Marker>)
    ensures |markers| == PER_TENANT
  {
    seq(PER_TENANT, k requires 0 <= k < PER_TENANT => MarkerAt(words, tenant, users, start, k))
  }

  method GenerateMarkers(words: Words, tenant: Uuid, users: seq<Uuid>, start: nat) returns (markers: seq<Marker>)
    ensures markers == MarkersOf(words, tenant, users, start)
  {
    markers := [];
    var sequence := start;
    for t := 0 to 3
      invariant |markers| == t * PER_TYPE && sequence == start + |markers|
      invariant forall k | 0 <= k < |markers| :: markers[k] == MarkerAt(words, tenant, users, start, k)
    {
      for local := 0 to PER_TYPE
        invariant |markers| == t * PER_TYPE + local && sequence == start + |markers|
        invariant forall k | 0 <= k < |markers| :: markers[k] == MarkerAt(words, tenant, users, start, k)
      {
        var text := words(TypeAt(t), Shape(start, local), sequence);
        var owner := if users != [] then Some(users[|markers| % |users|]) else None;
        markers := markers + [Marker(MarkerId(sequence), TypeAt(t), tenant, owner, text, [], None)];
        sequence := sequence + 1;
      }
    }
  }

  /** How many of the first `n` markers go to the user in one place of the rota. */
  function Dealt(n: nat, users: nat, place: nat): nat
    requires users > 0
  {
    if n == 0 then 0 else Dealt(n - 1, users, place) + if (n - 1) % users == place then 1 else 0
  }

  lemma DivModStep(n: nat, d: nat)
    requires d > 0
    ensures n % d + 1 < d ==> (n + 1) / d == n / d && (n + 1) % d == n % d + 1
    ensures n % d + 1 == d ==> (n + 1) / d == n / d + 1 && (n + 1) % d == 0
  {
    var q, r := n / d, n % d;
    assert n + 1 == q * d + (r + 1);
    if r + 1 == d {
      assert n + 1 == (q + 1) * d + 0;
      DivModUnique(n + 1, d, q + 1, 0);
    } else {
      DivModUnique(n + 1, d, q, r + 1);
    }
  }

  lemma TimesApart(q: nat, q': nat, d: nat)
    requires q < q'
    ensures q' * d >= q * d + d
  {
    assert q' * d == q * d + (q' - q) * d;
    assert (q' - q) * d == d + (q' - q - 1) * d;
  }

  lemma DivModUnique(n: nat, d: nat, q: nat, r: nat)
    requires d > 0 && n == q * d + r && r < d
    ensures n / d == q && n % d == r
  {
    var q' := n / d;
    assert n == q' * d + n % d;
    if q < q' {
      TimesApart(q, q', d);
    } else if q' < q {
      TimesApart(q', q, d);
    }
  }

  /** Round robin in closed form: everyone gets the quotient, and the first few one more. */
  lemma {:induction false} DealtInClosedForm(n: nat, users: nat, place: nat)
    requires place < users
    ensures Dealt(n, users, place) == n / users + if place < n % users then 1 else 0
  {
    if n > 0 {
      DealtInClosedForm(n - 1, users, place);
      DivModStep(n - 1, users);
    } else {
      DivModUnique(0, users, 0, 0);
    }
  }

  function OwnedBy(markers: seq<Marker>, user: Uuid): nat {
    if markers == [] then 0
    else
      var n := |markers| - 1;
      OwnedBy(markers[..n], user) + if markers[n].owner == Some(user) then 1 else 0
  }

  lemma {:induction false} OwnedIsDealt(markers: seq<Marker>, users: seq<Uuid>, place: nat)
    requires place < |users| && forall i, j | 0 <= i < j < |users| :: users[i] != users[j]
    requires forall k | 0 <= k < |markers| :: markers[k].owner == Owner(users, k)
    ensures OwnedBy(markers, users[place]) == Dealt(|markers|, |users|, place)
  {
    if markers != [] {
      var n := |markers| - 1;
      OwnedIsDealt(markers[..n], users, place);
      assert 0 <= n % |users| < |users|;
    }
  }

  /** A tenant's distinct users own marker counts that differ by at most one, and together
      they own them all where there are any users. */
  lemma OwnershipIsEven(words: Words, tenant: Uuid, users: seq<Uuid>, start: nat, p: nat, q: nat)
    requires p < |users| && q < |users| && forall i, j | 0 <= i < j < |users| :: users[i] != users[j]
    ensures
      var markers := MarkersOf(words, tenant, users, start);
      && OwnedBy(markers, users[p]) <= OwnedBy(markers, users[q]) + 1
      && forall k | 0 <= k < |markers| :: markers[k].owner.Some? && markers[k].owner.value in users
  {
    var markers := MarkersOf(words, tenant, users, start);
    OwnedIsDealt(markers, users, p);
    OwnedIsDealt(markers, users, q);
    DealtInClosedForm(PER_TENANT, |users|, p);
    DealtInClosedForm(PER_TENANT, |users|, q);
  }

  /** What each of a tenant's six markers is: two hard canaries, two entities and two secrets, in
      that order, named by a running number and saying the words of its type and number, a
      secret in one of three shapes that rotate with the tenant. */
  lemma MarkerSays(words: Words, tenant: Uuid, users: seq<Uuid>, turn: nat, k: nat)
    requires k < 6
    ensures
      var m := MarkersOf(words, tenant, users, 6 * turn)[k];
      && |MarkersOf(words, tenant, users, 6 * turn)| == 6
      && m.kind == (if k < 2 then HardCanary else if k < 4 then EntityCanary else SecretCanary)
      && m.tenant == tenant && m.locations == [] && m.embedding == None
      && m.id == "mkr-" + Padded(5, 6 * turn + k)
      && m.plaintext == words(m.kind, (turn + k % 2) % 3, 6 * turn + k)
      && m.owner == if users == [] then None else Some(users[k % |users|])
  {
    DivModUnique(6 * turn, 6, turn, 0);
  }
}
