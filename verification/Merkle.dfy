/** Merkle trees and audit paths as section 2.1 of RFC 6962 defines them, by recursion on
    the list of leaves. The hash is a parameter: any function to 32-byte strings. No
    injectivity is assumed of it, so every binding result names a collision instead. */
module Merkle {
  import opened Bits

  newtype Byte = b: int | 0 <= b < 256
  type Bytes = seq<Byte>

  const DIGEST_SIZE: nat := 32

  type Digest = d: Bytes | |d| == DIGEST_SIZE witness seq(DIGEST_SIZE, _ => 0 as Byte)

  type Hash = Bytes -> Digest

  function LeafInput(body: Bytes): Bytes {
    [0] + body
  }

  function NodeInput(left: Bytes, right: Bytes): Bytes {
    [1] + left + right
  }

  function HashChildren(h: Hash, left: Bytes, right: Bytes): Digest {
    h(NodeInput(left, right))
  }

  ghost predicate Collides(h: Hash, x: Bytes, y: Bytes) {
    x != y && h(x) == h(y)
  }

  lemma {:induction false} SplitExists(n: nat)
    requires n > 1
    ensures exists p: nat :: Pow2(p) < n <= 2 * Pow2(p)
  {
    if n == 2 {
      assert Pow2(0) < n <= 2 * Pow2(0);
    } else {
      SplitExists((n + 1) / 2);
      var p: nat :| Pow2(p) < (n + 1) / 2 <= 2 * Pow2(p);
      assert Pow2(p + 1) < n <= 2 * Pow2(p + 1);
    }
  }

  /** The exponent of the largest power of two smaller than `n`. */
  ghost function SplitExponent(n: nat): (p: nat)
    requires n > 1
    ensures Pow2(p) < n <= 2 * Pow2(p)
  {
    SplitExists(n);
    var p: nat :| Pow2(p) < n <= 2 * Pow2(p);
    p
  }

  ghost function Split(n: nat): (k: nat)
    requires n > 1
    ensures 0 < k < n
  {
    Pow2(SplitExponent(n))
  }

  /** MTH of RFC 6962, section 2.1. */
  ghost function TreeHash(h: Hash, leaves: seq<Bytes>): Digest {
    if leaves == [] then h([])
    else if |leaves| == 1 then h(LeafInput(leaves[0]))
    else
      var k := Split(|leaves|);
      HashChildren(h, TreeHash(h, leaves[..k]), TreeHash(h, leaves[k..]))
  }

  /** PATH of RFC 6962, section 2.1.1: the siblings from the leaf up. */
  ghost function AuditPath(h: Hash, m: nat, leaves: seq<Bytes>): seq<Bytes>
    requires m < |leaves|
    decreases |leaves|
  {
    if |leaves| == 1 then []
    else
      var k := Split(|leaves|);
      if m < k then AuditPath(h, m, leaves[..k]) + [TreeHash(h, leaves[k..])]
      else AuditPath(h, m - k, leaves[k..]) + [TreeHash(h, leaves[..k])]
  }

  /** From the leaf up, whether the running node is the right child at each level. */
  ghost function Sides(m: nat, n: nat): seq<bool>
    requires m < n
    decreases n
  {
    if n == 1 then []
    else
      var k := Split(n);
      if m < k then Sides(m, k) + [false] else Sides(m - k, n - k) + [true]
  }

  /** What a level of the tree hashes, given the running node, its sibling and its side. */
  function LevelInput(right: bool, sibling: Bytes, node: Bytes): Bytes {
    if right then NodeInput(sibling, node) else NodeInput(node, sibling)
  }

  /** Fold a path of siblings onto a node, one level at a time. */
  function Climb(h: Hash, sides: seq<bool>, siblings: seq<Bytes>, node: Digest): Digest
    requires |sides| == |siblings|
  {
    if sides == [] then node
    else
      var last := |sides| - 1;
      h(LevelInput(sides[last], siblings[last], Climb(h, sides[..last], siblings[..last], node)))
  }

  /** The root a proof claims: the entry's leaf hash carried up the tree's own sides. */
  ghost function ClaimedRoot(h: Hash, m: nat, n: nat, siblings: seq<Bytes>, body: Bytes): Digest
    requires m < n && |siblings| == |Sides(m, n)|
  {
    Climb(h, Sides(m, n), siblings, h(LeafInput(body)))
  }

  lemma {:induction false} AuditPathLength(h: Hash, m: nat, leaves: seq<Bytes>)
    requires m < |leaves|
    ensures |AuditPath(h, m, leaves)| == |Sides(m, |leaves|)|
    decreases |leaves|
  {
    var n := |leaves|;
    if n > 1 {
      var k := Split(n);
      var left, right := leaves[..k], leaves[k..];
      if m < k {
        calc {
          |AuditPath(h, m, leaves)|;
          |AuditPath(h, m, left)| + 1;
          { AuditPathLength(h, m, left); assert |left| == k; }
          |Sides(m, k)| + 1;
          |Sides(m, n)|;
        }
      } else {
        calc {
          |AuditPath(h, m, leaves)|;
          |AuditPath(h, m - k, right)| + 1;
          { AuditPathLength(h, m - k, right); assert |right| == n - k; }
          |Sides(m - k, n - k)| + 1;
          |Sides(m, n)|;
        }
      }
    }
  }

  lemma ClimbOneMore(h: Hash, sides: seq<bool>, siblings: seq<Bytes>, node: Digest, right: bool, sibling: Bytes)
    requires |sides| == |siblings|
    ensures Climb(h, sides + [right], siblings + [sibling], node)
         == h(LevelInput(right, sibling, Climb(h, sides, siblings, node)))
  {
    assert (sides + [right])[..|sides|] == sides && (siblings + [sibling])[..|sides|] == siblings;
  }

  /** Completeness: the honest path of every leaf climbs to the tree's root. */
  lemma {:induction false} HonestPathClimbsToRoot(h: Hash, m: nat, leaves: seq<Bytes>)
    requires m < |leaves|
    ensures |AuditPath(h, m, leaves)| == |Sides(m, |leaves|)|
    ensures ClaimedRoot(h, m, |leaves|, AuditPath(h, m, leaves), leaves[m]) == TreeHash(h, leaves)
    decreases |leaves|
  {
    AuditPathLength(h, m, leaves);
    if |leaves| > 1 {
      var k := Split(|leaves|);
      var left, right := leaves[..k], leaves[k..];
      assert TreeHash(h, leaves) == HashChildren(h, TreeHash(h, left), TreeHash(h, right));
      if m < k {
        HonestPathClimbsToRoot(h, m, left);
        assert AuditPath(h, m, leaves) == AuditPath(h, m, left) + [TreeHash(h, right)];
        ClimbOneMore(h, Sides(m, k), AuditPath(h, m, left), h(LeafInput(leaves[m])), false, TreeHash(h, right));
      } else {
        HonestPathClimbsToRoot(h, m - k, right);
        assert AuditPath(h, m, leaves) == AuditPath(h, m - k, right) + [TreeHash(h, left)];
        ClimbOneMore(h, Sides(m - k, |leaves| - k), AuditPath(h, m - k, right), h(LeafInput(leaves[m])),
                     true, TreeHash(h, left));
      }
    }
  }

  /** Equal inputs to a level have equal nodes and siblings, whatever the siblings' lengths:
      the running node is a digest, so its side fixes where it ends. */
  lemma LevelInputInjective(right: bool, s: Bytes, a: Digest, t: Bytes, b: Digest)
    requires LevelInput(right, s, a) == LevelInput(right, t, b)
    ensures s == t && a == b
  {
    var x, y := LevelInput(right, s, a), LevelInput(right, t, b);
    if right {
      assert s == x[1..|x| - DIGEST_SIZE] && a == x[|x| - DIGEST_SIZE..];
      assert t == y[1..|y| - DIGEST_SIZE] && b == y[|y| - DIGEST_SIZE..];
    } else {
      assert a == x[1..1 + DIGEST_SIZE] && s == x[1 + DIGEST_SIZE..];
      assert b == y[1..1 + DIGEST_SIZE] && t == y[1 + DIGEST_SIZE..];
    }
  }

  /** Walk two climbs down from their common root until their hash inputs part. */
  function FindCollision(h: Hash, sides: seq<bool>, s: seq<Bytes>, x: Bytes, t: seq<Bytes>, y: Bytes)
    : (found: (Bytes, Bytes))
    requires |sides| == |s| == |t|
  {
    if sides == [] then (x, y)
    else
      var last := |sides| - 1;
      var a := LevelInput(sides[last], s[last], Climb(h, sides[..last], s[..last], h(x)));
      var b := LevelInput(sides[last], t[last], Climb(h, sides[..last], t[..last], h(y)));
      if a != b then (a, b) else FindCollision(h, sides[..last], s[..last], x, t[..last], y)
  }

  /** Two climbs to one root are the same climb, or the walk above found a collision. */
  lemma {:induction false} EqualClimbsOrCollision(
    h: Hash, sides: seq<bool>, s: seq<Bytes>, x: Bytes, t: seq<Bytes>, y: Bytes)
    requires |sides| == |s| == |t|
    requires Climb(h, sides, s, h(x)) == Climb(h, sides, t, h(y))
    ensures
      var (a, b) := FindCollision(h, sides, s, x, t, y);
      if s == t && x == y then a == b else Collides(h, a, b)
  {
    if sides != [] {
      var last := |sides| - 1;
      var m, n := Climb(h, sides[..last], s[..last], h(x)), Climb(h, sides[..last], t[..last], h(y));
      var a, b := LevelInput(sides[last], s[last], m), LevelInput(sides[last], t[last], n);
      assert s == s[..last] + [s[last]] && t == t[..last] + [t[last]];
      if a == b {
        LevelInputInjective(sides[last], s[last], m, t[last], n);
        EqualClimbsOrCollision(h, sides[..last], s[..last], x, t[..last], y);
      }
    }
  }

  /** Binding: a proof that recomputes the root of `leaves` carries the leaf at its index and
      the honest path, or it yields two distinct strings with one hash. */
  lemma ProofBindsLeaf(h: Hash, m: nat, leaves: seq<Bytes>, siblings: seq<Bytes>, body: Bytes)
    requires m < |leaves| && |siblings| == |Sides(m, |leaves|)|
    requires ClaimedRoot(h, m, |leaves|, siblings, body) == TreeHash(h, leaves)
    ensures |AuditPath(h, m, leaves)| == |siblings|
    ensures
      var path := AuditPath(h, m, leaves);
      var (a, b) := FindCollision(h, Sides(m, |leaves|), siblings, LeafInput(body),
                                  path, LeafInput(leaves[m]));
      (body == leaves[m] && siblings == path) || Collides(h, a, b)
  {
    HonestPathClimbsToRoot(h, m, leaves);
    EqualClimbsOrCollision(h, Sides(m, |leaves|), siblings, LeafInput(body),
                           AuditPath(h, m, leaves), LeafInput(leaves[m]));
    assert body == LeafInput(body)[1..] && leaves[m] == LeafInput(leaves[m])[1..];
  }

  // ---------- What is hashed ----------

  /** The bytes a log's root is the hash of: nothing for an empty log, a zero byte and the entry
      for a log of one, and a one byte and the two halves' roots for any other. */
  ghost function RootInput(h: Hash, leaves: seq<Bytes>): Bytes {
    if leaves == [] then []
    else if |leaves| == 1 then [0] + leaves[0]
    else [1] + TreeHash(h, leaves[..Split(|leaves|)]) + TreeHash(h, leaves[Split(|leaves|)..])
  }

  lemma RootHashesItsInput(h: Hash, leaves: seq<Bytes>)
    ensures TreeHash(h, leaves) == h(RootInput(h, leaves))
  {
  }

  /** The roots of the smallest logs in bytes, as a tree and as a proof of each entry climbs
      to it. */
  lemma SmallestLogs(h: Hash, a: Bytes, b: Bytes)
    ensures TreeHash(h, []) == h([])
    ensures TreeHash(h, [a]) == ClaimedRoot(h, 0, 1, [], a) == h([0] + a)
    ensures |Sides(0, 2)| == |Sides(1, 2)| == 1
    ensures TreeHash(h, [a, b]) == h([1] + h([0] + a) + h([0] + b))
    ensures ClaimedRoot(h, 0, 2, [h([0] + b)], a) == h([1] + h([0] + a) + h([0] + b))
    ensures ClaimedRoot(h, 1, 2, [h([0] + a)], b) == h([1] + h([0] + a) + h([0] + b))
  {
    var two := [a, b];
    assert Split(2) == 1;
    assert two[..1] == [a] && two[1..] == [b];
    RootHashesItsInput(h, two);
    assert AuditPath(h, 0, two) == [h([0] + b)] by {
      assert AuditPath(h, 0, [a]) == [];
    }
    assert AuditPath(h, 1, two) == [h([0] + a)] by {
      assert AuditPath(h, 0, [b]) == [];
    }
    HonestPathClimbsToRoot(h, 0, two);
    HonestPathClimbsToRoot(h, 1, two);
  }

  /** Walk two logs down from their common root until their hash inputs part. */
  ghost function LogCollision(h: Hash, xs: seq<Bytes>, ys: seq<Bytes>): (Bytes, Bytes)
    decreases |xs|
  {
    if RootInput(h, xs) != RootInput(h, ys) || |xs| < 2 || |ys| < 2 then (RootInput(h, xs), RootInput(h, ys))
    else
      var j, k := Split(|xs|), Split(|ys|);
      if xs[..j] != ys[..k] then LogCollision(h, xs[..j], ys[..k]) else LogCollision(h, xs[j..], ys[k..])
  }

  /** One root, one log: two logs of any sizes with one root are the same log, or the walk
      found two strings with one hash. It rests on no entry being hashed as a pair of nodes is. */
  lemma {:induction false} OneRootOneLog(h: Hash, xs: seq<Bytes>, ys: seq<Bytes>)
    requires TreeHash(h, xs) == TreeHash(h, ys) && xs != ys
    ensures var (a, b) := LogCollision(h, xs, ys); Collides(h, a, b)
    decreases |xs|
  {
    RootHashesItsInput(h, xs);
    RootHashesItsInput(h, ys);
    var a, b := RootInput(h, xs), RootInput(h, ys);
    if a == b {
      SameInputSameShape(h, xs, ys);
      var j, k := Split(|xs|), Split(|ys|);
      HalvesOfInput(h, xs);
      HalvesOfInput(h, ys);
      assert xs == xs[..j] + xs[j..] && ys == ys[..k] + ys[k..];
      if xs[..j] != ys[..k] {
        OneRootOneLog(h, xs[..j], ys[..k]);
      } else {
        OneRootOneLog(h, xs[j..], ys[k..]);
      }
    }
  }

  lemma HalvesOfInput(h: Hash, leaves: seq<Bytes>)
    requires |leaves| >= 2
    ensures
      var input, k := RootInput(h, leaves), Split(|leaves|);
      && |input| == 1 + 2 * DIGEST_SIZE
      && input[1..1 + DIGEST_SIZE] == TreeHash(h, leaves[..k]) && input[1 + DIGEST_SIZE..] == TreeHash(h, leaves[k..])
  {
  }

  lemma SameInputSameShape(h: Hash, xs: seq<Bytes>, ys: seq<Bytes>)
    requires RootInput(h, xs) == RootInput(h, ys)
    ensures xs == ys || (|xs| >= 2 && |ys| >= 2)
  {
    InputTellsShape(h, xs);
    InputTellsShape(h, ys);
  }

  /** The first byte tells an entry from a pair of nodes, and what follows it is the entry. */
  lemma InputTellsShape(h: Hash, leaves: seq<Bytes>)
    ensures leaves == [] <==> RootInput(h, leaves) == []
    ensures |leaves| == 1 <==> RootInput(h, leaves) != [] && RootInput(h, leaves)[0] == 0
    ensures |leaves| == 1 ==> leaves == [RootInput(h, leaves)[1..]]
  {
  }
}
