/** The offline check of a transparency-log inclusion proof. The root is recomputed by two
    loops over the bits of the leaf index; they are proved against the recursive tree. */
module Rekor {
  import opened Bits
  import opened Decimal
  import opened Merkle
  import opened Wrappers

  datatype Error =
    | UntrustedLog
    | MalformedBody
    | DifferentDigest
    | MalformedProof
    | IndexOutOfRange
    | WrongPathLength
    | MalformedCheckpoint
    | DifferentRoot
    | DifferentTreeSize
    | MalformedSignature
    | WrongKeyHint
    | BadSignature
    | MissingTime

  /** The number of levels walked by the bits of the index, and of right-border levels after
      them. */
  function InnerLevels(leafIndex: nat, treeSize: nat): nat
    requires leafIndex < treeSize
  {
    BitLength(Xor(leafIndex, treeSize - 1))
  }

  function BorderLevels(leafIndex: nat, treeSize: nat): nat
    requires leafIndex < treeSize
  {
    PopCount(Shr(leafIndex, InnerLevels(leafIndex, treeSize)))
  }

  /** The sides the two loops take: the low bits of the index, then the right border. */
  function LoopSides(leafIndex: nat, treeSize: nat): seq<bool>
    requires leafIndex < treeSize
  {
    LowBits(leafIndex, InnerLevels(leafIndex, treeSize)) + Border(BorderLevels(leafIndex, treeSize))
  }

  function LowBits(n: nat, count: nat): (bits: seq<bool>)
    ensures |bits| == count
    ensures forall i | 0 <= i < count :: bits[i] == Bit(n, i)
  {
    if count == 0 then [] else LowBits(n, count - 1) + [Bit(n, count - 1)]
  }

  function Border(count: nat): (sides: seq<bool>)
    ensures |sides| == count
    ensures forall i | 0 <= i < count :: sides[i]
  {
    if count == 0 then [] else Border(count - 1) + [true]
  }

  lemma LowBitsStrip(p: nat, m: nat, count: nat)
    requires count <= p && Pow2(p) <= m < 2 * Pow2(p)
    ensures LowBits(m, count) == LowBits(m - Pow2(p), count)
  {
    forall i | 0 <= i < count ensures Bit(m, i) == Bit(m - Pow2(p), i) {
      BitBelowTop(p, m, i);
    }
  }

  lemma SplitExponentUnique(n: nat, p: nat)
    requires n > 1 && Pow2(p) < n <= 2 * Pow2(p)
    ensures SplitExponent(n) == p
  {
    var q := SplitExponent(n);
    if q < p {
      Pow2Monotone(q, p);
    } else if p < q {
      Pow2Monotone(p, q);
    }
  }

  /** In a complete tree the sides are the bits of the index. */
  lemma {:induction false} SidesOfCompleteTree(m: nat, p: nat)
    requires m < Pow2(p)
    ensures Sides(m, Pow2(p)) == LowBits(m, p)
  {
    if p > 0 {
      var k := Pow2(p - 1);
      SplitExponentUnique(2 * k, p - 1);
      TopBit(p - 1, m);
      if m < k {
        assert Sides(m, 2 * k) == Sides(m, k) + [false];
        SidesOfCompleteTree(m, p - 1);
      } else {
        assert Sides(m, 2 * k) == Sides(m - k, k) + [true];
        SidesOfCompleteTree(m - k, p - 1);
        LowBitsStrip(p - 1, m, p - 1);
      }
    }
  }

  /** Left of the split every level is an inner one. */
  lemma LevelsLeftOfSplit(m: nat, n: nat)
    requires n > 1 && m < Split(n)
    ensures InnerLevels(m, n) == SplitExponent(n) + 1 && BorderLevels(m, n) == 0
    ensures !Bit(m, SplitExponent(n))
  {
    var p := SplitExponent(n);
    XorAcross(p, m, n - 1);
    BitLengthOfInterval(p, Xor(m, n - 1));
    ShrBound(p + 1, m, p + 1);
    TopBit(p, m);
  }

  lemma InnerRightOfSplit(m: nat, n: nat)
    requires n > 1 && Split(n) <= m < n
    ensures InnerLevels(m, n) == InnerLevels(m - Split(n), n - Split(n)) <= SplitExponent(n)
  {
    var p, k := SplitExponent(n), Pow2(SplitExponent(n));
    XorStrip(p, m, n - 1);
    XorBound(p, m - k, n - 1 - k);
    BitLengthBound(p, Xor(m - k, n - 1 - k));
  }

  /** Right of the split the right subtree's levels are followed by one border level. */
  lemma LevelsRightOfSplit(m: nat, n: nat)
    requires n > 1 && Split(n) <= m < n
    ensures InnerLevels(m, n) == InnerLevels(m - Split(n), n - Split(n)) <= SplitExponent(n)
    ensures BorderLevels(m, n) == BorderLevels(m - Split(n), n - Split(n)) + 1
  {
    InnerRightOfSplit(m, n);
    ShiftedPopCount(SplitExponent(n), m, InnerLevels(m, n));
  }

  /** The loops take the recursive tree's sides, for every tree size and index. */
  lemma {:induction false} LoopSidesAreTreeSides(m: nat, n: nat)
    requires m < n
    ensures LoopSides(m, n) == Sides(m, n)
    decreases n
  {
    if n == 1 {
      assert Xor(0, 0) == 0;
    } else if m < Split(n) {
      LevelsLeftOfSplit(m, n);
      SidesOfCompleteTree(m, SplitExponent(n));
    } else {
      var k := Split(n);
      LevelsRightOfSplit(m, n);
      LoopSidesAreTreeSides(m - k, n - k);
      LowBitsStrip(SplitExponent(n), m, InnerLevels(m, n));
      assert Sides(m, n) == Sides(m - k, n - k) + [true];
    }
  }

  /** A path is never longer than the bit length of the last index. */
  lemma {:induction false} PathLengthBound(m: nat, n: nat)
    requires m < n
    ensures |Sides(m, n)| == InnerLevels(m, n) + BorderLevels(m, n) <= BitLength(n - 1)
    decreases n
  {
    LoopSidesAreTreeSides(m, n);
    if n > 1 {
      var p, k := SplitExponent(n), Split(n);
      BitLengthOfInterval(p, n - 1);
      if m < k {
        LevelsLeftOfSplit(m, n);
      } else {
        LevelsRightOfSplit(m, n);
        PathLengthBound(m - k, n - k);
        BitLengthBound(p, n - k - 1);
      }
    }
  }

  ghost function PathLength(leafIndex: int, treeSize: int): nat
    requires 0 <= leafIndex < treeSize
  {
    |Sides(leafIndex, treeSize)|
  }

  lemma ClimbStep(h: Hash, sides: seq<bool>, hashes: seq<Bytes>, leaf: Digest, i: nat)
    requires i < |sides| == |hashes|
    ensures Climb(h, sides[..i + 1], hashes[..i + 1], leaf)
         == h(LevelInput(sides[i], hashes[i], Climb(h, sides[..i], hashes[..i], leaf)))
  {
    assert sides[..i + 1][..i] == sides[..i] && hashes[..i + 1][..i] == hashes[..i];
  }

  /** The two loops: a sibling for each low bit of the index, on the side the bit says, then
      one on the left for every level of the right border. */
  method ClimbPath(h: Hash, leafIndex: nat, inner: nat, hashes: seq<Bytes>, leaf: Digest) returns (node: Digest)
    requires inner <= |hashes|
    ensures node == Climb(h, LowBits(leafIndex, inner) + Border(|hashes| - inner), hashes, leaf)
  {
    ghost var sides := LowBits(leafIndex, inner) + Border(|hashes| - inner);
    node := leaf;
    for i := 0 to inner
      invariant node == Climb(h, sides[..i], hashes[..i], leaf)
    {
      ClimbStep(h, sides, hashes, leaf, i);
      if Shr(leafIndex, i) % 2 == 0 {
        node := HashChildren(h, node, hashes[i]);
      } else {
        node := HashChildren(h, hashes[i], node);
      }
    }
    for i := inner to |hashes|
      invariant node == Climb(h, sides[..i], hashes[..i], leaf)
    {
      ClimbStep(h, sides, hashes, leaf, i);
      node := HashChildren(h, hashes[i], node);
    }
    assert sides[..|hashes|] == sides && hashes[..|hashes|] == hashes;
  }

  /** Recompute the root from the leaf and the audit path. It is refused exactly when the
      index is out of range or the path has not the length of the tree's own path; else the
      result is the root the recursive tree assigns to this leaf and these siblings. */
  method RootFromInclusionProof(h: Hash, leafIndex: int, treeSize: int, hashes: seq<Bytes>, body: Bytes)
    returns (r: Result<Digest, Error>)
    ensures r == Err(IndexOutOfRange) <==> !(0 <= leafIndex < treeSize)
    ensures 0 <= leafIndex < treeSize && |hashes| != PathLength(leafIndex, treeSize)
            ==> r == Err(WrongPathLength)
    ensures 0 <= leafIndex < treeSize && |hashes| == PathLength(leafIndex, treeSize)
            ==> r == Ok(ClaimedRoot(h, leafIndex, treeSize, hashes, body))
  {
    if !(0 <= leafIndex < treeSize) {
      return Err(IndexOutOfRange);
    }
    var leaf := h(LeafInput(body));
    var inner := BitLength(Xor(leafIndex, treeSize - 1));
    var border := PopCount(Shr(leafIndex, inner));
    LoopSidesAreTreeSides(leafIndex, treeSize);
    if |hashes| != inner + border {
      return Err(WrongPathLength);
    }
    var node := ClimbPath(h, leafIndex, inner, hashes, leaf);
    return Ok(node);
  }

  /** A signed checkpoint, split into the lines of its text and its first signature blob. */
  datatype Checkpoint = Checkpoint(lines: seq<string>, signature: Option<Bytes>)

  /** Text that is no decimal numeral, as Python prints a float, a truth value or a list. */
  type NonNumeral = s: string | HasNonDigit(s) witness "None"

  /** The tree size as the proof's JSON carries it. The check both coerces it to an integer and
      prints it. */
  datatype Size = Number(n: int) | Text(text: string) | OtherSize(printed: NonNumeral, coerced: Option<int>)

  /** A stored proof. A field the parser could not read as its type is `None`. */
  datatype Proof = Proof(
    logId: Option<string>,
    body: Option<Bytes>,
    leafIndex: Option<int>,
    size: Size,
    hashes: Option<seq<Bytes>>,
    checkpoint: Option<Checkpoint>,
    integratedTime: Option<int>)

  type Key = string

  /** The parsers and primitives the check calls: what digest an entry body records, base64,
      integers from text, a key's hint, and signature verification over the checkpoint's lines. */
  datatype Library = Library(
    hash: Hash,
    parseInt: string -> Option<int>,
    recorded: Bytes -> Option<string>,
    decode: string -> Option<Bytes>,
    hint: Key -> Bytes,
    signed: (Key, Bytes, seq<string>) -> bool)

  function Coerced(lib: Library, size: Size): Option<int> {
    match size
    case Number(n) => Some(n)
    case Text(text) => lib.parseInt(text)
    case OtherSize(_, coerced) => coerced
  }

  function Printed(size: Size): string {
    match size
    case Number(n) => if n >= 0 then Digits(n) else "-" + Digits(-n)
    case Text(text) => text
    case OtherSize(printed, _) => printed
  }

  function TreeSize(lib: Library, proof: Proof): Option<int> {
    Coerced(lib, proof.size)
  }

  /** Parsing a decimal numeral gives its number. */
  ghost predicate Numerals(lib: Library) {
    forall n: nat :: lib.parseInt(Digits(n)) == Some(n)
  }

  /** Where the signed line is a numeral, the size the path was checked against is its number:
      no other printable form of a size reads like a numeral and coerces to something else. */
  lemma SignedSizeIsTheSize(lib: Library, size: Size, n: nat)
    requires Numerals(lib) && Printed(size) == Digits(n)
    ensures Coerced(lib, size) == Some(n)
  {
    DigitsOnly(n);
    if size.Number? && size.n >= 0 {
      ValueOfDigits(size.n);
      ValueOfDigits(n);
    }
  }

  function Take(s: Bytes, n: nat): Bytes {
    if |s| <= n then s else s[..n]
  }

  function Drop(s: Bytes, n: nat): Bytes {
    if |s| <= n then [] else s[n..]
  }

  function CheckDigestBinding(lib: Library, body: Option<Bytes>, digest: string): Result<Bytes, Error> {
    if body.None? || lib.recorded(body.value).None? then Err(MalformedBody)
    else if lib.recorded(body.value).value != digest then Err(DifferentDigest)
    else Ok(body.value)
  }

  function VerifyCheckpoint(lib: Library, proof: Proof, root: Bytes, key: Key): Result<Bytes, Error> {
    if proof.checkpoint.None? || |proof.checkpoint.value.lines| < 3 then Err(MalformedCheckpoint)
    else
      var lines, signature := proof.checkpoint.value.lines, proof.checkpoint.value.signature;
      var committed := lib.decode(lines[2]);
      if committed.None? then Err(MalformedCheckpoint)
      else if committed.value != root then Err(DifferentRoot)
      else if Printed(proof.size) != lines[1] then Err(DifferentTreeSize)
      else if signature.None? then Err(MalformedSignature)
      else if Take(signature.value, 4) != lib.hint(key) then Err(WrongKeyHint)
      else if !lib.signed(key, Drop(signature.value, 4), lines) then Err(BadSignature)
      else Ok(root)
  }

  /** What acceptance establishes, in the recursive tree's terms: the entry records the digest,
      its index and path fit the tree, and a key the verifier pinned signed a checkpoint over
      the root this very entry climbs to and over the proof's printed size. */
  ghost predicate Accepts(lib: Library, keyring: map<string, Key>, proof: Proof, digest: string) {
    && proof.logId.Some? && proof.logId.value in keyring
    && proof.body.Some? && lib.recorded(proof.body.value) == Some(digest)
    && proof.leafIndex.Some? && TreeSize(lib, proof).Some? && proof.hashes.Some?
    && 0 <= proof.leafIndex.value < TreeSize(lib, proof).value
    && |proof.hashes.value| == PathLength(proof.leafIndex.value, TreeSize(lib, proof).value)
    && proof.checkpoint.Some? && |proof.checkpoint.value.lines| >= 3
    && var lines := proof.checkpoint.value.lines;
    && var key := keyring[proof.logId.value];
    && lib.decode(lines[2]) == Some(ClaimedRoot(lib.hash, proof.leafIndex.value, TreeSize(lib, proof).value,
                                                proof.hashes.value, proof.body.value))
    && lines[1] == Printed(proof.size)
    && proof.checkpoint.value.signature.Some?
    && var blob := proof.checkpoint.value.signature.value;
    && Take(blob, 4) == lib.hint(key)
    && lib.signed(key, Drop(blob, 4), lines)
    && proof.integratedTime.Some?
  }

  method VerifyRekorProof(lib: Library, keyring: map<string, Key>, proof: Proof, digest: string)
    returns (r: Result<int, Error>)
    ensures r.Ok? <==> Accepts(lib, keyring, proof, digest)
    ensures r.Ok? ==> Some(r.value) == proof.integratedTime
    ensures r == Err(UntrustedLog) <==> !(proof.logId.Some? && proof.logId.value in keyring)
  {
    if proof.logId.None? || proof.logId.value !in keyring {
      return Err(UntrustedLog);
    }
    var binding := CheckDigestBinding(lib, proof.body, digest);
    if binding.Err? {
      return Err(binding.error);
    }
    if proof.leafIndex.None? || TreeSize(lib, proof).None? || proof.hashes.None? {
      return Err(MalformedProof);
    }
    var root := RootFromInclusionProof(
      lib.hash, proof.leafIndex.value, TreeSize(lib, proof).value, proof.hashes.value, binding.value);
    if root.Err? {
      return Err(root.error);
    }
    var checked := VerifyCheckpoint(lib, proof, root.value, keyring[proof.logId.value]);
    if checked.Err? {
      return Err(checked.error);
    }
    if proof.integratedTime.None? {
      return Err(MissingTime);
    }
    return Ok(proof.integratedTime.value);
  }

  /** The two strings the binding argument compares last, read off a proof and the log. */
  ghost function Exhibit(h: Hash, proof: Proof, log: seq<Bytes>): (Bytes, Bytes)
    requires proof.body.Some? && proof.hashes.Some? && proof.leafIndex.Some?
    requires 0 <= proof.leafIndex.value < |log|
    requires |proof.hashes.value| == PathLength(proof.leafIndex.value, |log|)
  {
    var m := proof.leafIndex.value;
    AuditPathLength(h, m, log);
    FindCollision(h, Sides(m, |log|), proof.hashes.value, LeafInput(proof.body.value),
                  AuditPath(h, m, log), LeafInput(log[m]))
  }

  /** A checkpoint tells the truth about a log: its signed lines are the log's size, as a
      numeral, and its root. */
  ghost predicate Truthful(lib: Library, checkpoint: Checkpoint, log: seq<Bytes>) {
    && |checkpoint.lines| >= 3 && log != []
    && checkpoint.lines[1] == Digits(|log|)
    && lib.decode(checkpoint.lines[2]) == Some(TreeHash(lib.hash, log))
  }

  lemma AcceptedSize(lib: Library, keyring: map<string, Key>, proof: Proof, digest: string, log: seq<Bytes>)
    requires Accepts(lib, keyring, proof, digest) && Numerals(lib) && Truthful(lib, proof.checkpoint.value, log)
    ensures TreeSize(lib, proof) == Some(|log|) && 0 <= proof.leafIndex.value < |log|
    ensures |proof.hashes.value| == PathLength(proof.leafIndex.value, |log|)
  {
    SignedSizeIsTheSize(lib, proof.size, |log|);
  }

  /** The inclusion property: when the signed checkpoint tells the truth about a log, an
      accepted proof's entry is the log's entry at the proof's index, that log entry records
      the digest, and the path is the honest one - or the proof exhibits a collision. Nothing
      is asked of what the proof itself says about the size. */
  lemma AcceptedEntryIsInTheLog(
    lib: Library, keyring: map<string, Key>, proof: Proof, digest: string, log: seq<Bytes>)
    requires Accepts(lib, keyring, proof, digest) && Numerals(lib)
    requires Truthful(lib, proof.checkpoint.value, log)
    ensures 0 <= proof.leafIndex.value < |log|
    ensures |proof.hashes.value| == PathLength(proof.leafIndex.value, |log|)
    ensures
      var m, (x, y) := proof.leafIndex.value, Exhibit(lib.hash, proof, log);
      || (log[m] == proof.body.value && lib.recorded(log[m]) == Some(digest) &&
          proof.hashes.value == AuditPath(lib.hash, m, log))
      || Collides(lib.hash, x, y)
  {
    AcceptedSize(lib, keyring, proof, digest, log);
    ProofBindsLeaf(lib.hash, proof.leafIndex.value, log, proof.hashes.value, proof.body.value);
  }

  /** Nothing about a log is needed to compare two accepted proofs: one index, one size and
      one committed root leave one entry and one path, or a collision between the two. */
  lemma AcceptedProofsAgree(
    lib: Library, keyring: map<string, Key>, p: Proof, digest: string, q: Proof, digest': string)
    requires Accepts(lib, keyring, p, digest) && Accepts(lib, keyring, q, digest')
    requires p.leafIndex == q.leafIndex && TreeSize(lib, p) == TreeSize(lib, q)
    requires lib.decode(p.checkpoint.value.lines[2]) == lib.decode(q.checkpoint.value.lines[2])
    ensures
      var (x, y) := FindCollision(lib.hash, Sides(p.leafIndex.value, TreeSize(lib, p).value),
                                  p.hashes.value, LeafInput(p.body.value),
                                  q.hashes.value, LeafInput(q.body.value));
      (p.body == q.body && p.hashes == q.hashes && digest == digest') || Collides(lib.hash, x, y)
  {
    EqualClimbsOrCollision(lib.hash, Sides(p.leafIndex.value, TreeSize(lib, p).value),
                           p.hashes.value, LeafInput(p.body.value),
                           q.hashes.value, LeafInput(q.body.value));
    assert p.body.value == LeafInput(p.body.value)[1..] && q.body.value == LeafInput(q.body.value)[1..];
  }

  /** Nothing honest is refused: the proof of any entry of any log passes, whenever the body
      records the digest and the checkpoint is well formed and signed by a pinned key. */
  lemma HonestProofIsAccepted(
    lib: Library, keyring: map<string, Key>, proof: Proof, digest: string, log: seq<Bytes>, m: nat)
    requires m < |log|
    requires proof.leafIndex == Some(m) && proof.size == Number(|log|)
    requires proof.hashes == Some(AuditPath(lib.hash, m, log))
    requires proof.body == Some(log[m]) && lib.recorded(log[m]) == Some(digest)
    requires proof.logId.Some? && proof.logId.value in keyring && proof.integratedTime.Some?
    requires proof.checkpoint.Some? && |proof.checkpoint.value.lines| >= 3
    requires proof.checkpoint.value.lines[1] == Digits(|log|)
    requires lib.decode(proof.checkpoint.value.lines[2]) == Some(TreeHash(lib.hash, log))
    requires proof.checkpoint.value.signature.Some?
    requires
      var blob, key := proof.checkpoint.value.signature.value, keyring[proof.logId.value];
      Take(blob, 4) == lib.hint(key) && lib.signed(key, Drop(blob, 4), proof.checkpoint.value.lines)
    ensures Accepts(lib, keyring, proof, digest)
  {
    HonestPathClimbsToRoot(lib.hash, m, log);
  }

  /** With hints of four bytes, an accepted blob is the key's hint and then a signature by that
      key over the checkpoint's lines, and any such blob would do. */
  lemma SignatureAfterHint(lib: Library, key: Key, blob: Bytes, lines: seq<string>)
    requires |lib.hint(key)| == 4
    ensures Take(blob, 4) == lib.hint(key) && lib.signed(key, Drop(blob, 4), lines)
       <==> exists signature :: blob == lib.hint(key) + signature && lib.signed(key, signature, lines)
  {
    if Take(blob, 4) == lib.hint(key) {
      assert blob == lib.hint(key) + Drop(blob, 4);
    }
    forall signature | blob == lib.hint(key) + signature ensures Drop(blob, 4) == signature {
    }
  }

  lemma SizePrints(n: int)
    ensures n >= 0 ==> !HasNonDigit(Printed(Number(n))) && Value(Printed(Number(n))) == n
    ensures n < 0 ==> HasNonDigit(Printed(Number(n))) && Value(Printed(Number(n))[1..]) == -n
  {
    if n >= 0 {
      DigitsOnly(n);
      ValueOfDigits(n);
    } else {
      ValueOfDigits(-n);
      var printed := Printed(Number(n));
      assert printed == "-" + Digits(-n) && printed[0] == '-' && printed[1..] == Digits(-n);
    }
  }

  /** A size is printed as its numeral where it is no less than zero, and two sizes never alike. */
  lemma SizesPrintApart(m: int, n: int)
    ensures Printed(Number(m)) == Printed(Number(n)) <==> m == n
    ensures n >= 0 ==> !HasNonDigit(Printed(Number(n))) && Value(Printed(Number(n))) == n
  {
    SizePrints(m);
    SizePrints(n);
    var a, b := Printed(Number(m)), Printed(Number(n));
    if a == b {
      assert (m >= 0) == (n >= 0);
      assert m >= 0 ==> Value(a) == m && Value(b) == n;
      assert m < 0 ==> Value(a[1..]) == -m && Value(b[1..]) == -n;
    }
  }
}
