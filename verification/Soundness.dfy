/** What an accepted signature proves. No property of the hash is assumed: every
    statement holds outright or comes with two inputs, met on the way, that collide. */
module Soundness {
  import opened Base
  import opened Merkle
  import opened Winternitz

  /** Two byte strings put forward as a collision. */
  datatype Clash = Clash(x: Bytes, y: Bytes)

  predicate Collides(H: Hash, c: Clash) { c.x != c.y && H(c.x) == H(c.y) }

  // ---- Chains ----

  lemma {:induction false} ChainSplit(H: Hash, x: Digest, a: nat, b: nat)
    ensures Chain(H, Chain(H, x, a), b) == Chain(H, x, a + b)
  {
    if b > 0 {
      ChainSplit(H, x, a, b - 1);
    }
  }

  /** The strings hashed when `x` is walked `k` steps. */
  function ChainInputs(H: Hash, x: Digest, k: nat): set<Bytes>
    decreases k
  {
    if k == 0 then {} else ChainInputs(H, x, k - 1) + {Chain(H, x, k - 1)}
  }

  lemma {:induction false} ChainInputsSplit(H: Hash, x: Digest, a: nat, b: nat)
    ensures ChainInputs(H, Chain(H, x, a), b) <= ChainInputs(H, x, a + b)
  {
    if b > 0 {
      ChainInputsSplit(H, x, a, b - 1);
      ChainSplit(H, x, a, b - 1);
    }
  }

  lemma {:induction false} ChainInputsAt(H: Hash, x: Digest, t: nat, k: nat)
    requires t < k
    ensures Chain(H, x, t) in ChainInputs(H, x, k)
    decreases k
  {
    if t < k - 1 {
      ChainInputsAt(H, x, t, k - 1);
    }
  }

  /** The last step at which two chains that end together still differ. */
  function MeetingStep(H: Hash, x: Digest, y: Digest, k: nat): (t: nat)
    requires x != y && Chain(H, x, k) == Chain(H, y, k)
    ensures t < k && Chain(H, x, t) != Chain(H, y, t) && Chain(H, x, t + 1) == Chain(H, y, t + 1)
    decreases k
  {
    if Chain(H, x, k - 1) != Chain(H, y, k - 1) then k - 1 else MeetingStep(H, x, y, k - 1)
  }

  /** Two chains that start apart and end together cross at some step. */
  function ChainClash(H: Hash, x: Digest, y: Digest, k: nat): (c: Clash)
    requires x != y && Chain(H, x, k) == Chain(H, y, k)
    ensures Collides(H, c) && c.x in ChainInputs(H, x, k) && c.y in ChainInputs(H, y, k)
  {
    var t := MeetingStep(H, x, y, k);
    ChainInputsAt(H, x, t, k);
    ChainInputsAt(H, y, t, k);
    Clash(Chain(H, x, t), Chain(H, y, t))
  }

  // ---- The committed root ----

  /** A node of the tree recomputed from below: its hash input is a tag byte 1, the left node and the right node. */
  function ClimbHash(H: Hash, h: Digest, k: nat, path: seq<Digest>): Digest
    decreases |path|
  {
    if path == [] then h
    else ClimbHash(H, if k % 2 == 0 then H([1] + h + path[0]) else H([1] + path[0] + h), k / 2, path[1..])
  }

  lemma {:induction false} ClimbIsHash(H: Hash, h: Digest, k: nat, path: seq<Digest>)
    ensures ClimbHash(H, h, k, path) == Climb(NodeHash(H), h, k, path)
    decreases |path|
  {
    if path != [] {
      ClimbIsHash(H, if k % 2 == 0 then H([1] + h + path[0]) else H([1] + path[0] + h), k / 2, path[1..]);
      assert NodeInput(h, path[0]) == [1] + h + path[0] && NodeInput(path[0], h) == [1] + path[0] + h;
    }
  }

  /** Every scalar of a public key, hashed behind a tag byte 0, leads to the committed root by as many steps as the
      tree is deep, combined from the left where its index is even and from the right where it is odd. */
  lemma {:induction false} ScalarLeadsToRoot(H: Hash, pk: Scalars, k: nat) returns (path: seq<Digest>)
    requires k < |pk.All()|
    ensures ClimbHash(H, H([0] + pk.All()[k]), k, path) == MerkleRoot(H, pk)
    ensures Pow2(|path|) < 2 * |pk.All()| <= 2 * Pow2(|path|)
  {
    var leaves := Leaves(LeafHash(H), pk.All());
    path := Siblings(NodeHash(H), leaves, k);
    PathLeadsToRoot(NodeHash(H), leaves, k);
    assert LeafInput(pk.All()[k]) == [0] + pk.All()[k];
    ClimbIsHash(H, leaves[k], k, path);
  }

  /** `x` is one of the strings hashed while merklizing `pk`. */
  ghost predicate RootHashes(H: Hash, pk: Scalars, x: Bytes) {
    || (exists s :: s in pk.All() && x == LeafInput(s))
    || (exists p :: p in TreePairs(NodeHash(H), Leaves(LeafHash(H), pk.All())) && x == NodeInput(p.0, p.1))
  }

  lemma {:induction false} NodeInputsDiffer(p: (Digest, Digest), q: (Digest, Digest))
    requires p != q
    ensures NodeInput(p.0, p.1) != NodeInput(q.0, q.1)
  {
    assert p.0 == NodeInput(p.0, p.1)[1..33] && p.1 == NodeInput(p.0, p.1)[33..];
    assert q.0 == NodeInput(q.0, q.1)[1..33] && q.1 == NodeInput(q.0, q.1)[33..];
  }

  lemma {:induction false} LeafInputsDiffer(s: Digest, t: Digest)
    requires s != t
    ensures LeafInput(s) != LeafInput(t)
  {
    assert s == LeafInput(s)[1..] && t == LeafInput(t)[1..];
  }

  /** Two different public keys of one size under one root collide in a node or in a leaf. */
  function PubkeyClash(H: Hash, p: Scalars, q: Scalars): (c: Clash)
    requires p.All() != [] && |p.All()| == |q.All()| && p.All() != q.All()
    requires MerkleRoot(H, p) == MerkleRoot(H, q)
    ensures Collides(H, c) && RootHashes(H, p, c.x) && RootHashes(H, q, c.y)
  {
    var leavesP, leavesQ := Leaves(LeafHash(H), p.All()), Leaves(LeafHash(H), q.All());
    if leavesP != leavesQ then
      var (a, b) := RootClash(NodeHash(H), leavesP, leavesQ);
      NodeInputsDiffer(a, b);
      Clash(NodeInput(a.0, a.1), NodeInput(b.0, b.1))
    else
      var k := FirstDifference(p.All(), q.All());
      assert leavesP[k] == leavesQ[k];
      LeafInputsDiffer(p.All()[k], q.All()[k]);
      Clash(LeafInput(p.All()[k]), LeafInput(q.All()[k]))
  }

  // ---- Signatures ----

  /** The root committed to by a private key. */
  function KeyRoot(H: Hash, sk: Scalars): Digest
    requires |sk.All()| >= 2
  {
    MerkleRoot(H, ToPubkey(H, sk))
  }

  lemma {:induction false} RecoverOfSign(H: Hash, sk: Scalars, m: Bytes)
    requires |m| <= 32 && sk.Fits(|m|)
    ensures RecoverPubkey(H, Sign(H, sk, m), m) == ToPubkey(H, sk)
  {
    var d, n := Digits(m), |sk.All()|;
    forall i | 0 <= i < n
      ensures Walk(H, Walk(H, sk.All(), d), Rest(d))[i] == Walk(H, sk.All(), Full(n))[i]
    {
      ChainSplit(H, sk.All()[i], d[i], 255 - d[i]);
    }
    assert Walk(H, Walk(H, sk.All(), d), Rest(d)) == Walk(H, sk.All(), Full(n));
  }

  /** Completeness: what signing makes, verification accepts. */
  lemma {:induction false} SignedVerifies(H: Hash, sk: Scalars, m: Bytes)
    requires |m| <= 32 && sk.Fits(|m|)
    ensures VerifyPrehashed(H, Sign(H, sk, m), m, KeyRoot(H, sk))
  {
    RecoverOfSign(H, sk, m);
  }

  /** `x` is one of the strings hashed while verifying `sig` over `m`. */
  ghost predicate VerifierHashes(H: Hash, sig: Scalars, m: Bytes, x: Bytes)
    requires |m| <= 32 && sig.Fits(|m|)
  {
    || (exists i :: 0 <= i < |sig.All()| && x in ChainInputs(H, sig.All()[i], Rest(Digits(m))[i]))
    || RootHashes(H, RecoverPubkey(H, sig, m), x)
  }

  /** `x` is one of the strings hashed while computing the root of `sk`. */
  ghost predicate KeyHashes(H: Hash, sk: Scalars, x: Bytes)
    requires |sk.All()| >= 2
  {
    || (exists i :: 0 <= i < |sk.All()| && x in ChainInputs(H, sk.All()[i], 255))
    || RootHashes(H, ToPubkey(H, sk), x)
  }

  lemma {:induction false} DifferentScalars(a: Scalars, b: Scalars)
    requires |a.message| == |b.message| && a != b
    ensures a.All() != b.All()
  {
    assert a.message == a.All()[..|a.message|] && b.message == b.All()[..|b.message|];
    assert a.checksum == a.All()[|a.message|..] && b.checksum == b.All()[|b.message|..];
  }

  /** A scalar that differs from the genuine one but completes to the same public scalar. */
  function ScalarClash(H: Hash, sk: Scalars, m: Bytes, sig: Scalars, i: nat): (c: Clash)
    requires |m| <= 32 && sk.Fits(|m|) && sig.Fits(|m|) && i < |m| + 2
    requires sig.All()[i] != Sign(H, sk, m).All()[i]
    requires RecoverPubkey(H, sig, m).All()[i] == ToPubkey(H, sk).All()[i]
    ensures Collides(H, c) && VerifierHashes(H, sig, m, c.x) && KeyHashes(H, sk, c.y)
  {
    var x, d := sk.All()[i], Digits(m)[i];
    ChainSplit(H, x, d, 255 - d);
    ChainInputsSplit(H, x, d, 255 - d);
    ChainClash(H, sig.All()[i], Chain(H, x, d), 255 - d)
  }

  /** Soundness: from any accepted signature other than the one `sk` makes, read off a collision
      between a string the verifier hashed and a string the key's owner hashed. */
  function ForgeryClash(H: Hash, sk: Scalars, m: Bytes, sig: Scalars): (c: Clash)
    requires |m| <= 32 && sk.Fits(|m|) && sig.Fits(|m|)
    requires VerifyPrehashed(H, sig, m, KeyRoot(H, sk)) && sig != Sign(H, sk, m)
    ensures Collides(H, c) && VerifierHashes(H, sig, m, c.x) && KeyHashes(H, sk, c.y)
  {
    var pk, recovered := ToPubkey(H, sk), RecoverPubkey(H, sig, m);
    if recovered.All() != pk.All() then PubkeyClash(H, recovered, pk)
    else
      DifferentScalars(sig, Sign(H, sk, m));
      ScalarClash(H, sk, m, sig, FirstDifference(sig.All(), Sign(H, sk, m).All()))
  }

  // ---- The checksum makes digit vectors incomparable ----

  lemma {:induction false} SumFalls(m: Bytes, m': Bytes)
    requires |m| == |m'| && forall i :: 0 <= i < |m| ==> m[i] >= m'[i]
    ensures ChecksumSum(m) <= ChecksumSum(m')
    ensures m != m' ==> ChecksumSum(m) < ChecksumSum(m')
  {
    var n := |m|;
    if n > 0 {
      SumFalls(m[..n - 1], m'[..n - 1]);
      if m != m' && m[n - 1] == m'[n - 1] {
        assert m == m[..n - 1] + [m[n - 1]] && m' == m'[..n - 1] + [m'[n - 1]];
      }
    }
  }

  /** The first position at which `m` has a smaller byte, or the length if there is none. */
  function FirstSmaller(m: Bytes, m': Bytes): (i: nat)
    requires |m| == |m'|
    ensures i <= |m| && (i < |m| ==> m[i] < m'[i])
    ensures i == |m| ==> forall k :: 0 <= k < |m| ==> m[k] >= m'[k]
  {
    if m == [] then 0
    else if m[0] < m'[0] then 0
    else
      assert forall k :: 1 <= k < |m| ==> m[k] == m[1..][k - 1] && m'[k] == m'[1..][k - 1];
      1 + FirstSmaller(m[1..], m'[1..])
  }

  /** For any two different digests the first has a digit strictly below the second's.
      By symmetry the digit vectors of different messages are never comparable. */
  function LowerDigit(m: Bytes, m': Bytes): (i: nat)
    requires |m| == |m'| <= 32 && m != m'
    ensures i < |m| + 2 && Digits(m)[i] < Digits(m')[i]
  {
    var i := FirstSmaller(m, m');
    if i < |m| then i
    else
      SumFalls(m, m');
      if HighByte(ChecksumSum(m)) < HighByte(ChecksumSum(m')) then |m| else |m| + 1
  }

  lemma {:induction false} DigitsAntichain(m: Bytes, m': Bytes) returns (i: nat, j: nat)
    requires |m| == |m'| <= 32 && m != m'
    ensures i < |m| + 2 && Digits(m)[i] < Digits(m')[i]
    ensures j < |m| + 2 && Digits(m)[j] > Digits(m')[j]
  {
    i, j := LowerDigit(m, m'), LowerDigit(m', m);
  }

  lemma {:induction false} LaterLink(H: Hash, sk: Scalars, m: Bytes, m': Bytes, i: nat)
    requires |m| == |m'| <= 32 && sk.Fits(|m|) && i < |m| + 2 && Digits(m')[i] < Digits(m)[i]
    ensures Chain(H, Sign(H, sk, m').All()[i], Digits(m)[i] - Digits(m')[i]) == Sign(H, sk, m).All()[i]
  {
    ChainSplit(H, sk.All()[i], Digits(m')[i], Digits(m)[i] - Digits(m')[i]);
  }

  /** An accepted signature on any other digest hands over an earlier link of a chain whose
      published scalar is a later link, or a collision met by verifier and owner. */
  lemma {:induction false} OtherDigestForgery(H: Hash, sk: Scalars, m: Bytes, m': Bytes,
                                              forged: Scalars) returns (i: nat, c: Clash)
    requires |m| == |m'| <= 32 && m != m' && sk.Fits(|m|) && forged.Fits(|m|)
    requires VerifyPrehashed(H, forged, m', KeyRoot(H, sk))
    ensures i < |m| + 2 && Digits(m')[i] < Digits(m)[i]
    ensures || Chain(H, forged.All()[i], Digits(m)[i] - Digits(m')[i]) == Sign(H, sk, m).All()[i]
            || (Collides(H, c) && VerifierHashes(H, forged, m', c.x) && KeyHashes(H, sk, c.y))
  {
    i, c := LowerDigit(m', m), Clash([], []);
    if forged == Sign(H, sk, m') {
      LaterLink(H, sk, m, m', i);
    } else {
      c := ForgeryClash(H, sk, m', forged);
    }
  }
}
