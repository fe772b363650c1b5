/** The Winternitz one-time signature: chains, signing, recovery and the committed root. */
module Winternitz {
  import opened Base
  import opened Merkle
  import MerkleStream

  /** `N` message scalars followed by two checksum scalars. Private keys, public keys
      and signatures all have this layout. */
  datatype Scalars = Scalars(message: seq<Digest>, checksum: seq<Digest>) {
    function All(): seq<Digest> { message + checksum }

    predicate Fits(n: nat) { |message| == n && |checksum| == 2 }
  }

  // ---- Specification ----

  function Chain(H: Hash, seed: Digest, k: nat): Digest
    decreases k
  {
    if k == 0 then seed else H(Chain(H, seed, k - 1))
  }

  function ChecksumSum(m: Bytes): (s: nat)
    ensures s <= 255 * |m|
  {
    if m == [] then 0 else ChecksumSum(m[..|m| - 1]) + (255 - m[|m| - 1])
  }

  /** `(s >> 8) as u8` and `s as u8`: together they lose nothing of a u16. */
  function HighByte(s: u16): (b: byte)
    ensures s - 255 <= 256 * b <= s
  {
    s / 256
  }

  function LowByte(s: u16): (b: byte)
    ensures 256 * HighByte(s) + b == s
  {
    s % 256
  }

  /** The chain position of every scalar: the message bytes, then the high and the
      low byte of the checksum. */
  function Digits(m: Bytes): (d: Bytes)
    requires |m| <= 32
    ensures |d| == |m| + 2
  {
    m + [HighByte(ChecksumSum(m)), LowByte(ChecksumSum(m))]
  }

  /** Every scalar walked forward along its own chain. */
  function Walk(H: Hash, xs: seq<Digest>, steps: seq<nat>): (ys: seq<Digest>)
    requires |xs| == |steps|
    ensures |ys| == |xs|
    ensures forall i {:trigger ys[i]} :: 0 <= i < |xs| ==> ys[i] == Chain(H, xs[i], steps[i])
  {
    seq<Digest>(|xs|, i requires 0 <= i < |xs| => Chain(H, xs[i], steps[i]))
  }

  function Rest(d: Bytes): (r: seq<nat>)
    ensures |r| == |d|
    ensures forall i {:trigger r[i]} :: 0 <= i < |d| ==> r[i] == 255 - d[i]
  {
    seq(|d|, i requires 0 <= i < |d| => 255 - d[i])
  }

  function Full(n: nat): (r: seq<nat>)
    ensures |r| == n
    ensures forall i :: 0 <= i < n ==> r[i] == 255
  {
    seq(n, _ => 255)
  }

  function Split(xs: seq<Digest>): (s: Scalars)
    requires |xs| >= 2
    ensures s.Fits(|xs| - 2) && s.All() == xs
  {
    Scalars(xs[..|xs| - 2], xs[|xs| - 2..])
  }

  function Sign(H: Hash, sk: Scalars, m: Bytes): (sig: Scalars)
    requires |m| <= 32 && sk.Fits(|m|)
    ensures sig.Fits(|m|) && sig.All() == Walk(H, sk.All(), Digits(m))
  {
    Split(Walk(H, sk.All(), Digits(m)))
  }

  function ToPubkey(H: Hash, sk: Scalars): (pk: Scalars)
    requires |sk.All()| >= 2
    ensures pk.Fits(|sk.All()| - 2) && pk.All() == Walk(H, sk.All(), Full(|sk.All()|))
  {
    Split(Walk(H, sk.All(), Full(|sk.All()|)))
  }

  function RecoverPubkey(H: Hash, sig: Scalars, m: Bytes): (pk: Scalars)
    requires |m| <= 32 && sig.Fits(|m|)
    ensures pk.Fits(|m|) && pk.All() == Walk(H, sig.All(), Rest(Digits(m)))
  {
    Split(Walk(H, sig.All(), Rest(Digits(m))))
  }

  function LeafInput(scalar: Digest): Bytes { [0] + scalar }

  function NodeInput(l: Digest, r: Digest): Bytes { [1] + l + r }

  function NodeHash(H: Hash): Combine<Digest> { (l: Digest, r: Digest) => H(NodeInput(l, r)) }

  function LeafHash(H: Hash): Digest -> Digest { (s: Digest) => H(LeafInput(s)) }

  /** The textbook tree over the tagged leaves. */
  function MerkleRoot(H: Hash, pk: Scalars): Digest
    requires pk.All() != []
  {
    Root(NodeHash(H), Leaves(LeafHash(H), pk.All()))
  }

  /** The digest a message of parts is signed under: SHA-256 of their concatenation, cut to `n` bytes. */
  function MessageDigest(H: Hash, parts: seq<Bytes>, n: nat): (m: Bytes)
    requires n <= 32
    ensures |m| == n
  {
    H(Concat(parts))[..n]
  }

  /** It is a prefix of the hash of all parts in a row. */
  lemma {:induction false} DigestIsPrefix(H: Hash, parts: seq<Bytes>, n: nat)
    requires n <= 32
    ensures MessageDigest(H, parts, n) <= H(Concat(parts))
  {
  }

  predicate VerifyPrehashed(H: Hash, sig: Scalars, m: Bytes, root: Digest)
    requires |m| <= 32 && sig.Fits(|m|)
  {
    MerkleRoot(H, RecoverPubkey(H, sig, m)) == root
  }

  predicate Verify(H: Hash, sig: Scalars, parts: seq<Bytes>, root: Digest)
    requires |sig.message| <= 32 && sig.Fits(|sig.message|)
  {
    VerifyPrehashed(H, sig, MessageDigest(H, parts, |sig.message|), root)
  }

  // ---- The code ----

  lemma {:induction false} ChecksumStep(m: Bytes, i: nat)
    requires i < |m|
    ensures ChecksumSum(m[..i + 1]) == ChecksumSum(m[..i]) + (255 - m[i])
  {
    assert m[..i + 1][..i] == m[..i];
  }

  lemma {:induction false} RestOfDigits(m: Bytes)
    requires |m| <= 32
    ensures Rest(Digits(m))[|m|] == 255 - HighByte(ChecksumSum(m))
    ensures Rest(Digits(m))[|m| + 1] == 255 - LowByte(ChecksumSum(m))
    ensures forall k {:trigger Rest(Digits(m))[k]} :: 0 <= k < |m| ==> Rest(Digits(m))[k] == 255 - m[k]
  {
  }

  /** Scalar-by-scalar results, put back together, are the walk of the whole vector. */
  lemma {:induction false} Assembled(H: Hash, xs: Scalars, steps: seq<nat>, message: seq<Digest>, hi: Digest,
                                     lo: Digest)
    requires xs.Fits(|message|) && |steps| == |message| + 2
    requires forall k {:trigger message[k]} :: 0 <= k < |message| ==> message[k] == Chain(H, xs.message[k], steps[k])
    requires hi == Chain(H, xs.checksum[0], steps[|message|])
    requires lo == Chain(H, xs.checksum[1], steps[|message| + 1])
    ensures Scalars(message, [hi, lo]) == Split(Walk(H, xs.All(), steps))
  {
    var s := Scalars(message, [hi, lo]);
    assert s.All() == Walk(H, xs.All(), steps);
    assert s.All()[..|message|] == message && s.All()[|message|..] == [hi, lo];
  }

  method ChainLoop(H: Hash, seed: Digest, iters: byte) returns (current: Digest)
    ensures current == Chain(H, seed, iters)
  {
    current := seed;
    for i := 0 to iters
      invariant current == Chain(H, seed, i)
    {
      current := H(current);
    }
  }

  /** The first `i` chains have been walked. */
  predicate Walked(H: Hash, xs: seq<Digest>, steps: seq<nat>, ys: seq<Digest>, i: nat) {
    && i <= |xs| == |steps| == |ys|
    && forall k {:trigger ys[k]} :: 0 <= k < i ==> ys[k] == Chain(H, xs[k], steps[k])
  }

  lemma {:induction false} WalkNext(H: Hash, xs: seq<Digest>, steps: seq<nat>, ys: seq<Digest>, i: nat)
    requires Walked(H, xs, steps, ys, i) && i < |xs|
    ensures Walked(H, xs, steps, ys[i := Chain(H, xs[i], steps[i])], i + 1)
  {
  }

  /** The loop over the message scalars: starts each chain and accumulates the checksum. */
  method StartChains(H: Hash, scalars: seq<Digest>, hash: Bytes) returns (sig: seq<Digest>, checksumSum: u16)
    requires |hash| <= 32 && |scalars| == |hash|
    ensures |sig| == |hash| && forall k :: 0 <= k < |hash| ==> sig[k] == Chain(H, scalars[k], hash[k])
    ensures checksumSum == ChecksumSum(hash)
  {
    var n := |hash|;
    var sigScalars := new Digest[n](_ => Zeros(32));
    checksumSum := 0;
    for i := 0 to n
      invariant checksumSum == ChecksumSum(hash[..i])
      invariant Walked(H, scalars, hash, sigScalars[..], i)
    {
      WalkNext(H, scalars, hash, sigScalars[..], i);
      ghost var before := sigScalars[..];
      sigScalars[i] := ChainLoop(H, scalars[i], hash[i]);
      assert sigScalars[..] == before[i := Chain(H, scalars[i], hash[i])];
      ChecksumStep(hash, i);
      checksumSum := checksumSum + (255 - hash[i]);
    }
    assert hash[..n] == hash;
    sig := sigScalars[..];
  }

  method SignPrehashed(H: Hash, sk: Scalars, hash: Bytes) returns (sig: Scalars)
    requires |hash| <= 32 && sk.Fits(|hash|)
    ensures sig == Sign(H, sk, hash)
  {
    var sigScalars, checksumSum := StartChains(H, sk.message, hash);
    var hi := ChainLoop(H, sk.checksum[0], HighByte(checksumSum));
    var lo := ChainLoop(H, sk.checksum[1], LowByte(checksumSum));
    sig := Scalars(sigScalars, [hi, lo]);
    Assembled(H, sk, Digits(hash), sig.message, hi, lo);
  }

  /** The loop over the message scalars: walks every chain to its end. */
  method EndChains(H: Hash, scalars: seq<Digest>) returns (pk: seq<Digest>)
    ensures |pk| == |scalars| && forall k :: 0 <= k < |scalars| ==> pk[k] == Chain(H, scalars[k], 255)
  {
    var n := |scalars|;
    var ends := new Digest[n](_ => Zeros(32));
    for i := 0 to n
      invariant Walked(H, scalars, Full(n), ends[..], i)
    {
      WalkNext(H, scalars, Full(n), ends[..], i);
      ghost var before := ends[..];
      ends[i] := ChainLoop(H, scalars[i], 255);
      assert ends[..] == before[i := Chain(H, scalars[i], 255)];
    }
    pk := ends[..];
  }

  method ToPubkeyLoop(H: Hash, sk: Scalars) returns (pk: Scalars)
    requires sk.Fits(|sk.message|)
    ensures pk == ToPubkey(H, sk)
  {
    var scalars := EndChains(H, sk.message);
    var hi := ChainLoop(H, sk.checksum[0], 255);
    var lo := ChainLoop(H, sk.checksum[1], 255);
    pk := Scalars(scalars, [hi, lo]);
    Assembled(H, sk, Full(|sk.All()|), scalars, hi, lo);
  }

  /** The loop over the message scalars: completes each chain and accumulates the checksum. */
  method CompleteChains(H: Hash, scalars: seq<Digest>, hash: Bytes) returns (pk: seq<Digest>, checksumSum: u16)
    requires |hash| <= 32 && |scalars| == |hash|
    ensures |pk| == |hash| && forall k :: 0 <= k < |hash| ==> pk[k] == Chain(H, scalars[k], 255 - hash[k])
    ensures checksumSum == ChecksumSum(hash)
  {
    var n := |hash|;
    var pkScalars := new Digest[n](_ => Zeros(32));
    checksumSum := 0;
    for i := 0 to n
      invariant checksumSum == ChecksumSum(hash[..i])
      invariant Walked(H, scalars, Rest(hash), pkScalars[..], i)
    {
      var left := 255 - hash[i];
      WalkNext(H, scalars, Rest(hash), pkScalars[..], i);
      ghost var before := pkScalars[..];
      pkScalars[i] := ChainLoop(H, scalars[i], left);
      assert pkScalars[..] == before[i := Chain(H, scalars[i], left)];
      ChecksumStep(hash, i);
      checksumSum := checksumSum + left;
    }
    assert hash[..n] == hash;
    pk := pkScalars[..];
  }

  lemma {:induction false} CompletedSteps(H: Hash, xs: seq<Digest>, hash: Bytes, message: seq<Digest>, steps: seq<nat>)
    requires |hash| <= 32 && |xs| == |message| == |hash| && steps == Rest(Digits(hash))
    requires forall k {:trigger message[k]} :: 0 <= k < |hash| ==> message[k] == Chain(H, xs[k], 255 - hash[k])
    ensures forall k {:trigger message[k]} :: 0 <= k < |hash| ==> message[k] == Chain(H, xs[k], steps[k])
  {
    RestOfDigits(hash);
  }

  lemma {:induction false} RecoveryAssembled(H: Hash, sig: Scalars, hash: Bytes, message: seq<Digest>, hi: Digest,
                                             lo: Digest)
    requires |hash| <= 32 && sig.Fits(|hash|) && |message| == |hash|
    requires forall k {:trigger message[k]} :: 0 <= k < |hash| ==>
               message[k] == Chain(H, sig.message[k], 255 - hash[k])
    requires hi == Chain(H, sig.checksum[0], 255 - HighByte(ChecksumSum(hash)))
    requires lo == Chain(H, sig.checksum[1], 255 - LowByte(ChecksumSum(hash)))
    ensures Scalars(message, [hi, lo]) == RecoverPubkey(H, sig, hash)
  {
    var steps := Rest(Digits(hash));
    CompletedSteps(H, sig.message, hash, message, steps);
    Assembled(H, sig, steps, message, hi, lo);
  }

  method RecoverPubkeyPrehashed(H: Hash, sig: Scalars, hash: Bytes) returns (pk: Scalars)
    requires |hash| <= 32 && sig.Fits(|hash|)
    ensures pk == RecoverPubkey(H, sig, hash)
  {
    var pkScalars, checksumSum := CompleteChains(H, sig.message, hash);
    var hi := ChainLoop(H, sig.checksum[0], 255 - HighByte(checksumSum));
    var lo := ChainLoop(H, sig.checksum[1], 255 - LowByte(checksumSum));
    pk := Scalars(pkScalars, [hi, lo]);
    RecoveryAssembled(H, sig, hash, pkScalars, hi, lo);
  }

  /** `merklize`: any vector of 1 to 62 scalars fits the fixed stack, which covers every allowed `N + 2`. */
  method Merklize(H: Hash, pk: Scalars) returns (root: Digest)
    requires 1 <= |pk.All()| <= 62
    ensures root == MerkleRoot(H, pk)
  {
    root := MerkleStream.StreamRoot(LeafHash(H), NodeHash(H), pk.All());
  }
}
