/** Hierarchical key derivation, the signing position, and the signing step that moves it. */
module Keypair {
  import opened Base
  import opened Winternitz
  import opened Soundness

  /** HMAC-SHA512 as two uninterpreted 32-byte halves. */
  datatype Mac = Mac(left: (Bytes, Bytes) -> Digest, right: (Bytes, Bytes) -> Digest)

  datatype Node = Node(key: Digest, chainCode: Digest)

  const HARDENED: u32 := 0x8000_0000

  /** `index | 0x8000_0000`. */
  function Harden(index: u32): (h: u32) {
    if index < HARDENED then index + HARDENED else index
  }

  function Message(key: Digest, index: u32): Bytes { [0] + key + U32Be(Harden(index)) }

  function DeriveChild(mac: Mac, n: Node, index: u32): Node {
    Node(mac.left(n.chainCode, Message(n.key, index)), mac.right(n.chainCode, Message(n.key, index)))
  }

  /** A child is the MAC, under the parent's chain code, of 37 bytes: a zero byte, the parent's key, and the index with
      its top bit set, leading byte first. The left half is the child's key, the right half its chain code. */
  lemma {:induction false} ChildIsMac(mac: Mac, n: Node, index: u32) returns (m: Bytes)
    ensures DeriveChild(mac, n, index).key == mac.left(n.chainCode, m)
    ensures DeriveChild(mac, n, index).chainCode == mac.right(n.chainCode, m)
    ensures |m| == 37 && m[0] == 0 && m[1..33] == n.key
    ensures 0x100_0000 * (m[33] as int) + 0x1_0000 * (m[34] as int) + 0x100 * (m[35] as int) + m[36] as int
         == if index < 0x8000_0000 then index + 0x8000_0000 else index
  {
    m := Message(n.key, index);
    U32BeRoundTrip(Harden(index));
    assert m[33..] == U32Be(Harden(index));
    assert m[33] == m[33..][0] && m[34] == m[33..][1] && m[35] == m[33..][2] && m[36] == m[33..][3];
  }

  // ---- Positions ----

  /** One-time-signature position. */
  datatype Position = Position(wallet: u32, parent: u32, child: u32)

  const POSITION_LIMIT: int := 0x1_0000_0000 * 0x1_0000_0000

  /** Positions of one wallet in signing order. */
  function Ordinal(p: Position): nat { p.parent * 0x1_0000_0000 + p.child }

  datatype PositionError = PositionOverflow

  /** `SigningPosition::next`. */
  function NextPosition(p: Position): Result<Position, PositionError> {
    if p.child < 0xFFFF_FFFF then Ok(Position(p.wallet, p.parent, p.child + 1))
    else if p.parent < 0xFFFF_FFFF then Ok(Position(p.wallet, p.parent + 1, 0))
    else Err(PositionOverflow)
  }

  /** `next` is +1 on the ordinal, and refuses exactly at the last position. */
  lemma {:induction false} NextIsSuccessor(p: Position)
    ensures NextPosition(p).Ok? <==> Ordinal(p) + 1 < POSITION_LIMIT
    ensures NextPosition(p).Ok? ==>
              NextPosition(p).value.wallet == p.wallet && Ordinal(NextPosition(p).value) == Ordinal(p) + 1
  {
  }

  // ---- Derivation ----

  function PositionNode(mac: Mac, master: Node, p: Position): Node {
    DeriveChild(mac, DeriveChild(mac, DeriveChild(mac, master, p.wallet), p.parent), p.child)
  }

  /** The private scalars under one node: hardened children `0 .. n + 2`. */
  function ScalarsUnder(mac: Mac, n: Node, count: nat): (xs: seq<Digest>)
    requires count <= 0xFFFF_FFFF
    ensures |xs| == count
    ensures forall i :: 0 <= i < count ==> xs[i] == DeriveChild(mac, n, i).key
  {
    seq<Digest>(count, i requires 0 <= i < count => DeriveChild(mac, n, i).key)
  }

  /** The private key at a position. */
  function Derive(mac: Mac, master: Node, p: Position, n: nat): (sk: Scalars)
    requires n <= 32
    ensures sk.Fits(n) && sk.All() == ScalarsUnder(mac, PositionNode(mac, master, p), n + 2)
  {
    Split(ScalarsUnder(mac, PositionNode(mac, master, p), n + 2))
  }

  /** The root committed to at a position. */
  function RootAt(H: Hash, mac: Mac, master: Node, p: Position, n: nat): Digest
    requires n <= 32
  {
    KeyRoot(H, Derive(mac, master, p, n))
  }

  // ---- Which positions share a key ----

  /** What the hardening bit leaves of an index. */
  function Low31(index: u32): u32 { if index < HARDENED then index else index - HARDENED }

  function Path(p: Position): (u32, u32, u32) { (Low31(p.wallet), Low31(p.parent), Low31(p.child)) }

  lemma {:induction false} HardenKeepsLow31(i: u32, j: u32)
    ensures Harden(i) == Harden(j) <==> Low31(i) == Low31(j)
  {
  }

  /** Two different HMAC inputs put forward as a collision. */
  datatype MacClash = MacClash(key: Bytes, message: Bytes, key': Bytes, message': Bytes)

  /** On the left half alone, which is all that becomes of a scalar. */
  predicate LeftCollides(mac: Mac, c: MacClash) {
    (c.key, c.message) != (c.key', c.message') && mac.left(c.key, c.message) == mac.left(c.key', c.message')
  }

  /** On all 64 bytes. */
  predicate WholeCollides(mac: Mac, c: MacClash) {
    LeftCollides(mac, c) && mac.right(c.key, c.message) == mac.right(c.key', c.message')
  }

  function ChildInput(n: Node, index: u32): (Bytes, Bytes) { (n.chainCode, Message(n.key, index)) }

  lemma {:induction false} MessageInjective(k: Digest, i: u32, k': Digest, j: u32)
    ensures Message(k, i) == Message(k', j) <==> k == k' && Low31(i) == Low31(j)
  {
    HardenKeepsLow31(i, j);
    if Message(k, i) == Message(k', j) {
      assert k == Message(k, i)[1..33] && k' == Message(k', j)[1..33];
      assert U32Be(Harden(i)) == Message(k, i)[33..] && U32Be(Harden(j)) == Message(k', j)[33..];
      U32BeRoundTrip(Harden(i));
      U32BeRoundTrip(Harden(j));
    }
  }

  lemma {:induction false} ChildInputInjective(n: Node, i: u32, n': Node, j: u32)
    ensures ChildInput(n, i) == ChildInput(n', j) <==> n == n' && Low31(i) == Low31(j)
  {
    MessageInjective(n.key, i, n'.key, j);
  }

  function ClashAt(n: Node, i: u32, n': Node, j: u32): MacClash {
    MacClash(n.chainCode, Message(n.key, i), n'.chainCode, Message(n'.key, j))
  }

  /** Two different steps to one and the same child collide on the whole MAC. */
  lemma {:induction false} ChildrenCollide(mac: Mac, n: Node, i: u32, n': Node, j: u32)
    requires DeriveChild(mac, n, i) == DeriveChild(mac, n', j) && (n != n' || Low31(i) != Low31(j))
    ensures WholeCollides(mac, ClashAt(n, i, n', j))
  {
    ChildInputInjective(n, i, n', j);
  }

  /** The HMAC input of each of the three steps to a position. */
  function PathInput(mac: Mac, master: Node, p: Position, level: nat): (Bytes, Bytes)
    requires level < 3
  {
    var n1 := DeriveChild(mac, master, p.wallet);
    if level == 0 then ChildInput(master, p.wallet)
    else if level == 1 then ChildInput(n1, p.parent)
    else ChildInput(DeriveChild(mac, n1, p.parent), p.child)
  }

  /** A collision of the whole MAC between the same step of both paths. */
  ghost predicate PathsCollide(mac: Mac, master: Node, p: Position, q: Position, c: MacClash) {
    && WholeCollides(mac, c)
    && exists level: nat :: level < 3 && (c.key, c.message) == PathInput(mac, master, p, level)
                                      && (c.key', c.message') == PathInput(mac, master, q, level)
  }

  /** A collision of the left half between the inputs of scalar i of both keys. */
  predicate ScalarsCollide(mac: Mac, master: Node, p: Position, q: Position, i: u32, c: MacClash) {
    && LeftCollides(mac, c)
    && (c.key, c.message) == ChildInput(PositionNode(mac, master, p), i)
    && (c.key', c.message') == ChildInput(PositionNode(mac, master, q), i)
  }

  /** A collision between two derivations of n + 2 scalars. */
  ghost predicate MacMeets(mac: Mac, master: Node, p: Position, q: Position, n: nat, c: MacClash)
    requires n <= 32
  {
    PathsCollide(mac, master, p, q, c) || exists i: u32 :: i < n + 2 && ScalarsCollide(mac, master, p, q, i, c)
  }

  /** Two derivations that meet: the colliding inputs of the last step at which they still differ. */
  function PathClash(mac: Mac, master: Node, p: Position, q: Position): (c: MacClash)
    requires Path(p) != Path(q) && PositionNode(mac, master, p) == PositionNode(mac, master, q)
    ensures PathsCollide(mac, master, p, q, c)
  {
    var (p1, q1) := (DeriveChild(mac, master, p.wallet), DeriveChild(mac, master, q.wallet));
    var (p2, q2) := (DeriveChild(mac, p1, p.parent), DeriveChild(mac, q1, q.parent));
    if p2 != q2 || Low31(p.child) != Low31(q.child) then
      ChildrenCollide(mac, p2, p.child, q2, q.child);
      assert PathInput(mac, master, p, 2) == ChildInput(p2, p.child);
      ClashAt(p2, p.child, q2, q.child)
    else if p1 != q1 || Low31(p.parent) != Low31(q.parent) then
      ChildrenCollide(mac, p1, p.parent, q1, q.parent);
      assert PathInput(mac, master, p, 1) == ChildInput(p1, p.parent);
      ClashAt(p1, p.parent, q1, q.parent)
    else
      ChildrenCollide(mac, master, p.wallet, master, q.wallet);
      assert PathInput(mac, master, p, 0) == ChildInput(master, p.wallet);
      ClashAt(master, p.wallet, master, q.wallet)
  }

  datatype Evidence = HashEvidence(clash: Clash) | MacEvidence(macClash: MacClash)

  /** A collision between something computed for the root at `p` and something computed for the root at `q`. */
  ghost predicate Meets(H: Hash, mac: Mac, master: Node, p: Position, q: Position, n: nat, e: Evidence)
    requires n <= 32
  {
    match e
    case HashEvidence(c) =>
      && Collides(H, c)
      && KeyHashes(H, Derive(mac, master, p, n), c.x)
      && KeyHashes(H, Derive(mac, master, q, n), c.y)
    case MacEvidence(c) => MacMeets(mac, master, p, q, n, c)
  }

  /** Positions that agree below the hardening bit derive one and the same key. */
  lemma {:induction false} SamePathSameKey(H: Hash, mac: Mac, master: Node, p: Position, q: Position, n: nat)
    requires n <= 32 && Path(p) == Path(q)
    ensures Derive(mac, master, p, n) == Derive(mac, master, q, n)
    ensures RootAt(H, mac, master, p, n) == RootAt(H, mac, master, q, n)
  {
    HardenKeepsLow31(p.wallet, q.wallet);
    HardenKeepsLow31(p.parent, q.parent);
    HardenKeepsLow31(p.child, q.child);
  }

  /** Different private keys under one root. */
  function SharedPubkeyClash(H: Hash, sk: Scalars, sk': Scalars): (c: Clash)
    requires |sk.All()| == |sk'.All()| >= 2 && sk.All() != sk'.All() && KeyRoot(H, sk) == KeyRoot(H, sk')
    ensures Collides(H, c) && KeyHashes(H, sk, c.x) && KeyHashes(H, sk', c.y)
  {
    var (pk, pk') := (ToPubkey(H, sk), ToPubkey(H, sk'));
    if pk.All() != pk'.All() then PubkeyClash(H, pk, pk')
    else
      var k := FirstDifference(sk.All(), sk'.All());
      assert pk.All()[k] == pk'.All()[k];
      ChainClash(H, sk.All()[k], sk'.All()[k], 255)
  }

  /** One shared private scalar is enough. */
  function SharedScalarClash(mac: Mac, master: Node, p: Position, q: Position, n: nat, i: nat): (c: MacClash)
    requires n <= 32 && i < n + 2 && Path(p) != Path(q)
    requires Derive(mac, master, p, n).All()[i] == Derive(mac, master, q, n).All()[i]
    ensures PathsCollide(mac, master, p, q, c) || ScalarsCollide(mac, master, p, q, i, c)
    ensures MacMeets(mac, master, p, q, n, c)
  {
    var (a, b) := (PositionNode(mac, master, p), PositionNode(mac, master, q));
    if a == b then PathClash(mac, master, p, q)
    else
      assert DeriveChild(mac, a, i).key == Derive(mac, master, p, n).All()[i];
      assert DeriveChild(mac, b, i).key == Derive(mac, master, q, n).All()[i];
      ChildInputInjective(a, i, b, i);
      assert ScalarsCollide(mac, master, p, q, i, ClashAt(a, i, b, i));
      ClashAt(a, i, b, i)
  }

  /** Positions that do not agree and still share a root exhibit a collision, found by
      going from the root back to the scalars, the chains and the derivation path. */
  function SharedRootEvidence(H: Hash, mac: Mac, master: Node, p: Position, q: Position, n: nat): (e: Evidence)
    requires n <= 32 && Path(p) != Path(q)
    requires RootAt(H, mac, master, p, n) == RootAt(H, mac, master, q, n)
    ensures Meets(H, mac, master, p, q, n, e)
  {
    var (sk, sk') := (Derive(mac, master, p, n), Derive(mac, master, q, n));
    if sk.All() != sk'.All() then HashEvidence(SharedPubkeyClash(H, sk, sk'))
    else MacEvidence(SharedScalarClash(mac, master, p, q, n, 0))
  }

  /** The exact condition under which two positions commit to one root: their indices agree
      below the hardening bit. The other way round needs a collision. */
  lemma {:induction false} SharedRootIff(H: Hash, mac: Mac, master: Node, p: Position, q: Position,
                                         n: nat) returns (e: Evidence)
    requires n <= 32
    ensures Path(p) == Path(q) ==> RootAt(H, mac, master, p, n) == RootAt(H, mac, master, q, n)
    ensures RootAt(H, mac, master, p, n) == RootAt(H, mac, master, q, n) ==>
              Path(p) == Path(q) || Meets(H, mac, master, p, q, n, e)
  {
    e := HashEvidence(Clash([], []));
    if Path(p) == Path(q) {
      SamePathSameKey(H, mac, master, p, q, n);
    } else if RootAt(H, mac, master, p, n) == RootAt(H, mac, master, q, n) {
      e := SharedRootEvidence(H, mac, master, p, q, n);
    }
  }

  /** `next` itself reaches a repeated key: child 2^31 derives what child 0 derives. */
  lemma {:induction false} KeysRepeatAtHardenedBit(H: Hash, mac: Mac, master: Node, wallet: u32, parent: u32, n: nat)
    requires n <= 32
    ensures NextPosition(Position(wallet, parent, 0x7FFF_FFFF)) == Ok(Position(wallet, parent, 0x8000_0000))
    ensures Derive(mac, master, Position(wallet, parent, 0x8000_0000), n) ==
            Derive(mac, master, Position(wallet, parent, 0), n)
  {
    SamePathSameKey(H, mac, master, Position(wallet, parent, 0x8000_0000), Position(wallet, parent, 0), n);
  }

  // ---- The code ----

  class WinternitzKeypair {
    const H: Hash
    const mac: Mac
    const master: Node
    var wallet: u32
    var parent: u32
    var child: u32

    constructor (H: Hash, mac: Mac, master: Node, position: Position)
      ensures this.H == H && this.mac == mac && this.master == master && At() == position
    {
      this.H, this.mac, this.master := H, mac, master;
      wallet, parent, child := position.wallet, position.parent, position.child;
    }

    function At(): Position
      reads this
    {
      Position(wallet, parent, child)
    }

    /** Panics on `parent == u32::MAX`, hence the precondition. */
    method IncrementParent()
      requires parent < 0xFFFF_FFFF
      modifies this`parent, this`child
      ensures parent == old(parent) + 1 && child == 0
    {
      parent := parent + 1;
      child := 0;
    }

    /** The in-place step agrees with `SigningPosition::next`, and panics exactly where `next` refuses. */
    method IncrementChild()
      requires NextPosition(At()).Ok?
      modifies this`parent, this`child
      ensures NextPosition(old(At())) == Ok(At())
    {
      if child < 0xFFFF_FFFF {
        child := child + 1;
      } else {
        child := 0;
        IncrementParent();
      }
    }

    /** Walk the hardened path `wallet' / parent' / child'`. */
    method WalkPath() returns (node: Node)
      ensures node == PositionNode(mac, master, At())
    {
      node := master;
      var path := [wallet, parent, child];
      for i := 0 to |path|
        invariant i == 0 ==> node == master
        invariant i == 1 ==> node == DeriveChild(mac, master, wallet)
        invariant i == 2 ==> node == DeriveChild(mac, DeriveChild(mac, master, wallet), parent)
        invariant i == 3 ==> node == PositionNode(mac, master, At())
      {
        node := DeriveChild(mac, node, path[i]);
      }
    }

    method DeriveScalars(node: Node, n: nat) returns (scalars: seq<Digest>)
      requires n <= 32
      ensures scalars == ScalarsUnder(mac, node, n)
    {
      scalars := [];
      for i := 0 to n
        invariant |scalars| == i && forall k :: 0 <= k < i ==> scalars[k] == DeriveChild(mac, node, k).key
      {
        var child := DeriveChild(mac, node, i);
        scalars := scalars + [child.key];
      }
    }

    method DeriveKey(n: nat) returns (sk: Scalars)
      requires n <= 32
      ensures sk == Derive(mac, master, At(), n)
    {
      var node := WalkPath();
      var scalars := DeriveScalars(node, n);
      var hi, lo := DeriveChild(mac, node, n), DeriveChild(mac, node, n + 1);
      sk := Scalars(scalars, [hi.key, lo.key]);
      assert sk.All() == ScalarsUnder(mac, node, n + 2);
      assert sk.All()[..n] == scalars && sk.All()[n..] == [hi.key, lo.key];
    }

    /** Sign at the current position, then leave it for good. */
    method SignAndIncrement(parts: seq<Bytes>, n: nat) returns (sig: Scalars)
      requires n <= 32 && NextPosition(At()).Ok?
      modifies this`parent, this`child
      ensures NextPosition(old(At())) == Ok(At())
      ensures sig == Sign(H, Derive(mac, master, old(At()), n), MessageDigest(H, parts, n))
    {
      var sk := DeriveKey(n);
      sig := SignPrehashed(H, sk, MessageDigest(H, parts, n));
      IncrementChild();
    }
  }
}
