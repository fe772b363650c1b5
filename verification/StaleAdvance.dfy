/** A signature made at one position, presented while the root of another position is stored. */
module StaleAdvance {
  import opened Base
  import opened Winternitz
  import opened Soundness
  import opened Keypair
  import opened Preimage
  import opened Program

  /** A hash collision between something the verifier or the signer hashed and something the owner of the
      stored root hashed. */
  ghost predicate HashesMeet(H: Hash, sk: Scalars, sk': Scalars, m: Bytes, m': Bytes, c: Clash)
    requires |m| == |m'| <= 32 && sk.Fits(|m|) && sk'.Fits(|m|)
  {
    && Collides(H, c)
    && (VerifierHashes(H, Sign(H, sk, m), m', c.x) || KeyHashes(H, sk, c.x))
    && KeyHashes(H, sk', c.y)
  }

  /** The scalars of two keys at one index lie on one chain, as far apart as the digits of the digests. */
  predicate Linked(H: Hash, sk: Scalars, sk': Scalars, m: Bytes, m': Bytes, i: nat)
    requires |m| == |m'| <= 32 && sk.Fits(|m|) && sk'.Fits(|m|) && i < |m| + 2
  {
    var (d, d') := (Digits(m)[i], Digits(m')[i]);
    if d <= d' then sk.All()[i] == Chain(H, sk'.All()[i], d' - d) else Chain(H, sk.All()[i], d - d') == sk'.All()[i]
  }

  predicate AllLinked(H: Hash, sk: Scalars, sk': Scalars, m: Bytes, m': Bytes)
    requires |m| == |m'| <= 32 && sk.Fits(|m|) && sk'.Fits(|m|)
  {
    forall i :: 0 <= i < |m| + 2 ==> Linked(H, sk, sk', m, m', i)
  }

  /** A scalar of a signature under `sk` over `m`, completed as the verifier of `m'` completes it. */
  lemma {:induction false} Completed(H: Hash, sk: Scalars, m: Bytes, m': Bytes, i: nat)
    requires |m| == |m'| <= 32 && sk.Fits(|m|) && i < |m| + 2
    ensures RecoverPubkey(H, Sign(H, sk, m), m').All()[i] ==
            Chain(H, sk.All()[i], Digits(m)[i] as int + 255 - Digits(m')[i] as int)
  {
    ChainSplit(H, sk.All()[i], Digits(m)[i], 255 - Digits(m')[i]);
  }

  /** The digit grew: the owner's chain is entered later. */
  function LaterClash(H: Hash, sk: Scalars, sk': Scalars, i: nat, k: nat): (c: Clash)
    requires i < |sk.All()| == |sk'.All()| && |sk.All()| >= 2 && k <= 255
    requires Chain(H, sk.All()[i], 255 - k) == Chain(H, sk'.All()[i], 255)
    requires sk.All()[i] != Chain(H, sk'.All()[i], k)
    ensures Collides(H, c) && KeyHashes(H, sk, c.x) && KeyHashes(H, sk', c.y)
  {
    var (x, y) := (sk.All()[i], sk'.All()[i]);
    ChainSplit(H, y, k, 255 - k);
    var t := MeetingStep(H, x, Chain(H, y, k), 255 - k);
    ChainSplit(H, y, k, t);
    ChainInputsAt(H, x, t, 255);
    ChainInputsAt(H, y, k + t, 255);
    Clash(Chain(H, x, t), Chain(H, Chain(H, y, k), t))
  }

  /** A chain walked in two pieces, to its `end` and then `n` links from link `d` on: every link is in one of them. */
  lemma {:induction false} LinkWalked(H: Hash, x: Digest, end: nat, d: nat, n: nat, t: nat)
    requires d <= end && t < d + n
    ensures Chain(H, x, t) in ChainInputs(H, x, end) || Chain(H, x, t) in ChainInputs(H, Chain(H, x, d), n)
  {
    if t < end {
      ChainInputsAt(H, x, t, end);
    } else {
      ChainSplit(H, x, d, t - d);
      ChainInputsAt(H, Chain(H, x, d), t - d, n);
    }
  }

  lemma {:induction false} OwnerHashed(H: Hash, sk: Scalars, i: nat, end: nat, x: Bytes)
    requires |sk.All()| >= 2 && i < |sk.All()| && end == 255 && x in ChainInputs(H, sk.All()[i], end)
    ensures KeyHashes(H, sk, x)
  {
  }

  lemma {:induction false} VerifierHashed(H: Hash, sig: Scalars, m: Bytes, i: nat, x: Bytes)
    requires |m| <= 32 && sig.Fits(|m|) && i < |m| + 2 && x in ChainInputs(H, sig.All()[i], Rest(Digits(m))[i])
    ensures VerifierHashes(H, sig, m, x)
  {
  }

  /** Two chains that end together, one of them entered `k` links before its own end. */
  function PastStep(H: Hash, x: Digest, y: Digest, k: nat, end: nat): (t: nat)
    requires Chain(H, x, k + end) == Chain(H, y, end) && Chain(H, x, k) != y
    ensures t < end && Chain(H, x, k + t) != Chain(H, y, t) && H(Chain(H, x, k + t)) == H(Chain(H, y, t))
  {
    ChainSplit(H, x, k, end);
    var t := MeetingStep(H, Chain(H, x, k), y, end);
    ChainSplit(H, x, k, t);
    t
  }

  /** The two links that collide there, and in which walk each was hashed. */
  lemma {:induction false} PastClash(H: Hash, x0: Digest, y0: Digest, d: nat, n: nat, k: nat,
                                     end: nat) returns (x: Digest, y: Digest)
    requires d <= end && k + end == d + n
    requires Chain(H, x0, k + end) == Chain(H, y0, end) && Chain(H, x0, k) != y0
    ensures x != y && H(x) == H(y) && y in ChainInputs(H, y0, end)
    ensures x in ChainInputs(H, x0, end) || x in ChainInputs(H, Chain(H, x0, d), n)
  {
    var t := PastStep(H, x0, y0, k, end);
    x, y := Chain(H, x0, k + t), Chain(H, y0, t);
    LinkWalked(H, x0, end, d, n, k + t);
    ChainInputsAt(H, y0, t, end);
  }

  /** The digit shrank: the signer's chain runs past its end. */
  lemma {:induction false} EarlierClash(H: Hash, sk: Scalars, sk': Scalars, m: Bytes, m': Bytes,
                                        i: nat) returns (c: Clash)
    requires |m| == |m'| <= 32 && sk.Fits(|m|) && sk'.Fits(|m|) && i < |m| + 2 && Digits(m)[i] > Digits(m')[i]
    requires Chain(H, sk.All()[i], Digits(m)[i] as int - Digits(m')[i] as int + 255) == Chain(H, sk'.All()[i], 255)
    requires Chain(H, sk.All()[i], Digits(m)[i] - Digits(m')[i]) != sk'.All()[i]
    ensures HashesMeet(H, sk, sk', m, m', c)
  {
    var x, y := PastClash(H, sk.All()[i], sk'.All()[i], Digits(m)[i], Rest(Digits(m'))[i],
                          Digits(m)[i] - Digits(m')[i], 255);
    c := Clash(x, y);
    OwnerHashed(H, sk', i, 255, y);
    if x in ChainInputs(H, sk.All()[i], 255) {
      OwnerHashed(H, sk, i, 255, x);
    } else {
      VerifierHashed(H, Sign(H, sk, m), m', i, x);
    }
  }

  lemma {:induction false} UnlinkedClash(H: Hash, sk: Scalars, sk': Scalars, m: Bytes, m': Bytes,
                                         i: nat) returns (c: Clash)
    requires |m| == |m'| <= 32 && sk.Fits(|m|) && sk'.Fits(|m|) && i < |m| + 2
    requires RecoverPubkey(H, Sign(H, sk, m), m').All()[i] == ToPubkey(H, sk').All()[i]
    requires !Linked(H, sk, sk', m, m', i)
    ensures HashesMeet(H, sk, sk', m, m', c)
  {
    Completed(H, sk, m, m', i);
    if Digits(m)[i] > Digits(m')[i] {
      c := EarlierClash(H, sk, sk', m, m', i);
    } else {
      c := LaterClash(H, sk, sk', i, Digits(m')[i] - Digits(m)[i]);
    }
  }

  /** From a signature of `sk` over `m` accepted, over `m'`, for the root of `sk'`: a collision, or the two keys
      are linked at every index. */
  lemma {:induction false} Crossed(H: Hash, sk: Scalars, sk': Scalars, m: Bytes, m': Bytes) returns (c: Clash)
    requires |m| == |m'| <= 32 && sk.Fits(|m|) && sk'.Fits(|m|)
    requires VerifyPrehashed(H, Sign(H, sk, m), m', KeyRoot(H, sk'))
    ensures HashesMeet(H, sk, sk', m, m', c) || AllLinked(H, sk, sk', m, m')
  {
    var recovered, pk' := RecoverPubkey(H, Sign(H, sk, m), m'), ToPubkey(H, sk');
    c := Clash([], []);
    if recovered.All() != pk'.All() {
      c := PubkeyClash(H, recovered, pk');
    } else if !AllLinked(H, sk, sk', m, m') {
      var i :| 0 <= i < |m| + 2 && !Linked(H, sk, sk', m, m', i);
      assert recovered.All()[i] == pk'.All()[i];
      c := UnlinkedClash(H, sk, sk', m, m', i);
    }
  }

  /** The digest an on-chain Advance is checked against. */
  function CheckedDigest(env: Env, st: Ledger, wallet: View, rest: seq<View>, newRoot: Digest, payload: Bytes)
      : (m: Bytes)
    requires |Get(env, st, wallet.address).data| == WALLET_LEN
    ensures |m| == SCALARS
  {
    MessageDigest(env.H, Parts(CommitmentOf(Get(env, st, wallet.address).data, newRoot, rest, payload)), SCALARS)
  }

  /** What accepting a signature of one position under another position's root exhibits. */
  datatype Crossing =
    | HashMeeting(clash: Clash)
    | MacMeeting(macClash: MacClash)
    | OnChains

  /** A signature over `m` made at `p` is not accepted over `m'` for the root of another position `q`, unless it
      exhibits a hash collision, an HMAC collision of the two derivations, or all private scalars of the one
      key on chains of the other, none of them at distance zero. */
  ghost predicate Exhibits(H: Hash, mac: Mac, master: Node, p: Position, q: Position, m: Bytes, m': Bytes, x: Crossing)
    requires |m| == |m'| == SCALARS
  {
    var (sk, sk') := (Derive(mac, master, p, SCALARS), Derive(mac, master, q, SCALARS));
    match x
    case HashMeeting(c) => HashesMeet(H, sk, sk', m, m', c)
    case MacMeeting(c) => MacMeets(mac, master, p, q, SCALARS, c)
    case OnChains => AllLinked(H, sk, sk', m, m') && forall i :: 0 <= i < SCALARS + 2 ==> Digits(m)[i] != Digits(m')[i]
  }

  lemma {:induction false} OtherPosition(H: Hash, mac: Mac, master: Node, p: Position, q: Position, m: Bytes, m': Bytes)
      returns (x: Crossing)
    requires |m| == |m'| == SCALARS && Path(p) != Path(q)
    requires VerifyPrehashed(H, Sign(H, Derive(mac, master, p, SCALARS), m), m', RootAt(H, mac, master, q, SCALARS))
    ensures Exhibits(H, mac, master, p, q, m, m', x)
  {
    var sk, sk' := Derive(mac, master, p, SCALARS), Derive(mac, master, q, SCALARS);
    var clash := Crossed(H, sk, sk', m, m');
    if !AllLinked(H, sk, sk', m, m') {
      x := HashMeeting(clash);
    } else if i :| 0 <= i < SCALARS + 2 && Digits(m)[i] == Digits(m')[i] {
      assert Linked(H, sk, sk', m, m', i);
      x := MacMeeting(SharedScalarClash(mac, master, p, q, SCALARS, i));
    } else {
      x := OnChains;
    }
  }

  /** On chain: an Advance carrying a signature made at `p`, over whatever digest, is not executed while the
      root of another position `q` is stored, unless it exhibits one of the three. */
  lemma {:induction false} StaleSignatureRefused(env: Env, st: Ledger, mac: Mac, master: Node, p: Position, q: Position,
                                                 m: Bytes, wallet: View, rest: seq<View>, newRoot: Digest,
                                                 payload: Bytes) returns (x: Crossing)
    requires |m| == SCALARS && Path(p) != Path(q) && |Get(env, st, wallet.address).data| == WALLET_LEN
    requires RootOf(Get(env, st, wallet.address).data) == RootAt(env.H, mac, master, q, SCALARS)
    requires var sig := Sign(env.H, Derive(mac, master, p, SCALARS), m);
             AdvanceExecute(env, st, wallet, rest, sig, newRoot, payload).Ok?
    ensures Exhibits(env.H, mac, master, p, q, m, CheckedDigest(env, st, wallet, rest, newRoot, payload), x)
  {
    x := OtherPosition(env.H, mac, master, p, q, m, CheckedDigest(env, st, wallet, rest, newRoot, payload));
  }
}
