/** What an Advance signature binds: the signed bytes carry no account count, so exactly when they can be cut
    another way, and what a verifier who accepts anything else exhibits. */
module Binding {
  import opened Base
  import opened Winternitz
  import opened Soundness
  import opened Keypair
  import opened Encoding
  import opened Wire
  import opened Decode
  import opened Preimage
  import opened Program
  import opened Wallet
  import opened StaleAdvance

  // ---- The other cuts of the signed bytes ----

  /** The on-chain loop would consume the payload and the accounts completely. */
  predicate Consumed(c: Commitment) {
    |c.addresses| <= MAX_PASSTHROUGH_ACCOUNTS && DecodePayload(c.payload, c.addresses).Ok?
  }

  /** The last addresses read as the front of the payload. */
  function Shorter(c: Commitment, k: nat): Commitment
    requires k <= |c.addresses|
  {
    c.(addresses := c.addresses[..k], payload := Concat(c.addresses[k..]) + c.payload)
  }

  /** The front of the payload read as further addresses. */
  function Longer(c: Commitment, n: nat): Commitment
    requires 32 * n <= |c.payload|
  {
    c.(addresses := c.addresses + Chunks(c.payload[..32 * n], n), payload := c.payload[32 * n..])
  }

  /** No other cut could be executed. A client can decide this before it signs. */
  predicate Unambiguous(c: Commitment) {
    && (forall k :: 0 <= k < |c.addresses| ==> !Consumed(Shorter(c, k)))
    && (forall n :: 0 < n <= |c.payload| && 32 * n <= |c.payload| ==> !Consumed(Longer(c, n)))
  }

  lemma {:induction false} ShorterSameBytes(c: Commitment, k: nat)
    requires k <= |c.addresses|
    ensures Concat(Parts(Shorter(c, k))) == Concat(Parts(c))
  {
    EqualBytesIff(Shorter(c, k), c);
  }

  lemma {:induction false} LongerSameBytes(c: Commitment, n: nat)
    requires 32 * n <= |c.payload|
    ensures Concat(Parts(Longer(c, n))) == Concat(Parts(c))
  {
    var d := Longer(c, n);
    ConcatOfChunks(c.payload[..32 * n], n);
    assert d.addresses[..|c.addresses|] == c.addresses;
    assert d.addresses[|c.addresses|..] == Chunks(c.payload[..32 * n], n);
    assert c.payload == c.payload[..32 * n] + c.payload[32 * n..];
    EqualBytesIff(c, d);
  }

  /** Whatever has the same bytes is one of these cuts. */
  lemma {:induction false} SameBytesIsCut(c: Commitment, d: Commitment)
    requires Concat(Parts(d)) == Concat(Parts(c))
    ensures |d.addresses| <= |c.addresses| ==> d == Shorter(c, |d.addresses|)
    ensures |d.addresses| > |c.addresses| ==>
              var n := |d.addresses| - |c.addresses|;
              32 * n <= |c.payload| && d == Longer(c, n)
  {
    if |d.addresses| <= |c.addresses| {
      EqualBytesIff(d, c);
    } else {
      EqualBytesIff(c, d);
      var extra := d.addresses[|c.addresses|..];
      ChunksOfConcat(extra);
      assert c.payload[..32 * |extra|] == Concat(extra) && c.payload[32 * |extra|..] == d.payload;
      assert d.addresses == c.addresses + extra;
    }
  }

  lemma {:induction false} WholeIsShorter(c: Commitment)
    ensures Shorter(c, |c.addresses|) == c
  {
    assert c.addresses[|c.addresses|..] == [];
  }

  lemma {:induction false} OnlyCut(c: Commitment, d: Commitment)
    requires Unambiguous(c) && Concat(Parts(d)) == Concat(Parts(c)) && Consumed(d)
    ensures d == c
  {
    SameBytesIsCut(c, d);
    WholeIsShorter(c);
  }

  /** The exact condition: the bytes stand for one executable Advance alone if and only if no other cut of them
      could be consumed. */
  lemma {:induction false} UnambiguousIff(c: Commitment)
    ensures Unambiguous(c) <==> forall d :: Concat(Parts(d)) == Concat(Parts(c)) && Consumed(d) ==> d == c
  {
    if Unambiguous(c) {
      forall d | Concat(Parts(d)) == Concat(Parts(c)) && Consumed(d)
        ensures d == c
      {
        OnlyCut(c, d);
      }
    } else if k :| 0 <= k < |c.addresses| && Consumed(Shorter(c, k)) {
      ShorterSameBytes(c, k);
      assert |Shorter(c, k).addresses| != |c.addresses|;
    } else {
      var n :| 0 < n <= |c.payload| && 32 * n <= |c.payload| && Consumed(Longer(c, n));
      LongerSameBytes(c, n);
      assert |Longer(c, n).addresses| != |c.addresses|;
    }
  }

  // ---- A list the client accepts whose bytes can be cut another way ----

  /** An instruction without data on two accounts. */
  function TwoAccounts(program: Address, x: Address, b: Address): (ix: Instruction)
    ensures Fits(ix)
  {
    Instruction(program, [AsMeta(x), AsMeta(b)], [])
  }

  lemma {:induction false} TwoAccountsEncoded(program: Address, x: Address, b: Address)
    ensures Accepts([TwoAccounts(program, x, b)])
    ensures Encoded([TwoAccounts(program, x, b)]).data == [1, 2, 0, 0]
    ensures Addresses(Encoded([TwoAccounts(program, x, b)]).accounts) == [program, x, b]
  {
    var ix := TwoAccounts(program, x, b);
    assert [ix][1..] == [];
    assert EncodeAll([ix]) == EncodeOne(ix) + EncodeAll([]);
    assert PassAll([ix]) == PassOne(ix) + PassAll([]);
    assert PassOne(ix) == [Meta(program, false, false), Meta(x, false, false), Meta(b, false, false)];
  }

  lemma {:induction false} CutDecodes(program: Address, x: Address, b: Address)
    requires b[..4] == [1, 1, 32, 0]
    ensures DecodePayload(b + [1, 2, 0, 0], [program, x]) == Ok([Cpi(program, [x], b[4..] + [1, 2, 0, 0])])
  {
    var payload, accounts := b + [1, 2, 0, 0], [program, x];
    assert payload[0] == b[..4][0] && payload[1] == b[..4][1] && payload[2] == b[..4][2] && payload[3] == b[..4][3];
    var rest := payload[1..];
    assert FromU16Le(rest[1], rest[2]) == 32;
    assert b == b[..4] + b[4..] && payload == b[..4] + (b[4..] + [1, 2, 0, 0]);
    assert rest[3..35] == payload[4..] && rest[35..] == [];
    assert payload[4..] == b[4..] + [1, 2, 0, 0];
    assert accounts[1..2] == [x];
    var cpi := Cpi(program, [x], b[4..] + [1, 2, 0, 0]);
    assert NextCpi(rest, accounts, 0) == Ok(Cut(cpi, [], 2));
    assert DecodeRest(0, [], accounts, 2) == Ok([]);
    assert [cpi] + [] == [cpi];
    assert DecodeRest(1, rest, accounts, 0) == Ok([cpi]);
  }

  /** When the second address begins with 1, 1, 32, 0, the signed bytes of this list are also those of a call
      the client never made. */
  lemma {:induction false} SignedBytesCutTwice(id: Digest, root: Digest, newRoot: Digest, program: Address, x: Address,
                                               b: Address)
    requires b[..4] == [1, 1, 32, 0]
    ensures Accepts([TwoAccounts(program, x, b)])
    ensures var plan := Encoded([TwoAccounts(program, x, b)]);
            var c := Commitment(id, root, newRoot, Addresses(plan.accounts), plan.data);
            var d := Commitment(id, root, newRoot, [program, x], b + [1, 2, 0, 0]);
            && Concat(Parts(d)) == Concat(Parts(c)) && !Unambiguous(c)
            && DecodePayload(d.payload, d.addresses) == Ok([Cpi(program, [x], b[4..] + [1, 2, 0, 0])])
  {
    TwoAccountsEncoded(program, x, b);
    CutDecodes(program, x, b);
    var c := Commitment(id, root, newRoot, [program, x, b], [1, 2, 0, 0]);
    var d := Commitment(id, root, newRoot, [program, x], b + [1, 2, 0, 0]);
    assert c.addresses[..2] == [program, x] && c.addresses[2..] == [b];
    assert Concat([b]) == b + Concat([]);
    assert Shorter(c, 2) == d;
    ShorterSameBytes(c, 2);
  }

  // ---- What an executed Advance was signed for ----

  lemma {:induction false} DecodeCountsOnly<A, B>(count: nat, payload: Bytes, a: seq<A>, b: seq<B>, cursor: nat)
    requires |a| == |b| && cursor <= |a|
    ensures DecodeRest(count, payload, a, cursor).Ok? <==> DecodeRest(count, payload, b, cursor).Ok?
    decreases count
  {
    if count > 0 && NextCpi(payload, a, cursor).Ok? {
      var cut := NextCpi(payload, a, cursor).value;
      assert NextCpi(payload, b, cursor).Ok? && NextCpi(payload, b, cursor).value.cursor == cut.cursor;
      DecodeCountsOnly(count - 1, cut.payload, a, b, cut.cursor);
    }
  }

  /** A loop that ran to its end consumed everything. */
  lemma {:induction false} ReplayDecodes(env: Env, st: Ledger, count: nat, payload: Bytes, rest: seq<View>, cursor: nat,
                                         wallet: Address, pda: Option<Address>)
    requires cursor <= |rest| && Replay(env, st, count, payload, rest, cursor, wallet, pda).Ok?
    ensures DecodeRest(count, payload, rest, cursor).Ok?
    decreases count
  {
    if count > 0 {
      var cut, d, _ := ReplayStep(env, st, count, payload, rest, cursor, wallet, pda);
      ReplayDecodes(env, d.ledger, count - 1, cut.payload, rest, cut.cursor, wallet, pda);
    }
  }

  lemma {:induction false} ExecutedIsConsumed(env: Env, st: Ledger, wallet: View, rest: seq<View>, sig: Scalars,
                                              newRoot: Digest, payload: Bytes)
    requires sig.Fits(SCALARS) && AdvanceExecute(env, st, wallet, rest, sig, newRoot, payload).Ok?
    ensures |Get(env, st, wallet.address).data| == WALLET_LEN
    ensures Consumed(CommitmentOf(Get(env, st, wallet.address).data, newRoot, rest, payload))
  {
    var signer, _ := ExecuteStep(env, st, wallet, rest, sig, newRoot, payload);
    ReplayDecodes(env, StoreRoot(env, st, wallet.address, newRoot), payload[0], payload[1..], rest, 0,
                  wallet.address, signer);
    DecodeCountsOnly(payload[0], payload[1..], rest, ViewAddresses(rest), 0);
  }

  /** How an accepted Advance can differ from the signed plan. */
  datatype Deviation =
    | SameBytes
    | ShortDigestCollision
    | HashCollision(clash: Clash)
    | ChainCycles

  /** Two digests under one key: every chain on which they differ returns to its start. */
  predicate Cycles(H: Hash, sk: Scalars, m: Bytes, m': Bytes)
    requires |m| == |m'| <= 32 && sk.Fits(|m|)
  {
    && m != m'
    && forall i :: 0 <= i < |m| + 2 && Digits(m)[i] != Digits(m')[i] ==>
         Chain(H, sk.All()[i], if Digits(m)[i] < Digits(m')[i] then Digits(m')[i] - Digits(m)[i]
                               else Digits(m)[i] - Digits(m')[i])
         == sk.All()[i]
  }

  ghost predicate Explains(H: Hash, sk: Scalars, c: Commitment, d: Commitment, x: Deviation)
    requires sk.Fits(SCALARS)
  {
    var (m, m') := (MessageDigest(H, Parts(c), SCALARS), MessageDigest(H, Parts(d), SCALARS));
    match x
    case SameBytes => Concat(Parts(d)) == Concat(Parts(c)) && Consumed(d)
    case ShortDigestCollision => Concat(Parts(d)) != Concat(Parts(c)) && m == m'
    case HashCollision(clash) => HashesMeet(H, sk, sk, m, m', clash)
    case ChainCycles => Cycles(H, sk, m, m')
  }

  lemma {:induction false} LinkedToItself(H: Hash, sk: Scalars, m: Bytes, m': Bytes)
    requires |m| == |m'| <= 32 && sk.Fits(|m|) && m != m' && AllLinked(H, sk, sk, m, m')
    ensures Cycles(H, sk, m, m')
  {
    forall i | 0 <= i < |m| + 2 && Digits(m)[i] != Digits(m')[i]
      ensures Chain(H, sk.All()[i], if Digits(m)[i] < Digits(m')[i] then Digits(m')[i] - Digits(m)[i]
                                    else Digits(m)[i] - Digits(m')[i]) == sk.All()[i]
    {
      assert Linked(H, sk, sk, m, m', i);
    }
  }

  lemma {:induction false} SameKey(H: Hash, sk: Scalars, c: Commitment, d: Commitment) returns (x: Deviation)
    requires sk.Fits(SCALARS) && Consumed(d)
    requires VerifyPrehashed(H, Sign(H, sk, MessageDigest(H, Parts(c), SCALARS)), MessageDigest(H, Parts(d), SCALARS),
                             KeyRoot(H, sk))
    ensures Explains(H, sk, c, d, x)
  {
    var m, m' := MessageDigest(H, Parts(c), SCALARS), MessageDigest(H, Parts(d), SCALARS);
    if m == m' {
      x := if Concat(Parts(d)) == Concat(Parts(c)) then SameBytes else ShortDigestCollision;
    } else {
      var clash := Crossed(H, sk, sk, m, m');
      if AllLinked(H, sk, sk, m, m') {
        LinkedToItself(H, sk, m, m');
        x := ChainCycles;
      } else {
        x := HashCollision(clash);
      }
    }
  }

  /** While the root a plan was signed against is stored, an executed Advance that carries the plan's signature
      says what the plan says, up to another cut of the same bytes, or exhibits a collision of the digest, of the
      hash, or chains that return to their start. */
  lemma {:induction false} ExecutedIsSigned(env: Env, st: Ledger, mac: Mac, master: Node, u: UnsignedAdvance,
                                            wallet: View, rest: seq<View>, newRoot: Digest,
                                            payload: Bytes) returns (x: Deviation)
    requires |Get(env, st, wallet.address).data| == WALLET_LEN
    requires RootOf(Get(env, st, wallet.address).data) == RootAt(env.H, mac, master, u.position, SCALARS)
    requires AdvanceExecute(env, st, wallet, rest, SignatureOf(env.H, mac, master, u), newRoot, payload).Ok?
    ensures Explains(env.H, Derive(mac, master, u.position, SCALARS), u.plan.CommitmentFor(u.walletId, u.currentRoot),
                     CommitmentOf(Get(env, st, wallet.address).data, newRoot, rest, payload), x)
  {
    ExecutedIsConsumed(env, st, wallet, rest, SignatureOf(env.H, mac, master, u), newRoot, payload);
    x := SameKey(env.H, Derive(mac, master, u.position, SCALARS), u.plan.CommitmentFor(u.walletId, u.currentRoot),
                 CommitmentOf(Get(env, st, wallet.address).data, newRoot, rest, payload));
  }

  /** For an unambiguous plan nothing but the plan itself is left of the first case. */
  lemma {:induction false} UnambiguousBinds(env: Env, st: Ledger, mac: Mac, master: Node, u: UnsignedAdvance,
                                            wallet: View, rest: seq<View>, newRoot: Digest,
                                            payload: Bytes) returns (x: Deviation)
    requires |Get(env, st, wallet.address).data| == WALLET_LEN
    requires RootOf(Get(env, st, wallet.address).data) == RootAt(env.H, mac, master, u.position, SCALARS)
    requires AdvanceExecute(env, st, wallet, rest, SignatureOf(env.H, mac, master, u), newRoot, payload).Ok?
    requires Unambiguous(u.plan.CommitmentFor(u.walletId, u.currentRoot))
    ensures Explains(env.H, Derive(mac, master, u.position, SCALARS), u.plan.CommitmentFor(u.walletId, u.currentRoot),
                     CommitmentOf(Get(env, st, wallet.address).data, newRoot, rest, payload), x)
    ensures x == SameBytes ==>
              && IdOf(Get(env, st, wallet.address).data) == u.walletId && newRoot == u.plan.newRoot
              && ViewAddresses(rest) == Addresses(u.plan.payload.accounts) && payload == u.plan.payload.data
  {
    x := ExecutedIsSigned(env, st, mac, master, u, wallet, rest, newRoot, payload);
    if x == SameBytes {
      OnlyCut(u.plan.CommitmentFor(u.walletId, u.currentRoot),
              CommitmentOf(Get(env, st, wallet.address).data, newRoot, rest, payload));
    }
  }

  // ---- What the signature leaves open ----

  /** The same call, up to the flags its accounts arrive with. */
  predicate SameCall(c: Cpi<View>, d: Cpi<View>) {
    c.program.address == d.program.address && ViewAddresses(c.accounts) == ViewAddresses(d.accounts) && c.data == d.data
  }

  predicate SameCalls(cs: seq<Cpi<View>>, ds: seq<Cpi<View>>) {
    |cs| == |ds| && forall k :: 0 <= k < |cs| ==> SameCall(cs[k], ds[k])
  }

  lemma {:induction false} NextIgnoresFlags(payload: Bytes, a: seq<View>, b: seq<View>, cursor: nat)
    requires ViewAddresses(a) == ViewAddresses(b) && cursor <= |a| && cursor <= |b| && NextCpi(payload, a, cursor).Ok?
    ensures NextCpi(payload, b, cursor).Ok?
    ensures var (c, d) := (NextCpi(payload, a, cursor).value, NextCpi(payload, b, cursor).value);
            SameCall(c.cpi, d.cpi) && c.payload == d.payload && c.cursor == d.cursor
  {
    assert |a| == |ViewAddresses(a)| && |b| == |ViewAddresses(b)|;
    var c, d := NextCpi(payload, a, cursor).value, NextCpi(payload, b, cursor).value;
    forall j | 0 <= j < |a|
      ensures a[j].address == b[j].address
    {
      assert ViewAddresses(a)[j] == ViewAddresses(b)[j];
    }
  }

  lemma {:induction false} DecodeIgnoresFlags(count: nat, payload: Bytes, a: seq<View>, b: seq<View>, cursor: nat)
    requires ViewAddresses(a) == ViewAddresses(b) && cursor <= |a| && cursor <= |b|
    requires DecodeRest(count, payload, a, cursor).Ok?
    ensures DecodeRest(count, payload, b, cursor).Ok?
    ensures SameCalls(DecodeRest(count, payload, a, cursor).value, DecodeRest(count, payload, b, cursor).value)
    decreases count
  {
    assert |a| == |ViewAddresses(a)| && |b| == |ViewAddresses(b)|;
    if count > 0 {
      var cut, tail := DecodeRestStep(count, payload, a, cursor);
      NextIgnoresFlags(payload, a, b, cursor);
      DecodeIgnoresFlags(count - 1, cut.payload, a, b, cut.cursor);
    }
  }

  /** The signed bytes carry no signer or writable flags: an Advance accepted with its accounts flagged one way is
      accepted with them flagged any other way, the wallet staying writable, and makes the same calls. */
  lemma {:induction false} SignatureBindsNoFlags(env: Env, st: Ledger, wallet: View, rest: seq<View>, wallet': View,
                                                 rest': seq<View>, sig: Scalars, newRoot: Digest, payload: Bytes)
    requires sig.Fits(SCALARS) && AdvanceRefusal(env, st, wallet, rest, sig, newRoot, payload).None?
    requires wallet'.address == wallet.address && ViewAddresses(rest') == ViewAddresses(rest)
    requires PermittedAt(env, st, StoreRoot(env, st, wallet.address, newRoot), [wallet'] + rest', wallet.address)
    ensures AdvanceRefusal(env, st, wallet', rest', sig, newRoot, payload).None?
    ensures DecodePayload(payload, rest).Ok? <==> DecodePayload(payload, rest').Ok?
    ensures DecodePayload(payload, rest).Ok? ==>
              SameCalls(DecodePayload(payload, rest).value, DecodePayload(payload, rest').value)
  {
    assert |rest| == |ViewAddresses(rest)| && |rest'| == |ViewAddresses(rest')|;
    if DecodePayload(payload, rest).Ok? {
      DecodeIgnoresFlags(payload[0], payload[1..], rest, rest', 0);
    }
    if DecodePayload(payload, rest').Ok? {
      DecodeIgnoresFlags(payload[0], payload[1..], rest', rest, 0);
    }
  }
}
