/** The client's Advance pipeline: plan, sign, and the instruction that goes on the wire. */
module Wallet {
  import opened Base
  import opened Winternitz
  import opened Keypair
  import opened Encoding
  import opened Wire
  import opened Preimage
  import opened Program

  /** A plan owns the payload and the account order, so what is signed is what is sent. */
  datatype AdvancePlan = AdvancePlan(walletPda: Address, newRoot: Digest, payload: AdvancePayload) {
    function CommitmentFor(id: Digest, currentRoot: Digest): Commitment {
      Commitment(id, currentRoot, newRoot, Addresses(payload.accounts), payload.data)
    }

    /** The Advance instruction for a signature in byte form. */
    function ToInstruction(programId: Address, signature: Bytes): Instruction {
      Instruction(programId, [Meta(walletPda, false, true)] + payload.accounts,
                  [1] + signature + newRoot + payload.data)
    }
  }

  function PlanFor(walletPda: Address, newRoot: Digest, ixs: seq<Instruction>): Result<AdvancePlan, EncodeError> {
    if Accepts(ixs) then Ok(AdvancePlan(walletPda, newRoot, Encoded(ixs))) else Err(Refusal(ixs))
  }

  method NewPlan(walletPda: Address, newRoot: Digest, ixs: seq<Instruction>)
      returns (r: Result<AdvancePlan, EncodeError>)
    ensures r == PlanFor(walletPda, newRoot, ixs)
  {
    var payload := EncodeAdvance(ixs);
    match payload
    case Err(e) => r := Err(e);
    case Ok(p) => r := Ok(AdvancePlan(walletPda, newRoot, p));
  }

  datatype UnsignedAdvance = UnsignedAdvance(
    walletId: Digest, currentRoot: Digest, position: Position, plan: AdvancePlan)

  datatype SignedAdvance = SignedAdvance(
    walletId: Digest, signingPosition: Position, nextPosition: Position, signature: Bytes, plan: AdvancePlan)

  datatype SignError =
    | SignerPositionMismatch(expected: Position, actual: Position)
    | SigningPositionOverflow
    | RootMismatch

  /** The signature of an unsigned Advance under the key at its position. */
  function SignatureOf(H: Hash, mac: Mac, master: Node, u: UnsignedAdvance): Scalars {
    Sign(H, Derive(mac, master, u.position, SCALARS),
         MessageDigest(H, Parts(u.plan.CommitmentFor(u.walletId, u.currentRoot)), SCALARS))
  }

  /** `UnsignedAdvance::sign`. The three checks are made in this order. The keypair moves exactly when a signature
      comes out, by exactly one position, and its overflow panic is never reached. */
  method SignAdvance(u: UnsignedAdvance, kp: WinternitzKeypair) returns (r: Result<SignedAdvance, SignError>)
    modifies kp
    ensures r.Err? ==> kp.At() == old(kp.At())
    ensures r.Err? <==> || old(kp.At()) != u.position
                        || NextPosition(u.position).Err?
                        || RootAt(kp.H, kp.mac, kp.master, u.position, SCALARS) != u.currentRoot
    ensures r.Err? ==>
              match r.error
              case SignerPositionMismatch(e, a) => e == u.position && a == old(kp.At()) && e != a
              case SigningPositionOverflow => old(kp.At()) == u.position && NextPosition(u.position).Err?
              case RootMismatch =>
                && old(kp.At()) == u.position && NextPosition(u.position).Ok?
                && RootAt(kp.H, kp.mac, kp.master, u.position, SCALARS) != u.currentRoot
    ensures r.Ok? ==>
              && r.value.signingPosition == u.position == old(kp.At())
              && r.value.nextPosition == kp.At() == NextPosition(u.position).value
              && r.value.walletId == u.walletId && r.value.plan == u.plan
              && r.value.signature == AsBytes(SignatureOf(kp.H, kp.mac, kp.master, u))
  {
    var actual := kp.At();
    if actual != u.position {
      return Err(SignerPositionMismatch(u.position, actual));
    }
    if NextPosition(actual).Err? {
      return Err(SigningPositionOverflow);
    }
    var sk := kp.DeriveKey(SCALARS);
    var pk := ToPubkeyLoop(kp.H, sk);
    var derivedRoot := Merklize(kp.H, pk);
    if derivedRoot != u.currentRoot {
      return Err(RootMismatch);
    }
    var parts := ClientParts(u.plan.CommitmentFor(u.walletId, u.currentRoot));
    var sig := kp.SignAndIncrement(parts, SCALARS);
    r := Ok(SignedAdvance(u.walletId, u.position, kp.At(), AsBytes(sig), u.plan));
  }
}
