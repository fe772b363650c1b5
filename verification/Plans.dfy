/** The plans of the command line, each a list of one instruction, all the way through. */
module Plans {
  import opened Base
  import opened Winternitz
  import opened Keypair
  import opened Encoding
  import opened Wire
  import opened Decode
  import opened Program
  import opened Wallet
  import opened EndToEnd

  // ---- A list of one ----

  lemma {:induction false} EncodedOne(ix: Instruction)
    requires Accepts([ix])
    ensures Fits(ix) && PassAll([ix]) == PassOne(ix) && |PassAll([ix])| == 1 + |ix.accounts|
    ensures Encoded([ix]).data == [1] + EncodeOne(ix) && EncodeAll([ix]) == EncodeOne(ix)
  {
    assert [ix][1..] == [] && ix in [ix];
    assert EncodeAll([ix]) == EncodeOne(ix) + EncodeAll([]);
    assert PassAll([ix]) == PassOne(ix) + PassAll([]);
  }

  lemma {:induction false} PlacedOne(ix: Instruction, rest: seq<View>)
    requires |PassAll([ix])| == 1 + |ix.accounts| == |rest|
    ensures Placed([ix], rest, 0) == [Cpi(rest[0], rest[1..], ix.data)]
  {
    assert [ix][1..] == [] && rest[1..|rest|] == rest[1..];
  }

  lemma {:induction false} DecodesToOne(ix: Instruction, rest: seq<View>)
    requires Accepts([ix]) && |rest| == 1 + |ix.accounts|
    ensures DecodePayload(Encoded([ix]).data, rest) == Ok([Cpi(rest[0], rest[1..], ix.data)])
  {
    EncodedOne(ix);
    PlacedOne(ix, rest);
    DecodeOfEncoded([ix], EncodeAll([ix]), rest, 0, Placed([ix], rest, 0));
    assert ([1] + EncodeOne(ix))[1..] == EncodeOne(ix);
  }

  lemma {:induction false} RunOne(env: Env, st: Ledger, cpi: Cpi<View>, wallet: Address, pda: Option<Address>)
    ensures RunCpis(env, st, [cpi], wallet, pda) == InvokeCpi(env, st, cpi, wallet, pda)
  {
    var o := InvokeCpi(env, st, cpi, wallet, pda);
    if o.Ok? {
      assert [cpi][1..] == [];
      assert RunCpis(env, o.value.ledger, [], wallet, pda) == Ok(Done(o.value.ledger, []));
      assert o.value.log + [] == o.value.log;
    }
  }

  /** A signed plan of one instruction does nothing but store the new root and make that one call. */
  lemma {:induction false} OneCallPlan(env: Env, st: Ledger, mac: Mac, master: Node, p: Position, id: Digest,
                                       bump: byte, pda: Address, newRoot: Digest, ix: Instruction, views: seq<View>)
    requires Accepts([ix]) && Stored(env, st, pda, id, RootAt(env.H, mac, master, p, SCALARS), bump)
    requires var plan := AdvancePlan(pda, newRoot, Encoded([ix]));
             Presents(views, plan.ToInstruction(env.programId, []).accounts) && |views| == 2 + |ix.accounts|
    ensures var root := RootAt(env.H, mac, master, p, SCALARS);
            var plan := AdvancePlan(pda, newRoot, Encoded([ix]));
            var sig := SignatureOf(env.H, mac, master, UnsignedAdvance(id, root, p, plan));
            Process(env, st, views, plan.ToInstruction(env.programId, AsBytes(sig)).data) ==
            match InvokeCpi(env, StoreRoot(env, st, pda, newRoot), Cpi(views[1], views[2..], ix.data), pda,
                            env.signerPda(id, bump))
            case Err(e) => Err(e)
            case Ok(d) => Ok(Done(d.ledger, [Rotated(pda, plan.CommitmentFor(id, root), sig)] + d.log))
  {
    DecodesToOne(ix, views[1..]);
    assert views[1..][1..] == views[2..];
    var cpis := SignedAdvanceReplays(env, st, mac, master, p, id, bump, pda, newRoot, [ix], views);
    RunOne(env, StoreRoot(env, st, pda, newRoot), cpis[0], pda, env.signerPda(id, bump));
  }

  // ---- Calls of the program itself on two accounts ----

  /** `withdraw` on the client. */
  function WithdrawInstruction(programId: Address, pda: Address, receiver: Address, amount: u64): Instruction {
    Instruction(programId, [Meta(pda, false, true), Meta(receiver, false, true)], [2] + U64Le(amount))
  }

  /** `close` on the client. */
  function CloseInstruction(programId: Address, pda: Address, receiver: Address): Instruction {
    Instruction(programId, [Meta(pda, false, true), Meta(receiver, false, true)], [3])
  }

  /** A list of one instruction over two accounts is always accepted. */
  lemma {:induction false} PairAccepted(ix: Instruction)
    requires |ix.accounts| == 2 && |ix.data| <= 0xFFFF
    ensures Accepts([ix])
  {
    assert [ix][1..] == [] && PassAll([ix]) == PassOne(ix) + PassAll([]);
  }

  /** The runtime hands the program the accounts of the plan for this list. */
  predicate Handed(env: Env, views: seq<View>, pda: Address, newRoot: Digest, ixs: seq<Instruction>) {
    var plan := PlanFor(pda, newRoot, ixs);
    plan.Ok? && Presents(views, plan.value.ToInstruction(env.programId, []).accounts)
  }

  /** What the views of such a plan are: the wallet, the program, and the two accounts with the flags of the list. */
  lemma {:induction false} PairHanded(env: Env, views: seq<View>, pda: Address, newRoot: Digest, ix: Instruction)
    requires |ix.accounts| == 2 && Handed(env, views, pda, newRoot, [ix])
    ensures Accepts([ix]) && |views| == 4
    ensures views[0].address == pda && views[0].isWritable && views[1].address == ix.programId
    ensures views[2].address == ix.accounts[0].pubkey && views[3].address == ix.accounts[1].pubkey
    ensures ix.accounts[0].isWritable ==> views[2].isWritable
    ensures ix.accounts[1].isWritable ==> views[3].isWritable
  {
    var plan := PlanFor(pda, newRoot, [ix]).value;
    EncodedOne(ix);
    PresentedRest(env, plan, views);
    ProgramAt([ix], 0);
    AccountAt([ix], 0, 0);
    AccountAt([ix], 0, 1);
    assert Shows(views[1..][0], plan.payload.accounts[0]);
    assert Shows(views[1..][1], plan.payload.accounts[1]);
    assert Shows(views[1..][2], plan.payload.accounts[2]);
  }

  /** An inner call of the program reaches its handler with the wallet as a signer. */
  lemma {:induction false} SelfCall(env: Env, st: Ledger, program: View, accounts: seq<View>, pda: Address, data: Bytes)
    requires program.address == env.programId && Get(env, st, env.programId).executable
    ensures InvokeCpi(env, st, Cpi(program, accounts, data), pda, Some(pda)) ==
            Process(env, st, Promote(accounts, pda), data)
  {
  }

  lemma {:induction false} InnerWithdraw(env: Env, st: Ledger, views: seq<View>, amount: u64)
    requires |views| == 2 && views[0].isSigner && Get(env, st, views[0].address).data != []
    ensures Process(env, st, views, [2] + U64Le(amount)) == WithdrawExecute(env, st, views, amount)
  {
    var data := [2] + U64Le(amount);
    assert data[1..] == U64Le(amount);
    U64RoundTrip(amount);
    assert Process(env, st, views, data) == Withdraw(env, st, views, data[1..]);
  }

  lemma {:induction false} InnerClose(env: Env, st: Ledger, views: seq<View>)
    requires |views| == 2 && views[0].isSigner && Get(env, st, views[0].address).data != []
    requires views[0].address != views[1].address
    ensures Process(env, st, views, [3]) == CloseExecute(env, st, views)
  {
    var data: Bytes := [3];
    assert data[1..] == [];
    assert Process(env, st, views, data) == Close(env, st, views, []);
  }

  lemma {:induction false} WithdrawEffect(env: Env, st: Ledger, views: seq<View>, amount: u64)
    requires |views| == 2 && views[0].address != views[1].address && views[0].isWritable && views[1].isWritable
    requires Get(env, st, views[0].address).owner == env.programId
    requires Get(env, st, views[0].address).lamports >= amount as int + env.rent as int
    requires Get(env, st, views[1].address).lamports as int + amount as int <= U64_MAX as int
    ensures var o := WithdrawExecute(env, st, views, amount);
            && o.Ok?
            && Get(env, o.value.ledger, views[0].address).data == Get(env, st, views[0].address).data
            && Get(env, o.value.ledger, views[0].address).lamports == Get(env, st, views[0].address).lamports - amount
            && Get(env, o.value.ledger, views[1].address).lamports == Get(env, st, views[1].address).lamports + amount
  {
  }

  lemma {:induction false} CloseEffect(env: Env, st: Ledger, views: seq<View>)
    requires |views| == 2 && views[0].address != views[1].address && views[0].isWritable && views[1].isWritable
    requires Get(env, st, views[0].address).owner == env.programId
    requires var (w, r) := (Get(env, st, views[0].address), Get(env, st, views[1].address));
             r.lamports as int + w.lamports as int <= U64_MAX as int
    ensures var o := CloseExecute(env, st, views);
            var (w, r) := (Get(env, st, views[0].address), Get(env, st, views[1].address));
            && o.Ok? && o.value.log == [Closed(views[0].address)]
            && Get(env, o.value.ledger, views[0].address) == Account(0, [], env.systemId, w.executable)
            && Get(env, o.value.ledger, views[1].address) == r.(lamports := r.lamports + w.lamports)
  {
  }

  /** A wallet account in the hands of its owner, and a receiver that is another account. */
  predicate Ready(env: Env, st: Ledger, mac: Mac, master: Node, p: Position, id: Digest, bump: byte, pda: Address,
                  receiver: Address)
  {
    && Stored(env, st, pda, id, RootAt(env.H, mac, master, p, SCALARS), bump)
    && env.signerPda(id, bump) == Some(pda) && Get(env, st, env.programId).executable
    && pda != receiver && pda != env.programId
  }

  lemma {:induction false} ReadyCall(env: Env, st: Ledger, mac: Mac, master: Node, p: Position, id: Digest, bump: byte,
                                     pda: Address, newRoot: Digest, receiver: Address, views: seq<View>,
                                     ix: Instruction)
      returns (st1: Ledger, inner: seq<View>)
    requires Ready(env, st, mac, master, p, id, bump, pda, receiver)
    requires ix == Instruction(env.programId, [Meta(pda, false, true), Meta(receiver, false, true)], ix.data)
    requires Handed(env, views, pda, newRoot, [ix])
    ensures Accepts([ix]) && |inner| == 2 && inner[0] == View(pda, true, true)
    ensures inner[1].address == receiver && inner[1].isWritable
    ensures st1 == st[pda := Get(env, st, pda).(data := WalletData(id, newRoot, bump))]
    ensures var root := RootAt(env.H, mac, master, p, SCALARS);
            var plan := AdvancePlan(pda, newRoot, Encoded([ix]));
            var sig := SignatureOf(env.H, mac, master, UnsignedAdvance(id, root, p, plan));
            Process(env, st, views, plan.ToInstruction(env.programId, AsBytes(sig)).data) ==
            match Process(env, st1, inner, ix.data)
            case Err(e) => Err(e)
            case Ok(d) => Ok(Done(d.ledger, [Rotated(pda, plan.CommitmentFor(id, root), sig)] + d.log))
  {
    PairHanded(env, views, pda, newRoot, ix);
    OneCallPlan(env, st, mac, master, p, id, bump, pda, newRoot, ix, views);
    StoredRoot(env, st, pda, id, RootAt(env.H, mac, master, p, SCALARS), bump, newRoot);
    st1, inner := StoreRoot(env, st, pda, newRoot), Promote(views[2..], pda);
    SelfCall(env, st1, views[1], views[2..], pda, ix.data);
  }

  /** Both plans always exist. */
  lemma {:induction false} OrdinaryPlans(programId: Address, pda: Address, newRoot: Digest, receiver: Address,
                                         amount: u64)
    ensures PlanFor(pda, newRoot, [WithdrawInstruction(programId, pda, receiver, amount)]).Ok?
    ensures PlanFor(pda, newRoot, [CloseInstruction(programId, pda, receiver)]).Ok?
  {
    PairAccepted(WithdrawInstruction(programId, pda, receiver, amount));
    PairAccepted(CloseInstruction(programId, pda, receiver));
  }

  /** A withdrawal plan on a funded wallet succeeds: the root rotates, exactly the amount moves. */
  lemma {:induction false} WithdrawPlanSucceeds(env: Env, st: Ledger, mac: Mac, master: Node, p: Position, id: Digest,
                                                bump: byte, pda: Address, newRoot: Digest, receiver: Address,
                                                amount: u64, views: seq<View>)
      returns (ix: Instruction)
    requires Ready(env, st, mac, master, p, id, bump, pda, receiver)
    requires Handed(env, views, pda, newRoot, [WithdrawInstruction(env.programId, pda, receiver, amount)])
    requires Get(env, st, pda).lamports as int >= amount as int + env.rent as int
    requires Get(env, st, receiver).lamports as int + amount as int <= U64_MAX as int
    ensures ix == WithdrawInstruction(env.programId, pda, receiver, amount) && Accepts([ix])
    ensures var root := RootAt(env.H, mac, master, p, SCALARS);
            var plan := AdvancePlan(pda, newRoot, Encoded([ix]));
            var sig := SignatureOf(env.H, mac, master, UnsignedAdvance(id, root, p, plan));
            var o := Process(env, st, views, plan.ToInstruction(env.programId, AsBytes(sig)).data);
            && o.Ok?
            && Get(env, o.value.ledger, pda).data == WalletData(id, newRoot, bump)
            && Get(env, o.value.ledger, pda).lamports == Get(env, st, pda).lamports - amount
            && Get(env, o.value.ledger, receiver).lamports == Get(env, st, receiver).lamports + amount
  {
    ix := WithdrawInstruction(env.programId, pda, receiver, amount);
    var st1, inner := ReadyCall(env, st, mac, master, p, id, bump, pda, newRoot, receiver, views, ix);
    InnerWithdraw(env, st1, inner, amount);
    WithdrawEffect(env, st1, inner, amount);
  }

  /** A close plan succeeds: everything goes to the receiver, and an empty system account is left, whatever the
      root the plan names. */
  lemma {:induction false} ClosePlanSucceeds(env: Env, st: Ledger, mac: Mac, master: Node, p: Position, id: Digest,
                                             bump: byte, pda: Address, newRoot: Digest, receiver: Address,
                                             views: seq<View>)
      returns (ix: Instruction)
    requires Ready(env, st, mac, master, p, id, bump, pda, receiver)
    requires Handed(env, views, pda, newRoot, [CloseInstruction(env.programId, pda, receiver)])
    requires Get(env, st, receiver).lamports as int + Get(env, st, pda).lamports as int <= U64_MAX as int
    ensures ix == CloseInstruction(env.programId, pda, receiver) && Accepts([ix])
    ensures var root := RootAt(env.H, mac, master, p, SCALARS);
            var plan := AdvancePlan(pda, newRoot, Encoded([ix]));
            var sig := SignatureOf(env.H, mac, master, UnsignedAdvance(id, root, p, plan));
            var o := Process(env, st, views, plan.ToInstruction(env.programId, AsBytes(sig)).data);
            && o.Ok?
            && Get(env, o.value.ledger, pda) == Account(0, [], env.systemId, Get(env, st, pda).executable)
            && Get(env, o.value.ledger, receiver).lamports
               == Get(env, st, receiver).lamports + Get(env, st, pda).lamports
  {
    ix := CloseInstruction(env.programId, pda, receiver);
    var st1, inner := ReadyCall(env, st, mac, master, p, id, bump, pda, newRoot, receiver, views, ix);
    InnerClose(env, st1, inner);
    CloseEffect(env, st1, inner);
  }

  // ---- Initialize ----

  /** `initialize` on the client. */
  function InitializeInstruction(programId: Address, systemId: Address, payer: Address, pda: Address,
                                 signature: Bytes, root: Digest): Instruction
  {
    Instruction(programId, [Meta(payer, true, true), Meta(pda, false, true), Meta(systemId, false, false)],
                [0] + signature + root)
  }

  lemma {:induction false} CreateEffect(env: Env, st: Ledger, payer: View, wallet: View, data: Bytes, lacking: u64)
    requires payer.isSigner && payer.isWritable && wallet.isWritable && payer.address != wallet.address
    requires Get(env, st, wallet.address).data == []
    requires Get(env, st, payer.address).owner == env.systemId && Get(env, st, payer.address).data == []
    requires lacking as int == if Get(env, st, wallet.address).lamports >= env.rent then 0
                               else env.rent as int - Get(env, st, wallet.address).lamports as int
    requires Get(env, st, payer.address).lamports >= lacking
    ensures var o, w := CreateWallet(env, st, payer, wallet, data), Get(env, st, wallet.address);
            && o.Ok?
            && Get(env, o.value.ledger, wallet.address)
               == Account(w.lamports + lacking, data, env.programId, w.executable)
            && Get(env, o.value.ledger, payer.address).lamports == Get(env, st, payer.address).lamports - lacking
  {
  }

  /** The owner's first transaction: a payer who can cover the rent minimum creates the wallet of the id that is the
      root of the signing position, with the root it sends, and pays exactly what the address lacks. */
  lemma {:induction false} InitializeSucceeds(env: Env, st: Ledger, mac: Mac, master: Node, p: Position, tag: Bytes,
                                              root: Digest, payer: Address, pda: Address, bump: byte, lacking: u64,
                                              views: seq<View>)
    requires InitializeText(tag) && payer != pda
    requires env.findPda(RootAt(env.H, mac, master, p, SCALARS)) == Some((pda, bump))
    requires Presents(views, InitializeInstruction(env.programId, env.systemId, payer, pda, [], root).accounts)
    requires Get(env, st, pda).owner == env.systemId && Get(env, st, pda).data == []
    requires Get(env, st, payer).owner == env.systemId && Get(env, st, payer).data == []
    requires lacking as int == if Get(env, st, pda).lamports >= env.rent then 0
                               else env.rent as int - Get(env, st, pda).lamports as int
    requires Get(env, st, payer).lamports >= lacking
    ensures var id := RootAt(env.H, mac, master, p, SCALARS);
            var sig := Sign(env.H, Derive(mac, master, p, SCALARS), MessageDigest(env.H, [tag], SCALARS));
            var ix := InitializeInstruction(env.programId, env.systemId, payer, pda, AsBytes(sig), root);
            var o := Process(env, st, views, ix.data);
            && o.Ok?
            && Get(env, o.value.ledger, pda)
               == Account(Get(env, st, pda).lamports + lacking, WalletData(id, root, bump), env.programId,
                          Get(env, st, pda).executable)
            && Get(env, o.value.ledger, payer).lamports == Get(env, st, payer).lamports - lacking
  {
    var metas := InitializeInstruction(env.programId, env.systemId, payer, pda, [], root).accounts;
    assert Shows(views[0], metas[0]) && Shows(views[1], metas[1]) && |views| == 3;
    OwnerInitializes(env, st, mac, master, p, tag, root, views, bump);
    CreateEffect(env, st, views[0], views[1], WalletData(RootAt(env.H, mac, master, p, SCALARS), root, bump), lacking);
  }
}
