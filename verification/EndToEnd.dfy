/** From the client's instruction list to the calls the program makes. */
module EndToEnd {
  import opened Base
  import opened Winternitz
  import opened Soundness
  import opened Keypair
  import opened Encoding
  import opened Wire
  import opened Decode
  import opened Preimage
  import opened Program
  import opened NestedRuns
  import opened Wallet

  /** Invoke a decoded list one after the other. */
  function RunCpis(env: Env, st: Ledger, cpis: seq<Cpi<View>>, wallet: Address, pda: Option<Address>): Outcome
    decreases |cpis|
  {
    if cpis == [] then Ok(Done(st, []))
    else
      match InvokeCpi(env, st, cpis[0], wallet, pda)
      case Err(e) => Err(e)
      case Ok(d) =>
        match RunCpis(env, d.ledger, cpis[1..], wallet, pda)
        case Err(e) => Err(e)
        case Ok(d') => Ok(Done(d'.ledger, d.log + d'.log))
  }

  /** Where a list stops: at the first call whose program is not executable by then, or which appears to need the
      wallet's signature while the seeds sign for another address. */
  lemma {:induction false} RunStops(env: Env, st: Ledger, cpis: seq<Cpi<View>>, wallet: Address, pda: Option<Address>,
                                    k: nat)
    requires k < |cpis| && RunCpis(env, st, cpis[..k], wallet, pda).Ok?
    ensures var (reached, cpi) := (RunCpis(env, st, cpis[..k], wallet, pda).value.ledger, cpis[k]);
            var run := RunCpis(env, st, cpis, wallet, pda);
            && (cpi.program.address !in reached ==> run == Err(IncorrectProgramId))
            && (!Get(env, reached, cpi.program.address).executable ==> run == Err(IncorrectProgramId))
            && (Get(env, reached, cpi.program.address).executable && pda == None ==> run == Err(RuntimeRejected))
            && forall j :: 0 <= j < |cpi.accounts| && cpi.accounts[j].address == wallet && !cpi.accounts[j].isSigner &&
                           Get(env, reached, cpi.program.address).executable && pda != Some(wallet) ==>
                 run == Err(RuntimeRejected)
    decreases k
  {
    if k > 0 {
      assert cpis[..k][0] == cpis[0] && cpis[..k][1..] == cpis[1..][..k - 1];
      RunStops(env, InvokeCpi(env, st, cpis[0], wallet, pda).value.ledger, cpis[1..], wallet, pda, k - 1);
    }
  }

  /** Cutting and calling in turn does what cutting everything first and then calling does. */
  lemma {:induction false} ReplayIsRun(env: Env, st: Ledger, count: nat, payload: Bytes, rest: seq<View>, cursor: nat,
                                       wallet: Address, pda: Option<Address>)
    requires cursor <= |rest| && DecodeRest(count, payload, rest, cursor).Ok?
    ensures Replay(env, st, count, payload, rest, cursor, wallet, pda) ==
            RunCpis(env, st, DecodeRest(count, payload, rest, cursor).value, wallet, pda)
    decreases count
  {
    if count > 0 {
      var cut, tail := DecodeRestStep(count, payload, rest, cursor);
      var o := InvokeCpi(env, st, cut.cpi, wallet, pda);
      assert ([cut.cpi] + tail)[0] == cut.cpi && ([cut.cpi] + tail)[1..] == tail;
      if o.Ok? {
        ReplayIsRun(env, o.value.ledger, count - 1, cut.payload, rest, cut.cursor, wallet, pda);
      }
    }
  }

  predicate Shows(v: View, m: Meta) {
    v.address == m.pubkey && (m.isSigner ==> v.isSigner) && (m.isWritable ==> v.isWritable)
  }

  /** The runtime hands the program these accounts in order, each with at least the flags it is listed with. */
  predicate Presents(views: seq<View>, metas: seq<Meta>) {
    |views| == |metas| && forall j :: 0 <= j < |metas| ==> Shows(views[j], metas[j])
  }

  /** The call is the client's instruction: its program, addresses and data, and what it lists as writable is. */
  predicate CallOf(cpi: Cpi<View>, ix: Instruction) {
    && cpi.program.address == ix.programId && cpi.data == ix.data && |cpi.accounts| == |ix.accounts|
    && forall j :: 0 <= j < |ix.accounts| ==>
         && cpi.accounts[j].address == ix.accounts[j].pubkey
         && (ix.accounts[j].isWritable ==> cpi.accounts[j].isWritable)
  }

  /** The wallet account the client signed for is the one on the ledger. */
  predicate Stored(env: Env, st: Ledger, pda: Address, id: Digest, root: Digest, bump: byte) {
    Get(env, st, pda).data == WalletData(id, root, bump) && Get(env, st, pda).owner == env.programId
  }

  lemma {:induction false} CutInThree(a: Bytes, b: Digest, c: Bytes)
    requires |a| == SIGNATURE_LEN
    ensures var arg := a + b + c;
            arg[..SIGNATURE_LEN] == a && arg[SIGNATURE_LEN..SIGNATURE_LEN + 32] == b && arg[SIGNATURE_LEN + 32..] == c
  {
  }

  lemma {:induction false} ParseAdvance(env: Env, st: Ledger, views: seq<View>, sig: Scalars, newRoot: Digest,
                                        payload: Bytes)
    requires sig.Fits(SCALARS) && views != []
    ensures Process(env, st, views, [1] + AsBytes(sig) + newRoot + payload) ==
            AdvanceExecute(env, st, views[0], views[1..], sig, newRoot, payload)
  {
    BytesRoundTrip(sig, SCALARS);
    ChunksOfConcat(sig.All());
    var data := [1] + AsBytes(sig) + newRoot + payload;
    CutInThree(AsBytes(sig), newRoot, payload);
    assert data[1..] == AsBytes(sig) + newRoot + payload;
    assert Process(env, st, views, data) == Advance(env, st, views, data[1..]);
  }

  /** Behind the checks on its accounts an Advance is refused for its signature, over the stored root; only with a valid
      one is its payload looked at. */
  lemma {:induction false} SignatureRefusals(env: Env, st: Ledger, views: seq<View>, sig: Scalars, newRoot: Digest,
                                             payload: Bytes)
    requires sig.Fits(22) && views != [] && |views| <= 129 && |Get(env, st, views[0].address).data| == 65
    ensures var w := Get(env, st, views[0].address);
            var signed := Commitment(w.data[..32], w.data[32..64], newRoot, ViewAddresses(views[1..]), payload);
            var valid := Verify(env.H, sig, Parts(signed), w.data[32..64]);
            var o := Process(env, st, views, [1] + AsBytes(sig) + newRoot + payload);
            && (!valid ==> o == Err(MissingRequiredSignature))
            && (valid && payload == [] && views[0].isWritable && w.owner == env.programId ==>
                  o == Err(InvalidInstructionData))
  {
    ParseAdvance(env, st, views, sig, newRoot, payload);
    if views[0].isWritable {
      assert ([views[0]] + views[1..])[0] == views[0];
      assert Writable([views[0]] + views[1..], views[0].address);
    }
  }

  /** The digest committed to on chain is the one the client signed. */
  lemma {:induction false} SameCommitment(plan: AdvancePlan, id: Digest, root: Digest, bump: byte, rest: seq<View>)
    requires ViewAddresses(rest) == Addresses(plan.payload.accounts)
    ensures CommitmentOf(WalletData(id, root, bump), plan.newRoot, rest, plan.payload.data) ==
            plan.CommitmentFor(id, root)
  {
    var d := WalletData(id, root, bump);
    assert IdOf(d) == id && RootOf(d) == root;
  }

  /** The accounts behind the wallet are those the payload passes. */
  lemma {:induction false} PresentedRest(env: Env, plan: AdvancePlan, views: seq<View>)
    requires Presents(views, plan.ToInstruction(env.programId, []).accounts)
    ensures |views| == 1 + |plan.payload.accounts| && views[0].address == plan.walletPda && views[0].isWritable
    ensures Presents(views[1..], plan.payload.accounts)
    ensures ViewAddresses(views[1..]) == Addresses(plan.payload.accounts)
  {
    var metas := plan.ToInstruction(env.programId, []).accounts;
    assert Shows(views[0], metas[0]);
    forall j | 0 <= j < |plan.payload.accounts|
      ensures Shows(views[1..][j], plan.payload.accounts[j])
    {
      assert metas[j + 1] == plan.payload.accounts[j];
    }
  }

  lemma {:induction false} AccountShown(ixs: seq<Instruction>, rest: seq<View>, k: nat, j: nat)
    requires Accepts(ixs) && Presents(rest, PassAll(ixs)) && k < |ixs| && j < |ixs[k].accounts|
    ensures j < |Placed(ixs, rest, 0)[k].accounts|
    ensures Shows(Placed(ixs, rest, 0)[k].accounts[j],
                  Meta(ixs[k].accounts[j].pubkey, false, ixs[k].accounts[j].isWritable))
  {
    AccountAt(ixs, k, j);
    PlacedAccount(ixs, rest, k, j);
    assert Shows(rest[AccountOffset(ixs, k) + 1 + j], PassAll(ixs)[AccountOffset(ixs, k) + 1 + j]);
  }

  lemma {:induction false} PlacedIsCall(ixs: seq<Instruction>, rest: seq<View>, k: nat)
    requires Accepts(ixs) && Presents(rest, PassAll(ixs)) && k < |ixs|
    ensures CallOf(Placed(ixs, rest, 0)[k], ixs[k])
  {
    PlacedAt(ixs, rest, 0, k);
    ProgramAt(ixs, k);
    assert Shows(rest[AccountOffset(ixs, k)], PassAll(ixs)[AccountOffset(ixs, k)]);
    forall j | 0 <= j < |ixs[k].accounts|
      ensures Shows(Placed(ixs, rest, 0)[k].accounts[j],
                    Meta(ixs[k].accounts[j].pubkey, false, ixs[k].accounts[j].isWritable))
    {
      AccountShown(ixs, rest, k, j);
    }
  }

  lemma {:induction false} PresentedDecodes(ixs: seq<Instruction>, rest: seq<View>)
    requires Accepts(ixs) && Presents(rest, PassAll(ixs))
    ensures var r := DecodePayload(Encoded(ixs).data, rest);
            r.Ok? && |r.value| == |ixs| && forall k :: 0 <= k < |ixs| ==> CallOf(r.value[k], ixs[k])
  {
    assert forall j :: 0 <= j < |rest| ==> Shows(rest[j], PassAll(ixs)[j]);
    DecodeEncoded((v: View) => v.address, ixs, rest);
    forall k | 0 <= k < |ixs|
      ensures CallOf(Placed(ixs, rest, 0)[k], ixs[k])
    {
      PlacedIsCall(ixs, rest, k);
    }
  }

  /** The owner's signature over a plan passes every check: what is left is storing the root and replaying. */
  lemma {:induction false} SignedExecutes(env: Env, st: Ledger, mac: Mac, master: Node, p: Position, id: Digest,
                                          bump: byte, wallet: View, rest: seq<View>, plan: AdvancePlan)
    requires Stored(env, st, wallet.address, id, RootAt(env.H, mac, master, p, SCALARS), bump) && wallet.isWritable
    requires ViewAddresses(rest) == Addresses(plan.payload.accounts) && |rest| <= MAX_PASSTHROUGH_ACCOUNTS
    requires plan.payload.data != []
    ensures var root := RootAt(env.H, mac, master, p, SCALARS);
            var sig := SignatureOf(env.H, mac, master, UnsignedAdvance(id, root, p, plan));
            var data := plan.payload.data;
            AdvanceExecute(env, st, wallet, rest, sig, plan.newRoot, data) ==
            match Replay(env, StoreRoot(env, st, wallet.address, plan.newRoot), data[0], data[1..], rest, 0,
                         wallet.address, env.signerPda(id, bump))
            case Err(e) => Err(e)
            case Ok(d) => Ok(Done(d.ledger, [Rotated(wallet.address, plan.CommitmentFor(id, root), sig)] + d.log))
  {
    var root := RootAt(env.H, mac, master, p, SCALARS);
    SameCommitment(plan, id, root, bump, rest);
    SignedVerifies(env.H, Derive(mac, master, p, SCALARS),
                   MessageDigest(env.H, Parts(plan.CommitmentFor(id, root)), SCALARS));
    assert Writable([wallet] + rest, wallet.address) by { assert ([wallet] + rest)[0] == wallet; }
  }

  /** For every accepted list and every keypair whose root is the stored one: the instruction made
      from the plan and its signature verifies on chain, and executing it is exactly storing the new
      root and then making the client's calls, with its programs, addresses and data, in order. */
  lemma {:induction false} SignedAdvanceReplays(env: Env, st: Ledger, mac: Mac, master: Node, p: Position, id: Digest,
                                                bump: byte, pda: Address, newRoot: Digest, ixs: seq<Instruction>,
                                                views: seq<View>)
      returns (cpis: seq<Cpi<View>>)
    requires Accepts(ixs)
    requires Stored(env, st, pda, id, RootAt(env.H, mac, master, p, SCALARS), bump)
    requires var plan := AdvancePlan(pda, newRoot, Encoded(ixs));
             Presents(views, plan.ToInstruction(env.programId, []).accounts)
    ensures |cpis| == |ixs| && forall k :: 0 <= k < |ixs| ==> CallOf(cpis[k], ixs[k])
    ensures DecodePayload(Encoded(ixs).data, views[1..]) == Ok(cpis)
    ensures var root := RootAt(env.H, mac, master, p, SCALARS);
            var plan := AdvancePlan(pda, newRoot, Encoded(ixs));
            var sig := SignatureOf(env.H, mac, master, UnsignedAdvance(id, root, p, plan));
            var st1 := StoreRoot(env, st, pda, newRoot);
            Process(env, st, views, plan.ToInstruction(env.programId, AsBytes(sig)).data) ==
            match RunCpis(env, st1, cpis, pda, env.signerPda(id, bump))
            case Err(e) => Err(e)
            case Ok(d) => Ok(Done(d.ledger, [Rotated(pda, plan.CommitmentFor(id, root), sig)] + d.log))
  {
    var root := RootAt(env.H, mac, master, p, SCALARS);
    var plan := AdvancePlan(pda, newRoot, Encoded(ixs));
    var sig := SignatureOf(env.H, mac, master, UnsignedAdvance(id, root, p, plan));
    PresentedRest(env, plan, views);
    PresentedDecodes(ixs, views[1..]);
    cpis := DecodePayload(plan.payload.data, views[1..]).value;
    ParseAdvance(env, st, views, sig, newRoot, plan.payload.data);
    SignedExecutes(env, st, mac, master, p, id, bump, views[0], views[1..], plan);
    ReplayIsRun(env, StoreRoot(env, st, pda, newRoot), plan.payload.data[0], plan.payload.data[1..], views[1..], 0,
                pda, env.signerPda(id, bump));
  }

  /** Conversely, an Advance accepted while the root of position `q` is stored carries exactly the
      signature that key `q` makes over the on-chain commitment, or exhibits a collision. */
  lemma {:induction false} AcceptedIsOwners(env: Env, st: Ledger, mac: Mac, master: Node, q: Position, wallet: View,
                                            rest: seq<View>, sig: Scalars, newRoot: Digest,
                                            payload: Bytes) returns (c: Clash)
    requires sig.Fits(SCALARS) && AdvanceExecute(env, st, wallet, rest, sig, newRoot, payload).Ok?
    requires RootOf(Get(env, st, wallet.address).data) == RootAt(env.H, mac, master, q, SCALARS)
    ensures var onChain := CommitmentOf(Get(env, st, wallet.address).data, newRoot, rest, payload);
            var m := MessageDigest(env.H, Parts(onChain), SCALARS);
            || sig == Sign(env.H, Derive(mac, master, q, SCALARS), m)
            || (Collides(env.H, c) && VerifierHashes(env.H, sig, m, c.x) &&
                KeyHashes(env.H, Derive(mac, master, q, SCALARS), c.y))
  {
    c := Clash([], []);
    var onChain := CommitmentOf(Get(env, st, wallet.address).data, newRoot, rest, payload);
    var m, sk := MessageDigest(env.H, Parts(onChain), SCALARS), Derive(mac, master, q, SCALARS);
    if sig != Sign(env.H, sk, m) {
      c := ForgeryClash(env.H, sk, m, sig);
    }
  }

  // ---- What is stored in the end ----

  lemma {:induction false} RunFollows(env: Env, st: Ledger, cpis: seq<Cpi<View>>, wallet: Address, pda: Option<Address>,
                                      w: Address)
    ensures Follows(env, st, RunCpis(env, st, cpis, wallet, pda), w)
    decreases |cpis|
  {
    if cpis != [] && RunCpis(env, st, cpis, wallet, pda).Ok? {
      CpiFollows(env, st, cpis[0], wallet, pda, w);
      var d := InvokeCpi(env, st, cpis[0], wallet, pda).value;
      RunFollows(env, d.ledger, cpis[1..], wallet, pda, w);
      var d' := RunCpis(env, d.ledger, cpis[1..], wallet, pda).value;
      FoldAppend(env, CellOf(env, st, w), w, d.log, d'.log);
    }
  }

  lemma {:induction false} WalletDataParts(d: Bytes, id: Digest, root: Digest, bump: byte)
    requires |d| == WALLET_LEN
    ensures d == WalletData(id, root, bump) <==> IdOf(d) == id && RootOf(d) == root && d[64] == bump
  {
    assert d == d[..32] + d[32..64] + [d[64]];
    var e := WalletData(id, root, bump);
    assert e[..32] == id && e[32..64] == root && e[64] == bump;
  }

  /** What the account of `pda` says after its calls ran: the root they wrote last, or the stored one. */
  predicate EndsAt(env: Env, d: Done, pda: Address, id: Digest, root: Digest, bump: byte) {
    && Get(env, d.ledger, pda).owner == env.programId
    && Get(env, d.ledger, pda).data == WalletData(id, LastRoot(root, pda, d.log), bump)
    && (!Advanced(pda, d.log) ==> Get(env, d.ledger, pda).data == WalletData(id, root, bump))
  }

  lemma {:induction false} RunEndsAt(env: Env, st: Ledger, cpis: seq<Cpi<View>>, pda: Address, signer: Option<Address>,
                                     id: Digest, root: Digest, bump: byte)
    requires Stored(env, st, pda, id, root, bump) && RunCpis(env, st, cpis, pda, signer).Ok?
    requires var log := RunCpis(env, st, cpis, pda, signer).value.log;
             Lawful(env, pda, log) && NeverClosed(pda, log)
    ensures EndsAt(env, RunCpis(env, st, cpis, pda, signer).value, pda, id, root, bump)
  {
    var d, c := RunCpis(env, st, cpis, pda, signer).value, CellOf(env, st, pda);
    RunFollows(env, st, cpis, pda, signer, pda);
    WalletDataParts(c.data, id, root, bump);
    StoredRootIsLast(env, c, pda, d.log);
    WalletDataParts(Get(env, d.ledger, pda).data, id, LastRoot(root, pda, d.log), bump);
    if !Advanced(pda, d.log) {
      LastRootUnadvanced(root, pda, d.log);
    }
  }

  lemma {:induction false} StoredRoot(env: Env, st: Ledger, pda: Address, id: Digest, root: Digest, bump: byte,
                                      newRoot: Digest)
    requires Stored(env, st, pda, id, root, bump)
    ensures Get(env, StoreRoot(env, st, pda, newRoot), pda).data == WalletData(id, newRoot, bump)
  {
    var d := WalletData(id, root, bump);
    assert d[..32] == id && d[64..] == [bump];
  }

  /** End to end, for every accepted list: if the client's calls succeed and none of them closes the wallet, the
      transaction succeeds and leaves the plan's new root stored, or the root an inner Advance wrote last. */
  lemma {:induction false} SignedAdvanceStores(env: Env, st: Ledger, mac: Mac, master: Node, p: Position, id: Digest,
                                               bump: byte, pda: Address, newRoot: Digest, ixs: seq<Instruction>,
                                               views: seq<View>)
      returns (cpis: seq<Cpi<View>>)
    requires Accepts(ixs)
    requires Stored(env, st, pda, id, RootAt(env.H, mac, master, p, SCALARS), bump)
    requires var plan := AdvancePlan(pda, newRoot, Encoded(ixs));
             Presents(views, plan.ToInstruction(env.programId, []).accounts)
    ensures |cpis| == |ixs| && forall k :: 0 <= k < |ixs| ==> CallOf(cpis[k], ixs[k])
    ensures var root := RootAt(env.H, mac, master, p, SCALARS);
            var plan := AdvancePlan(pda, newRoot, Encoded(ixs));
            var sig := SignatureOf(env.H, mac, master, UnsignedAdvance(id, root, p, plan));
            var o := Process(env, st, views, plan.ToInstruction(env.programId, AsBytes(sig)).data);
            var run := RunCpis(env, StoreRoot(env, st, pda, newRoot), cpis, pda, env.signerPda(id, bump));
            run.Ok? && Lawful(env, pda, run.value.log) && NeverClosed(pda, run.value.log) ==>
              o.Ok? && o.value.ledger == run.value.ledger && EndsAt(env, run.value, pda, id, newRoot, bump)
  {
    cpis := SignedAdvanceReplays(env, st, mac, master, p, id, bump, pda, newRoot, ixs, views);
    var st1, signer := StoreRoot(env, st, pda, newRoot), env.signerPda(id, bump);
    var run := RunCpis(env, st1, cpis, pda, signer);
    StoredRoot(env, st, pda, id, RootAt(env.H, mac, master, p, SCALARS), bump, newRoot);
    if run.Ok? && Lawful(env, pda, run.value.log) && NeverClosed(pda, run.value.log) {
      RunEndsAt(env, st1, cpis, pda, signer, id, newRoot, bump);
    }
  }

  /** The instruction byte by byte: its kind, 24 scalars of 32 bytes with the message scalars first, the new root and
      the payload; and the wallet, writable and unsigned, in front of the accounts. */
  lemma {:induction false} AdvanceLayout(plan: AdvancePlan, programId: Address, sig: Scalars, i: nat)
    requires sig.Fits(22) && i < 24
    ensures var ix := plan.ToInstruction(programId, AsBytes(sig));
            && ix.programId == programId
            && ix.accounts == [Meta(plan.walletPda, false, true)] + plan.payload.accounts
            && |ix.data| == 801 + |plan.payload.data| && ix.data[0] == 1
            && ix.data[1 + 32 * i..33 + 32 * i] == (if i < 22 then sig.message[i] else sig.checksum[i - 22])
            && ix.data[769..801] == plan.newRoot && ix.data[801..] == plan.payload.data
  {
    BytesAt(sig, 22, i);
    var data := plan.ToInstruction(programId, AsBytes(sig)).data;
    assert data[1..769] == AsBytes(sig);
    assert data[1 + 32 * i..33 + 32 * i] == data[1..769][32 * i..32 * i + 32];
  }

  // ---- Initialize ----

  /** What Initialize makes of a signature and a root. */
  lemma {:induction false} ParseInitialize(env: Env, st: Ledger, views: seq<View>, sig: Scalars, root: Digest)
    requires sig.Fits(SCALARS)
    ensures Process(env, st, views, [0] + AsBytes(sig) + root) == Initialize(env, st, views, AsBytes(sig) + root)
    ensures |AsBytes(sig)| == SIGNATURE_LEN && (AsBytes(sig) + root)[SIGNATURE_LEN..] == root
    ensures FromBytes((AsBytes(sig) + root)[..SIGNATURE_LEN], SCALARS) == Ok(sig)
  {
    BytesRoundTrip(sig, SCALARS);
    ChunksOfConcat(sig.All());
    var data := [0] + AsBytes(sig) + root;
    assert data[1..] == AsBytes(sig) + root;
    assert (AsBytes(sig) + root)[..SIGNATURE_LEN] == AsBytes(sig);
  }

  lemma {:induction false} InitializeCreates(env: Env, st: Ledger, views: seq<View>, sig: Scalars, root: Digest)
    requires sig.Fits(SCALARS) && |views| == 3
    ensures var o := Initialize(env, st, views, AsBytes(sig) + root);
            var (id, w) := (RecoveredId(env, sig), views[1]);
            o.Ok? <==> && Get(env, st, w.address).owner == env.systemId
                       && env.findPda(id).Some? && env.findPda(id).value.0 == w.address
                       && Get(env, st, w.address).data == [] && w.isWritable && Covers(env, st, views[0], w.address)
    ensures var o := Initialize(env, st, views, AsBytes(sig) + root);
            var id := RecoveredId(env, sig);
            o.Ok? ==> o == CreateWallet(env, st, views[0], views[1], WalletData(id, root, env.findPda(id).value.1))
  {
    ParseInitialize(env, st, views, sig, root);
  }

  /** The Initialize signature covers the tag alone: a signature that creates a wallet with one root creates the
      same wallet, on the same ledger, with every other root as well. */
  lemma {:induction false} InitializeBindsNoRoot(env: Env, st: Ledger, views: seq<View>, sig: Scalars, root: Digest,
                                                 root': Digest)
      returns (id: Digest, bump: byte)
    requires sig.Fits(SCALARS) && Process(env, st, views, [0] + AsBytes(sig) + root).Ok?
    ensures |views| == 3
    ensures Process(env, st, views, [0] + AsBytes(sig) + root)
         == CreateWallet(env, st, views[0], views[1], WalletData(id, root, bump))
    ensures Process(env, st, views, [0] + AsBytes(sig) + root')
         == CreateWallet(env, st, views[0], views[1], WalletData(id, root', bump))
    ensures Process(env, st, views, [0] + AsBytes(sig) + root').Ok?
  {
    id := RecoveredId(env, sig);
    ParseInitialize(env, st, views, sig, root);
    ParseInitialize(env, st, views, sig, root');
    InitializeCreates(env, st, views, sig, root);
    InitializeCreates(env, st, views, sig, root');
    bump := env.findPda(id).value.1;
  }

  /** The text every wallet's first signature is over. */
  predicate InitializeText(tag: Bytes) {
    && |tag| == |"WINTERWALLET_INITIALIZE"|
    && forall i :: 0 <= i < |tag| ==> tag[i] as char == "WINTERWALLET_INITIALIZE"[i]
  }

  lemma {:induction false} InitializeTextIsTag(tag: Bytes)
    requires InitializeText(tag)
    ensures tag == Tag(ForInitialize)
  {
    TagTexts();
  }

  /** What the program recovers from the owner's signature over that text is the root of the signing position, so a
      transaction carrying it creates the wallet of that id. */
  lemma {:induction false} OwnerInitializes(env: Env, st: Ledger, mac: Mac, master: Node, p: Position, tag: Bytes,
                                            root: Digest, views: seq<View>, bump: byte)
    requires InitializeText(tag) && |views| == 3 && Get(env, st, views[1].address).owner == env.systemId
    requires env.findPda(RootAt(env.H, mac, master, p, SCALARS)) == Some((views[1].address, bump))
    ensures var id := RootAt(env.H, mac, master, p, SCALARS);
            var sig := Sign(env.H, Derive(mac, master, p, SCALARS), MessageDigest(env.H, [tag], SCALARS));
            Process(env, st, views, [0] + AsBytes(sig) + root)
            == CreateWallet(env, st, views[0], views[1], WalletData(id, root, bump))
  {
    InitializeTextIsTag(tag);
    var sk, m := Derive(mac, master, p, SCALARS), MessageDigest(env.H, [tag], SCALARS);
    SignedVerifies(env.H, sk, m);
    ParseInitialize(env, st, views, Sign(env.H, sk, m), root);
  }

  /** Conversely, whatever creates the wallet of the id of position `p` carries the signature of that position's key
      over that text, or exhibits a collision. */
  lemma {:induction false} InitializedIsOwners(env: Env, mac: Mac, master: Node, p: Position, tag: Bytes,
                                               sig: Scalars) returns (c: Clash)
    requires InitializeText(tag) && sig.Fits(SCALARS) && RecoveredId(env, sig) == RootAt(env.H, mac, master, p, SCALARS)
    ensures var (sk, m) := (Derive(mac, master, p, SCALARS), MessageDigest(env.H, [tag], SCALARS));
            || sig == Sign(env.H, sk, m)
            || (Collides(env.H, c) && VerifierHashes(env.H, sig, m, c.x) && KeyHashes(env.H, sk, c.y))
  {
    InitializeTextIsTag(tag);
    c := Clash([], []);
    var sk, m := Derive(mac, master, p, SCALARS), MessageDigest(env.H, [tag], SCALARS);
    if sig != Sign(env.H, sk, m) {
      c := ForgeryClash(env.H, sk, m, sig);
    }
  }
}
