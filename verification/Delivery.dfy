/** The protocol's chain is the ledger: what deliveries do in the lifecycle is what the program does with the
    instructions of the command line. */
module Delivery {
  import opened Base
  import opened Winternitz
  import opened Soundness
  import opened Keypair
  import opened Encoding
  import opened Wire
  import opened Decode
  import opened Preimage
  import opened Program
  import opened NestedRuns
  import opened EndToEnd
  import opened Plans
  import opened Authority
  import PositionRoots
  import P = Protocol

  /** A wallet on a ledger, and the one instruction that each of its messages plans. */
  datatype Deployment = Deployment(
    env: Env, mac: Mac, master: Node, id: Digest, bump: byte, pda: Address, limit: u32, plan: P.Message -> Instruction)

  /** The wallet's id is the root of position 0, and its address the one found for that id. */
  ghost predicate Deployed(dep: Deployment) {
    && dep.env.systemId != dep.env.programId && RuntimeLawful(dep.env)
    && dep.id == RootAt(dep.env.H, dep.mac, dep.master, Position(0, 0, 0), SCALARS)
    && dep.env.findPda(dep.id) == Some((dep.pda, dep.bump))
  }

  function PayloadOf(dep: Deployment, m: P.Message): AdvancePayload {
    if Accepts([dep.plan(m)]) then Encoded([dep.plan(m)]) else AdvancePayload([], [])
  }

  function CommitmentTo(dep: Deployment): (P.Message, Digest) -> Commitment {
    (m: P.Message, root: Digest) =>
      Commitment(dep.id, root, m.newRoot, Addresses(PayloadOf(dep, m).accounts), PayloadOf(dep, m).data)
  }

  function WalletFor(dep: Deployment): P.Wallet {
    PositionRoots.WalletOf(dep.env.H, dep.mac, dep.master, dep.limit, CommitmentTo(dep))
  }

  function AdvanceSignature(dep: Deployment, m: P.Message): (sig: Scalars)
    requires m.position <= dep.limit
    ensures sig.Fits(SCALARS)
  {
    Sign(dep.env.H, Derive(dep.mac, dep.master, Position(0, 0, m.position), SCALARS),
         PositionRoots.SignedDigest(dep.env.H, dep.mac, dep.master, dep.limit, CommitmentTo(dep), m))
  }

  function InitSignature(dep: Deployment): (sig: Scalars)
    ensures sig.Fits(SCALARS)
  {
    Sign(dep.env.H, Derive(dep.mac, dep.master, Position(0, 0, 0), SCALARS),
         MessageDigest(dep.env.H, [Tag(ForInitialize)], SCALARS))
  }

  /** The instruction data a message travels as. */
  function WireData(dep: Deployment, m: P.Message): Bytes {
    if m.kind == P.Initialize then [0] + AsBytes(InitSignature(dep)) + m.newRoot
    else if m.position > dep.limit then []
    else [1] + AsBytes(AdvanceSignature(dep, m)) + m.newRoot + PayloadOf(dep, m).data
  }

  /** The account says what the protocol's chain says. */
  predicate Shows(dep: Deployment, st: Ledger, chain: P.Chain) {
    match chain
    case Live(root) => Stored(dep.env, st, dep.pda, dep.id, root, dep.bump)
    case _ => Get(dep.env, st, dep.pda).data == []
  }

  // ---- The plans of the command line ----

  predicate IsWithdraw(dep: Deployment, ix: Instruction) {
    ix.programId == dep.env.programId && |ix.accounts| == 2 && ix.accounts[0].pubkey == dep.pda
    && ix.data != [] && ix.data[0] == 2
  }

  predicate IsClose(dep: Deployment, ix: Instruction) {
    ix.programId == dep.env.programId && |ix.accounts| == 2 && ix.accounts[0].pubkey == dep.pda
    && ix.data != [] && ix.data[0] == 3
  }

  /** A spend withdraws or calls another program, such as the token program; a close closes. */
  predicate CommandLine(dep: Deployment, m: P.Message) {
    m.kind != P.Initialize ==>
      && Accepts([dep.plan(m)])
      && (m.kind == P.Spend ==> IsWithdraw(dep, dep.plan(m)) || dep.plan(m).programId != dep.env.programId)
      && (m.kind == P.Close ==> IsClose(dep, dep.plan(m)))
  }

  /** The transaction brings the accounts the client listed. */
  predicate Carries(dep: Deployment, m: P.Message, views: seq<View>) {
    m.kind != P.Initialize ==> ViewAddresses(views) == [dep.pda] + Addresses(PayloadOf(dep, m).accounts)
  }

  /** What the one inner call of such a plan may log. */
  predicate PlanLog(dep: Deployment, m: P.Message, log: seq<Event>) {
    && |log| == 1
    && (m.kind == P.Spend ==> log[0] == Withdrew(dep.pda) || log[0].Called?)
    && (m.kind == P.Close ==> log[0] == Closed(dep.pda))
  }

  lemma {:induction false} OneCallLogs(dep: Deployment, st: Ledger, m: P.Message, cpi: Cpi<View>,
                                       signer: Option<Address>)
    requires m.kind != P.Initialize && CommandLine(dep, m) && cpi.program.address == dep.plan(m).programId
    requires cpi.data == dep.plan(m).data && ViewAddresses(cpi.accounts) == Addresses(dep.plan(m).accounts)
    requires InvokeCpi(dep.env, st, cpi, dep.pda, signer).Ok?
    ensures PlanLog(dep, m, InvokeCpi(dep.env, st, cpi, dep.pda, signer).value.log)
  {
    var ix, views := dep.plan(m), Promote(cpi.accounts, dep.pda);
    if ix.programId == dep.env.programId {
      assert ViewAddresses(cpi.accounts)[0] == Addresses(ix.accounts)[0] == dep.pda;
      assert |cpi.accounts| == |ViewAddresses(cpi.accounts)| && views[0].address == dep.pda;
      assert Invoke(dep.env, st, dep.env.programId, views, ix.data) == Process(dep.env, st, views, ix.data);
    }
  }

  // ---- One delivery ----

  lemma {:induction false} OneReplayed(dep: Deployment, st: Ledger, m: P.Message, rest: seq<View>,
                                       signer: Option<Address>)
    requires Accepts([dep.plan(m)]) && |rest| == 1 + |dep.plan(m).accounts|
    ensures PayloadOf(dep, m).data != []
    ensures Replay(dep.env, st, PayloadOf(dep, m).data[0], PayloadOf(dep, m).data[1..], rest, 0, dep.pda, signer)
         == InvokeCpi(dep.env, st, Cpi(rest[0], rest[1..], dep.plan(m).data), dep.pda, signer)
  {
    var payload, cpi := PayloadOf(dep, m).data, Cpi(rest[0], rest[1..], dep.plan(m).data);
    DecodesToOne(dep.plan(m), rest);
    ReplayIsRun(dep.env, st, payload[0], payload[1..], rest, 0, dep.pda, signer);
    RunOne(dep.env, st, cpi, dep.pda, signer);
  }

  lemma {:induction false} AcceptedCommitment(dep: Deployment, st: Ledger, m: P.Message, root: Digest, rest: seq<View>)
    requires m.position <= dep.limit && Stored(dep.env, st, dep.pda, dep.id, root, dep.bump)
    requires ViewAddresses(rest) == Addresses(PayloadOf(dep, m).accounts)
    requires var data := Get(dep.env, st, dep.pda).data;
             Verify(dep.env.H, AdvanceSignature(dep, m),
                    Parts(CommitmentOf(data, m.newRoot, rest, PayloadOf(dep, m).data)), RootOf(data))
    ensures WalletFor(dep).accepts(m, root)
  {
    var data := Get(dep.env, st, dep.pda).data;
    WalletDataParts(data, dep.id, root, dep.bump);
    assert CommitmentOf(data, m.newRoot, rest, PayloadOf(dep, m).data) == CommitmentTo(dep)(m, root);
  }

  /** Views behind the first are addressed as the list says behind its first. */
  lemma {:induction false} ViewsBehind(views: seq<View>, first: Address, rest: seq<Address>)
    requires ViewAddresses(views) == [first] + rest
    ensures |views| == 1 + |rest| && views[0].address == first && ViewAddresses(views[1..]) == rest
  {
    var all := ViewAddresses(views);
    assert |all| == |views| && all[0] == first && all[1..] == rest;
    assert ViewAddresses(views[1..]) == all[1..];
  }

  lemma {:induction false} AddressesOfOne(ix: Instruction)
    ensures Addresses(PassOne(ix)) == [ix.programId] + Addresses(ix.accounts)
  {
    var program := [Meta(ix.programId, false, false)];
    AddressesAppend(program, ScrubAll(ix.accounts));
    assert Addresses(program) == [ix.programId];
    assert Addresses(ScrubAll(ix.accounts)) == Addresses(ix.accounts);
  }

  lemma {:induction false} CarriedRest(dep: Deployment, m: P.Message, views: seq<View>)
    requires m.kind != P.Initialize && CommandLine(dep, m) && Carries(dep, m, views)
    ensures |views| == 2 + |dep.plan(m).accounts| && views[0].address == dep.pda
    ensures ViewAddresses(views[1..]) == Addresses(PayloadOf(dep, m).accounts)
    ensures views[1].address == dep.plan(m).programId
    ensures ViewAddresses(views[2..]) == Addresses(dep.plan(m).accounts)
  {
    var ix := dep.plan(m);
    EncodedOne(ix);
    AddressesOfOne(ix);
    ViewsBehind(views, dep.pda, Addresses(PassOne(ix)));
    ViewsBehind(views[1..], ix.programId, Addresses(ix.accounts));
    assert views[1..][1..] == views[2..];
  }

  /** An Advance that the program executes was accepted, against the root the chain shows, and its one call ran
      on the ledger with the new root stored. */
  lemma {:induction false} ExecutedAdvance(dep: Deployment, st: Ledger, m: P.Message, root: Digest, views: seq<View>)
      returns (cpi: Cpi<View>, st1: Ledger, signer: Option<Address>)
    requires m.kind != P.Initialize && CommandLine(dep, m) && Carries(dep, m, views)
    requires Stored(dep.env, st, dep.pda, dep.id, root, dep.bump)
    requires Process(dep.env, st, views, WireData(dep, m)).Ok?
    ensures WalletFor(dep).accepts(m, root)
    ensures Stored(dep.env, st1, dep.pda, dep.id, m.newRoot, dep.bump)
    ensures cpi.program.address == dep.plan(m).programId && cpi.data == dep.plan(m).data
    ensures ViewAddresses(cpi.accounts) == Addresses(dep.plan(m).accounts)
    ensures InvokeCpi(dep.env, st1, cpi, dep.pda, signer).Ok?
    ensures Process(dep.env, st, views, WireData(dep, m)).value.ledger
         == InvokeCpi(dep.env, st1, cpi, dep.pda, signer).value.ledger
  {
    var ix, payload, sig := dep.plan(m), PayloadOf(dep, m), AdvanceSignature(dep, m);
    CarriedRest(dep, m, views);
    ParseAdvance(dep.env, st, views, sig, m.newRoot, payload.data);
    assert AdvanceRefusal(dep.env, st, views[0], views[1..], sig, m.newRoot, payload.data).None?;
    AcceptedCommitment(dep, st, m, root, views[1..]);
    StoredRoot(dep.env, st, dep.pda, dep.id, root, dep.bump, m.newRoot);
    st1, signer := StoreRoot(dep.env, st, dep.pda, m.newRoot), dep.env.signerPda(dep.id, dep.bump);
    cpi := Cpi(views[1], views[2..], ix.data);
    OneReplayed(dep, st1, m, views[1..], signer);
    assert views[1..][0] == views[1] && views[1..][1..] == views[2..];
    WalletDataParts(Get(dep.env, st, dep.pda).data, dep.id, root, dep.bump);
  }

  /** A call that neither closes nor advances the wallet leaves what is stored. */
  lemma {:induction false} QuietCall(env: Env, st: Ledger, cpi: Cpi<View>, pda: Address, signer: Option<Address>,
                                     id: Digest, root: Digest, bump: byte)
    requires Stored(env, st, pda, id, root, bump) && InvokeCpi(env, st, cpi, pda, signer).Ok?
    requires var log := InvokeCpi(env, st, cpi, pda, signer).value.log;
             Lawful(env, pda, log) && NeverClosed(pda, log) && !Advanced(pda, log)
    ensures Stored(env, InvokeCpi(env, st, cpi, pda, signer).value.ledger, pda, id, root, bump)
  {
    RunOne(env, st, cpi, pda, signer);
    RunEndsAt(env, st, [cpi], pda, signer, id, root, bump);
  }

  lemma {:induction false} LawfulCall(env: Env, st: Ledger, cpi: Cpi<View>, pda: Address, signer: Option<Address>)
    requires RuntimeLawful(env) && InvokeCpi(env, st, cpi, pda, signer).Ok?
    ensures Lawful(env, pda, InvokeCpi(env, st, cpi, pda, signer).value.log)
  {
    TreesAreLawful(env, st, cpi.program.address, Promote(cpi.accounts, pda), cpi.data, pda);
  }

  lemma {:induction false} SpendLogQuiet(dep: Deployment, m: P.Message, log: seq<Event>)
    requires PlanLog(dep, m, log) && m.kind == P.Spend
    ensures NeverClosed(dep.pda, log) && !Advanced(dep.pda, log)
  {
  }

  lemma {:induction false} SpendCallStores(dep: Deployment, st: Ledger, m: P.Message, cpi: Cpi<View>,
                                           signer: Option<Address>)
    requires RuntimeLawful(dep.env) && Stored(dep.env, st, dep.pda, dep.id, m.newRoot, dep.bump) && m.kind == P.Spend
    requires InvokeCpi(dep.env, st, cpi, dep.pda, signer).Ok?
    requires PlanLog(dep, m, InvokeCpi(dep.env, st, cpi, dep.pda, signer).value.log)
    ensures Stored(dep.env, InvokeCpi(dep.env, st, cpi, dep.pda, signer).value.ledger, dep.pda, dep.id, m.newRoot,
                   dep.bump)
  {
    LawfulCall(dep.env, st, cpi, dep.pda, signer);
    SpendLogQuiet(dep, m, InvokeCpi(dep.env, st, cpi, dep.pda, signer).value.log);
    QuietCall(dep.env, st, cpi, dep.pda, signer, dep.id, m.newRoot, dep.bump);
  }

  /** A spend that the program executes leaves the message's new root stored. */
  lemma {:induction false} SpendLands(dep: Deployment, st: Ledger, m: P.Message, root: Digest, views: seq<View>)
    requires Deployed(dep) && m.kind == P.Spend && CommandLine(dep, m) && Carries(dep, m, views)
    requires Stored(dep.env, st, dep.pda, dep.id, root, dep.bump)
    requires Process(dep.env, st, views, WireData(dep, m)).Ok?
    ensures WalletFor(dep).accepts(m, root)
    ensures Stored(dep.env, Process(dep.env, st, views, WireData(dep, m)).value.ledger, dep.pda, dep.id, m.newRoot,
                   dep.bump)
  {
    var cpi, st1, signer := ExecutedAdvance(dep, st, m, root, views);
    OneCallLogs(dep, st1, m, cpi, signer);
    SpendCallStores(dep, st1, m, cpi, signer);
  }

  lemma {:induction false} ClosingCall(env: Env, st: Ledger, cpi: Cpi<View>, pda: Address, signer: Option<Address>)
    requires InvokeCpi(env, st, cpi, pda, signer).Ok?
    requires InvokeCpi(env, st, cpi, pda, signer).value.log == [Closed(pda)]
    ensures Get(env, InvokeCpi(env, st, cpi, pda, signer).value.ledger, pda).data == []
  {
    CpiFollows(env, st, cpi, pda, signer, pda);
    FoldOne(env, CellOf(env, st, pda), pda, Closed(pda));
  }

  /** A close that the program executes leaves no data. */
  lemma {:induction false} CloseLands(dep: Deployment, st: Ledger, m: P.Message, root: Digest, views: seq<View>)
    requires m.kind == P.Close && CommandLine(dep, m) && Carries(dep, m, views)
    requires Stored(dep.env, st, dep.pda, dep.id, root, dep.bump)
    requires Process(dep.env, st, views, WireData(dep, m)).Ok?
    ensures WalletFor(dep).accepts(m, root)
    ensures Get(dep.env, Process(dep.env, st, views, WireData(dep, m)).value.ledger, dep.pda).data == []
  {
    var cpi, st1, signer := ExecutedAdvance(dep, st, m, root, views);
    OneCallLogs(dep, st1, m, cpi, signer);
    ClosingCall(dep.env, st1, cpi, dep.pda, signer);
  }

  lemma {:induction false} InitRecovers(dep: Deployment)
    requires dep.id == RootAt(dep.env.H, dep.mac, dep.master, Position(0, 0, 0), SCALARS)
    ensures RecoveredId(dep.env, InitSignature(dep)) == dep.id
  {
    RecoverOfSign(dep.env.H, Derive(dep.mac, dep.master, Position(0, 0, 0), SCALARS),
                  MessageDigest(dep.env.H, [Tag(ForInitialize)], SCALARS));
  }

  /** An Initialize that the program executes finds the address empty and leaves the message's root stored. */
  lemma {:induction false} InitializeLands(dep: Deployment, st: Ledger, m: P.Message, views: seq<View>)
    requires Deployed(dep) && m.kind == P.Initialize && Process(dep.env, st, views, WireData(dep, m)).Ok?
    ensures Get(dep.env, st, dep.pda).data == []
    ensures Stored(dep.env, Process(dep.env, st, views, WireData(dep, m)).value.ledger, dep.pda, dep.id, m.newRoot,
                   dep.bump)
  {
    InitRecovers(dep);
    ParseInitialize(dep.env, st, views, InitSignature(dep), m.newRoot);
    InitializeCreates(dep.env, st, views, InitSignature(dep), m.newRoot);
  }

  /** An executed spend or close found the wallet live and was accepted against its root. */
  lemma {:induction false} AdvanceLands(dep: Deployment, st: Ledger, s: P.State, m: P.Message, views: seq<View>)
    requires Deployed(dep) && m in s.sent && m.kind != P.Initialize && CommandLine(dep, m) && Carries(dep, m, views)
    requires Shows(dep, st, s.chain) && Process(dep.env, st, views, WireData(dep, m)).Ok?
    ensures s.chain.Live? && WalletFor(dep).accepts(m, s.chain.root)
    ensures Shows(dep, Process(dep.env, st, views, WireData(dep, m)).value.ledger,
                  if m.kind == P.Close then P.Gone else P.Chain.Live(m.newRoot))
  {
    CarriedRest(dep, m, views);
    if !s.chain.Live? {
      DeadWalletRefuses(dep.env, st, views, WireData(dep, m));
    } else if m.kind == P.Spend {
      SpendLands(dep, st, m, s.chain.root, views);
    } else {
      CloseLands(dep, st, m, s.chain.root, views);
    }
  }

  /** One delivery: the protocol's step and the program agree. A refused or failed instruction leaves the chain alone;
      an executed one was accepted, and leaves on the ledger what the step says. */
  lemma {:induction false} DeliveryAgrees(dep: Deployment, st: Ledger, s: P.State, m: P.Message, views: seq<View>)
    requires Deployed(dep) && m in s.sent && CommandLine(dep, m) && Carries(dep, m, views) && Shows(dep, st, s.chain)
    requires m.kind == P.Initialize ==> s.chain != P.Gone
    ensures var o := Process(dep.env, st, views, WireData(dep, m));
            var s' := P.DeliverStep(WalletFor(dep), s, m, o.Ok?);
            && Shows(dep, if o.Ok? then o.value.ledger else st, s'.chain)
            && (o.Ok? ==> s'.executed == s.executed + [m])
  {
    var o := Process(dep.env, st, views, WireData(dep, m));
    if o.Ok? && m.kind == P.Initialize {
      InitializeLands(dep, st, m, views);
    } else if o.Ok? {
      AdvanceLands(dep, st, s, m, views);
    }
  }

  // ---- Other people's instructions ----

  /** What other people's instructions may do: no Advance of the wallet runs, nothing that this program owns is
      taken, and no address without data is given any. */
  predicate Foreign(dep: Deployment, log: seq<Event>) {
    !Advanced(dep.pda, log) && Spared(dep.env, dep.pda, log) && forall e :: e in log ==> !Revives(dep.env, e, dep.pda)
  }

  /** Instructions of others: the wallet signs for none, and if they run they leave it alone. */
  predicate Quiet(dep: Deployment, st: Ledger, calls: seq<TopCall>) {
    && NeverSigns(calls, dep.pda)
    && (InvokeAll(dep.env, st, calls).Ok? ==> Foreign(dep, InvokeAll(dep.env, st, calls).value.log))
  }

  /** While the wallet is live a call of another program leaves it alone exactly when it takes nothing from it:
      a call that never mentions it does, and so does a deposit. */
  lemma {:induction false} LiveCallQuietIff(dep: Deployment, st: Ledger, root: Digest, c: TopCall)
    requires Shows(dep, st, P.Chain.Live(root)) && c.program != dep.env.programId && Unsigned(c.views, dep.pda)
    requires dep.env.foreign(st, c.program, c.views, c.data).Ok?
    ensures var st' := dep.env.foreign(st, c.program, c.views, c.data).value;
            Quiet(dep, st, [c]) <==> Gained(Get(dep.env, st, dep.pda), Get(dep.env, st', dep.pda))
  {
    InvokeAllOne(dep.env, st, c);
    var log := InvokeAll(dep.env, st, [c]).value.log;
    assert log == [Called(st, c.program, c.views, c.data, dep.env.foreign(st, c.program, c.views, c.data).value)];
    assert log[0] in log;
  }

  /** Before Initialize and after Close, exactly when it gives the empty system account there no data. */
  lemma {:induction false} EmptyCallQuietIff(dep: Deployment, st: Ledger, c: TopCall)
    requires Get(dep.env, st, dep.pda).data == [] && Get(dep.env, st, dep.pda).owner != dep.env.programId
    requires c.program != dep.env.programId && Unsigned(c.views, dep.pda)
    requires dep.env.foreign(st, c.program, c.views, c.data).Ok?
    ensures var st' := dep.env.foreign(st, c.program, c.views, c.data).value;
            Quiet(dep, st, [c]) <==> Get(dep.env, st', dep.pda).data == []
  {
    InvokeAllOne(dep.env, st, c);
    var log := InvokeAll(dep.env, st, [c]).value.log;
    assert log == [Called(st, c.program, c.views, c.data, dep.env.foreign(st, c.program, c.views, c.data).value)];
    assert log[0] in log;
  }

  lemma {:induction false} StaysEmpty(env: Env, c: Cell, w: Address, log: seq<Event>)
    requires c.data == [] && Fold(env, c, w, log).Some? && forall e :: e in log ==> !Revives(env, e, w)
    ensures Fold(env, c, w, log).value.data == []
    decreases |log|
  {
    if log != [] {
      assert log[0] in log && forall e :: e in log[1..] ==> e in log;
      StaysEmpty(env, Step(env, c, w, log[0]).value, w, log[1..]);
    }
  }

  /** Other people's instructions leave what the account shows. */
  lemma {:induction false} ElsewhereAgrees(dep: Deployment, st: Ledger, chain: P.Chain, calls: seq<TopCall>)
    requires Deployed(dep) && Shows(dep, st, chain) && Quiet(dep, st, calls) && InvokeAll(dep.env, st, calls).Ok?
    ensures Shows(dep, InvokeAll(dep.env, st, calls).value.ledger, chain)
  {
    if chain.Live? {
      NoAdvanceNoLoss(dep.env, st, calls, dep.pda);
    } else {
      InvokeAllFollows(dep.env, st, calls, dep.pda);
      StaysEmpty(dep.env, CellOf(dep.env, st, dep.pda), dep.pda, InvokeAll(dep.env, st, calls).value.log);
    }
  }

  // ---- Whole schedules ----

  /** A step of the wallet's processes, a transaction that carries one of its messages between instructions of
      others, or a transaction of others alone. */
  datatype Turn =
    | Act(action: P.Action)
    | Submit(before: seq<TopCall>, m: P.Message, views: seq<View>, after: seq<TopCall>)
    | Elsewhere(calls: seq<TopCall>)

  datatype World = World(s: P.State, st: Ledger)

  /** The instructions a turn puts on the ledger. */
  function Transaction(dep: Deployment, t: Turn): seq<TopCall> {
    match t
    case Act(_) => []
    case Submit(before, m, views, after) =>
      before + ([TopCall(dep.env.programId, views, WireData(dep, m))] + after)
    case Elsewhere(calls) => calls
  }

  /** The protocol's side of a turn: a message is delivered with the transaction that carries it, or not at all. */
  function Actions(dep: Deployment, x: World, t: Turn): seq<P.Action> {
    match t
    case Act(a) => [a]
    case Submit(_, m, _, _) => [P.Deliver(m, InvokeAll(dep.env, x.st, Transaction(dep, t)).Ok?)]
    case Elsewhere(_) => []
  }

  function Next(dep: Deployment, x: World, t: Turn): World {
    World(P.Run(WalletFor(dep), x.s, Actions(dep, x, t)), Commit(dep.env, x.st, Transaction(dep, t)).ledger)
  }

  function Schedule(dep: Deployment, x: World, turns: seq<Turn>): World
    decreases |turns|
  {
    if turns == [] then x else Schedule(dep, Next(dep, x, turns[0]), turns[1..])
  }

  /** The instructions around a message leave the wallet alone. */
  predicate QuietAround(dep: Deployment, st: Ledger, before: seq<TopCall>, m: P.Message, views: seq<View>,
                        after: seq<TopCall>)
  {
    && Quiet(dep, st, before)
    && (InvokeAll(dep.env, st, before).Ok? ==>
          var o := Process(dep.env, InvokeAll(dep.env, st, before).value.ledger, views, WireData(dep, m));
          o.Ok? ==> Quiet(dep, o.value.ledger, after))
  }

  /** The wallet's processes do not recover, what is delivered was sent, and others leave the wallet alone. */
  predicate Ordinary(dep: Deployment, x: World, t: Turn) {
    match t
    case Act(a) => !a.Deliver? && !a.Recover?
    case Submit(before, m, views, after) =>
      && m in x.s.sent && CommandLine(dep, m) && Carries(dep, m, views)
      && (m.kind == P.Initialize ==> x.s.chain != P.Gone)
      && QuietAround(dep, x.st, before, m, views, after)
    case Elsewhere(calls) => Quiet(dep, x.st, calls)
  }

  predicate AllOrdinary(dep: Deployment, x: World, turns: seq<Turn>)
    decreases |turns|
  {
    turns == [] || (Ordinary(dep, x, turns[0]) && AllOrdinary(dep, Next(dep, x, turns[0]), turns[1..]))
  }

  lemma {:induction false} ProcessesLeaveChain(w: P.Wallet, s: P.State, a: P.Action)
    requires !a.Deliver?
    ensures P.Apply(w, s, a).chain == s.chain
  {
  }

  lemma {:induction false} RunOneAction(w: P.Wallet, s: P.State, a: P.Action)
    ensures P.Run(w, s, [a]) == P.Apply(w, s, a)
  {
    assert [a][1..] == [];
  }

  lemma {:induction false} ActAgrees(dep: Deployment, x: World, a: P.Action)
    requires Shows(dep, x.st, x.s.chain) && !a.Deliver?
    ensures Shows(dep, Next(dep, x, Act(a)).st, Next(dep, x, Act(a)).s.chain)
  {
    RunOneAction(WalletFor(dep), x.s, a);
    ProcessesLeaveChain(WalletFor(dep), x.s, a);
  }

  /** The message's own instruction inside a transaction that ran through. */
  lemma {:induction false} CarriedCall(dep: Deployment, st: Ledger, before: seq<TopCall>, m: P.Message,
                                       views: seq<View>, after: seq<TopCall>) returns (d1: Done, d2: Done, d3: Done)
    requires InvokeAll(dep.env, st, Transaction(dep, Submit(before, m, views, after))).Ok?
    ensures InvokeAll(dep.env, st, before) == Ok(d1)
    ensures Process(dep.env, d1.ledger, views, WireData(dep, m)) == Ok(d2)
    ensures InvokeAll(dep.env, d2.ledger, after) == Ok(d3)
    ensures InvokeAll(dep.env, st, Transaction(dep, Submit(before, m, views, after))).value.ledger == d3.ledger
  {
    var c := TopCall(dep.env.programId, views, WireData(dep, m));
    var rest, last;
    d1, rest := InvokeAllParts(dep.env, st, before, [c] + after);
    d2, last := InvokeAllParts(dep.env, d1.ledger, [c], after);
    d3 := last;
    InvokeAllOne(dep.env, d1.ledger, c);
    assert Invoke(dep.env, d1.ledger, dep.env.programId, views, c.data) == Process(dep.env, d1.ledger, views, c.data);
  }

  /** A transaction that carries a message runs through and delivers it, or is rolled back and does not. */
  lemma {:induction false} CarriedAgrees(dep: Deployment, x: World, before: seq<TopCall>, m: P.Message,
                                         views: seq<View>, after: seq<TopCall>)
    requires Deployed(dep) && Shows(dep, x.st, x.s.chain) && Ordinary(dep, x, Submit(before, m, views, after))
    ensures var o := InvokeAll(dep.env, x.st, Transaction(dep, Submit(before, m, views, after)));
            var s' := P.DeliverStep(WalletFor(dep), x.s, m, o.Ok?);
            && Shows(dep, if o.Ok? then o.value.ledger else x.st, s'.chain)
            && (o.Ok? ==> s'.executed == x.s.executed + [m])
  {
    if InvokeAll(dep.env, x.st, Transaction(dep, Submit(before, m, views, after))).Ok? {
      var d1, d2, d3 := CarriedCall(dep, x.st, before, m, views, after);
      ElsewhereAgrees(dep, x.st, x.s.chain, before);
      DeliveryAgrees(dep, d1.ledger, x.s, m, views);
      ElsewhereAgrees(dep, d2.ledger, P.DeliverStep(WalletFor(dep), x.s, m, true).chain, after);
    }
  }

  lemma {:induction false} SubmitAgrees(dep: Deployment, x: World, t: Turn)
    requires Deployed(dep) && Shows(dep, x.st, x.s.chain) && t.Submit? && Ordinary(dep, x, t)
    ensures Shows(dep, Next(dep, x, t).st, Next(dep, x, t).s.chain)
  {
    RunOneAction(WalletFor(dep), x.s, P.Deliver(t.m, InvokeAll(dep.env, x.st, Transaction(dep, t)).Ok?));
    CarriedAgrees(dep, x, t.before, t.m, t.views, t.after);
  }

  lemma {:induction false} TurnAgrees(dep: Deployment, x: World, t: Turn)
    requires Deployed(dep) && Shows(dep, x.st, x.s.chain) && Ordinary(dep, x, t)
    ensures Shows(dep, Next(dep, x, t).st, Next(dep, x, t).s.chain)
  {
    match t
    case Act(a) => ActAgrees(dep, x, a);
    case Submit(_, _, _, _) => SubmitAgrees(dep, x, t);
    case Elsewhere(calls) =>
      if InvokeAll(dep.env, x.st, calls).Ok? {
        ElsewhereAgrees(dep, x.st, x.s.chain, calls);
      }
  }

  /** Over every schedule the ledger's account and the protocol's chain say the same, and the protocol's side of the
      schedule is a recover-free run. */
  lemma {:induction false} LedgerIsChain(dep: Deployment, x: World, turns: seq<Turn>) returns (actions: seq<P.Action>)
    requires Deployed(dep) && Shows(dep, x.st, x.s.chain) && AllOrdinary(dep, x, turns)
    ensures var y := Schedule(dep, x, turns);
            && Shows(dep, y.st, y.s.chain)
            && P.RecoverFree(actions) && y.s == P.Run(WalletFor(dep), x.s, actions)
    decreases |turns|
  {
    actions := [];
    if turns != [] {
      TurnAgrees(dep, x, turns[0]);
      var rest := LedgerIsChain(dep, Next(dep, x, turns[0]), turns[1..]);
      P.RunAppend(WalletFor(dep), x.s, Actions(dep, x, turns[0]), rest);
      actions := Actions(dep, x, turns[0]) + rest;
    }
  }

  /** The wallet's promise on the ledger itself: after every schedule the root stored on chain is the root of the
      local position or of its immediate predecessor, for a derived wallet below the hardening bit, or something
      the schedule computed stands in the way. */
  lemma {:induction false} LedgerInLockstep(dep: Deployment, st: Ledger,
                                            turns: seq<Turn>) returns (x: PositionRoots.Obstacle)
    requires Deployed(dep) && 1 <= dep.limit < HARDENED && Get(dep.env, st, dep.pda).data == []
    requires AllOrdinary(dep, World(P.START, st), turns)
    ensures var y := Schedule(dep, World(P.START, st), turns);
            var n := |y.s.executed|;
            || PositionRoots.Stands(dep.env.H, dep.mac, dep.master, dep.limit, CommitmentTo(dep), y.s.sent, x)
            || (y.s.chain.Live? ==>
                  && Stored(dep.env, y.st, dep.pda, dep.id, WalletFor(dep).rootAt(n), dep.bump)
                  && y.s.file.Some? && (y.s.file.value == n || y.s.file.value == n + 1))
  {
    var actions := LedgerIsChain(dep, World(P.START, st), turns);
    x := PositionRoots.DerivedWalletLockstep(dep.env.H, dep.mac, dep.master, dep.limit, CommitmentTo(dep), actions);
  }
}
