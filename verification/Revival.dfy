/** A closed address given data again inside the same transaction: why the history after a Close has a condition. */
module Revival {
  import opened Base
  import opened Keypair
  import opened Encoding
  import opened Wire
  import opened Decode
  import opened Program
  import opened NestedRuns
  import opened Wallet
  import opened EndToEnd
  import opened Plans

  /** The system program creating a zeroed wallet-sized account, owned by this program, at the second account
      and paid for by the first. */
  function SystemCreate(programId: Address, systemId: Address, rent: u64, st: Ledger, program: Address,
                        views: seq<View>): Result<Ledger, ProgramError>
  {
    if program != systemId || |views| != 2 then Err(InvalidArgument)
    else
      var (from, to) := (views[0], views[1]);
      if from.address == to.address || from.address !in st || to.address !in st then Err(InvalidArgument)
      else if !from.isSigner || !from.isWritable || !to.isSigner || !to.isWritable then Err(MissingRequiredSignature)
      else if st[from.address].owner != systemId || st[from.address].lamports < rent then Err(InsufficientFunds)
      else if st[to.address].owner != systemId || st[to.address].data != [] || st[to.address].lamports != 0 then
        Err(InvalidArgument)
      else
        var paid := st[from.address].(lamports := st[from.address].lamports - rent);
        Ok(st[from.address := paid][to.address := Account(rent, Zeros(WALLET_LEN), programId, false)])
  }

  /** The environment whose only other program is that one. */
  function WithSystem(env: Env): Env {
    env.(foreign := (st: Ledger, program: Address, views: seq<View>, data: Bytes) =>
      SystemCreate(env.programId, env.systemId, env.rent, st, program, views))
  }

  lemma {:induction false} CreateRespects(e: Env, st: Ledger, program: Address, views: seq<View>, w: Address)
    requires e.systemId != e.programId
    requires SystemCreate(e.programId, e.systemId, e.rent, st, program, views).Ok?
    ensures var st' := SystemCreate(e.programId, e.systemId, e.rent, st, program, views).value;
            Respects(e, CellOf(e, st, w), CellOf(e, st', w))
  {
  }

  /** It keeps to the runtime's rule. */
  lemma {:induction false} SystemIsLawful(env: Env)
    requires env.systemId != env.programId
    ensures RuntimeLawful(WithSystem(env))
  {
    var e := WithSystem(env);
    forall st, program, views, data, w: Address | e.foreign(st, program, views, data).Ok?
      ensures Respects(e, CellOf(e, st, w), CellOf(e, e.foreign(st, program, views, data).value, w))
    {
      CreateRespects(e, st, program, views, w);
    }
  }

  /** The stage: a live wallet, a receiver and a payer, four different accounts with the programs. */
  predicate Stage(env: Env, st: Ledger, w: Address, receiver: Address, payer: Address) {
    && env.systemId != env.programId && {w, receiver, payer} !! {env.programId, env.systemId}
    && w != receiver && w != payer && receiver != payer
    && {w, receiver, payer, env.programId, env.systemId} <= st.Keys
    && st[env.programId].executable && st[env.systemId].executable
    && st[receiver].lamports as int + st[w].lamports as int + env.rent as int <= U64_MAX as int
  }

  /** `close` of the wallet towards the receiver. */
  function CloseCpi(env: Env, w: Address, receiver: Address): Cpi<View> {
    Cpi(View(env.programId, false, false), [View(w, false, true), View(receiver, false, true)], [3])
  }

  function CreateCpi(env: Env, w: Address, payer: Address): Cpi<View> {
    Cpi(View(env.systemId, false, false), [View(payer, true, true), View(w, false, true)], [0])
  }

  lemma {:induction false} CloseOutcome(env: Env, st: Ledger, w: Address, receiver: Address)
    requires w != receiver && w in st && receiver in st && st[w].owner == env.programId && st[w].data != []
    requires st[receiver].lamports as int + st[w].lamports as int <= U64_MAX as int
    ensures var credited := st[receiver].(lamports := st[receiver].lamports + st[w].lamports);
            Process(env, st, [View(w, true, true), View(receiver, false, true)], [3])
            == Ok(Done(st[receiver := credited][w := Account(0, [], env.systemId, st[w].executable)], [Closed(w)]))
  {
    InnerClose(env, st, [View(w, true, true), View(receiver, false, true)]);
  }

  /** One inner Close of an account of this program. */
  lemma {:induction false} CloseRuns(env: Env, st: Ledger, w: Address, receiver: Address)
    requires env.programId in st && st[env.programId].executable && w != receiver && w in st && receiver in st
    requires st[w].owner == env.programId && st[w].data != []
    requires st[receiver].lamports as int + st[w].lamports as int <= U64_MAX as int
    ensures var credited := st[receiver].(lamports := st[receiver].lamports + st[w].lamports);
            InvokeCpi(env, st, CloseCpi(env, w, receiver), w, Some(w))
            == Ok(Done(st[receiver := credited][w := Account(0, [], env.systemId, st[w].executable)], [Closed(w)]))
  {
    var views := Promote(CloseCpi(env, w, receiver).accounts, w);
    assert views == [View(w, true, true), View(receiver, false, true)];
    CloseOutcome(env, st, w, receiver);
    assert SignersGranted(CloseCpi(env, w, receiver).accounts, w, Some(w));
    assert Invoke(env, st, env.programId, views, [3]) == Process(env, st, views, [3]);
  }

  lemma {:induction false} CreateRuns(env: Env, st: Ledger, w: Address, payer: Address)
    requires env.systemId in st && st[env.systemId].executable && env.systemId != env.programId
    requires w != payer && w in st && payer in st && st[payer].owner == env.systemId && st[payer].lamports >= env.rent
    requires st[w].owner == env.systemId && st[w].data == [] && st[w].lamports == 0
    ensures var e := WithSystem(env);
            var o := InvokeCpi(e, st, CreateCpi(env, w, payer), w, Some(w));
            && o.Ok? && o.value.ledger.Keys == st.Keys
            && o.value.ledger[w] == Account(env.rent, Zeros(WALLET_LEN), env.programId, false)
            && (forall a :: a in st && a != w && a != payer ==> o.value.ledger[a] == st[a])
            && |o.value.log| == 1 && o.value.log[0].Called?
  {
    var e := WithSystem(env);
    var views := Promote(CreateCpi(env, w, payer).accounts, w);
    assert Invoke(e, st, env.systemId, views, [0]).Ok?;
  }

  lemma {:induction false} RunThree(env: Env, st: Ledger, a: Cpi<View>, b: Cpi<View>, c: Cpi<View>, w: Address,
                                    pda: Option<Address>)
    requires InvokeCpi(env, st, a, w, pda).Ok?
    requires InvokeCpi(env, InvokeCpi(env, st, a, w, pda).value.ledger, b, w, pda).Ok?
    requires var st2 := InvokeCpi(env, InvokeCpi(env, st, a, w, pda).value.ledger, b, w, pda).value.ledger;
             InvokeCpi(env, st2, c, w, pda).Ok?
    ensures var d1 := InvokeCpi(env, st, a, w, pda).value;
            var d2 := InvokeCpi(env, d1.ledger, b, w, pda).value;
            var d3 := InvokeCpi(env, d2.ledger, c, w, pda).value;
            RunCpis(env, st, [a, b, c], w, pda) == Ok(Done(d3.ledger, d1.log + (d2.log + d3.log)))
  {
    var d1 := InvokeCpi(env, st, a, w, pda).value;
    var d2 := InvokeCpi(env, d1.ledger, b, w, pda).value;
    RunOne(env, d2.ledger, c, w, pda);
    assert [a, b, c][1..] == [b, c] && [b, c][1..] == [c];
    assert RunCpis(env, d1.ledger, [b, c], w, pda).Ok?;
  }

  lemma {:induction false} CallLeft(env: Env, st: Ledger, cpi: Cpi<View>, w: Address)
    requires cpi.program.address != env.programId && InvokeCpi(env, st, cpi, w, Some(w)).Ok?
    ensures var o := InvokeCpi(env, st, cpi, w, Some(w)).value;
            |o.log| == 1 && o.log[0].Called? && o.log[0].before == st && o.log[0].left == o.ledger
  {
  }

  /** A Close, a re-allocation of the address and a second Close succeed in one transaction: without its
      condition the statement that nothing happens after a Close is false. */
  lemma {:induction false} CloseTwice(env: Env, st: Ledger, w: Address, receiver: Address,
                                      payer: Address) returns (d: Done)
    requires Stage(env, st, w, receiver, payer) && st[w].owner == env.programId && st[w].data != []
    requires st[payer].owner == env.systemId && st[payer].lamports >= env.rent
    ensures var (close, create) := (CloseCpi(env, w, receiver), CreateCpi(env, w, payer));
            RunCpis(WithSystem(env), st, [close, create, close], w, Some(w)) == Ok(d)
    ensures |d.log| == 3 && d.log[0] == d.log[2] == Closed(w) && Revives(WithSystem(env), d.log[1], w)
  {
    var e := WithSystem(env);
    var close, create := CloseCpi(env, w, receiver), CreateCpi(env, w, payer);
    CloseRuns(e, st, w, receiver);
    var st1 := InvokeCpi(e, st, close, w, Some(w)).value.ledger;
    CreateRuns(env, st1, w, payer);
    var second := InvokeCpi(e, st1, create, w, Some(w)).value;
    CloseRuns(e, second.ledger, w, receiver);
    var third := InvokeCpi(e, second.ledger, close, w, Some(w)).value;
    d := Done(third.ledger, [Closed(w)] + (second.log + [Closed(w)]));
    RunThree(e, st, close, create, close, w, Some(w));
    CallLeft(e, st1, create, w);
  }

  // ---- The signed transaction that makes these calls ----

  /** The system program's instruction as the client writes it. */
  function CreateInstruction(systemId: Address, payer: Address, w: Address): Instruction {
    Instruction(systemId, [Meta(payer, true, true), Meta(w, false, true)], [0])
  }

  function ReviveList(env: Env, w: Address, receiver: Address, payer: Address): seq<Instruction> {
    var close := CloseInstruction(env.programId, w, receiver);
    [close, CreateInstruction(env.systemId, payer, w), close]
  }

  /** The accounts of one call, program first. */
  function CallViews(c: Cpi<View>): seq<View> { [c.program] + c.accounts }

  /** The transaction's accounts behind the wallet. */
  function ReviveViews(env: Env, w: Address, receiver: Address, payer: Address): (views: seq<View>) {
    var close := CallViews(CloseCpi(env, w, receiver));
    close + (CallViews(CreateCpi(env, w, payer)) + close)
  }

  lemma {:induction false} PassThree(a: Instruction, b: Instruction, c: Instruction)
    ensures PassAll([a, b, c]) == PassOne(a) + (PassOne(b) + PassOne(c))
  {
    assert [a, b, c][1..] == [b, c] && [b, c][1..] == [c] && [c][1..] == [];
    assert PassAll([c]) == PassOne(c) + [] == PassOne(c);
    assert PassAll([b, c]) == PassOne(b) + PassOne(c);
  }

  lemma {:induction false} PlacedThree(a: Instruction, b: Instruction, c: Instruction, x: Cpi<View>, y: Cpi<View>,
                                       z: Cpi<View>)
    requires |a.accounts| == |x.accounts| == 2 && |b.accounts| == |y.accounts| == 2 && |c.accounts| == |z.accounts| == 2
    requires a.data == x.data && b.data == y.data && c.data == z.data
    ensures var rest := CallViews(x) + (CallViews(y) + CallViews(z));
            |PassAll([a, b, c])| == |rest| == 9 && Placed([a, b, c], rest, 0) == [x, y, z]
  {
    PassThree(a, b, c);
    var rest := CallViews(x) + (CallViews(y) + CallViews(z));
    assert [a, b, c][1..] == [b, c] && [b, c][1..] == [c] && [c][1..] == [];
    assert rest[1..3] == x.accounts && rest[4..6] == y.accounts && rest[7..9] == z.accounts;
    assert Placed([c], rest, 6) == [z];
    assert Placed([b, c], rest, 3) == [y, z];
  }

  lemma {:induction false} ReviveDecodes(env: Env, w: Address, receiver: Address, payer: Address)
    ensures Accepts(ReviveList(env, w, receiver, payer))
    ensures DecodePayload(Encoded(ReviveList(env, w, receiver, payer)).data, ReviveViews(env, w, receiver, payer))
         == Ok([CloseCpi(env, w, receiver), CreateCpi(env, w, payer), CloseCpi(env, w, receiver)])
  {
    var ixs, rest := ReviveList(env, w, receiver, payer), ReviveViews(env, w, receiver, payer);
    var close, create := CloseCpi(env, w, receiver), CreateCpi(env, w, payer);
    PlacedThree(ixs[0], ixs[1], ixs[2], close, create, close);
    DecodeOfEncoded(ixs, EncodeAll(ixs), rest, 0, [close, create, close]);
    assert ([3] + EncodeAll(ixs))[1..] == EncodeAll(ixs);
  }

  lemma {:induction false} PresentsAppend(a: seq<View>, b: seq<View>, x: seq<Meta>, y: seq<Meta>)
    requires Presents(a, x) && Presents(b, y)
    ensures Presents(a + b, x + y)
  {
  }

  /** A call on two accounts is presented by the views it is made with, if they have the flags it lists. */
  lemma {:induction false} PairCallPresented(ix: Instruction, c: Cpi<View>)
    requires c.program.address == ix.programId && |ix.accounts| == |c.accounts| == 2
    requires Shows(c.accounts[0], Scrub(ix.accounts[0])) && Shows(c.accounts[1], Scrub(ix.accounts[1]))
    ensures Presents(CallViews(c), PassOne(ix))
  {
    assert PassOne(ix) == [Meta(ix.programId, false, false), Scrub(ix.accounts[0]), Scrub(ix.accounts[1])];
  }

  lemma {:induction false} RevivePresented(env: Env, w: Address, receiver: Address, payer: Address, newRoot: Digest)
    requires Accepts(ReviveList(env, w, receiver, payer))
    ensures var plan := AdvancePlan(w, newRoot, Encoded(ReviveList(env, w, receiver, payer)));
            Presents([View(w, false, true)] + ReviveViews(env, w, receiver, payer),
                     plan.ToInstruction(env.programId, []).accounts)
  {
    var ixs := ReviveList(env, w, receiver, payer);
    var close, create := CallViews(CloseCpi(env, w, receiver)), CallViews(CreateCpi(env, w, payer));
    PassThree(ixs[0], ixs[1], ixs[2]);
    PairCallPresented(ixs[0], CloseCpi(env, w, receiver));
    PairCallPresented(ixs[1], CreateCpi(env, w, payer));
    PresentsAppend(create, close, PassOne(ixs[1]), PassOne(ixs[0]));
    PresentsAppend(close, create + close, PassOne(ixs[0]), PassOne(ixs[1]) + PassOne(ixs[0]));
    PresentsAppend([View(w, false, true)], close + (create + close), [Meta(w, false, true)], PassAll(ixs));
  }

  /** One signature for one transaction: its Advance verifies, closes the wallet, has the address re-allocated, and
      closes it again. */
  lemma {:induction false} SignedCloseTwice(env: Env, st: Ledger, mac: Mac, master: Node, p: Position, id: Digest,
                                            bump: byte, w: Address, receiver: Address, payer: Address,
                                            newRoot: Digest) returns (d: Done)
    requires Stage(env, st, w, receiver, payer) && env.signerPda(id, bump) == Some(w)
    requires Stored(env, st, w, id, RootAt(env.H, mac, master, p, SCALARS), bump)
    requires st[payer].owner == env.systemId && st[payer].lamports >= env.rent
    ensures Accepts(ReviveList(env, w, receiver, payer))
    ensures var e := WithSystem(env);
            var plan := AdvancePlan(w, newRoot, Encoded(ReviveList(env, w, receiver, payer)));
            var u := UnsignedAdvance(id, RootAt(env.H, mac, master, p, SCALARS), p, plan);
            var data := plan.ToInstruction(env.programId, AsBytes(SignatureOf(env.H, mac, master, u))).data;
            Process(e, st, [View(w, false, true)] + ReviveViews(env, w, receiver, payer), data) == Ok(d)
    ensures |d.log| == 4 && d.log[0].Rotated? && d.log[1] == d.log[3] == Closed(w)
    ensures Revives(WithSystem(env), d.log[2], w)
  {
    var e, ixs := WithSystem(env), ReviveList(env, w, receiver, payer);
    var views := [View(w, false, true)] + ReviveViews(env, w, receiver, payer);
    ReviveDecodes(env, w, receiver, payer);
    RevivePresented(env, w, receiver, payer, newRoot);
    assert views[1..] == ReviveViews(env, w, receiver, payer);
    var cpis := SignedAdvanceReplays(e, st, mac, master, p, id, bump, w, newRoot, ixs, views);
    StoredRoot(env, st, w, id, RootAt(env.H, mac, master, p, SCALARS), bump, newRoot);
    var run := CloseTwice(env, StoreRoot(env, st, w, newRoot), w, receiver, payer);
    d := Process(e, st, views, AdvancePlan(w, newRoot, Encoded(ixs)).ToInstruction(env.programId,
           AsBytes(SignatureOf(env.H, mac, master, UnsignedAdvance(id, RootAt(env.H, mac, master, p, SCALARS), p,
                                                                  AdvancePlan(w, newRoot, Encoded(ixs)))))).data).value;
    assert d.log[1..] == run.log;
  }
}
