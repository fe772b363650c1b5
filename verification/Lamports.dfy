/** Lamport accounting: conservation and rent exemption over every run, aliased accounts included. */
module Lamports {
  import opened Base
  import opened Winternitz
  import opened Decode
  import opened Program

  // ---- The total supply ----

  ghost function SumOver(st: Ledger, keys: set<Address>): nat
    requires keys <= st.Keys
    decreases |keys|
  {
    if keys == {} then 0
    else
      var k :| k in keys;
      st[k].lamports + SumOver(st, keys - {k})
  }

  ghost function Total(st: Ledger): nat { SumOver(st, st.Keys) }

  lemma {:induction false} SumWithout(st: Ledger, keys: set<Address>, a: Address)
    requires keys <= st.Keys && a in keys
    ensures SumOver(st, keys) == st[a].lamports + SumOver(st, keys - {a})
    decreases |keys|
  {
    var k :| k in keys && SumOver(st, keys) == st[k].lamports + SumOver(st, keys - {k});
    if k != a {
      SumWithout(st, keys - {k}, a);
      SumWithout(st, keys - {a}, k);
      assert keys - {k} - {a} == keys - {a} - {k};
    }
  }

  lemma {:induction false} SumFrame(st: Ledger, st': Ledger, keys: set<Address>)
    requires keys <= st.Keys && keys <= st'.Keys
    requires forall k :: k in keys ==> st[k].lamports == st'[k].lamports
    ensures SumOver(st, keys) == SumOver(st', keys)
    decreases |keys|
  {
    if keys != {} {
      var k :| k in keys;
      SumWithout(st, keys, k);
      SumWithout(st', keys, k);
      SumFrame(st, st', keys - {k});
    }
  }

  /** Writing one account moves the total by that account's difference. */
  lemma {:induction false} TotalUpdate(env: Env, st: Ledger, a: Address, acct: Account)
    ensures Get(env, st, a).lamports <= Total(st)
    ensures Total(st[a := acct]) == Total(st) - Get(env, st, a).lamports + acct.lamports
  {
    var st' := st[a := acct];
    SumWithout(st', st'.Keys, a);
    assert st'.Keys - {a} == st.Keys - {a};
    SumFrame(st, st', st.Keys - {a});
    if a in st {
      SumWithout(st, st.Keys, a);
    } else {
      assert st.Keys - {a} == st.Keys;
    }
  }

  lemma {:induction false} TotalSetLamports(env: Env, st: Ledger, a: Address, lamports: u64)
    ensures Get(env, st, a).lamports <= Total(st)
    ensures Total(SetLamports(env, st, a, lamports)) == Total(st) - Get(env, st, a).lamports + lamports
  {
    TotalUpdate(env, st, a, Get(env, st, a).(lamports := lamports));
  }

  // ---- Rent exemption ----

  predicate IsWallet(env: Env, st: Ledger, a: Address) {
    Get(env, st, a).owner == env.programId && |Get(env, st, a).data| == WALLET_LEN
  }

  /** A live wallet below the rent minimum. */
  predicate Poor(env: Env, st: Ledger, a: Address) { IsWallet(env, st, a) && Get(env, st, a).lamports < env.rent }

  ghost predicate RentOk(env: Env, st: Ledger) {
    forall a: Address :: !Poor(env, st, a)
  }

  /** What the runtime guarantees of any other program, call by call: nothing is minted or burnt, and accounts
      this program owns are neither rewritten, handed over nor debited. Rent is no part of it: the runtime
      looks at rent when the transaction ends. */
  ghost predicate Fair(env: Env, st: Ledger, st': Ledger) {
    && Total(st') == Total(st)
    && forall a: Address :: Get(env, st, a).owner == env.programId ==>
         && Get(env, st', a).owner == env.programId && Get(env, st', a).data == Get(env, st, a).data
         && Get(env, st', a).lamports >= Get(env, st, a).lamports
  }

  ghost predicate ForeignFair(env: Env) {
    forall st, program, views, data ::
      env.foreign(st, program, views, data).Ok? ==> Fair(env, st, env.foreign(st, program, views, data).value)
  }

  /** The two ways a wallet can come to be below the minimum: another program hands the address over that way,
      or the address paid for its own creation. */
  predicate Underfunds(env: Env, e: Event, a: Address) {
    match e
    case Called(before, _, _, _, left) => !IsWallet(env, before, a) && Poor(env, left, a)
    case Created(w, payer, _) => w == payer == a
    case _ => false
  }

  predicate Underfunded(env: Env, log: seq<Event>, a: Address) {
    exists e :: e in log && Underfunds(env, e, a)
  }

  ghost predicate Accounted(env: Env, st: Ledger, st': Ledger, log: seq<Event>) {
    forall a: Address :: Poor(env, st', a) ==> Poor(env, st, a) || Underfunded(env, log, a)
  }

  ghost predicate Keeps(env: Env, st: Ledger, o: Outcome) {
    o.Ok? ==> Total(o.value.ledger) == Total(st) && Accounted(env, st, o.value.ledger, o.value.log)
  }

  lemma {:induction false} UnderfundedThrough(env: Env, a: seq<Event>, b: seq<Event>, w: Address)
    ensures Underfunded(env, a + b, w) <==> Underfunded(env, a, w) || Underfunded(env, b, w)
  {
    if e :| e in a && Underfunds(env, e, w) {
      assert e in a + b;
    }
    if e :| e in b && Underfunds(env, e, w) {
      assert e in a + b;
    }
  }

  lemma {:induction false} AccountedThrough(env: Env, st: Ledger, st1: Ledger, st2: Ledger, a: seq<Event>,
                                            b: seq<Event>)
    requires Accounted(env, st, st1, a) && Accounted(env, st1, st2, b)
    ensures Accounted(env, st, st2, a + b)
  {
    forall w: Address | Poor(env, st2, w)
      ensures Poor(env, st, w) || Underfunded(env, a + b, w)
    {
      UnderfundedThrough(env, a, b, w);
    }
  }

  // ---- One instruction ----

  ghost predicate NoPoorer(env: Env, st: Ledger, st': Ledger) {
    forall a: Address :: Poor(env, st', a) ==> Poor(env, st, a)
  }

  lemma {:induction false} AfterWrite(env: Env, st: Ledger, a: Address, acct: Account)
    requires acct.owner == env.programId && |acct.data| == WALLET_LEN ==> acct.lamports >= env.rent || Poor(env, st, a)
    ensures NoPoorer(env, st, st[a := acct])
  {
    forall b: Address | Poor(env, st[a := acct], b)
      ensures Poor(env, st, b)
    {
      assert b != a ==> Get(env, st[a := acct], b) == Get(env, st, b);
    }
  }

  lemma {:induction false} AfterLamports(env: Env, st: Ledger, a: Address, lamports: u64)
    requires lamports >= env.rent || lamports >= Get(env, st, a).lamports || !IsWallet(env, st, a)
    ensures NoPoorer(env, st, SetLamports(env, st, a, lamports))
  {
    AfterWrite(env, st, a, Get(env, st, a).(lamports := lamports));
  }

  /** Withdraw on accounts that may be one and the same: under a positive rent minimum and a supply
      that fits in a u64 neither saturating operation ever saturates. */
  lemma {:induction false} WithdrawKeeps(env: Env, st: Ledger, views: seq<View>, arg: Bytes)
    requires env.rent > 0 && Total(st) <= U64_MAX as int
    ensures Keeps(env, st, Withdraw(env, st, views, arg))
  {
    if Withdraw(env, st, views, arg).Ok? {
      var (w, r, amount) := (views[0].address, views[1].address, FromU64Le(arg));
      var left := SaturatingSub(Get(env, st, w).lamports, amount);
      assert left == Get(env, st, w).lamports - amount;
      var st1 := SetLamports(env, st, w, left);
      var credited := SaturatingAdd(Get(env, st1, r).lamports, amount);
      TotalSetLamports(env, st, w, left);
      TotalSetLamports(env, st1, r, credited);
      AfterLamports(env, st, w, left);
      AfterLamports(env, st1, r, credited);
    }
  }

  /** What Withdraw moves: between two accounts exactly the amount, onto itself nothing. */
  lemma {:induction false} WithdrawMoves(env: Env, st: Ledger, views: seq<View>, arg: Bytes)
    requires env.rent > 0 && Total(st) <= U64_MAX as int && Withdraw(env, st, views, arg).Ok?
    ensures var (w, r, amount) := (views[0].address, views[1].address, FromU64Le(arg));
            var st' := Withdraw(env, st, views, arg).value.ledger;
            && Get(env, st, w).lamports >= amount + env.rent
            && (w != r ==>
                  && Get(env, st', w) == Get(env, st, w).(lamports := Get(env, st, w).lamports - amount)
                  && Get(env, st, r).lamports + amount <= U64_MAX as int
                  && Get(env, st', r) == Get(env, st, r).(lamports := Get(env, st, r).lamports + amount))
            && forall a: Address :: a == r == w || (a != w && a != r) ==> Get(env, st', a) == Get(env, st, a)
  {
    var (w, r, amount) := (views[0].address, views[1].address, FromU64Le(arg));
    var left := SaturatingSub(Get(env, st, w).lamports, amount);
    var st1 := SetLamports(env, st, w, left);
    TotalSetLamports(env, st, w, left);
    TotalSetLamports(env, st1, r, 0);
  }

  lemma {:induction false} CloseKeeps(env: Env, st: Ledger, views: seq<View>, arg: Bytes)
    requires env.systemId != env.programId && Total(st) <= U64_MAX as int
    ensures Keeps(env, st, Close(env, st, views, arg))
  {
    if Close(env, st, views, arg).Ok? {
      var (w, r) := (views[0].address, views[1].address);
      var balance := Get(env, st, w).lamports;
      var credited := SaturatingAdd(Get(env, st, r).lamports, balance);
      var gone := Account(0, [], env.systemId, Get(env, st, w).executable);
      TotalSetLamports(env, st, r, 0);
      TotalSetLamports(env, SetLamports(env, st, r, 0), w, 0);
      TotalSetLamports(env, st, r, credited);
      TotalUpdate(env, SetLamports(env, st, r, credited), w, gone);
      AfterLamports(env, st, r, credited);
      AfterWrite(env, SetLamports(env, st, r, credited), w, gone);
    }
  }

  /** Paying the shortfall moves it, onto itself nothing, and pushes no wallet below the minimum. */
  lemma {:induction false} FundingKeeps(env: Env, st: Ledger, payer: View, wallet: Address)
    requires env.systemId != env.programId && Covers(env, st, payer, wallet)
    ensures var st1 := Funded(env, st, payer.address, wallet);
            && Total(st1) == Total(st) && NoPoorer(env, st, st1)
            && (payer.address != wallet ==> Get(env, st1, wallet).lamports >= env.rent)
  {
    var shortfall := SaturatingSub(env.rent, Get(env, st, wallet).lamports);
    if shortfall > 0 && payer.address != wallet {
      var paid := SaturatingSub(Get(env, st, payer.address).lamports, shortfall);
      var st1 := SetLamports(env, st, payer.address, paid);
      TotalSetLamports(env, st, payer.address, paid);
      TotalSetLamports(env, st1, wallet, Get(env, st, wallet).lamports + shortfall);
      AfterLamports(env, st, payer.address, paid);
      AfterLamports(env, st1, wallet, Get(env, st, wallet).lamports + shortfall);
    }
  }

  lemma {:induction false} CreateKeeps(env: Env, st: Ledger, payer: View, wallet: View, data: Bytes)
    requires env.systemId != env.programId
    ensures Keeps(env, st, CreateWallet(env, st, payer, wallet, data))
  {
    var o := CreateWallet(env, st, payer, wallet, data);
    if o.Ok? {
      var st1 := Funded(env, st, payer.address, wallet.address);
      var lamports := Get(env, st1, wallet.address).lamports;
      var created := Account(lamports, data, env.programId, Get(env, st, wallet.address).executable);
      FundingKeeps(env, st, payer, wallet.address);
      TotalUpdate(env, st1, wallet.address, created);
      if payer.address != wallet.address {
        AfterWrite(env, st1, wallet.address, created);
      } else {
        assert o.value.log[0] in o.value.log && Underfunds(env, o.value.log[0], wallet.address);
      }
    }
  }

  /** Close sweeps everything and leaves an empty system account behind. */
  lemma {:induction false} CloseMoves(env: Env, st: Ledger, views: seq<View>, arg: Bytes)
    requires Total(st) <= U64_MAX as int && Close(env, st, views, arg).Ok?
    ensures var (w, r, st') := (views[0].address, views[1].address, Close(env, st, views, arg).value.ledger);
            && w != r
            && Get(env, st', w) == Account(0, [], env.systemId, Get(env, st, w).executable)
            && Get(env, st, r).lamports + Get(env, st, w).lamports <= U64_MAX as int
            && Get(env, st', r) == Get(env, st, r).(lamports := Get(env, st, r).lamports + Get(env, st, w).lamports)
            && forall a: Address :: a != w && a != r ==> Get(env, st', a) == Get(env, st, a)
  {
    var (w, r) := (views[0].address, views[1].address);
    TotalSetLamports(env, st, r, 0);
    TotalSetLamports(env, SetLamports(env, st, r, 0), w, 0);
  }

  // ---- Every run ----

  /** The setting: the two programs differ, the minimum is positive, the supply fits and other
      programs play by the runtime's rules. */
  ghost predicate Setting(env: Env, st: Ledger) {
    env.systemId != env.programId && env.rent > 0 && Total(st) <= U64_MAX as int && ForeignFair(env)
  }

  lemma {:induction false} ForeignKeeps(env: Env, st: Ledger, program: Address, views: seq<View>, data: Bytes)
    requires Setting(env, st) && program != env.programId
    ensures Keeps(env, st, Invoke(env, st, program, views, data))
  {
    var o := Invoke(env, st, program, views, data);
    if o.Ok? {
      var e := Called(st, program, views, data, o.value.ledger);
      assert o.value.log == [e] && Fair(env, st, o.value.ledger);
      forall a: Address | Poor(env, o.value.ledger, a)
        ensures Poor(env, st, a) || Underfunded(env, o.value.log, a)
      {
        assert e in o.value.log;
        assert IsWallet(env, st, a) ==> Get(env, o.value.ledger, a).lamports >= Get(env, st, a).lamports;
        assert !IsWallet(env, st, a) ==> Underfunds(env, e, a);
      }
    }
  }

  lemma {:induction false} InvokeKeeps(env: Env, st: Ledger, program: Address, views: seq<View>, data: Bytes)
    requires Setting(env, st)
    ensures Keeps(env, st, Invoke(env, st, program, views, data))
    decreases |data|, 3
  {
    if program == env.programId {
      ProcessKeeps(env, st, views, data);
    } else {
      ForeignKeeps(env, st, program, views, data);
    }
  }

  lemma {:induction false} InitializeKeeps(env: Env, st: Ledger, views: seq<View>, arg: Bytes)
    requires env.systemId != env.programId
    ensures Keeps(env, st, Initialize(env, st, views, arg))
  {
    if Initialize(env, st, views, arg).Ok? {
      var data := InitializeParses(env, st, views, arg);
      CreateKeeps(env, st, views[0], views[1], data);
    }
  }

  lemma {:induction false} ProcessKeeps(env: Env, st: Ledger, views: seq<View>, data: Bytes)
    requires Setting(env, st)
    ensures Keeps(env, st, Process(env, st, views, data))
    decreases |data|, 2
  {
    if data != [] {
      match data[0]
      case 0 => InitializeKeeps(env, st, views, data[1..]);
      case 1 => AdvanceKeeps(env, st, views, data[1..]);
      case 2 => WithdrawKeeps(env, st, views, data[1..]);
      case 3 => CloseKeeps(env, st, views, data[1..]);
      case _ =>
    }
  }

  lemma {:induction false} AdvanceKeeps(env: Env, st: Ledger, views: seq<View>, arg: Bytes)
    requires Setting(env, st)
    ensures Keeps(env, st, Advance(env, st, views, arg))
    decreases |arg|, 1
  {
    if Advance(env, st, views, arg).Ok? {
      var sig, newRoot, payload := AdvanceParses(env, st, views, arg);
      ExecuteKeeps(env, st, views[0], views[1..], sig, newRoot, payload);
    }
  }

  lemma {:induction false} StoreRootKeeps(env: Env, st: Ledger, wallet: Address, newRoot: Digest)
    requires |Get(env, st, wallet).data| == WALLET_LEN
    ensures Total(StoreRoot(env, st, wallet, newRoot)) == Total(st)
    ensures NoPoorer(env, st, StoreRoot(env, st, wallet, newRoot))
  {
    var acct := Get(env, st, wallet);
    var stored := acct.(data := WithRoot(acct.data, newRoot));
    TotalUpdate(env, st, wallet, stored);
    AfterWrite(env, st, wallet, stored);
  }

  lemma {:induction false} ExecuteKeeps(env: Env, st: Ledger, wallet: View, rest: seq<View>, sig: Scalars,
                                        newRoot: Digest, payload: Bytes)
    requires sig.Fits(SCALARS) && Setting(env, st)
    ensures Keeps(env, st, AdvanceExecute(env, st, wallet, rest, sig, newRoot, payload))
    decreases |payload|, 1
  {
    if AdvanceExecute(env, st, wallet, rest, sig, newRoot, payload).Ok? {
      var signer, d := ExecuteStep(env, st, wallet, rest, sig, newRoot, payload);
      var st1 := StoreRoot(env, st, wallet.address, newRoot);
      var c := CommitmentOf(Get(env, st, wallet.address).data, newRoot, rest, payload);
      StoreRootKeeps(env, st, wallet.address, newRoot);
      ReplayKeeps(env, st1, payload[0], payload[1..], rest, 0, wallet.address, signer);
      AccountedThrough(env, st, st1, d.ledger, [Rotated(wallet.address, c, sig)], d.log);
    }
  }

  lemma {:induction false} ReplayKeeps(env: Env, st: Ledger, count: nat, payload: Bytes, rest: seq<View>, cursor: nat,
                                       wallet: Address, pda: Option<Address>)
    requires cursor <= |rest| && Setting(env, st)
    ensures Keeps(env, st, Replay(env, st, count, payload, rest, cursor, wallet, pda))
    decreases |payload|, 0
  {
    if count > 0 && Replay(env, st, count, payload, rest, cursor, wallet, pda).Ok? {
      var cut, d, d' := ReplayStep(env, st, count, payload, rest, cursor, wallet, pda);
      CpiKeeps(env, st, cut.cpi, wallet, pda);
      ReplayKeeps(env, d.ledger, count - 1, cut.payload, rest, cut.cursor, wallet, pda);
      AccountedThrough(env, st, d.ledger, d'.ledger, d.log, d'.log);
    }
  }

  lemma {:induction false} CpiKeeps(env: Env, st: Ledger, cpi: Cpi<View>, wallet: Address, pda: Option<Address>)
    requires Setting(env, st)
    ensures Keeps(env, st, InvokeCpi(env, st, cpi, wallet, pda))
    decreases |cpi.data|, 4
  {
    InvokeKeeps(env, st, cpi.program.address, Promote(cpi.accounts, wallet), cpi.data);
  }

  lemma {:induction false} TransactionKeeps(env: Env, st: Ledger, calls: seq<TopCall>)
    requires Setting(env, st)
    ensures Keeps(env, st, InvokeAll(env, st, calls))
    decreases |calls|
  {
    if calls != [] && InvokeAll(env, st, calls).Ok? {
      var d, d' := InvokeAllStep(env, st, calls);
      InvokeKeeps(env, st, calls[0].program, calls[0].views, calls[0].data);
      TransactionKeeps(env, d.ledger, calls[1..]);
      AccountedThrough(env, st, d.ledger, d'.ledger, d.log, d'.log);
    }
  }

  /** Besides an error, the runtime rolls a transaction back when a wallet that was not below the rent minimum would
      end below it. It looks once, after the last instruction. */
  ghost function Submit(env: Env, st: Ledger, calls: seq<TopCall>): Ledger {
    var d := Commit(env, st, calls);
    if NoPoorer(env, st, d.ledger) then d.ledger else st
  }

  /** Transactions one after the other, without the rent check. */
  function CommitAll(env: Env, st: Ledger, txs: seq<seq<TopCall>>): Done
    decreases |txs|
  {
    if txs == [] then Done(st, [])
    else
      var d := CommitAll(env, st, txs[..|txs| - 1]);
      var d' := Commit(env, d.ledger, txs[|txs| - 1]);
      Done(d'.ledger, d.log + d'.log)
  }

  ghost function SubmitAll(env: Env, st: Ledger, txs: seq<seq<TopCall>>): Ledger
    decreases |txs|
  {
    if txs == [] then st else Submit(env, SubmitAll(env, st, txs[..|txs| - 1]), txs[|txs| - 1])
  }

  lemma {:induction false} CommitKeeps(env: Env, st: Ledger, calls: seq<TopCall>)
    requires Setting(env, st)
    ensures Keeps(env, st, Ok(Commit(env, st, calls)))
  {
    TransactionKeeps(env, st, calls);
  }

  ghost predicate NeverUnderfunded(env: Env, log: seq<Event>) {
    forall a: Address :: !Underfunded(env, log, a)
  }

  /** The instructions of this program never make the runtime's rent check fail: a transaction is committed as
      it is unless in it another program hands an address over underfunded or an address pays for itself. */
  lemma {:induction false} CheckFailsOnlyByOthers(env: Env, st: Ledger, calls: seq<TopCall>)
    requires Setting(env, st) && NeverUnderfunded(env, Commit(env, st, calls).log)
    ensures Submit(env, st, calls) == Commit(env, st, calls).ledger
  {
    CommitKeeps(env, st, calls);
  }

  /** Over every sequence of transactions no lamport appears or disappears, and a wallet ends below the rent
      minimum only if it was there from the start or one of the transactions underfunded it. No rent check is made. */
  lemma {:induction false} RunsConserve(env: Env, st: Ledger, txs: seq<seq<TopCall>>)
    requires Setting(env, st)
    ensures Keeps(env, st, Ok(CommitAll(env, st, txs)))
    decreases |txs|
  {
    if txs != [] {
      var (d, c) := (CommitAll(env, st, txs[..|txs| - 1]), txs[|txs| - 1]);
      RunsConserve(env, st, txs[..|txs| - 1]);
      CommitKeeps(env, d.ledger, c);
      var d' := Commit(env, d.ledger, c);
      AccountedThrough(env, st, d.ledger, d'.ledger, d.log, d'.log);
    }
  }

  lemma {:induction false} NeverUnderfundedParts(env: Env, a: seq<Event>, b: seq<Event>)
    requires NeverUnderfunded(env, a + b)
    ensures NeverUnderfunded(env, a) && NeverUnderfunded(env, b)
  {
    forall w: Address
      ensures !Underfunded(env, a, w) && !Underfunded(env, b, w)
    {
      UnderfundedThrough(env, a, b, w);
    }
  }

  /** In a run without an underfunding event the runtime's rent check never fails, and every live wallet keeps at
      least the rent minimum because of what the instructions do, not because of the check. */
  lemma {:induction false} RentHoldsUnchecked(env: Env, st: Ledger, txs: seq<seq<TopCall>>)
    requires Setting(env, st) && NeverUnderfunded(env, CommitAll(env, st, txs).log)
    ensures SubmitAll(env, st, txs) == CommitAll(env, st, txs).ledger
    ensures RentOk(env, st) ==> RentOk(env, CommitAll(env, st, txs).ledger)
    decreases |txs|
  {
    RunsConserve(env, st, txs);
    if txs != [] {
      var (d, c) := (CommitAll(env, st, txs[..|txs| - 1]), txs[|txs| - 1]);
      RunsConserve(env, st, txs[..|txs| - 1]);
      NeverUnderfundedParts(env, d.log, Commit(env, d.ledger, c).log);
      RentHoldsUnchecked(env, st, txs[..|txs| - 1]);
      CheckFailsOnlyByOthers(env, d.ledger, c);
    }
  }

  /** With the check, whatever underfunds: supply and rent exemption survive every run. */
  lemma {:induction false} CheckedRunsConserve(env: Env, st: Ledger, txs: seq<seq<TopCall>>)
    requires Setting(env, st) && RentOk(env, st)
    ensures Total(SubmitAll(env, st, txs)) == Total(st) && RentOk(env, SubmitAll(env, st, txs))
    decreases |txs|
  {
    if txs != [] {
      CheckedRunsConserve(env, st, txs[..|txs| - 1]);
      CommitKeeps(env, SubmitAll(env, st, txs[..|txs| - 1]), txs[|txs| - 1]);
    }
  }
}
