/** What a transaction leaves alone: accounts it lists as readonly, and accounts of other programs. */
module Frames {
  import opened Base
  import opened Winternitz
  import opened Decode
  import opened Program
  import opened Authority

  predicate ReadOnly(views: seq<View>, a: Address) {
    forall i :: 0 <= i < |views| && views[i].address == a ==> !views[i].isWritable
  }

  /** The other programs that were called kept to the same: what they saw as readonly is unchanged, and what is not
      this program's only gained. */
  predicate OthersObeyed(env: Env, a: Address, log: seq<Event>) {
    forall e :: e in log && e.Called? ==>
      && (ReadOnly(e.views, a) ==> Get(env, e.left, a) == Get(env, e.before, a))
      && (Get(env, e.before, a).owner != env.programId ==> Gained(Get(env, e.before, a), Get(env, e.left, a)))
  }

  /** The account was neither created nor paid for a creation. */
  predicate Uninvolved(a: Address, log: seq<Event>) {
    forall e :: e in log && e.Created? ==> e.wallet != a && e.payer != a
  }

  /** A readonly account is unchanged, and an account of another program has only gained lamports. */
  predicate Framed(env: Env, st: Ledger, o: Outcome, readonly: bool, a: Address) {
    o.Ok? && OthersObeyed(env, a, o.value.log) ==>
      && (readonly ==> Get(env, o.value.ledger, a) == Get(env, st, a))
      && (Uninvolved(a, o.value.log) && Get(env, st, a).owner != env.programId ==>
            Gained(Get(env, st, a), Get(env, o.value.ledger, a)))
  }

  lemma {:induction false} FramedThrough(env: Env, st: Ledger, d: Done, d': Done, readonly: bool, a: Address)
    requires Framed(env, st, Ok(d), readonly, a) && Framed(env, d.ledger, Ok(d'), readonly, a)
    ensures Framed(env, st, Ok(Done(d'.ledger, d.log + d'.log)), readonly, a)
  {
    var log := d.log + d'.log;
    assert forall e :: e in d.log || e in d'.log ==> e in log;
  }

  // ---- One instruction ----

  lemma {:induction false} SettledFrame(env: Env, st: Ledger, st': Ledger, views: seq<View>, w: Address, r: Address,
                                        a: Address)
    requires PermittedAt(env, st, st', views, w) && PermittedAt(env, st, st', views, r)
    requires a != w && a != r ==> Get(env, st', a) == Get(env, st, a)
    ensures ReadOnly(views, a) ==> Get(env, st', a) == Get(env, st, a)
    ensures Get(env, st, a).owner != env.programId ==> Gained(Get(env, st, a), Get(env, st', a))
  {
  }

  lemma {:induction false} WithdrawFramed(env: Env, st: Ledger, views: seq<View>, arg: Bytes, a: Address)
    ensures Framed(env, st, Withdraw(env, st, views, arg), ReadOnly(views, a), a)
  {
    if Withdraw(env, st, views, arg).Ok? {
      SettledFrame(env, st, Withdraw(env, st, views, arg).value.ledger, views, views[0].address, views[1].address, a);
    }
  }

  lemma {:induction false} CloseFramed(env: Env, st: Ledger, views: seq<View>, arg: Bytes, a: Address)
    ensures Framed(env, st, Close(env, st, views, arg), ReadOnly(views, a), a)
  {
    if Close(env, st, views, arg).Ok? {
      SettledFrame(env, st, Close(env, st, views, arg).value.ledger, views, views[0].address, views[1].address, a);
    }
  }

  lemma {:induction false} CreateFramed(env: Env, st: Ledger, payer: View, wallet: View, data: Bytes, readonly: bool,
                                        a: Address)
    requires readonly && payer.address == a ==> !payer.isWritable
    requires readonly && wallet.address == a ==> !wallet.isWritable
    ensures Framed(env, st, CreateWallet(env, st, payer, wallet, data), readonly, a)
  {
    var o := CreateWallet(env, st, payer, wallet, data);
    if o.Ok? {
      assert o.value.log[0] in o.value.log;
    }
  }

  lemma {:induction false} InitializeFramed(env: Env, st: Ledger, views: seq<View>, arg: Bytes, a: Address)
    ensures Framed(env, st, Initialize(env, st, views, arg), ReadOnly(views, a), a)
  {
    if Initialize(env, st, views, arg).Ok? {
      var data := InitializeParses(env, st, views, arg);
      CreateFramed(env, st, views[0], views[1], data, ReadOnly(views, a), a);
    }
  }

  lemma {:induction false} ForeignFramed(env: Env, st: Ledger, program: Address, views: seq<View>, data: Bytes,
                                         a: Address)
    requires program != env.programId
    ensures Framed(env, st, Invoke(env, st, program, views, data), ReadOnly(views, a), a)
  {
    var o := Invoke(env, st, program, views, data);
    if o.Ok? {
      assert o.value.log[0] in o.value.log;
    }
  }

  // ---- Every tree ----

  lemma {:induction false} InvokeFramed(env: Env, st: Ledger, program: Address, views: seq<View>, data: Bytes,
                                        a: Address)
    ensures Framed(env, st, Invoke(env, st, program, views, data), ReadOnly(views, a), a)
    decreases |data|, 3
  {
    if program == env.programId {
      ProcessFramed(env, st, views, data, a);
    } else {
      ForeignFramed(env, st, program, views, data, a);
    }
  }

  lemma {:induction false} ProcessFramed(env: Env, st: Ledger, views: seq<View>, data: Bytes, a: Address)
    ensures Framed(env, st, Process(env, st, views, data), ReadOnly(views, a), a)
    decreases |data|, 2
  {
    if data != [] {
      match data[0]
      case 0 => InitializeFramed(env, st, views, data[1..], a);
      case 1 => AdvanceFramed(env, st, views, data[1..], a);
      case 2 => WithdrawFramed(env, st, views, data[1..], a);
      case 3 => CloseFramed(env, st, views, data[1..], a);
      case _ =>
    }
  }

  lemma {:induction false} AdvanceFramed(env: Env, st: Ledger, views: seq<View>, arg: Bytes, a: Address)
    ensures Framed(env, st, Advance(env, st, views, arg), ReadOnly(views, a), a)
    decreases |arg|, 1
  {
    if Advance(env, st, views, arg).Ok? {
      var sig, newRoot, payload := AdvanceParses(env, st, views, arg);
      assert views == [views[0]] + views[1..];
      ExecuteFramed(env, st, views[0], views[1..], sig, newRoot, payload, ReadOnly(views, a), a);
    }
  }

  lemma {:induction false} ExecuteFramed(env: Env, st: Ledger, wallet: View, rest: seq<View>, sig: Scalars,
                                         newRoot: Digest, payload: Bytes, readonly: bool, a: Address)
    requires sig.Fits(SCALARS) && (readonly ==> ReadOnly([wallet] + rest, a))
    ensures Framed(env, st, AdvanceExecute(env, st, wallet, rest, sig, newRoot, payload), readonly, a)
    decreases |payload|, 1
  {
    if AdvanceExecute(env, st, wallet, rest, sig, newRoot, payload).Ok? {
      var signer, d := ExecuteStep(env, st, wallet, rest, sig, newRoot, payload);
      var st1 := StoreRoot(env, st, wallet.address, newRoot);
      var rotated := Rotated(wallet.address, CommitmentOf(Get(env, st, wallet.address).data, newRoot, rest, payload),
                             sig);
      SettledFrame(env, st, st1, [wallet] + rest, wallet.address, wallet.address, a);
      assert readonly ==> forall i :: 0 <= i < |rest| ==> ([wallet] + rest)[i + 1] == rest[i];
      ReplayFramed(env, st1, payload[0], payload[1..], rest, 0, wallet.address, signer, readonly, a);
      FramedThrough(env, st, Done(st1, [rotated]), d, readonly, a);
    }
  }

  lemma {:induction false} CutReadOnly(payload: Bytes, rest: seq<View>, cursor: nat, cut: Cut<View>, a: Address)
    requires cursor <= |rest| && NextCpi(payload, rest, cursor) == Ok(cut)
    ensures ReadOnly(rest, a) ==> ReadOnly(cut.cpi.accounts, a)
  {
  }

  lemma {:induction false} ReplayFramed(env: Env, st: Ledger, count: nat, payload: Bytes, rest: seq<View>, cursor: nat,
                                        wallet: Address, pda: Option<Address>, readonly: bool, a: Address)
    requires cursor <= |rest| && (readonly ==> ReadOnly(rest, a))
    ensures Framed(env, st, Replay(env, st, count, payload, rest, cursor, wallet, pda), readonly, a)
    decreases |payload|, 0
  {
    if count > 0 && Replay(env, st, count, payload, rest, cursor, wallet, pda).Ok? {
      var cut, d, d' := ReplayStep(env, st, count, payload, rest, cursor, wallet, pda);
      CutReadOnly(payload, rest, cursor, cut, a);
      CpiFramed(env, st, cut.cpi, wallet, pda, readonly, a);
      ReplayFramed(env, d.ledger, count - 1, cut.payload, rest, cut.cursor, wallet, pda, readonly, a);
      FramedThrough(env, st, d, d', readonly, a);
    }
  }

  lemma {:induction false} CpiFramed(env: Env, st: Ledger, cpi: Cpi<View>, wallet: Address, pda: Option<Address>,
                                     readonly: bool, a: Address)
    requires readonly ==> ReadOnly(cpi.accounts, a)
    ensures Framed(env, st, InvokeCpi(env, st, cpi, wallet, pda), readonly, a)
    decreases |cpi.data|, 4
  {
    if InvokeCpi(env, st, cpi, wallet, pda).Ok? {
      InvokeFramed(env, st, cpi.program.address, Promote(cpi.accounts, wallet), cpi.data, a);
    }
  }

  // ---- Every transaction ----

  /** No instruction lists the account as writable. */
  predicate NoneWrites(calls: seq<TopCall>, a: Address) { forall c :: c in calls ==> ReadOnly(c.views, a) }

  /** Over a transaction of any number of instructions: an account that none of them lists as writable is unchanged,
      and an account that belongs to another program, and neither became a wallet nor paid for one, only gained. */
  lemma {:induction false} TransactionFramed(env: Env, st: Ledger, calls: seq<TopCall>, a: Address)
    ensures Framed(env, st, InvokeAll(env, st, calls), NoneWrites(calls, a), a)
    decreases |calls|
  {
    if calls != [] && InvokeAll(env, st, calls).Ok? {
      var d, d' := InvokeAllStep(env, st, calls);
      assert calls[0] in calls && forall c :: c in calls[1..] ==> c in calls;
      InvokeFramed(env, st, calls[0].program, calls[0].views, calls[0].data, a);
      TransactionFramed(env, d.ledger, calls[1..], a);
      FramedThrough(env, st, d, d', NoneWrites(calls, a), a);
    }
  }
}
