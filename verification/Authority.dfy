/** Who may spend: an address that signs for nothing at the top of a transaction is spent from only after an
    Advance of its own. */
module Authority {
  import opened Base
  import opened Winternitz
  import opened Decode
  import opened Preimage
  import opened Program
  import opened NestedRuns

  // ---- What uses an address's authority ----

  predicate Unsigned(views: seq<View>, w: Address) {
    forall i :: 0 <= i < |views| && views[i].address == w ==> !views[i].isSigner
  }

  /** The event spends from `w`, closes it, or hands its signature to another program. */
  predicate Uses(e: Event, w: Address) {
    match e
    case Withdrew(a) => a == w
    case Closed(a) => a == w
    case Called(_, _, views, _, _) => !Unsigned(views, w)
    case _ => false
  }

  /** Every use of the authority of `w` comes after an Advance of `w`. */
  predicate Authorized(w: Address, log: seq<Event>) {
    forall j :: 0 <= j < |log| && Uses(log[j], w) ==> Advanced(w, log[..j])
  }

  // ---- What an address may gain without using its authority ----

  /** Nothing but lamports came in. */
  predicate Gained(before: Account, after: Account) {
    after.owner == before.owner && after.data == before.data && after.lamports >= before.lamports
  }

  /** Every call of another program left what this program owns at `w` alone, up to lamports coming in. */
  predicate Spared(env: Env, w: Address, log: seq<Event>) {
    forall e :: e in log && e.Called? && Get(env, e.before, w).owner == env.programId ==>
      Gained(Get(env, e.before, w), Get(env, e.left, w))
  }

  /** No seeds sign for the address: it is not a wallet's. */
  ghost predicate NoSeeds(env: Env, w: Address) {
    forall id: Digest, bump: byte :: env.signerPda(id, bump) != Some(w)
  }

  predicate Unused(w: Address, log: seq<Event>) { forall e :: e in log ==> !Uses(e, w) }

  /** What holds of a tree in which `w` signed for nothing at the top. */
  ghost predicate Guarded(env: Env, st: Ledger, o: Outcome, w: Address) {
    o.Ok? ==>
      && Authorized(w, o.value.log)
      && (NoSeeds(env, w) ==> Unused(w, o.value.log))
      && (Get(env, st, w).owner == env.programId && !Advanced(w, o.value.log) && Spared(env, w, o.value.log) ==>
            Gained(Get(env, st, w), Get(env, o.value.ledger, w)))
  }

  lemma {:induction false} AdvancedThrough(w: Address, a: seq<Event>, b: seq<Event>)
    ensures Advanced(w, a + b) <==> Advanced(w, a) || Advanced(w, b)
  {
    if e :| e in a && Advances(e, w) {
      assert e in a + b;
    }
    if e :| e in b && Advances(e, w) {
      assert e in a + b;
    }
  }

  lemma {:induction false} AuthorizedThrough(w: Address, a: seq<Event>, b: seq<Event>)
    requires Authorized(w, a) && Authorized(w, b)
    ensures Authorized(w, a + b)
  {
    forall j | 0 <= j < |a + b| && Uses((a + b)[j], w)
      ensures Advanced(w, (a + b)[..j])
    {
      if j < |a| {
        assert (a + b)[..j] == a[..j];
      } else {
        assert (a + b)[..j] == a + b[..j - |a|];
        AdvancedThrough(w, a, b[..j - |a|]);
      }
    }
  }

  lemma {:induction false} SparedThrough(env: Env, w: Address, a: seq<Event>, b: seq<Event>)
    requires Spared(env, w, a + b)
    ensures Spared(env, w, a) && Spared(env, w, b)
  {
    assert forall e :: e in a ==> e in a + b;
    assert forall e :: e in b ==> e in a + b;
  }

  lemma {:induction false} GuardedThrough(env: Env, st: Ledger, d: Done, d': Done, w: Address)
    requires Guarded(env, st, Ok(d), w) && Guarded(env, d.ledger, Ok(d'), w)
    ensures Guarded(env, st, Ok(Done(d'.ledger, d.log + d'.log)), w)
  {
    AuthorizedThrough(w, d.log, d'.log);
    AdvancedThrough(w, d.log, d'.log);
    if Spared(env, w, d.log + d'.log) {
      SparedThrough(env, w, d.log, d'.log);
    }
  }

  // ---- One instruction ----

  lemma {:induction false} WithdrawGuarded(env: Env, st: Ledger, views: seq<View>, arg: Bytes, w: Address)
    requires Unsigned(views, w)
    ensures Guarded(env, st, Withdraw(env, st, views, arg), w)
  {
    if Withdraw(env, st, views, arg).Ok? {
      assert views[0].address != w;
    }
  }

  lemma {:induction false} CloseGuarded(env: Env, st: Ledger, views: seq<View>, arg: Bytes, w: Address)
    requires Unsigned(views, w)
    ensures Guarded(env, st, Close(env, st, views, arg), w)
  {
    if Close(env, st, views, arg).Ok? {
      assert views[0].address != w;
    }
  }

  /** Whoever pays for a creation is no wallet of this program. */
  lemma {:induction false} FundedSpares(env: Env, st: Ledger, payer: View, wallet: Address, w: Address)
    requires env.systemId != env.programId && Covers(env, st, payer, wallet) && wallet != w
    requires Get(env, st, w).owner == env.programId
    ensures Get(env, Funded(env, st, payer.address, wallet), w) == Get(env, st, w)
  {
  }

  lemma {:induction false} CreateGuarded(env: Env, st: Ledger, payer: View, wallet: View, data: Bytes, w: Address)
    requires env.systemId != env.programId && Get(env, st, wallet.address).owner == env.systemId
    ensures Guarded(env, st, CreateWallet(env, st, payer, wallet, data), w)
  {
    if CreateWallet(env, st, payer, wallet, data).Ok? && Get(env, st, w).owner == env.programId {
      FundedSpares(env, st, payer, wallet.address, w);
    }
  }

  lemma {:induction false} InitializeGuarded(env: Env, st: Ledger, views: seq<View>, arg: Bytes, w: Address)
    requires env.systemId != env.programId
    ensures Guarded(env, st, Initialize(env, st, views, arg), w)
  {
    if Initialize(env, st, views, arg).Ok? {
      var data := InitializeParses(env, st, views, arg);
      CreateGuarded(env, st, views[0], views[1], data, w);
    }
  }

  lemma {:induction false} ForeignGuarded(env: Env, st: Ledger, program: Address, views: seq<View>, data: Bytes,
                                          w: Address)
    requires program != env.programId && Unsigned(views, w)
    ensures Guarded(env, st, Invoke(env, st, program, views, data), w)
  {
    var o := Invoke(env, st, program, views, data);
    if o.Ok? {
      assert o.value.log[0] in o.value.log;
    }
  }

  // ---- Every tree ----

  lemma {:induction false} InvokeGuarded(env: Env, st: Ledger, program: Address, views: seq<View>, data: Bytes,
                                         w: Address)
    requires env.systemId != env.programId && Unsigned(views, w)
    ensures Guarded(env, st, Invoke(env, st, program, views, data), w)
    decreases |data|, 3
  {
    if program == env.programId {
      ProcessGuarded(env, st, views, data, w);
    } else {
      ForeignGuarded(env, st, program, views, data, w);
    }
  }

  lemma {:induction false} ProcessGuarded(env: Env, st: Ledger, views: seq<View>, data: Bytes, w: Address)
    requires env.systemId != env.programId && Unsigned(views, w)
    ensures Guarded(env, st, Process(env, st, views, data), w)
    decreases |data|, 2
  {
    if data != [] {
      match data[0]
      case 0 => InitializeGuarded(env, st, views, data[1..], w);
      case 1 => AdvanceGuarded(env, st, views, data[1..], w);
      case 2 => WithdrawGuarded(env, st, views, data[1..], w);
      case 3 => CloseGuarded(env, st, views, data[1..], w);
      case _ =>
    }
  }

  lemma {:induction false} AdvanceGuarded(env: Env, st: Ledger, views: seq<View>, arg: Bytes, w: Address)
    requires env.systemId != env.programId && Unsigned(views, w)
    ensures Guarded(env, st, Advance(env, st, views, arg), w)
    decreases |arg|, 1
  {
    if Advance(env, st, views, arg).Ok? {
      var sig, newRoot, payload := AdvanceParses(env, st, views, arg);
      ExecuteGuarded(env, st, views[0], views[1..], sig, newRoot, payload, w);
    }
  }

  lemma {:induction false} AuthorizedFrom(w: Address, e: Event, inner: seq<Event>)
    requires Advances(e, w)
    ensures Authorized(w, [e] + inner) && Advanced(w, [e] + inner)
  {
    var log := [e] + inner;
    assert e in log;
    forall j | 0 <= j < |log| && Uses(log[j], w)
      ensures Advanced(w, log[..j])
    {
      assert j > 0 && log[..j][0] == e;
    }
  }

  /** An Advance, and then its calls. */
  lemma {:induction false} RotatedGuarded(env: Env, st: Ledger, st1: Ledger, rotated: Event, d: Done, w: Address)
    requires rotated.Rotated? && |Get(env, st, rotated.wallet).data| == WALLET_LEN
    requires forall a :: a != rotated.wallet ==> Get(env, st1, a) == Get(env, st, a)
    requires rotated.wallet != w || NoSeeds(env, w) ==> Guarded(env, st1, Ok(d), w)
    ensures Guarded(env, st, Ok(Done(d.ledger, [rotated] + d.log)), w)
  {
    if rotated.wallet == w {
      AuthorizedFrom(w, rotated, d.log);
    } else {
      GuardedThrough(env, st, Done(st1, [rotated]), d, w);
    }
  }

  /** An Advance of `w` authorizes all that follows, if seeds sign for `w` at all; an Advance of another wallet hands
      on no signature of `w`. */
  lemma {:induction false} ExecuteGuarded(env: Env, st: Ledger, wallet: View, rest: seq<View>, sig: Scalars,
                                          newRoot: Digest, payload: Bytes, w: Address)
    requires env.systemId != env.programId && Unsigned(rest, w) && sig.Fits(SCALARS)
    ensures Guarded(env, st, AdvanceExecute(env, st, wallet, rest, sig, newRoot, payload), w)
    decreases |payload|, 1
  {
    if AdvanceExecute(env, st, wallet, rest, sig, newRoot, payload).Ok? {
      var signer, d := ExecuteStep(env, st, wallet, rest, sig, newRoot, payload);
      var st1 := StoreRoot(env, st, wallet.address, newRoot);
      var rotated := Rotated(wallet.address, CommitmentOf(Get(env, st, wallet.address).data, newRoot, rest, payload),
                             sig);
      if wallet.address != w || NoSeeds(env, w) {
        ReplayGuarded(env, st1, payload[0], payload[1..], rest, 0, wallet.address, signer, w);
      }
      RotatedGuarded(env, st, st1, rotated, d, w);
    }
  }

  lemma {:induction false} ReplayGuarded(env: Env, st: Ledger, count: nat, payload: Bytes, rest: seq<View>, cursor: nat,
                                         wallet: Address, pda: Option<Address>, w: Address)
    requires env.systemId != env.programId && cursor <= |rest| && Unsigned(rest, w)
    requires wallet != w || pda != Some(w)
    ensures Guarded(env, st, Replay(env, st, count, payload, rest, cursor, wallet, pda), w)
    decreases |payload|, 0
  {
    if count > 0 && Replay(env, st, count, payload, rest, cursor, wallet, pda).Ok? {
      var cut, d, d' := ReplayStep(env, st, count, payload, rest, cursor, wallet, pda);
      assert Unsigned(cut.cpi.accounts, w);
      CpiGuarded(env, st, cut.cpi, wallet, pda, w);
      ReplayGuarded(env, d.ledger, count - 1, cut.payload, rest, cut.cursor, wallet, pda, w);
      GuardedThrough(env, st, d, d', w);
    }
  }

  /** Where the seeds do not sign for `w`, the runtime lets no unsigned appearance of it through. */
  lemma {:induction false} CpiGuarded(env: Env, st: Ledger, cpi: Cpi<View>, wallet: Address, pda: Option<Address>,
                                      w: Address)
    requires env.systemId != env.programId && Unsigned(cpi.accounts, w)
    requires wallet != w || pda != Some(w)
    ensures Guarded(env, st, InvokeCpi(env, st, cpi, wallet, pda), w)
    decreases |cpi.data|, 4
  {
    if InvokeCpi(env, st, cpi, wallet, pda).Ok? {
      assert Unsigned(Promote(cpi.accounts, wallet), w);
      InvokeGuarded(env, st, cpi.program.address, Promote(cpi.accounts, wallet), cpi.data, w);
    }
  }

  /** The address signs for no instruction of the transaction. */
  predicate NeverSigns(calls: seq<TopCall>, w: Address) { forall c :: c in calls ==> Unsigned(c.views, w) }

  /** The same over a whole transaction. */
  lemma {:induction false} TransactionGuarded(env: Env, st: Ledger, calls: seq<TopCall>, w: Address)
    requires env.systemId != env.programId && NeverSigns(calls, w)
    ensures Guarded(env, st, InvokeAll(env, st, calls), w)
    decreases |calls|
  {
    if calls != [] && InvokeAll(env, st, calls).Ok? {
      var d, d' := InvokeAllStep(env, st, calls);
      assert calls[0] in calls && forall c :: c in calls[1..] ==> c in calls;
      InvokeGuarded(env, st, calls[0].program, calls[0].views, calls[0].data, w);
      TransactionGuarded(env, d.ledger, calls[1..], w);
      GuardedThrough(env, st, d, d', w);
    }
  }

  /** An address that signs for nothing, and that no seeds sign for, is never used: signatures are lent for wallets
      only. */
  lemma {:induction false} NoSeedsNoUse(env: Env, st: Ledger, calls: seq<TopCall>, w: Address)
    requires env.systemId != env.programId && NeverSigns(calls, w) && NoSeeds(env, w)
    requires InvokeAll(env, st, calls).Ok?
    ensures forall e :: e in InvokeAll(env, st, calls).value.log ==> !Uses(e, w)
  {
    TransactionGuarded(env, st, calls, w);
  }

  lemma {:induction false} AdvancedBefore(w: Address, log: seq<Event>, k: nat)
    requires k <= |log|
    ensures Advanced(w, log[..k]) ==> Advanced(w, log)
  {
    assert log == log[..k] + log[k..];
    AdvancedThrough(w, log[..k], log[k..]);
  }

  // ---- The theorems ----

  /** Without an Advance of its own, a wallet that signs for nothing in a transaction keeps its owner, its id and
      root, and every lamport. */
  lemma {:induction false} NoAdvanceNoLoss(env: Env, st: Ledger, calls: seq<TopCall>, w: Address)
    requires env.systemId != env.programId && NeverSigns(calls, w) && Get(env, st, w).owner == env.programId
    requires InvokeAll(env, st, calls).Ok?
    requires var log := InvokeAll(env, st, calls).value.log; !Advanced(w, log) && Spared(env, w, log)
    ensures var d := InvokeAll(env, st, calls).value;
            && Gained(Get(env, st, w), Get(env, d.ledger, w))
            && forall e :: e in d.log ==> !Uses(e, w)
  {
    TransactionGuarded(env, st, calls, w);
    var d := InvokeAll(env, st, calls).value;
    forall e | e in d.log
      ensures !Uses(e, w)
    {
      var j :| 0 <= j < |d.log| && d.log[j] == e;
      AdvancedBefore(w, d.log, j);
    }
  }

  /** The first Advance of `w`, if there is one. */
  lemma {:induction false} FirstAdvance(w: Address, log: seq<Event>) returns (i: nat)
    requires Advanced(w, log)
    ensures i < |log| && Advances(log[i], w) && !Advanced(w, log[..i])
    decreases |log|
  {
    var n := |log| - 1;
    if Advanced(w, log[..n]) {
      i := FirstAdvance(w, log[..n]);
      assert log[..n][..i] == log[..i];
    } else {
      i := n;
    }
  }

  /** A guarded wallet is closed only after an Advance of it. */
  lemma {:induction false} ClosedIsAdvanced(w: Address, log: seq<Event>, i: nat)
    requires Authorized(w, log) && i <= |log| && !NeverClosed(w, log[..i])
    ensures Advanced(w, log[..i])
  {
    var k :| 0 <= k < i && log[..i][k] == Closed(w);
    assert Uses(log[k], w);
    assert log[..i][..k] == log[..k];
    AdvancedBefore(w, log[..i], k);
  }

  /** Over every successful transaction: whoever spends from a live wallet that signs for none of its instructions,
      closes it, or signs with it comes after an Advance of that wallet whose signature verified, over its own
      commitment, against the root the wallet stored when the transaction began. */
  lemma {:induction false} SpendsNeedTheStoredRoot(env: Env, st: Ledger, calls: seq<TopCall>, w: Address, j: nat)
      returns (i: nat)
    requires env.systemId != env.programId && NeverSigns(calls, w) && LiveWallet(env, CellOf(env, st, w))
    requires InvokeAll(env, st, calls).Ok?
    requires var log := InvokeAll(env, st, calls).value.log;
             Lawful(env, w, log) && j < |log| && Uses(log[j], w)
    ensures var log := InvokeAll(env, st, calls).value.log;
            var (id, root) := (IdOf(Get(env, st, w).data), RootOf(Get(env, st, w).data));
            && i < j && Advances(log[i], w) && log[i].signature.Fits(SCALARS)
            && log[i].commitment.id == id && log[i].commitment.currentRoot == root
            && Verify(env.H, log[i].signature, Parts(log[i].commitment), root)
  {
    TransactionGuarded(env, st, calls, w);
    InvokeAllFollows(env, st, calls, w);
    var log := InvokeAll(env, st, calls).value.log;
    i := FirstAdvance(w, log[..j]);
    assert log[..j][..i] == log[..i] && log[..j][i] == log[i];
    if !NeverClosed(w, log[..i]) {
      ClosedIsAdvanced(w, log, i);
    }
    AdvancesChain(env, CellOf(env, st, w), w, log, i);
    LastRootUnadvanced(RootOf(Get(env, st, w).data), w, log[..i]);
    assert log[i] in log;
  }
}
