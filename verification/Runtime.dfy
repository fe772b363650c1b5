/** The program's handlers as they run: accounts rewritten in place, payload and cursor moving,
    nested calls on the same ledger, and the runtime's rollback around the whole. */
module Runtime {
  import opened Base
  import opened Winternitz
  import opened Encoding
  import opened Wire
  import opened Decode
  import opened Preimage
  import opened Program

  function Verdict(o: Outcome): Option<ProgramError> {
    match o
    case Ok(_) => None
    case Err(e) => Some(e)
  }

  /** An outcome whose events follow those already logged. */
  function After(log: seq<Event>, o: Outcome): Outcome {
    match o
    case Err(e) => Err(e)
    case Ok(d) => Ok(Done(d.ledger, log + d.log))
  }

  lemma {:induction false} AfterNothing(o: Outcome)
    ensures After([], o) == o
  {
    if o.Ok? {
      assert [] + o.value.log == o.value.log;
    }
  }

  lemma {:induction false} AfterTwice(a: seq<Event>, b: seq<Event>, o: Outcome)
    ensures After(a, After(b, o)) == After(a + b, o)
  {
    if o.Ok? {
      assert a + (b + o.value.log) == a + b + o.value.log;
    }
  }

  lemma {:induction false} ReplayEnds(env: Env, st: Ledger, payload: Bytes, rest: seq<View>, cursor: nat,
                                      wallet: Address, pda: Option<Address>)
    requires cursor <= |rest|
    ensures Replay(env, st, 0, payload, rest, cursor, wallet, pda) ==
            if payload != [] || cursor != |rest| then Err(InvalidInstructionData) else Ok(Done(st, []))
  {
  }

  /** One turn of the replay loop, with the events so far kept in front. */
  lemma {:induction false} ReplayTurn(env: Env, st: Ledger, count: nat, payload: Bytes, rest: seq<View>, cursor: nat,
                                      wallet: Address, pda: Option<Address>, done: seq<Event>)
    requires count > 0 && cursor <= |rest|
    ensures var o := After(done, Replay(env, st, count, payload, rest, cursor, wallet, pda));
            match NextCpi(payload, rest, cursor)
            case Err(e) => o == Err(e)
            case Ok(cut) =>
              match InvokeCpi(env, st, cut.cpi, wallet, pda)
              case Err(e) => o == Err(e)
              case Ok(d) =>
                o == After(done + d.log, Replay(env, d.ledger, count - 1, cut.payload, rest, cut.cursor, wallet, pda))
  {
    if NextCpi(payload, rest, cursor).Ok? {
      var cut := NextCpi(payload, rest, cursor).value;
      if InvokeCpi(env, st, cut.cpi, wallet, pda).Ok? {
        var d := InvokeCpi(env, st, cut.cpi, wallet, pda).value;
        var tail := Replay(env, d.ledger, count - 1, cut.payload, rest, cut.cursor, wallet, pda);
        AfterTwice(done, d.log, tail);
        assert Replay(env, st, count, payload, rest, cursor, wallet, pda) == After(d.log, tail);
      }
    }
  }

  /** The transfer touches lamports only. */
  lemma {:induction false} FundedKeeps(env: Env, st: Ledger, payer: Address, wallet: Address)
    ensures Get(env, Funded(env, st, payer, wallet), wallet).data == Get(env, st, wallet).data
    ensures Get(env, Funded(env, st, payer, wallet), wallet).executable == Get(env, st, wallet).executable
  {
  }

  class Bank {
    const env: Env
    var ledger: Ledger
    ghost var log: seq<Event>

    constructor (env: Env, ledger: Ledger)
      ensures this.env == env && this.ledger == ledger && log == []
    {
      this.env, this.ledger, log := env, ledger, [];
    }

    /** The fields now hold what `o` says, on top of the log `before`. */
    ghost predicate Shows(o: Outcome, before: seq<Event>)
      reads this
    {
      o.Ok? ==> ledger == o.value.ledger && log == before + o.value.log
    }

    method Call(program: Address, views: seq<View>, data: Bytes) returns (r: Option<ProgramError>)
      modifies this
      ensures r == Verdict(Invoke(env, old(ledger), program, views, data))
      ensures Shows(Invoke(env, old(ledger), program, views, data), old(log))
      decreases |data|, 3
    {
      if program == env.programId {
        r := ProcessInstruction(views, data);
      } else {
        match env.foreign(ledger, program, views, data)
        case Err(e) => r := Some(e);
        case Ok(st') =>
          log := log + [Called(ledger, program, views, data, st')];
          ledger := st';
          r := None;
      }
    }

    /** A whole transaction: on an error everything is as it was. */
    method Submit(program: Address, views: seq<View>, data: Bytes) returns (r: Option<ProgramError>)
      modifies this
      ensures r == Verdict(Invoke(env, old(ledger), program, views, data))
      ensures r == None ==> Shows(Invoke(env, old(ledger), program, views, data), old(log))
      ensures r != None ==> ledger == old(ledger) && log == old(log)
    {
      var snapshot := ledger;
      ghost var logged := log;
      r := Call(program, views, data);
      if r != None {
        ledger := snapshot;
        log := logged;
      }
    }

    method RunWithdraw(views: seq<View>, arg: Bytes) returns (r: Option<ProgramError>)
      modifies this
      ensures r == Verdict(Withdraw(env, old(ledger), views, arg))
      ensures Shows(Withdraw(env, old(ledger), views, arg), old(log))
    {
      if |views| != 2 {
        return Some(NotEnoughAccountKeys);
      }
      var (w, receiver) := (views[0].address, views[1].address);
      if !views[0].isSigner {
        return Some(MissingRequiredSignature);
      }
      if Get(env, ledger, w).data == [] {
        return Some(InvalidAccountData);
      }
      if |arg| != 8 {
        return Some(InvalidInstructionData);
      }
      var amount := FromU64Le(arg);
      var balance := Get(env, ledger, w).lamports;
      if SaturatingSub(balance, amount) < env.rent {
        return Some(InsufficientFunds);
      }
      var before := ledger;
      ledger := SetLamports(env, ledger, w, SaturatingSub(balance, amount));
      ledger := SetLamports(env, ledger, receiver, SaturatingAdd(Get(env, ledger, receiver).lamports, amount));
      if !PermittedAt(env, before, ledger, views, w) || !PermittedAt(env, before, ledger, views, receiver) {
        return Some(RuntimeRejected);
      }
      log := log + [Withdrew(w)];
      r := None;
    }

    method RunClose(views: seq<View>, arg: Bytes) returns (r: Option<ProgramError>)
      modifies this
      ensures r == Verdict(Close(env, old(ledger), views, arg))
      ensures Shows(Close(env, old(ledger), views, arg), old(log))
    {
      if |views| != 2 {
        return Some(NotEnoughAccountKeys);
      }
      var (w, receiver) := (views[0].address, views[1].address);
      if !views[0].isSigner {
        return Some(MissingRequiredSignature);
      }
      if w == receiver {
        return Some(InvalidAccountData);
      }
      if Get(env, ledger, w).data == [] {
        return Some(InvalidAccountData);
      }
      if arg != [] {
        return Some(InvalidInstructionData);
      }
      var before := ledger;
      var balance := Get(env, ledger, w).lamports;
      ledger := SetLamports(env, ledger, receiver, SaturatingAdd(Get(env, ledger, receiver).lamports, balance));
      ledger := ledger[w := Account(0, [], env.systemId, Get(env, before, w).executable)];
      if !PermittedAt(env, before, ledger, views, w) || !PermittedAt(env, before, ledger, views, receiver) {
        return Some(RuntimeRejected);
      }
      log := log + [Closed(w)];
      r := None;
    }

    /** Complete the chains, merklize: the root a signature speaks for. */
    method RecoverRoot(sig: Scalars, parts: seq<Bytes>) returns (root: Digest)
      requires sig.Fits(SCALARS)
      ensures root == MerkleRoot(env.H, RecoverPubkey(env.H, sig, MessageDigest(env.H, parts, SCALARS)))
    {
      var pk := RecoverPubkeyPrehashed(env.H, sig, MessageDigest(env.H, parts, SCALARS));
      root := Merklize(env.H, pk);
    }

    /** Allocate, assign, and write the 65-byte view. */
    method WriteWallet(w: Address, data: Bytes)
      modifies this`ledger
      ensures var before := Get(env, old(ledger), w);
              ledger == old(ledger)[w := Account(before.lamports, data, env.programId, before.executable)]
    {
      ledger := ledger[w := Get(env, ledger, w).(data := Zeros(WALLET_LEN))];
      ledger := ledger[w := Get(env, ledger, w).(owner := env.programId)];
      ledger := ledger[w := Get(env, ledger, w).(data := data)];
    }

    /** The system program's transfer: the whole rent minimum to an unfunded address, else the shortfall. */
    method FundWallet(payer: View, w: Address) returns (r: Option<ProgramError>)
      modifies this`ledger
      ensures r == if Covers(env, old(ledger), payer, w) then None else Some(RuntimeRejected)
      ensures r == None ==> ledger == Funded(env, old(ledger), payer.address, w)
    {
      var balance := Get(env, ledger, w).lamports;
      if balance > 0 && balance >= env.rent {
        return None;
      }
      var shortfall := env.rent - balance;
      if payer.address == w {
        return if balance == 0 || shortfall > balance then Some(RuntimeRejected) else None;
      }
      if !CanPay(env, ledger, payer, shortfall) {
        return Some(RuntimeRejected);
      }
      if shortfall > 0 {
        ledger := SetLamports(env, ledger, payer.address, Get(env, ledger, payer.address).lamports - shortfall);
        ledger := SetLamports(env, ledger, w, balance + shortfall);
      }
      r := None;
    }

    method CreateAndInitialize(payer: View, wallet: View, data: Bytes) returns (r: Option<ProgramError>)
      modifies this
      ensures r == Verdict(CreateWallet(env, old(ledger), payer, wallet, data))
      ensures Shows(CreateWallet(env, old(ledger), payer, wallet, data), old(log))
    {
      if Get(env, ledger, wallet.address).data != [] || !wallet.isWritable {
        return Some(RuntimeRejected);
      }
      r := FundWallet(payer, wallet.address);
      if r != None {
        return;
      }
      FundedKeeps(env, old(ledger), payer.address, wallet.address);
      WriteWallet(wallet.address, data);
      log := log + [Created(wallet.address, payer.address, data)];
    }

    method RunInitialize(views: seq<View>, arg: Bytes) returns (r: Option<ProgramError>)
      modifies this
      ensures r == Verdict(Initialize(env, old(ledger), views, arg))
      ensures Shows(Initialize(env, old(ledger), views, arg), old(log))
    {
      if |views| != 3 {
        return Some(NotEnoughAccountKeys);
      }
      if Get(env, ledger, views[1].address).owner != env.systemId {
        return Some(InvalidAccountOwner);
      }
      if |arg| != SIGNATURE_LEN + 32 {
        return Some(InvalidInstructionData);
      }
      var sig := FromBytes(arg[..SIGNATURE_LEN], SCALARS).value;
      var id := RecoverRoot(sig, [Tag(ForInitialize)]);
      match env.findPda(id)
      case None => r := Some(InvalidSeeds);
      case Some((address, bump)) =>
        if address != views[1].address {
          return Some(InvalidSeeds);
        }
        r := CreateAndInitialize(views[0], views[1], WalletData(id, arg[SIGNATURE_LEN..], bump));
    }

    method ProcessInstruction(views: seq<View>, data: Bytes) returns (r: Option<ProgramError>)
      modifies this
      ensures r == Verdict(Process(env, old(ledger), views, data))
      ensures Shows(Process(env, old(ledger), views, data), old(log))
      decreases |data|, 2
    {
      if data == [] {
        return Some(InvalidInstructionData);
      }
      match data[0]
      case 0 => r := RunInitialize(views, data[1..]);
      case 1 => r := RunAdvance(views, data[1..]);
      case 2 => r := RunWithdraw(views, data[1..]);
      case 3 => r := RunClose(views, data[1..]);
      case _ => r := Some(InvalidInstructionData);
    }

    method RunAdvance(views: seq<View>, arg: Bytes) returns (r: Option<ProgramError>)
      modifies this
      ensures r == Verdict(Advance(env, old(ledger), views, arg))
      ensures Shows(Advance(env, old(ledger), views, arg), old(log))
      decreases |arg|, 1
    {
      if views == [] {
        return Some(NotEnoughAccountKeys);
      }
      if |arg| < SIGNATURE_LEN + 32 {
        return Some(InvalidInstructionData);
      }
      var sig := FromBytes(arg[..SIGNATURE_LEN], SCALARS).value;
      r := Execute(views[0], views[1..], sig, arg[SIGNATURE_LEN..SIGNATURE_LEN + 32], arg[SIGNATURE_LEN + 32..]);
    }

    method VerifySignature(c: Commitment, sig: Scalars) returns (r: Option<ProgramError>)
      requires sig.Fits(SCALARS)
      ensures r == if |c.addresses| > MAX_PASSTHROUGH_ACCOUNTS then Some(InvalidArgument)
                   else if !Verify(env.H, sig, Parts(c), c.currentRoot) then Some(MissingRequiredSignature)
                   else None
    {
      if |c.addresses| > MAX_PASSTHROUGH_ACCOUNTS {
        return Some(InvalidArgument);
      }
      var parts := ProgramParts(c);
      var root := RecoverRoot(sig, parts);
      if root != c.currentRoot {
        return Some(MissingRequiredSignature);
      }
      r := None;
    }

    /** The first half of `Advance::execute`: the root is rotated at once, and only then is the
        signature over the old root checked. */
    method RotateAndVerify(wallet: View, rest: seq<View>, sig: Scalars, newRoot: Digest, payload: Bytes)
        returns (r: Option<ProgramError>)
      requires sig.Fits(SCALARS)
      modifies this`ledger
      ensures r == AdvanceRefusal(env, old(ledger), wallet, rest, sig, newRoot, payload)
      ensures r == None ==> ledger == StoreRoot(env, old(ledger), wallet.address, newRoot)
    {
      var data := Get(env, ledger, wallet.address).data;
      if |data| != WALLET_LEN {
        return Some(InvalidAccountData);
      }
      var before := ledger;
      ledger := StoreRoot(env, ledger, wallet.address, newRoot);
      r := VerifySignature(CommitmentOf(data, newRoot, rest, payload), sig);
      if r != None {
        return;
      }
      if !PermittedAt(env, before, ledger, [wallet] + rest, wallet.address) {
        return Some(RuntimeRejected);
      }
      if payload == [] {
        return Some(InvalidInstructionData);
      }
    }

    /** `Advance::execute`: rotate and verify, then replay the payload instruction by instruction. */
    method Execute(wallet: View, rest: seq<View>, sig: Scalars, newRoot: Digest, payload: Bytes)
        returns (r: Option<ProgramError>)
      requires sig.Fits(SCALARS)
      modifies this
      ensures r == Verdict(AdvanceExecute(env, old(ledger), wallet, rest, sig, newRoot, payload))
      ensures Shows(AdvanceExecute(env, old(ledger), wallet, rest, sig, newRoot, payload), old(log))
      decreases |payload|, 1
    {
      var data := Get(env, ledger, wallet.address).data;
      r := RotateAndVerify(wallet, rest, sig, newRoot, payload);
      if r != None {
        return;
      }
      ghost var rotated := [Rotated(wallet.address, CommitmentOf(data, newRoot, rest, payload), sig)];
      log := log + rotated;
      r := ReplayAll(payload[0], payload[1..], rest, wallet.address, env.signerPda(IdOf(data), data[64]));
    }

    /** The loop of `execute`: as many instructions as announced, then nothing may be left over. */
    method ReplayAll(count: nat, payload: Bytes, rest: seq<View>, wallet: Address, pda: Option<Address>)
        returns (r: Option<ProgramError>)
      modifies this
      ensures r == Verdict(Replay(env, old(ledger), count, payload, rest, 0, wallet, pda))
      ensures Shows(Replay(env, old(ledger), count, payload, rest, 0, wallet, pda), old(log))
      decreases |payload|, 6
    {
      var left, cursor := payload, 0;
      ghost var o := Replay(env, ledger, count, payload, rest, 0, wallet, pda);
      AfterNothing(o);
      ghost var done: seq<Event> := [];
      for i := 0 to count
        invariant 0 <= cursor <= |rest| && |left| <= |payload|
        invariant log == old(log) + done
        invariant o == After(done, Replay(env, ledger, count - i, left, rest, cursor, wallet, pda))
      {
        r, left, cursor, done := ReplayNext(count - i, left, rest, cursor, wallet, pda, o, old(log), done);
        if r != None {
          return;
        }
      }
      ReplayEnds(env, ledger, left, rest, cursor, wallet, pda);
      if left != [] || cursor != |rest| {
        return Some(InvalidInstructionData);
      }
      r := None;
    }

    /** One turn of the loop: what is left to do after it continues what `o` began. */
    method ReplayNext(count: nat, payload: Bytes, rest: seq<View>, cursor: nat, wallet: Address, pda: Option<Address>,
                      ghost o: Outcome, ghost log0: seq<Event>, ghost done: seq<Event>)
        returns (r: Option<ProgramError>, payload': Bytes, cursor': nat, ghost done': seq<Event>)
      requires count > 0 && cursor <= |rest| && log == log0 + done
      requires o == After(done, Replay(env, ledger, count, payload, rest, cursor, wallet, pda))
      modifies this
      ensures r != None ==> o == Err(r.value)
      ensures r == None ==>
                && cursor' <= |rest| && |payload'| < |payload| && log == log0 + done'
                && o == After(done', Replay(env, ledger, count - 1, payload', rest, cursor', wallet, pda))
      decreases |payload|, 5
    {
      ghost var st := ledger;
      done' := done;
      r, payload', cursor' := InvokeNext(payload, rest, cursor, wallet, pda);
      ReplayTurn(env, st, count, payload, rest, cursor, wallet, pda, done);
      if r == None {
        done' := done + InvokeCpi(env, st, NextCpi(payload, rest, cursor).value.cpi, wallet, pda).value.log;
      }
    }

    method PromoteLoop(accounts: seq<View>, wallet: Address) returns (metas: seq<View>)
      ensures metas == Promote(accounts, wallet)
    {
      metas := [];
      for i := 0 to |accounts|
        invariant |metas| == i && forall k :: 0 <= k < i ==> metas[k] == Promote(accounts, wallet)[k]
      {
        var meta := accounts[i];
        if meta.address == wallet {
          meta := meta.(isSigner := true);
        }
        metas := metas + [meta];
      }
    }

    /** `invoke_next`: decode one instruction, take its accounts, promote the wallet, call. */
    method InvokeNext(payload: Bytes, remaining: seq<View>, cursor: nat, wallet: Address, pda: Option<Address>)
        returns (r: Option<ProgramError>, payload': Bytes, cursor': nat)
      requires cursor <= |remaining|
      modifies this
      ensures match NextCpi(payload, remaining, cursor)
              case Err(e) => r == Some(e)
              case Ok(cut) =>
                && r == Verdict(InvokeCpi(env, old(ledger), cut.cpi, wallet, pda))
                && Shows(InvokeCpi(env, old(ledger), cut.cpi, wallet, pda), old(log))
                && payload' == cut.payload && cursor' == cut.cursor
      decreases |payload|, 4
    {
      payload', cursor' := payload, cursor;
      if |payload'| == 0 {
        return Some(InvalidInstructionData), payload', cursor';
      }
      var numAccounts := payload'[0];
      payload' := payload'[1..];
      if |payload'| < 2 {
        return Some(InvalidInstructionData), payload', cursor';
      }
      var dataLen := FromU16Le(payload'[0], payload'[1]);
      payload' := payload'[2..];
      if numAccounts > MAX_CPI_ACCOUNTS || |payload'| < dataLen {
        return Some(InvalidInstructionData), payload', cursor';
      }
      var data := payload'[..dataLen];
      payload' := payload'[dataLen..];
      var end := cursor' + 1 + numAccounts as int;
      if end > |remaining| {
        return Some(NotEnoughAccountKeys), payload', cursor';
      }
      var program, accounts := remaining[cursor'], remaining[cursor' + 1..end];
      ghost var cut := NextCpi(payload, remaining, cursor).value;
      assert cut == Cut(Cpi(program, accounts, data), payload', end);
      cursor' := end;
      if !Get(env, ledger, program.address).executable {
        return Some(IncorrectProgramId), payload', cursor';
      }
      var metas := PromoteLoop(accounts, wallet);
      if !SignersGranted(accounts, wallet, pda) {
        return Some(RuntimeRejected), payload', cursor';
      }
      r := Call(program.address, metas, data);
    }
  }
}
