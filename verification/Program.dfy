/** The on-chain program over a ledger of accounts: what each instruction does, nested self-calls included. */
module Program {
  import opened Base
  import opened Winternitz
  import opened Encoding
  import opened Wire
  import opened Decode
  import opened Preimage

  const SCALARS := 22
  const SIGNATURE_LEN := 768
  const WALLET_LEN := 65

  datatype Account = Account(lamports: u64, data: Bytes, owner: Address, executable: bool)

  type Ledger = map<Address, Account>

  /** An account as one instruction is handed it. */
  datatype View = View(address: Address, isSigner: bool, isWritable: bool)

  /** Everything the program calls and does not define. `findPda` searches the bump, `signerPda` is the
      address that seeds with a given bump sign for, `foreign` runs any other program, which the runtime keeps
      from calling back into this one. */
  datatype Env = Env(
    H: Hash,
    programId: Address,
    systemId: Address,
    rent: u64,
    findPda: Digest -> Option<(Address, byte)>,
    signerPda: (Digest, byte) -> Option<Address>,
    foreign: (Ledger, Address, seq<View>, Bytes) -> Result<Ledger, ProgramError>)

  /** What happened, in the order it began. A call of another program is recorded with the ledger it
      found and the ledger it left. */
  datatype Event =
    | Created(wallet: Address, payer: Address, data: Bytes)
    | Rotated(wallet: Address, commitment: Commitment, signature: Scalars)
    | Withdrew(wallet: Address)
    | Closed(wallet: Address)
    | Called(before: Ledger, program: Address, views: seq<View>, arg: Bytes, left: Ledger)

  datatype Done = Done(ledger: Ledger, log: seq<Event>)

  type Outcome = Result<Done, ProgramError>

  function Get(env: Env, st: Ledger, a: Address): Account {
    if a in st then st[a] else Account(0, [], env.systemId, false)
  }

  // ---- The 65-byte account view ----

  function WalletData(id: Digest, root: Digest, bump: byte): (d: Bytes)
    ensures |d| == WALLET_LEN
  {
    id + root + [bump]
  }

  function IdOf(d: Bytes): Digest
    requires |d| == WALLET_LEN
  {
    d[..32]
  }

  function RootOf(d: Bytes): Digest
    requires |d| == WALLET_LEN
  {
    d[32..64]
  }

  function WithRoot(d: Bytes, root: Digest): (d': Bytes)
    requires |d| == WALLET_LEN
    ensures |d'| == WALLET_LEN && RootOf(d') == root && IdOf(d') == IdOf(d) && d'[64] == d[64]
  {
    d[..32] + root + d[64..]
  }

  /** The account data byte by byte, and what storing a root leaves alone. */
  lemma {:induction false} WalletLayout(id: Digest, root: Digest, bump: byte, newRoot: Digest)
    ensures var d := WalletData(id, root, bump);
            && |d| == 65 && d[..32] == id && d[32..64] == root && d[64] == bump
            && IdOf(d) == id && RootOf(d) == root && WithRoot(d, newRoot) == WalletData(id, newRoot, bump)
  {
    assert WalletData(id, root, bump)[64..] == [bump];
  }

  // ---- Runtime rules ----

  predicate Writable(views: seq<View>, a: Address) {
    exists i :: 0 <= i < |views| && views[i].address == a && views[i].isWritable
  }

  /** Only writable accounts change; only the owner debits, rewrites or reassigns. */
  predicate Permitted(env: Env, before: Account, after: Account, writable: bool) {
    before == after ||
    (writable &&
     (before.owner == env.programId ||
      (before.data == after.data && before.owner == after.owner && before.lamports <= after.lamports)))
  }

  predicate PermittedAt(env: Env, st: Ledger, st': Ledger, views: seq<View>, a: Address) {
    Permitted(env, Get(env, st, a), Get(env, st', a), Writable(views, a))
  }

  function SaturatingAdd(a: u64, b: u64): u64 {
    if a as int + b as int <= U64_MAX as int then a + b else U64_MAX
  }

  function SaturatingSub(a: u64, b: u64): u64 { if a >= b then a - b else 0 }

  function SetLamports(env: Env, st: Ledger, a: Address, lamports: u64): Ledger {
    st[a := Get(env, st, a).(lamports := lamports)]
  }

  // ---- Withdraw ----

  /** Both balances are read and written through the ledger, so the two accounts may be one. */
  function WithdrawExecute(env: Env, st: Ledger, views: seq<View>, amount: u64): Outcome
    requires |views| == 2
  {
    var (w, r) := (views[0].address, views[1].address);
    var left := SaturatingSub(Get(env, st, w).lamports, amount);
    if left < env.rent then Err(InsufficientFunds)
    else
      var st1 := SetLamports(env, st, w, left);
      var st2 := SetLamports(env, st1, r, SaturatingAdd(Get(env, st1, r).lamports, amount));
      if PermittedAt(env, st, st2, views, w) && PermittedAt(env, st, st2, views, r)
      then Ok(Done(st2, [Withdrew(w)]))
      else Err(RuntimeRejected)
  }

  function Withdraw(env: Env, st: Ledger, views: seq<View>, arg: Bytes): Outcome {
    if |views| != 2 then Err(NotEnoughAccountKeys)
    else if !views[0].isSigner then Err(MissingRequiredSignature)
    else if Get(env, st, views[0].address).data == [] then Err(InvalidAccountData)
    else if |arg| != 8 then Err(InvalidInstructionData)
    else WithdrawExecute(env, st, views, FromU64Le(arg))
  }

  // ---- Close ----

  function CloseExecute(env: Env, st: Ledger, views: seq<View>): Outcome
    requires |views| == 2
  {
    var (w, r) := (views[0].address, views[1].address);
    var st1 := SetLamports(env, st, r, SaturatingAdd(Get(env, st, r).lamports, Get(env, st, w).lamports));
    var st2 := st1[w := Account(0, [], env.systemId, Get(env, st, w).executable)];
    if PermittedAt(env, st, st2, views, w) && PermittedAt(env, st, st2, views, r)
    then Ok(Done(st2, [Closed(w)]))
    else Err(RuntimeRejected)
  }

  function Close(env: Env, st: Ledger, views: seq<View>, arg: Bytes): Outcome {
    if |views| != 2 then Err(NotEnoughAccountKeys)
    else if !views[0].isSigner then Err(MissingRequiredSignature)
    else if views[0].address == views[1].address then Err(InvalidAccountData)
    else if Get(env, st, views[0].address).data == [] then Err(InvalidAccountData)
    else if arg != [] then Err(InvalidInstructionData)
    else CloseExecute(env, st, views)
  }

  // ---- Initialize ----

  function RecoveredId(env: Env, sig: Scalars): Digest
    requires sig.Fits(SCALARS)
  {
    MerkleRoot(env.H, RecoverPubkey(env.H, sig, MessageDigest(env.H, [Tag(ForInitialize)], SCALARS)))
  }

  /** The system program's side: the payer signs, is a plain system account and covers the shortfall. */
  predicate CanPay(env: Env, st: Ledger, payer: View, amount: u64) {
    && payer.isSigner && payer.isWritable
    && Get(env, st, payer.address).owner == env.systemId
    && Get(env, st, payer.address).data == []
    && amount <= Get(env, st, payer.address).lamports
  }

  /** Whether the payer covers what the address lacks. A wallet may pay itself: the transfer then moves
      nothing, and an unfunded address is refused because it carries data by the time it pays. */
  predicate Covers(env: Env, st: Ledger, payer: View, wallet: Address) {
    var lamports := Get(env, st, wallet).lamports;
    var shortfall := SaturatingSub(env.rent, lamports);
    || (shortfall == 0 < lamports)
    || (if payer.address == wallet then shortfall <= lamports && lamports > 0 else CanPay(env, st, payer, shortfall))
  }

  /** The ledger after the transfer of the shortfall. */
  function Funded(env: Env, st: Ledger, payer: Address, wallet: Address): Ledger {
    var shortfall := SaturatingSub(env.rent, Get(env, st, wallet).lamports);
    if shortfall == 0 || payer == wallet then st
    else
      var st1 := SetLamports(env, st, payer, SaturatingSub(Get(env, st, payer).lamports, shortfall));
      SetLamports(env, st1, wallet, Get(env, st, wallet).lamports + shortfall)
  }

  /** Top the address up to the rent minimum, then allocate, assign and write it. */
  function CreateWallet(env: Env, st: Ledger, payer: View, wallet: View, data: Bytes): Outcome {
    var w := Get(env, st, wallet.address);
    if w.data != [] || !wallet.isWritable || !Covers(env, st, payer, wallet.address) then Err(RuntimeRejected)
    else
      var st1 := Funded(env, st, payer.address, wallet.address);
      var lamports := Get(env, st1, wallet.address).lamports;
      Ok(Done(st1[wallet.address := Account(lamports, data, env.programId, w.executable)],
              [Created(wallet.address, payer.address, data)]))
  }

  /** The wallet must be the address found for the recovered id. */
  function InitializeAs(env: Env, st: Ledger, payer: View, wallet: View, id: Digest, root: Digest): Outcome {
    match env.findPda(id)
    case None => Err(InvalidSeeds)
    case Some((address, bump)) =>
      if address != wallet.address then Err(InvalidSeeds)
      else CreateWallet(env, st, payer, wallet, WalletData(id, root, bump))
  }

  function Initialize(env: Env, st: Ledger, views: seq<View>, arg: Bytes): Outcome {
    if |views| != 3 then Err(NotEnoughAccountKeys)
    else if Get(env, st, views[1].address).owner != env.systemId then Err(InvalidAccountOwner)
    else if |arg| != SIGNATURE_LEN + 32 then Err(InvalidInstructionData)
    else
      var sig := FromBytes(arg[..SIGNATURE_LEN], SCALARS).value;
      InitializeAs(env, st, views[0], views[1], RecoveredId(env, sig), arg[SIGNATURE_LEN..])
  }

  // ---- Advance and nested calls ----

  function ViewAddresses(views: seq<View>): (a: seq<Address>)
    ensures |a| == |views| && forall i :: 0 <= i < |views| ==> a[i] == views[i].address
  {
    seq<Address>(|views|, i requires 0 <= i < |views| => views[i].address)
  }

  /** Every appearance of the wallet is handed on as a signer. */
  function Promote(views: seq<View>, wallet: Address): (p: seq<View>)
    ensures |p| == |views|
    ensures forall i :: 0 <= i < |views| ==>
              p[i] == views[i].(isSigner := views[i].isSigner || views[i].address == wallet)
  {
    seq(|views|, i requires 0 <= i < |views| =>
      views[i].(isSigner := views[i].isSigner || views[i].address == wallet))
  }

  /** The runtime refuses seeds that stand for no address; otherwise it grants the promotion if they sign for
      the wallet or the wallet signed already. */
  predicate SignersGranted(views: seq<View>, wallet: Address, pda: Option<Address>) {
    && pda.Some?
    && (pda.value == wallet || forall i :: 0 <= i < |views| && views[i].address == wallet ==> views[i].isSigner)
  }

  function Invoke(env: Env, st: Ledger, program: Address, views: seq<View>, data: Bytes): Outcome
    decreases |data|, 3
  {
    if program == env.programId then Process(env, st, views, data)
    else
      match env.foreign(st, program, views, data)
      case Err(e) => Err(e)
      case Ok(st') => Ok(Done(st', [Called(st, program, views, data, st')]))
  }

  function Process(env: Env, st: Ledger, views: seq<View>, data: Bytes): Outcome
    decreases |data|, 2
  {
    if data == [] then Err(InvalidInstructionData)
    else if data[0] == 0 then Initialize(env, st, views, data[1..])
    else if data[0] == 1 then Advance(env, st, views, data[1..])
    else if data[0] == 2 then Withdraw(env, st, views, data[1..])
    else if data[0] == 3 then Close(env, st, views, data[1..])
    else Err(InvalidInstructionData)
  }

  function Advance(env: Env, st: Ledger, views: seq<View>, arg: Bytes): Outcome
    decreases |arg|, 1
  {
    if views == [] then Err(NotEnoughAccountKeys)
    else if |arg| < SIGNATURE_LEN + 32 then Err(InvalidInstructionData)
    else
      AdvanceExecute(env, st, views[0], views[1..], FromBytes(arg[..SIGNATURE_LEN], SCALARS).value,
                     arg[SIGNATURE_LEN..SIGNATURE_LEN + 32], arg[SIGNATURE_LEN + 32..])
  }

  function CommitmentOf(data: Bytes, newRoot: Digest, rest: seq<View>, payload: Bytes): Commitment
    requires |data| == WALLET_LEN
  {
    Commitment(IdOf(data), RootOf(data), newRoot, ViewAddresses(rest), payload)
  }

  /** The ledger with the new root stored, before anything is verified or invoked. */
  function StoreRoot(env: Env, st: Ledger, wallet: Address, newRoot: Digest): Ledger
    requires |Get(env, st, wallet).data| == WALLET_LEN
  {
    st[wallet := Get(env, st, wallet).(data := WithRoot(Get(env, st, wallet).data, newRoot))]
  }

  /** The checks of an Advance, in order; the root over which the signature is checked is the old one. */
  function AdvanceRefusal(env: Env, st: Ledger, wallet: View, rest: seq<View>, sig: Scalars, newRoot: Digest,
                          payload: Bytes)
      : Option<ProgramError>
    requires sig.Fits(SCALARS)
  {
    var data := Get(env, st, wallet.address).data;
    if |data| != WALLET_LEN then Some(InvalidAccountData)
    else if |rest| > MAX_PASSTHROUGH_ACCOUNTS then Some(InvalidArgument)
    else if !Verify(env.H, sig, Parts(CommitmentOf(data, newRoot, rest, payload)), RootOf(data)) then
      Some(MissingRequiredSignature)
    else if !PermittedAt(env, st, StoreRoot(env, st, wallet.address, newRoot), [wallet] + rest, wallet.address) then
      Some(RuntimeRejected)
    else if payload == [] then Some(InvalidInstructionData)
    else None
  }

  function AdvanceExecute(env: Env, st: Ledger, wallet: View, rest: seq<View>, sig: Scalars, newRoot: Digest,
                          payload: Bytes): Outcome
    requires sig.Fits(SCALARS)
    decreases |payload|, 1
  {
    var refusal := AdvanceRefusal(env, st, wallet, rest, sig, newRoot, payload);
    if refusal.Some? then Err(refusal.value)
    else
      var data := Get(env, st, wallet.address).data;
      var c := CommitmentOf(data, newRoot, rest, payload);
      match Replay(env, StoreRoot(env, st, wallet.address, newRoot), payload[0], payload[1..], rest, 0,
                   wallet.address, env.signerPda(IdOf(data), data[64]))
      case Err(e) => Err(e)
      case Ok(d) => Ok(Done(d.ledger, [Rotated(wallet.address, c, sig)] + d.log))
  }

  function Replay(env: Env, st: Ledger, count: nat, payload: Bytes, rest: seq<View>, cursor: nat,
                  wallet: Address, pda: Option<Address>): Outcome
    requires cursor <= |rest|
    decreases |payload|, 0
  {
    if count == 0 then
      if payload != [] || cursor != |rest| then Err(InvalidInstructionData) else Ok(Done(st, []))
    else
      match NextCpi(payload, rest, cursor)
      case Err(e) => Err(e)
      case Ok(cut) =>
        match InvokeCpi(env, st, cut.cpi, wallet, pda)
        case Err(e) => Err(e)
        case Ok(d) =>
          match Replay(env, d.ledger, count - 1, cut.payload, rest, cut.cursor, wallet, pda)
          case Err(e) => Err(e)
          case Ok(d') => Ok(Done(d'.ledger, d.log + d'.log))
  }

  /** One decoded instruction: executable program, granted signers, then the call itself. */
  function InvokeCpi(env: Env, st: Ledger, cpi: Cpi<View>, wallet: Address, pda: Option<Address>): Outcome
    decreases |cpi.data|, 4
  {
    if !Get(env, st, cpi.program.address).executable then Err(IncorrectProgramId)
    else if !SignersGranted(cpi.accounts, wallet, pda) then Err(RuntimeRejected)
    else Invoke(env, st, cpi.program.address, Promote(cpi.accounts, wallet), cpi.data)
  }

  // ---- Transactions ----

  /** One instruction of a transaction. */
  datatype TopCall = TopCall(program: Address, views: seq<View>, data: Bytes)

  /** The instructions of a transaction, one after the other. */
  function InvokeAll(env: Env, st: Ledger, calls: seq<TopCall>): Outcome
    decreases |calls|
  {
    if calls == [] then Ok(Done(st, []))
    else
      match Invoke(env, st, calls[0].program, calls[0].views, calls[0].data)
      case Err(e) => Err(e)
      case Ok(d) =>
        match InvokeAll(env, d.ledger, calls[1..])
        case Err(e) => Err(e)
        case Ok(d') => Ok(Done(d'.ledger, d.log + d'.log))
  }

  /** What a transaction leaves: an error in any instruction rolls all of them back. */
  function Commit(env: Env, st: Ledger, calls: seq<TopCall>): Done {
    match InvokeAll(env, st, calls)
    case Ok(d) => d
    case Err(_) => Done(st, [])
  }

  // ---- Which check refuses a call ----

  /** The first of these that applies decides. */
  lemma {:induction false} WithdrawRefusals(env: Env, st: Ledger, views: seq<View>, amount: u64, arg: Bytes)
    ensures |views| != 2 ==> Process(env, st, views, [2] + arg) == Err(NotEnoughAccountKeys)
    ensures |views| == 2 && !views[0].isSigner ==> Process(env, st, views, [2] + arg) == Err(MissingRequiredSignature)
    ensures |views| == 2 && views[0].isSigner && Get(env, st, views[0].address).data == [] ==>
              Process(env, st, views, [2] + arg) == Err(InvalidAccountData)
    ensures |views| == 2 && views[0].isSigner && Get(env, st, views[0].address).data != [] && |arg| != 8 ==>
              Process(env, st, views, [2] + arg) == Err(InvalidInstructionData)
    ensures |views| == 2 && views[0].isSigner && Get(env, st, views[0].address).data != [] && arg == U64Le(amount) ==>
              var lamports := Get(env, st, views[0].address).lamports;
              Process(env, st, views, [2] + arg) == Err(InsufficientFunds) <==>
              lamports as int < amount as int + env.rent as int && env.rent > 0
  {
    assert ([2] + arg)[1..] == arg;
    assert Process(env, st, views, [2] + arg) == Withdraw(env, st, views, arg);
    U64RoundTrip(amount);
  }

  lemma {:induction false} CloseRefusals(env: Env, st: Ledger, views: seq<View>, arg: Bytes)
    ensures |views| != 2 ==> Process(env, st, views, [3] + arg) == Err(NotEnoughAccountKeys)
    ensures |views| == 2 && !views[0].isSigner ==> Process(env, st, views, [3] + arg) == Err(MissingRequiredSignature)
    ensures |views| == 2 && views[0].isSigner
            && (views[0].address == views[1].address || Get(env, st, views[0].address).data == []) ==>
              Process(env, st, views, [3] + arg) == Err(InvalidAccountData)
    ensures |views| == 2 && views[0].isSigner && views[0].address != views[1].address
            && Get(env, st, views[0].address).data != [] && arg != [] ==>
              Process(env, st, views, [3] + arg) == Err(InvalidInstructionData)
  {
    assert ([3] + arg)[1..] == arg;
    assert Process(env, st, views, [3] + arg) == Close(env, st, views, arg);
  }

  /** Who can pay for a creation, in plain numbers: nothing is missing, or the wallet pays itself at least half, or a
      signing system account has the rest. */
  lemma {:induction false} CoversIff(env: Env, st: Ledger, payer: View, wallet: Address)
    ensures var (have, has) := (Get(env, st, wallet).lamports as int, Get(env, st, payer.address));
            Covers(env, st, payer, wallet) <==>
            || (have >= env.rent as int && have > 0)
            || (payer.address == wallet && have > 0 && 2 * have >= env.rent as int)
            || (payer.address != wallet && payer.isSigner && payer.isWritable && has.owner == env.systemId
                && has.data == [] && has.lamports as int + have >= env.rent as int)
  {
  }

  lemma {:induction false} InitializeRefusals(env: Env, st: Ledger, views: seq<View>, arg: Bytes)
    ensures |views| != 3 ==> Process(env, st, views, [0] + arg) == Err(NotEnoughAccountKeys)
    ensures |views| == 3 && Get(env, st, views[1].address).owner != env.systemId ==>
              Process(env, st, views, [0] + arg) == Err(InvalidAccountOwner)
    ensures |views| == 3 && Get(env, st, views[1].address).owner == env.systemId && |arg| != 800 ==>
              Process(env, st, views, [0] + arg) == Err(InvalidInstructionData)
  {
    assert ([0] + arg)[1..] == arg;
    assert Process(env, st, views, [0] + arg) == Initialize(env, st, views, arg);
  }

  lemma {:induction false} AdvanceRefusals(env: Env, st: Ledger, views: seq<View>, arg: Bytes)
    ensures views == [] ==> Process(env, st, views, [1] + arg) == Err(NotEnoughAccountKeys)
    ensures views != [] && |arg| < 800 ==> Process(env, st, views, [1] + arg) == Err(InvalidInstructionData)
    ensures views != [] && |arg| >= 800 && |Get(env, st, views[0].address).data| != 65 ==>
              Process(env, st, views, [1] + arg) == Err(InvalidAccountData)
    ensures views != [] && |arg| >= 800 && |Get(env, st, views[0].address).data| == 65 && |views| > 129 ==>
              Process(env, st, views, [1] + arg) == Err(InvalidArgument)
  {
    assert ([1] + arg)[1..] == arg;
    assert Process(env, st, views, [1] + arg) == Advance(env, st, views, arg);
  }

  // ---- Taking a successful call apart ----

  lemma {:induction false} FoundData(env: Env, st: Ledger, payer: View, wallet: View, id: Digest,
                                     root: Digest) returns (data: Bytes)
    requires InitializeAs(env, st, payer, wallet, id, root).Ok?
    ensures |data| == WALLET_LEN
    ensures InitializeAs(env, st, payer, wallet, id, root) == CreateWallet(env, st, payer, wallet, data)
  {
    data := WalletData(id, root, env.findPda(id).value.1);
  }

  lemma {:induction false} InitializeParses(env: Env, st: Ledger, views: seq<View>, arg: Bytes) returns (data: Bytes)
    requires Initialize(env, st, views, arg).Ok?
    ensures |views| == 3 && Get(env, st, views[1].address).owner == env.systemId && |data| == WALLET_LEN
    ensures Initialize(env, st, views, arg) == CreateWallet(env, st, views[0], views[1], data)
  {
    var id, root := RecoveredId(env, FromBytes(arg[..SIGNATURE_LEN], SCALARS).value), arg[SIGNATURE_LEN..];
    data := FoundData(env, st, views[0], views[1], id, root);
  }

  lemma {:induction false} AdvanceParses(env: Env, st: Ledger, views: seq<View>, arg: Bytes)
      returns (sig: Scalars, newRoot: Digest, payload: Bytes)
    requires views != [] && |arg| >= SIGNATURE_LEN + 32
    ensures sig.Fits(SCALARS) && |payload| < |arg|
    ensures Advance(env, st, views, arg) == AdvanceExecute(env, st, views[0], views[1..], sig, newRoot, payload)
  {
    sig := FromBytes(arg[..SIGNATURE_LEN], SCALARS).value;
    newRoot, payload := arg[SIGNATURE_LEN..SIGNATURE_LEN + 32], arg[SIGNATURE_LEN + 32..];
  }

  lemma {:induction false} ExecuteStep(env: Env, st: Ledger, wallet: View, rest: seq<View>, sig: Scalars,
                                       newRoot: Digest, payload: Bytes)
      returns (signer: Option<Address>, d: Done)
    requires sig.Fits(SCALARS) && AdvanceExecute(env, st, wallet, rest, sig, newRoot, payload).Ok?
    ensures AdvanceRefusal(env, st, wallet, rest, sig, newRoot, payload).None?
    ensures payload != [] && |Get(env, st, wallet.address).data| == WALLET_LEN
    ensures signer == env.signerPda(IdOf(Get(env, st, wallet.address).data), Get(env, st, wallet.address).data[64])
    ensures var st1 := StoreRoot(env, st, wallet.address, newRoot);
            Replay(env, st1, payload[0], payload[1..], rest, 0, wallet.address, signer) == Ok(d)
    ensures var c := CommitmentOf(Get(env, st, wallet.address).data, newRoot, rest, payload);
            AdvanceExecute(env, st, wallet, rest, sig, newRoot, payload) ==
            Ok(Done(d.ledger, [Rotated(wallet.address, c, sig)] + d.log))
  {
    var data, st1 := Get(env, st, wallet.address).data, StoreRoot(env, st, wallet.address, newRoot);
    signer := env.signerPda(IdOf(data), data[64]);
    d := Replay(env, st1, payload[0], payload[1..], rest, 0, wallet.address, signer).value;
  }

  lemma {:induction false} ReplayStep(env: Env, st: Ledger, count: nat, payload: Bytes, rest: seq<View>, cursor: nat,
                                      wallet: Address, pda: Option<Address>)
      returns (cut: Cut<View>, d: Done, d': Done)
    requires cursor <= |rest| && count > 0 && Replay(env, st, count, payload, rest, cursor, wallet, pda).Ok?
    ensures NextCpi(payload, rest, cursor) == Ok(cut) && cut.cursor <= |rest|
    ensures |cut.payload| + |cut.cpi.data| < |payload|
    ensures InvokeCpi(env, st, cut.cpi, wallet, pda) == Ok(d)
    ensures Replay(env, d.ledger, count - 1, cut.payload, rest, cut.cursor, wallet, pda) == Ok(d')
    ensures Replay(env, st, count, payload, rest, cursor, wallet, pda) == Ok(Done(d'.ledger, d.log + d'.log))
  {
    cut := NextCpi(payload, rest, cursor).value;
    d := InvokeCpi(env, st, cut.cpi, wallet, pda).value;
    d' := Replay(env, d.ledger, count - 1, cut.payload, rest, cut.cursor, wallet, pda).value;
  }

  lemma {:induction false} InvokeAllStep(env: Env, st: Ledger, calls: seq<TopCall>) returns (d: Done, d': Done)
    requires calls != [] && InvokeAll(env, st, calls).Ok?
    ensures Invoke(env, st, calls[0].program, calls[0].views, calls[0].data) == Ok(d)
    ensures InvokeAll(env, d.ledger, calls[1..]) == Ok(d')
    ensures InvokeAll(env, st, calls) == Ok(Done(d'.ledger, d.log + d'.log))
  {
    d := Invoke(env, st, calls[0].program, calls[0].views, calls[0].data).value;
    d' := InvokeAll(env, d.ledger, calls[1..]).value;
  }

  /** A list that runs through runs through in two parts. */
  lemma {:induction false} InvokeAllParts(env: Env, st: Ledger, a: seq<TopCall>, b: seq<TopCall>)
      returns (d: Done, d': Done)
    requires InvokeAll(env, st, a + b).Ok?
    ensures InvokeAll(env, st, a) == Ok(d) && InvokeAll(env, d.ledger, b) == Ok(d')
    ensures InvokeAll(env, st, a + b) == Ok(Done(d'.ledger, d.log + d'.log))
    decreases |a|
  {
    if a == [] {
      assert a + b == b;
      d := Done(st, []);
      d' := InvokeAll(env, st, b).value;
      assert d.log + d'.log == d'.log;
    } else {
      assert (a + b)[0] == a[0] && (a + b)[1..] == a[1..] + b;
      var first, rest := InvokeAllStep(env, st, a + b);
      var e, e' := InvokeAllParts(env, first.ledger, a[1..], b);
      d, d' := Done(e.ledger, first.log + e.log), e';
      assert first.log + (e.log + e'.log) == first.log + e.log + e'.log;
    }
  }

  lemma {:induction false} InvokeAllOne(env: Env, st: Ledger, c: TopCall)
    ensures InvokeAll(env, st, [c]) == Invoke(env, st, c.program, c.views, c.data)
  {
    var o := Invoke(env, st, c.program, c.views, c.data);
    if o.Ok? {
      assert [c][1..] == [];
      assert InvokeAll(env, o.value.ledger, []) == Ok(Done(o.value.ledger, []));
      assert o.value.log + [] == o.value.log;
    }
  }
}
