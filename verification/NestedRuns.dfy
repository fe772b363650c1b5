/** Whole trees of nested calls, read as one linear history per wallet. */
module NestedRuns {
  import opened Base
  import opened Winternitz
  import opened Decode
  import opened Preimage
  import opened Program

  // ---- One address as a linear history ----

  /** What decides whose account an address holds and what it says. */
  datatype Cell = Cell(owner: Address, data: Bytes)

  function CellOf(env: Env, st: Ledger, a: Address): Cell { Cell(Get(env, st, a).owner, Get(env, st, a).data) }

  /** The event is an instruction of this program on `w`. */
  predicate About(e: Event, w: Address) { !e.Called? && e.wallet == w }

  /** What one event does to the cell of `w`; `None` when the event cannot happen there. A call of another
      program leaves whatever it leaves. */
  function Step(env: Env, c: Cell, w: Address, e: Event): Option<Cell> {
    match e
    case Called(before, _, _, _, left) => if CellOf(env, before, w) == c then Some(CellOf(env, left, w)) else None
    case Created(a, _, data) =>
      if a != w then Some(c)
      else if c == Cell(env.systemId, []) && |data| == WALLET_LEN then Some(Cell(env.programId, data)) else None
    case Rotated(a, m, _) =>
      if a != w then Some(c)
      else if |c.data| == WALLET_LEN && m.id == IdOf(c.data) && m.currentRoot == RootOf(c.data)
              && (c.owner == env.programId || m.newRoot == m.currentRoot) then
        Some(c.(data := WithRoot(c.data, m.newRoot)))
      else None
    case Withdrew(a) => if a != w || c.data != [] then Some(c) else None
    case Closed(a) =>
      if a != w then Some(c)
      else if c.data != [] && c.owner == env.programId then Some(Cell(env.systemId, [])) else None
  }

  function Fold(env: Env, c: Cell, w: Address, log: seq<Event>): Option<Cell>
    decreases |log|
  {
    if log == [] then Some(c)
    else
      var next := Step(env, c, w, log[0]);
      if next.None? then None else Fold(env, next.value, w, log[1..])
  }

  lemma {:induction false} FoldAppend(env: Env, c: Cell, w: Address, a: seq<Event>, b: seq<Event>)
    ensures Fold(env, c, w, a + b) ==
            if Fold(env, c, w, a).None? then None else Fold(env, Fold(env, c, w, a).value, w, b)
    decreases |a|
  {
    if a == [] {
      assert a + b == b;
    } else {
      assert (a + b)[1..] == a[1..] + b && (a + b)[0] == a[0];
      if Step(env, c, w, a[0]).Some? {
        FoldAppend(env, Step(env, c, w, a[0]).value, w, a[1..], b);
      }
    }
  }

  lemma {:induction false} FoldOne(env: Env, c: Cell, w: Address, e: Event)
    ensures Fold(env, c, w, [e]) == Step(env, c, w, e)
  {
    if Step(env, c, w, e).Some? {
      assert Fold(env, Step(env, c, w, e).value, w, [e][1..]) == Step(env, c, w, e);
    }
  }

  // ---- Every successful tree follows its history ----

  /** An Advance verified, over its own commitment, against the root it replaced; a call of another program
      did what that program does. */
  predicate Genuine(env: Env, e: Event) {
    match e
    case Rotated(_, m, sig) => sig.Fits(SCALARS) && Verify(env.H, sig, Parts(m), m.currentRoot)
    case Called(before, program, views, arg, left) => env.foreign(before, program, views, arg) == Ok(left)
    case _ => true
  }

  predicate Follows(env: Env, st: Ledger, o: Outcome, w: Address) {
    o.Ok? ==>
      && Fold(env, CellOf(env, st, w), w, o.value.log) == Some(CellOf(env, o.value.ledger, w))
      && forall e :: e in o.value.log ==> Genuine(env, e)
  }

  lemma {:induction false} WithdrawFollows(env: Env, st: Ledger, views: seq<View>, arg: Bytes, w: Address)
    ensures Follows(env, st, Withdraw(env, st, views, arg), w)
  {
    if |views| == 2 {
      FoldOne(env, CellOf(env, st, w), w, Withdrew(views[0].address));
    }
  }

  lemma {:induction false} CloseFollows(env: Env, st: Ledger, views: seq<View>, arg: Bytes, w: Address)
    ensures Follows(env, st, Close(env, st, views, arg), w)
  {
    if |views| == 2 {
      FoldOne(env, CellOf(env, st, w), w, Closed(views[0].address));
    }
  }

  lemma {:induction false} FundedKeepsCell(env: Env, st: Ledger, payer: Address, wallet: Address, w: Address)
    ensures CellOf(env, Funded(env, st, payer, wallet), w) == CellOf(env, st, w)
  {
  }

  lemma {:induction false} CreateFollows(env: Env, st: Ledger, payer: View, wallet: View, data: Bytes, w: Address)
    requires |data| == WALLET_LEN && Get(env, st, wallet.address).owner == env.systemId
    ensures Follows(env, st, CreateWallet(env, st, payer, wallet, data), w)
  {
    FundedKeepsCell(env, st, payer.address, wallet.address, w);
    FoldOne(env, CellOf(env, st, w), w, Created(wallet.address, payer.address, data));
  }

  lemma {:induction false} InitializeFollows(env: Env, st: Ledger, views: seq<View>, arg: Bytes, w: Address)
    ensures Follows(env, st, Initialize(env, st, views, arg), w)
  {
    if Initialize(env, st, views, arg).Ok? {
      var data := InitializeParses(env, st, views, arg);
      CreateFollows(env, st, views[0], views[1], data, w);
    }
  }

  lemma {:induction false} ForeignFollows(env: Env, st: Ledger, program: Address, views: seq<View>, data: Bytes,
                                          w: Address)
    requires program != env.programId
    ensures Follows(env, st, Invoke(env, st, program, views, data), w)
  {
    var o := Invoke(env, st, program, views, data);
    if o.Ok? {
      FoldOne(env, CellOf(env, st, w), w, Called(st, program, views, data, o.value.ledger));
    }
  }

  /** The main result: over every successful tree of calls, whatever other programs do in it, every address
      holds what the linear history of the tree makes of it, and every Advance of the tree verified. */
  lemma {:induction false} InvokeFollows(env: Env, st: Ledger, program: Address, views: seq<View>, data: Bytes,
                                         w: Address)
    ensures Follows(env, st, Invoke(env, st, program, views, data), w)
    decreases |data|, 3
  {
    if program == env.programId {
      ProcessFollows(env, st, views, data, w);
    } else {
      ForeignFollows(env, st, program, views, data, w);
    }
  }

  lemma {:induction false} ProcessFollows(env: Env, st: Ledger, views: seq<View>, data: Bytes, w: Address)
    ensures Follows(env, st, Process(env, st, views, data), w)
    decreases |data|, 2
  {
    if data != [] {
      match data[0]
      case 0 => InitializeFollows(env, st, views, data[1..], w);
      case 1 => AdvanceFollows(env, st, views, data[1..], w);
      case 2 => WithdrawFollows(env, st, views, data[1..], w);
      case 3 => CloseFollows(env, st, views, data[1..], w);
      case _ =>
    }
  }

  lemma {:induction false} AdvanceFollows(env: Env, st: Ledger, views: seq<View>, arg: Bytes, w: Address)
    ensures Follows(env, st, Advance(env, st, views, arg), w)
    decreases |arg|, 1
  {
    if Advance(env, st, views, arg).Ok? {
      var sig, newRoot, payload := AdvanceParses(env, st, views, arg);
      ExecuteFollows(env, st, views[0], views[1..], sig, newRoot, payload, w);
    }
  }

  lemma {:induction false} RotationSteps(env: Env, st: Ledger, wallet: View, rest: seq<View>, sig: Scalars,
                                         newRoot: Digest, payload: Bytes, w: Address)
    requires sig.Fits(SCALARS) && AdvanceRefusal(env, st, wallet, rest, sig, newRoot, payload).None?
    ensures var c := CommitmentOf(Get(env, st, wallet.address).data, newRoot, rest, payload);
            && Step(env, CellOf(env, st, w), w, Rotated(wallet.address, c, sig))
               == Some(CellOf(env, StoreRoot(env, st, wallet.address, newRoot), w))
            && Genuine(env, Rotated(wallet.address, c, sig))
  {
    var d := Get(env, st, wallet.address).data;
    assert RootOf(WithRoot(d, newRoot)) == newRoot;
  }

  lemma {:induction false} Prepend(env: Env, c: Cell, c1: Cell, w: Address, e: Event, inner: seq<Event>)
    requires Step(env, c, w, e) == Some(c1)
    ensures Fold(env, c, w, [e] + inner) == Fold(env, c1, w, inner)
  {
    assert ([e] + inner)[1..] == inner;
  }

  lemma {:induction false} ExecuteFollows(env: Env, st: Ledger, wallet: View, rest: seq<View>, sig: Scalars,
                                          newRoot: Digest, payload: Bytes, w: Address)
    requires sig.Fits(SCALARS)
    ensures Follows(env, st, AdvanceExecute(env, st, wallet, rest, sig, newRoot, payload), w)
    decreases |payload|, 1
  {
    if AdvanceExecute(env, st, wallet, rest, sig, newRoot, payload).Ok? {
      var signer, d := ExecuteStep(env, st, wallet, rest, sig, newRoot, payload);
      var c := CommitmentOf(Get(env, st, wallet.address).data, newRoot, rest, payload);
      var st1 := StoreRoot(env, st, wallet.address, newRoot);
      ReplayFollows(env, st1, payload[0], payload[1..], rest, 0, wallet.address, signer, w);
      RotationSteps(env, st, wallet, rest, sig, newRoot, payload, w);
      Prepend(env, CellOf(env, st, w), CellOf(env, st1, w), w, Rotated(wallet.address, c, sig), d.log);
    }
  }

  lemma {:induction false} FollowsThrough(env: Env, st: Ledger, d: Done, d': Done, w: Address)
    requires Follows(env, st, Ok(d), w) && Follows(env, d.ledger, Ok(d'), w)
    ensures Follows(env, st, Ok(Done(d'.ledger, d.log + d'.log)), w)
  {
    FoldAppend(env, CellOf(env, st, w), w, d.log, d'.log);
  }

  lemma {:induction false} ReplayFollows(env: Env, st: Ledger, count: nat, payload: Bytes, rest: seq<View>, cursor: nat,
                                         wallet: Address, pda: Option<Address>, w: Address)
    requires cursor <= |rest|
    ensures Follows(env, st, Replay(env, st, count, payload, rest, cursor, wallet, pda), w)
    decreases |payload|, 0
  {
    if count > 0 && Replay(env, st, count, payload, rest, cursor, wallet, pda).Ok? {
      var cut, d, d' := ReplayStep(env, st, count, payload, rest, cursor, wallet, pda);
      CpiFollows(env, st, cut.cpi, wallet, pda, w);
      ReplayFollows(env, d.ledger, count - 1, cut.payload, rest, cut.cursor, wallet, pda, w);
      FollowsThrough(env, st, d, d', w);
    }
  }

  lemma {:induction false} CpiFollows(env: Env, st: Ledger, cpi: Cpi<View>, wallet: Address, pda: Option<Address>,
                                      w: Address)
    ensures Follows(env, st, InvokeCpi(env, st, cpi, wallet, pda), w)
    decreases |cpi.data|, 4
  {
    InvokeFollows(env, st, cpi.program.address, Promote(cpi.accounts, wallet), cpi.data, w);
  }

  /** The same over a whole transaction. */
  lemma {:induction false} InvokeAllFollows(env: Env, st: Ledger, calls: seq<TopCall>, w: Address)
    ensures Follows(env, st, InvokeAll(env, st, calls), w)
    decreases |calls|
  {
    if calls != [] && InvokeAll(env, st, calls).Ok? {
      var d, d' := InvokeAllStep(env, st, calls);
      InvokeFollows(env, st, calls[0].program, calls[0].views, calls[0].data, w);
      InvokeAllFollows(env, d.ledger, calls[1..], w);
      FollowsThrough(env, st, d, d', w);
    }
  }

  lemma {:induction false} FoldLast(env: Env, c: Cell, w: Address, log: seq<Event>)
    requires log != [] && Fold(env, c, w, log).Some?
    ensures Fold(env, c, w, log[..|log| - 1]).Some?
    ensures Fold(env, c, w, log) == Step(env, Fold(env, c, w, log[..|log| - 1]).value, w, log[|log| - 1])
  {
    var n := |log| - 1;
    assert log == log[..n] + [log[n]];
    FoldAppend(env, c, w, log[..n], [log[n]]);
    if Fold(env, c, w, log[..n]).Some? {
      FoldOne(env, Fold(env, c, w, log[..n]).value, w, log[n]);
    }
  }

  lemma {:induction false} FoldPrefix(env: Env, c: Cell, w: Address, log: seq<Event>, k: nat)
    requires k <= |log| && Fold(env, c, w, log).Some?
    ensures Fold(env, c, w, log[..k]).Some?
    ensures Fold(env, Fold(env, c, w, log[..k]).value, w, log[k..]) == Fold(env, c, w, log)
  {
    assert log == log[..k] + log[k..];
    FoldAppend(env, c, w, log[..k], log[k..]);
  }

  // ---- The runtime's rule for other programs ----

  predicate AllZero(data: Bytes) { forall i :: 0 <= i < |data| ==> data[i] == 0 }

  /** Only the owner rewrites or hands over an account, and what is handed over is zeroed. */
  predicate Respects(env: Env, before: Cell, left: Cell) {
    && (before.owner == env.programId ==> left == before)
    && (left.owner == env.programId ==> left == before || AllZero(left.data))
  }

  /** Every call of another program in the log kept to the rule at `w`. */
  predicate Lawful(env: Env, w: Address, log: seq<Event>) {
    forall e :: e in log && e.Called? ==> Respects(env, CellOf(env, e.before, w), CellOf(env, e.left, w))
  }

  /** A runtime that keeps to the rule on every call makes every log lawful. */
  ghost predicate RuntimeLawful(env: Env) {
    forall st, program, views, data, w: Address ::
      env.foreign(st, program, views, data).Ok? ==>
        Respects(env, CellOf(env, st, w), CellOf(env, env.foreign(st, program, views, data).value, w))
  }

  lemma {:induction false} GenuineIsLawful(env: Env, w: Address, log: seq<Event>)
    requires RuntimeLawful(env) && forall e :: e in log ==> Genuine(env, e)
    ensures Lawful(env, w, log)
  {
    forall e | e in log && e.Called?
      ensures Respects(env, CellOf(env, e.before, w), CellOf(env, e.left, w))
    {
      assert Genuine(env, e);
    }
  }

  lemma {:induction false} TreesAreLawful(env: Env, st: Ledger, program: Address, views: seq<View>, data: Bytes,
                                          w: Address)
    requires RuntimeLawful(env) && Invoke(env, st, program, views, data).Ok?
    ensures Lawful(env, w, Invoke(env, st, program, views, data).value.log)
  {
    InvokeFollows(env, st, program, views, data, w);
    GenuineIsLawful(env, w, Invoke(env, st, program, views, data).value.log);
  }

  // ---- A live wallet ----

  predicate LiveWallet(env: Env, c: Cell) { c.owner == env.programId && |c.data| == WALLET_LEN }

  predicate NeverClosed(w: Address, log: seq<Event>) { Closed(w) !in log }

  predicate Advances(e: Event, w: Address) { e.Rotated? && e.wallet == w }

  /** The root last written to `w` by an Advance, starting from `r`. */
  function LastRoot(r: Digest, w: Address, log: seq<Event>): Digest {
    if log == [] then r
    else
      var e := log[|log| - 1];
      if Advances(e, w) then e.commitment.newRoot else LastRoot(r, w, log[..|log| - 1])
  }

  predicate Advanced(w: Address, log: seq<Event>) { exists e :: e in log && Advances(e, w) }

  lemma {:induction false} LastRootUnadvanced(r: Digest, w: Address, log: seq<Event>)
    requires !Advanced(w, log)
    ensures LastRoot(r, w, log) == r
    decreases |log|
  {
    if log != [] {
      var n := |log| - 1;
      assert log[n] in log && !Advances(log[n], w);
      LastRootUnadvanced(r, w, log[..n]);
    }
  }

  /** Until it is closed a wallet stays this program's, keeps its id and bump, and its stored root is the one
      last written by an Advance. */
  lemma {:induction false} StoredRootIsLast(env: Env, c: Cell, w: Address, log: seq<Event>)
    requires LiveWallet(env, c) && Fold(env, c, w, log).Some? && Lawful(env, w, log) && NeverClosed(w, log)
    ensures var c' := Fold(env, c, w, log).value;
            && LiveWallet(env, c') && IdOf(c'.data) == IdOf(c.data) && c'.data[64] == c.data[64]
            && RootOf(c'.data) == LastRoot(RootOf(c.data), w, log)
    decreases |log|
  {
    if log != [] {
      FoldLast(env, c, w, log);
      var n := |log| - 1;
      assert forall e :: e in log[..n] ==> e in log;
      assert log[n] in log;
      StoredRootIsLast(env, c, w, log[..n]);
    }
  }

  /** The k-th event, an Advance of a wallet not closed before, replaced the root that its previous Advance wrote. */
  lemma {:induction false} AdvancesChain(env: Env, c: Cell, w: Address, log: seq<Event>, k: nat)
    requires LiveWallet(env, c) && Fold(env, c, w, log).Some? && Lawful(env, w, log)
    requires k < |log| && log[k].Rotated? && log[k].wallet == w && NeverClosed(w, log[..k])
    ensures log[k].commitment.id == IdOf(c.data)
    ensures log[k].commitment.currentRoot == LastRoot(RootOf(c.data), w, log[..k])
  {
    FoldPrefix(env, c, w, log, k);
    assert forall e :: e in log[..k] ==> e in log;
    StoredRootIsLast(env, c, w, log[..k]);
    assert log[k..][0] == log[k];
  }

  // ---- After a Close ----

  /** Gives an empty address data again: Initialize, or another program allocating it. */
  predicate Revives(env: Env, e: Event, w: Address) {
    match e
    case Created(a, _, _) => a == w
    case Called(before, _, _, _, left) => Get(env, before, w).data == [] && Get(env, left, w).data != []
    case _ => false
  }

  /** On an address without data nothing happens before something revives it. */
  lemma {:induction false} QuietUntilRevived(env: Env, c: Cell, w: Address, log: seq<Event>, j: nat) returns (i: nat)
    requires c.data == [] && Fold(env, c, w, log).Some? && j < |log| && About(log[j], w)
    ensures i <= j && Revives(env, log[i], w)
    decreases |log|
  {
    if Revives(env, log[0], w) {
      i := 0;
    } else {
      i := QuietUntilRevived(env, Step(env, c, w, log[0]).value, w, log[1..], j - 1);
      i := i + 1;
    }
  }

  lemma {:induction false} ClosedCell(env: Env, c: Cell, w: Address, log: seq<Event>, k: nat)
    requires Fold(env, c, w, log).Some? && k < |log| && log[k] == Closed(w)
    ensures Fold(env, Cell(env.systemId, []), w, log[k + 1..]) == Fold(env, c, w, log)
  {
    FoldPrefix(env, c, w, log, k);
    assert log[k..][0] == log[k] && log[k..][1..] == log[k + 1..];
  }

  /** After an inner Close nothing in the tree happens to that wallet, unless it was given data again in between.
      Nothing is assumed of other programs. */
  lemma {:induction false} NothingAfterClose(env: Env, c: Cell, w: Address, log: seq<Event>, k: nat,
                                             j: nat) returns (i: nat)
    requires Fold(env, c, w, log).Some?
    requires k < j < |log| && log[k] == Closed(w) && About(log[j], w)
    ensures k < i <= j && Revives(env, log[i], w)
  {
    ClosedCell(env, c, w, log, k);
    assert log[k + 1..][j - k - 1] == log[j];
    i := QuietUntilRevived(env, Cell(env.systemId, []), w, log[k + 1..], j - k - 1);
    i := i + k + 1;
  }

  predicate SelfCallsOnly(log: seq<Event>) { forall e :: e in log ==> !e.Called? }

  predicate NeverCreated(w: Address, log: seq<Event>) {
    forall e :: e in log ==> !(e.Created? && e.wallet == w)
  }

  /** In a tree of self-calls that does not initialise the wallet again, nothing happens to it after its Close. */
  lemma {:induction false} SelfCallsEndAtClose(env: Env, c: Cell, w: Address, log: seq<Event>, k: nat, j: nat)
    requires Fold(env, c, w, log).Some? && SelfCallsOnly(log) && NeverCreated(w, log)
    requires k < j < |log| && log[k] == Closed(w)
    ensures !About(log[j], w)
  {
    forall i | 0 <= i < |log|
      ensures !Revives(env, log[i], w)
    {
      assert log[i] in log;
    }
    if About(log[j], w) {
      var i := NothingAfterClose(env, c, w, log, k, j);
    }
  }

  /** An Advance of `w` that was signed for the all-zero root of the all-zero id. */
  predicate ZeroRootSigned(w: Address, log: seq<Event>) {
    exists e :: e in log && e.Rotated? && e.wallet == w && e.commitment.id == Zeros(32)
                && e.commitment.currentRoot == Zeros(32)
  }

  /** What this program may own there without having written it: zeros, and the root only if an Advance was
      signed for the all-zero root. */
  predicate Blank(env: Env, c: Cell, w: Address, log: seq<Event>) {
    LiveWallet(env, c) ==> IdOf(c.data) == Zeros(32) && (RootOf(c.data) == Zeros(32) || ZeroRootSigned(w, log))
  }

  lemma {:induction false} BlankGrows(env: Env, c: Cell, w: Address, log: seq<Event>, e: Event)
    requires Blank(env, c, w, log)
    ensures Blank(env, c, w, log + [e])
  {
    assert forall x :: x in log ==> x in log + [e];
  }

  lemma {:induction false} BlankStep(env: Env, c: Cell, w: Address, log: seq<Event>, e: Event)
    requires env.systemId != env.programId && Blank(env, c, w, log) && Step(env, c, w, e).Some?
    requires e.Called? ==> Respects(env, CellOf(env, e.before, w), CellOf(env, e.left, w))
    requires !(e.Created? && e.wallet == w)
    ensures Blank(env, Step(env, c, w, e).value, w, log + [e])
  {
    BlankGrows(env, c, w, log, e);
    assert e in log + [e];
    var c' := Step(env, c, w, e).value;
    if e.Called? && c' != c && LiveWallet(env, c') {
      assert AllZero(c'.data);
      assert IdOf(c'.data) == Zeros(32) && RootOf(c'.data) == Zeros(32);
    }
  }

  lemma {:induction false} StaysBlank(env: Env, c: Cell, w: Address, log: seq<Event>)
    requires env.systemId != env.programId && c.data == [] && Fold(env, c, w, log).Some?
    requires Lawful(env, w, log) && NeverCreated(w, log)
    ensures Blank(env, Fold(env, c, w, log).value, w, log)
    decreases |log|
  {
    if log != [] {
      var n := |log| - 1;
      FoldLast(env, c, w, log);
      assert forall e :: e in log[..n] ==> e in log;
      assert log[n] in log && log == log[..n] + [log[n]];
      StaysBlank(env, c, w, log[..n]);
      BlankStep(env, Fold(env, c, w, log[..n]).value, w, log[..n], log[n]);
    }
  }

  /** The closed wallet's id and root never come back: whatever other programs do to the address, as long as
      it is not initialised again this program owns there no wallet but an all-zero one. */
  lemma {:induction false} OldWalletStaysGone(env: Env, c: Cell, w: Address, log: seq<Event>, k: nat)
    requires env.systemId != env.programId && Fold(env, c, w, log).Some? && Lawful(env, w, log)
    requires k < |log| && log[k] == Closed(w) && NeverCreated(w, log[k + 1..])
    ensures Blank(env, Fold(env, c, w, log).value, w, log[k + 1..])
  {
    ClosedCell(env, c, w, log, k);
    assert forall e :: e in log[k + 1..] ==> e in log;
    StaysBlank(env, Cell(env.systemId, []), w, log[k + 1..]);
  }

  /** A wallet without data refuses every Advance, Withdraw and Close. */
  lemma {:induction false} DeadWalletRefuses(env: Env, st: Ledger, views: seq<View>, data: Bytes)
    requires views != [] && Get(env, st, views[0].address).data == []
    requires data != [] && (data[0] == 1 || data[0] == 2 || data[0] == 3)
    ensures Process(env, st, views, data).Err?
  {
    if data[0] == 1 && |data[1..]| >= SIGNATURE_LEN + 32 {
      var sig, newRoot, payload := AdvanceParses(env, st, views, data[1..]);
    }
  }

  // ---- One tree of calls ----

  predicate Chained(env: Env, c: Cell, w: Address, log: seq<Event>)
    requires |c.data| == WALLET_LEN
  {
    forall k :: 0 <= k < |log| && log[k].Rotated? && log[k].wallet == w && NeverClosed(w, log[..k]) ==>
      && Genuine(env, log[k])
      && log[k].commitment.id == IdOf(c.data)
      && log[k].commitment.currentRoot == LastRoot(RootOf(c.data), w, log[..k])
  }

  lemma {:induction false} HistoryChains(env: Env, c: Cell, w: Address, log: seq<Event>)
    requires LiveWallet(env, c) && Fold(env, c, w, log).Some? && Lawful(env, w, log)
    requires forall e :: e in log ==> Genuine(env, e)
    ensures Chained(env, c, w, log)
  {
    forall k | 0 <= k < |log| && log[k].Rotated? && log[k].wallet == w && NeverClosed(w, log[..k])
      ensures Genuine(env, log[k]) && log[k].commitment.id == IdOf(c.data)
      ensures log[k].commitment.currentRoot == LastRoot(RootOf(c.data), w, log[..k])
    {
      AdvancesChain(env, c, w, log, k);
      assert log[k] in log;
    }
  }

  /** Everything at once, from the cell a live wallet began with to the one it ended with. */
  predicate Historic(env: Env, c: Cell, c': Cell, w: Address, log: seq<Event>)
    requires LiveWallet(env, c)
  {
    && Chained(env, c, w, log)
    && (NeverClosed(w, log) ==>
          && LiveWallet(env, c') && IdOf(c'.data) == IdOf(c.data)
          && RootOf(c'.data) == LastRoot(RootOf(c.data), w, log))
    && forall k :: 0 <= k < |log| && log[k] == Closed(w) && NeverCreated(w, log[k + 1..]) ==>
         Blank(env, c', w, log[k + 1..])
  }

  lemma {:induction false} HistoryHolds(env: Env, st: Ledger, d: Done, w: Address)
    requires env.systemId != env.programId && LiveWallet(env, CellOf(env, st, w))
    requires Follows(env, st, Ok(d), w) && Lawful(env, w, d.log)
    ensures Historic(env, CellOf(env, st, w), CellOf(env, d.ledger, w), w, d.log)
  {
    var c := CellOf(env, st, w);
    HistoryChains(env, c, w, d.log);
    if NeverClosed(w, d.log) {
      StoredRootIsLast(env, c, w, d.log);
    }
    forall k | 0 <= k < |d.log| && d.log[k] == Closed(w) && NeverCreated(w, d.log[k + 1..])
      ensures Blank(env, CellOf(env, d.ledger, w), w, d.log[k + 1..])
    {
      OldWalletStaysGone(env, c, w, d.log, k);
    }
  }

  /** For a wallet that was live when the tree of calls began. Of other programs only the runtime's rule is used. */
  lemma {:induction false} TreeHistory(env: Env, st: Ledger, program: Address, views: seq<View>, data: Bytes,
                                       w: Address)
    requires env.systemId != env.programId && LiveWallet(env, CellOf(env, st, w))
    requires Invoke(env, st, program, views, data).Ok?
    requires Lawful(env, w, Invoke(env, st, program, views, data).value.log)
    ensures var d := Invoke(env, st, program, views, data).value;
            Historic(env, CellOf(env, st, w), CellOf(env, d.ledger, w), w, d.log)
  {
    InvokeFollows(env, st, program, views, data, w);
    HistoryHolds(env, st, Invoke(env, st, program, views, data).value, w);
  }

  /** The same for a transaction of any number of instructions, each with its own tree. */
  lemma {:induction false} TransactionHistory(env: Env, st: Ledger, calls: seq<TopCall>, w: Address)
    requires env.systemId != env.programId && LiveWallet(env, CellOf(env, st, w))
    requires InvokeAll(env, st, calls).Ok? && Lawful(env, w, InvokeAll(env, st, calls).value.log)
    ensures var d := InvokeAll(env, st, calls).value;
            Historic(env, CellOf(env, st, w), CellOf(env, d.ledger, w), w, d.log)
  {
    InvokeAllFollows(env, st, calls, w);
    HistoryHolds(env, st, InvokeAll(env, st, calls).value, w);
  }
}
