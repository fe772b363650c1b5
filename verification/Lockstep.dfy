/** The chain and the state file move together, each sent instruction runs at most once, and
    exactly what `recover` may undo. */
module Lockstep {
  import opened Base
  import opened Protocol

  /** Different positions commit to different roots, as far as positions go. */
  predicate Distinct(w: Wallet) {
    w.limit >= 1 && forall i, j :: 0 <= i < j <= w.limit ==> w.rootAt(i) != w.rootAt(j)
  }

  /** None of these instructions is accepted while the root of another position is stored. */
  predicate Sound(w: Wallet, sent: set<Message>) {
    forall m, j :: m in sent && 0 <= j <= w.limit && w.accepts(m, w.rootAt(j)) ==> w.rootAt(j) == w.rootAt(m.position)
  }

  predicate WellFormed(w: Wallet, m: Message) {
    && m.newRoot == w.rootAt(m.position + 1)
    && (m.kind == Initialize <==> m.position == 0)
    && m.position + 1 <= w.limit
  }

  /** A message under way was signed at a position the chain has reached. */
  predicate PhaseReached(w: Wallet, s: State, phase: Phase) {
    match phase
    case Idle => true
    case Started(_) => true
    case Loaded(cmd, q) => q + 1 <= w.limit && (cmd.kind == Initialize <==> q == 0)
    case Fetched(cmd, q, r) => q + 1 <= w.limit && 0 < q && cmd.kind != Initialize && r in s.history
    case Signed(m) => WellFormed(w, m) && m.position <= |s.executed|
    case Renamed(m) => WellFormed(w, m) && m.position <= |s.executed|
    case Persisted(m) => WellFormed(w, m) && m.position <= |s.executed|
  }

  predicate FileNear(w: Wallet, file: Option<nat>, reached: nat) {
    file.Some? ==> 1 <= file.value <= w.limit && file.value <= reached + 1
  }

  /** The stored root is the one after the last executed instruction. */
  predicate ChainOk(w: Wallet, s: State) {
    && (forall k :: 0 <= k < |s.executed| ==> s.executed[k] in s.sent && s.executed[k].position == k)
    && (match s.chain
        case Absent => s.executed == [] && s.history == []
        case Live(r) => |s.history| == |s.executed| > 0 && r == w.rootAt(|s.executed|)
        case Gone => |s.history| + 1 == |s.executed|)
    && forall k :: 0 <= k < |s.history| ==> s.history[k] == w.rootAt(k + 1)
  }

  predicate Together(w: Wallet, s: State) {
    && Inv(s)
    && ChainOk(w, s)
    && FileNear(w, s.file, |s.executed|) && FileNear(w, s.disk, |s.executed|)
    && (forall m :: m in s.sent ==> WellFormed(w, m))
    && forall p :: p in s.phases ==> PhaseReached(w, s, s.phases[p])
  }

  /** What was executed was sent, and what was sent is safe on disk. */
  lemma {:induction false} ExecutedOnDisk(w: Wallet, s: State)
    requires Together(w, s) && s.executed != []
    ensures s.disk.Some? && s.file.Some? && |s.executed| <= s.disk.value <= s.file.value <= |s.executed| + 1
  {
    assert s.executed[|s.executed| - 1] in s.sent;
  }

  /** A root the chain has shown names its position. */
  lemma {:induction false} HistoryNames(w: Wallet, s: State, root: Digest, q: nat)
    requires Together(w, s) && Distinct(w) && root in s.history && root == w.rootAt(q) && q <= w.limit
    ensures q <= |s.executed|
  {
    var k :| 0 <= k < |s.history| && s.history[k] == root;
    ExecutedOnDisk(w, s);
    assert w.rootAt(k + 1) == w.rootAt(q);
  }

  /** Steps of a process leave the chain alone. */
  lemma {:induction false} ProcessMoves(w: Wallet, s: State, s': State, p: Pid, to: Phase)
    requires Together(w, s) && Inv(s')
    requires s'.phases == s.phases[p := to]
    requires s'.chain == s.chain && s'.history == s.history && s'.executed == s.executed
    requires s.sent <= s'.sent && forall m :: m in s'.sent ==> WellFormed(w, m)
    requires FileNear(w, s'.file, |s.executed|) && FileNear(w, s'.disk, |s.executed|) && PhaseReached(w, s', to)
    ensures Together(w, s')
  {
    forall q | q in s'.phases
      ensures PhaseReached(w, s', s'.phases[q])
    {
      assert q != p ==> q in s.phases && s'.phases[q] == s.phases[q];
    }
  }

  lemma {:induction false} SignedReached(w: Wallet, s: State, p: Pid)
    requires PhaseReached(w, s, At(s, p)) && w.limit >= 1
    requires At(s, p).Fetched? && At(s, p).root == w.rootAt(At(s, p).position) ==> At(s, p).position <= |s.executed|
    ensures var s' := SignStep(w, s, p);
            s' != s ==>
              && s'.phases == s.phases[p := At(s', p)] && PhaseReached(w, s', At(s', p))
              && s' == s.(phases := s'.phases, lock := s'.lock)
  {
  }

  lemma {:induction false} SignReaches(w: Wallet, s: State, p: Pid)
    requires Together(w, s) && Distinct(w)
    ensures Together(w, Apply(w, s, SignMessage(p)))
  {
    var s' := SignStep(w, s, p);
    assert PhaseReached(w, s, At(s, p));
    if At(s, p).Fetched? && At(s, p).root == w.rootAt(At(s, p).position) {
      HistoryNames(w, s, At(s, p).root, At(s, p).position);
    }
    SignedReached(w, s, p);
    if s' != s {
      SignKeepsInv(w, s, p);
      ProcessMoves(w, s, s', p, At(s', p));
    }
  }

  lemma {:induction false} LoadedReached(w: Wallet, s: State, p: Pid, cmd: Command)
    requires FileNear(w, s.file, |s.executed|) && w.limit >= 1
    ensures var s' := LoadStep(w, s, p, cmd);
            && s'.phases == s.phases[p := At(s', p)] && PhaseReached(w, s', At(s', p))
            && s' == s.(phases := s'.phases, lock := s'.lock)
  {
  }

  lemma {:induction false} LoadReaches(w: Wallet, s: State, p: Pid)
    requires Together(w, s) && Distinct(w)
    ensures Together(w, Apply(w, s, Load(p)))
  {
    if At(s, p).Started? {
      LoadKeepsInv(w, s, p);
      LoadedReached(w, s, p, At(s, p).cmd);
      ProcessMoves(w, s, Apply(w, s, Load(p)), p, At(Apply(w, s, Load(p)), p));
    }
  }

  lemma {:induction false} FetchReaches(w: Wallet, s: State, p: Pid, k: nat)
    requires Together(w, s)
    ensures Together(w, Apply(w, s, Fetch(p, k)))
  {
    var s' := Apply(w, s, Fetch(p, k));
    if s' != s {
      FetchKeepsInv(w, s, p, k);
      assert PhaseReached(w, s, At(s, p)) && PhaseOk(s, At(s, p));
      ProcessMoves(w, s, s', p, At(s', p));
    }
  }

  lemma {:induction false} RenameReaches(w: Wallet, s: State, p: Pid)
    requires Together(w, s)
    ensures Together(w, Apply(w, s, Rename(p)))
  {
    if At(s, p).Signed? {
      RenameKeepsInv(w, s, p);
      assert PhaseReached(w, s, At(s, p));
      ProcessMoves(w, s, Apply(w, s, Rename(p)), p, Renamed(At(s, p).msg));
    }
  }

  lemma {:induction false} SyncReaches(w: Wallet, s: State, p: Pid)
    requires Together(w, s)
    ensures Together(w, Apply(w, s, SyncDir(p)))
  {
    if At(s, p).Renamed? {
      SyncKeepsInv(w, s, p);
      assert PhaseReached(w, s, At(s, p));
      ProcessMoves(w, s, Apply(w, s, SyncDir(p)), p, Persisted(At(s, p).msg));
    }
  }

  lemma {:induction false} SendKeepsChain(w: Wallet, s: State, s': State)
    requires ChainOk(w, s) && s'.chain == s.chain && s'.history == s.history && s'.executed == s.executed
    requires s.sent <= s'.sent
    ensures ChainOk(w, s')
  {
  }

  lemma {:induction false} SendReaches(w: Wallet, s: State, p: Pid)
    requires Together(w, s)
    ensures Together(w, Apply(w, s, Send(p)))
  {
    if At(s, p).Persisted? {
      var s' := Apply(w, s, Send(p));
      SendKeepsInv(w, s, p);
      assert PhaseReached(w, s, At(s, p));
      assert s'.phases == s.phases[p := At(s, p)];
      SendKeepsChain(w, s, s');
      ProcessMoves(w, s, s', p, At(s, p));
    }
  }

  lemma {:induction false} DeliverGrowsChain(w: Wallet, s: State, s': State, m: Message)
    requires ChainOk(w, s) && s' == DeliverStep(w, s, m, true) && s' != s
    requires m.newRoot == w.rootAt(m.position + 1) && m.position == |s.executed|
    requires m.kind == Initialize <==> m.position == 0
    ensures s'.executed == s.executed + [m] && s.history <= s'.history && ChainOk(w, s')
  {
  }

  lemma {:induction false} PhasesStayReached(w: Wallet, s: State, s': State)
    requires s'.phases == s.phases && |s.executed| <= |s'.executed| && s.history <= s'.history
    requires forall p :: p in s.phases ==> PhaseReached(w, s, s.phases[p])
    ensures forall p :: p in s'.phases ==> PhaseReached(w, s', s'.phases[p])
  {
    assert forall r :: r in s.history ==> r in s'.history;
    forall p | p in s'.phases
      ensures PhaseReached(w, s', s'.phases[p])
    {
      assert PhaseReached(w, s, s.phases[p]);
    }
  }

  lemma {:induction false} DeliverGrows(w: Wallet, s: State, s': State, m: Message)
    requires Together(w, s) && Inv(s') && s' == DeliverStep(w, s, m, true) && s' != s
    requires WellFormed(w, m) && m.position == |s.executed|
    ensures Together(w, s')
  {
    DeliverFrame(w, s, m, true);
    DeliverGrowsChain(w, s, s', m);
    PhasesStayReached(w, s, s');
  }

  /** A delivered instruction runs only as the next one. */
  lemma {:induction false} DeliverReaches(w: Wallet, s: State, m: Message, succeeds: bool)
    requires Together(w, s) && Distinct(w) && Sound(w, s.sent)
    ensures Together(w, DeliverStep(w, s, m, succeeds))
  {
    var s' := DeliverStep(w, s, m, succeeds);
    if s' != s {
      assert WellFormed(w, m);
      if s.executed != [] {
        ExecutedOnDisk(w, s);
        assert w.rootAt(m.position) == w.rootAt(|s.executed|);
        assert m.position == |s.executed|;
      }
      DeliverKeepsInv(w, s, m, succeeds);
      DeliverGrows(w, s, s', m);
    }
  }

  lemma {:induction false} StepKeepsTogether(w: Wallet, s: State, a: Action)
    requires Together(w, s) && Distinct(w) && Sound(w, s.sent) && !a.Recover?
    ensures Together(w, Apply(w, s, a))
  {
    match a
    case Begin(p, cmd) =>
      StepKeepsInv(w, s, a);
      if At(s, p) == Idle && s.lock == None {
        ProcessMoves(w, s, Apply(w, s, a), p, Started(cmd));
      }
    case Load(p) => LoadReaches(w, s, p);
    case Fetch(p, k) => FetchReaches(w, s, p, k);
    case SignMessage(p) => SignReaches(w, s, p);
    case Rename(p) => RenameReaches(w, s, p);
    case SyncDir(p) => SyncReaches(w, s, p);
    case Send(p) => SendReaches(w, s, p);
    case Exit(p) =>
      StepKeepsInv(w, s, a);
      if At(s, p) != Idle {
        ProcessMoves(w, s, Apply(w, s, a), p, Idle);
      }
    case PowerLoss(_) => StepKeepsInv(w, s, a);
    case Deliver(m, succeeds) => DeliverReaches(w, s, m, succeeds);
  }

  /** What was sent stays sent. */
  lemma {:induction false} SentGrows(w: Wallet, s: State, actions: seq<Action>)
    ensures s.sent <= Run(w, s, actions).sent
    decreases |actions|
  {
    if actions != [] {
      SentGrows(w, Apply(w, s, actions[0]), actions[1..]);
    }
  }

  lemma {:induction false} RunKeepsTogether(w: Wallet, s: State, actions: seq<Action>)
    requires Together(w, s) && Distinct(w) && RecoverFree(actions) && Sound(w, Run(w, s, actions).sent)
    ensures Together(w, Run(w, s, actions))
    decreases |actions|
  {
    if actions != [] {
      assert actions[0] in actions && forall a :: a in actions[1..] ==> a in actions;
      SentGrows(w, s, actions);
      StepKeepsTogether(w, s, actions[0]);
      RunKeepsTogether(w, Apply(w, s, actions[0]), actions[1..]);
    }
  }

  /** Lockstep and at-most-once: while the wallet lives the chain is at the local position or its
      immediate predecessor, and the executed instructions are those of positions 0, 1, 2, ... */
  lemma {:induction false} LockstepRuns(w: Wallet, actions: seq<Action>)
    requires Distinct(w) && RecoverFree(actions) && Sound(w, Run(w, START, actions).sent)
    ensures var s := Run(w, START, actions);
            && (s.chain.Live? ==>
                  && s.chain.root == w.rootAt(|s.executed|)
                  && s.file.Some? && (s.file.value == |s.executed| || s.file.value == |s.executed| + 1))
            && (forall k :: 0 <= k < |s.executed| ==> s.executed[k] in s.sent && s.executed[k].position == k)
            && (forall i, j :: 0 <= i < j < |s.executed| ==> s.executed[i] != s.executed[j])
  {
    RunKeepsTogether(w, START, actions);
    var s := Run(w, START, actions);
    if s.executed != [] {
      ExecutedOnDisk(w, s);
    }
  }

  // ---- Saved positions only grow ----

  /** Only a rename, a sync and a power loss touch the state file. */
  lemma {:induction false} FileUntouched(w: Wallet, s: State, a: Action)
    requires !a.Rename? && !a.SyncDir? && !a.PowerLoss? && !a.Recover?
    ensures Apply(w, s, a).file == s.file && Apply(w, s, a).disk == s.disk
  {
  }

  lemma {:induction false} StepGrowsDisk(w: Wallet, s: State, a: Action)
    requires Inv(s) && !a.Recover?
    ensures Leq(s.disk, Apply(w, s, a).disk)
    ensures !a.PowerLoss? ==> Leq(s.file, Apply(w, s, a).file)
  {
    if a.Rename? {
      assert PhaseOk(s, At(s, a.p));
    } else if !a.SyncDir? && !a.PowerLoss? {
      FileUntouched(w, s, a);
    }
  }

  /** What is safe on disk never goes back, whatever follows. */
  lemma {:induction false} SavedPositionsGrow(w: Wallet, s: State, actions: seq<Action>)
    requires Inv(s) && RecoverFree(actions)
    ensures Leq(s.disk, Run(w, s, actions).disk)
    decreases |actions|
  {
    if actions != [] {
      assert actions[0] in actions && forall a :: a in actions[1..] ==> a in actions;
      StepGrowsDisk(w, s, actions[0]);
      StepKeepsInv(w, s, actions[0]);
      SavedPositionsGrow(w, Apply(w, s, actions[0]), actions[1..]);
    }
  }

  /** A message can only be sent under the lock and after its successor position was durably saved. */
  lemma {:induction false} SendFollowsSave(w: Wallet, s: State, p: Pid)
    requires Inv(s) && Apply(w, s, Send(p)) != s
    ensures At(s, p).Persisted? && s.lock == Some(p) && s.disk == Some(At(s, p).msg.position + 1)
  {
    assert PhaseOk(s, At(s, p));
  }

  // ---- What recover may undo ----

  /** A spend of `content` by process `p`, start to send, against the latest root. */
  function SpendRun(p: Pid, content: Bytes, k: nat): seq<Action> {
    [Begin(p, Command(Spend, content)), Load(p), Fetch(p, k), SignMessage(p), Rename(p), SyncDir(p), Send(p)]
  }

  lemma {:induction false} RunTwo(w: Wallet, s: State, run: seq<Action>)
    requires |run| >= 2
    ensures Run(w, s, run) == Run(w, Apply(w, Apply(w, s, run[0]), run[1]), run[2..])
  {
    var s1 := Apply(w, s, run[0]);
    assert run[1..][1..] == run[2..];
    assert Run(w, s, run) == Run(w, s1, run[1..]);
  }

  lemma {:induction false} RunFour(w: Wallet, s: State, run: seq<Action>)
    requires |run| >= 4
    ensures Run(w, s, run) ==
            Run(w, Apply(w, Apply(w, Apply(w, Apply(w, s, run[0]), run[1]), run[2]), run[3]), run[4..])
  {
    RunTwo(w, s, run);
    RunTwo(w, Apply(w, Apply(w, s, run[0]), run[1]), run[2..]);
    assert run[2..][2..] == run[4..];
  }

  /** Undisturbed, a process at the saved position gets as far as a signature, and then as a send. */
  lemma {:induction false} SpendSigns(w: Wallet, s: State, p: Pid, content: Bytes, q: nat,
                                      k: nat) returns (signed: State)
    requires At(s, p) == Idle && s.lock == None && s.file == Some(q) && q + 1 <= w.limit
    requires k < |s.history| && s.history[k] == w.rootAt(q)
    ensures At(signed, p) == Signed(Message(q, Spend, content, w.rootAt(q + 1))) && signed.sent == s.sent
    ensures signed.lock == Some(p) && signed.history == s.history && signed.chain == s.chain
    ensures Run(w, s, SpendRun(p, content, k)) == Run(w, signed, [Rename(p), SyncDir(p), Send(p)])
  {
    var cmd, run := Command(Spend, content), SpendRun(p, content, k);
    var s1 := Apply(w, s, Begin(p, cmd));
    var s2 := Apply(w, s1, Load(p));
    var s3 := Apply(w, s2, Fetch(p, k));
    assert At(s3, p) == Fetched(cmd, q, w.rootAt(q));
    signed := Apply(w, s3, SignMessage(p));
    assert run[4..] == [Rename(p), SyncDir(p), Send(p)];
    RunFour(w, s, run);
  }

  /** What a finished spend leaves behind. */
  predicate Spent(s: State, s': State, p: Pid, m: Message) {
    && s'.sent == s.sent + {m} && At(s', p) == Persisted(m) && s'.lock == s.lock
    && s'.file == s'.disk == Some(m.position + 1) && s'.history == s.history && s'.chain == s.chain
  }

  lemma {:induction false} SignedSends(w: Wallet, s: State, p: Pid, m: Message)
    requires At(s, p) == Signed(m)
    ensures Spent(s, Run(w, s, [Rename(p), SyncDir(p), Send(p)]), p, m)
  {
    var s1 := Apply(w, s, Rename(p));
    var s2 := Apply(w, s1, SyncDir(p));
    var s3 := Apply(w, s2, Send(p));
    var run := [Rename(p), SyncDir(p), Send(p)];
    assert run[1..] == [SyncDir(p), Send(p)] && run[1..][1..] == [Send(p)] && run[1..][1..][1..] == [];
    assert Run(w, s2, [Send(p)]) == s3;
    assert Run(w, s1, [SyncDir(p), Send(p)]) == s3;
  }

  lemma {:induction false} SpendSends(w: Wallet, s: State, p: Pid, content: Bytes, q: nat, k: nat)
    requires At(s, p) == Idle && s.lock == None && s.file == Some(q) && q + 1 <= w.limit
    requires k < |s.history| && s.history[k] == w.rootAt(q)
    ensures Spent(s.(lock := Some(p)), Run(w, s, SpendRun(p, content, k)), p,
                  Message(q, Spend, content, w.rootAt(q + 1)))
  {
    var signed := SpendSigns(w, s, p, content, q, k);
    SignedSends(w, signed, p, Message(q, Spend, content, w.rootAt(q + 1)));
  }

  /** The position `recover` writes for the root at index `k` of what the chain has shown. */
  lemma {:induction false} ScanFinds(w: Wallet, root: Digest, from: nat, maxDepth: nat, c: nat)
    requires from <= c <= maxDepth && w.rootAt(c) == root
    requires forall i :: from <= i < c ==> w.rootAt(i) != root
    ensures Scan(w, root, from, maxDepth) == Some(c)
    decreases maxDepth - from
  {
    if from < c {
      ScanFinds(w, root, from + 1, maxDepth, c);
    }
  }

  /** `recover` against any root the chain has shown moves the local position to the position of that root. */
  lemma {:induction false} RecoverLands(w: Wallet, s: State, p: Pid, k: nat, maxDepth: nat)
    requires Together(w, s) && Distinct(w) && k < |s.history| && k + 1 <= maxDepth
    requires At(s, p) == Idle && s.lock == None
    ensures Apply(w, s, Recover(p, k, maxDepth)) == s.(file := Some(k + 1), disk := Some(k + 1))
  {
    ExecutedOnDisk(w, s);
    ScanFinds(w, s.history[k], 1, maxDepth, k + 1);
  }

  /** What was sent beyond a shown root was sent at its very position too. */
  lemma {:induction false} SentAtShown(w: Wallet, s: State, k: nat, m: Message) returns (m': Message)
    requires Together(w, s) && k < |s.history| && m in s.sent && m.position > k
    ensures m' in s.sent && m'.position == k + 1
  {
    ExecutedOnDisk(w, s);
    m' := if m.position == k + 1 then m else s.executed[k + 1];
  }

  lemma {:induction false} SecondSpendBreaks(w: Wallet, s: State, p: Pid, m: Message, k: nat)
    requires At(s, p) == Idle && s.lock == None && s.file == Some(m.position) && m.position + 1 <= w.limit
    requires k < |s.history| && s.history[k] == w.rootAt(m.position)
    requires m in s.sent
    ensures exists actions :: RecoverFree(actions) && !OneTime(Run(w, s, actions))
  {
    var other := m.content + [0];
    var again := SpendRun(p, other, k);
    SpendSends(w, s, p, other, m.position, k);
    var m' := Message(m.position, Spend, other, w.rootAt(m.position + 1));
    assert m' in Run(w, s, again).sent && m in Run(w, s, again).sent && m' != m;
    assert RecoverFree(again);
  }

  lemma {:induction false} RecoveredSafe(w: Wallet, s: State, s': State, k: nat)
    requires Inv(s) && s.lock == None && SentBelow(s, k + 1) && s' == s.(file := Some(k + 1), disk := Some(k + 1))
    ensures forall actions :: RecoverFree(actions) ==> OneTime(Run(w, s', actions))
  {
    assert Inv(s');
    forall actions | RecoverFree(actions)
      ensures OneTime(Run(w, s', actions))
    {
      RunKeepsInv(w, s', actions);
    }
  }

  /** Once the position of a shown root is written: safe exactly when nothing was sent there or above. */
  lemma {:induction false} WrittenSafeIff(w: Wallet, s: State, s': State, p: Pid, k: nat)
    requires Together(w, s) && Distinct(w) && k < |s.history| && s.lock == None && At(s, p) == Idle
    requires s' == s.(file := Some(k + 1), disk := Some(k + 1))
    ensures (forall actions :: RecoverFree(actions) ==> OneTime(Run(w, s', actions))) <==> SentBelow(s, k + 1)
  {
    ExecutedOnDisk(w, s);
    if SentBelow(s, k + 1) {
      RecoveredSafe(w, s, s', k);
    } else {
      var m :| m in s.sent && m.position > k;
      var m' := SentAtShown(w, s, k, m);
      SecondSpendBreaks(w, s', p, m', k);
    }
  }

  /** Exactly when a `recover` is safe. From a quiet state that follows the protocol, and for any root the chain
      has shown: every recover-free continuation keeps one-time use if and only if nothing has been sent at the
      position of that root or above; the local position being that one already guarantees it. */
  lemma {:induction false} RecoverSafeIff(w: Wallet, s: State, p: Pid, k: nat, maxDepth: nat)
    requires Together(w, s) && Distinct(w) && k < |s.history| && k + 1 <= maxDepth
    requires s.lock == None
    ensures var s' := Apply(w, s, Recover(p, k, maxDepth));
            (forall actions :: RecoverFree(actions) ==> OneTime(Run(w, s', actions))) <==>
            (forall m :: m in s.sent ==> m.position <= k)
    ensures s.file == Some(k + 1) ==> forall m :: m in s.sent ==> m.position <= k
  {
    assert At(s, p) == Idle;
    RecoverLands(w, s, p, k, maxDepth);
    ExecutedOnDisk(w, s);
    WrittenSafeIff(w, s, Apply(w, s, Recover(p, k, maxDepth)), p, k);
    assert SentBelow(s, k + 1) <==> forall m :: m in s.sent ==> m.position <= k;
  }

  // ---- A run that recovers too early ----

  /** `init`, undisturbed. */
  function InitRun(p: Pid): seq<Action> {
    [Begin(p, Command(Initialize, [])), Load(p), SignMessage(p)] + [Rename(p), SyncDir(p), Send(p)]
  }

  lemma {:induction false} InitSends(w: Wallet, p: Pid)
    ensures Spent(START.(lock := Some(p)), Run(w, START, InitRun(p)), p, Message(0, Initialize, [], w.rootAt(1)))
  {
    var cmd := Command(Initialize, []);
    var s1 := Apply(w, START, Begin(p, cmd));
    var s2 := Apply(w, s1, Load(p));
    var s3 := Apply(w, s2, SignMessage(p));
    var head := [Begin(p, cmd), Load(p), SignMessage(p)];
    assert head[1..] == [Load(p), SignMessage(p)] && head[1..][1..] == [SignMessage(p)];
    assert Run(w, s2, [SignMessage(p)]) == s3 by {
      assert [SignMessage(p)][1..] == [];
    }
    assert Run(w, s1, [Load(p), SignMessage(p)]) == s3;
    RunAppend(w, START, head, [Rename(p), SyncDir(p), Send(p)]);
    SignedSends(w, s3, p, Message(0, Initialize, [], w.rootAt(1)));
  }

  /** After the process ends, its message still in the network, the position can be recovered. */
  lemma {:induction false} ExitAndRecover(w: Wallet, s: State, p: Pid, k: nat)
    requires At(s, p) != Idle && s.lock == Some(p) && k < |s.history| && s.history[k] == w.rootAt(1)
    ensures Run(w, s, [Exit(p), Recover(p, k, 1)]) == Leave(s, p).(file := Some(1), disk := Some(1))
  {
    var s1 := Apply(w, s, Exit(p));
    var run := [Exit(p), Recover(p, k, 1)];
    assert run[1..] == [Recover(p, k, 1)] && run[1..][1..] == [];
    assert Scan(w, w.rootAt(1), 1, 1) == Some(1);
    assert Run(w, s1, [Recover(p, k, 1)]) == Apply(w, s1, Recover(p, k, 1));
  }

  /** `init` executed, a spend sent and held back, `recover`, another spend. */
  function EarlyRecoverRun(w: Wallet, p: Pid, a: Bytes, b: Bytes): seq<Action> {
    InitRun(p) + ([Exit(p), Deliver(Message(0, Initialize, [], w.rootAt(1)), true)]
      + (SpendRun(p, a, 0) + ([Exit(p), Recover(p, 0, 1)] + SpendRun(p, b, 0))))
  }

  lemma {:induction false} InitExecutes(w: Wallet, s: State, p: Pid, m: Message)
    requires At(s, p) != Idle && s.lock == Some(p) && m.kind == Initialize && m in s.sent && s.chain == Absent
    ensures var s' := Run(w, s, [Exit(p), Deliver(m, true)]);
            && At(s', p) == Idle && s'.lock == None && s'.file == s.file && s'.history == s.history + [m.newRoot]
  {
    var s1 := Apply(w, s, Exit(p));
    var run := [Exit(p), Deliver(m, true)];
    assert run[1..] == [Deliver(m, true)] && run[1..][1..] == [];
    assert Run(w, s1, [Deliver(m, true)]) == Apply(w, s1, Deliver(m, true));
  }

  /** From the start of any wallet: two different messages are sent at position 1. */
  lemma {:induction false} EarlyRecoverBreaks(w: Wallet, p: Pid, a: Bytes, b: Bytes)
    requires w.limit >= 2 && a != b
    ensures !OneTime(Run(w, START, EarlyRecoverRun(w, p, a, b)))
  {
    var init := Message(0, Initialize, [], w.rootAt(1));
    var (m, m') := (Message(1, Spend, a, w.rootAt(2)), Message(1, Spend, b, w.rootAt(2)));
    var rest4 := SpendRun(p, b, 0);
    var rest3 := [Exit(p), Recover(p, 0, 1)] + rest4;
    var rest2 := SpendRun(p, a, 0) + rest3;
    var rest1 := [Exit(p), Deliver(init, true)] + rest2;
    var s1 := Run(w, START, InitRun(p));
    InitSends(w, p);
    RunAppend(w, START, InitRun(p), rest1);
    var s2 := Run(w, s1, [Exit(p), Deliver(init, true)]);
    InitExecutes(w, s1, p, init);
    RunAppend(w, s1, [Exit(p), Deliver(init, true)], rest2);
    var s3 := Run(w, s2, SpendRun(p, a, 0));
    SpendSends(w, s2, p, a, 1, 0);
    RunAppend(w, s2, SpendRun(p, a, 0), rest3);
    var s4 := Run(w, s3, [Exit(p), Recover(p, 0, 1)]);
    ExitAndRecover(w, s3, p, 0);
    RunAppend(w, s3, [Exit(p), Recover(p, 0, 1)], rest4);
    SpendSends(w, s4, p, b, 1, 0);
    assert m in s4.sent && m' in Run(w, s4, rest4).sent && m != m';
  }
}
