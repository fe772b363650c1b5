/** The wallet's life as a distributed protocol: command-line processes under a lock, a state file
    replaced atomically, crashes and power loss, a network that delays, drops and duplicates, and
    the root that rotates on chain. */
module Protocol {
  import opened Base

  type Pid = nat

  datatype Kind = Initialize | Spend | Close

  /** A signed instruction: the position whose key signed it, and what it says. */
  datatype Message = Message(position: nat, kind: Kind, content: Bytes, newRoot: Digest)

  datatype Command = Command(kind: Kind, content: Bytes)

  /** How far a process has come in its command. */
  datatype Phase =
    | Idle
    | Started(cmd: Command)
    | Loaded(cmd: Command, position: nat)
    | Fetched(cmd: Command, position: nat, root: Digest)
    | Signed(msg: Message)
    | Renamed(msg: Message)
    | Persisted(msg: Message)

  datatype Chain = Absent | Live(root: Digest) | Gone

  /** `file` is the visible state file, `disk` what of it a power loss is sure to spare;
      `history` the roots the chain has shown so far, `executed` the instructions it has run. */
  datatype State = State(
    phases: map<Pid, Phase>,
    lock: Option<Pid>,
    file: Option<nat>,
    disk: Option<nat>,
    sent: set<Message>,
    chain: Chain,
    history: seq<Digest>,
    executed: seq<Message>)

  const START := State(map[], None, None, None, {}, Absent, [], [])

  /** The wallet: the root committed to at every position, the last position `next` can name, and which signed
      instructions the program accepts while a root is stored. */
  datatype Wallet = Wallet(rootAt: nat -> Digest, limit: nat, accepts: (Message, Digest) -> bool)

  datatype Action =
    | Begin(p: Pid, cmd: Command)
    | Load(p: Pid)
    | Fetch(p: Pid, k: nat)
    | SignMessage(p: Pid)
    | Rename(p: Pid)
    | SyncDir(p: Pid)
    | Send(p: Pid)
    | Exit(p: Pid)
    | PowerLoss(left: Option<nat>)
    | Deliver(m: Message, succeeds: bool)
    | Recover(p: Pid, k: nat, maxDepth: nat)

  function At(s: State, p: Pid): Phase { if p in s.phases then s.phases[p] else Idle }

  function Move(s: State, p: Pid, to: Phase): State { s.(phases := s.phases[p := to]) }

  /** A process ends, whatever the reason; the operating system drops its lock. */
  function Leave(s: State, p: Pid): State {
    Move(s, p, Idle).(lock := if s.lock == Some(p) then None else s.lock)
  }

  function LoadStep(w: Wallet, s: State, p: Pid, cmd: Command): State {
    if cmd.kind == Initialize then
      if s.file == None then Move(s, p, Loaded(cmd, 0)) else Leave(s, p)
    else if s.file.Some? && s.file.value + 1 <= w.limit then Move(s, p, Loaded(cmd, s.file.value))
    else Leave(s, p)
  }

  function SignStep(w: Wallet, s: State, p: Pid): State {
    match At(s, p)
    case Loaded(cmd, position) =>
      if cmd.kind == Initialize then Move(s, p, Signed(Message(0, Initialize, [], w.rootAt(1)))) else s
    case Fetched(cmd, position, root) =>
      if root == w.rootAt(position)
      then Move(s, p, Signed(Message(position, cmd.kind, cmd.content, w.rootAt(position + 1))))
      else Leave(s, p)
    case _ => s
  }

  /** On chain an instruction runs when it is accepted against the stored root and its calls succeed. */
  function DeliverStep(w: Wallet, s: State, m: Message, succeeds: bool): State {
    if m !in s.sent || !succeeds then s
    else if m.kind == Initialize then
      if s.chain == Absent
      then s.(chain := Live(m.newRoot), history := s.history + [m.newRoot], executed := s.executed + [m])
      else s
    else if !s.chain.Live? || !w.accepts(m, s.chain.root) then s
    else if m.kind == Close then s.(chain := Gone, executed := s.executed + [m])
    else s.(chain := Live(m.newRoot), history := s.history + [m.newRoot], executed := s.executed + [m])
  }

  /** What a power loss may leave of the state file: what was synced, or any position renamed over it since. */
  predicate MaySurvive(s: State, left: Option<nat>) {
    || left == s.disk
    || (left.Some? && s.file.Some? && 1 <= left.value <= s.file.value && (s.disk.Some? ==> s.disk.value <= left.value))
  }

  /** The scan of `recover`: the first child position from 1 whose root is the one on chain. */
  function Scan(w: Wallet, root: Digest, from: nat, maxDepth: nat): Option<nat>
    decreases maxDepth + 1 - from
  {
    if from > maxDepth then None
    else if w.rootAt(from) == root then Some(from)
    else Scan(w, root, from + 1, maxDepth)
  }

  function RecoverStep(w: Wallet, s: State, k: nat, maxDepth: nat): State {
    if k >= |s.history| then s
    else
      var found := Scan(w, s.history[k], 1, maxDepth);
      if found.None? then s else s.(file := found, disk := found)
  }

  /** One step; an action that is not enabled changes nothing. */
  function Apply(w: Wallet, s: State, a: Action): State {
    match a
    case Begin(p, cmd) =>
      if At(s, p) == Idle && s.lock == None then Move(s, p, Started(cmd)).(lock := Some(p)) else s
    case Load(p) => if At(s, p).Started? then LoadStep(w, s, p, At(s, p).cmd) else s
    case Fetch(p, k) =>
      if At(s, p).Loaded? && At(s, p).cmd.kind != Initialize && k < |s.history|
      then Move(s, p, Fetched(At(s, p).cmd, At(s, p).position, s.history[k]))
      else s
    case SignMessage(p) => SignStep(w, s, p)
    case Rename(p) =>
      if At(s, p).Signed? then Move(s, p, Renamed(At(s, p).msg)).(file := Some(At(s, p).msg.position + 1)) else s
    case SyncDir(p) =>
      if At(s, p).Renamed? then Move(s, p, Persisted(At(s, p).msg)).(disk := s.file) else s
    case Send(p) => if At(s, p).Persisted? then s.(sent := s.sent + {At(s, p).msg}) else s
    case Exit(p) => if At(s, p) != Idle then Leave(s, p) else s
    case PowerLoss(left) =>
      var kept := if MaySurvive(s, left) then left else s.disk;
      s.(phases := map[], lock := None, file := kept, disk := kept)
    case Deliver(m, succeeds) => DeliverStep(w, s, m, succeeds)
    case Recover(p, k, maxDepth) =>
      if At(s, p) == Idle && s.lock == None then RecoverStep(w, s, k, maxDepth) else s
  }

  /** A power loss leaves the synced position, or any position renamed over it since: each of them is possible, and no
      other. Nothing else of the machine survives; what was sent and what the chain shows does. */
  lemma {:induction false} PowerLossLeaves(w: Wallet, s: State, left: Option<nat>)
    ensures var (file, s') := (Apply(w, s, PowerLoss(left)).file, Apply(w, s, PowerLoss(left)));
            && s' == s.(phases := map[], lock := None, file := file, disk := file)
            && (file == s.disk || (left.Some? && file == left))
    ensures left.Some? ==>
              (Apply(w, s, PowerLoss(left)).file == left <==>
               left == s.disk || (s.file.Some? && 1 <= left.value <= s.file.value
                                  && (s.disk.Some? ==> s.disk.value <= left.value)))
  {
  }

  lemma {:induction false} ScanFirst(w: Wallet, root: Digest, from: nat, maxDepth: nat)
    ensures var found := Scan(w, root, from, maxDepth);
            && (found.Some? ==> from <= found.value <= maxDepth && w.rootAt(found.value) == root)
            && forall j :: from <= j <= maxDepth && w.rootAt(j) == root ==> found.Some? && found.value <= j
    decreases maxDepth + 1 - from
  {
    if from <= maxDepth && w.rootAt(from) != root {
      ScanFirst(w, root, from + 1, maxDepth);
    }
  }

  /** `recover` writes the first position from 1 on with the root it read, and leaves the file alone if there is none
      up to its depth. */
  lemma {:induction false} RecoverWrites(w: Wallet, s: State, p: Pid, k: nat, maxDepth: nat)
    requires At(s, p) == Idle && s.lock == None && k < |s.history|
    ensures var s' := Apply(w, s, Recover(p, k, maxDepth));
            || (s' == s && forall j :: 1 <= j <= maxDepth ==> w.rootAt(j) != s.history[k])
            || exists c :: && 1 <= c <= maxDepth && w.rootAt(c) == s.history[k]
                           && (forall j :: 1 <= j < c ==> w.rootAt(j) != s.history[k])
                           && s' == s.(file := Some(c), disk := Some(c))
  {
    ScanFirst(w, s.history[k], 1, maxDepth);
    var found := Scan(w, s.history[k], 1, maxDepth);
    if found.Some? {
      assert w.rootAt(found.value) == s.history[k];
    }
  }

  function Run(w: Wallet, s: State, actions: seq<Action>): State
    decreases |actions|
  {
    if actions == [] then s else Run(w, Apply(w, s, actions[0]), actions[1..])
  }

  lemma {:induction false} RunAppend(w: Wallet, s: State, a: seq<Action>, b: seq<Action>)
    ensures Run(w, s, a + b) == Run(w, Run(w, s, a), b)
    decreases |a|
  {
    if a == [] {
      assert a + b == b;
    } else {
      assert (a + b)[0] == a[0] && (a + b)[1..] == a[1..] + b;
      RunAppend(w, Apply(w, s, a[0]), a[1..], b);
    }
  }

  /** No action is a `recover`. */
  predicate RecoverFree(actions: seq<Action>) {
    forall a :: a in actions ==> !a.Recover?
  }

  // ---- One-time use ----

  /** At most one message per position was ever handed to the network. */
  predicate OneTime(s: State) {
    forall m, m' :: m in s.sent && m' in s.sent && m.position == m'.position ==> m == m'
  }

  predicate Leq(a: Option<nat>, b: Option<nat>) {
    a.None? || (b.Some? && a.value <= b.value)
  }

  /** Every sent message lies strictly below `bound`. */
  predicate SentBelow(s: State, bound: nat) {
    forall m :: m in s.sent ==> m.position < bound
  }

  /** What the lock holder has established so far. */
  predicate PhaseOk(s: State, phase: Phase) {
    match phase
    case Idle => true
    case Started(_) => true
    case Loaded(cmd, q) => if cmd.kind == Initialize then s.file == None && q == 0 else s.file == Some(q)
    case Fetched(cmd, q, r) => cmd.kind != Initialize && s.file == Some(q)
    case Signed(m) =>
      && SentBelow(s, m.position)
      && (if m.kind == Initialize then m.position == 0 && s.file == None else s.file == Some(m.position))
    case Renamed(m) => SentBelow(s, m.position) && s.file == Some(m.position + 1)
    case Persisted(m) =>
      && s.file == s.disk == Some(m.position + 1)
      && forall m' :: m' in s.sent ==> m'.position < m.position || m' == m
  }

  /** The state file and the network agree: everything sent lies below what is safe on disk. */
  predicate StoreOk(s: State) {
    && Leq(s.disk, s.file)
    && (s.disk.None? ==> s.sent == {})
    && (s.disk.Some? ==> SentBelow(s, s.disk.value))
    && OneTime(s)
  }

  predicate LockOk(s: State) {
    forall p :: p in s.phases && s.phases[p] != Idle ==> s.lock == Some(p)
  }

  /** The inductive invariant behind one-time use. */
  predicate Inv(s: State) {
    && LockOk(s)
    && (forall p :: p in s.phases ==> PhaseOk(s, s.phases[p]))
    && StoreOk(s)
  }

  /** Only the lock holder is anywhere but idle, so only its next phase has to be checked. */
  lemma {:induction false} HolderMoves(s: State, s': State, p: Pid, to: Phase)
    requires LockOk(s) && (At(s, p) != Idle || s.lock == None)
    requires s'.phases == s.phases[p := to]
    requires to == Idle || s'.lock == Some(p)
    requires PhaseOk(s', to) && StoreOk(s')
    ensures Inv(s')
  {
    forall q | q in s'.phases
      ensures s'.phases[q] != Idle ==> s'.lock == Some(q)
      ensures PhaseOk(s', s'.phases[q])
    {
      assert q != p ==> q in s.phases && s'.phases[q] == s.phases[q];
    }
  }

  lemma {:induction false} LoadKeepsInv(w: Wallet, s: State, p: Pid)
    requires Inv(s)
    ensures Inv(Apply(w, s, Load(p)))
  {
    if At(s, p).Started? {
      var s' := Apply(w, s, Load(p));
      HolderMoves(s, s', p, At(s', p));
    }
  }

  lemma {:induction false} FetchKeepsInv(w: Wallet, s: State, p: Pid, k: nat)
    requires Inv(s)
    ensures Inv(Apply(w, s, Fetch(p, k)))
  {
    var s' := Apply(w, s, Fetch(p, k));
    if s' != s {
      HolderMoves(s, s', p, At(s', p));
    }
  }

  lemma {:induction false} SignKeepsInv(w: Wallet, s: State, p: Pid)
    requires Inv(s)
    ensures Inv(Apply(w, s, SignMessage(p)))
  {
    var s' := Apply(w, s, SignMessage(p));
    if s' != s {
      assert PhaseOk(s, At(s, p));
      HolderMoves(s, s', p, At(s', p));
    }
  }

  lemma {:induction false} RenameKeepsInv(w: Wallet, s: State, p: Pid)
    requires Inv(s)
    ensures Inv(Apply(w, s, Rename(p)))
  {
    if At(s, p).Signed? {
      assert PhaseOk(s, At(s, p));
      HolderMoves(s, Apply(w, s, Rename(p)), p, Renamed(At(s, p).msg));
    }
  }

  lemma {:induction false} SyncKeepsInv(w: Wallet, s: State, p: Pid)
    requires Inv(s)
    ensures Inv(Apply(w, s, SyncDir(p)))
  {
    if At(s, p).Renamed? {
      assert PhaseOk(s, At(s, p));
      HolderMoves(s, Apply(w, s, SyncDir(p)), p, Persisted(At(s, p).msg));
    }
  }

  lemma {:induction false} SendKeepsInv(w: Wallet, s: State, p: Pid)
    requires Inv(s)
    ensures Inv(Apply(w, s, Send(p)))
  {
    if At(s, p).Persisted? {
      assert PhaseOk(s, At(s, p));
      var s' := Apply(w, s, Send(p));
      assert s'.phases == s.phases[p := At(s, p)];
      HolderMoves(s, s', p, At(s, p));
    }
  }

  lemma {:induction false} ExitKeepsInv(s: State, p: Pid)
    requires Inv(s) && At(s, p) != Idle
    ensures Inv(Leave(s, p))
  {
    HolderMoves(s, Leave(s, p), p, Idle);
  }

  lemma {:induction false} BeginKeepsInv(w: Wallet, s: State, p: Pid, cmd: Command)
    requires Inv(s)
    ensures Inv(Apply(w, s, Begin(p, cmd)))
  {
    if At(s, p) == Idle && s.lock == None {
      HolderMoves(s, Apply(w, s, Begin(p, cmd)), p, Started(cmd));
    }
  }

  lemma {:induction false} PowerLossKeepsInv(w: Wallet, s: State, left: Option<nat>)
    requires Inv(s)
    ensures Inv(Apply(w, s, PowerLoss(left)))
  {
  }

  /** A delivery touches nothing but the chain's side. */
  lemma {:induction false} DeliverFrame(w: Wallet, s: State, m: Message, succeeds: bool)
    ensures var s' := DeliverStep(w, s, m, succeeds);
            s' == s.(chain := s'.chain, history := s'.history, executed := s'.executed)
  {
  }

  lemma {:induction false} ChainSideKeepsInv(s: State, s': State)
    requires Inv(s) && s' == s.(chain := s'.chain, history := s'.history, executed := s'.executed)
    ensures Inv(s')
  {
    forall p | p in s'.phases
      ensures PhaseOk(s', s'.phases[p])
    {
      assert PhaseOk(s, s.phases[p]);
    }
  }

  lemma {:induction false} DeliverKeepsInv(w: Wallet, s: State, m: Message, succeeds: bool)
    requires Inv(s)
    ensures Inv(DeliverStep(w, s, m, succeeds))
  {
    DeliverFrame(w, s, m, succeeds);
    ChainSideKeepsInv(s, DeliverStep(w, s, m, succeeds));
  }

  lemma {:induction false} StepKeepsInv(w: Wallet, s: State, a: Action)
    requires Inv(s) && !a.Recover?
    ensures Inv(Apply(w, s, a))
  {
    match a
    case Begin(p, cmd) => BeginKeepsInv(w, s, p, cmd);
    case Load(p) => LoadKeepsInv(w, s, p);
    case Fetch(p, k) => FetchKeepsInv(w, s, p, k);
    case SignMessage(p) => SignKeepsInv(w, s, p);
    case Rename(p) => RenameKeepsInv(w, s, p);
    case SyncDir(p) => SyncKeepsInv(w, s, p);
    case Send(p) => SendKeepsInv(w, s, p);
    case Exit(p) =>
      if At(s, p) != Idle {
        ExitKeepsInv(s, p);
      }
    case PowerLoss(left) => PowerLossKeepsInv(w, s, left);
    case Deliver(m, succeeds) => DeliverKeepsInv(w, s, m, succeeds);
  }

  lemma {:induction false} RunKeepsInv(w: Wallet, s: State, actions: seq<Action>)
    requires Inv(s) && RecoverFree(actions)
    ensures Inv(Run(w, s, actions))
    decreases |actions|
  {
    if actions != [] {
      assert actions[0] in actions && forall a :: a in actions[1..] ==> a in actions;
      StepKeepsInv(w, s, actions[0]);
      RunKeepsInv(w, Apply(w, s, actions[0]), actions[1..]);
    }
  }

  /** One-time use: in every interleaving of processes, crashes, power losses and deliveries that
      contains no `recover`, at most one message signed at each position is ever sent. */
  lemma {:induction false} OneTimeUse(w: Wallet, actions: seq<Action>)
    requires RecoverFree(actions)
    ensures OneTime(Run(w, START, actions))
  {
    RunKeepsInv(w, START, actions);
  }
}
