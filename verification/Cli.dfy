/** The command-line processes as they run: lock, load, read, sign, save, send, in this order, with
    any step free to fail. Each run is a run of the protocol. */
module Cli {
  import opened Base
  import opened Protocol

  lemma {:induction false} RunPush(w: Wallet, s: State, actions: seq<Action>, a: Action)
    ensures Run(w, s, actions + [a]) == Apply(w, Run(w, s, actions), a)
    decreases |actions|
  {
    var all := actions + [a];
    if actions == [] {
      assert all == [a] && all[1..] == [];
      assert Run(w, Apply(w, s, a), []) == Apply(w, s, a);
    } else {
      assert all[0] == actions[0] && all[1..] == actions[1..] + [a];
      RunPush(w, Apply(w, s, actions[0]), actions[1..], a);
    }
  }

  lemma {:induction false} RunOne(w: Wallet, s: State, a: Action)
    ensures Run(w, s, [a]) == Apply(w, s, a)
  {
    assert [a][1..] == [];
    assert Run(w, Apply(w, s, a), []) == Apply(w, s, a);
  }

  /** One wallet's state directory and its view of the network. The phases are where each process
      stands; they are not stored anywhere. */
  class Host {
    const w: Wallet
    ghost var phases: map<Pid, Phase>
    var lock: Option<Pid>
    var temp: map<Pid, nat>
    var file: Option<nat>
    var disk: Option<nat>
    var sent: set<Message>
    var chain: Chain
    var history: seq<Digest>
    ghost var executed: seq<Message>

    ghost function Now(): State
      reads this
    {
      State(phases, lock, file, disk, sent, chain, history, executed)
    }

    constructor (w: Wallet)
      ensures this.w == w && Now() == START
    {
      this.w := w;
      phases, lock, temp, file, disk := map[], None, map[], None, None;
      sent, chain, history, executed := {}, Absent, [], [];
    }

    /** The process is over: its lock is dropped. */
    method Drop(p: Pid, ghost steps: seq<Action>) returns (ghost steps': seq<Action>)
      requires At(Now(), p) != Idle && lock == Some(p)
      modifies this
      ensures Now() == Apply(w, old(Now()), Exit(p)) && lock == None
      ensures steps' == steps + [Exit(p)]
    {
      lock := None;
      phases := phases[p := Idle];
      steps' := steps + [Exit(p)];
    }

    /** Write and sync a temporary file, then rename it over the state file. */
    method ReplaceFile(p: Pid, msg: Message) returns (ok: bool)
      requires At(Now(), p) == Signed(msg)
      modifies this
      ensures ok ==> Now() == Apply(w, old(Now()), Rename(p))
      ensures ok ==> At(Now(), p) == Renamed(msg) && file == Some(msg.position + 1)
      ensures !ok ==> Now() == old(Now())
    {
      temp := temp[p := msg.position + 1];
      ok := *;
      if ok {
        file := Some(temp[p]);
        phases := phases[p := Renamed(msg)];
      }
      temp := temp - {p};
    }

    /** Sync the directory: what is visible is now safe. */
    method SyncDirectory(p: Pid, msg: Message)
      requires At(Now(), p) == Renamed(msg)
      modifies this
      ensures Now() == Apply(w, old(Now()), SyncDir(p)) && At(Now(), p) == Persisted(msg) && disk == file == old(file)
    {
      disk := file;
      phases := phases[p := Persisted(msg)];
    }

    /** The state so far is what `steps` make of `s0`. */
    ghost predicate Traced(s0: State, steps: seq<Action>)
      reads this
    {
      Now() == Run(w, s0, steps) && RecoverFree(steps)
    }

    /** `save_in_dir`. A failure before the rename leaves the old position, one after it the new. */
    method SaveInDir(p: Pid, msg: Message) returns (ok: bool, ghost steps: seq<Action>)
      requires At(Now(), p) == Signed(msg)
      modifies this
      ensures Traced(old(Now()), steps)
      ensures ok ==> At(Now(), p) == Persisted(msg) && file == disk == Some(msg.position + 1)
      ensures At(Now(), p) != Idle && lock == old(lock) && sent == old(sent) && chain == old(chain)
      ensures old(file) == file || file == Some(msg.position + 1)
    {
      steps := [];
      ok := ReplaceFile(p, msg);
      if !ok {
        return;
      }
      RunOne(w, old(Now()), Rename(p));
      steps := [Rename(p)];
      ok := *;
      if ok {
        SyncDirectory(p, msg);
        RunPush(w, old(Now()), steps, SyncDir(p));
        steps := steps + [SyncDir(p)];
      }
    }

    /** Take the lock without waiting, then read the state file. */
    method LockAndLoad(p: Pid, cmd: Command) returns (ok: bool, ghost steps: seq<Action>)
      requires At(Now(), p) == Idle
      modifies this
      ensures Traced(old(Now()), steps) && sent == old(sent) && file == old(file) && disk == old(disk)
      ensures !ok ==> lock == old(lock)
      ensures ok <==> old(lock) == None &&
                      if cmd.kind == Initialize then file.None? else file.Some? && file.value + 1 <= w.limit
      ensures ok ==>
                && lock == Some(p)
                && At(Now(), p) == Loaded(cmd, if cmd.kind == Initialize then 0 else file.value)
    {
      steps := [];
      if lock != None {
        return false, steps;
      }
      lock := Some(p);
      phases := phases[p := Started(cmd)];
      RunPush(w, old(Now()), steps, Begin(p, cmd));
      steps := [Begin(p, cmd)];
      RunPush(w, old(Now()), steps, Load(p));
      steps := steps + [Load(p)];
      ok := if cmd.kind == Initialize then file == None else file != None && file.value + 1 <= w.limit;
      if !ok {
        lock := None;
        phases := phases[p := Idle];
        return;
      }
      phases := phases[p := Loaded(cmd, if cmd.kind == Initialize then 0 else file.value)];
    }

    /** Read the account, at any commitment. */
    method ReadAccount(p: Pid, cmd: Command, position: nat) returns (root: Option<Digest>, ghost k: nat)
      requires cmd.kind != Initialize && At(Now(), p) == Loaded(cmd, position)
      modifies this
      ensures root.None? ==> Now() == old(Now())
      ensures root.Some? ==>
                && Now() == Apply(w, old(Now()), Fetch(p, k)) && At(Now(), p) == Fetched(cmd, position, root.value)
                && lock == old(lock) && sent == old(sent)
    {
      k := 0;
      if history == [] {
        return None, k;
      }
      var at: nat :| at < |history|;
      root, k := Some(history[at]), at;
      phases := phases[p := Fetched(cmd, position, history[at])];
    }

    /** Sign if the root read is that of the loaded position. */
    method SignIfCurrent(p: Pid, cmd: Command, position: nat, root: Digest) returns (ok: bool)
      requires At(Now(), p) == Fetched(cmd, position, root) && lock == Some(p)
      modifies this
      ensures Now() == Apply(w, old(Now()), SignMessage(p)) && sent == old(sent)
      ensures !ok ==> lock == None
      ensures ok ==>
                && lock == Some(p)
                && At(Now(), p) == Signed(Message(position, cmd.kind, cmd.content, w.rootAt(position + 1)))
    {
      ok := root == w.rootAt(position);
      if ok {
        phases := phases[p := Signed(Message(position, cmd.kind, cmd.content, w.rootAt(position + 1)))];
      } else {
        lock := None;
        phases := phases[p := Idle];
      }
    }

    method FetchAndSign(p: Pid, cmd: Command, position: nat) returns (ok: bool, ghost steps: seq<Action>)
      requires cmd.kind != Initialize && At(Now(), p) == Loaded(cmd, position) && lock == Some(p)
      modifies this
      ensures Traced(old(Now()), steps) && sent == old(sent)
      ensures !ok ==> lock == None
      ensures ok ==>
                && lock == Some(p)
                && At(Now(), p) == Signed(Message(position, cmd.kind, cmd.content, w.rootAt(position + 1)))
    {
      var root;
      ghost var k;
      root, k := ReadAccount(p, cmd, position);
      if root == None {
        RunOne(w, old(Now()), Exit(p));
        steps := Drop(p, []);
        return false, steps;
      }
      RunOne(w, old(Now()), Fetch(p, k));
      RunPush(w, old(Now()), [Fetch(p, k)], SignMessage(p));
      ok := SignIfCurrent(p, cmd, position, root.value);
      steps := [Fetch(p, k)] + [SignMessage(p)];
    }

    /** The signature leaves the machine. */
    method Release(p: Pid, msg: Message, ghost begun: State, ghost before: seq<Action>)
        returns (ghost steps: seq<Action>)
      requires At(Now(), p) == Persisted(msg) && Traced(begun, before)
      modifies this`sent
      ensures Traced(begun, steps) && sent == old(sent) + {msg}
      ensures At(Now(), p) == Persisted(msg)
    {
      sent := sent + {msg};
      RunPush(w, begun, before, Send(p));
      steps := before + [Send(p)];
    }

    /** `persist` then `send`; a signature that was not saved is never sent. */
    method PersistAndSend(p: Pid, msg: Message) returns (ok: bool, ghost steps: seq<Action>)
      requires At(Now(), p) == Signed(msg) && lock == Some(p)
      modifies this
      ensures Traced(old(Now()), steps) && lock == None
      ensures sent != old(sent) || ok ==>
                file == disk == Some(msg.position + 1) && sent == old(sent) + {msg}
    {
      ok, steps := SaveInDir(p, msg);
      if ok {
        if * {
          // No blockhash: nothing has left the machine.
          ok := false;
        } else {
          // From the simulation request on the signature is out, whatever the reply.
          steps := Release(p, msg, old(Now()), steps);
          ok := *;
        }
      }
      RunPush(w, old(Now()), steps, Exit(p));
      steps := Drop(p, steps);
    }

    /** What follows once the lock is held and the position loaded. */
    method SpendLoaded(p: Pid, cmd: Command, position: nat) returns (ok: bool, ghost steps: seq<Action>)
      requires cmd.kind != Initialize && At(Now(), p) == Loaded(cmd, position) && lock == Some(p)
      modifies this
      ensures Traced(old(Now()), steps) && lock == None
      ensures sent != old(sent) || ok ==>
                && file == disk == Some(position + 1)
                && sent == old(sent) + {Message(position, cmd.kind, cmd.content, w.rootAt(position + 1))}
    {
      ok, steps := FetchAndSign(p, cmd, position);
      if ok {
        ghost var more;
        ok, more := PersistAndSend(p, Message(position, cmd.kind, cmd.content, w.rootAt(position + 1)));
        RunAppend(w, old(Now()), steps, more);
        steps := steps + more;
      }
    }

    /** `withdraw`, `transfer` and `close`: whatever fails on the way, the run is a run of the protocol,
        and anything sent is the one message of the loaded position, already saved past. */
    method RunSpend(p: Pid, cmd: Command) returns (ok: bool, ghost steps: seq<Action>)
      requires cmd.kind != Initialize && At(Now(), p) == Idle
      modifies this
      ensures Traced(old(Now()), steps)
      ensures lock == old(lock)
      ensures sent != old(sent) || ok ==>
                && old(file).Some? && file == disk == Some(old(file).value + 1)
                && sent == old(sent) + {Message(old(file).value, cmd.kind, cmd.content, w.rootAt(old(file).value + 1))}
    {
      ok, steps := LockAndLoad(p, cmd);
      if ok {
        ghost var more;
        ok, more := SpendLoaded(p, cmd, file.value);
        RunAppend(w, old(Now()), steps, more);
        steps := steps + more;
      }
    }

    /** `init`: refuses an existing state file, then signs position 0, saves and sends. */
    method RunInit(p: Pid) returns (ok: bool, ghost steps: seq<Action>)
      requires At(Now(), p) == Idle
      modifies this
      ensures Traced(old(Now()), steps)
      ensures lock == old(lock)
      ensures sent != old(sent) || ok ==>
                && old(file).None? && file == disk == Some(1)
                && sent == old(sent) + {Message(0, Initialize, [], w.rootAt(1))}
    {
      ghost var more;
      ok, steps := LockAndLoad(p, Command(Initialize, []));
      if !ok {
        return;
      }
      var msg := Message(0, Initialize, [], w.rootAt(1));
      phases := phases[p := Signed(msg)];
      RunPush(w, old(Now()), steps, SignMessage(p));
      steps := steps + [SignMessage(p)];
      ok, more := PersistAndSend(p, msg);
      RunAppend(w, old(Now()), steps, more);
      steps := steps + more;
    }
  }

  /** `recover`'s scan loop: the first position from 1 whose root is the one on chain. */
  method ScanLoop(w: Wallet, onChainRoot: Digest, maxDepth: nat) returns (found: Option<nat>)
    ensures found == Scan(w, onChainRoot, 1, maxDepth)
    ensures found.Some? ==> && 1 <= found.value <= maxDepth && w.rootAt(found.value) == onChainRoot
                            && forall j :: 1 <= j < found.value ==> w.rootAt(j) != onChainRoot
    ensures found.None? ==> forall j :: 1 <= j <= maxDepth ==> w.rootAt(j) != onChainRoot
  {
    found := None;
    var child := 1;
    while child <= maxDepth
      invariant 1 <= child && Scan(w, onChainRoot, 1, maxDepth) == Scan(w, onChainRoot, child, maxDepth)
      invariant forall j :: 1 <= j < child ==> w.rootAt(j) != onChainRoot
    {
      if w.rootAt(child) == onChainRoot {
        return Some(child);
      }
      child := child + 1;
    }
  }
}
