/** The protocol's abstract roots, supplied by key derivation. */
module PositionRoots {
  import opened Base
  import opened Winternitz
  import opened Preimage
  import opened Protocol
  import opened Lockstep
  import opened StaleAdvance
  import Program
  import opened Keypair
  import Soundness

  const SCALARS := Program.SCALARS

  /** The positions `(0, 0, child)` below the hardening bit, and the roots they commit to. */
  function PositionRoot(H: Hash, mac: Mac, master: Node, limit: u32, o: nat): Digest {
    if o <= limit then RootAt(H, mac, master, Position(0, 0, o), SCALARS) else Zeros(32)
  }

  function SignedDigest(H: Hash, mac: Mac, master: Node, limit: u32, commit: (Message, Digest) -> Commitment,
                        m: Message)
      : (d: Bytes)
    ensures |d| == SCALARS
  {
    MessageDigest(H, Parts(commit(m, PositionRoot(H, mac, master, limit, m.position))), SCALARS)
  }

  /** What the program checks a signed instruction against while a root is stored: the commitment it builds,
      given by `commit`, under the signature made at the instruction's position over the commitment to its own root. */
  predicate Accepted(H: Hash, mac: Mac, master: Node, limit: u32, commit: (Message, Digest) -> Commitment,
                     m: Message, root: Digest)
  {
    && m.position <= limit
    && VerifyPrehashed(H, Sign(H, Derive(mac, master, Position(0, 0, m.position), SCALARS),
                               SignedDigest(H, mac, master, limit, commit, m)),
                       MessageDigest(H, Parts(commit(m, root)), SCALARS), root)
  }

  function WalletOf(H: Hash, mac: Mac, master: Node, limit: u32, commit: (Message, Digest) -> Commitment): Wallet {
    Wallet((o: nat) => PositionRoot(H, mac, master, limit, o), limit,
           (m: Message, root: Digest) => Accepted(H, mac, master, limit, commit, m, root))
  }

  /** What stands in the way of lockstep: two positions of the wallet under one root, with the collision that
      is, or a sent instruction accepted under the root of another position, with what that exhibits. */
  datatype Obstacle =
    | SharedRoot(i: nat, j: nat, evidence: Evidence)
    | Misaccepted(m: Message, j: nat, crossing: Crossing)

  ghost predicate Stands(H: Hash, mac: Mac, master: Node, limit: u32, commit: (Message, Digest) -> Commitment,
                         sent: set<Message>, x: Obstacle) {
    match x
    case SharedRoot(i, j, e) =>
      i < j <= limit && Meets(H, mac, master, Position(0, 0, i), Position(0, 0, j), SCALARS, e)
    case Misaccepted(m, j, c) =>
      && m in sent && m.position <= limit && j <= limit && j != m.position
      && Exhibits(H, mac, master, Position(0, 0, m.position), Position(0, 0, j),
                  SignedDigest(H, mac, master, limit, commit, m),
                  MessageDigest(H, Parts(commit(m, PositionRoot(H, mac, master, limit, j))), SCALARS), c)
  }

  lemma {:induction false} SharedObstacle(H: Hash, mac: Mac, master: Node, limit: u32,
                                          commit: (Message, Digest) -> Commitment, sent: set<Message>, i: nat,
                                          j: nat) returns (x: Obstacle)
    requires i < j <= limit < HARDENED
    requires PositionRoot(H, mac, master, limit, i) == PositionRoot(H, mac, master, limit, j)
    ensures Stands(H, mac, master, limit, commit, sent, x)
  {
    x := SharedRoot(i, j, SharedRootEvidence(H, mac, master, Position(0, 0, i), Position(0, 0, j), SCALARS));
  }

  /** Below the hardening bit distinct positions have distinct roots, or a collision is exhibited. */
  lemma {:induction false} DistinctOrEvidence(H: Hash, mac: Mac, master: Node, limit: u32,
                                              commit: (Message, Digest) -> Commitment,
                                              sent: set<Message>) returns (x: Obstacle)
    requires 1 <= limit < HARDENED
    ensures Distinct(WalletOf(H, mac, master, limit, commit)) || Stands(H, mac, master, limit, commit, sent, x)
  {
    x := SharedRoot(0, 0, HashEvidence(Soundness.Clash([], [])));
    var w := WalletOf(H, mac, master, limit, commit);
    if !Distinct(w) {
      var i: nat, j: nat :| 0 <= i < j <= limit && w.rootAt(i) == w.rootAt(j);
      x := SharedObstacle(H, mac, master, limit, commit, sent, i, j);
    }
  }

  lemma {:induction false} Misacceptance(H: Hash, mac: Mac, master: Node, limit: u32,
                                         commit: (Message, Digest) -> Commitment, sent: set<Message>, m: Message,
                                         j: nat) returns (x: Obstacle)
    requires limit < HARDENED && m in sent && j <= limit && j != m.position
    requires Accepted(H, mac, master, limit, commit, m, PositionRoot(H, mac, master, limit, j))
    ensures Stands(H, mac, master, limit, commit, sent, x)
  {
    var c := OtherPosition(H, mac, master, Position(0, 0, m.position), Position(0, 0, j),
                           SignedDigest(H, mac, master, limit, commit, m),
                           MessageDigest(H, Parts(commit(m, PositionRoot(H, mac, master, limit, j))), SCALARS));
    x := Misaccepted(m, j, c);
  }

  /** No sent instruction is accepted under the root of another position, or the acceptance exhibits something. */
  lemma {:induction false} SoundOrEvidence(H: Hash, mac: Mac, master: Node, limit: u32,
                                           commit: (Message, Digest) -> Commitment,
                                           sent: set<Message>) returns (x: Obstacle)
    requires 1 <= limit < HARDENED
    ensures Sound(WalletOf(H, mac, master, limit, commit), sent) || Stands(H, mac, master, limit, commit, sent, x)
  {
    x := SharedRoot(0, 0, HashEvidence(Soundness.Clash([], [])));
    var w := WalletOf(H, mac, master, limit, commit);
    if !Sound(w, sent) {
      var m, j :| m in sent && 0 <= j <= w.limit && w.accepts(m, w.rootAt(j)) && w.rootAt(j) != w.rootAt(m.position);
      x := Misacceptance(H, mac, master, limit, commit, sent, m, j);
    }
  }

  /** From the hardening bit on roots repeat: child 2^31 commits to the wallet's own id again. */
  lemma {:induction false} NotDistinctFromHardenedBit(H: Hash, mac: Mac, master: Node, limit: u32,
                                                      commit: (Message, Digest) -> Commitment)
    requires limit >= HARDENED
    ensures !Distinct(WalletOf(H, mac, master, limit, commit))
  {
    var w := WalletOf(H, mac, master, limit, commit);
    SamePathSameKey(H, mac, master, Position(0, 0, 0), Position(0, 0, HARDENED), SCALARS);
    assert w.rootAt(0) == w.rootAt(HARDENED);
  }

  /** One-time use of keys, not only of positions: below the hardening bit two sent messages whose signing keys share
      one private scalar are the same message, or the two derivations exhibit an HMAC collision. */
  lemma {:induction false} OneMessagePerKey(mac: Mac, master: Node, w: Wallet, actions: seq<Action>, m: Message,
                                            m': Message, i: nat)
      returns (c: MacClash)
    requires RecoverFree(actions) && m in Run(w, START, actions).sent && m' in Run(w, START, actions).sent
    requires m.position < HARDENED && m'.position < HARDENED && i < SCALARS + 2
    requires Derive(mac, master, Position(0, 0, m.position), SCALARS).All()[i]
          == Derive(mac, master, Position(0, 0, m'.position), SCALARS).All()[i]
    ensures m == m' || PathsCollide(mac, master, Position(0, 0, m.position), Position(0, 0, m'.position), c)
                    || ScalarsCollide(mac, master, Position(0, 0, m.position), Position(0, 0, m'.position), i, c)
  {
    OneTimeUse(w, actions);
    c := MacClash([], [], [], []);
    if m.position != m'.position {
      c := SharedScalarClash(mac, master, Position(0, 0, m.position), Position(0, 0, m'.position), SCALARS, i);
    }
  }

  /** Every recover-free run of a derived wallet keeps chain and state file in lockstep and runs each
      instruction at most once, or something the run itself computed stands in the way. */
  lemma {:induction false} DerivedWalletLockstep(H: Hash, mac: Mac, master: Node, limit: u32,
                                                 commit: (Message, Digest) -> Commitment,
                                                 actions: seq<Action>) returns (x: Obstacle)
    requires 1 <= limit < HARDENED && RecoverFree(actions)
    ensures var w := WalletOf(H, mac, master, limit, commit);
            var s := Run(w, START, actions);
            || Stands(H, mac, master, limit, commit, s.sent, x)
            || ((s.chain.Live? ==>
                   && s.chain.root == w.rootAt(|s.executed|)
                   && s.file.Some? && (s.file.value == |s.executed| || s.file.value == |s.executed| + 1))
                && forall a, b :: 0 <= a < b < |s.executed| ==> s.executed[a] != s.executed[b])
  {
    var w := WalletOf(H, mac, master, limit, commit);
    var sent := Run(w, START, actions).sent;
    x := DistinctOrEvidence(H, mac, master, limit, commit, sent);
    if Distinct(w) {
      x := SoundOrEvidence(H, mac, master, limit, commit, sent);
      if Sound(w, sent) {
        LockstepRuns(w, actions);
      }
    }
  }
}
