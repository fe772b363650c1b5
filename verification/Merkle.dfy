/** The streaming stack-collapse Merkle root and the level-by-level tree it has to equal.
    Everything here is generic in the node type and in the function combining two nodes. */
module Merkle {
  import opened Base

  type Combine<!T> = (T, T) -> T

  // ---- The textbook tree ----

  function Leaves<S, T>(leaf: S -> T, scalars: seq<S>): (leaves: seq<T>)
    ensures |leaves| == |scalars|
    ensures forall i :: 0 <= i < |scalars| ==> leaves[i] == leaf(scalars[i])
  {
    seq(|scalars|, i requires 0 <= i < |scalars| => leaf(scalars[i]))
  }

  /** Neighbours pair up, and the last node of an odd level is paired with itself. */
  function Pair<T>(xs: seq<T>, j: nat): (T, T)
    requires 2 * j < |xs|
  {
    (xs[2 * j], if 2 * j + 1 < |xs| then xs[2 * j + 1] else xs[2 * j])
  }

  /** The level above `xs`. */
  function Level<T>(node: Combine<T>, xs: seq<T>): (up: seq<T>)
    ensures |up| == (|xs| + 1) / 2
    ensures |xs| <= 2 * |up| <= |xs| + 1
  {
    seq((|xs| + 1) / 2, j requires 0 <= j < (|xs| + 1) / 2 => node(Pair(xs, j).0, Pair(xs, j).1))
  }

  lemma {:induction false} LevelAt<T>(node: Combine<T>, xs: seq<T>, j: nat)
    requires 2 * j < |xs|
    ensures Level(node, xs)[j] == node(Pair(xs, j).0, Pair(xs, j).1)
  {
  }

  function Root<T>(node: Combine<T>, xs: seq<T>): T
    requires xs != []
    decreases |xs|
  {
    if |xs| == 1 then xs[0] else Root(node, Level(node, xs))
  }

  // ---- Authentication paths ----

  /** The neighbours met on the way from node k to the root. */
  function Siblings<T>(node: Combine<T>, xs: seq<T>, k: nat): seq<T>
    requires k < |xs|
    decreases |xs|
  {
    if |xs| == 1 then []
    else [if k % 2 == 1 then xs[k - 1] else Pair(xs, k / 2).1] + Siblings(node, Level(node, xs), k / 2)
  }

  /** A node combined with its neighbours in turn, on the left where its index is even. */
  function Climb<T>(node: Combine<T>, h: T, k: nat, path: seq<T>): T
    decreases |path|
  {
    if path == [] then h
    else Climb(node, if k % 2 == 0 then node(h, path[0]) else node(path[0], h), k / 2, path[1..])
  }

  lemma {:induction false} ClimbUp<T>(node: Combine<T>, xs: seq<T>, k: nat)
    requires k < |xs| && |xs| > 1
    ensures var next := Siblings(node, xs, k)[0];
            Level(node, xs)[k / 2] == if k % 2 == 0 then node(xs[k], next) else node(next, xs[k])
  {
    LevelAt(node, xs, k / 2);
  }

  /** From every leaf the neighbours lead to the root, and 2^depth leaves are enough for a path of that depth. */
  lemma {:induction false} PathLeadsToRoot<T>(node: Combine<T>, xs: seq<T>, k: nat)
    requires k < |xs|
    ensures Climb(node, xs[k], k, Siblings(node, xs, k)) == Root(node, xs)
    ensures Pow2(|Siblings(node, xs, k)|) < 2 * |xs| <= 2 * Pow2(|Siblings(node, xs, k)|)
    decreases |xs|
  {
    if |xs| > 1 {
      ClimbUp(node, xs, k);
      PathLeadsToRoot(node, Level(node, xs), k / 2);
      assert Siblings(node, xs, k)[1..] == Siblings(node, Level(node, xs), k / 2);
    }
  }

  // ---- The streaming form ----

  datatype Entry<T> = Entry(hash: T, level: nat)

  /** Push one subtree, collapsing equal levels on the way. */
  function Push<T>(node: Combine<T>, stack: seq<Entry<T>>, h: T, level: nat): seq<Entry<T>>
    decreases |stack|
  {
    if stack != [] && stack[|stack| - 1].level == level then
      Push(node, stack[..|stack| - 1], node(stack[|stack| - 1].hash, h), level + 1)
    else
      stack + [Entry(h, level)]
  }

  function PushAll<T>(node: Combine<T>, leaves: seq<T>): seq<Entry<T>> {
    if leaves == [] then []
    else Push(node, PushAll(node, leaves[..|leaves| - 1]), leaves[|leaves| - 1], 0)
  }

  /** `k` rounds of pairing a right-edge subtree with itself. */
  function SelfDuplicate<T>(node: Combine<T>, h: T, k: nat): T
    decreases k
  {
    if k == 0 then h else SelfDuplicate(node, node(h, h), k - 1)
  }

  /** One drain step: the top entry is lifted to its neighbour's level and combined with it. */
  function Settle<T>(node: Combine<T>, next: Entry<T>, top: Entry<T>): Entry<T> {
    var gap := if top.level < next.level then next.level - top.level else 0;
    Entry(node(next.hash, SelfDuplicate(node, top.hash, gap)), top.level + gap + 1)
  }

  function Drain<T>(node: Combine<T>, stack: seq<Entry<T>>): T
    requires stack != []
    decreases |stack|
  {
    var n := |stack|;
    if n == 1 then stack[0].hash
    else Drain(node, stack[..n - 2] + [Settle(node, stack[n - 2], stack[n - 1])])
  }

  // ---- The stack is a binary counter of the leaves seen ----

  datatype Binary = Zero | Even(half: Binary) | Odd(half: Binary)

  function Value(c: Binary): nat {
    match c
    case Zero => 0
    case Even(h) => 2 * Value(h)
    case Odd(h) => 2 * Value(h) + 1
  }

  function Ones(c: Binary): nat {
    match c
    case Zero => 0
    case Even(h) => Ones(h)
    case Odd(h) => 1 + Ones(h)
  }

  function Next(c: Binary): (n: Binary)
    ensures Value(n) == Value(c) + 1
  {
    match c
    case Zero => Odd(Zero)
    case Even(h) => Odd(h)
    case Odd(h) => Even(Next(h))
  }

  function Count(i: nat): (c: Binary)
    ensures Value(c) == i
  {
    if i == 0 then Zero else Next(Count(i - 1))
  }

  /** A count with `k` one bits is at least `2^k - 1`. */
  lemma {:induction false} OnesBound(c: Binary)
    ensures Value(c) >= Pow2(Ones(c)) - 1
  {
    match c
    case Zero =>
    case Even(h) => OnesBound(h);
    case Odd(h) => OnesBound(h);
  }

  lemma {:induction false} Pow2Monotone(j: nat, k: nat)
    requires j <= k
    ensures Pow2(j) <= Pow2(k)
  {
    if j > 0 {
      Pow2Monotone(j - 1, k - 1);
    } else if k > 0 {
      Pow2Monotone(0, k - 1);
    }
  }

  lemma {:induction false} DepthBound(c: Binary)
    requires Value(c) <= 62
    ensures Ones(c) <= 5
  {
    OnesBound(c);
    assert Pow2(2) == 4 && Pow2(4) == 16 && Pow2(6) == 64;
    if Ones(c) >= 6 {
      Pow2Monotone(6, Ones(c));
    }
  }

  /** The perfect subtrees that tile the first `Value(c)` of the nodes `xs`, which sit
      at level `base`: largest first, one per one bit of `c`. */
  function Tiling<T>(node: Combine<T>, xs: seq<T>, c: Binary, base: nat): seq<Entry<T>>
    requires Value(c) <= |xs|
    decreases c
  {
    match c
    case Zero => []
    case Even(h) => Tiling(node, Level(node, xs), h, base + 1)
    case Odd(h) => Tiling(node, Level(node, xs), h, base + 1) + [Entry(xs[2 * Value(h)], base)]
  }

  /** The stack holds as many entries as the count has one bits, at strictly falling levels. */
  lemma {:induction false} TilingShape<T>(node: Combine<T>, xs: seq<T>, c: Binary, base: nat)
    requires Value(c) <= |xs|
    ensures |Tiling(node, xs, c, base)| == Ones(c)
    ensures forall k :: 0 <= k < |Tiling(node, xs, c, base)| ==> Tiling(node, xs, c, base)[k].level >= base
    ensures forall j, k :: 0 <= j < k < |Tiling(node, xs, c, base)| ==>
              Tiling(node, xs, c, base)[j].level > Tiling(node, xs, c, base)[k].level
    ensures Value(c) > 0 ==> Tiling(node, xs, c, base) != []
    decreases c
  {
    match c
    case Zero =>
    case Even(h) => TilingShape(node, Level(node, xs), h, base + 1);
    case Odd(h) => TilingShape(node, Level(node, xs), h, base + 1);
  }

  /** Pushing the second leaf of a pair is pushing the pair one level up. */
  lemma {:induction false} PushPair<T>(node: Combine<T>, stack: seq<Entry<T>>, l: T, r: T, base: nat)
    ensures Push(node, stack + [Entry(l, base)], r, base) == Push(node, stack, node(l, r), base + 1)
  {
    assert (stack + [Entry(l, base)])[..|stack|] == stack;
  }

  lemma {:induction false} PushOnZero<T>(node: Combine<T>, xs: seq<T>, base: nat)
    requires xs != []
    ensures Push(node, Tiling(node, xs, Zero, base), xs[Value(Zero)], base) == Tiling(node, xs, Next(Zero), base)
  {
    assert Tiling(node, xs, Odd(Zero), base) == Tiling(node, Level(node, xs), Zero, base + 1) + [Entry(xs[0], base)];
  }

  /** On an even count no subtree has the leaf's level, so nothing collapses. */
  lemma {:induction false} PushOnEven<T>(node: Combine<T>, xs: seq<T>, h: Binary, base: nat)
    requires 2 * Value(h) < |xs|
    ensures Push(node, Tiling(node, xs, Even(h), base), xs[2 * Value(h)], base) == Tiling(node, xs, Odd(h), base)
  {
    TilingShape(node, Level(node, xs), h, base + 1);
  }

  lemma {:induction false} LevelPair<T>(node: Combine<T>, xs: seq<T>, j: nat)
    requires 2 * j + 1 < |xs|
    ensures j < |Level(node, xs)| && Level(node, xs)[j] == node(xs[2 * j], xs[2 * j + 1])
  {
    LevelAt(node, xs, j);
  }

  lemma {:induction false} TilingOdd<T>(node: Combine<T>, xs: seq<T>, h: Binary, base: nat, below: seq<Entry<T>>)
    requires 2 * Value(h) + 1 <= |xs| && below == Tiling(node, Level(node, xs), h, base + 1)
    ensures Tiling(node, xs, Odd(h), base) == below + [Entry(xs[2 * Value(h)], base)]
  {
  }

  /** On an odd count the leaf pairs with its left neighbour, and the pair is pushed one level up. */
  lemma {:induction false} PushOnOdd<T>(node: Combine<T>, xs: seq<T>, h: Binary, base: nat, below: seq<Entry<T>>)
    requires 2 * Value(h) + 1 < |xs| && below == Tiling(node, Level(node, xs), h, base + 1)
    ensures Push(node, Tiling(node, xs, Odd(h), base), xs[2 * Value(h) + 1], base) ==
            Push(node, below, Level(node, xs)[Value(h)], base + 1)
  {
    LevelPair(node, xs, Value(h));
    TilingOdd(node, xs, h, base, below);
    PushPair(node, below, xs[2 * Value(h)], xs[2 * Value(h) + 1], base);
  }

  /** Pushing one more leaf turns the tiling of `c` leaves into the tiling of `c + 1`. */
  lemma {:induction false} PushKeepsTiling<T>(node: Combine<T>, xs: seq<T>, c: Binary, base: nat)
    requires Value(c) < |xs|
    ensures Push(node, Tiling(node, xs, c, base), xs[Value(c)], base) == Tiling(node, xs, Next(c), base)
    decreases c
  {
    match c
    case Zero => PushOnZero(node, xs, base);
    case Even(h) => PushOnEven(node, xs, h, base);
    case Odd(h) =>
      var up := Level(node, xs);
      PushOnOdd(node, xs, h, base, Tiling(node, up, h, base + 1));
      PushKeepsTiling(node, up, h, base + 1);
  }

  lemma {:induction false} PushAllNext<T>(node: Combine<T>, xs: seq<T>, i: nat)
    requires 0 < i <= |xs|
    ensures PushAll(node, xs[..i]) == Push(node, PushAll(node, xs[..i - 1]), xs[i - 1], 0)
  {
    assert xs[..i][..i - 1] == xs[..i - 1];
  }

  lemma {:induction false} PushAllIsTiling<T>(node: Combine<T>, xs: seq<T>, i: nat)
    requires i <= |xs|
    ensures PushAll(node, xs[..i]) == Tiling(node, xs, Count(i), 0)
  {
    if i > 0 {
      PushAllIsTiling(node, xs, i - 1);
      PushAllNext(node, xs, i);
      PushKeepsTiling(node, xs, Count(i - 1), 0);
    }
  }

  // ---- Draining the stack completes the textbook tree ----

  lemma {:induction false} DrainTop<T>(node: Combine<T>, stack: seq<Entry<T>>, top: Entry<T>)
    requires stack != []
    ensures Drain(node, stack + [top]) ==
            Drain(node, stack[..|stack| - 1] + [Settle(node, stack[|stack| - 1], top)])
  {
    assert (stack + [top])[..|stack| - 1] == stack[..|stack| - 1];
  }

  /** Draining with a subtree on top gives what draining after a collapsing push gives. */
  lemma {:induction false} DrainAfterPush<T>(node: Combine<T>, stack: seq<Entry<T>>, h: T, level: nat)
    ensures Push(node, stack, h, level) != []
    ensures Drain(node, stack + [Entry(h, level)]) == Drain(node, Push(node, stack, h, level))
    decreases |stack|
  {
    var n := |stack|;
    if n > 0 && stack[n - 1].level == level {
      DrainAfterPush(node, stack[..n - 1], node(stack[n - 1].hash, h), level + 1);
      DrainTop(node, stack, Entry(h, level));
    }
  }

  lemma {:induction false} SettleDuplicate<T>(node: Combine<T>, next: Entry<T>, h: T, level: nat)
    requires level < next.level
    ensures Settle(node, next, Entry(h, level)) == Settle(node, next, Entry(node(h, h), level + 1))
  {
  }

  /** One round of self-duplication below a higher neighbour leaves the drained root alone. */
  lemma {:induction false} DrainDuplicate<T>(node: Combine<T>, stack: seq<Entry<T>>, h: T, level: nat)
    requires stack != [] && level < stack[|stack| - 1].level
    ensures Drain(node, stack + [Entry(h, level)]) == Drain(node, stack + [Entry(node(h, h), level + 1)])
  {
    SettleDuplicate(node, stack[|stack| - 1], h, level);
    DrainTop(node, stack, Entry(h, level));
    DrainTop(node, stack, Entry(node(h, h), level + 1));
  }

  /** An orphan on the right edge of an odd level counts as its own twin one level up. */
  lemma {:induction false} DrainOddLevel<T>(node: Combine<T>, xs: seq<T>, h: Binary, base: nat)
    requires |xs| == 2 * Value(h) + 1 && Value(h) > 0
    ensures Tiling(node, xs, Odd(h), base) != [] && Tiling(node, Level(node, xs), Next(h), base + 1) != []
    ensures Drain(node, Tiling(node, xs, Odd(h), base)) ==
            Drain(node, Tiling(node, Level(node, xs), Next(h), base + 1))
  {
    var up, orphan := Level(node, xs), xs[2 * Value(h)];
    var below := Tiling(node, up, h, base + 1);
    TilingShape(node, up, h, base + 1);
    DrainDuplicate(node, below, orphan, base);
    DrainAfterPush(node, below, node(orphan, orphan), base + 1);
    LevelAt(node, xs, Value(h));
    PushKeepsTiling(node, up, h, base + 1);
  }

  lemma {:induction false} DrainIsRoot<T>(node: Combine<T>, xs: seq<T>, c: Binary, base: nat)
    requires xs != [] && |xs| == Value(c)
    ensures Tiling(node, xs, c, base) != []
    ensures Drain(node, Tiling(node, xs, c, base)) == Root(node, xs)
    decreases |xs|, c
  {
    var up := Level(node, xs);
    match c
    case Zero =>
    case Even(h) =>
      DrainIsRoot(node, up, h, base + 1);
    case Odd(h) =>
      if Value(h) == 0 {
        TilingShape(node, up, h, base + 1);
        OnesBound(h);
      } else {
        DrainIsRoot(node, up, Next(h), base + 1);
        DrainOddLevel(node, xs, h, base);
      }
  }

  /** For every non-empty leaf list the streaming fold and drain give the root
      of the textbook tree. */
  lemma {:induction false} StreamingIsTextbook<T>(node: Combine<T>, leaves: seq<T>)
    requires leaves != []
    ensures PushAll(node, leaves) != []
    ensures Drain(node, PushAll(node, leaves)) == Root(node, leaves)
  {
    assert leaves[..|leaves|] == leaves;
    PushAllIsTiling(node, leaves, |leaves|);
    DrainIsRoot(node, leaves, Count(|leaves|), 0);
  }

  // ---- Equal roots over different leaves pin down a collision of `node` ----

  /** The pairs combined on the way from `xs` to its root, level by level. */
  function TreePairs<T>(node: Combine<T>, xs: seq<T>): seq<(T, T)>
    decreases |xs|
  {
    if |xs| <= 1 then []
    else seq((|xs| + 1) / 2, j requires 0 <= j < (|xs| + 1) / 2 => Pair(xs, j)) + TreePairs(node, Level(node, xs))
  }

  lemma {:induction false} PairIsCombined<T>(node: Combine<T>, xs: seq<T>, j: nat)
    requires |xs| > 1 && 2 * j < |xs|
    ensures Pair(xs, j) in TreePairs(node, xs)
  {
    assert TreePairs(node, xs)[j] == Pair(xs, j);
  }

  lemma {:induction false} PairsDiffer<T>(xs: seq<T>, ys: seq<T>, k: nat, j: nat)
    requires |xs| == |ys| && k < |xs| && xs[k] != ys[k] && (k == 2 * j || k == 2 * j + 1)
    ensures Pair(xs, j) != Pair(ys, j)
  {
  }

  lemma {:induction false} LevelsAgree<T>(node: Combine<T>, xs: seq<T>, ys: seq<T>, j: nat)
    requires 2 * j < |xs| == |ys| && Level(node, xs) == Level(node, ys)
    ensures node(Pair(xs, j).0, Pair(xs, j).1) == node(Pair(ys, j).0, Pair(ys, j).1)
  {
    LevelAt(node, xs, j);
    LevelAt(node, ys, j);
  }

  /** Walk down two equal-sized trees with one root to the first level where they
      part, and return the two pairs that `node` maps to the same value there. */
  function RootClash<T(==)>(node: Combine<T>, xs: seq<T>, ys: seq<T>): (c: ((T, T), (T, T)))
    requires |xs| == |ys| && xs != [] && xs != ys && Root(node, xs) == Root(node, ys)
    ensures c.0 != c.1 && node(c.0.0, c.0.1) == node(c.1.0, c.1.1)
    ensures c.0 in TreePairs(node, xs) && c.1 in TreePairs(node, ys)
    decreases |xs|
  {
    assert |xs| > 1;
    if Level(node, xs) != Level(node, ys) then
      RootClash(node, Level(node, xs), Level(node, ys))
    else
      var j := FirstDifference(xs, ys) / 2;
      PairsDiffer(xs, ys, FirstDifference(xs, ys), j);
      LevelsAgree(node, xs, ys, j);
      PairIsCombined(node, xs, j);
      PairIsCombined(node, ys, j);
      (Pair(xs, j), Pair(ys, j))
  }
}
