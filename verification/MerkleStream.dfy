/** The in-place algorithm: a stack of at most five subtrees, filled leaf by leaf and drained. */
module MerkleStream {
  import opened Base
  import opened Merkle

  const MAX_DEPTH := 5

  /** The abstract stack held in the first slots of the two buffers. */
  function View<T>(hashes: seq<T>, levels: seq<byte>): (stack: seq<Entry<T>>)
    requires |hashes| == |levels|
    ensures |stack| == |hashes|
  {
    seq(|hashes|, i requires 0 <= i < |hashes| => Entry(hashes[i], levels[i]))
  }

  lemma {:induction false} ViewTop<T>(hashes: seq<T>, levels: seq<byte>, n: nat)
    requires n < |hashes| == |levels|
    ensures View(hashes[..n + 1], levels[..n + 1]) == View(hashes[..n], levels[..n]) + [Entry(hashes[n], levels[n])]
  {
  }

  lemma {:induction false} ViewWrite<T>(hashes: seq<T>, levels: seq<byte>, n: nat, h: T, level: byte)
    requires n < |hashes| == |levels|
    ensures View(hashes[n := h][..n + 1], levels[n := level][..n + 1]) ==
            View(hashes[..n], levels[..n]) + [Entry(h, level)]
  {
  }

  lemma {:induction false} PopTop<T>(node: Combine<T>, hs: seq<T>, ls: seq<byte>, n: nat, h: T, level: byte)
    requires n < |hs| == |ls| && ls[n] == level
    ensures Push(node, View(hs[..n + 1], ls[..n + 1]), h, level) ==
            Push(node, View(hs[..n], ls[..n]), node(hs[n], h), level + 1)
  {
    ViewTop(hs, ls, n);
    var top := View(hs[..n], ls[..n]) + [Entry(hs[n], ls[n])];
    assert top[..|top| - 1] == View(hs[..n], ls[..n]);
  }

  /** Collapse equal levels from the top of the stack. */
  method Collapse<T>(node: Combine<T>, stack: array<T>, levels: array<byte>, n: nat, leaf: T)
      returns (h: T, level: byte, len: nat)
    requires stack.Length == levels.Length == MAX_DEPTH && n <= MAX_DEPTH
    ensures len + level == n && (len > 0 ==> levels[len - 1] != level)
    ensures Push(node, View(stack[..len], levels[..len]), h, level)
         == Push(node, View(stack[..n], levels[..n]), leaf, 0)
  {
    h, level, len := leaf, 0, n;
    while len > 0 && levels[len - 1] == level
      invariant len + level == n
      invariant Push(node, View(stack[..len], levels[..len]), h, level)
             == Push(node, View(stack[..n], levels[..n]), leaf, 0)
      decreases len
    {
      PopTop(node, stack[..], levels[..], len - 1, h, level);
      assert stack[..][..len] == stack[..len] && levels[..][..len] == levels[..len];
      assert stack[..][..len - 1] == stack[..len - 1] && levels[..][..len - 1] == levels[..len - 1];
      h := node(stack[len - 1], h);
      level := level + 1;
      len := len - 1;
    }
  }

  /** Once the top level differs, pushing is appending. */
  lemma {:induction false} Settled<T>(node: Combine<T>, hs: seq<T>, ls: seq<byte>, len: nat, h: T, level: byte)
    requires len <= |hs| == |ls| && (len > 0 ==> ls[len - 1] != level)
    ensures Push(node, View(hs[..len], ls[..len]), h, level) == View(hs[..len], ls[..len]) + [Entry(h, level)]
  {
    if len > 0 {
      ViewTop(hs, ls, len - 1);
    }
  }

  /** Push one leaf: collapse equal levels, then store the new subtree. */
  method PushLeaf<T>(node: Combine<T>, stack: array<T>, levels: array<byte>, n: nat, leaf: T) returns (len: nat)
    requires stack.Length == levels.Length == MAX_DEPTH && n <= MAX_DEPTH && stack as object != levels
    requires |Push(node, View(stack[..n], levels[..n]), leaf, 0)| <= MAX_DEPTH
    requires forall k :: 0 <= k < n ==> levels[k] <= MAX_DEPTH
    modifies stack, levels
    ensures len <= MAX_DEPTH
    ensures View(stack[..len], levels[..len]) == old(Push(node, View(stack[..n], levels[..n]), leaf, 0))
    ensures forall k :: 0 <= k < len ==> levels[k] <= MAX_DEPTH
  {
    var h, level;
    h, level, len := Collapse(node, stack, levels, n, leaf);
    ghost var hs, ls := stack[..], levels[..];
    assert stack[..len] == hs[..len] && levels[..len] == ls[..len];
    Settled(node, hs, ls, len, h, level);
    stack[len] := h;
    levels[len] := level;
    assert stack[..] == hs[len := h] && levels[..] == ls[len := level];
    assert stack[..len + 1] == hs[len := h][..len + 1] && levels[..len + 1] == ls[len := level][..len + 1];
    ViewWrite(hs, ls, len, h, level);
    len := len + 1;
  }

  function Gap(level: nat, next: nat): nat { if level < next then next - level else 0 }

  /** Lift an orphan to its neighbour's level by repeated self-duplication. */
  method Lift<T>(node: Combine<T>, h: T, level: byte, nextLevel: byte) returns (top: T, topLevel: byte)
    ensures top == SelfDuplicate(node, h, Gap(level, nextLevel))
    ensures topLevel == level + Gap(level, nextLevel)
  {
    top, topLevel := h, level;
    while topLevel < nextLevel
      invariant topLevel + Gap(topLevel, nextLevel) == level + Gap(level, nextLevel)
      invariant SelfDuplicate(node, top, Gap(topLevel, nextLevel)) == SelfDuplicate(node, h, Gap(level, nextLevel))
    {
      top := node(top, top);
      topLevel := topLevel + 1;
    }
  }

  /** The two top entries of a stack drain as their settled combination. */
  lemma {:induction false} DrainTwo<T>(node: Combine<T>, rest: seq<Entry<T>>, below: Entry<T>, top: Entry<T>)
    ensures Drain(node, rest + [below] + [top]) == Drain(node, rest + [Settle(node, below, top)])
  {
    DrainTop(node, rest + [below], top);
    assert (rest + [below])[..|rest + [below]| - 1] == rest;
  }

  lemma {:induction false} DrainView<T>(node: Combine<T>, hs: seq<T>, ls: seq<byte>, len: nat, level: byte)
    requires 2 <= len <= |hs| == |ls| && level == ls[len - 1] + Gap(ls[len - 1], ls[len - 2]) + 1
    ensures var top := SelfDuplicate(node, hs[len - 1], Gap(ls[len - 1], ls[len - 2]));
            Drain(node, View(hs[..len], ls[..len])) ==
            Drain(node, View(hs[len - 2 := node(hs[len - 2], top)][..len - 1], ls[len - 2 := level][..len - 1]))
  {
    var top := SelfDuplicate(node, hs[len - 1], Gap(ls[len - 1], ls[len - 2]));
    ViewTop(hs, ls, len - 1);
    ViewTop(hs, ls, len - 2);
    DrainTwo(node, View(hs[..len - 2], ls[..len - 2]), Entry(hs[len - 2], ls[len - 2]),
             Entry(hs[len - 1], ls[len - 1]));
    ViewWrite(hs, ls, len - 2, node(hs[len - 2], top), level);
  }

  /** One drain step: fold the lifted top into its neighbour. */
  method SettleTop<T>(node: Combine<T>, stack: array<T>, levels: array<byte>, len: nat, ghost bound: nat)
    requires stack.Length == levels.Length == MAX_DEPTH && 2 <= len <= MAX_DEPTH && stack as object != levels
    requires bound < 255 && forall k :: 0 <= k < len ==> levels[k] <= bound
    modifies stack, levels
    ensures Drain(node, View(stack[..len - 1], levels[..len - 1]))
         == old(Drain(node, View(stack[..len], levels[..len])))
    ensures forall k :: 0 <= k < len - 1 ==> levels[k] <= bound + 1
  {
    ghost var hs, ls := stack[..], levels[..];
    assert hs[..len] == stack[..len] && ls[..len] == levels[..len];
    var top, topLevel := Lift(node, stack[len - 1], levels[len - 1], levels[len - 2]);
    stack[len - 2] := node(stack[len - 2], top);
    levels[len - 2] := topLevel + 1;
    DrainView(node, hs, ls, len, topLevel + 1);
    assert stack[..len - 1] == hs[len - 2 := stack[len - 2]][..len - 1];
    assert levels[..len - 1] == ls[len - 2 := topLevel + 1][..len - 1];
  }

  /** The whole algorithm. The five slots suffice for up to 62 leaves. */
  method StreamRoot<S, T(0)>(leaf: S -> T, node: Combine<T>, scalars: seq<S>) returns (root: T)
    requires 1 <= |scalars| <= 62
    ensures root == Root(node, Leaves(leaf, scalars))
  {
    ghost var leaves := Leaves(leaf, scalars);
    var stack, levels := new T[MAX_DEPTH], new byte[MAX_DEPTH](_ => 0);
    var len := 0;
    for i := 0 to |scalars|
      invariant 0 <= len <= MAX_DEPTH && fresh(stack) && fresh(levels)
      invariant View(stack[..len], levels[..len]) == Tiling(node, leaves, Count(i), 0)
      invariant forall k :: 0 <= k < len ==> levels[k] <= MAX_DEPTH
    {
      PushKeepsTiling(node, leaves, Count(i), 0);
      TilingShape(node, leaves, Count(i + 1), 0);
      DepthBound(Count(i + 1));
      len := PushLeaf(node, stack, levels, len, leaf(scalars[i]));
    }
    DrainIsRoot(node, leaves, Count(|scalars|), 0);
    ghost var bound := MAX_DEPTH;
    while len > 1
      invariant 1 <= len <= MAX_DEPTH && bound + len <= 2 * MAX_DEPTH
      invariant Drain(node, View(stack[..len], levels[..len])) == Root(node, leaves)
      invariant forall k :: 0 <= k < len ==> levels[k] <= bound
    {
      SettleTop(node, stack, levels, len, bound);
      len, bound := len - 1, bound + 1;
    }
    root := stack[0];
  }
}
