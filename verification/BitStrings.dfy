/** Numbers of a fixed width as bit strings, most significant bit first, and the single-bit operations. */
module BitStrings {
  import opened Base

  /** (n >> k) & 1 */
  predicate Bit(n: nat, k: nat) {
    if k == 0 then n % 2 == 1 else Bit(n / 2, k - 1)
  }

  function BitString(n: nat, w: nat): (b: seq<bool>)
    ensures |b| == w && forall i :: 0 <= i < w ==> b[i] == Bit(n, w - 1 - i)
  {
    seq(w, i requires 0 <= i < w => Bit(n, w - 1 - i))
  }

  function Number(b: seq<bool>): nat {
    if b == [] then 0 else 2 * Number(b[..|b| - 1]) + if b[|b| - 1] then 1 else 0
  }

  lemma {:induction false} NumberOfBits(n: nat, w: nat)
    requires n < Pow2(w)
    ensures Number(BitString(n, w)) == n
    decreases w
  {
    if w > 0 {
      NumberOfBits(n / 2, w - 1);
      assert BitString(n, w)[..w - 1] == BitString(n / 2, w - 1);
    }
  }

  lemma {:induction false} BitsOfNumber(b: seq<bool>)
    ensures Number(b) < Pow2(|b|)
    ensures BitString(Number(b), |b|) == b
  {
    if b != [] {
      var front, last := b[..|b| - 1], b[|b| - 1];
      BitsOfNumber(front);
      forall i | 0 <= i < |b|
        ensures Bit(Number(b), |b| - 1 - i) == b[i]
      {
        assert Number(b) / 2 == Number(front);
        if i < |front| {
          assert BitString(Number(front), |front|)[i] == front[i];
        }
      }
    }
  }

  /** n | (1 << k) */
  function SetBit(n: nat, k: nat): nat
    decreases k
  {
    if k == 0 then n - n % 2 + 1 else 2 * SetBit(n / 2, k - 1) + n % 2
  }

  lemma {:induction false} SetBitSets(n: nat, k: nat, j: nat)
    ensures Bit(SetBit(n, k), j) <==> j == k || Bit(n, j)
    decreases k
  {
    if k == 0 {
      assert SetBit(n, 0) / 2 == n / 2;
    } else {
      assert SetBit(n, k) / 2 == SetBit(n / 2, k - 1);
      if j > 0 {
        SetBitSets(n / 2, k - 1, j - 1);
      }
    }
  }

  lemma {:induction false} SetBitBound(n: nat, k: nat, w: nat)
    requires n < Pow2(w) && k < w
    ensures SetBit(n, k) < Pow2(w)
    decreases k
  {
    if k > 0 {
      SetBitBound(n / 2, k - 1, w - 1);
    } else {
      assert Pow2(w) == 2 * Pow2(w - 1);
    }
  }

  lemma {:induction false} SetInString(n: nat, w: nat, p: nat)
    requires n < Pow2(w) && p < w
    ensures SetBit(n, w - 1 - p) < Pow2(w)
    ensures BitString(SetBit(n, w - 1 - p), w) == BitString(n, w)[p := true]
  {
    SetBitBound(n, w - 1 - p, w);
    var set1 := SetBit(n, w - 1 - p);
    forall i | 0 <= i < w
      ensures BitString(set1, w)[i] == BitString(n, w)[p := true][i]
    {
      SetBitSets(n, w - 1 - p, w - 1 - i);
    }
  }

  lemma {:induction false} Pow2Of8()
    ensures Pow2(8) == 0x100
  {
  }

  lemma {:induction false} Pow2Of11()
    ensures Pow2(11) == 2048
  {
    assert Pow2(8) == 0x100;
  }

  /** n & (0xFF.. << s): the low s bits cleared */
  function ClearLow(n: nat, s: nat): nat
    decreases s
  {
    if s == 0 then n else 2 * ClearLow(n / 2, s - 1)
  }

  lemma {:induction false} ClearLowBits(n: nat, s: nat, j: nat)
    ensures Bit(ClearLow(n, s), j) <==> j >= s && Bit(n, j)
    decreases s
  {
    if s > 0 {
      assert ClearLow(n, s) / 2 == ClearLow(n / 2, s - 1) && ClearLow(n, s) % 2 == 0;
      if j > 0 {
        ClearLowBits(n / 2, s - 1, j - 1);
      }
    }
  }

  /** Equal above the mask is equal on the leading bits. */
  lemma {:induction false} ClearLowEqual(a: nat, b: nat, s: nat, w: nat)
    requires a < Pow2(w) && b < Pow2(w) && s <= w
    ensures ClearLow(a, s) == ClearLow(b, s) <==> BitString(a, w)[..w - s] == BitString(b, w)[..w - s]
    decreases s
  {
    if s == 0 {
      NumberOfBits(a, w);
      NumberOfBits(b, w);
      assert BitString(a, w)[..w] == BitString(a, w) && BitString(b, w)[..w] == BitString(b, w);
    } else {
      ClearLowEqual(a / 2, b / 2, s - 1, w - 1);
      assert BitString(a, w)[..w - s] == BitString(a / 2, w - 1)[..w - s];
      assert BitString(b, w)[..w - s] == BitString(b / 2, w - 1)[..w - s];
    }
  }

  // ---- Lists of fixed-width numbers ----

  function Join(ns: seq<nat>, w: nat): seq<bool> {
    if ns == [] then [] else BitString(ns[0], w) + Join(ns[1..], w)
  }

  function Cut(b: seq<bool>, w: nat): (ns: seq<nat>)
    requires w > 0
  {
    if |b| < w then [] else [Number(b[..w])] + Cut(b[w..], w)
  }

  /** A whole number of groups. */
  predicate Whole(b: seq<bool>, w: nat)
    requires w > 0
    decreases |b|
  {
    b == [] || (w <= |b| && Whole(b[w..], w))
  }

  predicate Below(ns: seq<nat>, bound: nat) { forall i :: 0 <= i < |ns| ==> ns[i] < bound }

  lemma {:induction false} CutOfJoin(ns: seq<nat>, w: nat)
    requires w > 0 && Below(ns, Pow2(w))
    ensures Cut(Join(ns, w), w) == ns
    ensures Whole(Join(ns, w), w)
  {
    if ns != [] {
      CutOfJoin(ns[1..], w);
      NumberOfBits(ns[0], w);
      var b := Join(ns, w);
      assert b[..w] == BitString(ns[0], w) && b[w..] == Join(ns[1..], w);
    }
  }

  lemma {:induction false} JoinOfCut(b: seq<bool>, w: nat)
    requires w > 0 && Whole(b, w)
    ensures Join(Cut(b, w), w) == b
    ensures Below(Cut(b, w), Pow2(w))
    decreases |b|
  {
    if b != [] {
      JoinOfCut(b[w..], w);
      BitsOfNumber(b[..w]);
      assert b == b[..w] + b[w..];
    }
  }

  lemma {:induction false} JoinAppend(a: seq<nat>, b: seq<nat>, w: nat)
    ensures Join(a + b, w) == Join(a, w) + Join(b, w)
  {
    if a == [] {
      assert a + b == b;
    } else {
      assert (a + b)[1..] == a[1..] + b;
      JoinAppend(a[1..], b, w);
    }
  }

  lemma {:induction false} JoinOne(n: nat, w: nat)
    ensures Join([n], w) == BitString(n, w)
  {
    assert Join([n], w) == BitString(n, w) + Join([n][1..], w);
  }

  // ---- As numbers ----

  /** The number with these digits, leading digit first. */
  function Digits(ns: seq<nat>, base: nat): nat {
    if ns == [] then 0 else Digits(ns[..|ns| - 1], base) * base + ns[|ns| - 1]
  }

  lemma {:induction false} NumberPush(b: seq<bool>, bit: bool)
    ensures Number(b + [bit]) == 2 * Number(b) + if bit then 1 else 0
  {
    assert (b + [bit])[..|b|] == b;
  }

  lemma {:induction false} Shifted(x: nat, p: nat, y: nat, bit: nat)
    ensures 2 * (x * p + y) + bit == x * (2 * p) + (2 * y + bit)
  {
  }

  lemma {:induction false} NumberAppend(a: seq<bool>, b: seq<bool>)
    ensures Number(a + b) == Number(a) * Pow2(|b|) + Number(b)
  {
    if b == [] {
      assert a + b == a;
    } else {
      var front, last := b[..|b| - 1], b[|b| - 1];
      assert a + b == (a + front) + [last];
      NumberPush(a + front, last);
      NumberAppend(a, front);
      Shifted(Number(a), Pow2(|front|), Number(front), if last then 1 else 0);
    }
  }

  lemma {:induction false} NumberOfJoin(ns: seq<nat>, w: nat)
    requires Below(ns, Pow2(w))
    ensures Number(Join(ns, w)) == Digits(ns, Pow2(w))
  {
    if ns != [] {
      var front, last := ns[..|ns| - 1], ns[|ns| - 1];
      NumberOfJoin(front, w);
      assert ns == front + [last];
      JoinAppend(front, [last], w);
      JoinOne(last, w);
      NumberAppend(Join(front, w), BitString(last, w));
      NumberOfBits(last, w);
    }
  }

  /** The leading k bits of a number of w bits. */
  lemma {:induction false} LeadingBits(n: nat, w: nat, k: nat)
    requires n < Pow2(w) && k <= w
    ensures var top := Number(BitString(n, w)[..k]);
            top * Pow2(w - k) <= n < (top + 1) * Pow2(w - k)
  {
    var b := BitString(n, w);
    NumberOfBits(n, w);
    NumberAppend(b[..k], b[k..]);
    BitsOfNumber(b[k..]);
    assert b == b[..k] + b[k..];
  }
}
