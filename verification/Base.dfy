/** Machine integers, byte strings and the small result types every other module uses. */
module Base {
  type byte = b: int | 0 <= b < 0x100
  type u16 = n: int | 0 <= n < 0x1_0000
  type u32 = n: int | 0 <= n < 0x1_0000_0000
  type u64 = n: int | 0 <= n < 0x1_0000_0000_0000_0000

  const U64_MAX: u64 := 0xFFFF_FFFF_FFFF_FFFF

  type Bytes = seq<byte>

  function Zeros(n: nat): (z: Bytes)
    ensures |z| == n
  {
    seq(n, _ => 0)
  }

  type Digest = d: Bytes | |d| == 32 witness Zeros(32)
  type Address = Digest

  /** SHA-256, left uninterpreted: only its output length is fixed. */
  type Hash = Bytes -> Digest

  datatype Option<+T> = None | Some(value: T)
  datatype Result<+T, +E> = Ok(value: T) | Err(error: E)

  /** The truncating casts `as u8` and `as u16`. */
  function ToU8(n: nat): (b: byte)
    ensures n < 0x100 ==> b == n
  {
    n % 0x100
  }

  function ToU16(n: nat): (w: u16)
    ensures n < 0x1_0000 ==> w == n
  {
    n % 0x1_0000
  }

  function Concat(parts: seq<Bytes>): Bytes {
    if parts == [] then [] else parts[0] + Concat(parts[1..])
  }

  lemma {:induction false} ConcatAppend(a: seq<Bytes>, b: seq<Bytes>)
    ensures Concat(a + b) == Concat(a) + Concat(b)
  {
    if a == [] {
      assert a + b == b;
    } else {
      assert (a + b)[1..] == a[1..] + b;
      ConcatAppend(a[1..], b);
    }
  }

  lemma {:induction false} ConcatPush(a: seq<Bytes>, x: Bytes)
    ensures Concat(a + [x]) == Concat(a) + x
  {
    ConcatAppend(a, [x]);
    assert Concat([x]) == x + Concat([]);
  }

  lemma {:induction false} ConcatLength(parts: seq<Bytes>, n: nat)
    requires forall i :: 0 <= i < |parts| ==> |parts[i]| == n
    ensures |Concat(parts)| == |parts| * n
  {
    if parts != [] {
      ConcatLength(parts[1..], n);
      assert |parts| * n == n + (|parts| - 1) * n;
    }
  }

  /** Item i of a row of 32-byte items. */
  lemma {:induction false} ConcatAt(xs: seq<Digest>, i: nat)
    requires i < |xs|
    ensures |Concat(xs)| == 32 * |xs| && Concat(xs)[32 * i..32 * i + 32] == xs[i]
  {
    ConcatLength(xs, 32);
    ConcatLength(xs[1..], 32);
    assert Concat(xs) == xs[0] + Concat(xs[1..]);
    if i > 0 {
      ConcatAt(xs[1..], i - 1);
      assert Concat(xs)[32 * i..32 * i + 32] == Concat(xs[1..])[32 * (i - 1)..32 * (i - 1) + 32];
    }
  }

  /** Little-endian and big-endian encodings of the fixed-width integers. */
  function U16Le(n: u16): (b: Bytes)
    ensures |b| == 2
  {
    [n % 256, n / 256]
  }

  function FromU16Le(lo: byte, hi: byte): u16 {
    lo as int + 0x100 * (hi as int)
  }

  lemma {:induction false} U16LeOfBytes(lo: byte, hi: byte)
    ensures U16Le(FromU16Le(lo, hi)) == [lo, hi]
  {
  }

  lemma {:induction false} U16RoundTrip(n: u16)
    ensures FromU16Le(U16Le(n)[0], U16Le(n)[1]) == n
  {
  }

  /** Little-endian integers of any width. */
  function LeBytes(n: nat, width: nat): (b: Bytes)
    ensures |b| == width
    decreases width
  {
    if width == 0 then [] else [n % 256] + LeBytes(n / 256, width - 1)
  }

  function FromLe(b: Bytes): nat {
    if b == [] then 0 else b[0] as int + 0x100 * FromLe(b[1..])
  }

  function Pow256(k: nat): nat { if k == 0 then 1 else 0x100 * Pow256(k - 1) }

  lemma {:induction false} FromLeBound(b: Bytes)
    ensures FromLe(b) < Pow256(|b|)
  {
    if b != [] {
      FromLeBound(b[1..]);
    }
  }

  lemma {:induction false} LeRoundTrip(n: nat, width: nat)
    requires n < Pow256(width)
    ensures FromLe(LeBytes(n, width)) == n
    decreases width
  {
    if width > 0 {
      LeRoundTrip(n / 256, width - 1);
    }
  }

  lemma {:induction false} Pow256Of8()
    ensures Pow256(8) == 0x1_0000_0000_0000_0000
  {
    assert Pow256(2) == 0x1_0000 && Pow256(4) == 0x1_0000_0000 && Pow256(6) == 0x1_0000_0000_0000;
  }

  function U64Le(n: u64): (b: Bytes)
    ensures |b| == 8
  {
    LeBytes(n, 8)
  }

  function FromU64Le(b: Bytes): u64
    requires |b| == 8
  {
    FromLeBound(b);
    Pow256Of8();
    FromLe(b)
  }

  lemma {:induction false} U64RoundTrip(n: u64)
    ensures FromU64Le(U64Le(n)) == n
  {
    Pow256Of8();
    LeRoundTrip(n, 8);
  }

  lemma {:induction false} FromLeNext(b: Bytes)
    requires b != []
    ensures FromLe(b) == b[0] as int + 0x100 * FromLe(b[1..])
    ensures |b| > 1 ==> b[1..][1..] == b[2..]
  {
  }

  /** The low byte first. */
  lemma {:induction false} U64LeBytes(n: u64)
    ensures var b := U64Le(n);
            n as int == b[0] as int + 0x100 * (b[1] as int) + 0x1_0000 * (b[2] as int) + 0x100_0000 * (b[3] as int)
                        + 0x1_0000_0000 * (b[4] as int) + 0x100_0000_0000 * (b[5] as int)
                        + 0x1_0000_0000_0000 * (b[6] as int) + 0x100_0000_0000_0000 * (b[7] as int)
  {
    var b := U64Le(n);
    U64RoundTrip(n);
    FromLeNext(b);
    FromLeNext(b[1..]);
    FromLeNext(b[2..]);
    FromLeNext(b[3..]);
    FromLeNext(b[4..]);
    FromLeNext(b[5..]);
    FromLeNext(b[6..]);
    FromLeNext(b[7..]);
    assert b[8..] == [];
  }

  function U32Be(n: u32): (b: Bytes)
    ensures |b| == 4
  {
    [n / 0x100_0000, n / 0x1_0000 % 256, n / 0x100 % 256, n % 256]
  }

  function FromU32Be(b: Bytes): int
    requires |b| == 4
  {
    0x100_0000 * (b[0] as int) + 0x1_0000 * (b[1] as int) + 0x100 * (b[2] as int) + b[3] as int
  }

  lemma {:induction false} U32BeRoundTrip(n: u32)
    ensures FromU32Be(U32Be(n)) == n
  {
    assert n / 0x100 % 256 == n / 0x100 - 256 * (n / 0x1_0000);
    assert n / 0x1_0000 % 256 == n / 0x1_0000 - 256 * (n / 0x100_0000);
  }

  function Pow2(k: nat): (p: nat)
    ensures p > k
  {
    if k == 0 then 1 else 2 * Pow2(k - 1)
  }

  /** The first index of an element, or the length when there is none. */
  function FirstIndex<T(==)>(s: seq<T>, x: T): (k: nat)
    ensures k <= |s| && (k < |s| ==> s[k] == x)
    ensures forall i :: 0 <= i < k ==> s[i] != x
  {
    if s == [] || s[0] == x then 0 else 1 + FirstIndex(s[1..], x)
  }

  /** The first index at which two different sequences of one length disagree. */
  function FirstDifference<T(==)>(a: seq<T>, b: seq<T>): (k: nat)
    requires |a| == |b| && a != b
    ensures k < |a| && a[k] != b[k] && a[..k] == b[..k]
  {
    if a[0] != b[0] then 0
    else
      assert a == [a[0]] + a[1..] && b == [b[0]] + b[1..];
      var k := FirstDifference(a[1..], b[1..]);
      assert a[..k + 1] == [a[0]] + a[1..][..k];
      assert b[..k + 1] == [b[0]] + b[1..][..k];
      k + 1
  }
}
