/** The mnemonic packer and its validator. */
module Bip39 {
  import opened Base
  import opened BitStrings

  datatype MnemonicError = InvalidMnemonic

  // ---- The byte buffer as a bit string ----

  lemma {:induction false} BufferLength(ns: seq<byte>)
    ensures |Join(ns, 8)| == 8 * |ns|
  {
    if ns != [] {
      BufferLength(ns[1..]);
    }
  }

  lemma {:induction false} EightLess(p: nat)
    requires 8 <= p
    ensures (p - 8) / 8 == p / 8 - 1 && (p - 8) % 8 == p % 8
  {
  }

  /** Bit p is bit 7 - p % 8 of byte p / 8. */
  lemma {:induction false} BufferAt(ns: seq<byte>, p: nat)
    requires p < 8 * |ns|
    ensures |Join(ns, 8)| == 8 * |ns|
    ensures Join(ns, 8)[p] == Bit(ns[p / 8], 7 - p % 8)
  {
    BufferLength(ns);
    if p >= 8 {
      BufferAt(ns[1..], p - 8);
      EightLess(p);
    } else {
      assert p / 8 == 0 && p % 8 == p;
    }
  }

  lemma {:induction false} SplitAt(ns: seq<byte>, i: nat)
    requires i < |ns|
    ensures Join(ns, 8) == Join(ns[..i], 8) + (BitString(ns[i], 8) + Join(ns[i + 1..], 8))
    ensures |Join(ns[..i], 8)| == 8 * i
  {
    assert ns == ns[..i] + ([ns[i]] + ns[i + 1..]);
    JoinAppend(ns[..i], [ns[i]] + ns[i + 1..], 8);
    JoinAppend([ns[i]], ns[i + 1..], 8);
    JoinOne(ns[i], 8);
    BufferLength(ns[..i]);
  }

  lemma {:induction false} UpdateInside(a: seq<bool>, b: seq<bool>, c: seq<bool>, j: nat)
    requires j < |b|
    ensures (a + (b + c))[|a| + j := true] == a + (b[j := true] + c)
  {
  }

  /** Setting bit j of byte i sets bit 8 * i + j of the string. */
  lemma {:induction false} BufferSetAt(ns: seq<byte>, i: nat, j: nat, x: byte)
    requires i < |ns| && j < 8 && BitString(x, 8) == BitString(ns[i], 8)[j := true]
    ensures |Join(ns, 8)| == 8 * |ns|
    ensures Join(ns[i := x], 8) == Join(ns, 8)[8 * i + j := true]
  {
    BufferLength(ns);
    SplitAt(ns, i);
    SplitAt(ns[i := x], i);
    assert ns[i := x][..i] == ns[..i] && ns[i := x][i + 1..] == ns[i + 1..];
    UpdateInside(Join(ns[..i], 8), BitString(ns[i], 8), Join(ns[i + 1..], 8), j);
  }

  lemma {:induction false} BufferSet(ns: seq<byte>, p: nat)
    requires p < 8 * |ns|
    ensures |Join(ns, 8)| == 8 * |ns|
    ensures SetBit(ns[p / 8], 7 - p % 8) < 0x100
    ensures Join(ns[p / 8 := SetBit(ns[p / 8], 7 - p % 8)], 8) == Join(ns, 8)[p := true]
  {
    Pow2Of8();
    SetInString(ns[p / 8], 8, p % 8);
    BufferSetAt(ns, p / 8, p % 8, SetBit(ns[p / 8], 7 - p % 8));
  }

  // ---- Words ----

  /** 2048 distinct words. */
  predicate WordList(ws: seq<string>) {
    |ws| == 2048 && forall i, j :: 0 <= i < j < |ws| ==> ws[i] != ws[j]
  }

  function Spell(ws: seq<string>, ns: seq<nat>): (m: seq<string>)
    requires Below(ns, |ws|)
    ensures |m| == |ns| && forall i :: 0 <= i < |ns| ==> m[i] == ws[ns[i]]
  {
    seq(|ns|, i requires 0 <= i < |ns| => ws[ns[i]])
  }

  function Indexes(ws: seq<string>, m: seq<string>): (ns: seq<nat>)
    ensures |ns| == |m| && forall i :: 0 <= i < |m| ==> ns[i] == FirstIndex(ws, m[i])
  {
    seq(|m|, i requires 0 <= i < |m| => FirstIndex(ws, m[i]))
  }

  predicate Known(ws: seq<string>, m: seq<string>) { Below(Indexes(ws, m), |ws|) }

  lemma {:induction false} IndexesOfSpell(ws: seq<string>, ns: seq<nat>)
    requires WordList(ws) && Below(ns, |ws|)
    ensures Indexes(ws, Spell(ws, ns)) == ns
  {
  }

  lemma {:induction false} SpellOfIndexes(ws: seq<string>, m: seq<string>)
    requires Known(ws, m)
    ensures Spell(ws, Indexes(ws, m)) == m
  {
  }

  // ---- Generating ----

  /** Entropy and its checksum byte, as the 264 bits that are cut into words. */
  function Checked(H: Hash, entropy: Bytes): Bytes { entropy + [H(entropy)[0]] }

  lemma {:induction false} WholeWords(b: seq<bool>, k: nat)
    requires |b| == 11 * k
    ensures Whole(b, 11) && |Cut(b, 11)| == k
  {
    if k > 0 {
      WholeWords(b[11..], k - 1);
    }
  }

  lemma {:induction false} CheckedWords(H: Hash, ws: seq<string>, entropy: Digest)
    requires WordList(ws)
    ensures Below(Cut(Join(Checked(H, entropy), 8), 11), |ws|)
    ensures |Join(Checked(H, entropy), 8)| == 264 && Whole(Join(Checked(H, entropy), 8), 11)
  {
    var b := Join(Checked(H, entropy), 8);
    BufferLength(Checked(H, entropy));
    WholeWords(b, 24);
    JoinOfCut(b, 11);
    Pow2Of11();
  }

  function Mnemonic(H: Hash, ws: seq<string>, entropy: Digest): seq<string>
    requires WordList(ws)
  {
    CheckedWords(H, ws, entropy);
    Spell(ws, Cut(Join(Checked(H, entropy), 8), 11))
  }

  lemma {:induction false} NumberNext(b: seq<bool>, start: nat, p: nat)
    requires start <= p < |b|
    ensures Number(b[start..p + 1]) == 2 * Number(b[start..p]) + if b[p] then 1 else 0
  {
    assert b[start..p + 1][..p - start] == b[start..p];
  }

  method ReadIndex(bits: array<byte>, start: nat) returns (idx: nat)
    requires start + 11 <= 8 * bits.Length
    ensures |Join(bits[..], 8)| == 8 * bits.Length && idx == Number(Join(bits[..], 8)[start..start + 11])
  {
    ghost var all := Join(bits[..], 8);
    BufferLength(bits[..]);
    idx := 0;
    for k := 0 to 11
      invariant idx == Number(all[start..start + k])
    {
      var p := start + k;
      BufferAt(bits[..], p);
      NumberNext(all, start, p);
      idx := 2 * idx + if Bit(bits[p / 8], 7 - p % 8) then 1 else 0;
    }
  }

  lemma {:induction false} SpellNext(ws: seq<string>, ns: seq<nat>)
    requires Below(ns, |ws|) && ns != []
    ensures Below(ns[1..], |ws|) && Spell(ws, ns) == [ws[ns[0]]] + Spell(ws, ns[1..])
  {
  }

  lemma {:induction false} CutNext(b: seq<bool>, w: nat)
    requires 0 < w <= |b|
    ensures Cut(b, w) != [] && Cut(b, w)[0] == Number(b[..w]) && Cut(b, w)[1..] == Cut(b[w..], w)
  {
  }

  lemma {:induction false} NextWord(ws: seq<string>, b: seq<bool>)
    requires 11 <= |b| && Below(Cut(b, 11), |ws|)
    ensures Number(b[..11]) < |ws| && Below(Cut(b[11..], 11), |ws|)
    ensures Spell(ws, Cut(b, 11)) == [ws[Number(b[..11])]] + Spell(ws, Cut(b[11..], 11))
  {
    CutNext(b, 11);
    SpellNext(ws, Cut(b, 11));
  }

  lemma {:induction false} NextSlot(ws: seq<string>, b: seq<bool>, p: nat)
    requires p + 11 <= |b| && Below(Cut(b[p..], 11), |ws|)
    ensures Number(b[p..p + 11]) < |ws| && Below(Cut(b[p + 11..], 11), |ws|)
    ensures Spell(ws, Cut(b[p..], 11)) == [ws[Number(b[p..p + 11])]] + Spell(ws, Cut(b[p + 11..], 11))
  {
    assert b[p..][..11] == b[p..p + 11] && b[p..][11..] == b[p + 11..];
    NextWord(ws, b[p..]);
  }

  method FillBuffer(H: Hash, entropy: Digest) returns (bits: array<byte>)
    ensures fresh(bits) && bits[..] == Checked(H, entropy)
  {
    bits := new byte[33];
    forall i | 0 <= i < 32 {
      bits[i] := entropy[i];
    }
    bits[32] := H(entropy)[0];
  }

  /** The words written so far and those still to be cut make the mnemonic. */
  ghost predicate Spelled(ws: seq<string>, words: seq<string>, rest: seq<bool>, target: seq<string>) {
    Below(Cut(rest, 11), |ws|) && words + Spell(ws, Cut(rest, 11)) == target
  }

  /** One more word. */
  lemma {:induction false} SpelledNext(ws: seq<string>, words: seq<string>, b: seq<bool>, p: nat, target: seq<string>)
    requires p + 11 <= |b| && Spelled(ws, words, b[p..], target)
    ensures Number(b[p..p + 11]) < |ws|
    ensures Spelled(ws, words + [ws[Number(b[p..p + 11])]], b[p + 11..], target)
  {
    NextSlot(ws, b, p);
    var (word, rest) := ([ws[Number(b[p..p + 11])]], Spell(ws, Cut(b[p + 11..], 11)));
    assert words + (word + rest) == (words + word) + rest;
  }

  lemma {:induction false} SpelledAll(ws: seq<string>, words: seq<string>, b: seq<bool>, target: seq<string>)
    requires Spelled(ws, words, b[|b|..], target)
    ensures words == target
  {
    assert Cut(b[|b|..], 11) == [];
  }

  lemma {:induction false} SpelledNone(H: Hash, ws: seq<string>, entropy: Digest)
    requires WordList(ws)
    ensures var all := Join(Checked(H, entropy), 8);
            |all| == 264 && Spelled(ws, [], all[0..], Mnemonic(H, ws, entropy))
  {
    CheckedWords(H, ws, entropy);
    var all := Join(Checked(H, entropy), 8);
    assert all[0..] == all;
  }

  method GenerateMnemonic(H: Hash, ws: seq<string>, entropy: Digest) returns (words: seq<string>)
    requires WordList(ws)
    ensures words == Mnemonic(H, ws, entropy)
  {
    var bits := FillBuffer(H, entropy);
    ghost var all, target := Join(bits[..], 8), Mnemonic(H, ws, entropy);
    SpelledNone(H, ws, entropy);
    words := [];
    for slot := 0 to 24
      invariant bits[..] == Checked(H, entropy)
      invariant Spelled(ws, words, all[11 * slot..], target)
    {
      SpelledNext(ws, words, all, 11 * slot, target);
      var idx := ReadIndex(bits, 11 * slot);
      words := words + [ws[idx]];
    }
    SpelledAll(ws, words, all, target);
  }

  // ---- Validating ----

  predicate Length(count: nat) { count == 12 || count == 15 || count == 18 || count == 21 || count == 24 }

  /** One checksum bit for every 32 entropy bits, 33 bits for every three words. */
  function EntropyBits(count: nat): nat
    requires Length(count)
  {
    if count == 12 then 128 else if count == 15 then 160 else if count == 18 then 192
    else if count == 21 then 224 else 256
  }

  function ChecksumBits(count: nat): (cs: nat)
    requires Length(count)
    ensures EntropyBits(count) + cs == 11 * count && EntropyBits(count) == 32 * cs
  {
    11 * count - EntropyBits(count)
  }

  lemma {:induction false} CutBytes(b: seq<bool>)
    ensures Below(Cut(b, 8), 0x100)
    decreases |b|
  {
    if 8 <= |b| {
      CutBytes(b[8..]);
      BitsOfNumber(b[..8]);
      Pow2Of8();
    }
  }

  function Pack(b: seq<bool>): (bytes: Bytes)
    ensures bytes == Cut(b, 8)
  {
    CutBytes(b);
    Cut(b, 8)
  }

  /** The bits after the entropy are the leading bits of its hash. */
  predicate ChecksumHolds(H: Hash, bits: seq<bool>, entropyBits: nat)
    requires entropyBits <= |bits| <= entropyBits + 8
  {
    bits[entropyBits..] == BitString(H(Pack(bits[..entropyBits]))[0], 8)[..|bits| - entropyBits]
  }

  lemma {:induction false} JoinLength(ns: seq<nat>, w: nat)
    ensures |Join(ns, w)| == |ns| * w
  {
    if ns != [] {
      JoinLength(ns[1..], w);
      assert |ns| * w == w + (|ns| - 1) * w;
    }
  }

  predicate Valid(H: Hash, ws: seq<string>, m: seq<string>) {
    && Length(|m|)
    && Known(ws, m)
    && |Join(Indexes(ws, m), 11)| == 11 * |m|
    && ChecksumHolds(H, Join(Indexes(ws, m), 11), EntropyBits(|m|))
  }

  function Falses(n: nat): (b: seq<bool>)
    ensures |b| == n && forall i :: 0 <= i < n ==> !b[i]
  {
    seq(n, _ => false)
  }

  /** The buffer holds these bits and zeros after them. */
  ghost predicate Holds(bits: seq<byte>, done: seq<bool>) {
    |done| <= 8 * |bits| && Join(bits, 8) == done + Falses(8 * |bits| - |done|)
  }

  lemma {:induction false} HoldsZero(bits: seq<byte>, done: seq<bool>)
    requires Holds(bits, done) && |done| < 8 * |bits|
    ensures Holds(bits, done + [false])
  {
    assert Falses(8 * |bits| - |done|) == [false] + Falses(8 * |bits| - |done| - 1);
  }

  lemma {:induction false} HoldsOne(bits: seq<byte>, done: seq<bool>)
    requires Holds(bits, done) && |done| < 8 * |bits|
    ensures var p := |done|;
            && SetBit(bits[p / 8], 7 - p % 8) < 0x100
            && Holds(bits[p / 8 := SetBit(bits[p / 8], 7 - p % 8)], done + [true])
  {
    BufferSet(bits, |done|);
    var rest := Falses(8 * |bits| - |done|);
    assert (done + rest)[|done| := true] == done + [true] + Falses(8 * |bits| - |done| - 1);
  }

  method WriteBit(bits: array<byte>, p: nat, ghost done: seq<bool>)
    requires Holds(bits[..], done) && p == |done| < 8 * bits.Length
    modifies bits
    ensures Holds(bits[..], done + [true])
  {
    HoldsOne(bits[..], done);
    ghost var before := bits[..];
    bits[p / 8] := SetBit(bits[p / 8], 7 - p % 8);
    assert bits[..] == before[p / 8 := SetBit(before[p / 8], 7 - p % 8)];
  }

  /** The next bit of a word, after the first k. */
  lemma {:induction false} NextBit(done: seq<bool>, word: seq<bool>, k: nat, bit: bool)
    requires k < |word| && word[k] == bit
    ensures (done + word[..k]) + [bit] == done + word[..k + 1]
  {
  }

  /** Bit k of the word goes to position p, a zero bit by leaving the buffer alone. */
  method AppendBit(bits: array<byte>, p: nat, bit: bool, ghost done: seq<bool>)
    requires Holds(bits[..], done) && p == |done| < 8 * bits.Length
    modifies bits
    ensures Holds(bits[..], done + [bit])
  {
    if bit {
      WriteBit(bits, p, done);
    } else {
      HoldsZero(bits[..], done);
    }
  }

  method WriteIndex(bits: array<byte>, start: nat, idx: nat, ghost done: seq<bool>)
    requires Holds(bits[..], done) && start == |done| && start + 11 <= 8 * bits.Length
    modifies bits
    ensures Holds(bits[..], done + BitString(idx, 11))
  {
    ghost var word := BitString(idx, 11);
    ghost var now := done;
    for k := 0 to 11
      invariant now == done + word[..k] && Holds(bits[..], now)
    {
      NextBit(done, word, k, Bit(idx, 10 - k));
      AppendBit(bits, start + k, Bit(idx, 10 - k), now);
      now := now + [Bit(idx, 10 - k)];
    }
    assert word[..11] == word;
  }

  lemma {:induction false} ZeroBits(k: nat)
    ensures !Bit(0, k)
  {
    if k > 0 {
      ZeroBits(k - 1);
    }
  }

  lemma {:induction false} HoldsNothing(zeros: seq<byte>)
    requires forall i :: 0 <= i < |zeros| ==> zeros[i] == 0
    ensures Holds(zeros, [])
  {
    if zeros != [] {
      HoldsNothing(zeros[1..]);
      forall i | 0 <= i < 8
        ensures !BitString(0, 8)[i]
      {
        ZeroBits(7 - i);
      }
      assert BitString(0, 8) == Falses(8);
      assert Falses(8 * |zeros|) == Falses(8) + Falses(8 * |zeros| - 8);
    }
  }

  lemma {:induction false} JoinNext(ns: seq<nat>, i: nat)
    requires i < |ns|
    ensures |Join(ns[..i], 11)| == 11 * i
    ensures Join(ns[..i + 1], 11) == Join(ns[..i], 11) + BitString(ns[i], 11)
  {
    JoinLength(ns[..i], 11);
    assert ns[..i + 1] == ns[..i] + [ns[i]];
    JoinAppend(ns[..i], [ns[i]], 11);
    JoinOne(ns[i], 11);
  }

  /** Packing every word's index into the zeroed buffer, until one is not in the list. */
  method PackWords(ws: seq<string>, m: seq<string>) returns (ok: bool, bits: array<byte>)
    requires |m| <= 24
    ensures fresh(bits) && bits.Length == 33
    ensures ok <==> Below(Indexes(ws, m), |ws|)
    ensures ok ==> Holds(bits[..], Join(Indexes(ws, m), 11))
  {
    bits := new byte[33](_ => 0);
    ghost var ns := Indexes(ws, m);
    HoldsNothing(bits[..]);
    for i := 0 to |m|
      invariant Below(ns[..i], |ws|)
      invariant Holds(bits[..], Join(ns[..i], 11))
    {
      JoinNext(ns, i);
      var idx := FirstIndex(ws, m[i]);
      if idx == |ws| {
        return false, bits;
      }
      WriteIndex(bits, 11 * i, idx, Join(ns[..i], 11));
    }
    assert ns[..|m|] == ns;
    return true, bits;
  }

  /** The buffer around byte e, when it holds e whole bytes and a few bits more. */
  lemma {:induction false} BufferSplits(buffer: seq<byte>, bits: seq<bool>, e: nat)
    requires Holds(buffer, bits) && e < |buffer| && 8 * e <= |bits| <= 8 * e + 8
    ensures Join(buffer[..e], 8) == bits[..8 * e]
    ensures BitString(buffer[e], 8)[..|bits| - 8 * e] == bits[8 * e..]
  {
    var all := Join(buffer, 8);
    SplitAt(buffer, e);
    assert all[..8 * e] == Join(buffer[..e], 8) && all[..|bits|] == bits;
    assert all[8 * e..8 * e + 8] == BitString(buffer[e], 8);
  }

  /** The masked comparison of one byte is the checksum rule on bit strings. */
  lemma {:induction false} MaskIsChecksum(H: Hash, buffer: seq<byte>, bits: seq<bool>, e: nat)
    requires Holds(buffer, bits) && e < |buffer| && 8 * e <= |bits| <= 8 * e + 8
    ensures var low := 8 - (|bits| - 8 * e);
            ClearLow(buffer[e], low) == ClearLow(H(buffer[..e])[0], low) <==> ChecksumHolds(H, bits, 8 * e)
  {
    BufferSplits(buffer, bits, e);
    Pow2Of8();
    CutOfJoin(buffer[..e], 8);
    ClearLowEqual(buffer[e], H(buffer[..e])[0], 8 - (|bits| - 8 * e), 8);
  }

  lemma {:induction false} ValidByBuffer(H: Hash, ws: seq<string>, m: seq<string>, buffer: seq<byte>)
    requires Length(|m|) && Known(ws, m) && |buffer| == 33 && Holds(buffer, Join(Indexes(ws, m), 11))
    ensures var e, low := EntropyBits(|m|) / 8, 8 - ChecksumBits(|m|);
            ClearLow(buffer[e], low) == ClearLow(H(buffer[..e])[0], low) <==> Valid(H, ws, m)
  {
    JoinLength(Indexes(ws, m), 11);
    MaskIsChecksum(H, buffer, Join(Indexes(ws, m), 11), EntropyBits(|m|) / 8);
  }

  method Validate(H: Hash, ws: seq<string>, m: seq<string>) returns (r: Option<MnemonicError>)
    ensures r == if Valid(H, ws, m) then None else Some(InvalidMnemonic)
  {
    var totalBits;
    match |m| {
      case 12 => totalBits := 132;
      case 15 => totalBits := 165;
      case 18 => totalBits := 198;
      case 21 => totalBits := 231;
      case 24 => totalBits := 264;
      case _ => return Some(InvalidMnemonic);
    }
    var entropyBits := totalBits * 32 / 33;
    var checksumBits := totalBits - entropyBits;
    var ok, bits := PackWords(ws, m);
    if !ok {
      return Some(InvalidMnemonic);
    }
    var entropyBytes := entropyBits / 8;
    var hash := H(bits[..entropyBytes]);
    ValidByBuffer(H, ws, m, bits[..]);
    assert bits[..][..entropyBytes] == bits[..entropyBytes];
    if ClearLow(bits[entropyBytes], 8 - checksumBits) != ClearLow(hash[0], 8 - checksumBits) {
      return Some(InvalidMnemonic);
    }
    return None;
  }

  // ---- Round trips ----

  /** The bits of an entropy of 4 * k bytes and the first k bits of its hash, 33 for every three words. */
  function Extended(H: Hash, entropy: Bytes, k: nat): (b: seq<bool>)
    requires k <= 8
    ensures |entropy| == 4 * k ==> |b| == 33 * k
  {
    BufferLength(entropy);
    Join(entropy, 8) + BitString(H(entropy)[0], 8)[..k]
  }

  /** They cut into 3 * k indexes of the list. */
  lemma {:induction false} ExtendedWords(H: Hash, ws: seq<string>, entropy: Bytes, k: nat)
    requires |ws| == 2048 && k <= 8 && |entropy| == 4 * k
    ensures var b := Extended(H, entropy, k);
            && |Cut(b, 11)| == 3 * k && Below(Cut(b, 11), |ws|) && Join(Cut(b, 11), 11) == b
  {
    var b := Extended(H, entropy, k);
    WholeWords(b, 3 * k);
    JoinOfCut(b, 11);
    Pow2Of11();
  }

  lemma {:induction false} ExtendedSplits(H: Hash, entropy: Bytes, k: nat)
    requires k <= 8 && |entropy| == 4 * k
    ensures var b := Extended(H, entropy, k);
            Pack(b[..32 * k]) == entropy && b[32 * k..] == BitString(H(entropy)[0], 8)[..k]
  {
    var b := Extended(H, entropy, k);
    BufferLength(entropy);
    assert b[..32 * k] == Join(entropy, 8);
    Pow2Of8();
    CutOfJoin(entropy, 8);
  }

  /** Every entropy of 16, 20, 24, 28 or 32 bytes makes a mnemonic of 12, 15, 18, 21 or 24 words that validates. */
  lemma {:induction false} ExtendedIsValid(H: Hash, ws: seq<string>, entropy: Bytes, k: nat)
    requires WordList(ws) && 4 <= k <= 8 && |entropy| == 4 * k
    ensures Below(Cut(Extended(H, entropy, k), 11), |ws|)
    ensures |Spell(ws, Cut(Extended(H, entropy, k), 11))| == 3 * k
    ensures Valid(H, ws, Spell(ws, Cut(Extended(H, entropy, k), 11)))
  {
    ExtendedWords(H, ws, entropy, k);
    ExtendedSplits(H, entropy, k);
    IndexesOfSpell(ws, Cut(Extended(H, entropy, k), 11));
  }

  lemma {:induction false} PackLength(b: seq<bool>, k: nat)
    requires |b| == 8 * k
    ensures |Pack(b)| == k && Join(Pack(b), 8) == b
  {
    if k > 0 {
      PackLength(b[8..], k - 1);
      BitsOfNumber(b[..8]);
      assert b == b[..8] + b[8..];
    }
  }

  /** Conversely, every valid mnemonic has one of the five lengths and is the one its own entropy makes. */
  lemma {:induction false} ValidIsExtended(H: Hash, ws: seq<string>, m: seq<string>) returns (entropy: Bytes, k: nat)
    requires WordList(ws) && Valid(H, ws, m)
    ensures 4 <= k <= 8 && |m| == 3 * k && |entropy| == 4 * k
    ensures |Join(Indexes(ws, m), 11)| == 33 * k && entropy == Pack(Join(Indexes(ws, m), 11)[..32 * k])
    ensures Below(Cut(Extended(H, entropy, k), 11), |ws|) && Spell(ws, Cut(Extended(H, entropy, k), 11)) == m
  {
    k := |m| / 3;
    var bits := Join(Indexes(ws, m), 11);
    entropy := Pack(bits[..32 * k]);
    PackLength(bits[..32 * k], 4 * k);
    assert bits == bits[..32 * k] + bits[32 * k..];
    assert Extended(H, entropy, k) == bits;
    Pow2Of11();
    CutOfJoin(Indexes(ws, m), 11);
    SpellOfIndexes(ws, m);
  }

  lemma {:induction false} ExtendedNumber(H: Hash, entropy: Bytes, k: nat)
    requires k <= 8 && |entropy| == 4 * k
    ensures Number(Extended(H, entropy, k))
         == Digits(entropy, 256) * Pow2(k) + Number(BitString(H(entropy)[0], 8)[..k])
  {
    Pow2Of8();
    NumberOfJoin(entropy, 8);
    NumberAppend(Join(entropy, 8), BitString(H(entropy)[0], 8)[..k]);
  }

  lemma {:induction false} LeadingOfByte(n: byte, k: nat)
    requires k <= 8
    ensures var top := Number(BitString(n, 8)[..k]);
            top * Pow2(8 - k) <= n as int < (top + 1) * Pow2(8 - k)
  {
    Pow2Of8();
    LeadingBits(n, 8, k);
  }

  lemma {:induction false} ExtendedDigits(H: Hash, ws: seq<string>, entropy: Bytes, k: nat)
    requires |ws| == 2048 && k <= 8 && |entropy| == 4 * k
    ensures Digits(Cut(Extended(H, entropy, k), 11), 2048) == Number(Extended(H, entropy, k))
  {
    ExtendedWords(H, ws, entropy, k);
    Pow2Of11();
    NumberOfJoin(Cut(Extended(H, entropy, k), 11), 11);
  }

  /** In numbers: the indexes of the words are the digits in base 2048, leading digit first, of the entropy read as
      one number, leading byte first, followed by the leading k bits of its hash. */
  lemma {:induction false} IndexesAreDigits(H: Hash, ws: seq<string>, entropy: Bytes, k: nat) returns (check: nat)
    requires |ws| == 2048 && k <= 8 && |entropy| == 4 * k
    ensures Digits(Cut(Extended(H, entropy, k), 11), 2048) == Digits(entropy, 256) * Pow2(k) + check
    ensures check * Pow2(8 - k) <= H(entropy)[0] as int < (check + 1) * Pow2(8 - k)
  {
    check := Number(BitString(H(entropy)[0], 8)[..k]);
    ExtendedNumber(H, entropy, k);
    ExtendedDigits(H, ws, entropy, k);
    LeadingOfByte(H(entropy)[0], k);
  }

  // ---- What is generated ----

  lemma {:induction false} CheckedIsExtended(H: Hash, entropy: Digest)
    ensures Join(Checked(H, entropy), 8) == Extended(H, entropy, 8)
  {
    JoinAppend(entropy, [H(entropy)[0]], 8);
    JoinOne(H(entropy)[0], 8);
    assert BitString(H(entropy)[0], 8)[..8] == BitString(H(entropy)[0], 8);
  }

  /** Generated words repack to the entropy and its checksum byte. */
  lemma {:induction false} GeneratedRepacks(H: Hash, ws: seq<string>, entropy: Digest)
    requires WordList(ws)
    ensures |Mnemonic(H, ws, entropy)| == 24
    ensures Known(ws, Mnemonic(H, ws, entropy))
    ensures Join(Indexes(ws, Mnemonic(H, ws, entropy)), 11) == Join(Checked(H, entropy), 8)
    ensures Pack(Join(Indexes(ws, Mnemonic(H, ws, entropy)), 11)) == Checked(H, entropy)
  {
    var b := Join(Checked(H, entropy), 8);
    CheckedWords(H, ws, entropy);
    WholeWords(b, 24);
    IndexesOfSpell(ws, Cut(b, 11));
    JoinOfCut(b, 11);
    Pow2Of8();
    CutOfJoin(Checked(H, entropy), 8);
  }

  /** Every generated mnemonic validates. */
  lemma {:induction false} GeneratedIsValid(H: Hash, ws: seq<string>, entropy: Digest)
    requires WordList(ws)
    ensures Valid(H, ws, Mnemonic(H, ws, entropy))
  {
    CheckedIsExtended(H, entropy);
    ExtendedIsValid(H, ws, entropy, 8);
  }

  /** Every valid 24-word mnemonic is the one generated from its own packed entropy. */
  lemma {:induction false} ValidIsGenerated(H: Hash, ws: seq<string>, m: seq<string>) returns (entropy: Digest)
    requires WordList(ws) && Valid(H, ws, m) && |m| == 24
    ensures |Join(Indexes(ws, m), 11)| == 264 && entropy == Pack(Join(Indexes(ws, m), 11)[..256])
    ensures Mnemonic(H, ws, entropy) == m
  {
    var e, k := ValidIsExtended(H, ws, m);
    entropy := e;
    CheckedIsExtended(H, entropy);
  }
}
