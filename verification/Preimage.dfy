/** The signed bytes of an Advance, as the client, the program and the TypeScript SDK build them. */
module Preimage {
  import opened Base
  import opened Wire

  datatype Purpose = ForAdvance | ForInitialize

  /** `b"WINTERWALLET_ADVANCE"` and `b"WINTERWALLET_INITIALIZE"`. */
  function Tag(p: Purpose): (t: Bytes)
    ensures |t| == if p == ForAdvance then 20 else 23
  {
    match p
    case ForAdvance => [87, 73, 78, 84, 69, 82, 87, 65, 76, 76, 69, 84, 95, 65, 68, 86, 65, 78, 67, 69]
    case ForInitialize => [87, 73, 78, 84, 69, 82, 87, 65, 76, 76, 69, 84, 95, 73, 78, 73, 84, 73, 65, 76, 73, 90, 69]
  }

  /** What an Advance signature commits to. */
  datatype Commitment = Commitment(
    id: Digest, currentRoot: Digest, newRoot: Digest, addresses: seq<Address>, payload: Bytes)

  function Parts(c: Commitment): seq<Bytes> {
    [Tag(ForAdvance), c.id, c.currentRoot, c.newRoot] + c.addresses + [c.payload]
  }

  /** `advance_preimage` on the client. */
  method ClientParts(c: Commitment) returns (parts: seq<Bytes>)
    ensures parts == Parts(c)
  {
    parts := [Tag(ForAdvance)];
    parts := parts + [c.id];
    parts := parts + [c.currentRoot];
    parts := parts + [c.newRoot];
    for i := 0 to |c.addresses|
      invariant parts == [Tag(ForAdvance), c.id, c.currentRoot, c.newRoot] + c.addresses[..i]
    {
      parts := parts + [c.addresses[i]];
    }
    parts := parts + [c.payload];
  }

  /** `verify_signature` on chain: a buffer of 133 slots, never overrun, filled up to the slots it hands on. */
  method ProgramParts(c: Commitment) returns (parts: seq<Bytes>)
    requires |c.addresses| <= MAX_PASSTHROUGH_ACCOUNTS
    ensures parts == Parts(c)
  {
    var buffer := new Bytes[5 + MAX_PASSTHROUGH_ACCOUNTS](_ => []);
    buffer[0] := Tag(ForAdvance);
    buffer[1] := c.id;
    buffer[2] := c.currentRoot;
    buffer[3] := c.newRoot;
    var idx := 4;
    for i := 0 to |c.addresses|
      invariant idx == 4 + i
      invariant buffer[..idx] == [Tag(ForAdvance), c.id, c.currentRoot, c.newRoot] + c.addresses[..i]
    {
      buffer[idx] := c.addresses[i];
      idx := idx + 1;
    }
    buffer[idx] := c.payload;
    idx := idx + 1;
    parts := buffer[..idx];
  }

  /** `advanceDigest` in TypeScript: one flat buffer written at a moving offset. */
  class FlatBuffer {
    var bytes: Bytes
    var off: nat

    constructor (length: nat)
      ensures bytes == Zeros(length) && off == 0
    {
      bytes, off := Zeros(length), 0;
    }

    /** `buf.set(part, off); off += part.length`. */
    method Put(part: Bytes)
      requires off + |part| <= |bytes|
      modifies this
      ensures off == old(off) + |part| && |bytes| == old(|bytes|)
      ensures bytes[..off] == old(bytes[..off]) + part
    {
      bytes := bytes[..off] + part + bytes[off + |part|..];
      off := off + |part|;
    }
  }

  lemma {:induction false} HeadConcat(a: Bytes, b: Bytes, c: Bytes)
    ensures Concat([Tag(ForAdvance), a, b, c]) == Tag(ForAdvance) + a + b + c
  {
    ConcatPush([Tag(ForAdvance), a, b], c);
    ConcatPush([Tag(ForAdvance), a], b);
    ConcatPush([Tag(ForAdvance)], a);
    assert Concat([Tag(ForAdvance)]) == Tag(ForAdvance) + Concat([]);
    assert [Tag(ForAdvance), a] == [Tag(ForAdvance)] + [a];
    assert [Tag(ForAdvance), a, b] == [Tag(ForAdvance), a] + [b];
    assert [Tag(ForAdvance), a, b, c] == [Tag(ForAdvance), a, b] + [c];
  }

  lemma {:induction false} ConcatParts(c: Commitment)
    ensures Concat(Parts(c)) ==
            Tag(ForAdvance) + c.id + c.currentRoot + c.newRoot + Concat(c.addresses) + c.payload
  {
    var head: seq<Bytes> := [Tag(ForAdvance), c.id, c.currentRoot, c.newRoot];
    ConcatAppend(head + c.addresses, [c.payload]);
    ConcatAppend(head, c.addresses);
    assert Concat([c.payload]) == c.payload + Concat([]);
    HeadConcat(c.id, c.currentRoot, c.newRoot);
  }

  /** The loop over the addresses. */
  method PutAddresses(buf: FlatBuffer, addresses: seq<Address>)
    requires buf.off + 32 * |addresses| <= |buf.bytes|
    modifies buf
    ensures buf.off == old(buf.off) + 32 * |addresses| && |buf.bytes| == old(|buf.bytes|)
    ensures buf.bytes[..buf.off] == old(buf.bytes[..buf.off]) + Concat(addresses)
  {
    for i := 0 to |addresses|
      invariant buf.off == old(buf.off) + 32 * i && |buf.bytes| == old(|buf.bytes|)
      invariant buf.bytes[..buf.off] == old(buf.bytes[..buf.off]) + Concat(addresses[..i])
    {
      buf.Put(addresses[i]);
      assert addresses[..i + 1] == addresses[..i] + [addresses[i]];
      ConcatPush(addresses[..i], addresses[i]);
    }
    assert addresses[..|addresses|] == addresses;
  }

  /** The four parts of fixed length. */
  method PutHead(buf: FlatBuffer, c: Commitment)
    requires buf.off == 0 && |buf.bytes| >= |Tag(ForAdvance)| + 96
    modifies buf
    ensures buf.off == |Tag(ForAdvance)| + 96 && |buf.bytes| == old(|buf.bytes|)
    ensures buf.bytes[..buf.off] == Tag(ForAdvance) + c.id + c.currentRoot + c.newRoot
  {
    buf.Put(Tag(ForAdvance));
    assert buf.bytes[..buf.off] == Tag(ForAdvance);
    buf.Put(c.id);
    buf.Put(c.currentRoot);
    buf.Put(c.newRoot);
  }

  method SdkBytes(c: Commitment) returns (flat: Bytes)
    ensures flat == Concat(Parts(c))
  {
    ConcatParts(c);
    var buf := new FlatBuffer(|Tag(ForAdvance)| + 32 + 32 + 32 + |c.addresses| * 32 + |c.payload|);
    PutHead(buf, c);
    PutAddresses(buf, c.addresses);
    buf.Put(c.payload);
    flat := buf.bytes;
    assert flat == buf.bytes[..buf.off];
  }

  /** The tags are these texts, character for character. */
  lemma {:induction false} TagTexts()
    ensures |Tag(ForAdvance)| == |"WINTERWALLET_ADVANCE"| == 20
    ensures forall i :: 0 <= i < 20 ==> Tag(ForAdvance)[i] as char == "WINTERWALLET_ADVANCE"[i]
    ensures |Tag(ForInitialize)| == |"WINTERWALLET_INITIALIZE"| == 23
    ensures forall i :: 0 <= i < 23 ==> Tag(ForInitialize)[i] as char == "WINTERWALLET_INITIALIZE"[i]
  {
  }

  lemma {:induction false} Inside(head: Bytes, b: Bytes, tail: Bytes, at: nat)
    requires at + 32 <= |b|
    ensures (head + (b + tail))[|head| + at..|head| + at + 32] == b[at..at + 32]
  {
  }

  /** Byte by byte, what is hashed and signed: tag, wallet id, stored root, new root, one address after the other, and
      the payload. */
  lemma {:induction false} SignedAt(c: Commitment, i: nat)
    requires i <= |c.addresses|
    ensures var b, n := Concat(Parts(c)), |c.addresses|;
            && |b| == 116 + 32 * n + |c.payload|
            && b[..20] == Tag(ForAdvance) && b[20..52] == c.id && b[52..84] == c.currentRoot && b[84..116] == c.newRoot
            && (i < n ==> b[116 + 32 * i..148 + 32 * i] == c.addresses[i])
            && b[116 + 32 * n..] == c.payload
  {
    ConcatParts(c);
    ConcatLength(c.addresses, 32);
    var b := Concat(Parts(c));
    var head := Tag(ForAdvance) + c.id + c.currentRoot + c.newRoot;
    assert b == head + (Concat(c.addresses) + c.payload);
    if i < |c.addresses| {
      ConcatAt(c.addresses, i);
      Inside(head, Concat(c.addresses), c.payload, 32 * i);
    }
  }

  // ---- What equal bytes commit to ----

  lemma {:induction false} FixedPrefix(p: Digest, x: Bytes, q: Digest, y: Bytes)
    ensures p + x == q + y <==> p == q && x == y
  {
    if p + x == q + y {
      assert p == (p + x)[..32] && q == (q + y)[..32];
      assert x == (p + x)[32..] && y == (q + y)[32..];
    }
  }

  lemma {:induction false} ConcatAddressesSplit(a: seq<Address>, x: Bytes, b: seq<Address>, y: Bytes)
    requires |a| <= |b|
    ensures Concat(a) + x == Concat(b) + y <==> a == b[..|a|] && x == Concat(b[|a|..]) + y
  {
    if a == [] {
      assert Concat(a) + x == x;
    } else {
      var (p, q) := (a[0], b[0]);
      assert Concat(a) + x == p + (Concat(a[1..]) + x);
      assert Concat(b) + y == q + (Concat(b[1..]) + y);
      FixedPrefix(p, Concat(a[1..]) + x, q, Concat(b[1..]) + y);
      ConcatAddressesSplit(a[1..], x, b[1..], y);
      assert a == [p] + a[1..] && b[..|a|] == [q] + b[1..][..|a| - 1];
      assert b[1..][|a| - 1..] == b[|a|..];
    }
  }

  lemma {:induction false} TagPrefix(x: Bytes, y: Bytes)
    ensures Tag(ForAdvance) + x == Tag(ForAdvance) + y <==> x == y
  {
    assert x == (Tag(ForAdvance) + x)[|Tag(ForAdvance)|..] && y == (Tag(ForAdvance) + y)[|Tag(ForAdvance)|..];
  }

  /** Exactly when two commitments are signed as the same bytes. With equally many accounts
      that is equality; otherwise the surplus addresses reappear at the front of the payload. */
  lemma {:induction false} EqualBytesIff(c: Commitment, d: Commitment)
    requires |c.addresses| <= |d.addresses|
    ensures Concat(Parts(c)) == Concat(Parts(d)) <==>
            && c.id == d.id && c.currentRoot == d.currentRoot && c.newRoot == d.newRoot
            && c.addresses == d.addresses[..|c.addresses|]
            && c.payload == Concat(d.addresses[|c.addresses|..]) + d.payload
  {
    ConcatParts(c);
    ConcatParts(d);
    var (s, t) := (Concat(c.addresses) + c.payload, Concat(d.addresses) + d.payload);
    assert Concat(Parts(c)) == Tag(ForAdvance) + (c.id + (c.currentRoot + (c.newRoot + s)));
    assert Concat(Parts(d)) == Tag(ForAdvance) + (d.id + (d.currentRoot + (d.newRoot + t)));
    TagPrefix(c.id + (c.currentRoot + (c.newRoot + s)), d.id + (d.currentRoot + (d.newRoot + t)));
    FixedPrefix(c.id, c.currentRoot + (c.newRoot + s), d.id, d.currentRoot + (d.newRoot + t));
    FixedPrefix(c.currentRoot, c.newRoot + s, d.currentRoot, d.newRoot + t);
    FixedPrefix(c.newRoot, s, d.newRoot, t);
    ConcatAddressesSplit(c.addresses, c.payload, d.addresses, d.payload);
  }

  lemma {:induction false} SameCountInjective(c: Commitment, d: Commitment)
    requires |c.addresses| == |d.addresses| && Concat(Parts(c)) == Concat(Parts(d))
    ensures c == d
  {
    EqualBytesIff(c, d);
    assert d.addresses[|c.addresses|..] == [];
  }
}
