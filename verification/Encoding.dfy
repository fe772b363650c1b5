/** The raw-byte form shared by private keys, public keys and signatures. */
module Encoding {
  import opened Base
  import opened Winternitz

  datatype LengthError = InvalidLength

  function AsBytes(s: Scalars): Bytes { Concat(s.All()) }

  function Chunks(b: Bytes, n: nat): (xs: seq<Digest>)
    requires |b| == 32 * n
    ensures |xs| == n
  {
    if n == 0 then [] else [b[..32]] + Chunks(b[32..], n - 1)
  }

  /** `TryFrom<&[u8]>`: any bytes of the right length are a valid vector, message scalars first. */
  function FromBytes(b: Bytes, n: nat): (r: Result<Scalars, LengthError>)
    ensures r.Ok? <==> |b| == 32 * (n + 2)
    ensures r.Ok? ==> r.value.Fits(n)
  {
    if |b| == 32 * (n + 2) then Ok(Scalars(Chunks(b[..32 * n], n), Chunks(b[32 * n..], 2))) else Err(InvalidLength)
  }

  lemma {:induction false} ChunksOfConcat(xs: seq<Digest>)
    ensures |Concat(xs)| == 32 * |xs| && Chunks(Concat(xs), |xs|) == xs
  {
    if xs != [] {
      ChunksOfConcat(xs[1..]);
      assert Concat(xs)[..32] == xs[0] && Concat(xs)[32..] == Concat(xs[1..]);
    }
  }

  lemma {:induction false} ConcatOfChunks(b: Bytes, n: nat)
    requires |b| == 32 * n
    ensures Concat(Chunks(b, n)) == b
    decreases n
  {
    if n > 0 {
      ConcatOfChunks(b[32..], n - 1);
      assert b == b[..32] + b[32..];
    }
  }

  /** Scalar i is the 32 bytes at 32 * i: the message scalars, then the two of the checksum. */
  lemma {:induction false} BytesAt(s: Scalars, n: nat, i: nat)
    requires s.Fits(n) && i < n + 2
    ensures |AsBytes(s)| == 32 * (n + 2)
    ensures AsBytes(s)[32 * i..32 * i + 32] == if i < n then s.message[i] else s.checksum[i - n]
  {
    ConcatAt(s.All(), i);
  }

  /** The byte form and the vector are in one-to-one correspondence. */
  lemma {:induction false} BytesRoundTrip(s: Scalars, n: nat)
    requires s.Fits(n)
    ensures FromBytes(AsBytes(s), n) == Ok(s)
  {
    ConcatAppend(s.message, s.checksum);
    ChunksOfConcat(s.message);
    ChunksOfConcat(s.checksum);
    var b := AsBytes(s);
    assert b[..32 * n] == Concat(s.message) && b[32 * n..] == Concat(s.checksum);
  }

  lemma {:induction false} VectorRoundTrip(b: Bytes, n: nat)
    requires FromBytes(b, n).Ok?
    ensures AsBytes(FromBytes(b, n).value) == b
  {
    var (message, checksum) := (Chunks(b[..32 * n], n), Chunks(b[32 * n..], 2));
    ConcatOfChunks(b[..32 * n], n);
    ConcatOfChunks(b[32 * n..], 2);
    ConcatAppend(message, checksum);
    assert b == b[..32 * n] + b[32 * n..];
  }
}
