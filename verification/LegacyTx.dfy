/** What a compiled transaction means to its reader, and how long it is. */
module LegacyTx {
  import opened Base
  import opened Wire
  import opened AccountTable
  import opened Message
  import opened Compile

  // ---- The reader's view of a message ----

  predicate SignerAt(m: Message, i: nat) { i < m.signers }

  predicate WritableAt(m: Message, i: nat) {
    if i < m.signers then i < m.signers as int - m.readonlySigned as int else i < |m.keys| - m.readonlyUnsigned as int
  }

  predicate Resolvable(m: Message, c: Compiled) {
    c.program < |m.keys| && forall i :: 0 <= i < |c.accounts| ==> c.accounts[i] < |m.keys|
  }

  function MetaAt(m: Message, i: nat): Meta
    requires i < |m.keys|
  {
    Meta(m.keys[i], SignerAt(m, i), WritableAt(m, i))
  }

  /** The instruction a runtime reads out of the message. */
  function Meaning(m: Message, c: Compiled): Instruction
    requires Resolvable(m, c)
  {
    Instruction(m.keys[c.program],
                seq(|c.accounts|, i requires 0 <= i < |c.accounts| => MetaAt(m, c.accounts[i])),
                c.data)
  }

  /** The account with its flags widened to what the payer and all instructions together ask of it. */
  function Widened(payer: Address, ixs: seq<Instruction>, key: Address): Meta {
    Meta(key, key == payer || MustSign(ixs, key), key == payer || MustWrite(ixs, key))
  }

  function Intended(payer: Address, ixs: seq<Instruction>, ix: Instruction): Instruction {
    Instruction(ix.programId,
                seq(|ix.accounts|, i requires 0 <= i < |ix.accounts| => Widened(payer, ixs, ix.accounts[i].pubkey)),
                ix.data)
  }

  // ---- Meaning is preserved ----

  /** The casts to bytes lose nothing. */
  predicate ByteSized(t: seq<Entry>) { |t| <= 256 && Signers(t) <= 255 }

  lemma {:induction false} CountsFit(payer: Address, ixs: seq<Instruction>)
    requires ByteSized(Table(payer, ixs))
    ensures ReadonlySigned(Table(payer, ixs)) <= 255 && ReadonlyUnsigned(Table(payer, ixs)) <= 255
  {
    var t := Table(payer, ixs);
    TableSummarizes(payer, ixs);
    HeaderCounts(t);
    HeaderCuts(t, 0);
  }

  /** Cutting small counts to bytes changes nothing. */
  lemma {:induction false} HeaderBytes(t: seq<Entry>, ixs: seq<Instruction>, blockhash: Digest)
    requires Signers(t) <= 255 && ReadonlySigned(t) <= 255 && ReadonlyUnsigned(t) <= 255
    ensures MessageFor(t, ixs, blockhash).signers == Signers(t)
    ensures MessageFor(t, ixs, blockhash).readonlySigned == ReadonlySigned(t)
    ensures MessageFor(t, ixs, blockhash).readonlyUnsigned == ReadonlyUnsigned(t)
  {
  }

  /** An entry of the message reads back as the table entry. */
  lemma {:induction false} EntryReads(t: seq<Entry>, m: Message, i: nat)
    requires Sorted(t) && i < |t| && m.keys == Keys(t)
    requires m.signers == Signers(t) && m.readonlySigned == ReadonlySigned(t)
    requires m.readonlyUnsigned == ReadonlyUnsigned(t)
    ensures MetaAt(m, i) == Meta(t[i].pubkey, t[i].isSigner, t[i].isWritable)
  {
    HeaderCuts(t, i);
  }

  lemma {:induction false} IndexFits(t: seq<Entry>, key: Address)
    requires Has(t, key) && |t| <= 256
    ensures IndexOf(t, key) == Find(t, key) < |t| && t[IndexOf(t, key)].pubkey == key
  {
  }

  predicate HeaderOf(t: seq<Entry>, m: Message) {
    && m.keys == Keys(t) && m.signers == Signers(t) && m.readonlySigned == ReadonlySigned(t)
    && m.readonlyUnsigned == ReadonlyUnsigned(t)
  }

  lemma {:induction false} HeaderReads(payer: Address, ixs: seq<Instruction>, blockhash: Digest)
    requires ByteSized(Table(payer, ixs))
    ensures HeaderOf(Table(payer, ixs), CompileMessage(payer, ixs, blockhash))
  {
    CountsFit(payer, ixs);
    HeaderBytes(Table(payer, ixs), ixs, blockhash);
  }

  /** Every key of the compiled message has the flags the instructions ask for. */
  lemma {:induction false} KeyReads(payer: Address, ixs: seq<Instruction>, blockhash: Digest, i: nat)
    requires ByteSized(Table(payer, ixs)) && i < |CompileMessage(payer, ixs, blockhash).keys|
    ensures var m := CompileMessage(payer, ixs, blockhash);
            && MetaAt(m, i) == Widened(payer, ixs, m.keys[i])
            && (m.keys[i] == payer || Named(ixs, m.keys[i]))
  {
    TableSummarizes(payer, ixs);
    HeaderReads(payer, ixs, blockhash);
    EntryReads(Table(payer, ixs), CompileMessage(payer, ixs, blockhash), i);
    TableFlags(payer, ixs, i);
  }

  lemma {:induction false} IndexReads(payer: Address, ixs: seq<Instruction>, blockhash: Digest, key: Address)
    requires ByteSized(Table(payer, ixs)) && Has(Table(payer, ixs), key)
    ensures var m := CompileMessage(payer, ixs, blockhash);
            var k := IndexOf(Table(payer, ixs), key);
            k < |m.keys| && MetaAt(m, k) == Widened(payer, ixs, key)
  {
    IndexFits(Table(payer, ixs), key);
    KeyReads(payer, ixs, blockhash, IndexOf(Table(payer, ixs), key));
  }

  lemma {:induction false} InstructionReads(payer: Address, ixs: seq<Instruction>, blockhash: Digest, j: nat)
    requires ByteSized(Table(payer, ixs)) && j < |ixs|
    ensures var m := CompileMessage(payer, ixs, blockhash);
            Resolvable(m, m.instructions[j]) && Meaning(m, m.instructions[j]) == Intended(payer, ixs, ixs[j])
  {
    var m, c := CompileMessage(payer, ixs, blockhash), CompileOne(Table(payer, ixs), ixs[j]);
    TableHasAll(payer, ixs, j);
    IndexReads(payer, ixs, blockhash, ixs[j].programId);
    forall i | 0 <= i < |ixs[j].accounts|
      ensures c.accounts[i] < |m.keys| && MetaAt(m, c.accounts[i]) == Widened(payer, ixs, ixs[j].accounts[i].pubkey)
    {
      IndexReads(payer, ixs, blockhash, ixs[j].accounts[i].pubkey);
    }
  }

  /** The keys are the payer, first, and those the instructions name, each once; an account signs, or is writable,
      exactly if it is the payer or some instruction lists it so; and the instructions read back as they were. */
  predicate Faithful(m: Message, payer: Address, ixs: seq<Instruction>, blockhash: Digest) {
    && m.keys != [] && m.keys[0] == payer && m.blockhash == blockhash
    && (forall i, j :: 0 <= i < j < |m.keys| ==> m.keys[i] != m.keys[j])
    && (forall i :: 0 <= i < |m.keys| ==> m.keys[i] == payer || Named(ixs, m.keys[i]))
    && (forall i :: 0 <= i < |m.keys| ==> (SignerAt(m, i) <==> m.keys[i] == payer || MustSign(ixs, m.keys[i])))
    && (forall i :: 0 <= i < |m.keys| ==> (WritableAt(m, i) <==> m.keys[i] == payer || MustWrite(ixs, m.keys[i])))
    && |m.instructions| == |ixs|
    && forall j :: 0 <= j < |ixs| ==>
         Resolvable(m, m.instructions[j]) && Meaning(m, m.instructions[j]) == Intended(payer, ixs, ixs[j])
  }

  lemma {:induction false} CompiledIsFaithful(payer: Address, ixs: seq<Instruction>, blockhash: Digest)
    requires ByteSized(Table(payer, ixs))
    ensures Faithful(CompileMessage(payer, ixs, blockhash), payer, ixs, blockhash)
  {
    var m := CompileMessage(payer, ixs, blockhash);
    TableSummarizes(payer, ixs);
    forall i | 0 <= i < |m.keys|
      ensures MetaAt(m, i) == Widened(payer, ixs, m.keys[i]) && (m.keys[i] == payer || Named(ixs, m.keys[i]))
    {
      KeyReads(payer, ixs, blockhash, i);
    }
    assert forall i :: 0 <= i < |m.keys| ==> MetaAt(m, i).pubkey == m.keys[i];
    forall j | 0 <= j < |ixs|
      ensures Resolvable(m, m.instructions[j]) && Meaning(m, m.instructions[j]) == Intended(payer, ixs, ixs[j])
    {
      InstructionReads(payer, ixs, blockhash, j);
    }
  }

  // ---- The length of the bytes ----

  lemma {:induction false} CompactLenGrows(a: nat, b: nat)
    requires a <= b
    ensures CompactLen(a) <= CompactLen(b)
  {
    if a >= 0x80 {
      CompactLenGrows(a / 0x80, b / 0x80);
    }
  }

  /** Cutting the length to sixteen bits does not shorten its encoding. */
  predicate SameWidth(n: nat) { CompactLen(ToU16(n)) == CompactLen(n) }

  lemma {:induction false} ToU16Below(n: nat)
    ensures ToU16(n) <= n
  {
  }

  lemma {:induction false} Len16Length(n: nat)
    ensures |Len16(n)| <= CompactLen(n)
    ensures |Len16(n)| == CompactLen(n) <==> SameWidth(n)
  {
    ToU16Below(n);
    CompactLenAgrees(ToU16(n));
    CompactLenGrows(ToU16(n), n);
  }

  predicate Plain(ix: Instruction) { SameWidth(|ix.accounts|) && SameWidth(|ix.data|) }

  /** An instruction's bytes are as long as reckoned, or shorter where a length is cut. */
  predicate Reckoned(bytes: nat, size: nat, plain: bool) { bytes <= size && (bytes == size <==> plain) }

  lemma {:induction false} ReckonedTogether(a: nat, s: nat, p: bool, b: nat, t: nat, q: bool)
    requires Reckoned(a, s, p) && Reckoned(b, t, q)
    ensures Reckoned(a + b, s + t, p && q)
  {
  }

  lemma {:induction false} CompiledLength(t: seq<Entry>, ix: Instruction)
    ensures Reckoned(|CompiledBytes(CompileOne(t, ix))|, SizeOne(ix), Plain(ix))
  {
    Len16Length(|ix.accounts|);
    Len16Length(|ix.data|);
  }

  predicate AllPlain(ixs: seq<Instruction>) { forall i :: 0 <= i < |ixs| ==> Plain(ixs[i]) }

  lemma {:induction false} AllPlainFirst(ixs: seq<Instruction>)
    requires ixs != []
    ensures AllPlain(ixs) <==> Plain(ixs[0]) && AllPlain(ixs[1..])
  {
    if AllPlain(ixs[1..]) && Plain(ixs[0]) {
      forall i | 0 <= i < |ixs|
        ensures Plain(ixs[i])
      {
        assert i > 0 ==> ixs[i] == ixs[1..][i - 1];
      }
    }
  }

  lemma {:induction false} CompiledFirst(t: seq<Entry>, ixs: seq<Instruction>)
    requires ixs != []
    ensures |AllCompiledBytes(CompileAll(t, ixs))|
         == |CompiledBytes(CompileOne(t, ixs[0]))| + |AllCompiledBytes(CompileAll(t, ixs[1..]))|
  {
    assert CompileAll(t, ixs) == [CompileOne(t, ixs[0])] + CompileAll(t, ixs[1..]);
  }

  lemma {:induction false} AllCompiledLength(t: seq<Entry>, ixs: seq<Instruction>)
    ensures Reckoned(|AllCompiledBytes(CompileAll(t, ixs))|, SizeAll(ixs), AllPlain(ixs))
  {
    if ixs != [] {
      AllCompiledLength(t, ixs[1..]);
      CompiledLength(t, ixs[0]);
      ReckonedTogether(|CompiledBytes(CompileOne(t, ixs[0]))|, SizeOne(ixs[0]), Plain(ixs[0]),
                       |AllCompiledBytes(CompileAll(t, ixs[1..]))|, SizeAll(ixs[1..]), AllPlain(ixs[1..]));
      CompiledFirst(t, ixs);
      AllPlainFirst(ixs);
    }
  }

  lemma {:induction false} MessageLength(t: seq<Entry>, ixs: seq<Instruction>, blockhash: Digest)
    ensures |MessageBytes(MessageFor(t, ixs, blockhash))| <= MessageSize(|t|, ixs)
    ensures |MessageBytes(MessageFor(t, ixs, blockhash))| == MessageSize(|t|, ixs)
       <==> SameWidth(|t|) && SameWidth(|ixs|) && AllPlain(ixs)
  {
    Len16Length(|t|);
    Len16Length(|ixs|);
    ConcatLength(Keys(t), 32);
    AllCompiledLength(t, ixs);
  }

  /** The wire form: a counted list of signatures, then the message. */
  function WireTx(signatures: seq<Bytes>, message: Bytes): Bytes {
    Len16(|signatures|) + Concat(signatures) + message
  }

  method BuildSignedWireTx(message: Bytes, signature: Bytes) returns (tx: Bytes)
    ensures tx == WireTx([signature], message)
  {
    tx := EncodeCompactU16([], 1);
    tx := tx + signature;
    tx := tx + message;
    assert Concat([signature]) == signature + Concat([]);
  }

  /** One signature in front: a count byte, the 64 bytes, and the message. */
  lemma {:induction false} OneSignatureLayout(signature: Bytes, message: Bytes)
    ensures WireTx([signature], message) == [1] + signature + message
  {
    assert Concat([signature]) == signature + Concat([]);
  }

  function Blanks(count: nat): (b: seq<Bytes>)
    ensures |b| == count && forall i :: 0 <= i < count ==> b[i] == Zeros(64)
  {
    seq(count, _ => Zeros(64))
  }

  method BuildUnsignedWireTx(message: Bytes, count: nat) returns (tx: Bytes)
    ensures tx == WireTx(Blanks(count), message)
  {
    ghost var blanks := Blanks(count);
    tx := EncodeCompactU16([], ToU16(count));
    ghost var head := tx;
    assert head == Len16(|blanks|);
    for i := 0 to count
      invariant tx + Concat(blanks[i..]) == head + Concat(blanks)
    {
      assert blanks[i..][1..] == blanks[i + 1..];
      tx := tx + Zeros(64);
    }
    assert blanks[count..] == [];
    tx := tx + message;
  }

  /** Every compact length keeps its width when cut to sixteen bits. */
  predicate Untruncated(payer: Address, ixs: seq<Instruction>) {
    var t := Table(payer, ixs);
    SameWidth(Signers(t)) && SameWidth(|t|) && SameWidth(|ixs|) && AllPlain(ixs)
  }

  /** The estimate never falls short of the bytes, and is exact precisely when no cast shortens a length. */
  lemma {:induction false} SizeExactIff(payer: Address, ixs: seq<Instruction>, blockhash: Digest,
                                        signatures: seq<Bytes>)
    requires |signatures| == Signers(Table(payer, ixs))
    requires forall i :: 0 <= i < |signatures| ==> |signatures[i]| == 64
    ensures |WireTx(signatures, MessageBytes(CompileMessage(payer, ixs, blockhash)))| <= LegacySize(payer, ixs)
    ensures |WireTx(signatures, MessageBytes(CompileMessage(payer, ixs, blockhash)))| == LegacySize(payer, ixs)
       <==> Untruncated(payer, ixs)
  {
    Len16Length(|signatures|);
    ConcatLength(signatures, 64);
    MessageLength(Table(payer, ixs), ixs, blockhash);
  }

  // ---- What passing the size check implies ----

  lemma {:induction false} SizeAllCounts(ixs: seq<Instruction>)
    ensures |ixs| <= SizeAll(ixs)
  {
    if ixs != [] {
      SizeAllCounts(ixs[1..]);
    }
  }

  lemma {:induction false} SizeAllCovers(ixs: seq<Instruction>, i: nat)
    requires i < |ixs|
    ensures |ixs[i].accounts| + |ixs[i].data| + |ixs| <= SizeAll(ixs)
  {
    SizeAllCounts(ixs[1..]);
    if i > 0 {
      SizeAllCovers(ixs[1..], i - 1);
    }
  }

  predicate Limited(ix: Instruction) { |ix.accounts| <= 1232 && |ix.data| <= 1232 }

  /** A transaction inside the wire limit has at most 35 accounts and never meets a truncating cast. */
  lemma {:induction false} SmallIsExact(payer: Address, ixs: seq<Instruction>)
    requires Validate(payer, ixs).Ok?
    ensures |Table(payer, ixs)| <= 35 && Signers(Table(payer, ixs)) <= 35 && |ixs| <= 1232
    ensures forall i :: 0 <= i < |ixs| ==> Limited(ixs[i])
    ensures Untruncated(payer, ixs)
  {
    var t := Table(payer, ixs);
    TableSummarizes(payer, ixs);
    HeaderCounts(t);
    HeaderCuts(t, 0);
    SizeAllCounts(ixs);
    forall i | 0 <= i < |ixs|
      ensures Limited(ixs[i]) && Plain(ixs[i])
    {
      SizeAllCovers(ixs, i);
    }
  }

  /** The size limit alone decides: whatever is estimated at 1232 bytes or less also passes the account limit. */
  lemma {:induction false} SizeDecides(payer: Address, ixs: seq<Instruction>)
    ensures Validate(payer, ixs).Ok? <==> LegacySize(payer, ixs) <= 1232
    ensures Validate(payer, ixs).Ok? ==> Validate(payer, ixs).value == LegacySize(payer, ixs)
    ensures |Table(payer, ixs)| > 256 ==> Validate(payer, ixs) == Err(TooManyAccounts)
    ensures |Table(payer, ixs)| <= 256 && LegacySize(payer, ixs) > 1232 ==>
              Validate(payer, ixs) == Err(TransactionTooLarge(LegacySize(payer, ixs), 1232))
  {
  }

  /** The estimate is refused exactly when some index of the table does not survive the cast to a byte. */
  lemma {:induction false} RefusedIffUnindexable(payer: Address, ixs: seq<Instruction>)
    ensures Estimate(payer, ixs).Err? <==> exists k :: 0 <= k < |Table(payer, ixs)| && ToU8(k) != k
  {
    if |Table(payer, ixs)| > 256 {
      assert ToU8(256) != 256;
    }
  }

  // ---- Payer-only transactions ----

  lemma {:induction false} OnlySigner(payer: Address, ixs: seq<Instruction>, key: Address)
    requires Signers(Table(payer, ixs)) <= 1 && MustSign(ixs, key)
    ensures key == payer
  {
    TableKeys(payer, ixs, key);
    var k :| 0 <= k < |Table(payer, ixs)| && Table(payer, ixs)[k].pubkey == key;
    TableFlags(payer, ixs, k);
    TableSummarizes(payer, ixs);
    HeaderCuts(Table(payer, ixs), k);
  }

  /** One signature is enough exactly for the lists that ask nobody else to sign. */
  lemma {:induction false} OneSigner(payer: Address, ixs: seq<Instruction>)
    ensures PayerOnly(payer, ixs) <==> Signers(Table(payer, ixs)) == 1
  {
    var t := Table(payer, ixs);
    TableSummarizes(payer, ixs);
    HeaderCounts(t);
    HeaderCuts(t, 0);
    if Signers(t) > 1 {
      HeaderCuts(t, 1);
      TableFlags(payer, ixs, 1);
    } else {
      forall i, j | 0 <= i < |ixs| && 0 <= j < |ixs[i].accounts| && ixs[i].accounts[j].isSigner
        ensures ixs[i].accounts[j].pubkey == payer
      {
        OnlySigner(payer, ixs, ixs[i].accounts[j].pubkey);
      }
    }
  }

  // ---- Where it is not exact ----

  lemma {:induction false} UpsertShort(es: seq<Entry>, u: Entry)
    ensures |Upsert(es, u)| <= |es| + 1
  {
    if es != [] && es[0].pubkey != u.pubkey {
      UpsertShort(es[1..], u);
    }
  }

  lemma {:induction false} CollectShort(uses: seq<Entry>)
    ensures |Collect(uses)| <= |uses|
  {
    if uses != [] {
      CollectShort(uses[..|uses| - 1]);
      UpsertShort(Collect(uses[..|uses| - 1]), uses[|uses| - 1]);
    }
  }

  lemma {:induction false} TableShort(payer: Address, ixs: seq<Instruction>)
    ensures |Table(payer, ixs)| <= |Uses(payer, ixs)|
  {
    CollectShort(Uses(payer, ixs));
    SortIsStable(Collect(Uses(payer, ixs)));
    assert |multiset(Table(payer, ixs))| == |multiset(Collect(Uses(payer, ixs)))|;
  }

  /** An instruction without accounts and with 65536 bytes of data. */
  predicate LongData(ix: Instruction) { ix.accounts == [] && |ix.data| == 0x1_0000 }

  lemma {:induction false} LongDataTable(payer: Address, ix: Instruction)
    requires LongData(ix)
    ensures |Table(payer, [ix])| <= 2 && Signers(Table(payer, [ix])) == 1
  {
    assert UsesOfAll([ix][..0]) == [];
    assert UsesOfAll([ix]) == UsesOf(ix);
    TableShort(payer, [ix]);
    OneSigner(payer, [ix]);
  }

  lemma {:induction false} LongDataBytes(t: seq<Entry>, ix: Instruction)
    requires LongData(ix)
    ensures |AllCompiledBytes(CompileAll(t, [ix]))| + 2 == SizeAll([ix])
  {
    var c := CompileOne(t, ix);
    assert CompileAll(t, [ix]) == [c];
    assert AllCompiledBytes([c]) == CompiledBytes(c) + AllCompiledBytes([c][1..]);
    assert ToU16(0x1_0000) == 0 && Compact(0) == [0];
    assert CompactLen(0x1_0000) == 1 + CompactLen(0x200) && CompactLen(0x200) == 1 + CompactLen(4);
    assert SizeAll([ix]) == SizeOne(ix) + SizeAll([ix][1..]);
  }

  /** For every such instruction the estimate answers, and is two bytes longer than the signed bytes. */
  lemma {:induction false} LongDataOverestimates(payer: Address, ix: Instruction, blockhash: Digest, signature: Bytes)
    requires LongData(ix) && |signature| == 64
    ensures Estimate(payer, [ix]).Ok?
    ensures |WireTx([signature], MessageBytes(CompileMessage(payer, [ix], blockhash)))| + 2
         == Estimate(payer, [ix]).value
  {
    var t := Table(payer, [ix]);
    LongDataTable(payer, ix);
    LongDataBytes(t, ix);
    ConcatLength([signature], 64);
    ConcatLength(Keys(t), 32);
    assert |Len16(1)| == 1 && |Len16(|t|)| == 1;
  }

  lemma {:induction false} SmallEncodable(payer: Address, ixs: seq<Instruction>, blockhash: Digest)
    requires Validate(payer, ixs).Ok?
    ensures Encodable(CompileMessage(payer, ixs, blockhash))
  {
    SmallIsExact(payer, ixs);
  }

  lemma {:induction false} SmallByteSized(payer: Address, ixs: seq<Instruction>)
    requires Validate(payer, ixs).Ok?
    ensures ByteSized(Table(payer, ixs))
  {
    SmallIsExact(payer, ixs);
  }

  /** The client's two checks are enough: the signed bytes have exactly the estimated length. */
  lemma {:induction false} CheckedLength(payer: Address, ixs: seq<Instruction>, blockhash: Digest, signature: Bytes)
    requires PayerOnly(payer, ixs) && Validate(payer, ixs).Ok? && |signature| == 64
    ensures |WireTx([signature], MessageBytes(CompileMessage(payer, ixs, blockhash)))| == Validate(payer, ixs).value
  {
    OneSigner(payer, ixs);
    SmallIsExact(payer, ixs);
    SizeExactIff(payer, ixs, blockhash, [signature]);
  }

  /** They read back as one message with one signature slot, which means the instructions that were compiled. */
  lemma {:induction false} CheckedMeaning(payer: Address, ixs: seq<Instruction>, blockhash: Digest, m: Message)
    requires PayerOnly(payer, ixs) && Validate(payer, ixs).Ok? && m == CompileMessage(payer, ixs, blockhash)
    ensures ReadMessage(MessageBytes(m)) == Some(m)
    ensures Faithful(m, payer, ixs, blockhash) && m.signers == 1
  {
    OneSigner(payer, ixs);
    SmallByteSized(payer, ixs);
    CompiledIsFaithful(payer, ixs, blockhash);
    SmallEncodable(payer, ixs, blockhash);
    MessageRoundTrip(m);
  }
}
