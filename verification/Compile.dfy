/** Compiling instructions to a legacy message, and the size estimate made beforehand. */
module Compile {
  import opened Base
  import opened Wire
  import opened AccountTable
  import opened Message

  const LEGACY_TRANSACTION_SIZE_LIMIT := 1232

  // ---- The compiler ----

  function IndexOf(t: seq<Entry>, key: Address): byte { ToU8(Find(t, key)) }

  function CompileOne(t: seq<Entry>, ix: Instruction): (c: Compiled)
    ensures |c.accounts| == |ix.accounts|
  {
    Compiled(IndexOf(t, ix.programId),
             seq<byte>(|ix.accounts|, i requires 0 <= i < |ix.accounts| => IndexOf(t, ix.accounts[i].pubkey)),
             ix.data)
  }

  function CompileAll(t: seq<Entry>, ixs: seq<Instruction>): (cs: seq<Compiled>)
    ensures |cs| == |ixs| && forall i :: 0 <= i < |ixs| ==> cs[i] == CompileOne(t, ixs[i])
  {
    if ixs == [] then [] else [CompileOne(t, ixs[0])] + CompileAll(t, ixs[1..])
  }

  function Keys(t: seq<Entry>): (k: seq<Address>)
    ensures |k| == |t| && forall i :: 0 <= i < |t| ==> k[i] == t[i].pubkey
  {
    seq<Address>(|t|, i requires 0 <= i < |t| => t[i].pubkey)
  }

  /** The counts and indexes are cut to bytes, as the casts do. */
  function MessageFor(t: seq<Entry>, ixs: seq<Instruction>, blockhash: Digest): Message {
    Message(ToU8(Signers(t)), ToU8(ReadonlySigned(t)), ToU8(ReadonlyUnsigned(t)),
            Keys(t), blockhash, CompileAll(t, ixs))
  }

  function CompileMessage(payer: Address, ixs: seq<Instruction>, blockhash: Digest): Message {
    MessageFor(Table(payer, ixs), ixs, blockhash)
  }

  method PushIndexes(msg: Bytes, t: seq<Entry>, ix: Instruction) returns (out: Bytes)
    ensures out == msg + CompileOne(t, ix).accounts
  {
    ghost var indexes := CompileOne(t, ix).accounts;
    out := msg;
    for i := 0 to |ix.accounts|
      invariant out == msg + indexes[..i]
    {
      out := out + [ToU8(Find(t, ix.accounts[i].pubkey))];
      assert indexes[..i + 1] == indexes[..i] + [indexes[i]];
    }
    assert indexes[..|ix.accounts|] == indexes;
  }

  method PushInstruction(msg: Bytes, t: seq<Entry>, ix: Instruction) returns (out: Bytes)
    ensures out == msg + CompiledBytes(CompileOne(t, ix))
  {
    out := msg + [ToU8(Find(t, ix.programId))];
    out := EncodeCompactU16(out, ToU16(|ix.accounts|));
    out := PushIndexes(out, t, ix);
    out := EncodeCompactU16(out, ToU16(|ix.data|));
    out := out + ix.data;
  }

  lemma {:induction false} AllCompiledNext(cs: seq<Compiled>, i: nat)
    requires i < |cs|
    ensures AllCompiledBytes(cs[i..]) == CompiledBytes(cs[i]) + AllCompiledBytes(cs[i + 1..])
  {
    assert cs[i..][1..] == cs[i + 1..];
  }

  method PushInstructions(msg: Bytes, t: seq<Entry>, ixs: seq<Instruction>) returns (out: Bytes)
    ensures out == msg + AllCompiledBytes(CompileAll(t, ixs))
  {
    ghost var cs := CompileAll(t, ixs);
    out := msg;
    for i := 0 to |ixs|
      invariant out + AllCompiledBytes(cs[i..]) == msg + AllCompiledBytes(cs)
    {
      AllCompiledNext(cs, i);
      out := PushInstruction(out, t, ixs[i]);
    }
  }

  method PushKeys(msg: Bytes, t: seq<Entry>) returns (out: Bytes)
    ensures out == msg + Concat(Keys(t))
  {
    ghost var keys := Keys(t);
    out := msg;
    for i := 0 to |t|
      invariant out + Concat(keys[i..]) == msg + Concat(keys)
    {
      assert keys[i..][1..] == keys[i + 1..];
      out := out + t[i].pubkey;
    }
  }

  lemma {:induction false} Nest<T>(a: seq<T>, b: seq<T>, c: seq<T>, d: seq<T>, e: seq<T>, f: seq<T>)
    ensures a + b + c + d + e + f == a + (b + (c + (d + (e + f))))
  {
  }

  method PushTable(head: Bytes, t: seq<Entry>, blockhash: Digest) returns (msg: Bytes)
    ensures msg == head + Len16(|t|) + Concat(Keys(t)) + blockhash
  {
    msg := EncodeCompactU16(head, ToU16(|t|));
    msg := PushKeys(msg, t);
    msg := msg + blockhash;
  }

  method WriteMessage(t: seq<Entry>, ixs: seq<Instruction>, blockhash: Digest) returns (msg: Bytes)
    ensures msg == MessageBytes(MessageFor(t, ixs, blockhash))
  {
    var head: Bytes := [ToU8(Signers(t)), ToU8(ReadonlySigned(t)), ToU8(ReadonlyUnsigned(t))];
    Nest(head, Len16(|t|), Concat(Keys(t)), blockhash, Len16(|ixs|), AllCompiledBytes(CompileAll(t, ixs)));
    msg := PushTable(head, t, blockhash);
    msg := EncodeCompactU16(msg, ToU16(|ixs|));
    msg := PushInstructions(msg, t, ixs);
  }

  method BuildMessage(payer: Address, ixs: seq<Instruction>, blockhash: Digest) returns (msg: Bytes)
    ensures msg == MessageBytes(CompileMessage(payer, ixs, blockhash))
  {
    var collector := new Collector();
    collector.CollectAccounts(payer, ixs);
    msg := WriteMessage(collector.accounts, ixs, blockhash);
  }

  // ---- The size estimate ----

  datatype TxError =
    | TooManyAccounts
    | ProgramMissing
    | AccountMissing
    | TransactionTooLarge(estimated: nat, limit: nat)
    | NonPayerSignature

  function SizeOne(ix: Instruction): nat {
    1 + CompactLen(|ix.accounts|) + |ix.accounts| + CompactLen(|ix.data|) + |ix.data|
  }

  function SizeAll(ixs: seq<Instruction>): nat {
    if ixs == [] then 0 else SizeOne(ixs[0]) + SizeAll(ixs[1..])
  }

  function MessageSize(accounts: nat, ixs: seq<Instruction>): nat {
    3 + CompactLen(accounts) + accounts * 32 + 32 + CompactLen(|ixs|) + SizeAll(ixs)
  }

  function LegacySize(payer: Address, ixs: seq<Instruction>): nat {
    var t := Table(payer, ixs);
    CompactLen(Signers(t)) + Signers(t) * 64 + MessageSize(|t|, ixs)
  }

  function Estimate(payer: Address, ixs: seq<Instruction>): Result<nat, TxError> {
    if |Table(payer, ixs)| > 256 then Err(TooManyAccounts) else Ok(LegacySize(payer, ixs))
  }

  predicate Present(t: seq<Entry>, ix: Instruction) {
    Has(t, ix.programId) && forall i :: 0 <= i < |ix.accounts| ==> Has(t, ix.accounts[i].pubkey)
  }

  predicate AllPresent(t: seq<Entry>, ixs: seq<Instruction>) {
    forall i :: 0 <= i < |ixs| ==> Present(t, ixs[i])
  }

  method AccountsPresent(t: seq<Entry>, ix: Instruction) returns (ok: bool)
    ensures ok <==> forall i :: 0 <= i < |ix.accounts| ==> Has(t, ix.accounts[i].pubkey)
  {
    for i := 0 to |ix.accounts|
      invariant forall j :: 0 <= j < i ==> Has(t, ix.accounts[j].pubkey)
    {
      if !Has(t, ix.accounts[i].pubkey) {
        return false;
      }
    }
    return true;
  }

  method LegacyMessageSize(t: seq<Entry>, ixs: seq<Instruction>) returns (r: Result<nat, TxError>)
    ensures r.Ok? <==> AllPresent(t, ixs)
    ensures r.Ok? ==> r.value == MessageSize(|t|, ixs)
    ensures r.Err? ==> r.error == ProgramMissing || r.error == AccountMissing
  {
    var size := 3;
    var n := CompactU16Len(|t|);
    size := size + n + |t| * 32 + 32;
    n := CompactU16Len(|ixs|);
    size := size + n;
    for i := 0 to |ixs|
      invariant size + SizeAll(ixs[i..]) == MessageSize(|t|, ixs)
      invariant AllPresent(t, ixs[..i])
    {
      assert ixs[i..][1..] == ixs[i + 1..];
      var a := CompactU16Len(|ixs[i].accounts|);
      var d := CompactU16Len(|ixs[i].data|);
      size := size + 1 + a + |ixs[i].accounts| + d + |ixs[i].data|;
      if !Has(t, ixs[i].programId) {
        return Err(ProgramMissing);
      }
      var ok := AccountsPresent(t, ixs[i]);
      if !ok {
        return Err(AccountMissing);
      }
    }
    assert ixs[..|ixs|] == ixs;
    return Ok(size);
  }

  // ---- Every key an instruction uses is in the table ----

  lemma {:induction false} TableHasAll(payer: Address, ixs: seq<Instruction>, j: nat)
    requires j < |ixs|
    ensures Present(Table(payer, ixs), ixs[j])
  {
    TableKeys(payer, ixs, ixs[j].programId);
    forall i | 0 <= i < |ixs[j].accounts|
      ensures Has(Table(payer, ixs), ixs[j].accounts[i].pubkey)
    {
      TableKeys(payer, ixs, ixs[j].accounts[i].pubkey);
    }
  }

  method EstimateLegacyTransactionSize(payer: Address, ixs: seq<Instruction>) returns (r: Result<nat, TxError>)
    ensures r == Estimate(payer, ixs)
  {
    var collector := new Collector();
    collector.CollectAccounts(payer, ixs);
    var t := collector.accounts;
    if |t| > 256 {
      return Err(TooManyAccounts);
    }
    var signatures := CompactU16Len(Signers(t));
    var message := LegacyMessageSize(t, ixs);
    forall j | 0 <= j < |ixs|
      ensures Present(t, ixs[j])
    {
      TableHasAll(payer, ixs, j);
    }
    return Ok(signatures + Signers(t) * 64 + message.value);
  }

  function Validate(payer: Address, ixs: seq<Instruction>): Result<nat, TxError> {
    match Estimate(payer, ixs)
    case Err(e) => Err(e)
    case Ok(n) =>
      if n > LEGACY_TRANSACTION_SIZE_LIMIT then Err(TransactionTooLarge(n, LEGACY_TRANSACTION_SIZE_LIMIT)) else Ok(n)
  }

  predicate PayerOnly(payer: Address, ixs: seq<Instruction>) {
    forall i, j :: 0 <= i < |ixs| && 0 <= j < |ixs[i].accounts| ==>
      ixs[i].accounts[j].isSigner ==> ixs[i].accounts[j].pubkey == payer
  }

  method ValidatePayerOnlySigners(payer: Address, ixs: seq<Instruction>) returns (r: Option<TxError>)
    ensures r == if PayerOnly(payer, ixs) then None else Some(NonPayerSignature)
  {
    for i := 0 to |ixs|
      invariant PayerOnly(payer, ixs[..i])
    {
      var metas := ixs[i].accounts;
      for j := 0 to |metas|
        invariant forall k :: 0 <= k < j ==> metas[k].isSigner ==> metas[k].pubkey == payer
      {
        if metas[j].isSigner && metas[j].pubkey != payer {
          return Some(NonPayerSignature);
        }
      }
    }
    assert ixs[..|ixs|] == ixs;
    return None;
  }
}
