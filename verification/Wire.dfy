/** The Advance payload: what the client encodes, what the program decodes, what both sign. */
module Wire {
  import opened Base

  const MAX_PASSTHROUGH_ACCOUNTS := 128
  const MAX_CPI_ACCOUNTS := 16

  datatype Meta = Meta(pubkey: Address, isSigner: bool, isWritable: bool)

  datatype Instruction = Instruction(programId: Address, accounts: seq<Meta>, data: Bytes)

  function Addresses(metas: seq<Meta>): (a: seq<Address>)
    ensures |a| == |metas| && forall i :: 0 <= i < |metas| ==> a[i] == metas[i].pubkey
  {
    seq<Address>(|metas|, i requires 0 <= i < |metas| => metas[i].pubkey)
  }

  // ---- Encoding ----

  predicate Fits(ix: Instruction) { |ix.accounts| <= MAX_CPI_ACCOUNTS && |ix.data| <= 0xFFFF }

  function EncodeOne(ix: Instruction): Bytes
    requires Fits(ix)
  {
    [|ix.accounts|] + U16Le(|ix.data|) + ix.data
  }

  function EncodeAll(ixs: seq<Instruction>): Bytes
    requires forall ix :: ix in ixs ==> Fits(ix)
  {
    if ixs == [] then [] else EncodeOne(ixs[0]) + EncodeAll(ixs[1..])
  }

  /** Signer flags are never forwarded. */
  function Scrub(m: Meta): Meta { Meta(m.pubkey, false, m.isWritable) }

  function ScrubAll(metas: seq<Meta>): (s: seq<Meta>)
    ensures |s| == |metas| && forall i :: 0 <= i < |metas| ==> s[i] == Scrub(metas[i])
  {
    seq(|metas|, i requires 0 <= i < |metas| => Scrub(metas[i]))
  }

  /** The program account first, then the instruction's accounts. */
  function PassOne(ix: Instruction): (p: seq<Meta>)
    ensures |p| == 1 + |ix.accounts|
  {
    [Meta(ix.programId, false, false)] + ScrubAll(ix.accounts)
  }

  function PassAll(ixs: seq<Instruction>): seq<Meta> {
    if ixs == [] then [] else PassOne(ixs[0]) + PassAll(ixs[1..])
  }

  predicate Accepts(ixs: seq<Instruction>) {
    && |ixs| <= 255
    && |PassAll(ixs)| <= MAX_PASSTHROUGH_ACCOUNTS
    && forall ix :: ix in ixs ==> Fits(ix)
  }

  datatype AdvancePayload = AdvancePayload(data: Bytes, accounts: seq<Meta>)

  function Encoded(ixs: seq<Instruction>): AdvancePayload
    requires Accepts(ixs)
  {
    AdvancePayload([|ixs|] + EncodeAll(ixs), PassAll(ixs))
  }

  // ---- Where each instruction lies in the payload ----

  /** Where the accounts of instruction k begin: a program and its accounts for each one before it. */
  function AccountOffset(ixs: seq<Instruction>, k: nat): nat
    requires k <= |ixs|
  {
    if k == 0 then 0 else AccountOffset(ixs, k - 1) + 1 + |ixs[k - 1].accounts|
  }

  /** Where its bytes begin: behind the count byte, three header bytes and the data for each one before it. */
  function DataOffset(ixs: seq<Instruction>, k: nat): nat
    requires k <= |ixs|
  {
    if k == 0 then 1 else DataOffset(ixs, k - 1) + 3 + |ixs[k - 1].data|
  }

  lemma {:induction false} EncodeAllAppend(a: seq<Instruction>, b: seq<Instruction>)
    requires forall ix :: ix in a + b ==> Fits(ix)
    ensures EncodeAll(a + b) == EncodeAll(a) + EncodeAll(b)
  {
    if a == [] {
      assert a + b == b;
    } else {
      assert (a + b)[1..] == a[1..] + b && (a + b)[0] == a[0];
      EncodeAllAppend(a[1..], b);
    }
  }

  lemma {:induction false} PassAllAppend(a: seq<Instruction>, b: seq<Instruction>)
    ensures PassAll(a + b) == PassAll(a) + PassAll(b)
  {
    if a == [] {
      assert a + b == b;
    } else {
      assert (a + b)[1..] == a[1..] + b && (a + b)[0] == a[0];
      PassAllAppend(a[1..], b);
    }
  }

  lemma {:induction false} PassAllStep(ixs: seq<Instruction>, i: nat)
    requires i < |ixs|
    ensures PassAll(ixs[..i + 1]) == PassAll(ixs[..i]) + PassOne(ixs[i])
  {
    assert ixs[..i + 1] == ixs[..i] + [ixs[i]];
    PassAllAppend(ixs[..i], [ixs[i]]);
    assert PassAll([ixs[i]]) == PassOne(ixs[i]) + PassAll([]);
  }

  lemma {:induction false} EncodeAllStep(ixs: seq<Instruction>, i: nat)
    requires i < |ixs| && forall ix :: ix in ixs[..i + 1] ==> Fits(ix)
    ensures EncodeAll(ixs[..i + 1]) == EncodeAll(ixs[..i]) + EncodeOne(ixs[i])
  {
    assert ixs[..i + 1] == ixs[..i] + [ixs[i]];
    EncodeAllAppend(ixs[..i], [ixs[i]]);
    assert EncodeAll([ixs[i]]) == EncodeOne(ixs[i]) + EncodeAll([]);
  }

  lemma {:induction false} AccountsBefore(ixs: seq<Instruction>, k: nat)
    requires k <= |ixs|
    ensures |PassAll(ixs[..k])| == AccountOffset(ixs, k)
  {
    if k > 0 {
      AccountsBefore(ixs, k - 1);
      PassAllStep(ixs, k - 1);
    }
  }

  lemma {:induction false} DataBefore(ixs: seq<Instruction>, k: nat)
    requires k <= |ixs| && forall ix :: ix in ixs[..k] ==> Fits(ix)
    ensures 1 + |EncodeAll(ixs[..k])| == DataOffset(ixs, k)
  {
    if k > 0 {
      assert ixs[..k][..k - 1] == ixs[..k - 1];
      DataBefore(ixs, k - 1);
      EncodeAllStep(ixs, k - 1);
    }
  }

  lemma {:induction false} AccountsAround(ixs: seq<Instruction>, k: nat)
    requires k < |ixs|
    ensures PassAll(ixs) == PassAll(ixs[..k]) + PassOne(ixs[k]) + PassAll(ixs[k + 1..])
    ensures |PassAll(ixs[..k])| == AccountOffset(ixs, k)
    ensures |PassAll(ixs)| == AccountOffset(ixs, |ixs|)
  {
    assert ixs == ixs[..k + 1] + ixs[k + 1..] && ixs[..|ixs|] == ixs;
    PassAllAppend(ixs[..k + 1], ixs[k + 1..]);
    PassAllStep(ixs, k);
    AccountsBefore(ixs, k);
    AccountsBefore(ixs, |ixs|);
  }

  lemma {:induction false} Middle<T>(a: seq<T>, b: seq<T>, c: seq<T>, j: nat)
    requires j < |b|
    ensures |a + b + c| == |a| + |b| + |c| && (a + b + c)[|a| + j] == b[j]
  {
  }

  lemma {:induction false} PassedAt(ixs: seq<Instruction>, k: nat, i: nat)
    requires k < |ixs| && i < |PassOne(ixs[k])|
    ensures AccountOffset(ixs, k) + |PassOne(ixs[k])| <= |PassAll(ixs)| == AccountOffset(ixs, |ixs|)
    ensures PassAll(ixs)[AccountOffset(ixs, k) + i] == PassOne(ixs[k])[i]
  {
    AccountsAround(ixs, k);
    Middle(PassAll(ixs[..k]), PassOne(ixs[k]), PassAll(ixs[k + 1..]), i);
  }

  /** Position by position, the account list of the payload: each instruction's program, unsigned and readonly. */
  lemma {:induction false} ProgramAt(ixs: seq<Instruction>, k: nat)
    requires Accepts(ixs) && k < |ixs|
    ensures AccountOffset(ixs, k) < |Encoded(ixs).accounts| == AccountOffset(ixs, |ixs|)
    ensures Encoded(ixs).accounts[AccountOffset(ixs, k)] == Meta(ixs[k].programId, false, false)
  {
    PassedAt(ixs, k, 0);
  }

  lemma {:induction false} PassOneAt(ix: Instruction, j: nat)
    requires j < |ix.accounts|
    ensures PassOne(ix)[1 + j] == Meta(ix.accounts[j].pubkey, false, ix.accounts[j].isWritable)
  {
    assert PassOne(ix)[1 + j] == ScrubAll(ix.accounts)[j];
  }

  /** Behind it the instruction's accounts, each with its own writable flag and never signing. */
  lemma {:induction false} AccountAt(ixs: seq<Instruction>, k: nat, j: nat)
    requires Accepts(ixs) && k < |ixs| && j < |ixs[k].accounts|
    ensures AccountOffset(ixs, k) + 1 + j < |Encoded(ixs).accounts|
    ensures Encoded(ixs).accounts[AccountOffset(ixs, k) + 1 + j]
         == Meta(ixs[k].accounts[j].pubkey, false, ixs[k].accounts[j].isWritable)
  {
    PassOneAt(ixs[k], j);
    PassedAt(ixs, k, 1 + j);
  }

  lemma {:induction false} DataAround(ixs: seq<Instruction>, k: nat)
    requires k < |ixs| && forall ix :: ix in ixs ==> Fits(ix)
    ensures Fits(ixs[k]) && (forall ix :: ix in ixs[..k] ==> Fits(ix)) && forall ix :: ix in ixs[k + 1..] ==> Fits(ix)
    ensures EncodeAll(ixs) == EncodeAll(ixs[..k]) + EncodeOne(ixs[k]) + EncodeAll(ixs[k + 1..])
    ensures 1 + |EncodeAll(ixs[..k])| == DataOffset(ixs, k)
    ensures 1 + |EncodeAll(ixs)| == DataOffset(ixs, |ixs|)
  {
    assert ixs == ixs[..k + 1] + ixs[k + 1..] && ixs[..|ixs|] == ixs;
    EncodeAllAppend(ixs[..k + 1], ixs[k + 1..]);
    EncodeAllStep(ixs, k);
    DataBefore(ixs, k);
    DataBefore(ixs, |ixs|);
  }

  lemma {:induction false} EncodedOneBytes(ix: Instruction)
    requires Fits(ix)
    ensures var b := EncodeOne(ix);
            && |b| == 3 + |ix.data| && b[0] == |ix.accounts| && b[1] as int + 256 * b[2] as int == |ix.data|
            && b[3..] == ix.data
  {
  }

  lemma {:induction false} MiddleSlice<T>(a: seq<T>, b: seq<T>, c: seq<T>)
    ensures (a + b + c)[|a|..|a| + |b|] == b
  {
  }

  lemma {:induction false} CountFirst(n: byte, a: Bytes, b: Bytes, c: Bytes)
    ensures [n] + (a + b + c) == ([n] + a) + b + c
  {
  }

  lemma {:induction false} SlicedBytes(data: Bytes, at: nat, one: Bytes)
    requires |one| >= 3 && at + |one| <= |data| && data[at..at + |one|] == one
    ensures data[at] == one[0] && data[at + 1] == one[1] && data[at + 2] == one[2]
    ensures data[at + 3..at + |one|] == one[3..]
  {
    assert data[at + 3..at + |one|] == data[at..at + |one|][3..];
  }

  /** Byte by byte, the data of the payload: the number of instructions, then for each its number of accounts, the
      length of its data with the low byte first, and the data. */
  lemma {:induction false} DataAt(ixs: seq<Instruction>, k: nat)
    requires Accepts(ixs) && k < |ixs|
    ensures var (data, at) := (Encoded(ixs).data, DataOffset(ixs, k));
            && |data| == DataOffset(ixs, |ixs|) && at + 3 + |ixs[k].data| <= |data|
            && data[0] == |ixs| && data[at] == |ixs[k].accounts|
            && data[at + 1] as int + 256 * data[at + 2] as int == |ixs[k].data|
            && data[at + 3..at + 3 + |ixs[k].data|] == ixs[k].data
  {
    DataAround(ixs, k);
    EncodedOneBytes(ixs[k]);
    MiddleSlice([|ixs|] + EncodeAll(ixs[..k]), EncodeOne(ixs[k]), EncodeAll(ixs[k + 1..]));
    CountFirst(|ixs|, EncodeAll(ixs[..k]), EncodeOne(ixs[k]), EncodeAll(ixs[k + 1..]));
    SlicedBytes(Encoded(ixs).data, DataOffset(ixs, k), EncodeOne(ixs[k]));
  }

  lemma {:induction false} OffsetGrows(ixs: seq<Instruction>, k: nat)
    requires k <= |ixs|
    ensures k <= AccountOffset(ixs, k)
  {
    if k > 0 {
      OffsetGrows(ixs, k - 1);
    }
  }

  /** Which lists are encoded, in plain numbers. The limit of 255 instructions never decides: every instruction brings
      at least its program account. */
  lemma {:induction false} CountLimitIsImplied(ixs: seq<Instruction>)
    ensures Accepts(ixs) <==>
            && AccountOffset(ixs, |ixs|) <= 128
            && forall k :: 0 <= k < |ixs| ==> |ixs[k].accounts| <= 16 && |ixs[k].data| <= 65535
    ensures |ixs| <= AccountOffset(ixs, |ixs|)
  {
    AccountsBefore(ixs, |ixs|);
    OffsetGrows(ixs, |ixs|);
    assert ixs[..|ixs|] == ixs;
    assert forall k :: 0 <= k < |ixs| ==> ixs[k] in ixs;
  }

  datatype EncodeError =
    | TooManyInstructions
    | TooManyPassthroughAccounts
    | TooManyInstructionAccounts
    | InstructionDataTooLong

  function FirstOffence(ixs: seq<Instruction>): EncodeError
    requires exists ix :: ix in ixs && !Fits(ix)
  {
    if |ixs[0].accounts| > MAX_CPI_ACCOUNTS then TooManyInstructionAccounts
    else if |ixs[0].data| > 0xFFFF then InstructionDataTooLong
    else FirstOffence(ixs[1..])
  }

  /** Why an instruction list is refused: the two totals first, then the first offender. */
  function Refusal(ixs: seq<Instruction>): EncodeError
    requires !Accepts(ixs)
  {
    if |ixs| > 255 then TooManyInstructions
    else if |PassAll(ixs)| > MAX_PASSTHROUGH_ACCOUNTS then TooManyPassthroughAccounts
    else FirstOffence(ixs)
  }

  lemma {:induction false} FirstOffenceAt(ixs: seq<Instruction>, i: nat)
    requires i < |ixs| && !Fits(ixs[i]) && forall k :: 0 <= k < i ==> Fits(ixs[k])
    ensures FirstOffence(ixs) ==
            if |ixs[i].accounts| > MAX_CPI_ACCOUNTS then TooManyInstructionAccounts else InstructionDataTooLong
  {
    assert ixs[i] in ixs;
    if i > 0 {
      assert ixs[0] in ixs && ixs[1..][i - 1] == ixs[i];
      FirstOffenceAt(ixs[1..], i - 1);
    }
  }

  lemma {:induction false} FirstUnfit(ixs: seq<Instruction>) returns (i: nat)
    requires exists ix :: ix in ixs && !Fits(ix)
    ensures i < |ixs| && !Fits(ixs[i]) && forall k :: 0 <= k < i ==> Fits(ixs[k])
  {
    i := 0;
    if Fits(ixs[0]) {
      i := FirstUnfit(ixs[1..]);
      i := i + 1;
    }
  }

  /** What each refusal says: the totals are checked first, then the instructions in order, the number of accounts
      of each before the length of its data. */
  lemma {:induction false} RefusalSays(ixs: seq<Instruction>) returns (i: nat)
    requires !Accepts(ixs)
    ensures Refusal(ixs) == TooManyInstructions <==> |ixs| > 255
    ensures Refusal(ixs) == TooManyPassthroughAccounts <==> |ixs| <= 255 && AccountOffset(ixs, |ixs|) > 128
    ensures Refusal(ixs) == TooManyInstructionAccounts || Refusal(ixs) == InstructionDataTooLong ==>
              && i < |ixs| && (forall k :: 0 <= k < i ==> |ixs[k].accounts| <= 16 && |ixs[k].data| <= 65535)
              && (Refusal(ixs) == TooManyInstructionAccounts <==> |ixs[i].accounts| > 16)
              && (Refusal(ixs) == InstructionDataTooLong <==> |ixs[i].accounts| <= 16 && |ixs[i].data| > 65535)
  {
    AccountsBefore(ixs, |ixs|);
    assert ixs[..|ixs|] == ixs;
    i := 0;
    if |ixs| <= 255 && |PassAll(ixs)| <= MAX_PASSTHROUGH_ACCOUNTS {
      i := FirstUnfit(ixs);
      FirstOffenceAt(ixs, i);
    }
  }

  method PassthroughTotal(ixs: seq<Instruction>) returns (total: nat)
    ensures total == |PassAll(ixs)|
  {
    total := 0;
    for i := 0 to |ixs|
      invariant total == |PassAll(ixs[..i])|
    {
      PassAllStep(ixs, i);
      total := total + 1 + |ixs[i].accounts|;
    }
    assert ixs[..|ixs|] == ixs;
  }

  method ScrubLoop(metas: seq<Meta>) returns (out: seq<Meta>)
    ensures out == ScrubAll(metas)
  {
    out := [];
    for j := 0 to |metas|
      invariant |out| == j && forall k :: 0 <= k < j ==> out[k] == Scrub(metas[k])
    {
      if metas[j].isWritable {
        out := out + [Meta(metas[j].pubkey, false, true)];
      } else {
        out := out + [Meta(metas[j].pubkey, false, false)];
      }
    }
  }

  /** Payload and accounts hold the first `i` instructions, all of which fit. */
  predicate EncodedUpTo(ixs: seq<Instruction>, i: nat, data: Bytes, accounts: seq<Meta>) {
    && i <= |ixs| <= 255 && (forall ix :: ix in ixs[..i] ==> Fits(ix))
    && data == [|ixs|] + EncodeAll(ixs[..i]) && accounts == PassAll(ixs[..i])
  }

  lemma {:induction false} EncodeNext(ixs: seq<Instruction>, i: nat, data: Bytes, accounts: seq<Meta>)
    requires EncodedUpTo(ixs, i, data, accounts) && i < |ixs| && Fits(ixs[i])
    ensures EncodedUpTo(ixs, i + 1, data + EncodeOne(ixs[i]), accounts + PassOne(ixs[i]))
  {
    assert ixs[..i + 1] == ixs[..i] + [ixs[i]];
    forall ix | ix in ixs[..i + 1]
      ensures Fits(ix)
    {
      assert ix in ixs[..i] || ix == ixs[i];
    }
    EncodeAllStep(ixs, i);
    PassAllStep(ixs, i);
    assert [|ixs|] + (EncodeAll(ixs[..i]) + EncodeOne(ixs[i])) == [|ixs|] + EncodeAll(ixs[..i]) + EncodeOne(ixs[i]);
  }

  /** The body of the encoder's loop for one instruction. */
  method AppendOne(ix: Instruction, before: Bytes, metas: seq<Meta>) returns (data: Bytes, accounts: seq<Meta>)
    requires Fits(ix)
    ensures data == before + EncodeOne(ix) && accounts == metas + PassOne(ix)
  {
    data := before + [|ix.accounts|];
    data := data + U16Le(|ix.data|);
    data := data + ix.data;
    var scrubbed := ScrubLoop(ix.accounts);
    accounts := metas + [Meta(ix.programId, false, false)];
    accounts := accounts + scrubbed;
  }

  /** `encode_advance`: accepts exactly the lists within the limits, and reports the first one broken. */
  method EncodeAdvance(ixs: seq<Instruction>) returns (r: Result<AdvancePayload, EncodeError>)
    ensures r == if Accepts(ixs) then Ok(Encoded(ixs)) else Err(Refusal(ixs))
  {
    if |ixs| > 255 {
      return Err(TooManyInstructions);
    }
    var total := PassthroughTotal(ixs);
    if total > MAX_PASSTHROUGH_ACCOUNTS {
      return Err(TooManyPassthroughAccounts);
    }
    var data: Bytes, accounts := [|ixs|], [];
    for i := 0 to |ixs|
      invariant EncodedUpTo(ixs, i, data, accounts)
    {
      if |ixs[i].accounts| > MAX_CPI_ACCOUNTS {
        FirstOffenceAt(ixs, i);
        return Err(TooManyInstructionAccounts);
      }
      if |ixs[i].data| > 0xFFFF {
        FirstOffenceAt(ixs, i);
        return Err(InstructionDataTooLong);
      }
      EncodeNext(ixs, i, data, accounts);
      data, accounts := AppendOne(ixs[i], data, accounts);
    }
    assert ixs[..|ixs|] == ixs;
    r := Ok(AdvancePayload(data, accounts));
  }
}
