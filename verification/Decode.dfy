/** How the program cuts an Advance payload and its positional accounts back into instructions. */
module Decode {
  import opened Base
  import opened Wire

  datatype ProgramError =
    | NotEnoughAccountKeys
    | InvalidInstructionData
    | InvalidAccountData
    | InvalidAccountOwner
    | InvalidArgument
    | InvalidSeeds
    | MissingRequiredSignature
    | IncorrectProgramId
    | InsufficientFunds
    | RuntimeRejected

  /** One instruction to invoke; `A` is whatever stands for an account. */
  datatype Cpi<A> = Cpi(program: A, accounts: seq<A>, data: Bytes)

  /** The cut-off instruction, the payload after it and the account cursor after it. */
  datatype Cut<A> = Cut(cpi: Cpi<A>, payload: Bytes, cursor: nat)

  function NextCpi<A>(payload: Bytes, remaining: seq<A>, cursor: nat): (r: Result<Cut<A>, ProgramError>)
    requires cursor <= |remaining|
    ensures r.Ok? ==> |r.value.payload| + |r.value.cpi.data| < |payload| && r.value.cursor <= |remaining|
  {
    if |payload| < 3 then Err(InvalidInstructionData)
    else
      var (n: nat, len: nat) := (payload[0], FromU16Le(payload[1], payload[2]));
      if n > MAX_CPI_ACCOUNTS || |payload| < 3 + len then Err(InvalidInstructionData)
      else if cursor + 1 + n > |remaining| then Err(NotEnoughAccountKeys)
      else
        Ok(Cut(Cpi(remaining[cursor], remaining[cursor + 1..cursor + 1 + n], payload[3..3 + len]),
               payload[3 + len..], cursor + 1 + n))
  }

  /** What one instruction is cut to, byte by byte, and why it is refused: its three header bytes and its data must be
      there and name at most 16 accounts, and then its program and accounts must be there. */
  lemma {:induction false} NextSays<A>(payload: Bytes, remaining: seq<A>, cursor: nat)
    requires cursor <= |remaining|
    ensures |payload| < 3 || payload[0] > 16 || |payload| < 3 + payload[1] as int + 256 * payload[2] as int ==>
              NextCpi(payload, remaining, cursor) == Err(InvalidInstructionData)
    ensures 3 <= |payload| && payload[0] <= 16 && 3 + payload[1] as int + 256 * payload[2] as int <= |payload| ==>
              var len: nat := payload[1] as int + 256 * payload[2] as int;
              var end: nat := cursor + 1 + payload[0];
              NextCpi(payload, remaining, cursor) ==
              if |remaining| < end then Err(NotEnoughAccountKeys)
              else Ok(Cut(Cpi(remaining[cursor], remaining[cursor + 1..end], payload[3..3 + len]), payload[3 + len..],
                          end))
  {
  }

  /** Cut `count` instructions; everything must be consumed at the end. */
  function DecodeRest<A>(count: nat, payload: Bytes, remaining: seq<A>, cursor: nat): Result<seq<Cpi<A>>, ProgramError>
    requires cursor <= |remaining|
    decreases count
  {
    if count == 0 then
      if payload != [] || cursor != |remaining| then Err(InvalidInstructionData) else Ok([])
    else
      var cut := NextCpi(payload, remaining, cursor);
      if cut.Err? then Err(cut.error)
      else
        var rest := DecodeRest(count - 1, cut.value.payload, remaining, cut.value.cursor);
        if rest.Err? then rest else Ok([cut.value.cpi] + rest.value)
  }

  function DecodePayload<A>(payload: Bytes, remaining: seq<A>): Result<seq<Cpi<A>>, ProgramError> {
    if payload == [] then Err(InvalidInstructionData) else DecodeRest(payload[0], payload[1..], remaining, 0)
  }

  // ---- Decoding undoes encoding ----

  lemma {:induction false} NextOfEncoded<A>(ix: Instruction, rest: Bytes, remaining: seq<A>, cursor: nat)
    requires Fits(ix) && cursor + 1 + |ix.accounts| <= |remaining|
    ensures NextCpi(EncodeOne(ix) + rest, remaining, cursor) ==
            Ok(Cut(Cpi(remaining[cursor], remaining[cursor + 1..cursor + 1 + |ix.accounts|], ix.data),
                   rest, cursor + 1 + |ix.accounts|))
  {
    var payload := EncodeOne(ix) + rest;
    U16RoundTrip(|ix.data|);
    assert payload[3..3 + |ix.data|] == ix.data && payload[3 + |ix.data|..] == rest;
  }

  /** What the accounts of an encoded list cut into. */
  function Placed<A>(ixs: seq<Instruction>, remaining: seq<A>, cursor: nat): (cpis: seq<Cpi<A>>)
    requires cursor + |PassAll(ixs)| == |remaining|
    ensures |cpis| == |ixs|
    decreases |ixs|
  {
    if ixs == [] then []
    else
      var end := cursor + 1 + |ixs[0].accounts|;
      [Cpi(remaining[cursor], remaining[cursor + 1..end], ixs[0].data)] + Placed(ixs[1..], remaining, end)
  }

  lemma {:induction false} DecodeFirst<A>(ix: Instruction, payload: Bytes, tail: Bytes, remaining: seq<A>, cursor: nat,
                                          end: nat, count: nat, rest: seq<Cpi<A>>, cpis: seq<Cpi<A>>)
    requires Fits(ix) && count > 0 && end == cursor + 1 + |ix.accounts| <= |remaining|
    requires payload == EncodeOne(ix) + tail && DecodeRest(count - 1, tail, remaining, end) == Ok(rest)
    requires cpis == [Cpi(remaining[cursor], remaining[cursor + 1..end], ix.data)] + rest
    ensures DecodeRest(count, payload, remaining, cursor) == Ok(cpis)
  {
    NextOfEncoded(ix, tail, remaining, cursor);
  }

  lemma {:induction false} DecodeNone<A>(remaining: seq<A>)
    ensures DecodeRest(0, [], remaining, |remaining|) == Ok([])
  {
  }

  lemma {:induction false} EncodeSplits(ixs: seq<Instruction>)
    requires ixs != [] && forall ix :: ix in ixs ==> Fits(ix)
    ensures Fits(ixs[0]) && forall ix :: ix in ixs[1..] ==> Fits(ix)
    ensures EncodeAll(ixs) == EncodeOne(ixs[0]) + EncodeAll(ixs[1..])
    ensures |PassAll(ixs)| == 1 + |ixs[0].accounts| + |PassAll(ixs[1..])|
  {
  }

  lemma {:induction false} PlacedSplits<A>(ixs: seq<Instruction>, remaining: seq<A>, cursor: nat)
    requires ixs != [] && cursor + |PassAll(ixs)| == |remaining|
    ensures var end := cursor + 1 + |ixs[0].accounts|;
            && end + |PassAll(ixs[1..])| == |remaining|
            && Placed(ixs, remaining, cursor)
               == [Cpi(remaining[cursor], remaining[cursor + 1..end], ixs[0].data)] + Placed(ixs[1..], remaining, end)
  {
  }

  lemma {:induction false} DecodeOfEncoded<A>(ixs: seq<Instruction>, payload: Bytes, remaining: seq<A>, cursor: nat,
                                              cpis: seq<Cpi<A>>)
    requires cursor + |PassAll(ixs)| == |remaining| && forall ix :: ix in ixs ==> Fits(ix)
    requires payload == EncodeAll(ixs) && cpis == Placed(ixs, remaining, cursor)
    ensures DecodeRest(|ixs|, payload, remaining, cursor) == Ok(cpis)
    decreases |ixs|
  {
    if ixs == [] {
      DecodeNone(remaining);
    } else {
      EncodeSplits(ixs);
      PlacedSplits(ixs, remaining, cursor);
      var tail, end := EncodeAll(ixs[1..]), cursor + 1 + |ixs[0].accounts|;
      var rest := Placed(ixs[1..], remaining, end);
      DecodeOfEncoded(ixs[1..], tail, remaining, end, rest);
      DecodeFirst(ixs[0], payload, tail, remaining, cursor, end, |ixs|, rest, cpis);
    }
  }

  /** Same program, same account addresses in order, same data. */
  predicate Matches<A>(addr: A -> Address, cpi: Cpi<A>, ix: Instruction) {
    && addr(cpi.program) == ix.programId
    && |cpi.accounts| == |ix.accounts|
    && (forall j :: 0 <= j < |ix.accounts| ==> addr(cpi.accounts[j]) == ix.accounts[j].pubkey)
    && cpi.data == ix.data
  }

  /** The views have the addresses of the list's accounts. */
  predicate Addressed<A>(addr: A -> Address, remaining: seq<A>, metas: seq<Meta>) {
    |metas| == |remaining| && forall j :: 0 <= j < |metas| ==> addr(remaining[j]) == metas[j].pubkey
  }

  lemma {:induction false} OffsetFirst(ixs: seq<Instruction>, k: nat)
    requires 0 < k <= |ixs|
    ensures AccountOffset(ixs, k) == 1 + |ixs[0].accounts| + AccountOffset(ixs[1..], k - 1)
  {
    if k > 1 {
      OffsetFirst(ixs, k - 1);
    }
  }

  lemma {:induction false} PlacedAt<A>(ixs: seq<Instruction>, remaining: seq<A>, cursor: nat, k: nat)
    requires cursor + |PassAll(ixs)| == |remaining| && k < |ixs|
    ensures var at := cursor + AccountOffset(ixs, k);
            && at + 1 + |ixs[k].accounts| <= |remaining|
            && Placed(ixs, remaining, cursor)[k]
               == Cpi(remaining[at], remaining[at + 1..at + 1 + |ixs[k].accounts|], ixs[k].data)
    decreases |ixs|
  {
    PlacedSplits(ixs, remaining, cursor);
    if k > 0 {
      OffsetFirst(ixs, k);
      PlacedAt(ixs[1..], remaining, cursor + 1 + |ixs[0].accounts|, k - 1);
    }
  }

  lemma {:induction false} PlacedAccount<A>(ixs: seq<Instruction>, remaining: seq<A>, k: nat, j: nat)
    requires Accepts(ixs) && |PassAll(ixs)| == |remaining| && k < |ixs| && j < |ixs[k].accounts|
    ensures AccountOffset(ixs, k) + 1 + j < |remaining| && j < |Placed(ixs, remaining, 0)[k].accounts|
    ensures Placed(ixs, remaining, 0)[k].accounts[j] == remaining[AccountOffset(ixs, k) + 1 + j]
  {
    PlacedAt(ixs, remaining, 0, k);
  }

  lemma {:induction false} AccountMatches<A>(addr: A -> Address, ixs: seq<Instruction>, remaining: seq<A>, k: nat,
                                             j: nat)
    requires Accepts(ixs) && Addressed(addr, remaining, PassAll(ixs)) && k < |ixs| && j < |ixs[k].accounts|
    ensures j < |Placed(ixs, remaining, 0)[k].accounts|
    ensures addr(Placed(ixs, remaining, 0)[k].accounts[j]) == ixs[k].accounts[j].pubkey
  {
    PlacedAccount(ixs, remaining, k, j);
    AccountAt(ixs, k, j);
  }

  lemma {:induction false} PlacedMatches<A>(addr: A -> Address, ixs: seq<Instruction>, remaining: seq<A>, k: nat)
    requires Accepts(ixs) && Addressed(addr, remaining, PassAll(ixs)) && k < |ixs|
    ensures Matches(addr, Placed(ixs, remaining, 0)[k], ixs[k])
  {
    PlacedAt(ixs, remaining, 0, k);
    ProgramAt(ixs, k);
    forall j | 0 <= j < |ixs[k].accounts|
      ensures addr(Placed(ixs, remaining, 0)[k].accounts[j]) == ixs[k].accounts[j].pubkey
    {
      AccountMatches(addr, ixs, remaining, k, j);
    }
  }

  /** Every accepted list, replayed over any account views with the client's addresses in the
      client's order, decodes to the same programs, account addresses and data in order, each call taking the views
      behind those of the calls before it. */
  lemma {:induction false} DecodeEncoded<A>(addr: A -> Address, ixs: seq<Instruction>, remaining: seq<A>)
    requires Accepts(ixs) && |remaining| == |PassAll(ixs)|
    requires forall j :: 0 <= j < |remaining| ==> addr(remaining[j]) == PassAll(ixs)[j].pubkey
    ensures DecodePayload(Encoded(ixs).data, remaining) == Ok(Placed(ixs, remaining, 0))
    ensures forall k :: 0 <= k < |ixs| ==> Matches(addr, Placed(ixs, remaining, 0)[k], ixs[k])
  {
    assert ([|ixs|] + EncodeAll(ixs))[1..] == EncodeAll(ixs);
    DecodeOfEncoded(ixs, EncodeAll(ixs), remaining, 0, Placed(ixs, remaining, 0));
    forall k | 0 <= k < |ixs|
      ensures Matches(addr, Placed(ixs, remaining, 0)[k], ixs[k])
    {
      PlacedMatches(addr, ixs, remaining, k);
    }
  }

  // ---- Encoding undoes decoding ----

  function AsMeta(a: Address): Meta { Meta(a, false, false) }

  function AsInstruction(cpi: Cpi<Address>): (ix: Instruction)
    ensures |ix.accounts| == |cpi.accounts|
  {
    Instruction(cpi.program,
                seq(|cpi.accounts|, i requires 0 <= i < |cpi.accounts| => AsMeta(cpi.accounts[i])),
                cpi.data)
  }

  function AsInstructions(cpis: seq<Cpi<Address>>): (ixs: seq<Instruction>)
    ensures |ixs| == |cpis|
  {
    if cpis == [] then [] else [AsInstruction(cpis[0])] + AsInstructions(cpis[1..])
  }

  lemma {:induction false} EncodedOfNext(payload: Bytes, remaining: seq<Address>, cursor: nat)
    requires cursor <= |remaining| && NextCpi(payload, remaining, cursor).Ok?
    ensures var cut := NextCpi(payload, remaining, cursor).value;
            var ix := AsInstruction(cut.cpi);
            && Fits(ix)
            && payload == EncodeOne(ix) + cut.payload
            && cursor < cut.cursor
            && Addresses(PassOne(ix)) == remaining[cursor..cut.cursor]
  {
    U16LeOfBytes(payload[1], payload[2]);
    assert payload == [payload[0]] + [payload[1], payload[2]] + payload[3..];
  }

  /** Encoding `ixs` gives exactly `payload` and the account order `accounts`. */
  predicate Reencodes(ixs: seq<Instruction>, payload: Bytes, accounts: seq<Address>) {
    && (forall ix :: ix in ixs ==> Fits(ix))
    && EncodeAll(ixs) == payload
    && Addresses(PassAll(ixs)) == accounts
  }

  lemma {:induction false} AddressesAppend(a: seq<Meta>, b: seq<Meta>)
    ensures Addresses(a + b) == Addresses(a) + Addresses(b)
  {
  }

  lemma {:induction false} ReencodesFirst(ix: Instruction, ixs: seq<Instruction>, tail: Bytes, first: seq<Address>,
                                          accounts: seq<Address>)
    requires Fits(ix) && Addresses(PassOne(ix)) == first && Reencodes(ixs, tail, accounts)
    ensures Reencodes([ix] + ixs, EncodeOne(ix) + tail, first + accounts)
  {
    var all := [ix] + ixs;
    assert all[1..] == ixs && forall x :: x in all ==> x == ix || x in ixs;
    assert PassAll(all) == PassOne(ix) + PassAll(ixs);
    AddressesAppend(PassOne(ix), PassAll(ixs));
  }

  lemma {:induction false} AsInstructionsFirst(cpi: Cpi<Address>, rest: seq<Cpi<Address>>)
    ensures AsInstructions([cpi] + rest) == [AsInstruction(cpi)] + AsInstructions(rest)
  {
    assert ([cpi] + rest)[1..] == rest;
  }

  lemma {:induction false} PrependOne(cut: Cut<Address>, rest: seq<Cpi<Address>>, payload: Bytes,
                                      accounts: seq<Address>, cursor: nat)
    requires cursor <= cut.cursor <= |accounts| && Fits(AsInstruction(cut.cpi))
    requires payload == EncodeOne(AsInstruction(cut.cpi)) + cut.payload
    requires Addresses(PassOne(AsInstruction(cut.cpi))) == accounts[cursor..cut.cursor]
    requires Reencodes(AsInstructions(rest), cut.payload, accounts[cut.cursor..])
    ensures Reencodes(AsInstructions([cut.cpi] + rest), payload, accounts[cursor..])
  {
    AsInstructionsFirst(cut.cpi, rest);
    ReencodesFirst(AsInstruction(cut.cpi), AsInstructions(rest), cut.payload, accounts[cursor..cut.cursor],
                   accounts[cut.cursor..]);
    assert accounts[cursor..] == accounts[cursor..cut.cursor] + accounts[cut.cursor..];
  }

  lemma {:induction false} DecodeRestStep<A>(count: nat, payload: Bytes, remaining: seq<A>, cursor: nat)
      returns (cut: Cut<A>, rest: seq<Cpi<A>>)
    requires count > 0 && cursor <= |remaining| && DecodeRest(count, payload, remaining, cursor).Ok?
    ensures NextCpi(payload, remaining, cursor) == Ok(cut) && cut.cursor <= |remaining|
    ensures DecodeRest(count - 1, cut.payload, remaining, cut.cursor) == Ok(rest)
    ensures DecodeRest(count, payload, remaining, cursor) == Ok([cut.cpi] + rest)
  {
    cut := NextCpi(payload, remaining, cursor).value;
    rest := DecodeRest(count - 1, cut.payload, remaining, cut.cursor).value;
  }

  lemma {:induction false} EncodedOfDecoded(count: nat, payload: Bytes, remaining: seq<Address>, cursor: nat)
    requires cursor <= |remaining| && DecodeRest(count, payload, remaining, cursor).Ok?
    ensures |DecodeRest(count, payload, remaining, cursor).value| == count
    ensures Reencodes(AsInstructions(DecodeRest(count, payload, remaining, cursor).value), payload, remaining[cursor..])
    decreases count
  {
    if count > 0 {
      var cut, rest := DecodeRestStep(count, payload, remaining, cursor);
      EncodedOfDecoded(count - 1, cut.payload, remaining, cut.cursor);
      EncodedOfNext(payload, remaining, cursor);
      PrependOne(cut, rest, payload, remaining, cursor);
    }
  }

  /** Every payload and account list the on-chain loop consumes completely is what the client
      makes of the decoded instructions, byte for byte and address for address. */
  lemma {:induction false} EncodeDecoded(payload: Bytes, remaining: seq<Address>)
    requires DecodePayload(payload, remaining).Ok? && |remaining| <= MAX_PASSTHROUGH_ACCOUNTS
    ensures var ixs := AsInstructions(DecodePayload(payload, remaining).value);
            Accepts(ixs) && Encoded(ixs).data == payload && Addresses(Encoded(ixs).accounts) == remaining
  {
    EncodedOfDecoded(payload[0], payload[1..], remaining, 0);
    assert remaining[0..] == remaining;
  }
}
