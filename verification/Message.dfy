/** The legacy message: its bytes, a reader of those bytes, and what the read message means. */
module Message {
  import opened Base

  // ---- Compact-u16 ----

  function Compact(v: nat): (b: Bytes)
    ensures b != []
  {
    if v < 0x80 then [v] else [0x80 + v % 0x80] + Compact(v / 0x80)
  }

  function CompactLen(v: nat): nat {
    if v < 0x80 then 1 else 1 + CompactLen(v / 0x80)
  }

  /** Seven bits a byte, the low ones first, the top bit set on every byte but the last. */
  lemma {:induction false} CompactForms(v: nat)
    ensures v < 0x80 ==> Compact(v) == [v]
    ensures 0x80 <= v < 0x4000 ==> Compact(v) == [0x80 + v % 0x80, v / 0x80]
    ensures 0x4000 <= v < 0x20_0000 ==> Compact(v) == [0x80 + v % 0x80, 0x80 + v / 0x80 % 0x80, v / 0x4000]
  {
    if 0x80 <= v {
      assert Compact(v) == [0x80 + v % 0x80] + Compact(v / 0x80);
    }
    if 0x4000 <= v < 0x20_0000 {
      assert v / 0x80 / 0x80 == v / 0x4000;
      assert Compact(v / 0x80) == [0x80 + v / 0x80 % 0x80] + Compact(v / 0x80 / 0x80);
    }
  }

  lemma {:induction false} CompactLenAgrees(v: nat)
    ensures |Compact(v)| == CompactLen(v)
  {
    if v >= 0x80 {
      CompactLenAgrees(v / 0x80);
    }
  }

  method EncodeCompactU16(buf: Bytes, val: u16) returns (out: Bytes)
    ensures out == buf + Compact(val)
  {
    var v: nat := val;
    out := buf;
    while v >= 0x80
      invariant out + Compact(v) == buf + Compact(val)
    {
      out := out + [0x80 + v % 0x80];
      v := v / 0x80;
    }
    out := out + [v];
  }

  method CompactU16Len(value: nat) returns (len: nat)
    ensures len == CompactLen(value)
  {
    var v := value;
    len := 1;
    while v >= 0x80
      invariant len + CompactLen(v) == 1 + CompactLen(value)
    {
      v := v / 0x80;
      len := len + 1;
    }
  }

  datatype Read<T> = Read(value: T, rest: Bytes)

  function ReadCompact(b: Bytes): Option<Read<nat>> {
    if b == [] then None
    else if b[0] < 0x80 then Some(Read(b[0] as nat, b[1..]))
    else match ReadCompact(b[1..])
      case None => None
      case Some(r) => Some(Read(b[0] as int - 0x80 + 0x80 * r.value, r.rest))
  }

  lemma {:induction false} CompactRoundTrip(v: nat, rest: Bytes)
    ensures ReadCompact(Compact(v) + rest) == Some(Read(v, rest))
  {
    var all := Compact(v) + rest;
    if v < 0x80 {
      assert all[1..] == rest;
    } else {
      CompactRoundTrip(v / 0x80, rest);
      assert all[1..] == Compact(v / 0x80) + rest;
    }
  }

  // ---- Messages and their bytes ----

  datatype Compiled = Compiled(program: byte, accounts: Bytes, data: Bytes)

  datatype Message = Message(signers: byte, readonlySigned: byte, readonlyUnsigned: byte,
                             keys: seq<Address>, blockhash: Digest, instructions: seq<Compiled>)

  function Len16(n: nat): Bytes { Compact(ToU16(n)) }

  function CompiledBytes(c: Compiled): Bytes {
    [c.program] + Len16(|c.accounts|) + c.accounts + Len16(|c.data|) + c.data
  }

  function AllCompiledBytes(cs: seq<Compiled>): Bytes {
    if cs == [] then [] else CompiledBytes(cs[0]) + AllCompiledBytes(cs[1..])
  }

  function MessageBytes(m: Message): Bytes {
    [m.signers, m.readonlySigned, m.readonlyUnsigned]
    + (Len16(|m.keys|)
       + (Concat(m.keys) + (m.blockhash + (Len16(|m.instructions|) + AllCompiledBytes(m.instructions)))))
  }

  /** The bytes of a message and of an instruction, field after field, where no length is cut to sixteen bits. */
  lemma {:induction false} MessageLayout(m: Message)
    requires |m.keys| <= 0xFFFF && |m.instructions| <= 0xFFFF
    ensures MessageBytes(m) == [m.signers, m.readonlySigned, m.readonlyUnsigned] + Compact(|m.keys|) + Concat(m.keys)
                               + m.blockhash + Compact(|m.instructions|) + AllCompiledBytes(m.instructions)
  {
  }

  lemma {:induction false} CompiledLayout(c: Compiled)
    requires |c.accounts| <= 0xFFFF && |c.data| <= 0xFFFF
    ensures CompiledBytes(c) == [c.program] + Compact(|c.accounts|) + c.accounts + Compact(|c.data|) + c.data
  {
  }

  /** The instructions lie one behind the other. */
  lemma {:induction false} CompiledInOrder(cs: seq<Compiled>, k: nat)
    requires k < |cs|
    ensures AllCompiledBytes(cs[..k]) + CompiledBytes(cs[k]) <= AllCompiledBytes(cs)
  {
    if k > 0 {
      CompiledInOrder(cs[1..], k - 1);
      assert cs[..k][1..] == cs[1..][..k - 1];
      assert AllCompiledBytes(cs[..k]) == CompiledBytes(cs[0]) + AllCompiledBytes(cs[1..][..k - 1]);
    }
  }

  function ReadBytes(b: Bytes, n: nat): Option<Read<Bytes>> {
    if n <= |b| then Some(Read(b[..n], b[n..])) else None
  }

  /** A byte string behind its compact length. */
  function ReadSized(b: Bytes): Option<Read<Bytes>> {
    match ReadCompact(b)
    case None => None
    case Some(r) => ReadBytes(r.rest, r.value)
  }

  function ReadKeys(b: Bytes, n: nat): Option<Read<seq<Address>>>
    decreases n
  {
    if n == 0 then Some(Read([], b))
    else if |b| < 32 then None
    else match ReadKeys(b[32..], n - 1)
      case None => None
      case Some(r) => var key: Address := b[..32]; Some(Read([key] + r.value, r.rest))
  }

  function ReadCompiled(b: Bytes): Option<Read<Compiled>> {
    if b == [] then None
    else match ReadSized(b[1..])
      case None => None
      case Some(a) => match ReadSized(a.rest)
        case None => None
        case Some(d) => Some(Read(Compiled(b[0], a.value, d.value), d.rest))
  }

  function ReadAllCompiled(b: Bytes, n: nat): Option<Read<seq<Compiled>>>
    decreases n
  {
    if n == 0 then Some(Read([], b))
    else match ReadCompiled(b)
      case None => None
      case Some(c) => match ReadAllCompiled(c.rest, n - 1)
        case None => None
        case Some(r) => Some(Read([c.value] + r.value, r.rest))
  }

  function ReadInstructions(b: Bytes): Option<Read<seq<Compiled>>> {
    match ReadCompact(b)
    case None => None
    case Some(n) => ReadAllCompiled(n.rest, n.value)
  }

  function ReadKeyTable(b: Bytes): Option<Read<seq<Address>>> {
    match ReadCompact(b)
    case None => None
    case Some(n) => ReadKeys(n.rest, n.value)
  }

  /** Reads one message and refuses trailing bytes. */
  function ReadMessage(b: Bytes): Option<Message> {
    if |b| < 3 then None
    else match ReadKeyTable(b[3..])
      case None => None
      case Some(k) =>
        if |k.rest| < 32 then None
        else match ReadInstructions(k.rest[32..])
          case None => None
          case Some(i) =>
            if i.rest != [] then None
            else Some(Message(b[0], b[1], b[2], k.value, k.rest[..32], i.value))
  }

  lemma {:induction false} SizedRoundTrip(x: Bytes, rest: Bytes)
    requires |x| <= 0xFFFF
    ensures ReadSized(Len16(|x|) + x + rest) == Some(Read(x, rest))
  {
    CompactRoundTrip(|x|, x + rest);
    assert Len16(|x|) + x + rest == Compact(|x|) + (x + rest);
    assert (x + rest)[..|x|] == x && (x + rest)[|x|..] == rest;
  }

  predicate Short(c: Compiled) { |c.accounts| <= 0xFFFF && |c.data| <= 0xFFFF }

  lemma {:induction false} CompiledRoundTrip(c: Compiled, rest: Bytes)
    requires Short(c)
    ensures ReadCompiled(CompiledBytes(c) + rest) == Some(Read(c, rest))
  {
    var all := CompiledBytes(c) + rest;
    var tail := Len16(|c.data|) + c.data + rest;
    assert all[1..] == Len16(|c.accounts|) + c.accounts + tail;
    SizedRoundTrip(c.accounts, tail);
    SizedRoundTrip(c.data, rest);
  }

  lemma {:induction false} ReadNextCompiled(b: Bytes, n: nat, c: Compiled, tail: Bytes)
    requires n > 0 && ReadCompiled(b) == Some(Read(c, tail)) && ReadAllCompiled(tail, n - 1).Some?
    ensures ReadAllCompiled(b, n)
         == Some(Read([c] + ReadAllCompiled(tail, n - 1).value.value, ReadAllCompiled(tail, n - 1).value.rest))
  {
  }

  lemma {:induction false} AllCompiledRoundTrip(cs: seq<Compiled>, rest: Bytes)
    requires forall i :: 0 <= i < |cs| ==> Short(cs[i])
    ensures ReadAllCompiled(AllCompiledBytes(cs) + rest, |cs|) == Some(Read(cs, rest))
  {
    if cs == [] {
      assert AllCompiledBytes(cs) + rest == rest;
    } else {
      var tail := AllCompiledBytes(cs[1..]) + rest;
      assert AllCompiledBytes(cs) + rest == CompiledBytes(cs[0]) + tail;
      CompiledRoundTrip(cs[0], tail);
      AllCompiledRoundTrip(cs[1..], rest);
      ReadNextCompiled(CompiledBytes(cs[0]) + tail, |cs|, cs[0], tail);
      assert cs == [cs[0]] + cs[1..];
    }
  }

  lemma {:induction false} KeysRoundTrip(keys: seq<Address>, rest: Bytes)
    ensures ReadKeys(Concat(keys) + rest, |keys|) == Some(Read(keys, rest))
  {
    var all := Concat(keys) + rest;
    if keys == [] {
      assert all == rest;
    } else {
      KeysRoundTrip(keys[1..], rest);
      assert all == keys[0] + (Concat(keys[1..]) + rest);
      assert all[..32] == keys[0] && all[32..] == Concat(keys[1..]) + rest;
      assert keys == [keys[0]] + keys[1..];
    }
  }

  lemma {:induction false} Len16RoundTrip(n: nat, rest: Bytes)
    requires n <= 0xFFFF
    ensures ReadCompact(Len16(n) + rest) == Some(Read(n, rest))
  {
    CompactRoundTrip(n, rest);
  }

  lemma {:induction false} KeyTableOf(b: Bytes, n: nat, body: Bytes)
    requires ReadCompact(b) == Some(Read(n, body))
    ensures ReadKeyTable(b) == ReadKeys(body, n)
  {
  }

  lemma {:induction false} InstructionsOf(b: Bytes, n: nat, body: Bytes)
    requires ReadCompact(b) == Some(Read(n, body))
    ensures ReadInstructions(b) == ReadAllCompiled(body, n)
  {
  }

  lemma {:induction false} KeyTableRoundTrip(keys: seq<Address>, rest: Bytes)
    requires |keys| <= 0xFFFF
    ensures ReadKeyTable(Len16(|keys|) + (Concat(keys) + rest)) == Some(Read(keys, rest))
  {
    var body := Concat(keys) + rest;
    Len16RoundTrip(|keys|, body);
    KeyTableOf(Len16(|keys|) + body, |keys|, body);
    KeysRoundTrip(keys, rest);
  }

  lemma {:induction false} InstructionsRoundTrip(cs: seq<Compiled>)
    requires |cs| <= 0xFFFF && forall i :: 0 <= i < |cs| ==> Short(cs[i])
    ensures ReadInstructions(Len16(|cs|) + AllCompiledBytes(cs)) == Some(Read(cs, []))
  {
    var body := AllCompiledBytes(cs);
    Len16RoundTrip(|cs|, body);
    InstructionsOf(Len16(|cs|) + body, |cs|, body);
    AllCompiledRoundTrip(cs, []);
    assert body + [] == body;
  }

  /** No length was cut to sixteen bits. */
  predicate Encodable(m: Message) {
    && |m.keys| <= 0xFFFF && |m.instructions| <= 0xFFFF
    && forall i :: 0 <= i < |m.instructions| ==> Short(m.instructions[i])
  }

  lemma {:induction false} MessageRoundTrip(m: Message)
    requires Encodable(m)
    ensures ReadMessage(MessageBytes(m)) == Some(m)
  {
    var b := MessageBytes(m);
    var tail := Len16(|m.instructions|) + AllCompiledBytes(m.instructions);
    assert b[3..] == Len16(|m.keys|) + (Concat(m.keys) + (m.blockhash + tail));
    KeyTableRoundTrip(m.keys, m.blockhash + tail);
    assert (m.blockhash + tail)[..32] == m.blockhash && (m.blockhash + tail)[32..] == tail;
    InstructionsRoundTrip(m.instructions);
  }
}
