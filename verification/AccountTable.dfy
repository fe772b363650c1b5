/** Collecting, merging and ranking the accounts of a transaction. */
module AccountTable {
  import opened Base
  import opened Wire

  datatype Entry = Entry(pubkey: Address, isSigner: bool, isWritable: bool)

  // ---- Upsert ----

  function Merge(e: Entry, isSigner: bool, isWritable: bool): Entry {
    e.(isSigner := e.isSigner || isSigner, isWritable := e.isWritable || isWritable)
  }

  /** Merge into the entry of that key, or append. */
  function Upsert(es: seq<Entry>, u: Entry): seq<Entry> {
    if es == [] then [u]
    else if es[0].pubkey == u.pubkey then [Merge(es[0], u.isSigner, u.isWritable)] + es[1..]
    else [es[0]] + Upsert(es[1..], u)
  }

  predicate Unique(es: seq<Entry>) {
    forall i, j :: 0 <= i < j < |es| ==> es[i].pubkey != es[j].pubkey
  }

  predicate Has(es: seq<Entry>, key: Address) {
    exists i :: 0 <= i < |es| && es[i].pubkey == key
  }

  lemma {:induction false} UpsertAt(es: seq<Entry>, u: Entry, k: nat)
    requires k < |es| && es[k].pubkey == u.pubkey && forall i :: 0 <= i < k ==> es[i].pubkey != u.pubkey
    ensures Upsert(es, u) == es[k := Merge(es[k], u.isSigner, u.isWritable)]
  {
    var merged := Merge(es[k], u.isSigner, u.isWritable);
    if k > 0 {
      UpsertAt(es[1..], u, k - 1);
      assert es[k := merged] == [es[0]] + es[1..][k - 1 := merged];
    } else {
      assert es[0 := merged] == [merged] + es[1..];
    }
  }

  lemma {:induction false} UpsertNew(es: seq<Entry>, u: Entry)
    requires forall i :: 0 <= i < |es| ==> es[i].pubkey != u.pubkey
    ensures Upsert(es, u) == es + [u]
  {
    if es != [] {
      UpsertNew(es[1..], u);
      assert es + [u] == [es[0]] + (es[1..] + [u]);
    }
  }

  /** Everything the accounts of a transaction are used as, in order: payer, then per instruction the
      program and its accounts. */
  function UsesOf(ix: Instruction): seq<Entry> {
    [Entry(ix.programId, false, false)] +
    seq(|ix.accounts|, i requires 0 <= i < |ix.accounts| =>
      Entry(ix.accounts[i].pubkey, ix.accounts[i].isSigner, ix.accounts[i].isWritable))
  }

  function UsesOfAll(ixs: seq<Instruction>): seq<Entry> {
    if ixs == [] then [] else UsesOfAll(ixs[..|ixs| - 1]) + UsesOf(ixs[|ixs| - 1])
  }

  function Uses(payer: Address, ixs: seq<Instruction>): seq<Entry> {
    [Entry(payer, true, true)] + UsesOfAll(ixs)
  }

  function Collect(uses: seq<Entry>): seq<Entry> {
    if uses == [] then [] else Upsert(Collect(uses[..|uses| - 1]), uses[|uses| - 1])
  }

  // ---- What the collected table says ----

  predicate UsedAs(uses: seq<Entry>, key: Address, asSigner: bool) {
    exists i :: 0 <= i < |uses| && uses[i].pubkey == key && (if asSigner then uses[i].isSigner else uses[i].isWritable)
  }

  /** A used key, its flags the OR over all its uses. */
  predicate Describes(e: Entry, uses: seq<Entry>) {
    && Has(uses, e.pubkey)
    && (e.isSigner <==> UsedAs(uses, e.pubkey, true))
    && (e.isWritable <==> UsedAs(uses, e.pubkey, false))
  }

  predicate Covers(es: seq<Entry>, uses: seq<Entry>) {
    forall i :: 0 <= i < |uses| ==> Has(es, uses[i].pubkey)
  }

  /** Each used key exactly once, and nothing else. */
  predicate Summarizes(es: seq<Entry>, uses: seq<Entry>) {
    Unique(es) && Covers(es, uses) && forall i :: 0 <= i < |es| ==> Describes(es[i], uses)
  }

  function Find(es: seq<Entry>, key: Address): (k: nat)
    ensures k <= |es| && (k < |es| ==> es[k].pubkey == key)
    ensures forall i :: 0 <= i < k ==> es[i].pubkey != key
    ensures k == |es| <==> !Has(es, key)
  {
    if es == [] then 0
    else if es[0].pubkey == key then 0
    else
      assert forall i :: 0 < i < |es| ==> es[i] == es[1..][i - 1];
      1 + Find(es[1..], key)
  }

  lemma {:induction false} UsedAsPush(uses: seq<Entry>, u: Entry, key: Address, asSigner: bool)
    ensures UsedAs(uses + [u], key, asSigner) <==>
            UsedAs(uses, key, asSigner) || (u.pubkey == key && if asSigner then u.isSigner else u.isWritable)
  {
    var all := uses + [u];
    assert all[|uses|] == u;
    assert forall i :: 0 <= i < |uses| ==> all[i] == uses[i];
    if UsedAs(uses, key, asSigner) {
      var i :| 0 <= i < |uses| && uses[i].pubkey == key && (if asSigner then uses[i].isSigner else uses[i].isWritable);
      assert all[i].pubkey == key;
    }
  }

  lemma {:induction false} HasPush(uses: seq<Entry>, u: Entry, key: Address)
    ensures Has(uses + [u], key) <==> Has(uses, key) || u.pubkey == key
  {
    var all := uses + [u];
    assert all[|uses|] == u;
    if Has(uses, key) {
      var i :| 0 <= i < |uses| && uses[i].pubkey == key;
      assert all[i].pubkey == key;
    }
  }

  /** Merging one more use into an entry, and leaving an entry of another key alone. */
  lemma {:induction false} DescribesMerged(e: Entry, uses: seq<Entry>, u: Entry)
    requires Describes(e, uses)
    ensures e.pubkey == u.pubkey ==> Describes(Merge(e, u.isSigner, u.isWritable), uses + [u])
    ensures e.pubkey != u.pubkey ==> Describes(e, uses + [u])
  {
    HasPush(uses, u, e.pubkey);
    UsedAsPush(uses, u, e.pubkey, true);
    UsedAsPush(uses, u, e.pubkey, false);
  }

  lemma {:induction false} DescribesNew(uses: seq<Entry>, u: Entry)
    requires !Has(uses, u.pubkey)
    ensures Describes(u, uses + [u])
  {
    HasPush(uses, u, u.pubkey);
    UsedAsPush(uses, u, u.pubkey, true);
    UsedAsPush(uses, u, u.pubkey, false);
  }

  lemma {:induction false} UpsertUnique(es: seq<Entry>, u: Entry)
    requires Unique(es)
    ensures Unique(Upsert(es, u))
  {
    var k := Find(es, u.pubkey);
    if k < |es| {
      UpsertAt(es, u, k);
    } else {
      UpsertNew(es, u);
    }
  }

  lemma {:induction false} NotUsed(es: seq<Entry>, uses: seq<Entry>, key: Address)
    requires Covers(es, uses) && !Has(es, key)
    ensures !Has(uses, key)
  {
  }

  lemma {:induction false} UpsertDescribes(es: seq<Entry>, uses: seq<Entry>, u: Entry, i: nat)
    requires Summarizes(es, uses) && i < |Upsert(es, u)|
    ensures Describes(Upsert(es, u)[i], uses + [u])
  {
    var k := Find(es, u.pubkey);
    if k < |es| {
      UpsertAt(es, u, k);
      DescribesMerged(es[i], uses, u);
    } else {
      UpsertNew(es, u);
      if i < |es| {
        DescribesMerged(es[i], uses, u);
      } else {
        NotUsed(es, uses, u.pubkey);
        DescribesNew(uses, u);
      }
    }
  }

  lemma {:induction false} KeptByUpsert(es: seq<Entry>, u: Entry, key: Address)
    ensures Has(es, key) || key == u.pubkey ==> Has(Upsert(es, u), key)
  {
    var k, j := Find(es, u.pubkey), Find(es, key);
    if k < |es| {
      UpsertAt(es, u, k);
      assert j < |es| ==> Upsert(es, u)[j].pubkey == key;
    } else {
      UpsertNew(es, u);
      assert Upsert(es, u)[|es|] == u;
      assert j < |es| ==> Upsert(es, u)[j].pubkey == key;
    }
  }

  lemma {:induction false} UpsertCovers(es: seq<Entry>, uses: seq<Entry>, u: Entry)
    requires Covers(es, uses)
    ensures Covers(Upsert(es, u), uses + [u])
  {
    var all := uses + [u];
    forall i | 0 <= i < |all|
      ensures Has(Upsert(es, u), all[i].pubkey)
    {
      KeptByUpsert(es, u, all[i].pubkey);
      assert i < |uses| ==> all[i] == uses[i];
    }
  }

  lemma {:induction false} UpsertSummarizes(es: seq<Entry>, uses: seq<Entry>, u: Entry)
    requires Summarizes(es, uses)
    ensures Summarizes(Upsert(es, u), uses + [u])
  {
    UpsertUnique(es, u);
    UpsertCovers(es, uses, u);
    forall i | 0 <= i < |Upsert(es, u)|
      ensures Describes(Upsert(es, u)[i], uses + [u])
    {
      UpsertDescribes(es, uses, u, i);
    }
  }

  lemma {:induction false} CollectSummarizes(uses: seq<Entry>)
    ensures Summarizes(Collect(uses), uses)
  {
    if uses != [] {
      var n := |uses| - 1;
      CollectSummarizes(uses[..n]);
      UpsertSummarizes(Collect(uses[..n]), uses[..n], uses[n]);
      assert uses == uses[..n] + [uses[n]];
    }
  }

  function Rank(e: Entry): (r: nat)
    ensures r < 2 <==> e.isSigner
    ensures r == 0 || r == 2 <==> e.isWritable
    ensures r <= 3
  {
    if e.isSigner then if e.isWritable then 0 else 1
    else if e.isWritable then 2 else 3
  }

  lemma {:induction false} UpsertFirst(es: seq<Entry>, u: Entry)
    requires es != [] && Rank(es[0]) == 0
    ensures Upsert(es, u) != [] && Upsert(es, u)[0] == es[0]
  {
  }

  /** A first use as writable signer stays the first entry. */
  lemma {:induction false} CollectFirst(uses: seq<Entry>)
    requires uses != [] && Rank(uses[0]) == 0
    ensures Collect(uses) != [] && Collect(uses)[0] == uses[0]
  {
    var n := |uses| - 1;
    if n == 0 {
      assert Collect(uses[..0]) == [];
    } else {
      CollectFirst(uses[..n]);
      UpsertFirst(Collect(uses[..n]), uses[n]);
    }
  }

  // ---- The stable sort by rank ----

  function Insert(e: Entry, t: seq<Entry>): seq<Entry> {
    if t == [] || Rank(e) <= Rank(t[0]) then [e] + t else [t[0]] + Insert(e, t[1..])
  }

  function Sort(es: seq<Entry>): seq<Entry> {
    if es == [] then [] else Insert(es[0], Sort(es[1..]))
  }

  predicate Sorted(t: seq<Entry>) {
    t == [] || (Sorted(t[1..]) && forall i :: 0 < i < |t| ==> Rank(t[0]) <= Rank(t[i]))
  }

  /** The entries of one rank, in their order. */
  function Ranked(es: seq<Entry>, r: nat): seq<Entry> {
    if es == [] then []
    else if Rank(es[0]) == r then [es[0]] + Ranked(es[1..], r)
    else Ranked(es[1..], r)
  }

  lemma {:induction false} InsertMember(e: Entry, t: seq<Entry>)
    ensures multiset(Insert(e, t)) == multiset(t) + multiset{e}
  {
    if !(t == [] || Rank(e) <= Rank(t[0])) {
      InsertMember(e, t[1..]);
      assert t == [t[0]] + t[1..];
    }
  }

  lemma {:induction false} InsertSorted(e: Entry, t: seq<Entry>)
    requires Sorted(t)
    ensures Sorted(Insert(e, t))
  {
    if t == [] {
      assert Sorted([e][1..]);
    } else if Rank(e) <= Rank(t[0]) {
      assert ([e] + t)[1..] == t;
    } else {
      InsertSorted(e, t[1..]);
      var rest := Insert(e, t[1..]);
      InsertMember(e, t[1..]);
      forall i | 0 <= i < |rest|
        ensures Rank(t[0]) <= Rank(rest[i])
      {
        assert rest[i] in multiset(rest);
        assert rest[i] == e || rest[i] in t[1..];
      }
      assert ([t[0]] + rest)[1..] == rest;
    }
  }

  lemma {:induction false} InsertRanked(e: Entry, t: seq<Entry>, r: nat)
    requires Sorted(t)
    ensures Ranked(Insert(e, t), r) == Ranked([e] + t, r)
  {
    assert ([e] + t)[1..] == t;
    if !(t == [] || Rank(e) <= Rank(t[0])) {
      InsertRanked(e, t[1..], r);
      var rest := Insert(e, t[1..]);
      assert ([t[0]] + rest)[1..] == rest;
      assert ([e] + t[1..])[1..] == t[1..];
    }
  }

  lemma {:induction false} SortStep(e: Entry, rest: seq<Entry>)
    requires Sorted(Sort(rest)) && multiset(Sort(rest)) == multiset(rest)
    ensures Sort([e] + rest) == Insert(e, Sort(rest))
    ensures multiset(Sort([e] + rest)) == multiset([e] + rest) && Sorted(Sort([e] + rest))
  {
    assert ([e] + rest)[1..] == rest;
    InsertMember(e, Sort(rest));
    InsertSorted(e, Sort(rest));
  }

  lemma {:induction false} RankedStep(e: Entry, rest: seq<Entry>, r: nat)
    requires Sorted(Sort(rest)) && Ranked(Sort(rest), r) == Ranked(rest, r)
    ensures Ranked(Sort([e] + rest), r) == Ranked([e] + rest, r)
  {
    assert ([e] + rest)[1..] == rest;
    assert ([e] + Sort(rest))[1..] == Sort(rest);
    InsertRanked(e, Sort(rest), r);
  }

  /** A stable sort by rank: a permutation in rank order that keeps the order inside each rank. */
  lemma {:induction false} SortIsStable(es: seq<Entry>)
    ensures multiset(Sort(es)) == multiset(es)
    ensures Sorted(Sort(es))
    ensures forall r :: Ranked(Sort(es), r) == Ranked(es, r)
  {
    if es != [] {
      SortIsStable(es[1..]);
      assert es == [es[0]] + es[1..];
      SortStep(es[0], es[1..]);
      forall r: nat
        ensures Ranked(Sort(es), r) == Ranked(es, r)
      {
        RankedStep(es[0], es[1..], r);
      }
    }
  }

  lemma {:induction false} UniqueFirst(e: Entry, t: seq<Entry>)
    requires Unique(t) && !Has(t, e.pubkey)
    ensures Unique([e] + t)
  {
  }

  lemma {:induction false} HasFirst(e: Entry, t: seq<Entry>)
    ensures forall key :: Has([e] + t, key) <==> e.pubkey == key || Has(t, key)
  {
    forall key: Address
      ensures Has([e] + t, key) <==> e.pubkey == key || Has(t, key)
    {
      var all := [e] + t;
      assert all[0] == e;
      if Has(t, key) {
        var i :| 0 <= i < |t| && t[i].pubkey == key;
        assert all[i + 1].pubkey == key;
      }
    }
  }

  lemma {:induction false} InsertUnique(e: Entry, t: seq<Entry>)
    requires Unique(t) && !Has(t, e.pubkey)
    ensures Unique(Insert(e, t))
    ensures forall key :: Has(Insert(e, t), key) <==> Has([e] + t, key)
  {
    if !(t == [] || Rank(e) <= Rank(t[0])) {
      assert !Has(t[1..], e.pubkey);
      InsertUnique(e, t[1..]);
      HasFirst(t[0], Insert(e, t[1..]));
      HasFirst(e, t[1..]);
      HasFirst(t[0], t[1..]);
      HasFirst(e, t);
      assert t == [t[0]] + t[1..];
      assert !Has(t[1..], t[0].pubkey);
      UniqueFirst(t[0], Insert(e, t[1..]));
    } else {
      UniqueFirst(e, t);
    }
  }

  lemma {:induction false} SortUnique(es: seq<Entry>)
    requires Unique(es)
    ensures Unique(Sort(es))
    ensures forall key :: Has(Sort(es), key) <==> Has(es, key)
  {
    if es != [] {
      SortUnique(es[1..]);
      assert es == [es[0]] + es[1..];
      assert !Has(es[1..], es[0].pubkey);
      InsertUnique(es[0], Sort(es[1..]));
      HasFirst(es[0], es[1..]);
      HasFirst(es[0], Sort(es[1..]));
    }
  }

  /** The table both the size estimator and the message builder work from. */
  function Table(payer: Address, ixs: seq<Instruction>): seq<Entry> {
    Sort(Collect(Uses(payer, ixs)))
  }

  lemma {:induction false} SortedDescribes(es: seq<Entry>, uses: seq<Entry>, i: nat)
    requires Summarizes(es, uses) && i < |Sort(es)|
    ensures Describes(Sort(es)[i], uses)
  {
    SortIsStable(es);
    assert Sort(es)[i] in multiset(Sort(es));
    assert Sort(es)[i] in es;
  }

  /** Sorted by rank, every used key once with the OR of its uses' flags, and the payer first. */
  lemma {:induction false} TableSummarizes(payer: Address, ixs: seq<Instruction>)
    ensures Summarizes(Table(payer, ixs), Uses(payer, ixs))
    ensures Sorted(Table(payer, ixs))
    ensures Table(payer, ixs) != [] && Table(payer, ixs)[0] == Entry(payer, true, true)
  {
    var uses := Uses(payer, ixs);
    var es := Collect(uses);
    CollectSummarizes(uses);
    CollectFirst(uses);
    SortUnique(es);
    SortIsStable(es);
    forall i | 0 <= i < |Sort(es)|
      ensures Describes(Sort(es)[i], uses)
    {
      SortedDescribes(es, uses, i);
    }
  }

  // ---- What the table says of the instructions ----

  /** Some instruction lists the key as a signer. */
  predicate MustSign(ixs: seq<Instruction>, key: Address) {
    exists j, i :: 0 <= j < |ixs| && 0 <= i < |ixs[j].accounts| &&
                   ixs[j].accounts[i].pubkey == key && ixs[j].accounts[i].isSigner
  }

  /** Some instruction lists the key as writable. */
  predicate MustWrite(ixs: seq<Instruction>, key: Address) {
    exists j, i :: 0 <= j < |ixs| && 0 <= i < |ixs[j].accounts| &&
                   ixs[j].accounts[i].pubkey == key && ixs[j].accounts[i].isWritable
  }

  /** Some instruction invokes the key or lists it. */
  predicate Named(ixs: seq<Instruction>, key: Address) {
    || (exists j :: 0 <= j < |ixs| && ixs[j].programId == key)
    || exists j, i :: 0 <= j < |ixs| && 0 <= i < |ixs[j].accounts| && ixs[j].accounts[i].pubkey == key
  }

  lemma {:induction false} OffsetOfPrefix(ixs: seq<Instruction>, n: nat, j: nat)
    requires j <= n <= |ixs|
    ensures AccountOffset(ixs[..n], j) == AccountOffset(ixs, j)
  {
    if j > 0 {
      OffsetOfPrefix(ixs, n, j - 1);
    }
  }

  lemma {:induction false} UsesCount(ixs: seq<Instruction>)
    ensures |UsesOfAll(ixs)| == AccountOffset(ixs, |ixs|)
  {
    if ixs != [] {
      var n := |ixs| - 1;
      UsesCount(ixs[..n]);
      OffsetOfPrefix(ixs, n, n);
    }
  }

  lemma {:induction false} UsesLast(ixs: seq<Instruction>, i: nat)
    requires ixs != [] && i < |UsesOf(ixs[|ixs| - 1])|
    ensures var before := UsesOfAll(ixs[..|ixs| - 1]);
            |before| + i < |UsesOfAll(ixs)| && UsesOfAll(ixs)[|before| + i] == UsesOf(ixs[|ixs| - 1])[i]
  {
  }

  lemma {:induction false} UsesAt(ixs: seq<Instruction>, j: nat, i: nat)
    requires j < |ixs| && i <= |ixs[j].accounts|
    ensures AccountOffset(ixs, j) + i < |UsesOfAll(ixs)|
    ensures i < |UsesOf(ixs[j])| && UsesOfAll(ixs)[AccountOffset(ixs, j) + i] == UsesOf(ixs[j])[i]
  {
    var n := |ixs| - 1;
    if j < n {
      OffsetOfPrefix(ixs, n, j);
      UsesAt(ixs[..n], j, i);
    } else {
      UsesCount(ixs[..n]);
      OffsetOfPrefix(ixs, n, n);
      UsesLast(ixs, i);
    }
  }

  lemma {:induction false} PlaceOf(ixs: seq<Instruction>, m: nat) returns (j: nat, i: nat)
    requires m < |UsesOfAll(ixs)|
    ensures j < |ixs| && i <= |ixs[j].accounts| && m == AccountOffset(ixs, j) + i
  {
    var n := |ixs| - 1;
    UsesCount(ixs[..n]);
    OffsetOfPrefix(ixs, n, n);
    if m < AccountOffset(ixs, n) {
      j, i := PlaceOf(ixs[..n], m);
      OffsetOfPrefix(ixs, n, j);
    } else {
      j, i := n, m - AccountOffset(ixs, n);
    }
  }

  /** Every use but the payer's comes from an instruction. */
  lemma {:induction false} UsesSay(payer: Address, ixs: seq<Instruction>, k: nat)
    requires k < |Uses(payer, ixs)|
    ensures var u := Uses(payer, ixs)[k];
            && (u.pubkey == payer || Named(ixs, u.pubkey))
            && (u.isSigner ==> u.pubkey == payer || MustSign(ixs, u.pubkey))
            && (u.isWritable ==> u.pubkey == payer || MustWrite(ixs, u.pubkey))
  {
    if k > 0 {
      var j, i := PlaceOf(ixs, k - 1);
      UsesAt(ixs, j, i);
      assert i > 0 ==> UsesOf(ixs[j])[i].pubkey == ixs[j].accounts[i - 1].pubkey;
    }
  }

  /** Every account of every instruction is among the uses, as it is listed, and every program. */
  lemma {:induction false} AccountUsed(payer: Address, ixs: seq<Instruction>, j: nat, i: nat) returns (k: nat)
    requires j < |ixs| && i < |ixs[j].accounts|
    ensures k < |Uses(payer, ixs)|
    ensures Uses(payer, ixs)[k]
         == Entry(ixs[j].accounts[i].pubkey, ixs[j].accounts[i].isSigner, ixs[j].accounts[i].isWritable)
  {
    UsesAt(ixs, j, i + 1);
    k := 1 + (AccountOffset(ixs, j) + (i + 1));
  }

  lemma {:induction false} ProgramUsed(payer: Address, ixs: seq<Instruction>, j: nat)
    requires j < |ixs|
    ensures Has(Uses(payer, ixs), ixs[j].programId)
  {
    UsesAt(ixs, j, 0);
    assert Uses(payer, ixs)[1 + AccountOffset(ixs, j)] == UsesOfAll(ixs)[AccountOffset(ixs, j)];
  }

  lemma {:induction false} UsedMeans(payer: Address, ixs: seq<Instruction>, key: Address)
    ensures UsedAs(Uses(payer, ixs), key, true) <==> key == payer || MustSign(ixs, key)
    ensures UsedAs(Uses(payer, ixs), key, false) <==> key == payer || MustWrite(ixs, key)
  {
    var uses := Uses(payer, ixs);
    forall k | 0 <= k < |uses|
      ensures uses[k].isSigner ==> uses[k].pubkey == payer || MustSign(ixs, uses[k].pubkey)
      ensures uses[k].isWritable ==> uses[k].pubkey == payer || MustWrite(ixs, uses[k].pubkey)
    {
      UsesSay(payer, ixs, k);
    }
    assert uses[0] == Entry(payer, true, true);
    if MustSign(ixs, key) {
      var j, i :| 0 <= j < |ixs| && 0 <= i < |ixs[j].accounts| &&
                  ixs[j].accounts[i].pubkey == key && ixs[j].accounts[i].isSigner;
      var k := AccountUsed(payer, ixs, j, i);
    }
    if MustWrite(ixs, key) {
      var j, i :| 0 <= j < |ixs| && 0 <= i < |ixs[j].accounts| &&
                  ixs[j].accounts[i].pubkey == key && ixs[j].accounts[i].isWritable;
      var k := AccountUsed(payer, ixs, j, i);
    }
  }

  lemma {:induction false} HasMeans(payer: Address, ixs: seq<Instruction>, key: Address)
    ensures Has(Uses(payer, ixs), key) <==> key == payer || Named(ixs, key)
  {
    if i :| 0 <= i < |Uses(payer, ixs)| && Uses(payer, ixs)[i].pubkey == key {
      UsesSay(payer, ixs, i);
    }
    assert Uses(payer, ixs)[0].pubkey == payer;
    if j :| 0 <= j < |ixs| && ixs[j].programId == key {
      ProgramUsed(payer, ixs, j);
    }
    if j, i :| 0 <= j < |ixs| && 0 <= i < |ixs[j].accounts| && ixs[j].accounts[i].pubkey == key {
      var k := AccountUsed(payer, ixs, j, i);
    }
  }

  /** The table in terms of the instructions alone: the payer signs and is writable, every other key signs, or is
      writable, exactly if some instruction lists it so, and the keys are those the instructions name. */
  lemma {:induction false} TableFlags(payer: Address, ixs: seq<Instruction>, k: nat)
    requires k < |Table(payer, ixs)|
    ensures var e := Table(payer, ixs)[k];
            && (e.pubkey == payer || Named(ixs, e.pubkey))
            && (e.isSigner <==> e.pubkey == payer || MustSign(ixs, e.pubkey))
            && (e.isWritable <==> e.pubkey == payer || MustWrite(ixs, e.pubkey))
  {
    TableSummarizes(payer, ixs);
    var e := Table(payer, ixs)[k];
    assert Describes(e, Uses(payer, ixs));
    HasMeans(payer, ixs, e.pubkey);
    UsedMeans(payer, ixs, e.pubkey);
  }

  lemma {:induction false} TableKeys(payer: Address, ixs: seq<Instruction>, key: Address)
    ensures Has(Table(payer, ixs), key) <==> key == payer || Named(ixs, key)
  {
    TableSummarizes(payer, ixs);
    HasMeans(payer, ixs, key);
    var uses := Uses(payer, ixs);
    if i :| 0 <= i < |uses| && uses[i].pubkey == key {
      assert Has(Table(payer, ixs), uses[i].pubkey);
    }
    if k :| 0 <= k < |Table(payer, ixs)| && Table(payer, ixs)[k].pubkey == key {
      assert Describes(Table(payer, ixs)[k], uses);
    }
  }

  // ---- The order inside a rank ----

  /** The first use of x comes before every use of y. */
  predicate UsedFirst(uses: seq<Entry>, x: Address, y: Address) {
    exists n :: 0 <= n < |uses| && uses[n].pubkey == x && forall k :: 0 <= k <= n ==> uses[k].pubkey != y
  }

  lemma {:induction false} UsedFirstPush(uses: seq<Entry>, u: Entry, x: Address, y: Address)
    requires UsedFirst(uses, x, y)
    ensures UsedFirst(uses + [u], x, y)
  {
    var n :| 0 <= n < |uses| && uses[n].pubkey == x && forall k :: 0 <= k <= n ==> uses[k].pubkey != y;
    var all := uses + [u];
    assert all[n].pubkey == x && forall k :: 0 <= k <= n ==> all[k] == uses[k];
  }

  lemma {:induction false} NewIsLast(uses: seq<Entry>, u: Entry, a: nat)
    requires a < |Collect(uses)| && !Has(Collect(uses), u.pubkey)
    ensures UsedFirst(uses + [u], Collect(uses)[a].pubkey, u.pubkey)
  {
    CollectSummarizes(uses);
    NotUsed(Collect(uses), uses, u.pubkey);
    assert Describes(Collect(uses)[a], uses);
    var n :| 0 <= n < |uses| && uses[n].pubkey == Collect(uses)[a].pubkey;
    var all := uses + [u];
    assert all[n] == uses[n] && forall k :: 0 <= k <= n ==> all[k] == uses[k];
  }

  lemma {:induction false} CollectOrder(uses: seq<Entry>, a: nat, b: nat)
    requires a < b < |Collect(uses)|
    ensures UsedFirst(uses, Collect(uses)[a].pubkey, Collect(uses)[b].pubkey)
  {
    var front, u := uses[..|uses| - 1], uses[|uses| - 1];
    var es := Collect(front);
    assert uses == front + [u];
    var k := Find(es, u.pubkey);
    if k < |es| {
      UpsertAt(es, u, k);
    } else {
      UpsertNew(es, u);
    }
    if b < |es| {
      CollectOrder(front, a, b);
      UsedFirstPush(front, u, es[a].pubkey, es[b].pubkey);
    } else {
      NewIsLast(front, u, a);
    }
  }

  lemma {:induction false} InsertAt(e: Entry, t: seq<Entry>) returns (p: nat)
    ensures p <= |t| && Insert(e, t) == t[..p] + [e] + t[p..]
    ensures forall i :: 0 <= i < p ==> Rank(t[i]) < Rank(e)
  {
    if t == [] || Rank(e) <= Rank(t[0]) {
      p := 0;
    } else {
      p := InsertAt(e, t[1..]);
      p := p + 1;
      assert t[..p] == [t[0]] + t[1..][..p - 1];
    }
  }

  lemma {:induction false} InsertedAt(e: Entry, t: seq<Entry>, p: nat, k: nat)
    requires p <= |t| && k <= |t| && Insert(e, t) == t[..p] + [e] + t[p..]
    ensures Insert(e, t)[k] == if k < p then t[k] else if k == p then e else t[k - 1]
  {
  }

  /** The keys sorted behind the first entry are not its key, so they are found behind it. */
  lemma {:induction false} FoundBehind(es: seq<Entry>, k: nat)
    requires es != [] && Unique(es) && k < |Sort(es[1..])|
    ensures Find(es, Sort(es[1..])[k].pubkey) == 1 + Find(es[1..], Sort(es[1..])[k].pubkey)
  {
    var key := Sort(es[1..])[k].pubkey;
    SortUnique(es[1..]);
    assert Has(es[1..], key);
    var i :| 0 <= i < |es[1..]| && es[1..][i].pubkey == key;
    assert es[i + 1].pubkey == key;
  }

  lemma {:induction false} SortOrder(es: seq<Entry>, a: nat, b: nat)
    requires Unique(es) && a < b < |Sort(es)| && Rank(Sort(es)[a]) == Rank(Sort(es)[b])
    ensures Find(es, Sort(es)[a].pubkey) < Find(es, Sort(es)[b].pubkey)
  {
    var t := Sort(es[1..]);
    var p := InsertAt(es[0], t);
    InsertedAt(es[0], t, p, a);
    InsertedAt(es[0], t, p, b);
    if a == p {
      FoundBehind(es, b - 1);
    } else {
      var (a', b') := (if a < p then a else a - 1, if b < p then b else b - 1);
      SortOrder(es[1..], a', b');
      FoundBehind(es, a');
      FoundBehind(es, b');
    }
  }

  /** What instruction `ix` mentions at place i: its program, then its accounts. */
  function Mention(ix: Instruction, i: nat): Address
    requires i <= |ix.accounts|
  {
    if i == 0 then ix.programId else ix.accounts[i - 1].pubkey
  }

  lemma {:induction false} UseIsMention(ix: Instruction, i: nat)
    requires i <= |ix.accounts|
    ensures UsesOf(ix)[i].pubkey == Mention(ix, i)
  {
  }

  /** Up to place i of instruction j the key is not mentioned. */
  predicate Unmentioned(ixs: seq<Instruction>, j: nat, i: nat, key: Address)
    requires j < |ixs| && i <= |ixs[j].accounts|
  {
    && (forall l, k :: 0 <= l < j && 0 <= k <= |ixs[l].accounts| ==> Mention(ixs[l], k) != key)
    && forall k :: 0 <= k <= i ==> Mention(ixs[j], k) != key
  }

  lemma {:induction false} OffsetsGrow(ixs: seq<Instruction>, l: nat, j: nat)
    requires l < j <= |ixs|
    ensures AccountOffset(ixs, l) + |ixs[l].accounts| < AccountOffset(ixs, j)
  {
    if l < j - 1 {
      OffsetsGrow(ixs, l, j - 1);
    }
  }

  lemma {:induction false} NotUsedYet(payer: Address, ixs: seq<Instruction>, j: nat, i: nat, key: Address)
    requires j < |ixs| && i <= |ixs[j].accounts|
    requires forall k :: 0 <= k <= AccountOffset(ixs, j) + i + 1 && k < |Uses(payer, ixs)| ==>
               Uses(payer, ixs)[k].pubkey != key
    ensures Unmentioned(ixs, j, i, key)
  {
    forall l, k | 0 <= l < j && 0 <= k <= |ixs[l].accounts|
      ensures Mention(ixs[l], k) != key
    {
      UsesAt(ixs, l, k);
      UseIsMention(ixs[l], k);
      OffsetsGrow(ixs, l, j);
      assert Uses(payer, ixs)[AccountOffset(ixs, l) + k + 1] == UsesOfAll(ixs)[AccountOffset(ixs, l) + k];
    }
    forall k | 0 <= k <= i
      ensures Mention(ixs[j], k) != key
    {
      UsesAt(ixs, j, k);
      UseIsMention(ixs[j], k);
      assert Uses(payer, ixs)[AccountOffset(ixs, j) + k + 1] == UsesOfAll(ixs)[AccountOffset(ixs, j) + k];
    }
  }

  lemma {:induction false} FirstPlace(payer: Address, ixs: seq<Instruction>, x: Address, y: Address)
      returns (j: nat, i: nat)
    requires UsedFirst(Uses(payer, ixs), x, y)
    ensures x == payer || (j < |ixs| && i <= |ixs[j].accounts| && Mention(ixs[j], i) == x && Unmentioned(ixs, j, i, y))
  {
    var uses := Uses(payer, ixs);
    var n :| 0 <= n < |uses| && uses[n].pubkey == x && forall k :: 0 <= k <= n ==> uses[k].pubkey != y;
    j, i := 0, 0;
    if n > 0 {
      j, i := PlaceOf(ixs, n - 1);
      UsesAt(ixs, j, i);
      UseIsMention(ixs[j], i);
      assert uses[n] == UsesOfAll(ixs)[n - 1];
      NotUsedYet(payer, ixs, j, i, y);
    }
  }

  /** Inside a rank the keys come in the order in which the instructions first mention them, each instruction's program
      before its accounts. */
  lemma {:induction false} TableOrder(payer: Address, ixs: seq<Instruction>, a: nat, b: nat)
      returns (j: nat, i: nat)
    requires a < b < |Table(payer, ixs)| && Rank(Table(payer, ixs)[a]) == Rank(Table(payer, ixs)[b])
    ensures var (x, y) := (Table(payer, ixs)[a].pubkey, Table(payer, ixs)[b].pubkey);
            x == payer || (j < |ixs| && i <= |ixs[j].accounts| && Mention(ixs[j], i) == x && Unmentioned(ixs, j, i, y))
  {
    var t, uses := Table(payer, ixs), Uses(payer, ixs);
    var es := Collect(uses);
    CollectSummarizes(uses);
    SortOrder(es, a, b);
    SortUnique(es);
    assert Has(t, t[a].pubkey) && Has(t, t[b].pubkey);
    CollectOrder(uses, Find(es, t[a].pubkey), Find(es, t[b].pubkey));
    j, i := FirstPlace(payer, ixs, t[a].pubkey, t[b].pubkey);
  }

  // ---- The header counts ----

  function CountIf(es: seq<Entry>, p: Entry -> bool): nat {
    if es == [] then 0 else (if p(es[0]) then 1 else 0) + CountIf(es[1..], p)
  }

  function Signers(es: seq<Entry>): nat { CountIf(es, (e: Entry) => e.isSigner) }

  function ReadonlySigned(es: seq<Entry>): nat { CountIf(es, (e: Entry) => e.isSigner && !e.isWritable) }

  function ReadonlyUnsigned(es: seq<Entry>): nat { CountIf(es, (e: Entry) => !e.isSigner && !e.isWritable) }

  /** How many leading entries rank below r. */
  function Below(t: seq<Entry>, r: nat): (k: nat)
    requires Sorted(t)
    ensures k <= |t| && forall i :: 0 <= i < |t| ==> (Rank(t[i]) < r <==> i < k)
  {
    if t == [] || Rank(t[0]) >= r then 0
    else
      assert forall i :: 0 < i < |t| ==> t[i] == t[1..][i - 1];
      1 + Below(t[1..], r)
  }

  lemma {:induction false} CountNone(t: seq<Entry>, p: Entry -> bool)
    requires forall i :: 0 <= i < |t| ==> !p(t[i])
    ensures CountIf(t, p) == 0
  {
    if t != [] {
      CountNone(t[1..], p);
    }
  }

  /** In rank order, what ranks from lo to hi is counted by the two boundaries. */
  lemma {:induction false} CountBetween(t: seq<Entry>, p: Entry -> bool, lo: nat, hi: nat)
    requires Sorted(t) && lo <= hi
    requires forall e: Entry :: p(e) <==> lo <= Rank(e) < hi
    ensures Below(t, lo) <= Below(t, hi)
    ensures CountIf(t, p) == Below(t, hi) - Below(t, lo)
  {
    if t != [] {
      CountBetween(t[1..], p, lo, hi);
      if Rank(t[0]) >= hi {
        CountNone(t, p);
      } else if Rank(t[0]) >= lo {
        assert Below(t[1..], lo) == 0;
      }
    }
  }

  lemma {:induction false} BelowAll(t: seq<Entry>)
    requires Sorted(t)
    ensures Below(t, 4) == |t|
  {
    if t != [] {
      BelowAll(t[1..]);
    }
  }

  lemma {:induction false} HeaderCounts(t: seq<Entry>)
    requires Sorted(t)
    ensures Signers(t) == Below(t, 2)
    ensures Signers(t) - ReadonlySigned(t) == Below(t, 1)
    ensures |t| - ReadonlyUnsigned(t) == Below(t, 3)
  {
    CountBetween(t, (e: Entry) => e.isSigner, 0, 2);
    CountBetween(t, (e: Entry) => e.isSigner && !e.isWritable, 1, 2);
    CountBetween(t, (e: Entry) => !e.isSigner && !e.isWritable, 3, 4);
    BelowAll(t);
  }

  /** The three header counts cut the table exactly where signing and writing stop. */
  lemma {:induction false} HeaderCuts(t: seq<Entry>, i: nat)
    requires Sorted(t) && i < |t|
    ensures t[i].isSigner <==> i < Signers(t)
    ensures i < Signers(t) ==> (t[i].isWritable <==> i < Signers(t) - ReadonlySigned(t))
    ensures i >= Signers(t) ==> (t[i].isWritable <==> i < |t| - ReadonlyUnsigned(t))
  {
    HeaderCounts(t);
  }

  // ---- The collector, as it updates its vector ----

  lemma {:induction false} CollectNext(before: seq<Entry>, uses: seq<Entry>, k: nat)
    requires k < |uses|
    ensures Collect(before + uses[..k + 1]) == Upsert(Collect(before + uses[..k]), uses[k])
    ensures k == 0 ==> Collect(before + uses[..k]) == Collect(before)
  {
    var all := before + uses[..k + 1];
    assert all[..|all| - 1] == before + uses[..k];
    assert k == 0 ==> before + uses[..k] == before;
  }

  lemma {:induction false} UsesNext(payer: Address, ixs: seq<Instruction>, i: nat)
    requires i < |ixs|
    ensures Uses(payer, ixs[..i + 1]) == Uses(payer, ixs[..i]) + UsesOf(ixs[i])
  {
    assert ixs[..i + 1][..i] == ixs[..i];
  }

  class Collector {
    var accounts: seq<Entry>

    constructor ()
      ensures accounts == []
    {
      accounts := [];
    }

    method Add(pubkey: Address, isSigner: bool, isWritable: bool)
      modifies this
      ensures accounts == Upsert(old(accounts), Entry(pubkey, isSigner, isWritable))
    {
      ghost var u := Entry(pubkey, isSigner, isWritable);
      var k := 0;
      while k < |accounts| && accounts[k].pubkey != pubkey
        invariant k <= |accounts| && accounts == old(accounts)
        invariant forall i :: 0 <= i < k ==> accounts[i].pubkey != pubkey
      {
        k := k + 1;
      }
      if k < |accounts| {
        UpsertAt(accounts, u, k);
        var found := accounts[k];
        accounts := accounts[k := found.(isSigner := found.isSigner || isSigner,
                                         isWritable := found.isWritable || isWritable)];
      } else {
        UpsertNew(accounts, u);
        accounts := accounts + [Entry(pubkey, isSigner, isWritable)];
      }
    }

    method AddInstruction(ix: Instruction, ghost before: seq<Entry>)
      requires accounts == Collect(before)
      modifies this
      ensures accounts == Collect(before + UsesOf(ix))
    {
      ghost var uses := UsesOf(ix);
      CollectNext(before, uses, 0);
      Add(ix.programId, false, false);
      for i := 0 to |ix.accounts|
        invariant accounts == Collect(before + uses[..i + 1])
      {
        CollectNext(before, uses, i + 1);
        Add(ix.accounts[i].pubkey, ix.accounts[i].isSigner, ix.accounts[i].isWritable);
      }
      assert uses[..|ix.accounts| + 1] == uses;
    }

    /** The client's collector; `sort_by_key` is the library's stable sort. */
    method CollectAccounts(payer: Address, ixs: seq<Instruction>)
      requires accounts == []
      modifies this
      ensures accounts == Table(payer, ixs)
    {
      Add(payer, true, true);
      assert accounts == Collect(Uses(payer, ixs[..0]));
      for i := 0 to |ixs|
        invariant accounts == Collect(Uses(payer, ixs[..i]))
      {
        UsesNext(payer, ixs, i);
        AddInstruction(ixs[i], Uses(payer, ixs[..i]));
      }
      assert ixs[..|ixs|] == ixs;
      accounts := Sort(accounts);
    }
  }
}
