/** The split of a transaction's accounts between static keys and address lookup tables. */
module V0 {
  import opened Base
  import opened Wire
  import opened AccountTable
  import opened Message
  import opened Compile

  datatype LookupTable = LookupTable(key: Address, addresses: seq<Address>)

  datatype Slot = Slot(table: nat, entry: nat)

  // ---- Where an address is found first ----

  predicate Points(tables: seq<LookupTable>, s: Slot, key: Address) {
    && s.table < |tables| && s.entry < |tables[s.table].addresses|
    && tables[s.table].addresses[s.entry] == key
  }

  /** The first table that holds the key, and its first index there. */
  function FirstMatch(tables: seq<LookupTable>, key: Address): (s: Option<Slot>)
    ensures s.Some? ==> Points(tables, s.value, key)
  {
    if tables == [] then None
    else
      var n := |tables| - 1;
      match FirstMatch(tables[..n], key)
      case Some(s) => Some(s)
      case None =>
        var e := FirstIndex(tables[n].addresses, key);
        if e < |tables[n].addresses| then Some(Slot(n, e)) else None
  }

  lemma {:induction false} FirstMatchFinds(tables: seq<LookupTable>, key: Address, t: nat, e: nat)
    requires t < |tables| && e < |tables[t].addresses| && tables[t].addresses[e] == key
    ensures FirstMatch(tables, key).Some?
    ensures FirstMatch(tables, key).value.table < t
         || (FirstMatch(tables, key).value.table == t && FirstMatch(tables, key).value.entry <= e)
  {
    var n := |tables| - 1;
    if t < n {
      FirstMatchFinds(tables[..n], key, t, e);
    }
  }

  /** The map holds exactly the first matches. */
  ghost predicate HoldsFirst(m: map<Address, Slot>, tables: seq<LookupTable>) {
    forall key: Address :: (if key in m then Some(m[key]) else None) == FirstMatch(tables, key)
  }

  /** The map while table t is being read. */
  ghost predicate HoldsPartly(m: map<Address, Slot>, before: seq<LookupTable>, addresses: seq<Address>) {
    forall key: Address :: (if key in m then Some(m[key]) else None) ==
      match FirstMatch(before, key)
      case Some(s) => Some(s)
      case None =>
        if FirstIndex(addresses, key) < |addresses| then Some(Slot(|before|, FirstIndex(addresses, key))) else None
  }

  lemma {:induction false} FirstIndexPush(addresses: seq<Address>, x: Address, key: Address)
    ensures FirstIndex(addresses + [x], key)
         == if FirstIndex(addresses, key) < |addresses| || x == key then FirstIndex(addresses, key) else |addresses| + 1
  {
    if addresses != [] {
      assert (addresses + [x])[1..] == addresses[1..] + [x];
      FirstIndexPush(addresses[1..], x, key);
    }
  }

  lemma {:induction false} HoldsNext(m: map<Address, Slot>, before: seq<LookupTable>, addresses: seq<Address>,
                                     x: Address)
    requires HoldsPartly(m, before, addresses)
    ensures HoldsPartly(if x in m then m else m[x := Slot(|before|, |addresses|)], before, addresses + [x])
  {
    var m' := if x in m then m else m[x := Slot(|before|, |addresses|)];
    forall key: Address
      ensures (if key in m' then Some(m'[key]) else None) ==
        match FirstMatch(before, key)
        case Some(s) => Some(s)
        case None =>
          var k := FirstIndex(addresses + [x], key);
          if k < |addresses + [x]| then Some(Slot(|before|, k)) else None
    {
      FirstIndexPush(addresses, x, key);
    }
  }

  lemma {:induction false} HoldsDone(m: map<Address, Slot>, tables: seq<LookupTable>, t: nat)
    requires t < |tables| && HoldsPartly(m, tables[..t], tables[t].addresses)
    ensures HoldsFirst(m, tables[..t + 1])
  {
    assert tables[..t + 1][..t] == tables[..t];
  }

  method AddTable(m: map<Address, Slot>, tables: seq<LookupTable>, t: nat) returns (out: map<Address, Slot>)
    requires t < |tables| && HoldsFirst(m, tables[..t])
    ensures HoldsFirst(out, tables[..t + 1])
  {
    var addresses := tables[t].addresses;
    out := m;
    for e := 0 to |addresses|
      invariant HoldsPartly(out, tables[..t], addresses[..e])
    {
      HoldsNext(out, tables[..t], addresses[..e], addresses[e]);
      assert addresses[..e + 1] == addresses[..e] + [addresses[e]];
      if addresses[e] !in out {
        out := out[addresses[e] := Slot(t, e)];
      }
    }
    assert addresses[..|addresses|] == addresses;
    HoldsDone(out, tables, t);
  }

  method BuildAltMap(tables: seq<LookupTable>) returns (m: map<Address, Slot>)
    ensures HoldsFirst(m, tables)
  {
    m := map[];
    for t := 0 to |tables|
      invariant HoldsFirst(m, tables[..t])
    {
      m := AddTable(m, tables, t);
    }
    assert tables[..|tables|] == tables;
  }

  // ---- The partition ----

  datatype Builder = Builder(table: nat, writable: seq<nat>, readonly: seq<nat>)

  datatype Split = Split(staticKeys: seq<Entry>, builders: seq<Builder>)

  function Invoked(ixs: seq<Instruction>): set<Address> {
    set i | 0 <= i < |ixs| :: ixs[i].programId
  }

  function Put(b: Builder, entry: nat, isWritable: bool): Builder {
    if isWritable then b.(writable := b.writable + [entry]) else b.(readonly := b.readonly + [entry])
  }

  /** An insertion-ordered map from tables to index lists. */
  function Place(bs: seq<Builder>, s: Slot, isWritable: bool): seq<Builder> {
    if bs == [] then [Put(Builder(s.table, [], []), s.entry, isWritable)]
    else if bs[0].table == s.table then [Put(bs[0], s.entry, isWritable)] + bs[1..]
    else [bs[0]] + Place(bs[1..], s, isWritable)
  }

  predicate Stays(account: Entry, invoked: set<Address>, tables: seq<LookupTable>) {
    account.isSigner || account.pubkey in invoked || FirstMatch(tables, account.pubkey).None?
  }

  function PlaceAccount(split: Split, account: Entry, invoked: set<Address>, tables: seq<LookupTable>): Split {
    if Stays(account, invoked, tables) then split.(staticKeys := split.staticKeys + [account])
    else split.(builders := Place(split.builders, FirstMatch(tables, account.pubkey).value, account.isWritable))
  }

  function Partition(accounts: seq<Entry>, invoked: set<Address>, tables: seq<LookupTable>): Split {
    if accounts == [] then Split([], [])
    else
      var n := |accounts| - 1;
      PlaceAccount(Partition(accounts[..n], invoked, tables), accounts[n], invoked, tables)
  }

  lemma {:induction false} PlaceAt(bs: seq<Builder>, s: Slot, isWritable: bool, k: nat)
    requires k < |bs| && bs[k].table == s.table && forall i :: 0 <= i < k ==> bs[i].table != s.table
    ensures Place(bs, s, isWritable) == bs[k := Put(bs[k], s.entry, isWritable)]
  {
    if k > 0 {
      PlaceAt(bs[1..], s, isWritable, k - 1);
    }
  }

  lemma {:induction false} PlaceNew(bs: seq<Builder>, s: Slot, isWritable: bool)
    requires forall i :: 0 <= i < |bs| ==> bs[i].table != s.table
    ensures Place(bs, s, isWritable) == bs + [Put(Builder(s.table, [], []), s.entry, isWritable)]
  {
    if bs != [] {
      PlaceNew(bs[1..], s, isWritable);
    }
  }

  method PushIndex(bs: seq<Builder>, s: Slot, isWritable: bool) returns (out: seq<Builder>)
    ensures out == Place(bs, s, isWritable)
  {
    var k := 0;
    while k < |bs| && bs[k].table != s.table
      invariant k <= |bs| && forall i :: 0 <= i < k ==> bs[i].table != s.table
    {
      k := k + 1;
    }
    if k == |bs| {
      PlaceNew(bs, s, isWritable);
      out := bs + [Builder(s.table, [], [])];
    } else {
      PlaceAt(bs, s, isWritable, k);
      out := bs;
    }
    if isWritable {
      out := out[k := out[k].(writable := out[k].writable + [s.entry])];
    } else {
      out := out[k := out[k].(readonly := out[k].readonly + [s.entry])];
    }
  }

  lemma {:induction false} PartitionNext(accounts: seq<Entry>, i: nat, invoked: set<Address>, tables: seq<LookupTable>)
    requires i < |accounts|
    ensures Partition(accounts[..i + 1], invoked, tables)
         == PlaceAccount(Partition(accounts[..i], invoked, tables), accounts[i], invoked, tables)
  {
    assert accounts[..i + 1][..i] == accounts[..i];
  }

  method SplitAccounts(accounts: seq<Entry>, invoked: set<Address>, tables: seq<LookupTable>,
                       altMap: map<Address, Slot>) returns (split: Split)
    requires HoldsFirst(altMap, tables)
    ensures split == Partition(accounts, invoked, tables)
  {
    var staticKeys, builders := [], [];
    for i := 0 to |accounts|
      invariant Split(staticKeys, builders) == Partition(accounts[..i], invoked, tables)
    {
      var account := accounts[i];
      PartitionNext(accounts, i, invoked, tables);
      if account.isSigner || account.pubkey in invoked || account.pubkey !in altMap {
        staticKeys := staticKeys + [account];
      } else {
        builders := PushIndex(builders, altMap[account.pubkey], account.isWritable);
      }
    }
    assert accounts[..|accounts|] == accounts;
    return Split(staticKeys, builders);
  }

  lemma {:induction false} InvokedNext(ixs: seq<Instruction>, i: nat)
    requires i < |ixs|
    ensures Invoked(ixs[..i + 1]) == Invoked(ixs[..i]) + {ixs[i].programId}
  {
    var next, prev := ixs[..i + 1], ixs[..i];
    forall key | key in Invoked(prev)
      ensures key in Invoked(next)
    {
      var j :| 0 <= j < i && prev[j].programId == key;
      assert next[j].programId == key;
    }
    assert next[i].programId in Invoked(next);
  }

  method PartitionV0Accounts(payer: Address, ixs: seq<Instruction>, tables: seq<LookupTable>)
    returns (split: Split)
    ensures split == Partition(Table(payer, ixs), Invoked(ixs), tables)
  {
    var collector := new Collector();
    collector.CollectAccounts(payer, ixs);
    var accounts := collector.accounts;
    var invoked: set<Address> := {};
    for i := 0 to |ixs|
      invariant invoked == Invoked(ixs[..i])
    {
      InvokedNext(ixs, i);
      invoked := invoked + {ixs[i].programId};
    }
    assert ixs[..|ixs|] == ixs;
    var altMap := BuildAltMap(tables);
    split := SplitAccounts(accounts, invoked, tables, altMap);
  }

  // ---- What the runtime loads from the tables ----

  /** Every index is in its table and is the first match of the address there. */
  predicate Within(tables: seq<LookupTable>, table: nat, indexes: seq<nat>) {
    && table < |tables|
    && forall i :: 0 <= i < |indexes| ==>
         indexes[i] < |tables[table].addresses|
         && FirstMatch(tables, tables[table].addresses[indexes[i]]) == Some(Slot(table, indexes[i]))
  }

  predicate Resolves(bs: seq<Builder>, tables: seq<LookupTable>) {
    forall k :: 0 <= k < |bs| ==>
      Within(tables, bs[k].table, bs[k].writable) && Within(tables, bs[k].table, bs[k].readonly)
  }

  function Fetch(tables: seq<LookupTable>, table: nat, indexes: seq<nat>, isWritable: bool): (es: seq<Entry>)
    requires Within(tables, table, indexes)
    ensures |es| == |indexes|
  {
    seq(|indexes|, i requires 0 <= i < |indexes| => Entry(tables[table].addresses[indexes[i]], false, isWritable))
  }

  function IndexesOf(b: Builder, isWritable: bool): seq<nat> { if isWritable then b.writable else b.readonly }

  /** The writable, or the readonly, accounts of every lookup in order. */
  function Loaded(bs: seq<Builder>, tables: seq<LookupTable>, isWritable: bool): seq<Entry>
    requires Resolves(bs, tables)
  {
    if bs == [] then []
    else Fetch(tables, bs[0].table, IndexesOf(bs[0], isWritable), isWritable) + Loaded(bs[1..], tables, isWritable)
  }

  lemma {:induction false} PutWithin(tables: seq<LookupTable>, b: Builder, key: Address, isWritable: bool)
    requires FirstMatch(tables, key).Some? && FirstMatch(tables, key).value.table == b.table
    requires Within(tables, b.table, b.writable) && Within(tables, b.table, b.readonly)
    ensures var b' := Put(b, FirstMatch(tables, key).value.entry, isWritable);
            Within(tables, b.table, b'.writable) && Within(tables, b.table, b'.readonly)
  {
  }

  lemma {:induction false} FetchPush(tables: seq<LookupTable>, table: nat, indexes: seq<nat>, entry: nat,
                                     isWritable: bool)
    requires Within(tables, table, indexes) && Within(tables, table, indexes + [entry])
    ensures entry < |tables[table].addresses|
    ensures Fetch(tables, table, indexes + [entry], isWritable)
         == Fetch(tables, table, indexes, isWritable) + [Entry(tables[table].addresses[entry], false, isWritable)]
  {
    assert (indexes + [entry])[|indexes|] == entry;
  }

  lemma {:induction false} PutFetch(tables: seq<LookupTable>, b: Builder, key: Address, isWritable: bool,
                                    loadsWritable: bool)
    requires FirstMatch(tables, key).Some? && FirstMatch(tables, key).value.table == b.table
    requires Within(tables, b.table, b.writable) && Within(tables, b.table, b.readonly)
    ensures var b' := Put(b, FirstMatch(tables, key).value.entry, isWritable);
            && Within(tables, b.table, IndexesOf(b', loadsWritable))
            && Fetch(tables, b.table, IndexesOf(b', loadsWritable), loadsWritable)
               == Fetch(tables, b.table, IndexesOf(b, loadsWritable), loadsWritable)
                  + (if isWritable == loadsWritable then [Entry(key, false, isWritable)] else [])
  {
    PutWithin(tables, b, key, isWritable);
    if isWritable == loadsWritable {
      FetchPush(tables, b.table, IndexesOf(b, loadsWritable), FirstMatch(tables, key).value.entry, isWritable);
    }
  }

  lemma {:induction false} PlaceResolves(bs: seq<Builder>, tables: seq<LookupTable>, key: Address, isWritable: bool)
    requires Resolves(bs, tables) && FirstMatch(tables, key).Some?
    ensures Resolves(Place(bs, FirstMatch(tables, key).value, isWritable), tables)
  {
    var s := FirstMatch(tables, key).value;
    if bs == [] {
      PutWithin(tables, Builder(s.table, [], []), key, isWritable);
    } else if bs[0].table == s.table {
      PutWithin(tables, bs[0], key, isWritable);
    } else {
      PlaceResolves(bs[1..], tables, key, isWritable);
    }
  }

  lemma {:induction false} LoadedFirst(b: Builder, rest: seq<Builder>, tables: seq<LookupTable>, isWritable: bool)
    requires Resolves([b] + rest, tables) && Within(tables, b.table, IndexesOf(b, isWritable))
    ensures Resolves(rest, tables)
    ensures multiset(Loaded([b] + rest, tables, isWritable))
         == multiset(Fetch(tables, b.table, IndexesOf(b, isWritable), isWritable))
            + multiset(Loaded(rest, tables, isWritable))
  {
    var all := [b] + rest;
    assert all[1..] == rest;
    forall k | 0 <= k < |rest|
      ensures Within(tables, rest[k].table, rest[k].writable) && Within(tables, rest[k].table, rest[k].readonly)
    {
      assert rest[k] == all[k + 1];
    }
  }

  function Extra(key: Address, isWritable: bool, loadsWritable: bool): multiset<Entry> {
    if isWritable == loadsWritable then multiset{Entry(key, false, isWritable)} else multiset{}
  }

  /** One more index in the first lookup. */
  lemma {:induction false} PutLoads(b: Builder, rest: seq<Builder>, tables: seq<LookupTable>, key: Address,
                                    isWritable: bool, loadsWritable: bool)
    requires FirstMatch(tables, key).Some? && FirstMatch(tables, key).value.table == b.table
    requires Resolves([b] + rest, tables)
    requires Resolves([Put(b, FirstMatch(tables, key).value.entry, isWritable)] + rest, tables)
    ensures multiset(Loaded([Put(b, FirstMatch(tables, key).value.entry, isWritable)] + rest, tables, loadsWritable))
         == multiset(Loaded([b] + rest, tables, loadsWritable)) + Extra(key, isWritable, loadsWritable)
  {
    assert ([b] + rest)[0] == b;
    PutFetch(tables, b, key, isWritable, loadsWritable);
    LoadedFirst(b, rest, tables, loadsWritable);
    LoadedFirst(Put(b, FirstMatch(tables, key).value.entry, isWritable), rest, tables, loadsWritable);
  }

  lemma {:induction false} RestResolves(b: Builder, rest: seq<Builder>, tables: seq<LookupTable>)
    requires Resolves([b] + rest, tables)
    ensures Resolves(rest, tables) && Within(tables, b.table, b.writable) && Within(tables, b.table, b.readonly)
  {
    assert ([b] + rest)[0] == b;
    forall k | 0 <= k < |rest|
      ensures Within(tables, rest[k].table, rest[k].writable) && Within(tables, rest[k].table, rest[k].readonly)
    {
      assert rest[k] == ([b] + rest)[k + 1];
    }
  }

  /** What is added behind the first lookup is added to the whole. */
  lemma {:induction false} LoadsBehind(b: Builder, rest: seq<Builder>, rest': seq<Builder>, tables: seq<LookupTable>,
                                       isWritable: bool, extra: multiset<Entry>)
    requires Resolves([b] + rest, tables) && Resolves([b] + rest', tables)
    requires Resolves(rest, tables) && Resolves(rest', tables) && Within(tables, b.table, IndexesOf(b, isWritable))
    requires multiset(Loaded(rest', tables, isWritable)) == multiset(Loaded(rest, tables, isWritable)) + extra
    ensures multiset(Loaded([b] + rest', tables, isWritable))
         == multiset(Loaded([b] + rest, tables, isWritable)) + extra
  {
    LoadedFirst(b, rest, tables, isWritable);
    LoadedFirst(b, rest', tables, isWritable);
  }

  lemma {:induction false} PlaceLoads(bs: seq<Builder>, tables: seq<LookupTable>, key: Address, isWritable: bool,
                                      loadsWritable: bool)
    requires Resolves(bs, tables) && FirstMatch(tables, key).Some?
    requires Resolves(Place(bs, FirstMatch(tables, key).value, isWritable), tables)
    ensures multiset(Loaded(Place(bs, FirstMatch(tables, key).value, isWritable), tables, loadsWritable))
         == multiset(Loaded(bs, tables, loadsWritable)) + Extra(key, isWritable, loadsWritable)
  {
    var s := FirstMatch(tables, key).value;
    if bs == [] {
      PutLoads(Builder(s.table, [], []), [], tables, key, isWritable, loadsWritable);
      LoadedFirst(Builder(s.table, [], []), [], tables, loadsWritable);
    } else if bs[0].table == s.table {
      assert bs == [bs[0]] + bs[1..];
      PutLoads(bs[0], bs[1..], tables, key, isWritable, loadsWritable);
    } else {
      assert bs == [bs[0]] + bs[1..];
      RestResolves(bs[0], bs[1..], tables);
      RestResolves(bs[0], Place(bs[1..], s, isWritable), tables);
      PlaceLoads(bs[1..], tables, key, isWritable, loadsWritable);
      LoadsBehind(bs[0], bs[1..], Place(bs[1..], s, isWritable), tables, loadsWritable,
                  Extra(key, isWritable, loadsWritable));
    }
  }

  function AllEntries(split: Split, tables: seq<LookupTable>): multiset<Entry>
    requires Resolves(split.builders, tables)
  {
    multiset(split.staticKeys) + multiset(Loaded(split.builders, tables, true))
    + multiset(Loaded(split.builders, tables, false))
  }

  lemma {:induction false} PartitionResolves(accounts: seq<Entry>, invoked: set<Address>, tables: seq<LookupTable>)
    ensures Resolves(Partition(accounts, invoked, tables).builders, tables)
  {
    if accounts != [] {
      var n := |accounts| - 1;
      PartitionResolves(accounts[..n], invoked, tables);
      if !Stays(accounts[n], invoked, tables) {
        PlaceResolves(Partition(accounts[..n], invoked, tables).builders, tables, accounts[n].pubkey,
                      accounts[n].isWritable);
      }
    }
  }

  lemma {:induction false} StaticKept(split: Split, account: Entry, tables: seq<LookupTable>)
    requires Resolves(split.builders, tables)
    ensures AllEntries(split.(staticKeys := split.staticKeys + [account]), tables)
         == AllEntries(split, tables) + multiset{account}
  {
  }

  /** The account is loaded once, on its own side. */
  lemma {:induction false} ExtraTogether(account: Entry)
    requires !account.isSigner
    ensures Extra(account.pubkey, account.isWritable, true) + Extra(account.pubkey, account.isWritable, false)
         == multiset{account}
  {
    assert account == Entry(account.pubkey, false, account.isWritable);
  }

  lemma {:induction false} MovedKept(split: Split, account: Entry, bs: seq<Builder>, tables: seq<LookupTable>)
    requires !account.isSigner && FirstMatch(tables, account.pubkey).Some?
    requires bs == Place(split.builders, FirstMatch(tables, account.pubkey).value, account.isWritable)
    requires Resolves(split.builders, tables) && Resolves(bs, tables)
    ensures AllEntries(split.(builders := bs), tables) == AllEntries(split, tables) + multiset{account}
  {
    PlaceLoads(split.builders, tables, account.pubkey, account.isWritable, true);
    PlaceLoads(split.builders, tables, account.pubkey, account.isWritable, false);
    ExtraTogether(account);
  }

  lemma {:induction false} AccountKept(split: Split, account: Entry, invoked: set<Address>, tables: seq<LookupTable>)
    requires Resolves(split.builders, tables)
    requires Resolves(PlaceAccount(split, account, invoked, tables).builders, tables)
    ensures AllEntries(PlaceAccount(split, account, invoked, tables), tables)
         == AllEntries(split, tables) + multiset{account}
  {
    if Stays(account, invoked, tables) {
      StaticKept(split, account, tables);
    } else {
      MovedKept(split, account, PlaceAccount(split, account, invoked, tables).builders, tables);
    }
  }

  lemma {:induction false} MultisetLast<T>(s: seq<T>)
    requires s != []
    ensures multiset(s) == multiset(s[..|s| - 1]) + multiset{s[|s| - 1]}
  {
    assert s == s[..|s| - 1] + [s[|s| - 1]];
  }

  /** Nothing is lost, duplicated or given other flags: the static keys and what the lookups resolve to
      are together exactly the collected accounts. */
  lemma {:induction false} PartitionLossless(accounts: seq<Entry>, invoked: set<Address>, tables: seq<LookupTable>)
    ensures Resolves(Partition(accounts, invoked, tables).builders, tables)
    ensures AllEntries(Partition(accounts, invoked, tables), tables) == multiset(accounts)
  {
    PartitionResolves(accounts, invoked, tables);
    if accounts != [] {
      var n := |accounts| - 1;
      PartitionLossless(accounts[..n], invoked, tables);
      AccountKept(Partition(accounts[..n], invoked, tables), accounts[n], invoked, tables);
      MultisetLast(accounts);
    }
  }

  /** The accounts that cannot be moved, in their order. */
  function Unmoved(accounts: seq<Entry>, invoked: set<Address>, tables: seq<LookupTable>): seq<Entry>
  {
    if accounts == [] then []
    else if Stays(accounts[0], invoked, tables) then [accounts[0]] + Unmoved(accounts[1..], invoked, tables)
    else Unmoved(accounts[1..], invoked, tables)
  }

  lemma {:induction false} UnmovedPush(accounts: seq<Entry>, a: Entry, invoked: set<Address>, tables: seq<LookupTable>)
    ensures Unmoved(accounts + [a], invoked, tables)
         == Unmoved(accounts, invoked, tables) + if Stays(a, invoked, tables) then [a] else []
  {
    if accounts == [] {
      assert ([] + [a])[1..] == [];
    } else {
      assert (accounts + [a])[1..] == accounts[1..] + [a];
      UnmovedPush(accounts[1..], a, invoked, tables);
    }
  }

  /** Signers, invoked programs and accounts no table lists are the static keys, in table order, and no others. */
  lemma {:induction false} StaticIsUnmoved(accounts: seq<Entry>, invoked: set<Address>, tables: seq<LookupTable>)
    ensures Partition(accounts, invoked, tables).staticKeys == Unmoved(accounts, invoked, tables)
  {
    if accounts != [] {
      var n := |accounts| - 1;
      StaticIsUnmoved(accounts[..n], invoked, tables);
      UnmovedPush(accounts[..n], accounts[n], invoked, tables);
      assert accounts == accounts[..n] + [accounts[n]];
    }
  }

  lemma {:induction false} UnmovedIff(accounts: seq<Entry>, invoked: set<Address>, tables: seq<LookupTable>, a: Entry)
    ensures a in Unmoved(accounts, invoked, tables) <==> a in accounts && Stays(a, invoked, tables)
  {
    if accounts != [] {
      UnmovedIff(accounts[1..], invoked, tables, a);
      assert a in accounts <==> a == accounts[0] || a in accounts[1..];
    }
  }

  lemma {:induction false} UnmovedSorted(accounts: seq<Entry>, invoked: set<Address>, tables: seq<LookupTable>)
    requires Sorted(accounts)
    ensures Sorted(Unmoved(accounts, invoked, tables))
  {
    if accounts != [] {
      UnmovedSorted(accounts[1..], invoked, tables);
      var rest := Unmoved(accounts[1..], invoked, tables);
      assert ([accounts[0]] + rest)[1..] == rest;
      forall i | 0 <= i < |rest|
        ensures Rank(accounts[0]) <= Rank(rest[i])
      {
        UnmovedIff(accounts[1..], invoked, tables, rest[i]);
      }
    }
  }

  /** The static keys are again a table in rank order that starts with the payer, so the header counts cut it too. */
  lemma {:induction false} StaticIsTable(payer: Address, ixs: seq<Instruction>, tables: seq<LookupTable>)
    ensures var keys := Partition(Table(payer, ixs), Invoked(ixs), tables).staticKeys;
            Sorted(keys) && keys != [] && keys[0] == Entry(payer, true, true)
  {
    TableSummarizes(payer, ixs);
    StaticIsUnmoved(Table(payer, ixs), Invoked(ixs), tables);
    UnmovedSorted(Table(payer, ixs), Invoked(ixs), tables);
  }

  // ---- Which accounts stay, in terms of the instructions and the tables ----

  /** Some table lists the address. */
  predicate InSomeTable(tables: seq<LookupTable>, key: Address) {
    exists t, e :: 0 <= t < |tables| && 0 <= e < |tables[t].addresses| && tables[t].addresses[e] == key
  }

  lemma {:induction false} MatchedIffListed(tables: seq<LookupTable>, key: Address)
    ensures FirstMatch(tables, key).Some? <==> InSomeTable(tables, key)
  {
    if t, e :| 0 <= t < |tables| && 0 <= e < |tables[t].addresses| && tables[t].addresses[e] == key {
      FirstMatchFinds(tables, key, t, e);
    }
  }

  /** An account of the transaction stays among the static keys exactly if it signs, is an invoked program, or is
      listed by no table. */
  lemma {:induction false} StaticIff(payer: Address, ixs: seq<Instruction>, tables: seq<LookupTable>, a: Entry)
    ensures a in Partition(Table(payer, ixs), Invoked(ixs), tables).staticKeys <==>
            && a in Table(payer, ixs)
            && (a.isSigner || (exists i :: 0 <= i < |ixs| && ixs[i].programId == a.pubkey)
                || !InSomeTable(tables, a.pubkey))
  {
    StaticIsUnmoved(Table(payer, ixs), Invoked(ixs), tables);
    UnmovedIff(Table(payer, ixs), Invoked(ixs), tables, a);
    MatchedIffListed(tables, a.pubkey);
  }

  lemma {:induction false} UnmovedOrder(accounts: seq<Entry>, invoked: set<Address>, tables: seq<LookupTable>, i: nat,
                                        j: nat)
      returns (a: nat, b: nat)
    requires i < j < |Unmoved(accounts, invoked, tables)|
    ensures a < b < |accounts|
    ensures accounts[a] == Unmoved(accounts, invoked, tables)[i]
    ensures accounts[b] == Unmoved(accounts, invoked, tables)[j]
  {
    if !Stays(accounts[0], invoked, tables) {
      a, b := UnmovedOrder(accounts[1..], invoked, tables, i, j);
      a, b := a + 1, b + 1;
    } else if i > 0 {
      a, b := UnmovedOrder(accounts[1..], invoked, tables, i - 1, j - 1);
      a, b := a + 1, b + 1;
    } else {
      UnmovedIff(accounts[1..], invoked, tables, Unmoved(accounts[1..], invoked, tables)[j - 1]);
      b :| 0 <= b < |accounts[1..]| && accounts[1..][b] == Unmoved(accounts[1..], invoked, tables)[j - 1];
      a, b := 0, b + 1;
    }
  }

  /** The static keys come in the order they have in the table. */
  lemma {:induction false} StaticInOrder(payer: Address, ixs: seq<Instruction>, tables: seq<LookupTable>, i: nat,
                                         j: nat)
      returns (a: nat, b: nat)
    requires i < j < |Partition(Table(payer, ixs), Invoked(ixs), tables).staticKeys|
    ensures var (t, keys) := (Table(payer, ixs), Partition(Table(payer, ixs), Invoked(ixs), tables).staticKeys);
            a < b < |t| && t[a] == keys[i] && t[b] == keys[j]
  {
    StaticIsUnmoved(Table(payer, ixs), Invoked(ixs), tables);
    a, b := UnmovedOrder(Table(payer, ixs), Invoked(ixs), tables, i, j);
  }

  /** Every program invoked and every account that must sign is a static key, whatever the tables list. */
  lemma {:induction false} KeptStatic(payer: Address, ixs: seq<Instruction>, tables: seq<LookupTable>, key: Address)
    requires key == payer || MustSign(ixs, key) || exists i :: 0 <= i < |ixs| && ixs[i].programId == key
    ensures Has(Partition(Table(payer, ixs), Invoked(ixs), tables).staticKeys, key)
  {
    TableKeys(payer, ixs, key);
    var k :| 0 <= k < |Table(payer, ixs)| && Table(payer, ixs)[k].pubkey == key;
    TableFlags(payer, ixs, k);
    StaticIff(payer, ixs, tables, Table(payer, ixs)[k]);
  }

  lemma {:induction false} LoadedListed(bs: seq<Builder>, tables: seq<LookupTable>, isWritable: bool, a: Entry)
      returns (k: nat, i: nat)
    requires Resolves(bs, tables) && a in Loaded(bs, tables, isWritable)
    ensures k < |bs| && i < |IndexesOf(bs[k], isWritable)|
    ensures Points(tables, Slot(bs[k].table, IndexesOf(bs[k], isWritable)[i]), a.pubkey)
    ensures a == Entry(a.pubkey, false, isWritable)
  {
    var first := Fetch(tables, bs[0].table, IndexesOf(bs[0], isWritable), isWritable);
    if a in first {
      k := 0;
      i :| 0 <= i < |first| && first[i] == a;
    } else {
      assert bs == [bs[0]] + bs[1..];
      RestResolves(bs[0], bs[1..], tables);
      k, i := LoadedListed(bs[1..], tables, isWritable, a);
      k := k + 1;
    }
  }

  /** Every other account is looked up, among the writable indexes of a table if it must be written and among the
      readonly ones if not, at an index where that table lists it. */
  lemma {:induction false} MovedIsListed(payer: Address, ixs: seq<Instruction>, tables: seq<LookupTable>, key: Address)
      returns (b: Builder, e: nat)
    requires key != payer && Named(ixs, key) && !MustSign(ixs, key) && InSomeTable(tables, key)
    requires forall i :: 0 <= i < |ixs| ==> ixs[i].programId != key
    ensures b in Partition(Table(payer, ixs), Invoked(ixs), tables).builders
    ensures e in (if MustWrite(ixs, key) then b.writable else b.readonly)
    ensures b.table < |tables| && e < |tables[b.table].addresses| && tables[b.table].addresses[e] == key
    ensures !Has(Partition(Table(payer, ixs), Invoked(ixs), tables).staticKeys, key)
  {
    var t, split := Table(payer, ixs), Partition(Table(payer, ixs), Invoked(ixs), tables);
    TableKeys(payer, ixs, key);
    var j :| 0 <= j < |t| && t[j].pubkey == key;
    TableFlags(payer, ixs, j);
    PartitionLossless(t, Invoked(ixs), tables);
    if k :| 0 <= k < |split.staticKeys| && split.staticKeys[k].pubkey == key {
      StaticIff(payer, ixs, tables, split.staticKeys[k]);
      var a :| 0 <= a < |t| && t[a] == split.staticKeys[k];
      TableFlags(payer, ixs, a);
      assert false;
    }
    assert t[j] in multiset(t) && t[j] !in multiset(split.staticKeys);
    var isWritable := t[j] in Loaded(split.builders, tables, true);
    var k, i := LoadedListed(split.builders, tables, isWritable, t[j]);
    b, e := split.builders[k], IndexesOf(split.builders[k], isWritable)[i];
  }

  // ---- The size ----

  function LookupSize(b: Builder): nat {
    32 + CompactLen(|b.writable|) + |b.writable| + CompactLen(|b.readonly|) + |b.readonly|
  }

  function LookupsSize(bs: seq<Builder>): nat {
    if bs == [] then 0
    else LookupSize(bs[0]) + LookupsSize(bs[1..])
  }

  function V0Size(split: Split, ixs: seq<Instruction>): nat {
    var s, n := Signers(split.staticKeys), |split.staticKeys|;
    CompactLen(s) + s * 64
    + 1 + 3 + CompactLen(n) + n * 32 + 32 + CompactLen(|ixs|) + SizeAll(ixs)
    + CompactLen(|split.builders|) + LookupsSize(split.builders)
  }

  method InstructionsSize(ixs: seq<Instruction>) returns (size: nat)
    ensures size == SizeAll(ixs)
  {
    size := 0;
    for i := 0 to |ixs|
      invariant size + SizeAll(ixs[i..]) == SizeAll(ixs)
    {
      assert ixs[i..][1..] == ixs[i + 1..];
      var a := CompactU16Len(|ixs[i].accounts|);
      var d := CompactU16Len(|ixs[i].data|);
      size := size + 1 + a + |ixs[i].accounts| + d + |ixs[i].data|;
    }
  }

  /** The TypeScript estimator gives the number the Rust one gives. */
  method EstimateLegacySize(payer: Address, ixs: seq<Instruction>) returns (size: nat)
    ensures size == LegacySize(payer, ixs)
    ensures Estimate(payer, ixs).Ok? ==> Estimate(payer, ixs).value == size
  {
    var collector := new Collector();
    collector.CollectAccounts(payer, ixs);
    var accounts := collector.accounts;
    var s := CompactU16Len(Signers(accounts));
    var n := CompactU16Len(|accounts|);
    size := 3 + n + |accounts| * 32 + 32;
    n := CompactU16Len(|ixs|);
    var body := InstructionsSize(ixs);
    size := s + Signers(accounts) * 64 + size + n + body;
  }

  method LookupsLength(bs: seq<Builder>) returns (size: nat)
    ensures size == LookupsSize(bs)
  {
    size := 0;
    for i := 0 to |bs|
      invariant size + LookupsSize(bs[i..]) == LookupsSize(bs)
    {
      assert bs[i..][1..] == bs[i + 1..];
      var w := CompactU16Len(|bs[i].writable|);
      var r := CompactU16Len(|bs[i].readonly|);
      size := size + 32 + w + |bs[i].writable| + r + |bs[i].readonly|;
    }
  }

  method EstimateV0TransactionSize(payer: Address, ixs: seq<Instruction>, tables: seq<LookupTable>)
    returns (size: nat)
    ensures size == V0Size(Partition(Table(payer, ixs), Invoked(ixs), tables), ixs)
  {
    var split := PartitionV0Accounts(payer, ixs, tables);
    var n := |split.staticKeys|;
    var a := CompactU16Len(n);
    size := 1 + 3 + a + n * 32 + 32;
    a := CompactU16Len(|ixs|);
    var body := InstructionsSize(ixs);
    size := size + a + body;
    a := CompactU16Len(|split.builders|);
    body := LookupsLength(split.builders);
    size := size + a + body;
    a := CompactU16Len(Signers(split.staticKeys));
    size := a + Signers(split.staticKeys) * 64 + size;
  }

  // ---- The size formula ----

  function Indexes(bs: seq<Builder>): nat {
    if bs == [] then 0 else |bs[0].writable| + |bs[0].readonly| + Indexes(bs[1..])
  }

  lemma {:induction false} PlaceCounts(bs: seq<Builder>, s: Slot, isWritable: bool)
    ensures Indexes(Place(bs, s, isWritable)) == Indexes(bs) + 1
    ensures |bs| <= |Place(bs, s, isWritable)| <= |bs| + 1
  {
    if bs == [] {
      assert Place(bs, s, isWritable)[1..] == [];
    } else if bs[0].table != s.table {
      PlaceCounts(bs[1..], s, isWritable);
    }
  }

  lemma {:induction false} CountPush(es: seq<Entry>, e: Entry, p: Entry -> bool)
    ensures CountIf(es + [e], p) == CountIf(es, p) + if p(e) then 1 else 0
  {
    if es == [] {
      assert ([] + [e])[1..] == [];
    } else {
      CountPush(es[1..], e, p);
      assert (es + [e])[1..] == es[1..] + [e];
    }
  }

  lemma {:induction false} SignersPush(es: seq<Entry>, e: Entry)
    ensures Signers(es + [e]) == Signers(es) + if e.isSigner then 1 else 0
  {
    var p := (e: Entry) => e.isSigner;
    CountPush(es, e, p);
  }

  lemma {:induction false} PartitionCounts(accounts: seq<Entry>, invoked: set<Address>, tables: seq<LookupTable>)
    ensures var split := Partition(accounts, invoked, tables);
            && |split.staticKeys| + Indexes(split.builders) == |accounts|
            && |split.builders| <= Indexes(split.builders)
            && Signers(split.staticKeys) == Signers(accounts)
  {
    if accounts != [] {
      var n := |accounts| - 1;
      var before := Partition(accounts[..n], invoked, tables);
      PartitionCounts(accounts[..n], invoked, tables);
      SignersPush(accounts[..n], accounts[n]);
      SignersPush(before.staticKeys, accounts[n]);
      assert accounts == accounts[..n] + [accounts[n]];
      if !Stays(accounts[n], invoked, tables) {
        PlaceCounts(before.builders, FirstMatch(tables, accounts[n].pubkey).value, accounts[n].isWritable);
      }
    }
  }

  lemma {:induction false} SmallLookups(bs: seq<Builder>)
    requires Indexes(bs) < 128
    ensures LookupsSize(bs) == 34 * |bs| + Indexes(bs)
  {
    if bs != [] {
      SmallLookups(bs[1..]);
    }
  }

  /** Below 128 accounts a table costs 34 bytes, a moved account saves 31, and the version costs 2. */
  lemma {:induction false} V0SizeFormula(payer: Address, ixs: seq<Instruction>, tables: seq<LookupTable>)
    requires |Table(payer, ixs)| < 128
    ensures var split := Partition(Table(payer, ixs), Invoked(ixs), tables);
            var moved := |Table(payer, ixs)| - |split.staticKeys|;
            V0Size(split, ixs) == LegacySize(payer, ixs) + 2 + 34 * |split.builders| - 31 * moved
  {
    var split := Partition(Table(payer, ixs), Invoked(ixs), tables);
    PartitionCounts(Table(payer, ixs), Invoked(ixs), tables);
    SmallLookups(split.builders);
  }

  /** No table is listed twice. */
  predicate TablesDistinct(bs: seq<Builder>) {
    forall i, j :: 0 <= i < j < |bs| ==> bs[i].table != bs[j].table
  }

  predicate Lists(bs: seq<Builder>, table: nat) { exists i :: 0 <= i < |bs| && bs[i].table == table }

  lemma {:induction false} PlaceDistinct(bs: seq<Builder>, s: Slot, isWritable: bool)
    requires TablesDistinct(bs)
    ensures TablesDistinct(Place(bs, s, isWritable))
    ensures forall i :: 0 <= i < |Place(bs, s, isWritable)| ==>
              Place(bs, s, isWritable)[i].table == s.table || Lists(bs, Place(bs, s, isWritable)[i].table)
  {
    var next := Place(bs, s, isWritable);
    if bs != [] && bs[0].table != s.table {
      PlaceDistinct(bs[1..], s, isWritable);
      forall i | 0 <= i < |next|
        ensures next[i].table == s.table || Lists(bs, next[i].table)
        ensures i > 0 ==> next[i].table != bs[0].table
      {
        if i > 0 && next[i].table != s.table {
          var j :| 0 <= j < |bs[1..]| && bs[1..][j].table == next[i].table;
          assert bs[j + 1].table == next[i].table;
        }
      }
    } else {
      assert forall i :: 0 <= i < |next| && next[i].table != s.table ==> next[i] == bs[i];
    }
  }

  lemma {:induction false} PartitionTablesDistinct(accounts: seq<Entry>, invoked: set<Address>,
                                                   tables: seq<LookupTable>)
    ensures TablesDistinct(Partition(accounts, invoked, tables).builders)
  {
    if accounts != [] {
      var n := |accounts| - 1;
      PartitionTablesDistinct(accounts[..n], invoked, tables);
      if !Stays(accounts[n], invoked, tables) {
        PlaceDistinct(Partition(accounts[..n], invoked, tables).builders,
                      FirstMatch(tables, accounts[n].pubkey).value, accounts[n].isWritable);
      }
    }
  }
}
