// Read-only tables, lua-sharedata.c.

module ShareTable {
  // A Lua table is converted once, and then looked up and traversed in place.

  import opened PegSyntax

  type Int32 = x: int | -0x8000_0000 <= x < 0x8000_0000

  // An integer key of 32 bits, or a string.
  datatype Key = IntKey(k: Int32) | StrKey(s: seq<Byte>)

  // A value that is not nil; `SubTable` stands for a converted table.
  datatype Value =
    | Real(bits: nat)
    | Integer(d: int)
    | Text(s: seq<Byte>)
    | Boolean(b: bool)
    | SubTable(id: nat)

  // The entries of a Lua table, in the order of `lua_next`.
  datatype Entry = Entry(key: Key, value: Value)

  // A slot of the hash part; it is free as long as its value type is nil.
  datatype Slot =
    | Free
    | Node(key: Key, keyhash: nat, next: int, nocolliding: bool, value: Value)

  // `calchash`, in 32 bits.
  function CalcHash(s: seq<Byte>, h: bv32, l1: nat, step: nat): bv32
    requires l1 <= |s| && step > 0
    decreases l1
  {
    if l1 < step then h
    else CalcHash(s, h ^ ((h << 5) + (h >> 2) + (s[l1 - 1] as bv32)), l1 - step, step)
  }

  function KeyHash(key: Key): nat {
    match key
    case IntKey(k) => if k >= 0 then k else k + 0x1_0000_0000
    case StrKey(s) => CalcHash(s, (|s| % 0x1_0000_0000) as bv32, |s|, |s| / 32 + 1) as nat
  }

  predicate ArrayKey(key: Key, n: nat) { key.IntKey? && 0 < key.k <= n }

  // The main position of a key among `n` slots.
  function MainOf(key: Key, n: nat): (m: nat)
    requires n > 0
    ensures m < n
  {
    KeyHash(key) % n
  }

  ghost predicate Distinct(es: seq<Entry>) {
    forall j, k :: 0 <= j < k < |es| ==> es[j].key != es[k].key
  }

  // What the table holds at `key`.
  function Lookup(es: seq<Entry>, key: Key): Option<Value> {
    if es == [] then None
    else if es[|es| - 1].key == key then Some(es[|es| - 1].value)
    else Lookup(es[..|es| - 1], key)
  }

  lemma {:induction false} LookupAt(es: seq<Entry>, j: nat)
    requires Distinct(es) && j < |es|
    ensures Lookup(es, es[j].key) == Some(es[j].value)
  {
    if j < |es| - 1 { LookupAt(es[..|es| - 1], j); }
  }

  lemma {:induction false} LookupFinds(es: seq<Entry>, key: Key) returns (j: nat)
    requires Lookup(es, key).Some?
    ensures j < |es| && es[j] == Entry(key, Lookup(es, key).value)
  {
    if es[|es| - 1].key == key { j := |es| - 1; } else { j := LookupFinds(es[..|es| - 1], key); }
  }

  // -------------------------------------------------------------------------
  // Chains
  // -------------------------------------------------------------------------

  // The slots of chain `i`, from its main position on.
  ghost predicate ChainOk(s: seq<Slot>, chain: seq<nat>, i: nat)
    requires i < |s|
  {
    && (chain != [] ==> chain[0] == i)
    && forall k :: 0 <= k < |chain| ==> LinkOk(s, chain, i, k)
  }

  ghost predicate LinkOk(s: seq<Slot>, chain: seq<nat>, i: nat, k: nat)
    requires k < |chain| && i < |s|
  {
    && chain[k] < |s| && s[chain[k]].Node? && MainOf(s[chain[k]].key, |s|) == i
    && s[chain[k]].next == if k + 1 < |chain| then chain[k + 1] else -1
  }

  // A slot in use is in the chain of the main position of its key, and alone
  // there if it is marked so.
  ghost predicate SlotOk(s: seq<Slot>, chains: seq<seq<nat>>, x: nat)
    requires x < |s| == |chains|
  {
    s[x].Node? ==>
      && s[x].keyhash == KeyHash(s[x].key)
      && x in chains[MainOf(s[x].key, |s|)]
      && (s[x].nocolliding ==> chains[x] == [x])
  }

  ghost predicate Linked(s: seq<Slot>, chains: seq<seq<nat>>) {
    && |chains| == |s|
    && (forall i :: 0 <= i < |s| ==> ChainOk(s, chains[i], i))
    && (forall x :: 0 <= x < |s| ==> SlotOk(s, chains, x))
  }

  ghost predicate KeysUnique(s: seq<Slot>) {
    forall x, y :: 0 <= x < y < |s| && s[x].Node? && s[y].Node? ==> s[x].key != s[y].key
  }

  ghost predicate From(s: seq<Slot>, es: seq<Entry>) {
    forall x :: 0 <= x < |s| && s[x].Node? ==> Entry(s[x].key, s[x].value) in es
  }

  // An entry takes its main position.
  function AtMain(s: seq<Slot>, e: Entry): (r: seq<Slot>)
    requires s != []
    ensures |r| == |s|
  {
    s[MainOf(e.key, |s|) := Node(e.key, KeyHash(e.key), -1, true, e.value)]
  }

  lemma HeadInUse(s: seq<Slot>, chains: seq<seq<nat>>, i: nat)
    requires Linked(s, chains) && i < |s|
    ensures chains[i] != [] ==> s[i].Node?
  {
    hide KeyHash;
    assert ChainOk(s, chains[i], i);
    assert chains[i] != [] ==> LinkOk(s, chains[i], i, 0);
  }

  lemma AtMainLinked(s: seq<Slot>, chains: seq<seq<nat>>, e: Entry)
    requires s != [] && Linked(s, chains) && s[MainOf(e.key, |s|)].Free?
    ensures |chains| == |s| && chains[MainOf(e.key, |s|)] == []
    ensures Linked(AtMain(s, e), chains[MainOf(e.key, |s|) := [MainOf(e.key, |s|)]])
  {
    hide KeyHash;
    var m := MainOf(e.key, |s|);
    var r := AtMain(s, e);
    var c := chains[m := [m]];
    HeadInUse(s, chains, m);
    forall i | 0 <= i < |r| ensures ChainOk(r, c[i], i) {
      assert ChainOk(s, chains[i], i);
      forall k | 0 <= k < |c[i]| ensures LinkOk(r, c[i], i, k) {
        if i != m { assert LinkOk(s, chains[i], i, k); }
      }
    }
    forall x | 0 <= x < |r| ensures SlotOk(r, c, x) {
      assert SlotOk(s, chains, x);
      if x != m && s[x].Node? && s[x].nocolliding { assert c[x] == [x]; }
    }
  }

  // An entry takes the free slot `n` and is linked behind its main position.
  function Behind(s: seq<Slot>, n: nat, e: Entry): (r: seq<Slot>)
    requires n < |s| && s[MainOf(e.key, |s|)].Node?
    ensures |r| == |s|
  {
    var m := MainOf(e.key, |s|);
    var Node(key, keyhash, next, nocolliding, value) := s[m];
    s[m := Node(key, keyhash, n, false, value)][n := Node(e.key, KeyHash(e.key), next, false, e.value)]
  }

  lemma BehindLinked(s: seq<Slot>, chains: seq<seq<nat>>, n: nat, e: Entry) returns (c: seq<seq<nat>>)
    requires n < |s| && Linked(s, chains) && s[n].Free?
    requires var m := MainOf(e.key, |s|); s[m].Node? && MainOf(s[m].key, |s|) == m
    ensures Linked(Behind(s, n, e), c)
  {
    hide KeyHash;
    var m := MainOf(e.key, |s|);
    assert SlotOk(s, chains, m) && ChainOk(s, chains[m], m);
    c := chains[m := [m, n] + chains[m][1..]];
    var r := Behind(s, n, e);
    assert LinkOk(s, chains[m], m, 0);
    forall i | 0 <= i < |r| ensures ChainOk(r, c[i], i) {
      assert ChainOk(s, chains[i], i);
      forall k | 0 <= k < |c[i]| ensures LinkOk(r, c[i], i, k) {
        BehindLink(s, chains, n, e, i, k);
      }
    }
    forall x | 0 <= x < |r| ensures SlotOk(r, c, x) {
      assert SlotOk(s, chains, x);
      if s[x].Node? && x in chains[m] {
        assert chains[m] == [m] + chains[m][1..];
        assert x in c[m];
      }
    }
  }

  lemma BehindLink(s: seq<Slot>, chains: seq<seq<nat>>, n: nat, e: Entry, i: nat, k: nat)
    requires n < |s| && Linked(s, chains) && s[n].Free? && i < |s|
    requires var m := MainOf(e.key, |s|); s[m].Node? && chains[m] != []
    requires var m := MainOf(e.key, |s|); k < |chains[m := [m, n] + chains[m][1..]][i]|
    ensures var m := MainOf(e.key, |s|); LinkOk(Behind(s, n, e), chains[m := [m, n] + chains[m][1..]][i], i, k)
  {
    hide KeyHash;
    var m := MainOf(e.key, |s|);
    assert ChainOk(s, chains[i], i) && ChainOk(s, chains[m], m);
    assert LinkOk(s, chains[m], m, 0);
    if i != m {
      assert LinkOk(s, chains[i], i, k);
    } else if k >= 2 {
      assert LinkOk(s, chains[m], m, k - 1);
      OnceInChain(s, chains[m], m, k - 1);
    }
  }

  // A chain does not come back to its start.
  lemma OnceInChain(s: seq<Slot>, chain: seq<nat>, i: nat, k: nat)
    requires i < |s| && ChainOk(s, chain, i) && 0 < k < |chain|
    ensures chain[k] != i
  {
    if chain[k] == i { SameDistance(s, chain, i, 0, k); }
  }

  // The end of the chain cannot be at two distances from one slot.

  lemma {:induction false} SameDistance(s: seq<Slot>, chain: seq<nat>, i: nat, j: nat, k: nat)
    requires i < |s| && ChainOk(s, chain, i) && j < k < |chain| && chain[j] == chain[k]
    ensures false
    decreases |chain| - k
  {
    assert LinkOk(s, chain, i, j) && LinkOk(s, chain, i, k);
    if k + 1 < |chain| { SameDistance(s, chain, i, j + 1, k + 1); }
  }

  // A chain has no cycle, and holds exactly the keys of its main position.
  lemma ChainHoldsItsKeys(s: seq<Slot>, chains: seq<seq<nat>>, i: nat)
    requires Linked(s, chains) && i < |s|
    ensures forall x :: 0 <= x < |s| && s[x].Node? ==> (x in chains[i] <==> MainOf(s[x].key, |s|) == i)
    ensures forall j, k :: 0 <= j < k < |chains[i]| ==> chains[i][j] != chains[i][k]
  {
    hide KeyHash;
    assert ChainOk(s, chains[i], i);
    forall x | 0 <= x < |s| && s[x].Node? ensures x in chains[i] <==> MainOf(s[x].key, |s|) == i {
      assert SlotOk(s, chains, x);
      if x in chains[i] {
        var k :| 0 <= k < |chains[i]| && chains[i][k] == x;
        assert LinkOk(s, chains[i], i, k);
      }
    }
    forall j, k | 0 <= j < k < |chains[i]| ensures chains[i][j] != chains[i][k] {
      if chains[i][j] == chains[i][k] { SameDistance(s, chains[i], i, j, k); }
    }
  }

  // -------------------------------------------------------------------------
  // Counting
  // -------------------------------------------------------------------------

  function HashKeys(es: seq<Entry>, n: nat): (keys: set<Key>)
    ensures forall key :: key in keys <==> exists j :: 0 <= j < |es| && es[j].key == key && !ArrayKey(key, n)
  {
    set j | 0 <= j < |es| && !ArrayKey(es[j].key, n) :: es[j].key
  }

  function SlotKeys(s: seq<Slot>): (keys: set<Key>)
    ensures forall key :: key in keys <==> exists x :: 0 <= x < |s| && s[x].Node? && s[x].key == key
  {
    set x | 0 <= x < |s| && s[x].Node? :: s[x].key
  }

  lemma {:induction false} FullCount(s: seq<Slot>)
    requires KeysUnique(s) && forall x :: 0 <= x < |s| ==> s[x].Node?
    ensures |SlotKeys(s)| == |s|
  {
    if s != [] {
      var n := |s| - 1;
      FullCount(s[..n]);
      KeysBefore(s);
      assert s[n].key !in SlotKeys(s[..n]);
    }
  }

  lemma {:induction false} SmallerSet<T>(a: set<T>, b: set<T>, x: T)
    requires a <= b && x in b && x !in a
    ensures |a| < |b|
    decreases a
  {
    if y :| y in a { SmallerSet(a - {y}, b - {y}, x); }
  }

  // As long as a key is missing there is a free slot.
  lemma RoomLeft(s: seq<Slot>, es: seq<Entry>, n: nat, key: Key) returns (x: nat)
    requires KeysUnique(s) && |s| == |HashKeys(es, n)| && SlotKeys(s) <= HashKeys(es, n)
    requires key in HashKeys(es, n) && key !in SlotKeys(s)
    ensures x < |s| && s[x].Free?
  {
    if forall y :: 0 <= y < |s| ==> s[y].Node? {
      FullCount(s);
      SmallerSet(SlotKeys(s), HashKeys(es, n), key);
      assert false;
    }
    x :| 0 <= x < |s| && s[x].Free?;
  }

  lemma KeysBefore(s: seq<Slot>)
    requires s != []
    ensures SlotKeys(s) == SlotKeys(s[..|s| - 1]) + (if s[|s| - 1].Node? then {s[|s| - 1].key} else {})
  {
    var n := |s| - 1;
    forall key | key in SlotKeys(s[..n]) ensures key in SlotKeys(s) {
      var x :| 0 <= x < n && s[..n][x].Node? && s[..n][x].key == key;
      assert s[x].Node? && s[x].key == key;
    }
    forall key | key in SlotKeys(s) ensures key in SlotKeys(s[..n]) || (s[n].Node? && s[n].key == key) {
      var x :| 0 <= x < |s| && s[x].Node? && s[x].key == key;
      if x < n { assert s[..n][x].Node? && s[..n][x].key == key; }
    }
  }

  lemma {:induction false} FewKeys(s: seq<Slot>)
    ensures |SlotKeys(s)| <= |s|
    ensures (exists x :: 0 <= x < |s| && s[x].Free?) ==> |SlotKeys(s)| < |s|
  {
    hide SlotKeys;
    if s == [] {
      NoSlotKeys();
    } else {
      var n := |s| - 1;
      FewKeys(s[..n]);
      KeysBefore(s);
      if s[n].Node? && exists x :: 0 <= x < |s| && s[x].Free? {
        var x :| 0 <= x < |s| && s[x].Free?;
        assert s[..n][x].Free?;
      }
    }
  }

  lemma NoSlotKeys()
    ensures SlotKeys([]) == {}
  {
  }

  lemma HashKeysNext(es: seq<Entry>, n: nat, j: nat)
    requires Distinct(es) && j < |es|
    ensures HashKeys(es[..j + 1], n) == HashKeys(es[..j], n) + (if ArrayKey(es[j].key, n) then {} else {es[j].key})
    ensures es[j].key !in HashKeys(es[..j], n)
  {
    var a, b := es[..j + 1], es[..j];
    forall key | key in HashKeys(a, n)
      ensures key in HashKeys(b, n) + (if ArrayKey(es[j].key, n) then {} else {es[j].key})
    {
      var i :| 0 <= i < |a| && a[i].key == key && !ArrayKey(key, n);
      if i < j { assert b[i].key == key; }
    }
    forall key | key in HashKeys(b, n) ensures key in HashKeys(a, n) {
      var i :| 0 <= i < |b| && b[i].key == key && !ArrayKey(key, n);
      assert a[i].key == key;
    }
    if !ArrayKey(es[j].key, n) { assert a[j].key == es[j].key; }
  }

  // `countsize`: how many keys go to the hash part.
  method CountSize(es: seq<Entry>, sizearray: nat) returns (n: nat)
    requires Distinct(es)
    ensures n == |HashKeys(es, sizearray)|
  {
    n := 0;
    for j := 0 to |es|
      invariant n == |HashKeys(es[..j], sizearray)|
    {
      HashKeysNext(es, sizearray, j);
      n := n + 1;
      if ArrayKey(es[j].key, sizearray) { n := n - 1; }
    }
    assert es[..|es|] == es;
  }

  // -------------------------------------------------------------------------
  // Filling
  // -------------------------------------------------------------------------

  // The array part after the first `j` entries.
  ghost predicate ArrayIs(a: seq<Option<Value>>, es: seq<Entry>) {
    |a| < 0x8000_0000 && forall i :: 0 <= i < |a| ==> a[i] == Lookup(es, IntKey(i + 1))
  }

  // The hash part while it is filled: every slot in use is in its chain.
  ghost predicate Filling(s: seq<Slot>, chains: seq<seq<nat>>, es: seq<Entry>, n: nat) {
    && Linked(s, chains) && KeysUnique(s) && From(s, es)
    && |s| == |HashKeys(es, n)| && SlotKeys(s) <= HashKeys(es, n)
  }

  // A main position is taken, by a key that belongs there.
  ghost predicate MainTaken(s: seq<Slot>, key: Key) {
    s != [] && s[MainOf(key, |s|)].Node? && MainOf(s[MainOf(key, |s|)].key, |s|) == MainOf(key, |s|)
  }

  // The first pass: all keys are where they belong, and the first `j` entries
  // find their main positions taken.
  ghost predicate FirstPass(s: seq<Slot>, es: seq<Entry>, n: nat, j: nat)
    requires j <= |es|
  {
    && (forall x :: 0 <= x < |s| && s[x].Node? ==> MainOf(s[x].key, |s|) == x)
    && (forall x :: 0 <= x < |s| && s[x].Node? ==> s[x].key in HashKeys(es[..j], n))
    && (forall i :: 0 <= i < j && !ArrayKey(es[i].key, n) ==> MainTaken(s, es[i].key))
  }

  lemma FirstPassStep(s: seq<Slot>, chains: seq<seq<nat>>, es: seq<Entry>, n: nat, j: nat)
    requires j < |es| && Distinct(es) && !ArrayKey(es[j].key, n)
    requires Filling(s, chains, es, n) && FirstPass(s, es, n, j) && s != [] && s[MainOf(es[j].key, |s|)].Free?
    ensures var m := MainOf(es[j].key, |s|);
            |chains| == |s| && Filling(AtMain(s, es[j]), chains[m := [m]], es, n) && FirstPass(AtMain(s, es[j]), es, n, j + 1)
  {
    hide KeyHash, Linked, HashKeys;
    var e := es[j];
    var m := MainOf(e.key, |s|);
    var r := AtMain(s, e);
    AtMainLinked(s, chains, e);
    HashKeysNext(es, n, j);
    assert e.key in HashKeys(es, n) by { assert es[j].key == e.key; }
    forall key | key in SlotKeys(r) ensures key in HashKeys(es, n) {
      var x :| 0 <= x < |r| && r[x].Node? && r[x].key == key;
      if x != m { assert s[x].key == key && key in SlotKeys(s); }
    }
    forall i | 0 <= i < j + 1 && !ArrayKey(es[i].key, n) ensures MainTaken(r, es[i].key) {
      if i < j { assert MainTaken(s, es[i].key); }
    }
  }

  lemma FirstPassSkip(s: seq<Slot>, es: seq<Entry>, n: nat, j: nat)
    requires j < |es| && Distinct(es) && FirstPass(s, es, n, j)
    requires !ArrayKey(es[j].key, n) ==> s != [] && s[MainOf(es[j].key, |s|)].Node?
    ensures FirstPass(s, es, n, j + 1)
  {
    hide KeyHash, HashKeys;
    HashKeysNext(es, n, j);
  }

  // The second pass: keys away from their main positions are among the first
  // `j` entries, and those have all been placed.
  ghost predicate SecondPass(s: seq<Slot>, es: seq<Entry>, n: nat, j: nat)
    requires j <= |es|
  {
    && (forall x :: 0 <= x < |s| && s[x].Node? && MainOf(s[x].key, |s|) != x ==> s[x].key in HashKeys(es[..j], n))
    && (forall i :: 0 <= i < |es| && !ArrayKey(es[i].key, n) ==> MainTaken(s, es[i].key))
    && (forall i :: 0 <= i < j && !ArrayKey(es[i].key, n) ==> es[i].key in SlotKeys(s))
  }

  // A key whose main position holds another key is not there yet.
  lemma NotYetPlaced(s: seq<Slot>, es: seq<Entry>, n: nat, j: nat)
    requires j < |es| && Distinct(es) && SecondPass(s, es, n, j) && !ArrayKey(es[j].key, n)
    requires s[MainOf(es[j].key, |s|)].key != es[j].key
    ensures es[j].key !in SlotKeys(s)
  {
    hide KeyHash, HashKeys;
    HashKeysNext(es, n, j);
    assert MainTaken(s, es[j].key);
  }

  // Which keys and values the slots hold then.
  lemma BehindAt(s: seq<Slot>, x: nat, e: Entry)
    requires x < |s| && s[x].Free? && s[MainOf(e.key, |s|)].Node?
    ensures var r := Behind(s, x, e);
            && |r| == |s| && r[x].Node? && r[x].key == e.key && r[x].value == e.value
            && (forall y :: 0 <= y < |s| && y != x ==>
                  && r[y].Node? == s[y].Node?
                  && (s[y].Node? ==> r[y].key == s[y].key && r[y].value == s[y].value))
  {
    hide KeyHash;
  }

  lemma BehindFills(s: seq<Slot>, chains: seq<seq<nat>>, es: seq<Entry>, n: nat, j: nat, x: nat)
    returns (c: seq<seq<nat>>)
    requires j < |es| && !ArrayKey(es[j].key, n) && x < |s| && s[x].Free?
    requires Filling(s, chains, es, n) && MainTaken(s, es[j].key) && es[j].key !in SlotKeys(s)
    ensures Filling(Behind(s, x, es[j]), c, es, n)
  {
    hide KeyHash, Linked, HashKeys, Behind;
    var e := es[j];
    c := BehindLinked(s, chains, x, e);
    ArrayOrHash(es, n, j);
    SameKeys(s, x, e);
    BehindAt(s, x, e);
    var r := Behind(s, x, e);
    forall y, z | 0 <= y < z < |r| && r[y].Node? && r[z].Node? ensures r[y].key != r[z].key {
      if y != x { assert s[y].key in SlotKeys(s); }
      if z != x { assert s[z].key in SlotKeys(s); }
    }
    assert es[j] == Entry(e.key, e.value);
  }

  lemma SecondPassStep(s: seq<Slot>, chains: seq<seq<nat>>, es: seq<Entry>, n: nat, j: nat, x: nat)
    returns (c: seq<seq<nat>>)
    requires j < |es| && Distinct(es) && !ArrayKey(es[j].key, n) && x < |s| && s[x].Free?
    requires Filling(s, chains, es, n) && SecondPass(s, es, n, j) && es[j].key !in SlotKeys(s)
    ensures MainTaken(s, es[j].key)
    ensures Filling(Behind(s, x, es[j]), c, es, n) && SecondPass(Behind(s, x, es[j]), es, n, j + 1)
  {
    hide KeyHash, Filling, HashKeys, Behind, SlotKeys;
    var e := es[j];
    assert MainTaken(s, e.key);
    c := BehindFills(s, chains, es, n, j, x);
    var r := Behind(s, x, e);
    HashKeysNext(es, n, j);
    BehindAt(s, x, e);
    SameKeys(s, x, e);
    forall i | 0 <= i < |es| && !ArrayKey(es[i].key, n) ensures MainTaken(r, es[i].key) {
      assert MainTaken(s, es[i].key);
    }
  }

  lemma SameKeys(s: seq<Slot>, x: nat, e: Entry)
    requires x < |s| && s[x].Free? && s[MainOf(e.key, |s|)].Node?
    ensures SlotKeys(Behind(s, x, e)) == SlotKeys(s) + {e.key}
  {
    hide KeyHash;
    var r := Behind(s, x, e);
    forall y | 0 <= y < |s| && s[y].Node? ensures s[y].key in SlotKeys(r) {
      assert r[y].Node? && r[y].key == s[y].key;
    }
    assert r[x].key == e.key;
    forall key | key in SlotKeys(r) ensures key in SlotKeys(s) + {e.key} {
      var y :| 0 <= y < |r| && r[y].Node? && r[y].key == key;
      if y != x { assert s[y].Node? && s[y].key == key; }
    }
  }

  // The finished hash part: as many slots as keys, all in use.
  ghost predicate Full(s: seq<Slot>, chains: seq<seq<nat>>, es: seq<Entry>, n: nat) {
    Filling(s, chains, es, n) && SlotKeys(s) == HashKeys(es, n) && forall x :: 0 <= x < |s| ==> s[x].Node?
  }

  lemma NowFull(s: seq<Slot>, chains: seq<seq<nat>>, es: seq<Entry>, n: nat)
    requires Filling(s, chains, es, n) && SecondPass(s, es, n, |es|)
    ensures Full(s, chains, es, n)
  {
    hide KeyHash, Linked;
    forall key | key in HashKeys(es, n) ensures key in SlotKeys(s) {
      var j :| 0 <= j < |es| && es[j].key == key && !ArrayKey(key, n);
    }
    assert SlotKeys(s) == HashKeys(es, n);
    FewKeys(s);
  }

  lemma NothingFilled(s: seq<Slot>, es: seq<Entry>, n: nat) returns (chains: seq<seq<nat>>)
    requires |s| == |HashKeys(es, n)| && forall x :: 0 <= x < |s| ==> s[x].Free?
    ensures Filling(s, chains, es, n) && FirstPass(s, es, n, 0)
  {
    chains := seq(|s|, _ => []);
    forall i | 0 <= i < |s| ensures ChainOk(s, chains[i], i) {
    }
  }

  lemma FirstPassDone(s: seq<Slot>, es: seq<Entry>, n: nat)
    requires FirstPass(s, es, n, |es|)
    ensures SecondPass(s, es, n, 0)
  {
    hide KeyHash, HashKeys;
  }

  lemma MainIsTaken(s: seq<Slot>, es: seq<Entry>, n: nat, j: nat)
    requires j < |es| && SecondPass(s, es, n, j) && !ArrayKey(es[j].key, n)
    ensures MainTaken(s, es[j].key)
  {
  }

  lemma SecondPassSkip(s: seq<Slot>, es: seq<Entry>, n: nat, j: nat)
    requires j < |es| && Distinct(es) && SecondPass(s, es, n, j)
    requires !ArrayKey(es[j].key, n) ==> s != [] && s[MainOf(es[j].key, |s|)].Node? && s[MainOf(es[j].key, |s|)].key == es[j].key
    ensures SecondPass(s, es, n, j + 1)
  {
    hide KeyHash, HashKeys;
    HashKeysNext(es, n, j);
  }

  // The search for a free slot finds one.
  lemma FreeSlot(s: seq<Slot>, chains: seq<seq<nat>>, es: seq<Entry>, n: nat, j: nat) returns (x: nat)
    requires j < |es| && Filling(s, chains, es, n) && !ArrayKey(es[j].key, n) && es[j].key !in SlotKeys(s)
    ensures x < |s| && s[x].Free?
  {
    hide KeyHash, Linked;
    assert es[j].key in HashKeys(es, n);
    x := RoomLeft(s, es, n, es[j].key);
  }

  lemma BehindIs(s: seq<Slot>, n: nat, e: Entry)
    requires n < |s| && s[n].Free? && s[MainOf(e.key, |s|)].Node?
    ensures var m := MainOf(e.key, |s|);
            Behind(s, n, e) == s[n := Node(e.key, KeyHash(e.key), s[m].next, false, e.value)]
                                [m := Node(s[m].key, s[m].keyhash, n, false, s[m].value)]
  {
    hide KeyHash;
  }

  lemma LookupNext(es: seq<Entry>, j: nat, key: Key)
    requires j < |es|
    ensures Lookup(es[..j + 1], key) == if es[j].key == key then Some(es[j].value) else Lookup(es[..j], key)
  {
    assert es[..j + 1][..j] == es[..j];
  }

  // -------------------------------------------------------------------------
  // Looking up
  // -------------------------------------------------------------------------

  // A slot that is marked as not colliding is alone in its chain.
  lemma AloneThere(s: seq<Slot>, chains: seq<seq<nat>>, key: Key, n: nat)
    requires Linked(s, chains) && n < |s| && n == MainOf(key, |s|) && s[n].Node? && s[n].nocolliding
    requires KeyHash(key) != s[n].keyhash
    ensures key !in SlotKeys(s)
  {
    hide KeyHash;
    assert SlotOk(s, chains, n);
    forall x | 0 <= x < |s| && s[x].Node? ensures s[x].key != key {
      assert SlotOk(s, chains, x);
    }
  }

  // The chain that a main position is in, and where; the key can only be
  // found if it is the chain of that position.
  lemma ChainStart(s: seq<Slot>, chains: seq<seq<nat>>, key: Key, n: nat) returns (i: nat, k: nat)
    requires Linked(s, chains) && n < |s| && n == MainOf(key, |s|) && forall x :: 0 <= x < |s| ==> s[x].Node?
    ensures i < |s| && k < |chains[i]| && chains[i][k] == n
    ensures forall x :: 0 <= x < |s| && s[x].key == key ==> i == n && x in chains[n][k..]
  {
    hide KeyHash;
    assert SlotOk(s, chains, n);
    i := MainOf(s[n].key, |s|);
    assert ChainOk(s, chains[n], n) && ChainOk(s, chains[i], i);
    if chains[n] != [] {
      assert LinkOk(s, chains[n], n, 0);
      k := 0;
      assert chains[n][0..] == chains[n];
    } else {
      k :| 0 <= k < |chains[i]| && chains[i][k] == n;
    }
    forall x | 0 <= x < |s| && s[x].key == key ensures i == n && x in chains[n][k..] {
      assert SlotOk(s, chains, x);
    }
  }

  lemma InSlot(s: seq<Slot>, es: seq<Entry>, n: nat)
    requires Distinct(es) && From(s, es) && n < |s| && s[n].Node?
    ensures Lookup(es, s[n].key) == Some(s[n].value)
  {
    var j :| 0 <= j < |es| && es[j] == Entry(s[n].key, s[n].value);
    LookupAt(es, j);
  }

  lemma Absent(s: seq<Slot>, es: seq<Entry>, n: nat, key: Key)
    requires SlotKeys(s) == HashKeys(es, n) && key !in SlotKeys(s) && !ArrayKey(key, n)
    ensures Lookup(es, key) == None
  {
    if Lookup(es, key).Some? {
      var j := LookupFinds(es, key);
      ArrayOrHash(es, n, j);
    }
  }

  lemma ArrayOrHash(es: seq<Entry>, n: nat, j: nat)
    requires j < |es|
    ensures ArrayKey(es[j].key, n) || es[j].key in HashKeys(es, n)
  {
  }

  // -------------------------------------------------------------------------
  // Visiting
  // -------------------------------------------------------------------------

  // The keys in use of the array part from index `i` on.
  function ArrayKeys(a: seq<Option<Value>>, i: nat): (r: seq<Key>)
    requires |a| < 0x8000_0000
    decreases |a| - i
  {
    if i >= |a| then [] else (if a[i].Some? then [IntKey(i + 1)] else []) + ArrayKeys(a, i + 1)
  }

  function KeysOf(s: seq<Slot>): (r: seq<Key>) {
    if s == [] then []
    else KeysOf(s[..|s| - 1]) + (if s[|s| - 1].Node? then [s[|s| - 1].key] else [])
  }

  function KeyAt(keys: seq<Key>, i: nat): Option<Key> {
    if i < |keys| then Some(keys[i]) else None
  }

  lemma {:induction false} KeysOfAt(s: seq<Slot>)
    requires forall x :: 0 <= x < |s| ==> s[x].Node?
    ensures |KeysOf(s)| == |s| && forall x :: 0 <= x < |s| ==> KeysOf(s)[x] == s[x].key
  {
    if s != [] { KeysOfAt(s[..|s| - 1]); }
  }

  // Behind the key of an index come the keys of the later ones.
  lemma {:induction false} ArrayKeysAt(a: seq<Option<Value>>, i: nat, j: nat)
    requires |a| < 0x8000_0000 && j < |ArrayKeys(a, i)|
    ensures var key := ArrayKeys(a, i)[j];
            key.IntKey? && i < key.k <= |a| && a[key.k - 1].Some? && ArrayKeys(a, i)[j + 1..] == ArrayKeys(a, key.k)
    decreases |a| - i
  {
    var rest := ArrayKeys(a, i + 1);
    if a[i].Some? {
      assert ArrayKeys(a, i) == [IntKey(i + 1)] + rest;
      if j > 0 { ArrayKeysAt(a, i + 1, j - 1); }
    } else {
      assert ArrayKeys(a, i) == rest;
      ArrayKeysAt(a, i + 1, j);
    }
  }

  lemma {:induction false} ArrayKeysHas(a: seq<Option<Value>>, i: nat, k: nat) returns (j: nat)
    requires i < k <= |a| < 0x8000_0000 && a[k - 1].Some?
    ensures j < |ArrayKeys(a, i)| && ArrayKeys(a, i)[j] == IntKey(k)
    decreases |a| - i
  {
    if i + 1 == k {
      j := 0;
    } else {
      j := ArrayKeysHas(a, i + 1, k);
      if a[i].Some? { j := j + 1; }
    }
  }

  // What the order holds: no key of the array part among the slots.
  ghost predicate Parts(a: seq<Option<Value>>, s: seq<Slot>, es: seq<Entry>, n: nat) {
    && |a| == n < 0x8000_0000 && KeysUnique(s) && SlotKeys(s) == HashKeys(es, n)
    && forall x :: 0 <= x < |s| ==> s[x].Node?
  }

  lemma SlotNotArray(a: seq<Option<Value>>, s: seq<Slot>, es: seq<Entry>, n: nat, x: nat)
    requires Parts(a, s, es, n) && x < |s|
    ensures !ArrayKey(s[x].key, n)
  {
    assert s[x].key in SlotKeys(s);
  }

  lemma AfterSlot(a: seq<Option<Value>>, s: seq<Slot>, es: seq<Entry>, n: nat, x: nat)
    requires Parts(a, s, es, n) && x < |s|
    ensures var order := ArrayKeys(a, 0) + KeysOf(s);
            forall i :: 0 <= i < |order| && order[i] == s[x].key ==>
              KeyAt(order, i + 1) == if x + 1 == |s| then None else Some(s[x + 1].key)
  {
    hide HashKeys, SlotKeys;
    var order := ArrayKeys(a, 0) + KeysOf(s);
    KeysOfAt(s);
    SlotNotArray(a, s, es, n, x);
    forall i | 0 <= i < |order| && order[i] == s[x].key
      ensures KeyAt(order, i + 1) == if x + 1 == |s| then None else Some(s[x + 1].key)
    {
      if i < |ArrayKeys(a, 0)| { ArrayKeysAt(a, 0, i); }
      var y := i - |ArrayKeys(a, 0)|;
      assert s[y].key == s[x].key;
      assert y == x;
    }
  }

  lemma NotVisited(a: seq<Option<Value>>, s: seq<Slot>, es: seq<Entry>, n: nat, key: Key)
    requires Parts(a, s, es, n) && !ArrayKey(key, n) && key !in SlotKeys(s)
    ensures key !in ArrayKeys(a, 0) + KeysOf(s)
  {
    hide HashKeys;
    var order := ArrayKeys(a, 0) + KeysOf(s);
    KeysOfAt(s);
    forall i | 0 <= i < |order| ensures order[i] != key {
      if i < |ArrayKeys(a, 0)| { ArrayKeysAt(a, 0, i); }
      else { assert s[i - |ArrayKeys(a, 0)|].key in SlotKeys(s); }
    }
  }

  // The first key from an index of the array part on.
  lemma FirstFrom(a: seq<Option<Value>>, s: seq<Slot>, i: nat)
    requires |a| < 0x8000_0000 && forall x :: 0 <= x < |s| ==> s[x].Node?
    ensures var first := KeyAt(ArrayKeys(a, i) + KeysOf(s), 0);
            if i >= |a| then first == if s == [] then None else Some(s[0].key)
            else if a[i].Some? then first == Some(IntKey(i + 1))
            else first == KeyAt(ArrayKeys(a, i + 1) + KeysOf(s), 0)
  {
    KeysOfAt(s);
  }

  lemma AfterArray(a: seq<Option<Value>>, s: seq<Slot>, es: seq<Entry>, n: nat, k: Int32)
    requires Parts(a, s, es, n) && 0 < k <= n
    ensures var order := ArrayKeys(a, 0) + KeysOf(s);
            forall i :: 0 <= i < |order| && order[i] == IntKey(k) ==>
              KeyAt(order, i + 1) == KeyAt(ArrayKeys(a, k) + KeysOf(s), 0)
  {
    hide HashKeys, SlotKeys;
    var order := ArrayKeys(a, 0) + KeysOf(s);
    KeysOfAt(s);
    forall i | 0 <= i < |order| && order[i] == IntKey(k)
      ensures KeyAt(order, i + 1) == KeyAt(ArrayKeys(a, k) + KeysOf(s), 0)
    {
      if i < |ArrayKeys(a, 0)| {
        ArrayKeysAt(a, 0, i);
        assert order[i + 1..] == ArrayKeys(a, k) + KeysOf(s);
      } else {
        SlotNotArray(a, s, es, n, i - |ArrayKeys(a, 0)|);
      }
    }
  }

  // Every key of the table is visited exactly once, and no other.
  lemma VisitsEachOnce(a: seq<Option<Value>>, s: seq<Slot>, es: seq<Entry>, n: nat)
    requires Parts(a, s, es, n) && ArrayIs(a, es)
    ensures var order := ArrayKeys(a, 0) + KeysOf(s);
            && (forall key :: key in order <==> Lookup(es, key).Some?)
            && (forall i, j :: 0 <= i < j < |order| ==> order[i] != order[j])
  {
    hide HashKeys, Lookup;
    var order := ArrayKeys(a, 0) + KeysOf(s);
    KeysOfAt(s);
    forall key | Lookup(es, key).Some? ensures key in order {
      if ArrayKey(key, n) {
        assert a[key.k - 1] == Lookup(es, key);
        var j := ArrayKeysHas(a, 0, key.k);
        assert order[j] == key;
      } else {
        if key !in SlotKeys(s) { Absent(s, es, n, key); }
        var x :| 0 <= x < |s| && s[x].Node? && s[x].key == key;
        assert order[|ArrayKeys(a, 0)| + x] == key;
      }
    }
    forall i | 0 <= i < |order| ensures Lookup(es, order[i]).Some? {
      VisitedIsThere(a, s, es, n, i);
    }
    forall i, j | 0 <= i < j < |order| ensures order[i] != order[j] {
      VisitedOnce(a, s, es, n, i, j);
    }
  }

  lemma VisitedIsThere(a: seq<Option<Value>>, s: seq<Slot>, es: seq<Entry>, n: nat, i: nat)
    requires Parts(a, s, es, n) && ArrayIs(a, es) && i < |ArrayKeys(a, 0) + KeysOf(s)|
    ensures Lookup(es, (ArrayKeys(a, 0) + KeysOf(s))[i]).Some?
  {
    KeysOfAt(s);
    if i < |ArrayKeys(a, 0)| {
      ArrayKeysAt(a, 0, i);
    } else {
      var x := i - |ArrayKeys(a, 0)|;
      assert s[x].key in SlotKeys(s);
      HashKeyIsThere(es, n, s[x].key);
    }
  }

  lemma {:induction false} HashKeyIsThere(es: seq<Entry>, n: nat, key: Key)
    requires key in HashKeys(es, n)
    ensures Lookup(es, key).Some?
  {
    var j :| 0 <= j < |es| && es[j].key == key && !ArrayKey(key, n);
    if j < |es| - 1 && es[|es| - 1].key != key {
      assert es[..|es| - 1][j].key == key;
      HashKeyIsThere(es[..|es| - 1], n, key);
    }
  }

  lemma VisitedOnce(a: seq<Option<Value>>, s: seq<Slot>, es: seq<Entry>, n: nat, i: nat, j: nat)
    requires Parts(a, s, es, n) && i < j < |ArrayKeys(a, 0) + KeysOf(s)|
    ensures (ArrayKeys(a, 0) + KeysOf(s))[i] != (ArrayKeys(a, 0) + KeysOf(s))[j]
  {
    hide HashKeys, SlotKeys;
    var keys := ArrayKeys(a, 0);
    KeysOfAt(s);
    if i < |keys| {
      ArrayKeysAt(a, 0, i);
      if j < |keys| {
        assert keys[j] == keys[i + 1..][j - i - 1];
        ArrayKeysAt(a, keys[i].k, j - i - 1);
      } else {
        SlotNotArray(a, s, es, n, j - |keys|);
      }
    }
  }

  class Table {
    var sizearray: nat
    var arr: array<Option<Value>>
    var hash: array<Slot>
    ghost var chains: seq<seq<nat>>

    // The table holds the entries `es`.
    ghost predicate Valid(es: seq<Entry>)
      reads this, arr, hash
    {
      && Distinct(es) && arr.Length == sizearray && ArrayIs(arr[..], es)
      && Full(hash[..], chains, es, sizearray)
    }

    // `convtable`
    constructor (es: seq<Entry>, sizearray: nat)
      requires Distinct(es) && sizearray < 0x8000_0000
      ensures Valid(es) && this.sizearray == sizearray && fresh(arr) && fresh(hash)
    {
      this.sizearray := sizearray;
      arr := new Option<Value>[sizearray](_ => None);
      hash := new Slot[0];
      new;
      var sizehash := CountSize(es, sizearray);
      hash := new Slot[sizehash](_ => Free);
      chains := NothingFilled(hash[..], es, sizearray);
      if sizehash > 0 {
        FillNoColliding(es);
        FillColliding(es);
      } else {
        FillArray(es);
      }
    }

    // The loop for a table without a hash part: `lua_rawgeti` and `setarray`.
    method FillArray(es: seq<Entry>)
      requires Distinct(es) && arr.Length == sizearray < 0x8000_0000
      requires Filling(hash[..], chains, es, sizearray) && hash.Length == 0
      modifies arr
      ensures Valid(es)
    {
      for i := 0 to arr.Length
        invariant forall k :: 0 <= k < i ==> arr[k] == Lookup(es, IntKey(k + 1))
      {
        arr[i] := Lookup(es, IntKey(i + 1));
      }
      FewKeys(hash[..]);
    }

    // `fillnocolliding`
    method FillNoColliding(es: seq<Entry>)
      requires Distinct(es) && arr.Length == sizearray < 0x8000_0000 && forall i :: 0 <= i < arr.Length ==> arr[i] == None
      requires Filling(hash[..], chains, es, sizearray) && FirstPass(hash[..], es, sizearray, 0) && hash.Length > 0
      modifies this`chains, arr, hash
      ensures Filling(hash[..], chains, es, sizearray) && FirstPass(hash[..], es, sizearray, |es|)
      ensures ArrayIs(arr[..], es)
    {
      hide KeyHash, Filling, FirstPass;
      for j := 0 to |es|
        invariant Filling(hash[..], chains, es, sizearray) && FirstPass(hash[..], es, sizearray, j)
        invariant ArrayIs(arr[..], es[..j])
      {
        var e := es[j];
        ghost var s := hash[..];
        if ArrayKey(e.key, sizearray) {
          FirstPassSkip(s, es, sizearray, j);
          ghost var a := arr[..];
          arr[e.key.k - 1] := Some(e.value);
          forall i | 0 <= i < arr.Length ensures arr[i] == Lookup(es[..j + 1], IntKey(i + 1)) {
            LookupNext(es, j, IntKey(i + 1));
          }
        } else {
          var m := MainOf(e.key, hash.Length);
          if hash[m].Free? {
            FirstPassStep(s, chains, es, sizearray, j);
            hash[m] := Node(e.key, KeyHash(e.key), -1, true, e.value);
            chains := chains[m := [m]];
            assert hash[..] == AtMain(s, e);
          } else {
            FirstPassSkip(s, es, sizearray, j);
          }
          forall i | 0 <= i < arr.Length ensures arr[i] == Lookup(es[..j + 1], IntKey(i + 1)) {
            LookupNext(es, j, IntKey(i + 1));
          }
        }
      }
      assert es[..|es|] == es;
    }

    // `fillcolliding`
    method FillColliding(es: seq<Entry>)
      requires Distinct(es) && arr.Length == sizearray && ArrayIs(arr[..], es) && hash.Length > 0
      requires Filling(hash[..], chains, es, sizearray) && FirstPass(hash[..], es, sizearray, |es|)
      modifies this`chains, hash
      ensures Valid(es)
    {
      hide KeyHash, Filling, FirstPass, SecondPass, Behind;
      var emptyslot := 0;
      FirstPassDone(hash[..], es, sizearray);
      for j := 0 to |es|
        invariant Filling(hash[..], chains, es, sizearray) && SecondPass(hash[..], es, sizearray, j)
        invariant emptyslot <= hash.Length && forall x :: 0 <= x < emptyslot ==> hash[x].Node?
      {
        var e := es[j];
        ghost var s := hash[..];
        if !ArrayKey(e.key, sizearray) {
          var m := MainOf(e.key, hash.Length);
          MainIsTaken(s, es, sizearray, j);
          if hash[m].key != e.key {
            NotYetPlaced(s, es, sizearray, j);
            ghost var room := FreeSlot(s, chains, es, sizearray, j);
            var n := emptyslot;
            while hash[n].Node?
              invariant emptyslot <= n <= room < hash.Length && hash[room].Free?
              invariant forall x :: 0 <= x < n ==> hash[x].Node?
              decreases room - n
            {
              n := n + 1;
            }
            emptyslot := n + 1;
            chains := SecondPassStep(s, chains, es, sizearray, j, n);
            BehindIs(s, n, e);
            hash[n] := Node(e.key, KeyHash(e.key), hash[m].next, false, e.value);
            hash[m] := Node(hash[m].key, hash[m].keyhash, n, false, hash[m].value);
            assert hash[..] == Behind(s, n, e);
          } else {
            SecondPassSkip(s, es, sizearray, j);
          }
        } else {
          SecondPassSkip(s, es, sizearray, j);
        }
      }
      NowFull(hash[..], chains, es, sizearray);
    }

    // `lookup_key`: the slot of a key, or -1.
    method LookupKey(key: Key, ghost es: seq<Entry>) returns (r: int)
      requires Valid(es)
      ensures r == -1 || 0 <= r < hash.Length
      ensures r >= 0 ==> hash[r].Node? && hash[r].key == key
      ensures r == -1 ==> key !in SlotKeys(hash[..])
    {
      hide KeyHash, HashKeys;
      if hash.Length == 0 { return -1; }
      var keyhash := KeyHash(key);
      ghost var s := hash[..];
      ghost var h := keyhash % hash.Length;
      var n := keyhash % hash.Length;
      if keyhash != hash[n].keyhash && hash[n].nocolliding {
        AloneThere(s, chains, key, n);
        return -1;
      }
      ghost var i, k := ChainStart(s, chains, key, n);
      while true
        invariant i < |s| && k < |chains[i]| && n == chains[i][k] && n < |s|
        invariant forall x :: 0 <= x < |s| && s[x].key == key ==> i == h && x in chains[h][k..]
        decreases |chains[i]| - k
      {
        assert SlotOk(s, chains, n) && ChainOk(s, chains[i], i) && LinkOk(s, chains[i], i, k);
        assert i == h ==> chains[h][k..] == [n] + chains[h][k + 1..];
        if keyhash == hash[n].keyhash && hash[n].key == key { return n; }
        if hash[n].next < 0 { return -1; }
        assert LinkOk(s, chains[i], i, k + 1);
        n := hash[n].next;
        k := k + 1;
      }
    }

    // `lindexconf`
    method Index(key: Key, ghost es: seq<Entry>) returns (r: Option<Value>)
      requires Valid(es)
      ensures r == Lookup(es, key)
    {
      hide KeyHash, HashKeys, Linked;
      if ArrayKey(key, sizearray) {
        return arr[key.k - 1];
      }
      var n := LookupKey(key, es);
      if n >= 0 {
        InSlot(hash[..], es, n);
        return Some(hash[n].value);
      }
      Absent(hash[..], es, sizearray, key);
      return None;
    }

    // The order in which the keys are visited: the array part, then the slots.
    ghost function Order(): seq<Key>
      requires arr.Length < 0x8000_0000
      reads this, arr, hash
    {
      ArrayKeys(arr[..], 0) + KeysOf(hash[..])
    }

    // `lnextkey`: without a key the first one, otherwise the next one.
    method NextKey(prev: Option<Key>, ghost es: seq<Entry>) returns (r: Option<Key>)
      requires Valid(es)
      ensures prev.None? ==> r == KeyAt(Order(), 0)
      ensures prev.Some? ==> forall i :: 0 <= i < |Order()| && Order()[i] == prev.value ==> r == KeyAt(Order(), i + 1)
    {
      hide KeyHash, HashKeys, Linked, KeysUnique, From, SlotKeys, KeysOf, ArrayKeys;
      var from := 0;
      assert Order() == ArrayKeys(arr[..], 0) + KeysOf(hash[..]);
      if prev.Some? {
        if !ArrayKey(prev.value, sizearray) {
          var n := LookupKey(prev.value, es);
          if n < 0 {
            NotVisited(arr[..], hash[..], es, sizearray, prev.value);
            return None;
          }
          AfterSlot(arr[..], hash[..], es, sizearray, n);
          assert hash[..][n].key == prev.value;
          r := if n + 1 == hash.Length then None else Some(hash[n + 1].key);
          assert n + 1 < hash.Length ==> hash[..][n + 1] == hash[n + 1];
          return;
        }
        from := prev.value.k;
        AfterArray(arr[..], hash[..], es, sizearray, prev.value.k);
      }
      var i := from;
      while i < sizearray
        invariant from <= i <= sizearray
        invariant KeyAt(ArrayKeys(arr[..], i) + KeysOf(hash[..]), 0) == KeyAt(ArrayKeys(arr[..], from) + KeysOf(hash[..]), 0)
      {
        FirstFrom(arr[..], hash[..], i);
        assert arr[..][i] == arr[i];
        if arr[i].Some? { return Some(IntKey(i + 1)); }
        i := i + 1;
      }
      FirstFrom(arr[..], hash[..], i);
      return if hash.Length == 0 then None else Some(hash[0].key);
    }
  }

  // A traversal of a converted table visits each of its keys once.
  lemma TraversalVisitsEachOnce(t: Table, es: seq<Entry>)
    requires t.Valid(es)
    ensures forall key :: key in t.Order() <==> Lookup(es, key).Some?
    ensures forall i, j :: 0 <= i < j < |t.Order()| ==> t.Order()[i] != t.Order()[j]
  {
    hide HashKeys, SlotKeys, Linked, KeysOf, ArrayKeys, Lookup;
    VisitsEachOnce(t.arr[..], t.hash[..], es, t.sizearray);
  }
}
