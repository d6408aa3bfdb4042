/** A `char *` to a C string that is never written through: the pointer is its identity. */
module Pointers {
  class CStr {
    const text: string

    constructor (text: string)
      ensures this.text == text
    {
      this.text := text;
    }
  }
}

/** What the dictionary stores: an insertion-ordered sequence of pointer pairs with distinct keys,
    and the map of texts it stands for. */
module DictionaryModel {
  import opened Strings
  import opened Pointers
  import opened LinkedLists

  datatype Entry = Entry(key: CStr, value: CStr)

  ghost predicate UniqueKeys(es: seq<Entry>) {
    forall i, j :: 0 <= i < j < |es| ==> es[i].key.text != es[j].key.text
  }

  ghost predicate HasKey(es: seq<Entry>, key: string) {
    exists i :: 0 <= i < |es| && es[i].key.text == key
  }

  /** Where the traversal of the source stops: the first entry with the key. */
  ghost function Position(es: seq<Entry>, key: string): (i: nat)
    ensures i <= |es|
    ensures i < |es| ==> es[i].key.text == key
    ensures forall j :: 0 <= j < i ==> es[j].key.text != key
    ensures i == |es| <==> !HasKey(es, key)
  {
    if es == [] then 0
    else if es[0].key.text == key then 0
    else
      var i := Position(es[1..], key);
      assert forall j :: 0 < j < |es| ==> es[j] == es[1..][j - 1];
      assert forall j :: 0 <= j < i ==> es[1..][j] == es[j + 1];
      i + 1
  }

  ghost function Put(es: seq<Entry>, key: CStr, value: CStr): seq<Entry> {
    var i := Position(es, key.text);
    if i < |es| then es[i := es[i].(value := value)] else es + [Entry(key, value)]
  }

  ghost function Remove(es: seq<Entry>, key: string): seq<Entry> {
    var i := Position(es, key);
    if i < |es| then Without(es, i) else es
  }

  ghost function Lookup(es: seq<Entry>, key: string): Option<CStr> {
    var i := Position(es, key);
    if i < |es| then Some(es[i].value) else None
  }

  ghost function KeyOrder(es: seq<Entry>): seq<string> {
    seq(|es|, i requires 0 <= i < |es| => es[i].key.text)
  }

  ghost function AsMap(es: seq<Entry>): map<string, string> {
    map k | k in KeyOrder(es) :: es[Position(es, k)].value.text
  }

  /** Every entry is what the map holds for its key, and the map holds nothing else. */
  lemma MapAt(es: seq<Entry>, i: nat)
    requires UniqueKeys(es) && i < |es|
    ensures Position(es, es[i].key.text) == i
    ensures es[i].key.text in AsMap(es) && AsMap(es)[es[i].key.text] == es[i].value.text
  {
    hide Position;
    assert HasKey(es, es[i].key.text);
    assert KeyOrder(es)[i] == es[i].key.text;
  }

  lemma MapHas(es: seq<Entry>, key: string) returns (i: nat)
    requires UniqueKeys(es) && key in AsMap(es)
    ensures i < |es| && es[i].key.text == key && AsMap(es)[key] == es[i].value.text
  {
    hide Position;
    i :| i < |es| && KeyOrder(es)[i] == key;
    MapAt(es, i);
  }

  /** Setting a key updates the map at that key, keeps the order of the keys, and puts a new key last. */
  lemma PutRefines(es: seq<Entry>, key: CStr, value: CStr)
    requires UniqueKeys(es)
    ensures UniqueKeys(Put(es, key, value))
    ensures AsMap(Put(es, key, value)) == AsMap(es)[key.text := value.text]
    ensures KeyOrder(Put(es, key, value)) ==
            if key.text in AsMap(es) then KeyOrder(es) else KeyOrder(es) + [key.text]
  {
    hide Position, AsMap;
    var put := Put(es, key, value);
    var p := Position(es, key.text);
    assert forall i :: 0 <= i < |es| ==> put[i].key == es[i].key;
    PositionInMap(es, key.text);
    assert UniqueKeys(put);
    MapAt(put, p);
    forall k | k in AsMap(put) && k != key.text ensures k in AsMap(es) && AsMap(es)[k] == AsMap(put)[k] {
      var i := MapHas(put, k);
      MapAt(es, i);
    }
    forall k | k in AsMap(es) && k != key.text ensures k in AsMap(put) {
      var i := MapHas(es, k);
      MapAt(put, i);
    }
  }

  lemma PositionInMap(es: seq<Entry>, key: string)
    ensures Position(es, key) < |es| <==> key in AsMap(es)
  {
    hide Position;
    assert forall i :: 0 <= i < |es| ==> KeyOrder(es)[i] == es[i].key.text;
    assert HasKey(es, key) <==> key in KeyOrder(es);
  }

  /** Deleting a key removes it from the map and leaves the order of the others. */
  lemma RemoveRefines(es: seq<Entry>, key: string)
    requires UniqueKeys(es)
    ensures UniqueKeys(Remove(es, key))
    ensures AsMap(Remove(es, key)) == AsMap(es) - {key}
    ensures KeyOrder(Remove(es, key)) ==
            if key in AsMap(es) then Without(KeyOrder(es), Position(es, key)) else KeyOrder(es)
  {
    hide Position, AsMap, Without;
    PositionInMap(es, key);
    var p := Position(es, key);
    if p < |es| {
      WithoutRefines(es, p);
    }
  }

  lemma WithoutRefines(es: seq<Entry>, p: nat)
    requires UniqueKeys(es) && p < |es|
    ensures UniqueKeys(Without(es, p))
    ensures AsMap(Without(es, p)) == AsMap(es) - {es[p].key.text}
    ensures KeyOrder(Without(es, p)) == Without(KeyOrder(es), p)
  {
    hide Position, AsMap, Without;
    var rest := Without(es, p);
    var key := es[p].key.text;
    forall k | k in AsMap(rest) ensures k in AsMap(es) && k != key && AsMap(es)[k] == AsMap(rest)[k] {
      var i := MapHas(rest, k);
      MapAt(es, if i < p then i else i + 1);
    }
    forall k | k in AsMap(es) && k != key ensures k in AsMap(rest) {
      var j := MapHas(es, k);
      MapAt(rest, if j < p then j else j - 1);
    }
  }

  lemma PutUnique(es: seq<Entry>, key: CStr, value: CStr)
    requires UniqueKeys(es)
    ensures UniqueKeys(Put(es, key, value))
  {
    PutRefines(es, key, value);
  }

  lemma RemoveUnique(es: seq<Entry>, key: string)
    requires UniqueKeys(es)
    ensures UniqueKeys(Remove(es, key))
  {
    RemoveRefines(es, key);
  }

  /** Looking up answers with what the map holds. */
  lemma LookupRefines(es: seq<Entry>, key: string)
    requires UniqueKeys(es)
    ensures Lookup(es, key).Some? <==> key in AsMap(es)
    ensures Lookup(es, key).Some? ==> Lookup(es, key).value.text == AsMap(es)[key]
  {
    hide Position, AsMap;
    PositionInMap(es, key);
    if Position(es, key) < |es| {
      MapAt(es, Position(es, key));
    }
  }

  // ---------------------------------------------------------------- runs

  datatype DictOp = OpSet(key: CStr, value: CStr) | OpDel(name: string)

  ghost function Run(es: seq<Entry>, ops: seq<DictOp>): seq<Entry>
    decreases ops
  {
    if ops == [] then es
    else
      var op := ops[0];
      Run(match op case OpSet(k, v) => Put(es, k, v) case OpDel(n) => Remove(es, n), ops[1..])
  }

  /** The same operations on a map of texts. */
  ghost function MapRun(m: map<string, string>, ops: seq<DictOp>): map<string, string>
    decreases ops
  {
    if ops == [] then m
    else
      var op := ops[0];
      MapRun(match op case OpSet(k, v) => m[k.text := v.text] case OpDel(n) => m - {n}, ops[1..])
  }

  /** Every sequence of sets and deletes leaves the map that the same operations make, with unique keys. */
  lemma {:induction false} RunsRefineMaps(es: seq<Entry>, ops: seq<DictOp>)
    requires UniqueKeys(es)
    ensures UniqueKeys(Run(es, ops)) && AsMap(Run(es, ops)) == MapRun(AsMap(es), ops)
    decreases ops
  {
    hide Put, Remove, AsMap, UniqueKeys, KeyOrder, Position;
    if ops != [] {
      match ops[0]
      case OpSet(k, v) =>
        PutRefines(es, k, v);
        RunsRefineMaps(Put(es, k, v), ops[1..]);
      case OpDel(n) =>
        RemoveRefines(es, n);
        RunsRefineMaps(Remove(es, n), ops[1..]);
    }
  }

  // ---------------------------------------------------------------- the pointers that are held

  ghost function KeyPointers(es: seq<Entry>): (ps: seq<CStr>)
    ensures |ps| == |es| && forall i :: 0 <= i < |es| ==> ps[i] == es[i].key
  {
    seq(|es|, i requires 0 <= i < |es| => es[i].key)
  }

  ghost function ValuePointers(es: seq<Entry>): (ps: seq<CStr>)
    ensures |ps| == |es| && forall i :: 0 <= i < |es| ==> ps[i] == es[i].value
  {
    seq(|es|, i requires 0 <= i < |es| => es[i].value)
  }

  ghost function Held(es: seq<Entry>): multiset<CStr> {
    multiset(KeyPointers(es)) + multiset(ValuePointers(es))
  }

  lemma WithoutMultiset<T>(s: seq<T>, i: nat)
    requires i < |s|
    ensures multiset(s) == multiset(Without(s, i)) + multiset{s[i]}
  {
    assert s == s[..i] + [s[i]] + s[i + 1..];
  }

  lemma HeldWithout(es: seq<Entry>, i: nat)
    requires i < |es|
    ensures Held(es) == Held(Without(es, i)) + multiset{es[i].key, es[i].value}
  {
    hide KeyPointers, ValuePointers;
    assert KeyPointers(Without(es, i)) == Without(KeyPointers(es), i);
    assert ValuePointers(Without(es, i)) == Without(ValuePointers(es), i);
    WithoutMultiset(KeyPointers(es), i);
    WithoutMultiset(ValuePointers(es), i);
  }

  lemma HeldReplace(es: seq<Entry>, i: nat, value: CStr)
    requires i < |es|
    ensures Held(es[i := es[i].(value := value)]) + multiset{es[i].value} == Held(es) + multiset{value}
  {
    hide KeyPointers, ValuePointers;
    var put := es[i := es[i].(value := value)];
    assert KeyPointers(put) == KeyPointers(es);
    assert ValuePointers(put) == ValuePointers(es)[i := value];
  }

  lemma HeldAppend(es: seq<Entry>, key: CStr, value: CStr)
    ensures Held(es + [Entry(key, value)]) == Held(es) + multiset{key, value}
  {
    hide KeyPointers, ValuePointers;
    var put := es + [Entry(key, value)];
    assert KeyPointers(put) == KeyPointers(es) + [key];
    assert ValuePointers(put) == ValuePointers(es) + [value];
  }

  /** With a callback, every pointer ever stored is either still held or was released, each as often
      as it was stored; without one nothing is ever released. */
  ghost predicate Balanced(hasFree: bool, stored: multiset<CStr>, released: multiset<CStr>, es: seq<Entry>) {
    if hasFree then stored == released + Held(es) else released == multiset{}
  }

  ghost function Release(hasFree: bool, released: multiset<CStr>, ps: multiset<CStr>): multiset<CStr> {
    if hasFree then released + ps else released
  }

  /** The pointers that a set stores. */
  ghost function Taken(es: seq<Entry>, key: CStr, value: CStr): multiset<CStr> {
    if Position(es, key.text) < |es| then multiset{value} else multiset{key, value}
  }

  /** The pointer that a set gives up. */
  ghost function Replaced(es: seq<Entry>, key: CStr): multiset<CStr> {
    var i := Position(es, key.text);
    if i < |es| then multiset{es[i].value} else multiset{}
  }

  lemma BalancedAppend(hasFree: bool, stored: multiset<CStr>, released: multiset<CStr>, es: seq<Entry>,
                       key: CStr, value: CStr)
    requires Balanced(hasFree, stored, released, es)
    ensures Balanced(hasFree, stored + multiset{key, value}, released, es + [Entry(key, value)])
  {
    hide Held;
    HeldAppend(es, key, value);
  }

  lemma BalancedReplace(hasFree: bool, stored: multiset<CStr>, released: multiset<CStr>, es: seq<Entry>,
                        i: nat, value: CStr)
    requires Balanced(hasFree, stored, released, es) && i < |es|
    ensures Balanced(hasFree, stored + multiset{value}, Release(hasFree, released, multiset{es[i].value}),
                     es[i := es[i].(value := value)])
  {
    hide Held;
    HeldReplace(es, i, value);
    if hasFree {
      Exchange(released, Held(es), Held(es[i := es[i].(value := value)]), multiset{es[i].value}, multiset{value});
    }
  }

  lemma Exchange(r: multiset<CStr>, h: multiset<CStr>, h': multiset<CStr>, a: multiset<CStr>, b: multiset<CStr>)
    requires h' + a == h + b
    ensures r + h + b == r + a + h'
  {
    assert r + h + b == r + (h + b);
    assert r + a + h' == r + (h' + a);
  }

  lemma ReleaseNothing(hasFree: bool, released: multiset<CStr>)
    ensures Release(hasFree, released, multiset{}) == released
  {
  }

  /** The pointers of the entry that a delete removes. */
  ghost function Gone(es: seq<Entry>, key: string): multiset<CStr> {
    var i := Position(es, key);
    if i < |es| then multiset{es[i].key, es[i].value} else multiset{}
  }

  lemma BalancedRemove(hasFree: bool, stored: multiset<CStr>, released: multiset<CStr>, es: seq<Entry>, i: nat)
    requires Balanced(hasFree, stored, released, es) && i < |es|
    ensures Balanced(hasFree, stored, Release(hasFree, released, multiset{es[i].key, es[i].value}), Without(es, i))
  {
    hide Held;
    HeldWithout(es, i);
  }

  lemma HeldAt(es: seq<Entry>, i: nat)
    requires i < |es|
    ensures multiset{es[i].key, es[i].value} <= Held(es) && multiset{es[i].value} <= Held(es)
  {
    hide Held;
    HeldWithout(es, i);
  }

  /** Where no pointer is stored twice, none is released twice and no entry holds a released one. */
  lemma ReleasedAtMostOnce(stored: multiset<CStr>, released: multiset<CStr>, es: seq<Entry>)
    requires Balanced(true, stored, released, es) && forall p :: p in stored ==> stored[p] == 1
    ensures forall p :: p in released ==> released[p] == 1
    ensures forall i :: 0 <= i < |es| ==>
              es[i].key !in released && es[i].value !in released && es[i].key != es[i].value
  {
    hide Held;
    forall p | p in released ensures released[p] == 1 {
      assert stored[p] == released[p] + Held(es)[p];
    }
    forall i | 0 <= i < |es|
      ensures es[i].key !in released && es[i].value !in released && es[i].key != es[i].value
    {
      HeldAt(es, i);
      var k, v := es[i].key, es[i].value;
      assert Held(es)[k] >= multiset{k, v}[k] && Held(es)[v] >= multiset{k, v}[v];
      assert stored[k] == released[k] + Held(es)[k] && stored[v] == released[v] + Held(es)[v];
    }
  }

  /** Once nothing is held, everything that was stored has been released exactly as often as it was stored. */
  lemma NothingHeld(hasFree: bool, stored: multiset<CStr>, released: multiset<CStr>)
    requires Balanced(hasFree, stored, released, [])
    ensures released == if hasFree then stored else multiset{}
  {
    assert KeyPointers([]) == [] && ValuePointers([]) == [];
  }
}

/** The singly linked dictionary of the C binding, refining that sequence, with a ledger of the
    pointers that were stored and of those that were handed to the free callback. */
module Dictionary {
  import opened Strings
  import opened Types
  import opened Pointers
  import opened LinkedLists
  import opened DictionaryModel

  class DictItem {
    const key: CStr
    var value: CStr
    var next: DictItem?

    constructor (key: CStr, value: CStr)
      ensures this.key == key && this.value == value && next == null
    {
      this.key := key;
      this.value := value;
      next := null;
    }
  }

  class Dict {
    const hasFree: bool
    var head: DictItem?
    ghost var spine: seq<DictItem>
    ghost var entries: seq<Entry>
    ghost var stored: multiset<CStr>
    ghost var released: multiset<CStr>
    ghost var Repr: set<object>

    /** `drmaa2_dict_create`. */
    constructor (hasFree: bool)
      ensures Valid() && fresh(Repr) && entries == [] && this.hasFree == hasFree
      ensures stored == multiset{} && released == multiset{}
    {
      this.hasFree := hasFree;
      head := null;
      spine := [];
      entries := [];
      stored := multiset{};
      released := multiset{};
      Repr := {this};
    }

    ghost function At(i: nat): DictItem?
      reads this
    {
      if i < |spine| then spine[i] else null
    }

    ghost predicate Chained()
      reads this, Repr
    {
      && this in Repr
      && (forall i :: 0 <= i < |spine| ==> spine[i] in Repr)
      && |spine| == |entries|
      && head == At(0)
      && (forall i, j :: 0 <= i < j < |spine| && j == i + 1 ==> spine[i].next == spine[j])
      && (spine != [] ==> spine[|spine| - 1].next == null)
      && (forall i :: 0 <= i < |spine| ==> spine[i].key == entries[i].key && spine[i].value == entries[i].value)
    }

    ghost predicate Valid()
      reads this, Repr
    {
      Chained() && UniqueKeys(entries) && Balanced(hasFree, stored, released, entries)
    }

    lemma NextIs(i: nat)
      requires Chained() && i < |spine|
      ensures spine[i].next == At(i + 1)
    {
    }

    lemma EntryIs(i: nat)
      requires Chained() && i < |spine|
      ensures |spine| == |entries| && entries[i] == Entry(spine[i].key, spine[i].value)
    {
    }

    lemma SameLength()
      requires Chained()
      ensures |spine| == |entries| && head == At(0) && this in Repr
    {
    }

    lemma {:induction false} Acyclic(i: nat, j: nat)
      requires Chained() && i < j < |spine|
      ensures spine[i] != spine[j]
      decreases |spine| - j
    {
      NextIs(i);
      NextIs(j);
      if j + 1 < |spine| {
        Acyclic(i + 1, j + 1);
      }
    }

    lemma UniqueAt(k: nat)
      requires Chained() && k < |spine|
      ensures forall i :: 0 <= i < |spine| && i != k ==> spine[i] != spine[k]
    {
      forall i | 0 <= i < |spine| && i != k ensures spine[i] != spine[k] {
        Acyclic(if i < k then i else k, if i < k then k else i);
      }
    }
  }

  ghost function ReprOf(d: Dict?): set<object>
    reads d
  {
    if d == null then {} else d.Repr
  }

  /** The traversal shared by get, has, set and del: the first item with the key and the one before it. */
  method Seek(d: Dict, key: string) returns (prev: DictItem?, current: DictItem?, ghost i: nat)
    requires d.Chained()
    ensures i == Position(d.entries, key) && current == d.At(i)
    ensures i <= |d.spine| == |d.entries|
    ensures prev == if i == 0 then null else d.spine[i - 1]
    ensures d in d.Repr && (current != null ==> current in d.Repr) && (prev != null ==> prev in d.Repr)
  {
    hide Position;
    prev := null;
    current := d.head;
    i := 0;
    while current != null && current.key.text != key
      invariant i <= |d.spine| && current == d.At(i)
      invariant prev == if i == 0 then null else d.spine[i - 1]
      invariant forall j :: 0 <= j < i ==> d.entries[j].key.text != key
      decreases |d.spine| - i
    {
      d.NextIs(i);
      prev := current;
      current := current.next;
      i := i + 1;
    }
  }

  method DictGet(d: Dict?, key: string) returns (r: Option<CStr>)
    requires d != null ==> d.Valid()
    ensures r == if d == null then None else Lookup(d.entries, key)
  {
    if d == null {
      return None;
    }
    var prev, current, i := Seek(d, key);
    r := if current != null then Some(current.value) else None;
  }

  method DictHas(d: Dict?, key: string) returns (r: bool)
    requires d != null ==> d.Valid()
    ensures r <==> d != null && HasKey(d.entries, key)
  {
    if d == null {
      return false;
    }
    var prev, current, i := Seek(d, key);
    r := current != null;
  }

  /** `drmaa2_dict_list`: a fresh list with a copy of each key, in insertion order. */
  method DictList(d: Dict?) returns (sl: List?<string>)
    requires d != null ==> d.Valid()
    ensures sl == null <==> d == null
    ensures sl != null ==> sl.Valid() && fresh(sl.Repr) && sl.contents == KeyOrder(d.entries)
  {
    if d == null {
      return null;
    }
    sl := CollectKeys(d);
  }

  method CollectKeys(d: Dict) returns (sl: List<string>)
    requires d.Chained()
    ensures sl.Valid() && fresh(sl.Repr) && sl.contents == KeyOrder(d.entries)
  {
    hide Dict.Chained;
    ghost var keys := KeyOrder(d.entries);
    d.SameLength();
    sl := new List<string>(true);
    var current := d.head;
    ghost var i := 0;
    while current != null
      invariant i <= |d.spine| == |keys| && current == d.At(i)
      invariant sl.Valid() && fresh(sl.Repr) && sl.contents == keys[..i]
      decreases |d.spine| - i
    {
      d.NextIs(i);
      d.EntryIs(i);
      var e := ListAdd(sl, current.key.text);
      current := current.next;
      i := i + 1;
    }
  }

  /** `drmaa2_dict_set`; see `Set` for what happens to the pointers. */
  method DictSet(d: Dict?, key: CStr, value: CStr) returns (e: Error)
    requires d != null ==> d.Valid()
    modifies ReprOf(d)
    ensures d == null ==> e == INVALID_ARGUMENT
    ensures d != null ==> e == SUCCESS && d.Valid() && fresh(d.Repr - old(d.Repr))
    ensures d != null ==> d.entries == Put(old(d.entries), key, value)
  {
    if d == null {
      return INVALID_ARGUMENT;
    }
    Set(d, key, value);
    e := SUCCESS;
  }

  ghost function Freed(key: CStr?, value: CStr?): multiset<CStr> {
    (if key == null then multiset{} else multiset{key}) + (if value == null then multiset{} else multiset{value})
  }

  /** A call of the free callback; NULL stands for a pointer that is not given up. What it is given was
      stored, and was not given to it as often as it was stored. */
  method FreeEntry(d: Dict, key: CStr?, value: CStr?)
    requires d.hasFree && d.Chained()
    requires d.released + Freed(key, value) <= d.stored
    modifies d`released
    ensures d.Chained() && d.released == old(d.released) + Freed(key, value)
  {
    d.released := d.released + Freed(key, value);
  }

  /** A set takes the value, and the key as well when it is new; a value it replaces is released. */
  method Set(d: Dict, key: CStr, value: CStr)
    requires d.Valid()
    modifies d.Repr
    ensures d.Valid() && fresh(d.Repr - old(d.Repr))
    ensures d.entries == Put(old(d.entries), key, value)
    ensures d.stored == old(d.stored) + Taken(old(d.entries), key, value)
    ensures d.released == Release(d.hasFree, old(d.released), Replaced(old(d.entries), key))
  {
    hide Held, Balanced, Release, UniqueKeys, HasKey, Position, Dict.Chained;
    var prev, current, i := Seek(d, key.text);
    PutUnique(d.entries, key, value);
    if current != null {
      ReplaceValue(d, current, i, value);
    } else {
      ReleaseNothing(d.hasFree, d.released);
      StoreNew(d, prev, key, value);
    }
  }

  /** The branch that has found the key: the old value is freed and the new one takes its place. */
  method ReplaceValue(d: Dict, item: DictItem, ghost i: nat, value: CStr)
    requires d.Chained() && i < |d.spine| && item == d.spine[i]
    requires Balanced(d.hasFree, d.stored, d.released, d.entries)
    modifies d`entries, d`stored, d`released, item`value
    ensures d.Chained() && Balanced(d.hasFree, d.stored, d.released, d.entries)
    ensures |old(d.spine)| == |old(d.entries)|
    ensures d.entries == old(d.entries[i := d.entries[i].(value := value)])
    ensures d.stored == old(d.stored) + multiset{value}
    ensures d.released == Release(d.hasFree, old(d.released), multiset{old(d.entries)[i].value})
  {
    hide Held, Balanced, Release, Dict.Chained;
    d.EntryIs(i);
    FreeReplaced(d, item, i, value);
    TakeIn(d, multiset{value});
    Replace(d, item, i, value);
  }

  /** The callback gets the old value; with the new one taken in, the ledger is balanced again. */
  method FreeReplaced(d: Dict, item: DictItem, ghost i: nat, ghost value: CStr)
    requires d.Chained() && i < |d.entries| && item.value == d.entries[i].value
    requires Balanced(d.hasFree, d.stored, d.released, d.entries)
    modifies d`released
    ensures d.Chained() && d.released == Release(d.hasFree, old(d.released), multiset{d.entries[i].value})
    ensures Balanced(d.hasFree, d.stored + multiset{value}, d.released,
                     d.entries[i := d.entries[i].(value := value)])
  {
    hide Held, Dict.Chained;
    HeldAt(d.entries, i);
    BalancedReplace(d.hasFree, d.stored, d.released, d.entries, i, value);
    if d.hasFree {
      FreeEntry(d, null, item.value);
    }
  }

  /** Records the pointers that a set stores; the chain is not touched. */
  ghost method TakeIn(d: Dict, ps: multiset<CStr>)
    requires d.Chained()
    modifies d`stored
    ensures d.Chained() && d.stored == old(d.stored) + ps
  {
    d.stored := d.stored + ps;
  }

  method Replace(d: Dict, item: DictItem, ghost i: nat, value: CStr)
    requires d.Chained() && i < |d.spine| && item == d.spine[i]
    modifies d`entries, item`value
    ensures d.Chained()
    ensures d.entries == old(d.entries[i := d.entries[i].(value := value)])
  {
    d.UniqueAt(i);
    item.value := value;
    d.entries := d.entries[i := d.entries[i].(value := value)];
  }

  /** The branch that has not: key and value go into a new item at the end. */
  method StoreNew(d: Dict, prev: DictItem?, key: CStr, value: CStr)
    requires d.Chained() && Balanced(d.hasFree, d.stored, d.released, d.entries)
    requires prev == if d.spine == [] then null else d.spine[|d.spine| - 1]
    modifies d`head, d`spine, d`entries, d`Repr, d`stored, if prev == null then {} else {prev}
    ensures d.Chained() && Balanced(d.hasFree, d.stored, d.released, d.entries)
    ensures fresh(d.Repr - old(d.Repr))
    ensures d.entries == old(d.entries) + [Entry(key, value)]
    ensures d.stored == old(d.stored) + multiset{key, value}
  {
    hide Held, Balanced, Dict.Chained;
    BalancedAppend(d.hasFree, d.stored, d.released, d.entries, key, value);
    TakeIn(d, multiset{key, value});
    Append(d, prev, key, value);
  }

  method Append(d: Dict, prev: DictItem?, key: CStr, value: CStr)
    requires d.Chained()
    requires prev == if d.spine == [] then null else d.spine[|d.spine| - 1]
    modifies d`head, d`spine, d`entries, d`Repr, if prev == null then {} else {prev}
    ensures d.Chained() && fresh(d.Repr - old(d.Repr))
    ensures d.entries == old(d.entries) + [Entry(key, value)]
  {
    var item := new DictItem(key, value);
    if prev == null {
      d.head := item;
    } else {
      d.UniqueAt(|d.spine| - 1);
      prev.next := item;
    }
    d.spine := d.spine + [item];
    d.entries := d.entries + [Entry(key, value)];
    d.Repr := d.Repr + {item};
  }

  /** `drmaa2_dict_del`; see `Delete` for what happens to the pointers. */
  method DictDel(d: Dict?, key: string) returns (e: Error)
    requires d != null ==> d.Valid()
    modifies ReprOf(d)
    ensures e == if d != null && HasKey(old(d.entries), key) then SUCCESS else INVALID_ARGUMENT
    ensures d != null ==> d.Valid() && d.Repr == old(d.Repr)
    ensures d != null ==> d.entries == Remove(old(d.entries), key)
  {
    if d == null {
      return INVALID_ARGUMENT;
    }
    var found := Delete(d, key);
    e := if found then SUCCESS else INVALID_ARGUMENT;
  }

  /** The entry that goes has both its pointers released. */
  method Delete(d: Dict, key: string) returns (found: bool)
    requires d.Valid()
    modifies d.Repr
    ensures found <==> HasKey(old(d.entries), key)
    ensures d.Valid() && d.Repr == old(d.Repr) && d.stored == old(d.stored)
    ensures d.entries == Remove(old(d.entries), key)
    ensures d.released == Release(d.hasFree, old(d.released), Gone(old(d.entries), key))
  {
    hide Held, Balanced, Release, UniqueKeys, HasKey, Position, Without, Dict.Chained;
    var prev, current, i := Seek(d, key);
    RemoveUnique(d.entries, key);
    found := current != null;
    if current != null {
      RemoveEntry(d, prev, current, i);
    } else {
      ReleaseNothing(d.hasFree, d.released);
    }
  }

  /** The branch that has found the key: the item is unlinked, then its pointers are freed. */
  method RemoveEntry(d: Dict, prev: DictItem?, current: DictItem, ghost i: nat)
    requires d.Chained() && i < |d.spine| && current == d.spine[i]
    requires Balanced(d.hasFree, d.stored, d.released, d.entries)
    requires prev == if i == 0 then null else d.spine[i - 1]
    modifies d`head, d`spine, d`entries, d`released, if prev == null then {} else {prev}
    ensures d.Chained() && Balanced(d.hasFree, d.stored, d.released, d.entries)
    ensures |old(d.spine)| == |old(d.entries)| && d.entries == Without(old(d.entries), i)
    ensures d.released == Release(d.hasFree, old(d.released),
                                  multiset{old(d.entries)[i].key, old(d.entries)[i].value})
  {
    hide Held, Balanced, Release, Dict.Chained, Without;
    ghost var es := d.entries;
    d.EntryIs(i);
    Unchain(d, prev, current, i);
    FreeUnlinked(d, current, es, i);
  }

  /** The call of the callback on the pointers of one entry. */
  method FreeUnlinked(d: Dict, current: DictItem, ghost es: seq<Entry>, ghost i: nat)
    requires d.Chained() && i < |es| && es[i] == Entry(current.key, current.value)
    requires Balanced(d.hasFree, d.stored, d.released, es)
    modifies d`released
    ensures d.Chained() && Balanced(d.hasFree, d.stored, d.released, Without(es, i))
    ensures d.released == Release(d.hasFree, old(d.released), multiset{es[i].key, es[i].value})
  {
    hide Held, Dict.Chained, Without;
    HeldAt(es, i);
    BalancedRemove(d.hasFree, d.stored, d.released, es, i);
    if d.hasFree {
      FreeEntry(d, current.key, current.value);
    }
  }

  method Unchain(d: Dict, prev: DictItem?, current: DictItem, ghost i: nat)
    requires d.Chained() && i < |d.spine| && current == d.spine[i]
    requires prev == if i == 0 then null else d.spine[i - 1]
    modifies d`head, d`spine, d`entries, if prev == null then {} else {prev}
    ensures d.Chained() && current.value == old(current.value)
    ensures d.entries == Without(old(d.entries), i)
  {
    if prev != null {
      UnchainInner(d, prev, current, i);
    } else {
      UnchainHead(d, current);
    }
  }

  method UnchainInner(d: Dict, prev: DictItem, current: DictItem, ghost i: nat)
    requires d.Chained() && 0 < i < |d.spine| && current == d.spine[i] && prev == d.spine[i - 1]
    modifies d`spine, d`entries, prev`next
    ensures d.Chained() && |old(d.entries)| == |old(d.spine)| && d.entries == Without(old(d.entries), i)
  {
    hide Without;
    ghost var spine := d.spine;
    ghost var behind := if i + 1 < |spine| then spine[i + 1] else null;
    d.NextIs(i);
    d.UniqueAt(i - 1);
    prev.next := current.next;
    d.spine := Without(d.spine, i);
    d.entries := Without(d.entries, i);
    assert d.spine[i - 1].next == behind;
    assert i < |d.spine| || d.spine[|d.spine| - 1] == spine[i - 1];
  }

  method UnchainHead(d: Dict, current: DictItem)
    requires d.Chained() && d.spine != [] && current == d.spine[0]
    modifies d`head, d`spine, d`entries
    ensures d.Chained() && |old(d.entries)| == |old(d.spine)| && d.entries == Without(old(d.entries), 0)
  {
    hide Without;
    d.NextIs(0);
    d.head := current.next;
    d.spine := Without(d.spine, 0);
    d.entries := Without(d.entries, 0);
  }

  /** `drmaa2_dict_free`: with a callback, everything that was ever stored has now been released. */
  method DictFree(d: Dict?) returns (ref: Dict?)
    requires d != null ==> d.Valid()
    modifies if d == null then {} else {d}
    ensures ref == null
    ensures d != null ==> d.stored == old(d.stored)
    ensures d != null ==> d.released == if d.hasFree then d.stored else multiset{}
  {
    ref := null;
    if d != null {
      FreeItems(d);
    }
  }

  method FreeItems(d: Dict)
    requires d.Valid()
    modifies d`released
    ensures d.released == if d.hasFree then d.stored else multiset{}
  {
    hide Held, Balanced, Without, UniqueKeys, Dict.Chained;
    ghost var es := d.entries;
    var head := d.head;
    ghost var i: nat := 0;
    d.SameLength();
    assert es[0..] == es;
    while head != null
      invariant i <= |d.spine| && head == d.At(i) && d.Chained()
      invariant Balanced(d.hasFree, d.stored, d.released, es[i..])
      decreases |d.spine| - i
    {
      var tmp := head;
      d.NextIs(i);
      head := head.next;
      FreeItem(d, tmp, es, i);
      i := i + 1;
    }
    assert es[i..] == [];
    NothingHeld(d.hasFree, d.stored, d.released);
  }

  /** The pointers of one item are freed. */
  method FreeItem(d: Dict, tmp: DictItem, ghost es: seq<Entry>, ghost i: nat)
    requires d.Chained() && i < |d.spine| && tmp == d.spine[i] && es == d.entries
    requires i <= |es| && Balanced(d.hasFree, d.stored, d.released, es[i..])
    modifies d`released
    ensures d.Chained() && i < |es| && Balanced(d.hasFree, d.stored, d.released, es[i + 1..])
  {
    hide Held, Dict.Chained, Without;
    d.EntryIs(i);
    FreeUnlinked(d, tmp, es[i..], 0);
    WithoutHead(es, i);
  }

  lemma WithoutHead(es: seq<Entry>, i: nat)
    requires i < |es|
    ensures Without(es[i..], 0) == es[i + 1..]
  {
  }
}
