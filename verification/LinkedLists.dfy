/** The singly linked list of the C binding, refining a sequence. */
module LinkedLists {
  import opened Strings
  import opened Types

  class Item<T> {
    var data: T
    var next: Item?<T>

    constructor (data: T)
      ensures this.data == data && next == null
    {
      this.data := data;
      next := null;
    }
  }

  class List<T> {
    const hasFree: bool
    var size: int
    var head: Item?<T>
    ghost var spine: seq<Item<T>>
    ghost var contents: seq<T>
    ghost var Repr: set<object>

    constructor (hasFree: bool)
      ensures Valid() && fresh(Repr) && contents == [] && this.hasFree == hasFree
    {
      this.hasFree := hasFree;
      size := 0;
      head := null;
      spine := [];
      contents := [];
      Repr := {this};
    }

    /** The item at a position of the chain, null behind its end. */
    ghost function At(i: nat): Item?<T>
      reads this
    {
      if i < |spine| then spine[i] else null
    }

    /** The chain from `head` visits the items of `spine` in order and ends; `size` is its length. */
    ghost predicate Valid()
      reads this, Repr
    {
      && this in Repr
      && (forall i :: 0 <= i < |spine| ==> spine[i] in Repr)
      && size == |spine| == |contents|
      && head == At(0)
      && (forall i, j :: 0 <= i < j < |spine| && j == i + 1 ==> spine[i].next == spine[j])
      && (spine != [] ==> spine[|spine| - 1].next == null)
      && (forall i :: 0 <= i < |spine| ==> spine[i].data == contents[i])
    }

    lemma NextIs(i: nat)
      requires Valid() && i < |spine|
      ensures spine[i].next == At(i + 1)
    {
    }

    /** No item is visited twice: the chain of a valid list has no cycle. */
    lemma {:induction false} Acyclic(i: nat, j: nat)
      requires Valid() && i < j < |spine|
      ensures spine[i] != spine[j]
      decreases |spine| - j
    {
      assert spine[i].next == spine[i + 1];
      if j + 1 < |spine| {
        assert spine[j].next == spine[j + 1];
        Acyclic(i + 1, j + 1);
      }
    }

    lemma UniqueAt(k: nat)
      requires Valid() && k < |spine|
      ensures forall i :: 0 <= i < |spine| && i != k ==> spine[i] != spine[k]
    {
      forall i | 0 <= i < |spine| && i != k ensures spine[i] != spine[k] {
        Acyclic(if i < k then i else k, if i < k then k else i);
      }
    }
  }

  ghost function ReprOf<T>(l: List?<T>): set<object>
    reads l
  {
    if l == null then {} else l.Repr
  }

  method ListSize<T>(l: List?<T>) returns (n: int)
    requires l != null ==> l.Valid()
    ensures n == if l == null then -1 else |l.contents|
  {
    if l == null {
      return -1;
    }
    n := l.size;
  }

  method ListGet<T>(l: List?<T>, pos: int) returns (r: Option<T>)
    requires l != null ==> l.Valid()
    ensures r == if l == null || pos < 0 || pos >= |l.contents| then None else Some(l.contents[pos])
  {
    if l == null {
      return None;
    }
    if pos < 0 || pos >= l.size {
      return None;
    }
    var current := Walk(l, pos);
    r := Some(current.data);
  }

  /** The loop that follows `next` a number of times from the head. */
  method Walk<T>(l: List<T>, steps: int) returns (current: Item<T>)
    requires l.Valid() && 0 <= steps < |l.spine|
    ensures current == l.spine[steps]
  {
    var item := l.head;
    for i := 0 to steps
      invariant item == l.At(i)
    {
      item := item.next;
    }
    current := item;
  }

  method ListAdd<T>(l: List?<T>, value: T) returns (e: Error)
    requires l != null ==> l.Valid()
    modifies ReprOf(l)
    ensures l == null ==> e == INVALID_ARGUMENT
    ensures l != null ==> l.Valid() && e == SUCCESS && l.contents == old(l.contents) + [value]
    ensures l != null ==> fresh(l.Repr - old(l.Repr))
  {
    if l == null {
      return INVALID_ARGUMENT;
    }
    var item := new Item(value);
    if l.head == null {
      l.head := item;
    } else {
      var current := l.head;
      ghost var i := 0;
      while current.next != null
        invariant 0 <= i < |l.spine| && current == l.spine[i]
        decreases |l.spine| - i
      {
        current := current.next;
        i := i + 1;
      }
      l.NextIs(i);
      l.UniqueAt(i);
      current.next := item;
    }
    l.size := l.size + 1;
    l.spine := l.spine + [item];
    l.Repr := l.Repr + {item};
    l.contents := l.contents + [value];
    e := SUCCESS;
  }

  /** The free callback, when there is one, is called once, on the datum that goes. */
  method ListDel<T>(l: List?<T>, pos: int) returns (e: Error, released: seq<T>)
    requires l != null ==> l.Valid()
    modifies ReprOf(l)
    ensures l == null || pos < 0 || pos >= |old(l.contents)| ==> e == INVALID_ARGUMENT && released == []
    ensures l != null ==> l.Valid() && l.Repr == old(l.Repr)
    ensures l != null && !(0 <= pos < |old(l.contents)|) ==> l.contents == old(l.contents)
    ensures l != null && 0 <= pos < |old(l.contents)| ==>
              && e == SUCCESS && l.contents == old(l.contents[..pos] + l.contents[pos + 1..])
              && released == if l.hasFree then [old(l.contents)[pos]] else []
  {
    released := [];
    if l == null {
      return INVALID_ARGUMENT, [];
    }
    if pos < 0 || pos >= l.size {
      return INVALID_ARGUMENT, [];
    }
    var datum: T;
    if pos == 0 {
      datum := UnlinkHead(l);
    } else {
      datum := UnlinkInner(l, pos);
    }
    if l.hasFree {
      released := [datum];
    }
    e := SUCCESS;
  }

  function Without<T>(s: seq<T>, pos: nat): (r: seq<T>)
    requires pos < |s|
    ensures |r| == |s| - 1
    ensures forall i :: 0 <= i < pos ==> r[i] == s[i]
    ensures forall i :: pos <= i < |r| ==> r[i] == s[i + 1]
  {
    s[..pos] + s[pos + 1..]
  }

  method UnlinkHead<T>(l: List<T>) returns (datum: T)
    requires l.Valid() && l.contents != []
    modifies l`head, l`size, l`spine, l`contents
    ensures l.Valid() && l.contents == Without(old(l.contents), 0) && datum == old(l.contents)[0]
  {
    hide Without;
    l.NextIs(0);
    var toDelete := l.head;
    l.head := toDelete.next;
    l.size := l.size - 1;
    l.spine := Without(l.spine, 0);
    l.contents := Without(l.contents, 0);
    datum := toDelete.data;
  }

  method UnlinkInner<T>(l: List<T>, pos: nat) returns (datum: T)
    requires l.Valid() && 0 < pos < |l.contents|
    modifies l`size, l`spine, l`contents, l.Repr - {l}
    ensures l.Valid() && l.contents == Without(old(l.contents), pos) && datum == old(l.contents)[pos]
  {
    hide Without;
    ghost var spine := l.spine;
    ghost var behind := if pos + 1 < |spine| then spine[pos + 1] else null;
    l.NextIs(pos - 1);
    l.NextIs(pos);
    l.UniqueAt(pos - 1);
    var current := Walk(l, pos - 1);
    var toDelete := current.next;
    current.next := toDelete.next;
    l.size := l.size - 1;
    l.spine := Without(l.spine, pos);
    l.contents := Without(l.contents, pos);
    datum := toDelete.data;
    assert l.spine[pos - 1].next == behind;
    assert pos < |l.spine| || l.spine[|l.spine| - 1] == spine[pos - 1];
  }

  /** `drmaa2_list_free`: the free callback, when there is one, runs once on each datum, in list order. */
  method ListFree<T>(l: List?<T>) returns (released: seq<T>, ref: List?<T>)
    requires l != null ==> l.Valid()
    ensures ref == null
    ensures released == if l == null || !l.hasFree then [] else l.contents
  {
    ref := null;
    released := [];
    if l == null {
      return;
    }
    var head := l.head;
    ghost var i := 0;
    while head != null
      invariant 0 <= i <= |l.spine| && head == l.At(i)
      invariant released == if l.hasFree then l.contents[..i] else []
      decreases |l.spine| - i
    {
      var tmp := head;
      head := tmp.next;
      if l.hasFree {
        released := released + [tmp.data];
      }
      i := i + 1;
    }
  }
}
