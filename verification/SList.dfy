/** The singly linked list of libs/slist: a ring of items closed by a sentinel
    inside the list, a pointer to the last item, and an iterator that can unlink
    the item it stands on. Each operation is proved to be one on sequences. */
module SList {

  /** struct am_slist_item with the structure it is embedded in. */
  class Item<T(0)> {
    var next: Item?<T>
    var value: T

    constructor (value: T)
      ensures next == null && this.value == value
    {
      next := null;
      this.value := value;
    }

    constructor Sentinel()
    {
      next := null;
      value := *;
    }
  }

  ghost predicate NoDup<E>(s: seq<E>) {
    forall i, j :: 0 <= i < j < |s| ==> s[i] != s[j]
  }

  function Insert<E>(s: seq<E>, at: nat, x: E): seq<E>
    requires at < |s|
  {
    s[..at + 1] + [x] + s[at + 1..]
  }

  function Remove<E>(s: seq<E>, at: nat): seq<E>
    requires at < |s|
  {
    s[..at] + s[at + 1..]
  }

  lemma InsertNoDup<E>(s: seq<E>, at: nat, x: E)
    requires at < |s| && NoDup(s) && x !in s
    ensures NoDup(Insert(s, at, x))
  {
  }

  lemma RemoveTail<E>(s: seq<E>, at: nat)
    requires 0 < at < |s|
    ensures |Remove(s, at)| == |s| - 1 && Remove(s, at)[1..] == Remove(s[1..], at - 1)
  {
  }

  lemma RemoveNoDup<E>(s: seq<E>, at: nat)
    requires at < |s| && NoDup(s)
    ensures NoDup(Remove(s, at)) && forall x :: x in Remove(s, at) <==> x in s && x != s[at]
  {
    assert s == s[..at] + [s[at]] + s[at + 1..];
  }

  lemma ConcatNoDup<E>(s: seq<E>, t: seq<E>)
    requires NoDup(s) && NoDup(t) && forall x :: x in s ==> x !in t
    ensures NoDup(s + t)
  {
    assert forall i :: 0 <= i < |s| ==> s[i] in s;
  }

  /** Joining two rings leaves out the second one's sentinel. */
  lemma JoinRings<E>(r: seq<E>, q: seq<E>)
    requires NoDup(r) && NoDup(q) && q != [] && r != [] && forall x :: x in r ==> x !in q
    ensures var all := r + q[1..];
      && NoDup(all) && q[0] !in all
      && (forall x :: x in all <==> x in r || (x in q && x != q[0]))
      && all[1..] == r[1..] + q[1..] && all[0] == r[0]
      && all[|all| - 1] == (if |q| > 1 then q else r)[(if |q| > 1 then |q| else |r|) - 1]
  {
    assert q == [q[0]] + q[1..];
    ConcatNoDup(r, q[1..]);
  }

  /** Each item of a ring points to the next one. */
  ghost predicate Chained<T(0)>(ring: seq<Item<T>>)
    reads set x | x in ring
  {
    forall i :: 0 <= i < |ring| - 1 ==> ring[i].next == ring[i + 1]
  }

  /** The index after i, or before i, going round a ring of n. */
  function After(i: nat, n: nat): nat { if i + 1 < n then i + 1 else 0 }
  function Before(i: nat, n: nat): int { if i > 0 then i - 1 else n - 1 }

  class List<T(0)> {
    const sentinel: Item<T>
    var back: Item<T>
    /** the sentinel, then the items in order */
    ghost var ring: seq<Item<T>>

    ghost predicate Valid()
      reads this, ring
    {
      && |ring| > 0 && ring[0] == sentinel && back == ring[|ring| - 1]
      && NoDup(ring)
      && back.next == sentinel && Chained(ring)
    }

    ghost function Items(): seq<Item<T>>
      reads this
    {
      if ring == [] then [] else ring[1..]
    }

    /** am_slist_item_is_linked holds of every item of the list. */
    lemma InRing(x: Item<T>)
      requires Valid() && x in ring
      ensures x.next != null
    {
      var i :| 0 <= i < |ring| && ring[i] == x;
      assert i < |ring| - 1 ==> ring[i].next == ring[i + 1];
    }

    constructor ()
      ensures Valid() && Items() == [] && fresh(sentinel)
    {
      var s := new Item<T>.Sentinel();
      sentinel := s;
      back := s;
      ring := [s];
      new;
      s.next := s;
    }

    /** am_slist_init on a list already set up. */
    method Reset()
      modifies `back, `ring, sentinel`next
      ensures Valid() && ring == [sentinel]
    {
      sentinel.next := sentinel;
      back := sentinel;
      ring := [sentinel];
    }

    predicate IsEmpty()
      reads this, ring
      requires Valid()
      ensures IsEmpty() <==> Items() == []
    {
      assert |ring| > 1 ==> ring[0] != ring[1];
      sentinel.next == sentinel
    }

    /** `at` is where the item stands in the ring; 0 is the sentinel. */
    method PushAfter(item: Item<T>, newItem: Item<T>, ghost at: nat)
      requires Valid() && at < |ring| && item == ring[at] && newItem !in ring
      modifies `back, `ring, item`next, newItem`next
      ensures Valid() && ring == Insert(old(ring), at, newItem)
    {
      InsertNoDup(ring, at, newItem);
      newItem.next := item.next;
      item.next := newItem;
      ring := Insert(ring, at, newItem);
      if back == item {
        back := newItem;
      }
      forall i | 0 <= i < |ring| - 1
        ensures ring[i].next == ring[i + 1]
      {
        if i > at + 1 {
          assert ring[i] == old(ring)[i - 1];
        }
      }
    }

    /** The item popped keeps its `next`, so it still looks linked. */
    method PopAfter(item: Item<T>, ghost at: nat) returns (pop: Item?<T>)
      requires Valid() && at < |ring| && item == ring[at]
      modifies `back, `ring, item`next
      ensures Valid()
      ensures pop == null <==> at == old(|ring|) - 1
      ensures pop == null ==> ring == old(ring)
      ensures pop != null ==>
        && pop == old(ring[at + 1]) && ring == Remove(old(ring), at + 1)
        && pop !in ring && pop.next != null
    {
      assert at < |ring| - 1 ==> item.next == ring[at + 1] && ring[at + 1] != ring[0];
      var p := item.next;
      if p == sentinel {
        return null;
      }
      RemoveNoDup(ring, at + 1);
      assert p.next == if at + 1 == |ring| - 1 then sentinel else ring[at + 2];
      if back == p {
        back := item;
      }
      item.next := p.next;
      ring := Remove(ring, at + 1);
      forall i | 0 <= i < |ring| - 1
        ensures ring[i].next == ring[i + 1]
      {
        if i > at {
          assert ring[i] == old(ring)[i + 1];
        }
      }
      return p;
    }

    method PushFront(item: Item<T>)
      requires Valid() && item !in ring
      modifies `back, `ring, sentinel`next, item`next
      ensures Valid() && Items() == [item] + old(Items())
    {
      PushAfter(sentinel, item, 0);
    }

    method PushBack(item: Item<T>)
      requires Valid() && item !in ring
      modifies `back, `ring, back`next, item`next
      ensures Valid() && ring == old(ring) + [item] && Items() == old(Items()) + [item]
    {
      PushAfter(back, item, |ring| - 1);
    }

    method PopFront() returns (pop: Item?<T>)
      requires Valid()
      modifies `back, `ring, sentinel`next
      ensures Valid()
      ensures if old(Items()) == [] then pop == null && Items() == []
              else pop == old(Items())[0] && Items() == old(Items())[1..]
    {
      pop := PopAfter(sentinel, 0);
    }

    method Owns(item: Item<T>) returns (owns: bool)
      requires Valid()
      ensures owns <==> item in Items()
    {
      var next := sentinel.next;
      ghost var i := After(0, |ring|);
      while next != sentinel
        invariant 0 <= i < |ring| && next == ring[i]
        invariant item !in ring[1..if i == 0 then |ring| else i]
        decreases if i == 0 then 0 else |ring| - i
      {
        if next == item {
          return true;
        }
        next := next.next;
        i := After(i, |ring|);
      }
      return false;
    }

    ghost predicate FirstAt(item: Item<T>, i: nat, isFound: T -> bool)
      reads this, ring
    {
      i < |Items()| && Items()[i] == item && forall j :: 0 <= j < i ==> !isFound(Items()[j].value)
    }

    /** am_slist_find: the first item the callback accepts. */
    method Find(isFound: T -> bool) returns (found: Item?<T>)
      requires Valid()
      ensures found == null ==> forall x :: x in Items() ==> !isFound(x.value)
      ensures found != null ==> isFound(found.value) && exists i :: FirstAt(found, i, isFound)
    {
      var item := sentinel.next;
      ghost var i := After(0, |ring|);
      while item != sentinel && !isFound(item.value)
        invariant 0 <= i < |ring| && item == ring[i]
        invariant forall j :: 0 <= j < (if i == 0 then |ring| else i) - 1 ==> !isFound(Items()[j].value)
        decreases if i == 0 then 0 else |ring| - i
      {
        assert Items()[i - 1] == item;
        item := item.next;
        i := After(i, |ring|);
      }
      if item == sentinel {
        return null;
      }
      assert FirstAt(item, i - 1, isFound);
      return item;
    }

    /** The pointers of am_slist_append. */
    method Relink(from: List<T>)
      requires Valid() && from.Valid() && |from.ring| > 1
      requires forall x :: x in ring ==> x !in from.ring
      modifies `back, back`next, from.back`next
      ensures back == from.back && back.next == sentinel && Chained(ring + from.ring[1..])
    {
      ghost var n, r, q, mid, last := |ring|, ring, from.ring, back, from.back;
      assert mid in r && last in q;
      assert q[1] != q[0] && q[0].next == q[1];
      back.next := from.sentinel.next;
      back := from.back;
      from.back.next := sentinel;
      ghost var all := r + q[1..];
      forall i | 0 <= i < |all| - 1
        ensures all[i].next == all[i + 1]
      {
        if i < n - 1 {
          assert all[i] == r[i] && r[i] in r && r[i] != mid;
          assert r[i].next == r[i + 1];
        } else if i > n - 1 {
          assert all[i] == q[i - n + 1] && all[i + 1] == q[i - n + 2];
          assert q[i - n + 1] != last && q[i - n + 1] in q;
        }
      }
    }

    /** am_slist_append: all of `from` moves behind this list. */
    method Append(from: List<T>)
      requires Valid() && from.Valid() && from != this
      requires forall x :: x in ring ==> x !in from.ring
      modifies `back, `ring, from`back, from`ring, back`next, from.back`next, from.sentinel`next
      ensures Valid() && from.Valid()
      ensures ring == old(ring) + old(from.Items()) && from.ring == [from.sentinel]
      ensures Items() == old(Items()) + old(from.Items()) && from.Items() == []
      ensures forall x :: x in ring <==> x in old(ring) || (x in old(from.ring) && x != from.sentinel)
    {
      hide NoDup, Chained;
      ghost var r, q := ring, from.ring;
      JoinRings(r, q);
      if from.IsEmpty() {
        return;
      }
      Relink(from);
      ring := r + q[1..];
      assert from.sentinel !in ring;
      from.Reset();
    }
  }

  /** struct am_slist_iterator. `pos` is the place of `cur` in the ring. */
  class Cursor<T(0)> {
    var list: List<T>
    var cur: Item<T>
    var prev: Item?<T>
    ghost var pos: nat

    ghost predicate Valid()
      reads this, list, list.ring
    {
      && list.Valid() && pos < |list.ring| && cur == list.ring[pos]
      && (prev != null ==> prev == list.ring[Before(pos, |list.ring|)])
    }

    constructor (list: List<T>)
      requires list.Valid()
      ensures Valid() && this.list == list && pos == 0 && prev == null
    {
      this.list := list;
      cur := list.sentinel;
      prev := null;
      pos := 0;
    }

    method Init(list: List<T>)
      requires list.Valid()
      modifies `list, `cur, `prev, `pos
      ensures Valid() && this.list == list && pos == 0 && prev == null
    {
      this.list := list;
      cur := list.sentinel;
      prev := null;
      pos := 0;
    }

    /** The next item, or NULL once all have been passed. */
    method Next() returns (item: Item?<T>)
      requires Valid()
      modifies `cur, `prev, `pos
      ensures Valid() && prev == old(cur)
      ensures old(pos) + 1 < |list.ring| ==> item == list.ring[pos] && pos == old(pos) + 1
      ensures old(pos) + 1 == |list.ring| ==> item == null && pos == 0
    {
      assert pos + 1 < |list.ring| ==> cur.next == list.ring[pos + 1] && list.ring[pos + 1] != list.ring[0];
      prev := cur;
      cur := cur.next;
      pos := After(pos, |list.ring|);
      return if cur == list.sentinel then null else cur;
    }

    /** Unlinks the item Next just answered and steps back before it. */
    method Pop() returns (pop: Item<T>)
      requires Valid() && pos > 0 && prev != null
      modifies `cur, `prev, `pos, list`back, list`ring, prev`next, cur`next
      ensures Valid() && pop == old(cur) && pos == old(pos) - 1 && prev == null
      ensures list.ring == Remove(old(list.ring), old(pos))
      ensures pop.next == null && forall x :: x in list.ring <==> x in old(list.ring) && x != pop
    {
      ghost var r, at := list.ring, pos;
      pop := cur;
      RemoveNoDup(r, at);
      prev.next := pop.next;
      if list.back == pop {
        list.back := prev;
      }
      list.ring := Remove(r, at);
      forall i | 0 <= i < |list.ring| - 1
        ensures list.ring[i].next == list.ring[i + 1]
      {
        if i >= at {
          assert list.ring[i] == r[i + 1];
        }
      }
      pos := pos - 1;
      cur := prev;
      prev := null;
      pop.next := null;
    }

    /** Next, and Pop if the caller wants the item out. */
    method Turn(drop: bool) returns (item: Item?<T>)
      requires Valid()
      modifies `cur, `prev, `pos, list`back, list`ring, list.ring`next
      ensures Valid()
      ensures item == null <==> old(pos) + 1 == |old(list.ring)|
      ensures item == null ==> list.ring == old(list.ring) && pos == 0
      ensures item != null ==>
        && item == old(list.ring)[old(pos) + 1]
        && (if drop then list.ring == Remove(old(list.ring), old(pos) + 1) && pos == old(pos) && item.next == null
            else list.ring == old(list.ring) && pos == old(pos) + 1)
    {
      item := Next();
      if item != null && drop {
        assert prev in list.ring && cur in list.ring;
        var pop := Pop();
      }
    }

    /** After some turns of a walk over the ring r. */
    ghost predicate Between(r: seq<Item<T>>, drops: seq<bool>, visited: seq<Item<T>>)
      reads this, list, list.ring
    {
      Valid() && Walked(r, drops, |visited|, list.ring, pos) && visited == r[1..|visited| + 1]
    }

    /** After the whole walk. */
    ghost predicate Ended(r: seq<Item<T>>, drops: seq<bool>, visited: seq<Item<T>>)
      reads this, list, list.ring
    {
      && Valid() && |r| == |drops| + 1 && visited == r[1..]
      && list.Items() == Kept(r[1..], drops)
    }

    /** One turn of a walk over the items in `all`. */
    method WalkOn(ghost all: set<Item<T>>, ghost r: seq<Item<T>>, drops: seq<bool>, visited: seq<Item<T>>)
      returns (item: Item?<T>)
      requires Between(r, drops, visited) && forall x :: x in r <==> x in all
      modifies `cur, `prev, `pos, list`back, list`ring, all`next
      ensures if item == null then Ended(r, drops, visited)
              else |visited| < |drops| && Between(r, drops, visited + [item])
    {
      hide NoDup, Chained, Walked, Kept;
      ghost var k := |visited|;
      WalkTurn(r, drops, k, list.ring, pos);
      WalkedIn(r, drops, k, list.ring, pos);
      item := Turn(|visited| < |drops| && drops[|visited|]);
    }

    /** The walk of an iterator's user, from am_slist_iterator_init until Next answers
        NULL: each item is visited once, in order, and the list keeps the items that
        were not dropped on the way. */
    method Walk(drops: seq<bool>) returns (visited: seq<Item<T>>)
      requires Valid() && pos == 0 && |drops| == |list.Items()|
      modifies `cur, `prev, `pos, list`back, list`ring, list.ring`next
      ensures Valid()
      ensures visited == old(list.Items())
      ensures list.Items() == Kept(old(list.Items()), drops)
    {
      hide Between, Ended, NoDup, Chained, Walked, Kept;
      ghost var r, all := list.ring, set x | x in list.ring;
      WalkStarts(drops);
      visited := [];
      var item := WalkOn(all, r, drops, visited);
      while item != null
        invariant if item == null then Ended(r, drops, visited)
                  else |visited| < |drops| && Between(r, drops, visited + [item])
        decreases item != null, |drops| - |visited|
      {
        visited := visited + [item];
        item := WalkOn(all, r, drops, visited);
      }
      WalkEnds(r, drops, visited);
    }

    lemma WalkStarts(drops: seq<bool>)
      requires Valid() && pos == 0 && |drops| == |list.Items()|
      ensures Between(list.ring, drops, [])
    {
      WalkStart(list.ring, drops);
    }

    lemma WalkEnds(r: seq<Item<T>>, drops: seq<bool>, visited: seq<Item<T>>)
      requires Ended(r, drops, visited)
      ensures Valid() && |r| == |drops| + 1 && visited == r[1..] && list.Items() == Kept(r[1..], drops)
    {
    }
  }

  /** The items not dropped. */
  function Kept<E>(s: seq<E>, drops: seq<bool>): seq<E>
    requires |s| == |drops|
  {
    if s == [] then []
    else
      var n := |s| - 1;
      Kept(s[..n], drops[..n]) + if drops[n] then [] else [s[n]]
  }

  /** After k turns of a walk over r: the sentinel, what was kept, and the rest; the
      iterator stands on the last item kept. */
  ghost predicate Walked<E>(r: seq<E>, drops: seq<bool>, k: nat, ring: seq<E>, pos: nat) {
    && |r| == |drops| + 1 && k <= |drops|
    && ring == [r[0]] + Kept(r[1..k + 1], drops[..k]) + r[k + 1..]
    && pos == |Kept(r[1..k + 1], drops[..k])|
  }

  lemma WalkStart<E>(r: seq<E>, drops: seq<bool>)
    requires |r| == |drops| + 1
    ensures Walked(r, drops, 0, r, 0)
  {
    assert r == [r[0]] + [] + r[1..];
  }

  lemma WalkTurn<E>(r: seq<E>, drops: seq<bool>, k: nat, ring: seq<E>, pos: nat)
    requires Walked(r, drops, k, ring, pos)
    ensures |r| == |drops| + 1 && k <= |drops| && pos < |ring| && (pos + 1 == |ring| <==> k == |drops|)
    ensures k < |drops| ==>
      && ring[pos + 1] == r[k + 1]
      && (if drops[k] then Walked(r, drops, k + 1, Remove(ring, pos + 1), pos)
          else Walked(r, drops, k + 1, ring, pos + 1))
      && forall x :: x in Remove(ring, pos + 1) ==> x in ring
  {
    if k < |drops| {
      assert r[1..k + 2][..k] == r[1..k + 1] && drops[..k + 1][..k] == drops[..k];
      assert r[k + 1..] == [r[k + 1]] + r[k + 2..];
    }
  }

  lemma WalkedIn<E>(r: seq<E>, drops: seq<bool>, k: nat, ring: seq<E>, pos: nat)
    requires Walked(r, drops, k, ring, pos)
    ensures forall x :: x in ring ==> x in r
    ensures k == |drops| ==> ring != [] && ring[1..] == Kept(r[1..], drops)
  {
    KeptIn(r[1..k + 1], drops[..k]);
    if k == |drops| {
      assert r[1..k + 1] == r[1..] && drops[..k] == drops;
    }
  }

  lemma {:induction false} KeptIn<E>(s: seq<E>, drops: seq<bool>)
    requires |s| == |drops|
    ensures forall x :: x in Kept(s, drops) ==> x in s
  {
    if s != [] {
      KeptIn(s[..|s| - 1], drops[..|s| - 1]);
    }
  }
}
