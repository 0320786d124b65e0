/** Subscriptions and the order of delivery in libs/event/event_async.c. */
module EventAsync {
  import opened Bit

  const HANDLERS_NUM_MAX: nat := 64

  type Mask8 = s: seq<bv8> | |s| == 8 witness [0, 0, 0, 0, 0, 0, 0, 0]

  lemma PutNumber(s: Mask8, h: nat)
    requires h < 64
    ensures Numbers(s[h / 8 := With(s[h / 8], h % 8)]) == Numbers(s) + {h}
  {
    SetBit(s[h / 8], h % 8);
    OneByte(s, h, With(s[h / 8], h % 8), true);
  }

  lemma CutNumber(s: Mask8, h: nat)
    requires h < 64
    ensures Numbers(s[h / 8 := Without(s[h / 8], h % 8)]) == Numbers(s) - {h}
  {
    ClearBit(s[h / 8], h % 8);
    OneByte(s, h, Without(s[h / 8], h % 8), false);
  }

  /** The module's global state: the subscriptions of each event and the handlers. */
  class Async<H> {
    /** sub[si].list */
    var sub: seq<Mask8>
    var handlers: map<nat, H>

    /** The handlers subscribed to an event. */
    ghost function Subscribers(si: nat): set<nat>
      reads this
      requires si < |sub|
    {
      Numbers(sub[si])
    }

    /** Only registered handlers are subscribed. */
    ghost predicate Valid()
      reads this
    {
      && (forall h :: h in handlers ==> h < HANDLERS_NUM_MAX)
      && forall si {:trigger sub[si]} :: 0 <= si < |sub| ==> Numbers(sub[si]) <= handlers.Keys
    }

    constructor (nsub: nat)
      ensures Valid() && |sub| == nsub && handlers == map[]
      ensures forall si :: 0 <= si < nsub ==> Subscribers(si) == {}
    {
      var none: Mask8 := [0, 0, 0, 0, 0, 0, 0, 0];
      sub := seq(nsub, _ => none);
      handlers := map[];
      new;
      forall n: nat | n < 64
        ensures n !in Numbers(none)
      {
        NoBits(0);
      }
    }

    method Subscribe(h: nat, si: nat)
      requires Valid() && h in handlers && si < |sub|
      modifies `sub
      ensures Valid() && |sub| == |old(sub)|
      ensures Subscribers(si) == old(Subscribers(si)) + {h}
      ensures forall i :: 0 <= i < |sub| && i != si ==> sub[i] == old(sub)[i]
    {
      PutNumber(sub[si], h);
      sub := sub[si := sub[si][h / 8 := With(sub[si][h / 8], h % 8)]];
    }

    method Unsubscribe(h: nat, si: nat)
      requires Valid() && h in handlers && si < |sub|
      modifies `sub
      ensures Valid() && |sub| == |old(sub)|
      ensures Subscribers(si) == old(Subscribers(si)) - {h}
      ensures forall i :: 0 <= i < |sub| && i != si ==> sub[i] == old(sub)[i]
    {
      CutNumber(sub[si], h);
      sub := sub[si := sub[si][h / 8 := Without(sub[si][h / 8], h % 8)]];
    }

    method UnsubscribeAll(h: nat)
      requires Valid() && h < HANDLERS_NUM_MAX
      modifies `sub
      ensures Valid() && |sub| == |old(sub)|
      ensures forall si :: 0 <= si < |sub| ==> Numbers(sub[si]) == Numbers(old(sub)[si]) - {h}
    {
      hide Numbers, With, Without;
      var i := 0;
      while i < |sub|
        invariant 0 <= i <= |sub| == |old(sub)| && Valid()
        invariant forall si :: 0 <= si < i ==> Numbers(sub[si]) == Numbers(old(sub)[si]) - {h}
        invariant forall si :: i <= si < |sub| ==> sub[si] == old(sub)[si]
      {
        CutNumber(sub[i], h);
        sub := sub[i := sub[i][h / 8 := Without(sub[i][h / 8], h % 8)]];
        i := i + 1;
      }
    }

    /** am_event_async_register_with_id */
    method Register(h: nat, handler: H)
      requires Valid() && h < HANDLERS_NUM_MAX && h !in handlers
      modifies `handlers
      ensures Valid() && handlers == old(handlers)[h := handler]
      ensures forall si :: 0 <= si < |sub| ==> h !in Numbers(sub[si])
    {
      handlers := handlers[h := handler];
    }

    /** am_event_async_unregister */
    method Unregister(h: nat)
      requires Valid() && h in handlers
      modifies this
      ensures Valid() && handlers == old(handlers) - {h} && |sub| == |old(sub)|
      ensures forall si :: 0 <= si < |sub| ==> Numbers(sub[si]) == Numbers(old(sub)[si]) - {h}
    {
      UnsubscribeAll(h);
      handlers := handlers - {h};
    }

    /** The loops of am_event_async_publish: the handlers called, in order. Each
        subscriber but the excluded one is called once, higher numbers first. */
    method CallOrder(si: nat, exclude: int) returns (order: seq<nat>)
      requires Valid() && si < |sub|
      ensures forall h: nat :: h in order <==> h in Subscribers(si) && h != exclude
      ensures forall j, k :: 0 <= j < k < |order| ==> order[j] > order[k]
      ensures order == Descending(Others(Subscribers(si), exclude), HANDLERS_NUM_MAX)
    {
      hide Called, Descending, Without, U8Msb, BitsOf, Numbers;
      assert forall h :: h in Numbers(sub[si]) ==> h in handlers;
      var list := sub[si];
      Nothing(Numbers(list), exclude);
      ghost var all := Numbers(list);
      order := [];
      var i := 8;
      while i > 0
        invariant 0 <= i <= 8 && |list| == 8
        invariant Called(order, all, Numbers(list), exclude)
        invariant forall n :: n in Numbers(list) ==> n / 8 < i
      {
        i := i - 1;
        while list[i] != 0
          invariant |list| == 8
          invariant Called(order, all, Numbers(list), exclude)
          invariant forall n :: n in Numbers(list) ==> n / 8 <= i
          decreases |Numbers(list)|
        {
          ghost var left := Numbers(list);
          var ind: nat;
          list, ind := ClearHighest(list, i);
          CallNext(order, all, left, exclude, ind);
          if exclude != ind && ind in handlers {
            order := order + [ind];
          }
        }
        NoneIn(list, i);
      }
      AllCalled(order, all, Numbers(list), exclude);
      assert forall k :: 0 <= k < |order| ==> order[k] in order;
      DescendingOnly(Others(all, exclude), order, HANDLERS_NUM_MAX);
    }
  }

  function Others(all: set<nat>, exclude: int): set<nat> {
    set h | h in all && h != exclude
  }

  /** The members of s below n, highest first. */
  function Descending(s: set<nat>, n: nat): seq<nat> {
    if n == 0 then [] else (if n - 1 in s then [n - 1] else []) + Descending(s, n - 1)
  }

  /** The members of s below n, each before the smaller ones. */
  ghost predicate Lists(s: set<nat>, order: seq<nat>, n: nat) {
    && (forall k :: 0 <= k < |order| ==> order[k] in s && order[k] < n)
    && (forall h: nat :: h in s && h < n ==> h in order)
    && (forall j, k :: 0 <= j < k < |order| ==> order[j] > order[k])
  }

  lemma ListsRest(s: set<nat>, order: seq<nat>, n: nat)
    requires n > 0 && Lists(s, order, n)
    ensures n - 1 in s ==> order != [] && order[0] == n - 1 && Lists(s, order[1..], n - 1)
    ensures n - 1 !in s ==> Lists(s, order, n - 1)
  {
    if n - 1 in s {
      assert n - 1 in order;
      assert order == [order[0]] + order[1..];
    }
  }

  lemma FirstListed(s: set<nat>, order: seq<nat>, n: nat)
    requires Lists(s, order, n)
    ensures order == [] || order[0] < n
  {
  }

  lemma {:induction false} DescendingOnly(s: set<nat>, order: seq<nat>, n: nat)
    requires Lists(s, order, n)
    ensures order == Descending(s, n)
  {
    hide Lists;
    FirstListed(s, order, n);
    if n > 0 {
      ListsRest(s, order, n);
      DescendingOnly(s, if n - 1 in s then order[1..] else order, n - 1);
      assert n - 1 in s ==> order == [order[0]] + order[1..];
    }
  }

  /** Takes the highest number, which lies in the highest non-zero byte. */
  method ClearHighest(list: Mask8, i: nat) returns (rest: Mask8, ind: nat)
    requires i < 8 && list[i] != 0
    requires forall n :: n in Numbers(list) ==> n / 8 <= i
    ensures ind in Numbers(list) && forall n :: n in Numbers(list) ==> n <= ind
    ensures Numbers(rest) == Numbers(list) - {ind} && |Numbers(rest)| < |Numbers(list)|
  {
    hide Without, U8Msb, BitsOf, Numbers;
    var msb := U8Msb(list[i]);
    ind := 8 * i + msb;
    HighestOf(list, i);
    CutNumber(list, ind);
    rest := list[i := Without(list[i], msb)];
  }

  /** The handlers called are the subscribers that are not left, but the excluded
      one; they come in descending order, all above those left. */
  ghost predicate Called(order: seq<nat>, all: set<nat>, left: set<nat>, exclude: int) {
    && left <= all
    && (forall h: nat :: h in order <==> h in all && h !in left && h != exclude)
    && (forall j, k :: 0 <= j < k < |order| ==> order[j] > order[k])
    && (forall h, n :: h in order && n in left ==> h > n)
  }

  lemma Nothing(all: set<nat>, exclude: int)
    ensures Called([], all, all, exclude)
  {
  }

  lemma CallNext(order: seq<nat>, all: set<nat>, left: set<nat>, exclude: int, ind: nat)
    requires Called(order, all, left, exclude) && ind in left && forall n :: n in left ==> n <= ind
    ensures ind in all && Called(if exclude != ind then order + [ind] else order, all, left - {ind}, exclude)
  {
    assert forall j :: 0 <= j < |order| ==> order[j] in order;
  }

  lemma AllCalled(order: seq<nat>, all: set<nat>, left: set<nat>, exclude: int)
    requires Called(order, all, left, exclude)
    ensures left == {} ==> forall h: nat :: h in order <==> h in all && h != exclude
    ensures forall j, k :: 0 <= j < k < |order| ==> order[j] > order[k]
  {
  }

  lemma HighestOf(list: Mask8, i: nat)
    requires i < 8 && list[i] != 0
    requires forall n :: n in Numbers(list) ==> n / 8 <= i
    ensures var m := 8 * i + U8Msb(list[i]);
      m / 8 == i && m % 8 == U8Msb(list[i]) && m in Numbers(list) && forall n :: n in Numbers(list) ==> n <= m
  {
    var k := U8Msb(list[i]);
    var m := 8 * i + k;
    assert m / 8 == i && m % 8 == k;
    assert k in BitsOf(list[i]);
    forall n | n in Numbers(list)
      ensures n <= m
    {
      if n / 8 == i {
        assert n % 8 in BitsOf(list[i]);
      }
    }
  }

  lemma NoneIn(list: Mask8, i: nat)
    requires i < 8 && list[i] == 0
    ensures forall n :: n in Numbers(list) ==> n / 8 != i
  {
    NoBits(list[i]);
  }
}
