/** The `reduce` that both flush loops use to group an array by hospital code:
    `acc[key(item)] ??= []; acc[key(item)].push(item)`, then iterated with
    `Object.entries`. Codes are taken to be non-numeric and not names of
    `Object.prototype` members, so the order is insertion order and `acc[code]`
    starts out undefined. */
module Grouping {

  datatype Group<T> = Group(key: string, items: seq<T>)

  /** The keys of a grouping, in iteration order. */
  function Keys<T>(gs: seq<Group<T>>): (ks: seq<string>)
    ensures |ks| == |gs|
    ensures forall i :: 0 <= i < |gs| ==> ks[i] == gs[i].key
  {
    seq(|gs|, i requires 0 <= i < |gs| => gs[i].key)
  }

  ghost predicate DistinctKeys<T>(gs: seq<Group<T>>)
  {
    forall i, j :: 0 <= i < j < |gs| ==> gs[i].key != gs[j].key
  }

  /** The items of `s` whose key is `k`, in their original order. */
  function WithKey<T>(s: seq<T>, key: T -> string, k: string): (r: seq<T>)
    ensures |r| <= |s|
  {
    if s == [] then []
    else WithKey(s[..|s| - 1], key, k) + (if key(s[|s| - 1]) == k then [s[|s| - 1]] else [])
  }

  /** Both directions of "the group for `k` holds exactly the items with key `k`". */
  lemma {:induction false} WithKeyMembers<T>(s: seq<T>, key: T -> string, k: string)
    ensures forall x :: x in WithKey(s, key, k) <==> x in s && key(x) == k
  {
    if s != [] {
      var init := s[..|s| - 1];
      WithKeyMembers(init, key, k);
      assert s == init + [s[|s| - 1]];
    }
  }

  /** `filter` keeps every copy: each item occurs in the group for `k` exactly as
      often as in `s` when its key is `k`, and not at all otherwise. */
  lemma {:induction false} WithKeyMultiset<T>(s: seq<T>, key: T -> string, k: string)
    ensures forall x :: multiset(WithKey(s, key, k))[x] == (if key(x) == k then multiset(s)[x] else 0)
  {
    if s != [] {
      var init := s[..|s| - 1];
      WithKeyMultiset(init, key, k);
      assert s == init + [s[|s| - 1]];
    }
  }

  /** `filter` keeps the order: the group of `a + b` is that of `a`, then that of `b`. */
  lemma {:induction false} WithKeyAppend<T>(a: seq<T>, b: seq<T>, key: T -> string, k: string)
    ensures WithKey(a + b, key, k) == WithKey(a, key, k) + WithKey(b, key, k)
  {
    if b != [] {
      var init := b[..|b| - 1];
      WithKeyAppend(a, init, key, k);
      assert (a + b)[..|a + b| - 1] == a + init;
    } else {
      assert a + b == a;
    }
  }

  lemma {:induction false} WithKeyAbsent<T>(s: seq<T>, key: T -> string, k: string)
    requires forall y :: y in s ==> key(y) != k
    ensures WithKey(s, key, k) == []
  {
    if s != [] {
      assert s[|s| - 1] in s;
      WithKeyAbsent(s[..|s| - 1], key, k);
    }
  }

  /** The index of the last item of `s` with key `k`, or -1 when there is none;
      an independent reference for "the latest item of a group". */
  function LastIndexOfKey<T>(s: seq<T>, key: T -> string, k: string): (r: int)
    ensures -1 <= r < |s|
    ensures r >= 0 ==> key(s[r]) == k
    ensures forall j :: r < j < |s| ==> key(s[j]) != k
  {
    if s == [] then -1
    else if key(s[|s| - 1]) == k then |s| - 1
    else LastIndexOfKey(s[..|s| - 1], key, k)
  }

  /** The position of the group with key `k`, or `|gs|` when there is none. */
  function IndexOfKey<T>(gs: seq<Group<T>>, k: string): (i: nat)
    ensures i <= |gs|
    ensures i < |gs| ==> gs[i].key == k
    ensures forall j :: 0 <= j < i ==> gs[j].key != k
  {
    if gs == [] then 0
    else if gs[0].key == k then 0
    else 1 + IndexOfKey(gs[1..], k)
  }

  /** One step of the reduce: append `x` to the group `k`, opening it if needed. */
  function Insert<T>(gs: seq<Group<T>>, k: string, x: T): seq<Group<T>>
  {
    var i := IndexOfKey(gs, k);
    if i == |gs| then gs + [Group(k, [x])] else gs[i := Group(k, gs[i].items + [x])]
  }

  /** The whole reduce. Each group holds exactly the items with its key, in order;
      no key occurs twice; every item's key has a group. */
  function GroupBy<T>(s: seq<T>, key: T -> string): (gs: seq<Group<T>>)
    ensures Represents(gs, s, key)
  {
    if s == [] then []
    else
      var prev := GroupBy(s[..|s| - 1], key);
      var x := s[|s| - 1];
      InsertStep(prev, s[..|s| - 1], key, x);
      assert s[..|s| - 1] + [x] == s;
      Insert(prev, key(x), x)
  }

  /** The invariant of the reduce's accumulator after it has consumed `s`. */
  ghost predicate Represents<T>(gs: seq<Group<T>>, s: seq<T>, key: T -> string)
  {
    && DistinctKeys(gs)
    && (forall i :: 0 <= i < |gs| ==> gs[i].items == WithKey(s, key, gs[i].key))
    && (forall i :: 0 <= i < |gs| ==> gs[i].items != [])
    && (forall x :: x in s ==> key(x) in Keys(gs))
  }

  lemma WithKeySnoc<T>(s: seq<T>, key: T -> string, x: T, k: string)
    ensures WithKey(s + [x], key, k) == WithKey(s, key, k) + (if key(x) == k then [x] else [])
  {
    assert (s + [x])[..|s + [x]| - 1] == s;
  }

  lemma InsertStep<T>(gs: seq<Group<T>>, s: seq<T>, key: T -> string, x: T)
    requires Represents(gs, s, key)
    ensures Represents(Insert(gs, key(x), x), s + [x], key)
  {
    var k := key(x);
    var s' := s + [x];
    var i := IndexOfKey(gs, k);
    var r := Insert(gs, k, x);
    forall j | 0 <= j < |r|
      ensures r[j].items == WithKey(s', key, r[j].key) && r[j].items != []
    {
      WithKeySnoc(s, key, x, r[j].key);
      if j == i && i == |gs| {
        forall y | y in s ensures key(y) != k {
          assert key(y) in Keys(gs);
        }
        WithKeyAbsent(s, key, k);
      }
    }
    forall y | y in s' ensures key(y) in Keys(r) {
      if y in s {
        assert key(y) in Keys(gs);
        var j :| 0 <= j < |gs| && gs[j].key == key(y);
        assert r[j].key == key(y);
      } else {
        assert r[i].key == key(y);
      }
    }
  }

  /** What the flush loops rely on: one group per distinct key, and the last
      item of each group is the last item of `s` carrying that key. */
  lemma {:induction false} GroupLast<T>(s: seq<T>, key: T -> string, k: string)
    ensures WithKey(s, key, k) == [] <==> LastIndexOfKey(s, key, k) == -1
    ensures WithKey(s, key, k) != [] ==>
      WithKey(s, key, k)[|WithKey(s, key, k)| - 1] == s[LastIndexOfKey(s, key, k)]
  {
    if s != [] {
      GroupLast(s[..|s| - 1], key, k);
    }
  }

  /** The group's latest item is the last item of `s` with the group's key. */
  ghost predicate EndsWithLatest<T>(s: seq<T>, key: T -> string, g: Group<T>)
  {
    var j := LastIndexOfKey(s, key, g.key);
    0 <= j && g.items != [] && g.items[|g.items| - 1] == s[j]
  }

  /** The grouping read as the flush loops read it: no key twice, every item's key
      present, and each group's latest item is the last item of `s` with that key. */
  lemma GroupByLatest<T>(s: seq<T>, key: T -> string)
    ensures (s == []) == (GroupBy(s, key) == [])
    ensures DistinctKeys(GroupBy(s, key))
    ensures forall x :: x in s ==> key(x) in Keys(GroupBy(s, key))
    ensures forall i :: 0 <= i < |GroupBy(s, key)| ==> EndsWithLatest(s, key, GroupBy(s, key)[i])
  {
    var gs := GroupBy(s, key);
    forall i | 0 <= i < |gs| ensures EndsWithLatest(s, key, gs[i]) {
      GroupLast(s, key, gs[i].key);
    }
    if s != [] {
      assert s[0] in s;
      assert key(s[0]) in Keys(gs);
    }
  }
}
