/**
 play.ts: which line item of a Play response counts, and the shared-secret compare.
 */
module PlayParsing {
  import opened Prelude

  /** A line item. Expiries are parsed dates. */
  datatype Item = Item(
    productId: string,
    expiry: int,
    orderId: Option<string>,       // latestSuccessfulOrderId
    deferredTo: Option<string>)    // deferredItemReplacement.productId

  predicate IsOurs(i: Item) { i.productId == "reebaplus_basic" || i.productId == "reebaplus_premium" }
  predicate IsHolder(i: Item) { i.deferredTo.Some? }
  predicate IsOwned(i: Item) { i.orderId.Some? }

  function Ours(items: seq<Item>): seq<Item> {
    if items == [] then []
    else (if IsOurs(items[0]) then [items[0]] else []) + Ours(items[1..])
  }

  /** Stable insertion of an item that stood before all of `sorted`. */
  function Insert(i: Item, sorted: seq<Item>): seq<Item> {
    if sorted == [] || i.expiry >= sorted[0].expiry then [i] + sorted
    else [sorted[0]] + Insert(i, sorted[1..])
  }

  /** The stable sort by descending expiry. */
  function Sort(items: seq<Item>): seq<Item> {
    if items == [] then [] else Insert(items[0], Sort(items[1..]))
  }

  function Find(items: seq<Item>, p: Item -> bool): Option<Item> {
    if items == [] then None else if p(items[0]) then Some(items[0]) else Find(items[1..], p)
  }

  /** `holder ?? owned ?? ours[0]` */
  function Pick(items: seq<Item>): Option<Item> {
    var ours := Sort(Ours(items));
    var holder := Find(ours, (i: Item) => IsHolder(i));
    var owned := Find(ours, (i: Item) => IsOwned(i));
    if holder.Some? then holder
    else if owned.Some? then owned
    else if ours != [] then Some(ours[0]) else None
  }

  // ---------------------------------------------------------------- the same choice, said directly

  const OUR_PRODUCTS := {"reebaplus_basic", "reebaplus_premium"}

  /** `i` is one of our products in `items`, and no other one with the property expires later. */
  ghost predicate LatestOf(items: seq<Item>, p: Item -> bool, i: Item) {
    && i in items && i.productId in OUR_PRODUCTS && p(i)
    && forall j :: j in items && j.productId in OUR_PRODUCTS && p(j) ==> j.expiry <= i.expiry
  }

  ghost predicate SomeOf(items: seq<Item>, p: Item -> bool) {
    exists j :: j in items && j.productId in OUR_PRODUCTS && p(j)
  }

  /**
   The latest-expiring item with a deferred replacement; without one, the latest-expiring
   item with a successful order; without one, the latest.
   */
  ghost predicate IsChoice(items: seq<Item>, i: Item) {
    if SomeOf(items, (j: Item) => j.deferredTo.Some?) then LatestOf(items, (j: Item) => j.deferredTo.Some?, i)
    else if SomeOf(items, (j: Item) => j.orderId.Some?) then LatestOf(items, (j: Item) => j.orderId.Some?, i)
    else LatestOf(items, (j: Item) => true, i)
  }

  predicate Descending(items: seq<Item>) {
    forall i, j :: 0 <= i < j < |items| ==> items[i].expiry >= items[j].expiry
  }

  lemma {:induction false} InsertMembers(i: Item, sorted: seq<Item>)
    ensures multiset(Insert(i, sorted)) == multiset{i} + multiset(sorted)
    ensures forall j :: j in Insert(i, sorted) ==> j == i || j in sorted
  {
    if sorted == [] || i.expiry >= sorted[0].expiry {
    } else {
      InsertMembers(i, sorted[1..]);
      assert sorted == [sorted[0]] + sorted[1..];
    }
  }

  lemma {:induction false} InsertSorts(i: Item, sorted: seq<Item>)
    requires Descending(sorted)
    ensures Descending(Insert(i, sorted))
  {
    if sorted == [] || i.expiry >= sorted[0].expiry {
    } else {
      InsertSorts(i, sorted[1..]);
      InsertMembers(i, sorted[1..]);
      var rest := Insert(i, sorted[1..]);
      assert forall j :: j in rest ==> j.expiry <= sorted[0].expiry;
    }
  }

  lemma {:induction false} SortSorts(items: seq<Item>)
    ensures Descending(Sort(items)) && multiset(Sort(items)) == multiset(items)
  {
    if items != [] {
      SortSorts(items[1..]);
      InsertSorts(items[0], Sort(items[1..]));
      InsertMembers(items[0], Sort(items[1..]));
      assert items == [items[0]] + items[1..];
    }
  }

  lemma {:induction false} OursMembers(items: seq<Item>)
    ensures forall i :: i in Ours(items) <==> i in items && IsOurs(i)
  {
    if items != [] {
      OursMembers(items[1..]);
    }
  }

  /** In a descending list the first match is a latest match. */
  lemma {:induction false} FindLatest(items: seq<Item>, p: Item -> bool)
    requires Descending(items)
    ensures Find(items, p).None? <==> forall j :: j in items ==> !p(j)
    ensures Find(items, p).Some? ==>
      var i := Find(items, p).value; i in items && p(i) && forall j :: j in items && p(j) ==> j.expiry <= i.expiry
  {
    if items != [] {
      assert items == [items[0]] + items[1..];
      FindLatest(items[1..], p);
    }
  }

  /** In our items, sorted, the first match is the latest one, and there is none only if nothing matches. */
  lemma FirstIsLatest(items: seq<Item>, ours: seq<Item>, p: Item -> bool, q: Item -> bool)
    requires Descending(ours) && forall i :: i in ours <==> i in items && i.productId in OUR_PRODUCTS
    requires forall i :: p(i) == q(i)
    ensures Find(ours, p).None? <==> !SomeOf(items, q)
    ensures Find(ours, p).Some? ==> LatestOf(items, q, Find(ours, p).value)
  {
    FindLatest(ours, p);
  }

  lemma OursByName(i: Item)
    ensures IsOurs(i) <==> i.productId in OUR_PRODUCTS
  {
  }

  lemma SortMembers(items: seq<Item>, i: Item)
    ensures i in Sort(items) <==> i in items
  {
    SortSorts(items);
    assert i in Sort(items) <==> i in multiset(Sort(items));
    assert i in items <==> i in multiset(items);
  }

  lemma SortedOurs(items: seq<Item>)
    ensures Descending(Sort(Ours(items)))
    ensures forall i :: i in Sort(Ours(items)) <==> i in items && i.productId in OUR_PRODUCTS
  {
    SortSorts(Ours(items));
    forall i
      ensures i in Sort(Ours(items)) <==> i in items && i.productId in OUR_PRODUCTS
    {
      SortMembers(Ours(items), i);
      OursMembers(items);
      OursByName(i);
    }
  }

  lemma FirstOfAll(items: seq<Item>, ours: seq<Item>)
    requires Descending(ours) && forall i :: i in ours <==> i in items && i.productId in OUR_PRODUCTS
    requires ours != []
    ensures LatestOf(items, (j: Item) => true, ours[0])
  {
    forall j | j in ours
      ensures j.expiry <= ours[0].expiry
    {
    }
  }

  /** Whatever the order and the ties, the code picks what the rule asks for, and nothing only when nothing is ours. */
  lemma PickIsChoice(items: seq<Item>)
    ensures Pick(items).None? <==> forall i :: i in items ==> i.productId !in OUR_PRODUCTS
    ensures Pick(items).Some? ==> IsChoice(items, Pick(items).value)
  {
    var ours := Sort(Ours(items));
    SortedOurs(items);
    FirstIsLatest(items, ours, (i: Item) => IsHolder(i), (j: Item) => j.deferredTo.Some?);
    FirstIsLatest(items, ours, (i: Item) => IsOwned(i), (j: Item) => j.orderId.Some?);
    if ours != [] {
      FirstOfAll(items, ours);
      assert ours[0] in ours;
    } else {
      assert forall i :: i in items ==> i.productId !in OUR_PRODUCTS;
    }
  }

  predicate DistinctExpiries(items: seq<Item>) {
    forall i, j :: i in items && j in items && IsOurs(i) && IsOurs(j) && i.expiry == j.expiry ==> i == j
  }

  /** With distinct expiries the order of the response does not matter. */
  lemma PickIgnoresOrder(items: seq<Item>, permuted: seq<Item>)
    requires DistinctExpiries(items) && multiset(items) == multiset(permuted)
    ensures Pick(items) == Pick(permuted)
  {
    forall i
      ensures i in items <==> i in permuted
    {
      assert i in items <==> i in multiset(items);
      assert i in permuted <==> i in multiset(permuted);
    }
    PickIsChoice(items);
    PickIsChoice(permuted);
  }

  // ---------------------------------------------------------------- secretMatches

  /** `diff |= a ^ b`: the difference stays once there, and appears exactly where the units differ. */
  method Accumulate(diff: bv16, a: bv16, b: bv16) returns (r: bv16)
    ensures r == 0 <==> diff == 0 && a == b
  {
    r := diff | (a ^ b);
  }

  /**
   The compare that does not stop at the first difference, over UTF-16 code units:
   true exactly for two equal, non-empty secrets.
   */
  method SecretMatches(expected: Option<seq<bv16>>, provided: Option<seq<bv16>>) returns (r: bool)
    ensures r <==> expected.Some? && expected == provided && expected.value != []
  {
    if expected.None? || expected.value == [] || provided.None? || provided.value == []
       || |expected.value| != |provided.value| {
      return false;
    }
    var e, p := expected.value, provided.value;
    var diff: bv16 := 0;
    for i := 0 to |e|
      invariant diff == 0 <==> SameUpTo(e, p, i)
    {
      diff := Accumulate(diff, e[i], p[i]);
    }
    assert SameUpTo(e, p, |e|) <==> e == p;
    return diff == 0;
  }

  predicate SameUpTo(e: seq<bv16>, p: seq<bv16>, n: nat)
    requires n <= |e| == |p|
  {
    forall k :: 0 <= k < n ==> e[k] == p[k]
  }
}
