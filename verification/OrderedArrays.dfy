/** The array that keeps its items in order: kernel/memory/ordered_array.c. */
module OrderedArrays {
  import opened Words

  /** How many items from the start are less than the new one. */
  function Place(s: seq<u32>, item: u32, less: (u32, u32) -> bool): (i: nat)
    ensures i <= |s| && (forall j :: 0 <= j < i ==> less(s[j], item)) && (i < |s| ==> !less(s[i], item))
  {
    if s == [] || !less(s[0], item) then 0 else 1 + Place(s[1..], item, less)
  }

  lemma {:induction false} PlaceAt(s: seq<u32>, item: u32, less: (u32, u32) -> bool, i: nat)
    requires i <= |s| && (forall j :: 0 <= j < i ==> less(s[j], item)) && (i < |s| ==> !less(s[i], item))
    ensures Place(s, item, less) == i
  {
    if i > 0 {
      PlaceAt(s[1..], item, less, i - 1);
    }
  }

  /** s with the item put in at its place. */
  function Inserted(s: seq<u32>, item: u32, less: (u32, u32) -> bool): (r: seq<u32>)
    ensures |r| == |s| + 1
  {
    s[..Place(s, item, less)] + [item] + s[Place(s, item, less)..]
  }

  lemma InsertedIs(s: seq<u32>, item: u32, less: (u32, u32) -> bool, i: nat, r: seq<u32>)
    requires i <= |s| && (forall j :: 0 <= j < i ==> less(s[j], item)) && (i < |s| ==> !less(s[i], item))
    requires |r| == |s| + 1 && r[i] == item && (forall j :: 0 <= j < i ==> r[j] == s[j])
    requires forall j :: i < j < |r| ==> r[j] == s[j - 1]
    ensures r == Inserted(s, item, less)
  {
    PlaceAt(s, item, less, i);
  }

  /** s without its i-th item. */
  function Omitted(s: seq<u32>, i: nat): (r: seq<u32>)
    requires i < |s|
    ensures |r| == |s| - 1
  {
    s[..i] + s[i + 1..]
  }

  /** One item more, or one less. */
  lemma InsertedItems(s: seq<u32>, item: u32, less: (u32, u32) -> bool)
    ensures multiset(Inserted(s, item, less)) == multiset(s) + multiset{item}
  {
    var i := Place(s, item, less);
    assert s == s[..i] + s[i..];
  }

  lemma RemovedItems(s: seq<u32>, i: nat)
    requires i < |s|
    ensures multiset(Omitted(s, i)) == multiset(s) - multiset{s[i]}
  {
    assert s == s[..i] + [s[i]] + s[i + 1..];
  }

  /** No item is less than an earlier one. */
  ghost predicate Sorted(s: seq<u32>, less: (u32, u32) -> bool) {
    forall i, j :: 0 <= i < j < |s| ==> !less(s[j], s[i])
  }

  /** less compares by some rank. */
  ghost predicate Ranked(less: (u32, u32) -> bool, rank: u32 -> int) {
    forall a, b :: less(a, b) <==> rank(a) < rank(b)
  }

  /** Insertion and removal keep the order. */
  lemma InsertedSorted(s: seq<u32>, item: u32, less: (u32, u32) -> bool, rank: u32 -> int)
    requires Sorted(s, less) && Ranked(less, rank)
    ensures Sorted(Inserted(s, item, less), less)
  {
    var i, r := Place(s, item, less), Inserted(s, item, less);
    assert r == s[..i] + [item] + s[i..];
    hide Inserted, Place;
    forall j, k | 0 <= j < k < |r| ensures !less(r[k], r[j]) {
      if j == i {
        assert rank(item) <= rank(s[i]) && (k - 1 == i || !less(s[k - 1], s[i]));
      } else if k < i {
        assert !less(s[k], s[j]);
      } else if k == i {
        assert less(s[j], item);
      } else {
        assert !less(s[k - 1], if j < i then s[j] else s[j - 1]);
      }
    }
  }

  lemma RemovedSorted(s: seq<u32>, i: nat, less: (u32, u32) -> bool)
    requires Sorted(s, less) && i < |s|
    ensures Sorted(Omitted(s, i), less)
  {
    var r := Omitted(s, i);
    forall j, k | 0 <= j < k < |r| ensures !less(r[k], r[j]) {
      assert r[j] == s[if j < i then j else j + 1] && r[k] == s[if k < i then k else k + 1];
    }
  }

  class OrderedArray {
    const items: array<u32>
    var size: nat

    ghost predicate Valid()
      reads this, items
    {
      size <= items.Length
    }

    ghost function Contents(): seq<u32>
      requires Valid()
      reads this, items
    {
      items[..size]
    }

    /** place_ordered_array. */
    constructor (max: nat)
      ensures Valid() && fresh(items) && items.Length == max && Contents() == []
    {
      items := new u32[max](_ => 0);
      size := 0;
    }

    /** insert_ordered_array. */
    method Insert(item: u32, less: (u32, u32) -> bool)
      requires Valid() && size < items.Length
      modifies `size, items
      ensures Valid() && Contents() == Inserted(old(Contents()), item, less)
    {
      hide Inserted, Place;
      ghost var s := Contents();
      var i := 0;
      while i < size && less(items[i], item)
        invariant i <= size && forall j :: 0 <= j < i ==> less(s[j], item)
      {
        i := i + 1;
      }
      ghost var p := i;
      if i == size {
        items[size] := item;
      } else {
        var tmp := items[i];
        items[i] := item;
        while i < size
          invariant p <= i <= size == |s| && (i < size ==> tmp == s[i])
          invariant items[p] == item
          invariant forall j :: 0 <= j < p ==> items[j] == s[j]
          invariant forall j :: p < j <= i ==> items[j] == s[j - 1]
          invariant forall j :: i < j < size ==> items[j] == s[j]
        {
          i := i + 1;
          var tmp2 := items[i];
          items[i] := tmp;
          tmp := tmp2;
        }
      }
      size := size + 1;
      InsertedIs(s, item, less, p, items[..size]);
    }

    /** lookup_ordered_array. */
    method Lookup(i: nat) returns (item: u32)
      requires Valid() && i < size
      ensures item == Contents()[i]
    {
      item := items[i];
    }

    /** remove_ordered_array; it reads one place behind the last item. */
    method Remove(i: nat)
      requires Valid() && i < size < items.Length
      modifies `size, items
      ensures Valid() && Contents() == Omitted(old(Contents()), i)
    {
      ghost var s := Contents();
      var k := i;
      while k < size
        invariant i <= k <= size == |s|
        invariant forall j :: 0 <= j < i ==> items[j] == s[j]
        invariant forall j :: i <= j < k && j < size - 1 ==> items[j] == s[j + 1]
        invariant forall j :: k <= j < size ==> items[j] == s[j]
      {
        items[k] := items[k + 1];
        k := k + 1;
      }
      size := size - 1;
      assert items[..size] == s[..i] + s[i + 1..];
    }
  }
}
