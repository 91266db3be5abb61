/** The spatial indexes (internal/rtree/rtree.go): a bag of boxed items, as the external R-tree behaves,
    and an index by identifier kept in step with it.  Object and area trees have the same code. */
module SpatialIndexes {
  import opened Plane

  type ID = string

  datatype Boxed<+T> = Boxed(box: Rect, item: T)

  // ---- the external tree as a bag ------------------------------------------------------------------------

  /** Search: the items whose box meets the window. */
  function Hits<T>(bag: seq<Boxed<T>>, window: Rect): seq<T> {
    if bag == [] then []
    else
      var b := bag[|bag| - 1];
      Hits(bag[..|bag| - 1], window) + if b.box.Meets(window) then [b.item] else []
  }

  function IndexOf<T(==)>(bag: seq<Boxed<T>>, b: Boxed<T>): (k: nat)
    requires b in bag
    ensures k < |bag| && bag[k] == b
  {
    if bag[0] == b then 0 else 1 + IndexOf(bag[1..], b)
  }

  function Drop<T>(bag: seq<T>, k: nat): (r: seq<T>)
    requires k < |bag|
    ensures |r| == |bag| - 1 && forall i :: 0 <= i < |r| ==> r[i] == bag[if i < k then i else i + 1]
  {
    bag[..k] + bag[k + 1..]
  }

  lemma {:induction false} HitsExactly<T>(bag: seq<Boxed<T>>, window: Rect, item: T)
    ensures item in Hits(bag, window) <==> exists k :: 0 <= k < |bag| && bag[k].item == item && bag[k].box.Meets(window)
    decreases |bag|
  {
    if bag != [] {
      var front, b := bag[..|bag| - 1], bag[|bag| - 1];
      HitsExactly(front, window, item);
      if item in Hits(bag, window) {
        if item in Hits(front, window) {
          var k :| 0 <= k < |front| && front[k].item == item && front[k].box.Meets(window);
          assert bag[k] == front[k];
        } else {
          assert bag[|bag| - 1].item == item;
        }
      }
      if k :| 0 <= k < |bag| && bag[k].item == item && bag[k].box.Meets(window) {
        if k < |front| { assert front[k] == bag[k]; }
      }
    }
  }

  ghost predicate Indexed<T(!new)>(key: T -> ID, bag: seq<Boxed<T>>, byID: map<ID, Boxed<T>>) {
    forall k {:trigger bag[k]} :: 0 <= k < |bag| ==> key(bag[k].item) in byID && byID[key(bag[k].item)] == bag[k]
  }

  ghost predicate DistinctKeys<T(!new)>(key: T -> ID, bag: seq<Boxed<T>>) {
    forall j, k {:trigger bag[j], bag[k]} :: 0 <= j < k < |bag| ==> key(bag[j].item) != key(bag[k].item)
  }

  ghost predicate Backed<T(!new)>(key: T -> ID, bag: seq<Boxed<T>>, byID: map<ID, Boxed<T>>) {
    forall id {:trigger byID[id]} :: id in byID ==> byID[id] in bag && key(byID[id].item) == id
  }

  lemma DropKeeps<T(!new)>(key: T -> ID, bag: seq<Boxed<T>>, byID: map<ID, Boxed<T>>, k: nat)
    requires Indexed(key, bag, byID) && DistinctKeys(key, bag) && Backed(key, bag, byID) && k < |bag|
    ensures var bag', byID' := Drop(bag, k), byID - {key(bag[k].item)};
            Indexed(key, bag', byID') && DistinctKeys(key, bag') && Backed(key, bag', byID')
  {
    var bag', byID' := Drop(bag, k), byID - {key(bag[k].item)};
    forall x | x in byID' ensures byID'[x] in bag' && key(byID'[x].item) == x {
      var i :| 0 <= i < |bag| && bag[i] == byID[x];
      assert bag'[if i < k then i else i - 1] == bag[i];
    }
    forall i | 0 <= i < |bag'| ensures key(bag'[i].item) in byID' && byID'[key(bag'[i].item)] == bag'[i] {
      assert bag'[i] == bag[if i < k then i else i + 1];
    }
    forall i, j | 0 <= i < j < |bag'| ensures key(bag'[i].item) != key(bag'[j].item) {
      assert bag'[i] == bag[if i < k then i else i + 1] && bag'[j] == bag[if j < k then j else j + 1];
    }
  }

  lemma AddKeeps<T(!new)>(key: T -> ID, bag: seq<Boxed<T>>, byID: map<ID, Boxed<T>>, b: Boxed<T>)
    requires Indexed(key, bag, byID) && DistinctKeys(key, bag) && Backed(key, bag, byID) && key(b.item) !in byID
    ensures var bag', byID' := bag + [b], byID[key(b.item) := b];
            Indexed(key, bag', byID') && DistinctKeys(key, bag') && Backed(key, bag', byID')
  {
    var bag' := bag + [b];
    assert bag'[|bag|] == b && forall i :: 0 <= i < |bag| ==> bag'[i] == bag[i];
  }

  // ---- the index by identifier -----------------------------------------------------------------------------

  class SpatialIndex<T(==, !new)> {
    const key: T -> ID
    var inner: seq<Boxed<T>>
    var byID: map<ID, Boxed<T>>

    constructor (key: T -> ID)
      ensures Valid() && this.key == key && byID == map[]
    {
      this.key := key;
      inner, byID := [], map[];
    }

    /** The bag holds exactly the indexed entries, one per identifier. */
    ghost predicate Valid()
      reads this
    {
      Indexed(key, inner, byID) && DistinctKeys(key, inner) && Backed(key, inner, byID)
    }

    method Delete(id: ID)
      requires Valid()
      modifies this
      ensures Valid() && byID == old(byID) - {id}
    {
      if id in byID {
        var entry := byID[id];
        var k := IndexOf(inner, entry);
        DropKeeps(key, inner, byID, k);
        inner := Drop(inner, k);
        byID := byID - {id};
      }
    }

    method Upsert(item: T, box: Rect)
      requires Valid()
      modifies this
      ensures Valid() && byID == old(byID)[key(item) := Boxed(box, item)]
    {
      Delete(key(item));
      AddKeeps(key, inner, byID, Boxed(box, item));
      inner := inner + [Boxed(box, item)];
      byID := byID[key(item) := Boxed(box, item)];
    }

    method Get(id: ID) returns (item: seq<T>)
      requires Valid()
      ensures item == if id in byID then [byID[id].item] else []
    {
      item := if id in byID then [byID[id].item] else [];
    }

    /** Search and Nearby: every indexed item whose box meets the window, each once. */
    method Search(window: Rect) returns (found: seq<T>)
      requires Valid()
      ensures forall item :: item in found <==> key(item) in byID && byID[key(item)].item == item && byID[key(item)].box.Meets(window)
      ensures forall i, j {:trigger found[i], found[j]} :: 0 <= i < j < |found| ==> key(found[i]) != key(found[j])
    {
      found := [];
      for k := 0 to |inner|
        invariant found == Hits(inner[..k], window)
        invariant forall i {:trigger found[i]} :: 0 <= i < |found| ==> exists m :: 0 <= m < k && inner[m].item == found[i]
        invariant forall i, j {:trigger found[i], found[j]} :: 0 <= i < j < |found| ==> key(found[i]) != key(found[j])
      {
        assert inner[..k + 1][..k] == inner[..k];
        if inner[k].box.Meets(window) { found := found + [inner[k].item]; }
      }
      assert inner[..|inner|] == inner;
      forall item
        ensures item in found <==> key(item) in byID && byID[key(item)].item == item && byID[key(item)].box.Meets(window)
      {
        HitsExactly(inner, window, item);
        if key(item) in byID && byID[key(item)].item == item {
          var m :| 0 <= m < |inner| && inner[m] == byID[key(item)];
        }
      }
    }
  }
}
