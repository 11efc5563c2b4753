/**
  The in-memory parts store: the `Part` record and the `Garage` repository
  of csharp-app/Program.cs, as an immutable value with pure operations.
  A `Garage` is the ordered list of parts together with the id counter.
 */
module Inventory {
  import opened Wrappers

  /** One inventory record. */
  datatype Part = Part(id: int, name: string, partNumber: string, quantity: int)

  /** The store: parts in insertion order and the id the next part will get. */
  datatype Garage = Garage(parts: seq<Part>, nextId: int)

  /** What `AddPart` yields: the grown store and the part it created. */
  datatype Added = Added(garage: Garage, part: Part)

  /** The store invariant: ids are 1..n in list order and the counter is n + 1. */
  predicate Valid(g: Garage) {
    && g.nextId == |g.parts| + 1
    && forall i | 0 <= i < |g.parts| :: g.parts[i].id == i + 1
  }

  /** A fresh store: no parts, and the counter starts at 1. */
  function NewGarage(): (g: Garage)
    ensures Valid(g)
    ensures |g.parts| == 0
    ensures forall k :: Find(g.parts, k).None?
  {
    Garage([], 1)
  }

  /**
    Creates a part whose id is the current counter, appends it at the end
    and bumps the counter. No check is made on the name, the part number
    or the quantity.
   */
  function AddPart(g: Garage, name: string, partNumber: string, quantity: int): (r: Added)
    ensures r.part.id == g.nextId
    ensures r.part.name == name && r.part.partNumber == partNumber && r.part.quantity == quantity
    ensures |r.garage.parts| == |g.parts| + 1
    ensures r.garage.parts[..|g.parts|] == g.parts
    ensures r.garage.parts[|g.parts|] == r.part
    ensures r.garage.nextId == g.nextId + 1
    ensures Valid(g) ==> Valid(r.garage) && r.part.id == |g.parts| + 1
  {
    var part := Part(g.nextId, name, partNumber, quantity);
    Added(Garage(g.parts + [part], g.nextId + 1), part)
  }

  /**
    The stored parts, in insertion order, read without changing the store;
    on a valid store they carry the ids 1..n in order, one per id handed out.
   */
  function ListParts(g: Garage): (ps: seq<Part>)
    ensures |ps| == |g.parts| && forall i | 0 <= i < |ps| :: ps[i] == g.parts[i]
    ensures Valid(g) ==> |ps| == g.nextId - 1 && forall i | 0 <= i < |ps| :: ps[i].id == i + 1
  {
    g.parts
  }

  /**
    Scans `parts` from the front and yields the first part whose id is `k`,
    or `None` when no part has that id.
   */
  function Find(parts: seq<Part>, k: int): (r: Option<Part>)
    ensures r.None? <==> forall i | 0 <= i < |parts| :: parts[i].id != k
    ensures r.Some? ==> r.value.id == k
    ensures r.Some? ==>
      exists i | 0 <= i < |parts| :: parts[i] == r.value && forall j | 0 <= j < i :: parts[j].id != k
  {
    if |parts| == 0 then None
    else if parts[0].id == k then Some(parts[0])
    else Find(parts[1..], k)
  }

  /** The `foreach` loop of `FindPart`, returning the first part with id `k`. */
  method FindPart(g: Garage, k: int) returns (r: Option<Part>)
    ensures r.None? <==> forall i | 0 <= i < |g.parts| :: g.parts[i].id != k
    ensures r.Some? ==>
      exists i | 0 <= i < |g.parts| :: g.parts[i] == r.value && forall j | 0 <= j < i :: g.parts[j].id != k
    ensures r.Some? ==> r.value.id == k
    ensures r == Find(g.parts, k)
  {
    var i := 0;
    while i < |g.parts|
      invariant 0 <= i <= |g.parts|
      invariant forall j | 0 <= j < i :: g.parts[j].id != k
      invariant Find(g.parts, k) == Find(g.parts[i..], k)
    {
      if g.parts[i].id == k {
        return Some(g.parts[i]);
      }
      assert g.parts[i..][1..] == g.parts[i + 1..];
      i := i + 1;
    }
    return None;
  }

  /**
    Under the invariant, lookup succeeds exactly for the ids 1..n, and id `k`
    names the k-th part added.
   */
  lemma FindInValid(g: Garage, k: int)
    requires Valid(g)
    ensures Find(g.parts, k).Some? <==> 1 <= k <= |g.parts|
    ensures 1 <= k <= |g.parts| ==> Find(g.parts, k) == Some(g.parts[k - 1])
  {
    if 1 <= k <= |g.parts| {
      assert g.parts[k - 1].id == k;
    }
  }

  /** Under the invariant, ids are unique and strictly increasing in list order. */
  lemma ValidIdsIncrease(g: Garage, i: int, j: int)
    requires Valid(g)
    requires 0 <= i < j < |g.parts|
    ensures g.parts[i].id < g.parts[j].id
  {
  }

  /** The store after adding each `(name, partNumber, quantity)` of `adds` in turn. */
  function AddAll(g: Garage, adds: seq<(string, string, int)>): Garage
  {
    if |adds| == 0 then g
    else
      var last := adds[|adds| - 1];
      AddPart(AddAll(g, adds[..|adds| - 1]), last.0, last.1, last.2).garage
  }

  /**
    Listing after a run of adds on a valid store: the old parts come first,
    unchanged, then one part per add, in call order, with ids counting on
    from the old size; the invariant still holds.
   */
  lemma {:induction false} ListAfterAdds(g: Garage, adds: seq<(string, string, int)>)
    requires Valid(g)
    ensures Valid(AddAll(g, adds))
    ensures |ListParts(AddAll(g, adds))| == |g.parts| + |adds|
    ensures ListParts(AddAll(g, adds))[..|g.parts|] == ListParts(g)
    ensures forall i | 0 <= i < |adds| ::
      ListParts(AddAll(g, adds))[|g.parts| + i]
        == Part(|g.parts| + i + 1, adds[i].0, adds[i].1, adds[i].2)
  {
    if |adds| > 0 {
      var init := adds[..|adds| - 1];
      ListAfterAdds(g, init);
      var h := AddAll(g, init);
      var h' := AddAll(g, adds);
      assert h' == AddPart(h, adds[|adds| - 1].0, adds[|adds| - 1].1, adds[|adds| - 1].2).garage;
      assert h'.parts == h.parts + [h'.parts[|h.parts|]];
      forall i | 0 <= i < |adds|
        ensures h'.parts[|g.parts| + i] == Part(|g.parts| + i + 1, adds[i].0, adds[i].1, adds[i].2)
      {
        if i < |init| {
          assert init[i] == adds[i];
        }
      }
      assert h'.parts[..|g.parts|] == h.parts[..|g.parts|];
    }
  }

  /**
    Two adds on a fresh store get ids 1 and 2, and the listing holds both
    parts, in the order they were added.
   */
  lemma TwoAddsThenList()
    ensures var a1 := AddPart(NewGarage(), "Oil Filter", "OC-090", 5);
      var a2 := AddPart(a1.garage, "Air Filter", "AF-123", 3);
      && a1.part.id == 1
      && a2.part.id == 2
      && ListParts(a2.garage) == [Part(1, "Oil Filter", "OC-090", 5), Part(2, "Air Filter", "AF-123", 3)]
  {
  }
}
