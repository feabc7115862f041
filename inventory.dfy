/**
  The inventory of GBG_Library's utility file: an ordered list of item
  references that callers add to, remove from and search by name.
  Items are reference objects, so two entries with equal fields are still
  different items; the list may also hold null, which the source's list
  accepts.
 */
module Inventory {

  /** An inventory entry (InventorySystem.Item). */
  class Item {
    var name: string
    var description: string
    var quantity: int

    constructor (name: string, description: string, quantity: int)
      ensures this.name == name && this.description == description && this.quantity == quantity
    {
      this.name := name;
      this.description := description;
      this.quantity := quantity;
    }
  }

  /** Outcome of a search by name: the first match, no match (the source's null),
      or a NullReferenceException raised by reading the name of a null entry. */
  datatype Lookup = Found(item: Item) | NotFound | NullReference

  // ---------------------------------------------------------------------------
  // Sequence operations behind List<T>.Remove
  // ---------------------------------------------------------------------------

  /** Position of the first element equal to x, or -1 (List<T>.IndexOf). */
  function IndexOf<T(==)>(s: seq<T>, x: T): (k: int)
    ensures -1 <= k < |s|
    ensures k == -1 <==> x !in s
    ensures 0 <= k ==> s[k] == x && x !in s[..k]
  {
    if |s| == 0 then -1
    else if s[0] == x then 0
    else
      var k := IndexOf(s[1..], x);
      if k == -1 then -1
      else
        assert s[..k + 1] == [s[0]] + s[1..][..k];
        k + 1
  }

  /** The list after List<T>.Remove(x): scanning from the front, the first
      element equal to x is dropped and every other element is kept in order. */
  function RemoveFirst<T(==)>(s: seq<T>, x: T): (r: seq<T>)
    ensures x !in s ==> r == s
    ensures x in s ==> |r| == |s| - 1
    ensures multiset(r) == multiset(s) - multiset{x}
  {
    if s == [] then []
    else
      assert s == [s[0]] + s[1..];
      if s[0] == x then s[1..]
      else [s[0]] + RemoveFirst(s[1..], x)
  }

  /** Removal cuts exactly the slot of the first occurrence out of the list. */
  lemma {:induction false} RemoveFirstAt<T>(s: seq<T>, x: T, k: nat)
    requires k < |s| && s[k] == x && x !in s[..k]
    ensures RemoveFirst(s, x) == s[..k] + s[k + 1..]
  {
    if k > 0 {
      assert s[0] in s[..k];
      assert s[1..][..k - 1] == s[1..k];
      RemoveFirstAt(s[1..], x, k - 1);
      SpliceAfterHead(s, k - 1);
    }
  }

  /** Deleting slot k + 1 of s is deleting slot k of its tail, behind the head. */
  lemma {:induction false} SpliceAfterHead<T>(s: seq<T>, k: nat)
    requires k + 1 < |s|
    ensures s[..k + 1] + s[k + 2..] == [s[0]] + (s[1..][..k] + s[1..][k + 1..])
  {
    assert s[..k + 1] == [s[0]] + s[1..][..k];
    assert s[k + 2..] == s[1..][k + 1..];
  }

  /** Removing an item just appended (and not already present) gives the list back. */
  lemma {:induction false} RemoveUndoesAppend<T>(s: seq<T>, x: T)
    requires x !in s
    ensures RemoveFirst(s + [x], x) == s
  {
    assert (s + [x])[|s|] == x;
    assert (s + [x])[..|s|] == s;
    RemoveFirstAt(s + [x], x, |s|);
  }

  // ---------------------------------------------------------------------------
  // List<T>.Find(item => item.Name == name)
  // ---------------------------------------------------------------------------

  /** No entry before position k is null or carries the given name. */
  ghost predicate ScannedPast(items: seq<Item?>, name: string, k: nat)
    requires k <= |items|
    reads items
  {
    forall j :: 0 <= j < k ==> items[j] != null && items[j].name != name
  }

  /** The outcome of scanning the list front to back for an item with this name. */
  function FindByName(items: seq<Item?>, name: string): (r: Lookup)
    reads items
    ensures r.Found? ==> exists k :: 0 <= k < |items| && items[k] == r.item && r.item.name == name && ScannedPast(items, name, k)
    ensures r.NullReference? ==> exists k :: 0 <= k < |items| && items[k] == null && ScannedPast(items, name, k)
    ensures r.NotFound? ==> ScannedPast(items, name, |items|)
  {
    if |items| == 0 then NotFound
    else if items[0] == null then NullReference
    else if items[0].name == name then Found(items[0])
    else
      var r := FindByName(items[1..], name);
      assert forall k :: 0 <= k < |items[1..]| && ScannedPast(items[1..], name, k) ==> ScannedPast(items, name, k + 1);
      r
  }

  /** When position k holds the first entry with the name, and no null comes
      before it, the lookup returns exactly that entry. */
  lemma FindByNameFirstMatch(items: seq<Item?>, name: string, k: nat)
    requires k < |items| && ScannedPast(items, name, k)
    requires items[k] != null && items[k].name == name
    ensures FindByName(items, name) == Found(items[k])
  {
  }

  /** Appending an item never changes an earlier result; it can only turn
      "not found" into the appended item, when that item carries the name. */
  lemma {:induction false} FindByNameAfterAppend(items: seq<Item?>, x: Item?, name: string)
    ensures FindByName(items + [x], name) ==
      match FindByName(items, name)
      case NotFound => if x == null then NullReference else if x.name == name then Found(x) else NotFound
      case other => other
  {
    if items != [] {
      assert (items + [x])[1..] == items[1..] + [x];
      FindByNameAfterAppend(items[1..], x, name);
    }
  }

  // ---------------------------------------------------------------------------
  // InventorySystem
  // ---------------------------------------------------------------------------

  class InventorySystem {
    /** The list of items, in insertion order. */
    var items: seq<Item?>

    constructor ()
      ensures items == []
    {
      items := [];
    }

    method AddItem(item: Item?)
      modifies this
      ensures items == old(items) + [item]
      ensures forall i :: 0 <= i < |old(items)| && old(items)[i] != null ==> unchanged(old(items)[i])
    {
      items := items + [item];
    }

    method RemoveItem(item: Item?)
      modifies this
      ensures items == RemoveFirst(old(items), item)
      ensures forall i :: 0 <= i < |old(items)| && old(items)[i] != null ==> unchanged(old(items)[i])
    {
      var k := IndexOf(items, item);
      if k >= 0 {
        RemoveFirstAt(items, item, k);
        items := items[..k] + items[k + 1..];
      }
    }

    /** The list itself; the source hands out the live list object. */
    function GetAllItems(): (r: seq<Item?>)
      reads this
      ensures r == items
    {
      items
    }

    /** The front-to-back scan of List<T>.Find with the predicate item.Name == name. */
    method GetItemByName(name: string) returns (r: Lookup)
      ensures r == FindByName(items, name)
    {
      var i := 0;
      while i < |items|
        invariant 0 <= i <= |items|
        invariant ScannedPast(items, name, i)
        invariant FindByName(items, name) == FindByName(items[i..], name)
      {
        var it := items[i];
        if it == null {
          return NullReference;
        }
        if it.name == name {
          return Found(it);
        }
        assert items[i..][1..] == items[i + 1..];
        i := i + 1;
      }
      return NotFound;
    }
  }

  /** Two items with identical fields are still told apart: added as a, b, a,
      removing a takes out the first a only, and a lookup by their shared name
      returns the first item left in the list, b. */
  method EqualFieldsDistinctItems() returns (a: Item, b: Item, left: seq<Item?>, hit: Lookup)
    ensures a != b && a.name == "Potion" && b.name == "Potion"
    ensures left == [b, a]
    ensures hit == Found(b)
  {
    a := new Item("Potion", "Heals", 1);
    b := new Item("Potion", "Heals", 1);
    var inv := new InventorySystem();
    inv.AddItem(a);
    inv.AddItem(b);
    inv.AddItem(a);
    assert inv.items == [a, b, a];
    inv.RemoveItem(a);
    assert inv.items == [b, a];
    left := inv.GetAllItems();
    FindByNameFirstMatch(left, "Potion", 0);
    hit := inv.GetItemByName("Potion");
  }
}
