/** The checklist tree of the checklist panel: counting its nodes and its checked nodes, and
    toggling a node by id. */
module Checklist {

  /** ChecklistItem. */
  datatype Item = Item(id: string, text: string, checked: bool, subItems: SubItems)

  /** The optional `subItems` array. An empty array is still there, and truthy. */
  datatype SubItems = NoSubItems | SubItems(items: seq<Item>)

  /** Every node of the forest, in pre-order: each item, then its subtree. This is the reference
      the counts are specified against. */
  function Flatten(items: seq<Item>): seq<Item>
    decreases items
  {
    if items == [] then [] else Subtree(items[0]) + Flatten(items[1..])
  }

  /** An item followed by the nodes below it. */
  function Subtree(x: Item): seq<Item>
    decreases x
  {
    [x] + match x.subItems
      case NoSubItems => []
      case SubItems(xs) => Flatten(xs)
  }

  /** The number of checked nodes of a list of nodes. */
  function CheckedCount(nodes: seq<Item>): nat {
    if nodes == [] then 0 else (if nodes[0].checked then 1 else 0) + CheckedCount(nodes[1..])
  }

  lemma {:induction false} FlattenAppend(a: seq<Item>, b: seq<Item>)
    ensures Flatten(a + b) == Flatten(a) + Flatten(b)
  {
    if a != [] {
      assert (a + b)[1..] == a[1..] + b;
      FlattenAppend(a[1..], b);
    } else {
      assert a + b == b;
    }
  }

  lemma {:induction false} CheckedCountAppend(a: seq<Item>, b: seq<Item>)
    ensures CheckedCount(a + b) == CheckedCount(a) + CheckedCount(b)
  {
    if a != [] {
      assert (a + b)[1..] == a[1..] + b;
      CheckedCountAppend(a[1..], b);
    } else {
      assert a + b == b;
    }
  }

  /** Flattening the first `i + 1` items adds the subtree of item `i`. */
  lemma FlattenPrefix(items: seq<Item>, i: nat)
    requires i < |items|
    ensures Flatten(items[..i + 1]) == Flatten(items[..i]) + Subtree(items[i])
  {
    assert items[..i + 1] == items[..i] + [items[i]];
    FlattenAppend(items[..i], [items[i]]);
  }

  /** countTotalItems: the number of items, plus the count of every item's subItems. */
  method CountTotalItems(items: seq<Item>) returns (count: nat)
    ensures count == |Flatten(items)|
    decreases items
  {
    count := |items|;
    var i := 0;
    while i < |items|
      invariant i <= |items|
      invariant count + i == |items| + |Flatten(items[..i])|
    {
      FlattenPrefix(items, i);
      var item := items[i];
      if item.subItems.SubItems? {
        var sub := CountTotalItems(item.subItems.items);
        count := count + sub;
      }
      i := i + 1;
    }
    assert items[..i] == items;
  }

  /** countCheckedItems: one for every checked item, plus the count of every item's subItems. */
  method CountCheckedItems(items: seq<Item>) returns (count: nat)
    ensures count == CheckedCount(Flatten(items))
    decreases items
  {
    count := 0;
    var i := 0;
    while i < |items|
      invariant i <= |items|
      invariant count == CheckedCount(Flatten(items[..i]))
    {
      FlattenPrefix(items, i);
      var item := items[i];
      var below: seq<Item> := [];
      CheckedCountAppend(Flatten(items[..i]), Subtree(item));
      if item.checked {
        count := count + 1;
      }
      if item.subItems.SubItems? {
        below := Flatten(item.subItems.items);
        var sub := CountCheckedItems(item.subItems.items);
        count := count + sub;
      }
      CheckedCountAppend([item], below);
      i := i + 1;
    }
    assert items[..i] == items;
  }

  /** No more nodes are checked than there are nodes. */
  lemma {:induction false} CheckedCountAtMostTotal(nodes: seq<Item>)
    ensures CheckedCount(nodes) <= |nodes|
  {
    if nodes != [] {
      CheckedCountAtMostTotal(nodes[1..]);
    }
  }

  /** toggleItem: flips `checked` on every item with the id; such an item's subItems are left as
      they are. Other items keep their `checked` and have their subItems searched. */
  function Toggle(id: string, items: seq<Item>): (r: seq<Item>)
    ensures |r| == |items|
    ensures forall i :: 0 <= i < |items| && items[i].id == id ==>
      r[i] == items[i].(checked := !items[i].checked)
    ensures forall i :: 0 <= i < |items| && items[i].id != id ==>
      r[i].id == items[i].id && r[i].text == items[i].text && r[i].checked == items[i].checked
      && (items[i].subItems.NoSubItems? ==> r[i] == items[i])
      && (items[i].subItems.SubItems? ==> r[i].subItems == SubItems(Toggle(id, items[i].subItems.items)))
    decreases items
  {
    if items == [] then [] else [ToggleOne(id, items[0])] + Toggle(id, items[1..])
  }

  function ToggleOne(id: string, item: Item): Item
    decreases item
  {
    if item.id == id then item.(checked := !item.checked)
    else match item.subItems
      case NoSubItems => item
      case SubItems(xs) => item.(subItems := SubItems(Toggle(id, xs)))
  }

  /** Two forests with the same shape: the same nodes in the same places, with the same ids and
      texts; only `checked` may differ. */
  predicate SameShape(a: seq<Item>, b: seq<Item>)
    decreases a
  {
    |a| == |b| && forall i :: 0 <= i < |a| ==> SameNodeShape(a[i], b[i])
  }

  predicate SameNodeShape(x: Item, y: Item)
    decreases x
  {
    x.id == y.id && x.text == y.text
    && match x.subItems
      case NoSubItems => y.subItems.NoSubItems?
      case SubItems(xs) => y.subItems.SubItems? && SameShape(xs, y.subItems.items)
  }

  /** toggleItem keeps the shape of the tree, its ids and its texts. */
  lemma {:induction false} ToggleSameShape(id: string, items: seq<Item>)
    ensures SameShape(items, Toggle(id, items))
    decreases items
  {
    var r := Toggle(id, items);
    forall i | 0 <= i < |items| ensures SameNodeShape(items[i], r[i]) {
      ToggleOneSameShape(id, items[i]);
      ToggleAt(id, items, i);
    }
  }

  lemma {:induction false} ToggleOneSameShape(id: string, item: Item)
    ensures SameNodeShape(item, ToggleOne(id, item))
    decreases item
  {
    if item.id != id && item.subItems.SubItems? {
      ToggleSameShape(id, item.subItems.items);
    } else {
      SameShapeReflexive(item);
    }
  }

  lemma {:induction false} SameShapeReflexive(x: Item)
    ensures SameNodeShape(x, x)
    decreases x
  {
    if x.subItems.SubItems? {
      var xs := x.subItems.items;
      forall i | 0 <= i < |xs| ensures SameNodeShape(xs[i], xs[i]) {
        SameShapeReflexive(xs[i]);
      }
    }
  }

  /** Position `i` of the toggled list is item `i` toggled. */
  lemma {:induction false} ToggleAt(id: string, items: seq<Item>, i: nat)
    requires i < |items|
    ensures Toggle(id, items)[i] == ToggleOne(id, items[i])
    decreases i
  {
    if i > 0 {
      ToggleAt(id, items[1..], i - 1);
    }
  }

  /** Forests of the same shape have the same number of nodes: toggling never changes
      countTotalItems. */
  lemma {:induction false} SameShapeTotal(a: seq<Item>, b: seq<Item>)
    requires SameShape(a, b)
    ensures |Flatten(a)| == |Flatten(b)|
    decreases a
  {
    if a != [] {
      assert SameNodeShape(a[0], b[0]);
      if a[0].subItems.SubItems? {
        SameShapeTotal(a[0].subItems.items, b[0].subItems.items);
      }
      assert SameShape(a[1..], b[1..]) by {
        forall i | 0 <= i < |a| - 1 ensures SameNodeShape(a[1..][i], b[1..][i]) {
          assert a[1..][i] == a[i + 1] && b[1..][i] == b[i + 1];
        }
      }
      SameShapeTotal(a[1..], b[1..]);
    }
  }

  lemma ToggleKeepsTotal(id: string, items: seq<Item>)
    ensures |Flatten(Toggle(id, items))| == |Flatten(items)|
  {
    ToggleSameShape(id, items);
    SameShapeTotal(items, Toggle(id, items));
  }

  /** Toggling the same id twice gives back the original tree. */
  lemma {:induction false} ToggleTwice(id: string, items: seq<Item>)
    ensures Toggle(id, Toggle(id, items)) == items
    decreases items
  {
    if items != [] {
      ToggleOneTwice(id, items[0]);
      ToggleTwice(id, items[1..]);
    }
  }

  lemma {:induction false} ToggleOneTwice(id: string, item: Item)
    ensures ToggleOne(id, ToggleOne(id, item)) == item
    decreases item
  {
    if item.id != id && item.subItems.SubItems? {
      ToggleTwice(id, item.subItems.items);
    }
  }
}
