/**
 * The section descriptor an accordion is given (`AccordionItem` in
 * src/Accordion/Accordion.tsx), and the id lists derived from a list of them.
 */
module AccordionTypes {
  import opened OrderedSet

  datatype Option<T> = None | Some(value: T)

  /** A section body: plain text, or a rendered subtree the accordion passes on untouched. */
  datatype Content = Text(text: string) | Node(handle: nat)

  /** One section; an absent `disabled` is `false`. */
  datatype Item = Item(id: string, title: string, content: Content, disabled: bool)

  /** `items.map((item) => item.id)`. */
  function ItemIds(items: seq<Item>): (ids: seq<string>)
    ensures |ids| == |items|
    ensures forall i :: 0 <= i < |items| ==> ids[i] == items[i].id
  {
    seq(|items|, i requires 0 <= i < |items| => items[i].id)
  }

  /** The ids of `items` as a set. */
  function ItemIdSet(items: seq<Item>): (ids: set<string>)
    ensures forall x :: x in ids <==> exists i :: 0 <= i < |items| && items[i].id == x
  {
    var s := ItemIds(items);
    assert forall x :: x in s <==> exists i :: 0 <= i < |items| && items[i].id == x by {
      forall x ensures x in s <==> exists i :: 0 <= i < |items| && items[i].id == x {
        if x in s {
          var i :| 0 <= i < |s| && s[i] == x;
          assert items[i].id == x;
        }
      }
    }
    Elements(s)
  }

  /** A list of items with pairwise different ids, as the component expects. */
  predicate UniqueIds(items: seq<Item>) {
    Distinct(ItemIds(items))
  }

  /** With unique ids there are exactly as many ids as items. */
  lemma UniqueIdsCard(items: seq<Item>)
    requires UniqueIds(items)
    ensures |ItemIdSet(items)| == |items|
  {
    DistinctCard(ItemIds(items));
  }
}
