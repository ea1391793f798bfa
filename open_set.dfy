/**
 * The open-set state machine shared by the accordion component and its hook:
 * the set of expanded section ids, the toggle rule both of them implement,
 * and the `onToggle` notifications it produces.
 */
module OpenSet {
  import opened OrderedSet

  /** One call `onToggle(id, isOpen)`. */
  datatype ToggleEvent = ToggleEvent(id: string, isOpen: bool)

  /**
   * The toggle rule on the set of open ids: an open id is closed; a closed id
   * is opened, and in single-open mode every other section is closed first.
   */
  function ToggleRule(open: set<string>, id: string, allowMultiple: bool): (r: set<string>)
    ensures id in r <==> id !in open
    ensures forall x :: x != id ==> (x in r <==> x in open && (allowMultiple || id in open))
  {
    if id in open then open - {id}
    else (if allowMultiple then open else {}) + {id}
  }

  /** The same rule on the insertion-ordered contents of the JavaScript `Set`. */
  function ToggledOrder(order: seq<string>, id: string, allowMultiple: bool): (r: seq<string>)
    requires Distinct(order)
    ensures Distinct(r)
    ensures Elements(r) == ToggleRule(Elements(order), id, allowMultiple)
    ensures id in order ==> IsSubsequence(r, order) && |r| == |order| - 1
    ensures id !in order ==> |r| > 0 && r[|r| - 1] == id
    ensures id !in order && allowMultiple ==> r[..|r| - 1] == order
  {
    if id in order then Delete(order, id)
    else Add(if allowMultiple then order else [], id)
  }

  /** In single-open mode a toggle never leaves more than one section open. */
  lemma ToggleKeepsSingleOpen(open: set<string>, id: string)
    requires |open| <= 1
    ensures |ToggleRule(open, id, false)| <= 1
  {
  }

  /**
   * Toggling the same id twice gives back the open-set exactly when sections
   * may be open together, or when nothing but `id` was open.
   */
  lemma ToggleTwice(open: set<string>, id: string, allowMultiple: bool)
    ensures ToggleRule(ToggleRule(open, id, allowMultiple), id, allowMultiple) == open
        <==> allowMultiple || open <= {id}
  {
  }

  /** With several sections allowed open, toggling twice restores the set but moves `id` last. */
  lemma ToggleTwiceReorders()
    ensures var order := ["a", "b"];
      Elements(ToggledOrder(ToggledOrder(order, "a", true), "a", true)) == Elements(order)
      && ToggledOrder(ToggledOrder(order, "a", true), "a", true) == ["b", "a"]
  {
  }

  /** In multi mode toggling an open id twice moves it last and keeps the others in order. */
  lemma ToggleTwiceMovesLast(order: seq<string>, id: string)
    requires Distinct(order) && id in order
    ensures ToggledOrder(ToggledOrder(order, id, true), id, true) == Delete(order, id) + [id]
  {
  }

  /** So the order comes back after two toggles exactly when the id was already last. */
  lemma ToggleTwiceRestoresOrder(order: seq<string>, id: string)
    requires Distinct(order) && id in order
    ensures ToggledOrder(ToggledOrder(order, id, true), id, true) == order <==> order[|order| - 1] == id
  {
    ToggleTwiceMovesLast(order, id);
    var n := |order|;
    if order[n - 1] == id {
      var init := order[..n - 1];
      assert order == init + [id];
      assert forall k :: 0 <= k < n - 1 ==> init[k] != order[n - 1];
      DeleteAppended(init, id);
    }
  }

  /** In multi mode toggling a closed id twice appends it and deletes it again: the order comes back. */
  lemma ToggleTwiceClosedRestoresOrder(order: seq<string>, id: string)
    requires Distinct(order) && id !in order
    ensures ToggledOrder(ToggledOrder(order, id, true), id, true) == order
  {
    DeleteAppended(order, id);
  }

  /** Deleting an id just appended to a sequence that lacks it gives the sequence back. */
  lemma {:induction false} DeleteAppended(s: seq<string>, x: string)
    requires x !in s
    ensures Delete(s + [x], x) == s
  {
    if s != [] {
      assert (s + [x])[1..] == s[1..] + [x];
      DeleteAppended(s[1..], x);
      assert s == [s[0]] + s[1..];
    }
  }

  /**
   * The state `useState<Set<string>>` holds, with the `allowMultiple` setting
   * it is toggled under and the log of `onToggle` calls made so far.
   */
  class OpenItems {
    /** The open ids in insertion order. */
    var order: seq<string>
    /** Every `onToggle` call, oldest first. */
    var events: seq<ToggleEvent>
    const allowMultiple: bool

    ghost predicate Valid()
      reads this
    {
      Distinct(order)
    }

    /** The open-set. */
    function Ids(): set<string>
      reads this
    {
      Elements(order)
    }

    /** `useState(new Set(defaultOpenItems))`: every default id is open, unknown ones included. */
    constructor (defaultOpenItems: seq<string>, allowMultiple: bool)
      ensures Valid()
      ensures Ids() == Elements(defaultOpenItems)
      ensures order == FromList(defaultOpenItems)
      ensures events == [] && this.allowMultiple == allowMultiple
    {
      order := FromList(defaultOpenItems);
      events := [];
      this.allowMultiple := allowMultiple;
    }

    /** `openItems.has(id)`. */
    function Has(id: string): (b: bool)
      reads this
      ensures b <==> id in Ids()
    {
      id in order
    }

    /** `toggleItem(id)`: copy the set, delete or (clear and) add, report, store. */
    method ToggleItem(id: string)
      requires Valid()
      modifies this
      ensures Valid()
      ensures Ids() == ToggleRule(old(Ids()), id, allowMultiple)
      ensures order == ToggledOrder(old(order), id, allowMultiple)
      ensures events == old(events) + [ToggleEvent(id, id !in old(Ids()))]
      ensures events[|events| - 1].isOpen == (id in Ids())
    {
      var next := order;
      var isCurrentlyOpen := id in next;
      if isCurrentlyOpen {
        next := Delete(next, id);
      } else {
        if !allowMultiple {
          next := [];
        }
        next := Add(next, id);
      }
      events := events + [ToggleEvent(id, !isCurrentlyOpen)];
      order := next;
    }

    /** `setOpenItems(new Set(ids))`: replaces the open-set without notifying anyone. */
    method Replace(ids: seq<string>)
      requires Valid()
      modifies this
      ensures Valid()
      ensures order == FromList(ids) && Ids() == Elements(ids)
      ensures events == old(events)
    {
      order := FromList(ids);
    }
  }
}
