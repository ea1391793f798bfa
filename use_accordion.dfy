/**
 * The `useAccordion` hook (src/Accordion/useAccordion.ts): the open-set with
 * its actions (toggle, open, close, open all, close all) and its getters.
 */
module UseAccordion {
  import opened OrderedSet
  import opened AccordionTypes
  import opened OpenSet

  /** The hook's actions, for reasoning about runs of them. */
  datatype Action = Toggle(id: string) | Open(id: string) | Close(id: string) | OpenAll | CloseAll

  /** The open-set after one action. */
  function Step(open: set<string>, items: seq<Item>, allowMultiple: bool, a: Action): (r: set<string>)
    ensures a.Open? ==> a.id in r
    ensures a.Close? ==> a.id !in r
    ensures (a.Open? || a.Close?) && (a.id in open <==> a.id in r) ==> r == open
    ensures a.CloseAll? ==> r == {}
    ensures a.OpenAll? ==> forall x :: x in r <==> exists i :: 0 <= i < |items| && items[i].id == x
  {
    match a
    case Toggle(id) => ToggleRule(open, id, allowMultiple)
    case Open(id) => if id !in open then ToggleRule(open, id, allowMultiple) else open
    case Close(id) => if id in open then ToggleRule(open, id, allowMultiple) else open
    case OpenAll => ItemIdSet(items)
    case CloseAll => {}
  }

  /** The `onToggle` calls one action makes. */
  function Emitted(open: set<string>, a: Action): (r: seq<ToggleEvent>)
    ensures |r| <= 1
    ensures (a.OpenAll? || a.CloseAll?) ==> r == []
    ensures a.Open? ==> (r != [] <==> a.id !in open)
    ensures a.Close? ==> (r != [] <==> a.id in open)
  {
    match a
    case Toggle(id) => [ToggleEvent(id, id !in open)]
    case Open(id) => if id !in open then [ToggleEvent(id, true)] else []
    case Close(id) => if id in open then [ToggleEvent(id, false)] else []
    case OpenAll => []
    case CloseAll => []
  }

  /** Every `onToggle(id, isOpen)` an action makes reports the id's membership after it. */
  lemma EmittedReportsNewState(open: set<string>, items: seq<Item>, allowMultiple: bool, a: Action)
    ensures forall e :: e in Emitted(open, a) ==>
      e.id == a.id && (e.isOpen <==> e.id in Step(open, items, allowMultiple, a))
  {
  }

  /** The open-set after a run of actions, applied from first to last. */
  function Run(open: set<string>, items: seq<Item>, allowMultiple: bool, actions: seq<Action>): set<string>
    decreases |actions|
  {
    if actions == [] then open
    else Run(Step(open, items, allowMultiple, actions[0]), items, allowMultiple, actions[1..])
  }

  /** In single-open mode every action but "open all" keeps at most one section open. */
  lemma StepKeepsSingleOpen(open: set<string>, items: seq<Item>, a: Action)
    requires |open| <= 1 && !a.OpenAll?
    ensures |Step(open, items, false, a)| <= 1
  {
  }

  /** In single-open mode no run without "open all" ever opens a second section. */
  lemma {:induction false} RunKeepsSingleOpen(open: set<string>, items: seq<Item>, actions: seq<Action>)
    requires |open| <= 1
    requires forall k :: 0 <= k < |actions| ==> !actions[k].OpenAll?
    ensures |Run(open, items, false, actions)| <= 1
    decreases |actions|
  {
    if actions != [] {
      StepKeepsSingleOpen(open, items, actions[0]);
      RunKeepsSingleOpen(Step(open, items, false, actions[0]), items, actions[1..]);
    }
  }

  /** "Open all" breaks the single-open invariant as soon as two different ids are listed. */
  lemma OpenAllBreaksSingleOpen(open: set<string>, items: seq<Item>, i: nat, j: nat)
    requires i < |items| && j < |items| && items[i].id != items[j].id
    ensures |Step(open, items, false, OpenAll)| >= 2
  {
    var r := Step(open, items, false, OpenAll);
    assert {items[i].id, items[j].id} <= r;
    assert |{items[i].id, items[j].id}| == 2;
    assert r == {items[i].id, items[j].id} + (r - {items[i].id, items[j].id});
  }

  /** `getClosedItems()`: the item ids, in item order, that are not open. */
  function ClosedIds(items: seq<Item>, open: set<string>): (r: seq<string>)
    ensures forall x :: x in r <==> x in ItemIdSet(items) && x !in open
    ensures IsSubsequence(r, ItemIds(items))
    ensures |r| <= |items|
  {
    if items == [] then []
    else
      var rest := ClosedIds(items[1..], open);
      assert ItemIds(items) == [items[0].id] + ItemIds(items[1..]);
      assert forall x :: x in ItemIdSet(items) <==> x == items[0].id || x in ItemIdSet(items[1..]) by {
        forall x ensures x in ItemIdSet(items) <==> x == items[0].id || x in ItemIdSet(items[1..]) {
          if x in ItemIdSet(items) && x != items[0].id {
            var i :| 0 <= i < |items| && items[i].id == x;
            assert items[1..][i - 1].id == x;
          }
          if x in ItemIdSet(items[1..]) {
            var i :| 0 <= i < |items[1..]| && items[1..][i].id == x;
            assert items[i + 1].id == x;
          }
        }
      }
      if items[0].id in open then rest else [items[0].id] + rest
  }

  /** `hasOpenItems`: the open-set is not empty. */
  function HasOpen(open: set<string>): (b: bool)
    ensures b <==> open != {}
  {
    |open| > 0
  }

  /** `hasClosedItems` as written: fewer open ids than items, a size comparison. */
  function HasClosedBySize(open: set<string>, items: seq<Item>): bool {
    |open| < |items|
  }

  /** `hasClosedItems` as evidently intended: some item is not open. */
  function HasClosedByMembership(open: set<string>, items: seq<Item>): (b: bool)
    ensures b <==> exists i :: 0 <= i < |items| && items[i].id !in open
    ensures b <==> ClosedIds(items, open) != []
  {
    var closed := ClosedIds(items, open);
    if closed != [] then
      assert closed[0] in closed;
      true
    else
      false
  }

  /** With unique ids, the size comparison never claims a closed item that is not there. */
  lemma HasClosedBySizeSound(open: set<string>, items: seq<Item>)
    requires UniqueIds(items)
    ensures HasClosedBySize(open, items) ==> HasClosedByMembership(open, items)
  {
    if HasClosedBySize(open, items) {
      UniqueIdsCard(items);
      var ids := ItemIdSet(items);
      SubsetCard(ids, open);
      var x :| x in ids && x !in open;
      assert x in ClosedIds(items, open);
    }
  }

  /** When every open id names an item and ids are unique, both readings agree. */
  lemma HasClosedAgreesOnKnownIds(open: set<string>, items: seq<Item>)
    requires UniqueIds(items) && open <= ItemIdSet(items)
    ensures HasClosedBySize(open, items) == HasClosedByMembership(open, items)
  {
    HasClosedBySizeSound(open, items);
    UniqueIdsCard(items);
    if HasClosedByMembership(open, items) {
      var x :| x in ClosedIds(items, open);
      ProperSubsetCard(open, ItemIdSet(items));
    }
  }

  /**
   * An unknown default-open id makes the size comparison miss a closed item:
   * with items "a" and "b" and `defaultOpenItems` ["a", "zz"], two ids are
   * open, so `hasClosedItems` is false, yet "b" is closed.
   */
  lemma HasClosedBySizeMissesClosedItem()
    ensures var items := [Item("a", "A", Text("x"), false), Item("b", "B", Text("y"), false)];
      var open := Elements(["a", "zz"]);
      !HasClosedBySize(open, items) && ClosedIds(items, open) == ["b"]
  {
    var items := [Item("a", "A", Text("x"), false), Item("b", "B", Text("y"), false)];
    var open := Elements(["a", "zz"]);
    assert open == {"a", "zz"};
    assert |open| == 2;
    assert ClosedIds(items[1..][1..], open) == [];
    assert ClosedIds(items[1..], open) == ["b"];
  }

  /**
   * What `useAccordion` returns, over one shared open-set object. `instanceId`
   * is `accordion-` followed by the token `useId()` produced.
   */
  class AccordionHook {
    /** The current `items` prop; a re-render may pass a new list. */
    var items: seq<Item>
    const instanceId: string
    const state: OpenItems

    ghost predicate Valid()
      reads this, state
    {
      state.Valid()
    }

    constructor (items: seq<Item>, allowMultiple: bool, defaultOpenItems: seq<string>, token: string)
      ensures Valid() && fresh(state)
      ensures this.items == items && instanceId == "accordion-" + token
      ensures state.allowMultiple == allowMultiple
      ensures state.Ids() == Elements(defaultOpenItems) && state.events == []
      ensures state.order == FromList(defaultOpenItems)
    {
      this.items := items;
      instanceId := "accordion-" + token;
      state := new OpenItems(defaultOpenItems, allowMultiple);
    }

    /**
     * A re-render with a new `items` prop. The open-set is kept as it is, so
     * ids of sections no longer listed stay open.
     */
    method SetItems(items: seq<Item>)
      requires Valid()
      modifies this
      ensures Valid()
      ensures this.items == items
      ensures state.order == old(state.order) && state.events == old(state.events)
    {
      this.items := items;
    }

    /** `toggleItem(id)`: the shared toggle rule, one `onToggle` call. */
    method ToggleItem(id: string)
      requires Valid()
      modifies state
      ensures Valid()
      ensures state.Ids() == Step(old(state.Ids()), items, state.allowMultiple, Toggle(id))
      ensures state.order == ToggledOrder(old(state.order), id, state.allowMultiple)
      ensures state.events == old(state.events) + Emitted(old(state.Ids()), Toggle(id))
    {
      state.ToggleItem(id);
    }

    /** `isItemOpen(id)`. */
    function IsItemOpen(id: string): (b: bool)
      reads this, state
      ensures b <==> id in state.Ids()
    {
      state.Has(id)
    }

    /** `openItem(id)`: toggles only a closed id; afterwards `id` is open. */
    method OpenItem(id: string)
      requires Valid()
      modifies state
      ensures Valid()
      ensures state.Ids() == Step(old(state.Ids()), items, state.allowMultiple, Open(id))
      ensures state.events == old(state.events) + Emitted(old(state.Ids()), Open(id))
      ensures id in state.Ids()
      ensures id in old(state.Ids()) ==> state.order == old(state.order)
      ensures id !in old(state.Ids()) ==>
        state.order == ToggledOrder(old(state.order), id, state.allowMultiple)
    {
      if !IsItemOpen(id) {
        state.ToggleItem(id);
      }
    }

    /** `closeItem(id)`: toggles only an open id; afterwards `id` is closed. */
    method CloseItem(id: string)
      requires Valid()
      modifies state
      ensures Valid()
      ensures state.Ids() == Step(old(state.Ids()), items, state.allowMultiple, Close(id))
      ensures state.events == old(state.events) + Emitted(old(state.Ids()), Close(id))
      ensures id !in state.Ids()
      ensures id !in old(state.Ids()) ==> state.order == old(state.order)
      ensures id in old(state.Ids()) ==>
        state.order == ToggledOrder(old(state.order), id, state.allowMultiple)
    {
      if IsItemOpen(id) {
        state.ToggleItem(id);
      }
    }

    /** `openAllItems()`: every item id is open, whatever `allowMultiple` says; no `onToggle`. */
    method OpenAllItems()
      requires Valid()
      modifies state
      ensures Valid()
      ensures state.Ids() == Step(old(state.Ids()), items, state.allowMultiple, OpenAll)
      ensures state.order == FromList(ItemIds(items))
      ensures state.events == old(state.events)
    {
      state.Replace(ItemIds(items));
    }

    /** `closeAllItems()`: nothing is open; no `onToggle`. */
    method CloseAllItems()
      requires Valid()
      modifies state
      ensures Valid()
      ensures state.Ids() == {} && state.order == []
      ensures !HasOpenItems()
      ensures state.events == old(state.events)
    {
      state.Replace([]);
    }

    /** `getOpenItems()`: the open ids in insertion order, each once. */
    function GetOpenItems(): (r: seq<string>)
      reads this, state
      requires Valid()
      ensures Distinct(r) && Elements(r) == state.Ids()
      ensures |r| == |state.Ids()|
      ensures r == state.order
    {
      DistinctCard(state.order);
      state.order
    }

    /** `getClosedItems()`. */
    function GetClosedItems(): (r: seq<string>)
      reads this, state
      ensures forall x :: x in r <==> x in ItemIdSet(items) && !IsItemOpen(x)
      ensures IsSubsequence(r, ItemIds(items))
    {
      ClosedIds(items, state.Ids())
    }

    /** `hasOpenItems`: `openItems.size > 0`. */
    function HasOpenItems(): (b: bool)
      reads this, state
      requires Valid()
      ensures b <==> state.Ids() != {}
    {
      DistinctCard(state.order);
      HasOpen(state.Ids())
    }

    /** `hasClosedItems`: `openItems.size < items.length`, as written. */
    function HasClosedItems(): (b: bool)
      reads this, state
      requires Valid()
      ensures b == (|state.order| < |items|)
      ensures UniqueIds(items) && b ==> GetClosedItems() != []
      ensures UniqueIds(items) && state.Ids() <= ItemIdSet(items) ==> (b <==> GetClosedItems() != [])
    {
      DistinctCard(state.order);
      var open := state.Ids();
      if UniqueIds(items) && open <= ItemIdSet(items) then
        HasClosedAgreesOnKnownIds(open, items);
        HasClosedBySize(open, items)
      else if UniqueIds(items) then
        HasClosedBySizeSound(open, items);
        HasClosedBySize(open, items)
      else
        HasClosedBySize(open, items)
    }
  }

  /** Two sections in single-open mode, "a" open: toggling "b" leaves only "b" open. */
  method SingleOpenScenario() {
    var items := [Item("a", "A", Text("first"), false), Item("b", "B", Text("second"), false)];
    var hook := new AccordionHook(items, false, ["a"], "r1");
    hook.ToggleItem("b");
    assert hook.state.Ids() == {"b"};
    assert !hook.IsItemOpen("a");
    assert hook.state.events == [ToggleEvent("b", true)];
    hook.CloseAllItems();
    assert !hook.HasOpenItems();
    hook.OpenAllItems();
    assert hook.state.Ids() == {"a", "b"};
  }

  /** An unknown default id hides a closed section from `hasClosedItems`. */
  method UnknownDefaultScenario() {
    var items := [Item("a", "A", Text("first"), false), Item("b", "B", Text("second"), false)];
    var hook := new AccordionHook(items, false, ["a", "zz"], "r3");
    assert hook.state.order == ["a", "zz"];
    HasClosedBySizeMissesClosedItem();
    assert !hook.HasClosedItems() && hook.GetClosedItems() == ["b"];
  }

  /** A re-render that drops an open section does the same. */
  method RerenderScenario() {
    var items := [Item("a", "A", Text("first"), false), Item("b", "B", Text("second"), false)];
    var hook := new AccordionHook(items, true, ["a", "b"], "r4");
    var next := [Item("b", "B", Text("second"), false), Item("c", "C", Text("third"), false)];
    hook.SetItems(next);
    assert hook.state.order == ["a", "b"];
    assert hook.state.Ids() == {"a", "b"};
    assert ClosedIds(next[1..], {"a", "b"}) == ["c"];
    assert !hook.HasClosedItems() && hook.GetClosedItems() == ["c"];
  }

  /** The same sections with several open allowed: toggling "b" keeps "a" open too. */
  method MultiOpenScenario() {
    var items := [Item("a", "A", Text("first"), false), Item("b", "B", Text("second"), false)];
    var hook := new AccordionHook(items, true, ["a"], "r2");
    hook.ToggleItem("b");
    assert hook.state.Ids() == {"a", "b"};
    assert hook.GetOpenItems() == ["a", "b"];
    hook.OpenItem("a");
    assert hook.state.events == [ToggleEvent("b", true)];
    hook.CloseItem("a");
    assert hook.GetOpenItems() == ["b"];
  }
}
