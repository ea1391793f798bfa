/**
 * The `Accordion` component (src/Accordion/Accordion.tsx): which pointer and
 * key events reach the shared toggle, and what each section renders as,
 * reduced to its element ids and ARIA attributes.
 */
module AccordionComponent {
  import opened OrderedSet
  import opened AccordionTypes
  import opened OpenSet

  /** What a content region shows: text in a paragraph, or the given subtree as it is. */
  datatype Body = Paragraph(text: string) | Subtree(handle: nat)

  /** One rendered section: its trigger button, its content region and the optional note. */
  datatype ItemView = ItemView(
    key: string,
    // the trigger button
    headerId: string,
    title: string,
    expanded: bool,              // aria-expanded
    controls: string,            // aria-controls
    triggerDisabled: bool,       // disabled
    describedBy: Option<string>, // aria-describedby
    // the content region
    contentId: string,
    labelledBy: string,          // aria-labelledby
    hidden: bool,                // aria-hidden
    body: Body,
    // the off-screen "currently disabled" note, rendered only for a disabled section
    disabledNote: Option<string>)

  /** The keys that activate a trigger: Enter and Space. */
  predicate IsActivationKey(key: string) {
    key == "Enter" || key == " "
  }

  /** The id every element of a section is named from: `${instanceId}-item-${id}`. */
  function ItemDomId(instanceId: string, id: string): string {
    instanceId + "-item-" + id
  }

  /** The suffixes that name a section's trigger, content region and disabled note. */
  const HeaderSuffix := "-header"
  const ContentSuffix := "-content"
  const DisabledSuffix := "-disabled"

  predicate IsElementSuffix(suffix: string) {
    suffix == HeaderSuffix || suffix == ContentSuffix || suffix == DisabledSuffix
  }

  /** The element id of one part of a section. */
  function ElementId(instanceId: string, id: string, suffix: string): string {
    ItemDomId(instanceId, id) + suffix
  }

  /** Within one instance, an element id names exactly one part of exactly one section. */
  lemma ElementIdInjective(instanceId: string, id1: string, s1: string, id2: string, s2: string)
    requires IsElementSuffix(s1) && IsElementSuffix(s2)
    ensures ElementId(instanceId, id1, s1) == ElementId(instanceId, id2, s2) <==> id1 == id2 && s1 == s2
  {
    var e1, e2 := ElementId(instanceId, id1, s1), ElementId(instanceId, id2, s2);
    if e1 == e2 {
      // The three suffixes end in different letters, so the last letter tells the part.
      assert e1[|e1| - 1] == s1[|s1| - 1];
      assert e2[|e2| - 1] == s2[|s2| - 1];
      var p := instanceId + "-item-";
      assert e1 == p + id1 + s1 && e2 == p + id2 + s2;
      assert |id1| == |id2|;
      assert id1 == e1[|p|..|p| + |id1|];
      assert id2 == e2[|p|..|p| + |id2|];
    }
  }

  /** The `items.map` body: one section as rendered under the open-set `open`. */
  function ViewOf(instanceId: string, item: Item, open: set<string>): (v: ItemView)
    ensures v.key == item.id && v.title == item.title
    ensures v.headerId == ElementId(instanceId, item.id, HeaderSuffix)
    ensures v.contentId == ElementId(instanceId, item.id, ContentSuffix)
    ensures v.headerId != v.contentId
    ensures v.controls == v.contentId && v.labelledBy == v.headerId
    ensures v.expanded <==> item.id in open
    ensures v.hidden <==> !v.expanded
    ensures v.triggerDisabled == item.disabled
    ensures v.describedBy.Some? <==> item.disabled
    ensures item.disabled ==> v.describedBy.value == ElementId(instanceId, item.id, DisabledSuffix)
    ensures v.disabledNote == v.describedBy
    ensures v.body.Paragraph? <==> item.content.Text?
    ensures item.content.Text? ==> v.body.text == item.content.text
  {
    var isOpen := item.id in open;
    var itemId := ItemDomId(instanceId, item.id);
    var contentId := itemId + ContentSuffix;
    var headerId := itemId + HeaderSuffix;
    var note := if item.disabled then Some(itemId + DisabledSuffix) else None;
    ElementIdInjective(instanceId, item.id, HeaderSuffix, item.id, ContentSuffix);
    ItemView(
      item.id,
      headerId, item.title, isOpen, contentId, item.disabled, note,
      contentId, headerId, !isOpen,
      match item.content
      case Text(s) => Paragraph(s)
      case Node(h) => Subtree(h),
      note)
  }

  /** The element ids one rendered section puts in the document. */
  function DomIds(v: ItemView): set<string> {
    {v.headerId, v.contentId} + (if v.disabledNote.Some? then {v.disabledNote.value} else {})
  }

  /** Sections with different ids never share an element id. */
  lemma DistinctSectionsDistinctDomIds(instanceId: string, a: Item, b: Item, open: set<string>)
    requires a.id != b.id
    ensures DomIds(ViewOf(instanceId, a, open)) !! DomIds(ViewOf(instanceId, b, open))
  {
    var va, vb := ViewOf(instanceId, a, open), ViewOf(instanceId, b, open);
    forall x | x in DomIds(va) ensures x !in DomIds(vb) {
      var sa :| IsElementSuffix(sa) && x == ElementId(instanceId, a.id, sa);
      if x in DomIds(vb) {
        var sb :| IsElementSuffix(sb) && x == ElementId(instanceId, b.id, sb);
        ElementIdInjective(instanceId, a.id, sa, b.id, sb);
      }
    }
  }

  /**
   * The whole render: nothing (`null`) for an absent or empty list, otherwise
   * one section per item, in order.
   */
  function Render(instanceId: string, items: Option<seq<Item>>, open: set<string>): (r: Option<seq<ItemView>>)
    ensures r.None? <==> items.None? || items.value == []
    ensures r.Some? ==> |r.value| == |items.value|
    ensures r.Some? ==> forall i :: 0 <= i < |r.value| ==> r.value[i] == ViewOf(instanceId, items.value[i], open)
  {
    if items.None? || items.value == [] then None
    else
      var list := items.value;
      Some(seq(|list|, i requires 0 <= i < |list| => ViewOf(instanceId, list[i], open)))
  }

  /** With unique item ids, no two rendered sections share an element id. */
  lemma RenderedDomIdsUnique(instanceId: string, items: seq<Item>, open: set<string>)
    requires UniqueIds(items) && items != []
    ensures var views := Render(instanceId, Some(items), open).value;
      forall i, j :: 0 <= i < j < |views| ==> DomIds(views[i]) !! DomIds(views[j])
  {
    var views := Render(instanceId, Some(items), open).value;
    forall i, j | 0 <= i < j < |views| ensures DomIds(views[i]) !! DomIds(views[j]) {
      assert ItemIds(items)[i] != ItemIds(items)[j];
      DistinctSectionsDistinctDomIds(instanceId, items[i], items[j], open);
    }
  }

  /** Open ids that name no item are inert: the render is as if they were not there. */
  lemma RenderIgnoresUnknownIds(instanceId: string, items: seq<Item>, open: set<string>)
    ensures Render(instanceId, Some(items), open) == Render(instanceId, Some(items), open * ItemIdSet(items))
  {
    if items != [] {
      var a := Render(instanceId, Some(items), open).value;
      var b := Render(instanceId, Some(items), open * ItemIdSet(items)).value;
      forall i | 0 <= i < |items| ensures a[i] == b[i] {
        assert items[i].id in ItemIdSet(items);
      }
      assert a == b;
    }
  }

  /**
   * One mounted `Accordion`: its props, the instance id (`accordion-` and the
   * token `useId()` produced) and the open-set object its toggles go to.
   */
  class Accordion {
    /** The current `items` prop; a re-render may pass a new list. */
    var items: Option<seq<Item>>
    const instanceId: string
    const state: OpenItems

    ghost predicate Valid()
      reads this, state
    {
      state.Valid()
    }

    constructor (items: Option<seq<Item>>, allowMultiple: bool, defaultOpenItems: seq<string>, token: string)
      ensures Valid() && fresh(state)
      ensures this.items == items && instanceId == "accordion-" + token
      ensures state.allowMultiple == allowMultiple
      ensures state.Ids() == Elements(defaultOpenItems) && state.events == []
      ensures state.order == FromList(defaultOpenItems)
    {
      this.items := items;
      instanceId := "accordion-" + token;
      state := new OpenItems(defaultOpenItems, allowMultiple);
    }

    /**
     * A re-render with a new `items` prop. The open-set is kept as it is;
     * ids of sections no longer listed stay open but render nothing.
     */
    method SetItems(items: Option<seq<Item>>)
      requires Valid()
      modifies this
      ensures Valid()
      ensures this.items == items
      ensures state.order == old(state.order) && state.events == old(state.events)
    {
      this.items := items;
    }

    /** `toggleItem(id)`: the rule the hook uses too. */
    method ToggleItem(id: string)
      requires Valid()
      modifies state
      ensures Valid()
      ensures state.Ids() == ToggleRule(old(state.Ids()), id, state.allowMultiple)
      ensures state.order == ToggledOrder(old(state.order), id, state.allowMultiple)
      ensures state.events == old(state.events) + [ToggleEvent(id, id !in old(state.Ids()))]
    {
      state.ToggleItem(id);
    }

    /** `handleKeyDown(event, id)`: Enter and Space suppress the default action and toggle. */
    method HandleKeyDown(key: string, id: string) returns (defaultPrevented: bool)
      requires Valid()
      modifies state
      ensures Valid()
      ensures defaultPrevented <==> IsActivationKey(key)
      ensures defaultPrevented ==> state.order == ToggledOrder(old(state.order), id, state.allowMultiple)
      ensures defaultPrevented ==> state.events == old(state.events) + [ToggleEvent(id, id !in old(state.Ids()))]
      ensures !defaultPrevented ==> unchanged(state)
    {
      defaultPrevented := false;
      if key == "Enter" || key == " " {
        defaultPrevented := true;
        ToggleItem(id);
      }
    }

    /** A click on the trigger of section `i`: ignored when the section is disabled. */
    method Click(i: nat)
      requires Valid() && items.Some? && i < |items.value|
      modifies state
      ensures Valid()
      ensures items.value[i].disabled ==> unchanged(state)
      ensures !items.value[i].disabled ==>
        state.order == ToggledOrder(old(state.order), items.value[i].id, state.allowMultiple) &&
        state.events == old(state.events) + [ToggleEvent(items.value[i].id, items.value[i].id !in old(state.Ids()))]
    {
      var item := items.value[i];
      if !item.disabled {
        ToggleItem(item.id);
      }
    }

    /** A key press on the trigger of section `i`: ignored when the section is disabled. */
    method KeyDown(i: nat, key: string) returns (defaultPrevented: bool)
      requires Valid() && items.Some? && i < |items.value|
      modifies state
      ensures Valid()
      ensures defaultPrevented <==> !items.value[i].disabled && IsActivationKey(key)
      ensures !defaultPrevented ==> unchanged(state)
      ensures defaultPrevented ==>
        state.order == ToggledOrder(old(state.order), items.value[i].id, state.allowMultiple) &&
        state.events == old(state.events) + [ToggleEvent(items.value[i].id, items.value[i].id !in old(state.Ids()))]
    {
      var item := items.value[i];
      defaultPrevented := false;
      if !item.disabled {
        defaultPrevented := HandleKeyDown(key, item.id);
      }
    }

    /** `isItemOpen(id)`. */
    function IsItemOpen(id: string): (b: bool)
      reads this, state
      ensures b <==> id in state.Ids()
    {
      state.Has(id)
    }

    /** What the component renders now. */
    function View(): (r: Option<seq<ItemView>>)
      reads this, state
      ensures r.None? <==> items.None? || items.value == []
      ensures r.Some? ==> |r.value| == |items.value| && forall i :: 0 <= i < |r.value| ==>
        (r.value[i].expanded <==> IsItemOpen(items.value[i].id)) &&
        (r.value[i].describedBy.Some? <==> items.value[i].disabled)
    {
      Render(instanceId, items, state.Ids())
    }
  }

  /** An empty list renders nothing. */
  method EmptyListScenario() {
    var empty := new Accordion(Some([]), false, [], "r1");
    assert empty.View().None?;
  }

  /** A disabled section and a non-activation key change nothing; Space toggles. */
  method InteractionScenario() {
    var items := [Item("a", "A", Text("first"), true), Item("b", "B", Node(7), false)];
    var acc := new Accordion(Some(items), false, ["a"], "r2");
    acc.Click(0);
    var prevented := acc.KeyDown(0, "Enter");
    assert !prevented && acc.state.events == [];
    prevented := acc.KeyDown(1, "Tab");
    assert !prevented && acc.state.events == [];
    prevented := acc.KeyDown(1, " ");
    assert prevented && acc.state.Ids() == {"b"};
    assert acc.state.events == [ToggleEvent("b", true)];
  }

  /** The rendered attributes of a disabled, closed section beside an open one. */
  method ViewScenario() {
    var items := [Item("a", "A", Text("first"), true), Item("b", "B", Node(7), false)];
    var acc := new Accordion(Some(items), true, ["b"], "r3");
    var views := acc.View().value;
    assert views[1].expanded && !views[0].expanded && views[0].hidden;
    assert views[0].describedBy == Some(ElementId(acc.instanceId, "a", DisabledSuffix));
    assert views[1].describedBy.None?;
  }
}
