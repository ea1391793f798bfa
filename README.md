# Accordion open-set model

A Dafny model of the state machine behind the `Accordion` React component and
its `useAccordion` hook: a set of open section ids, changed by toggle, open,
close, open-all and close-all, reported through `onToggle`, and reflected in
each section's element ids and ARIA attributes.

Modules, one per concern of the source:

- `OrderedSet` (`ordered_set.dfy`): a JavaScript `Set<string>` as what it is
  observably, a sequence of distinct strings in insertion order. `add`,
  `delete` and `new Set(iterable)` are `Add`, `Delete` and `FromList`.
- `AccordionTypes` (`types.dfy`): the section descriptor (`Item`, with
  `Content` either `Text` or an opaque `Node`) and the id lists of an item list.
- `OpenSet` (`open_set.dfy`): the toggle rule, once. `ToggleRule` states it
  on sets, `ToggledOrder` on the insertion order, and the class `OpenItems`
  holds the state (`order`, the `onToggle` log `events`, `allowMultiple`).
  Its method `ToggleItem` copies the set, deletes or (clears and) adds, logs
  `(id, !wasOpen)` and stores, as both source files do.
- `UseAccordion` (`use_accordion.dfy`): the hook. The class `AccordionHook`
  holds the items and an `OpenItems`, and its actions call the shared
  `ToggleItem`. `Step`/`Emitted`/`Run` describe the actions as functions of
  the open-set, so that properties of whole runs can be stated.
- `AccordionComponent` (`accordion.dfy`): the component. The class `Accordion`
  filters clicks and keys (disabled sections, Enter and Space only) before
  calling the same `ToggleItem`. `Render`/`ViewOf` give what is rendered as a
  pure function of (instance id, items, open-set).

The `instanceId` is `"accordion-"` followed by a token passed in where the
source calls `useId()`. The `onToggle` callback is the event log: every call
the source makes to it is appended, in order. With no callback supplied,
nothing reads the log.

Two properties of the code are narrower than they may look:

- Toggling an id twice restores the open-set only when `allowMultiple` holds
  or nothing but that id was open (`OpenSet.ToggleTwice`). The order
  `getOpenItems` reports need not be restored: in multi mode an id that was
  open ends up last (`OpenSet.ToggleTwiceMovesLast`), so the order comes back
  exactly when that id was already last (`OpenSet.ToggleTwiceRestoresOrder`,
  with the concrete case `OpenSet.ToggleTwiceReorders`). An id that was
  closed is added and removed again, which restores the order
  (`OpenSet.ToggleTwiceClosedRestoresOrder`).
- With `allowMultiple` false, a run without `openAllItems` keeps at most one
  section open once that holds (`UseAccordion.RunKeepsSingleOpen`); a toggle
  or open of a closed id also brings any open-set down to that one id.
  `openAllItems` and a `defaultOpenItems` list of two or more different ids can break it
  (`UseAccordion.OpenAllBreaksSingleOpen`).
- The `items` prop can change between renders while the open-set is kept
  (`SetItems` on both classes). Ids left open by a section that is no longer
  listed are, like unknown `defaultOpenItems` ids, open ids that name no item.

## Model

| member | source | states |
|---|---|---|
| `OrderedSet.Add` | src/Accordion/useAccordion.ts:32 | `set.add(x)` adds exactly `x` to the members and keeps them distinct. A new member goes last and the earlier order is kept. Adding a member that is already there changes nothing. |
| `OrderedSet.Delete` | src/Accordion/useAccordion.ts:27 | `set.delete(x)` removes exactly `x` and keeps the others in order (a subsequence), one entry shorter. Deleting a non-member changes nothing. |
| `OrderedSet.FromList` | src/Accordion/useAccordion.ts:14-16 | `new Set(xs)` has exactly the strings of `xs` as members, each once, and is no longer than `xs`. A list without repeats is kept as it is. |
| `OrderedSet.DistinctCard` | src/Accordion/useAccordion.ts:81 | A `Set`'s `size` (the length of its distinct sequence) equals the number of its members. |
| `AccordionTypes.ItemIds` | src/Accordion/useAccordion.ts:66 | `items.map(item => item.id)` is one id per item, in item order. |
| `AccordionTypes.ItemIdSet` | src/Accordion/useAccordion.ts:66-67 | The set built from the item ids holds exactly the ids of some item. |
| `AccordionTypes.UniqueIdsCard` | src/Accordion/Accordion.tsx:4-9 | With unique section ids there are exactly as many distinct ids as items. |
| `OpenSet.ToggleRule` | src/Accordion/useAccordion.ts:24-33 | Toggling flips the id's membership. Any other id stays as it was when the toggled id was open or `allowMultiple` holds, and is closed otherwise. So an open id is removed alone, a closed id gives `{id}` (single mode) or `old + {id}` (multi mode). |
| `OpenSet.ToggledOrder` | src/Accordion/useAccordion.ts:23-33 | On the insertion order, the toggle keeps ids distinct and has `ToggleRule`'s members. Closing keeps the others in order. Opening puts the id last, after the previous order in multi mode. |
| `OpenSet.ToggleKeepsSingleOpen` | src/Accordion/useAccordion.ts:26-33 | With `allowMultiple` false, a toggle from at most one open id leaves at most one open. |
| `OpenSet.ToggleTwice` | src/Accordion/useAccordion.ts:26-33 | Toggling an id twice restores the open-set if and only if `allowMultiple` holds or the open-set was within `{id}`. |
| `OpenSet.ToggleTwiceReorders` | src/Accordion/useAccordion.ts:23-33 | In multi mode, toggling `a` twice in `[a, b]` restores the members but gives the order `[b, a]`. |
| `OpenSet.ToggleTwiceMovesLast` | src/Accordion/useAccordion.ts:23-33 | In multi mode, toggling an open id twice gives the old order with that id deleted and appended last. |
| `OpenSet.ToggleTwiceRestoresOrder` | src/Accordion/useAccordion.ts:23-33 | In multi mode, toggling an open id twice restores the insertion order if and only if the id was last. |
| `OpenSet.ToggleTwiceClosedRestoresOrder` | src/Accordion/useAccordion.ts:23-33 | In multi mode, toggling a closed id twice appends it and deletes it again, so the insertion order is restored exactly. |
| `OpenSet.OpenItems.constructor` | src/Accordion/useAccordion.ts:14-16 | The initial open-set is exactly the ids of `defaultOpenItems`, unknown ones kept, with no `onToggle` call yet. |
| `OpenSet.OpenItems.Has` | src/Accordion/useAccordion.ts:43 | `openItems.has(id)` is membership in the open-set. |
| `OpenSet.OpenItems.ToggleItem` | src/Accordion/useAccordion.ts:20-40 | The new open-set is `ToggleRule` of the old one and the order is `ToggledOrder`. Exactly one `onToggle(id, !wasOpen)` is appended, and its flag is the id's new membership. |
| `OpenSet.OpenItems.Replace` | src/Accordion/useAccordion.ts:67 | `setOpenItems(new Set(ids))` makes the open-set exactly `ids` and calls no `onToggle`. |
| `UseAccordion.Step` | src/Accordion/useAccordion.ts:47-72 | After `openItem(id)` the id is open; after `closeItem(id)` it is closed. Either leaves the set as it was when the id was already in the wanted state. `closeAllItems` empties the set, and `openAllItems` makes it exactly the item ids. |
| `UseAccordion.Emitted` | src/Accordion/useAccordion.ts:35 | `openAllItems` and `closeAllItems` call no `onToggle`. `openItem` calls it only for a closed id and `closeItem` only for an open one, at most once per action. |
| `UseAccordion.EmittedReportsNewState` | src/Accordion/useAccordion.ts:35 | Every `onToggle(id, isOpen)` an action makes names the acted-on id and reports its membership after the action. |
| `UseAccordion.StepKeepsSingleOpen` | src/Accordion/useAccordion.ts:47-72 | With `allowMultiple` false, toggle, open, close and close-all keep at most one section open. |
| `UseAccordion.RunKeepsSingleOpen` | src/Accordion/useAccordion.ts:20-72 | With `allowMultiple` false, any sequence of actions without open-all, started from at most one open id, ends with at most one open id. |
| `UseAccordion.OpenAllBreaksSingleOpen` | src/Accordion/useAccordion.ts:65-68 | `openAllItems` ignores `allowMultiple`: with two different ids among the items, at least two sections are open afterwards. |
| `UseAccordion.ClosedIds` | src/Accordion/useAccordion.ts:76-79 | `getClosedItems()` holds exactly the item ids not in the open-set, in item order (a subsequence of the ids). It is disjoint from the open-set and no longer than the item list. |
| `UseAccordion.HasOpen` | src/Accordion/useAccordion.ts:81 | `hasOpenItems` holds if and only if the open-set is non-empty. |
| `UseAccordion.HasClosedByMembership` | src/Accordion/useAccordion.ts:82 | Corrected `hasClosedItems`: true if and only if some item's id is not open, which is exactly when `getClosedItems()` is non-empty. |
| `UseAccordion.HasClosedBySizeSound` | src/Accordion/useAccordion.ts:82 | With unique ids, the size comparison as written never reports a closed item when there is none. |
| `UseAccordion.HasClosedAgreesOnKnownIds` | src/Accordion/useAccordion.ts:82 | With unique ids and every open id naming an item, the size comparison and the membership reading agree. |
| `UseAccordion.HasClosedBySizeMissesClosedItem` | src/Accordion/useAccordion.ts:82 | Items `a`, `b` with `defaultOpenItems` `[a, zz]`: `openItems.size < items.length` is false, yet `getClosedItems()` is `[b]`. |
| `UseAccordion.AccordionHook.constructor` | src/Accordion/useAccordion.ts:14-18 | Initial open-set is the `defaultOpenItems` ids, in the order `new Set(defaultOpenItems)` gives (`FromList`), so `getOpenItems()` after mount is known. The instance id is `accordion-` plus the token. No `onToggle` call has happened yet. |
| `UseAccordion.AccordionHook.SetItems` | src/Accordion/useAccordion.ts:8-16 | A re-render with a new `items` prop replaces the list and keeps the open-set, its order and the log: `useState` ignores `defaultOpenItems` after mount. |
| `UseAccordion.AccordionHook.ToggleItem` | src/Accordion/useAccordion.ts:20-40 | The open-set moves by the toggle rule and its insertion order by `ToggledOrder`, with exactly one `onToggle(id, !wasOpen)`. |
| `UseAccordion.AccordionHook.IsItemOpen` | src/Accordion/useAccordion.ts:42-45 | `isItemOpen(id)` is membership in the open-set. |
| `UseAccordion.AccordionHook.OpenItem` | src/Accordion/useAccordion.ts:47-54 | Afterwards the id is open. An id that was already open leaves state and log untouched (idempotent, no callback). A closed one is toggled, so the order becomes `ToggledOrder` of the old one, with one `onToggle(id, true)`. |
| `UseAccordion.AccordionHook.CloseItem` | src/Accordion/useAccordion.ts:56-63 | Afterwards the id is closed. An id that was already closed leaves state and log untouched. An open one is toggled, so the order becomes `ToggledOrder` of the old one, with one `onToggle(id, false)`. |
| `UseAccordion.AccordionHook.OpenAllItems` | src/Accordion/useAccordion.ts:65-68 | The open-set becomes exactly the item ids, in item order, and no `onToggle` is called. |
| `UseAccordion.AccordionHook.CloseAllItems` | src/Accordion/useAccordion.ts:70-72 | The open-set becomes empty and `hasOpenItems` false. No `onToggle` is called. |
| `UseAccordion.AccordionHook.GetOpenItems` | src/Accordion/useAccordion.ts:74 | `Array.from(openItems)` is the insertion order of the open-set: each open id exactly once and nothing else. |
| `UseAccordion.AccordionHook.GetClosedItems` | src/Accordion/useAccordion.ts:76-79 | The item ids for which `isItemOpen` is false, in item order. |
| `UseAccordion.AccordionHook.HasOpenItems` | src/Accordion/useAccordion.ts:81 | `openItems.size > 0` is `HasOpen` of the open-set: it holds if and only if some id is open. |
| `UseAccordion.AccordionHook.HasClosedItems` | src/Accordion/useAccordion.ts:82 | As written, `openItems.size < items.length` over the current list. With unique ids, true implies `getClosedItems()` is non-empty. The two are equivalent when every open id names an item. |
| `AccordionComponent.ElementIdInjective` | src/Accordion/Accordion.tsx:89-91 | Within one instance, `${instanceId}-item-${id}` plus `-header`, `-content` or `-disabled` names exactly one part of exactly one section. |
| `AccordionComponent.ViewOf` | src/Accordion/Accordion.tsx:87-163 | Per section: `headerId` and `contentId` are the `-header` and `-content` ids and differ. `aria-controls` names the content and `aria-labelledby` names the header. `aria-expanded` is open-set membership and `aria-hidden` its negation. `aria-describedby` is present, as the `-disabled` id, exactly for a disabled section, and the note with that id is rendered exactly then. Text content is wrapped in a paragraph, other content passed on. |
| `AccordionComponent.DistinctSectionsDistinctDomIds` | src/Accordion/Accordion.tsx:89-91 | Two sections with different ids share no element id. |
| `AccordionComponent.Render` | src/Accordion/Accordion.tsx:75-164 | An absent or empty item list renders nothing (`null`). Otherwise there is one view per item, in item order. |
| `AccordionComponent.RenderedDomIdsUnique` | src/Accordion/Accordion.tsx:87-164 | With unique item ids, no two rendered sections share an element id. |
| `AccordionComponent.RenderIgnoresUnknownIds` | src/Accordion/Accordion.tsx:88 | Open ids that name no item are inert: the render equals the render with them removed. |
| `AccordionComponent.Accordion.constructor` | src/Accordion/Accordion.tsx:32-36 | The initial open-set is exactly the `defaultOpenItems` ids, unknown ids kept, in the order `new Set(defaultOpenItems)` gives. The instance id is `accordion-` plus the token. |
| `AccordionComponent.Accordion.SetItems` | src/Accordion/Accordion.tsx:22-34 | A re-render with a new `items` prop replaces the list and keeps the open-set, its order and the log. |
| `AccordionComponent.Accordion.ToggleItem` | src/Accordion/Accordion.tsx:38-58 | The same rule as the hook's: `ToggleRule` on the set, `ToggledOrder` on the order, one `onToggle(id, !wasOpen)`. |
| `AccordionComponent.Accordion.HandleKeyDown` | src/Accordion/Accordion.tsx:60-68 | A key toggles, and has its default suppressed, if and only if it is `"Enter"` or `" "`. Any other key changes no state and calls no `onToggle`. |
| `AccordionComponent.Accordion.Click` | src/Accordion/Accordion.tsx:108 | A click on a disabled section changes nothing and calls no `onToggle`. On an enabled one it toggles that section's id. |
| `AccordionComponent.Accordion.KeyDown` | src/Accordion/Accordion.tsx:109 | A key on a section toggles it, and suppresses the default, if and only if the section is enabled and the key is Enter or Space. Otherwise nothing changes. |
| `AccordionComponent.Accordion.IsItemOpen` | src/Accordion/Accordion.tsx:70-73 | `isItemOpen(id)` is membership in the open-set. |
| `AccordionComponent.Accordion.View` | src/Accordion/Accordion.tsx:75-166 | The component renders nothing exactly for an absent or empty list. Otherwise each section's `aria-expanded` is `isItemOpen` of its id and its `aria-describedby` is present exactly when it is disabled. |

## Findings

| source | as written | input that shows it | evidently intended | confidence | as-written member | corrected member |
|---|---|---|---|---|---|---|
| src/Accordion/useAccordion.ts:82 | `hasClosedItems` is `openItems.size < items.length`, a size comparison | items `a`, `b`, `defaultOpenItems` `["a", "zz"]`: size 2 is not below 2, so `hasClosedItems` is false while `getClosedItems()` is `["b"]` | true exactly when some item is closed, i.e. `getClosedItems()` is non-empty | medium (unknown default ids are kept on purpose); not executed | `UseAccordion.HasClosedBySizeMissesClosedItem` | `UseAccordion.HasClosedByMembership` |

The hook's `HasClosedItems` keeps the size comparison the source has.
`HasClosedBySizeSound` and `HasClosedAgreesOnKnownIds` show when it matches the
corrected reading: with unique ids it is never wrong in the "closed" direction,
and it is exact once every open id names an item. On the hook itself,
`UseAccordion.UnknownDefaultScenario` reaches the gap through an unknown
default id and `UseAccordion.RerenderScenario` through a re-render that drops
an open section.

## Left out

- React machinery: `useState`, `useCallback`, dependency arrays, the functional updater, batching and re-render timing. Each action is applied at once, in sequence, to one state object. This also covers the stale `isItemOpen` that `openItem`/`closeItem` may capture between renders.
- `useId`: the token is a parameter. Uniqueness of tokens across instances, and ids across instances, are not modelled.
- `allowMultiple` is fixed per instance. The source reads the current prop on each render.
- Props other than `items` and `allowMultiple` (`defaultOpenItems`, `onToggle`) are fixed per instance. `defaultOpenItems` is read only at mount; a changed `onToggle` would only change who receives the log.
- Cosmetic output: CSS module class names, `variant`, `size`, `className`, `data-testid`, the root's `data-accordion-id`, the SVG icon, the root region's role and label, the content region's `role="region"`, and the note's text. None of them affects the open-set.
- `React.ReactNode` content is an opaque handle (`Content.Node`). Only the text/node distinction is kept.
- `event.preventDefault()` is the boolean `defaultPrevented` that the key handlers return.
- A browser dispatches no events to a `disabled` button. The model keeps only the explicit `!item.disabled` guard, which gives the same result.
- Duplicate item ids (React keys, repeated `getClosedItems` entries) are not excluded. The lemmas that need unique ids require `UniqueIds`.
- src/Accordion/types.ts (declarations only, duplicating the item and props shapes) and src/Accordion/index.ts (re-exports) are not part of this model.
