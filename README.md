# FlyBox schedule events and item editing, modelled in Dafny

FlyBox drives groups of lights from a schedule. This project models two
pieces of it.

**The firmware's event list** (`events.dfy`, module `Events`). The firmware
keeps the schedule as a singly linked list of `Event` nodes. `NewEvent` builds
a detached, inactive node. `NewEventList` builds an empty list. `AddEvent`
walks `next` pointers to the tail, links the new node there and bumps the
`n_events` counter. Three rules decide whether an event is active at the
current day, hour and minute:

- `check_for_event_start` is a latch that switches the event on at its exact start.
- `check_for_event_end` is a latch that switches it off at its exact stop.
- `check_to_run_event` overwrites the flag with a half-open window test.

`get_longest_event` scans the list for the latest end time, in minutes.

The list is a pair of Dafny classes. `EventList` carries a ghost sequence
`Nodes`, the chain from `root` in order. `Valid()` ties it to the `next`
pointers and says the nodes are distinct, so the chain has no cycle. It also
says `n_events` equals the chain's length.

An event's device, frequency, intensity, sunset flag and start and stop
times are `const` fields, because nothing in this code writes them after
`NewEvent`. Only `isActive` and `next` are mutable. A `Time` (day, hour,
minute) is a value, because the code only reads it.

**The GUI's context menu** (`context_menu.dfy`, module `ContextMenu`). The
programming GUI edits schedule items (`id`, `start`, `end`, `intensity`,
`frequency`) through a context menu:

- `findVal` resolves the value the selected items share for a field, or null.
- `deleteItem` removes the item.
- `handleSave` writes the edit back. In multi mode (more than one id selected)
  it overwrites frequency and intensity on every selected item, skipping a
  null draft. In single mode it writes the item draft into the parent's
  array, in place.
- `handleInput` accepts a number into the draft only within [0, 100].
- `handleTimeInput` turns a picked time into a timestamp on the item's day.
  An end of 00:00 goes on the next day.

The pure transforms are functions over `seq<Item>`. The component's React
state (the shared intensity and frequency drafts and the item draft) is the
class `Menu`. The parent's item array, which the single-mode save mutates,
is an `array<Item>`.

A numeric field holds a JavaScript value: `Num(n)`, `Null` or `Undefined`.
This keeps `undefined` distinct from `null`, so the model shows what
`findVal` returns for an empty selection and that a multi-mode save
writes such a draft into no item of the list it was resolved from. The helpers `getDay` and `getMsTime` live in a file that is not part
of this model. They are the two functions of a `TimeHandler` record that
callers pass in, and nothing is assumed about their arithmetic.

### Behaviour of the code worth knowing (the model follows the code)

- `check_to_run_event` multiplies the event's start and stop days by 1400,
  but the current day by 1440 (events.cpp:123-125). So from day 1 on, the
  window opens and closes 40 minutes early for every day. `RunWindowShift`
  states this in general. `RunWindowDriftsEarly` shows it for an event set
  for day 1, 00:00-01:00: it is active from 23:20 on day 0 until 00:20 on
  day 1. `get_longest_event` uses 60*24 (events.cpp:174).
- The number inputs declare `min={0}` and `max={100}`, but only the item
  draft goes through the [0, 100] guard. `handleIntensity` and
  `handleFrequency` pass any number to `setIntensity`/`setFrequency`. So the
  shared draft, which the input displays, can hold 150, and a multi-mode
  save writes that into every selected item (`OutOfRangeSharedDraftIsSaved`).
- With no selected item, `findVal` returns `vals[0]` of an empty list, which
  is `undefined`, not null. Saving that draft into the list it was resolved
  from changes nothing, because no item there has a selected id
  (`SaveResolvedIsIdentity`). `undefined` is written only if an item with a
  selected id enters the list after the effect has run.
- `deleteItem` uses `without`, which drops every element identical to the
  item, not just the first one.
- `n_events` starts as `NULL`, which is 0.

## Model

| member | source | states |
|---|---|---|
| `Events.Event.constructor` | firmware/src/utils/events.cpp:7-20 | NewEvent: the node holds exactly the given device, frequency, intensity, sunset, start and stop, is inactive and has no next node |
| `Events.EventList.constructor` | firmware/src/utils/events.cpp:22-29 | NewEventList: root is null, the counter is 0, the chain is empty and the list invariant holds |
| `Events.AddEvent` | firmware/src/utils/events.cpp:31-42 | the chain becomes the old chain followed by the new node; an empty list gets the node as root, otherwise the root is kept; the counter rises by exactly 1, so it stays equal to the chain length; earlier nodes keep their order and their active flags |
| `Events.CheckForEventStart` | firmware/src/utils/events.cpp:94-103 | the flag is switched on when the start day, hour and minute all equal the current ones, and is otherwise unchanged; no other field changes |
| `Events.CheckForEventEnd` | firmware/src/utils/events.cpp:105-114 | the flag is switched off when the stop day, hour and minute all equal the current ones, and is otherwise unchanged; no other field changes |
| `Events.CheckToRunEvent` | firmware/src/utils/events.cpp:116-132 | the flag always becomes: start*1400-day-minutes <= now*1440-day-minutes < stop*1400-day-minutes, whatever it was; no other field changes |
| `Events.RunWindowShift` | firmware/src/utils/events.cpp:123-127 | the window is the real interval [start, stop) moved earlier by 40 minutes per day of start and of stop |
| `Events.RunWindowDriftsEarly` | firmware/src/utils/events.cpp:123-125 | an event set for day 1 00:00-01:00 is active from day 0 23:20 up to day 1 00:20, and not just outside |
| `Events.LongestEndIsMaximum` | firmware/src/utils/events.cpp:169-181 | the longest end is at least 0, at least every end time (day*1440+hour*60+min), and is 0 or one of them |
| `Events.GetLongestEvent` | firmware/src/utils/events.cpp:169-181 | the loop over the first n_events nodes returns the maximum of 0 and every node's end minute, reading the list only |
| `ContextMenu.IsMulti` | programming-gui/src/components/ContextMenu.tsx:22 | `multi`: holds exactly when at least two ids are selected |
| `ContextMenu.FirstIndex` | programming-gui/src/components/ContextMenu.tsx:19-20 | the position `find` stops at: an item with the id and none before it, or no item has the id |
| `ContextMenu.Find` | programming-gui/src/components/ContextMenu.tsx:19-20 | the item found belongs to the list and has the id; nothing is found exactly when no item has the id |
| `ContextMenu.Selected` | programming-gui/src/components/ContextMenu.tsx:21 | an item is kept exactly when it is in the list and its id is selected |
| `ContextMenu.Pluck` | programming-gui/src/components/ContextMenu.tsx:43 | `pluck`: one value per item, in order, each the item's value of the field |
| `ContextMenu.Every` | programming-gui/src/components/ContextMenu.tsx:44 | `every` holds exactly when each value equals the given one |
| `ContextMenu.FindVal` | programming-gui/src/components/ContextMenu.tsx:42-47 | the common value when all selected items agree on the field, null when any two disagree, undefined when none is selected |
| `ContextMenu.ResolvedAgreesWithSelected` | programming-gui/src/components/ContextMenu.tsx:42-47 | the resolved value is null or equals the field of every selected item |
| `ContextMenu.Without` | programming-gui/src/components/ContextMenu.tsx:50 | `without`: an element survives exactly when it was in the list and differs from the item; the list gets shorter when the item was in it |
| `ContextMenu.WithoutCounts` | programming-gui/src/components/ContextMenu.tsx:50 | every copy of the item is removed and every other element keeps its number of copies |
| `ContextMenu.WithoutAbsent` | programming-gui/src/components/ContextMenu.tsx:50 | removing an item that is not there leaves the list unchanged |
| `ContextMenu.WithoutConcat` | programming-gui/src/components/ContextMenu.tsx:50 | removal distributes over concatenation, so the surviving items keep their relative order |
| `ContextMenu.WithoutBetween` | programming-gui/src/components/ContextMenu.tsx:50 | an item absent from both sides is dropped from between them and nothing else is: the result is the two sides joined |
| `ContextMenu.WithoutSingleOccurrence` | programming-gui/src/components/ContextMenu.tsx:50 | an item present only at position k leaves exactly the items before k followed by the items after k |
| `ContextMenu.DeleteRemovesOnlyTarget` | programming-gui/src/components/ContextMenu.tsx:49-52 | with unique ids, deleting the item at position k leaves every other item, in its original order |
| `ContextMenu.DeleteItem` | programming-gui/src/components/ContextMenu.tsx:49-52 | deleteItem hands the parent the list without the found item, shorter, with every other item kept, and closes the menu |
| `ContextMenu.IndexOf` | programming-gui/src/components/ContextMenu.tsx:125 | `indexOf`: the first position holding the item, or -1 exactly when it is absent |
| `ContextMenu.IndexOfFoundItem` | programming-gui/src/components/ContextMenu.tsx:124-125 | `indexOf` of the item `find` returned is the position where `find` stopped |
| `ContextMenu.SharedValue` | programming-gui/src/components/ContextMenu.tsx:110-111 | a null draft keeps the item's own value; any other draft, `undefined` included, replaces it |
| `ContextMenu.MultiSave` | programming-gui/src/components/ContextMenu.tsx:105-117 | length, order, ids and times are kept; unselected items are unchanged; a selected item takes each non-null shared draft and keeps its own value where the draft is null |
| `ContextMenu.SaveResolvedIsIdentity` | programming-gui/src/components/ContextMenu.tsx:105-117 | saving the drafts exactly as findVal resolved them from the selection changes nothing |
| `ContextMenu.SaveThenResolve` | programming-gui/src/components/ContextMenu.tsx:105-117 | after a multi-mode save with a non-null draft, resolving the (non-empty) selection again gives that draft back |
| `ContextMenu.NumericInput` | programming-gui/src/components/ContextMenu.tsx:73-76 | the field takes the number when it is in [0, 100]; otherwise the draft is unchanged; other fields never change |
| `ContextMenu.SharedAfterInput` | programming-gui/src/components/ContextMenu.tsx:84-96 | the shared draft takes any number, with no range check, and is unchanged for non-numeric input |
| `ContextMenu.OutOfRangeSharedDraftIsSaved` | programming-gui/src/components/ContextMenu.tsx:91-96 | 150 is refused by the item draft, but becomes the shared intensity, which a multi-mode save writes into a selected item |
| `ContextMenu.TimeInput` | programming-gui/src/components/ContextMenu.tsx:58-71 | a cleared picker changes nothing; a picked time replaces only the labelled field, using the item's start day, or the next day for an end of 00:00 |
| `ContextMenu.MidnightEndIsNextDay` | programming-gui/src/components/ContextMenu.tsx:62-68 | an end of 00:00 lands on the day after the start day; an end of 23:59 and a start of 00:00 stay on the start day |
| `ContextMenu.Menu.constructor` | programming-gui/src/components/ContextMenu.tsx:17-19 | on first render both shared drafts are undefined and the item draft is the item with the menu's id |
| `ContextMenu.Menu.Refresh` | programming-gui/src/components/ContextMenu.tsx:24-30 | for a render that passed the guard (draft and item present): when the id or selection changes, both shared drafts are re-resolved with findVal; outside multi mode the item draft is re-read from the list, dropping earlier typing |
| `ContextMenu.Menu.HandleTimeInput` | programming-gui/src/components/ContextMenu.tsx:58-71 | the item draft becomes TimeInput of the old draft, using the start of the item in the list; the shared drafts are unchanged |
| `ContextMenu.Menu.HandleNumber` | programming-gui/src/components/ContextMenu.tsx:84-96 | handleIntensity/handleFrequency: the item draft goes through the range guard; the matching shared draft takes the number unguarded; the other shared draft is unchanged |
| `ContextMenu.Menu.HandleSave` | programming-gui/src/components/ContextMenu.tsx:98-130 | no item, or a draft starting after it ends: no call and no change. Multi mode (more than one id selected): the array is untouched and the parent gets MultiSave of it, menu left open. Single mode: the array gets the draft at the item's position and nothing else changes; the parent gets that array and the menu closes |

## Left out

- `DecodeFile` (events.cpp:44-92) is not part of this model. It does SD-card I/O, JSON decoding and LCD output, and waits forever for a knob press.
- `run_event` and `kill_event` (events.cpp:134-167) are not part of this model. They do floating-point PWM scaling, read `millis()` and write hardware pins.
- `malloc` is modelled as allocation of a new object, which cannot fail.
- C `int` arithmetic is unbounded here. Overflow of `day*1440` and of the `n_events` counter is not modelled.
- Events.AddEvent: requires the new node to be detached (`next` null) and not already in the list. Every caller passes a fresh `NewEvent` node. Appending a node that already has a tail, or one already in the list (a cycle in C), is not modelled.
- Events.CheckForEventStart: takes the clock's hour and minute as two integers in place of the RTC `DateTime` object.
- Comparisons between the unsigned day fields and the signed `days_elapsed` are modelled as plain integer comparisons, which agree for non-negative days.
- Rendering, styling, positioning, `TimePicker`, `handleKeyDown` focus handling and `console.log` are not part of this model.
- The React lifecycle is not modelled. The effect is the method `Menu.Refresh`, which callers invoke when the id or the selection changes. Each `setX` call takes effect at once.
- The menu's handlers exist only once the render guard (`edit` and `item` both present) has passed. `HandleTimeInput`, `HandleNumber` and `HandleSave` require the draft to be present for that reason, and `HandleTimeInput` also requires the item.
- ContextMenu.Menu.Refresh: requires the draft and the item to be present. After a render that returned early at the guard, the effect throws at its first `findVal` call, because `findVal` is declared after the guard and is not yet initialised. That failing run, which sets nothing, is not modelled.
- `getDay` and `getMsTime` are the `TimeHandler` functions that callers pass in. Their arithmetic and `getHour`/`getMin` are not modelled.
- `val.split(":")` is not modelled. The picker's value is either cleared or a pair of "HH" and "MM" strings.
- JavaScript's loose comparisons and `+value` coercion are not modelled. Input arrives as an already-parsed integer or as not-a-number. Fractional numbers are not modelled. An empty input, which JavaScript reads as 0, is `Number(0)`.
- `without` and `indexOf` compare object references; the model compares item values. The two agree when no two list entries are equal records, which unique ids guarantee.
- `deleteItem`'s second call (`setItemMenu` with id -1) is the `closeMenu` flag of the returned effect. The same holds for `handleSave`.
