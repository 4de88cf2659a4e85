/**
 * The editing logic of the programming GUI's context menu: resolving the
 * shared value of a field across the selected schedule items, deleting an
 * item, saving the draft back into the item list (one item, or the shared
 * frequency and intensity of every selected item), and the guards on the
 * numeric and time inputs that feed the draft.
 *
 * Rendering, positioning and focus handling are not modelled. The React
 * state of the component (the two shared drafts and the item draft) is the
 * class `Menu`; the parent's item array, which a single-item save writes
 * into in place, is an `array<Item>`; everything that builds a new list is a
 * function over `seq<Item>`.
 */
module ContextMenu {

  datatype Option<T> = None | Some(value: T)

  /** A JavaScript value held in a numeric field: a number, `null` or `undefined`. */
  datatype Val = Num(n: int) | Null | Undefined

  /** A schedule item; `start` and `end` are timestamps in milliseconds. */
  datatype Item = Item(id: int, start: int, end: int, intensity: Val, frequency: Val)

  /** The two fields that can be edited across a multi-selection. */
  datatype Field = Intensity | Frequency

  /** A call the menu makes on its parent: `setData(newData)`, then, if `closeMenu`, `setItemMenu` with id -1. */
  datatype Effect = NoEffect | SetData(newData: seq<Item>, closeMenu: bool)

  function Get(item: Item, field: Field): Val {
    match field
    case Intensity => item.intensity
    case Frequency => item.frequency
  }

  /** `{ ...item, [field]: v }` */
  function Put(item: Item, field: Field, v: Val): Item {
    match field
    case Intensity => item.(intensity := v)
    case Frequency => item.(frequency := v)
  }

  /** The menu is in multi-edit mode when more than one id is selected. */
  predicate IsMulti(selectedIds: seq<int>): (r: bool)
    ensures r <==> |selectedIds| >= 2
  {
    |selectedIds| > 1
  }

  /** Ids are unique within the item list. */
  ghost predicate UniqueIds(data: seq<Item>) {
    forall i, j :: 0 <= i < j < |data| ==> data[i].id != data[j].id
  }

  // ---------------------------------------------------------------------------
  // Selection

  /** The position of the first item whose id is `id` (what `data.find` stops at). */
  function FirstIndex(data: seq<Item>, id: int): (r: Option<nat>)
    ensures r.Some? ==> r.value < |data| && data[r.value].id == id
    ensures r.Some? ==> forall j :: 0 <= j < r.value ==> data[j].id != id
    ensures r.None? ==> forall j :: 0 <= j < |data| ==> data[j].id != id
  {
    if data == [] then None
    else if data[0].id == id then Some(0)
    else match FirstIndex(data[1..], id)
      case None => None
      case Some(k) => Some(k + 1)
  }

  /** `data.find(item => item.id == id)` */
  function Find(data: seq<Item>, id: int): (r: Option<Item>)
    ensures r.Some? ==> r.value in data && r.value.id == id
    ensures r.None? <==> forall x :: x in data ==> x.id != id
  {
    match FirstIndex(data, id)
    case None => None
    case Some(k) => Some(data[k])
  }

  /** `data.indexOf(x)`: the first position holding `x`, or -1. */
  function IndexOf(data: seq<Item>, x: Item): (r: int)
    ensures -1 <= r < |data|
    ensures r == -1 <==> x !in data
    ensures 0 <= r ==> data[r] == x && forall j :: 0 <= j < r ==> data[j] != x
  {
    if data == [] then -1
    else if data[0] == x then 0
    else
      var k := IndexOf(data[1..], x);
      if k == -1 then -1 else k + 1
  }

  /** The item `find` returns sits where `indexOf` looks for it: the first position with its id. */
  lemma IndexOfFoundItem(data: seq<Item>, id: int, k: nat)
    requires FirstIndex(data, id) == Some(k)
    ensures IndexOf(data, data[k]) == k
  {
    var j := IndexOf(data, data[k]);
    assert data[k] in data;
    assert data[j].id == id;
  }

  /** `data.filter(item => selectedIds.includes(item.id))` */
  function Selected(data: seq<Item>, selectedIds: seq<int>): (r: seq<Item>)
    ensures |r| <= |data|
    ensures forall x :: x in r <==> x in data && x.id in selectedIds
  {
    if data == [] then []
    else
      var rest := Selected(data[1..], selectedIds);
      assert forall x :: x in data <==> x == data[0] || x in data[1..];
      if data[0].id in selectedIds then [data[0]] + rest else rest
  }

  // ---------------------------------------------------------------------------
  // findVal

  /** `_(items).pluck(field)` */
  function Pluck(items: seq<Item>, field: Field): (r: seq<Val>)
    ensures |r| == |items| && forall i :: 0 <= i < |items| ==> r[i] == Get(items[i], field)
  {
    seq(|items|, i requires 0 <= i < |items| => Get(items[i], field))
  }

  /** `vals.every(val => val === v)` */
  function Every(vals: seq<Val>, v: Val): (r: bool)
    ensures r <==> forall i :: 0 <= i < |vals| ==> vals[i] == v
  {
    if vals == [] then true
    else vals[0] == v && Every(vals[1..], v)
  }

  /** All the items agree on `field`. */
  ghost predicate Unanimous(items: seq<Item>, field: Field) {
    forall i, j :: 0 <= i < |items| && 0 <= j < |items| ==> Get(items[i], field) == Get(items[j], field)
  }

  /**
   * findVal: the value the selected items share for `field`, or null when
   * they disagree; with no item at all, `vals[0]` is undefined.
   */
  function FindVal(items: seq<Item>, field: Field): (r: Val)
    ensures items == [] ==> r == Undefined
    ensures items != [] && Unanimous(items, field) ==> r == Get(items[0], field)
    ensures !Unanimous(items, field) ==> r == Null
  {
    var vals := Pluck(items, field);
    var first := if vals == [] then Undefined else vals[0];
    if Every(vals, first) then first else Null
  }

  // ---------------------------------------------------------------------------
  // deleteItem

  /** `_(data).without(item)`: every element equal to `item` is dropped. */
  function Without(data: seq<Item>, item: Item): (r: seq<Item>)
    ensures forall x :: x in r <==> x in data && x != item
    ensures |r| <= |data| && (item in data ==> |r| < |data|)
  {
    if data == [] then []
    else
      var rest := Without(data[1..], item);
      assert forall x :: x in data <==> x == data[0] || x in data[1..];
      if data[0] == item then rest else [data[0]] + rest
  }

  /** Every copy of `item` goes, and every other element keeps its number of copies. */
  lemma {:induction false} WithoutCounts(data: seq<Item>, item: Item)
    ensures multiset(Without(data, item)) == multiset(data)[item := 0]
  {
    if data != [] {
      WithoutCounts(data[1..], item);
      assert data == [data[0]] + data[1..];
    }
  }

  /** Dropping an absent item changes nothing. */
  lemma {:induction false} WithoutAbsent(data: seq<Item>, item: Item)
    requires item !in data
    ensures Without(data, item) == data
  {
    if data != [] {
      WithoutAbsent(data[1..], item);
    }
  }

  /** Dropping distributes over concatenation: the survivors keep their order. */
  lemma {:induction false} WithoutConcat(a: seq<Item>, b: seq<Item>, item: Item)
    ensures Without(a + b, item) == Without(a, item) + Without(b, item)
  {
    if a != [] {
      assert (a + b)[1..] == a[1..] + b;
      WithoutConcat(a[1..], b, item);
    } else {
      assert a + b == b;
    }
  }

  /** An item absent from `a` and `b` is dropped from `a + [item] + b` and nowhere else. */
  lemma {:induction false} WithoutBetween(a: seq<Item>, item: Item, b: seq<Item>)
    requires item !in a && item !in b
    ensures Without(a + ([item] + b), item) == a + b
  {
    WithoutConcat(a, [item] + b, item);
    assert Without([item] + b, item) == Without(b, item) by {
      assert ([item] + b)[1..] == b;
    }
    WithoutAbsent(a, item);
    WithoutAbsent(b, item);
  }

  /** A list is its prefix before k, its element at k and its suffix after k. */
  lemma SplitAround(data: seq<Item>, k: nat)
    requires k < |data|
    ensures data == data[..k] + ([data[k]] + data[k + 1..])
  {
    assert data[k..] == [data[k]] + data[k + 1..];
    assert data == data[..k] + data[k..];
  }

  /** An item found only at position k is dropped from there and nowhere else. */
  lemma WithoutSingleOccurrence(data: seq<Item>, k: nat)
    requires k < |data| && data[k] !in data[..k] && data[k] !in data[k + 1..]
    ensures Without(data, data[k]) == data[..k] + data[k + 1..]
  {
    SplitAround(data, k);
    WithoutBetween(data[..k], data[k], data[k + 1..]);
  }

  /**
   * With unique ids, deleting the item at position k leaves exactly the other
   * items, in their original order.
   */
  lemma DeleteRemovesOnlyTarget(data: seq<Item>, k: nat)
    requires UniqueIds(data) && k < |data|
    ensures Without(data, data[k]) == data[..k] + data[k + 1..]
  {
    forall j | 0 <= j < |data| && j != k ensures data[j] != data[k] {
      if j < k { assert data[j].id != data[k].id; } else { assert data[k].id != data[j].id; }
    }
    WithoutSingleOccurrence(data, k);
  }

  /**
   * deleteItem: the list without the item the menu was opened on, and the
   * menu closed.
   */
  function DeleteItem(data: seq<Item>, id: int): (e: Effect)
    requires Find(data, id).Some?
    ensures e.SetData? && e.closeMenu
    ensures |e.newData| < |data|
    ensures Find(data, id).value !in e.newData
    ensures forall x :: x in e.newData <==> x in data && x != Find(data, id).value
  {
    SetData(Without(data, Find(data, id).value), true)
  }

  // ---------------------------------------------------------------------------
  // handleSave, multi mode

  /** `draft === null ? item[field] : draft` */
  function SharedValue(draft: Val, own: Val): (r: Val)
    ensures draft == Null ==> r == own
    ensures draft != Null ==> r == draft
  {
    if draft == Null then own else draft
  }

  /**
   * The multi-mode save: every selected item gets the shared frequency and
   * intensity drafts, except where a draft is null; other items are kept.
   */
  function MultiSave(data: seq<Item>, selectedIds: seq<int>, frequency: Val, intensity: Val): (r: seq<Item>)
    ensures |r| == |data|
    ensures forall i :: 0 <= i < |data| ==>
              r[i].id == data[i].id && r[i].start == data[i].start && r[i].end == data[i].end
    ensures forall i :: 0 <= i < |data| && data[i].id !in selectedIds ==> r[i] == data[i]
    ensures forall i :: 0 <= i < |data| && data[i].id in selectedIds ==>
              r[i].frequency == (if frequency == Null then data[i].frequency else frequency) &&
              r[i].intensity == (if intensity == Null then data[i].intensity else intensity)
  {
    seq(|data|, i requires 0 <= i < |data| =>
      if data[i].id in selectedIds then
        data[i].(frequency := SharedValue(frequency, data[i].frequency),
                 intensity := SharedValue(intensity, data[i].intensity))
      else data[i])
  }

  /** The shared draft as the effect resolves it never disagrees with a selected item it did not mark mixed. */
  lemma ResolvedAgreesWithSelected(data: seq<Item>, selectedIds: seq<int>, field: Field, i: nat)
    requires i < |data| && data[i].id in selectedIds
    ensures var v := FindVal(Selected(data, selectedIds), field); v == Null || v == Get(data[i], field)
  {
    var items := Selected(data, selectedIds);
    assert data[i] in items;
    var j :| 0 <= j < |items| && items[j] == data[i];
    if Unanimous(items, field) {
      assert Get(items[j], field) == Get(items[0], field);
    }
  }

  /**
   * Saving the drafts exactly as the effect resolved them from the selection
   * leaves the list as it was.
   */
  lemma SaveResolvedIsIdentity(data: seq<Item>, selectedIds: seq<int>)
    ensures var items := Selected(data, selectedIds);
            MultiSave(data, selectedIds, FindVal(items, Frequency), FindVal(items, Intensity)) == data
  {
    var items := Selected(data, selectedIds);
    var r := MultiSave(data, selectedIds, FindVal(items, Frequency), FindVal(items, Intensity));
    forall i | 0 <= i < |data| ensures r[i] == data[i] {
      if data[i].id in selectedIds {
        ResolvedAgreesWithSelected(data, selectedIds, Frequency, i);
        ResolvedAgreesWithSelected(data, selectedIds, Intensity, i);
      }
    }
  }

  /**
   * After a multi-mode save with a non-null draft, every selected item holds
   * that value, so resolving the selection again gives back the draft.
   */
  lemma SaveThenResolve(data: seq<Item>, selectedIds: seq<int>, frequency: Val, intensity: Val, k: nat)
    requires k < |data| && data[k].id in selectedIds
    ensures var items := Selected(MultiSave(data, selectedIds, frequency, intensity), selectedIds);
            (frequency != Null ==> FindVal(items, Frequency) == frequency) &&
            (intensity != Null ==> FindVal(items, Intensity) == intensity)
  {
    var r := MultiSave(data, selectedIds, frequency, intensity);
    var items := Selected(r, selectedIds);
    assert r[k] in items;
    forall x | x in items
      ensures (frequency != Null ==> x.frequency == frequency) && (intensity != Null ==> x.intensity == intensity)
    {
      var i :| 0 <= i < |r| && r[i] == x;
    }
    if frequency != Null {
      assert Unanimous(items, Frequency) by {
        forall i, j | 0 <= i < |items| && 0 <= j < |items|
          ensures Get(items[i], Frequency) == Get(items[j], Frequency)
        {
          assert items[i] in items && items[j] in items;
        }
      }
    }
    if intensity != Null {
      assert Unanimous(items, Intensity) by {
        forall i, j | 0 <= i < |items| && 0 <= j < |items|
          ensures Get(items[i], Intensity) == Get(items[j], Intensity)
        {
          assert items[i] in items && items[j] in items;
        }
      }
    }
  }

  // ---------------------------------------------------------------------------
  // Draft updates

  /** The value of a number input, after `+e.target.value`. */
  datatype NumberInput = Number(v: int) | NotANumber

  predicate InPercentRange(v: int) {
    0 <= v <= 100
  }

  /** handleInput: the draft takes the value only when it lies in [0, 100]. */
  function NumericInput(edit: Item, field: Field, input: NumberInput): (r: Item)
    ensures input.Number? && InPercentRange(input.v) ==> Get(r, field) == Num(input.v)
    ensures !(input.Number? && InPercentRange(input.v)) ==> r == edit
    ensures r.id == edit.id && r.start == edit.start && r.end == edit.end
    ensures forall other :: other != field ==> Get(r, other) == Get(edit, other)
  {
    if input.Number? && InPercentRange(input.v) then Put(edit, field, Num(input.v)) else edit
  }

  /** The value of a time picker: cleared, or hours and minutes as "HH" and "MM". */
  datatype TimeValue = Cleared | Picked(hours: string, minutes: string)

  datatype TimeLabel = StartTime | EndTime

  /** getDay and getMsTime, which live outside this component. */
  datatype TimeHandler = TimeHandler(getDay: int -> int, getMsTime: (int, string, string) -> int)

  /** An end time of 00:00 means midnight at the end of the item's day. */
  predicate EndsAtMidnight(target: TimeLabel, hours: string, minutes: string) {
    target == EndTime && hours == "00" && minutes == "00"
  }

  /**
   * handleTimeInput: a picked time becomes a timestamp on the day of the
   * item's (saved) start, or on the next day for an end of 00:00, and
   * replaces the labelled field of the draft; a cleared picker does nothing.
   */
  function TimeInput(edit: Item, itemStart: int, val: TimeValue, target: TimeLabel, clock: TimeHandler): (r: Item)
    ensures val.Cleared? ==> r == edit
    ensures r.id == edit.id && r.intensity == edit.intensity && r.frequency == edit.frequency
    ensures target == StartTime ==> r.end == edit.end
    ensures target == EndTime ==> r.start == edit.start
    ensures val.Picked? && target == StartTime ==>
              r.start == clock.getMsTime(clock.getDay(itemStart), val.hours, val.minutes)
    ensures val.Picked? && target == EndTime && EndsAtMidnight(target, val.hours, val.minutes) ==>
              r.end == clock.getMsTime(clock.getDay(itemStart) + 1, "00", "00")
    ensures val.Picked? && target == EndTime && !EndsAtMidnight(target, val.hours, val.minutes) ==>
              r.end == clock.getMsTime(clock.getDay(itemStart), val.hours, val.minutes)
  {
    match val
    case Cleared => edit
    case Picked(hours, minutes) =>
      var day := clock.getDay(itemStart);
      var day' := if EndsAtMidnight(target, hours, minutes) then day + 1 else day;
      var time := clock.getMsTime(day', hours, minutes);
      if target == StartTime then edit.(start := time) else edit.(end := time)
  }

  /**
   * Entering 00:00 as the end lands on the day after the item's start day,
   * while 23:59 (or 00:00 as the start) stays on the start day.
   */
  lemma MidnightEndIsNextDay(edit: Item, itemStart: int, clock: TimeHandler)
    ensures var day := clock.getDay(itemStart);
            && TimeInput(edit, itemStart, Picked("00", "00"), EndTime, clock).end == clock.getMsTime(day + 1, "00", "00")
            && TimeInput(edit, itemStart, Picked("23", "59"), EndTime, clock).end == clock.getMsTime(day, "23", "59")
            && TimeInput(edit, itemStart, Picked("00", "00"), StartTime, clock).start == clock.getMsTime(day, "00", "00")
  {
  }

  /**
   * The shared drafts are not range-guarded: a number input of 150 is
   * refused by the item draft, but becomes the shared intensity, which a
   * multi-mode save then writes into every selected item.
   */
  lemma OutOfRangeSharedDraftIsSaved(data: seq<Item>, selectedIds: seq<int>, edit: Item, frequency: Val, k: nat)
    requires k < |data| && data[k].id in selectedIds
    ensures NumericInput(edit, Intensity, Number(150)) == edit
    ensures MultiSave(data, selectedIds, frequency, SharedAfterInput(Number(150), Undefined))[k].intensity == Num(150)
  {
  }

  /** `setIntensity(+value)` / `setFrequency(+value)` once the value is known to be a number. */
  function SharedAfterInput(input: NumberInput, shared: Val): (r: Val)
    ensures input.Number? ==> r == Num(input.v)
    ensures input.NotANumber? ==> r == shared
  {
    if input.Number? then Num(input.v) else shared
  }

  // ---------------------------------------------------------------------------
  // The component's state

  class Menu {
    /** The shared intensity draft (multi-edit), as shown in the intensity input. */
    var intensity: Val
    /** The shared frequency draft (multi-edit), as shown in the frequency input. */
    var frequency: Val
    /** The item draft (single edit); None stands for `undefined`. */
    var edit: Option<Item>

    /** First render: both shared drafts are undefined, and the draft is the item with `id`. */
    constructor (data: seq<Item>, id: int)
      ensures intensity == Undefined && frequency == Undefined && edit == Find(data, id)
    {
      intensity := Undefined;
      frequency := Undefined;
      edit := Find(data, id);
    }

    /**
     * The effect run when the id or the selection changes: the shared drafts
     * are re-resolved from the selection, and in single mode the draft is
     * re-read from the list, dropping whatever was typed before. It runs
     * without error only after a render that passed the guard (draft and
     * item both present), since `findVal` is declared after that guard.
     */
    method Refresh(data: seq<Item>, id: int, selectedIds: seq<int>)
      requires edit.Some? && Find(data, id).Some?
      modifies this
      ensures intensity == FindVal(Selected(data, selectedIds), Intensity)
      ensures frequency == FindVal(Selected(data, selectedIds), Frequency)
      ensures !IsMulti(selectedIds) ==> edit == Find(data, id)
      ensures IsMulti(selectedIds) ==> edit == old(edit)
    {
      var items := Selected(data, selectedIds);
      intensity := FindVal(items, Intensity);
      frequency := FindVal(items, Frequency);
      if !IsMulti(selectedIds) {
        edit := Find(data, id);
      }
    }

    /** handleTimeInput, reachable only while the menu is shown (draft and item both present). */
    method HandleTimeInput(data: seq<Item>, id: int, val: TimeValue, target: TimeLabel, clock: TimeHandler)
      requires edit.Some? && Find(data, id).Some?
      modifies this
      ensures edit == Some(TimeInput(old(edit).value, Find(data, id).value.start, val, target, clock))
      ensures intensity == old(intensity) && frequency == old(frequency)
    {
      if val.Cleared? {
        return;
      }
      var item := Find(data, id).value;
      edit := Some(TimeInput(edit.value, item.start, val, target, clock));
    }

    /**
     * handleIntensity / handleFrequency: a number goes through the range
     * guard into the draft, and into the shared draft unguarded.
     */
    method HandleNumber(field: Field, input: NumberInput)
      requires edit.Some?
      modifies this
      ensures edit == Some(NumericInput(old(edit).value, field, input))
      ensures field == Intensity ==> intensity == SharedAfterInput(input, old(intensity)) && frequency == old(frequency)
      ensures field == Frequency ==> frequency == SharedAfterInput(input, old(frequency)) && intensity == old(intensity)
    {
      if input.Number? {
        edit := Some(NumericInput(edit.value, field, input));
        if field == Intensity {
          intensity := SharedAfterInput(input, intensity);
        } else {
          frequency := SharedAfterInput(input, frequency);
        }
      }
    }

    /**
     * handleSave. Nothing happens without an item or with a draft that ends
     * before it starts. In multi mode the shared drafts are applied to a new
     * list and the menu stays open; in single mode the draft is written into
     * the parent's array in place, at the item's position, and the menu closes.
     */
    method HandleSave(data: array<Item>, id: int, selectedIds: seq<int>) returns (effect: Effect)
      requires edit.Some?
      modifies data
      ensures Find(old(data[..]), id).None? ==> effect == NoEffect && data[..] == old(data[..])
      ensures edit.value.start > edit.value.end ==> effect == NoEffect && data[..] == old(data[..])
      ensures Find(old(data[..]), id).Some? && edit.value.start <= edit.value.end && IsMulti(selectedIds) ==>
                && data[..] == old(data[..])
                && effect == SetData(MultiSave(old(data[..]), selectedIds, frequency, intensity), false)
      ensures Find(old(data[..]), id).Some? && edit.value.start <= edit.value.end && !IsMulti(selectedIds) ==>
                && data[..] == old(data[..])[FirstIndex(old(data[..]), id).value := edit.value]
                && effect == SetData(data[..], true)
    {
      var item := Find(data[..], id);
      if item.None? {
        return NoEffect;
      }
      var draft := edit.value;
      if draft.start > draft.end {
        return NoEffect;
      }
      if IsMulti(selectedIds) {
        var newData := MultiSave(data[..], selectedIds, frequency, intensity);
        effect := SetData(newData, false);
      } else {
        var k := IndexOf(data[..], item.value);
        IndexOfFoundItem(data[..], id, FirstIndex(data[..], id).value);
        data[k] := draft;
        effect := SetData(data[..], true);
      }
    }
  }
}
