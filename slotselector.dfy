/** The selection rules of components/time-slot-selector.tsx. The component never changes a
    list in place: each handler computes the new list of selected slot ids and hands it to
    onSelectionChange, or returns without calling it. Rendering and the price total are
    outside the model. */
module TimeSlotSelector {
  import opened Wrappers

  /** The fields of a time slot that the rules read. */
  datatype Slot = Slot(id: string, isFull: bool)

  /** A slot that can still be chosen: not full and not already registered for. */
  predicate Open(s: Slot, existing: seq<string>) {
    !s.isFull && s.id !in existing
  }

  /** availableSlots: the open slots, in their order. */
  function AvailableSlots(slots: seq<Slot>, existing: seq<string>): (r: seq<Slot>)
    ensures |r| <= |slots|
    ensures forall x :: x in r <==> x in slots && Open(x, existing)
  {
    if slots == [] then []
    else (if Open(slots[0], existing) then [slots[0]] else []) + AvailableSlots(slots[1..], existing)
  }

  /** The filter keeps the slots' order: the open slots of two lists one after the other are
      those of the first, then those of the second. */
  lemma {:induction false} AvailableConcat(a: seq<Slot>, b: seq<Slot>, existing: seq<string>)
    ensures AvailableSlots(a + b, existing) == AvailableSlots(a, existing) + AvailableSlots(b, existing)
  {
    if a == [] {
      assert a + b == b;
    } else {
      assert (a + b)[1..] == a[1..] + b;
      AvailableConcat(a[1..], b, existing);
    }
  }

  /** slots.find: the first slot with the given id. */
  function Find(slots: seq<Slot>, id: string): (r: Option<Slot>)
    ensures r.Some? <==> exists i :: 0 <= i < |slots| && slots[i].id == id
    ensures r.Some? ==> r.value in slots && r.value.id == id
  {
    if slots == [] then None else if slots[0].id == id then Some(slots[0]) else Find(slots[1..], id)
  }

  /** ids.filter(x => x !== id). */
  function Without(ids: seq<string>, id: string): (r: seq<string>)
    ensures |r| <= |ids|
    ensures forall x :: x in r <==> x in ids && x != id
    ensures id !in ids ==> r == ids
  {
    if ids == [] then [] else (if ids[0] == id then [] else [ids[0]]) + Without(ids[1..], id)
  }

  /** The slot with this id may be toggled: it exists, and the first slot with the id is
      neither full nor already registered for. */
  predicate Toggleable(slots: seq<Slot>, existing: seq<string>, id: string) {
    Find(slots, id).Some? && !Find(slots, id).value.isFull && id !in existing
  }

  /** handleSlotToggle: the list passed to onSelectionChange, or None when it returns early. */
  function Toggle(slots: seq<Slot>, selected: seq<string>, existing: seq<string>, disabled: bool, id: string)
    : (r: Option<seq<string>>)
    ensures r.None? <==> disabled || !Toggleable(slots, existing, id)
    ensures r.Some? && id in selected ==> id !in r.value && forall x :: x in r.value <==> x in selected && x != id
    ensures r.Some? && id !in selected ==> r.value == selected + [id]
  {
    if disabled then None
    else if !Toggleable(slots, existing, id) then None
    else if id in selected then Some(Without(selected, id))
    else Some(selected + [id])
  }

  /** Toggling the same slot twice gives back the same set of selected ids (exactly the same
      list when the slot was not selected). */
  lemma ToggleTwice(slots: seq<Slot>, selected: seq<string>, existing: seq<string>, id: string)
    requires Toggleable(slots, existing, id)
    ensures var once := Toggle(slots, selected, existing, false, id);
      && once.Some?
      && var twice := Toggle(slots, once.value, existing, false, id);
      && twice.Some?
      && (forall x :: x in twice.value <==> x in selected)
      && (id !in selected ==> twice.value == selected)
  {
    var once := Toggle(slots, selected, existing, false, id).value;
    if id !in selected {
      assert Without(selected + [id], id) == Without(selected, id) + Without([id], id) by {
        WithoutConcat(selected, [id], id);
      }
    }
  }

  lemma {:induction false} WithoutConcat(a: seq<string>, b: seq<string>, id: string)
    ensures Without(a + b, id) == Without(a, id) + Without(b, id)
  {
    if a == [] {
      assert a + b == b;
    } else {
      assert (a + b)[0] == a[0] && (a + b)[1..] == a[1..] + b;
      WithoutConcat(a[1..], b, id);
      var h := if a[0] == id then [] else [a[0]];
      assert Without(a + b, id) == h + Without(a[1..] + b, id);
      assert Without(a, id) == h + Without(a[1..], id);
      Regroup(h, Without(a[1..], id), Without(b, id));
    }
  }

  lemma Regroup(h: seq<string>, x: seq<string>, y: seq<string>)
    ensures h + (x + y) == (h + x) + y
  {
  }

  /** availableSlots.map(slot => slot.id). */
  function Ids(slots: seq<Slot>): (r: seq<string>)
    ensures |r| == |slots| && forall i :: 0 <= i < |slots| ==> r[i] == slots[i].id
  {
    if slots == [] then [] else [slots[0].id] + Ids(slots[1..])
  }

  /** handleSelectAll: the ids of the available slots, in order; nothing when disabled. */
  function SelectAll(slots: seq<Slot>, existing: seq<string>, disabled: bool): (r: Option<seq<string>>)
    ensures r.None? <==> disabled
    ensures r.Some? ==> forall x :: x in r.value <==> exists s :: s in slots && Open(s, existing) && s.id == x
  {
    if disabled then None
    else
      var avail := AvailableSlots(slots, existing);
      assert forall x :: x in Ids(avail) <==> exists i :: 0 <= i < |avail| && avail[i].id == x;
      Some(Ids(avail))
  }

  /** handleClearSelection: the empty selection; nothing when disabled. */
  function Clear(disabled: bool): (r: Option<seq<string>>)
    ensures r.None? <==> disabled
    ensures r.Some? ==> r.value == []
  {
    if disabled then None else Some([])
  }

  const AllRegisteredMessage: string := "You are already registered for all time slots."
  const AllFullMessage: string := "All time slots are currently full."

  /** The notice under the list: the component renders nothing for an empty slot list, and
      otherwise shows the notice only when no slot is available, saying that the user is
      registered for all slots exactly when there are registrations and as many of them as
      slots. */
  function Notice(slots: seq<Slot>, existing: seq<string>): (r: Option<string>)
    ensures r.Some? <==> slots != [] && AvailableSlots(slots, existing) == []
    ensures r == Some(AllRegisteredMessage) <==>
      slots != [] && AvailableSlots(slots, existing) == [] && |existing| > 0 && |existing| == |slots|
  {
    if slots == [] || AvailableSlots(slots, existing) != [] then None
    else if |existing| > 0 && |existing| == |slots| then Some(AllRegisteredMessage)
    else Some(AllFullMessage)
  }

  /** An empty slot list renders nothing, so it never shows the notice. */
  lemma NoSlotsNoNotice(existing: seq<string>)
    ensures Notice([], existing).None?
  {
  }

  /** When the user holds exactly one registration for each slot, every slot is taken and the
      notice says so. */
  lemma RegisteredForAll(slots: seq<Slot>, existing: seq<string>)
    requires slots != [] && |existing| == |slots|
    requires forall i :: 0 <= i < |slots| ==> slots[i].id in existing
    ensures Notice(slots, existing) == Some(AllRegisteredMessage)
  {
    forall x | x in slots ensures !Open(x, existing) {
      var i :| 0 <= i < |slots| && slots[i] == x;
    }
    NoneOpen(slots, existing);
  }

  /** With no open slot nothing is available. */
  lemma {:induction false} NoneOpen(slots: seq<Slot>, existing: seq<string>)
    requires forall x :: x in slots ==> !Open(x, existing)
    ensures AvailableSlots(slots, existing) == []
  {
    if slots != [] {
      assert slots[0] in slots;
      NoneOpen(slots[1..], existing);
    }
  }
}
