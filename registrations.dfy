/** The pure parts of lib/registration-helpers.ts: the loop that groups an event's
    registrations into the whole-event list and one list per time slot, and the attendee
    count. The query that fetches the registrations is outside; its rows are the input. */
module RegistrationHelpers {
  import opened Wrappers

  /** The fields of a registration row that grouping and counting read; a null time slot is
      a whole-event registration, and a null guest count counts no guests. */
  datatype Registration = Registration(id: string, timeSlotId: Option<string>, guestCount: Option<int>)

  function Last<T>(s: seq<T>): T
    requires s != []
  {
    s[|s| - 1]
  }

  function AllButLast<T>(s: seq<T>): seq<T>
    requires s != []
  {
    s[..|s| - 1]
  }

  /** The whole-event registrations of s, in their order. */
  function WholeEvent(s: seq<Registration>): (r: seq<Registration>)
    ensures |r| <= |s|
    ensures forall i :: 0 <= i < |r| ==> r[i].timeSlotId.None?
  {
    if s == [] then []
    else WholeEvent(AllButLast(s)) + (if Last(s).timeSlotId.None? then [Last(s)] else [])
  }

  /** The registrations of s for time slot k, in their order. */
  function InSlot(s: seq<Registration>, k: string): (r: seq<Registration>)
    ensures |r| <= |s|
    ensures forall i :: 0 <= i < |r| ==> r[i].timeSlotId == Some(k)
  {
    if s == [] then []
    else InSlot(AllButLast(s), k) + (if Last(s).timeSlotId == Some(k) then [Last(s)] else [])
  }

  /** The number of registrations held by all the per-slot lists of m. */
  ghost function Total(m: map<string, seq<Registration>>): nat
    decreases |m.Keys|
  {
    if m == map[] then 0
    else
      var k :| k in m;
      |m[k]| + Total(m - {k})
  }

  /** Total does not depend on the order in which keys are taken. */
  lemma {:induction false} TotalRemove(m: map<string, seq<Registration>>, k: string)
    requires k in m
    ensures Total(m) == |m[k]| + Total(m - {k})
    decreases |m.Keys|
  {
    var j :| j in m && Total(m) == |m[j]| + Total(m - {j});
    if j != k {
      assert |(m - {j}).Keys| < |m.Keys| by {
        assert m.Keys == (m - {j}).Keys + {j};
      }
      assert |(m - {k}).Keys| < |m.Keys| by {
        assert m.Keys == (m - {k}).Keys + {k};
      }
      TotalRemove(m - {j}, k);
      TotalRemove(m - {k}, j);
      assert m - {j} - {k} == m - {k} - {j};
    }
  }

  /** Replacing the list under a key changes Total by the change in that list's length;
      adding a key adds its list's length. */
  lemma TotalUpdate(m: map<string, seq<Registration>>, k: string, v: seq<Registration>)
    ensures Total(m[k := v]) == |v| + (if k in m then Total(m) - |m[k]| else Total(m))
  {
    TotalRemove(m[k := v], k);
    assert m[k := v] - {k} == m - {k};
    if k in m {
      TotalRemove(m, k);
    } else {
      assert m - {k} == m;
    }
  }

  /** Appending one registration extends the whole-event list or the list of its own slot
      by it, and no other list. */
  lemma GroupStep(s: seq<Registration>, reg: Registration)
    ensures WholeEvent(s + [reg]) == WholeEvent(s) + (if reg.timeSlotId.None? then [reg] else [])
    ensures forall k :: InSlot(s + [reg], k) == InSlot(s, k) + (if reg.timeSlotId == Some(k) then [reg] else [])
  {
    assert AllButLast(s + [reg]) == s && Last(s + [reg]) == reg;
  }

  /** m holds one list per slot named in s, and each is that slot's registrations in order. */
  ghost predicate SlotLists(s: seq<Registration>, m: map<string, seq<Registration>>) {
    forall k :: (k in m <==> InSlot(s, k) != []) && (k in m ==> m[k] == InSlot(s, k))
  }

  /** w and m are the grouping of s: its whole-event list and its per-slot lists. */
  ghost predicate Grouping(s: seq<Registration>, w: seq<Registration>, m: map<string, seq<Registration>>) {
    w == WholeEvent(s) && SlotLists(s, m)
  }

  /** The whole-event list and the per-slot lists of s together hold as many registrations
      as s: none is lost and none is counted twice. */
  lemma {:induction false} SlotCount(s: seq<Registration>, m: map<string, seq<Registration>>)
    requires SlotLists(s, m)
    ensures |WholeEvent(s)| + Total(m) == |s|
    decreases |s|
  {
    if s == [] {
      assert forall k :: k !in m;
      assert m == map[];
    } else {
      var prefix := AllButLast(s);
      var reg := Last(s);
      assert s == prefix + [reg];
      GroupStep(prefix, reg);
      if reg.timeSlotId.None? {
        assert SlotLists(prefix, m);
        SlotCount(prefix, m);
      } else {
        var id := reg.timeSlotId.value;
        var before := InSlot(prefix, id);
        var m' := if before == [] then m - {id} else m[id := before];
        PopSlot(prefix, m, reg, id);
        SlotCount(prefix, m');
        TotalPop(m, m', id, before, reg);
      }
    }
  }

  /** Taking the last registration back off its slot's list (dropping the list when it
      empties) gives the per-slot lists of the shorter sequence. */
  lemma PopSlot(prefix: seq<Registration>, m: map<string, seq<Registration>>, reg: Registration, id: string)
    requires SlotLists(prefix + [reg], m) && reg.timeSlotId == Some(id)
    ensures var before := InSlot(prefix, id);
      && SlotLists(prefix, if before == [] then m - {id} else m[id := before])
      && id in m && m[id] == before + [reg]
  {
    GroupStep(prefix, reg);
  }

  /** Removing one registration from one list lowers the total by one. */
  lemma TotalPop(m: map<string, seq<Registration>>, m': map<string, seq<Registration>>, id: string,
                 before: seq<Registration>, reg: Registration)
    requires id in m && m[id] == before + [reg]
    requires m' == if before == [] then m - {id} else m[id := before]
    ensures Total(m) == Total(m') + 1
  {
    assert m == m'[id := before + [reg]];
    TotalUpdate(m', id, before + [reg]);
  }

  /** Pushing a whole-event registration onto the whole-event list keeps the grouping. */
  lemma PushWhole(s: seq<Registration>, w: seq<Registration>, m: map<string, seq<Registration>>, reg: Registration)
    requires Grouping(s, w, m) && reg.timeSlotId.None?
    ensures Grouping(s + [reg], w + [reg], m)
  {
    GroupStep(s, reg);
    assert forall k :: InSlot(s + [reg], k) == InSlot(s, k);
  }

  /** Pushing a registration for slot id onto that slot's list, made empty first when
      missing, keeps the grouping. */
  lemma PushSlot(s: seq<Registration>, w: seq<Registration>, m: map<string, seq<Registration>>,
                 reg: Registration, id: string)
    requires Grouping(s, w, m) && reg.timeSlotId == Some(id)
    ensures Grouping(s + [reg], w, m[id := (if id in m then m[id] else []) + [reg]])
  {
    PushSlotLists(s, m, reg, id);
  }

  /** The per-slot half of PushSlot: only the list of the registration's own slot grows. */
  lemma PushSlotLists(s: seq<Registration>, m: map<string, seq<Registration>>, reg: Registration, id: string)
    requires SlotLists(s, m) && reg.timeSlotId == Some(id)
    ensures WholeEvent(s + [reg]) == WholeEvent(s)
    ensures SlotLists(s + [reg], m[id := (if id in m then m[id] else []) + [reg]])
  {
    GroupStep(s, reg);
    var list := if id in m then m[id] else [];
    assert list == InSlot(s, id);
  }

  /** PushWhole for the registration at position i of the input. */
  lemma PushWholeAt(regs: seq<Registration>, i: nat, w: seq<Registration>, m: map<string, seq<Registration>>)
    requires i < |regs| && Grouping(regs[..i], w, m) && regs[i].timeSlotId.None?
    ensures Grouping(regs[..i + 1], w + [regs[i]], m)
  {
    assert regs[..i + 1] == regs[..i] + [regs[i]];
    PushWhole(regs[..i], w, m, regs[i]);
  }

  /** PushSlot for the registration at position i of the input. */
  lemma PushSlotAt(regs: seq<Registration>, i: nat, w: seq<Registration>, m: map<string, seq<Registration>>, id: string)
    requires i < |regs| && Grouping(regs[..i], w, m) && regs[i].timeSlotId == Some(id)
    ensures Grouping(regs[..i + 1], w, m[id := (if id in m then m[id] else []) + [regs[i]]])
  {
    assert regs[..i + 1] == regs[..i] + [regs[i]];
    PushSlot(regs[..i], w, m, regs[i], id);
  }

  /** getRegistrationsBySlot's grouping loop: every registration goes to the whole-event
      list or to the list of its own slot, in input order; a slot has a list exactly when
      some registration names it, so no list is empty; and together the lists hold every
      registration exactly once. */
  method GroupBySlot(regs: seq<Registration>)
    returns (wholeEvent: seq<Registration>, bySlot: map<string, seq<Registration>>)
    ensures wholeEvent == WholeEvent(regs)
    ensures forall k :: k in bySlot <==> InSlot(regs, k) != []
    ensures forall k :: k in bySlot ==> bySlot[k] == InSlot(regs, k)
    ensures |wholeEvent| + Total(bySlot) == |regs|
  {
    wholeEvent := [];
    bySlot := map[];
    var i := 0;
    while i < |regs|
      invariant 0 <= i <= |regs|
      invariant Grouping(regs[..i], wholeEvent, bySlot)
    {
      var reg := regs[i];
      if reg.timeSlotId.None? {
        PushWholeAt(regs, i, wholeEvent, bySlot);
        wholeEvent := wholeEvent + [reg];
      } else {
        var id := reg.timeSlotId.value;
        PushSlotAt(regs, i, wholeEvent, bySlot, id);
        var list := if id in bySlot then bySlot[id] else [];
        bySlot := bySlot[id := list + [reg]];
      }
      i := i + 1;
    }
    assert regs[..i] == regs;
    SlotCount(regs, bySlot);
  }

  /** reg.guest_count || 0. */
  function Guests(r: Registration): int {
    r.guestCount.GetOr(0)
  }

  /** calculateTotalAttendees: each registration counts itself and its guests. */
  function TotalAttendees(s: seq<Registration>): int {
    if s == [] then 0 else TotalAttendees(AllButLast(s)) + 1 + Guests(Last(s))
  }

  /** The count adds up over consecutive lists. */
  lemma {:induction false} TotalAttendeesConcat(a: seq<Registration>, b: seq<Registration>)
    ensures TotalAttendees(a + b) == TotalAttendees(a) + TotalAttendees(b)
    decreases |b|
  {
    if b == [] {
      assert a + b == a;
    } else {
      assert AllButLast(a + b) == a + AllButLast(b);
      assert Last(a + b) == Last(b);
      TotalAttendeesConcat(a, AllButLast(b));
    }
  }

  /** Without guests the count is the number of registrations. */
  lemma {:induction false} NoGuestsCount(s: seq<Registration>)
    requires forall i :: 0 <= i < |s| ==> Guests(s[i]) == 0
    ensures TotalAttendees(s) == |s|
  {
    if s != [] {
      NoGuestsCount(AllButLast(s));
    }
  }

  /** With guest counts that are never negative the count is at least the number of
      registrations, and exactly that many more than it as there are guests. */
  lemma {:induction false} GuestsCount(s: seq<Registration>)
    requires forall i :: 0 <= i < |s| ==> Guests(s[i]) >= 0
    ensures TotalAttendees(s) >= |s|
    ensures TotalAttendees(s) == |s| ==> forall i :: 0 <= i < |s| ==> Guests(s[i]) == 0
  {
    if s != [] {
      GuestsCount(AllButLast(s));
      assert forall i :: 0 <= i < |s| - 1 ==> AllButLast(s)[i] == s[i];
    }
  }
}
