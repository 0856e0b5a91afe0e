/** `getAvailableTimeSlots`: every listed time slot minus those a schedule uses at the branch on the day. */
module Availability {
  import opened Entities
  import opened Store

  /** `xs` is `ys` with some elements left out, the rest in their original order. */
  ghost predicate IsSubsequence<T>(xs: seq<T>, ys: seq<T>)
    decreases |ys|
  {
    if xs == [] then true
    else if ys == [] then false
    else (xs[0] == ys[0] && IsSubsequence(xs[1..], ys[1..])) || IsSubsequence(xs, ys[1..])
  }

  /** The `noneMatch` test: no schedule in `taken` uses the slot's id. */
  predicate NoneUses(taken: set<Schedule>, t: TimeSlot) {
    forall s :: s in taken ==> s.timeSlot.id != t.id
  }

  /** The stream filter: keep, in listing order, each slot that no schedule in `taken` uses. */
  function FreeSlots(slots: seq<TimeSlot>, taken: set<Schedule>): (r: seq<TimeSlot>)
    ensures |r| <= |slots|
    ensures IsSubsequence(r, slots)
    ensures forall t :: t in r <==> t in slots && NoneUses(taken, t)
    ensures forall t :: multiset(r)[t] == if NoneUses(taken, t) then multiset(slots)[t] else 0
  {
    if slots == [] then []
    else
      assert slots == [slots[0]] + slots[1..];
      if NoneUses(taken, slots[0]) then
        var rest := FreeSlots(slots[1..], taken);
        assert ([slots[0]] + rest)[1..] == rest;
        [slots[0]] + rest
      else FreeSlots(slots[1..], taken)
  }

  /** `getAvailableTimeSlots(branchCode, date)` over the listed slots and the stored schedules:
      exactly the slots that are free at that branch on that day, in listing order. */
  function AvailableTimeSlots(timeSlots: seq<TimeSlot>, booked: Schedules, branchCode: BranchCode, date: Date): (r: seq<TimeSlot>)
    ensures |r| <= |timeSlots|
    ensures IsSubsequence(r, timeSlots)
    ensures forall t :: t in r <==> t in timeSlots && !Occupied(booked, SlotKey(branchCode, date, t.id))
    ensures forall t :: multiset(r)[t] == if Occupied(booked, SlotKey(branchCode, date, t.id)) then 0 else multiset(timeSlots)[t]
  {
    FreeSlots(timeSlots, SchedulesAt(booked, branchCode, date))
  }
}
