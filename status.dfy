/** `confirmSchedule` and `markVaccinationAsApplied`: raise one flag on one stored schedule. */
module StatusUpdater {
  import opened Entities
  import opened Store

  /** The store after the schedule filed under `code` has had `flag` raised and been saved again:
      that one flag of that one schedule is true, and nothing else differs. */
  function Marked(booked: Schedules, code: ScheduleCode, flag: Flag): (r: Schedules)
    requires code in booked
    ensures r.Keys == booked.Keys
    ensures r[code].Has(flag)
    ensures forall c :: c in r ==> r[c].Unflagged() == booked[c].Unflagged()
    ensures forall c, g :: c in r && (c != code || g != flag) ==> r[c].Has(g) == booked[c].Has(g)
  {
    booked[code := booked[code].WithFlag(flag)]
  }

  /** A flag update never breaks the store's invariant. */
  lemma MarkedKeepsStoreValid(booked: Schedules, code: ScheduleCode, flag: Flag)
    requires StoreValid(booked) && code in booked
    ensures StoreValid(Marked(booked, code, flag))
  {
  }

  /** Raising a flag that is already raised changes nothing. */
  lemma MarkedIdempotent(booked: Schedules, code: ScheduleCode, flag: Flag)
    requires code in booked
    ensures Marked(Marked(booked, code, flag), code, flag) == Marked(booked, code, flag)
  {
  }

  /** Confirming and then marking as applied leaves both flags true, and the two updates may be
      made in either order. */
  lemma ConfirmThenApply(booked: Schedules, code: ScheduleCode)
    requires code in booked
    ensures Marked(Marked(booked, code, Confirmed), code, Applied)[code].Has(Confirmed)
    ensures Marked(Marked(booked, code, Confirmed), code, Applied)[code].Has(Applied)
    ensures Marked(Marked(booked, code, Confirmed), code, Applied)
         == Marked(Marked(booked, code, Applied), code, Confirmed)
  {
  }
}
