/** The validation chain of `scheduleVaccination` and the schedule it builds. */
module Booking {
  import opened Errors
  import opened Entities
  import opened CatalogLookup
  import opened Store
  import opened Availability

  /** The reference entities a valid request resolves to. */
  datatype Selection = Selection(branch: Branch, vaccine: Vaccine, paymentMethod: PaymentMethod, timeSlot: TimeSlot)

  /** The five checks, fail-fast, in source order: branch, vaccine, payment method, time slot,
      then availability of the slot at the branch on the day. Each error is reported exactly when
      every earlier check passed and its own failed; the request is accepted exactly when all pass. */
  function CheckBooking(cat: Catalog, booked: Schedules, req: Request): (r: Result<Selection>)
    requires cat.Valid()
    ensures r == Failure(InvalidBranchCode) <==> req.branchCode !in cat.branches
    ensures r == Failure(InvalidVaccineCode) <==>
      req.branchCode in cat.branches && req.vaccineCode !in cat.vaccines
    ensures r == Failure(InvalidPaymentMethod) <==>
      req.branchCode in cat.branches && req.vaccineCode in cat.vaccines
      && req.paymentMethodId !in cat.paymentMethods
    ensures r == Failure(InvalidTimeslotId) <==>
      req.branchCode in cat.branches && req.vaccineCode in cat.vaccines
      && req.paymentMethodId in cat.paymentMethods && !HasSlotId(cat.timeSlots, req.timeSlotId)
    ensures r == Failure(TimeslotUnavailable) <==>
      req.branchCode in cat.branches && req.vaccineCode in cat.vaccines
      && req.paymentMethodId in cat.paymentMethods && HasSlotId(cat.timeSlots, req.timeSlotId)
      && Occupied(booked, req.Key())
    ensures r.Success? <==>
      req.branchCode in cat.branches && req.vaccineCode in cat.vaccines
      && req.paymentMethodId in cat.paymentMethods && HasSlotId(cat.timeSlots, req.timeSlotId)
      && !Occupied(booked, req.Key())
    ensures r.Success? ==>
      && r.value.branch == cat.branches[req.branchCode] && r.value.branch.code == req.branchCode
      && r.value.vaccine == cat.vaccines[req.vaccineCode] && r.value.vaccine.code == req.vaccineCode
      && r.value.paymentMethod == cat.paymentMethods[req.paymentMethodId]
      && r.value.paymentMethod.id == req.paymentMethodId
      && r.value.timeSlot in cat.timeSlots && r.value.timeSlot.id == req.timeSlotId
  {
    if req.branchCode !in cat.branches then Failure(InvalidBranchCode)
    else
      var branch := cat.branches[req.branchCode];
      if req.vaccineCode !in cat.vaccines then Failure(InvalidVaccineCode)
      else
        var vaccine := cat.vaccines[req.vaccineCode];
        if req.paymentMethodId !in cat.paymentMethods then Failure(InvalidPaymentMethod)
        else
          var paymentMethod := cat.paymentMethods[req.paymentMethodId];
          match FindTimeSlot(cat.timeSlots, req.timeSlotId)
          case None => Failure(InvalidTimeslotId)
          case Some(timeSlot) =>
            if !IsTimeslotAvailable(booked, timeSlot, req.scheduleDate, branch) then Failure(TimeslotUnavailable)
            else Success(Selection(branch, vaccine, paymentMethod, timeSlot))
  }

  /** The schedule the builder assembles from a request, its resolved entities and a fresh code;
      the builder leaves both status flags false. */
  function NewSchedule(code: ScheduleCode, req: Request, sel: Selection): (r: Schedule)
    ensures r.code == code && r.date == req.scheduleDate
    ensures r.branch == sel.branch && r.vaccine == sel.vaccine
    ensures r.paymentMethod == sel.paymentMethod && r.timeSlot == sel.timeSlot
    ensures r.customer.name == req.customerName && r.customer.nationalNumber == req.customerNationalNumber
    ensures r.customer.email == req.email
    ensures !r.Has(Confirmed) && !r.Has(Applied) && r.Unflagged() == r
  {
    Schedule(code, req.scheduleDate, sel.timeSlot, sel.branch, sel.vaccine,
             Customer(req.customerName, req.customerNationalNumber, req.email),
             sel.paymentMethod, false, false)
  }

  /** The slot list a customer is shown and the booking check agree: a listed slot is offered as
      available exactly when booking it (with a known branch, vaccine and payment method) succeeds. */
  lemma OfferedIffBookable(cat: Catalog, booked: Schedules, req: Request, t: TimeSlot)
    requires cat.Valid()
    requires req.branchCode in cat.branches && req.vaccineCode in cat.vaccines
    requires req.paymentMethodId in cat.paymentMethods
    requires t in cat.timeSlots && t.id == req.timeSlotId
    ensures CheckBooking(cat, booked, req).Success? <==>
            t in AvailableTimeSlots(cat.timeSlots, booked, req.branchCode, req.scheduleDate)
  {
  }

  /** An accepted booking, once stored, keeps the store valid, and any later request for the same
      branch, day and time slot is rejected with TIMESLOT_UNAVAILABLE once its other checks pass. */
  lemma BookedSlotRejectsRebooking(cat: Catalog, booked: Schedules, req: Request, code: ScheduleCode, again: Request)
    requires cat.Valid() && StoreValid(booked) && code !in booked
    requires CheckBooking(cat, booked, req).Success?
    requires again.Key() == req.Key()
    requires again.vaccineCode in cat.vaccines && again.paymentMethodId in cat.paymentMethods
    ensures StoreValid(booked[code := NewSchedule(code, req, CheckBooking(cat, booked, req).value)])
    ensures CheckBooking(cat, booked[code := NewSchedule(code, req, CheckBooking(cat, booked, req).value)], again)
            == Failure(TimeslotUnavailable)
  {
    var s := NewSchedule(code, req, CheckBooking(cat, booked, req).value);
    assert s.Key() == req.Key();
    InsertKeepsStoreValid(booked, s);
    var after := booked[code := s];
    assert after[code].Key() == again.Key();
    assert Occupied(after, again.Key());
  }

  /** Booking a different slot is unaffected by an earlier booking: its outcome is what it would
      have been without it. */
  lemma OtherSlotUnaffected(cat: Catalog, booked: Schedules, s: Schedule, req: Request)
    requires cat.Valid()
    requires s.code !in booked && s.Key() != req.Key()
    ensures CheckBooking(cat, booked[s.code := s], req) == CheckBooking(cat, booked, req)
  {
    var after := booked[s.code := s];
    if Occupied(after, req.Key()) {
      var c :| c in after && after[c].Key() == req.Key();
      assert c != s.code && c in booked;
    }
    if Occupied(booked, req.Key()) {
      var c :| c in booked && booked[c].Key() == req.Key();
      assert c in after && after[c] == booked[c];
    }
    assert Occupied(after, req.Key()) == Occupied(booked, req.Key());
  }
}
