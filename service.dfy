/** `VaccinationService`: the booking service over an in-memory store. */
module Service {
  import opened Errors
  import opened Entities
  import opened CatalogLookup
  import opened Store
  import opened Booking
  import opened StatusUpdater

  class VaccinationService {
    /** Branches, vaccines, payment methods and time slots: read, never written. */
    const catalog: Catalog
    /** The customer repository, in save order. */
    var customers: seq<Customer>
    /** The schedule repository, by schedule code. */
    var schedules: Schedules
    /** Confirmation e-mails handed to the mail transport, in send order. */
    var notifications: seq<Notification>

    ghost predicate Valid()
      reads this
    {
      && catalog.Valid()
      && StoreValid(schedules)
      && (forall c :: c in schedules ==> schedules[c].customer in customers)
    }

    /** A service over repositories that may already hold customers and schedules. */
    constructor (catalog: Catalog, customers0: seq<Customer>, schedules0: Schedules)
      requires catalog.Valid() && StoreValid(schedules0)
      requires forall c :: c in schedules0 ==> schedules0[c].customer in customers0
      ensures Valid()
      ensures this.catalog == catalog
      ensures customers == customers0 && schedules == schedules0 && notifications == []
    {
      this.catalog := catalog;
      customers := customers0;
      schedules := schedules0;
      notifications := [];
    }

    /** `scheduleVaccination`, with `code` standing for the generated unique schedule code.
        A rejected request reports the first failed check and leaves the store untouched; an
        accepted one saves exactly one new customer and one new schedule carrying the request's
        data and no raised flag, then sends one confirmation to the customer's address. */
    method ScheduleVaccination(req: Request, code: ScheduleCode) returns (r: Result<Schedule>)
      requires Valid()
      requires code !in schedules
      modifies this`customers, this`schedules, this`notifications
      ensures Valid()
      ensures CheckBooking(catalog, old(schedules), req).Failure? ==>
        && r == Failure(CheckBooking(catalog, old(schedules), req).error)
        && customers == old(customers) && schedules == old(schedules) && notifications == old(notifications)
      ensures CheckBooking(catalog, old(schedules), req).Success? ==>
        && r.Success?
        && r.value.code == code && r.value.date == req.scheduleDate
        && r.value.Key() == req.Key()
        && r.value.branch == catalog.branches[req.branchCode]
        && r.value.vaccine == catalog.vaccines[req.vaccineCode]
        && r.value.paymentMethod == catalog.paymentMethods[req.paymentMethodId]
        && r.value.timeSlot in catalog.timeSlots
        && r.value.customer == Customer(req.customerName, req.customerNationalNumber, req.email)
        && !r.value.confirmed && !r.value.applied
        && customers == old(customers) + [r.value.customer]
        && schedules == old(schedules)[code := r.value]
        && notifications == old(notifications) + [Notification(req.email, code)]
    {
      var check := CheckBooking(catalog, schedules, req);
      if check.Failure? {
        return Failure(check.error);
      }
      var customer := Customer(req.customerName, req.customerNationalNumber, req.email);
      customers := customers + [customer];
      var schedule := NewSchedule(code, req, check.value);
      InsertKeepsStoreValid(schedules, schedule);
      schedules := schedules[code := schedule];
      notifications := notifications + [Notification(schedule.customer.email, schedule.code)];
      r := Success(schedule);
    }

    /** `confirmSchedule`: unknown code is INVALID_SCHEDULE and changes nothing; otherwise only the
        `confirmed` flag of that one schedule is raised. */
    method ConfirmSchedule(code: ScheduleCode) returns (r: Outcome)
      requires Valid()
      modifies this`schedules
      ensures Valid()
      ensures code !in old(schedules) ==> r == Fail(InvalidSchedule) && schedules == old(schedules)
      ensures code in old(schedules) ==> r == Pass && schedules == Marked(old(schedules), code, Confirmed)
    {
      if code !in schedules {
        return Fail(InvalidSchedule);
      }
      var schedule := schedules[code];
      schedule := schedule.WithFlag(Confirmed);
      MarkedKeepsStoreValid(schedules, code, Confirmed);
      schedules := schedules[code := schedule];
      r := Pass;
    }

    /** `markVaccinationAsApplied`: unknown code is INVALID_SCHEDULE and changes nothing; otherwise
        only the `applied` flag of that one schedule is raised. */
    method MarkVaccinationAsApplied(code: ScheduleCode) returns (r: Outcome)
      requires Valid()
      modifies this`schedules
      ensures Valid()
      ensures code !in old(schedules) ==> r == Fail(InvalidSchedule) && schedules == old(schedules)
      ensures code in old(schedules) ==> r == Pass && schedules == Marked(old(schedules), code, Applied)
    {
      if code !in schedules {
        return Fail(InvalidSchedule);
      }
      var schedule := schedules[code];
      schedule := schedule.WithFlag(Applied);
      MarkedKeepsStoreValid(schedules, code, Applied);
      schedules := schedules[code := schedule];
      r := Pass;
    }
  }

  /** Branch B1 offering V1, slot T1, payment method P1: a first booking of (B1, T1, 2024-06-01)
      is accepted with neither flag raised, and a second one for the same slot by another customer
      is rejected as TIMESLOT_UNAVAILABLE; confirming and applying the first leaves both flags true. */
  method BookingScenario() returns (first: Result<Schedule>, second: Result<Schedule>, both: bool)
    ensures first.Success? && first.value.code == "S1" && !first.value.confirmed && !first.value.applied
    ensures second == Failure(TimeslotUnavailable)
    ensures both
  {
    var v1 := Vaccine("V1", "Vaccine 1");
    var b1 := Branch("B1", "Branch 1", [v1]);
    var t1 := TimeSlot(1, 540, 570);
    var p1 := PaymentMethod(1, "Cash");
    var cat := Catalog(map["B1" := b1], map["V1" := v1], map[1 := p1], [t1]);
    var service := new VaccinationService(cat, [], map[]);
    var day := Date(2024, 6, 1);
    first := service.ScheduleVaccination(Request("B1", "V1", 1, 1, day, "Alice", "111", "a@x.com"), "S1");
    assert FindTimeSlot(cat.timeSlots, 1) == Some(t1);
    second := service.ScheduleVaccination(Request("B1", "V1", 1, 1, day, "Bob", "222", "b@x.com"), "S2");
    var c := service.ConfirmSchedule("S1");
    var a := service.MarkVaccinationAsApplied("S1");
    both := service.schedules["S1"].confirmed && service.schedules["S1"].applied;
  }
}
