# Vaccination booking service — a verified model

This project models the booking core of `VaccinationService` in the vaccnow repository: a
service that lists the vaccines of a branch, computes the free time slots of a branch on a day,
validates and records a vaccination booking, and raises the `confirmed` and `applied` flags of a
stored schedule.

The Spring Data repositories become an in-memory store:

- `CatalogLookup.Catalog` holds the reference data the service only reads: branches by branch
  code, vaccines by vaccine code, payment methods by id, and the time slots in the order the
  time-slot repository lists them (their ids are distinct).
- `Service.VaccinationService` is a class holding that catalog and the mutable state: the saved
  customers (in save order), the saved schedules (by schedule code) and the confirmation e-mails
  handed to the mail transport. Its invariant `Valid()` says that every schedule is filed under its
  own code, that no two schedules occupy the same (branch, day, time slot) triple, and that every
  schedule's customer has been saved.
- The read-only operations are functions of the store's contents:
  `AvailableTimeSlots(service.catalog.timeSlots, service.schedules, branchCode, date)` and
  `VaccinesByBranchCode(service.catalog, branchCode)`. The booking checks are the function
  `CheckBooking`; the method `ScheduleVaccination` calls it and then performs the two saves.
- `ErrorCode` mirrors the error codes the service throws inside a `PreconditionException`; a thrown
  exception becomes a `Failure(code)` result (or `Fail(code)` for the `void` operations).
- The generated UUID schedule code is a parameter of `ScheduleVaccination`, required to be unused.

Behaviour worth knowing, modelled as the code has it: the vaccine check looks the vaccine up among
all vaccines (`vaccineRepository.findById`), not among the vaccines the chosen branch lists, so a
booking for a vaccine the branch does not offer is accepted (`CheckBooking`'s acceptance condition
does not mention `branch.vaccines`). The builder sets no status flag; the model takes the flags of a
freshly built schedule to be false.

## Model

| member | source | states |
|---|---|---|
| `Entities.Schedule.WithFlag` | src/main/java/com/assessment/vaccination/domain/VaccinationService.java:175-187 | `setConfirmed(true)` / `setApplied(true)`: the chosen flag is true, the other flag and all booking data (hence the occupied slot) are unchanged |
| `CatalogLookup.VaccinesByBranchCode` | src/main/java/com/assessment/vaccination/domain/VaccinationService.java:48-54 | fails with INTERNAL_SERVER_ERROR exactly when no branch has the code; otherwise returns that branch's vaccine list unchanged |
| `CatalogLookup.FindTimeSlot` | src/main/java/com/assessment/vaccination/domain/VaccinationService.java:118-121 | finds a slot exactly when some listed slot carries the id, and what it finds is a listed slot with that id |
| `CatalogLookup.FindListedTimeSlot` | src/main/java/com/assessment/vaccination/domain/VaccinationService.java:118-121 | with distinct ids, looking up a listed slot's id returns that very slot |
| `Store.InsertKeepsStoreValid` | src/main/java/com/assessment/vaccination/domain/VaccinationService.java:123-142 | filing a schedule under a fresh code keeps "at most one schedule per (branch, day, slot)" exactly when its slot was not occupied |
| `Availability.FreeSlots` | src/main/java/com/assessment/vaccination/domain/VaccinationService.java:64-69 | the filter keeps exactly the slots no given schedule uses, each as often as it is listed, as a subsequence of the slot list (order kept), never longer than it |
| `Availability.AvailableTimeSlots` | src/main/java/com/assessment/vaccination/domain/VaccinationService.java:59-70 | returns exactly the listed slots not occupied at the branch on the day, each as often as it is listed, in listing order, never more than all slots |
| `Store.IsTimeslotAvailable` | src/main/java/com/assessment/vaccination/domain/VaccinationService.java:157-161 | true exactly when no stored schedule carries that branch code, day and time-slot id |
| `Booking.NewSchedule` | src/main/java/com/assessment/vaccination/domain/VaccinationService.java:130-140 | the built schedule carries the given code, the request's date and customer data, the resolved branch, vaccine, payment method and time slot, and both flags false |
| `Booking.CheckBooking` | src/main/java/com/assessment/vaccination/domain/VaccinationService.java:103-125 | checks branch, vaccine, payment method, time slot, availability in that order: each error exactly when all earlier checks pass and its own fails; success exactly when all five pass, with the entities matching the request |
| `Booking.OfferedIffBookable` | src/main/java/com/assessment/vaccination/domain/VaccinationService.java:157-161 | a listed slot is shown as available exactly when booking it (known branch, vaccine, payment method) is accepted |
| `Booking.BookedSlotRejectsRebooking` | src/main/java/com/assessment/vaccination/domain/VaccinationService.java:123-142 | storing an accepted booking keeps the store valid, and a second request for the same branch, day and slot then fails with TIMESLOT_UNAVAILABLE |
| `Booking.OtherSlotUnaffected` | src/main/java/com/assessment/vaccination/domain/VaccinationService.java:157-161 | a newly stored schedule does not change the outcome of a request for a different (branch, day, slot) |
| `StatusUpdater.Marked` | src/main/java/com/assessment/vaccination/domain/VaccinationService.java:170-189 | after a flag update the same codes are stored, the flag is true on that schedule, and no other flag and no booking data of any schedule differ |
| `StatusUpdater.MarkedKeepsStoreValid` | src/main/java/com/assessment/vaccination/domain/VaccinationService.java:175-188 | a flag update keeps the store invariant |
| `StatusUpdater.MarkedIdempotent` | src/main/java/com/assessment/vaccination/domain/VaccinationService.java:170-189 | repeating a flag update has no further effect |
| `StatusUpdater.ConfirmThenApply` | src/main/java/com/assessment/vaccination/domain/VaccinationService.java:170-189 | confirming then marking as applied leaves both flags true, and the two updates commute |
| `Service.VaccinationService.constructor` | src/main/java/com/assessment/vaccination/domain/VaccinationService.java:24-36 | a service over a well-formed catalog and repositories already holding customers and valid schedules starts with exactly those contents, nothing sent, and a valid store |
| `Service.VaccinationService.ScheduleVaccination` | src/main/java/com/assessment/vaccination/domain/VaccinationService.java:102-146 | a rejection returns the first failed check's error and leaves customers, schedules and sent mail unchanged; an acceptance adds one customer, one schedule with the request's date, slot, branch, vaccine, payment method, customer, the fresh code and both flags false, and one confirmation to the customer's address; the store invariant is kept |
| `Service.VaccinationService.ConfirmSchedule` | src/main/java/com/assessment/vaccination/domain/VaccinationService.java:170-177 | unknown code: INVALID_SCHEDULE and nothing changes; otherwise only `confirmed` of that schedule is raised, nothing but the schedules may change |
| `Service.VaccinationService.MarkVaccinationAsApplied` | src/main/java/com/assessment/vaccination/domain/VaccinationService.java:182-189 | unknown code: INVALID_SCHEDULE and nothing changes; otherwise only `applied` of that schedule is raised, nothing but the schedules may change |
| `Service.BookingScenario` | src/main/java/com/assessment/vaccination/domain/VaccinationService.java:102-189 | with branch B1, vaccine V1, slot T1, payment P1: the first booking of (B1, T1, 2024-06-01) is accepted unflagged, a second one for the same slot fails with TIMESLOT_UNAVAILABLE, and confirm plus apply leave both flags true |

## Left out

- E-mail confirmation (`sendEmailConfirmation`): reduced to a recorded `Notification` of the recipient address and the schedule code, appended after the schedule is saved; the configured subject, the `String.format` body and the mail transport are not modelled, and a send failure (which in the source propagates after the booking is already saved) is not modelled: sending always succeeds.
- Report generation (`getScheduleReport`): PDF rendering by an external generator, Base64 encoding and a filtered repository query whose semantics are not part of this model.
- UUID generation (`generateUniqueCode`): randomness; the code is a parameter required to be unused in the store.
- `getBranches` and `getPaymentMethods`: plain reads of all rows, nothing to state beyond the catalog's contents.
- Spring Data / JPA persistence: repositories are maps and sequences; generated entity ids (such as a customer's id) and entity identity are not modelled, and schedules are values, so the in-place setter followed by `save` is one map update.
- Repository queries are given the meaning their names state: `findById` and `findByBranchCode` look up by key, `findSchedule(timeSlot, date, branch)` matches on time-slot id, date and branch code, `findByScheduleDateAndBranchCode` filters by date and branch code.
- The check-then-insert race between concurrent bookings of the same slot: the model is single-threaded, so the invariant holds only for sequential calls.
- Request fields are never null in the model: a null vaccine code, payment-method id or time-slot id reaches the repository's `findById`, which in the source throws an unchecked exception rather than a precondition failure; that path is not modelled, and the error order that `CheckBooking` states holds for non-null requests.
- Dates are (year, month, day) triples compared for equality; calendar validity is not modelled. Time slot start and end times are carried but not used.
