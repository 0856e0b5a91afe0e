/** The entities of the booking domain, as values. */
module Entities {

  type BranchCode = string
  type VaccineCode = string
  type PaymentMethodId = int
  type TimeSlotId = int
  type ScheduleCode = string

  /** A calendar day; the service only ever compares days for equality. */
  datatype Date = Date(year: int, month: int, day: int)

  datatype Vaccine = Vaccine(code: VaccineCode, name: string)

  /** A branch and the vaccines it lists. */
  datatype Branch = Branch(code: BranchCode, name: string, vaccines: seq<Vaccine>)

  /** A bookable interval of the day, shared by all branches (minutes since midnight). */
  datatype TimeSlot = TimeSlot(id: TimeSlotId, startMinute: int, endMinute: int)

  datatype PaymentMethod = PaymentMethod(id: PaymentMethodId, name: string)

  /** A customer, created afresh by every booking and never updated. */
  datatype Customer = Customer(name: string, nationalNumber: string, email: string)

  /** The two status flags a schedule carries. */
  datatype Flag = Confirmed | Applied

  /** What at most one schedule may occupy: a time slot of one branch on one day. */
  datatype SlotKey = SlotKey(branchCode: BranchCode, date: Date, timeSlotId: TimeSlotId)

  /** A booked vaccination appointment. */
  datatype Schedule = Schedule(
    code: ScheduleCode,
    date: Date,
    timeSlot: TimeSlot,
    branch: Branch,
    vaccine: Vaccine,
    customer: Customer,
    paymentMethod: PaymentMethod,
    confirmed: bool,
    applied: bool)
  {
    /** The branch, day and time slot this schedule occupies. */
    function Key(): SlotKey {
      SlotKey(branch.code, date, timeSlot.id)
    }

    predicate Has(f: Flag) {
      match f
      case Confirmed => confirmed
      case Applied => applied
    }

    /** The booking data without its status flags. */
    function Unflagged(): Schedule {
      this.(confirmed := false, applied := false)
    }

    /** `setConfirmed(true)` or `setApplied(true)`: one flag raised, everything else kept. */
    function WithFlag(f: Flag): (r: Schedule)
      ensures r.Has(f)
      ensures forall g :: g != f ==> r.Has(g) == Has(g)
      ensures r.Unflagged() == Unflagged()
      ensures r.Key() == Key()
    {
      match f
      case Confirmed => this.(confirmed := true)
      case Applied => this.(applied := true)
    }
  }

  /** A confirmation e-mail handed to the mail transport, reduced to its recipient and the
      schedule code its body quotes. */
  datatype Notification = Notification(recipient: string, scheduleCode: ScheduleCode)

  /** The fields of a booking request. */
  datatype Request = Request(
    branchCode: BranchCode,
    vaccineCode: VaccineCode,
    paymentMethodId: PaymentMethodId,
    timeSlotId: TimeSlotId,
    scheduleDate: Date,
    customerName: string,
    customerNationalNumber: string,
    email: string)
  {
    /** The slot this request asks for. */
    function Key(): SlotKey {
      SlotKey(branchCode, scheduleDate, timeSlotId)
    }
  }
}
