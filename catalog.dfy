/** The reference data the service reads but never changes, and the lookups into it. */
module CatalogLookup {
  import opened Errors
  import opened Entities

  /** Branches by branch code, vaccines by vaccine code, payment methods by id, and the time
      slots in the order the time-slot repository lists them. */
  datatype Catalog = Catalog(
    branches: map<BranchCode, Branch>,
    vaccines: map<VaccineCode, Vaccine>,
    paymentMethods: map<PaymentMethodId, PaymentMethod>,
    timeSlots: seq<TimeSlot>)
  {
    /** Each entry is filed under its own key, and no two time slots share an id. */
    ghost predicate Valid() {
      && (forall c :: c in branches ==> branches[c].code == c)
      && (forall c :: c in vaccines ==> vaccines[c].code == c)
      && (forall id :: id in paymentMethods ==> paymentMethods[id].id == id)
      && DistinctIds(timeSlots)
    }
  }

  ghost predicate DistinctIds(slots: seq<TimeSlot>) {
    forall i, j :: 0 <= i < j < |slots| ==> slots[i].id != slots[j].id
  }

  ghost predicate HasSlotId(slots: seq<TimeSlot>, id: TimeSlotId) {
    exists i :: 0 <= i < |slots| && slots[i].id == id
  }

  /** `timeSlotRepository.findById`: some listed slot with that id, if there is one. */
  function FindTimeSlot(slots: seq<TimeSlot>, id: TimeSlotId): (r: Option<TimeSlot>)
    ensures r.Some? <==> HasSlotId(slots, id)
    ensures r.Some? ==> r.value in slots && r.value.id == id
  {
    if slots == [] then None
    else if slots[0].id == id then Some(slots[0])
    else FindTimeSlot(slots[1..], id)
  }

  /** With distinct ids, the lookup returns the very slot that carries the id. */
  lemma FindListedTimeSlot(slots: seq<TimeSlot>, t: TimeSlot)
    requires DistinctIds(slots)
    requires t in slots
    ensures FindTimeSlot(slots, t.id) == Some(t)
  {
  }

  /** `getVaccinesByBranchCode`: the branch's vaccine list, or an internal error for an
      unknown branch code. */
  function VaccinesByBranchCode(cat: Catalog, branchCode: BranchCode): (r: Result<seq<Vaccine>>)
    ensures r.Failure? <==> branchCode !in cat.branches
    ensures r.Failure? ==> r.error == InternalServerError
    ensures r.Success? ==> r.value == cat.branches[branchCode].vaccines
  {
    if branchCode in cat.branches then Success(cat.branches[branchCode].vaccines)
    else Failure(InternalServerError)
  }
}
