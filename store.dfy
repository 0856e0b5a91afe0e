/** The schedule store: schedules by schedule code, the invariant the booking check keeps, and the
    two schedule queries the service issues. */
module Store {
  import opened Entities

  type Schedules = map<ScheduleCode, Schedule>

  /** Some schedule occupies the slot. */
  predicate Occupied(booked: Schedules, key: SlotKey) {
    exists c :: c in booked && booked[c].Key() == key
  }

  /** `isTimeslotAvailable`: the `findSchedule(timeSlot, scheduleDate, branch)` query finds nothing. */
  predicate IsTimeslotAvailable(booked: Schedules, timeSlot: TimeSlot, scheduleDate: Date, branch: Branch)
    ensures IsTimeslotAvailable(booked, timeSlot, scheduleDate, branch) <==>
      forall c :: c in booked ==>
        booked[c].branch.code != branch.code || booked[c].date != scheduleDate || booked[c].timeSlot.id != timeSlot.id
  {
    !Occupied(booked, SlotKey(branch.code, scheduleDate, timeSlot.id))
  }

  /** `findByScheduleDateAndBranchCode`: the schedules at one branch on one day. */
  function SchedulesAt(booked: Schedules, branchCode: BranchCode, date: Date): set<Schedule> {
    set c | c in booked && booked[c].branch.code == branchCode && booked[c].date == date :: booked[c]
  }

  /** Each schedule is filed under its own code. */
  ghost predicate CodesMatch(booked: Schedules) {
    forall c :: c in booked ==> booked[c].code == c
  }

  /** No two schedules share a branch, a day and a time slot. */
  ghost predicate NoDoubleBooking(booked: Schedules) {
    forall c1, c2 :: c1 in booked && c2 in booked && c1 != c2 ==> booked[c1].Key() != booked[c2].Key()
  }

  ghost predicate StoreValid(booked: Schedules) {
    CodesMatch(booked) && NoDoubleBooking(booked)
  }

  /** Filing a schedule under a fresh code keeps the store valid exactly when its slot was free. */
  lemma InsertKeepsStoreValid(booked: Schedules, s: Schedule)
    requires StoreValid(booked)
    requires s.code !in booked
    ensures StoreValid(booked[s.code := s]) <==> !Occupied(booked, s.Key())
  {
    var after := booked[s.code := s];
    if Occupied(booked, s.Key()) {
      var c :| c in booked && booked[c].Key() == s.Key();
      assert c != s.code && after[c] == booked[c] && after[s.code] == s;
    }
  }
}
