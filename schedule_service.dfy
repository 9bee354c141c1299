/** The slot ledger: professionals publish, list and delete available slots. */
module ScheduleService {
  import opened Domain
  import Query

  /** The where-clause of the overlap query of createSchedule: a slot of the
      same user on the same date that contains the new start
      (`s' <= start < e'`) or the new end (`s' < end <= e'`). */
  predicate Conflicts(existing: Slot, userId: int, date: int, startTime: int, endTime: int) {
    && existing.userId == userId
    && existing.date == date
    && ((existing.startTime <= startTime && existing.endTime > startTime)
        || (existing.startTime < endTime && existing.endTime >= endTime))
  }

  /** The overlap query finds a row. */
  predicate HasConflict(slots: seq<Slot>, userId: int, date: int, startTime: int, endTime: int) {
    exists i | 0 <= i < |slots| :: Conflicts(slots[i], userId, date, startTime, endTime)
  }

  /** The half-open intersection of `[startTime, endTime)` with the window of
      `other`, for the same user and date: the usual meaning of an overlap. */
  predicate Intersects(other: Slot, userId: int, date: int, startTime: int, endTime: int) {
    && other.userId == userId
    && other.date == date
    && startTime < other.endTime
    && other.startTime < endTime
  }

  /** For a well-formed window, the overlap query finds exactly the
      intersecting slots that the new window does not strictly enclose. */
  lemma ConflictsIffIntersectsAndNotEnclosed(existing: Slot, userId: int, date: int, startTime: int, endTime: int)
    requires startTime < endTime
    ensures Conflicts(existing, userId, date, startTime, endTime) <==>
              && Intersects(existing, userId, date, startTime, endTime)
              && !(startTime < existing.startTime && existing.endTime < endTime)
  {
  }

  /** A new slot that strictly encloses an existing one is not rejected:
      publishing [9, 12) beside [10, 11) on the same date succeeds. */
  lemma EnclosingSlotIsNotAConflict()
    ensures Intersects(Slot(1, 7, 20, 10, 11), 7, 20, 9, 12)
    ensures !HasConflict([Slot(1, 7, 20, 10, 11)], 7, 20, 9, 12)
  {
  }

  /** Nothing checks that a window is non-empty: an empty window never
      conflicts with itself, so it can be published any number of times. */
  lemma EmptyWindowNeverConflictsWithItself(slot: Slot)
    requires slot.startTime == slot.endTime
    ensures !Conflicts(slot, slot.userId, slot.date, slot.startTime, slot.endTime)
  {
  }

  /** Once a non-empty window is published, publishing the same window again
      for the same user and date is rejected. */
  lemma PublishedWindowBlocksItself(slots: seq<Slot>, slot: Slot)
    requires slot.startTime < slot.endTime
    ensures HasConflict(slots + [slot], slot.userId, slot.date, slot.startTime, slot.endTime)
  {
    assert (slots + [slot])[|slots|] == slot;
  }

  /** Slots of other users or other dates never conflict. */
  lemma ConflictsOnlyWithinOneUserAndDate(slots: seq<Slot>, userId: int, date: int, startTime: int, endTime: int)
    requires forall i :: 0 <= i < |slots| ==> slots[i].userId != userId || slots[i].date != date
    ensures !HasConflict(slots, userId, date, startTime, endTime)
  {
  }

  /** The slot table once the row with key `id` is deleted. */
  function WithoutSlot(slots: seq<Slot>, id: int): (r: seq<Slot>)
    ensures forall x :: x in r <==> x in slots && x.id != id
  {
    if slots == [] then []
    else if slots[0].id == id then WithoutSlot(slots[1..], id)
    else [slots[0]] + WithoutSlot(slots[1..], id)
  }

  /** Deleting a key no row holds changes nothing. */
  lemma {:induction false} WithoutAbsentSlot(slots: seq<Slot>, id: int)
    requires forall i :: 0 <= i < |slots| ==> slots[i].id != id
    ensures WithoutSlot(slots, id) == slots
  {
    if slots != [] {
      WithoutAbsentSlot(slots[1..], id);
    }
  }

  /** With unique keys, deleting a key removes exactly the one element that
      holds it and keeps the others in order. */
  lemma {:induction false} WithoutSlotAt(slots: seq<Slot>, i: nat)
    requires forall a, b :: 0 <= a < b < |slots| ==> slots[a].id < slots[b].id
    requires i < |slots|
    ensures WithoutSlot(slots, slots[i].id) == slots[..i] + slots[i + 1..]
  {
    var id := slots[i].id;
    if i == 0 {
      WithoutAbsentSlot(slots[1..], id);
    } else {
      WithoutSlotAt(slots[1..], i - 1);
      assert slots[1..][i - 1].id == id;
      assert slots[..i] == [slots[0]] + slots[1..][..i - 1];
      assert slots[i + 1..] == slots[1..][i..];
    }
  }

  /** The slots of one professional, by date ascending. */
  function GetSchedulesByProfessional(slots: seq<Slot>, professionalId: int): (r: seq<Slot>)
    ensures forall x :: x in r <==> x in slots && x.userId == professionalId
    ensures forall x :: multiset(r)[x] == if x.userId == professionalId then multiset(slots)[x] else 0
    ensures forall i, j :: 0 <= i < j < |r| ==> r[i].date <= r[j].date
  {
    var mine := Query.Filter(slots, (x: Slot) => x.userId == professionalId);
    var r := Query.SortBy(mine, (x: Slot) => x.date);
    assert forall x :: x in r <==> x in mine by {
      forall x ensures x in r <==> x in mine {
        assert x in r <==> multiset(r)[x] > 0;
        assert x in mine <==> multiset(mine)[x] > 0;
      }
    }
    r
  }

  /** createSchedule: the user must exist and be a professional, and the
      overlap query must find nothing; then one slot is appended. */
  method CreateSchedule(db: Store, userId: int, date: int, startTime: int, endTime: int)
    returns (r: Result<Slot>)
    requires db.Valid()
    modifies db`slots, db`nextSlotId
    ensures db.Valid()
    ensures userId !in db.users ==> r == Failure(UserNotFound) && unchanged(db)
    ensures userId in db.users && db.users[userId].role != Professional ==>
              r == Failure(OnlyProfessionalsCanCreateSchedules) && unchanged(db)
    ensures userId in db.users && db.users[userId].role == Professional
            && HasConflict(old(db.slots), userId, date, startTime, endTime) ==>
              r == Failure(ScheduleOverlaps) && unchanged(db)
    ensures userId in db.users && db.users[userId].role == Professional
            && !HasConflict(old(db.slots), userId, date, startTime, endTime) ==>
              && r == Success(Slot(old(db.nextSlotId), userId, date, startTime, endTime))
              && db.slots == old(db.slots) + [r.value]
              && db.nextSlotId == old(db.nextSlotId) + 1
  {
    if userId !in db.users {
      return Failure(UserNotFound);
    }
    if db.users[userId].role != Professional {
      return Failure(OnlyProfessionalsCanCreateSchedules);
    }
    if HasConflict(db.slots, userId, date, startTime, endTime) {
      return Failure(ScheduleOverlaps);
    }
    var slot := Slot(db.nextSlotId, userId, date, startTime, endTime);
    db.slots := db.slots + [slot];
    db.nextSlotId := db.nextSlotId + 1;
    return Success(slot);
  }

  /** deleteSchedule: the slot must exist and belong to the caller; then
      exactly that row is removed. */
  method DeleteSchedule(db: Store, scheduleId: int, userId: int) returns (r: Result<()>)
    requires db.Valid()
    modifies db`slots
    ensures db.Valid()
    ensures FindByKey(old(db.slots), SlotKey, scheduleId).None? ==> r == Failure(ScheduleNotFound) && unchanged(db)
    ensures var f := FindByKey(old(db.slots), SlotKey, scheduleId);
            f.Some? && old(db.slots)[f.value].userId != userId ==>
              r == Failure(UnauthorizedToDeleteSchedule) && unchanged(db)
    ensures var f := FindByKey(old(db.slots), SlotKey, scheduleId);
            f.Some? && old(db.slots)[f.value].userId == userId ==>
              r == Success(()) && db.slots == WithoutSlot(old(db.slots), scheduleId)
  {
    var f := FindByKey(db.slots, SlotKey, scheduleId);
    if f.None? {
      return Failure(ScheduleNotFound);
    }
    var i := f.value;
    if db.slots[i].userId != userId {
      return Failure(UnauthorizedToDeleteSchedule);
    }
    WithoutSlotAt(db.slots, i);
    RemovalKeepsKeysOrdered(db.slots, SlotKey, db.nextSlotId, i);
    db.slots := db.slots[..i] + db.slots[i + 1..];
    return Success(());
  }
}
