/**
 * `mutate` as the source writes it (src/genetic-scheduler.js:341-398): the
 * schedule is copied shallowly (`[...schedule]`), and the field assignment then
 * writes to the session object that the copy shares with the parent schedule.
 * Sessions are objects here, so that sharing is visible.
 *
 * `MutateInPlace` is the callback as written: the parent handed to `mutate`
 * changes along with the child. `MutateCopyOnWrite` is the evident intent (the
 * comment at :340 says the copy is there "to avoid modifying the original"):
 * the drawn session is copied before it is edited, and the result is the value
 * model `Mutation.Mutated`.
 */
module AliasedMutation {
  import opened Models
  import opened Mutation

  /** A scheduled training held by reference, with fields that can be assigned. */
  class SessionObject {
    var trainingId: int
    var trainerId: int
    var roomId: int
    var day: int
    var timeSlot: int
    var sessionId: SessionId

    /** The session's current field values. */
    function Value(): ScheduledTraining
      reads this
    {
      ScheduledTraining(trainingId, trainerId, roomId, day, timeSlot, sessionId)
    }

    /** `{ ...s }`: a new object with the fields of s. */
    constructor(s: ScheduledTraining)
      ensures Value() == s
    {
      trainingId := s.trainingId;
      trainerId := s.trainerId;
      roomId := s.roomId;
      day := s.day;
      timeSlot := s.timeSlot;
      sessionId := s.sessionId;
    }
  }

  /** The current values of the sessions a schedule refers to. */
  function Values(schedule: seq<SessionObject>): (r: seq<ScheduledTraining>)
    reads schedule
    ensures |r| == |schedule|
    ensures forall k :: 0 <= k < |schedule| ==> r[k] == schedule[k].Value()
  {
    if schedule == [] then []
    else Values(schedule[..|schedule| - 1]) + [schedule[|schedule| - 1].Value()]
  }

  /** No object occurs twice in the schedule (the seeder and crossover always build such schedules). */
  predicate DistinctObjects(schedule: seq<SessionObject>)
  {
    forall i, j :: 0 <= i < j < |schedule| ==> schedule[i] != schedule[j]
  }

  /**
   * The callback as written. The returned schedule holds the very objects of
   * the parent, and the drawn object is edited in place, so the PARENT's
   * session takes the new value as well.
   */
  method MutateInPlace(trainings: seq<Training>, schedule: seq<SessionObject>, draw: MutationDraw)
    returns (mutatedSchedule: seq<SessionObject>)
    requires ValidDraw(trainings, Values(schedule), draw)
    modifies schedule
    ensures mutatedSchedule == schedule
    ensures |schedule| > 0 ==>
              schedule[draw.index].Value() ==
              Edit(FindTraining(trainings, old(schedule[draw.index].Value()).trainingId),
                   old(schedule[draw.index].Value()), draw.kind, draw.choice)
    ensures forall k :: 0 <= k < |schedule| && schedule[k] != schedule[draw.index] ==>
              schedule[k].Value() == old(schedule[k].Value())
    ensures DistinctObjects(schedule) ==> Values(schedule) == Mutated(trainings, old(Values(schedule)), draw)
  {
    mutatedSchedule := schedule;
    if |mutatedSchedule| > 0 {
      var index := draw.index;
      var training := mutatedSchedule[index];
      var trainingObj := FindTraining(trainings, training.trainingId);
      match draw.kind {
        case Retime =>
          var maxStartSlot := TIME_SLOTS_PER_DAY - trainingObj.value.duration;
          if maxStartSlot >= 0 {
            training.timeSlot := draw.choice;
          }
        case Reroom =>
          if |trainingObj.value.possibleRooms| > 0 {
            training.roomId := trainingObj.value.possibleRooms[draw.choice];
          }
        case Retrain =>
          if |trainingObj.value.possibleTrainers| > 0 {
            training.trainerId := trainingObj.value.possibleTrainers[draw.choice];
          }
        case Reday =>
          var newDay := draw.choice;
          training.day := newDay;
      }
    }
  }

  /**
   * The divergence on a concrete call: a parent holding one session at slot 0,
   * mutated with a new start slot 3, afterwards shows slot 3 itself.
   */
  method ParentSeesMutation() returns (parentSlotBefore: int, parentSlotAfter: int, childSlot: int)
    ensures parentSlotBefore == 0 && parentSlotAfter == 3 && childSlot == 3
  {
    var trainings := [Training(1, "T", 1, [1], [1], 1)];
    assert FindTraining(trainings, 1) == Some(trainings[0]);
    var session := new SessionObject(ScheduledTraining(1, 1, 1, 0, 0, SessionId(1, 0)));
    var parent := [session];
    parentSlotBefore := parent[0].timeSlot;
    var child := MutateInPlace(trainings, parent, MutationDraw(Retime, 0, 3));
    parentSlotAfter := parent[0].timeSlot;
    childSlot := child[0].timeSlot;
  }

  /**
   * The corrected callback: the drawn session is copied (`{ ...training }`)
   * before the edit, so the parent keeps its values (no object is modified)
   * and the child is the value-model mutation of the parent.
   */
  method MutateCopyOnWrite(trainings: seq<Training>, schedule: seq<SessionObject>, draw: MutationDraw)
    returns (mutatedSchedule: seq<SessionObject>)
    requires ValidDraw(trainings, Values(schedule), draw)
    ensures Values(mutatedSchedule) == Mutated(trainings, Values(schedule), draw)
  {
    mutatedSchedule := schedule;
    if |mutatedSchedule| > 0 {
      var index := draw.index;
      var current := mutatedSchedule[index].Value();
      var trainingObj := FindTraining(trainings, current.trainingId);
      var training := new SessionObject(Edit(trainingObj, current, draw.kind, draw.choice));
      mutatedSchedule := mutatedSchedule[index := training];
    }
  }

  /** The same call on the corrected callback: the parent stays at slot 0, the child moves to slot 3. */
  method ParentUnchangedByCopy() returns (parentSlotBefore: int, parentSlotAfter: int, childSlot: int)
    ensures parentSlotBefore == 0 && parentSlotAfter == 0 && childSlot == 3
  {
    var trainings := [Training(1, "T", 1, [1], [1], 1)];
    assert FindTraining(trainings, 1) == Some(trainings[0]);
    var session := new SessionObject(ScheduledTraining(1, 1, 1, 0, 0, SessionId(1, 0)));
    var parent := [session];
    parentSlotBefore := parent[0].timeSlot;
    var child := MutateCopyOnWrite(trainings, parent, MutationDraw(Retime, 0, 3));
    parentSlotAfter := parent[0].timeSlot;
    childSlot := child[0].timeSlot;
  }
}
