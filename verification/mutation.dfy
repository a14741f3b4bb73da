/**
 * The mutation callback (src/genetic-scheduler.js:336-399): one session,
 * chosen at random, gets a new start slot, room, trainer or day.
 *
 * The three draws of the callback are the argument `draw`: the kind of edit
 * (the source draws it from `Math.random()` against 0.33, 0.66 and 0.9), the
 * position of the session, and the drawn value (a slot, an index into the
 * possible rooms or trainers, or a day).
 *
 * Sessions are values here: the result is a new sequence and the argument is
 * untouched. The source edits the session object it shares with the parent
 * schedule; that behaviour is modelled separately in module AliasedMutation.
 */
module Mutation {
  import opened Models
  import opened Enumeration

  datatype MutationKind = Retime | Reroom | Retrain | Reday

  /** The random draws of one call: the kind, the session's position and the drawn value. */
  datatype MutationDraw = MutationDraw(kind: MutationKind, index: int, choice: int)

  /** The highest start slot at which the training still ends within the day. */
  function MaxStartSlot(t: Training): int
  {
    TIME_SLOTS_PER_DAY - t.duration
  }

  /**
   * The draws `Math.floor(Math.random() * n)` can produce for this schedule,
   * and the lookup the edit needs: for all kinds but `Reday`, the session's
   * training is read (`trainingObj.duration`, `.possibleRooms`,
   * `.possibleTrainers`) and must be found.
   */
  predicate ValidDraw(trainings: seq<Training>, schedule: seq<ScheduledTraining>, draw: MutationDraw)
  {
    |schedule| > 0 ==>
      0 <= draw.index < |schedule| &&
      match FindTraining(trainings, schedule[draw.index].trainingId)
      case None => draw.kind == Reday && 0 <= draw.choice < DAYS
      case Some(t) =>
        match draw.kind
        case Retime => MaxStartSlot(t) >= 0 ==> 0 <= draw.choice <= MaxStartSlot(t)
        case Reroom => |t.possibleRooms| > 0 ==> 0 <= draw.choice < |t.possibleRooms|
        case Retrain => |t.possibleTrainers| > 0 ==> 0 <= draw.choice < |t.possibleTrainers|
        case Reday => 0 <= draw.choice < DAYS
  }

  /** The edited session. */
  function Edit(trainingObj: Option<Training>, s: ScheduledTraining, kind: MutationKind, choice: int): ScheduledTraining
    requires kind != Reday ==> trainingObj.Some?
    requires kind == Retime && MaxStartSlot(trainingObj.value) >= 0 ==> choice >= 0
    requires kind == Reroom && |trainingObj.value.possibleRooms| > 0 ==> 0 <= choice < |trainingObj.value.possibleRooms|
    requires kind == Retrain && |trainingObj.value.possibleTrainers| > 0 ==> 0 <= choice < |trainingObj.value.possibleTrainers|
  {
    match kind
    case Retime => if MaxStartSlot(trainingObj.value) >= 0 then s.(timeSlot := choice) else s
    case Reroom =>
      if |trainingObj.value.possibleRooms| > 0 then s.(roomId := trainingObj.value.possibleRooms[choice]) else s
    case Retrain =>
      if |trainingObj.value.possibleTrainers| > 0 then s.(trainerId := trainingObj.value.possibleTrainers[choice]) else s
    case Reday => s.(day := choice)
  }

  /** The schedule `mutate` returns for these draws. */
  function Mutated(trainings: seq<Training>, schedule: seq<ScheduledTraining>, draw: MutationDraw)
    : seq<ScheduledTraining>
    requires ValidDraw(trainings, schedule, draw)
  {
    if |schedule| == 0 then schedule
    else
      var s := schedule[draw.index];
      schedule[draw.index := Edit(FindTraining(trainings, s.trainingId), s, draw.kind, draw.choice)]
  }

  /** The callback as the source runs it: copy, pick a session, edit one field. */
  method Mutate(trainings: seq<Training>, schedule: seq<ScheduledTraining>, draw: MutationDraw)
    returns (mutatedSchedule: seq<ScheduledTraining>)
    requires ValidDraw(trainings, schedule, draw)
    ensures mutatedSchedule == Mutated(trainings, schedule, draw)
  {
    mutatedSchedule := schedule;
    if |mutatedSchedule| > 0 {
      var index := draw.index;
      var training := mutatedSchedule[index];
      var trainingObj := FindTraining(trainings, training.trainingId);
      match draw.kind {
        case Retime =>
          var maxStartSlot := TIME_SLOTS_PER_DAY - trainingObj.value.duration;
          if maxStartSlot >= 0 {
            training := training.(timeSlot := draw.choice);
          }
        case Reroom =>
          if |trainingObj.value.possibleRooms| > 0 {
            training := training.(roomId := trainingObj.value.possibleRooms[draw.choice]);
          }
        case Retrain =>
          if |trainingObj.value.possibleTrainers| > 0 {
            training := training.(trainerId := trainingObj.value.possibleTrainers[draw.choice]);
          }
        case Reday =>
          var newDay := draw.choice;
          training := training.(day := newDay);
      }
      mutatedSchedule := mutatedSchedule[index := training];
    }
  }

  // ---------------------------------------------------------------------------
  // What a mutation changes

  /**
   * Length, training ids and session ids never change; an empty schedule is
   * returned as it is; every position but the drawn one is untouched.
   */
  lemma MutationShape(trainings: seq<Training>, schedule: seq<ScheduledTraining>, draw: MutationDraw)
    requires ValidDraw(trainings, schedule, draw)
    ensures var r := Mutated(trainings, schedule, draw);
            |r| == |schedule| &&
            (forall k :: 0 <= k < |r| ==>
               r[k].trainingId == schedule[k].trainingId && r[k].sessionId == schedule[k].sessionId) &&
            (forall k :: 0 <= k < |r| && k != draw.index ==> r[k] == schedule[k]) &&
            (schedule == [] ==> r == [])
  {
  }

  /** At the drawn position only the field the kind names can differ. */
  lemma MutationChangesOneField(trainings: seq<Training>, schedule: seq<ScheduledTraining>, draw: MutationDraw)
    requires ValidDraw(trainings, schedule, draw) && |schedule| > 0
    ensures var before := schedule[draw.index];
            var after := Mutated(trainings, schedule, draw)[draw.index];
            (draw.kind == Retime ==> after == before.(timeSlot := after.timeSlot)) &&
            (draw.kind == Reroom ==> after == before.(roomId := after.roomId)) &&
            (draw.kind == Retrain ==> after == before.(trainerId := after.trainerId)) &&
            (draw.kind == Reday ==> after == before.(day := after.day))
  {
  }

  /**
   * The new value lies in the range of its kind: a start slot in
   * [0, 8 − duration], one of the training's rooms, one of its trainers, or a
   * day in [0, 5). When no value exists (the training is longer than a day, or
   * has no rooms or no trainers) the session is unchanged.
   */
  lemma MutationRanges(trainings: seq<Training>, schedule: seq<ScheduledTraining>, draw: MutationDraw)
    requires ValidDraw(trainings, schedule, draw) && |schedule| > 0
    ensures var before := schedule[draw.index];
            var after := Mutated(trainings, schedule, draw)[draw.index];
            var t := FindTraining(trainings, before.trainingId);
            (draw.kind == Reday ==> 0 <= after.day < DAYS) &&
            (draw.kind != Reday ==> t.Some?) &&
            (draw.kind == Retime ==>
               if MaxStartSlot(t.value) >= 0 then 0 <= after.timeSlot <= MaxStartSlot(t.value) else after == before) &&
            (draw.kind == Reroom ==>
               if |t.value.possibleRooms| > 0 then after.roomId in t.value.possibleRooms else after == before) &&
            (draw.kind == Retrain ==>
               if |t.value.possibleTrainers| > 0 then after.trainerId in t.value.possibleTrainers else after == before)
  {
  }

  /** Training ids are kept, so a schedule whose trainings are all found stays so. */
  lemma MutationKeepsKnown(trainings: seq<Training>, schedule: seq<ScheduledTraining>, draw: MutationDraw)
    requires ValidDraw(trainings, schedule, draw) && Known(schedule, trainings)
    ensures Known(Mutated(trainings, schedule, draw), trainings)
  {
    MutationShape(trainings, schedule, draw);
  }

  /** A session whose trainer, room, day and slot form an admissible combination of its training. */
  predicate Placed(trainings: seq<Training>, trainers: seq<Trainer>, rooms: seq<Room>, s: ScheduledTraining)
  {
    match FindTraining(trainings, s.trainingId)
    case None => false
    case Some(t) => Admissible(t, trainers, rooms, Combination(s.trainerId, s.roomId, s.day, s.timeSlot))
  }

  /** Moving a session to another start slot keeps it admissible: the slot range is all that depends on the slot. */
  lemma RetimeKeepsPlacement(trainings: seq<Training>, trainers: seq<Trainer>, rooms: seq<Room>,
                             schedule: seq<ScheduledTraining>, draw: MutationDraw)
    requires ValidDraw(trainings, schedule, draw) && |schedule| > 0 && draw.kind == Retime
    requires Placed(trainings, trainers, rooms, schedule[draw.index])
    ensures Placed(trainings, trainers, rooms, Mutated(trainings, schedule, draw)[draw.index])
  {
  }

  /**
   * A new day is any of the five, whatever the trainer's and room's
   * availability: a session of a trainer and room available on Monday only,
   * moved to Thursday, is no longer admissible.
   */
  lemma RedayIgnoresAvailability()
    ensures var trainers := [Trainer(1, "A", [0])];
            var rooms := [Room(1, "R", 10, [0])];
            var trainings := [Training(1, "T", 1, [1], [1], 1)];
            var schedule := [ScheduledTraining(1, 1, 1, 0, 0, SessionId(1, 0))];
            var draw := MutationDraw(Reday, 0, 3);
            ValidDraw(trainings, schedule, draw) &&
            Placed(trainings, trainers, rooms, schedule[0]) &&
            !Placed(trainings, trainers, rooms, Mutated(trainings, schedule, draw)[0])
  {
    var trainers := [Trainer(1, "A", [0])];
    var rooms := [Room(1, "R", 10, [0])];
    var training := Training(1, "T", 1, [1], [1], 1);
    assert FindTraining([training], 1) == Some(training);
    assert FindTrainer(trainers, 1) == Some(trainers[0]);
    assert FindRoom(rooms, 1) == Some(rooms[0]);
  }
}
