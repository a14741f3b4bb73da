/**
 * The enumeration of the (trainer, room, day, start slot) combinations a
 * training can be placed in. The source writes it out twice, in the
 * feasibility filter (src/genetic-scheduler.js:27-63) and in the seeder
 * (src/genetic-scheduler.js:150-186); both copies are the same code, modelled
 * here once.
 */
module Enumeration {
  import opened Models

  /** One placement `{ trainerId, roomId, day, timeSlot }`. */
  datatype Combination = Combination(trainerId: int, roomId: int, day: int, timeSlot: int)

  /**
   * The available days of the trainer the lookup finds. A missing trainer only
   * reaches `trainer.availableDays` when it makes the source throw (see
   * `Resolvable`), so the [] below is never observed.
   */
  function TrainerDays(trainers: seq<Trainer>, id: int): seq<int>
  {
    match FindTrainer(trainers, id)
    case Some(t) => t.availableDays
    case None => []
  }

  /** The available days of the room the lookup finds; [] as for `TrainerDays`. */
  function RoomDays(rooms: seq<Room>, id: int): seq<int>
  {
    match FindRoom(rooms, id)
    case Some(r) => r.availableDays
    case None => []
  }

  /**
   * `trainerDays.filter(day => roomDays.includes(day) && day < DAYS)`: the
   * trainer's order and repetitions are kept, and negative days pass.
   */
  function CommonDays(trainerDays: seq<int>, roomDays: seq<int>): (r: seq<int>)
    ensures |r| <= |trainerDays|
    ensures forall day :: day in r <==> day in trainerDays && day in roomDays && day < DAYS
  {
    if trainerDays == [] then []
    else
      var day := trainerDays[|trainerDays| - 1];
      assert trainerDays == trainerDays[..|trainerDays| - 1] + [day];
      CommonDays(trainerDays[..|trainerDays| - 1], roomDays) +
      (if day in roomDays && day < DAYS then [day] else [])
  }

  /** The number of start slots 0 .. TIME_SLOTS_PER_DAY - duration; none when that bound is negative. */
  function SlotCount(duration: int): nat
  {
    if TIME_SLOTS_PER_DAY - duration < 0 then 0 else TIME_SLOTS_PER_DAY - duration + 1
  }

  /** The start slots 0 .. n-1 of one day, in increasing order. */
  function Slots(trainerId: int, roomId: int, day: int, n: nat): seq<Combination>
  {
    if n == 0 then []
    else Slots(trainerId, roomId, day, n - 1) + [Combination(trainerId, roomId, day, n - 1)]
  }

  /** `days.forEach(day => ...)`: the slots of every day, day by day. */
  function DayCombos(trainerId: int, roomId: int, days: seq<int>, n: nat): seq<Combination>
  {
    if days == [] then []
    else DayCombos(trainerId, roomId, days[..|days| - 1], n) + Slots(trainerId, roomId, days[|days| - 1], n)
  }

  /** The combinations of one trainer and one room. */
  function PairCombos(t: Training, trainers: seq<Trainer>, rooms: seq<Room>, trainerId: int, roomId: int)
    : seq<Combination>
  {
    DayCombos(trainerId, roomId, CommonDays(TrainerDays(trainers, trainerId), RoomDays(rooms, roomId)),
              SlotCount(t.duration))
  }

  /** `possibleRooms.forEach(roomId => ...)` for one trainer. */
  function RoomCombos(t: Training, trainers: seq<Trainer>, rooms: seq<Room>, trainerId: int, roomIds: seq<int>)
    : seq<Combination>
  {
    if roomIds == [] then []
    else RoomCombos(t, trainers, rooms, trainerId, roomIds[..|roomIds| - 1]) +
         PairCombos(t, trainers, rooms, trainerId, roomIds[|roomIds| - 1])
  }

  /** `possibleTrainers.forEach(trainerId => ...)`. */
  function TrainerCombos(t: Training, trainers: seq<Trainer>, rooms: seq<Room>, trainerIds: seq<int>)
    : seq<Combination>
  {
    if trainerIds == [] then []
    else TrainerCombos(t, trainers, rooms, trainerIds[..|trainerIds| - 1]) +
         RoomCombos(t, trainers, rooms, trainerIds[|trainerIds| - 1], t.possibleRooms)
  }

  /** `possibleCombinations` of training t, in the order the source pushes them. */
  function Combinations(t: Training, trainers: seq<Trainer>, rooms: seq<Room>): seq<Combination>
  {
    TrainerCombos(t, trainers, rooms, t.possibleTrainers)
  }

  /**
   * The enumeration runs without throwing: a trainer is looked up and read as
   * soon as the training has a room, and a room is read as soon as the
   * trainer has an available day.
   */
  predicate Resolvable(t: Training, trainers: seq<Trainer>, rooms: seq<Room>)
  {
    (forall a :: a in t.possibleTrainers && |t.possibleRooms| > 0 ==> FindTrainer(trainers, a).Some?) &&
    (forall a, b :: a in t.possibleTrainers && b in t.possibleRooms && |TrainerDays(trainers, a)| > 0 ==>
       FindRoom(rooms, b).Some?)
  }

  /** Every training may be enumerated without a lookup throwing. */
  predicate AllResolvable(trainings: seq<Training>, trainers: seq<Trainer>, rooms: seq<Room>)
  {
    forall t :: t in trainings ==> Resolvable(t, trainers, rooms)
  }

  /**
   * A placement is admissible for t: one of its trainers and one of its rooms,
   * a day both have available and below DAYS, and a start slot from which the
   * training ends within the day.
   */
  predicate Admissible(t: Training, trainers: seq<Trainer>, rooms: seq<Room>, c: Combination)
  {
    c.trainerId in t.possibleTrainers && c.roomId in t.possibleRooms &&
    c.day in TrainerDays(trainers, c.trainerId) && c.day in RoomDays(rooms, c.roomId) && c.day < DAYS &&
    0 <= c.timeSlot <= TIME_SLOTS_PER_DAY - t.duration
  }

  // ---------------------------------------------------------------------------
  // Membership, level by level

  lemma {:induction false} SlotsMembers(trainerId: int, roomId: int, day: int, n: nat, c: Combination)
    ensures c in Slots(trainerId, roomId, day, n) <==>
            c.trainerId == trainerId && c.roomId == roomId && c.day == day && 0 <= c.timeSlot < n
  {
    if n > 0 {
      SlotsMembers(trainerId, roomId, day, n - 1, c);
    }
  }

  lemma {:induction false} DayCombosMembers(trainerId: int, roomId: int, days: seq<int>, n: nat, c: Combination)
    ensures c in DayCombos(trainerId, roomId, days, n) <==>
            c.trainerId == trainerId && c.roomId == roomId && c.day in days && 0 <= c.timeSlot < n
  {
    if days != [] {
      var init := days[..|days| - 1];
      assert days == init + [days[|days| - 1]];
      DayCombosMembers(trainerId, roomId, init, n, c);
      SlotsMembers(trainerId, roomId, days[|days| - 1], n, c);
    }
  }

  lemma {:induction false} RoomCombosMembers(t: Training, trainers: seq<Trainer>, rooms: seq<Room>,
                                             trainerId: int, roomIds: seq<int>, c: Combination)
    ensures c in RoomCombos(t, trainers, rooms, trainerId, roomIds) <==>
            c.trainerId == trainerId && c.roomId in roomIds &&
            c.day in CommonDays(TrainerDays(trainers, trainerId), RoomDays(rooms, c.roomId)) &&
            0 <= c.timeSlot < SlotCount(t.duration)
  {
    if roomIds != [] {
      var init := roomIds[..|roomIds| - 1];
      var roomId := roomIds[|roomIds| - 1];
      assert roomIds == init + [roomId];
      RoomCombosMembers(t, trainers, rooms, trainerId, init, c);
      DayCombosMembers(trainerId, roomId, CommonDays(TrainerDays(trainers, trainerId), RoomDays(rooms, roomId)),
                       SlotCount(t.duration), c);
    }
  }

  lemma {:induction false} TrainerCombosMembers(t: Training, trainers: seq<Trainer>, rooms: seq<Room>,
                                                trainerIds: seq<int>, c: Combination)
    ensures c in TrainerCombos(t, trainers, rooms, trainerIds) <==>
            c.trainerId in trainerIds && c.roomId in t.possibleRooms &&
            c.day in CommonDays(TrainerDays(trainers, c.trainerId), RoomDays(rooms, c.roomId)) &&
            0 <= c.timeSlot < SlotCount(t.duration)
  {
    if trainerIds != [] {
      var init := trainerIds[..|trainerIds| - 1];
      var trainerId := trainerIds[|trainerIds| - 1];
      assert trainerIds == init + [trainerId];
      TrainerCombosMembers(t, trainers, rooms, init, c);
      RoomCombosMembers(t, trainers, rooms, trainerId, t.possibleRooms, c);
    }
  }

  /** The enumeration lists exactly the admissible placements. */
  lemma CombinationsAreAdmissible(t: Training, trainers: seq<Trainer>, rooms: seq<Room>, c: Combination)
    ensures c in Combinations(t, trainers, rooms) <==> Admissible(t, trainers, rooms, c)
  {
    TrainerCombosMembers(t, trainers, rooms, t.possibleTrainers, c);
  }

  /** A training longer than a day has no combination at all. */
  lemma TooLongHasNoCombinations(t: Training, trainers: seq<Trainer>, rooms: seq<Room>)
    requires t.duration > TIME_SLOTS_PER_DAY
    ensures Combinations(t, trainers, rooms) == []
  {
    var cs := Combinations(t, trainers, rooms);
    if cs != [] {
      CombinationsAreAdmissible(t, trainers, rooms, cs[0]);
    }
  }

  /** A trainer and a room with no common day below DAYS contribute nothing. */
  lemma NoCommonDayNoCombination(t: Training, trainers: seq<Trainer>, rooms: seq<Room>, trainerId: int, roomId: int)
    requires forall day :: day in TrainerDays(trainers, trainerId) && day < DAYS ==> day !in RoomDays(rooms, roomId)
    ensures PairCombos(t, trainers, rooms, trainerId, roomId) == []
  {
    var cs := PairCombos(t, trainers, rooms, trainerId, roomId);
    if cs != [] {
      DayCombosMembers(trainerId, roomId, CommonDays(TrainerDays(trainers, trainerId), RoomDays(rooms, roomId)),
                       SlotCount(t.duration), cs[0]);
    }
  }

  // ---------------------------------------------------------------------------
  // Counting

  lemma {:induction false} SlotsLength(trainerId: int, roomId: int, day: int, n: nat)
    ensures |Slots(trainerId, roomId, day, n)| == n
  {
    if n > 0 {
      SlotsLength(trainerId, roomId, day, n - 1);
    }
  }

  /** Every common day contributes the same number of start slots. */
  lemma {:induction false} DayCombosLength(trainerId: int, roomId: int, days: seq<int>, n: nat)
    ensures |DayCombos(trainerId, roomId, days, n)| == |days| * n
  {
    if days != [] {
      DayCombosLength(trainerId, roomId, days[..|days| - 1], n);
      SlotsLength(trainerId, roomId, days[|days| - 1], n);
      assert (|days| - 1) * n + n == |days| * n;
    }
  }

  // ---------------------------------------------------------------------------
  // The enumeration as the source runs it: nested loops pushing onto one array.
  // Each loop level is a method returning what it pushes; its caller appends it.

  /**
   * The enumeration (src/genetic-scheduler.js:27-63): for each trainer, each
   * room, each common day and each start slot, push the combination.
   */
  method EnumerateCombinations(training: Training, trainers: seq<Trainer>, rooms: seq<Room>)
    returns (possibleCombinations: seq<Combination>)
    requires Resolvable(training, trainers, rooms)
    ensures possibleCombinations == Combinations(training, trainers, rooms)
  {
    possibleCombinations := [];
    var ti := 0;
    while ti < |training.possibleTrainers|
      invariant 0 <= ti <= |training.possibleTrainers|
      invariant possibleCombinations == TrainerCombos(training, trainers, rooms, training.possibleTrainers[..ti])
    {
      var trainerId := training.possibleTrainers[ti];
      var trainer := FindTrainer(trainers, trainerId);
      ResolvableTrainer(training, trainers, rooms, trainerId);
      var pushed := CombinationsOfTrainer(training, trainers, rooms, trainerId, trainer);
      possibleCombinations := possibleCombinations + pushed;
      TrainerCombosStep(training, trainers, rooms, training.possibleTrainers, ti);
      ti := ti + 1;
    }
    assert training.possibleTrainers[..ti] == training.possibleTrainers;
  }

  /** What resolvability promises about one trainer of the training. */
  lemma ResolvableTrainer(t: Training, trainers: seq<Trainer>, rooms: seq<Room>, trainerId: int)
    requires Resolvable(t, trainers, rooms) && trainerId in t.possibleTrainers
    ensures |t.possibleRooms| > 0 ==> FindTrainer(trainers, trainerId).Some?
    ensures forall roomId :: roomId in t.possibleRooms && |TrainerDays(trainers, trainerId)| > 0 ==>
              FindRoom(rooms, roomId).Some?
  {
  }

  lemma TrainerCombosStep(t: Training, trainers: seq<Trainer>, rooms: seq<Room>, trainerIds: seq<int>, k: int)
    requires 0 <= k < |trainerIds|
    ensures TrainerCombos(t, trainers, rooms, trainerIds[..k + 1]) ==
            TrainerCombos(t, trainers, rooms, trainerIds[..k]) + RoomCombos(t, trainers, rooms, trainerIds[k], t.possibleRooms)
  {
    PrefixOfPrefix(trainerIds, k);
  }

  lemma RoomCombosStep(t: Training, trainers: seq<Trainer>, rooms: seq<Room>, trainerId: int, roomIds: seq<int>, k: int)
    requires 0 <= k < |roomIds|
    ensures RoomCombos(t, trainers, rooms, trainerId, roomIds[..k + 1]) ==
            RoomCombos(t, trainers, rooms, trainerId, roomIds[..k]) + PairCombos(t, trainers, rooms, trainerId, roomIds[k])
  {
    PrefixOfPrefix(roomIds, k);
  }

  /** The rooms loop for one trainer; the trainer is read once the training has a room. */
  method CombinationsOfTrainer(training: Training, trainers: seq<Trainer>, rooms: seq<Room>,
                               trainerId: int, trainer: Option<Trainer>)
    returns (combos: seq<Combination>)
    requires trainer == FindTrainer(trainers, trainerId)
    requires |training.possibleRooms| > 0 ==> trainer.Some?
    requires forall roomId :: roomId in training.possibleRooms && |TrainerDays(trainers, trainerId)| > 0 ==>
               FindRoom(rooms, roomId).Some?
    ensures combos == RoomCombos(training, trainers, rooms, trainerId, training.possibleRooms)
  {
    combos := [];
    var ri := 0;
    while ri < |training.possibleRooms|
      invariant 0 <= ri <= |training.possibleRooms|
      invariant combos == RoomCombos(training, trainers, rooms, trainerId, training.possibleRooms[..ri])
    {
      var roomId := training.possibleRooms[ri];
      var pushed := CombinationsOfPair(training, trainers, rooms, trainerId, trainer.value, roomId);
      combos := combos + pushed;
      RoomCombosStep(training, trainers, rooms, trainerId, training.possibleRooms, ri);
      ri := ri + 1;
    }
    assert training.possibleRooms[..ri] == training.possibleRooms;
  }

  /** The body of the rooms loop: the combinations of one trainer and one room. */
  method CombinationsOfPair(training: Training, trainers: seq<Trainer>, rooms: seq<Room>,
                            trainerId: int, trainer: Trainer, roomId: int)
    returns (combos: seq<Combination>)
    requires FindTrainer(trainers, trainerId) == Some(trainer)
    requires |trainer.availableDays| > 0 ==> FindRoom(rooms, roomId).Some?
    ensures combos == PairCombos(training, trainers, rooms, trainerId, roomId)
  {
    var room := FindRoom(rooms, roomId);
    var commonAvailableDays := CommonAvailableDays(trainer, room);
    combos := [];
    if |commonAvailableDays| != 0 {
      combos := CombinationsOfDays(trainerId, roomId, commonAvailableDays, training.duration);
    }
  }

  /** The filter on the trainer's days; the room is only read when the trainer has a day. */
  method CommonAvailableDays(trainer: Trainer, room: Option<Room>) returns (days: seq<int>)
    requires |trainer.availableDays| > 0 ==> room.Some?
    ensures days == CommonDays(trainer.availableDays, if room.Some? then room.value.availableDays else [])
  {
    days := [];
    var k := 0;
    while k < |trainer.availableDays|
      invariant 0 <= k <= |trainer.availableDays|
      invariant days == CommonDays(trainer.availableDays[..k], if room.Some? then room.value.availableDays else [])
    {
      var day := trainer.availableDays[k];
      if day in room.value.availableDays && day < DAYS {
        days := days + [day];
      }
      PrefixOfPrefix(trainer.availableDays, k);
      k := k + 1;
    }
    assert trainer.availableDays[..k] == trainer.availableDays;
  }

  /** The days loop: every start slot 0 .. TIME_SLOTS_PER_DAY - duration of every common day. */
  method CombinationsOfDays(trainerId: int, roomId: int, days: seq<int>, duration: int)
    returns (combos: seq<Combination>)
    ensures combos == DayCombos(trainerId, roomId, days, SlotCount(duration))
  {
    combos := [];
    var k := 0;
    while k < |days|
      invariant 0 <= k <= |days|
      invariant combos == DayCombos(trainerId, roomId, days[..k], SlotCount(duration))
    {
      var day := days[k];
      var slots := [];
      var maxStartSlot := TIME_SLOTS_PER_DAY - duration;
      if maxStartSlot >= 0 {
        var timeSlot := 0;
        while timeSlot <= maxStartSlot
          invariant 0 <= timeSlot <= maxStartSlot + 1
          invariant slots == Slots(trainerId, roomId, day, timeSlot)
        {
          slots := slots + [Combination(trainerId, roomId, day, timeSlot)];
          timeSlot := timeSlot + 1;
        }
      }
      combos := combos + slots;
      PrefixOfPrefix(days, k);
      k := k + 1;
    }
    assert days[..k] == days;
  }
}
