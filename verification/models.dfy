/**
 * The reference data and the scheduled sessions of the timetable search:
 * trainers, rooms, training requirements, scheduled trainings and the two
 * planning constants (src/models.js).
 */
module Models {

  datatype Option<+T> = None | Some(value: T)

  /** Number of days in the planning week (Monday to Friday). */
  const DAYS: int := 5
  /** Number of one-hour time slots in a day. */
  const TIME_SLOTS_PER_DAY: int := 8

  /** A trainer and the day indices on which they can teach. */
  datatype Trainer = Trainer(id: int, name: string, availableDays: seq<int>)

  /** A room, its capacity and the day indices on which it can be used. */
  datatype Room = Room(id: int, name: string, capacity: int, availableDays: seq<int>)

  /** A training requirement: how often it must run, who may teach it, where, and how many slots it lasts. */
  datatype Training = Training(
    id: int,
    title: string,
    requiredOccurrences: int,
    possibleTrainers: seq<int>,
    possibleRooms: seq<int>,
    duration: int)

  /**
   * The identity of one occurrence of a training, written "<trainingId>-<occurrence>"
   * by the seeder. The text is determined by, and determines, the two numbers (the
   * occurrence index has no '-'), so the pair stands for the string.
   */
  datatype SessionId = SessionId(trainingId: int, occurrence: int)

  /** One scheduled occurrence: who teaches which training where, on which day, from which slot. */
  datatype ScheduledTraining = ScheduledTraining(
    trainingId: int,
    trainerId: int,
    roomId: int,
    day: int,
    timeSlot: int,
    sessionId: SessionId)

  /** The reference data the evolutionary operators read (the `userData` of the search). */
  datatype UserData = UserData(trainers: seq<Trainer>, rooms: seq<Room>, trainings: seq<Training>)

  /**
   * The Training constructor; an omitted duration (`None`, JavaScript's undefined)
   * defaults to one slot.
   */
  function NewTraining(id: int, title: string, requiredOccurrences: int,
                       possibleTrainers: seq<int>, possibleRooms: seq<int>,
                       duration: Option<int>): (t: Training)
    ensures duration.None? ==> t.duration == 1
    ensures duration.Some? ==> t.duration == duration.value
    ensures t.id == id && t.title == title && t.requiredOccurrences == requiredOccurrences
    ensures t.possibleTrainers == possibleTrainers && t.possibleRooms == possibleRooms
  {
    Training(id, title, requiredOccurrences, possibleTrainers, possibleRooms,
             if duration.Some? then duration.value else 1)
  }

  /** `trainers.find(t => t.id === id)`: the first trainer with that id, if any. */
  function FindTrainer(trainers: seq<Trainer>, id: int): (r: Option<Trainer>)
    ensures r.Some? ==> r.value in trainers && r.value.id == id
    ensures r.None? <==> forall t :: t in trainers ==> t.id != id
  {
    if |trainers| == 0 then None
    else if trainers[0].id == id then Some(trainers[0])
    else FindTrainer(trainers[1..], id)
  }

  /** `rooms.find(r => r.id === id)`: the first room with that id, if any. */
  function FindRoom(rooms: seq<Room>, id: int): (r: Option<Room>)
    ensures r.Some? ==> r.value in rooms && r.value.id == id
    ensures r.None? <==> forall x :: x in rooms ==> x.id != id
  {
    if |rooms| == 0 then None
    else if rooms[0].id == id then Some(rooms[0])
    else FindRoom(rooms[1..], id)
  }

  /** `trainings.find(t => t.id === id)`: the first training with that id, if any. */
  function FindTraining(trainings: seq<Training>, id: int): (r: Option<Training>)
    ensures r.Some? ==> r.value in trainings && r.value.id == id
    ensures r.None? <==> forall t :: t in trainings ==> t.id != id
  {
    if |trainings| == 0 then None
    else if trainings[0].id == id then Some(trainings[0])
    else FindTraining(trainings[1..], id)
  }

  /** The lookup returns the FIRST training carrying the id. */
  lemma {:induction false} FindTrainingIsFirst(trainings: seq<Training>, id: int, k: nat)
    requires k < |trainings| && trainings[k].id == id
    requires forall m :: 0 <= m < k ==> trainings[m].id != id
    ensures FindTraining(trainings, id) == Some(trainings[k])
  {
    if k > 0 {
      FindTrainingIsFirst(trainings[1..], id, k - 1);
    }
  }

  /** The lookup returns the FIRST trainer carrying the id. */
  lemma {:induction false} FindTrainerIsFirst(trainers: seq<Trainer>, id: int, k: nat)
    requires k < |trainers| && trainers[k].id == id
    requires forall m :: 0 <= m < k ==> trainers[m].id != id
    ensures FindTrainer(trainers, id) == Some(trainers[k])
  {
    if k > 0 {
      FindTrainerIsFirst(trainers[1..], id, k - 1);
    }
  }

  /** The lookup returns the FIRST room carrying the id. */
  lemma {:induction false} FindRoomIsFirst(rooms: seq<Room>, id: int, k: nat)
    requires k < |rooms| && rooms[k].id == id
    requires forall m :: 0 <= m < k ==> rooms[m].id != id
    ensures FindRoom(rooms, id) == Some(rooms[k])
  {
    if k > 0 {
      FindRoomIsFirst(rooms[1..], id, k - 1);
    }
  }

  /**
   * Every session of the schedule names a training that the lookup finds; where
   * one does not, the source reads a field of `undefined` and throws.
   */
  predicate Known(schedule: seq<ScheduledTraining>, trainings: seq<Training>)
  {
    forall i :: 0 <= i < |schedule| ==> FindTraining(trainings, schedule[i].trainingId).Some?
  }

  /**
   * The duration of the training a session belongs to. Only read for known
   * sessions; the 0 for an unknown one is never observed by the operations.
   */
  function DurationOf(trainings: seq<Training>, s: ScheduledTraining): int
  {
    match FindTraining(trainings, s.trainingId)
    case Some(t) => t.duration
    case None => 0
  }

  // ---------------------------------------------------------------------------
  // Prefixes of sequences

  /** A prefix is the shorter prefix followed by its last element. */
  lemma PrefixSnoc<T>(xs: seq<T>, n: int)
    requires 0 < n <= |xs|
    ensures xs[..n] == xs[..n - 1] + [xs[n - 1]]
  {
  }

  /** The prefix of the one-longer prefix is the prefix. */
  lemma PrefixOfPrefix<T>(xs: seq<T>, n: int)
    requires 0 <= n < |xs|
    ensures xs[..n + 1][..n] == xs[..n]
  {
  }

  /** The full-length prefix is the sequence. */
  lemma PrefixAll<T>(xs: seq<T>)
    ensures xs[..|xs|] == xs
  {
  }
}
