# genetic-planning timetable search, modelled in Dafny

genetic-planning builds a week timetable for training courses with a genetic
algorithm. A training needs some number of sessions. Each session gets:

- a trainer and a room, taken from the training's allowed lists;
- a day that the trainer and the room both have available, out of five;
- a start slot, out of eight one-hour slots per day.

This project models the part of the repository that decides what a timetable
is worth and how timetables are produced and recombined:

- **Records and constants** (`models.dfy`, module `Models`):
  - trainers, rooms, trainings and scheduled sessions;
  - `DAYS = 5` and `TIME_SLOTS_PER_DAY = 8`;
  - the `find` lookups by id.
- **The conflict detector** (`conflicts.dfy`, module `Conflicts`): `detectConflicts`, the pairwise scan that reports a `trainer` and/or a `room` record for each pair of sessions on the same day with overlapping slots.
- **The combination enumeration** (`combinations.dfy`, module `Enumeration`):
  - every (trainer, room, common day, start slot) a training may use;
  - it is written once, and the feasibility filter and the seeder both use it.
- **The scheduler object** (`scheduler.dfy`, module `Scheduler`): class `GeneticScheduler` and its feasibility filter, which replaces `trainings` by the trainings that have enough combinations.
- **The operators the repository hands to the genetic engine:**
  - `seed` (`seeding.dfy`);
  - `fitness` (`fitness.dfy`);
  - `crossover` (`crossover.dfy`);
  - `mutate` (`mutation.dfy`, and `aliasing.dfy` for the object-sharing behaviour);
  - the `generation` stop callback and the required-option check of `findOptimalSchedule` (`driver.dfy`).

**How the model is built:**

- **Randomness.** Every `Math.random()` draw is an explicit argument:
  - the seeder takes a combination index for each occurrence (`picks`);
  - crossover takes the set of differing session ids whose coin came up "mother first" (`heads`);
  - mutation takes a `MutationDraw`: the kind of edit as an enum, the session's position, and the drawn value.
- **Session ids.** The id `"<trainingId>-<k>"` is the pair `SessionId(trainingId, k)`. The text determines the pair and the pair determines the text, so equality and object-key order are the same for both.
- **Fitness values.** Fitness is computed in exact rationals (`real`). The JavaScript division of integers is not rounded here.
- **Where the source throws.** A `find` that returns `undefined` and is then read is a `TypeError` in the source. Each such case is a precondition:
  - `Known`: every session's training exists;
  - `Resolvable`: the trainers and rooms that the enumeration reads exist.
- **Imperative code stays imperative.** Each method is proved equal to a specification function, and the properties are proved about that function:
  - the loops of `detectConflicts`, of the filter, of `seed`, of the fitness sum and of `crossover`;
  - the filter that reassigns `this.trainings`.

## Model

| member | source | states |
|---|---|---|
| Models.NewTraining | src/models.js:25-33 | an omitted duration defaults to 1 slot; every other field is stored as given |
| Models.FindTrainer | src/genetic-scheduler.js:31 | a result is a trainer of the list with that id; there is none exactly when no trainer has the id; `FindTrainerIsFirst` makes it the first such trainer |
| Models.FindRoom | src/genetic-scheduler.js:35 | a result is a room of the list with that id; there is none exactly when no room has the id; `FindRoomIsFirst` makes it the first such room |
| Models.FindTraining | src/utils.js:15 | a result is a training of the list with that id; there is none exactly when no training has the id |
| Models.FindTrainingIsFirst | src/utils.js:15 | the lookup returns the first training that carries the id |
| Models.FindTrainerIsFirst | src/genetic-scheduler.js:31 | the trainer lookup returns the first trainer that carries the id |
| Models.FindRoomIsFirst | src/genetic-scheduler.js:35 | the room lookup returns the first room that carries the id |
| Conflicts.PairDetections | src/utils.js:28-49 | the positions one pair (i, j) contributes are exactly its kinds whose resource is shared, when the two sessions are on the same day with overlapping slots |
| Conflicts.RowDetections | src/utils.js:21-50 | the positions of row i up to j are exactly the genuine clashes (i, j') with j' < j |
| Conflicts.DetectionsUpTo | src/utils.js:13-51 | the positions found by the rows below i are exactly the genuine clashes whose first index is below i |
| Conflicts.CheckPair | src/utils.js:28-49 | one pair yields a `trainer` record when the trainer ids match and then a `room` record when the room ids match, both only for the same day and overlapping slots |
| Conflicts.ScanRow | src/utils.js:21-51 | the inner loop appends the records of the pairs (i, i+1) … (i, n−1), in that order |
| Conflicts.DetectConflicts | src/utils.js:10-55 | the nested loops return exactly the records of `AllConflicts`, the pair-by-pair specification |
| Conflicts.OverlapIffSharedSlot | src/utils.js:32-38 | for positive durations, the overlap test holds exactly when some slot lies in both half-open intervals [start, start+duration) |
| Conflicts.OverlapSymmetric | src/utils.js:35-38 | the overlap test does not depend on which session comes first |
| Conflicts.BackToBackDoNotOverlap | src/utils.js:32-38 | a session ending exactly where the other starts does not overlap it |
| Conflicts.RecordsAreClashes | src/utils.js:40-48 | every record names a pair i<j on the same day with overlapping slots, and the shared trainer (for `trainer`) or room (for `room`), with `sessions` = [s[i], s[j]] |
| Conflicts.FindsEveryClash | src/utils.js:13-49 | every pair i<j on the same day with overlapping slots yields a `trainer` record when it shares the trainer and a `room` record when it shares the room |
| Conflicts.ConflictFreeIff | src/utils.js:10-55 | no record is reported exactly when no two sessions share a day, an overlapping slot and a trainer or room |
| Conflicts.ShortScheduleHasNoConflicts | src/utils.js:13-21 | an empty or one-session schedule yields no record |
| Conflicts.DifferentDaysNeverConflict | src/utils.js:28 | two sessions on different days yield no record, whatever their trainer, room or slot |
| Conflicts.ConcurrentPairRecords | src/utils.js:40-48 | two concurrent sessions yield 0, 1 or 2 records: `trainer` if the trainers match, then `room` if the rooms match |
| Conflicts.DetectionOrder | src/utils.js:13-47 | records come in ascending i, then ascending j, with a pair's `trainer` record before its `room` record |
| Conflicts.ConflictCountBound | src/utils.js:13-48 | at most n·(n−1) records for n sessions |
| Enumeration.CommonDays | src/genetic-scheduler.js:38-40 | the common days are the trainer's days (in the trainer's order) that the room also has and that are below 5 |
| Enumeration.CommonAvailableDays | src/genetic-scheduler.js:38-40 | the filter loop computes `CommonDays`; a missing room is read only when the trainer has a day |
| Enumeration.CombinationsOfDays | src/genetic-scheduler.js:48-61 | for each common day, the start slots 0 … 8−duration in increasing order; no slot when the training is longer than the day |
| Enumeration.CombinationsOfPair | src/genetic-scheduler.js:34-62 | the combinations of one trainer and one room |
| Enumeration.CombinationsOfTrainer | src/genetic-scheduler.js:30-63 | the combinations of one trainer with each of the training's rooms, in order |
| Enumeration.EnumerateCombinations | src/genetic-scheduler.js:27-63 | the nested loops produce exactly `Combinations`, the single definition shared by the filter and the seeder |
| Enumeration.CombinationsAreAdmissible | src/genetic-scheduler.js:30-61 | a placement is enumerated exactly when its trainer and room are allowed, its day is available to both and below 5, and 0 ≤ slot ≤ 8 − duration |
| Enumeration.TooLongHasNoCombinations | src/genetic-scheduler.js:50-51 | a training longer than 8 slots has no combination |
| Enumeration.NoCommonDayNoCombination | src/genetic-scheduler.js:42-45 | a trainer and room without a common day below 5 contribute nothing |
| Enumeration.DayCombosLength | src/genetic-scheduler.js:48-60 | each common day contributes the same number of start slots |
| Scheduler.Feasible | src/genetic-scheduler.js:65-72 | the kept trainings are exactly those with more than 0 combinations and at least `requiredOccurrences` of them, and there are no more of them than before |
| Scheduler.FeasibleIsSeedable | src/genetic-scheduler.js:188-193 | after the filter, every kept training has at least one combination, so the seeder's draw always names one |
| Scheduler.FeasibleAppend | src/genetic-scheduler.js:25-72 | the filter decides training by training, so it keeps relative order |
| Scheduler.FeasibleIdempotent | src/genetic-scheduler.js:21-119 | filtering the kept trainings again removes nothing |
| Scheduler.FeasibleResolvable | src/genetic-scheduler.js:21-119 | the kept trainings can still be enumerated without a failing lookup |
| Scheduler.GeneticScheduler.constructor | src/genetic-scheduler.js:11-19 | stores the trainers and rooms, and `trainings` becomes the filtered list, on which the seeder can always draw |
| Scheduler.GeneticScheduler.UserData | src/genetic-scheduler.js:132-140 | the `userData` the callbacks read: the scheduler's trainers, rooms and filtered trainings; `ScheduledTraining`, `DAYS`, `TIME_SLOTS_PER_DAY` and `utils` are module-level declarations the model refers to directly |
| Scheduler.GeneticScheduler.DisqualifyTrainingsWithNoValidCombinations | src/genetic-scheduler.js:21-119 | `this.trainings` becomes the kept sublist of the old one; trainers and rooms are unchanged |
| Seeding.ScheduleOccurrences | src/genetic-scheduler.js:190-211 | the `while` loop creates occurrence k from the k-th drawn combination, k = 0 … required−1 |
| Seeding.SeedTraining | src/genetic-scheduler.js:148-211 | one training adds its occurrences after those of the trainings before it |
| Seeding.Seed | src/genetic-scheduler.js:143-214 | `seed` returns `Seeded`: the occurrences of each training, training by training |
| Seeding.SeedableIff | src/genetic-scheduler.js:188-193 | draws `Math.floor(Math.random() * length)` exist exactly when every training with occurrences to place has a combination |
| Seeding.OccurrencesAt | src/genetic-scheduler.js:193-207 | occurrence k has the training's id, the k-th drawn combination and session id "<id>-<k>" |
| Seeding.SeedLength | src/genetic-scheduler.js:190-211 | the seed's length is the sum of the trainings' occurrence counts (`requiredOccurrences`, or 0 when that is not positive) |
| Seeding.SeedSessionOrigin | src/genetic-scheduler.js:148-211 | each seeded session is occurrence k < required of some training, with session id "<id>-<k>" and an admissible combination of that training |
| Seeding.SeedIsKnown | src/genetic-scheduler.js:200-207 | every seeded session's training is found, so the detector and the mutation can read it |
| Seeding.SeedIdsUnique | src/genetic-scheduler.js:197 | with distinct training ids, the seeded session ids are pairwise distinct |
| Fitness.ScheduledCount | src/genetic-scheduler.js:253 | the count is at most the length, and it is 0 exactly when no session has the id |
| Fitness.ValueSet | src/genetic-scheduler.js:260-261 | the set holds exactly the listed ids and has at most as many elements as the list |
| Fitness.EvaluateFitness | src/genetic-scheduler.js:217-272 | the callback returns `Fitness`: 0 for a value that is not an array, otherwise 10·len − 1000·conflicts + 20·Σ(count/required) + 5·(trainers used/trainers + rooms used/rooms)/2 |
| Fitness.SatisfactionNonNegative | src/genetic-scheduler.js:247-256 | with positive requirements the satisfaction sum is not negative |
| Fitness.UtilizationNonNegative | src/genetic-scheduler.js:259-266 | the utilisation score is not negative |
| Fitness.FitnessLowerBound | src/genetic-scheduler.js:236-271 | fitness ≥ 10·len − 1000·conflicts; a conflict-free schedule scores at least 10·len |
| Fitness.NegativeFitnessExample | src/genetic-scheduler.js:236-271 | there is no floor at zero: the same session placed twice scores −1935 |
| Fitness.SeedUpToCount | src/genetic-scheduler.js:190-211 | with distinct training ids, the sessions seeded for the first n trainings include each of those trainings exactly its occurrence count of times, and none of a later training |
| Fitness.SeededCount | src/genetic-scheduler.js:190-211 | with distinct training ids, the seed schedules every training exactly its occurrence count of times: `requiredOccurrences` sessions per training |
| Fitness.SeededSatisfaction | src/genetic-scheduler.js:247-257 | a seed with distinct training ids and positive requirements meets every requirement exactly: the satisfaction sum is the number of trainings |
| Crossover.Dedup | src/genetic-scheduler.js:294-297 | the result holds each element of the input once, and nothing else |
| Crossover.Index | src/genetic-scheduler.js:283-290 | the keys are exactly the session ids present, each mapped to a session of the schedule that carries it |
| Crossover.IndexSessions | src/genetic-scheduler.js:283-290 | the `forEach` fills an object whose keys are the ids in first-insertion order and whose entries are `Index` |
| Crossover.Cross | src/genetic-scheduler.js:275-333 | the callback returns `Crossed`, the id-by-id distribution |
| Crossover.DistributeAt | src/genetic-scheduler.js:304-329 | position k holds the k-th shared id: the mother's session in both children when the parents agree, otherwise the mother's in one child and the father's in the other, as the coin says |
| Crossover.CrossoverAt | src/genetic-scheduler.js:304-329 | both children carry the same id at each position; an agreeing session is copied to both, a differing one goes as the mother's to one child and the father's to the other |
| Crossover.ChildrenSameLength | src/genetic-scheduler.js:300-332 | the two children have equal length |
| Crossover.ChildIdsInBothParents | src/genetic-scheduler.js:304-329 | a child has a session id exactly when both parents have it; ids in one parent only are dropped |
| Crossover.CrossoverKeepsKnown | src/genetic-scheduler.js:304-329 | every child session comes from a parent, so children of schedules whose trainings are all found stay so |
| Crossover.ChildrenFollowMotherOrder | src/genetic-scheduler.js:294-329 | the children's ids are the mother's ids, in their first-occurrence order, that the father also has |
| Crossover.SelfCrossover | src/genetic-scheduler.js:308-317 | crossing a schedule with unique session ids with itself returns it twice |
| Mutation.Mutate | src/genetic-scheduler.js:336-399 | the callback returns `Mutated`: the drawn session with one field replaced |
| Mutation.MutationShape | src/genetic-scheduler.js:341-398 | length, training ids and session ids never change; every other position is untouched; an empty schedule comes back as it is |
| Mutation.MutationChangesOneField | src/genetic-scheduler.js:346-396 | only the field the kind names (slot, room, trainer or day) can change |
| Mutation.MutationRanges | src/genetic-scheduler.js:353-395 | the new slot is in [0, 8 − duration], the new room one of the training's rooms, the new trainer one of its trainers, the new day in [0, 5); without such a value the session is unchanged |
| Mutation.MutationKeepsKnown | src/genetic-scheduler.js:341-398 | a schedule whose trainings are all found stays so |
| Mutation.RetimeKeepsPlacement | src/genetic-scheduler.js:353-357 | a new start slot keeps an admissible session admissible |
| Mutation.RedayIgnoresAvailability | src/genetic-scheduler.js:392-394 | the new day ignores availability: a Monday-only session moved to Thursday is no longer admissible |
| AliasedMutation.MutateInPlace | src/genetic-scheduler.js:341-398 | as written: the result holds the parent's own objects, and the drawn object, which the parent also holds, is edited in place |
| AliasedMutation.ParentSeesMutation | src/genetic-scheduler.js:341-356 | a parent session at slot 0 reads slot 3 after its child was mutated to slot 3 |
| AliasedMutation.MutateCopyOnWrite | src/genetic-scheduler.js:340-341 | corrected: the drawn session is copied before the edit, and the child's values are `Mutated` of the parent's values |
| AliasedMutation.ParentUnchangedByCopy | src/genetic-scheduler.js:340-356 | with the copy, the parent stays at slot 0 while the child moves to slot 3 |
| Driver.Generation | src/genetic-scheduler.js:402-411 | keep evolving exactly when two sessions of the best schedule share a day, an overlapping slot and a trainer or room |
| Driver.CheckOptions | src/genetic-scheduler.js:424-428 | proceeds exactly when iterations, size, crossover and mutation are all keys; otherwise the outcome is a throw whose message is "Missing required options: " followed by the missing keys joined by ", "; since `findOptimalSchedule` is `async` (:420), that throw rejects the returned promise with `Error(message)` |
| Driver.OptionsAcceptedIff | src/genetic-scheduler.js:424-428 | the search proceeds exactly when iterations, size, crossover and mutation are all present |
| Driver.MissingKeysExact | src/genetic-scheduler.js:424-428 | the error names exactly the missing needed keys, in the order iterations, size, crossover, mutation |
| Driver.MissingOptionsExample | src/genetic-scheduler.js:424-428 | options with only iterations and size give "Missing required options: crossover, mutation" |

## Left out

- **Not modelled:** the genetic-js engine: its evolve loop, tournament selection, the `notification` callback and the Promise wrapper (src/genetic-scheduler.js:5, 125-129, 450-475). That library is not part of this model; only the callbacks this repository defines are modelled.
- **Randomness:**
  - `Math.random` itself is not modelled. Its draws are arguments, and the preconditions say which values `Math.floor(Math.random() * n)` can take.
  - The 0.33/0.66/0.9 thresholds that pick the mutation kind become the enum `MutationKind`.
- **Console output:** `console.log`, `console.error` and `console.warn` are left out (I/O). This covers the diagnostic messages built in the filter (src/genetic-scheduler.js:68-115).
- **The `verbose` parameter of the filter:** `disqualifyTrainingsWithNoValidCombinations(verbose = false)` (src/genetic-scheduler.js:21) is modelled as the call the constructor makes (:16), which passes no argument, so `verbose` is false. `DisqualifyTrainingsWithNoValidCombinations` has no such parameter. The `true` branches (:68-70, :74-105, :114-116) do more than print: for a training with no combinations it looks up every possible trainer and room by id and reads `.name` (:77-90). An unknown id there throws a `TypeError`, and `Resolvable` does not rule that out; for example `possibleRooms = []` with `possibleTrainers = ["ghost"]` is `Resolvable`, has no combinations, and would throw at :80.
- **The rest of `findOptimalSchedule`:** the `verbose` and `skip` defaults and the `iterations || 1000` fallback (src/genetic-scheduler.js:430-439), and the `this.genetic.userData.verbose = verbose` assignment (:441). They only feed the engine and the logging.
- **Custom generation condition:** when `options.generationCondition` is given, it replaces the `generation` callback (src/genetic-scheduler.js:443-448). The caller's function is code outside this repository, so `Driver.Generation` models only the default callback.
- **Other files:** src/parameter-optimizer.js, src/schedule-formatter.js, src/index.js and data/sample-data.js are not part of this model. They hold timing, presentation, the command line and fixtures.
- **Throws become preconditions.** Where the source would throw a `TypeError` because a lookup found nothing, the model has a precondition instead of the error path:
  - the detector and the fitness require `Known`: every session's training is found;
  - a mutation requires, through `ValidDraw`, that the drawn session's training be found, unless the kind is re-day, which never reads the training;
  - the enumeration requires `Resolvable`;
  - the seeder accepts no draw for a training that has required occurrences but no combination;
  - `Generation` requires a non-empty population.
- **Floating-point rounding in the fitness:** JavaScript numbers are IEEE 754 doubles, so the divisions in the satisfaction and utilization terms and the sums that add them up are rounded. `Fitness.Fitness` and `Fitness.EvaluateFitness` compute in exact `real` arithmetic, so they do not capture that rounding. Where the source's rounded sum would differ from the exact value in its last bits, the model gives the exact value.
- **Non-numeric fitness:** the outcomes that would be `NaN` or `Infinity` in JavaScript are excluded rather than modelled. `Fitness.Fitness` requires `Scorable`: every training requires a non-zero number of occurrences, and there is at least one trainer and one room.
- **Options object:** it is modelled as the set of its keys. The `in` check reads only presence, so the values are not modelled.
- **Session ids as text:** the string form of `"<id>-<k>"` is not built. Its pair `SessionId(id, k)` stands for it.

## Findings

| source | as written | input that shows it | evidently intended | confidence | as-written member | corrected member |
|---|---|---|---|---|---|---|
| src/genetic-scheduler.js:340-398 | `[...schedule]` copies only the array, and the `training.timeSlot` / `.roomId` / `.trainerId` / `.day` assignment writes to the session object that the parent schedule also holds, so mutating a child changes its parent | a parent with one session at slot 0, mutated by a retime draw to slot 3: the parent's session then reads slot 3 | leave the original untouched, as the comment on line 340 says; the model uses the value semantics of `Mutation.Mutated` | high (not executed) | AliasedMutation.MutateInPlace, AliasedMutation.ParentSeesMutation | AliasedMutation.MutateCopyOnWrite, AliasedMutation.ParentUnchangedByCopy, Mutation.Mutate |
