/**
 * The fitness callback (src/genetic-scheduler.js:217-272):
 *
 *   10·len − 1000·conflicts + 20·Σ(count/required) + 5·(trainers used/|trainers| + rooms used/|rooms|)/2
 *
 * with no floor at zero. The ratios are divisions of integers and are computed
 * here in exact rationals (`real`).
 */
module Fitness {
  import opened Models
  import opened Conflicts
  import opened Enumeration
  import opened Seeding

  /** `schedule.filter(s => s.trainingId === id).length`. */
  function ScheduledCount(s: seq<ScheduledTraining>, id: int): (n: nat)
    ensures n <= |s|
    ensures n == 0 <==> forall k :: 0 <= k < |s| ==> s[k].trainingId != id
  {
    if s == [] then 0
    else ScheduledCount(s[..|s| - 1], id) + (if s[|s| - 1].trainingId == id then 1 else 0)
  }

  /** `new Set(xs)`: the distinct values of xs. */
  function ValueSet(xs: seq<int>): (r: set<int>)
    ensures |r| <= |xs|
    ensures forall x :: x in r <==> x in xs
  {
    if xs == [] then {}
    else
      var init := xs[..|xs| - 1];
      assert xs == init + [xs[|xs| - 1]];
      ValueSet(init) + {xs[|xs| - 1]}
  }

  /** `new Set(schedule.map(s => s.trainerId))`. */
  function TrainerIds(s: seq<ScheduledTraining>): set<int>
  {
    ValueSet(seq(|s|, k requires 0 <= k < |s| => s[k].trainerId))
  }

  /** `new Set(schedule.map(s => s.roomId))`. */
  function RoomIds(s: seq<ScheduledTraining>): set<int>
  {
    ValueSet(seq(|s|, k requires 0 <= k < |s| => s[k].roomId))
  }

  /** No training requires zero occurrences (the ratio would be 0/0 or x/0). */
  predicate RatiosDefined(trainings: seq<Training>)
  {
    forall t :: t in trainings ==> t.requiredOccurrences != 0
  }

  /** `occurrencesSatisfaction`: the sum of count/required over the trainings, in order. */
  function Satisfaction(s: seq<ScheduledTraining>, trainings: seq<Training>): real
    requires RatiosDefined(trainings)
  {
    if trainings == [] then 0.0
    else
      var t := trainings[|trainings| - 1];
      assert t in trainings;
      Satisfaction(s, trainings[..|trainings| - 1]) + ScheduledCount(s, t.id) as real / t.requiredOccurrences as real
  }

  /** `utilizationScore`: the mean of the shares of trainers and of rooms the schedule uses. */
  function Utilization(ud: UserData, s: seq<ScheduledTraining>): real
    requires |ud.trainers| > 0 && |ud.rooms| > 0
  {
    (|TrainerIds(s)| as real / |ud.trainers| as real + |RoomIds(s)| as real / |ud.rooms| as real) / 2.0
  }

  /**
   * What the callback needs to produce a number: every session's training is
   * found (the detector reads its duration), no ratio divides by zero, and
   * there is at least one trainer and one room.
   */
  predicate Scorable(ud: UserData, s: seq<ScheduledTraining>)
  {
    Known(s, ud.trainings) && RatiosDefined(ud.trainings) && |ud.trainers| > 0 && |ud.rooms| > 0
  }

  /** The fitness of an array. */
  function Score(ud: UserData, s: seq<ScheduledTraining>): real
    requires Scorable(ud, s)
  {
    10.0 * |s| as real
    - 1000.0 * |AllConflicts(s, ud.trainings)| as real
    + 20.0 * Satisfaction(s, ud.trainings)
    + 5.0 * Utilization(ud, s)
  }

  /** The fitness of the callback's argument; `None` is a value that is not an array. */
  function Fitness(ud: UserData, input: Option<seq<ScheduledTraining>>): real
    requires input.Some? ==> Scorable(ud, input.value)
  {
    match input
    case None => 0.0
    case Some(s) => Score(ud, s)
  }

  /** The callback as the source runs it: the detector, then the satisfaction loop, then the sets. */
  method EvaluateFitness(ud: UserData, input: Option<seq<ScheduledTraining>>) returns (fitness: real)
    requires input.Some? ==> Scorable(ud, input.value)
    ensures fitness == Fitness(ud, input)
  {
    if input.None? {
      return 0.0;
    }
    var schedule := input.value;
    fitness := 0.0;
    var conflicts := DetectConflicts(schedule, ud.trainings);
    fitness := fitness + (|schedule| * 10) as real;
    fitness := fitness - (|conflicts| * 1000) as real;
    var occurrencesSatisfaction := 0.0;
    var k := 0;
    while k < |ud.trainings|
      invariant 0 <= k <= |ud.trainings|
      invariant occurrencesSatisfaction == Satisfaction(schedule, ud.trainings[..k])
    {
      var training := ud.trainings[k];
      var scheduledCount := ScheduledCount(schedule, training.id);
      var satisfactionRatio := scheduledCount as real / training.requiredOccurrences as real;
      occurrencesSatisfaction := occurrencesSatisfaction + satisfactionRatio;
      PrefixOfPrefix(ud.trainings, k);
      k := k + 1;
    }
    PrefixAll(ud.trainings);
    fitness := fitness + occurrencesSatisfaction * 20.0;
    var trainerUtilization := |TrainerIds(schedule)| as real / |ud.trainers| as real;
    var roomUtilization := |RoomIds(schedule)| as real / |ud.rooms| as real;
    var utilizationScore := (trainerUtilization + roomUtilization) / 2.0;
    fitness := fitness + utilizationScore * 5.0;
  }

  // ---------------------------------------------------------------------------
  // Bounds

  /** With positive requirements every ratio is non-negative. */
  lemma {:induction false} SatisfactionNonNegative(s: seq<ScheduledTraining>, trainings: seq<Training>)
    requires forall t :: t in trainings ==> t.requiredOccurrences > 0
    ensures Satisfaction(s, trainings) >= 0.0
  {
    if trainings != [] {
      var init := trainings[..|trainings| - 1];
      assert forall t :: t in init ==> t in trainings;
      SatisfactionNonNegative(s, init);
      assert trainings[|trainings| - 1] in trainings;
    }
  }

  /**
   * Nothing is clamped: every conflict costs 1000 and nothing else lowers the
   * score, so a conflict-free schedule scores at least 10 per session.
   */
  lemma FitnessLowerBound(ud: UserData, s: seq<ScheduledTraining>)
    requires Scorable(ud, s)
    requires forall t :: t in ud.trainings ==> t.requiredOccurrences > 0
    ensures Fitness(ud, Some(s)) >= 10.0 * |s| as real - 1000.0 * |AllConflicts(s, ud.trainings)| as real
    ensures AllConflicts(s, ud.trainings) == [] ==> Fitness(ud, Some(s)) >= 10.0 * |s| as real
  {
    SatisfactionNonNegative(s, ud.trainings);
    UtilizationNonNegative(ud, s);
    var c := |AllConflicts(s, ud.trainings)| as real;
    var sat := Satisfaction(s, ud.trainings);
    var u := Utilization(ud, s);
    assert Fitness(ud, Some(s)) == 10.0 * |s| as real - 1000.0 * c + 20.0 * sat + 5.0 * u;
  }

  /** Both shares are quotients of sizes. */
  lemma UtilizationNonNegative(ud: UserData, s: seq<ScheduledTraining>)
    requires |ud.trainers| > 0 && |ud.rooms| > 0
    ensures Utilization(ud, s) >= 0.0
  {
    var a := |TrainerIds(s)| as real / |ud.trainers| as real;
    var b := |RoomIds(s)| as real / |ud.rooms| as real;
    assert a >= 0.0 && b >= 0.0;
  }

  /**
   * There is no floor at zero: one training, one trainer, one room and the same
   * session placed twice give two conflicts (trainer and room) and a fitness of
   * 20 − 2000 + 40 + 5 = −1935.
   */
  lemma NegativeFitnessExample()
    ensures var session := ScheduledTraining(1, 1, 1, 0, 0, SessionId(1, 0));
            var ud := UserData([Trainer(1, "A", [0])], [Room(1, "R", 10, [0])], [Training(1, "T", 1, [1], [1], 1)]);
            Scorable(ud, [session, session]) && Fitness(ud, Some([session, session])) == -1935.0
  {
    var session := ScheduledTraining(1, 1, 1, 0, 0, SessionId(1, 0));
    var training := Training(1, "T", 1, [1], [1], 1);
    var ud := UserData([Trainer(1, "A", [0])], [Room(1, "R", 10, [0])], [training]);
    var s := [session, session];
    assert FindTraining(ud.trainings, 1) == Some(training);
    ConcurrentPairRecords(session, session, ud.trainings);
    assert |AllConflicts(s, ud.trainings)| == 2;
    assert ScheduledCount(s, 1) == 2 by {
      assert s[..1][..0] == [];
    }
    assert [training][..0] == [];
    assert Satisfaction(s, ud.trainings) == 2.0;
    assert seq(|s|, k requires 0 <= k < |s| => s[k].trainerId) == [1, 1];
    assert seq(|s|, k requires 0 <= k < |s| => s[k].roomId) == [1, 1];
    assert TrainerIds(s) == {1} && RoomIds(s) == {1};
    assert Utilization(ud, s) == 1.0;
  }

  // ---------------------------------------------------------------------------
  // Coverage of a seeded schedule

  /** Counting distributes over concatenation. */
  lemma {:induction false} ScheduledCountAppend(a: seq<ScheduledTraining>, b: seq<ScheduledTraining>, id: int)
    ensures ScheduledCount(a + b, id) == ScheduledCount(a, id) + ScheduledCount(b, id)
  {
    if b == [] {
      assert a + b == a;
    } else {
      var init := b[..|b| - 1];
      assert (a + b)[..|a + b| - 1] == a + init;
      assert (a + b)[|a + b| - 1] == b[|b| - 1];
      ScheduledCountAppend(a, init, id);
    }
  }

  /** The occurrences of t all carry t's id. */
  lemma {:induction false} OccurrencesCount(t: Training, combos: seq<Combination>, ps: seq<int>, id: int)
    requires PicksFit(combos, ps)
    ensures ScheduledCount(Occurrences(t, combos, ps), id) == if t.id == id then |ps| else 0
  {
    if ps != [] {
      var init := ps[..|ps| - 1];
      assert PicksFit(combos, init);
      OccurrencesCount(t, combos, init, id);
      var r := Occurrences(t, combos, ps);
      assert r[..|r| - 1] == Occurrences(t, combos, init);
    }
  }

  /** With distinct ids, training m appears in the first n trainings' schedule exactly as often as it requires. */
  lemma {:induction false} SeedUpToCount(trainings: seq<Training>, cs: seq<seq<Combination>>,
                                         picks: seq<seq<int>>, n: int, m: int)
    requires Drawable(trainings, cs, picks) && DistinctIds(trainings)
    requires 0 <= n <= |trainings| && 0 <= m < |trainings|
    ensures ScheduledCount(SeedUpTo(trainings, cs, picks, n), trainings[m].id) ==
            if m < n then OccurrenceCount(trainings[m]) else 0
  {
    if n > 0 {
      SeedUpToCount(trainings, cs, picks, n - 1, m);
      ScheduledCountAppend(SeedUpTo(trainings, cs, picks, n - 1),
                           Occurrences(trainings[n - 1], cs[n - 1], picks[n - 1]), trainings[m].id);
      OccurrencesCount(trainings[n - 1], cs[n - 1], picks[n - 1], trainings[m].id);
      assert trainings[n - 1].id == trainings[m].id <==> n - 1 == m;
    }
  }

  /**
   * With distinct ids, the seed schedules every training exactly as often as
   * it requires (none when the requirement is not positive).
   */
  lemma SeededCount(ud: UserData, picks: seq<seq<int>>, m: int)
    requires ValidPicks(ud, picks) && DistinctIds(ud.trainings)
    requires 0 <= m < |ud.trainings|
    ensures ScheduledCount(Seeded(ud, picks), ud.trainings[m].id) == OccurrenceCount(ud.trainings[m])
  {
    SeedUpToCount(ud.trainings, CombinationLists(ud), picks, |ud.trainings|, m);
  }

  /** When every training is scheduled exactly as often as it requires, every ratio is 1. */
  lemma {:induction false} FullSatisfaction(s: seq<ScheduledTraining>, trainings: seq<Training>)
    requires RatiosDefined(trainings)
    requires forall t :: t in trainings ==> ScheduledCount(s, t.id) == t.requiredOccurrences
    ensures Satisfaction(s, trainings) == |trainings| as real
  {
    if trainings != [] {
      var init := trainings[..|trainings| - 1];
      var t := trainings[|trainings| - 1];
      assert forall u :: u in init ==> u in trainings;
      FullSatisfaction(s, init);
      assert t in trainings;
      RatioOne(ScheduledCount(s, t.id), t.requiredOccurrences);
    }
  }

  /** A count equal to a non-zero requirement gives the ratio 1. */
  lemma RatioOne(count: int, required: int)
    requires count == required && required != 0
    ensures count as real / required as real == 1.0
  {
  }

  /**
   * A seed with distinct training ids and positive requirements meets every
   * requirement exactly: its satisfaction term is the number of trainings.
   */
  lemma SeededSatisfaction(ud: UserData, picks: seq<seq<int>>)
    requires ValidPicks(ud, picks) && DistinctIds(ud.trainings)
    requires forall t :: t in ud.trainings ==> t.requiredOccurrences > 0
    ensures Satisfaction(Seeded(ud, picks), ud.trainings) == |ud.trainings| as real
  {
    var s := Seeded(ud, picks);
    forall t | t in ud.trainings
      ensures ScheduledCount(s, t.id) == t.requiredOccurrences
    {
      var m :| 0 <= m < |ud.trainings| && ud.trainings[m] == t;
      SeededCount(ud, picks, m);
    }
    FullSatisfaction(s, ud.trainings);
  }
}
