/**
 * The seeder (src/genetic-scheduler.js:143-214): for every training, in order,
 * `requiredOccurrences` sessions, occurrence k placed on a drawn combination
 * and named "<training id>-<k>".
 *
 * The random draw `Math.floor(Math.random() * possibleCombinations.length)` is
 * an explicit argument: `picks[i][k]` is the combination index drawn for
 * occurrence k of training i.
 *
 * The schedule is first described over any lists of combinations `cs`
 * (`SeedUpTo`), then instantiated with the enumerated ones (`Seeded`); the
 * lemmas about ids and lengths do not depend on what the combinations are.
 */
module Seeding {
  import opened Models
  import opened Enumeration

  /** The session built for occurrence k of t on combination c. */
  function Session(t: Training, c: Combination, k: int): ScheduledTraining
  {
    ScheduledTraining(t.id, c.trainerId, c.roomId, c.day, c.timeSlot, SessionId(t.id, k))
  }

  /** How often `while (scheduledCount < training.requiredOccurrences)` runs its body. */
  function OccurrenceCount(t: Training): nat
  {
    if t.requiredOccurrences < 0 then 0 else t.requiredOccurrences
  }

  /** Every drawn index names a combination. */
  predicate PicksFit(combos: seq<Combination>, ps: seq<int>)
  {
    forall k :: 0 <= k < |ps| ==> 0 <= ps[k] < |combos|
  }

  /** One draw per occurrence of every training, within that training's combinations `cs[i]`. */
  predicate Drawable(trainings: seq<Training>, cs: seq<seq<Combination>>, picks: seq<seq<int>>)
  {
    |cs| == |trainings| && |picks| == |trainings| &&
    forall i :: 0 <= i < |picks| ==> |picks[i]| == OccurrenceCount(trainings[i]) && PicksFit(cs[i], picks[i])
  }

  /** The combinations of every training, in order. */
  function CombinationLists(ud: UserData): (cs: seq<seq<Combination>>)
    ensures |cs| == |ud.trainings|
    ensures forall i :: 0 <= i < |cs| ==> cs[i] == Combinations(ud.trainings[i], ud.trainers, ud.rooms)
  {
    seq(|ud.trainings|, i requires 0 <= i < |ud.trainings| => Combinations(ud.trainings[i], ud.trainers, ud.rooms))
  }

  /**
   * The draws `Math.floor(Math.random() * length)` can yield. A training with
   * required occurrences and no combination admits no draw (the source reads a
   * field of `undefined` there); the feasibility filter removes such trainings
   * (`Scheduler.FeasibleIsSeedable`).
   */
  predicate ValidPicks(ud: UserData, picks: seq<seq<int>>)
  {
    Drawable(ud.trainings, CombinationLists(ud), picks)
  }

  /** The sessions of one training: occurrence k on combination combos[ps[k]]. */
  function Occurrences(t: Training, combos: seq<Combination>, ps: seq<int>): (r: seq<ScheduledTraining>)
    requires PicksFit(combos, ps)
    ensures |r| == |ps|
  {
    if ps == [] then []
    else Occurrences(t, combos, ps[..|ps| - 1]) + [Session(t, combos[ps[|ps| - 1]], |ps| - 1)]
  }

  /** The schedule built from the first n trainings. */
  function SeedUpTo(trainings: seq<Training>, cs: seq<seq<Combination>>, picks: seq<seq<int>>, n: int)
    : seq<ScheduledTraining>
    requires Drawable(trainings, cs, picks) && 0 <= n <= |trainings|
  {
    if n == 0 then []
    else SeedUpTo(trainings, cs, picks, n - 1) + Occurrences(trainings[n - 1], cs[n - 1], picks[n - 1])
  }

  /** The schedule `seed()` returns for these draws. */
  function Seeded(ud: UserData, picks: seq<seq<int>>): seq<ScheduledTraining>
    requires ValidPicks(ud, picks)
  {
    SeedUpTo(ud.trainings, CombinationLists(ud), picks, |ud.trainings|)
  }

  /** The total number of required occurrences. */
  function TotalOccurrences(trainings: seq<Training>): nat
  {
    if trainings == [] then 0
    else TotalOccurrences(trainings[..|trainings| - 1]) + OccurrenceCount(trainings[|trainings| - 1])
  }

  // ---------------------------------------------------------------------------
  // When draws exist

  /** Every training that has occurrences to place has at least one combination to draw from. */
  predicate Seedable(ud: UserData)
  {
    forall i :: 0 <= i < |ud.trainings| && OccurrenceCount(ud.trainings[i]) > 0 ==>
      |Combinations(ud.trainings[i], ud.trainers, ud.rooms)| > 0
  }

  /** The draws that always pick the first combination. */
  function ZeroPicks(trainings: seq<Training>): seq<seq<int>>
  {
    seq(|trainings|, i requires 0 <= i < |trainings| => seq(OccurrenceCount(trainings[i]), k => 0))
  }

  /** Draws exist exactly when the user data is seedable: any draw needs a combination, and the first one will do. */
  lemma SeedableIff(ud: UserData, picks: seq<seq<int>>)
    ensures Seedable(ud) ==> ValidPicks(ud, ZeroPicks(ud.trainings))
    ensures ValidPicks(ud, picks) ==> Seedable(ud)
  {
    if ValidPicks(ud, picks) {
      forall i | 0 <= i < |ud.trainings| && OccurrenceCount(ud.trainings[i]) > 0
        ensures |Combinations(ud.trainings[i], ud.trainers, ud.rooms)| > 0
      {
        assert 0 <= picks[i][0] < |CombinationLists(ud)[i]|;
      }
    }
  }

  // ---------------------------------------------------------------------------
  // The seeder as the source runs it

  /** seed(): the trainings loop; the occurrences of each training come from `ScheduleOccurrences`. */
  method Seed(ud: UserData, picks: seq<seq<int>>) returns (schedule: seq<ScheduledTraining>)
    requires AllResolvable(ud.trainings, ud.trainers, ud.rooms)
    requires ValidPicks(ud, picks)
    ensures schedule == Seeded(ud, picks)
  {
    schedule := [];
    var i := 0;
    while i < |ud.trainings|
      invariant 0 <= i <= |ud.trainings|
      invariant schedule == SeedPrefix(ud, picks, i)
    {
      var sessions := SeedTraining(ud, picks, i);
      schedule := schedule + sessions;
      i := i + 1;
    }
  }

  /** The schedule after the trainings loop has handled the first n trainings. */
  function SeedPrefix(ud: UserData, picks: seq<seq<int>>, n: int): seq<ScheduledTraining>
    requires ValidPicks(ud, picks) && 0 <= n <= |ud.trainings|
  {
    SeedUpTo(ud.trainings, CombinationLists(ud), picks, n)
  }

  /** One iteration of the trainings loop: the combinations of training i, then its occurrences. */
  method SeedTraining(ud: UserData, picks: seq<seq<int>>, i: int) returns (sessions: seq<ScheduledTraining>)
    requires AllResolvable(ud.trainings, ud.trainers, ud.rooms)
    requires ValidPicks(ud, picks) && 0 <= i < |ud.trainings|
    ensures SeedPrefix(ud, picks, i + 1) == SeedPrefix(ud, picks, i) + sessions
  {
    var training := ud.trainings[i];
    assert training in ud.trainings;
    var possibleCombinations := EnumerateCombinations(training, ud.trainers, ud.rooms);
    SeedStep(ud.trainings, CombinationLists(ud), picks, i);
    sessions := ScheduleOccurrences(training, possibleCombinations, picks[i]);
  }

  /** Training i contributes its occurrences after those of the trainings before it. */
  lemma SeedStep(trainings: seq<Training>, cs: seq<seq<Combination>>, picks: seq<seq<int>>, i: int)
    requires Drawable(trainings, cs, picks) && 0 <= i < |trainings|
    ensures |picks[i]| == OccurrenceCount(trainings[i]) && PicksFit(cs[i], picks[i])
    ensures SeedUpTo(trainings, cs, picks, i + 1) ==
            SeedUpTo(trainings, cs, picks, i) + Occurrences(trainings[i], cs[i], picks[i])
  {
  }

  /** The `while (scheduledCount < training.requiredOccurrences)` loop of one training. */
  method ScheduleOccurrences(training: Training, possibleCombinations: seq<Combination>, ps: seq<int>)
    returns (sessions: seq<ScheduledTraining>)
    requires |ps| == OccurrenceCount(training) && PicksFit(possibleCombinations, ps)
    ensures sessions == Occurrences(training, possibleCombinations, ps)
  {
    sessions := [];
    var scheduledCount := 0;
    while scheduledCount < training.requiredOccurrences
      invariant 0 <= scheduledCount <= |ps|
      invariant sessions == Occurrences(training, possibleCombinations, ps[..scheduledCount])
    {
      var combinationIndex := ps[scheduledCount];
      var combination := possibleCombinations[combinationIndex];
      var sessionId := SessionId(training.id, scheduledCount);
      var scheduledTraining := ScheduledTraining(training.id, combination.trainerId, combination.roomId,
                                                 combination.day, combination.timeSlot, sessionId);
      sessions := sessions + [scheduledTraining];
      assert ps[..scheduledCount + 1][..scheduledCount] == ps[..scheduledCount];
      scheduledCount := scheduledCount + 1;
    }
    assert ps[..scheduledCount] == ps;
  }

  // ---------------------------------------------------------------------------
  // What the seeded schedule is

  /** Occurrence k of a training is built from the k-th draw and carries id "<id>-<k>". */
  lemma {:induction false} OccurrencesAt(t: Training, combos: seq<Combination>, ps: seq<int>, k: int)
    requires PicksFit(combos, ps) && 0 <= k < |ps|
    ensures Occurrences(t, combos, ps)[k] == Session(t, combos[ps[k]], k)
  {
    if k < |ps| - 1 {
      OccurrencesAt(t, combos, ps[..|ps| - 1], k);
    }
  }

  lemma {:induction false} SeedUpToLength(trainings: seq<Training>, cs: seq<seq<Combination>>,
                                          picks: seq<seq<int>>, n: int)
    requires Drawable(trainings, cs, picks) && 0 <= n <= |trainings|
    ensures |SeedUpTo(trainings, cs, picks, n)| == TotalOccurrences(trainings[..n])
  {
    if n > 0 {
      SeedUpToLength(trainings, cs, picks, n - 1);
      PrefixOfPrefix(trainings, n - 1);
    }
  }

  /** The seed's length is the sum of the trainings' occurrence counts. */
  lemma SeedLength(ud: UserData, picks: seq<seq<int>>)
    requires ValidPicks(ud, picks)
    ensures |Seeded(ud, picks)| == TotalOccurrences(ud.trainings)
  {
    SeedUpToLength(ud.trainings, CombinationLists(ud), picks, |ud.trainings|);
    assert ud.trainings[..|ud.trainings|] == ud.trainings;
  }

  /** Session s is occurrence k of training i, built from the k-th draw. */
  predicate DrawnFrom(trainings: seq<Training>, cs: seq<seq<Combination>>, picks: seq<seq<int>>,
                      s: ScheduledTraining, i: int, k: int)
    requires Drawable(trainings, cs, picks) && 0 <= i < |trainings|
  {
    0 <= k < |picks[i]| && s == Session(trainings[i], cs[i][picks[i][k]], k)
  }

  /** Where position p of the schedule built from the first n trainings comes from. */
  lemma {:induction false} SeedUpToOrigin(trainings: seq<Training>, cs: seq<seq<Combination>>,
                                          picks: seq<seq<int>>, n: int, p: int) returns (i: int, k: int)
    requires Drawable(trainings, cs, picks) && 0 <= n <= |trainings| && 0 <= p < |SeedUpTo(trainings, cs, picks, n)|
    ensures 0 <= i < n && DrawnFrom(trainings, cs, picks, SeedUpTo(trainings, cs, picks, n)[p], i, k)
  {
    var prefix := SeedUpTo(trainings, cs, picks, n - 1);
    var block := Occurrences(trainings[n - 1], cs[n - 1], picks[n - 1]);
    assert SeedUpTo(trainings, cs, picks, n) == prefix + block;
    if p < |prefix| {
      i, k := SeedUpToOrigin(trainings, cs, picks, n - 1, p);
      assert SeedUpTo(trainings, cs, picks, n)[p] == prefix[p];
    } else {
      i, k := n - 1, p - |prefix|;
      OccurrencesAt(trainings[n - 1], cs[n - 1], picks[n - 1], k);
      assert SeedUpTo(trainings, cs, picks, n)[p] == block[k];
    }
  }

  /**
   * Every seeded session is occurrence k of one of the trainings: it carries
   * that training's id, the session id "<id>-<k>" with k below the required
   * occurrences, and an admissible combination of that training.
   */
  lemma SeedSessionOrigin(ud: UserData, picks: seq<seq<int>>, p: int) returns (i: int, k: int)
    requires ValidPicks(ud, picks) && 0 <= p < |Seeded(ud, picks)|
    ensures 0 <= i < |ud.trainings| && 0 <= k < ud.trainings[i].requiredOccurrences
    ensures Seeded(ud, picks)[p].trainingId == ud.trainings[i].id
    ensures Seeded(ud, picks)[p].sessionId == SessionId(ud.trainings[i].id, k)
    ensures var s := Seeded(ud, picks)[p];
            Admissible(ud.trainings[i], ud.trainers, ud.rooms, Combination(s.trainerId, s.roomId, s.day, s.timeSlot))
  {
    var cs := CombinationLists(ud);
    i, k := SeedUpToOrigin(ud.trainings, cs, picks, |ud.trainings|, p);
    CombinationsAreAdmissible(ud.trainings[i], ud.trainers, ud.rooms, cs[i][picks[i][k]]);
  }

  /** Every seeded session names a training the lookup finds, so the detector can run on it. */
  lemma SeedIsKnown(ud: UserData, picks: seq<seq<int>>)
    requires ValidPicks(ud, picks)
    ensures Known(Seeded(ud, picks), ud.trainings)
  {
    var s := Seeded(ud, picks);
    forall p | 0 <= p < |s|
      ensures FindTraining(ud.trainings, s[p].trainingId).Some?
    {
      var i, k := SeedUpToOrigin(ud.trainings, CombinationLists(ud), picks, |ud.trainings|, p);
      assert ud.trainings[i] in ud.trainings;
    }
  }

  /** Distinct training ids. */
  predicate DistinctIds(trainings: seq<Training>)
  {
    forall i, j :: 0 <= i < j < |trainings| ==> trainings[i].id != trainings[j].id
  }

  /** A session of training n-1 differs in id from every earlier session. */
  lemma LastTrainingDistinct(trainings: seq<Training>, cs: seq<seq<Combination>>, picks: seq<seq<int>>,
                             n: int, p: int, q: int)
    requires Drawable(trainings, cs, picks) && 0 < n <= |trainings| && DistinctIds(trainings)
    requires 0 <= p < q && |SeedUpTo(trainings, cs, picks, n - 1)| <= q < |SeedUpTo(trainings, cs, picks, n)|
    ensures SeedUpTo(trainings, cs, picks, n)[p].sessionId != SeedUpTo(trainings, cs, picks, n)[q].sessionId
  {
    var prefix := SeedUpTo(trainings, cs, picks, n - 1);
    var block := Occurrences(trainings[n - 1], cs[n - 1], picks[n - 1]);
    var s := SeedUpTo(trainings, cs, picks, n);
    assert s == prefix + block;
    OccurrencesAt(trainings[n - 1], cs[n - 1], picks[n - 1], q - |prefix|);
    assert s[q] == block[q - |prefix|];
    if p >= |prefix| {
      OccurrencesAt(trainings[n - 1], cs[n - 1], picks[n - 1], p - |prefix|);
      assert s[p] == block[p - |prefix|];
    } else {
      var i, k := SeedUpToOrigin(trainings, cs, picks, n - 1, p);
      assert s[p] == prefix[p];
      assert s[p].sessionId.trainingId == trainings[i].id;
    }
  }

  lemma {:induction false} SeedUpToUnique(trainings: seq<Training>, cs: seq<seq<Combination>>,
                                          picks: seq<seq<int>>, n: int)
    requires Drawable(trainings, cs, picks) && 0 <= n <= |trainings| && DistinctIds(trainings)
    ensures forall p, q :: 0 <= p < q < |SeedUpTo(trainings, cs, picks, n)| ==>
              SeedUpTo(trainings, cs, picks, n)[p].sessionId != SeedUpTo(trainings, cs, picks, n)[q].sessionId
  {
    if n > 0 {
      SeedUpToUnique(trainings, cs, picks, n - 1);
      var prefix := SeedUpTo(trainings, cs, picks, n - 1);
      var s := SeedUpTo(trainings, cs, picks, n);
      assert s == prefix + Occurrences(trainings[n - 1], cs[n - 1], picks[n - 1]);
      forall p, q | 0 <= p < q < |s|
        ensures s[p].sessionId != s[q].sessionId
      {
        if q >= |prefix| {
          LastTrainingDistinct(trainings, cs, picks, n, p, q);
        } else {
          assert s[p] == prefix[p] && s[q] == prefix[q];
        }
      }
    }
  }

  /** With distinct training ids, the seeded session ids are pairwise distinct. */
  lemma SeedIdsUnique(ud: UserData, picks: seq<seq<int>>)
    requires ValidPicks(ud, picks) && DistinctIds(ud.trainings)
    ensures forall p, q :: 0 <= p < q < |Seeded(ud, picks)| ==>
              Seeded(ud, picks)[p].sessionId != Seeded(ud, picks)[q].sessionId
  {
    SeedUpToUnique(ud.trainings, CombinationLists(ud), picks, |ud.trainings|);
  }
}
