/**
 * The scheduler object and its feasibility filter
 * (src/genetic-scheduler.js:10-19 and 21-119): a training stays in
 * `this.trainings` only when it has at least one combination and at least as
 * many combinations as it has required occurrences.
 */
module Scheduler {
  import opened Models
  import opened Enumeration
  import opened Seeding

  /** `isEnoughCombinations` for training t. */
  predicate Kept(t: Training, trainers: seq<Trainer>, rooms: seq<Room>)
  {
    var n := |Combinations(t, trainers, rooms)|;
    n >= t.requiredOccurrences && n > 0
  }

  /** `validTrainings`: the kept trainings, in their original order. */
  function Feasible(trainings: seq<Training>, trainers: seq<Trainer>, rooms: seq<Room>): (r: seq<Training>)
    ensures |r| <= |trainings|
    ensures forall t :: t in r <==> t in trainings && Kept(t, trainers, rooms)
  {
    if trainings == [] then []
    else
      var t := trainings[|trainings| - 1];
      assert trainings == trainings[..|trainings| - 1] + [t];
      Feasible(trainings[..|trainings| - 1], trainers, rooms) + (if Kept(t, trainers, rooms) then [t] else [])
  }

  /** One more training: the filter of the longer prefix adds it exactly when it is kept. */
  lemma FeasibleNext(trainings: seq<Training>, k: int, trainers: seq<Trainer>, rooms: seq<Room>)
    requires 0 <= k < |trainings|
    ensures Feasible(trainings[..k + 1], trainers, rooms) ==
            Feasible(trainings[..k], trainers, rooms) + (if Kept(trainings[k], trainers, rooms) then [trainings[k]] else [])
  {
    PrefixOfPrefix(trainings, k);
  }

  /** The filter works training by training: it distributes over concatenation. */
  lemma {:induction false} FeasibleAppend(xs: seq<Training>, ys: seq<Training>, trainers: seq<Trainer>, rooms: seq<Room>)
    ensures Feasible(xs + ys, trainers, rooms) == Feasible(xs, trainers, rooms) + Feasible(ys, trainers, rooms)
  {
    if ys != [] {
      var init := ys[..|ys| - 1];
      assert (xs + ys)[..|xs + ys| - 1] == xs + init;
      assert (xs + ys)[|xs + ys| - 1] == ys[|ys| - 1];
      FeasibleAppend(xs, init, trainers, rooms);
    } else {
      assert xs + ys == xs;
    }
  }

  /** A kept training stays, a dropped one disappears: the filter keeps relative order. */
  lemma FeasibleSingleton(t: Training, trainers: seq<Trainer>, rooms: seq<Room>)
    ensures Feasible([t], trainers, rooms) == if Kept(t, trainers, rooms) then [t] else []
  {
    assert [t][..0] == [];
  }

  /** Filtering twice removes nothing more. */
  lemma {:induction false} FeasibleIdempotent(trainings: seq<Training>, trainers: seq<Trainer>, rooms: seq<Room>)
    ensures Feasible(Feasible(trainings, trainers, rooms), trainers, rooms) == Feasible(trainings, trainers, rooms)
  {
    if trainings != [] {
      var init := trainings[..|trainings| - 1];
      var t := trainings[|trainings| - 1];
      FeasibleIdempotent(init, trainers, rooms);
      var rest := if Kept(t, trainers, rooms) then [t] else [];
      FeasibleAppend(Feasible(init, trainers, rooms), rest, trainers, rooms);
      if Kept(t, trainers, rooms) {
        FeasibleSingleton(t, trainers, rooms);
      } else {
        assert rest == [];
        assert Feasible(init, trainers, rooms) + rest == Feasible(init, trainers, rooms);
      }
    }
  }

  /** The filtered list still satisfies what the enumeration needs. */
  lemma FeasibleResolvable(trainings: seq<Training>, trainers: seq<Trainer>, rooms: seq<Room>)
    requires AllResolvable(trainings, trainers, rooms)
    ensures AllResolvable(Feasible(trainings, trainers, rooms), trainers, rooms)
  {
  }

  /**
   * After the filter the seeder always has something to draw from: every
   * kept training has at least one combination.
   */
  lemma FeasibleIsSeedable(trainings: seq<Training>, trainers: seq<Trainer>, rooms: seq<Room>)
    ensures Seedable(Models.UserData(trainers, rooms, Feasible(trainings, trainers, rooms)))
  {
    var kept := Feasible(trainings, trainers, rooms);
    forall i | 0 <= i < |kept|
      ensures |Combinations(kept[i], trainers, rooms)| > 0
    {
      assert kept[i] in kept;
    }
  }

  /**
   * The scheduler: the reference data it reads and the trainings it keeps.
   * The `genetic` engine object and its configuration are not part of this model.
   */
  class GeneticScheduler {
    var trainers: seq<Trainer>
    var rooms: seq<Room>
    var trainings: seq<Training>

    /** The constructor filters the trainings straight away. */
    constructor(trainers: seq<Trainer>, rooms: seq<Room>, trainings: seq<Training>)
      requires AllResolvable(trainings, trainers, rooms)
      ensures this.trainers == trainers && this.rooms == rooms
      ensures this.trainings == Feasible(trainings, trainers, rooms)
      ensures Seedable(UserData())
    {
      this.trainers := trainers;
      this.rooms := rooms;
      this.trainings := trainings;
      new;
      DisqualifyTrainingsWithNoValidCombinations();
      FeasibleIsSeedable(trainings, trainers, rooms);
    }

    /** The `userData` the operators read. */
    function UserData(): (r: UserData)
      reads this
      ensures r.trainers == trainers && r.rooms == rooms && r.trainings == trainings
    {
      Models.UserData(trainers, rooms, trainings)
    }

    /**
     * Replaces `trainings` by the trainings that have enough combinations,
     * in their original order.
     */
    method DisqualifyTrainingsWithNoValidCombinations()
      modifies this
      requires AllResolvable(trainings, trainers, rooms)
      ensures trainers == old(trainers) && rooms == old(rooms)
      ensures trainings == Feasible(old(trainings), trainers, rooms)
    {
      var validTrainings := [];
      var k := 0;
      while k < |trainings|
        invariant trainers == old(trainers) && rooms == old(rooms) && trainings == old(trainings)
        invariant 0 <= k <= |trainings|
        invariant validTrainings == Feasible(trainings[..k], trainers, rooms)
      {
        var training := trainings[k];
        var possibleCombinations := EnumerateCombinations(training, trainers, rooms);
        var isEnoughCombinations :=
          |possibleCombinations| >= training.requiredOccurrences && |possibleCombinations| > 0;
        if isEnoughCombinations {
          validTrainings := validTrainings + [training];
        }
        FeasibleNext(trainings, k, trainers, rooms);
        k := k + 1;
      }
      PrefixAll(trainings);
      trainings := validTrainings;
    }
  }
}
