/**
 * The parts of the search driver this repository defines itself: the
 * `generation` callback that decides whether to keep evolving
 * (src/genetic-scheduler.js:402-411) and the required-option check at the start
 * of `findOptimalSchedule` (src/genetic-scheduler.js:424-428).
 */
module Driver {
  import opened Models
  import opened Conflicts

  /** A member of the population as the engine hands it over: its fitness and its schedule. */
  datatype Individual = Individual(fitness: real, entity: seq<ScheduledTraining>)

  /** Some two sessions of s clash: same day, overlapping slots, and a shared trainer or room. */
  predicate HasClash(s: seq<ScheduledTraining>, trainings: seq<Training>)
  {
    exists a, b :: 0 <= a < b < |s| && Clash(s[a], s[b], DurationOf(trainings, s[a]), DurationOf(trainings, s[b]))
  }

  /**
   * The `generation` callback: evolve further exactly when the best schedule,
   * the first of the population, still has a clash. The generation number and
   * the statistics the engine passes are not read.
   */
  method Generation(population: seq<Individual>, trainings: seq<Training>) returns (continueEvolving: bool)
    requires |population| > 0 && Known(population[0].entity, trainings)
    ensures continueEvolving <==> HasClash(population[0].entity, trainings)
  {
    var bestSolution := population[0].entity;
    var conflicts := DetectConflicts(bestSolution, trainings);
    ConflictFreeIff(bestSolution, trainings);
    continueEvolving := |conflicts| > 0;
  }

  // ---------------------------------------------------------------------------
  // The required options

  /** `neededKeys`. */
  const NeededKeys: seq<string> := ["iterations", "size", "crossover", "mutation"]

  /** What the check does: let the search start, or throw an error with a message. */
  datatype Outcome = Proceed | Throw(message: string)

  /** The keys among `keys`, in order, that the options object lacks. */
  function Missing(keys: seq<string>, options: set<string>): (r: seq<string>)
    ensures |r| <= |keys|
    ensures forall k :: k in r <==> k in keys && k !in options
  {
    if keys == [] then []
    else
      var init := keys[..|keys| - 1];
      var k := keys[|keys| - 1];
      assert keys == init + [k];
      Missing(init, options) + (if k !in options then [k] else [])
  }

  /** `missingKeys`: the needed keys that are not `in options`, in the order of `neededKeys`. */
  function MissingKeys(options: set<string>): seq<string>
  {
    Missing(NeededKeys, options)
  }

  /** `xs.join(sep)`. */
  function Join(xs: seq<string>, sep: string): string
  {
    if xs == [] then ""
    else if |xs| == 1 then xs[0]
    else Join(xs[..|xs| - 1], sep) + sep + xs[|xs| - 1]
  }

  /**
   * The check on `options`: the search proceeds only when all four needed keys
   * are present; otherwise the error names every missing key.
   */
  function CheckOptions(options: set<string>): (r: Outcome)
    ensures r == Proceed <==> forall k :: k in NeededKeys ==> k in options
    ensures r.Throw? ==> r.message == "Missing required options: " + Join(MissingKeys(options), ", ")
  {
    var missingKeys := MissingKeys(options);
    if |missingKeys| > 0 then
      assert missingKeys[0] in missingKeys;
      Throw("Missing required options: " + Join(missingKeys, ", "))
    else Proceed
  }

  /** The search proceeds exactly when every needed key is present. */
  lemma OptionsAcceptedIff(options: set<string>)
    ensures CheckOptions(options) == Proceed <==> forall k :: k in NeededKeys ==> k in options
  {
    if CheckOptions(options) != Proceed {
      var k := MissingKeys(options)[0];
      assert k in MissingKeys(options);
    }
  }

  /** Where a key sits in `neededKeys`. */
  function Rank(k: string): int
  {
    if k == NeededKeys[0] then 0
    else if k == NeededKeys[1] then 1
    else if k == NeededKeys[2] then 2
    else if k == NeededKeys[3] then 3
    else 4
  }

  /** The keys of a list, without repetition, occur in increasing rank. */
  predicate RankOrdered(xs: seq<string>)
  {
    forall i, j :: 0 <= i < j < |xs| ==> Rank(xs[i]) < Rank(xs[j])
  }

  /** Filtering keeps the order of what remains. */
  lemma {:induction false} MissingKeepsOrder(keys: seq<string>, options: set<string>)
    requires RankOrdered(keys)
    ensures RankOrdered(Missing(keys, options))
  {
    if keys != [] {
      var init := keys[..|keys| - 1];
      var k := keys[|keys| - 1];
      assert RankOrdered(init);
      MissingKeepsOrder(init, options);
      forall x | x in Missing(init, options)
        ensures Rank(x) < Rank(k)
      {
        var i :| 0 <= i < |init| && init[i] == x;
        assert keys[i] == x;
      }
    }
  }

  /**
   * The error lists exactly the missing needed keys, each once, in the order
   * iterations, size, crossover, mutation.
   */
  lemma MissingKeysExact(options: set<string>)
    ensures forall k :: k in MissingKeys(options) <==> k in NeededKeys && k !in options
    ensures RankOrdered(MissingKeys(options))
    ensures CheckOptions(options).Throw? ==>
              CheckOptions(options).message == "Missing required options: " + Join(MissingKeys(options), ", ")
  {
    assert RankOrdered(NeededKeys);
    MissingKeepsOrder(NeededKeys, options);
  }

  /** Options with only `iterations` and `size` are refused with both other keys named, in order. */
  lemma MissingOptionsExample()
    ensures CheckOptions({"iterations", "size"}) == Throw("Missing required options: crossover, mutation")
  {
    var options := {"iterations", "size"};
    assert NeededKeys[..1] == ["iterations"] && NeededKeys[..2] == ["iterations", "size"];
    assert NeededKeys[..3] == ["iterations", "size", "crossover"];
    assert NeededKeys[..0] == [];
    assert Missing(NeededKeys[..0], options) == [];
    assert Missing(NeededKeys[..1], options) == [];
    assert Missing(NeededKeys[..2], options) == [];
    assert NeededKeys[..3][..2] == NeededKeys[..2] && NeededKeys[..2][..1] == NeededKeys[..1];
    assert NeededKeys[..1][..0] == [] && NeededKeys[..4] == NeededKeys;
    assert "crossover" !in options by {
      assert "crossover"[0] != "iterations"[0] && "crossover"[0] != "size"[0];
    }
    assert "mutation" !in options by {
      assert "mutation"[0] != "iterations"[0] && "mutation"[0] != "size"[0];
    }
    assert Missing(NeededKeys[..3], options) == ["crossover"];
    assert MissingKeys(options) == ["crossover", "mutation"];
    JoinPair("crossover", "mutation", ", ");
    MessageText();
  }

  lemma JoinPair(a: string, b: string, sep: string)
    ensures Join([a, b], sep) == a + sep + b
  {
    assert [a, b][..1] == [a];
  }

  lemma MessageText()
    ensures "Missing required options: " + ("crossover" + ", " + "mutation") ==
            "Missing required options: crossover, mutation"
  {
  }
}
