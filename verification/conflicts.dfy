/**
 * The conflict detector (src/utils.js): every pair i < j of scheduled sessions
 * that sit on the same day with intersecting slot intervals yields a `trainer`
 * record when they share the trainer, then a `room` record when they share the room.
 *
 * The order of the records is specified through their positions (i, j, kind):
 * `AllDetections` lists the positions in discovery order and `AllConflicts`
 * is the record each position stands for.
 */
module Conflicts {
  import opened Models

  datatype ConflictType = TrainerConflict | RoomConflict

  /** A conflict record `{ type, sessions: [first, second] }`. */
  datatype Conflict = Conflict(kind: ConflictType, first: ScheduledTraining, second: ScheduledTraining)

  /** The position of one record: the pair (i, j) and the kind. */
  datatype Detection = Detection(i: int, j: int, kind: ConflictType)

  /** The overlap test as the detector writes it. */
  predicate Overlap(start1: int, duration1: int, start2: int, duration2: int)
  {
    (start1 <= start2 && start2 < start1 + duration1) ||
    (start2 <= start1 && start1 < start2 + duration2)
  }

  /** Slot `t` lies in the half-open interval [start, start + duration). */
  predicate Covers(start: int, duration: int, t: int)
  {
    start <= t < start + duration
  }

  /** Sessions a and b, lasting da and db slots, are on the same day at overlapping times. */
  predicate Concurrent(a: ScheduledTraining, b: ScheduledTraining, da: int, db: int)
  {
    a.day == b.day && Overlap(a.timeSlot, da, b.timeSlot, db)
  }

  /** Two sessions clash: concurrent, with a shared trainer or room. */
  predicate Clash(a: ScheduledTraining, b: ScheduledTraining, da: int, db: int)
  {
    Concurrent(a, b, da, db) && (a.trainerId == b.trainerId || a.roomId == b.roomId)
  }

  /** The duration of every session, looked up once. */
  function Durations(s: seq<ScheduledTraining>, trainings: seq<Training>): (d: seq<int>)
    ensures |d| == |s|
    ensures forall k :: 0 <= k < |s| ==> d[k] == DurationOf(trainings, s[k])
  {
    seq(|s|, k requires 0 <= k < |s| => DurationOf(trainings, s[k]))
  }

  /** Position e is a pair i < j of concurrent sessions sharing the resource its kind names. */
  predicate Genuine(s: seq<ScheduledTraining>, d: seq<int>, e: Detection)
    requires |d| == |s|
  {
    0 <= e.i < e.j < |s| && Concurrent(s[e.i], s[e.j], d[e.i], d[e.j]) &&
    (e.kind == TrainerConflict ==> s[e.i].trainerId == s[e.j].trainerId) &&
    (e.kind == RoomConflict ==> s[e.i].roomId == s[e.j].roomId)
  }

  /** The positions one pair (i, j) contributes: `trainer` first, then `room`. */
  function PairDetections(s: seq<ScheduledTraining>, d: seq<int>, i: int, j: int): (r: seq<Detection>)
    requires |d| == |s| && 0 <= i < j < |s|
    ensures forall e {:trigger e in r} :: e in r <==> e.i == i && e.j == j && Genuine(s, d, e)
  {
    if !Concurrent(s[i], s[j], d[i], d[j]) then []
    else if s[i].trainerId == s[j].trainerId && s[i].roomId == s[j].roomId then
      [Detection(i, j, TrainerConflict), Detection(i, j, RoomConflict)]
    else if s[i].trainerId == s[j].trainerId then [Detection(i, j, TrainerConflict)]
    else if s[i].roomId == s[j].roomId then [Detection(i, j, RoomConflict)]
    else []
  }

  /** Positions of the pairs (i, i+1), ..., (i, j-1), in that order. */
  function RowDetections(s: seq<ScheduledTraining>, d: seq<int>, i: int, j: int): (r: seq<Detection>)
    requires |d| == |s| && 0 <= i < j <= |s|
    ensures forall e {:trigger e in r} :: e in r <==> e.i == i && e.j < j && Genuine(s, d, e)
    decreases j
  {
    if j == i + 1 then []
    else RowDetections(s, d, i, j - 1) + PairDetections(s, d, i, j - 1)
  }

  /** Positions of all pairs whose first index is below i, in discovery order. */
  function DetectionsUpTo(s: seq<ScheduledTraining>, d: seq<int>, i: int): (r: seq<Detection>)
    requires |d| == |s| && 0 <= i <= |s|
    ensures forall e {:trigger e in r} :: e in r <==> e.i < i && Genuine(s, d, e)
  {
    if i == 0 then []
    else DetectionsUpTo(s, d, i - 1) + RowDetections(s, d, i - 1, |s|)
  }

  /** The positions of the records `detectConflicts` returns, in discovery order. */
  function AllDetections(s: seq<ScheduledTraining>, trainings: seq<Training>): seq<Detection>
  {
    DetectionsUpTo(s, Durations(s, trainings), |s|)
  }

  /** Every position names two sessions of the schedule. */
  predicate InRange(s: seq<ScheduledTraining>, ds: seq<Detection>)
  {
    forall d :: d in ds ==> 0 <= d.i < |s| && 0 <= d.j < |s|
  }

  /** The records the positions stand for: `{kind, [s[i], s[j]]}`, in the same order. */
  function Records(s: seq<ScheduledTraining>, ds: seq<Detection>): (r: seq<Conflict>)
    requires InRange(s, ds)
    ensures |r| == |ds|
  {
    if ds == [] then []
    else
      var e := ds[|ds| - 1];
      Records(s, ds[..|ds| - 1]) + [Conflict(e.kind, s[e.i], s[e.j])]
  }

  /** The records one pair of sessions gives rise to, `trainer` first. */
  function PairConflicts(a: ScheduledTraining, b: ScheduledTraining, da: int, db: int): seq<Conflict>
  {
    if Concurrent(a, b, da, db) then
      (if a.trainerId == b.trainerId then [Conflict(TrainerConflict, a, b)] else []) +
      (if a.roomId == b.roomId then [Conflict(RoomConflict, a, b)] else [])
    else []
  }

  lemma {:induction false} PairRecords(s: seq<ScheduledTraining>, d: seq<int>, i: int, j: int)
    requires |d| == |s| && 0 <= i < j < |s|
    ensures InRange(s, PairDetections(s, d, i, j))
    ensures Records(s, PairDetections(s, d, i, j)) == PairConflicts(s[i], s[j], d[i], d[j])
  {
  }

  /** What `detectConflicts(schedule, trainings)` returns. */
  function AllConflicts(s: seq<ScheduledTraining>, trainings: seq<Training>): seq<Conflict>
  {
    Records(s, AllDetections(s, trainings))
  }

  lemma {:induction false} RecordsAt(s: seq<ScheduledTraining>, ds: seq<Detection>, k: int)
    requires InRange(s, ds) && 0 <= k < |ds|
    ensures Records(s, ds)[k] == Conflict(ds[k].kind, s[ds[k].i], s[ds[k].j])
  {
    if k < |ds| - 1 {
      RecordsAt(s, ds[..|ds| - 1], k);
    }
  }

  lemma {:induction false} RecordsAppend(s: seq<ScheduledTraining>, ds: seq<Detection>, es: seq<Detection>)
    requires InRange(s, ds) && InRange(s, es)
    ensures InRange(s, ds + es)
    ensures Records(s, ds + es) == Records(s, ds) + Records(s, es)
  {
    assert InRange(s, ds + es);
    forall k | 0 <= k < |ds + es|
      ensures Records(s, ds + es)[k] == (Records(s, ds) + Records(s, es))[k]
    {
      RecordsAt(s, ds + es, k);
      if k < |ds| {
        RecordsAt(s, ds, k);
      } else {
        RecordsAt(s, es, k - |ds|);
      }
    }
  }

  /** One step of the inner loop: the records of pair (i, j) follow those found so far. */
  lemma {:induction false} InnerStep(s: seq<ScheduledTraining>, d: seq<int>, i: int, j: int)
    requires |d| == |s| && 0 <= i < j < |s|
    ensures InRange(s, DetectionsUpTo(s, d, i) + RowDetections(s, d, i, j + 1))
    ensures Records(s, DetectionsUpTo(s, d, i) + RowDetections(s, d, i, j + 1)) ==
            Records(s, DetectionsUpTo(s, d, i) + RowDetections(s, d, i, j)) + PairConflicts(s[i], s[j], d[i], d[j])
  {
    var done := DetectionsUpTo(s, d, i) + RowDetections(s, d, i, j);
    var pair := PairDetections(s, d, i, j);
    assert done + pair == DetectionsUpTo(s, d, i) + RowDetections(s, d, i, j + 1);
    RecordsAppend(s, done, pair);
    PairRecords(s, d, i, j);
  }

  /** The end of the inner loop is the end of row i. */
  lemma {:induction false} OuterStep(s: seq<ScheduledTraining>, d: seq<int>, i: int)
    requires |d| == |s| && 0 <= i < |s|
    ensures DetectionsUpTo(s, d, i) + RowDetections(s, d, i, |s|) == DetectionsUpTo(s, d, i + 1)
    ensures InRange(s, DetectionsUpTo(s, d, i + 1))
  {
  }

  lemma {:induction false} RowStart(s: seq<ScheduledTraining>, d: seq<int>, i: int)
    requires |d| == |s| && 0 <= i < |s|
    ensures DetectionsUpTo(s, d, i) + RowDetections(s, d, i, i + 1) == DetectionsUpTo(s, d, i)
    ensures InRange(s, DetectionsUpTo(s, d, i))
  {
  }

  /**
   * The body of the inner loop: the records the pair (schedule1, schedule2)
   * contributes, `trainer` before `room`.
   */
  method CheckPair(schedule1: ScheduledTraining, schedule2: ScheduledTraining, duration1: int, duration2: int)
    returns (found: seq<Conflict>)
    ensures found == PairConflicts(schedule1, schedule2, duration1, duration2)
  {
    found := [];
    if schedule1.day == schedule2.day {
      var training1End := schedule1.timeSlot + duration1;
      var training2End := schedule2.timeSlot + duration2;
      var timeOverlap :=
        (schedule1.timeSlot <= schedule2.timeSlot && schedule2.timeSlot < training1End) ||
        (schedule2.timeSlot <= schedule1.timeSlot && schedule1.timeSlot < training2End);
      if timeOverlap {
        if schedule1.trainerId == schedule2.trainerId {
          found := found + [Conflict(TrainerConflict, schedule1, schedule2)];
        }
        if schedule1.roomId == schedule2.roomId {
          found := found + [Conflict(RoomConflict, schedule1, schedule2)];
        }
      }
    }
  }

  /**
   * detectConflicts: two nested loops over i < j pushing records into `conflicts`
   * (the inner loop is `ScanRow`). Every session's training must be found,
   * otherwise the source reads the duration of `undefined` and throws.
   */
  method DetectConflicts(schedule: seq<ScheduledTraining>, trainings: seq<Training>)
    returns (conflicts: seq<Conflict>)
    requires Known(schedule, trainings)
    ensures conflicts == AllConflicts(schedule, trainings)
  {
    ghost var d := Durations(schedule, trainings);
    conflicts := [];
    var i := 0;
    while i < |schedule|
      invariant 0 <= i <= |schedule|
      invariant InRange(schedule, DetectionsUpTo(schedule, d, i))
      invariant conflicts == Records(schedule, DetectionsUpTo(schedule, d, i))
    {
      var schedule1 := schedule[i];
      var duration1 := FindTraining(trainings, schedule1.trainingId).value.duration;
      conflicts := ScanRow(schedule, trainings, d, i, duration1, conflicts);
      OuterStep(schedule, d, i);
      i := i + 1;
    }
  }

  /** The inner loop of detectConflicts: the pairs (i, j) for j = i+1 .. n-1. */
  method ScanRow(schedule: seq<ScheduledTraining>, trainings: seq<Training>, ghost d: seq<int>,
                 i: int, duration1: int, acc: seq<Conflict>)
    returns (conflicts: seq<Conflict>)
    requires Known(schedule, trainings)
    requires d == Durations(schedule, trainings)
    requires 0 <= i < |schedule| && duration1 == d[i]
    requires InRange(schedule, DetectionsUpTo(schedule, d, i))
    requires acc == Records(schedule, DetectionsUpTo(schedule, d, i))
    ensures InRange(schedule, DetectionsUpTo(schedule, d, i) + RowDetections(schedule, d, i, |schedule|))
    ensures conflicts == Records(schedule, DetectionsUpTo(schedule, d, i) + RowDetections(schedule, d, i, |schedule|))
  {
    conflicts := acc;
    RowStart(schedule, d, i);
    var j := i + 1;
    while j < |schedule|
      invariant i + 1 <= j <= |schedule|
      invariant InRange(schedule, DetectionsUpTo(schedule, d, i) + RowDetections(schedule, d, i, j))
      invariant conflicts == Records(schedule, DetectionsUpTo(schedule, d, i) + RowDetections(schedule, d, i, j))
    {
      var schedule2 := schedule[j];
      var duration2 := FindTraining(trainings, schedule2.trainingId).value.duration;
      var found := CheckPair(schedule[i], schedule2, duration1, duration2);
      InnerStep(schedule, d, i, j);
      conflicts := conflicts + found;
      j := j + 1;
    }
    assert j == |schedule|;
  }

  // ---------------------------------------------------------------------------
  // The overlap test

  /** The overlap test means: the half-open intervals share a slot. */
  lemma OverlapIffSharedSlot(start1: int, duration1: int, start2: int, duration2: int)
    requires duration1 >= 1 && duration2 >= 1
    ensures Overlap(start1, duration1, start2, duration2) <==>
            exists t :: Covers(start1, duration1, t) && Covers(start2, duration2, t)
  {
    if Overlap(start1, duration1, start2, duration2) {
      var t := if start1 <= start2 then start2 else start1;
      assert Covers(start1, duration1, t) && Covers(start2, duration2, t);
    }
  }

  /** The overlap test does not depend on the order of the two sessions. */
  lemma OverlapSymmetric(start1: int, duration1: int, start2: int, duration2: int)
    ensures Overlap(start1, duration1, start2, duration2) == Overlap(start2, duration2, start1, duration1)
  {
  }

  /** A session that ends exactly where the other starts does not overlap it. */
  lemma BackToBackDoNotOverlap(start1: int, duration1: int, start2: int, duration2: int)
    requires duration1 >= 1 && duration2 >= 1
    requires start1 + duration1 == start2
    ensures !Overlap(start1, duration1, start2, duration2)
  {
  }

  // ---------------------------------------------------------------------------
  // Every position is a genuine clash of its kind, and every clash is found

  /**
   * Soundness: record k of the detector is `{kind, [s[i], s[j]]}` for a pair
   * i < j of sessions on the same day at overlapping times that share the
   * trainer (a `trainer` record) or the room (a `room` record).
   */
  lemma {:induction false} RecordsAreClashes(s: seq<ScheduledTraining>, trainings: seq<Training>, k: int)
    requires 0 <= k < |AllConflicts(s, trainings)|
    ensures var e := AllDetections(s, trainings)[k];
            0 <= e.i < e.j < |s| &&
            AllConflicts(s, trainings)[k] == Conflict(e.kind, s[e.i], s[e.j]) &&
            Concurrent(s[e.i], s[e.j], DurationOf(trainings, s[e.i]), DurationOf(trainings, s[e.j])) &&
            (e.kind == TrainerConflict ==> s[e.i].trainerId == s[e.j].trainerId) &&
            (e.kind == RoomConflict ==> s[e.i].roomId == s[e.j].roomId)
  {
    var d := Durations(s, trainings);
    RecordsAt(s, AllDetections(s, trainings), k);
    assert AllDetections(s, trainings)[k] in AllDetections(s, trainings);
  }

  /** Completeness: a shared trainer gives a `trainer` record, a shared room a `room` record. */
  lemma {:induction false} FindsEveryClash(s: seq<ScheduledTraining>, trainings: seq<Training>, a: int, b: int)
    requires 0 <= a < b < |s|
    requires Concurrent(s[a], s[b], DurationOf(trainings, s[a]), DurationOf(trainings, s[b]))
    ensures s[a].trainerId == s[b].trainerId ==> Conflict(TrainerConflict, s[a], s[b]) in AllConflicts(s, trainings)
    ensures s[a].roomId == s[b].roomId ==> Conflict(RoomConflict, s[a], s[b]) in AllConflicts(s, trainings)
  {
    var d := Durations(s, trainings);
    if s[a].trainerId == s[b].trainerId {
      assert Genuine(s, d, Detection(a, b, TrainerConflict));
      DetectedIsRecorded(s, trainings, Detection(a, b, TrainerConflict));
    }
    if s[a].roomId == s[b].roomId {
      assert Genuine(s, d, Detection(a, b, RoomConflict));
      DetectedIsRecorded(s, trainings, Detection(a, b, RoomConflict));
    }
  }

  lemma {:induction false} DetectedIsRecorded(s: seq<ScheduledTraining>, trainings: seq<Training>, e: Detection)
    requires e in AllDetections(s, trainings)
    ensures Conflict(e.kind, s[e.i], s[e.j]) in AllConflicts(s, trainings)
  {
    var ds := AllDetections(s, trainings);
    var k :| 0 <= k < |ds| && ds[k] == e;
    RecordsAt(s, ds, k);
  }

  /**
   * The detector reports nothing exactly when no two sessions clash: no pair
   * shares a day, an overlapping time and a trainer or a room.
   */
  lemma {:induction false} ConflictFreeIff(s: seq<ScheduledTraining>, trainings: seq<Training>)
    ensures AllConflicts(s, trainings) == [] <==>
            forall a, b :: 0 <= a < b < |s| ==>
              !Clash(s[a], s[b], DurationOf(trainings, s[a]), DurationOf(trainings, s[b]))
  {
    if AllConflicts(s, trainings) != [] {
      RecordsAreClashes(s, trainings, 0);
    }
    forall a, b | 0 <= a < b < |s| && Clash(s[a], s[b], DurationOf(trainings, s[a]), DurationOf(trainings, s[b]))
      ensures AllConflicts(s, trainings) != []
    {
      FindsEveryClash(s, trainings, a, b);
    }
  }

  /** An empty schedule and a one-session schedule have no conflicts. */
  lemma ShortScheduleHasNoConflicts(s: seq<ScheduledTraining>, trainings: seq<Training>)
    requires |s| <= 1
    ensures AllConflicts(s, trainings) == []
  {
    ConflictFreeIff(s, trainings);
  }

  /** Two sessions on different days never conflict, whatever their trainer, room or slot. */
  lemma DifferentDaysNeverConflict(a: ScheduledTraining, b: ScheduledTraining, trainings: seq<Training>)
    requires a.day != b.day
    ensures AllConflicts([a, b], trainings) == []
  {
    ConflictFreeIff([a, b], trainings);
  }

  /** Two concurrent sessions yield exactly the records their shared resources call for, trainer first. */
  lemma ConcurrentPairRecords(a: ScheduledTraining, b: ScheduledTraining, trainings: seq<Training>)
    requires Concurrent(a, b, DurationOf(trainings, a), DurationOf(trainings, b))
    ensures AllConflicts([a, b], trainings) ==
            (if a.trainerId == b.trainerId then [Conflict(TrainerConflict, a, b)] else []) +
            (if a.roomId == b.roomId then [Conflict(RoomConflict, a, b)] else [])
  {
    var s := [a, b];
    var d := Durations(s, trainings);
    assert RowDetections(s, d, 1, 2) == [];
    assert RowDetections(s, d, 0, 2) == PairDetections(s, d, 0, 1);
    assert DetectionsUpTo(s, d, 1) == PairDetections(s, d, 0, 1);
    assert AllDetections(s, trainings) == PairDetections(s, d, 0, 1);
    PairRecords(s, d, 0, 1);
  }

  // ---------------------------------------------------------------------------
  // Order and number of the records

  /** Discovery order: ascending i, then ascending j, then `trainer` before `room`. */
  predicate Before(e: Detection, f: Detection)
  {
    e.i < f.i || (e.i == f.i && e.j < f.j) ||
    (e.i == f.i && e.j == f.j && e.kind == TrainerConflict && f.kind == RoomConflict)
  }

  /** Every record comes before every later one. */
  predicate StrictlyOrdered(ds: seq<Detection>)
  {
    forall k, l :: 0 <= k < l < |ds| ==> Before(ds[k], ds[l])
  }

  /** How many neighbouring records are out of order. */
  function Descents(ds: seq<Detection>): nat
  {
    if |ds| <= 1 then 0
    else Descents(ds[..|ds| - 1]) + (if Before(ds[|ds| - 2], ds[|ds| - 1]) then 0 else 1)
  }

  /** Every record comes before its successor. */
  predicate Chained(ds: seq<Detection>)
  {
    Descents(ds) == 0
  }

  lemma BeforeTransitive(a: Detection, b: Detection, c: Detection)
    requires Before(a, b) && Before(b, c)
    ensures Before(a, c)
  {
  }

  /** `Before` is transitive, so a chained list is ordered. */
  lemma {:induction false} ChainedOrdered(ds: seq<Detection>)
    requires Chained(ds)
    ensures StrictlyOrdered(ds)
  {
    if |ds| > 1 {
      var init := ds[..|ds| - 1];
      ChainedOrdered(init);
      forall k, l | 0 <= k < l < |ds|
        ensures Before(ds[k], ds[l])
      {
        if l < |ds| - 1 {
          assert init[k] == ds[k] && init[l] == ds[l];
        } else if k < |ds| - 2 {
          assert init[k] == ds[k] && init[|ds| - 2] == ds[|ds| - 2];
          BeforeTransitive(ds[k], ds[|ds| - 2], ds[l]);
        }
      }
    }
  }

  /** Two chained lists whose junction is in order concatenate to a chained list. */
  lemma {:induction false} ChainedJoin(ds: seq<Detection>, rs: seq<Detection>)
    requires Chained(ds) && Chained(rs)
    requires ds != [] && rs != [] ==> Before(ds[|ds| - 1], rs[0])
    ensures Chained(ds + rs)
  {
    if rs == [] {
      assert ds + rs == ds;
    } else {
      var init := rs[..|rs| - 1];
      assert (ds + rs)[..|ds + rs| - 1] == ds + init;
      if init != [] {
        assert init[0] == rs[0];
      }
      ChainedJoin(ds, init);
    }
  }

  /** Two chained lists, each of whose records comes before every record of the second, concatenate to a chained list. */
  lemma {:induction false} JoinSeparated(ds: seq<Detection>, rs: seq<Detection>, whole: seq<Detection>)
    requires Chained(ds) && Chained(rs)
    requires forall e, f :: e in ds && f in rs ==> Before(e, f)
    requires whole == ds + rs
    ensures Chained(whole)
  {
    if ds != [] && rs != [] {
      assert ds[|ds| - 1] in ds && rs[0] in rs;
    }
    ChainedJoin(ds, rs);
  }

  /** The records of one pair are in order: `trainer` before `room`. */
  lemma {:induction false} PairChained(s: seq<ScheduledTraining>, d: seq<int>, i: int, j: int)
    requires |d| == |s| && 0 <= i < j < |s|
    ensures Chained(PairDetections(s, d, i, j))
  {
  }

  /** Each row's records are in order. */
  lemma {:induction false} RowChained(s: seq<ScheduledTraining>, d: seq<int>, i: int, j: int)
    requires |d| == |s| && 0 <= i < j <= |s|
    ensures Chained(RowDetections(s, d, i, j))
    decreases j
  {
    if j > i + 1 {
      RowChained(s, d, i, j - 1);
      RowStep(s, d, i, j);
    }
  }

  lemma {:induction false} RowStep(s: seq<ScheduledTraining>, d: seq<int>, i: int, j: int)
    requires |d| == |s| && 0 <= i && i + 1 < j <= |s|
    requires Chained(RowDetections(s, d, i, j - 1))
    ensures Chained(RowDetections(s, d, i, j))
  {
    PairChained(s, d, i, j - 1);
    JoinSeparated(RowDetections(s, d, i, j - 1), PairDetections(s, d, i, j - 1), RowDetections(s, d, i, j));
  }

  /** The records of all rows below i are in order. */
  lemma {:induction false} UpToChained(s: seq<ScheduledTraining>, d: seq<int>, i: int)
    requires |d| == |s| && 0 <= i <= |s|
    ensures Chained(DetectionsUpTo(s, d, i))
  {
    var k := 0;
    while k < i
      invariant 0 <= k <= i
      invariant Chained(DetectionsUpTo(s, d, k))
    {
      RowChained(s, d, k, |s|);
      UpToStep(s, d, k);
      k := k + 1;
    }
  }

  lemma {:induction false} UpToStep(s: seq<ScheduledTraining>, d: seq<int>, i: int)
    requires |d| == |s| && 0 <= i < |s|
    requires Chained(DetectionsUpTo(s, d, i)) && Chained(RowDetections(s, d, i, |s|))
    ensures Chained(DetectionsUpTo(s, d, i + 1))
  {
    RowAfterUpTo(s, d, i);
    JoinSeparated(DetectionsUpTo(s, d, i), RowDetections(s, d, i, |s|), DetectionsUpTo(s, d, i + 1));
  }

  /** Every record of the earlier rows comes before every record of row i. */
  lemma {:induction false} RowAfterUpTo(s: seq<ScheduledTraining>, d: seq<int>, i: int)
    requires |d| == |s| && 0 <= i < |s|
    ensures forall e, f :: e in DetectionsUpTo(s, d, i) && f in RowDetections(s, d, i, |s|) ==> Before(e, f)
  {
  }

  /**
   * The records come in discovery order: ascending i, then ascending j, with a
   * pair's `trainer` record before its `room` record; no pair is reported twice
   * for one kind.
   */
  lemma {:induction false} DetectionOrder(s: seq<ScheduledTraining>, trainings: seq<Training>)
    ensures StrictlyOrdered(AllDetections(s, trainings))
  {
    UpToChained(s, Durations(s, trainings), |s|);
    ChainedOrdered(AllDetections(s, trainings));
  }

  lemma {:induction false} RowCount(s: seq<ScheduledTraining>, d: seq<int>, i: int, j: int)
    requires |d| == |s| && 0 <= i < j <= |s|
    ensures |RowDetections(s, d, i, j)| <= 2 * (j - i - 1)
    decreases j
  {
    if j > i + 1 {
      RowCount(s, d, i, j - 1);
    }
  }

  lemma {:induction false} UpToCount(s: seq<ScheduledTraining>, d: seq<int>, i: int)
    requires |d| == |s| && 0 <= i <= |s|
    ensures |DetectionsUpTo(s, d, i)| <= i * (2 * |s| - i - 1)
  {
    if i > 0 {
      UpToCount(s, d, i - 1);
      RowCount(s, d, i - 1, |s|);
      CountStep(i, |s|);
    }
  }

  lemma CountStep(i: int, n: int)
    ensures (i - 1) * (2 * n - (i - 1) - 1) + 2 * (n - i) == i * (2 * n - i - 1)
  {
  }

  /** At most two records per pair, so at most n·(n−1) records in all. */
  lemma {:induction false} ConflictCountBound(s: seq<ScheduledTraining>, trainings: seq<Training>)
    ensures |AllConflicts(s, trainings)| <= |s| * (|s| - 1)
  {
    UpToCount(s, Durations(s, trainings), |s|);
  }
}
