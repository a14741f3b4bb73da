/**
 * The crossover callback (src/genetic-scheduler.js:275-333). Sessions of the
 * two parents are matched by session id:
 *   - ids present in both parents with the same trainer, room, day and slot
 *     go, as the mother's session, to both children;
 *   - ids present in both with a difference are swapped by a coin flip;
 *   - ids present in only one parent are dropped.
 *
 * The coin `Math.random() < 0.5` drawn for a differing id is the argument
 * `heads`: `id in heads` means the mother's session goes to the first child.
 */
module Crossover {
  import opened Models

  /** The session ids of a schedule, position by position. */
  function SessionIds(s: seq<ScheduledTraining>): (r: seq<SessionId>)
    ensures |r| == |s|
    ensures forall k :: 0 <= k < |s| ==> r[k] == s[k].sessionId
  {
    seq(|s|, k requires 0 <= k < |s| => s[k].sessionId)
  }

  predicate Distinct(xs: seq<SessionId>)
  {
    forall i, j :: 0 <= i < j < |xs| ==> xs[i] != xs[j]
  }

  /**
   * The distinct elements of xs in the order of their first occurrence: the
   * key order of an object filled from xs, and the iteration order of
   * `new Set(xs)`.
   */
  function Dedup(xs: seq<SessionId>): (r: seq<SessionId>)
    ensures forall x :: x in r <==> x in xs
    ensures Distinct(r)
    ensures |r| <= |xs|
  {
    if xs == [] then []
    else
      var init := xs[..|xs| - 1];
      var x := xs[|xs| - 1];
      assert xs == init + [x];
      if x in init then Dedup(init) else Dedup(init) + [x]
  }

  /** `sessions[session.sessionId] = session` for every session in order: the last one with an id wins. */
  function Index(s: seq<ScheduledTraining>): (m: map<SessionId, ScheduledTraining>)
    ensures forall id :: id in m <==> id in SessionIds(s)
    ensures forall id :: id in m ==> m[id].sessionId == id && m[id] in s
  {
    if s == [] then map[]
    else
      var init := s[..|s| - 1];
      var last := s[|s| - 1];
      assert s == init + [last];
      assert SessionIds(s) == SessionIds(init) + [last.sessionId];
      Index(init)[last.sessionId := last]
  }

  /** `Object.keys(sessions)`: the session ids in order of first insertion. */
  function Ids(s: seq<ScheduledTraining>): seq<SessionId>
  {
    Dedup(SessionIds(s))
  }

  /** `new Set([...Object.keys(motherSessions), ...Object.keys(fatherSessions)])`. */
  function AllIds(mother: seq<ScheduledTraining>, father: seq<ScheduledTraining>): seq<SessionId>
  {
    Dedup(Ids(mother) + Ids(father))
  }

  /** Same trainer, room, day and start slot. */
  predicate SameSlot(a: ScheduledTraining, b: ScheduledTraining)
  {
    a.trainerId == b.trainerId && a.roomId == b.roomId && a.day == b.day && a.timeSlot == b.timeSlot
  }

  /** The ids among `ids`, in order, that both parents have. */
  function Shared(ids: seq<SessionId>, mi: map<SessionId, ScheduledTraining>, fi: map<SessionId, ScheduledTraining>)
    : (r: seq<SessionId>)
    ensures forall x :: x in r <==> x in ids && x in mi && x in fi
    ensures |r| <= |ids|
  {
    if ids == [] then []
    else
      var init := ids[..|ids| - 1];
      var x := ids[|ids| - 1];
      assert ids == init + [x];
      Shared(init, mi, fi) + (if x in mi && x in fi then [x] else [])
  }

  /** What the two children receive for one id that both parents have. */
  function Pick(m: ScheduledTraining, f: ScheduledTraining, heads: bool): (ScheduledTraining, ScheduledTraining)
  {
    if SameSlot(m, f) then (m, m)
    else if heads then (m, f)
    else (f, m)
  }

  /** The children built from the ids in order. */
  function Distribute(ids: seq<SessionId>, mi: map<SessionId, ScheduledTraining>,
                      fi: map<SessionId, ScheduledTraining>, heads: set<SessionId>)
    : (r: (seq<ScheduledTraining>, seq<ScheduledTraining>))
    ensures |r.0| == |Shared(ids, mi, fi)| && |r.1| == |Shared(ids, mi, fi)|
  {
    if ids == [] then ([], [])
    else
      var id := ids[|ids| - 1];
      var prev := Distribute(ids[..|ids| - 1], mi, fi, heads);
      if id in mi && id in fi then
        var p := Pick(mi[id], fi[id], id in heads);
        (prev.0 + [p.0], prev.1 + [p.1])
      else prev
  }

  /** The pair of children `crossover(mother, father)` returns for these coins. */
  function Crossed(mother: seq<ScheduledTraining>, father: seq<ScheduledTraining>, heads: set<SessionId>)
    : (seq<ScheduledTraining>, seq<ScheduledTraining>)
  {
    Distribute(AllIds(mother, father), Index(mother), Index(father), heads)
  }

  // ---------------------------------------------------------------------------
  // The callback as the source runs it

  /** A plain object keyed by session id: its keys in insertion order and its entries. */
  datatype Dictionary = Dictionary(keys: seq<SessionId>, entries: map<SessionId, ScheduledTraining>)

  /** `schedule.forEach(session => { sessions[session.sessionId] = session; })`. */
  method IndexSessions(schedule: seq<ScheduledTraining>) returns (sessions: Dictionary)
    ensures sessions.keys == Ids(schedule)
    ensures sessions.entries == Index(schedule)
  {
    sessions := Dictionary([], map[]);
    var k := 0;
    while k < |schedule|
      invariant 0 <= k <= |schedule|
      invariant sessions.keys == Ids(schedule[..k])
      invariant sessions.entries == Index(schedule[..k])
    {
      var session := schedule[k];
      IndexNext(schedule, k);
      var keys := if session.sessionId in sessions.entries then sessions.keys else sessions.keys + [session.sessionId];
      sessions := Dictionary(keys, sessions.entries[session.sessionId := session]);
      k := k + 1;
    }
    assert schedule[..k] == schedule;
  }

  /** One more session: its id is appended to the keys if new, and its entry is (over)written. */
  lemma IndexNext(schedule: seq<ScheduledTraining>, k: int)
    requires 0 <= k < |schedule|
    ensures var id := schedule[k].sessionId;
            Index(schedule[..k + 1]) == Index(schedule[..k])[id := schedule[k]] &&
            Ids(schedule[..k + 1]) ==
              if id in Index(schedule[..k]) then Ids(schedule[..k]) else Ids(schedule[..k]) + [id]
  {
    var p := schedule[..k + 1];
    assert p[..k] == schedule[..k];
    assert SessionIds(p)[..k] == SessionIds(schedule[..k]);
  }

  method Cross(mother: seq<ScheduledTraining>, father: seq<ScheduledTraining>, heads: set<SessionId>)
    returns (child1: seq<ScheduledTraining>, child2: seq<ScheduledTraining>)
    ensures (child1, child2) == Crossed(mother, father, heads)
  {
    var motherSessions := IndexSessions(mother);
    var fatherSessions := IndexSessions(father);
    var allSessionIds := Dedup(motherSessions.keys + fatherSessions.keys);
    child1, child2 := [], [];
    var k := 0;
    while k < |allSessionIds|
      invariant 0 <= k <= |allSessionIds|
      invariant (child1, child2) == Distribute(allSessionIds[..k], motherSessions.entries, fatherSessions.entries, heads)
    {
      var sessionId := allSessionIds[k];
      DistributeNext(allSessionIds, motherSessions.entries, fatherSessions.entries, heads, k);
      if sessionId in motherSessions.entries && sessionId in fatherSessions.entries {
        var motherSession := motherSessions.entries[sessionId];
        var fatherSession := fatherSessions.entries[sessionId];
        if SameSlot(motherSession, fatherSession) {
          child1 := child1 + [motherSession];
          child2 := child2 + [motherSession];
        } else if sessionId in heads {
          child1 := child1 + [motherSession];
          child2 := child2 + [fatherSession];
        } else {
          child1 := child1 + [fatherSession];
          child2 := child2 + [motherSession];
        }
      }
      k := k + 1;
    }
    PrefixAll(allSessionIds);
  }

  // ---------------------------------------------------------------------------
  // What the children are

  /**
   * Position k of the children holds the k-th shared id: the mother's session
   * in both children when the two agree on trainer, room, day and slot; the
   * mother's in one child and the father's in the other when they differ.
   */
  lemma {:induction false} DistributeAt(ids: seq<SessionId>, mi: map<SessionId, ScheduledTraining>,
                                        fi: map<SessionId, ScheduledTraining>, heads: set<SessionId>, k: int)
    requires 0 <= k < |Shared(ids, mi, fi)|
    ensures var id := Shared(ids, mi, fi)[k];
            var r := Distribute(ids, mi, fi, heads);
            id in mi && id in fi &&
            (SameSlot(mi[id], fi[id]) ==> r.0[k] == mi[id] && r.1[k] == mi[id]) &&
            (!SameSlot(mi[id], fi[id]) && id in heads ==> r.0[k] == mi[id] && r.1[k] == fi[id]) &&
            (!SameSlot(mi[id], fi[id]) && id !in heads ==> r.0[k] == fi[id] && r.1[k] == mi[id])
  {
    var init := ids[..|ids| - 1];
    var x := ids[|ids| - 1];
    if k < |Shared(init, mi, fi)| {
      DistributeAt(init, mi, fi, heads, k);
    } else {
      assert x in mi && x in fi;
    }
  }

  /** Children have the ids `Shared` lists, in that order. */
  lemma {:induction false} DistributeIds(ids: seq<SessionId>, mi: map<SessionId, ScheduledTraining>,
                                         fi: map<SessionId, ScheduledTraining>, heads: set<SessionId>)
    requires forall id :: id in mi ==> mi[id].sessionId == id
    requires forall id :: id in fi ==> fi[id].sessionId == id
    ensures SessionIds(Distribute(ids, mi, fi, heads).0) == Shared(ids, mi, fi)
    ensures SessionIds(Distribute(ids, mi, fi, heads).1) == Shared(ids, mi, fi)
  {
    var r := Distribute(ids, mi, fi, heads);
    var sh := Shared(ids, mi, fi);
    forall k | 0 <= k < |sh|
      ensures r.0[k].sessionId == sh[k] && r.1[k].sessionId == sh[k]
    {
      DistributeAt(ids, mi, fi, heads, k);
    }
  }

  /** Both children have the same length. */
  lemma ChildrenSameLength(mother: seq<ScheduledTraining>, father: seq<ScheduledTraining>, heads: set<SessionId>)
    ensures |Crossed(mother, father, heads).0| == |Crossed(mother, father, heads).1|
    ensures |Crossed(mother, father, heads).0| <= |mother| + |father|
  {
  }

  /**
   * Complementarity: at every position both children carry the same id, an id
   * of both parents; an agreeing session is copied to both children, a
   * differing one goes as the mother's to one child and the father's to the other.
   */
  lemma CrossoverAt(mother: seq<ScheduledTraining>, father: seq<ScheduledTraining>, heads: set<SessionId>, k: int)
    requires 0 <= k < |Crossed(mother, father, heads).0|
    ensures var c := Crossed(mother, father, heads);
            var id := c.0[k].sessionId;
            c.1[k].sessionId == id && id in Index(mother) && id in Index(father) &&
            (SameSlot(Index(mother)[id], Index(father)[id]) ==>
               c.0[k] == Index(mother)[id] && c.1[k] == Index(mother)[id]) &&
            (!SameSlot(Index(mother)[id], Index(father)[id]) ==>
               (c.0[k] == Index(mother)[id] && c.1[k] == Index(father)[id]) ||
               (c.0[k] == Index(father)[id] && c.1[k] == Index(mother)[id]))
  {
    var ids := AllIds(mother, father);
    DistributeAt(ids, Index(mother), Index(father), heads, k);
  }

  /**
   * Every child session is a session of the mother or of the father, so
   * children of schedules whose trainings are all found keep that property.
   */
  lemma CrossoverKeepsKnown(mother: seq<ScheduledTraining>, father: seq<ScheduledTraining>,
                            heads: set<SessionId>, trainings: seq<Training>)
    requires Known(mother, trainings) && Known(father, trainings)
    ensures Known(Crossed(mother, father, heads).0, trainings)
    ensures Known(Crossed(mother, father, heads).1, trainings)
  {
    var c := Crossed(mother, father, heads);
    ChildrenSameLength(mother, father, heads);
    forall k | 0 <= k < |c.0|
      ensures FindTraining(trainings, c.0[k].trainingId).Some?
      ensures FindTraining(trainings, c.1[k].trainingId).Some?
    {
      CrossoverAt(mother, father, heads, k);
      var id := c.0[k].sessionId;
      KnownMember(mother, trainings, Index(mother)[id]);
      KnownMember(father, trainings, Index(father)[id]);
    }
  }

  /** A session of a schedule whose trainings are all found has its training found. */
  lemma KnownMember(s: seq<ScheduledTraining>, trainings: seq<Training>, x: ScheduledTraining)
    requires Known(s, trainings) && x in s
    ensures FindTraining(trainings, x.trainingId).Some?
  {
    var j :| 0 <= j < |s| && s[j] == x;
  }

  /** Every child session has an id found in both parents; ids in only one parent are dropped. */
  lemma ChildIdsInBothParents(mother: seq<ScheduledTraining>, father: seq<ScheduledTraining>, heads: set<SessionId>)
    ensures forall id :: id in SessionIds(Crossed(mother, father, heads).0) <==>
                         id in SessionIds(mother) && id in SessionIds(father)
    ensures SessionIds(Crossed(mother, father, heads).1) == SessionIds(Crossed(mother, father, heads).0)
  {
    DistributeIds(AllIds(mother, father), Index(mother), Index(father), heads);
  }

  /** Filtering distributes over concatenation. */
  lemma {:induction false} SharedAppend(a: seq<SessionId>, b: seq<SessionId>,
                                        mi: map<SessionId, ScheduledTraining>, fi: map<SessionId, ScheduledTraining>)
    ensures Shared(a + b, mi, fi) == Shared(a, mi, fi) + Shared(b, mi, fi)
  {
    if b == [] {
      assert a + b == a;
    } else {
      var init := b[..|b| - 1];
      assert (a + b)[..|a + b| - 1] == a + init;
      assert (a + b)[|a + b| - 1] == b[|b| - 1];
      SharedAppend(a, init, mi, fi);
    }
  }

  /** A list without repetitions is its own first-occurrence list. */
  lemma {:induction false} DedupDistinct(xs: seq<SessionId>)
    requires Distinct(xs)
    ensures Dedup(xs) == xs
  {
    if xs != [] {
      var init := xs[..|xs| - 1];
      assert Distinct(init);
      DedupDistinct(init);
      assert xs[|xs| - 1] !in init;
      assert xs == init + [xs[|xs| - 1]];
    }
  }

  /** Appending ids whose keys are only in the father's object does not change which ids are shared. */
  lemma {:induction false} SharedIgnoresLaterIds(a: seq<SessionId>, b: seq<SessionId>,
                                                 mi: map<SessionId, ScheduledTraining>,
                                                 fi: map<SessionId, ScheduledTraining>)
    requires Distinct(a)
    requires forall id :: id in mi ==> id in a
    ensures Shared(Dedup(a + b), mi, fi) == Shared(a, mi, fi)
  {
    if b == [] {
      assert a + b == a;
      DedupDistinct(a);
    } else {
      var init := b[..|b| - 1];
      var x := b[|b| - 1];
      assert (a + b)[..|a + b| - 1] == a + init;
      assert (a + b)[|a + b| - 1] == x;
      SharedIgnoresLaterIds(a, init, mi, fi);
      if x !in a + init {
        SharedAppend(Dedup(a + init), [x], mi, fi);
        assert x !in mi;
      }
    }
  }

  /**
   * The children's ids are the mother's ids, in the order they first occur in
   * the mother, restricted to those the father also has.
   */
  lemma ChildrenFollowMotherOrder(mother: seq<ScheduledTraining>, father: seq<ScheduledTraining>, heads: set<SessionId>)
    ensures SessionIds(Crossed(mother, father, heads).0) == Shared(Ids(mother), Index(mother), Index(father))
    ensures SessionIds(Crossed(mother, father, heads).1) == Shared(Ids(mother), Index(mother), Index(father))
  {
    DistributeIds(AllIds(mother, father), Index(mother), Index(father), heads);
    SharedIgnoresLaterIds(Ids(mother), Ids(father), Index(mother), Index(father));
  }

  /** With unique ids, the index maps every session's id back to it. */
  lemma {:induction false} IndexUnique(s: seq<ScheduledTraining>, k: int)
    requires Distinct(SessionIds(s)) && 0 <= k < |s|
    ensures Index(s)[s[k].sessionId] == s[k]
  {
    var init := s[..|s| - 1];
    assert SessionIds(init) == SessionIds(s)[..|s| - 1];
    if k < |s| - 1 {
      IndexUnique(init, k);
      assert s[k].sessionId != s[|s| - 1].sessionId by {
        assert SessionIds(s)[k] != SessionIds(s)[|s| - 1];
      }
    }
  }

  /** Crossing a schedule with itself, when the index maps every id back to its session, hands its first n sessions to both children. */
  lemma {:induction false} SelfDistribute(a: seq<ScheduledTraining>, mi: map<SessionId, ScheduledTraining>,
                                          heads: set<SessionId>, n: int)
    requires forall k :: 0 <= k < |a| ==> a[k].sessionId in mi && mi[a[k].sessionId] == a[k]
    requires 0 <= n <= |a|
    ensures Distribute(SessionIds(a)[..n], mi, mi, heads) == (a[..n], a[..n])
  {
    if n > 0 {
      SelfDistribute(a, mi, heads, n - 1);
      DistributeNext(SessionIds(a), mi, mi, heads, n - 1);
      PrefixSnoc(a, n);
    }
  }

  /** The children of the first k + 1 ids extend those of the first k by what id k contributes. */
  lemma DistributeNext(ids: seq<SessionId>, mi: map<SessionId, ScheduledTraining>,
                       fi: map<SessionId, ScheduledTraining>, heads: set<SessionId>, k: int)
    requires 0 <= k < |ids|
    ensures var id := ids[k];
            var prev := Distribute(ids[..k], mi, fi, heads);
            Distribute(ids[..k + 1], mi, fi, heads) ==
              if id in mi && id in fi then
                var p := Pick(mi[id], fi[id], id in heads);
                (prev.0 + [p.0], prev.1 + [p.1])
              else prev
  {
    PrefixOfPrefix(ids, k);
  }

  /** `crossover(A, A)` returns `[A, A]` when the session ids of A are unique. */
  lemma SelfCrossover(a: seq<ScheduledTraining>, heads: set<SessionId>)
    requires Distinct(SessionIds(a))
    ensures Crossed(a, a, heads) == (a, a)
  {
    SelfIds(a);
    IndexRecovers(a);
    SelfDistributeAll(a, Index(a), heads);
  }

  lemma SelfDistributeAll(a: seq<ScheduledTraining>, mi: map<SessionId, ScheduledTraining>, heads: set<SessionId>)
    requires forall k :: 0 <= k < |a| ==> a[k].sessionId in mi && mi[a[k].sessionId] == a[k]
    ensures Distribute(SessionIds(a), mi, mi, heads) == (a, a)
  {
    SelfDistribute(a, mi, heads, |a|);
    PrefixAll(SessionIds(a));
    PrefixAll(a);
  }

  /** With unique ids, the ids of `crossover(A, A)` are A's ids in A's order. */
  lemma SelfIds(a: seq<ScheduledTraining>)
    requires Distinct(SessionIds(a))
    ensures AllIds(a, a) == SessionIds(a)
  {
    var ids := SessionIds(a);
    DedupDistinct(ids);
    DedupAbsorb(ids, ids);
  }

  /** With unique ids, the index maps the id of every session to that session. */
  lemma IndexRecovers(a: seq<ScheduledTraining>)
    requires Distinct(SessionIds(a))
    ensures forall k :: 0 <= k < |a| ==> a[k].sessionId in Index(a) && Index(a)[a[k].sessionId] == a[k]
  {
    forall k | 0 <= k < |a| {
      IndexUnique(a, k);
    }
  }

  /** Appending elements that are already present changes nothing. */
  lemma {:induction false} DedupAbsorb(a: seq<SessionId>, b: seq<SessionId>)
    requires forall x :: x in b ==> x in a
    ensures Dedup(a + b) == Dedup(a)
  {
    if b == [] {
      assert a + b == a;
    } else {
      var init := b[..|b| - 1];
      assert (a + b)[..|a + b| - 1] == a + init;
      assert (a + b)[|a + b| - 1] == b[|b| - 1];
      assert b[|b| - 1] in b;
      DedupAbsorb(a, init);
    }
  }
}
