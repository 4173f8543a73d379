/**
 * The learner's progress store: five collections (completed challenges, the
 * score of each completed challenge, completed lessons, completed sub-lessons
 * and per-lesson reading progress) with idempotent add/remove operations,
 * parent-lesson auto-completion, and the module score queries.
 *
 * Each operation is modelled as one sequential update of the store's fields;
 * writing the fields to the browser's storage and reading them back is not
 * modelled.
 */
module Progress {
  import opened Strings
  import Challenges

  datatype LessonProgress = LessonProgress(scrollProgress: int, challengesCompleted: seq<string>)

  /** `Partial<LessonProgress>`: only the fields that are present overwrite. */
  datatype ProgressPatch = ProgressPatch(scrollProgress: Option<int>, challengesCompleted: Option<seq<string>>)

  const DefaultLessonProgress := LessonProgress(0, [])

  /** `{ ...current, ...patch }` */
  function Merge(current: LessonProgress, patch: ProgressPatch): (r: LessonProgress)
    ensures r.scrollProgress == if patch.scrollProgress.Some? then patch.scrollProgress.value
                                else current.scrollProgress
    ensures r.challengesCompleted == if patch.challengesCompleted.Some? then patch.challengesCompleted.value
                                     else current.challengesCompleted
  {
    LessonProgress(
      if patch.scrollProgress.Some? then patch.scrollProgress.value else current.scrollProgress,
      if patch.challengesCompleted.Some? then patch.challengesCompleted.value else current.challengesCompleted)
  }

  predicate NoDuplicates(s: seq<string>)
  {
    forall i, j :: 0 <= i < j < |s| ==> s[i] != s[j]
  }

  /** In a list free of duplicates, an entry occurs once or not at all. */
  lemma {:induction false} NoDuplicatesCount(s: seq<string>, x: string)
    requires NoDuplicates(s)
    ensures x in s <==> multiset(s)[x] == 1
    ensures x !in s <==> multiset(s)[x] == 0
  {
    if s != [] {
      assert s == [s[0]] + s[1..];
      assert NoDuplicates(s[1..]) by {
        forall i, j | 0 <= i < j < |s[1..]| ensures s[1..][i] != s[1..][j] {
          assert s[1..][i] == s[i + 1] && s[1..][j] == s[j + 1];
        }
      }
      NoDuplicatesCount(s[1..], x);
      if s[0] == x {
        assert x !in s[1..] by {
          forall k | 0 <= k < |s[1..]| ensures s[1..][k] != x {
            assert s[1..][k] == s[k + 1];
          }
        }
      }
    }
  }

  /** `list.filter(id => id !== x)` */
  function Without(s: seq<string>, x: string): (r: seq<string>)
    ensures x !in r
    ensures forall y :: y != x ==> (y in r <==> y in s)
    ensures |r| <= |s|
  {
    if s == [] then []
    else (if s[0] == x then [] else [s[0]]) + Without(s[1..], x)
  }

  /** Removing keeps a list free of duplicates. */
  lemma {:induction false} WithoutKeepsNoDuplicates(s: seq<string>, x: string)
    requires NoDuplicates(s)
    ensures NoDuplicates(Without(s, x))
  {
    if s != [] {
      WithoutKeepsNoDuplicates(s[1..], x);
      var rest := Without(s[1..], x);
      var r := Without(s, x);
      if s[0] != x {
        assert r == [s[0]] + rest;
        assert s[0] !in s[1..];
        assert s[0] !in rest;
        forall i, j | 0 <= i < j < |r| ensures r[i] != r[j] {
          if i == 0 {
            assert r[j] == rest[j - 1];
            assert r[j] in rest;
          } else {
            assert r[i] == rest[i - 1] && r[j] == rest[j - 1];
          }
        }
      }
    }
  }

  /** `[...list, x]` unless `list.includes(x)` */
  function Adjoin(s: seq<string>, x: string): (r: seq<string>)
    ensures x in r
    ensures forall y :: y in r <==> y in s || y == x
    ensures NoDuplicates(s) ==> NoDuplicates(r)
  {
    if x in s then s else s + [x]
  }

  /** The sum of a score map's values, `Object.values(m).reduce((a, b) => a + b, 0)`;
      the sum does not depend on the order the values are visited in. */
  ghost function MapSum(m: map<string, int>): int
    decreases |m|
  {
    if m == map[] then 0
    else
      var k :| k in m;
      m[k] + MapSum(m - {k})
  }

  /** Non-negative values sum to a non-negative score. */
  lemma {:induction false} MapSumNonNegative(m: map<string, int>)
    requires forall k :: k in m ==> m[k] >= 0
    ensures MapSum(m) >= 0
    decreases |m|
  {
    if m != map[] {
      var k :| k in m;
      MapSumRemove(m, k);
      MapSumNonNegative(m - {k});
    }
  }

  /** Any key can be taken out first. */
  lemma {:induction false} MapSumRemove(m: map<string, int>, k: string)
    requires k in m
    ensures MapSum(m) == m[k] + MapSum(m - {k})
    decreases |m|
  {
    var k' :| k' in m && MapSum(m) == m[k'] + MapSum(m - {k'});
    if k' != k {
      var m1, m2 := m - {k'}, m - {k};
      assert |m1| == |m| - 1 && |m2| == |m| - 1;
      MapSumRemove(m1, k);
      MapSumRemove(m2, k');
      assert m1 - {k} == m2 - {k'};
    }
  }

  /** Adding a new key adds its value to the sum. */
  lemma MapSumAdd(m: map<string, int>, k: string, v: int)
    requires k !in m
    ensures MapSum(m[k := v]) == MapSum(m) + v
  {
    MapSumRemove(m[k := v], k);
    assert m[k := v] - {k} == m;
  }

  /** `challenges.find(c => c.id === id)?.points || 0` */
  function FindPoints(catalogue: seq<Challenges.Challenge>, id: string): (p: int)
    ensures (forall i :: 0 <= i < |catalogue| ==> catalogue[i].id != id) ==> p == 0
    ensures p != 0 ==> exists i :: 0 <= i < |catalogue| && catalogue[i].id == id && catalogue[i].points == p
    ensures forall i :: 0 <= i < |catalogue| && catalogue[i].id == id && (forall j :: 0 <= j < i ==> catalogue[j].id != id) ==>
              p == catalogue[i].points
  {
    if catalogue == [] then 0
    else if catalogue[0].id == id then catalogue[0].points
    else
      var p := FindPoints(catalogue[1..], id);
      assert p != 0 ==> exists i :: 0 < i < |catalogue| && catalogue[i].id == id && catalogue[i].points == p by {
        if p != 0 {
          var i :| 0 <= i < |catalogue| - 1 && catalogue[1..][i].id == id && catalogue[1..][i].points == p;
          assert catalogue[i + 1] == catalogue[1..][i];
        }
      }
      assert forall i :: 0 < i < |catalogue| && catalogue[i].id == id && (forall j :: 0 <= j < i ==> catalogue[j].id != id) ==>
               p == catalogue[i].points by {
        forall i | 0 < i < |catalogue| && catalogue[i].id == id && (forall j :: 0 <= j < i ==> catalogue[j].id != id)
          ensures p == catalogue[i].points
        {
          var tail := catalogue[1..];
          assert tail[i - 1] == catalogue[i];
          forall j | 0 <= j < i - 1 ensures tail[j].id != id {
            assert tail[j] == catalogue[j + 1];
          }
        }
      }
      p
  }

  /** The module-to-challenge-id table of `getModuleScore` and
      `getModuleMaxPoints`. */
  const ModuleChallengeIds: map<string, seq<string>> := map[
    "basics" := ["b-01", "b-02", "b-03", "b-04", "b-05", "b-06", "b-07", "b-08"],
    "typescript-to-go" := ["tsg-01", "tsg-02", "tsg-03", "tsg-04", "tsg-05", "tsg-06", "tsg-07"],
    "quirks" := ["q-01", "q-02", "q-03"],
    "gc" := ["gc-01", "gc-02", "gc-03"],
    "concurrency" := ["c-01", "c-02", "c-03", "c-04", "c-05"],
    "parallelism" := ["p-01", "p-02"],
    "testing" := ["t-01", "t-02", "t-03", "t-04"],
    "webservices" := ["w-01", "w-02", "w-03"],
    "stdlib" := ["s-01", "s-02", "s-03"],
    "gin" := ["gin-01", "gin-02", "gin-03", "gin-04"],
    "echo" := ["echo-01", "echo-02", "echo-03", "echo-04"],
    "fiber" := ["fiber-01", "fiber-02", "fiber-03", "fiber-04"],
    "chi" := ["chi-01", "chi-02", "chi-03", "chi-04"],
    "db-tools" := ["pkg-02", "pkg-03"],
    "polish" := ["pol-01", "pol-02", "pol-03"]
  ]

  /** `moduleLessonMap[moduleId] || []` */
  function ModuleIds(moduleId: string): (ids: seq<string>)
    ensures moduleId !in ModuleChallengeIds ==> ids == []
  {
    if moduleId in ModuleChallengeIds then ModuleChallengeIds[moduleId] else []
  }

  /** With nothing completed, nothing is earned. */
  lemma {:induction false} EarnedNothing(catalogue: seq<Challenges.Challenge>, ids: seq<string>)
    ensures EarnedPoints(catalogue, ids, []) == 0
  {
    if ids != [] {
      EarnedNothing(catalogue, ids[1..]);
    }
  }

  /** The `reduce` of `getModuleScore`: catalogue points of the listed ids
      that are completed. */
  function EarnedPoints(catalogue: seq<Challenges.Challenge>, ids: seq<string>, completed: seq<string>): int
  {
    if ids == [] then 0
    else (if ids[0] in completed then FindPoints(catalogue, ids[0]) else 0)
         + EarnedPoints(catalogue, ids[1..], completed)
  }

  /** The `reduce` of `getModuleMaxPoints`: catalogue points of the listed ids. */
  function AvailablePoints(catalogue: seq<Challenges.Challenge>, ids: seq<string>): int
  {
    if ids == [] then 0
    else FindPoints(catalogue, ids[0]) + AvailablePoints(catalogue, ids[1..])
  }

  predicate NonNegativePoints(catalogue: seq<Challenges.Challenge>)
  {
    forall i :: 0 <= i < |catalogue| ==> catalogue[i].points >= 0
  }

  /** Earned points never exceed the available ones, and reach them once
      every listed challenge is completed. */
  lemma {:induction false} EarnedAtMostAvailable(catalogue: seq<Challenges.Challenge>, ids: seq<string>, completed: seq<string>)
    requires NonNegativePoints(catalogue)
    ensures 0 <= EarnedPoints(catalogue, ids, completed) <= AvailablePoints(catalogue, ids)
    ensures (forall id :: id in ids ==> id in completed) ==>
              EarnedPoints(catalogue, ids, completed) == AvailablePoints(catalogue, ids)
  {
    if ids != [] {
      EarnedAtMostAvailable(catalogue, ids[1..], completed);
      var p := FindPoints(catalogue, ids[0]);
      assert p >= 0;
      assert (forall id :: id in ids ==> id in completed) ==> (forall id :: id in ids[1..] ==> id in completed);
    }
  }

  /** One sub-lesson group: the sub-lesson slugs and the parent it belongs to. */
  datatype SubLessonGroup = SubLessonGroup(members: seq<string>, parentId: string)

  const SubLessonGroups: seq<SubLessonGroup> := [
    SubLessonGroup(["basic-types", "type-conversion", "custom-types"], "basics-02"),
    SubLessonGroup(["function-declarations", "multiple-returns", "variadic-functions"], "basics-03"),
    SubLessonGroup(["if-else", "switch-statements", "loops"], "basics-04"),
    SubLessonGroup(["package-declaration", "import-statements", "init-functions"], "basics-05"),
    SubLessonGroup(["error-values", "error-wrapping", "custom-errors"], "ts-go-03"),
    SubLessonGroup(["defer-statements", "panic-recover", "defer-patterns"], "quirks-03"),
    SubLessonGroup(["memory-optimization", "object-pooling", "memory-profiling"], "gc-03"),
    SubLessonGroup(["basic-select", "select-timeouts", "channel-patterns"], "conc-03"),
    SubLessonGroup(["waitgroup-basics", "mutex-patterns", "rw-mutex"], "par-01"),
    SubLessonGroup(["benchmark-basics", "benchmark-examples", "profiling-benchmarks"], "test-03"),
    SubLessonGroup(["middleware-pattern", "common-middleware", "middleware-third-party"], "web-03"),
    SubLessonGroup(["json-encoding", "xml-toml", "gob-encoding"], "stdlib-02"),
    SubLessonGroup(["http-client", "context-basics", "context-advanced"], "stdlib-03"),
    SubLessonGroup(["cpu-profiling", "memory-profiling-p", "pprof-tool"], "polish-01"),
    SubLessonGroup(["docker-basics", "multistage-builds", "cicd-integration"], "polish-03")
  ]

  /** The index of the first group at or after `i` that lists `sub`. */
  function FirstGroup(groups: seq<SubLessonGroup>, sub: string, i: nat): (g: Option<nat>)
    requires i <= |groups|
    ensures g.Some? ==> i <= g.value < |groups| && sub in groups[g.value].members
    ensures forall j :: i <= j < |groups| && (g.None? || j < g.value) ==> sub !in groups[j].members
    decreases |groups| - i
  {
    if i == |groups| then None
    else if sub in groups[i].members then Some(i)
    else FirstGroup(groups, sub, i + 1)
  }

  /** The loop's verdict: the first group listing `sub` is entirely in `done`.
      A sub-lesson in no group never completes a parent. */
  predicate GroupDone(groups: seq<SubLessonGroup>, sub: string, done: seq<string>)
  {
    match FirstGroup(groups, sub, 0)
    case None => false
    case Some(g) => forall sl :: sl in groups[g].members ==> sl in done
  }

  /** The group verdict holds exactly when some group lists `sub`, and the
      first such group is complete; in particular `sub` itself is done. */
  lemma GroupDoneMeans(groups: seq<SubLessonGroup>, sub: string, done: seq<string>)
    ensures GroupDone(groups, sub, done) ==> sub in done
    ensures GroupDone(groups, sub, done) <==>
              exists g :: 0 <= g < |groups| && sub in groups[g].members
                          && (forall j :: 0 <= j < g ==> sub !in groups[j].members)
                          && (forall sl :: sl in groups[g].members ==> sl in done)
  {
    var f := FirstGroup(groups, sub, 0);
    if f.Some? && forall sl :: sl in groups[f.value].members ==> sl in done {
      assert sub in groups[f.value].members;
    }
    if exists g :: 0 <= g < |groups| && sub in groups[g].members
                   && (forall j :: 0 <= j < g ==> sub !in groups[j].members)
                   && (forall sl :: sl in groups[g].members ==> sl in done) {
      var g :| 0 <= g < |groups| && sub in groups[g].members
               && (forall j :: 0 <= j < g ==> sub !in groups[j].members)
               && (forall sl :: sl in groups[g].members ==> sl in done);
      assert f.Some? && f.value == g;
    }
  }

  /** The `for ... of` loop of `completeSubLesson`: the first group that
      lists `sub` decides, and the loop stops there. */
  method ParentComplete(groups: seq<SubLessonGroup>, sub: string, done: seq<string>)
    returns (parentComplete: bool)
    ensures parentComplete == GroupDone(groups, sub, done)
  {
    parentComplete := false;
    var i := 0;
    while i < |groups|
      invariant 0 <= i <= |groups|
      invariant FirstGroup(groups, sub, 0) == FirstGroup(groups, sub, i)
      invariant !parentComplete
    {
      if sub in groups[i].members {
        parentComplete := forall sl <- groups[i].members :: sl in done;
        break;
      }
      i := i + 1;
    }
  }

  /** The completed lessons after `completeSubLesson(sub, parent)` (with ""
      for an absent parent), given the lessons before and the sub-lessons
      after it: the parent is added once, when the first group listing the
      sub-lesson is complete. */
  function LessonsAfterSubLesson(lessons: seq<string>, parentLessonId: string, subLessonId: string, subs: seq<string>)
    : (r: seq<string>)
    ensures r == lessons || (parentLessonId !in lessons && r == lessons + [parentLessonId])
    ensures parentLessonId in r <==>
              parentLessonId in lessons || (parentLessonId != "" && GroupDone(SubLessonGroups, subLessonId, subs))
    ensures NoDuplicates(lessons) ==> NoDuplicates(r)
  {
    if parentLessonId != "" && parentLessonId !in lessons && GroupDone(SubLessonGroups, subLessonId, subs)
    then lessons + [parentLessonId]
    else lessons
  }

  class ProgressStore {
    var completedChallenges: seq<string>
    var lessonScores: map<string, int>
    var completedLessons: seq<string>
    var completedSubLessons: seq<string>
    var lessonProgress: map<string, LessonProgress>

    /** What the operations keep, starting from the empty store: the score
        map's keys are exactly the completed challenges, and no list repeats
        an entry. */
    ghost predicate Valid()
      reads this
    {
      && NoDuplicates(completedChallenges)
      && (forall id :: id in lessonScores <==> id in completedChallenges)
      && NoDuplicates(completedLessons)
      && NoDuplicates(completedSubLessons)
    }

    constructor ()
      ensures Valid()
      ensures completedChallenges == [] && lessonScores == map[] && completedLessons == []
      ensures completedSubLessons == [] && lessonProgress == map[]
    {
      completedChallenges := [];
      lessonScores := map[];
      completedLessons := [];
      completedSubLessons := [];
      lessonProgress := map[];
    }

    /** `score`: 0 for the empty store, and never negative while every
        recorded score is non-negative. */
    ghost function Score(): (r: int)
      reads this
      ensures lessonScores == map[] ==> r == 0
      ensures (forall k :: k in lessonScores ==> lessonScores[k] >= 0) ==> r >= 0
    {
      assert (forall k :: k in lessonScores ==> lessonScores[k] >= 0) ==> MapSum(lessonScores) >= 0 by {
        if forall k :: k in lessonScores ==> lessonScores[k] >= 0 {
          MapSumNonNegative(lessonScores);
        }
      }
      MapSum(lessonScores)
    }

    /** `completeChallenge(challengeId, points)` */
    method CompleteChallenge(challengeId: string, points: int)
      modifies this
      ensures challengeId in old(completedChallenges) ==>
                completedChallenges == old(completedChallenges) && lessonScores == old(lessonScores)
      ensures challengeId !in old(completedChallenges) ==>
                completedChallenges == old(completedChallenges) + [challengeId]
                && lessonScores == old(lessonScores)[challengeId := points]
      ensures completedLessons == old(completedLessons) && completedSubLessons == old(completedSubLessons)
      ensures lessonProgress == old(lessonProgress)
      ensures old(Valid()) ==> Valid()
      ensures old(Valid()) && challengeId !in old(completedChallenges) ==> Score() == old(Score()) + points
      ensures challengeId in completedChallenges
    {
      if challengeId !in completedChallenges {
        if Valid() {
          assert challengeId !in lessonScores;
          MapSumAdd(lessonScores, challengeId, points);
        }
        completedChallenges := completedChallenges + [challengeId];
        lessonScores := lessonScores[challengeId := points];
      }
    }

    /** `uncompleteChallenge(challengeId)` */
    method UncompleteChallenge(challengeId: string)
      modifies this
      ensures challengeId !in old(completedChallenges) ==>
                completedChallenges == old(completedChallenges) && lessonScores == old(lessonScores)
      ensures challengeId in old(completedChallenges) ==>
                completedChallenges == Without(old(completedChallenges), challengeId)
                && lessonScores == old(lessonScores) - {challengeId}
      ensures completedLessons == old(completedLessons) && completedSubLessons == old(completedSubLessons)
      ensures lessonProgress == old(lessonProgress)
      ensures old(Valid()) ==> Valid()
      ensures old(Valid()) && challengeId in old(completedChallenges) ==>
                Score() == old(Score()) - old(lessonScores)[challengeId]
      ensures challengeId !in completedChallenges
    {
      if challengeId in completedChallenges {
        if Valid() {
          MapSumRemove(lessonScores, challengeId);
          WithoutKeepsNoDuplicates(completedChallenges, challengeId);
        }
        completedChallenges := Without(completedChallenges, challengeId);
        lessonScores := lessonScores - {challengeId};
      }
    }

    /** `completeLesson(lessonId)` */
    method CompleteLesson(lessonId: string)
      modifies this`completedLessons
      ensures completedLessons == Adjoin(old(completedLessons), lessonId)
    {
      if lessonId !in completedLessons {
        completedLessons := completedLessons + [lessonId];
      }
    }

    /** `uncompleteLesson(lessonId)` */
    method UncompleteLesson(lessonId: string)
      modifies this`completedLessons
      ensures completedLessons == if lessonId in old(completedLessons) then Without(old(completedLessons), lessonId)
                                  else old(completedLessons)
    {
      if lessonId in completedLessons {
        completedLessons := Without(completedLessons, lessonId);
      }
    }

    /** `uncompleteSubLesson(subLessonId)` */
    method UncompleteSubLesson(subLessonId: string)
      modifies this`completedSubLessons
      ensures completedSubLessons == if subLessonId in old(completedSubLessons)
                                     then Without(old(completedSubLessons), subLessonId)
                                     else old(completedSubLessons)
    {
      if subLessonId in completedSubLessons {
        completedSubLessons := Without(completedSubLessons, subLessonId);
      }
    }

    /** `resetAllProgress()` */
    method ResetAllProgress()
      modifies this
      ensures completedChallenges == [] && lessonScores == map[] && completedLessons == []
      ensures completedSubLessons == [] && lessonProgress == map[]
      ensures Valid() && Score() == 0
    {
      completedChallenges := [];
      lessonScores := map[];
      completedLessons := [];
      completedSubLessons := [];
      lessonProgress := map[];
    }

    /** `completeSubLesson(subLessonId, parentLessonId)`, with "" for an
        absent parent: the sub-lesson is recorded once, and the parent is
        recorded when the first group listing the sub-lesson is now complete.
        The group's own `parentId` is not consulted. */
    method CompleteSubLesson(subLessonId: string, parentLessonId: string)
      modifies this
      ensures completedSubLessons == Adjoin(old(completedSubLessons), subLessonId)
      ensures completedLessons ==
                LessonsAfterSubLesson(old(completedLessons), parentLessonId, subLessonId, completedSubLessons)
      ensures completedChallenges == old(completedChallenges) && lessonScores == old(lessonScores)
      ensures lessonProgress == old(lessonProgress)
      ensures old(Valid()) ==> Valid()
    {
      var newCompleted := completedSubLessons;
      if subLessonId !in completedSubLessons {
        newCompleted := completedSubLessons + [subLessonId];
        completedSubLessons := newCompleted;
      }
      if parentLessonId != "" && parentLessonId !in completedLessons {
        var parentComplete := ParentComplete(SubLessonGroups, subLessonId, newCompleted);
        if parentComplete && parentLessonId !in completedLessons {
          completedLessons := completedLessons + [parentLessonId];
        }
      }
    }

    /** `isChallengeCompleted(id)`: a completed challenge is exactly one
        with a recorded score. */
    predicate IsChallengeCompleted(challengeId: string): (b: bool)
      reads this
      ensures Valid() ==> (b <==> challengeId in lessonScores)
    {
      challengeId in completedChallenges
    }

    /** `isLessonCompleted(id)`: a completed lesson is recorded exactly once. */
    predicate IsLessonCompleted(lessonId: string): (b: bool)
      reads this
      ensures Valid() ==> (b <==> multiset(completedLessons)[lessonId] == 1)
    {
      assert Valid() ==> (lessonId in completedLessons <==> multiset(completedLessons)[lessonId] == 1) by {
        if Valid() {
          NoDuplicatesCount(completedLessons, lessonId);
        }
      }
      lessonId in completedLessons
    }

    /** `isSubLessonCompleted(id)`: a completed sub-lesson is recorded exactly
        once. */
    predicate IsSubLessonCompleted(subLessonId: string): (b: bool)
      reads this
      ensures Valid() ==> (b <==> multiset(completedSubLessons)[subLessonId] == 1)
    {
      assert Valid() ==> (subLessonId in completedSubLessons <==> multiset(completedSubLessons)[subLessonId] == 1) by {
        if Valid() {
          NoDuplicatesCount(completedSubLessons, subLessonId);
        }
      }
      subLessonId in completedSubLessons
    }

    /** `getLessonProgress(lessonId)` */
    function GetLessonProgress(lessonId: string): (p: LessonProgress)
      reads this
      ensures lessonId !in lessonProgress ==> p == DefaultLessonProgress
      ensures lessonId in lessonProgress ==> p == lessonProgress[lessonId]
    {
      if lessonId in lessonProgress then lessonProgress[lessonId] else DefaultLessonProgress
    }

    /** `updateLessonProgress(lessonId, patch)` */
    method UpdateLessonProgress(lessonId: string, patch: ProgressPatch)
      modifies this`lessonProgress
      ensures lessonProgress == old(lessonProgress)[lessonId := Merge(old(GetLessonProgress(lessonId)), patch)]
      ensures forall other :: other != lessonId ==> GetLessonProgress(other) == old(GetLessonProgress(other))
    {
      var current := GetLessonProgress(lessonId);
      lessonProgress := lessonProgress[lessonId := Merge(current, patch)];
    }

    /** `getModuleScore(moduleId)`: 0 for a module that is not in the table
        or when nothing is completed; with non-negative points, between 0 and
        the module's maximum, which it reaches once all the module's
        challenges are completed. */
    function GetModuleScore(catalogue: seq<Challenges.Challenge>, moduleId: string): (s: int)
      reads this
      ensures moduleId !in ModuleChallengeIds ==> s == 0
      ensures completedChallenges == [] ==> s == 0
      ensures NonNegativePoints(catalogue) ==> 0 <= s <= GetModuleMaxPoints(catalogue, moduleId)
      ensures NonNegativePoints(catalogue) && (forall id :: id in ModuleIds(moduleId) ==> IsChallengeCompleted(id)) ==>
                s == GetModuleMaxPoints(catalogue, moduleId)
    {
      var ids := ModuleIds(moduleId);
      EarnedNothing(catalogue, ids);
      assert NonNegativePoints(catalogue) ==>
               && 0 <= EarnedPoints(catalogue, ids, completedChallenges) <= AvailablePoints(catalogue, ids)
               && ((forall id :: id in ids ==> id in completedChallenges) ==>
                     EarnedPoints(catalogue, ids, completedChallenges) == AvailablePoints(catalogue, ids)) by {
        if NonNegativePoints(catalogue) {
          EarnedAtMostAvailable(catalogue, ids, completedChallenges);
        }
      }
      EarnedPoints(catalogue, ids, completedChallenges)
    }

    /** `getModuleMaxPoints(moduleId)`: 0 for a module that is not in the
        table, and never negative with non-negative points. */
    function GetModuleMaxPoints(catalogue: seq<Challenges.Challenge>, moduleId: string): (m: int)
      ensures moduleId !in ModuleChallengeIds ==> m == 0
      ensures NonNegativePoints(catalogue) ==> m >= 0
    {
      var ids := ModuleIds(moduleId);
      assert NonNegativePoints(catalogue) ==> AvailablePoints(catalogue, ids) >= 0 by {
        if NonNegativePoints(catalogue) {
          EarnedAtMostAvailable(catalogue, ids, []);
        }
      }
      AvailablePoints(catalogue, ids)
    }
  }
}
