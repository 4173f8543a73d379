/**
 * The challenge catalogue helpers: the challenges of one lesson, the points a
 * module can award, and the total over the catalogue. The catalogue itself
 * (65 literal entries) is a parameter: only the fields the helpers read are
 * kept.
 */
module Challenges {
  datatype Challenge = Challenge(id: string, lessonSlug: string, points: int)

  /** What the literal catalogue satisfies: distinct ids, positive points. */
  predicate WellFormed(catalogue: seq<Challenge>)
  {
    && (forall i, j :: 0 <= i < j < |catalogue| ==> catalogue[i].id != catalogue[j].id)
    && (forall i :: 0 <= i < |catalogue| ==> catalogue[i].points > 0)
  }

  /** `catalogue.filter(c => slugs.includes(c.lessonSlug))` */
  function Select(catalogue: seq<Challenge>, slugs: seq<string>): (r: seq<Challenge>)
    ensures forall c :: multiset(r)[c] == if c.lessonSlug in slugs then multiset(catalogue)[c] else 0
  {
    if catalogue == [] then []
    else
      assert catalogue == [catalogue[0]] + catalogue[1..];
      (if catalogue[0].lessonSlug in slugs then [catalogue[0]] else []) + Select(catalogue[1..], slugs)
  }

  /** The filter keeps catalogue order: it distributes over concatenation. */
  lemma {:induction false} SelectConcat(a: seq<Challenge>, b: seq<Challenge>, slugs: seq<string>)
    ensures Select(a + b, slugs) == Select(a, slugs) + Select(b, slugs)
  {
    if a == [] {
      assert a + b == b;
    } else {
      assert (a + b)[1..] == a[1..] + b;
      SelectConcat(a[1..], b, slugs);
    }
  }

  /** `getChallengesForLesson(slug)` */
  function ForLesson(catalogue: seq<Challenge>, slug: string): (r: seq<Challenge>)
    ensures forall c :: c in r <==> c in catalogue && c.lessonSlug == slug
  {
    var r := Select(catalogue, [slug]);
    assert forall c :: c in r <==> multiset(r)[c] > 0;
    r
  }

  /** `reduce((sum, c) => sum + c.points, 0)` */
  function Points(cs: seq<Challenge>): int
  {
    if cs == [] then 0 else cs[0].points + Points(cs[1..])
  }

  lemma {:induction false} PointsConcat(a: seq<Challenge>, b: seq<Challenge>)
    ensures Points(a + b) == Points(a) + Points(b)
  {
    if a == [] {
      assert a + b == b;
    } else {
      assert (a + b)[1..] == a[1..] + b;
      PointsConcat(a[1..], b);
    }
  }

  /** The module-to-lesson-slug table of `getModulePoints`. */
  const ModuleLessonSlugs: map<string, seq<string>> := map[
    "basics" := ["basics-hello-world", "basics-variables-types", "basics-functions",
                 "basics-control-flow", "basics-packages-imports"],
    "typescript-to-go" := ["type-system-comparison", "zero-values", "error-handling"],
    "quirks" := ["values-vs-pointers", "slices-arrays-maps", "defer-panic-recover"],
    "gc" := ["how-gc-works", "escape-analysis", "gc-friendly-code"],
    "concurrency" := ["goroutines-101", "channels", "select-statement"],
    "parallelism" := ["waitgroup-mutex", "sync-atomic"],
    "testing" := ["testing-package", "table-tests", "benchmarks"],
    "webservices" := ["net-http-basics", "rest-apis", "middleware"],
    "stdlib" := ["fmt-strings-strconv", "encoding-packages", "net-http-context"],
    "packages" := ["web-frameworks", "orms-db", "utilities"],
    "polish" := ["profiling", "security", "deployment"]
  ]

  /** `moduleLessonMap[moduleId] || []` */
  function ModuleSlugs(moduleId: string): (slugs: seq<string>)
    ensures moduleId !in ModuleLessonSlugs ==> slugs == []
  {
    if moduleId in ModuleLessonSlugs then ModuleLessonSlugs[moduleId] else []
  }

  /** `getModulePoints(moduleId)`: a module missing from the table is worth
      nothing, and with non-negative points a module is worth at most the
      catalogue's total. */
  function ModulePoints(catalogue: seq<Challenge>, moduleId: string): (r: int)
    ensures moduleId !in ModuleLessonSlugs ==> r == 0
    ensures (forall i :: 0 <= i < |catalogue| ==> catalogue[i].points >= 0) ==> 0 <= r <= TotalPoints(catalogue)
  {
    var slugs := ModuleSlugs(moduleId);
    SelectNone(catalogue);
    assert (forall i :: 0 <= i < |catalogue| ==> catalogue[i].points >= 0) ==>
             0 <= Points(Select(catalogue, slugs)) <= Points(catalogue) by {
      if forall i :: 0 <= i < |catalogue| ==> catalogue[i].points >= 0 {
        SelectPointsBounded(catalogue, slugs);
      }
    }
    Points(Select(catalogue, slugs))
  }

  /** `TOTAL_POINTS`: every challenge of a well-formed catalogue adds at
      least one point. */
  function TotalPoints(catalogue: seq<Challenge>): (r: int)
    ensures WellFormed(catalogue) ==> r >= |catalogue|
  {
    assert WellFormed(catalogue) ==> Points(catalogue) >= |catalogue| by {
      if WellFormed(catalogue) {
        PositivePoints(catalogue);
      }
    }
    Points(catalogue)
  }

  /** With positive points, a list of challenges is worth at least one point
      per challenge. */
  lemma {:induction false} PositivePoints(cs: seq<Challenge>)
    requires forall i :: 0 <= i < |cs| ==> cs[i].points > 0
    ensures Points(cs) >= |cs|
  {
    if cs != [] {
      PositivePoints(cs[1..]);
    }
  }

  /** Nothing is selected by an empty slug list. */
  lemma {:induction false} SelectNone(catalogue: seq<Challenge>)
    ensures Select(catalogue, []) == []
  {
    if catalogue != [] {
      SelectNone(catalogue[1..]);
    }
  }

  /** With non-negative points, any selection is worth at most the whole
      catalogue. */
  lemma {:induction false} SelectPointsBounded(catalogue: seq<Challenge>, slugs: seq<string>)
    requires forall i :: 0 <= i < |catalogue| ==> catalogue[i].points >= 0
    ensures 0 <= Points(Select(catalogue, slugs)) <= Points(catalogue)
  {
    if catalogue != [] {
      SelectPointsBounded(catalogue[1..], slugs);
      assert Select(catalogue, slugs)
             == (if catalogue[0].lessonSlug in slugs then [catalogue[0]] else []) + Select(catalogue[1..], slugs);
      PointsConcat(if catalogue[0].lessonSlug in slugs then [catalogue[0]] else [], Select(catalogue[1..], slugs));
    }
  }

  /** A module listing one more lesson slug is worth that lesson's challenges
      more: the points of a module add up lesson by lesson. */
  lemma {:induction false} SelectExtraSlug(catalogue: seq<Challenge>, slugs: seq<string>, slug: string)
    requires slug !in slugs
    ensures Points(Select(catalogue, slugs + [slug]))
            == Points(Select(catalogue, slugs)) + Points(ForLesson(catalogue, slug))
  {
    if catalogue != [] {
      var c := catalogue[0];
      SelectExtraSlug(catalogue[1..], slugs, slug);
      var tail, tail1, tail2 := Select(catalogue[1..], slugs + [slug]), Select(catalogue[1..], slugs), Select(catalogue[1..], [slug]);
      var head, head1, head2 := (if c.lessonSlug in slugs + [slug] then [c] else []),
                                (if c.lessonSlug in slugs then [c] else []),
                                (if c.lessonSlug in [slug] then [c] else []);
      PointsConcat(head, tail);
      PointsConcat(head1, tail1);
      PointsConcat(head2, tail2);
    }
  }
}
