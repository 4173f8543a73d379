/**
 * The lesson page: which lesson and sub-lesson the route names, which
 * challenges it shows, the previous and next lessons, the scroll handler,
 * the auto-completion effect, the manual complete/uncomplete toggle, and the
 * lock on sub-lessons of a lesson that is not yet completed.
 *
 * The module catalogue and the markdown content are inputs; rendering is not
 * modelled. Absent route parameters are "".
 */
module LessonView {
  import opened Strings
  import Challenges
  import Progress

  datatype SubLesson = SubLesson(id: string, slug: string)
  datatype Lesson = Lesson(id: string, slug: string, subLessons: seq<SubLesson>)
  datatype CourseModule = CourseModule(id: string, lessons: seq<Lesson>)

  /** `lessonContent[slug]` is truthy: present and non-empty. */
  predicate HasContent(lessonContent: map<string, string>, slug: string)
  {
    slug in lessonContent && lessonContent[slug] != ""
  }

  /** `subLessonSlug && lessonContent[subLessonSlug] ? subLessonSlug : (lessonSlug || '')` */
  function EffectiveSlug(lessonContent: map<string, string>, lessonSlug: string, subLessonSlug: string): (slug: string)
    ensures slug == subLessonSlug || slug == lessonSlug
    ensures slug == subLessonSlug && slug != lessonSlug ==> HasContent(lessonContent, subLessonSlug)
    ensures subLessonSlug != "" && HasContent(lessonContent, subLessonSlug) ==> slug == subLessonSlug
  {
    if subLessonSlug != "" && HasContent(lessonContent, subLessonSlug) then subLessonSlug else lessonSlug
  }

  /** `effectiveSlug ? getChallengesForLesson(effectiveSlug) : []` */
  function LessonChallenges(catalogue: seq<Challenges.Challenge>, effectiveSlug: string): (cs: seq<Challenges.Challenge>)
    ensures forall c :: c in cs <==> effectiveSlug != "" && c in catalogue && c.lessonSlug == effectiveSlug
  {
    if effectiveSlug != "" then Challenges.ForLesson(catalogue, effectiveSlug) else []
  }

  function LessonSlug(l: Lesson): string { l.slug }
  function SubLessonSlug(s: SubLesson): string { s.slug }

  /** The slugs of lessons or sub-lessons, in order. */
  function Slugs<T>(items: seq<T>, slugOf: T -> string): (slugs: seq<string>)
    ensures |slugs| == |items|
    ensures forall j :: 0 <= j < |items| ==> slugs[j] == slugOf(items[j])
  {
    seq(|items|, j requires 0 <= j < |items| => slugOf(items[j]))
  }

  /** The first position at or after `k` holding this slug, or -1: the
      search behind both `findIndex` and `find` by slug. */
  function SlugIndex(slugs: seq<string>, slug: string, k: nat): (i: int)
    requires k <= |slugs|
    ensures i == -1 || k <= i < |slugs|
    ensures i >= 0 ==> slugs[i] == slug
    ensures forall j :: k <= j < |slugs| && (i == -1 || j < i) ==> slugs[j] != slug
    decreases |slugs| - k
  {
    if k == |slugs| then -1
    else if slugs[k] == slug then k
    else SlugIndex(slugs, slug, k + 1)
  }

  /** `module?.lessons.findIndex(l => l.slug === lessonSlug) ?? -1` */
  function CurrentIndex(m: Option<CourseModule>, slug: string): (i: int)
    ensures m.None? ==> i == -1
    ensures m.Some? ==> -1 <= i < |m.value.lessons|
  {
    if m.None? then -1 else SlugIndex(Slugs(m.value.lessons, LessonSlug), slug, 0)
  }

  /** `module?.lessons.find(l => l.slug === lessonSlug)` */
  function FindLesson(m: Option<CourseModule>, slug: string): (l: Option<Lesson>)
    ensures l.Some? <==> CurrentIndex(m, slug) >= 0
    ensures l.Some? ==> l.value == m.value.lessons[CurrentIndex(m, slug)] && l.value.slug == slug
  {
    var i := CurrentIndex(m, slug);
    if i < 0 then None else Some(m.value.lessons[i])
  }

  /** `lesson?.subLessons?.find(sl => sl.slug === subLessonSlug)`, with an
      absent route parameter finding nothing: the first sub-lesson with the
      slug, if any. */
  function FindSubLesson(lesson: Option<Lesson>, slug: string): (s: Option<SubLesson>)
    ensures s.Some? <==> lesson.Some? && slug != "" && SlugIndex(Slugs(lesson.value.subLessons, SubLessonSlug), slug, 0) >= 0
    ensures s.Some? ==> s.value == lesson.value.subLessons[SlugIndex(Slugs(lesson.value.subLessons, SubLessonSlug), slug, 0)]
    ensures s.Some? ==> lesson.Some? && s.value in lesson.value.subLessons && s.value.slug == slug
    ensures lesson.Some? && slug != "" && (exists t :: t in lesson.value.subLessons && t.slug == slug) ==> s.Some?
  {
    if lesson.None? || slug == "" then None
    else
      var subs := lesson.value.subLessons;
      var i := SlugIndex(Slugs(subs, SubLessonSlug), slug, 0);
      assert (exists t :: t in subs && t.slug == slug) ==> i >= 0 by {
        if exists t :: t in subs && t.slug == slug {
          var t :| t in subs && t.slug == slug;
          var j :| 0 <= j < |subs| && subs[j] == t;
        }
      }
      if i < 0 then None else Some(subs[i])
  }

  /** `currentIndex > 0 ? module?.lessons[currentIndex - 1] : null` */
  function PrevLesson(m: Option<CourseModule>, slug: string): (p: Option<Lesson>)
    ensures p.Some? <==> CurrentIndex(m, slug) > 0
    ensures p.Some? ==> p.value == m.value.lessons[CurrentIndex(m, slug) - 1]
  {
    var i := CurrentIndex(m, slug);
    if i > 0 then Some(m.value.lessons[i - 1]) else None
  }

  /** `module && currentIndex < module.lessons.length - 1 ? module.lessons[currentIndex + 1] : null` */
  function NextLesson(m: Option<CourseModule>, slug: string): (n: Option<Lesson>)
    ensures n.Some? <==> m.Some? && CurrentIndex(m, slug) < |m.value.lessons| - 1
    ensures n.Some? ==> n.value == m.value.lessons[CurrentIndex(m, slug) + 1]
  {
    var i := CurrentIndex(m, slug);
    if m.Some? && i < |m.value.lessons| - 1 then Some(m.value.lessons[i + 1]) else None
  }

  predicate DistinctSlugs(lessons: seq<Lesson>)
  {
    forall i, j :: 0 <= i < j < |lessons| ==> lessons[i].slug != lessons[j].slug
  }

  lemma IndexOfDistinctSlug(lessons: seq<Lesson>, i: nat)
    requires DistinctSlugs(lessons) && i < |lessons|
    ensures SlugIndex(Slugs(lessons, LessonSlug), lessons[i].slug, 0) == i
  {
    var f := SlugIndex(Slugs(lessons, LessonSlug), lessons[i].slug, 0);
    assert f != -1 && f <= i;
  }

  /** With distinct slugs, the next lesson's previous lesson is the current
      one, and the previous lesson's next lesson is the current one. */
  lemma NextAndPrevAreInverse(m: CourseModule, slug: string)
    requires DistinctSlugs(m.lessons)
    requires CurrentIndex(Some(m), slug) >= 0
    ensures NextLesson(Some(m), slug).Some? ==>
              PrevLesson(Some(m), NextLesson(Some(m), slug).value.slug) == FindLesson(Some(m), slug)
    ensures PrevLesson(Some(m), slug).Some? ==>
              NextLesson(Some(m), PrevLesson(Some(m), slug).value.slug) == FindLesson(Some(m), slug)
  {
    var i := CurrentIndex(Some(m), slug);
    if i + 1 < |m.lessons| {
      IndexOfDistinctSlug(m.lessons, i + 1);
    }
    if i > 0 {
      IndexOfDistinctSlug(m.lessons, i - 1);
    }
  }

  /** The first lesson has no previous lesson and the last has no next one. */
  lemma EndsOfTheModule(m: CourseModule)
    requires DistinctSlugs(m.lessons) && m.lessons != []
    ensures PrevLesson(Some(m), m.lessons[0].slug).None?
    ensures NextLesson(Some(m), m.lessons[|m.lessons| - 1].slug).None?
  {
    IndexOfDistinctSlug(m.lessons, 0);
    IndexOfDistinctSlug(m.lessons, |m.lessons| - 1);
  }

  /** A slug the module does not have gives index -1, so the "next" lesson
      is the module's first lesson (the page then shows "not found"). */
  lemma UnknownSlugNextIsFirst(m: CourseModule, slug: string)
    requires forall j :: 0 <= j < |m.lessons| ==> m.lessons[j].slug != slug
    requires m.lessons != []
    ensures NextLesson(Some(m), slug) == Some(m.lessons[0])
    ensures PrevLesson(Some(m), slug).None?
  {
  }

  /** The sub-lesson button: a locked one does nothing, an unlocked one
      navigates to the sub-lesson's route, whose path segments are the
      module, the lesson and the sub-lesson. */
  function SubLessonClick(moduleId: string, lessonSlug: string, sub: SubLesson, locked: bool): (target: Option<string>)
    ensures target.Some? <==> !locked
    ensures target.Some? ==> StartsWith(target.value, "/module/" + moduleId + "/")
    ensures target.Some? && '/' !in moduleId && '/' !in lessonSlug && '/' !in sub.slug ==>
              Split(target.value, '/') == ["", "module", moduleId, lessonSlug, sub.slug]
  {
    if locked then None
    else
      var route := "/module/" + moduleId + "/" + lessonSlug + "/" + sub.slug;
      assert '/' !in moduleId && '/' !in lessonSlug && '/' !in sub.slug ==>
               Split(route, '/') == ["", "module", moduleId, lessonSlug, sub.slug] by {
        if '/' !in moduleId && '/' !in lessonSlug && '/' !in sub.slug {
          RouteSegments(moduleId, lessonSlug, sub.slug);
        }
      }
      Some(route)
  }

  /** A segment free of '/' followed by '/' splits off as one piece. */
  lemma SplitSegment(segment: string, rest: string)
    requires '/' !in segment
    ensures Split(segment + ['/'] + rest, '/') == [segment] + Split(rest, '/')
  {
    SplitConcat(segment, rest, '/');
    SplitWithoutSeparator(segment, '/');
  }

  /** Five segments free of '/', joined by '/', split back into them. */
  lemma SplitFiveSegments(a: string, b: string, c: string, d: string, e: string)
    requires '/' !in a && '/' !in b && '/' !in c && '/' !in d && '/' !in e
    ensures Split(a + ['/'] + (b + ['/'] + (c + ['/'] + (d + ['/'] + e))), '/') == [a, b, c, d, e]
  {
    SplitWithoutSeparator(e, '/');
    SplitSegment(d, e);
    SplitSegment(c, d + ['/'] + e);
    SplitSegment(b, c + ['/'] + (d + ['/'] + e));
    SplitSegment(a, b + ['/'] + (c + ['/'] + (d + ['/'] + e)));
    FiveSegments(a, b, c, d, e);
  }

  lemma FiveSegments(a: string, b: string, c: string, d: string, e: string)
    ensures [a] + ([b] + ([c] + ([d] + [e]))) == [a, b, c, d, e]
  {
  }

  /** A route built from segments free of '/' splits back into them. */
  lemma RouteSegments(moduleId: string, lessonSlug: string, subSlug: string)
    requires '/' !in moduleId && '/' !in lessonSlug && '/' !in subSlug
    ensures Split("/module/" + moduleId + "/" + lessonSlug + "/" + subSlug, '/')
            == ["", "module", moduleId, lessonSlug, subSlug]
  {
    RouteText(moduleId, lessonSlug, subSlug);
    SplitFiveSegments("", "module", moduleId, lessonSlug, subSlug);
  }

  /** The route, written as its segments joined by '/'. */
  lemma RouteText(moduleId: string, lessonSlug: string, subSlug: string)
    ensures "/module/" + moduleId + "/" + lessonSlug + "/" + subSlug
            == "" + ['/'] + ("module" + ['/'] + (moduleId + ['/'] + (lessonSlug + ['/'] + subSlug)))
  {
  }

  /** The scroll threshold: within 100 pixels of the bottom. */
  predicate AtBottom(scrollTop: int, scrollHeight: int, clientHeight: int)
  {
    scrollTop + clientHeight >= scrollHeight - 100
  }

  function Max(a: int, b: int): (m: int)
    ensures m >= a && m >= b && (m == a || m == b)
  {
    if a >= b then a else b
  }

  /** One rendering of the lesson page: the route, what it resolves to, and
      the progress store the page talks to. */
  class LessonPage {
    const moduleId: string
    const courseModule: Option<CourseModule>
    const lessonSlug: string
    const lesson: Option<Lesson>
    const subLesson: Option<SubLesson>
    const lessonChallenges: seq<Challenges.Challenge>
    const store: Progress.ProgressStore
    var hasScrolledToBottom: bool

    constructor (moduleId: string, courseModule: Option<CourseModule>, lessonSlug: string, subLessonSlug: string,
                 lessonContent: map<string, string>, catalogue: seq<Challenges.Challenge>,
                 store: Progress.ProgressStore)
      ensures this.moduleId == moduleId && this.courseModule == courseModule && this.lessonSlug == lessonSlug
      ensures lesson == FindLesson(courseModule, lessonSlug)
      ensures subLesson == FindSubLesson(lesson, subLessonSlug)
      ensures lessonChallenges == LessonChallenges(catalogue, EffectiveSlug(lessonContent, lessonSlug, subLessonSlug))
      ensures this.store == store && !hasScrolledToBottom
    {
      this.moduleId := moduleId;
      this.courseModule := courseModule;
      this.lessonSlug := lessonSlug;
      var l := FindLesson(courseModule, lessonSlug);
      lesson := l;
      subLesson := FindSubLesson(l, subLessonSlug);
      lessonChallenges := LessonChallenges(catalogue, EffectiveSlug(lessonContent, lessonSlug, subLessonSlug));
      this.store := store;
      hasScrolledToBottom := false;
    }

    /** `currentItemComplete`: the sub-lesson when one is selected, else the
        lesson. */
    predicate CurrentItemComplete()
      reads this, store
    {
      if subLesson.Some? then store.IsSubLessonCompleted(subLesson.value.id)
      else lesson.Some? && store.IsLessonCompleted(lesson.value.id)
    }

    /** `lessonChallenges.length === 0 || lessonChallenges.every(...)` */
    predicate AllChallengesCompleted()
      reads this, store
    {
      forall c :: c in lessonChallenges ==> store.IsChallengeCompleted(c.id)
    }

    /** The condition of the auto-completion effect. */
    predicate AutoCompletes()
      reads this, store
    {
      lesson.Some? && lessonSlug != "" && hasScrolledToBottom && AllChallengesCompleted() && !CurrentItemComplete()
    }

    /** Sub-lessons of a lesson are locked until the lesson is completed. */
    predicate SubLessonsLocked(l: Lesson)
      reads store
    {
      !store.IsLessonCompleted(l.id)
    }

    /** The scroll handler; `scrollPercent` is the rounded percentage the
        handler computes. */
    method OnScroll(scrollTop: int, scrollHeight: int, clientHeight: int, scrollPercent: int)
      modifies this`hasScrolledToBottom, store`lessonProgress
      ensures scrollHeight <= clientHeight ==>
                hasScrolledToBottom == old(hasScrolledToBottom) && store.lessonProgress == old(store.lessonProgress)
      ensures scrollHeight > clientHeight ==>
                hasScrolledToBottom == (old(hasScrolledToBottom) || AtBottom(scrollTop, scrollHeight, clientHeight))
      ensures lesson.None? ==> store.lessonProgress == old(store.lessonProgress)
      ensures lesson.Some? && scrollHeight > clientHeight ==>
                var p := store.GetLessonProgress(lesson.value.id);
                var q := old(store.GetLessonProgress(lesson.value.id));
                p.scrollProgress == Max(scrollPercent, q.scrollProgress)
                && p.challengesCompleted == q.challengesCompleted
      ensures lesson.Some? ==>
                store.GetLessonProgress(lesson.value.id).scrollProgress
                >= old(store.GetLessonProgress(lesson.value.id).scrollProgress)
      ensures forall other :: lesson.None? || other != lesson.value.id ==>
                store.GetLessonProgress(other) == old(store.GetLessonProgress(other))
    {
      if scrollHeight <= clientHeight {
        return;
      }
      if lesson.Some? {
        var current := store.GetLessonProgress(lesson.value.id);
        store.UpdateLessonProgress(lesson.value.id,
                                   Progress.ProgressPatch(Some(Max(scrollPercent, current.scrollProgress)), None));
      }
      if AtBottom(scrollTop, scrollHeight, clientHeight) {
        hasScrolledToBottom := true;
      }
    }

    /** Navigating to another lesson or sub-lesson clears the flag. */
    method OnSlugChange()
      modifies this`hasScrolledToBottom
      ensures !hasScrolledToBottom
    {
      hasScrolledToBottom := false;
    }

    /** The auto-completion effect: once the page is read to the bottom and
        every challenge on it is solved, the current item is completed. */
    method AutoComplete()
      modifies store
      ensures old(AutoCompletes()) ==> CurrentItemComplete()
      ensures old(AutoCompletes()) && subLesson.Some? ==>
                store.completedSubLessons == Progress.Adjoin(old(store.completedSubLessons), subLesson.value.id)
                && store.completedLessons
                   == Progress.LessonsAfterSubLesson(old(store.completedLessons), lesson.value.id,
                                                     subLesson.value.id, store.completedSubLessons)
      ensures old(AutoCompletes()) && subLesson.None? ==>
                store.completedLessons == Progress.Adjoin(old(store.completedLessons), lesson.value.id)
                && store.completedSubLessons == old(store.completedSubLessons)
      ensures !old(AutoCompletes()) ==>
                store.completedLessons == old(store.completedLessons)
                && store.completedSubLessons == old(store.completedSubLessons)
      ensures store.completedChallenges == old(store.completedChallenges)
      ensures store.lessonScores == old(store.lessonScores)
      ensures store.lessonProgress == old(store.lessonProgress)
    {
      if lesson.None? || lessonSlug == "" {
        return;
      }
      var allCompleted := |lessonChallenges| == 0
                          || forall c <- lessonChallenges :: store.IsChallengeCompleted(c.id);
      var alreadyCompleted := if subLesson.Some? then store.IsSubLessonCompleted(subLesson.value.id)
                              else store.IsLessonCompleted(lesson.value.id);
      if hasScrolledToBottom && allCompleted && !alreadyCompleted {
        if subLesson.Some? {
          store.CompleteSubLesson(subLesson.value.id, lesson.value.id);
        } else {
          store.CompleteLesson(lesson.value.id);
        }
      }
    }

    /** The "mark complete" button toggles the current item. (A sub-lesson is
        only ever found inside a lesson, see `FindSubLesson`.) */
    method MarkComplete()
      modifies store
      ensures lesson.Some? ==> CurrentItemComplete() == !old(CurrentItemComplete())
      ensures lesson.None? && subLesson.None? ==>
                store.completedLessons == old(store.completedLessons)
                && store.completedSubLessons == old(store.completedSubLessons)
      ensures old(CurrentItemComplete()) && subLesson.Some? ==>
                store.completedSubLessons == Progress.Without(old(store.completedSubLessons), subLesson.value.id)
                && store.completedLessons == old(store.completedLessons)
      ensures old(CurrentItemComplete()) && subLesson.None? ==>
                store.completedLessons == Progress.Without(old(store.completedLessons), lesson.value.id)
                && store.completedSubLessons == old(store.completedSubLessons)
      ensures !old(CurrentItemComplete()) && subLesson.Some? && lesson.Some? ==>
                store.completedSubLessons == Progress.Adjoin(old(store.completedSubLessons), subLesson.value.id)
                && store.completedLessons
                   == Progress.LessonsAfterSubLesson(old(store.completedLessons), lesson.value.id,
                                                     subLesson.value.id, store.completedSubLessons)
      ensures !old(CurrentItemComplete()) && subLesson.None? && lesson.Some? ==>
                store.completedLessons == Progress.Adjoin(old(store.completedLessons), lesson.value.id)
                && store.completedSubLessons == old(store.completedSubLessons)
      ensures !old(CurrentItemComplete()) && lesson.None? ==>
                store.completedLessons == old(store.completedLessons)
                && store.completedSubLessons == old(store.completedSubLessons)
      ensures store.completedChallenges == old(store.completedChallenges)
      ensures store.lessonScores == old(store.lessonScores)
      ensures store.lessonProgress == old(store.lessonProgress)
      ensures lesson.Some? && subLesson.None? && !old(CurrentItemComplete()) ==> !SubLessonsLocked(lesson.value)
    {
      if CurrentItemComplete() {
        if subLesson.Some? {
          store.UncompleteSubLesson(subLesson.value.id);
        } else if lesson.Some? {
          store.UncompleteLesson(lesson.value.id);
        }
      } else {
        if subLesson.Some? && lesson.Some? {
          store.CompleteSubLesson(subLesson.value.id, lesson.value.id);
        } else if lesson.Some? {
          store.CompleteLesson(lesson.value.id);
        }
      }
    }
  }
}
