/** What the site's pages list: the published courses and labs with an
    optional difficulty filter, the first few courses on the home page, a
    course's published lessons and labs, and the lessons before and after
    the one being read. Tables are sequences kept in their default listing
    order; a page's lookup that finds nothing is `None` (a "not found"
    response). */
module Views {
  import opened Util
  import opened Models

  /** A query parameter takes effect only when present and non-empty. */
  predicate Given(p: Option<string>)
  {
    p.Some? && p.value != ""
  }

  // ---------------------------------------------------------------------
  // Listings
  // ---------------------------------------------------------------------

  function PublishedCourses(cs: seq<Course>): (r: seq<Course>)
    ensures forall c :: c in r <==> c in cs && c.isPublished
  {
    Filter(cs, (c: Course) => c.isPublished)
  }

  /** The course list: published courses, narrowed to one difficulty level
      when a non-empty `difficulty` parameter is given. */
  function CourseList(cs: seq<Course>, difficulty: Option<string>): (r: seq<Course>)
    ensures forall c :: c in r <==>
      c in cs && c.isPublished && (Given(difficulty) ==> LevelValue(c.level) == difficulty.value)
  {
    var published := PublishedCourses(cs);
    if Given(difficulty) then Filter(published, (c: Course) => LevelValue(c.level) == difficulty.value)
    else published
  }

  /** The course list keeps the table's listing order. */
  lemma CourseListKeepsOrder(cs: seq<Course>, difficulty: Option<string>)
    requires Pairwise(cs, CourseNoLater)
    ensures Pairwise(CourseList(cs, difficulty), CourseNoLater)
  {
    FilterKeepsPairwise(cs, (c: Course) => c.isPublished, CourseNoLater);
    if Given(difficulty) {
      FilterKeepsPairwise(PublishedCourses(cs), (c: Course) => LevelValue(c.level) == difficulty.value, CourseNoLater);
    }
  }

  /** A difficulty that is not one of the level choices lists no course. */
  lemma CourseListUnknownLevel(cs: seq<Course>, difficulty: Option<string>)
    requires Given(difficulty) && difficulty.value !in {"beginner", "intermediate", "advanced"}
    ensures CourseList(cs, difficulty) == []
  {
  }

  /** The lab list: published labs, narrowed to one difficulty when a
      non-empty `difficulty` parameter is given. */
  function LabList(bs: seq<Lab>, difficulty: Option<string>): (r: seq<Lab>)
    ensures forall b :: b in r <==>
      b in bs && b.isPublished && (Given(difficulty) ==> DifficultyValue(b.difficulty) == difficulty.value)
  {
    var published := Filter(bs, (b: Lab) => b.isPublished);
    if Given(difficulty) then Filter(published, (b: Lab) => DifficultyValue(b.difficulty) == difficulty.value)
    else published
  }

  /** The lab list keeps the table's listing order. */
  lemma LabListKeepsOrder(bs: seq<Lab>, difficulty: Option<string>)
    requires Pairwise(bs, LabNoLater)
    ensures Pairwise(LabList(bs, difficulty), LabNoLater)
  {
    FilterKeepsPairwise(bs, (b: Lab) => b.isPublished, LabNoLater);
    if Given(difficulty) {
      FilterKeepsPairwise(Filter(bs, (b: Lab) => b.isPublished), (b: Lab) => DifficultyValue(b.difficulty) == difficulty.value, LabNoLater);
    }
  }

  /** A difficulty that is not one of the lab choices lists no lab. */
  lemma LabListUnknownDifficulty(bs: seq<Lab>, difficulty: Option<string>)
    requires Given(difficulty) && difficulty.value !in {"easy", "medium", "hard"}
    ensures LabList(bs, difficulty) == []
  {
  }

  /** How many courses the home page features. */
  const FeaturedCount: nat := 6

  /** The home page's courses: the first six published ones, or all of them
      when there are fewer. */
  function HomeCourses(cs: seq<Course>): (r: seq<Course>)
    ensures |r| == if |PublishedCourses(cs)| < FeaturedCount then |PublishedCourses(cs)| else FeaturedCount
    ensures r == PublishedCourses(cs)[..|r|]
    ensures forall c :: c in r ==> c in cs && c.isPublished
  {
    var published := PublishedCourses(cs);
    if |published| <= FeaturedCount then published else published[..FeaturedCount]
  }

  /** Every featured course comes no later in the listing order than any
      published course left off the home page. */
  lemma HomeShowsEarliest(cs: seq<Course>)
    requires CoursesValid(cs)
    ensures forall c, d :: c in HomeCourses(cs) && d in cs && d.isPublished && d !in HomeCourses(cs) ==> CourseNoLater(c, d)
  {
    var p := PublishedCourses(cs);
    var r := HomeCourses(cs);
    FilterKeepsPairwise(cs, (c: Course) => c.isPublished, CourseNoLater);
    forall c, d | c in r && d in cs && d.isPublished && d !in r ensures CourseNoLater(c, d) {
      var i :| 0 <= i < |r| && r[i] == c;
      assert d in p;
      var j :| 0 <= j < |p| && p[j] == d;
      assert j >= |r|;
      assert p[i] == c;
    }
  }

  // ---------------------------------------------------------------------
  // Course page
  // ---------------------------------------------------------------------

  /** The published course with the given slug, if any. */
  function CourseBySlug(cs: seq<Course>, slug: string): (r: Option<Course>)
    ensures r.Some? ==> r.value in cs && r.value.slug == slug && r.value.isPublished
    ensures r.None? <==> forall c :: c in cs ==> !(c.slug == slug && c.isPublished)
  {
    FindFirst(cs, (c: Course) => c.slug == slug && c.isPublished)
  }

  /** Slugs are unique, so the lookup finds exactly the published course
      that carries the slug. */
  lemma CourseBySlugFinds(cs: seq<Course>, c: Course)
    requires CoursesValid(cs) && c in cs && c.isPublished
    ensures CourseBySlug(cs, c.slug) == Some(c)
  {
    var r := CourseBySlug(cs, c.slug);
    var i :| 0 <= i < |cs| && cs[i] == c;
    var j :| 0 <= j < |cs| && cs[j] == r.value;
    assert i == j;
  }

  /** A course's published lessons, in listing order. */
  function PublishedLessonsOf(ls: seq<Lesson>, courseId: int): (r: seq<Lesson>)
    ensures forall l :: l in r <==> l in ls && l.courseId == courseId && l.isPublished
  {
    Filter(ls, (l: Lesson) => l.courseId == courseId && l.isPublished)
  }

  /** A course's published labs: those attached to the course itself. A lab
      attached only to one of its lessons is not among them. */
  function PublishedLabsOf(bs: seq<Lab>, courseId: int): (r: seq<Lab>)
    ensures forall b :: b in r <==> b in bs && b.courseId == Some(courseId) && b.isPublished
  {
    Filter(bs, (b: Lab) => b.courseId == Some(courseId) && b.isPublished)
  }

  datatype CoursePage = CoursePage(course: Course, lessons: seq<Lesson>, labs: seq<Lab>)

  /** The course page: not found unless a published course has the slug;
      otherwise the course with its published lessons and labs. */
  function CourseDetail(cs: seq<Course>, ls: seq<Lesson>, bs: seq<Lab>, slug: string): (r: Option<CoursePage>)
    ensures r.None? <==> forall c :: c in cs ==> !(c.slug == slug && c.isPublished)
    ensures r.Some? ==> r.value.course in cs && r.value.course.slug == slug && r.value.course.isPublished
    ensures r.Some? ==> forall l :: l in r.value.lessons <==>
      l in ls && l.courseId == r.value.course.id && l.isPublished
    ensures r.Some? ==> forall b :: b in r.value.labs <==>
      b in bs && b.courseId == Some(r.value.course.id) && b.isPublished
  {
    match CourseBySlug(cs, slug)
    case None => None
    case Some(c) => Some(CoursePage(c, PublishedLessonsOf(ls, c.id), PublishedLabsOf(bs, c.id)))
  }

  // ---------------------------------------------------------------------
  // Lesson page
  // ---------------------------------------------------------------------

  /** The lesson page's two lookups: the published course with the course
      slug, then its published lesson with the lesson slug. */
  function LessonBySlugs(cs: seq<Course>, ls: seq<Lesson>, courseSlug: string, lessonSlug: string): (r: Option<(Course, Lesson)>)
    ensures r.Some? ==> CourseBySlug(cs, courseSlug) == Some(r.value.0)
    ensures r.Some? ==>
      (r.value.1 in ls && r.value.1.courseId == r.value.0.id && r.value.1.slug == lessonSlug && r.value.1.isPublished)
    ensures r.None? <==>
      (|| CourseBySlug(cs, courseSlug).None?
       || forall l :: l in ls ==> !(l.courseId == CourseBySlug(cs, courseSlug).value.id && l.slug == lessonSlug && l.isPublished))
  {
    match CourseBySlug(cs, courseSlug)
    case None => None
    case Some(c) =>
      match FindFirst(ls, (l: Lesson) => l.courseId == c.id && l.slug == lessonSlug && l.isPublished)
      case None => None
      case Some(l) => Some((c, l))
  }

  /** Where a lesson first occurs in a list, comparing primary keys as the
      records' equality does. */
  function IndexOf(ls: seq<Lesson>, id: int): (r: Option<nat>)
    ensures r.Some? ==> r.value < |ls| && ls[r.value].id == id && forall j :: 0 <= j < r.value ==> ls[j].id != id
    ensures r.None? ==> forall j :: 0 <= j < |ls| ==> ls[j].id != id
  {
    if ls == [] then None
    else if ls[0].id == id then Some(0)
    else match IndexOf(ls[1..], id)
      case None => None
      case Some(i) => Some(i + 1)
  }

  datatype Neighbours = Neighbours(prev: Option<Lesson>, next: Option<Lesson>)

  /** Position `k` of `ls` is where a lesson with primary key `id` first occurs. */
  predicate FirstAt(ls: seq<Lesson>, k: nat, id: int)
    requires k < |ls|
  {
    ls[k].id == id && forall j :: 0 <= j < k ==> ls[j].id != id
  }

  /** The lessons on either side of `lesson` in `ordered`: the ones right
      before and right after the place where it first occurs. There is no
      previous lesson when it is not in the list or comes first, and no next
      one when it is not in the list or comes last. */
  function Adjacent(ordered: seq<Lesson>, lesson: Lesson): (r: Neighbours)
    ensures r.prev.Some? ==>
      exists k :: 0 < k < |ordered| && FirstAt(ordered, k, lesson.id) && ordered[k - 1] == r.prev.value
    ensures r.next.Some? ==>
      exists k :: 0 <= k < |ordered| - 1 && FirstAt(ordered, k, lesson.id) && ordered[k + 1] == r.next.value
    ensures r.prev.None? <==>
      (|| (forall k :: 0 <= k < |ordered| ==> ordered[k].id != lesson.id)
       || (|ordered| > 0 && ordered[0].id == lesson.id))
    ensures r.next.None? <==> forall k :: 0 <= k < |ordered| - 1 ==> ordered[k].id != lesson.id
  {
    match IndexOf(ordered, lesson.id)
    case None => Neighbours(None, None)
    case Some(i) =>
      assert FirstAt(ordered, i, lesson.id);
      Neighbours(
        if i > 0 then Some(ordered[i - 1]) else None,
        if i + 1 < |ordered| then Some(ordered[i + 1]) else None)
  }

  /** What the database may return for a course's published lessons sorted
      by `order`: exactly those lessons, with `order` never decreasing (the
      order among lessons with equal `order` is left open). */
  ghost predicate ArrangedByOrder(ordered: seq<Lesson>, ls: seq<Lesson>, courseId: int)
  {
    && multiset(ordered) == multiset(PublishedLessonsOf(ls, courseId))
    && forall i, j :: 0 <= i < j < |ordered| ==> ordered[i].order <= ordered[j].order
  }

  lemma {:induction false} DistinctCountsOnce<T>(s: seq<T>, x: T)
    requires Distinct(s)
    ensures multiset(s)[x] <= 1
  {
    if s != [] {
      var tail := s[1..];
      assert s == [s[0]] + tail;
      assert Distinct(tail) by {
        forall i, j | 0 <= i < j < |tail| ensures Differ(tail[i], tail[j]) {
          assert tail[i] == s[i + 1] && tail[j] == s[j + 1];
        }
      }
      DistinctCountsOnce(tail, x);
      if s[0] == x {
        forall k | 0 <= k < |tail| ensures tail[k] != x {
          assert tail[k] == s[k + 1];
          assert Differ(s[0], s[k + 1]);
        }
        assert x !in tail;
      }
    }
  }

  /** An element found at two places is counted at least twice. */
  lemma TwoPlacesCountTwice<T>(s: seq<T>, i: nat, j: nat)
    requires i < j < |s| && s[i] == s[j]
    ensures multiset(s)[s[i]] >= 2
  {
    assert s == s[..j] + s[j..];
    assert s[i] == s[..j][i];
    assert s[j] == s[j..][0];
    assert multiset(s) == multiset(s[..j]) + multiset(s[j..]);
  }

  /** A sequence whose every element occurs at most once has no repetitions. */
  lemma CountsOnceDistinct<T>(s: seq<T>)
    requires forall x :: multiset(s)[x] <= 1
    ensures Distinct(s)
  {
    forall i, j | 0 <= i < j < |s| ensures Differ(s[i], s[j]) {
      if s[i] == s[j] {
        TwoPlacesCountTwice(s, i, j);
      }
    }
  }

  /** Primary keys are unique in the lesson table, so no lesson occurs twice. */
  lemma LessonsDistinct(ls: seq<Lesson>)
    requires LessonsValid(ls)
    ensures Distinct(ls)
  {
    forall i, j | 0 <= i < j < |ls| ensures Differ(ls[i], ls[j]) {
      assert ls[i].id != ls[j].id;
    }
  }

  /** The lessons a lesson page walks through are its course's published
      lessons, each exactly once. */
  lemma ArrangedLessons(ls: seq<Lesson>, courseId: int, ordered: seq<Lesson>)
    requires LessonsValid(ls) && ArrangedByOrder(ordered, ls, courseId)
    ensures Distinct(ordered)
    ensures forall x :: x in ordered <==> x in ls && x.courseId == courseId && x.isPublished
  {
    var published := PublishedLessonsOf(ls, courseId);
    LessonsDistinct(ls);
    FilterKeepsDistinct(ls, (x: Lesson) => x.courseId == courseId && x.isPublished);
    forall x ensures multiset(ordered)[x] <= 1 {
      DistinctCountsOnce(published, x);
    }
    CountsOnceDistinct(ordered);
    forall x ensures x in ordered <==> x in published {
      assert x in ordered <==> x in multiset(ordered);
      assert x in published <==> x in multiset(published);
    }
  }

  /** On the lesson page, the lesson being read is always found in its
      course's ordered lessons (so the not-found branch is never taken).
      The previous lesson is the one right before it and the next lesson the
      one right after it; both are other published lessons of the same
      course, no later and no earlier by `order`. There is no previous
      lesson exactly when the lesson comes first, and no next one exactly
      when it comes last. */
  lemma AdjacentLessons(cs: seq<Course>, ls: seq<Lesson>, courseSlug: string, lessonSlug: string, ordered: seq<Lesson>)
    requires LessonsValid(ls)
    requires LessonBySlugs(cs, ls, courseSlug, lessonSlug).Some?
    requires ArrangedByOrder(ordered, ls, LessonBySlugs(cs, ls, courseSlug, lessonSlug).value.0.id)
    ensures var (c, l) := LessonBySlugs(cs, ls, courseSlug, lessonSlug).value;
      var n := Adjacent(ordered, l);
      && IndexOf(ordered, l.id).Some?
      && ordered[IndexOf(ordered, l.id).value] == l
      && (n.prev.Some? ==>
            && (exists k :: 0 < k < |ordered| && ordered[k] == l && ordered[k - 1] == n.prev.value)
            && n.prev.value in ls && n.prev.value.courseId == c.id && n.prev.value.isPublished
            && n.prev.value != l && n.prev.value.order <= l.order)
      && (n.next.Some? ==>
            && (exists k :: 0 <= k < |ordered| - 1 && ordered[k] == l && ordered[k + 1] == n.next.value)
            && n.next.value in ls && n.next.value.courseId == c.id && n.next.value.isPublished
            && n.next.value != l && l.order <= n.next.value.order)
      && (n.prev.None? <==> ordered[0] == l)
      && (n.next.None? <==> ordered[|ordered| - 1] == l)
  {
    var (c, l) := LessonBySlugs(cs, ls, courseSlug, lessonSlug).value;
    ArrangedLessons(ls, c.id, ordered);
    assert l in ordered;
    var i := IndexOf(ordered, l.id).value;
    assert ordered[i] == l by {
      var a :| 0 <= a < |ls| && ls[a] == ordered[i];
      var b :| 0 <= b < |ls| && ls[b] == l;
      assert a == b;
    }
    var n := Adjacent(ordered, l);
    if n.prev.Some? {
      assert n.prev.value == ordered[i - 1];
      assert ordered[i - 1] in ordered;
      assert Differ(ordered[i - 1], ordered[i]);
    }
    if n.next.Some? {
      assert n.next.value == ordered[i + 1];
      assert ordered[i + 1] in ordered;
      assert Differ(ordered[i], ordered[i + 1]);
    }
    if i < |ordered| - 1 {
      assert Differ(ordered[i], ordered[|ordered| - 1]);
    }
  }
}
