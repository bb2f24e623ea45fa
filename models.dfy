/** The records of the educational site: courses, lessons and labs (the
    content kinds that can be refreshed) and the ledger entry that records
    a generated update proposal, with their choice domains, defaults,
    uniqueness constraints, default listing order and display strings. */
module Models {
  import opened Util

  /** A point in time, in whole seconds since 0001-01-01 00:00:00 UTC, the
      earliest instant a date-time value can hold. */
  type Timestamp = int

  // ---------------------------------------------------------------------
  // Choice domains
  // ---------------------------------------------------------------------

  /** The kind of content a proposal targets. */
  datatype ContentType = CourseContent | LessonContent | LabContent

  /** The value stored in the `content_type` column. */
  function ContentTypeValue(t: ContentType): string
  {
    match t
    case CourseContent => "course"
    case LessonContent => "lesson"
    case LabContent => "lab"
  }

  /** Reads a stored `content_type` value back; only the three choices are accepted. */
  function ParseContentType(s: string): (r: Option<ContentType>)
    ensures r.Some? <==> s in {"course", "lesson", "lab"}
    ensures r.Some? ==> ContentTypeValue(r.value) == s
  {
    if s == "course" then Some(CourseContent)
    else if s == "lesson" then Some(LessonContent)
    else if s == "lab" then Some(LabContent)
    else None
  }

  lemma ContentTypeRoundTrip(t: ContentType)
    ensures ParseContentType(ContentTypeValue(t)) == Some(t)
  {
  }

  /** The review state of a proposal. */
  datatype Status = Pending | Approved | Rejected

  /** A new proposal starts out pending. */
  const DefaultStatus: Status := Pending

  /** The value stored in the `status` column. */
  function StatusValue(s: Status): string
  {
    match s
    case Pending => "pending"
    case Approved => "approved"
    case Rejected => "rejected"
  }

  /** Reads a stored `status` value back; only the three choices are accepted. */
  function ParseStatus(s: string): (r: Option<Status>)
    ensures r.Some? <==> s in {"pending", "approved", "rejected"}
    ensures r.Some? ==> StatusValue(r.value) == s
  {
    if s == "pending" then Some(Pending)
    else if s == "approved" then Some(Approved)
    else if s == "rejected" then Some(Rejected)
    else None
  }

  lemma StatusRoundTrip(s: Status)
    ensures ParseStatus(StatusValue(s)) == Some(s)
  {
  }

  /** The difficulty of a course; new courses are for beginners. */
  datatype Level = Beginner | Intermediate | Advanced

  function LevelValue(l: Level): string
  {
    match l
    case Beginner => "beginner"
    case Intermediate => "intermediate"
    case Advanced => "advanced"
  }

  /** The difficulty of a lab; new labs are of medium difficulty. */
  datatype Difficulty = Easy | Medium | Hard

  function DifficultyValue(d: Difficulty): string
  {
    match d
    case Easy => "easy"
    case Medium => "medium"
    case Hard => "hard"
  }

  // ---------------------------------------------------------------------
  // Records
  // ---------------------------------------------------------------------

  datatype Course = Course(
    id: int,
    title: string,
    slug: string,
    description: string,
    shortDescription: string,
    level: Level,
    estimatedTime: int,
    order: int,
    isPublished: bool,
    lastAiUpdate: Option<Timestamp>)

  datatype Lesson = Lesson(
    id: int,
    courseId: int,
    title: string,
    slug: string,
    content: string,
    order: int,
    isPublished: bool,
    lastAiUpdate: Option<Timestamp>)

  /** A lab hangs off a course, a lesson, both or neither. */
  datatype Lab = Lab(
    id: int,
    courseId: Option<int>,
    lessonId: Option<int>,
    title: string,
    slug: string,
    description: string,
    instructions: string,
    starterCode: string,
    solutionCode: string,
    difficulty: Difficulty,
    estimatedTime: int,
    order: int,
    isPublished: bool,
    lastAiUpdate: Option<Timestamp>)

  /** A generated proposal awaiting review. */
  datatype ContentUpdate = ContentUpdate(
    contentType: ContentType,
    contentId: int,
    promptUsed: string,
    aiResponse: string,
    status: Status,
    createdAt: Timestamp,
    appliedAt: Option<Timestamp>)

  /** A course as created with every defaulted field left at its default. */
  function NewCourse(id: int, title: string, slug: string, description: string, shortDescription: string): (c: Course)
    ensures c.level == Beginner && c.estimatedTime == 60 && c.order == 0
    ensures c.isPublished && c.lastAiUpdate == None
  {
    Course(id, title, slug, description, shortDescription, Beginner, 60, 0, true, None)
  }

  /** A lesson as created with every defaulted field left at its default. */
  function NewLesson(id: int, courseId: int, title: string, slug: string, content: string): (l: Lesson)
    ensures l.order == 0 && l.isPublished && l.lastAiUpdate == None
  {
    Lesson(id, courseId, title, slug, content, 0, true, None)
  }

  /** A lab as created with every defaulted field left at its default. */
  function NewLab(id: int, title: string, slug: string, description: string, instructions: string): (l: Lab)
    ensures l.courseId == None && l.lessonId == None && l.starterCode == "" && l.solutionCode == ""
    ensures l.difficulty == Medium && l.estimatedTime == 30 && l.order == 0
    ensures l.isPublished && l.lastAiUpdate == None
  {
    Lab(id, None, None, title, slug, description, instructions, "", "", Medium, 30, 0, true, None)
  }

  /** A proposal as created: status and `applied_at` left at their defaults,
      `created_at` stamped with the creation time. */
  function NewContentUpdate(t: ContentType, id: int, prompt: string, response: string, now: Timestamp): (u: ContentUpdate)
    ensures u.status == DefaultStatus && u.appliedAt == None && u.createdAt == now
    ensures u.contentType == t && u.contentId == id && u.promptUsed == prompt && u.aiResponse == response
  {
    ContentUpdate(t, id, prompt, response, DefaultStatus, now, None)
  }

  // ---------------------------------------------------------------------
  // Uniqueness constraints and default listing order
  // ---------------------------------------------------------------------

  /** Lexicographic order on titles, character by character. */
  predicate TitleAtMost(a: string, b: string)
  {
    if a == [] then true
    else if b == [] then false
    else if a[0] != b[0] then a[0] < b[0]
    else TitleAtMost(a[1..], b[1..])
  }

  /** The default listing order of all three content kinds: by `order`, then by title. */
  predicate ListedNoLater(order1: int, title1: string, order2: int, title2: string)
  {
    order1 < order2 || (order1 == order2 && TitleAtMost(title1, title2))
  }

  predicate CourseNoLater(a: Course, b: Course)
  {
    ListedNoLater(a.order, a.title, b.order, b.title)
  }

  predicate LessonNoLater(a: Lesson, b: Lesson)
  {
    ListedNoLater(a.order, a.title, b.order, b.title)
  }

  predicate LabNoLater(a: Lab, b: Lab)
  {
    ListedNoLater(a.order, a.title, b.order, b.title)
  }

  /** The course table: primary keys and slugs are unique, and the rows
      are kept in the default listing order. */
  ghost predicate CoursesValid(cs: seq<Course>)
  {
    && (forall i, j :: 0 <= i < j < |cs| ==> cs[i].id != cs[j].id && cs[i].slug != cs[j].slug)
    && Pairwise(cs, CourseNoLater)
  }

  /** The lesson table: primary keys are unique, a slug is unique within its
      course (the same slug may recur in other courses), and the rows are
      kept in the default listing order. */
  ghost predicate LessonsValid(ls: seq<Lesson>)
  {
    && (forall i, j :: 0 <= i < j < |ls| ==> ls[i].id != ls[j].id)
    && (forall i, j :: 0 <= i < j < |ls| && ls[i].courseId == ls[j].courseId ==> ls[i].slug != ls[j].slug)
    && Pairwise(ls, LessonNoLater)
  }

  /** The lab table: primary keys and slugs are unique, and the rows are
      kept in the default listing order. */
  ghost predicate LabsValid(ls: seq<Lab>)
  {
    && (forall i, j :: 0 <= i < j < |ls| ==> ls[i].id != ls[j].id && ls[i].slug != ls[j].slug)
    && Pairwise(ls, LabNoLater)
  }

  /** The ledger lists proposals in the order they were created, so their
      creation stamps never decrease along it. */
  ghost predicate StampsAscending(us: seq<ContentUpdate>)
  {
    forall i, j :: 0 <= i < j < |us| ==> us[i].createdAt <= us[j].createdAt
  }

  /** The order in which proposals are listed: newest first. */
  ghost predicate NewestFirst(us: seq<ContentUpdate>)
  {
    forall i, j :: 0 <= i < j < |us| ==> us[i].createdAt >= us[j].createdAt
  }

  /** Proposals as listed: the ledger from the latest entry back. */
  function Listing(us: seq<ContentUpdate>): (r: seq<ContentUpdate>)
    requires StampsAscending(us)
    ensures NewestFirst(r)
    ensures multiset(r) == multiset(us)
  {
    ReverseIsPermutation(us);
    Reverse(us)
  }

  lemma {:induction false} ReverseIsPermutation<T>(s: seq<T>)
    ensures multiset(Reverse(s)) == multiset(s)
  {
    if s != [] {
      ReverseIsPermutation(s[1..]);
      assert s == [s[0]] + s[1..];
    }
  }

  // ---------------------------------------------------------------------
  // Display strings
  // ---------------------------------------------------------------------

  function Digit(d: nat): (c: char)
    requires d < 10
    ensures '0' <= c <= '9'
  {
    ('0' as int + d) as char
  }

  predicate IsDigit(c: char)
  {
    '0' <= c <= '9'
  }

  function DigitValue(c: char): (d: nat)
    requires IsDigit(c)
    ensures d < 10
  {
    c as int - '0' as int
  }

  /** The decimal numeral of a natural number, most significant digit first. */
  function NatToString(n: nat): (r: string)
    ensures |r| >= 1
    ensures forall i :: 0 <= i < |r| ==> IsDigit(r[i])
  {
    if n < 10 then [Digit(n)] else NatToString(n / 10) + [Digit(n % 10)]
  }

  /** The decimal numeral of an integer, with a leading minus sign when negative. */
  function IntToString(i: int): string
  {
    if i < 0 then "-" + NatToString(-i) else NatToString(i)
  }

  /** Reads a non-empty string of decimal digits. */
  function ParseNat(s: string): Option<nat>
  {
    if s == [] || !IsDigit(s[|s| - 1]) then None
    else if |s| == 1 then Some(DigitValue(s[0]))
    else match ParseNat(s[..|s| - 1])
      case None => None
      case Some(v) => Some(v * 10 + DigitValue(s[|s| - 1]))
  }

  /** Reads a decimal numeral with an optional leading minus sign. */
  function ParseInt(s: string): Option<int>
  {
    if |s| > 0 && s[0] == '-' then
      match ParseNat(s[1..])
      case None => None
      case Some(v) => Some(0 - v as int)
    else
      match ParseNat(s)
      case None => None
      case Some(v) => Some(v)
  }

  lemma {:induction false} NatRoundTrip(n: nat)
    ensures ParseNat(NatToString(n)) == Some(n)
  {
    if n >= 10 {
      NatRoundTrip(n / 10);
      var s := NatToString(n);
      assert s[..|s| - 1] == NatToString(n / 10);
    }
  }

  lemma IntRoundTrip(i: int)
    ensures ParseInt(IntToString(i)) == Some(i)
  {
    var s := IntToString(i);
    if i < 0 {
      var digits := NatToString(-i);
      NatRoundTrip(-i);
      assert s == "-" + digits;
      assert s[0] == '-' && s[1..] == digits;
    } else {
      NatRoundTrip(i);
      assert s == NatToString(i);
      assert IsDigit(s[0]);
    }
  }

  /** How a lesson is displayed: the title of the course it belongs to, a
      dash, its own title. */
  function LessonLabel(course: Course, lesson: Lesson): (r: string)
    requires lesson.courseId == course.id
    ensures |r| == |course.title| + 3 + |lesson.title|
    ensures r[..|course.title|] == course.title
    ensures r[|course.title|..|course.title| + 3] == " - "
    ensures r[|r| - |lesson.title|..] == lesson.title
  {
    course.title + " - " + lesson.title
  }

  /** What precedes the primary key in a proposal's display string. */
  function LabelHead(t: ContentType): string
  {
    ContentTypeValue(t) + " #"
  }

  /** What follows the primary key in a proposal's display string. */
  function LabelTail(s: Status): string
  {
    " - " + StatusValue(s)
  }

  /** How a proposal is displayed: its content type, `#` and the target's
      primary key, a dash, and its status. */
  function UpdateLabel(u: ContentUpdate): string
  {
    LabelHead(u.contentType) + IntToString(u.contentId) + LabelTail(u.status)
  }

  /** The content type a display string starts with. */
  function LabelType(s: string): Option<ContentType>
  {
    if |s| >= 8 && s[..8] == "course #" then Some(CourseContent)
    else if |s| >= 8 && s[..8] == "lesson #" then Some(LessonContent)
    else if |s| >= 5 && s[..5] == "lab #" then Some(LabContent)
    else None
  }

  /** The status a display string ends with. */
  function LabelStatus(s: string): Option<Status>
  {
    if |s| >= 10 && s[|s| - 10..] == " - pending" then Some(Pending)
    else if |s| >= 11 && s[|s| - 11..] == " - approved" then Some(Approved)
    else if |s| >= 11 && s[|s| - 11..] == " - rejected" then Some(Rejected)
    else None
  }

  /** Reads a proposal's display string back into the content type, primary
      key and status it shows. */
  function ParseUpdateLabel(s: string): Option<(ContentType, int, Status)>
  {
    match (LabelType(s), LabelStatus(s))
    case (Some(t), Some(st)) =>
      (match Between(s, LabelHead(t), LabelTail(st))
       case None => None
       case Some(mid) =>
         match ParseInt(mid)
         case None => None
         case Some(id) => Some((t, id, st)))
    case _ => None
  }

  lemma LabelTypeOf(t: ContentType, rest: string)
    ensures LabelType(LabelHead(t) + rest) == Some(t)
  {
    var s := LabelHead(t) + rest;
    match t
    case CourseContent =>
      assert s[..8] == "course #";
    case LessonContent =>
      assert s[0] == 'l' && s[1] == 'e';
      assert s[..8] == "lesson #";
    case LabContent =>
      assert s[0] == 'l' && s[1] == 'a';
      assert s[..5] == "lab #";
  }

  lemma LabelStatusOf(rest: string, st: Status)
    ensures LabelStatus(rest + LabelTail(st)) == Some(st)
  {
    var s := rest + LabelTail(st);
    match st
    case Pending =>
      assert s[|s| - 10..] == " - pending";
    case Approved =>
      assert s[|s| - 1] == 'd' && s[|s| - 8] == 'a';
      assert s[|s| - 11..] == " - approved";
    case Rejected =>
      assert s[|s| - 1] == 'd' && s[|s| - 8] == 'r';
      assert s[|s| - 11..] == " - rejected";
  }

  /** A proposal's display string determines its content type, target and
      status: reading it back gives exactly those three. */
  lemma UpdateLabelRoundTrip(u: ContentUpdate)
    ensures ParseUpdateLabel(UpdateLabel(u)) == Some((u.contentType, u.contentId, u.status))
  {
    var s := UpdateLabel(u);
    var num := IntToString(u.contentId);
    LabelTypeOf(u.contentType, num + LabelTail(u.status));
    assert s == LabelHead(u.contentType) + (num + LabelTail(u.status));
    LabelStatusOf(LabelHead(u.contentType) + num, u.status);
    BetweenOfConcat(LabelHead(u.contentType), num, LabelTail(u.status));
    IntRoundTrip(u.contentId);
  }

  /** Two proposals with the same display string agree on content type,
      target and status. */
  lemma UpdateLabelInjective(u: ContentUpdate, v: ContentUpdate)
    requires UpdateLabel(u) == UpdateLabel(v)
    ensures u.contentType == v.contentType && u.contentId == v.contentId && u.status == v.status
  {
    UpdateLabelRoundTrip(u);
    UpdateLabelRoundTrip(v);
  }
}
