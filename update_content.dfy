/** The content refresh command: it picks the published courses, lessons
    and labs whose last generated update is missing or stale (or one item
    named by kind and primary key), asks the text generator for an updated
    version of each, and appends one pending proposal per non-empty reply to
    the ledger of proposals. It never changes the items themselves. */
module UpdateContent {
  import opened Util
  import opened Models

  /** The staleness threshold `--days` takes when it is not given. */
  const DefaultDays: int := 7

  const SecondsPerDay: int := 86400

  /** Items last refreshed strictly before this instant are stale. */
  function Cutoff(now: Timestamp, days: int): Timestamp
  {
    now - days * SecondsPerDay
  }

  /** The most days a time span can hold, in either direction. */
  const MaxSpanDays: int := 999999999

  /** The last whole second a date-time value can hold, 9999-12-31 23:59:59:
      day 3652059, counting 0001-01-01 as day 1, less one second. */
  const LatestInstant: Timestamp := 3652059 * SecondsPerDay - 1

  /** Whether a batch run can compute its cutoff: the span of `days` days
      must be representable, and so must the instant that many days before
      `now`. Otherwise the computation raises an overflow error, which
      nothing catches, and the run ends before any item is looked at. */
  predicate CutoffInRange(now: Timestamp, days: int)
  {
    -MaxSpanDays <= days <= MaxSpanDays && 0 <= Cutoff(now, days) <= LatestInstant
  }

  /** With the default threshold, any clock reading at least a week into
      the representable range gives a cutoff; a threshold reaching back
      before the first representable instant never does. */
  lemma CutoffRange(now: Timestamp, days: int)
    ensures DefaultDays * SecondsPerDay <= now <= LatestInstant ==> CutoffInRange(now, DefaultDays)
    ensures now < days * SecondsPerDay ==> !CutoffInRange(now, days)
    ensures days > MaxSpanDays || days < -MaxSpanDays ==> !CutoffInRange(now, days)
  {
  }

  // ---------------------------------------------------------------------
  // The three content kinds seen uniformly
  // ---------------------------------------------------------------------

  datatype Target = CourseTarget(course: Course) | LessonTarget(lesson: Lesson) | LabTarget(lab: Lab)
  {
    function Type(): ContentType
    {
      match this
      case CourseTarget(_) => CourseContent
      case LessonTarget(_) => LessonContent
      case LabTarget(_) => LabContent
    }

    function Id(): int
    {
      match this
      case CourseTarget(c) => c.id
      case LessonTarget(l) => l.id
      case LabTarget(l) => l.id
    }

    function Title(): string
    {
      match this
      case CourseTarget(c) => c.title
      case LessonTarget(l) => l.title
      case LabTarget(l) => l.title
    }

    predicate IsPublished()
    {
      match this
      case CourseTarget(c) => c.isPublished
      case LessonTarget(l) => l.isPublished
      case LabTarget(l) => l.isPublished
    }

    function LastAiUpdate(): Option<Timestamp>
    {
      match this
      case CourseTarget(c) => c.lastAiUpdate
      case LessonTarget(l) => l.lastAiUpdate
      case LabTarget(l) => l.lastAiUpdate
    }
  }

  /** Position of a kind in a batch run: courses, then lessons, then labs. */
  function Rank(t: ContentType): nat
  {
    match t
    case CourseContent => 0
    case LessonContent => 1
    case LabContent => 2
  }

  function CourseTargets(cs: seq<Course>): seq<Target>
  {
    seq(|cs|, i requires 0 <= i < |cs| => CourseTarget(cs[i]))
  }

  function LessonTargets(ls: seq<Lesson>): seq<Target>
  {
    seq(|ls|, i requires 0 <= i < |ls| => LessonTarget(ls[i]))
  }

  function LabTargets(ls: seq<Lab>): seq<Target>
  {
    seq(|ls|, i requires 0 <= i < |ls| => LabTarget(ls[i]))
  }

  // ---------------------------------------------------------------------
  // Selection
  // ---------------------------------------------------------------------

  /** An item is due when it is published and has never been refreshed, or
      was last refreshed strictly before the cutoff. */
  predicate IsDue(t: Target, cutoff: Timestamp)
  {
    t.IsPublished() && (t.LastAiUpdate().None? || t.LastAiUpdate().value < cutoff)
  }

  /** The boundary of the staleness rule: an item stamped exactly at the
      cutoff is not due, one stamped a second earlier is; unpublished items
      are never due, never-refreshed published ones always are. */
  lemma DueBoundary(t: Target, now: Timestamp, days: int)
    ensures !t.IsPublished() ==> !IsDue(t, Cutoff(now, days))
    ensures t.IsPublished() && t.LastAiUpdate().None? ==> IsDue(t, Cutoff(now, days))
    ensures t.LastAiUpdate() == Some(now - days * SecondsPerDay) ==> !IsDue(t, Cutoff(now, days))
    ensures t.IsPublished() && t.LastAiUpdate() == Some(now - days * SecondsPerDay - 1) ==> IsDue(t, Cutoff(now, days))
  {
  }

  /** Items created with their defaults are published and never refreshed,
      so they are due whatever the clock says. */
  lemma NewItemsAreDue(c: Course, l: Lesson, b: Lab, cutoff: Timestamp)
    requires c == NewCourse(c.id, c.title, c.slug, c.description, c.shortDescription)
    requires l == NewLesson(l.id, l.courseId, l.title, l.slug, l.content)
    requires b == NewLab(b.id, b.title, b.slug, b.description, b.instructions)
    ensures IsDue(CourseTarget(c), cutoff) && IsDue(LessonTarget(l), cutoff) && IsDue(LabTarget(b), cutoff)
  {
  }

  /** The due items among `ts`, in table order. */
  function DueTargets(ts: seq<Target>, cutoff: Timestamp): (r: seq<Target>)
    ensures forall t :: t in r <==> t in ts && IsDue(t, cutoff)
  {
    Filter(ts, t => IsDue(t, cutoff))
  }

  /** Everything a batch run visits: the due courses, then the due lessons,
      then the due labs. */
  function Batch(cs: seq<Course>, ls: seq<Lesson>, bs: seq<Lab>, cutoff: Timestamp): seq<Target>
  {
    DueTargets(CourseTargets(cs), cutoff) + DueTargets(LessonTargets(ls), cutoff) + DueTargets(LabTargets(bs), cutoff)
  }

  /** The table an item comes from. */
  ghost predicate InTables(t: Target, cs: seq<Course>, ls: seq<Lesson>, bs: seq<Lab>)
  {
    match t
    case CourseTarget(c) => c in cs
    case LessonTarget(l) => l in ls
    case LabTarget(b) => b in bs
  }

  lemma TargetsMembership(cs: seq<Course>, ls: seq<Lesson>, bs: seq<Lab>)
    ensures forall t :: t in CourseTargets(cs) <==> t.CourseTarget? && t.course in cs
    ensures forall t :: t in LessonTargets(ls) <==> t.LessonTarget? && t.lesson in ls
    ensures forall t :: t in LabTargets(bs) <==> t.LabTarget? && t.lab in bs
  {
    forall t: Target | t.CourseTarget? && t.course in cs ensures t in CourseTargets(cs) {
      var i :| 0 <= i < |cs| && cs[i] == t.course;
      assert CourseTargets(cs)[i] == t;
    }
    forall t: Target | t.LessonTarget? && t.lesson in ls ensures t in LessonTargets(ls) {
      var i :| 0 <= i < |ls| && ls[i] == t.lesson;
      assert LessonTargets(ls)[i] == t;
    }
    forall t: Target | t.LabTarget? && t.lab in bs ensures t in LabTargets(bs) {
      var i :| 0 <= i < |bs| && bs[i] == t.lab;
      assert LabTargets(bs)[i] == t;
    }
  }

  /** A batch run selects an item if and only if it is in its table and due. */
  lemma BatchSelects(cs: seq<Course>, ls: seq<Lesson>, bs: seq<Lab>, cutoff: Timestamp)
    ensures forall t :: t in Batch(cs, ls, bs, cutoff) <==> InTables(t, cs, ls, bs) && IsDue(t, cutoff)
  {
    TargetsMembership(cs, ls, bs);
  }

  /** A batch run visits every course before any lesson and every lesson
      before any lab. */
  lemma BatchKindsInOrder(cs: seq<Course>, ls: seq<Lesson>, bs: seq<Lab>, cutoff: Timestamp)
    ensures var b := Batch(cs, ls, bs, cutoff);
      forall i, j :: 0 <= i < j < |b| ==> Rank(b[i].Type()) <= Rank(b[j].Type())
  {
    TargetsMembership(cs, ls, bs);
    var a := DueTargets(CourseTargets(cs), cutoff);
    var m := DueTargets(LessonTargets(ls), cutoff);
    var z := DueTargets(LabTargets(bs), cutoff);
    var b := a + m + z;
    forall k | 0 <= k < |b|
      ensures Rank(b[k].Type()) == if k < |a| then 0 else if k < |a| + |m| then 1 else 2
    {
      if k < |a| {
        assert b[k] == a[k] && b[k] in a;
      } else if k < |a| + |m| {
        assert b[k] == m[k - |a|] && b[k] in m;
      } else {
        assert b[k] == z[k - |a| - |m|] && b[k] in z;
      }
    }
  }

  lemma TargetsDistinct(cs: seq<Course>, ls: seq<Lesson>, bs: seq<Lab>)
    requires CoursesValid(cs) && LessonsValid(ls) && LabsValid(bs)
    ensures Distinct(CourseTargets(cs)) && Distinct(LessonTargets(ls)) && Distinct(LabTargets(bs))
  {
    var c, l, b := CourseTargets(cs), LessonTargets(ls), LabTargets(bs);
    forall i, j | 0 <= i < j < |c| ensures Differ(c[i], c[j]) {
      assert c[i].course.id != c[j].course.id;
    }
    forall i, j | 0 <= i < j < |l| ensures Differ(l[i], l[j]) {
      assert l[i].lesson.id != l[j].lesson.id;
    }
    forall i, j | 0 <= i < j < |b| ensures Differ(b[i], b[j]) {
      assert b[i].lab.id != b[j].lab.id;
    }
  }

  /** Over tables whose primary keys are unique, a batch run visits each
      selected item exactly once. */
  lemma BatchVisitsEachOnce(cs: seq<Course>, ls: seq<Lesson>, bs: seq<Lab>, cutoff: Timestamp)
    requires CoursesValid(cs) && LessonsValid(ls) && LabsValid(bs)
    ensures Distinct(Batch(cs, ls, bs, cutoff))
  {
    TargetsMembership(cs, ls, bs);
    TargetsDistinct(cs, ls, bs);
    var a := DueTargets(CourseTargets(cs), cutoff);
    var m := DueTargets(LessonTargets(ls), cutoff);
    var z := DueTargets(LabTargets(bs), cutoff);
    FilterKeepsDistinct(CourseTargets(cs), t => IsDue(t, cutoff));
    FilterKeepsDistinct(LessonTargets(ls), t => IsDue(t, cutoff));
    FilterKeepsDistinct(LabTargets(bs), t => IsDue(t, cutoff));
    assert forall t :: t in a ==> t.CourseTarget?;
    assert forall t :: t in m ==> t.LessonTarget?;
    assert forall t :: t in z ==> t.LabTarget?;
    ConcatDistinct(a, m);
    ConcatDistinct(a + m, z);
  }

  /** An item due at one cutoff is due at any later one, so a later batch
      run over the same tables visits everything an earlier one did. */
  lemma LaterRunReselects(cs: seq<Course>, ls: seq<Lesson>, bs: seq<Lab>, cutoff: Timestamp, cutoff2: Timestamp)
    requires cutoff <= cutoff2
    ensures forall t :: t in Batch(cs, ls, bs, cutoff) ==> t in Batch(cs, ls, bs, cutoff2)
  {
    BatchSelects(cs, ls, bs, cutoff);
    BatchSelects(cs, ls, bs, cutoff2);
  }

  // ---------------------------------------------------------------------
  // Prompt material
  // ---------------------------------------------------------------------

  /** The focus statement sent with an item, quoting its title. */
  function FocusHead(k: ContentType): string
  {
    "Update " + ContentTypeValue(k) + " '"
  }

  function FocusTail(k: ContentType): string
  {
    match k
    case CourseContent => "' with latest MCP server information and best practices"
    case LessonContent => "' with latest information"
    case LabContent => "' with latest best practices"
  }

  function Focus(t: Target): string
  {
    FocusHead(t.Type()) + t.Title() + FocusTail(t.Type())
  }

  /** Reads a focus statement back into the kind and the title it names. */
  function ParseFocus(s: string): Option<(ContentType, string)>
  {
    if |s| >= 8 && s[7] == 'c' then
      match Between(s, FocusHead(CourseContent), FocusTail(CourseContent))
      case None => None
      case Some(title) => Some((CourseContent, title))
    else if |s| >= 9 && s[7] == 'l' && s[8] == 'e' then
      match Between(s, FocusHead(LessonContent), FocusTail(LessonContent))
      case None => None
      case Some(title) => Some((LessonContent, title))
    else
      match Between(s, FocusHead(LabContent), FocusTail(LabContent))
      case None => None
      case Some(title) => Some((LabContent, title))
  }

  /** The focus statement names the item's kind and quotes its title
      verbatim: both can be read back from it. */
  lemma FocusRoundTrip(t: Target)
    ensures ParseFocus(Focus(t)) == Some((t.Type(), t.Title()))
  {
    var s := Focus(t);
    var h := FocusHead(t.Type());
    assert s[..|h|] == h;
    assert s[7] == h[7];
    assert t.Type() != LabContent ==> s[8] == h[8];
    BetweenOfConcat(h, t.Title(), FocusTail(t.Type()));
  }

  /** Items of the same kind with different titles get different focus
      statements, and items of different kinds always do. */
  lemma FocusIdentifiesItem(t: Target, u: Target)
    requires Focus(t) == Focus(u)
    ensures t.Type() == u.Type() && t.Title() == u.Title()
  {
    FocusRoundTrip(t);
    FocusRoundTrip(u);
  }

  /** The text of the item handed to the generator: a course's title and
      description under labels, a lesson's body as it is, a lab's
      description and instructions separated by a blank line. */
  function Snapshot(t: Target): string
  {
    match t
    case CourseTarget(c) => "Title: " + c.title + "\nDescription: " + c.description
    case LessonTarget(l) => l.content
    case LabTarget(b) => b.description + "\n\n" + b.instructions
  }

  /** The snapshot carries the item's own text verbatim, at fixed places. */
  lemma SnapshotCarriesText(t: Target)
    ensures var r := Snapshot(t);
      && (t.CourseTarget? ==>
        && |r| == 7 + |t.course.title| + 14 + |t.course.description|
        && r[..7] == "Title: "
        && r[7..7 + |t.course.title|] == t.course.title
        && r[7 + |t.course.title|..7 + |t.course.title| + 14] == "\nDescription: "
        && r[|r| - |t.course.description|..] == t.course.description)
      && (t.LessonTarget? ==> r == t.lesson.content)
      && (t.LabTarget? ==>
        && |r| == |t.lab.description| + 2 + |t.lab.instructions|
        && r[..|t.lab.description|] == t.lab.description
        && r[|t.lab.description|..|t.lab.description| + 2] == "\n\n"
        && r[|r| - |t.lab.instructions|..] == t.lab.instructions)
  {
  }

  // ---------------------------------------------------------------------
  // The generator and the proposals it leads to
  // ---------------------------------------------------------------------

  /** What a per-item attempt ends with: the generator's text, no text (the
      generator reports its own failures this way), or an exception raised
      inside the attempt. */
  datatype Generation = Reply(text: string) | NoReply | Raised(cause: string)

  /** The text generator, asked with the content type, the item's current
      text and the focus statement. */
  type Generator = (ContentType, string, string) -> Generation

  function Ask(gen: Generator, t: Target): Generation
  {
    gen(t.Type(), Snapshot(t), Focus(t))
  }

  /** A reply counts only when its text is non-empty. */
  predicate Succeeds(g: Generation)
  {
    g.Reply? && g.text != ""
  }

  /** The ledger entries one item adds: a single pending proposal when the
      generator replies with text, nothing otherwise. */
  function Proposal(t: Target, g: Generation, now: Timestamp): seq<ContentUpdate>
  {
    if Succeeds(g) then [NewContentUpdate(t.Type(), t.Id(), Focus(t), g.text, now)] else []
  }

  /** The ledger entries a sequence of items adds, in visiting order. */
  function Proposals(ts: seq<Target>, gen: Generator, now: Timestamp): seq<ContentUpdate>
  {
    FlatMap(ts, t => Proposal(t, Ask(gen, t), now))
  }

  lemma ProposalsConcat(a: seq<Target>, b: seq<Target>, gen: Generator, now: Timestamp)
    ensures Proposals(a + b, gen, now) == Proposals(a, gen, now) + Proposals(b, gen, now)
  {
    FlatMapConcat(a, b, t => Proposal(t, Ask(gen, t), now));
  }

  lemma ProposalsSnoc(ts: seq<Target>, i: nat, gen: Generator, now: Timestamp)
    requires i < |ts|
    ensures Proposals(ts[..i + 1], gen, now) == Proposals(ts[..i], gen, now) + Proposal(ts[i], Ask(gen, ts[i]), now)
  {
    FlatMapSnoc(ts, i, t => Proposal(t, Ask(gen, t), now));
  }

  /** The shape of one item's proposal: pending, not applied, stamped now,
      naming the item by kind and primary key, with the focus statement as
      the prompt and the reply as the response. */
  ghost predicate ProposalFor(u: ContentUpdate, t: Target, gen: Generator, now: Timestamp)
  {
    && Succeeds(Ask(gen, t))
    && u == ContentUpdate(t.Type(), t.Id(), Focus(t), Ask(gen, t).text, Pending, now, None)
  }

  /** Every entry a run adds is the proposal of one of its items, and every
      item whose generation produced text has its proposal among them. */
  lemma {:induction false} ProposalsAccountForItems(ts: seq<Target>, gen: Generator, now: Timestamp)
    ensures forall u :: u in Proposals(ts, gen, now) ==> exists t :: t in ts && ProposalFor(u, t, gen, now)
    ensures forall t :: t in ts && Succeeds(Ask(gen, t)) ==>
      ContentUpdate(t.Type(), t.Id(), Focus(t), Ask(gen, t).text, Pending, now, None) in Proposals(ts, gen, now)
  {
    if ts != [] {
      ProposalsAccountForItems(ts[1..], gen, now);
      var p := Proposals(ts, gen, now);
      assert p == Proposal(ts[0], Ask(gen, ts[0]), now) + Proposals(ts[1..], gen, now);
      forall u | u in p ensures exists t :: t in ts && ProposalFor(u, t, gen, now) {
        if u in Proposals(ts[1..], gen, now) {
          var t :| t in ts[1..] && ProposalFor(u, t, gen, now);
          assert t in ts;
        } else {
          assert ProposalFor(u, ts[0], gen, now);
        }
      }
    }
  }

  /** A run adds as many entries as it has items whose generation produced
      text: a failure neither adds an entry nor stops the items after it. */
  lemma {:induction false} ProposalsCount(ts: seq<Target>, gen: Generator, now: Timestamp)
    ensures |Proposals(ts, gen, now)| == |Filter(ts, t => Succeeds(Ask(gen, t)))|
  {
    if ts != [] {
      ProposalsCount(ts[1..], gen, now);
    }
  }

  /** What the command writes to its output, kept as structured lines. */
  datatype Line =
    | Updating(kind: ContentType, title: string)
    | Generated(kind: ContentType, title: string)
    | UpdateFailed(kind: ContentType, cause: string)
    | NotConfigured
    | MissingArguments

  /** The lines one item's attempt writes: a success line naming the item,
      an error line with the exception's cause, or nothing at all when the
      generator gave no text. */
  function ItemLines(t: Target, g: Generation): (r: seq<Line>)
    ensures |r| <= 1
    ensures r == [] <==> !Succeeds(g) && !g.Raised?
    ensures Succeeds(g) ==> r == [Generated(t.Type(), t.Title())]
    ensures g.Raised? ==> r == [UpdateFailed(t.Type(), g.cause)]
  {
    match g
    case Reply(text) => if text != "" then [Generated(t.Type(), t.Title())] else []
    case NoReply => []
    case Raised(cause) => [UpdateFailed(t.Type(), cause)]
  }

  /** The lines a batch run writes for one item: an announcement, then its outcome. */
  function Visit(t: Target, gen: Generator): seq<Line>
  {
    [Updating(t.Type(), t.Title())] + ItemLines(t, Ask(gen, t))
  }

  /** The lines a batch run writes, item after item. */
  function Transcript(ts: seq<Target>, gen: Generator): seq<Line>
  {
    FlatMap(ts, t => Visit(t, gen))
  }

  lemma TranscriptConcat(a: seq<Target>, b: seq<Target>, gen: Generator)
    ensures Transcript(a + b, gen) == Transcript(a, gen) + Transcript(b, gen)
  {
    FlatMapConcat(a, b, t => Visit(t, gen));
  }

  lemma TranscriptSnoc(ts: seq<Target>, i: nat, gen: Generator)
    requires i < |ts|
    ensures Transcript(ts[..i + 1], gen) == Transcript(ts[..i], gen) + Visit(ts[i], gen)
  {
    FlatMapSnoc(ts, i, t => Visit(t, gen));
  }

  /** Every exception raised while handling an item of a run is reported. */
  lemma {:induction false} TranscriptReportsFailures(ts: seq<Target>, gen: Generator)
    ensures forall t :: t in ts && Ask(gen, t).Raised? ==>
      UpdateFailed(t.Type(), Ask(gen, t).cause) in Transcript(ts, gen)
  {
    if ts != [] {
      TranscriptReportsFailures(ts[1..], gen);
    }
  }

  // ---------------------------------------------------------------------
  // Command-line options
  // ---------------------------------------------------------------------

  /** The parsed options: `--type`, `--id`, `--all` and `--days`. */
  datatype Options = Options(contentType: Option<ContentType>, id: Option<int>, all: bool, days: int)

  /** A single item is asked for when both a type and a non-zero id are given. */
  predicate SingleRequested(o: Options)
  {
    o.contentType.Some? && o.id.Some? && o.id.value != 0
  }

  /** How a run ends: normally, with the lookup of a named item failing, or
      with the cutoff of a batch run out of the representable range. */
  datatype Outcome = Finished | DoesNotExist(kind: ContentType, id: int) | CutoffOutOfRange(days: int)

  /** The item a `--type`/`--id` run names, looked up by primary key with
      no regard to publication or staleness. */
  function Lookup(cs: seq<Course>, ls: seq<Lesson>, bs: seq<Lab>, k: ContentType, id: int): (r: Option<Target>)
    ensures r.Some? ==> r.value.Type() == k && r.value.Id() == id && InTables(r.value, cs, ls, bs)
    ensures r.None? <==> match k
      case CourseContent => forall c :: c in cs ==> c.id != id
      case LessonContent => forall l :: l in ls ==> l.id != id
      case LabContent => forall b :: b in bs ==> b.id != id
  {
    match k
    case CourseContent =>
      (match FindFirst(cs, (c: Course) => c.id == id)
       case None => None
       case Some(c) => Some(CourseTarget(c)))
    case LessonContent =>
      (match FindFirst(ls, (l: Lesson) => l.id == id)
       case None => None
       case Some(l) => Some(LessonTarget(l)))
    case LabContent =>
      (match FindFirst(bs, (b: Lab) => b.id == id)
       case None => None
       case Some(b) => Some(LabTarget(b)))
  }

  // ---------------------------------------------------------------------
  // The command over the site's tables
  // ---------------------------------------------------------------------

  /** The command together with the tables it reads, the ledger of
      proposals it appends to and the lines it writes. */
  class Command {
    var courses: seq<Course>
    var lessons: seq<Lesson>
    var labs: seq<Lab>
    var updates: seq<ContentUpdate>
    var stdout: seq<Line>

    ghost predicate Valid()
      reads this
    {
      CoursesValid(courses) && LessonsValid(lessons) && LabsValid(labs) && StampsAscending(updates)
    }

    /** The clock has not run backwards: no proposal is stamped after `now`. */
    ghost predicate StampedBy(now: Timestamp)
      reads this
    {
      forall i :: 0 <= i < |updates| ==> updates[i].createdAt <= now
    }

    constructor (cs: seq<Course>, ls: seq<Lesson>, bs: seq<Lab>)
      requires CoursesValid(cs) && LessonsValid(ls) && LabsValid(bs)
      ensures Valid()
      ensures courses == cs && lessons == ls && labs == bs && updates == [] && stdout == []
    {
      courses, lessons, labs := cs, ls, bs;
      updates, stdout := [], [];
    }

    /** Refreshes one item: asks the generator, records a pending proposal
        when text comes back, and reports; an exception is reported and
        swallowed. The item and every table but the ledger stay as they were. */
    method UpdateItem(gen: Generator, t: Target, now: Timestamp)
      requires Valid() && StampedBy(now)
      modifies this`updates, this`stdout
      ensures Valid() && StampedBy(now)
      ensures courses == old(courses) && lessons == old(lessons) && labs == old(labs)
      ensures updates == old(updates) + Proposal(t, Ask(gen, t), now)
      ensures stdout == old(stdout) + ItemLines(t, Ask(gen, t))
    {
      var focus := Focus(t);
      var current := Snapshot(t);
      var reply := gen(t.Type(), current, focus);
      assert reply == Ask(gen, t);
      match reply
      case Raised(cause) =>
        assert Proposal(t, reply, now) == [];
        stdout := stdout + [UpdateFailed(t.Type(), cause)];
      case NoReply =>
        assert Proposal(t, reply, now) == [] && ItemLines(t, reply) == [];
      case Reply(text) =>
        if text != "" {
          var u := NewContentUpdate(t.Type(), t.Id(), focus, text, now);
          assert Proposal(t, reply, now) == [u];
          AppendStampedNow(updates, u, now);
          updates := updates + [u];
          stdout := stdout + [Generated(t.Type(), t.Title())];
        } else {
          assert Proposal(t, reply, now) == [] && ItemLines(t, reply) == [];
        }
    }

    /** Announces and refreshes each item of `ts` in turn. */
    method UpdateEach(gen: Generator, ts: seq<Target>, now: Timestamp)
      requires Valid() && StampedBy(now)
      modifies this`updates, this`stdout
      ensures Valid() && StampedBy(now)
      ensures courses == old(courses) && lessons == old(lessons) && labs == old(labs)
      ensures updates == old(updates) + Proposals(ts, gen, now)
      ensures stdout == old(stdout) + Transcript(ts, gen)
    {
      for i := 0 to |ts|
        invariant Valid() && StampedBy(now)
        invariant courses == old(courses) && lessons == old(lessons) && labs == old(labs)
        invariant updates == old(updates) + Proposals(ts[..i], gen, now)
        invariant stdout == old(stdout) + Transcript(ts[..i], gen)
      {
        ghost var written := stdout;
        stdout := stdout + [Updating(ts[i].Type(), ts[i].Title())];
        UpdateItem(gen, ts[i], now);
        ProposalsSnoc(ts, i, gen, now);
        AppendTwo(old(updates), Proposals(ts[..i], gen, now), Proposal(ts[i], Ask(gen, ts[i]), now));
        TranscriptSnoc(ts, i, gen);
        AppendTwo(written, [Updating(ts[i].Type(), ts[i].Title())], ItemLines(ts[i], Ask(gen, ts[i])));
        AppendTwo(old(stdout), Transcript(ts[..i], gen), Visit(ts[i], gen));
      }
      assert ts[..|ts|] == ts;
    }

    /** `--all`: refreshes every due course, then every due lesson, then
        every due lab. A cutoff out of the representable range stops the
        run before anything is read, recorded or written. */
    method UpdateAllContent(gen: Generator, days: int, now: Timestamp) returns (r: Outcome)
      requires Valid() && StampedBy(now)
      modifies this`updates, this`stdout
      ensures Valid() && StampedBy(now)
      ensures courses == old(courses) && lessons == old(lessons) && labs == old(labs)
      ensures !CutoffInRange(now, days) ==>
        r == CutoffOutOfRange(days) && updates == old(updates) && stdout == old(stdout)
      ensures CutoffInRange(now, days) ==>
        && r == Finished
        && updates == old(updates) + Proposals(Batch(courses, lessons, labs, Cutoff(now, days)), gen, now)
        && stdout == old(stdout) + Transcript(Batch(courses, lessons, labs, Cutoff(now, days)), gen)
    {
      if !CutoffInRange(now, days) {
        return CutoffOutOfRange(days);
      }
      var cutoff := Cutoff(now, days);
      var dueCourses := DueTargets(CourseTargets(courses), cutoff);
      var dueLessons := DueTargets(LessonTargets(lessons), cutoff);
      var dueLabs := DueTargets(LabTargets(labs), cutoff);
      ghost var batch := Batch(courses, lessons, labs, cutoff);
      assert batch == dueCourses + dueLessons + dueLabs;
      UpdateEach(gen, dueCourses, now);
      UpdateEach(gen, dueLessons, now);
      UpdateEach(gen, dueLabs, now);
      ProposalsConcat(dueCourses, dueLessons, gen, now);
      ProposalsConcat(dueCourses + dueLessons, dueLabs, gen, now);
      AppendThree(old(updates), Proposals(dueCourses, gen, now), Proposals(dueLessons, gen, now), Proposals(dueLabs, gen, now));
      TranscriptConcat(dueCourses, dueLessons, gen);
      TranscriptConcat(dueCourses + dueLessons, dueLabs, gen);
      AppendThree(old(stdout), Transcript(dueCourses, gen), Transcript(dueLessons, gen), Transcript(dueLabs, gen));
      r := Finished;
    }

    /** `--type`/`--id`: refreshes the named item, whether or not it is
        published or due; when no such item exists the lookup fails and
        nothing is recorded or written. */
    method UpdateSpecificContent(gen: Generator, k: ContentType, id: int, now: Timestamp) returns (r: Outcome)
      requires Valid() && StampedBy(now)
      modifies this`updates, this`stdout
      ensures Valid() && StampedBy(now)
      ensures courses == old(courses) && lessons == old(lessons) && labs == old(labs)
      ensures match Lookup(courses, lessons, labs, k, id)
        case None => r == DoesNotExist(k, id) && updates == old(updates) && stdout == old(stdout)
        case Some(t) =>
          && r == Finished
          && updates == old(updates) + Proposal(t, Ask(gen, t), now)
          && stdout == old(stdout) + ItemLines(t, Ask(gen, t))
    {
      var found := Lookup(courses, lessons, labs, k, id);
      match found
      case None =>
        r := DoesNotExist(k, id);
      case Some(t) =>
        UpdateItem(gen, t, now);
        r := Finished;
    }

    /** The command's entry point. Without an API key nothing is attempted;
        `--all` wins over `--type`/`--id`; otherwise both a type and a
        non-zero id are needed, or only a usage error is written. */
    method Handle(apiKey: string, opts: Options, gen: Generator, now: Timestamp) returns (r: Outcome)
      requires Valid() && StampedBy(now)
      modifies this`updates, this`stdout
      ensures Valid() && StampedBy(now)
      ensures courses == old(courses) && lessons == old(lessons) && labs == old(labs)
      ensures apiKey == "" ==>
        r == Finished && updates == old(updates) && stdout == old(stdout) + [NotConfigured]
      ensures apiKey != "" && opts.all && !CutoffInRange(now, opts.days) ==>
        r == CutoffOutOfRange(opts.days) && updates == old(updates) && stdout == old(stdout)
      ensures apiKey != "" && opts.all && CutoffInRange(now, opts.days) ==>
        var b := Batch(courses, lessons, labs, Cutoff(now, opts.days));
        r == Finished && updates == old(updates) + Proposals(b, gen, now) && stdout == old(stdout) + Transcript(b, gen)
      ensures apiKey != "" && !opts.all && SingleRequested(opts) ==>
        match Lookup(courses, lessons, labs, opts.contentType.value, opts.id.value)
        case None => r == DoesNotExist(opts.contentType.value, opts.id.value)
          && updates == old(updates) && stdout == old(stdout)
        case Some(t) =>
          && r == Finished
          && updates == old(updates) + Proposal(t, Ask(gen, t), now)
          && stdout == old(stdout) + ItemLines(t, Ask(gen, t))
      ensures apiKey != "" && !opts.all && !SingleRequested(opts) ==>
        r == Finished && updates == old(updates) && stdout == old(stdout) + [MissingArguments]
    {
      if apiKey == "" {
        stdout := stdout + [NotConfigured];
        return Finished;
      }
      if opts.all {
        r := UpdateAllContent(gen, opts.days, now);
      } else if SingleRequested(opts) {
        r := UpdateSpecificContent(gen, opts.contentType.value, opts.id.value, now);
      } else {
        stdout := stdout + [MissingArguments];
        r := Finished;
      }
    }

    /** Two `--all` runs, the second at the same time or later and with
        whatever replies the generator gives then. A refresh never stamps
        the item it refreshes, so the second run selects every item the
        first one did, and it appends a fresh proposal for each success
        whether or not the first run already proposed one: nothing is
        deduplicated. */
    method UpdateAllTwice(gen: Generator, gen2: Generator, days: int, now: Timestamp, now2: Timestamp)
      returns (r: Outcome, r2: Outcome)
      requires Valid() && StampedBy(now) && now <= now2
      modifies this`updates, this`stdout
      ensures Valid() && StampedBy(now2)
      ensures courses == old(courses) && lessons == old(lessons) && labs == old(labs)
      ensures forall t :: t in Batch(courses, lessons, labs, Cutoff(now, days)) ==>
        t in Batch(courses, lessons, labs, Cutoff(now2, days))
      ensures updates == old(updates)
        + (if CutoffInRange(now, days) then Proposals(Batch(courses, lessons, labs, Cutoff(now, days)), gen, now) else [])
        + (if CutoffInRange(now2, days) then Proposals(Batch(courses, lessons, labs, Cutoff(now2, days)), gen2, now2) else [])
    {
      ghost var first := if CutoffInRange(now, days) then Proposals(Batch(courses, lessons, labs, Cutoff(now, days)), gen, now) else [];
      ghost var second := if CutoffInRange(now2, days) then Proposals(Batch(courses, lessons, labs, Cutoff(now2, days)), gen2, now2) else [];
      r := UpdateAllContent(gen, days, now);
      assert updates == old(updates) + first;
      assert StampedBy(now2);
      ghost var between := updates;
      r2 := UpdateAllContent(gen2, days, now2);
      assert updates == between + second;
      LaterRunReselects(courses, lessons, labs, Cutoff(now, days), Cutoff(now2, days));
    }
  }

  lemma AppendStampedNow(us: seq<ContentUpdate>, u: ContentUpdate, now: Timestamp)
    requires StampsAscending(us) && forall i :: 0 <= i < |us| ==> us[i].createdAt <= now
    requires u.createdAt == now
    ensures StampsAscending(us + [u]) && forall i :: 0 <= i < |us + [u]| ==> (us + [u])[i].createdAt <= now
  {
  }

  /** Appending proposals stamped `now` keeps the ledger in creation order
      when nothing in it is stamped later. */
  lemma AppendKeepsStampsAscending(us: seq<ContentUpdate>, ts: seq<Target>, gen: Generator, now: Timestamp)
    requires StampsAscending(us)
    requires forall i :: 0 <= i < |us| ==> us[i].createdAt <= now
    ensures StampsAscending(us + Proposals(ts, gen, now))
  {
    ProposalsAccountForItems(ts, gen, now);
    var p := Proposals(ts, gen, now);
    var all := us + p;
    forall i, j | 0 <= i < j < |all| ensures all[i].createdAt <= all[j].createdAt {
      if j >= |us| {
        assert all[j] in p;
        if i >= |us| {
          assert all[i] in p;
        }
      }
    }
  }
}
