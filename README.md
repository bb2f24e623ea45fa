# Content refresh and course navigation, modelled in Dafny

The site teaches MCP-server development through courses, lessons and hands-on
labs. This model covers three parts of it.

- **The `update_content` management command.** It picks the published items
  whose last automated refresh is missing or older than a cutoff. It visits
  the due courses, then the due lessons, then the due labs. For each one it
  asks a text generator for a revision. Each time text comes back, it
  appends a *pending* `ContentUpdate` proposal to the ledger, which is where
  an editor reviews proposals. It can also refresh a single item chosen by
  kind and primary key.
- **The records it works on.** This covers the content kinds and the
  proposal, their choice domains and defaults, their uniqueness constraints,
  their default listing order and their display strings.
- **The site's list and navigation rules.** These are the published-only
  listings with their optional difficulty filter, the six courses on the home
  page, the course page, and the previous and next lesson on a lesson page.

Modules:

- `Util`: generic helpers. `Option`, an order-preserving `Filter` stands in
  for a queryset filter, `FindFirst` stands in for a single-row lookup, plus
  pairwise sequence properties and string splitting.
- `Models` (`models.dfy`): the records and their invariants.
- `UpdateContent` (`update_content.dfy`): the command. Its selection rule and
  prompt texts are functions. Its run is a `Command` class holding the
  tables, the ledger (`updates`) and the lines written (`stdout`). Each of
  its methods is proved against specification functions: `UpdateItem`
  against `Proposal` and `ItemLines`, and the loops against `Proposals` and
  `Transcript`.
- `Views` (`views.dfy`): the page logic, as functions over the tables.

Conventions:

- Tables are sequences kept in their default listing order (`order`, then
  `title`).
- The clock is a parameter `now`, in whole seconds, used both for the
  cutoff and for the proposals' `created_at` (see "## Left out").
- The generator is a function parameter. Its result is one of three:
  - `Reply(text)`: the service's text. `Reply("")` is an empty text.
  - `NoReply`: the service returned nothing, after printing its own error
    line, which is outside the model.
  - `Raised(cause)`: an exception raised inside the per-item attempt.

  Neither `NoReply` nor `Reply("")` adds a proposal or writes a line.
- Timestamps are whole seconds since 0001-01-01 00:00:00 UTC, the earliest
  instant a date-time can hold.

## Model

| member | source | states |
|---|---|---|
| Models.ParseContentType | hello/models.py:138-145 | a stored content type is accepted exactly when it is one of course, lesson, lab, and then denotes the kind whose stored value it is |
| Models.ContentTypeRoundTrip | hello/models.py:138-145 | every content kind's stored value reads back to that kind |
| Models.ParseStatus | hello/models.py:149-157 | a stored status is accepted exactly when it is one of pending, approved, rejected, and then denotes the status whose stored value it is |
| Models.StatusRoundTrip | hello/models.py:149-157 | every status's stored value reads back to that status |
| Models.NewCourse | hello/models.py:30-44 | a new course is for beginners, takes 60 minutes, has order 0, is published and has never been refreshed |
| Models.NewLesson | hello/models.py:62-66 | a new lesson has order 0, is published and has never been refreshed |
| Models.NewLab | hello/models.py:81-103 | a new lab has no course and no lesson, empty starter and solution code, medium difficulty, 30 minutes, order 0, is published and has never been refreshed |
| Models.NewContentUpdate | hello/models.py:146-159 | a new proposal is pending, not applied, stamped with its creation time, and carries the given kind, target, prompt and response |
| Models.Listing | hello/models.py:161-162 | proposals are listed newest first, and the listing holds exactly the ledger's proposals |
| Models.NatRoundTrip | hello/models.py:164-165 | the decimal numeral of a natural number reads back to it |
| Models.IntRoundTrip | hello/models.py:164-165 | the numeral of any primary key, negative ones included, reads back to it |
| Models.UpdateLabel | hello/models.py:164-165 | a proposal's display string: content type, " #", target key, " - ", status; what it determines is proved in UpdateLabelRoundTrip |
| Models.UpdateLabelRoundTrip | hello/models.py:164-165 | a proposal's display string "type #id - status" gives back its content type, target key and status |
| Models.UpdateLabelInjective | hello/models.py:164-165 | two proposals with the same display string agree on content type, target key and status |
| Models.LessonLabel | hello/models.py:72-73 | a lesson displays as the title of the course it belongs to, " - ", its own title, each at a fixed position |
| Models.CoursesValid | hello/models.py:26-47 | the course table: primary keys and slugs unique, rows in order-then-title listing order |
| Models.LessonsValid | hello/models.py:58-70 | the lesson table: primary keys unique, a slug unique within its course, rows in order-then-title listing order |
| Models.LabsValid | hello/models.py:84-106 | the lab table: primary keys and slugs unique, rows in order-then-title listing order |
| UpdateContent.IsDue | hello/management/commands/update_content.py:77-81 | the staleness rule itself (also lines 88-92 and 99-103): published, and never refreshed or refreshed strictly before the cutoff; its edges are proved in DueBoundary |
| UpdateContent.Cutoff | hello/management/commands/update_content.py:74 | the cutoff is the clock reading less `days` whole days; when it can be computed is stated by CutoffRange and UpdateAllContent |
| UpdateContent.CutoffInRange | hello/management/commands/update_content.py:74 | the span of `days` days and the instant that far before the clock reading are both representable, so the subtraction does not raise an overflow error; its edges are proved in CutoffRange, and UpdateAllContent ends the run without effect when it fails |
| UpdateContent.CutoffRange | hello/management/commands/update_content.py:74 | the default week back from any clock reading a week into the date range gives a cutoff; a span reaching back before year 1, or longer than 999999999 days, never does |
| UpdateContent.DueBoundary | hello/management/commands/update_content.py:74-81 | the staleness rule's edges: unpublished is never due; published and never refreshed is always due; stamped exactly at now minus days is not due; one second earlier is due |
| UpdateContent.NewItemsAreDue | hello/models.py:41-44 | a course, lesson or lab created with its defaults is due for any cutoff |
| UpdateContent.DueTargets | hello/management/commands/update_content.py:77-81 | an item is kept exactly when it is in the table, published, and never refreshed or refreshed strictly before the cutoff |
| UpdateContent.Batch | hello/management/commands/update_content.py:76-107 | the items a batch run visits: the due courses, then the due lessons, then the due labs, each in table order; what it selects is proved in BatchSelects, its order in BatchKindsInOrder |
| UpdateContent.BatchSelects | hello/management/commands/update_content.py:72-107 | a batch run visits an item if and only if it is in its table and due |
| UpdateContent.BatchKindsInOrder | hello/management/commands/update_content.py:76-107 | every course visited comes before every lesson visited, and every lesson before every lab |
| UpdateContent.BatchVisitsEachOnce | hello/management/commands/update_content.py:83-107 | over tables with unique primary keys, no item is visited twice |
| UpdateContent.LaterRunReselects | hello/management/commands/update_content.py:74-107 | an item due at one cutoff is due at any later cutoff, so a later run over the same tables visits every item an earlier one did |
| UpdateContent.Focus | hello/management/commands/update_content.py:112 | the focus statement of each kind (also lines 142 and 169); what it determines is proved in FocusRoundTrip |
| UpdateContent.Snapshot | hello/management/commands/update_content.py:113 | the current text handed to the generator for each kind (also lines 143 and 170); its layout is proved in SnapshotCarriesText |
| UpdateContent.FocusRoundTrip | hello/management/commands/update_content.py:112 | the focus statement names the item's kind and quotes its title verbatim, and both can be read back (likewise lines 142 and 169) |
| UpdateContent.FocusIdentifiesItem | hello/management/commands/update_content.py:112 | two items with the same focus statement have the same kind and title |
| UpdateContent.SnapshotCarriesText | hello/management/commands/update_content.py:113 | the course text is "Title: ", the title, "\nDescription: ", the description, each at its fixed position. The lesson text is its content verbatim (line 143). The lab text is description, blank line, instructions (line 170) |
| UpdateContent.Succeeds | hello/management/commands/update_content.py:121 | the `if updated_content:` test (also lines 151 and 178): a reply counts only when it holds non-empty text; ProposalsCount and ItemLines state its effect |
| UpdateContent.Proposal | hello/management/commands/update_content.py:123-129 | the proposal row one item adds (also lines 152-158 and 179-185): a pending entry for the item's kind and key, with its focus as prompt and the reply as response, exactly when the reply succeeds; stated by ProposalsAccountForItems and UpdateItem |
| UpdateContent.ProposalsAccountForItems | hello/management/commands/update_content.py:121-129 | every proposal a run adds is the pending, unapplied, now-stamped proposal of one visited item, with its focus statement as prompt and the reply as response; every visited item whose generation produced text has such a proposal |
| UpdateContent.ProposalsCount | hello/management/commands/update_content.py:121-137 | a run adds exactly as many proposals as it has items whose generation produced non-empty text |
| UpdateContent.ItemLines | hello/management/commands/update_content.py:121-137 | an item's attempt writes at most one line, none exactly when no exception was raised and no non-empty text came back; text gives the success line naming the item, an exception the error line with its cause |
| UpdateContent.Visit | hello/management/commands/update_content.py:84-85 | in a batch run, each item's announcement followed by its attempt's lines (also lines 95-96 and 106-107) |
| UpdateContent.TranscriptReportsFailures | hello/management/commands/update_content.py:136-137 | every exception raised while refreshing an item of a run is reported with its cause |
| UpdateContent.Lookup | hello/management/commands/update_content.py:60-70 | the named item is found exactly when its table holds that primary key, and is then the row of that kind with that key, published or not |
| UpdateContent.SingleRequested | hello/management/commands/update_content.py:55 | `content_type and content_id`: a type is given and the id is given and non-zero; Handle states the dispatch it decides |
| UpdateContent.Command.UpdateItem | hello/management/commands/update_content.py:109-137 | one item's refresh appends its proposal (one pending entry when text came back, none otherwise) and writes its outcome line; the tables are unchanged; the ledger stays in creation order |
| UpdateContent.Command.UpdateEach | hello/management/commands/update_content.py:83-85 | refreshing a list of items appends exactly their proposals in order, and writes an announcement for each item, followed by its outcome line if any; a failure does not stop the items after it |
| UpdateContent.Command.UpdateAllContent | hello/management/commands/update_content.py:72-107 | a batch run appends exactly the proposals of the batch at cutoff now minus days and writes its transcript; a cutoff out of the date range ends the run with nothing appended or written; the tables are unchanged |
| UpdateContent.Command.UpdateSpecificContent | hello/management/commands/update_content.py:60-70 | a missing item ends the run as does-not-exist, adding no proposal and writing nothing; a found item is refreshed as in a batch but without an announcement |
| UpdateContent.Command.Handle | hello/management/commands/update_content.py:41-58 | no key: only the not-configured line. `--all` wins over `--type`/`--id`, and fails without effect when its cutoff is out of range. A type and a non-zero id refresh that one item. Otherwise only the usage error is written. |
| UpdateContent.Command.UpdateAllTwice | hello/management/commands/update_content.py:109-191 | a refresh never stamps the item it refreshes, so a second run, at the same time or later and with any generator, visits every item the first did, and appends its own proposals after the first run's with no deduplication |
| UpdateContent.AppendKeepsStampsAscending | hello/models.py:158-162 | appending proposals stamped now keeps the ledger in creation order when nothing in it is stamped later |
| Views.PublishedCourses | hello/views.py:23 | the published courses are exactly the published rows of the table |
| Views.Given | hello/views.py:25 | `if difficulty:` (also line 80): the parameter takes effect only when present and non-empty; CourseList and LabList state its effect |
| Views.CourseList | hello/views.py:23-26 | a course is listed exactly when it is published and, if a non-empty difficulty is given, its level has that value |
| Views.CourseListKeepsOrder | hello/views.py:23-26 | the course list keeps the default listing order |
| Views.CourseListUnknownLevel | hello/views.py:25-26 | a difficulty that is not a level choice lists nothing |
| Views.LabList | hello/views.py:78-81 | a lab is listed exactly when it is published and, if a non-empty difficulty is given, its difficulty has that value |
| Views.LabListKeepsOrder | hello/views.py:78-81 | the lab list keeps the default listing order |
| Views.LabListUnknownDifficulty | hello/views.py:80-81 | a difficulty that is not a lab choice lists nothing |
| Views.HomeCourses | hello/views.py:10 | the home page shows the first six published courses, or all of them when fewer |
| Views.HomeShowsEarliest | hello/views.py:10 | every course shown comes no later in listing order than any published course left out |
| Views.CourseBySlug | hello/views.py:37 | finds a published course with the slug when one exists, and nothing only when none does |
| Views.CourseBySlugFinds | hello/views.py:37 | since course slugs are unique, the lookup finds exactly the published course with that slug |
| Views.PublishedLessonsOf | hello/views.py:38 | a course's listed lessons are exactly its published lessons |
| Views.PublishedLabsOf | hello/views.py:39 | a course's listed labs are exactly the published labs attached to it |
| Views.CourseDetail | hello/views.py:35-46 | not found exactly when no published course has the slug; otherwise that course with exactly its published lessons and its published labs |
| Views.LessonBySlugs | hello/views.py:51-52 | found exactly when a published course has the course slug and one of its published lessons has the lesson slug |
| Views.IndexOf | hello/views.py:60 | the first position holding a lesson with the given primary key, or none when no position does |
| Views.Adjacent | hello/views.py:58-65 | the previous lesson is the one right before the first place the lesson occurs, the next the one right after it; no previous lesson exactly when the lesson is absent or first, no next one exactly when it is absent or last |
| Views.ArrangedByOrder | hello/views.py:58 | what `order_by('order')` may return: a rearrangement of the course's published lessons with `order` never decreasing; ArrangedLessons and AdjacentLessons state what follows from it |
| Views.ArrangedLessons | hello/views.py:58 | the lessons the page walks through are the course's published lessons, each exactly once |
| Views.AdjacentLessons | hello/views.py:58-65 | the page's lesson is always in its course's list sorted by order. Its previous and next lessons are the ones right before and right after it, other published lessons of the same course, no later and no earlier by order. There is no previous lesson exactly when it is first, and no next one exactly when it is last. |

## Left out

- Calls to the text-generation service, with its prompt templates, its
  client and its network access: hello/services/claude_service.py is not
  part of this model. The generator is a function parameter instead. Its
  constructor's failure on a missing key is the empty `apiKey` string.
- The ORM:
  - tables are sequences, filters are predicates and lookups are
    first-match searches;
  - auto-assigned keys are not modelled;
  - `created_at`/`updated_at` on content items are not modelled;
  - image fields are not modelled;
  - a store that cannot hold a row is not modelled.
- Wall-clock time: it is the parameter `now`, and several clock readings
  are collapsed into it. A batch run reads the clock once for its cutoff
  (hello/management/commands/update_content.py:74). Each proposal is then
  stamped on save with its own, later reading (hello/models.py:158), so
  the proposals of one run really carry increasing stamps, all after the
  cutoff's reading. A `--type`/`--id` run reads the clock only for those
  stamps. The model gives every stamp of a run the same value `now`.
  - `Command.StampedBy(now)` is the assumption that the clock never runs
    backwards, so no existing proposal is stamped after `now`.
  - Days are whole multiples of 86400 seconds, and time zones are ignored.
- Views.AdjacentLessons: the database's `order_by('order')` is the parameter
  `ordered`. `ArrangedByOrder` constrains it to a permutation of the
  course's published lessons with non-decreasing `order`. How ties are
  broken is left open.
- Output styling: lines written are structured `Line` values. Text, colours
  and line breaks are not modelled.
- Command-line parsing is not modelled:
  - `--type` is taken as already restricted to its three choices;
  - `--days` is taken as already parsed; its parser default is `DefaultDays`.
- Markdown conversion, template rendering, the admin, URL routing and the
  seeding scripts: these are foreign libraries or declarative configuration.
- The `lab_detail`, `learning_path_list` and `learning_path_detail` pages,
  and the learning paths and providers on the home page, are not modelled.
  Learning paths and MCP providers are not part of this model.
- Approving, rejecting and applying proposals are not modelled, because no
  code here does them. Only the status domain and its default are.
- Course and lab display strings are their bare titles, so they need no
  model.
- The command writes no line of its own when the generator gives no text
  (`ItemLines`): neither for `NoReply`, the service returning nothing, nor
  for `Reply("")`, an empty text. Before returning nothing the service
  prints its own error line, which is outside the model.
- The generator is a function of the content type, the current text and
  the focus statement. Two items with the same kind, title and text get
  the same outcome within a run, though two real calls to the service may
  differ. No property proved here compares two such items.
- The command's error line carries the exception's cause, not the item's
  title, and the command reports each item as it goes.
- An exception that escapes the command (`DoesNotExist`, `CutoffOutOfRange`)
  is an `Outcome`; the error report the framework then prints is not
  modelled.
- Cutoffs and clock readings are whole seconds; the microseconds of a clock
  reading are not modelled.
