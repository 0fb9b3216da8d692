# Dante library content seeding, in Dafny

This project models the content core of the Dante library API, a Django service. The core is the store contract of the
five content tables (`content/models.py`) and the three management commands that fill them:

- `seed_all_grades` walks a root folder. Its all-digit subfolders are grades, then come subjects, chapters, part
  folders and HTML files.
- `seed_grade10` walks one grade folder as grade 10. It keeps counters and probes upward for a free part number.
- `seed_content` runs a fixed table of grades, subjects, lessons, chapters and parts.

It also models the response-envelope renderer (`dante_library_project/renderers.py`), which wraps every JSON
response in `{status_code, message, data}`.

Files and modules:

| file | module | what it holds |
|---|---|---|
| `wrappers.dfy` | `Wrappers` | `Option` |
| `store.dfy` | `Store` | The tables as maps keyed by their natural keys. The `HierarchyStore` class and its `get_or_create` methods. `Apply`/`ApplyAll` as a specification of a run of `get_or_create` calls. Cascading deletes. The `ordering` of chapters and parts. |
| `names.dfy` | `Names` | `normalize_code`, `normalize_subject_code`, `extract_number`, folder titles, file suffix and stem |
| `quoting.dfy` | `Quoting` | `urllib.parse.quote` over UTF-8, `quote_segments`, and a decoder that reads a content URL back |
| `tree.dfy` | `Tree` | The folder tree, Python's string order, the stable `sorted`, `find_html_files` |
| `seed_all_grades.dfy` | `SeedAllGrades` | The store-independent plan of `get_or_create` calls, and the `GradeScanner` class whose methods are proved to make exactly those calls |
| `seed_all_grades_facts.dfy` | `SeedAllGradesFacts` | What the plan means: numbering, URLs, grade order, lesson titles, idempotence |
| `seed_grade10.dfy` | `SeedGrade10` | The walk as functions over (store, tallies), and the methods of `handle` proved to end where those functions do |
| `seed_grade10_facts.dfy` | `SeedGrade10Facts` | The counters, the probe, the numbering defaults, the URLs, and the re-run that duplicates parts |
| `seed_content.dfy` | `SeedContent` | The command's tables, its plan, and the methods of `handle` |
| `seed_content_facts.dfy` | `SeedContentFacts` | What the plan creates and keeps: grades, subjects, totals, chapters and parts per lesson, part URLs, idempotence |
| `renderers.dfy` | `Renderers` | Python values, the first-error-message search as a reference function and as the loop method, and the envelope |

How the model is built:

- The store is the `Db` datatype: one map per table, keyed by the table's natural key. The `unique` and
  `unique_together` constraints therefore hold by construction. The key of a chapter is its (lesson, number) pair.
- A command's writes are a sequence of `Op` values, one per `get_or_create` call.
- `ApplyAll(db, ops)` is the store after the calls. For `seed_all_grades` and `seed_content` each method that walks
  the folders or the tables is proved to leave `ApplyAll(old state, plan)`.
- Generic lemmas about `ApplyAll` then give the run's properties: no row is modified, only named keys gain rows, and a
  second run is a no-op.
- `seed_grade10` probes the store before it writes, so its walk is a function of the store and the two tallies. Its
  methods are proved to end where that function does.

## Model

| member | source | states |
|---|---|---|
| Store.UrlPart | content/models.py:58-73 | A seeded part has content type `url`, mime `text/html` (the model default), the given URL and title, and the default empty HTML |
| Store.Apply | content/models.py:14-77 | `get_or_create`: an existing key leaves the store unchanged, no row is modified, and exactly the named key is added |
| Store.ApplyAll | content/models.py:14-77 | Reference definition: the store after a sequence of `get_or_create` calls, applied in order. The lemmas `ApplyAll*` below state its properties |
| Store.ApplyAllAppend | content/models.py:14-77 | Running two call sequences one after the other is running their concatenation |
| Store.ApplyAllExtends | content/management/commands/seed_all_grades.py:60-63 | A run of `get_or_create` calls never modifies or removes an existing row |
| Store.ApplyAllKeys | content/models.py:14-77 | After a run a key has a row exactly when it had one before or some call named it |
| Store.ApplyAllCovers | content/models.py:14-77 | Every key a call named has a row after the run |
| Store.ApplyAllPresent | content/models.py:14-77 | When every named key already exists the run changes nothing |
| Store.ApplyAllIdempotent | content/management/commands/seed_all_grades.py:187-191 | Running the same calls again on the result changes nothing |
| Store.ApplyAllNewGrades | content/models.py:14-16 | A grade the run created holds the defaults of a grade call that named it |
| Store.ApplyAllNewSubjects | content/models.py:22-25 | A subject the run created holds the defaults of a subject call that named it |
| Store.ApplyAllNewParts | content/models.py:58-73 | A part the run created holds the defaults of a part call that named it |
| Store.ApplyAllFresh | content/models.py:14-77 | Calls naming distinct new keys add one row each to the table they write |
| Store.ApplyFreshSize | content/models.py:14-77 | A call naming a new key adds exactly one row to its own table and none elsewhere |
| Store.ApplyConsistent | content/models.py:32-66 | A call whose parent rows exist keeps every foreign key valid |
| Store.ApplyAllConsistent | content/models.py:32-66 | A run whose calls come after their parents keeps every foreign key valid |
| Store.DeleteGradeCascades | content/models.py:32 | Deleting a grade keeps the store consistent. The grades are the old ones without it, and the subjects are unchanged. The lessons, chapters and parts kept are exactly those not under it. Every kept row is unchanged |
| Store.DeleteSubjectCascades | content/models.py:33 | Deleting a subject keeps the store consistent. The subjects are the old ones without it, and the grades are unchanged. The lessons, chapters and parts kept are exactly those not under it. Every kept row is unchanged |
| Store.DeleteLessonCascades | content/models.py:45 | Deleting a lesson keeps the store consistent. The lessons are the old ones without it, and the grades and subjects are unchanged. The chapters and parts kept are exactly those not under it. Every kept row is unchanged |
| Store.DeleteChapterCascades | content/models.py:66 | Deleting a chapter keeps the store consistent. The chapters are the old ones without it, and the grades, subjects and lessons are unchanged. The parts kept are exactly those not under it. Every kept row is unchanged |
| Store.DeleteGrade | content/models.py:32 | Reference definition of `Grade.delete()` under `on_delete=CASCADE`; `DeleteGradeCascades` states its effect |
| Store.DeleteSubject | content/models.py:33 | Reference definition of `Subject.delete()` with the cascade; `DeleteSubjectCascades` states its effect |
| Store.DeleteLesson | content/models.py:45 | Reference definition of `Lesson.delete()` with the cascade; `DeleteLessonCascades` states its effect |
| Store.DeleteChapter | content/models.py:66 | Reference definition of `Chapter.delete()` with the cascade; `DeleteChapterCascades` states its effect |
| Store.Least | content/models.py:52 | The least element of a non-empty set of numbers |
| Store.SortedNumbers | content/models.py:52 | A set of numbers listed ascending, each once |
| Store.ChapterNumbers | content/models.py:51-52 | A lesson's chapters list in ascending number, each number once, exactly those stored |
| Store.PartNumbers | content/models.py:76-77 | A chapter's parts list in ascending number, each number once, exactly those stored |
| Store.HierarchyStore.constructor | content/models.py:14-77 | The store starts in the given state |
| Store.HierarchyStore.GetOrCreateGrade | content/models.py:14-16 | The new state is `Apply` of the grade call; `created` exactly when the code was missing; returns the stored row |
| Store.HierarchyStore.GetOrCreateSubject | content/models.py:22-25 | The same for a subject, keyed by its unique code |
| Store.HierarchyStore.GetOrCreateLesson | content/models.py:31-38 | The same for a lesson, keyed by (grade, subject) |
| Store.HierarchyStore.GetOrCreateChapter | content/models.py:44-52 | The same for a chapter, keyed by (lesson, number) |
| Store.HierarchyStore.GetOrCreatePart | content/models.py:66-77 | The same for a part, keyed by (chapter, number) |
| Store.HierarchyStore.PartExists | content/management/commands/seed_grade10.py:119 | `filter(chapter, number).exists()` is true exactly when the key has a row |
| Store.HierarchyStore.CreatePart | content/management/commands/seed_grade10.py:186 | `create` on a free key stores the part under it |
| Store.AfterSubjectTitle | content/management/commands/seed_all_grades.py:80-86 | A lesson titled from the stored subject's title is what the plan's subject-derived title yields |
| Names.ReplaceNonAlnumRuns | content/management/commands/seed_all_grades.py:17 | Only letters, digits and single `_` remain, and the letters and digits are kept in order; `ReplaceSplit` and `ReplaceWord` state where each `_` goes |
| Names.ReplaceSplit | content/management/commands/seed_all_grades.py:17 | A run of other characters between a part ending in a letter or digit (or empty) and one starting with one (or empty) becomes exactly one `_` there, each side replaced on its own |
| Names.ReplaceWord | content/management/commands/seed_all_grades.py:17 | A word of only letters and digits is unchanged |
| Names.CollapseSepsFixes | content/management/commands/seed_all_grades.py:18 | Collapsing `_` runs leaves a string without doubled `_` unchanged |
| Names.StripSepSlice | content/management/commands/seed_all_grades.py:18 | `strip("_")` is a slice whose removed ends are all `_` |
| Names.NormalizeCode | content/management/commands/seed_all_grades.py:16-19 | The code uses only lowercase letters, digits and `_`, with no doubled `_` and no `_` at either end |
| Names.NormalizeCodeKeepsAlnums | content/management/commands/seed_all_grades.py:16-19 | The code's letters and digits are the name's, lowercased and in order |
| Names.NormalizeCodeEmpty | content/management/commands/seed_all_grades.py:16-19 | The code is empty exactly when the name has no letter or digit, so `""` maps to `""` |
| Names.NormalizeCodeFixesCodes | content/management/commands/seed_all_grades.py:16-19 | A well-formed code is its own normal form |
| Names.NormalizeCodeIdempotent | content/management/commands/seed_all_grades.py:16-19 | `normalize_code` is idempotent |
| Names.TrailingDigits | content/management/commands/seed_grade10.py:17 | The length of the maximal run of digits at the end of a string |
| Names.DropSepKeepsCode | content/management/commands/seed_grade10.py:17 | Dropping the `_` before a trailing number keeps a well-formed code |
| Names.DropSepBeforeTrailingDigits | content/management/commands/seed_grade10.py:17 | Reference definition of `re.sub(r"_(\d+)$", r"\1", s)`; `DropSepEffect`, `DropSepNoMatch`, `DropSepKeepsCode` and `DropSepKeepsAlnums` state what it does |
| Names.DropSepEffect | content/management/commands/seed_grade10.py:17 | A string ending in `_` and a run of digits loses exactly that `_`; everything before it and the digits stay |
| Names.DropSepNoMatch | content/management/commands/seed_grade10.py:17 | A string with no `_` followed only by digits to its end is left unchanged |
| Names.DropSepKeepsAlnums | content/management/commands/seed_grade10.py:17 | Dropping that `_` keeps the letters and digits |
| Names.NormalizeSubjectCode | content/management/commands/seed_grade10.py:14-18 | `normalize_code` followed by dropping the `_` before a trailing digit run: still a well-formed code with the same letters and digits |
| Names.NormalizeTwoWords | content/management/commands/seed_all_grades.py:16-19 | Two words of letters and digits with a run of other characters between them normalise to the lowered words joined by one `_` |
| Names.SubjectCodeOfWordNumber | content/management/commands/seed_grade10.py:14-18 | A name `<word>_<number>` (word ending in a non-digit) has `normalize_code` `<lowered word>_<number>` and `normalize_subject_code` `<lowered word><number>`, so `Biology_1` gives `biology_1` and `biology1` |
| Names.DigitRun | content/management/commands/seed_all_grades.py:23 | The length of the maximal digit run at the start of a string |
| Names.FirstDigit | content/management/commands/seed_all_grades.py:23 | The index of the first digit, every character before it a non-digit |
| Names.FirstRunAt | content/management/commands/seed_all_grades.py:23 | The run found there is the one first maximal digit run |
| Names.ExtractNumber | content/management/commands/seed_all_grades.py:22-24 | The value of the first maximal digit run, and `None` exactly when the name has no digit |
| Names.NumberOr | content/management/commands/seed_all_grades.py:96 | `extract_number(s) or fallback`: the first number, or the fallback when there is none or it is 0 |
| Names.TitleOf | content/management/commands/seed_all_grades.py:73 | `name.replace("_", " ").strip()` has no `_` and no white space at either end |
| Names.TitleOfSlice | content/management/commands/seed_all_grades.py:73 | The title is the slice of the name, with `_` turned into spaces, between a run of white space at each end |
| Names.StripSlice | content/management/commands/seed_all_grades.py:73 | `strip()` leaves the slice between a run of stripped characters at each end |
| Names.StripEnds | content/management/commands/seed_all_grades.py:73 | A stripped string neither starts nor ends with a stripped character |
| Names.LastDot | content/management/commands/seed_all_grades.py:32 | The index of the last `.`, or -1 |
| Names.HtmlStem | content/management/commands/seed_all_grades.py:173 | An HTML file's stem is its name without the five-character suffix; it is never empty |
| Names.Suffix | content/management/commands/seed_all_grades.py:32 | Reference definition of `PurePath.suffix`; `NameParts` states its properties |
| Names.Stem | content/management/commands/seed_all_grades.py:173 | Reference definition of `PurePath.stem`; `NameParts` states its properties |
| Names.IsHtmlName | content/management/commands/seed_all_grades.py:32 | Reference definition of `p.suffix.lower() == ".html"`; `HtmlStem` states what it implies |
| Names.NameParts | content/management/commands/seed_all_grades.py:32 | A name is its stem followed by its suffix. The suffix is empty, or a `.` followed by at least one character with no further `.`. A name with a suffix has a non-empty stem |
| Quoting.Utf8RoundTrip | content/management/commands/seed_all_grades.py:28 | Decoding the UTF-8 encoding of a string gives it back |
| Quoting.QuoteAll | content/management/commands/seed_all_grades.py:28 | One quoted piece per segment, in order |
| Quoting.QuoteAppend | content/management/commands/seed_all_grades.py:28 | `quote` works character by character |
| Quoting.QuoteSafeIdentity | content/management/commands/seed_all_grades.py:28 | A segment of unreserved characters (section 2.3 of RFC 3986) and `/` is left unchanged |
| Quoting.QuoteSpace | content/management/commands/seed_all_grades.py:28 | A space becomes `%20` |
| Quoting.QuoteIsQuoted | content/management/commands/seed_all_grades.py:28 | The output holds only safe characters and `%XX` escapes with upper-case hexadecimal digits (section 2.1 of RFC 3986) |
| Quoting.PercentDecodeQuote | content/management/commands/seed_all_grades.py:28 | Percent-decoding a quoted string gives the UTF-8 bytes of the original |
| Quoting.UnquoteQuote | content/management/commands/seed_all_grades.py:28 | Unquoting the quoted string gives it back |
| Quoting.SlashIndex | content/management/commands/seed_all_grades.py:27-28 | The index of the first `/`, with no `/` before it |
| Quoting.SplitJoin | content/management/commands/seed_all_grades.py:27-28 | Splitting at `/` undoes the join of segments without `/` |
| Quoting.QuoteNoSlash | content/management/commands/seed_all_grades.py:28 | Quoting a segment without `/` gives none |
| Quoting.UnquoteAllQuoteAll | content/management/commands/seed_all_grades.py:28 | Unquoting every quoted segment gives the segments back |
| Quoting.LocatorRoundTrip | content/management/commands/seed_all_grades.py:27-28 | `quote_segments` gives one encoded piece per segment joined by `/`, and a content URL reads back into exactly its segments |
| Quoting.Quote | content/management/commands/seed_all_grades.py:28 | Reference definition of `quote(seg)` with `safe="/"`, character by character over UTF-8. `QuoteIsQuoted`, `QuoteSafeIdentity`, `QuoteSpace` and `UnquoteQuote` state its properties |
| Quoting.QuoteSegments | content/management/commands/seed_all_grades.py:27-28 | Reference definition of `quote_segments`; `LocatorRoundTrip` states its properties |
| Quoting.Locator | content/management/commands/seed_all_grades.py:168 | Reference definition of `"/static/" + quote_segments(*segments)`; `LocatorRoundTrip` states that it reads back into its segments |
| Tree.LexLeTotal | content/management/commands/seed_all_grades.py:67 | Python's string order is total |
| Tree.LexLeTrans | content/management/commands/seed_all_grades.py:67 | Python's string order is transitive |
| Tree.LexLeAntisym | content/management/commands/seed_all_grades.py:67 | Python's string order is antisymmetric |
| Tree.ByNameTotalPreorder | content/management/commands/seed_all_grades.py:67 | Ordering entries by name is a total preorder |
| Tree.ByNumberTotalPreorder | content/management/commands/seed_all_grades.py:53 | Ordering grade folders by `int(name)` is a total preorder |
| Tree.Insert | content/management/commands/seed_all_grades.py:53 | Insertion keeps the entries and adds one |
| Tree.InsertSorted | content/management/commands/seed_all_grades.py:53 | Inserting into a sorted listing keeps it sorted |
| Tree.SortBy | content/management/commands/seed_all_grades.py:53 | `sorted` keeps exactly the entries (a permutation) |
| Tree.SortBySorted | content/management/commands/seed_all_grades.py:53 | `sorted` orders the entries |
| Tree.SortByName | content/management/commands/seed_all_grades.py:67 | `sorted(iterdir())` is a permutation of the listing |
| Tree.SortByNameSorted | content/management/commands/seed_all_grades.py:67 | `sorted(iterdir())` is in name order |
| Tree.SortByNumber | content/management/commands/seed_all_grades.py:53 | Sorting grade folders by number is a permutation |
| Tree.SortByNumberSorted | content/management/commands/seed_all_grades.py:53 | The grade folders come in ascending numeric order |
| Tree.Filter | content/management/commands/seed_all_grades.py:47 | A list comprehension keeps only entries that pass, and every entry that passes is kept |
| Tree.FilterMultiset | content/management/commands/seed_all_grades.py:47 | Every entry that passes is kept as often as it occurs, every other one not at all |
| Tree.FilterSorted | content/management/commands/seed_all_grades.py:105-108 | Filtering keeps the order |
| Tree.FindHtmlFiles | content/management/commands/seed_all_grades.py:31-32 | `find_html_files` lists only HTML files of the folder, and each of them |
| Tree.FindHtmlFilesMultiset | content/management/commands/seed_all_grades.py:31-32 | Each HTML file of the folder is listed as often as it occurs, nothing else is |
| Tree.FindHtmlFilesSorted | content/management/commands/seed_all_grades.py:31-32 | They come in sorted-name order |
| Tree.SortedSubDirsAreDirs | content/management/commands/seed_all_grades.py:105-108 | The sorted part folders are all folders |
| SeedAllGrades.FilesPlan | content/management/commands/seed_all_grades.py:135-145 | One part call per file |
| SeedAllGrades.PartDirPlan | content/management/commands/seed_all_grades.py:113-138 | Reference definition of the calls of `scan_part_dir`; `SeedAllGradesFacts.PartDirParts` states them |
| SeedAllGrades.ChapterPlan | content/management/commands/seed_all_grades.py:95-111 | Reference definition of the calls of `scan_chapter`; `SeedAllGradesFacts.ChapterParts` and `ChapterShape` state them |
| SeedAllGrades.SubjectPlan | content/management/commands/seed_all_grades.py:71-93 | Reference definition of the calls of `scan_subject`; `SeedAllGradesFacts.SubjectLessonTitle` and `SubjectPlanInGrade` state them |
| SeedAllGrades.GradePlan | content/management/commands/seed_all_grades.py:57-69 | Reference definition of the calls of `scan_grade`; `SeedAllGradesFacts.GradePlanCodes` states them |
| SeedAllGrades.AllGradesPlan | content/management/commands/seed_all_grades.py:45-55 | Reference definition of the calls of `scan_all_grades`; `SeedAllGradesFacts.AllGradesOrder` states them |
| SeedAllGrades.HandleResult | content/management/commands/seed_all_grades.py:208-216 | Reference definition of the store after `handle`; `SeedAllGradesFacts.HandleGrades` and `HandleIdempotent` state its properties |
| SeedAllGrades.SubjectHeadEffect | content/management/commands/seed_all_grades.py:75-86 | The lesson call is titled after the subject row the subject call leaves |
| SeedAllGrades.GradeScanner.constructor | content/management/commands/seed_all_grades.py:41-43 | The scanner holds its root and its store |
| SeedAllGrades.GradeScanner.ScanAllGrades | content/management/commands/seed_all_grades.py:45-55 | The store ends as the plan of the root's grade folders leaves it |
| SeedAllGrades.GradeScanner.ScanGrade | content/management/commands/seed_all_grades.py:57-69 | The store ends as the grade's plan leaves it |
| SeedAllGrades.GradeScanner.ScanSubject | content/management/commands/seed_all_grades.py:71-93 | The store ends as the subject's plan leaves it |
| SeedAllGrades.GradeScanner.ScanChapter | content/management/commands/seed_all_grades.py:95-111 | The store ends as the chapter's plan leaves it |
| SeedAllGrades.GradeScanner.ScanPartDir | content/management/commands/seed_all_grades.py:113-138 | The store ends as the part folder's plan leaves it |
| SeedAllGrades.GradeScanner.ScanHtmlInChapterRoot | content/management/commands/seed_all_grades.py:140-145 | The store ends as the chapter-root plan leaves it |
| SeedAllGrades.GradeScanner.CreateNumberedParts | content/management/commands/seed_all_grades.py:143-145 | The `enumerate` loop makes the files' part calls, numbered from `first` |
| SeedAllGrades.GradeScanner.ScanDefaultChapterFile | content/management/commands/seed_all_grades.py:147-154 | The store ends as chapter 1 and the file's part 1 leave it |
| SeedAllGrades.GradeScanner.CreatePartFromFile | content/management/commands/seed_all_grades.py:156-191 | One `get_or_create` of the file's part, with the URL built from the non-empty folder names |
| SeedAllGrades.Handle | content/management/commands/seed_all_grades.py:208-218 | A missing root is reported and nothing is written; otherwise the store ends as the whole plan leaves it |
| SeedAllGradesFacts.FilesPlanNumbers | content/management/commands/seed_all_grades.py:135-138 | File `i` of the listing becomes part `first + i` |
| SeedAllGradesFacts.FilesPlanAt | content/management/commands/seed_all_grades.py:135-138 | The same, for one index |
| SeedAllGradesFacts.FilesParts | content/management/commands/seed_all_grades.py:161-177 | Each file's part has its number, its stem as title, its size and the URL of its segments |
| SeedAllGradesFacts.SegmentsOf | content/management/commands/seed_all_grades.py:161-166 | Empty folder names are left out of a file's URL segments |
| SeedAllGradesFacts.PartDirParts | content/management/commands/seed_all_grades.py:113-138 | A part folder is numbered by its first number or 1. With no HTML it is one part linking to the folder. One file gets the part number. k files get `part_num .. part_num+k-1` in name order |
| SeedAllGradesFacts.ChapterRootParts | content/management/commands/seed_all_grades.py:140-145 | A chapter without subfolders gets its HTML files as parts 1..n in name order, linking to `/static/<grade>/<subject>/<chapter>/<file>` |
| SeedAllGradesFacts.ChapterParts | content/management/commands/seed_all_grades.py:95-111 | The chapter number is the folder's first number, or 1 when absent or 0; the chapter is titled after the folder and its calls are its own parts |
| SeedAllGradesFacts.ChapterShape | content/management/commands/seed_all_grades.py:95-111 | A chapter's plan is the chapter call followed by part calls of that chapter only |
| SeedAllGradesFacts.LooseFilePart | content/management/commands/seed_all_grades.py:147-154 | A loose file is part 1 of chapter 1 ("Chapter 1"), with URL `/static/<grade>/<subject>/<file>` |
| SeedAllGradesFacts.SecondLooseFileIgnored | content/management/commands/seed_all_grades.py:147-154 | A second loose file of the same subject changes nothing |
| SeedAllGradesFacts.PartDirsPlanParts | content/management/commands/seed_all_grades.py:107-109 | The part folders of a chapter write parts of that chapter only |
| SeedAllGradesFacts.ItemsPlanInLesson | content/management/commands/seed_all_grades.py:88-93 | A subject's entries write chapters and parts of its lesson only |
| SeedAllGradesFacts.SubjectPlanInGrade | content/management/commands/seed_all_grades.py:71-93 | Below a grade the scanner writes subjects and rows of that grade, never a grade |
| SeedAllGradesFacts.SubjectsPlanInGrade | content/management/commands/seed_all_grades.py:67-69 | The same for all the subjects of a grade |
| SeedAllGradesFacts.GradeCodesKeys | content/management/commands/seed_all_grades.py:60-63 | The grade codes listed are exactly the grade keys the calls name |
| SeedAllGradesFacts.GradePlanCodes | content/management/commands/seed_all_grades.py:57-69 | `scan_grade` writes its own grade and no other |
| SeedAllGradesFacts.GradesPlanCodes | content/management/commands/seed_all_grades.py:53-55 | The grades are written in the order they are visited |
| SeedAllGradesFacts.SortedGradeDirs | content/management/commands/seed_all_grades.py:47-53 | The visited folders are exactly the root's all-digit folders, in ascending integer order |
| SeedAllGradesFacts.GradeDirsMembers | content/management/commands/seed_all_grades.py:47-53 | Sorting keeps exactly the grade folders |
| SeedAllGradesFacts.AllGradesOrder | content/management/commands/seed_all_grades.py:47-55 | The grades written are the all-digit folders, in ascending numeric order, and nothing is written when there is none |
| SeedAllGradesFacts.GradeDirsMultiset | content/management/commands/seed_all_grades.py:47-53 | Each all-digit folder is scanned as often as it occurs among the root's entries, nothing else is |
| SeedAllGradesFacts.NamesOfGradeDirs | content/management/commands/seed_all_grades.py:47-54 | The names visited are the all-digit folder names |
| SeedAllGradesFacts.HeadThenRest | content/management/commands/seed_all_grades.py:75-86 | An existing subject or lesson is kept; a new lesson is titled after the stored subject |
| SeedAllGradesFacts.SubjectLessonTitle | content/management/commands/seed_all_grades.py:72-86 | The subject is keyed by the normalised folder name; a new one is titled after the folder with language `fa`; a new lesson is `"<stored subject title> - Grade <grade>"` |
| SeedAllGradesFacts.HandleGrades | content/management/commands/seed_all_grades.py:208-216 | A missing root changes nothing; otherwise the grades are the old ones plus one per all-digit folder |
| SeedAllGradesFacts.AllGradeRows | content/management/commands/seed_all_grades.py:45-63 | After the scan the grades are the old ones and the all-digit folder names |
| SeedAllGradesFacts.GradeRows | content/management/commands/seed_all_grades.py:60-63 | After a run the grades are the old ones and those it names |
| SeedAllGradesFacts.HandleIdempotent | content/management/commands/seed_all_grades.py:57-191 | No existing row is modified, and a second run over the same tree changes nothing |
| SeedGrade10.Bump | content/management/commands/seed_grade10.py:52 | `c[k] += 1` raises `k` by one and nothing else |
| SeedGrade10.Record | content/management/commands/seed_grade10.py:51-56 | A created row raises `counts[k]` by exactly one and leaves `exists[k]` unchanged. A found row raises `exists[k]` by exactly one and leaves `counts[k]` unchanged. Every other key of both dicts is unchanged |
| SeedGrade10.FreeFromSpec | content/management/commands/seed_grade10.py:117-130 | The probe finds a free number with all before it taken, or finds all up to `base + 1000` taken |
| SeedGrade10.FreeFrom | content/management/commands/seed_grade10.py:117-130 | Reference definition of the `while True` probe from one number; `FreeFromSpec` states what it finds |
| SeedGrade10.Probe | content/management/commands/seed_grade10.py:117-130 | Reference definition of one probed file; `SeedGrade10Facts.ProbeLeastFree` and `ProbeAllTaken` state its effect |
| SeedGrade10.FilesRun | content/management/commands/seed_grade10.py:103-130 | Reference definition of the file loop; `SeedGrade10Facts.FilesRunFresh` and `PartDirFiles` state its effect |
| SeedGrade10.PartDirRun | content/management/commands/seed_grade10.py:84-130 | Reference definition of one part folder; `SeedGrade10Facts.PartDirOnly` and `PartDirFiles` state its effect |
| SeedGrade10.ChapterRun | content/management/commands/seed_grade10.py:68-161 | Reference definition of one chapter folder; `SeedGrade10Facts.ChapterRerunDuplicates` and `ChapterRunCounted` state its properties |
| SeedGrade10.LooseFileRun | content/management/commands/seed_grade10.py:164-189 | Reference definition of one loose file; `SeedGrade10Facts.LooseFileEffect` states its effect |
| SeedGrade10.SubjectRows | content/management/commands/seed_grade10.py:46-65 | Reference definition of the subject and lesson lookups; `SeedGrade10Facts.SubjectRowsEffect` states their effect |
| SeedGrade10.SubjectRun | content/management/commands/seed_grade10.py:45-189 | Reference definition of one subject folder; `SeedGrade10Facts.SubjectRunCounted` states its counters |
| SeedGrade10.Seed | content/management/commands/seed_grade10.py:41-196 | Reference definition of the whole transaction; `SeedGrade10Facts.SeedCounts` states its effect |
| SeedGrade10.SubjectDirs | content/management/commands/seed_grade10.py:45 | The subject folders are folders |
| SeedGrade10.Handle | content/management/commands/seed_grade10.py:33-198 | A missing grade folder or one that is not a directory changes nothing; otherwise the store and the tallies end as the walk leaves them |
| SeedGrade10.SeedSubject | content/management/commands/seed_grade10.py:45-189 | The subject loop body ends as the subject's run |
| SeedGrade10.SeedSubjectRows | content/management/commands/seed_grade10.py:46-65 | The subject and the lesson lookups, the lesson titled from the stored subject |
| SeedGrade10.SubjectRowsThen | content/management/commands/seed_grade10.py:58-61 | The lesson lookup uses the subject row the subject lookup left |
| SeedGrade10.SeedChapter | content/management/commands/seed_grade10.py:68-161 | A chapter folder ends as its run |
| SeedGrade10.SeedChapterRow | content/management/commands/seed_grade10.py:70-78 | The chapter lookup, numbered `extract_number or 0` |
| SeedGrade10.SeedPartDirs | content/management/commands/seed_grade10.py:83-130 | The part-folder loop ends as its run |
| SeedGrade10.SeedFiles | content/management/commands/seed_grade10.py:103-130 | The file loop probes each file from `first` plus its index |
| SeedGrade10.SeedFolderPart | content/management/commands/seed_grade10.py:86-100 | A part folder without HTML is looked up with the folder's defaults |
| SeedGrade10.SeedPartDir | content/management/commands/seed_grade10.py:84-130 | One part folder ends as its run |
| SeedGrade10.FileDefaults | content/management/commands/seed_grade10.py:105-112 | The defaults of a file's part |
| SeedGrade10.ProbePart | content/management/commands/seed_grade10.py:117-130 | The `while True` probe ends as the probe function does |
| SeedGrade10.SeedLooseFile | content/management/commands/seed_grade10.py:164-189 | A loose file ends as its run |
| SeedGrade10Facts.LookupCounts | content/management/commands/seed_grade10.py:51-56 | Each lookup raises exactly one of `counts[k]` and `exists[k]` by one, `counts[k]` exactly when the row was missing |
| SeedGrade10Facts.LookupCounted | content/management/commands/seed_grade10.py:62-65 | A lookup keeps the counters true to the rows gained |
| SeedGrade10Facts.ProbeCounted | content/management/commands/seed_grade10.py:117-130 | A probe keeps the counters true |
| SeedGrade10Facts.FilesRunCounted | content/management/commands/seed_grade10.py:103-130 | The file loop keeps the counters true |
| SeedGrade10Facts.PartDirRunCounted | content/management/commands/seed_grade10.py:84-130 | A part folder keeps the counters true |
| SeedGrade10Facts.PartDirsRunCounted | content/management/commands/seed_grade10.py:83-130 | The part-folder loop keeps the counters true |
| SeedGrade10Facts.ChapterRunCounted | content/management/commands/seed_grade10.py:68-161 | A chapter keeps the counters true |
| SeedGrade10Facts.CreateIfMissingCounted | content/management/commands/seed_grade10.py:185-189 | The loose-file check keeps the counters true |
| SeedGrade10Facts.LooseFileRunCounted | content/management/commands/seed_grade10.py:164-189 | A loose file keeps the counters true |
| SeedGrade10Facts.ItemRunCounted | content/management/commands/seed_grade10.py:68-189 | One subject entry keeps the counters true |
| SeedGrade10Facts.ItemsRunCounted | content/management/commands/seed_grade10.py:68-189 | A subject's entries keep the counters true |
| SeedGrade10Facts.SubjectRunCounted | content/management/commands/seed_grade10.py:45-189 | A subject keeps the counters true |
| SeedGrade10Facts.SubjectsRunCounted | content/management/commands/seed_grade10.py:45-189 | The subject loop keeps the counters true |
| SeedGrade10Facts.SeedCounts | content/management/commands/seed_grade10.py:38-196 | Grade 10 exists, no existing row changed, and each `counts` entry is the number of rows its table gained |
| SeedGrade10Facts.ProbeLeastFree | content/management/commands/seed_grade10.py:117-130 | A file's part takes the least number in `[base, base+1000]` not used in the chapter |
| SeedGrade10Facts.ProbeAllTaken | content/management/commands/seed_grade10.py:128-130 | When all of `[base, base+1000]` is used no part is created |
| SeedGrade10Facts.FilesRunFresh | content/management/commands/seed_grade10.py:103-130 | Files whose numbers are free are stored at `first, first+1, ...` in order, and nothing else changes |
| SeedGrade10Facts.PlaceNext | content/management/commands/seed_grade10.py:117-127 | Placing the next part at the next free number extends the run of stored numbers |
| SeedGrade10Facts.OrOneNumber | content/management/commands/seed_grade10.py:84-104 | `part_num or 1` is the number with fallback 1; the number is 0 exactly when absent or zero |
| SeedGrade10Facts.ChapterNumberDefault | content/management/commands/seed_grade10.py:70 | A chapter folder without digits is chapter 0 |
| SeedGrade10Facts.FilePartUrl | content/management/commands/seed_grade10.py:105-112 | A file's part is titled by its stem, sized, and links to a URL that reads back into the folders and the file name |
| SeedGrade10Facts.PartDirOnly | content/management/commands/seed_grade10.py:86-101 | A part folder without HTML is one part numbered `part_num or 1`, created only when that number is free |
| SeedGrade10Facts.FolderPartUrl | content/management/commands/seed_grade10.py:87 | A directory-only part URL ends with `/` and reads back into the folder's path |
| SeedGrade10Facts.PartDirFiles | content/management/commands/seed_grade10.py:103-130 | With free numbers, one file is part `part_num or 1`, and with several, file `i` is part `part_num + i` |
| SeedGrade10Facts.LooseFileEffect | content/management/commands/seed_grade10.py:164-189 | Chapter 1 exists afterwards; part 1 is created only if missing, otherwise only `exists["parts"]` goes up |
| SeedGrade10Facts.SubjectLookup | content/management/commands/seed_grade10.py:48-56 | The subject row is kept if present, created otherwise; only subjects change |
| SeedGrade10Facts.LessonLookup | content/management/commands/seed_grade10.py:58-65 | The lesson row is kept if present, created otherwise |
| SeedGrade10Facts.SubjectRowsEffect | content/management/commands/seed_grade10.py:46-65 | The subject is keyed by `normalize_subject_code`; a new lesson is titled `"<stored subject title> - Grade 10"` |
| SeedGrade10Facts.ChapterRunFiles | content/management/commands/seed_grade10.py:131-161 | A chapter without subfolders probes its files from 1, 2, ... |
| SeedGrade10Facts.ChapterRowParts | content/management/commands/seed_grade10.py:70-78 | The chapter lookup leaves the parts alone |
| SeedGrade10Facts.FilesRunOne | content/management/commands/seed_grade10.py:104 | A single file is probed from the folder's number |
| SeedGrade10Facts.ChapterRerunDuplicates | content/management/commands/seed_grade10.py:133-161 | Seeding a one-file chapter twice stores the file twice, as parts 1 and 2, so this command is not idempotent for parts |
| SeedContent.StaticUrl | content/management/commands/seed_content.py:64 | A URL under `/static/<grade>/` |
| SeedContent.Plan | content/management/commands/seed_content.py:11-428 | Reference definition: every `get_or_create` of `handle`, in order. The `SeedContentFacts` lemmas state what it creates |
| SeedContent.GradeOps | content/management/commands/seed_content.py:14-22 | One grade call per entry of `grades_data` |
| SeedContent.SubjectOps | content/management/commands/seed_content.py:26-36 | One subject call per entry of `subjects_data` |
| SeedContent.PartOps | content/management/commands/seed_content.py:77-87 | One part call per entry of a parts list |
| SeedContent.Handle | content/management/commands/seed_content.py:11-428 | The store ends as the command's calls leave it |
| SeedContent.SeedAll | content/management/commands/seed_content.py:12-428 | The grades, the subjects and the lesson blocks, in that order |
| SeedContent.SeedLessonBlocks | content/management/commands/seed_content.py:39-428 | The six lesson blocks, in source order |
| SeedContent.SeedGrades | content/management/commands/seed_content.py:20-22 | The `grades_data` loop |
| SeedContent.SeedSubjects | content/management/commands/seed_content.py:31-36 | The `subjects_data` loop |
| SeedContent.SeedLesson | content/management/commands/seed_content.py:40-121 | A lesson block: the lesson, then its chapters |
| SeedContent.SeedChapter | content/management/commands/seed_content.py:50-87 | A chapter and its part loop |
| SeedContent.SeedPart | content/management/commands/seed_content.py:78-86 | One part `get_or_create` with content type `url` and mime `text/html` |
| SeedContentFacts.GradeOpsAt | content/management/commands/seed_content.py:20-22 | Call `i` is `get_or_create(code, name)` of entry `i` |
| SeedContentFacts.SubjectOpsAt | content/management/commands/seed_content.py:31-36 | Call `i` is the subject call of entry `i` |
| SeedContentFacts.PartOpsAt | content/management/commands/seed_content.py:77-87 | Call `i` is the part call of entry `i` |
| SeedContentFacts.PartOpsMention | content/management/commands/seed_content.py:77-87 | The part loop names exactly the listed part numbers of its chapter |
| SeedContentFacts.ChapterOpsMention | content/management/commands/seed_content.py:50-87 | A chapter names exactly itself and its listed parts |
| SeedContentFacts.ChaptersOpsMention | content/management/commands/seed_content.py:50-121 | A lesson's chapters name exactly their keys |
| SeedContentFacts.LessonOpsMention | content/management/commands/seed_content.py:40-121 | A lesson block names exactly its lesson, chapters and parts |
| SeedContentFacts.LessonsOpsMention | content/management/commands/seed_content.py:39-428 | The lesson blocks name exactly their keys |
| SeedContentFacts.LessonsOpsScope | content/management/commands/seed_content.py:39-428 | The lesson blocks write lessons, chapters and parts only |
| SeedContentFacts.PartOpsDistinct | content/management/commands/seed_content.py:77-87 | Distinct part numbers give distinct keys |
| SeedContentFacts.ChapterOpsDistinct | content/management/commands/seed_content.py:50-87 | A chapter block names no key twice |
| SeedContentFacts.ChaptersOpsDistinct | content/management/commands/seed_content.py:50-121 | Distinct chapter numbers give a lesson block without repeated keys |
| SeedContentFacts.LessonOpsDistinct | content/management/commands/seed_content.py:40-121 | A lesson block names no key twice |
| SeedContentFacts.LessonsOpsDistinct | content/management/commands/seed_content.py:39-428 | Distinct (grade, subject) lessons give no repeated keys |
| SeedContentFacts.PlanDistinct | content/management/commands/seed_content.py:11-428 | With distinct codes and well-formed lessons, no two calls name the same key |
| SeedContentFacts.CountGradeOps | content/management/commands/seed_content.py:20-22 | The grade loop writes only grades, one per entry |
| SeedContentFacts.CountSubjectOps | content/management/commands/seed_content.py:31-36 | The subject loop writes only subjects, one per entry |
| SeedContentFacts.CountChapterOps | content/management/commands/seed_content.py:50-87 | A chapter block writes one chapter and one part per entry |
| SeedContentFacts.CountChaptersOps | content/management/commands/seed_content.py:50-121 | A lesson's chapters write their chapters and listed parts |
| SeedContentFacts.CountLessonOps | content/management/commands/seed_content.py:40-121 | A lesson block writes one lesson, its chapters and its parts |
| SeedContentFacts.CountLessonsOps | content/management/commands/seed_content.py:39-428 | The lesson blocks' calls, table by table |
| SeedContentFacts.CountPlan | content/management/commands/seed_content.py:11-428 | The command's calls, table by table |
| SeedContentFacts.EmptyRunSizes | content/management/commands/seed_content.py:439-442 | On an empty store each table ends with as many rows as calls write to it |
| SeedContentFacts.EmptyHasNone | content/management/commands/seed_content.py:11-12 | The empty store has no row |
| SeedContentFacts.ChaptersOpsUnder | content/management/commands/seed_content.py:81-86 | Parts listed under a lesson's grade folder are written under that grade |
| SeedContentFacts.LessonsOpsUnder | content/management/commands/seed_content.py:39-428 | Every part call of the blocks is under its own grade |
| SeedContentFacts.CreatedPartsUnderGrade | content/management/commands/seed_content.py:81-86 | Every part the command creates has type `url`, mime `text/html` and a URL under `/static/<its grade>/` |
| SeedContentFacts.PlanGradeOp | content/management/commands/seed_content.py:20-22 | Every grade call is one of `grades_data` |
| SeedContentFacts.PlanSubjectOp | content/management/commands/seed_content.py:31-36 | Every subject call is one of `subjects_data` |
| SeedContentFacts.SeededGradeRows | content/management/commands/seed_content.py:14-22 | Every listed grade exists afterwards; a created grade is a listed one |
| SeedContentFacts.SeededSubjectRows | content/management/commands/seed_content.py:26-36 | Every listed subject exists afterwards; a created subject is a listed one |
| SeedContentFacts.PlanLessonKey | content/management/commands/seed_content.py:39-428 | A key of a lesson is named by the command exactly when the lesson lists it |
| SeedContentFacts.EmptyRunLessonRows | content/management/commands/seed_content.py:39-428 | On an empty store each lesson ends with exactly its listed chapters and parts |
| SeedContentFacts.LessonRowsPresent | content/management/commands/seed_content.py:39-428 | From any store, every listed lesson, chapter and part exists afterwards |
| SeedContentFacts.NumberedDistinct | content/management/commands/seed_content.py:50-121 | Chapters numbered 1..n with parts 1..k name no key twice |
| SeedContentFacts.NumberedRows | content/management/commands/seed_content.py:50-121 | Such a lesson lists exactly chapters 1..n and, in chapter i, parts 1..counts[i] |
| SeedContentFacts.PartTotalSum | content/management/commands/seed_content.py:123 | The parts listed add up to the sum of the per-chapter counts |
| SeedContentFacts.EmptyRunNumbered | content/management/commands/seed_content.py:39-428 | On an empty store such a lesson ends with exactly those chapters and parts |
| SeedContentFacts.Biology10Numbered | content/management/commands/seed_content.py:40-123 | Grade 10 Biology lists chapters 1 and 2 with 3 and 2 parts |
| SeedContentFacts.Biology10Urls | content/management/commands/seed_content.py:60-110 | Its part URLs are under `/static/10/` |
| SeedContentFacts.Arabic10Numbered | content/management/commands/seed_content.py:126-168 | Grade 10 Arabic lists chapter 1 with 2 parts |
| SeedContentFacts.Arabic10Urls | content/management/commands/seed_content.py:126-168 | Its part URLs are under `/static/10/` |
| SeedContentFacts.Biology12Numbered | content/management/commands/seed_content.py:171-253 | Grade 12 Biology lists chapters 1 and 2 with 3 and 2 parts |
| SeedContentFacts.Biology12Urls | content/management/commands/seed_content.py:171-253 | Its part URLs are under `/static/12/` |
| SeedContentFacts.Arabic12Numbered | content/management/commands/seed_content.py:256-298 | Grade 12 Arabic lists chapter 1 with 2 parts |
| SeedContentFacts.Arabic12Urls | content/management/commands/seed_content.py:256-298 | Its part URLs are under `/static/12/` |
| SeedContentFacts.Biology13Numbered | content/management/commands/seed_content.py:301-383 | Grade 13 Biology lists chapters 1 and 2 with 3 and 2 parts |
| SeedContentFacts.Biology13Urls | content/management/commands/seed_content.py:301-383 | Its part URLs are under `/static/13/` |
| SeedContentFacts.Arabic13Numbered | content/management/commands/seed_content.py:386-428 | Grade 13 Arabic lists chapter 1 with 2 parts |
| SeedContentFacts.Arabic13Urls | content/management/commands/seed_content.py:386-428 | Its part URLs are under `/static/13/` |
| SeedContentFacts.LessonsCatalogue | content/management/commands/seed_content.py:39-428 | The six lessons, their numbering and their URLs |
| SeedContentFacts.CatalogueDistinct | content/management/commands/seed_content.py:39-428 | The lesson table names no key twice |
| SeedContentFacts.NumberedTotals | content/management/commands/seed_content.py:439-442 | Chapter and part totals follow from the per-lesson counts |
| SeedContentFacts.CatalogueTotals | content/management/commands/seed_content.py:442 | The table lists 9 chapters and 21 parts |
| SeedContentFacts.CountsTotals | content/management/commands/seed_content.py:439-442 | The per-lesson counts add up to 9 chapters and 21 parts |
| SeedContentFacts.CountStep | content/management/commands/seed_content.py:439-442 | One more lesson adds its chapters and parts to the totals |
| SeedContentFacts.EmptyTotalsOf | content/management/commands/seed_content.py:439-442 | Any table of that shape seeds 3/2/6/9/21 rows on an empty store |
| SeedContentFacts.EmptyTotals | content/management/commands/seed_content.py:439-442 | On an empty store the command yields 3 grades, 2 subjects, 6 lessons, 9 chapters and 21 parts |
| SeedContentFacts.SeededGradesOf | content/management/commands/seed_content.py:14-22 | Grades 10, 12 and 13 exist afterwards; a created one is named `Grade N` |
| SeedContentFacts.SeededGrades | content/management/commands/seed_content.py:14-22 | Grades 10, 12 and 13 exist after the command; a created one is named `Grade N` |
| SeedContentFacts.SeededSubjectsOf | content/management/commands/seed_content.py:26-36 | biology1 and arabic1 exist afterwards; a created one is titled as listed, language `fa` |
| SeedContentFacts.SeededSubjects | content/management/commands/seed_content.py:26-36 | Subjects biology1 and arabic1 exist after the command; a created one is titled as listed, language `fa` |
| SeedContentFacts.CreatedParts | content/management/commands/seed_content.py:81-86 | Every part the command creates has type `url`, mime `text/html` and a URL under `/static/<its grade code>/` |
| SeedContentFacts.EmptyLessonOf | content/management/commands/seed_content.py:39-428 | On an empty store lesson `j` ends with exactly its numbered chapters and parts |
| SeedContentFacts.EmptyBiologyLessonOf | content/management/commands/seed_content.py:40-123 | The Biology lessons of such a table end with chapters 1 and 2 holding parts 1..3 and 1..2 |
| SeedContentFacts.EmptyBiologyLesson | content/management/commands/seed_content.py:40-123 | On an empty store each Biology lesson (grades 10, 12, 13) has exactly chapters 1 and 2, with exactly parts 1..3 and 1..2 |
| SeedContentFacts.EmptyArabicLessonOf | content/management/commands/seed_content.py:126-168 | The Arabic lessons of such a table end with chapter 1 holding parts 1..2 |
| SeedContentFacts.EmptyArabicLesson | content/management/commands/seed_content.py:126-168 | On an empty store each Arabic lesson (grades 10, 12, 13) has exactly chapter 1, with exactly parts 1 and 2 |
| SeedContentFacts.SecondRun | content/management/commands/seed_content.py:21-86 | A second run creates and changes nothing, and no run modifies an existing row |
| Renderers.Get | dante_library_project/renderers.py:30-31 | `d.get(key)` is `None` for a missing key and otherwise a value stored under it |
| Renderers.FirstMessage | dante_library_project/renderers.py:42-60 | The message the search settles on is always truthy |
| Renderers.FirstMessageFound | dante_library_project/renderers.py:42-60 | A message is found exactly when some value yields a truthy hit and no earlier value stops the search; it is that hit |
| Renderers.ScanNested | dante_library_project/renderers.py:51-57 | The inner loop sets `first_msg` to the first string or non-empty-list head of a nested dict, or leaves it unchanged |
| Renderers.FindFirstMessage | dante_library_project/renderers.py:42-59 | The loop with its early `break`s ends with a truthy `first_msg` exactly when the reference search finds it |
| Renderers.Render | dante_library_project/renderers.py:16-70 | `render` builds the payload the envelope function specifies |
| Renderers.Payload | dante_library_project/renderers.py:24-70 | Reference definition of the value `render` hands to the JSON encoder. `EnvelopeUnchanged`, `MessageAndDataUnwrapped`, `WrappedStatusAndData`, `PayloadKeys` and the message lemmas state its cases |
| Renderers.Message | dante_library_project/renderers.py:37-64 | Reference definition of the friendly message. `DetailMessage`, `ErrorDictMessage` and `PlainMessages` state it |
| Renderers.EnvelopeUnchanged | dante_library_project/renderers.py:25-26 | A dict already holding `status_code`, `message` and `data` is rendered unchanged |
| Renderers.MessageAndDataUnwrapped | dante_library_project/renderers.py:29-31 | `{message, data}` without `status_code` is unwrapped, and the status is the response's, possibly `None` |
| Renderers.WrappedStatusAndData | dante_library_project/renderers.py:33-35 | Otherwise the status is the response's, or 200 with data and 204 without; the payload's data is the original input |
| Renderers.DetailMessage | dante_library_project/renderers.py:39-40 | A dict with `detail` gets it as message |
| Renderers.ErrorDictMessage | dante_library_project/renderers.py:41-60 | The payload's message of an error dict without `detail` is the message the search finds. Any value that yields a truthy hit and comes after only values that do not stop the search gives the message. When the search finds nothing, the message is the status phrase |
| Renderers.PlainMessages | dante_library_project/renderers.py:61-64 | A non-error dict without `detail` gets `OK`; non-dict data gets `OK` below 400 and the status phrase from 400 |
| Renderers.PayloadKeys | dante_library_project/renderers.py:66-70 | Otherwise the payload has exactly the keys `status_code`, `message` and `data`, in that order |

## Left out

- File system access (`exists`, `is_dir`, `iterdir`, `stat`) is replaced by a folder-tree value. A missing root or
  grade folder is `None`.
- `GRADE_PATH` in `seed_grade10` is a parameter: the grade folder as a tree value.
- `last_modified` and `datetime.fromtimestamp` are clock and OS calls and are not modelled. The `hasattr(models.Part,
  ...)` probes are fixed: `size_bytes` is a field of the model, and `last_modified` is not.
- The id and timestamp fields of every row (`id`, `created_at`, `updated_at`) are not modelled. They are generated by
  the database.
- `transaction.atomic` is not modelled as a transaction. `seed_grade10` and `seed_content` wrap their whole run in it, and `seed_all_grades` wraps each grade. The model has no rollback and no concurrency.
- Field widths are not modelled, because `string` and `nat` are unbounded. A value that breaks a column's limit is stored in the model, while the real run fails with a database error and its transaction rolls back. The limits are:
  - `max_length` of the `CharField`s (`content/models.py:15`, 23, 24, 34, 47, 68, 71): grade code 32, subject code 128, titles 255, `content_url` 1024. Percent-encoding turns each non-ASCII letter of a path into six characters, so a deep Persian path can pass 1024.
  - the database range of the `PositiveIntegerField`s (`content/models.py:46`, 67, 73): a folder named `Chapter_99999999999` gives a chapter number out of range.
- File names that are not valid UTF-8 (Python's surrogate escapes) are not modelled. For such a name `quote` raises `UnicodeEncodeError`, and a Dafny `char` cannot hold it.
- `stdout` and `stderr` messages, including `seed_content`'s printed summary, are not modelled. Its numbers are proved
  instead. The `counts` and `exists` tallies of `seed_grade10` are modelled.
- Digits are the ASCII digits in `isdigit`, `\d` and `int()`. Python also accepts other Unicode digits. `lower()` is
  applied only to ASCII letters, the only letters it meets in `normalize_code`.
- `sorted(iterdir())` over whole `Path` objects is modelled as sorting by name: the entries of one listing share their
  parent.
- `sorted(grade_dirs, key=int)` breaks ties (for example `07` and `7`) by the order `iterdir` returned. That order is
  not modelled. The model takes the listing as given and sorts it stably.
- `seed_all_grades` on a root that exists but is a file makes `iterdir` raise before any write. The model returns
  `RootNotADirectory` with the store unchanged.
- `seed_content` writes out its six lesson blocks one after another. They differ only in their data, so the model holds
  that data in the `Lessons` table, in source order, and one method seeds block after block. The intermediate `grades`
  and `subjects` dictionaries are not kept. Each lesson's key is (grade code, subject code), which is what the
  dictionary lookups produce.
- `content/views.py`, `content/urls.py`, `content/serializers.py` and `content/admin.py` are framework wiring and field
  lists. They are not part of this model.
- `content/mixins.py` is a response hook that depends on the response object and on model metadata. It is not part of
  this model.
- `JSONRenderer.render` (the JSON byte encoding) is not modelled. `Render` returns the value handed to it.
- `HTTPStatus(code).phrase` is a function parameter. `HTTPStatus` raising `ValueError` for an unknown code is not
  modelled.
- The renderer's input comes from `renderer_context['response'].status_code`. The model takes it as an optional
  status code and does not model the context and response objects.
- Python values in `Renderers.Value` are restricted:
  - dictionary keys are strings;
  - lists and tuples are one case;
  - any other object, floats included, is `Other` with its truth value.
- `Renderers.MessageAndDataUnwrapped` requires the dict's keys to be distinct, as they are in a Python dict.
