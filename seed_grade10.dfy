/**
 * `seed_grade10` (content/management/commands/seed_grade10.py): seeds one
 * grade folder as grade "10".
 *
 *   <grade folder>/<subject>/<chapter>/<part>/<file>.html  (part folders)
 *   <grade folder>/<subject>/<chapter>/<file>.html         (chapter has no subfolder)
 *   <grade folder>/<subject>/<file>.html                   (loose file: chapter 1, part 1)
 *
 * Unlike `seed_all_grades`, what it writes depends on the store: before
 * writing a file's part it probes upward from the file's number for one
 * that no part of the chapter has yet. So the `...Run` functions carry the
 * store along with the two tallies the command keeps: `counts` (rows
 * created) and `exists` (rows found). The methods walk the folders as the
 * source does and are proved to end where those functions do.
 */
module SeedGrade10 {
  import opened Wrappers
  import opened Names
  import opened Quoting
  import opened Tree
  import opened Store

  const GradeCode: string := "10"
  const GradeName: string := "Grade 10"
  const LessonSuffix: string := " - Grade 10"

  /** How far above a file's first number the probe looks for a free one. */
  const ProbeSpan: nat := 1000

  // ---------------------------------------------------------------------
  // The tallies
  // ---------------------------------------------------------------------

  /** The keys of the `counts` and `exists` dictionaries. */
  datatype Kind = Subjects | Lessons | Chapters | Parts

  /** One of the two dictionaries. */
  datatype Counts = Counts(subjects: nat, lessons: nat, chapters: nat, parts: nat)

  const NoCounts: Counts := Counts(0, 0, 0, 0)

  function Get(c: Counts, k: Kind): nat {
    match k
    case Subjects => c.subjects
    case Lessons => c.lessons
    case Chapters => c.chapters
    case Parts => c.parts
  }

  /** `c[k] += 1`. */
  function Bump(c: Counts, k: Kind): (r: Counts)
    ensures Get(r, k) == Get(c, k) + 1
    ensures forall j :: j != k ==> Get(r, j) == Get(c, j)
  {
    match k
    case Subjects => c.(subjects := c.subjects + 1)
    case Lessons => c.(lessons := c.lessons + 1)
    case Chapters => c.(chapters := c.chapters + 1)
    case Parts => c.(parts := c.parts + 1)
  }

  /** `counts` and `exists`. */
  datatype Tally = Tally(created: Counts, found: Counts)

  const NoTally: Tally := Tally(NoCounts, NoCounts)

  /** `if created: counts[k] += 1` / `else: exists[k] += 1`: exactly one of
      the two counters of `k` goes up by one. */
  function Record(t: Tally, k: Kind, created: bool): (r: Tally)
    ensures Get(r.created, k) == Get(t.created, k) + (if created then 1 else 0)
    ensures Get(r.found, k) == Get(t.found, k) + (if created then 0 else 1)
    ensures forall j :: j != k ==> Get(r.created, j) == Get(t.created, j) && Get(r.found, j) == Get(t.found, j)
  {
    if created then t.(created := Bump(t.created, k)) else t.(found := Bump(t.found, k))
  }

  /** The store and the tallies part-way through `handle`. */
  datatype Progress = Progress(db: Db, tally: Tally)

  /** The counter a counted call goes to (the grade call is not counted). */
  function KindOf(op: Op): Kind
    requires !op.GradeOp?
  {
    match op
    case SubjectOp(_, _) => Subjects
    case LessonOp(_, _, _) => Lessons
    case ChapterOp(_, _) => Chapters
    case PartOp(_, _) => Parts
  }

  /** A `get_or_create` followed by the `if created` count. */
  function Lookup(p: Progress, op: Op): Progress
    requires !op.GradeOp?
  {
    Progress(Apply(p.db, op), Record(p.tally, KindOf(op), !Has(p.db, KeyOf(op))))
  }

  // ---------------------------------------------------------------------
  // The walk, as functions
  // ---------------------------------------------------------------------

  /** The probe `while True: ... num += 1; if num > base_num + 1000: break`
      from `num`: the first number in `num .. base + ProbeSpan` that no part
      of the chapter has, if any. */
  function FreeFrom(db: Db, chapter: ChapterKey, num: nat, base: nat): Option<nat>
    requires base <= num <= base + ProbeSpan
    decreases base + ProbeSpan - num
  {
    if PartKey(chapter, num) !in db.parts then Some(num)
    else if num + 1 > base + ProbeSpan then None
    else FreeFrom(db, chapter, num + 1, base)
  }

  /** The probe finds a free number, with every number before it taken, or
      finds every number up to `base + ProbeSpan` taken. */
  lemma {:induction false} FreeFromSpec(db: Db, chapter: ChapterKey, num: nat, base: nat)
    requires base <= num <= base + ProbeSpan
    ensures var r := FreeFrom(db, chapter, num, base);
      && (r.Some? ==> num <= r.value <= base + ProbeSpan && PartKey(chapter, r.value) !in db.parts)
      && (r.Some? ==> forall m :: num <= m < r.value ==> PartKey(chapter, m) in db.parts)
      && (r.None? ==> forall m :: num <= m <= base + ProbeSpan ==> PartKey(chapter, m) in db.parts)
    decreases base + ProbeSpan - num
  {
    if PartKey(chapter, num) in db.parts && num + 1 <= base + ProbeSpan {
      FreeFromSpec(db, chapter, num + 1, base);
    }
  }

  /** The probe from a file's number `base`. */
  function FirstFree(db: Db, chapter: ChapterKey, base: nat): Option<nat> {
    FreeFrom(db, chapter, base, base)
  }

  /** One file: its part goes to the first free number from `base`, where
      `get_or_create` therefore creates it; when all 1001 numbers are
      taken the file is skipped. */
  function Probe(p: Progress, chapter: ChapterKey, base: nat, part: Part): Progress {
    match FirstFree(p.db, chapter, base)
    case Some(n) => Place(p, PartKey(chapter, n), part)
    case None => p
  }

  /** The part is stored under a number found free, and counted as created. */
  function Place(p: Progress, key: PartKey, part: Part): Progress {
    Progress(p.db.(parts := p.db.parts[key := part]), Record(p.tally, Parts, true))
  }

  /** The defaults of a file's part (the model has `size_bytes` and no
      `last_modified`): titled by the stem, linking to the file. */
  function FilePart(folders: seq<string>, file: FileEntry): Part {
    UrlPart(Stem(file.name), Locator(folders + [file.name]), Some(file.size))
  }

  /** The defaults of a part folder without HTML files: titled by the
      folder name, linking to the folder (with a trailing `/`). */
  function FolderPart(folders: seq<string>, name: string): Part {
    UrlPart(name, Locator(folders) + "/", None)
  }

  /** The parts of the files of a folder, in order. The ensures only spells
      out the comprehension for callers; `FilesRunFresh` and `PartDirFiles`
      state what the run does with these parts. */
  function FileParts(folders: seq<string>, files: seq<FileEntry>): (r: seq<Part>)
    ensures |r| == |files|
    ensures forall i :: 0 <= i < |files| ==> r[i] == FilePart(folders, files[i])
  {
    seq(|files|, i requires 0 <= i < |files| => FilePart(folders, files[i]))
  }

  /** `for idx, ... in enumerate(files, start=first)`: each part probed
      from `first` plus its index, in order. */
  function FilesRun(p: Progress, chapter: ChapterKey, parts: seq<Part>, first: nat): Progress
    decreases |parts|
  {
    if parts == [] then p
    else
      var n := |parts| - 1;
      Probe(FilesRun(p, chapter, parts[..n], first), chapter, first + n, parts[n])
  }

  /** `part_num or 1`. */
  function OrOne(n: nat): nat { if n == 0 then 1 else n }

  /** The number a part folder's files start from: `part_num + idx` with
      several files, `part_num or 1` with one. */
  function PartDirFirst(partNum: nat, fileCount: nat): nat {
    if fileCount > 1 then partNum else OrOne(partNum)
  }

  /** A part folder: with no HTML file in it, one part links to the folder
      (with a trailing `/`); otherwise each file is probed. */
  function PartDirRun(p: Progress, chapter: ChapterKey, partDir: Entry, subjectName: string, chapterName: string): Progress
    requires partDir.Dir?
  {
    var partNum := NumberOr(partDir.name, 0);
    var files := HtmlFiles(partDir.children);
    var folders := [GradeCode, subjectName, chapterName, partDir.name];
    if files == [] then
      Lookup(p, PartOp(PartKey(chapter, OrOne(partNum)), FolderPart(folders, partDir.name)))
    else
      FilesRun(p, chapter, FileParts(folders, files), PartDirFirst(partNum, |files|))
  }

  function PartDirsRun(p: Progress, chapter: ChapterKey, dirs: seq<Entry>, subjectName: string, chapterName: string): Progress
    requires AllDirs(dirs)
    decreases |dirs|
  {
    if dirs == [] then p
    else
      var n := |dirs| - 1;
      PartDirRun(PartDirsRun(p, chapter, dirs[..n], subjectName, chapterName), chapter, dirs[n], subjectName, chapterName)
  }

  /** The chapter a chapter folder is stored as: `extract_number(name) or 0`. */
  function ChapterKeyOf(lesson: LessonKey, chapterDir: Entry): ChapterKey {
    ChapterKey(lesson, NumberOr(chapterDir.name, 0))
  }

  /** The chapter's `get_or_create`: numbered from its folder's name
      (0 without digits), titled from it. */
  function ChapterRow(p: Progress, lesson: LessonKey, chapterDir: Entry): Progress {
    Lookup(p, ChapterOp(ChapterKeyOf(lesson, chapterDir), Chapter(TitleOf(chapterDir.name), "")))
  }

  /** A chapter folder: the chapter, then its part folders in name order,
      or, when it has none, its own HTML files probed from 1, 2, ... */
  function ChapterRun(p: Progress, lesson: LessonKey, chapterDir: Entry, subjectName: string): Progress
    requires chapterDir.Dir?
  {
    var key := ChapterKeyOf(lesson, chapterDir);
    var q := ChapterRow(p, lesson, chapterDir);
    var partDirs := SubDirs(chapterDir.children);
    if partDirs != [] then
      SortedSubDirsAreDirs(chapterDir.children);
      PartDirsRun(q, key, SortByName(partDirs), subjectName, chapterDir.name)
    else
      FilesRun(q, key, FileParts([GradeCode, subjectName, chapterDir.name], HtmlFiles(chapterDir.children)), 1)
  }

  /** `if not Part.objects.filter(chapter=chapter, number=1).exists():
      create(...)`, counted as created; otherwise counted as found. */
  function CreateIfMissing(q: Progress, key: PartKey, part: Part): Progress {
    if key !in q.db.parts then Progress(Apply(q.db, PartOp(key, part)), Record(q.tally, Parts, true))
    else Progress(q.db, Record(q.tally, Parts, false))
  }

  /** An HTML file directly in the subject folder: chapter 1, and part 1 of
      it when that part does not exist yet (`create`, not `get_or_create`). */
  function LooseFileRun(p: Progress, lesson: LessonKey, file: FileEntry, subjectName: string): Progress {
    var key := ChapterKey(lesson, 1);
    var q := Lookup(p, ChapterOp(key, Chapter("Chapter 1", "")));
    CreateIfMissing(q, PartKey(key, 1), FilePart([GradeCode, subjectName], file))
  }

  /** One entry of a subject folder; a file that is not HTML is ignored. */
  function ItemRun(p: Progress, lesson: LessonKey, item: Entry, subjectName: string): Progress {
    if item.Dir? then ChapterRun(p, lesson, item, subjectName)
    else if IsHtmlName(item.name) then LooseFileRun(p, lesson, item, subjectName)
    else p
  }

  function ItemsRun(p: Progress, lesson: LessonKey, items: seq<Entry>, subjectName: string): Progress
    decreases |items|
  {
    if items == [] then p
    else
      var n := |items| - 1;
      ItemRun(ItemsRun(p, lesson, items[..n], subjectName), lesson, items[n], subjectName)
  }

  /** The lesson of a subject folder in grade 10. */
  function LessonOf(subjectDir: Entry): LessonKey {
    LessonKey(GradeCode, NormalizeSubjectCode(subjectDir.name))
  }

  /** The defaults of a new subject row: its title from the folder name,
      language `"fa"`. */
  function SubjectDefaults(subjectDir: Entry): Subject {
    Subject(TitleOf(subjectDir.name), "fa")
  }

  /** The subject row and the lesson row of a subject folder; the lesson
      takes its title from the subject row as stored. */
  function SubjectRows(p: Progress, subjectDir: Entry): Progress {
    var lesson := LessonOf(subjectDir);
    var q := Lookup(p, SubjectOp(lesson.subject, SubjectDefaults(subjectDir)));
    assert Has(q.db, SubjectKey(lesson.subject));
    var title := q.db.subjects[lesson.subject].title + LessonSuffix;
    Lookup(q, LessonOp(lesson, Titled(title), ""))
  }

  /** A subject folder: the subject, the grade-10 lesson titled after the
      stored subject, then its entries in name order. */
  function SubjectRun(p: Progress, subjectDir: Entry): Progress
    requires subjectDir.Dir?
  {
    ItemsRun(SubjectRows(p, subjectDir), LessonOf(subjectDir), SortByName(subjectDir.children), subjectDir.name)
  }

  function SubjectsRun(p: Progress, dirs: seq<Entry>): Progress
    requires AllDirs(dirs)
    decreases |dirs|
  {
    if dirs == [] then p
    else
      var n := |dirs| - 1;
      SubjectRun(SubjectsRun(p, dirs[..n]), dirs[n])
  }

  /** The subject folders of the grade folder, in name order. */
  function SubjectDirs(gradeDir: Entry): (r: seq<Entry>)
    requires gradeDir.Dir?
    ensures AllDirs(r)
  {
    SortedSubDirsAreDirs(gradeDir.children);
    SortByName(SubDirs(gradeDir.children))
  }

  /** The grade row is ensured before anything is counted. */
  function Seeded(db: Db): Progress {
    Progress(Apply(db, GradeOp(GradeCode, Grade(GradeName))), NoTally)
  }

  /** The whole transaction on an existing grade folder. */
  function Seed(db: Db, gradeDir: Entry): Progress
    requires gradeDir.Dir?
  {
    SubjectsRun(Seeded(db), SubjectDirs(gradeDir))
  }

  // ---------------------------------------------------------------------
  // Loop steps
  // ---------------------------------------------------------------------

  lemma FilesStep(p: Progress, chapter: ChapterKey, s: seq<Part>, first: nat, i: nat)
    requires i < |s|
    ensures Probe(FilesRun(p, chapter, s[..i], first), chapter, first + i, s[i]) == FilesRun(p, chapter, s[..i + 1], first)
  {
    assert s[..i + 1][..i] == s[..i];
  }

  lemma PartDirsStep(p: Progress, chapter: ChapterKey, s: seq<Entry>, subjectName: string, chapterName: string, i: nat)
    requires AllDirs(s) && i < |s|
    ensures AllDirs(s[..i]) && AllDirs(s[..i + 1])
    ensures PartDirRun(PartDirsRun(p, chapter, s[..i], subjectName, chapterName), chapter, s[i], subjectName, chapterName)
         == PartDirsRun(p, chapter, s[..i + 1], subjectName, chapterName)
  {
    assert s[..i + 1][..i] == s[..i];
  }

  lemma ItemsStep(p: Progress, lesson: LessonKey, s: seq<Entry>, subjectName: string, i: nat)
    requires i < |s|
    ensures ItemRun(ItemsRun(p, lesson, s[..i], subjectName), lesson, s[i], subjectName)
         == ItemsRun(p, lesson, s[..i + 1], subjectName)
  {
    assert s[..i + 1][..i] == s[..i];
  }

  lemma SubjectsStep(p: Progress, s: seq<Entry>, i: nat)
    requires AllDirs(s) && i < |s|
    ensures AllDirs(s[..i]) && AllDirs(s[..i + 1])
    ensures SubjectRun(SubjectsRun(p, s[..i]), s[i]) == SubjectsRun(p, s[..i + 1])
  {
    assert s[..i + 1][..i] == s[..i];
  }

  lemma Whole<T>(s: seq<T>)
    ensures s[..|s|] == s
  {
  }

  // ---------------------------------------------------------------------
  // The command
  // ---------------------------------------------------------------------

  /** `handle`: a missing grade folder is reported and nothing is written;
      otherwise the whole walk runs and the two tallies are returned. */
  method Handle(gradeDir: Option<Entry>, store: HierarchyStore) returns (summary: Option<Tally>)
    modifies store
    ensures gradeDir.None? || !gradeDir.value.Dir? ==> summary.None? && store.State() == old(store.State())
    ensures gradeDir.Some? && gradeDir.value.Dir? ==>
      summary.Some? && Progress(store.State(), summary.value) == Seed(old(store.State()), gradeDir.value)
  {
    if gradeDir.None? || !gradeDir.value.Dir? {
      return None;
    }
    ghost var db := store.State();
    var tally := NoTally;
    var grade, _ := store.GetOrCreateGrade(GradeCode, Grade(GradeName));
    var subjectDirs := SubjectDirs(gradeDir.value);
    ghost var p0 := Seeded(db);
    for i := 0 to |subjectDirs|
      invariant AllDirs(subjectDirs[..i])
      invariant Progress(store.State(), tally) == SubjectsRun(p0, subjectDirs[..i])
    {
      SubjectsStep(p0, subjectDirs, i);
      tally := SeedSubject(store, subjectDirs[i], tally);
    }
    Whole(subjectDirs);
    return Some(tally);
  }

  /** The body of the subject loop. */
  method SeedSubject(store: HierarchyStore, subjectDir: Entry, tally: Tally) returns (after: Tally)
    requires subjectDir.Dir?
    modifies store
    ensures Progress(store.State(), after) == SubjectRun(Progress(old(store.State()), tally), subjectDir)
  {
    var lesson;
    lesson, after := SeedSubjectRows(store, subjectDir, tally);
    var items := SortByName(subjectDir.children);
    ghost var r := Progress(store.State(), after);
    for i := 0 to |items|
      invariant Progress(store.State(), after) == ItemsRun(r, lesson, items[..i], subjectDir.name)
    {
      ItemsStep(r, lesson, items, subjectDir.name, i);
      var item := items[i];
      if item.Dir? {
        after := SeedChapter(store, lesson, item, subjectDir.name, after);
      } else if IsHtmlName(item.name) {
        after := SeedLooseFile(store, lesson, item, subjectDir.name, after);
      }
    }
    Whole(items);
  }

  /** The subject's `get_or_create` and then its lesson's, titled
      `f"{subject.title} - Grade 10"` from the subject as stored. */
  method SeedSubjectRows(store: HierarchyStore, subjectDir: Entry, tally: Tally) returns (lesson: LessonKey, after: Tally)
    modifies store
    ensures lesson == LessonOf(subjectDir)
    ensures Progress(store.State(), after) == SubjectRows(Progress(old(store.State()), tally), subjectDir)
  {
    ghost var p := Progress(store.State(), tally);
    lesson := LessonOf(subjectDir);
    var subject, created := store.GetOrCreateSubject(lesson.subject, SubjectDefaults(subjectDir));
    LookupStep(p, SubjectOp(lesson.subject, SubjectDefaults(subjectDir)), created, store.State());
    after := Record(tally, Subjects, created);
    ghost var q := Progress(store.State(), after);
    SubjectRowsThen(p, subjectDir, q);
    var title := subject.title + LessonSuffix;
    var _, lCreated := store.GetOrCreateLesson(lesson, title, "");
    LessonStep(q, lesson, title, lCreated, store.State());
    after := Record(after, Lessons, lCreated);
  }

  lemma LessonStep(p: Progress, lesson: LessonKey, title: string, created: bool, db: Db)
    requires db == Apply(p.db, LessonOp(lesson, Titled(title), ""))
    requires created <==> lesson !in p.db.lessons
    ensures Progress(db, Record(p.tally, Lessons, created)) == Lookup(p, LessonOp(lesson, Titled(title), ""))
  {
  }

  /** A `get_or_create` whose `created` flag the store reports, followed by
      its count, is the lookup step. */
  lemma LookupStep(p: Progress, op: Op, created: bool, db: Db)
    requires !op.GradeOp?
    requires db == Apply(p.db, op)
    requires created <==> !Has(p.db, KeyOf(op))
    ensures Progress(db, Record(p.tally, KindOf(op), created)) == Lookup(p, op)
  {
  }

  /** `SubjectRows` is the subject's lookup followed by the lesson's. */
  lemma SubjectRowsThen(p: Progress, subjectDir: Entry, q: Progress)
    requires q == Lookup(p, SubjectOp(LessonOf(subjectDir).subject, SubjectDefaults(subjectDir)))
    ensures LessonOf(subjectDir).subject in q.db.subjects
    ensures SubjectRows(p, subjectDir)
         == Lookup(q, LessonOp(LessonOf(subjectDir), Titled(q.db.subjects[LessonOf(subjectDir).subject].title + LessonSuffix), ""))
  {
    assert Has(q.db, SubjectKey(LessonOf(subjectDir).subject));
  }

  /** A chapter folder. */
  method SeedChapter(store: HierarchyStore, lesson: LessonKey, chapterDir: Entry, subjectName: string, tally: Tally)
    returns (after: Tally)
    requires chapterDir.Dir?
    modifies store
    ensures Progress(store.State(), after) == ChapterRun(Progress(old(store.State()), tally), lesson, chapterDir, subjectName)
  {
    var chapter;
    chapter, after := SeedChapterRow(store, lesson, chapterDir, tally);
    var partDirs := SubDirs(chapterDir.children);
    if partDirs != [] {
      SortedSubDirsAreDirs(chapterDir.children);
      after := SeedPartDirs(store, chapter, SortByName(partDirs), subjectName, chapterDir.name, after);
    } else {
      var htmlFiles := HtmlFiles(chapterDir.children);
      after := SeedFiles(store, chapter, htmlFiles, 1, [GradeCode, subjectName, chapterDir.name], after);
    }
  }

  method SeedChapterRow(store: HierarchyStore, lesson: LessonKey, chapterDir: Entry, tally: Tally)
    returns (chapter: ChapterKey, after: Tally)
    modifies store
    ensures chapter == ChapterKeyOf(lesson, chapterDir)
    ensures Progress(store.State(), after) == ChapterRow(Progress(old(store.State()), tally), lesson, chapterDir)
  {
    var chapNum := NumberOr(chapterDir.name, 0);
    var chapTitle := TitleOf(chapterDir.name);
    chapter := ChapterKey(lesson, chapNum);
    assert chapter == ChapterKeyOf(lesson, chapterDir);
    ghost var p := Progress(store.State(), tally);
    var _, created := store.GetOrCreateChapter(chapter, Chapter(chapTitle, ""));
    after := Record(tally, Chapters, created);
    assert Progress(store.State(), after) == Lookup(p, ChapterOp(chapter, Chapter(chapTitle, "")));
  }

  /** The part folders of a chapter, in name order. */
  method SeedPartDirs(store: HierarchyStore, chapter: ChapterKey, partDirs: seq<Entry>, subjectName: string,
                      chapterName: string, tally: Tally) returns (after: Tally)
    requires AllDirs(partDirs)
    modifies store
    ensures Progress(store.State(), after)
         == PartDirsRun(Progress(old(store.State()), tally), chapter, partDirs, subjectName, chapterName)
  {
    ghost var q := Progress(store.State(), tally);
    after := tally;
    for i := 0 to |partDirs|
      invariant AllDirs(partDirs[..i])
      invariant Progress(store.State(), after) == PartDirsRun(q, chapter, partDirs[..i], subjectName, chapterName)
    {
      PartDirsStep(q, chapter, partDirs, subjectName, chapterName, i);
      after := SeedPartDir(store, chapter, partDirs[i], subjectName, chapterName, after);
    }
    Whole(partDirs);
  }

  /** `for idx, hf in enumerate(html_files, start=first)` with `num = idx`. */
  method SeedFiles(store: HierarchyStore, chapter: ChapterKey, htmlFiles: seq<FileEntry>, first: nat,
                          folders: seq<string>, tally: Tally) returns (after: Tally)
    modifies store
    ensures Progress(store.State(), after)
         == FilesRun(Progress(old(store.State()), tally), chapter, FileParts(folders, htmlFiles), first)
  {
    ghost var p := Progress(store.State(), tally);
    ghost var parts := FileParts(folders, htmlFiles);
    after := tally;
    for k := 0 to |htmlFiles|
      invariant Progress(store.State(), after) == FilesRun(p, chapter, parts[..k], first)
    {
      ghost var before := Progress(store.State(), after);
      FilesStep(p, chapter, parts, first, k);
      var idx := first + k;
      var hf := htmlFiles[k];
      var defaults := FileDefaults(folders, hf);
      assert defaults == parts[k];
      var num := idx;
      after := ProbePart(store, chapter, num, defaults, after);
      assert Progress(store.State(), after) == Probe(before, chapter, first + k, parts[k]);
    }
    Whole(parts);
  }

  /** The part of a folder without HTML files, linking to the folder. */
  method SeedFolderPart(store: HierarchyStore, key: PartKey, folders: seq<string>, name: string, tally: Tally)
    returns (after: Tally)
    modifies store
    ensures Progress(store.State(), after) == Lookup(Progress(old(store.State()), tally), PartOp(key, FolderPart(folders, name)))
  {
    var relUrl := "/static/" + QuoteSegments(folders) + "/";
    var defaults := UrlPart(name, relUrl, None);
    var _, created := store.GetOrCreatePart(key, defaults);
    after := Record(tally, Parts, created);
  }

  /** A part folder. */
  method SeedPartDir(store: HierarchyStore, chapter: ChapterKey, pd: Entry, subjectName: string, chapterName: string,
                     tally: Tally) returns (after: Tally)
    requires pd.Dir?
    modifies store
    ensures Progress(store.State(), after) == PartDirRun(Progress(old(store.State()), tally), chapter, pd, subjectName, chapterName)
  {
    var partNum := NumberOr(pd.name, 0);
    var htmlFiles := HtmlFiles(pd.children);
    if htmlFiles == [] {
      after := SeedFolderPart(store, PartKey(chapter, OrOne(partNum)), [GradeCode, subjectName, chapterName, pd.name],
                              pd.name, tally);
      return;
    }
    // `num = part_num + idx if len(html_files) > 1 else (part_num or 1)`:
    // with a single file `idx` is 0, so the numbers run on from `first`.
    var first := if |htmlFiles| > 1 then partNum else OrOne(partNum);
    after := SeedFiles(store, chapter, htmlFiles, first, [GradeCode, subjectName, chapterName, pd.name], tally);
  }

  /** The `defaults` of a file's part: `rel_url` is `"/static/"` and the
      quoted folders and file name joined by `/`; `size_bytes` is the
      file's size. */
  method FileDefaults(folders: seq<string>, hf: FileEntry) returns (defaults: Part)
    ensures defaults == FilePart(folders, hf)
  {
    var relUrl := "/static/" + QuoteSegments(folders + [hf.name]);
    defaults := UrlPart(Stem(hf.name), relUrl, Some(hf.size));
  }

  /** The probe for one file: `base_num = num; while True: ...`. */
  method ProbePart(store: HierarchyStore, chapter: ChapterKey, base: nat, defaults: Part, tally: Tally)
    returns (after: Tally)
    modifies store
    ensures Progress(store.State(), after) == Probe(Progress(old(store.State()), tally), chapter, base, defaults)
  {
    ghost var db := store.State();
    after := tally;
    var num := base;
    while true
      invariant base <= num <= base + ProbeSpan
      invariant store.State() == db && after == tally
      invariant FreeFrom(db, chapter, num, base) == FirstFree(db, chapter, base)
      decreases base + ProbeSpan - num
    {
      var taken := store.PartExists(PartKey(chapter, num));
      if !taken {
        var _, created := store.GetOrCreatePart(PartKey(chapter, num), defaults);
        after := Record(after, Parts, created);
        break;
      }
      num := num + 1;
      if num > base + ProbeSpan {
        break;
      }
    }
  }

  /** An HTML file directly in the subject folder. */
  method SeedLooseFile(store: HierarchyStore, lesson: LessonKey, hf: FileEntry, subjectName: string, tally: Tally)
    returns (after: Tally)
    modifies store
    ensures Progress(store.State(), after) == LooseFileRun(Progress(old(store.State()), tally), lesson, hf, subjectName)
  {
    var chapter := ChapterKey(lesson, 1);
    var _, created := store.GetOrCreateChapter(chapter, Chapter("Chapter 1", ""));
    after := Record(tally, Chapters, created);
    var defaults := FileDefaults([GradeCode, subjectName], hf);
    var taken := store.PartExists(PartKey(chapter, 1));
    if !taken {
      store.CreatePart(PartKey(chapter, 1), defaults);
      after := Record(after, Parts, true);
    } else {
      after := Record(after, Parts, false);
    }
  }
}
