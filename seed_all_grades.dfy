/**
 * `seed_all_grades` (content/management/commands/seed_all_grades.py): the
 * `GradeScanner` walks a root folder whose all-digit subfolders are grades,
 * and writes Grade, Subject, Lesson, Chapter and Part rows with
 * `get_or_create` only.
 *
 *   root/<grade>/<subject>/<chapter>/<part>/<file>.html  (part folders)
 *   root/<grade>/<subject>/<chapter>/<file>.html         (chapter has no subfolder)
 *   root/<grade>/<subject>/<file>.html                   (loose file: chapter 1, part 1)
 *
 * The `...Plan` functions give, for a folder, the sequence of
 * `get_or_create` calls the scanner makes, in order; they do not depend on
 * the store. The `GradeScanner` methods walk the folders as the source
 * does and are proved to make exactly those calls.
 */
module SeedAllGrades {
  import opened Wrappers
  import opened Names
  import opened Quoting
  import opened Tree
  import opened Store

  /** Where a file sits: the arguments of `create_part_from_file` that name
      its folders (`chapter_or_part_name` and `part_dir_name` may be ""). */
  datatype Origin = Origin(grade: string, subject: string, chapterOrPart: string, partDir: string)

  /** The URL segments of a file: grade, subject, the folder names that are
      not empty, then the file name. */
  function FileSegments(o: Origin, fileName: string): seq<string> {
    [o.grade, o.subject]
    + (if o.chapterOrPart != "" then [o.chapterOrPart] else [])
    + (if o.partDir != "" then [o.partDir] else [])
    + [fileName]
  }

  /** The part `create_part_from_file` writes for a file: titled by the
      file's stem, linking to the file, with its size (the model has
      `size_bytes` and no `last_modified`). */
  function FilePartOp(chapter: ChapterKey, number: nat, file: FileEntry, o: Origin): Op {
    PartOp(PartKey(chapter, number),
      UrlPart(Stem(file.name), Locator(FileSegments(o, file.name)), Some(file.size)))
  }

  /** The files as parts numbered `first`, `first + 1`, ... in order. */
  function FilesPlan(chapter: ChapterKey, files: seq<FileEntry>, first: nat, o: Origin): (r: seq<Op>)
    ensures |r| == |files|
    decreases |files|
  {
    if files == [] then []
    else
      var n := |files| - 1;
      FilesPlan(chapter, files[..n], first, o) + [FilePartOp(chapter, first + n, files[n], o)]
  }

  /** `scan_part_dir`: a part folder without HTML files links to the folder
      itself; otherwise each of its HTML files becomes a part. */
  function PartDirPlan(chapter: ChapterKey, partDir: Entry, grade: string, subject: string, chapterName: string): seq<Op>
    requires partDir.Dir?
  {
    var partNum := NumberOr(partDir.name, 1);
    var files := HtmlFiles(partDir.children);
    if files == [] then
      [PartOp(PartKey(chapter, partNum),
        UrlPart(partDir.name, Locator([grade, subject, chapterName, partDir.name]), None))]
    else
      FilesPlan(chapter, files, partNum, Origin(grade, subject, chapterName, partDir.name))
  }

  function PartDirsPlan(chapter: ChapterKey, dirs: seq<Entry>, grade: string, subject: string, chapterName: string): seq<Op>
    requires AllDirs(dirs)
    decreases |dirs|
  {
    if dirs == [] then []
    else
      var n := |dirs| - 1;
      PartDirsPlan(chapter, dirs[..n], grade, subject, chapterName)
      + PartDirPlan(chapter, dirs[n], grade, subject, chapterName)
  }

  /** `scan_html_in_chapter_root`: the chapter's HTML files as parts 1..n. */
  function ChapterRootPlan(chapter: ChapterKey, chapterDir: Entry, grade: string, subject: string): seq<Op>
    requires chapterDir.Dir?
  {
    FilesPlan(chapter, HtmlFiles(chapterDir.children), 1, Origin(grade, subject, chapterDir.name, ""))
  }

  /** The chapter a chapter folder stands for. */
  function ChapterKeyOf(lesson: LessonKey, chapterDir: Entry): ChapterKey {
    ChapterKey(lesson, NumberOr(chapterDir.name, 1))
  }

  /** `scan_chapter`: the chapter, then its part folders in name order, or
      its own HTML files when it has no subfolder. */
  function ChapterPlan(lesson: LessonKey, chapterDir: Entry, grade: string, subject: string): seq<Op>
    requires chapterDir.Dir?
  {
    var key := ChapterKeyOf(lesson, chapterDir);
    var partDirs := SubDirs(chapterDir.children);
    SortedSubDirsAreDirs(chapterDir.children);
    [ChapterOp(key, Chapter(TitleOf(chapterDir.name), ""))]
    + (if partDirs != [] then PartDirsPlan(key, SortByName(partDirs), grade, subject, chapterDir.name)
       else ChapterRootPlan(key, chapterDir, grade, subject))
  }

  /** `scan_default_chapter_file`: a loose HTML file under a subject goes to
      chapter 1 as part 1. */
  function DefaultChapterPlan(lesson: LessonKey, file: FileEntry, grade: string, subject: string): seq<Op> {
    var key := ChapterKey(lesson, 1);
    [ChapterOp(key, Chapter("Chapter 1", "")), FilePartOp(key, 1, file, Origin(grade, subject, "", ""))]
  }

  /** One entry of a subject folder: a folder is a chapter, an HTML file a
      loose file, anything else is skipped. */
  function ItemPlan(lesson: LessonKey, item: Entry, grade: string, subject: string): seq<Op> {
    if item.Dir? then ChapterPlan(lesson, item, grade, subject)
    else if IsHtmlName(item.name) then DefaultChapterPlan(lesson, item, grade, subject)
    else []
  }

  function ItemsPlan(lesson: LessonKey, items: seq<Entry>, grade: string, subject: string): seq<Op>
    decreases |items|
  {
    if items == [] then []
    else
      var n := |items| - 1;
      ItemsPlan(lesson, items[..n], grade, subject) + ItemPlan(lesson, items[n], grade, subject)
  }

  const LessonSuffix: string := " - Grade "

  /** The first two calls of `scan_subject`: the subject, keyed by its
      normalised code, then the (grade, subject) lesson, titled after the
      stored subject. */
  function SubjectHead(grade: string, subjectDir: Entry): seq<Op> {
    var code := NormalizeCode(subjectDir.name);
    [SubjectOp(code, Subject(TitleOf(subjectDir.name), "fa")),
     LessonOp(LessonKey(grade, code), AfterSubject(LessonSuffix + grade), "")]
  }

  /** `scan_subject`. */
  function SubjectPlan(grade: string, subjectDir: Entry): seq<Op>
    requires subjectDir.Dir?
  {
    var lesson := LessonKey(grade, NormalizeCode(subjectDir.name));
    SubjectHead(grade, subjectDir) + ItemsPlan(lesson, SortByName(subjectDir.children), grade, subjectDir.name)
  }

  /** The subject folders of a grade, in name order; files are skipped. */
  function SubjectsPlan(grade: string, items: seq<Entry>): seq<Op>
    decreases |items|
  {
    if items == [] then []
    else
      var n := |items| - 1;
      SubjectsPlan(grade, items[..n]) + (if items[n].Dir? then SubjectPlan(grade, items[n]) else [])
  }

  /** `scan_grade`: the grade, then its subjects. */
  function GradePlan(gradeDir: Entry): seq<Op> {
    var code := gradeDir.name;
    [GradeOp(code, Grade("Grade " + code))]
    + (if gradeDir.Dir? then SubjectsPlan(code, SortByName(gradeDir.children)) else [])
  }

  function GradesPlan(grades: seq<Entry>): seq<Op>
    decreases |grades|
  {
    if grades == [] then []
    else
      var n := |grades| - 1;
      GradesPlan(grades[..n]) + GradePlan(grades[n])
  }

  /** `scan_all_grades`: the all-digit folders of the root, in ascending
      numeric order. */
  function AllGradesPlan(rootChildren: seq<Entry>): seq<Op> {
    GradesPlan(SortByNumber(GradeDirs(rootChildren)))
  }

  /** How `handle` ends. */
  datatype Outcome = Seeded | RootNotFound | RootNotADirectory

  /** The store after `handle`: unchanged unless the root is a folder. */
  function HandleResult(db: Db, root: Option<Entry>): Db {
    if root.Some? && root.value.Dir? then ApplyAll(db, AllGradesPlan(root.value.children)) else db
  }

  // ---------------------------------------------------------------------
  // The scanner
  // ---------------------------------------------------------------------

  /** The first two calls of `scan_subject`, with the lesson titled after
      the subject row the first call returned. */
  lemma SubjectHeadEffect(db: Db, lesson: LessonKey, subject: Subject, suffix: string)
    ensures
      var mid := Apply(db, SubjectOp(lesson.subject, subject));
      && lesson.subject in mid.subjects
      && ApplyAll(db, [SubjectOp(lesson.subject, subject), LessonOp(lesson, AfterSubject(suffix), "")])
         == Apply(mid, LessonOp(lesson, Titled(mid.subjects[lesson.subject].title + suffix), ""))
  {
    var mid := Apply(db, SubjectOp(lesson.subject, subject));
    ApplyAllTwo(db, SubjectOp(lesson.subject, subject), LessonOp(lesson, AfterSubject(suffix), ""));
    assert Has(mid, SubjectKey(lesson.subject));
    AfterSubjectTitle(mid, lesson, suffix, "");
  }

  lemma Assoc(a: seq<Op>, b: seq<Op>, c: seq<Op>)
    ensures a + b + c == a + (b + c)
  {
  }

  /** One step of a loop over a plan built by last-element recursion. */
  lemma Step(db: Db, prefix: seq<Op>, done: seq<Op>, next: seq<Op>)
    ensures ApplyAll(ApplyAll(db, prefix + done), next) == ApplyAll(db, prefix + (done + next))
  {
    Assoc(prefix, done, next);
    ApplyAllAppend(db, prefix + done, next);
  }

  lemma Whole<T>(s: seq<T>)
    ensures s[..|s|] == s
  {
  }

  // One loop step for each fold: the state after running the plan of the
  // first `i` entries, then the plan of entry `i`, is the state after the
  // plan of the first `i + 1` entries.

  lemma GradesLoop(db: Db, s: seq<Entry>, i: nat)
    requires i < |s|
    ensures ApplyAll(ApplyAll(db, GradesPlan(s[..i])), GradePlan(s[i])) == ApplyAll(db, GradesPlan(s[..i + 1]))
  {
    assert s[..i + 1][..i] == s[..i];
    ApplyAllAppend(db, GradesPlan(s[..i]), GradePlan(s[i]));
  }

  lemma SubjectsLoop(db: Db, head: seq<Op>, grade: string, s: seq<Entry>, i: nat)
    requires i < |s|
    ensures ApplyAll(ApplyAll(db, head + SubjectsPlan(grade, s[..i])), if s[i].Dir? then SubjectPlan(grade, s[i]) else [])
      == ApplyAll(db, head + SubjectsPlan(grade, s[..i + 1]))
  {
    assert s[..i + 1][..i] == s[..i];
    Step(db, head, SubjectsPlan(grade, s[..i]), if s[i].Dir? then SubjectPlan(grade, s[i]) else []);
  }

  lemma ItemsLoop(db: Db, head: seq<Op>, lesson: LessonKey, s: seq<Entry>, grade: string, subject: string, i: nat)
    requires i < |s|
    ensures ApplyAll(ApplyAll(db, head + ItemsPlan(lesson, s[..i], grade, subject)), ItemPlan(lesson, s[i], grade, subject))
      == ApplyAll(db, head + ItemsPlan(lesson, s[..i + 1], grade, subject))
  {
    assert s[..i + 1][..i] == s[..i];
    Step(db, head, ItemsPlan(lesson, s[..i], grade, subject), ItemPlan(lesson, s[i], grade, subject));
  }

  lemma PartDirsLoop(db: Db, head: seq<Op>, chapter: ChapterKey, s: seq<Entry>, grade: string, subject: string,
                     chapterName: string, i: nat)
    requires AllDirs(s) && i < |s|
    ensures AllDirs(s[..i]) && AllDirs(s[..i + 1])
    ensures ApplyAll(ApplyAll(db, head + PartDirsPlan(chapter, s[..i], grade, subject, chapterName)),
                     PartDirPlan(chapter, s[i], grade, subject, chapterName))
      == ApplyAll(db, head + PartDirsPlan(chapter, s[..i + 1], grade, subject, chapterName))
  {
    assert s[..i + 1][..i] == s[..i];
    Step(db, head, PartDirsPlan(chapter, s[..i], grade, subject, chapterName), PartDirPlan(chapter, s[i], grade, subject, chapterName));
  }

  lemma FilesStep(chapter: ChapterKey, s: seq<FileEntry>, first: nat, o: Origin, i: nat)
    requires i < |s|
    ensures FilesPlan(chapter, s[..i + 1], first, o) ==
      FilesPlan(chapter, s[..i], first, o) + [FilePartOp(chapter, first + i, s[i], o)]
  {
    assert s[..i + 1][..i] == s[..i];
  }

  lemma FilesLoop(db: Db, chapter: ChapterKey, s: seq<FileEntry>, first: nat, o: Origin, i: nat)
    requires i < |s|
    ensures Apply(ApplyAll(db, FilesPlan(chapter, s[..i], first, o)), FilePartOp(chapter, first + i, s[i], o))
      == ApplyAll(db, FilesPlan(chapter, s[..i + 1], first, o))
  {
    FilesStep(chapter, s, first, o, i);
    var op := FilePartOp(chapter, first + i, s[i], o);
    var done := FilesPlan(chapter, s[..i], first, o);
    ApplyAllAppend(db, done, [op]);
    ApplyAllOne(ApplyAll(db, done), op);
  }

  /** After a loop's last step. */
  lemma FilesDone(db: Db, chapter: ChapterKey, s: seq<FileEntry>, first: nat, o: Origin)
    ensures ApplyAll(db, FilesPlan(chapter, s[..|s|], first, o)) == ApplyAll(db, FilesPlan(chapter, s, first, o))
  {
    assert s[..|s|] == s;
  }

  /** Before a loop's first step. */
  lemma Start(db: Db, head: seq<Op>, rest: seq<Op>)
    requires rest == []
    ensures ApplyAll(db, head + rest) == ApplyAll(db, head)
  {
    assert head + rest == head;
  }

  class GradeScanner {
    const root: Entry
    const store: HierarchyStore

    constructor(root: Entry, store: HierarchyStore)
      ensures this.root == root && this.store == store
    {
      this.root := root;
      this.store := store;
    }

    /** `scan_all_grades`. */
    method ScanAllGrades()
      requires root.Dir?
      modifies store
      ensures store.State() == ApplyAll(old(store.State()), AllGradesPlan(root.children))
    {
      var gradeDirs := GradeDirs(root.children);
      if gradeDirs == [] {
        return;
      }
      var sorted := SortByNumber(gradeDirs);
      ghost var db := store.State();
      for i := 0 to |sorted|
        invariant store.State() == ApplyAll(db, GradesPlan(sorted[..i]))
      {
        var gd := sorted[i];
        ScanGrade(gd.name, gd);
        GradesLoop(db, sorted, i);
      }
      Whole(sorted);
    }

    /** `scan_grade`. */
    method ScanGrade(gradeCode: string, gradePath: Entry)
      requires gradePath.name == gradeCode
      modifies store
      ensures store.State() == ApplyAll(old(store.State()), GradePlan(gradePath))
    {
      ghost var db := store.State();
      var grade, _ := store.GetOrCreateGrade(gradeCode, Grade("Grade " + gradeCode));
      ghost var head := [GradeOp(gradeCode, Grade("Grade " + gradeCode))];
      ApplyAllOne(db, head[0]);
      if !gradePath.Dir? {
        assert GradePlan(gradePath) == head + [];
        return;
      }
      var items := SortByName(gradePath.children);
      Start(db, head, SubjectsPlan(gradeCode, items[..0]));
      for i := 0 to |items|
        invariant store.State() == ApplyAll(db, head + SubjectsPlan(gradeCode, items[..i]))
      {
        var item := items[i];
        ghost var before := store.State();
        if item.Dir? {
          ScanSubject(gradeCode, item);
        }
        SubjectsLoop(db, head, gradeCode, items, i);
      }
      Whole(items);
    }

    /** `scan_subject`. */
    method ScanSubject(gradeCode: string, subjectDir: Entry)
      requires subjectDir.Dir?
      modifies store
      ensures store.State() == ApplyAll(old(store.State()), SubjectPlan(gradeCode, subjectDir))
    {
      ghost var db := store.State();
      var subjCode := NormalizeCode(subjectDir.name);
      var subjTitle := TitleOf(subjectDir.name);
      var subject, _ := store.GetOrCreateSubject(subjCode, Subject(subjTitle, "fa"));
      var lessonTitle := subject.title + (LessonSuffix + gradeCode);
      var lesson := LessonKey(gradeCode, subjCode);
      var _, _ := store.GetOrCreateLesson(lesson, lessonTitle, "");
      ghost var head := SubjectHead(gradeCode, subjectDir);
      SubjectHeadEffect(db, lesson, Subject(subjTitle, "fa"), LessonSuffix + gradeCode);
      var items := SortByName(subjectDir.children);
      Start(db, head, ItemsPlan(lesson, items[..0], gradeCode, subjectDir.name));
      for i := 0 to |items|
        invariant store.State() == ApplyAll(db, head + ItemsPlan(lesson, items[..i], gradeCode, subjectDir.name))
      {
        var item := items[i];
        if item.Dir? {
          ScanChapter(lesson, item, gradeCode, subjectDir.name);
        } else if IsHtmlName(item.name) {
          ScanDefaultChapterFile(lesson, item, gradeCode, subjectDir.name);
        }
        ItemsLoop(db, head, lesson, items, gradeCode, subjectDir.name, i);
      }
      Whole(items);
    }

    /** `scan_chapter`. */
    method ScanChapter(lesson: LessonKey, chapterDir: Entry, gradeCode: string, subjectName: string)
      requires chapterDir.Dir?
      modifies store
      ensures store.State() == ApplyAll(old(store.State()), ChapterPlan(lesson, chapterDir, gradeCode, subjectName))
    {
      ghost var db := store.State();
      var chapNum := NumberOr(chapterDir.name, 1);
      var chapTitle := TitleOf(chapterDir.name);
      var chapter := ChapterKey(lesson, chapNum);
      var _, _ := store.GetOrCreateChapter(chapter, Chapter(chapTitle, ""));
      ghost var head := [ChapterOp(chapter, Chapter(chapTitle, ""))];
      ApplyAllOne(db, head[0]);
      var partDirs := SubDirs(chapterDir.children);
      if partDirs != [] {
        var sorted := SortByName(partDirs);
        SortedSubDirsAreDirs(chapterDir.children);
        Start(db, head, PartDirsPlan(chapter, sorted[..0], gradeCode, subjectName, chapterDir.name));
        for i := 0 to |sorted|
          invariant AllDirs(sorted[..i])
          invariant store.State() == ApplyAll(db, head + PartDirsPlan(chapter, sorted[..i], gradeCode, subjectName, chapterDir.name))
        {
          ScanPartDir(chapter, sorted[i], gradeCode, subjectName, chapterDir.name);
          PartDirsLoop(db, head, chapter, sorted, gradeCode, subjectName, chapterDir.name, i);
        }
        Whole(sorted);
      } else {
        ScanHtmlInChapterRoot(chapter, chapterDir, gradeCode, subjectName);
        ApplyAllAppend(db, head, ChapterRootPlan(chapter, chapterDir, gradeCode, subjectName));
      }
    }

    /** `scan_part_dir`. */
    method ScanPartDir(chapter: ChapterKey, partDir: Entry, gradeCode: string, subjectName: string, chapterName: string)
      requires partDir.Dir?
      modifies store
      ensures store.State() == ApplyAll(old(store.State()), PartDirPlan(chapter, partDir, gradeCode, subjectName, chapterName))
    {
      var partNum := NumberOr(partDir.name, 1);
      var htmlFiles := HtmlFiles(partDir.children);
      ghost var db := store.State();
      if htmlFiles == [] {
        var relUrl := "/static/" + QuoteSegments([gradeCode, subjectName, chapterName, partDir.name]);
        var _, _ := store.GetOrCreatePart(PartKey(chapter, partNum), UrlPart(partDir.name, relUrl, None));
        ghost var plan := PartDirPlan(chapter, partDir, gradeCode, subjectName, chapterName);
        ApplyAllOne(db, plan[0]);
        return;
      }
      ghost var o := Origin(gradeCode, subjectName, chapterName, partDir.name);
      for idx := 0 to |htmlFiles|
        invariant store.State() == ApplyAll(db, FilesPlan(chapter, htmlFiles[..idx], partNum, o))
      {
        var num := if |htmlFiles| == 1 then partNum else partNum + idx;
        CreatePartFromFile(chapter, num, htmlFiles[idx], gradeCode, subjectName, chapterName, partDir.name);
        FilesLoop(db, chapter, htmlFiles, partNum, o, idx);
      }
      Whole(htmlFiles);
    }

    /** `scan_html_in_chapter_root`: the chapter's own HTML files become
        parts 1, 2, ... */
    method ScanHtmlInChapterRoot(chapter: ChapterKey, chapterDir: Entry, gradeCode: string, subjectName: string)
      requires chapterDir.Dir?
      modifies store
      ensures store.State() == ApplyAll(old(store.State()), ChapterRootPlan(chapter, chapterDir, gradeCode, subjectName))
    {
      var htmlFiles := HtmlFiles(chapterDir.children);
      CreateNumberedParts(chapter, htmlFiles, 1, gradeCode, subjectName, chapterDir.name, "");
    }

    /** The `enumerate(html_files, start=first)` loop of
        `scan_html_in_chapter_root`, calling `create_part_from_file` with the
        given folder names. */
    method CreateNumberedParts(chapter: ChapterKey, htmlFiles: seq<FileEntry>, first: nat, gradeCode: string, subjectName: string,
                               chapterOrPartName: string, partDirName: string)
      modifies store
      ensures store.State() == ApplyAll(old(store.State()),
        FilesPlan(chapter, htmlFiles, first, Origin(gradeCode, subjectName, chapterOrPartName, partDirName)))
    {
      ghost var db := store.State();
      ghost var o := Origin(gradeCode, subjectName, chapterOrPartName, partDirName);
      for k := 0 to |htmlFiles|
        invariant store.State() == ApplyAll(db, FilesPlan(chapter, htmlFiles[..k], first, o))
      {
        var idx := first + k;
        ghost var before := store.State();
        CreatePartFromFile(chapter, idx, htmlFiles[k], gradeCode, subjectName, chapterOrPartName, partDirName);
        assert store.State() == Apply(before, FilePartOp(chapter, first + k, htmlFiles[k], o));
        FilesLoop(db, chapter, htmlFiles, first, o, k);
      }
      FilesDone(db, chapter, htmlFiles, first, o);
    }

    /** `scan_default_chapter_file`. */
    method ScanDefaultChapterFile(lesson: LessonKey, file: FileEntry, gradeCode: string, subjectName: string)
      modifies store
      ensures store.State() == ApplyAll(old(store.State()), DefaultChapterPlan(lesson, file, gradeCode, subjectName))
    {
      ghost var db := store.State();
      var chapter := ChapterKey(lesson, 1);
      var _, _ := store.GetOrCreateChapter(chapter, Chapter("Chapter 1", ""));
      CreatePartFromFile(chapter, 1, file, gradeCode, subjectName, "", "");
      ghost var plan := DefaultChapterPlan(lesson, file, gradeCode, subjectName);
      ApplyAllTwo(db, plan[0], plan[1]);
    }

    /** `create_part_from_file`: builds the URL segments, then
        get-or-creates the part. */
    method CreatePartFromFile(chapter: ChapterKey, number: nat, file: FileEntry, gradeCode: string,
                              subjectName: string, chapterOrPartName: string, partDirName: string)
      modifies store
      ensures store.State() == Apply(old(store.State()), FilePartOp(chapter, number, file,
        Origin(gradeCode, subjectName, chapterOrPartName, partDirName)))
    {
      var segments := [gradeCode, subjectName];
      if chapterOrPartName != "" {
        segments := segments + [chapterOrPartName];
      }
      if partDirName != "" {
        segments := segments + [partDirName];
      }
      segments := segments + [file.name];
      assert segments == FileSegments(Origin(gradeCode, subjectName, chapterOrPartName, partDirName), file.name);
      var relUrl := "/static/" + QuoteSegments(segments);
      var defaults := UrlPart(Stem(file.name), relUrl, Some(file.size));
      var _, _ := store.GetOrCreatePart(PartKey(chapter, number), defaults);
    }
  }

  /** `Command.handle`: a missing root is reported and nothing is written; a
      root that is a file makes `iterdir` fail before any write. */
  method Handle(root: Option<Entry>, store: HierarchyStore) returns (outcome: Outcome)
    modifies store
    ensures store.State() == HandleResult(old(store.State()), root)
    ensures outcome == Seeded <==> root.Some? && root.value.Dir?
    ensures outcome == RootNotFound <==> root.None?
  {
    if root.None? {
      return RootNotFound;
    }
    if !root.value.Dir? {
      return RootNotADirectory;
    }
    var scanner := new GradeScanner(root.value, store);
    scanner.ScanAllGrades();
    return Seeded;
  }
}
