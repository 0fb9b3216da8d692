/**
 * What `seed_all_grades` writes, stated on the plans of SeedAllGrades:
 * which grade folders are visited and in which order, how chapters and
 * parts are numbered, the URLs parts link to, where the lesson title comes
 * from, and that a run never changes an existing row, so that a second run
 * over the same tree changes nothing.
 */
module SeedAllGradesFacts {
  import opened Wrappers
  import opened Names
  import opened Quoting
  import opened Tree
  import opened Store
  import opened SeedAllGrades

  // ---------------------------------------------------------------------
  // Part numbering
  // ---------------------------------------------------------------------

  /** The files become parts `first`, `first + 1`, ..., one per file, in
      the order of the listing. */
  lemma FilesPlanNumbers(chapter: ChapterKey, files: seq<FileEntry>, first: nat, o: Origin)
    ensures forall i {:trigger FilesPlan(chapter, files, first, o)[i]} :: 0 <= i < |files| ==>
      FilesPlan(chapter, files, first, o)[i] == FilePartOp(chapter, first + i, files[i], o)
  {
    forall i | 0 <= i < |files| ensures FilesPlan(chapter, files, first, o)[i] == FilePartOp(chapter, first + i, files[i], o) {
      FilesPlanAt(chapter, files, first, o, i);
    }
  }

  /** File `i` of the listing is part `first + i`. */
  lemma {:induction false} FilesPlanAt(chapter: ChapterKey, files: seq<FileEntry>, first: nat, o: Origin, i: nat)
    requires i < |files|
    ensures FilesPlan(chapter, files, first, o)[i] == FilePartOp(chapter, first + i, files[i], o)
    decreases |files|
  {
    var n := |files| - 1;
    if i < n {
      var init := files[..n];
      FilesPlanAt(chapter, init, first, o, i);
      assert init[i] == files[i];
    }
  }

  /** What each part of a file has: its number, its file's stem as title,
      its file's size, and a URL built from the file's segments. */
  lemma FilesParts(chapter: ChapterKey, files: seq<FileEntry>, first: nat, o: Origin)
    ensures var plan := FilesPlan(chapter, files, first, o);
      && |plan| == |files|
      && forall i :: 0 <= i < |files| ==>
           && plan[i].PartOp?
           && plan[i].part == PartKey(chapter, first + i)
           && plan[i].value.title == Stem(files[i].name)
           && plan[i].value.sizeBytes == Some(files[i].size)
           && plan[i].value.contentUrl == Some(Locator(FileSegments(o, files[i].name)))
  {
    FilesPlanNumbers(chapter, files, first, o);
  }

  /** The URL segments of a file in a part folder, of a file in a chapter's
      own folder, and of a loose file. */
  lemma SegmentsOf(o: Origin)
    ensures o.chapterOrPart != "" && o.partDir != "" ==>
      forall f :: FileSegments(o, f) == [o.grade, o.subject, o.chapterOrPart, o.partDir, f]
    ensures o.chapterOrPart != "" && o.partDir == "" ==>
      forall f :: FileSegments(o, f) == [o.grade, o.subject, o.chapterOrPart, f]
    ensures o.chapterOrPart == "" && o.partDir == "" ==>
      forall f :: FileSegments(o, f) == [o.grade, o.subject, f]
  {
  }

  /** `scan_part_dir`. The part number is the folder's first number, or 1.
      A folder without HTML files is one part linking to the folder. A
      folder with HTML files gives one part per file, in name order, numbered
      from the part number on (a single file gets the part number itself),
      titled by the file's stem and linking to the file. */
  lemma PartDirParts(chapter: ChapterKey, partDir: Entry, grade: string, subject: string, chapterName: string)
    requires partDir.Dir?
    ensures
      var plan := PartDirPlan(chapter, partDir, grade, subject, chapterName);
      var partNum := NumberOr(partDir.name, 1);
      var files := HtmlFiles(partDir.children);
      && partNum >= 1
      && SortedBy(files, ByName)
      && (files == [] ==>
            plan == [PartOp(PartKey(chapter, partNum),
                       UrlPart(partDir.name, Locator([grade, subject, chapterName, partDir.name]), None))])
      && (|files| == 1 ==> |plan| == 1 && plan[0].part == PartKey(chapter, partNum))
      && (files != [] ==> |plan| == |files|)
      && (forall i :: 0 <= i < |files| ==>
            && plan[i].PartOp?
            && plan[i].part == PartKey(chapter, partNum + i)
            && plan[i].value.title == Stem(files[i].name)
            && plan[i].value.sizeBytes == Some(files[i].size)
            && (chapterName != "" && partDir.name != "" ==>
                  plan[i].value.contentUrl == Some(Locator([grade, subject, chapterName, partDir.name, files[i].name]))))
  {
    var files := HtmlFiles(partDir.children);
    var partNum := NumberOr(partDir.name, 1);
    var o := Origin(grade, subject, chapterName, partDir.name);
    FindHtmlFilesSorted(partDir.children);
    if files != [] {
      assert PartDirPlan(chapter, partDir, grade, subject, chapterName) == FilesPlan(chapter, files, partNum, o);
      FilesParts(chapter, files, partNum, o);
      SegmentsOf(o);
    }
  }

  /** `scan_html_in_chapter_root`: the chapter's HTML files, in name order,
      become parts 1, 2, ..., n, each linking to
      `/static/<grade>/<subject>/<chapter>/<file>`. */
  lemma ChapterRootParts(chapter: ChapterKey, chapterDir: Entry, grade: string, subject: string)
    requires chapterDir.Dir?
    ensures
      var plan := ChapterRootPlan(chapter, chapterDir, grade, subject);
      var files := HtmlFiles(chapterDir.children);
      && SortedBy(files, ByName)
      && |plan| == |files|
      && (forall i :: 0 <= i < |files| ==>
            && plan[i].PartOp?
            && plan[i].part == PartKey(chapter, i + 1)
            && plan[i].value.title == Stem(files[i].name)
            && (chapterDir.name != "" ==>
                  plan[i].value.contentUrl == Some(Locator([grade, subject, chapterDir.name, files[i].name]))))
  {
    var o := Origin(grade, subject, chapterDir.name, "");
    FindHtmlFilesSorted(chapterDir.children);
    FilesParts(chapter, HtmlFiles(chapterDir.children), 1, o);
    SegmentsOf(o);
  }

  /** `scan_chapter`: the chapter is numbered by the folder's first number,
      or 1, and titled after the folder; without part folders its parts are
      its own HTML files. */
  lemma ChapterParts(lesson: LessonKey, chapterDir: Entry, grade: string, subject: string)
    requires chapterDir.Dir?
    ensures
      var plan := ChapterPlan(lesson, chapterDir, grade, subject);
      var key := ChapterKeyOf(lesson, chapterDir);
      && key.lesson == lesson
      && key.number >= 1
      && (forall i, j :: FirstDigitRun(chapterDir.name, i, j) && DigitsValue(chapterDir.name[i..j]) != 0 ==>
            key.number == DigitsValue(chapterDir.name[i..j]))
      && |plan| >= 1
      && plan[0] == ChapterOp(key, Chapter(TitleOf(chapterDir.name), ""))
      && PartsOf(plan[1..], key)
      && (SubDirs(chapterDir.children) == [] ==> plan[1..] == ChapterRootPlan(key, chapterDir, grade, subject))
  {
    ChapterShape(lesson, chapterDir, grade, subject);
  }

  /** A chapter's plan is the chapter, then parts of that chapter only. */
  lemma ChapterShape(lesson: LessonKey, chapterDir: Entry, grade: string, subject: string)
    requires chapterDir.Dir?
    ensures
      var plan := ChapterPlan(lesson, chapterDir, grade, subject);
      var key := ChapterKeyOf(lesson, chapterDir);
      && |plan| >= 1
      && plan[0] == ChapterOp(key, Chapter(TitleOf(chapterDir.name), ""))
      && PartsOf(plan[1..], key)
      && (SubDirs(chapterDir.children) == [] ==> plan[1..] == ChapterRootPlan(key, chapterDir, grade, subject))
  {
    var key := ChapterKeyOf(lesson, chapterDir);
    var plan := ChapterPlan(lesson, chapterDir, grade, subject);
    var partDirs := SubDirs(chapterDir.children);
    SortedSubDirsAreDirs(chapterDir.children);
    if partDirs != [] {
      PartDirsPlanParts(key, SortByName(partDirs), grade, subject, chapterDir.name);
      assert plan[1..] == PartDirsPlan(key, SortByName(partDirs), grade, subject, chapterDir.name);
    } else {
      FilesPlanNumbers(key, HtmlFiles(chapterDir.children), 1, Origin(grade, subject, chapterDir.name, ""));
      assert plan[1..] == ChapterRootPlan(key, chapterDir, grade, subject);
    }
  }

  /** `scan_default_chapter_file`: a loose HTML file is part 1 of chapter 1
      ("Chapter 1"), linking to `/static/<grade>/<subject>/<file>`: the empty
      folder names are left out of the URL. */
  lemma LooseFilePart(lesson: LessonKey, file: FileEntry, grade: string, subject: string)
    ensures
      var plan := DefaultChapterPlan(lesson, file, grade, subject);
      var chapter := ChapterKey(lesson, 1);
      && |plan| == 2
      && plan[0] == ChapterOp(chapter, Chapter("Chapter 1", ""))
      && plan[1].PartOp? && plan[1].part == PartKey(chapter, 1)
      && plan[1].value.contentUrl == Some(Locator([grade, subject, file.name]))
      && plan[1].value.title == Stem(file.name)
  {
    SegmentsOf(Origin(grade, subject, "", ""));
  }

  /** Only the first loose file of a subject becomes a part: the next one
      names the same chapter and part, so it changes nothing. */
  lemma SecondLooseFileIgnored(db: Db, lesson: LessonKey, first: FileEntry, next: FileEntry, grade: string, subject: string)
    ensures
      var after := ApplyAll(db, DefaultChapterPlan(lesson, first, grade, subject));
      ApplyAll(after, DefaultChapterPlan(lesson, next, grade, subject)) == after
  {
    var a := DefaultChapterPlan(lesson, first, grade, subject);
    var b := DefaultChapterPlan(lesson, next, grade, subject);
    ApplyAllCovers(db, a);
    assert KeyOf(b[0]) == KeyOf(a[0]) && KeyOf(b[1]) == KeyOf(a[1]);
    ApplyAllPresent(ApplyAll(db, a), b);
  }

  // ---------------------------------------------------------------------
  // Which rows a plan writes
  // ---------------------------------------------------------------------

  /** Every call writes a part of `chapter`. */
  predicate PartsOf(ops: seq<Op>, chapter: ChapterKey) {
    forall i :: 0 <= i < |ops| ==> ops[i].PartOp? && ops[i].part.chapter == chapter
  }

  /** Every call writes a chapter or a part of `lesson`. */
  predicate InLesson(ops: seq<Op>, lesson: LessonKey) {
    forall i :: 0 <= i < |ops| ==>
      || (ops[i].ChapterOp? && ops[i].chapter.lesson == lesson)
      || (ops[i].PartOp? && ops[i].part.chapter.lesson == lesson)
  }

  /** A call that writes a subject, or a row of grade `g` below the grade. */
  predicate OpInGrade(op: Op, g: string) {
    match op
    case GradeOp(_, _) => false
    case SubjectOp(_, _) => true
    case LessonOp(l, _, _) => l.grade == g
    case ChapterOp(c, _) => c.lesson.grade == g
    case PartOp(p, _) => p.chapter.lesson.grade == g
  }

  predicate InGrade(ops: seq<Op>, g: string) {
    forall i :: 0 <= i < |ops| ==> OpInGrade(ops[i], g)
  }

  lemma PartDirPlanParts(chapter: ChapterKey, partDir: Entry, grade: string, subject: string, chapterName: string)
    requires partDir.Dir?
    ensures PartsOf(PartDirPlan(chapter, partDir, grade, subject, chapterName), chapter)
  {
    var files := HtmlFiles(partDir.children);
    FilesPlanNumbers(chapter, files, NumberOr(partDir.name, 1), Origin(grade, subject, chapterName, partDir.name));
  }

  lemma PartsOfAppend(a: seq<Op>, b: seq<Op>, chapter: ChapterKey)
    requires PartsOf(a, chapter) && PartsOf(b, chapter)
    ensures PartsOf(a + b, chapter)
  {
    forall i | |a| <= i < |a + b| ensures (a + b)[i] == b[i - |a|] { }
  }

  lemma {:induction false} PartDirsPlanParts(chapter: ChapterKey, dirs: seq<Entry>, grade: string, subject: string, chapterName: string)
    requires AllDirs(dirs)
    ensures PartsOf(PartDirsPlan(chapter, dirs, grade, subject, chapterName), chapter)
    decreases |dirs|
  {
    if dirs != [] {
      var n := |dirs| - 1;
      assert AllDirs(dirs[..n]);
      PartDirsPlanParts(chapter, dirs[..n], grade, subject, chapterName);
      PartDirPlanParts(chapter, dirs[n], grade, subject, chapterName);
      PartsOfAppend(PartDirsPlan(chapter, dirs[..n], grade, subject, chapterName),
                    PartDirPlan(chapter, dirs[n], grade, subject, chapterName), chapter);
    }
  }

  /** A chapter followed by parts of it stays within the chapter's lesson. */
  lemma HeadPartsInLesson(ops: seq<Op>, key: ChapterKey)
    requires |ops| >= 1 && ops[0].ChapterOp? && ops[0].chapter == key && PartsOf(ops[1..], key)
    ensures InLesson(ops, key.lesson)
  {
    forall i | 1 <= i < |ops| ensures ops[i].PartOp? && ops[i].part.chapter == key {
      assert ops[1..][i - 1] == ops[i];
    }
  }

  lemma ItemPlanInLesson(lesson: LessonKey, item: Entry, grade: string, subject: string)
    ensures InLesson(ItemPlan(lesson, item, grade, subject), lesson)
  {
    if item.Dir? {
      ChapterShape(lesson, item, grade, subject);
      HeadPartsInLesson(ChapterPlan(lesson, item, grade, subject), ChapterKeyOf(lesson, item));
    }
  }

  lemma InLessonAppend(a: seq<Op>, b: seq<Op>, lesson: LessonKey)
    requires InLesson(a, lesson) && InLesson(b, lesson)
    ensures InLesson(a + b, lesson)
  {
    forall i | |a| <= i < |a + b| ensures (a + b)[i] == b[i - |a|] { }
  }

  lemma {:induction false} ItemsPlanInLesson(lesson: LessonKey, items: seq<Entry>, grade: string, subject: string)
    ensures InLesson(ItemsPlan(lesson, items, grade, subject), lesson)
    decreases |items|
  {
    if items != [] {
      var n := |items| - 1;
      ItemsPlanInLesson(lesson, items[..n], grade, subject);
      ItemPlanInLesson(lesson, items[n], grade, subject);
      InLessonAppend(ItemsPlan(lesson, items[..n], grade, subject), ItemPlan(lesson, items[n], grade, subject), lesson);
    }
  }

  lemma InLessonInGrade(ops: seq<Op>, lesson: LessonKey)
    requires InLesson(ops, lesson)
    ensures InGrade(ops, lesson.grade)
  {
    forall i | 0 <= i < |ops| ensures OpInGrade(ops[i], lesson.grade) { }
  }

  lemma InGradeAppend(a: seq<Op>, b: seq<Op>, g: string)
    requires InGrade(a, g) && InGrade(b, g)
    ensures InGrade(a + b, g)
  {
    forall i | |a| <= i < |a + b| ensures (a + b)[i] == b[i - |a|] { }
  }

  /** A subject and a lesson of grade `g`, then rows of that lesson. */
  lemma SubjectOpsInGrade(code: string, subject: Subject, lesson: LessonKey, t: LessonTitle, rest: seq<Op>)
    requires InLesson(rest, lesson)
    ensures InGrade([SubjectOp(code, subject), LessonOp(lesson, t, "")] + rest, lesson.grade)
  {
    InLessonInGrade(rest, lesson);
    InGradeAppend([SubjectOp(code, subject), LessonOp(lesson, t, "")], rest, lesson.grade);
  }

  /** Below a grade the scanner writes subjects, and lessons, chapters and
      parts of that grade: never a grade. */
  lemma SubjectPlanInGrade(grade: string, subjectDir: Entry)
    requires subjectDir.Dir?
    ensures InGrade(SubjectPlan(grade, subjectDir), grade)
  {
    var code := NormalizeCode(subjectDir.name);
    var lesson := LessonKey(grade, code);
    var rest := ItemsPlan(lesson, SortByName(subjectDir.children), grade, subjectDir.name);
    ItemsPlanInLesson(lesson, SortByName(subjectDir.children), grade, subjectDir.name);
    SubjectOpsInGrade(code, Subject(TitleOf(subjectDir.name), "fa"), lesson, AfterSubject(LessonSuffix + grade), rest);
  }

  lemma {:induction false} SubjectsPlanInGrade(grade: string, items: seq<Entry>)
    ensures InGrade(SubjectsPlan(grade, items), grade)
    decreases |items|
  {
    if items != [] {
      var n := |items| - 1;
      SubjectsPlanInGrade(grade, items[..n]);
      var last := if items[n].Dir? then SubjectPlan(grade, items[n]) else [];
      if items[n].Dir? {
        SubjectPlanInGrade(grade, items[n]);
      }
      InGradeAppend(SubjectsPlan(grade, items[..n]), last, grade);
    }
  }

  // ---------------------------------------------------------------------
  // Grades
  // ---------------------------------------------------------------------

  /** The codes of the grades a run of calls writes, in order. */
  function GradeCodes(ops: seq<Op>): seq<string>
    decreases |ops|
  {
    if ops == [] then []
    else
      var n := |ops| - 1;
      GradeCodes(ops[..n]) + (if ops[n].GradeOp? then [ops[n].code] else [])
  }

  /** `GradeCodes` lists exactly the grades the calls name. */
  lemma {:induction false} GradeCodesKeys(ops: seq<Op>)
    ensures forall c :: c in GradeCodes(ops) <==> exists i :: 0 <= i < |ops| && KeyOf(ops[i]) == GradeKey(c)
    decreases |ops|
  {
    if ops != [] {
      var n := |ops| - 1;
      var init := ops[..n];
      GradeCodesKeys(init);
      forall c ensures c in GradeCodes(ops) <==> exists i :: 0 <= i < |ops| && KeyOf(ops[i]) == GradeKey(c) {
        if exists i :: 0 <= i < |ops| && KeyOf(ops[i]) == GradeKey(c) {
          var i :| 0 <= i < |ops| && KeyOf(ops[i]) == GradeKey(c);
          if i < n {
            assert KeyOf(init[i]) == GradeKey(c);
          }
        }
        if exists i :: 0 <= i < n && KeyOf(init[i]) == GradeKey(c) {
          var i :| 0 <= i < n && KeyOf(init[i]) == GradeKey(c);
          assert KeyOf(ops[i]) == GradeKey(c);
        }
      }
    }
  }

  lemma {:induction false} GradeCodesAppend(a: seq<Op>, b: seq<Op>)
    ensures GradeCodes(a + b) == GradeCodes(a) + GradeCodes(b)
    decreases |b|
  {
    if b == [] {
      assert a + b == a;
    } else {
      var n := |b| - 1;
      var ab := a + b;
      assert ab[..|ab| - 1] == a + b[..n];
      assert ab[|ab| - 1] == b[n];
      GradeCodesAppend(a, b[..n]);
    }
  }

  lemma {:induction false} GradeCodesInGrade(ops: seq<Op>, g: string)
    requires InGrade(ops, g)
    ensures GradeCodes(ops) == []
    decreases |ops|
  {
    if ops != [] {
      var n := |ops| - 1;
      assert OpInGrade(ops[n], g);
      assert InGrade(ops[..n], g);
      GradeCodesInGrade(ops[..n], g);
    }
  }

  function NamesOf(s: seq<Entry>): (r: seq<string>)
    ensures |r| == |s| && forall i :: 0 <= i < |s| ==> r[i] == s[i].name
  {
    seq(|s|, i requires 0 <= i < |s| => s[i].name)
  }

  lemma NamesOfSnoc(s: seq<Entry>)
    requires s != []
    ensures NamesOf(s) == NamesOf(s[..|s| - 1]) + [s[|s| - 1].name]
  {
  }

  /** `scan_grade` writes its grade first, and no other grade. */
  lemma GradePlanCodes(gradeDir: Entry)
    ensures GradeCodes(GradePlan(gradeDir)) == [gradeDir.name]
  {
    var head := [GradeOp(gradeDir.name, Grade("Grade " + gradeDir.name))];
    if gradeDir.Dir? {
      var rest := SubjectsPlan(gradeDir.name, SortByName(gradeDir.children));
      SubjectsPlanInGrade(gradeDir.name, SortByName(gradeDir.children));
      GradeCodesInGrade(rest, gradeDir.name);
      GradeCodesAppend(head, rest);
    } else {
      assert GradePlan(gradeDir) == head + [];
      GradeCodesAppend(head, []);
    }
    assert GradeCodes(head) == [gradeDir.name] by {
      assert head[..0] == [];
    }
  }

  lemma {:induction false} GradesPlanCodes(grades: seq<Entry>)
    ensures GradeCodes(GradesPlan(grades)) == NamesOf(grades)
    decreases |grades|
  {
    if grades != [] {
      var n := |grades| - 1;
      GradesPlanCodes(grades[..n]);
      GradePlanCodes(grades[n]);
      GradeCodesAppend(GradesPlan(grades[..n]), GradePlan(grades[n]));
      NamesOfSnoc(grades);
    }
  }

  /** The grade folders, in the order `scan_all_grades` visits them: they
      are the root's all-digit folders, in ascending numeric order. */
  lemma SortedGradeDirs(rootChildren: seq<Entry>)
    ensures
      var sorted := SortByNumber(GradeDirs(rootChildren));
      && (forall d :: d in sorted <==> d in rootChildren && IsGradeDir(d))
      && (forall i :: 0 <= i < |sorted| ==> IsGradeDir(sorted[i]) && NumberOf(sorted[i]) == DigitsValue(sorted[i].name))
      && (forall i, j :: 0 <= i < j < |sorted| ==> NumberOf(sorted[i]) <= NumberOf(sorted[j]))
  {
    var dirs := GradeDirs(rootChildren);
    var sorted := SortByNumber(dirs);
    SortByNumberSorted(dirs);
    GradeDirsMembers(rootChildren);
    forall i | 0 <= i < |sorted| ensures IsGradeDir(sorted[i]) && NumberOf(sorted[i]) == DigitsValue(sorted[i].name) {
      assert sorted[i] in sorted;
    }
  }

  /** Sorting keeps the grade folders. */
  lemma GradeDirsMembers(rootChildren: seq<Entry>)
    ensures forall d :: d in SortByNumber(GradeDirs(rootChildren)) <==> d in rootChildren && IsGradeDir(d)
  {
    var dirs := GradeDirs(rootChildren);
    var sorted := SortByNumber(dirs);
    assert forall d :: d in sorted <==> d in multiset(sorted);
    assert forall d :: d in dirs <==> d in multiset(dirs);
  }

  /** `scan_all_grades`: the grades written are the root's all-digit
      folders (`SortedGradeDirs`; `GradeDirsMultiset` for how often), in
      ascending numeric order;
      with no such folder nothing is written at all. */
  lemma AllGradesOrder(rootChildren: seq<Entry>)
    ensures
      var codes := GradeCodes(AllGradesPlan(rootChildren));
      var dirs := SortByNumber(GradeDirs(rootChildren));
      && codes == NamesOf(dirs)
      && (forall i :: 0 <= i < |codes| ==> IsDigitName(codes[i]))
      && (forall i, j :: 0 <= i < j < |codes| ==> DigitsValue(codes[i]) <= DigitsValue(codes[j]))
      && (GradeDirs(rootChildren) == [] ==> AllGradesPlan(rootChildren) == [])
  {
    var dirs := SortByNumber(GradeDirs(rootChildren));
    GradesPlanCodes(dirs);
    SortedGradeDirs(rootChildren);
  }

  /** The visited folders are the root's all-digit folders, each as often as
      the listing holds it. */
  lemma GradeDirsMultiset(rootChildren: seq<Entry>)
    ensures var dirs := SortByNumber(GradeDirs(rootChildren));
      forall e :: multiset(dirs)[e] == if IsGradeDir(e) then multiset(rootChildren)[e] else 0
  {
    FilterMultiset(rootChildren, IsGradeDir);
  }

  /** The names of the root's all-digit folders. */
  function GradeNames(rootChildren: seq<Entry>): set<string> {
    set d | d in rootChildren && IsGradeDir(d) :: d.name
  }

  lemma NamesOfGradeDirs(rootChildren: seq<Entry>)
    ensures forall c :: c in NamesOf(SortByNumber(GradeDirs(rootChildren))) <==> c in GradeNames(rootChildren)
  {
    var dirs := SortByNumber(GradeDirs(rootChildren));
    var names := NamesOf(dirs);
    GradeDirsMembers(rootChildren);
    forall c ensures c in names <==> c in GradeNames(rootChildren) {
      if c in names {
        var i :| 0 <= i < |names| && names[i] == c;
        assert dirs[i] in dirs;
      }
      if c in GradeNames(rootChildren) {
        var d :| d in rootChildren && IsGradeDir(d) && d.name == c;
        assert d in dirs;
        var i :| 0 <= i < |dirs| && dirs[i] == d;
        assert names[i] == c;
      }
    }
  }

  // ---------------------------------------------------------------------
  // Subjects and lessons
  // ---------------------------------------------------------------------

  /** A subject and its lesson written first, then calls that write
      neither: the subject row is the stored one or the new one, and a new
      lesson is titled after the stored subject. */
  lemma HeadThenRest(db: Db, lesson: LessonKey, subject: Subject, suffix: string, rest: seq<Op>)
    ensures
      var code := lesson.subject;
      var after := ApplyAll(ApplyAll(db, [SubjectOp(code, subject), LessonOp(lesson, AfterSubject(suffix), "")]), rest);
      && code in after.subjects && lesson in after.lessons
      && (code in db.subjects ==> after.subjects[code] == db.subjects[code])
      && (code !in db.subjects ==> after.subjects[code] == subject)
      && (lesson in db.lessons ==> after.lessons[lesson] == db.lessons[lesson])
      && (lesson !in db.lessons ==> after.lessons[lesson] == Lesson(after.subjects[code].title + suffix, ""))
  {
    var code := lesson.subject;
    var head := [SubjectOp(code, subject), LessonOp(lesson, AfterSubject(suffix), "")];
    SubjectHeadEffect(db, lesson, subject, suffix);
    var mid1 := Apply(db, SubjectOp(code, subject));
    var mid := ApplyAll(db, head);
    assert Has(mid1, LessonK(lesson)) <==> Has(db, LessonK(lesson));
    assert Has(mid, LessonK(lesson));
    ApplyAllExtends(mid, rest);
  }

  /** `scan_subject`: the subject is keyed by the normalised folder name;
      an existing subject is kept, a new one is titled after the folder with
      language "fa". A new lesson is titled `"<subject title> - Grade <grade>"`
      after the stored subject's title, not after the current folder name. */
  lemma SubjectLessonTitle(db: Db, grade: string, subjectDir: Entry)
    requires subjectDir.Dir?
    ensures
      var code := NormalizeCode(subjectDir.name);
      var key := LessonKey(grade, code);
      var after := ApplyAll(db, SubjectPlan(grade, subjectDir));
      && code in after.subjects && key in after.lessons
      && (code in db.subjects ==> after.subjects[code] == db.subjects[code])
      && (code !in db.subjects ==> after.subjects[code] == Subject(TitleOf(subjectDir.name), "fa"))
      && (key in db.lessons ==> after.lessons[key] == db.lessons[key])
      && (key !in db.lessons ==> after.lessons[key] == Lesson(after.subjects[code].title + (LessonSuffix + grade), ""))
  {
    var code := NormalizeCode(subjectDir.name);
    var key := LessonKey(grade, code);
    var head := SubjectHead(grade, subjectDir);
    var rest := ItemsPlan(key, SortByName(subjectDir.children), grade, subjectDir.name);
    assert SubjectPlan(grade, subjectDir) == head + rest;
    ApplyAllAppend(db, head, rest);
    HeadThenRest(db, key, Subject(TitleOf(subjectDir.name), "fa"), LessonSuffix + grade, rest);
  }

  // ---------------------------------------------------------------------
  // The command
  // ---------------------------------------------------------------------

  /** `handle`: a missing root, or a root that is not a folder, leaves the
      store as it was; otherwise the grade rows afterwards are the old ones
      and one per all-digit folder of the root. */
  lemma HandleGrades(db: Db, root: Option<Entry>)
    ensures root.None? || !root.value.Dir? ==> HandleResult(db, root) == db
    ensures root.Some? && root.value.Dir? ==>
      forall c :: c in HandleResult(db, root).grades <==> c in db.grades || c in GradeNames(root.value.children)
  {
    if root.Some? && root.value.Dir? {
      AllGradeRows(db, root.value.children);
    }
  }

  lemma AllGradeRows(db: Db, rootChildren: seq<Entry>)
    ensures forall c :: c in ApplyAll(db, AllGradesPlan(rootChildren)).grades <==>
      c in db.grades || c in GradeNames(rootChildren)
  {
    var ops := AllGradesPlan(rootChildren);
    GradeRows(db, ops);
    GradesPlanCodes(SortByNumber(GradeDirs(rootChildren)));
    NamesOfGradeDirs(rootChildren);
  }

  /** After a run, the grade rows are the old ones and those it names. */
  lemma GradeRows(db: Db, ops: seq<Op>)
    ensures forall c :: c in ApplyAll(db, ops).grades <==> c in db.grades || c in GradeCodes(ops)
  {
    ApplyAllKeys(db, ops);
    GradeCodesKeys(ops);
    forall c ensures c in ApplyAll(db, ops).grades <==> c in db.grades || c in GradeCodes(ops) {
      assert Has(ApplyAll(db, ops), GradeKey(c)) <==> c in ApplyAll(db, ops).grades;
      assert Has(db, GradeKey(c)) <==> c in db.grades;
    }
  }

  /** Every write is `get_or_create`: a run keeps every existing row as it
      was, and running the command again over the same tree changes
      nothing. */
  lemma HandleIdempotent(db: Db, root: Option<Entry>)
    ensures Extends(db, HandleResult(db, root))
    ensures HandleResult(HandleResult(db, root), root) == HandleResult(db, root)
  {
    if root.Some? && root.value.Dir? {
      ApplyAllExtends(db, AllGradesPlan(root.value.children));
      ApplyAllIdempotent(db, AllGradesPlan(root.value.children));
    }
  }
}
