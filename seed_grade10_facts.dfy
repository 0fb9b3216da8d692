/**
 * What `seed_grade10` does to the store and to its two tallies, stated on
 * the `...Run` functions that its methods are proved to follow.
 */
module SeedGrade10Facts {
  import opened Wrappers
  import opened Names
  import opened Quoting
  import opened Tree
  import opened Store
  import opened SeedGrade10

  // ---------------------------------------------------------------------
  // The tallies tell the truth
  // ---------------------------------------------------------------------

  /** The number of rows of the table a counter is about. */
  function Rows(db: Db, k: Kind): nat {
    match k
    case Subjects => |db.subjects|
    case Lessons => |db.lessons|
    case Chapters => |db.chapters|
    case Parts => |db.parts|
  }

  /** From `a` to `b` no row was changed or removed, no grade was added, and
      each `counts` entry went up by exactly the number of rows its table
      gained. */
  predicate Counted(a: Progress, b: Progress) {
    && Extends(a.db, b.db)
    && b.db.grades == a.db.grades
    && |b.db.subjects| + a.tally.created.subjects == |a.db.subjects| + b.tally.created.subjects
    && |b.db.lessons| + a.tally.created.lessons == |a.db.lessons| + b.tally.created.lessons
    && |b.db.chapters| + a.tally.created.chapters == |a.db.chapters| + b.tally.created.chapters
    && |b.db.parts| + a.tally.created.parts == |a.db.parts| + b.tally.created.parts
  }

  lemma CountedRefl(a: Progress)
    ensures Counted(a, a)
  {
  }

  lemma CountedTrans(a: Progress, b: Progress, c: Progress)
    requires Counted(a, b) && Counted(b, c)
    ensures Counted(a, c)
  {
    ExtendsTrans(a.db, b.db, c.db);
  }

  /** Each counted `get_or_create` raises exactly one of `counts[k]` and
      `exists[k]` by one, `counts[k]` exactly when the row was missing; the
      other kinds are untouched. */
  lemma LookupCounts(p: Progress, op: Op)
    requires !op.GradeOp?
    ensures var r := Lookup(p, op); var k := KindOf(op);
      && (!Has(p.db, KeyOf(op)) ==> Get(r.tally.created, k) == Get(p.tally.created, k) + 1 && r.tally.found == p.tally.found)
      && (Has(p.db, KeyOf(op)) ==> Get(r.tally.found, k) == Get(p.tally.found, k) + 1 && r.tally.created == p.tally.created)
      && forall j :: j != k ==> Get(r.tally.created, j) == Get(p.tally.created, j) && Get(r.tally.found, j) == Get(p.tally.found, j)
  {
  }

  lemma LookupCounted(p: Progress, op: Op)
    requires !op.GradeOp?
    ensures Counted(p, Lookup(p, op))
  {
    var r := Lookup(p, op);
    if !Has(p.db, KeyOf(op)) {
      match op
      case SubjectOp(c, _) =>
        assert r.db == p.db.(subjects := p.db.subjects[c := op.subject]);
      case LessonOp(l, _, _) =>
        assert r.db == p.db.(lessons := p.db.lessons[l := r.db.lessons[l]]);
      case ChapterOp(c, _) =>
        assert r.db == p.db.(chapters := p.db.chapters[c := op.row]);
      case PartOp(q, _) =>
        assert r.db == p.db.(parts := p.db.parts[q := op.value]);
    }
  }

  lemma ProbeCounted(p: Progress, chapter: ChapterKey, base: nat, part: Part)
    ensures Counted(p, Probe(p, chapter, base, part))
  {
    FreeFromSpec(p.db, chapter, base, base);
  }

  lemma {:induction false} FilesRunCounted(p: Progress, chapter: ChapterKey, parts: seq<Part>, first: nat)
    ensures Counted(p, FilesRun(p, chapter, parts, first))
    decreases |parts|
  {
    if parts == [] {
      CountedRefl(p);
    } else {
      var n := |parts| - 1;
      var q := FilesRun(p, chapter, parts[..n], first);
      FilesRunCounted(p, chapter, parts[..n], first);
      var r := Probe(q, chapter, first + n, parts[n]);
      assert FilesRun(p, chapter, parts, first) == r;
      ProbeCounted(q, chapter, first + n, parts[n]);
      CountedTrans(p, q, r);
    }
  }

  lemma PartDirRunCounted(p: Progress, chapter: ChapterKey, partDir: Entry, subjectName: string, chapterName: string)
    requires partDir.Dir?
    ensures Counted(p, PartDirRun(p, chapter, partDir, subjectName, chapterName))
  {
    var partNum := NumberOr(partDir.name, 0);
    var files := HtmlFiles(partDir.children);
    var folders := [GradeCode, subjectName, chapterName, partDir.name];
    if files == [] {
      LookupCounted(p, PartOp(PartKey(chapter, OrOne(partNum)), FolderPart(folders, partDir.name)));
    } else {
      FilesRunCounted(p, chapter, FileParts(folders, files), PartDirFirst(partNum, |files|));
    }
  }

  lemma {:induction false} PartDirsRunCounted(p: Progress, chapter: ChapterKey, dirs: seq<Entry>, subjectName: string,
                                              chapterName: string)
    requires AllDirs(dirs)
    ensures Counted(p, PartDirsRun(p, chapter, dirs, subjectName, chapterName))
    decreases |dirs|
  {
    if dirs == [] {
      CountedRefl(p);
    } else {
      var n := |dirs| - 1;
      assert AllDirs(dirs[..n]);
      var q := PartDirsRun(p, chapter, dirs[..n], subjectName, chapterName);
      PartDirsRunCounted(p, chapter, dirs[..n], subjectName, chapterName);
      PartDirRunCounted(q, chapter, dirs[n], subjectName, chapterName);
      CountedTrans(p, q, PartDirRun(q, chapter, dirs[n], subjectName, chapterName));
    }
  }

  lemma ChapterRunCounted(p: Progress, lesson: LessonKey, chapterDir: Entry, subjectName: string)
    requires chapterDir.Dir?
    ensures Counted(p, ChapterRun(p, lesson, chapterDir, subjectName))
  {
    var key := ChapterKeyOf(lesson, chapterDir);
    var q := ChapterRow(p, lesson, chapterDir);
    LookupCounted(p, ChapterOp(key, Chapter(TitleOf(chapterDir.name), "")));
    var partDirs := SubDirs(chapterDir.children);
    if partDirs != [] {
      SortedSubDirsAreDirs(chapterDir.children);
      PartDirsRunCounted(q, key, SortByName(partDirs), subjectName, chapterDir.name);
      CountedTrans(p, q, ChapterRun(p, lesson, chapterDir, subjectName));
    } else {
      FilesRunCounted(q, key, FileParts([GradeCode, subjectName, chapterDir.name], HtmlFiles(chapterDir.children)), 1);
      CountedTrans(p, q, ChapterRun(p, lesson, chapterDir, subjectName));
    }
  }

  lemma CreateIfMissingCounted(q: Progress, key: PartKey, part: Part)
    ensures Counted(q, CreateIfMissing(q, key, part))
  {
    if key !in q.db.parts {
      LookupCounted(q, PartOp(key, part));
    }
  }

  lemma LooseFileRunCounted(p: Progress, lesson: LessonKey, file: FileEntry, subjectName: string)
    ensures Counted(p, LooseFileRun(p, lesson, file, subjectName))
  {
    var key := ChapterKey(lesson, 1);
    var q := Lookup(p, ChapterOp(key, Chapter("Chapter 1", "")));
    LookupCounted(p, ChapterOp(key, Chapter("Chapter 1", "")));
    var part := FilePart([GradeCode, subjectName], file);
    CreateIfMissingCounted(q, PartKey(key, 1), part);
    CountedTrans(p, q, CreateIfMissing(q, PartKey(key, 1), part));
  }

  lemma ItemRunCounted(p: Progress, lesson: LessonKey, item: Entry, subjectName: string)
    ensures Counted(p, ItemRun(p, lesson, item, subjectName))
  {
    if item.Dir? {
      ChapterRunCounted(p, lesson, item, subjectName);
    } else if IsHtmlName(item.name) {
      LooseFileRunCounted(p, lesson, item, subjectName);
    } else {
      CountedRefl(p);
    }
  }

  lemma {:induction false} ItemsRunCounted(p: Progress, lesson: LessonKey, items: seq<Entry>, subjectName: string)
    ensures Counted(p, ItemsRun(p, lesson, items, subjectName))
    decreases |items|
  {
    if items == [] {
      CountedRefl(p);
    } else {
      var n := |items| - 1;
      var q := ItemsRun(p, lesson, items[..n], subjectName);
      ItemsRunCounted(p, lesson, items[..n], subjectName);
      ItemRunCounted(q, lesson, items[n], subjectName);
      CountedTrans(p, q, ItemRun(q, lesson, items[n], subjectName));
    }
  }

  lemma SubjectRunCounted(p: Progress, subjectDir: Entry)
    requires subjectDir.Dir?
    ensures Counted(p, SubjectRun(p, subjectDir))
  {
    var lesson := LessonOf(subjectDir);
    var subjectOp := SubjectOp(lesson.subject, SubjectDefaults(subjectDir));
    var q := Lookup(p, subjectOp);
    LookupCounted(p, subjectOp);
    SubjectRowsThen(p, subjectDir, q);
    var lessonOp := LessonOp(lesson, Titled(q.db.subjects[lesson.subject].title + LessonSuffix), "");
    var r := Lookup(q, lessonOp);
    LookupCounted(q, lessonOp);
    CountedTrans(p, q, r);
    ItemsRunCounted(r, lesson, SortByName(subjectDir.children), subjectDir.name);
    CountedTrans(p, r, SubjectRun(p, subjectDir));
  }

  lemma {:induction false} SubjectsRunCounted(p: Progress, dirs: seq<Entry>)
    requires AllDirs(dirs)
    ensures Counted(p, SubjectsRun(p, dirs))
    decreases |dirs|
  {
    if dirs == [] {
      CountedRefl(p);
    } else {
      var n := |dirs| - 1;
      assert AllDirs(dirs[..n]);
      var q := SubjectsRun(p, dirs[..n]);
      SubjectsRunCounted(p, dirs[..n]);
      SubjectRunCounted(q, dirs[n]);
      CountedTrans(p, q, SubjectRun(q, dirs[n]));
    }
  }

  /** The summary `handle` prints is true to the store: grade 10 exists,
      no row that existed was changed, and every `counts` entry is the
      number of rows its table gained. */
  lemma SeedCounts(db: Db, gradeDir: Entry)
    requires gradeDir.Dir?
    ensures var r := Seed(db, gradeDir);
      && GradeCode in r.db.grades
      && Extends(db, r.db)
      && forall k :: Rows(r.db, k) == Rows(db, k) + Get(r.tally.created, k)
  {
    var s := Seeded(db);
    assert Has(s.db, GradeKey(GradeCode));
    SubjectsRunCounted(s, SubjectDirs(gradeDir));
    var r := Seed(db, gradeDir);
    ExtendsTrans(db, s.db, r.db);
    assert s.db == db.(grades := s.db.grades);
    forall k ensures Rows(r.db, k) == Rows(db, k) + Get(r.tally.created, k) {
      match k
      case Subjects =>
      case Lessons =>
      case Chapters =>
      case Parts =>
    }
  }

  // ---------------------------------------------------------------------
  // The probe
  // ---------------------------------------------------------------------

  /** A file's part takes the least number in `base .. base + 1000` that
      no part of the chapter has; when there is none, nothing changes. */
  lemma ProbeLeastFree(p: Progress, chapter: ChapterKey, base: nat, part: Part, n: nat)
    requires base <= n <= base + ProbeSpan && PartKey(chapter, n) !in p.db.parts
    requires forall m :: base <= m < n ==> PartKey(chapter, m) in p.db.parts
    ensures Probe(p, chapter, base, part) == Place(p, PartKey(chapter, n), part)
  {
    FreeFromSpec(p.db, chapter, base, base);
    var v := FirstFree(p.db, chapter, base);
    assert v.Some? && v.value == n;
  }

  lemma ProbeAllTaken(p: Progress, chapter: ChapterKey, base: nat, part: Part)
    requires forall m :: base <= m <= base + ProbeSpan ==> PartKey(chapter, m) in p.db.parts
    ensures Probe(p, chapter, base, part) == p
  {
    FreeFromSpec(p.db, chapter, base, base);
    assert FirstFree(p.db, chapter, base).None?;
  }

  /** No part of the chapter has a number in `first .. first + count - 1`. */
  predicate FreeRun(db: Db, chapter: ChapterKey, first: nat, count: nat) {
    forall m :: first <= m < first + count ==> PartKey(chapter, m) !in db.parts
  }

  /** `parts[i]` is part `first + i` of the chapter, for every `i`. */
  predicate StoredFrom(db: Db, chapter: ChapterKey, first: nat, parts: seq<Part>) {
    forall i :: 0 <= i < |parts| ==> PartKey(chapter, first + i) in db.parts && db.parts[PartKey(chapter, first + i)] == parts[i]
  }

  /** `after` keeps every part of `before` and adds exactly the numbers
      `first .. first + count - 1` of the chapter. */
  ghost predicate AddsRun(before: map<PartKey, Part>, after: map<PartKey, Part>, chapter: ChapterKey, first: nat, count: nat) {
    && (forall q :: q in after <==> q in before || (q.chapter == chapter && first <= q.number < first + count))
    && (forall q :: q in before ==> q in after && after[q] == before[q])
  }

  /** Files whose numbers are all free are stored at `first`, `first + 1`,
      ... in their order, and nothing else changes. */
  lemma {:induction false} FilesRunFresh(p: Progress, chapter: ChapterKey, parts: seq<Part>, first: nat)
    requires FreeRun(p.db, chapter, first, |parts|)
    ensures var r := FilesRun(p, chapter, parts, first);
      && r.db == p.db.(parts := r.db.parts)
      && StoredFrom(r.db, chapter, first, parts)
      && AddsRun(p.db.parts, r.db.parts, chapter, first, |parts|)
      && r.tally == Tally(p.tally.created.(parts := p.tally.created.parts + |parts|), p.tally.found)
    decreases |parts|
  {
    if parts != [] {
      var n := |parts| - 1;
      var init := parts[..n];
      FilesRunFresh(p, chapter, init, first);
      var q := FilesRun(p, chapter, init, first);
      var key := PartKey(chapter, first + n);
      assert key !in q.db.parts by {
        assert key !in p.db.parts;
      }
      ProbeLeastFree(q, chapter, first + n, parts[n], first + n);
      assert parts == init + [parts[n]];
      PlaceNext(p.db, q, chapter, first, init, parts[n]);
    }
  }

  /** Placing the next part at the next free number extends the run. */
  lemma PlaceNext(db: Db, q: Progress, chapter: ChapterKey, first: nat, init: seq<Part>, part: Part)
    requires q.db == db.(parts := q.db.parts)
    requires StoredFrom(q.db, chapter, first, init) && AddsRun(db.parts, q.db.parts, chapter, first, |init|)
    requires PartKey(chapter, first + |init|) !in q.db.parts
    ensures var r := Place(q, PartKey(chapter, first + |init|), part);
      && r.db == db.(parts := r.db.parts)
      && StoredFrom(r.db, chapter, first, init + [part])
      && AddsRun(db.parts, r.db.parts, chapter, first, |init| + 1)
  {
    var s := init + [part];
    var r := Place(q, PartKey(chapter, first + |init|), part);
    forall i | 0 <= i < |s| ensures PartKey(chapter, first + i) in r.db.parts && r.db.parts[PartKey(chapter, first + i)] == s[i] {
      if i < |init| {
        assert s[i] == init[i];
      }
    }
  }

  // ---------------------------------------------------------------------
  // Numbers and URLs
  // ---------------------------------------------------------------------

  /** `part_num or 1` agrees with reading the number with 1 as the
      fallback; a missing or zero number is 0 otherwise. */
  lemma OrOneNumber(name: string)
    ensures OrOne(NumberOr(name, 0)) == NumberOr(name, 1)
    ensures NumberOr(name, 0) == 0 <==> ExtractNumber(name) == None || ExtractNumber(name) == Some(0)
  {
  }

  /** A chapter folder whose name has no digit is stored as chapter 0. */
  lemma ChapterNumberDefault(lesson: LessonKey, chapterDir: Entry)
    requires forall i :: 0 <= i < |chapterDir.name| ==> !IsDigit(chapterDir.name[i])
    ensures ChapterKeyOf(lesson, chapterDir).number == 0
  {
  }

  /** A file's part: titled by its stem, sized, and linking to a URL that
      reads back into the folders and the file's name. */
  lemma FilePartUrl(folders: seq<string>, file: FileEntry)
    requires forall i :: 0 <= i < |folders| ==> NoSlash(folders[i])
    requires NoSlash(file.name)
    ensures var part := FilePart(folders, file);
      && part.title == Stem(file.name) && part.sizeBytes == Some(file.size) && part.contentType == Url
      && ParseLocator(part.contentUrl.value) == Some(folders + [file.name])
  {
    var segs := folders + [file.name];
    assert forall i :: 0 <= i < |segs| ==> NoSlash(segs[i]) by {
      forall i | 0 <= i < |segs| ensures NoSlash(segs[i]) {
        if i < |folders| {
          assert segs[i] == folders[i];
        }
      }
    }
    LocatorRoundTrip(segs);
  }

  /** A part folder without HTML: one part, numbered `part_num or 1`, with
      the folder's defaults (`FolderPartUrl`); it is created only when that
      number is free. */
  lemma PartDirOnly(p: Progress, chapter: ChapterKey, partDir: Entry, subjectName: string, chapterName: string)
    requires partDir.Dir? && HtmlFiles(partDir.children) == []
    ensures var r := PartDirRun(p, chapter, partDir, subjectName, chapterName);
      var key := PartKey(chapter, NumberOr(partDir.name, 1));
      && r.db == p.db.(parts := r.db.parts)
      && (key in p.db.parts ==> r.db.parts == p.db.parts)
      && (key !in p.db.parts ==>
            r.db.parts == p.db.parts[key := FolderPart([GradeCode, subjectName, chapterName, partDir.name], partDir.name)])
  {
    OrOneNumber(partDir.name);
  }

  /** A folder's part is titled by the folder and links to it: its URL,
      without the trailing `/`, decodes back to the folder's path. */
  lemma FolderPartUrl(folders: seq<string>, name: string)
    requires |folders| >= 1 && forall i :: 0 <= i < |folders| ==> NoSlash(folders[i])
    ensures var part := FolderPart(folders, name); var url := part.contentUrl.value;
      && part.title == name && part.sizeBytes == None && part.contentType == Url
      && |url| > 0 && url[|url| - 1] == '/'
      && ParseLocator(url[..|url| - 1]) == Some(folders)
  {
    LocatorRoundTrip(folders);
    var url := Locator(folders) + "/";
    assert url[..|url| - 1] == Locator(folders);
  }

  /** A part folder with HTML files whose numbers are free: with one file it
      is part `part_num or 1`; with several, file `i` (in name order) is part
      `part_num + i`, where `part_num` may be 0. */
  lemma PartDirFiles(p: Progress, chapter: ChapterKey, partDir: Entry, subjectName: string, chapterName: string)
    requires partDir.Dir? && HtmlFiles(partDir.children) != []
    requires var files := HtmlFiles(partDir.children);
      FreeRun(p.db, chapter, if |files| > 1 then NumberOr(partDir.name, 0) else NumberOr(partDir.name, 1), |files|)
    ensures var files := HtmlFiles(partDir.children);
      var first := if |files| > 1 then NumberOr(partDir.name, 0) else NumberOr(partDir.name, 1);
      var r := PartDirRun(p, chapter, partDir, subjectName, chapterName);
      && r.db == p.db.(parts := r.db.parts)
      && StoredFrom(r.db, chapter, first, FileParts([GradeCode, subjectName, chapterName, partDir.name], files))
  {
    OrOneNumber(partDir.name);
    var files := HtmlFiles(partDir.children);
    var folders := [GradeCode, subjectName, chapterName, partDir.name];
    var first := if |files| > 1 then NumberOr(partDir.name, 0) else NumberOr(partDir.name, 1);
    assert first == PartDirFirst(NumberOr(partDir.name, 0), |files|);
    var parts := FileParts(folders, files);
    assert PartDirRun(p, chapter, partDir, subjectName, chapterName) == FilesRun(p, chapter, parts, first);
    FilesRunFresh(p, chapter, parts, first);
  }

  // ---------------------------------------------------------------------
  // Loose files, subjects and lessons
  // ---------------------------------------------------------------------

  /** A loose file: chapter 1 of the lesson exists afterwards; part 1 of it
      is created from the file when missing, and otherwise only
      `exists["parts"]` goes up. */
  lemma LooseFileEffect(p: Progress, lesson: LessonKey, file: FileEntry, subjectName: string)
    ensures var key := ChapterKey(lesson, 1); var part := PartKey(key, 1);
      var r := LooseFileRun(p, lesson, file, subjectName);
      && key in r.db.chapters
      && (key !in p.db.chapters ==> r.db.chapters[key] == Chapter("Chapter 1", ""))
      && (part in p.db.parts ==>
            r.db.parts == p.db.parts && r.tally.found.parts == p.tally.found.parts + 1
            && r.tally.created.parts == p.tally.created.parts)
      && (part !in p.db.parts ==>
            r.db.parts == p.db.parts[part := FilePart([GradeCode, subjectName], file)]
            && r.tally.created.parts == p.tally.created.parts + 1 && r.tally.found.parts == p.tally.found.parts)
  {
    var key := ChapterKey(lesson, 1);
    var q := Lookup(p, ChapterOp(key, Chapter("Chapter 1", "")));
    assert q.db.parts == p.db.parts;
    assert Has(q.db, ChapterK(key));
  }

  /** The subject row: kept if the code is taken, created otherwise; only
      the subjects change. */
  lemma SubjectLookup(p: Progress, code: string, subject: Subject)
    ensures var r := Lookup(p, SubjectOp(code, subject));
      && r.db == p.db.(subjects := r.db.subjects)
      && code in r.db.subjects
      && r.db.subjects[code] == (if code in p.db.subjects then p.db.subjects[code] else subject)
  {
  }

  /** The lesson row with a given title: kept if the key is taken, created
      otherwise; the subjects do not change. */
  lemma LessonLookup(q: Progress, key: LessonKey, title: string, description: string)
    ensures var r := Lookup(q, LessonOp(key, Titled(title), description));
      && r.db.subjects == q.db.subjects
      && key in r.db.lessons
      && r.db.lessons[key] == (if key in q.db.lessons then q.db.lessons[key] else Lesson(title, description))
  {
  }

  /** The subject is keyed by `normalize_subject_code`; an existing one is
      kept, a new one is titled after the folder with language "fa". A new
      lesson of grade 10 is titled after the stored subject's title, not
      after the current folder name. */
  lemma SubjectRowsEffect(p: Progress, subjectDir: Entry)
    ensures var code := NormalizeSubjectCode(subjectDir.name);
      var key := LessonKey(GradeCode, code);
      var r := SubjectRows(p, subjectDir);
      && code in r.db.subjects && key in r.db.lessons
      && (code in p.db.subjects ==> r.db.subjects[code] == p.db.subjects[code])
      && (code !in p.db.subjects ==> r.db.subjects[code] == Subject(TitleOf(subjectDir.name), "fa"))
      && (key in p.db.lessons ==> r.db.lessons[key] == p.db.lessons[key])
      && (key !in p.db.lessons ==> r.db.lessons[key] == Lesson(r.db.subjects[code].title + LessonSuffix, ""))
  {
    var lesson := LessonOf(subjectDir);
    var code := lesson.subject;
    var subject := SubjectDefaults(subjectDir);
    var q := Lookup(p, SubjectOp(code, subject));
    SubjectLookup(p, code, subject);
    SubjectRowsThen(p, subjectDir, q);
    LessonLookup(q, lesson, q.db.subjects[code].title + LessonSuffix, "");
  }

  // ---------------------------------------------------------------------
  // A second run is not idempotent
  // ---------------------------------------------------------------------

  /** A chapter folder without subfolders: its row, then its files
      probed from 1. */
  lemma ChapterRunFiles(p: Progress, lesson: LessonKey, chapterDir: Entry, subjectName: string)
    requires chapterDir.Dir? && SubDirs(chapterDir.children) == []
    ensures ChapterRun(p, lesson, chapterDir, subjectName)
         == FilesRun(ChapterRow(p, lesson, chapterDir), ChapterKeyOf(lesson, chapterDir),
                     FileParts([GradeCode, subjectName, chapterDir.name], HtmlFiles(chapterDir.children)), 1)
  {
  }

  /** The chapter's row leaves the parts alone, and once the chapter exists
      it leaves the whole store alone. */
  lemma ChapterRowParts(p: Progress, lesson: LessonKey, chapterDir: Entry)
    ensures ChapterRow(p, lesson, chapterDir).db.parts == p.db.parts
    ensures ChapterKeyOf(lesson, chapterDir) in ChapterRow(p, lesson, chapterDir).db.chapters
    ensures ChapterKeyOf(lesson, chapterDir) in p.db.chapters ==> ChapterRow(p, lesson, chapterDir).db == p.db
  {
    assert Has(ChapterRow(p, lesson, chapterDir).db, ChapterK(ChapterKeyOf(lesson, chapterDir)));
  }

  lemma FilesRunOne(p: Progress, chapter: ChapterKey, parts: seq<Part>, first: nat)
    requires |parts| == 1
    ensures FilesRun(p, chapter, parts, first) == Probe(p, chapter, first, parts[0])
  {
    assert parts[..0] == [];
  }

  /** Seeding a chapter folder that holds one HTML file twice stores that
      file twice: the first run creates part 1, the second finds 1 taken and
      creates part 2 with the same content. */
  lemma ChapterRerunDuplicates(p: Progress, lesson: LessonKey, chapterDir: Entry, subjectName: string)
    requires chapterDir.Dir? && SubDirs(chapterDir.children) == [] && |HtmlFiles(chapterDir.children)| == 1
    requires PartKey(ChapterKeyOf(lesson, chapterDir), 1) !in p.db.parts
    requires PartKey(ChapterKeyOf(lesson, chapterDir), 2) !in p.db.parts
    ensures var key := ChapterKeyOf(lesson, chapterDir);
      var once := ChapterRun(p, lesson, chapterDir, subjectName);
      var twice := ChapterRun(once, lesson, chapterDir, subjectName);
      && PartKey(key, 1) in once.db.parts
      && once.db.parts == p.db.parts[PartKey(key, 1) := once.db.parts[PartKey(key, 1)]]
      && twice.db.parts == once.db.parts[PartKey(key, 2) := once.db.parts[PartKey(key, 1)]]
      && twice.db != once.db
      && twice.tally.created.parts == once.tally.created.parts + 1
  {
    var key := ChapterKeyOf(lesson, chapterDir);
    var parts := FileParts([GradeCode, subjectName, chapterDir.name], HtmlFiles(chapterDir.children));
    var part := parts[0];
    var q := ChapterRow(p, lesson, chapterDir);
    ChapterRowParts(p, lesson, chapterDir);
    var once := ChapterRun(p, lesson, chapterDir, subjectName);
    ChapterRunFiles(p, lesson, chapterDir, subjectName);
    FilesRunOne(q, key, parts, 1);
    ProbeLeastFree(q, key, 1, part, 1);
    assert once == Place(q, PartKey(key, 1), part);
    var q2 := ChapterRow(once, lesson, chapterDir);
    ChapterRowParts(once, lesson, chapterDir);
    var twice := ChapterRun(once, lesson, chapterDir, subjectName);
    ChapterRunFiles(once, lesson, chapterDir, subjectName);
    FilesRunOne(q2, key, parts, 1);
    assert q2.db.parts == p.db.parts[PartKey(key, 1) := part];
    assert PartKey(key, 1) in q2.db.parts && PartKey(key, 2) !in q2.db.parts;
    forall m | 1 <= m < 2 ensures PartKey(key, m) in q2.db.parts {
      assert m == 1;
    }
    ProbeLeastFree(q2, key, 1, part, 2);
    assert twice == Place(q2, PartKey(key, 2), part);
    assert PartKey(key, 2) in twice.db.parts;
  }
}
