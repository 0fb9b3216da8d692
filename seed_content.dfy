/**
 * `seed_content` (content/management/commands/seed_content.py): a fixed
 * seeding of three grades, two subjects and, for each grade, a Biology and
 * an Arabic lesson with their chapters and parts. Every write is a keyed
 * `get_or_create`, so the whole command is one run of `Apply` over a fixed
 * plan; the method below makes the same calls on the store, in the same
 * order, and is proved to end where that run does.
 *
 * The six lesson blocks of the command are written out one after another
 * in the source; here they are one table entry each, seeded in the same
 * order by one method.
 */
module SeedContent {
  import opened Wrappers
  import opened Store

  /** One entry of a `parts_...` list. */
  datatype PartSeed = PartSeed(number: nat, title: string, url: string)

  /** A chapter's `get_or_create` and the parts seeded under it. */
  datatype ChapterSeed = ChapterSeed(number: nat, title: string, summary: string, parts: seq<PartSeed>)

  /** A lesson's `get_or_create` (keyed by grade and subject code) and the
      chapters seeded under it. */
  datatype LessonSeed = LessonSeed(grade: string, subject: string, title: string, description: string,
                                   chapters: seq<ChapterSeed>)

  /** A URL under a grade's static folder, `/static/<grade>/<rest>`. */
  function StaticUrl(grade: string, rest: string): (r: string)
    ensures "/static/" + grade + "/" <= r
  {
    "/static/" + grade + "/" + rest
  }

  /** `grades_data`: code and name. */
  const GradesData: seq<(string, string)> := [("10", "Grade 10"), ("12", "Grade 12"), ("13", "Grade 13")]

  /** `subjects_data`: code, title and language. */
  const SubjectsData: seq<(string, string, string)> := [("biology1", "Biology 1", "fa"), ("arabic1", "Arabic 1", "fa")]

  /** Grade 10, Biology 1: chapters 1 and 2, with three and two parts. */
  const Biology10: LessonSeed := LessonSeed("10", "biology1", "Biology 1 - Grade 10",
    "Introduction to biology, living organisms, and biological molecules", [
      ChapterSeed(1, "فصل 1 — دنیای زنده", "Introduction to biology, scope of life, and biological molecules", [
        PartSeed(1, "Part 1: گفتار 1 — زیستشناسی چیست؟", StaticUrl("10", "Biology_1/Chapter%201/Part%201/Bio1CH1P1C1.html")),
        PartSeed(2, "Part 2: گفتار 2 — گستره حیات", StaticUrl("10", "Biology_1/Chapter%201/Part%202/Bio1CH1P2C1.html")),
        PartSeed(3, "Part 3: گفتار 3 — یاخته و بافت", StaticUrl("10", "Biology_1/Chapter%201/Part%203/Bio1CH1P3C1.html"))]),
      ChapterSeed(2, "فصل 2 — سامانه\U{200C}های زنده", "Understanding living systems and their organization", [
        PartSeed(1, "Part 1: گفتار 1", StaticUrl("10", "Biology_1/Chapter%202/Part%201/Bio1CH2P1C1.html")),
        PartSeed(2, "Part 2: گفتار 2", StaticUrl("10", "Biology_1/Chapter%202/Part%202/Bio1CH2P2C1.html"))])])

  /** Grade 10, Arabic 1: chapter 1, with two parts. */
  const Arabic10: LessonSeed := LessonSeed("10", "arabic1", "Arabic 1 - Grade 10",
    "Arabic language fundamentals and grammar", [
      ChapterSeed(1, "فصل 1 — اساسیات عربی", "Introduction to Arabic language", [
        PartSeed(1, "Part 1: درس 1 — الحروف", StaticUrl("10", "Arabic_1/Chapter%201/Part%201/Arabic1CH1P1.html")),
        PartSeed(2, "Part 2: درس 2 — الكلمات", StaticUrl("10", "Arabic_1/Chapter%201/Part%202/Arabic1CH1P2.html"))])])

  /** Grade 12, Biology 1: chapters 1 and 2, with three and two parts. */
  const Biology12: LessonSeed := LessonSeed("12", "biology1", "Biology 1 - Grade 12",
    "Advanced biology topics: genetics and evolution", [
      ChapterSeed(1, "فصل 1 — ژنتیک و توارث", "Genetics and heredity", [
        PartSeed(1, "Part 1: ژن\U{200C}ها و انتقال صفات", StaticUrl("12", "Biology_1/Chapter%201/Part%201/Bio1CH1P1.html")),
        PartSeed(2, "Part 2: انتقال ژن\U{200C}ها", StaticUrl("12", "Biology_1/Chapter%201/Part%202/Bio1CH1P2.html")),
        PartSeed(3, "Part 3: محاسبات ژنتیکی", StaticUrl("12", "Biology_1/Chapter%201/Part%203/Bio1CH1P3.html"))]),
      ChapterSeed(2, "فصل 2 — تکامل و انتخاب طبیعی", "Evolution and natural selection", [
        PartSeed(1, "Part 1: داروین و تکامل", StaticUrl("12", "Biology_1/Chapter%202/Part%201/Bio1CH2P1.html")),
        PartSeed(2, "Part 2: شواهد تکامل", StaticUrl("12", "Biology_1/Chapter%202/Part%202/Bio1CH2P2.html"))])])

  /** Grade 12, Arabic 1: chapter 1, with two parts. */
  const Arabic12: LessonSeed := LessonSeed("12", "arabic1", "Arabic 1 - Grade 12",
    "Advanced Arabic grammar and literature", [
      ChapterSeed(1, "فصل 1 — النحو المتقدم", "Advanced Arabic grammar", [
        PartSeed(1, "Part 1: الجملة الفعلية", StaticUrl("12", "Arabic_1/Chapter%201/Part%201/Arabic1CH1P1.html")),
        PartSeed(2, "Part 2: الجملة الاسمية", StaticUrl("12", "Arabic_1/Chapter%201/Part%202/Arabic1CH1P2.html"))])])

  /** Grade 13, Biology 1: chapters 1 and 2, with three and two parts. */
  const Biology13: LessonSeed := LessonSeed("13", "biology1", "Biology 1 - Grade 13",
    "Advanced biology: molecular biology and biotechnology", [
      ChapterSeed(1, "فصل 1 — بیولوژی مولکولی", "Molecular biology and DNA", [
        PartSeed(1, "Part 1: ساختار DNA", StaticUrl("13", "Biology_1/Chapter%201/Part%201/Bio1CH1P1.html")),
        PartSeed(2, "Part 2: تکثیر DNA", StaticUrl("13", "Biology_1/Chapter%201/Part%202/Bio1CH1P2.html")),
        PartSeed(3, "Part 3: بیان ژن", StaticUrl("13", "Biology_1/Chapter%201/Part%203/Bio1CH1P3.html"))]),
      ChapterSeed(2, "فصل 2 — بیوتکنولوژی و مهندسی ژنتیک", "Biotechnology and genetic engineering", [
        PartSeed(1, "Part 1: مهندسی ژنتیک", StaticUrl("13", "Biology_1/Chapter%202/Part%201/Bio1CH2P1.html")),
        PartSeed(2, "Part 2: کاربردهای بیوتکنولوژی", StaticUrl("13", "Biology_1/Chapter%202/Part%202/Bio1CH2P2.html"))])])

  /** Grade 13, Arabic 1: chapter 1, with two parts. */
  const Arabic13: LessonSeed := LessonSeed("13", "arabic1", "Arabic 1 - Grade 13",
    "Advanced Arabic literature and criticism", [
      ChapterSeed(1, "فصل 1 — الأدب العربي", "Arabic literature and poetry", [
        PartSeed(1, "Part 1: الشعر العربي", StaticUrl("13", "Arabic_1/Chapter%201/Part%201/Arabic1CH1P1.html")),
        PartSeed(2, "Part 2: النثر العربي", StaticUrl("13", "Arabic_1/Chapter%201/Part%202/Arabic1CH1P2.html"))])])

  /** The lesson blocks, in the order the command runs them. */
  const Lessons: seq<LessonSeed> := [Biology10, Arabic10, Biology12, Arabic12, Biology13, Arabic13]

  // ---------------------------------------------------------------------
  // The plan
  // ---------------------------------------------------------------------

  function GradeOps(data: seq<(string, string)>): (r: seq<Op>)
    ensures |r| == |data|
    decreases |data|
  {
    if data == [] then []
    else GradeOps(data[..|data| - 1]) + [GradeOp(data[|data| - 1].0, Grade(data[|data| - 1].1))]
  }

  function SubjectOps(data: seq<(string, string, string)>): (r: seq<Op>)
    ensures |r| == |data|
    decreases |data|
  {
    if data == [] then []
    else
      var (code, title, language) := data[|data| - 1];
      SubjectOps(data[..|data| - 1]) + [SubjectOp(code, Subject(title, language))]
  }

  function LessonKeyOf(l: LessonSeed): LessonKey {
    LessonKey(l.grade, l.subject)
  }

  function ChapterKeyOf(lesson: LessonKey, c: ChapterSeed): ChapterKey {
    ChapterKey(lesson, c.number)
  }

  /** The defaults of a seeded part: its title, `content_type` "url", its
      URL and `mime` "text/html"; the other fields keep the model's
      defaults. */
  function PartDefaults(p: PartSeed): Part {
    UrlPart(p.title, p.url, None)
  }

  function PartOps(chapter: ChapterKey, parts: seq<PartSeed>): (r: seq<Op>)
    ensures |r| == |parts|
    decreases |parts|
  {
    if parts == [] then []
    else
      var p := parts[|parts| - 1];
      PartOps(chapter, parts[..|parts| - 1]) + [PartOp(PartKey(chapter, p.number), PartDefaults(p))]
  }

  function ChapterOps(lesson: LessonKey, c: ChapterSeed): seq<Op> {
    [ChapterOp(ChapterKeyOf(lesson, c), Chapter(c.title, c.summary))] + PartOps(ChapterKeyOf(lesson, c), c.parts)
  }

  function ChaptersOps(lesson: LessonKey, cs: seq<ChapterSeed>): seq<Op>
    decreases |cs|
  {
    if cs == [] then [] else ChaptersOps(lesson, cs[..|cs| - 1]) + ChapterOps(lesson, cs[|cs| - 1])
  }

  function LessonOps(l: LessonSeed): seq<Op> {
    [LessonOp(LessonKeyOf(l), Titled(l.title), l.description)] + ChaptersOps(LessonKeyOf(l), l.chapters)
  }

  function LessonsOps(ls: seq<LessonSeed>): seq<Op>
    decreases |ls|
  {
    if ls == [] then [] else LessonsOps(ls[..|ls| - 1]) + LessonOps(ls[|ls| - 1])
  }

  /** The calls of `handle` over given tables, in order. */
  function PlanOf(grades: seq<(string, string)>, subjects: seq<(string, string, string)>,
                  lessons: seq<LessonSeed>): seq<Op> {
    GradeOps(grades) + SubjectOps(subjects) + LessonsOps(lessons)
  }

  /** Every `get_or_create` of `handle`, in order. */
  function Plan(): seq<Op> {
    PlanOf(GradesData, SubjectsData, Lessons)
  }

  // ---------------------------------------------------------------------
  // The command
  // ---------------------------------------------------------------------

  /** Appending one call to a run applies it last. */
  lemma ApplyAllSnoc(db: Db, ops: seq<Op>, op: Op)
    ensures ApplyAll(db, ops + [op]) == Apply(ApplyAll(db, ops), op)
  {
    assert (ops + [op])[..|ops|] == ops;
  }

  /** `handle`. */
  method Handle(store: HierarchyStore)
    modifies store
    ensures store.State() == ApplyAll(old(store.State()), Plan())
  {
    SeedAll(store, GradesData, SubjectsData, Lessons);
  }

  /** The body of `handle` over its tables: the grades, the subjects, then
      the lesson blocks. */
  method SeedAll(store: HierarchyStore, grades: seq<(string, string)>, subjects: seq<(string, string, string)>,
                 lessons: seq<LessonSeed>)
    modifies store
    ensures store.State() == ApplyAll(old(store.State()), PlanOf(grades, subjects, lessons))
  {
    ghost var db := store.State();
    SeedGrades(store, grades);
    SeedSubjects(store, subjects);
    ApplyAllAppend(db, GradeOps(grades), SubjectOps(subjects));
    SeedLessonBlocks(store, lessons);
    ApplyAllAppend(db, GradeOps(grades) + SubjectOps(subjects), LessonsOps(lessons));
  }

  /** The lesson blocks, one after another. The command writes each block
      out; they differ only in their data, which `Lessons` holds in the
      same order. */
  method SeedLessonBlocks(store: HierarchyStore, lessons: seq<LessonSeed>)
    modifies store
    ensures store.State() == ApplyAll(old(store.State()), LessonsOps(lessons))
  {
    ghost var db := store.State();
    for k := 0 to |lessons|
      invariant store.State() == ApplyAll(db, LessonsOps(lessons[..k]))
    {
      SeedLesson(store, lessons[k]);
      LessonsOpsNext(db, lessons, k);
    }
    assert lessons[..|lessons|] == lessons;
  }

  /** One more lesson block extends the run by that block's calls. */
  lemma LessonsOpsNext(db: Db, lessons: seq<LessonSeed>, k: nat)
    requires k < |lessons|
    ensures ApplyAll(db, LessonsOps(lessons[..k + 1])) == ApplyAll(ApplyAll(db, LessonsOps(lessons[..k])), LessonOps(lessons[k]))
  {
    assert lessons[..k + 1][..k] == lessons[..k];
    ApplyAllAppend(db, LessonsOps(lessons[..k]), LessonOps(lessons[k]));
  }

  /** The `grades_data` loop. */
  method SeedGrades(store: HierarchyStore, data: seq<(string, string)>)
    modifies store
    ensures store.State() == ApplyAll(old(store.State()), GradeOps(data))
  {
    ghost var db := store.State();
    for i := 0 to |data|
      invariant store.State() == ApplyAll(db, GradeOps(data[..i]))
    {
      var (code, name) := data[i];
      var _, _ := store.GetOrCreateGrade(code, Grade(name));
      assert data[..i + 1][..i] == data[..i];
      ApplyAllSnoc(db, GradeOps(data[..i]), GradeOp(code, Grade(name)));
    }
    assert data[..|data|] == data;
  }

  /** The `subjects_data` loop. */
  method SeedSubjects(store: HierarchyStore, data: seq<(string, string, string)>)
    modifies store
    ensures store.State() == ApplyAll(old(store.State()), SubjectOps(data))
  {
    ghost var db := store.State();
    for i := 0 to |data|
      invariant store.State() == ApplyAll(db, SubjectOps(data[..i]))
    {
      var (code, title, lang) := data[i];
      var _, _ := store.GetOrCreateSubject(code, Subject(title, lang));
      assert data[..i + 1][..i] == data[..i];
      ApplyAllSnoc(db, SubjectOps(data[..i]), SubjectOp(code, Subject(title, lang)));
    }
    assert data[..|data|] == data;
  }

  /** One lesson block: the lesson, then each of its chapters. */
  method SeedLesson(store: HierarchyStore, l: LessonSeed)
    modifies store
    ensures store.State() == ApplyAll(old(store.State()), LessonOps(l))
  {
    ghost var db := store.State();
    var key := LessonKey(l.grade, l.subject);
    var _, _ := store.GetOrCreateLesson(key, l.title, l.description);
    ghost var lessonOp := LessonOp(LessonKeyOf(l), Titled(l.title), l.description);
    ghost var mid := store.State();
    for i := 0 to |l.chapters|
      invariant store.State() == ApplyAll(mid, ChaptersOps(key, l.chapters[..i]))
    {
      SeedChapter(store, key, l.chapters[i]);
      ApplyAllAppend(mid, ChaptersOps(key, l.chapters[..i]), ChapterOps(key, l.chapters[i]));
      assert l.chapters[..i + 1][..i] == l.chapters[..i];
    }
    assert l.chapters[..|l.chapters|] == l.chapters;
    ApplyAllOne(db, lessonOp);
    ApplyAllAppend(db, [lessonOp], ChaptersOps(key, l.chapters));
  }

  /** A chapter and the `for part_data in parts_...` loop under it. */
  method SeedChapter(store: HierarchyStore, lesson: LessonKey, c: ChapterSeed)
    modifies store
    ensures store.State() == ApplyAll(old(store.State()), ChapterOps(lesson, c))
  {
    ghost var db := store.State();
    var chapter := ChapterKey(lesson, c.number);
    var _, _ := store.GetOrCreateChapter(chapter, Chapter(c.title, c.summary));
    ghost var chapterOp := ChapterOp(chapter, Chapter(c.title, c.summary));
    ghost var mid := store.State();
    for i := 0 to |c.parts|
      invariant store.State() == ApplyAll(mid, PartOps(chapter, c.parts[..i]))
    {
      SeedPart(store, chapter, c.parts[i]);
      assert c.parts[..i + 1][..i] == c.parts[..i];
      ApplyAllSnoc(mid, PartOps(chapter, c.parts[..i]), PartOp(PartKey(chapter, c.parts[i].number), PartDefaults(c.parts[i])));
    }
    assert c.parts[..|c.parts|] == c.parts;
    ApplyAllOne(db, chapterOp);
    ApplyAllAppend(db, [chapterOp], PartOps(chapter, c.parts));
  }

  /** One `Part.objects.get_or_create` of a part loop. */
  method SeedPart(store: HierarchyStore, chapter: ChapterKey, p: PartSeed)
    modifies store
    ensures store.State() == Apply(old(store.State()), PartOp(PartKey(chapter, p.number), PartDefaults(p)))
  {
    var defaults := UrlPart(p.title, p.url, None);
    var _, _ := store.GetOrCreatePart(PartKey(chapter, p.number), defaults);
  }
}
