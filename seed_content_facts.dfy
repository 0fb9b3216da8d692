/**
 * What `seed_content` promises about the rows it leaves behind: the grades
 * and subjects it names, the chapters and parts of each lesson, the
 * defaults of every part it creates, its totals on an empty store, and
 * that a second run changes nothing.
 *
 * The general lemmas are stated over any tables; the last section applies
 * them to the command's own tables.
 */
module SeedContentFacts {
  import opened Wrappers
  import opened Store
  import opened SeedContent

  // ---------------------------------------------------------------------
  // The calls, one at a time
  // ---------------------------------------------------------------------

  lemma {:induction false} GradeOpsAt(data: seq<(string, string)>, i: nat)
    requires i < |data|
    ensures GradeOps(data)[i] == GradeOp(data[i].0, Grade(data[i].1))
    decreases |data|
  {
    var n := |data| - 1;
    if i < n {
      GradeOpsAt(data[..n], i);
    }
  }

  lemma {:induction false} SubjectOpsAt(data: seq<(string, string, string)>, i: nat)
    requires i < |data|
    ensures SubjectOps(data)[i] == SubjectOp(data[i].0, Subject(data[i].1, data[i].2))
    decreases |data|
  {
    var n := |data| - 1;
    if i < n {
      SubjectOpsAt(data[..n], i);
    }
  }

  lemma {:induction false} PartOpsAt(chapter: ChapterKey, ps: seq<PartSeed>, i: nat)
    requires i < |ps|
    ensures PartOps(chapter, ps)[i] == PartOp(PartKey(chapter, ps[i].number), PartDefaults(ps[i]))
    decreases |ps|
  {
    var n := |ps| - 1;
    if i < n {
      PartOpsAt(chapter, ps[..n], i);
    }
  }

  // ---------------------------------------------------------------------
  // Which keys a run names
  // ---------------------------------------------------------------------

  /** Some call of the run is keyed by `k`. */
  predicate Mentions(ops: seq<Op>, k: Key) {
    exists i :: 0 <= i < |ops| && KeyOf(ops[i]) == k
  }

  lemma MentionsAppend(a: seq<Op>, b: seq<Op>, k: Key)
    ensures Mentions(a + b, k) <==> Mentions(a, k) || Mentions(b, k)
  {
    if Mentions(a + b, k) {
      var i :| 0 <= i < |a + b| && KeyOf((a + b)[i]) == k;
      if i < |a| {
        assert a[i] == (a + b)[i];
      } else {
        assert b[i - |a|] == (a + b)[i];
      }
    }
    if Mentions(a, k) {
      var i :| 0 <= i < |a| && KeyOf(a[i]) == k;
      assert (a + b)[i] == a[i];
    }
    if Mentions(b, k) {
      var i :| 0 <= i < |b| && KeyOf(b[i]) == k;
      assert (a + b)[|a| + i] == b[i];
    }
  }

  lemma MentionsOne(op: Op, k: Key)
    ensures Mentions([op], k) <==> KeyOf(op) == k
  {
    if KeyOf(op) == k {
      assert KeyOf([op][0]) == k;
    }
  }

  /** Some part of the list has number `m`. */
  predicate HasPartNumber(ps: seq<PartSeed>, m: nat) {
    exists j :: 0 <= j < |ps| && ps[j].number == m
  }

  /** Some chapter of the list has number `n`. */
  predicate HasChapterNumber(cs: seq<ChapterSeed>, n: nat) {
    exists i :: 0 <= i < |cs| && cs[i].number == n
  }

  /** Some chapter of the list has number `n` and lists a part numbered `m`. */
  predicate HasChapterPart(cs: seq<ChapterSeed>, n: nat, m: nat) {
    exists i :: 0 <= i < |cs| && cs[i].number == n && HasPartNumber(cs[i].parts, m)
  }

  /** `k` is the key of chapter `c` of `lesson`, or of one of its parts. */
  predicate InChapter(lesson: LessonKey, c: ChapterSeed, k: Key) {
    match k
    case ChapterK(x) => x == ChapterKeyOf(lesson, c)
    case PartK(p) => p.chapter == ChapterKeyOf(lesson, c) && HasPartNumber(c.parts, p.number)
    case _ => false
  }

  predicate InChapters(lesson: LessonKey, cs: seq<ChapterSeed>, k: Key) {
    exists i :: 0 <= i < |cs| && InChapter(lesson, cs[i], k)
  }

  /** `k` is the key of lesson `l`, or of one of its chapters or parts. */
  predicate InLesson(l: LessonSeed, k: Key) {
    k == LessonK(LessonKeyOf(l)) || InChapters(LessonKeyOf(l), l.chapters, k)
  }

  predicate InLessons(ls: seq<LessonSeed>, k: Key) {
    exists j :: 0 <= j < |ls| && InLesson(ls[j], k)
  }

  /** The chapter a key belongs to, for chapter and part keys. */
  function ChapterOfKey(k: Key): Option<ChapterKey> {
    match k
    case ChapterK(c) => Some(c)
    case PartK(p) => Some(p.chapter)
    case _ => None
  }

  /** The lesson a key belongs to, for lesson, chapter and part keys. */
  function LessonOfKey(k: Key): Option<LessonKey> {
    match k
    case LessonK(l) => Some(l)
    case ChapterK(c) => Some(c.lesson)
    case PartK(p) => Some(p.chapter.lesson)
    case _ => None
  }

  lemma PartOpsMention(chapter: ChapterKey, ps: seq<PartSeed>, k: Key)
    ensures Mentions(PartOps(chapter, ps), k) <==> k.PartK? && k.part.chapter == chapter && HasPartNumber(ps, k.part.number)
  {
    var r := PartOps(chapter, ps);
    if Mentions(r, k) {
      var i :| 0 <= i < |r| && KeyOf(r[i]) == k;
      PartOpsAt(chapter, ps, i);
    }
    if k.PartK? && k.part.chapter == chapter && HasPartNumber(ps, k.part.number) {
      var j :| 0 <= j < |ps| && ps[j].number == k.part.number;
      PartOpsAt(chapter, ps, j);
      assert KeyOf(r[j]) == k;
    }
  }

  lemma ChapterOpsMention(lesson: LessonKey, c: ChapterSeed, k: Key)
    ensures Mentions(ChapterOps(lesson, c), k) <==> InChapter(lesson, c, k)
  {
    var op := ChapterOp(ChapterKeyOf(lesson, c), Chapter(c.title, c.summary));
    MentionsAppend([op], PartOps(ChapterKeyOf(lesson, c), c.parts), k);
    MentionsOne(op, k);
    PartOpsMention(ChapterKeyOf(lesson, c), c.parts, k);
  }

  lemma {:induction false} ChaptersOpsMention(lesson: LessonKey, cs: seq<ChapterSeed>, k: Key)
    ensures Mentions(ChaptersOps(lesson, cs), k) <==> InChapters(lesson, cs, k)
    decreases |cs|
  {
    if cs != [] {
      var n := |cs| - 1;
      var init := cs[..n];
      ChaptersOpsMention(lesson, init, k);
      ChapterOpsMention(lesson, cs[n], k);
      MentionsAppend(ChaptersOps(lesson, init), ChapterOps(lesson, cs[n]), k);
      if InChapters(lesson, cs, k) {
        var i :| 0 <= i < |cs| && InChapter(lesson, cs[i], k);
        if i < n {
          assert init[i] == cs[i];
        }
      }
      if InChapters(lesson, init, k) {
        var i :| 0 <= i < |init| && InChapter(lesson, init[i], k);
        assert cs[i] == init[i];
      }
    }
  }

  lemma LessonOpsMention(l: LessonSeed, k: Key)
    ensures Mentions(LessonOps(l), k) <==> InLesson(l, k)
  {
    var op := LessonOp(LessonKeyOf(l), Titled(l.title), l.description);
    MentionsAppend([op], ChaptersOps(LessonKeyOf(l), l.chapters), k);
    MentionsOne(op, k);
    ChaptersOpsMention(LessonKeyOf(l), l.chapters, k);
  }

  lemma {:induction false} LessonsOpsMention(ls: seq<LessonSeed>, k: Key)
    ensures Mentions(LessonsOps(ls), k) <==> InLessons(ls, k)
    decreases |ls|
  {
    if ls != [] {
      var n := |ls| - 1;
      var init := ls[..n];
      LessonsOpsMention(init, k);
      LessonOpsMention(ls[n], k);
      MentionsAppend(LessonsOps(init), LessonOps(ls[n]), k);
      if InLessons(ls, k) {
        var j :| 0 <= j < |ls| && InLesson(ls[j], k);
        if j < n {
          assert init[j] == ls[j];
        }
      }
      if InLessons(init, k) {
        var j :| 0 <= j < |init| && InLesson(init[j], k);
        assert ls[j] == init[j];
      }
    }
  }

  lemma InChapterScope(lesson: LessonKey, c: ChapterSeed, k: Key)
    requires InChapter(lesson, c, k)
    ensures ChapterOfKey(k) == Some(ChapterKeyOf(lesson, c))
  {
  }

  lemma InLessonScope(l: LessonSeed, k: Key)
    requires InLesson(l, k)
    ensures LessonOfKey(k) == Some(LessonKeyOf(l))
  {
    if k != LessonK(LessonKeyOf(l)) {
      var i :| 0 <= i < |l.chapters| && InChapter(LessonKeyOf(l), l.chapters[i], k);
      InChapterScope(LessonKeyOf(l), l.chapters[i], k);
    }
  }

  /** The lesson calls name lesson-, chapter- and part keys only. */
  lemma LessonsOpsScope(ls: seq<LessonSeed>, i: nat)
    requires i < |LessonsOps(ls)|
    ensures LessonOfKey(KeyOf(LessonsOps(ls)[i])).Some?
  {
    var k := KeyOf(LessonsOps(ls)[i]);
    LessonsOpsMention(ls, k);
    var j :| 0 <= j < |ls| && InLesson(ls[j], k);
    InLessonScope(ls[j], k);
  }

  // ---------------------------------------------------------------------
  // Well-formed tables: no key is named twice
  // ---------------------------------------------------------------------

  predicate DistinctParts(ps: seq<PartSeed>) {
    forall i, j :: 0 <= i < j < |ps| ==> ps[i].number != ps[j].number
  }

  predicate DistinctChapters(cs: seq<ChapterSeed>) {
    && (forall i, j :: 0 <= i < j < |cs| ==> cs[i].number != cs[j].number)
    && (forall i :: 0 <= i < |cs| ==> DistinctParts(cs[i].parts))
  }

  predicate DistinctLessons(ls: seq<LessonSeed>) {
    && (forall i, j :: 0 <= i < j < |ls| ==> LessonKeyOf(ls[i]) != LessonKeyOf(ls[j]))
    && (forall i :: 0 <= i < |ls| ==> DistinctChapters(ls[i].chapters))
  }

  predicate DistinctCodes<T>(data: seq<(string, T)>) {
    forall i, j :: 0 <= i < j < |data| ==> data[i].0 != data[j].0
  }

  predicate DistinctSubjectCodes(data: seq<(string, string, string)>) {
    forall i, j :: 0 <= i < j < |data| ==> data[i].0 != data[j].0
  }

  lemma PartOpsDistinct(chapter: ChapterKey, ps: seq<PartSeed>)
    requires DistinctParts(ps)
    ensures DistinctKeys(PartOps(chapter, ps))
  {
    var r := PartOps(chapter, ps);
    forall i, j | 0 <= i < j < |r| ensures KeyOf(r[i]) != KeyOf(r[j]) {
      PartOpsAt(chapter, ps, i);
      PartOpsAt(chapter, ps, j);
    }
  }

  lemma ChapterOpsDistinct(lesson: LessonKey, c: ChapterSeed)
    requires DistinctParts(c.parts)
    ensures DistinctKeys(ChapterOps(lesson, c))
  {
    var a := [ChapterOp(ChapterKeyOf(lesson, c), Chapter(c.title, c.summary))];
    var b := PartOps(ChapterKeyOf(lesson, c), c.parts);
    PartOpsDistinct(ChapterKeyOf(lesson, c), c.parts);
    forall i, j | 0 <= i < |a| && 0 <= j < |b| ensures KeyOf(a[i]) != KeyOf(b[j]) {
      PartOpsAt(ChapterKeyOf(lesson, c), c.parts, j);
    }
    DistinctAppend(a, b);
  }

  lemma {:induction false} ChaptersOpsDistinct(lesson: LessonKey, cs: seq<ChapterSeed>)
    requires DistinctChapters(cs)
    ensures DistinctKeys(ChaptersOps(lesson, cs))
    decreases |cs|
  {
    if cs != [] {
      var n := |cs| - 1;
      var init := cs[..n];
      assert DistinctChapters(init) by {
        forall i | 0 <= i < |init| ensures DistinctParts(init[i].parts) {
          assert init[i] == cs[i];
        }
      }
      ChaptersOpsDistinct(lesson, init);
      ChapterOpsDistinct(lesson, cs[n]);
      var a := ChaptersOps(lesson, init);
      var b := ChapterOps(lesson, cs[n]);
      forall i, j | 0 <= i < |a| && 0 <= j < |b| ensures KeyOf(a[i]) != KeyOf(b[j]) {
        ChaptersOpsMention(lesson, init, KeyOf(a[i]));
        var x :| 0 <= x < |init| && InChapter(lesson, init[x], KeyOf(a[i]));
        InChapterScope(lesson, init[x], KeyOf(a[i]));
        ChapterOpsMention(lesson, cs[n], KeyOf(b[j]));
        InChapterScope(lesson, cs[n], KeyOf(b[j]));
        assert init[x] == cs[x];
      }
      DistinctAppend(a, b);
    }
  }

  lemma LessonOpsDistinct(l: LessonSeed)
    requires DistinctChapters(l.chapters)
    ensures DistinctKeys(LessonOps(l))
  {
    var a := [LessonOp(LessonKeyOf(l), Titled(l.title), l.description)];
    var b := ChaptersOps(LessonKeyOf(l), l.chapters);
    ChaptersOpsDistinct(LessonKeyOf(l), l.chapters);
    forall i, j | 0 <= i < |a| && 0 <= j < |b| ensures KeyOf(a[i]) != KeyOf(b[j]) {
      ChaptersOpsMention(LessonKeyOf(l), l.chapters, KeyOf(b[j]));
    }
    DistinctAppend(a, b);
  }

  lemma {:induction false} LessonsOpsDistinct(ls: seq<LessonSeed>)
    requires DistinctLessons(ls)
    ensures DistinctKeys(LessonsOps(ls))
    decreases |ls|
  {
    if ls != [] {
      var n := |ls| - 1;
      var init := ls[..n];
      assert DistinctLessons(init) by {
        forall i | 0 <= i < |init| ensures DistinctChapters(init[i].chapters) {
          assert init[i] == ls[i];
        }
      }
      LessonsOpsDistinct(init);
      LessonOpsDistinct(ls[n]);
      var a := LessonsOps(init);
      var b := LessonOps(ls[n]);
      forall i, j | 0 <= i < |a| && 0 <= j < |b| ensures KeyOf(a[i]) != KeyOf(b[j]) {
        LessonsOpsMention(init, KeyOf(a[i]));
        var x :| 0 <= x < |init| && InLesson(init[x], KeyOf(a[i]));
        InLessonScope(init[x], KeyOf(a[i]));
        LessonOpsMention(ls[n], KeyOf(b[j]));
        InLessonScope(ls[n], KeyOf(b[j]));
        assert init[x] == ls[x];
      }
      DistinctAppend(a, b);
    }
  }

  /** With distinct codes and well-formed lessons, no call of the command
      names a key another call names. */
  lemma PlanDistinct(grades: seq<(string, string)>, subjects: seq<(string, string, string)>, ls: seq<LessonSeed>)
    requires DistinctCodes(grades) && DistinctSubjectCodes(subjects) && DistinctLessons(ls)
    ensures DistinctKeys(PlanOf(grades, subjects, ls))
  {
    var g := GradeOps(grades);
    var s := SubjectOps(subjects);
    var l := LessonsOps(ls);
    forall i, j | 0 <= i < j < |g| ensures KeyOf(g[i]) != KeyOf(g[j]) {
      GradeOpsAt(grades, i);
      GradeOpsAt(grades, j);
    }
    forall i, j | 0 <= i < j < |s| ensures KeyOf(s[i]) != KeyOf(s[j]) {
      SubjectOpsAt(subjects, i);
      SubjectOpsAt(subjects, j);
    }
    forall i, j | 0 <= i < |g| && 0 <= j < |s| ensures KeyOf(g[i]) != KeyOf(s[j]) {
      GradeOpsAt(grades, i);
      SubjectOpsAt(subjects, j);
    }
    DistinctAppend(g, s);
    LessonsOpsDistinct(ls);
    forall i, j | 0 <= i < |g + s| && 0 <= j < |l| ensures KeyOf((g + s)[i]) != KeyOf(l[j]) {
      LessonsOpsScope(ls, j);
      if i < |g| {
        GradeOpsAt(grades, i);
      } else {
        SubjectOpsAt(subjects, i - |g|);
      }
    }
    DistinctAppend(g + s, l);
  }

  // ---------------------------------------------------------------------
  // How many calls write to each table
  // ---------------------------------------------------------------------

  /** The number of parts listed under the chapters. */
  function PartTotal(cs: seq<ChapterSeed>): nat
    decreases |cs|
  {
    if cs == [] then 0 else PartTotal(cs[..|cs| - 1]) + |cs[|cs| - 1].parts|
  }

  /** The number of chapters listed under the lessons. */
  function ChapterTotal(ls: seq<LessonSeed>): nat
    decreases |ls|
  {
    if ls == [] then 0 else ChapterTotal(ls[..|ls| - 1]) + |ls[|ls| - 1].chapters|
  }

  /** The number of parts listed under the lessons. */
  function LessonPartTotal(ls: seq<LessonSeed>): nat
    decreases |ls|
  {
    if ls == [] then 0 else LessonPartTotal(ls[..|ls| - 1]) + PartTotal(ls[|ls| - 1].chapters)
  }

  /** `n` if `t` is `u`, otherwise 0. */
  function If(t: Table, u: Table, n: nat): nat {
    if t == u then n else 0
  }

  lemma CountOne(op: Op, t: Table)
    ensures Count([op], t) == If(TableOf(KeyOf(op)), t, 1)
  {
    assert [op][..0] == [];
  }

  lemma CountGradeOps(data: seq<(string, string)>, t: Table)
    ensures Count(GradeOps(data), t) == If(t, GradeTable, |data|)
  {
    var r := GradeOps(data);
    forall i | 0 <= i < |r| ensures TableOf(KeyOf(r[i])) == GradeTable {
      GradeOpsAt(data, i);
    }
    CountOnly(r, GradeTable, t);
  }

  lemma CountSubjectOps(data: seq<(string, string, string)>, t: Table)
    ensures Count(SubjectOps(data), t) == If(t, SubjectTable, |data|)
  {
    var r := SubjectOps(data);
    forall i | 0 <= i < |r| ensures TableOf(KeyOf(r[i])) == SubjectTable {
      SubjectOpsAt(data, i);
    }
    CountOnly(r, SubjectTable, t);
  }

  lemma CountChapterOps(lesson: LessonKey, c: ChapterSeed, t: Table)
    ensures Count(ChapterOps(lesson, c), t) == If(t, ChapterTable, 1) + If(t, PartTable, |c.parts|)
  {
    var op := ChapterOp(ChapterKeyOf(lesson, c), Chapter(c.title, c.summary));
    var b := PartOps(ChapterKeyOf(lesson, c), c.parts);
    forall i | 0 <= i < |b| ensures TableOf(KeyOf(b[i])) == PartTable {
      PartOpsAt(ChapterKeyOf(lesson, c), c.parts, i);
    }
    CountOnly(b, PartTable, t);
    CountOne(op, t);
    CountAppend([op], b, t);
  }

  lemma {:induction false} CountChaptersOps(lesson: LessonKey, cs: seq<ChapterSeed>, t: Table)
    ensures Count(ChaptersOps(lesson, cs), t) == If(t, ChapterTable, |cs|) + If(t, PartTable, PartTotal(cs))
    decreases |cs|
  {
    if cs != [] {
      var n := |cs| - 1;
      CountChaptersOps(lesson, cs[..n], t);
      CountChapterOps(lesson, cs[n], t);
      CountAppend(ChaptersOps(lesson, cs[..n]), ChapterOps(lesson, cs[n]), t);
    }
  }

  lemma CountLessonOps(l: LessonSeed, t: Table)
    ensures Count(LessonOps(l), t) ==
      If(t, LessonTable, 1) + If(t, ChapterTable, |l.chapters|) + If(t, PartTable, PartTotal(l.chapters))
  {
    var op := LessonOp(LessonKeyOf(l), Titled(l.title), l.description);
    CountOne(op, t);
    CountChaptersOps(LessonKeyOf(l), l.chapters, t);
    CountAppend([op], ChaptersOps(LessonKeyOf(l), l.chapters), t);
  }

  lemma {:induction false} CountLessonsOps(ls: seq<LessonSeed>, t: Table)
    ensures Count(LessonsOps(ls), t) ==
      If(t, LessonTable, |ls|) + If(t, ChapterTable, ChapterTotal(ls)) + If(t, PartTable, LessonPartTotal(ls))
    decreases |ls|
  {
    if ls != [] {
      var n := |ls| - 1;
      CountLessonsOps(ls[..n], t);
      CountLessonOps(ls[n], t);
      CountAppend(LessonsOps(ls[..n]), LessonOps(ls[n]), t);
    }
  }

  /** The calls of the command, table by table. */
  lemma CountPlan(grades: seq<(string, string)>, subjects: seq<(string, string, string)>, ls: seq<LessonSeed>, t: Table)
    ensures Count(PlanOf(grades, subjects, ls), t) ==
      If(t, GradeTable, |grades|) + If(t, SubjectTable, |subjects|) + If(t, LessonTable, |ls|) +
      If(t, ChapterTable, ChapterTotal(ls)) + If(t, PartTable, LessonPartTotal(ls))
  {
    CountGradeOps(grades, t);
    CountSubjectOps(subjects, t);
    CountLessonsOps(ls, t);
    CountAppend(GradeOps(grades), SubjectOps(subjects), t);
    CountAppend(GradeOps(grades) + SubjectOps(subjects), LessonsOps(ls), t);
  }

  /** On an empty store every call of a well-formed command creates its
      row, so each table ends with as many rows as calls write to it. */
  lemma EmptyRunSizes(grades: seq<(string, string)>, subjects: seq<(string, string, string)>, ls: seq<LessonSeed>, t: Table)
    requires DistinctCodes(grades) && DistinctSubjectCodes(subjects) && DistinctLessons(ls)
    ensures Size(ApplyAll(Empty, PlanOf(grades, subjects, ls)), t) ==
      If(t, GradeTable, |grades|) + If(t, SubjectTable, |subjects|) + If(t, LessonTable, |ls|) +
      If(t, ChapterTable, ChapterTotal(ls)) + If(t, PartTable, LessonPartTotal(ls))
  {
    PlanDistinct(grades, subjects, ls);
    CountPlan(grades, subjects, ls, t);
    EmptyHasNone(PlanOf(grades, subjects, ls));
    ApplyAllFresh(Empty, PlanOf(grades, subjects, ls), t);
  }

  lemma EmptyHasNone(ops: seq<Op>)
    ensures forall i :: 0 <= i < |ops| ==> !Has(Empty, KeyOf(ops[i]))
  {
  }

  // ---------------------------------------------------------------------
  // The parts the command creates
  // ---------------------------------------------------------------------

  /** A part row pointing at a page under `/static/<grade>/`. */
  predicate UnderGrade(p: Part, grade: string) {
    && p.contentType == Url
    && p.mime == "text/html"
    && p.contentUrl.Some?
    && "/static/" + grade + "/" <= p.contentUrl.value
  }

  /** Every part call of the run writes a row under its own grade. */
  predicate PartsUnderGrade(ops: seq<Op>) {
    forall i :: 0 <= i < |ops| && ops[i].PartOp? ==> UnderGrade(ops[i].value, ops[i].part.chapter.lesson.grade)
  }

  /** Every part listed under the lesson has a URL under the lesson's grade. */
  predicate UrlsUnderGrade(l: LessonSeed) {
    forall i, j :: 0 <= i < |l.chapters| && 0 <= j < |l.chapters[i].parts| ==>
      "/static/" + l.grade + "/" <= l.chapters[i].parts[j].url
  }

  lemma PartsUnderAppend(a: seq<Op>, b: seq<Op>)
    requires PartsUnderGrade(a) && PartsUnderGrade(b)
    ensures PartsUnderGrade(a + b)
  {
    forall i | 0 <= i < |a + b| && (a + b)[i].PartOp?
      ensures UnderGrade((a + b)[i].value, (a + b)[i].part.chapter.lesson.grade)
    {
      if i < |a| {
        assert (a + b)[i] == a[i];
      } else {
        assert (a + b)[i] == b[i - |a|];
      }
    }
  }

  lemma ChapterOpsUnder(lesson: LessonKey, c: ChapterSeed)
    requires forall j :: 0 <= j < |c.parts| ==> "/static/" + lesson.grade + "/" <= c.parts[j].url
    ensures PartsUnderGrade(ChapterOps(lesson, c))
  {
    var b := PartOps(ChapterKeyOf(lesson, c), c.parts);
    forall i | 0 <= i < |b| && b[i].PartOp? ensures UnderGrade(b[i].value, b[i].part.chapter.lesson.grade) {
      PartOpsAt(ChapterKeyOf(lesson, c), c.parts, i);
    }
    PartsUnderAppend([ChapterOp(ChapterKeyOf(lesson, c), Chapter(c.title, c.summary))], b);
  }

  lemma {:induction false} ChaptersOpsUnder(lesson: LessonKey, cs: seq<ChapterSeed>)
    requires forall i, j :: 0 <= i < |cs| && 0 <= j < |cs[i].parts| ==> "/static/" + lesson.grade + "/" <= cs[i].parts[j].url
    ensures PartsUnderGrade(ChaptersOps(lesson, cs))
    decreases |cs|
  {
    if cs != [] {
      var n := |cs| - 1;
      var init := cs[..n];
      forall i, j | 0 <= i < |init| && 0 <= j < |init[i].parts| ensures "/static/" + lesson.grade + "/" <= init[i].parts[j].url {
        assert init[i] == cs[i];
      }
      ChaptersOpsUnder(lesson, init);
      ChapterOpsUnder(lesson, cs[n]);
      PartsUnderAppend(ChaptersOps(lesson, init), ChapterOps(lesson, cs[n]));
    }
  }

  lemma LessonOpsUnder(l: LessonSeed)
    requires UrlsUnderGrade(l)
    ensures PartsUnderGrade(LessonOps(l))
  {
    ChaptersOpsUnder(LessonKeyOf(l), l.chapters);
    PartsUnderAppend([LessonOp(LessonKeyOf(l), Titled(l.title), l.description)], ChaptersOps(LessonKeyOf(l), l.chapters));
  }

  lemma {:induction false} LessonsOpsUnder(ls: seq<LessonSeed>)
    requires forall j :: 0 <= j < |ls| ==> UrlsUnderGrade(ls[j])
    ensures PartsUnderGrade(LessonsOps(ls))
    decreases |ls|
  {
    if ls != [] {
      var n := |ls| - 1;
      var init := ls[..n];
      assert forall j :: 0 <= j < |init| ==> init[j] == ls[j];
      LessonsOpsUnder(init);
      LessonOpsUnder(ls[n]);
      PartsUnderAppend(LessonsOps(init), LessonOps(ls[n]));
    }
  }

  /** Every part the command creates points at a page under its own
      grade's static folder, as content type "url" and mime "text/html". */
  lemma CreatedPartsUnderGrade(db: Db, grades: seq<(string, string)>, subjects: seq<(string, string, string)>, ls: seq<LessonSeed>)
    requires forall j :: 0 <= j < |ls| ==> UrlsUnderGrade(ls[j])
    ensures var r := ApplyAll(db, PlanOf(grades, subjects, ls));
      forall p :: p in r.parts && p !in db.parts ==> UnderGrade(r.parts[p], p.chapter.lesson.grade)
  {
    var plan := PlanOf(grades, subjects, ls);
    var head := GradeOps(grades) + SubjectOps(subjects);
    forall i | 0 <= i < |head| ensures !head[i].PartOp? {
      if i < |grades| {
        GradeOpsAt(grades, i);
      } else {
        SubjectOpsAt(subjects, i - |grades|);
      }
    }
    assert PartsUnderGrade(head);
    LessonsOpsUnder(ls);
    PartsUnderAppend(head, LessonsOps(ls));
    ApplyAllNewParts(db, plan);
  }

  // ---------------------------------------------------------------------
  // The grades and subjects
  // ---------------------------------------------------------------------

  /** A grade call of the command is one of the `grades_data` calls. */
  lemma PlanGradeOp(grades: seq<(string, string)>, subjects: seq<(string, string, string)>, ls: seq<LessonSeed>, i: nat)
    requires i < |PlanOf(grades, subjects, ls)| && PlanOf(grades, subjects, ls)[i].GradeOp?
    ensures i < |grades| && PlanOf(grades, subjects, ls)[i] == GradeOp(grades[i].0, Grade(grades[i].1))
  {
    var plan := PlanOf(grades, subjects, ls);
    var head := |grades| + |subjects|;
    if i < |grades| {
      GradeOpsAt(grades, i);
    } else if i < head {
      SubjectOpsAt(subjects, i - |grades|);
    } else {
      assert plan[i] == LessonsOps(ls)[i - head];
      LessonsOpsScope(ls, i - head);
    }
  }

  /** A subject call of the command is one of the `subjects_data` calls. */
  lemma PlanSubjectOp(grades: seq<(string, string)>, subjects: seq<(string, string, string)>, ls: seq<LessonSeed>, i: nat)
    requires i < |PlanOf(grades, subjects, ls)| && PlanOf(grades, subjects, ls)[i].SubjectOp?
    ensures |grades| <= i < |grades| + |subjects|
    ensures PlanOf(grades, subjects, ls)[i] ==
      SubjectOp(subjects[i - |grades|].0, Subject(subjects[i - |grades|].1, subjects[i - |grades|].2))
  {
    var plan := PlanOf(grades, subjects, ls);
    var head := |grades| + |subjects|;
    if i < |grades| {
      GradeOpsAt(grades, i);
    } else if i < head {
      SubjectOpsAt(subjects, i - |grades|);
    } else {
      assert plan[i] == LessonsOps(ls)[i - head];
      LessonsOpsScope(ls, i - head);
    }
  }

  /** After the command every listed grade exists; a grade it created is
      the listed one. */
  lemma SeededGradeRows(db: Db, grades: seq<(string, string)>, subjects: seq<(string, string, string)>, ls: seq<LessonSeed>)
    requires DistinctCodes(grades)
    ensures var r := ApplyAll(db, PlanOf(grades, subjects, ls));
      && (forall i :: 0 <= i < |grades| ==> grades[i].0 in r.grades)
      && (forall c :: c in r.grades && c !in db.grades ==>
            exists i :: 0 <= i < |grades| && grades[i].0 == c && r.grades[c] == Grade(grades[i].1))
  {
    var plan := PlanOf(grades, subjects, ls);
    var r := ApplyAll(db, plan);
    ApplyAllCovers(db, plan);
    forall i | 0 <= i < |grades| ensures grades[i].0 in r.grades {
      GradeOpsAt(grades, i);
      assert plan[i] == GradeOp(grades[i].0, Grade(grades[i].1));
      assert Has(r, KeyOf(plan[i]));
    }
    ApplyAllNewGrades(db, plan);
    forall c | c in r.grades && c !in db.grades
      ensures exists i :: 0 <= i < |grades| && grades[i].0 == c && r.grades[c] == Grade(grades[i].1)
    {
      var i :| 0 <= i < |plan| && plan[i] == GradeOp(c, r.grades[c]);
      PlanGradeOp(grades, subjects, ls, i);
    }
  }

  /** After the command every listed subject exists; a subject it created
      is the listed one. */
  lemma SeededSubjectRows(db: Db, grades: seq<(string, string)>, subjects: seq<(string, string, string)>, ls: seq<LessonSeed>)
    ensures var r := ApplyAll(db, PlanOf(grades, subjects, ls));
      && (forall i :: 0 <= i < |subjects| ==> subjects[i].0 in r.subjects)
      && (forall c :: c in r.subjects && c !in db.subjects ==>
            exists i :: 0 <= i < |subjects| && subjects[i].0 == c && r.subjects[c] == Subject(subjects[i].1, subjects[i].2))
  {
    var plan := PlanOf(grades, subjects, ls);
    var r := ApplyAll(db, plan);
    ApplyAllCovers(db, plan);
    forall i | 0 <= i < |subjects| ensures subjects[i].0 in r.subjects {
      SubjectOpsAt(subjects, i);
      assert plan[|grades| + i] == SubjectOp(subjects[i].0, Subject(subjects[i].1, subjects[i].2));
      assert Has(r, KeyOf(plan[|grades| + i]));
    }
    ApplyAllNewSubjects(db, plan);
    forall c | c in r.subjects && c !in db.subjects
      ensures exists i :: 0 <= i < |subjects| && subjects[i].0 == c && r.subjects[c] == Subject(subjects[i].1, subjects[i].2)
    {
      var i :| 0 <= i < |plan| && plan[i] == SubjectOp(c, r.subjects[c]);
      PlanSubjectOp(grades, subjects, ls, i);
    }
  }

  // ---------------------------------------------------------------------
  // The rows of each lesson
  // ---------------------------------------------------------------------

  /** A key of lesson `l` is named by the command exactly when `l` lists it. */
  lemma PlanLessonKey(grades: seq<(string, string)>, subjects: seq<(string, string, string)>, ls: seq<LessonSeed>, j: nat, k: Key)
    requires DistinctLessons(ls) && j < |ls| && LessonOfKey(k) == Some(LessonKeyOf(ls[j]))
    ensures Mentions(PlanOf(grades, subjects, ls), k) <==> InLesson(ls[j], k)
  {
    var g := GradeOps(grades);
    var s := SubjectOps(subjects);
    MentionsAppend(g + s, LessonsOps(ls), k);
    MentionsAppend(g, s, k);
    if Mentions(g, k) {
      var i :| 0 <= i < |g| && KeyOf(g[i]) == k;
      GradeOpsAt(grades, i);
    }
    if Mentions(s, k) {
      var i :| 0 <= i < |s| && KeyOf(s[i]) == k;
      SubjectOpsAt(subjects, i);
    }
    LessonsOpsMention(ls, k);
    if InLessons(ls, k) {
      var x :| 0 <= x < |ls| && InLesson(ls[x], k);
      InLessonScope(ls[x], k);
      assert x == j;
    }
  }

  /** On an empty store the command leaves, for each listed lesson, exactly
      the chapters and parts the lesson lists. */
  lemma EmptyRunLessonRows(grades: seq<(string, string)>, subjects: seq<(string, string, string)>, ls: seq<LessonSeed>, j: nat)
    requires DistinctLessons(ls) && j < |ls|
    ensures var r := ApplyAll(Empty, PlanOf(grades, subjects, ls));
      var lk := LessonKeyOf(ls[j]);
      && lk in r.lessons
      && (forall c: ChapterKey :: c.lesson == lk ==> (c in r.chapters <==> HasChapterNumber(ls[j].chapters, c.number)))
      && (forall p: PartKey :: p.chapter.lesson == lk ==>
            (p in r.parts <==> HasChapterPart(ls[j].chapters, p.chapter.number, p.number)))
  {
    var plan := PlanOf(grades, subjects, ls);
    var r := ApplyAll(Empty, plan);
    var l := ls[j];
    var lk := LessonKeyOf(l);
    ApplyAllKeys(Empty, plan);
    PlanLessonKey(grades, subjects, ls, j, LessonK(lk));
    assert Has(r, LessonK(lk));
    forall c: ChapterKey | c.lesson == lk ensures c in r.chapters <==> HasChapterNumber(l.chapters, c.number) {
      PlanLessonKey(grades, subjects, ls, j, ChapterK(c));
      assert Has(r, ChapterK(c)) <==> Mentions(plan, ChapterK(c));
    }
    forall p: PartKey | p.chapter.lesson == lk ensures p in r.parts <==> HasChapterPart(l.chapters, p.chapter.number, p.number) {
      PlanLessonKey(grades, subjects, ls, j, PartK(p));
      assert Has(r, PartK(p)) <==> Mentions(plan, PartK(p));
    }
  }

  /** From any store, the command leaves every listed lesson, chapter and
      part present. */
  lemma LessonRowsPresent(db: Db, grades: seq<(string, string)>, subjects: seq<(string, string, string)>, ls: seq<LessonSeed>, j: nat)
    requires DistinctLessons(ls) && j < |ls|
    ensures var r := ApplyAll(db, PlanOf(grades, subjects, ls));
      var lk := LessonKeyOf(ls[j]);
      && lk in r.lessons
      && (forall i :: 0 <= i < |ls[j].chapters| ==> ChapterKeyOf(lk, ls[j].chapters[i]) in r.chapters)
      && (forall i, m :: 0 <= i < |ls[j].chapters| && 0 <= m < |ls[j].chapters[i].parts| ==>
            PartKey(ChapterKeyOf(lk, ls[j].chapters[i]), ls[j].chapters[i].parts[m].number) in r.parts)
  {
    var plan := PlanOf(grades, subjects, ls);
    var r := ApplyAll(db, plan);
    var l := ls[j];
    var lk := LessonKeyOf(l);
    ApplyAllKeys(db, plan);
    PlanLessonKey(grades, subjects, ls, j, LessonK(lk));
    assert Has(r, LessonK(lk));
    forall i | 0 <= i < |l.chapters| ensures ChapterKeyOf(lk, l.chapters[i]) in r.chapters {
      var k := ChapterK(ChapterKeyOf(lk, l.chapters[i]));
      PlanLessonKey(grades, subjects, ls, j, k);
      assert InChapter(lk, l.chapters[i], k);
      assert Has(r, k);
    }
    forall i, m | 0 <= i < |l.chapters| && 0 <= m < |l.chapters[i].parts|
      ensures PartKey(ChapterKeyOf(lk, l.chapters[i]), l.chapters[i].parts[m].number) in r.parts
    {
      var k := PartK(PartKey(ChapterKeyOf(lk, l.chapters[i]), l.chapters[i].parts[m].number));
      PlanLessonKey(grades, subjects, ls, j, k);
      assert HasPartNumber(l.chapters[i].parts, l.chapters[i].parts[m].number);
      assert InChapter(lk, l.chapters[i], k);
      assert Has(r, k);
    }
  }

  // ---------------------------------------------------------------------
  // Chapters and parts numbered 1, 2, ...
  // ---------------------------------------------------------------------

  /** The lesson's chapters are numbered 1 to `|counts|`, in order, and
      chapter `i + 1` lists parts numbered 1 to `counts[i]`, in order. */
  predicate Numbered(l: LessonSeed, counts: seq<nat>) {
    && |l.chapters| == |counts|
    && (forall i :: 0 <= i < |counts| ==> l.chapters[i].number == i + 1 && |l.chapters[i].parts| == counts[i])
    && (forall i, m :: 0 <= i < |counts| && 0 <= m < counts[i] ==> l.chapters[i].parts[m].number == m + 1)
  }

  function Sum(counts: seq<nat>): nat
    decreases |counts|
  {
    if counts == [] then 0 else Sum(counts[..|counts| - 1]) + counts[|counts| - 1]
  }

  lemma NumberedDistinct(l: LessonSeed, counts: seq<nat>)
    requires Numbered(l, counts)
    ensures DistinctChapters(l.chapters)
  {
  }

  /** A numbered lesson has exactly chapters 1 to `|counts|`, and chapter
      `n` exactly parts 1 to `counts[n - 1]`. */
  lemma NumberedRows(l: LessonSeed, counts: seq<nat>)
    requires Numbered(l, counts)
    ensures forall n: nat :: HasChapterNumber(l.chapters, n) <==> 1 <= n <= |counts|
    ensures forall n: nat, m: nat :: HasChapterPart(l.chapters, n, m) <==> 1 <= n <= |counts| && 1 <= m <= counts[n - 1]
  {
    forall n: nat | 1 <= n <= |counts| ensures HasChapterNumber(l.chapters, n) {
      assert l.chapters[n - 1].number == n;
    }
    forall n: nat, m: nat | 1 <= n <= |counts| && 1 <= m <= counts[n - 1] ensures HasChapterPart(l.chapters, n, m) {
      assert l.chapters[n - 1].parts[m - 1].number == m;
      assert HasPartNumber(l.chapters[n - 1].parts, m);
    }
    forall n: nat, m: nat | HasChapterPart(l.chapters, n, m) ensures 1 <= n <= |counts| && 1 <= m <= counts[n - 1] {
      var i :| 0 <= i < |l.chapters| && l.chapters[i].number == n && HasPartNumber(l.chapters[i].parts, m);
      var k :| 0 <= k < |l.chapters[i].parts| && l.chapters[i].parts[k].number == m;
    }
  }

  lemma {:induction false} PartTotalSum(cs: seq<ChapterSeed>, counts: seq<nat>)
    requires |cs| == |counts| && forall i :: 0 <= i < |cs| ==> |cs[i].parts| == counts[i]
    ensures PartTotal(cs) == Sum(counts)
    decreases |cs|
  {
    if cs != [] {
      var n := |cs| - 1;
      PartTotalSum(cs[..n], counts[..n]);
    }
  }

  /** On an empty store, a lesson numbered by `counts` ends with chapters
      1 to `|counts|`, and chapter `n` with parts 1 to `counts[n - 1]`. */
  lemma EmptyRunNumbered(grades: seq<(string, string)>, subjects: seq<(string, string, string)>, ls: seq<LessonSeed>,
                         j: nat, counts: seq<nat>)
    requires DistinctLessons(ls) && j < |ls| && Numbered(ls[j], counts)
    ensures var r := ApplyAll(Empty, PlanOf(grades, subjects, ls));
      var lk := LessonKeyOf(ls[j]);
      && lk in r.lessons
      && (forall c: ChapterKey :: c.lesson == lk ==> (c in r.chapters <==> 1 <= c.number <= |counts|))
      && (forall p: PartKey :: p.chapter.lesson == lk ==>
            (p in r.parts <==> 1 <= p.chapter.number <= |counts| && 1 <= p.number <= counts[p.chapter.number - 1]))
  {
    EmptyRunLessonRows(grades, subjects, ls, j);
    NumberedRows(ls[j], counts);
  }

  // ---------------------------------------------------------------------
  // The command's own tables
  // ---------------------------------------------------------------------

  lemma Biology10Numbered()
    ensures Numbered(Biology10, [3, 2])
  {
  }

  lemma Biology10Urls()
    ensures UrlsUnderGrade(Biology10)
  {
  }

  lemma Arabic10Numbered()
    ensures Numbered(Arabic10, [2])
  {
  }

  lemma Arabic10Urls()
    ensures UrlsUnderGrade(Arabic10)
  {
  }

  lemma Biology12Numbered()
    ensures Numbered(Biology12, [3, 2])
  {
  }

  lemma Biology12Urls()
    ensures UrlsUnderGrade(Biology12)
  {
  }

  lemma Arabic12Numbered()
    ensures Numbered(Arabic12, [2])
  {
  }

  lemma Arabic12Urls()
    ensures UrlsUnderGrade(Arabic12)
  {
  }

  lemma Biology13Numbered()
    ensures Numbered(Biology13, [3, 2])
  {
  }

  lemma Biology13Urls()
    ensures UrlsUnderGrade(Biology13)
  {
  }

  lemma Arabic13Numbered()
    ensures Numbered(Arabic13, [2])
  {
  }

  lemma Arabic13Urls()
    ensures UrlsUnderGrade(Arabic13)
  {
  }

  /** The lesson keys of the table, in order. */
  const LessonKeys: seq<LessonKey> := [
    LessonKey("10", "biology1"), LessonKey("10", "arabic1"),
    LessonKey("12", "biology1"), LessonKey("12", "arabic1"),
    LessonKey("13", "biology1"), LessonKey("13", "arabic1")]

  /** The parts per chapter of each lesson of the table, in order. */
  const Counts: seq<seq<nat>> := [[3, 2], [2], [3, 2], [2], [3, 2], [2]]

  /** The shape of the lesson table: which lessons, how their chapters
      and parts are numbered, and where their pages live. */
  predicate Catalogue(ls: seq<LessonSeed>) {
    && |ls| == 6
    && (forall j :: 0 <= j < 6 ==> LessonKeyOf(ls[j]) == LessonKeys[j])
    && (forall j :: 0 <= j < 6 ==> Numbered(ls[j], Counts[j]))
    && (forall j :: 0 <= j < 6 ==> UrlsUnderGrade(ls[j]))
  }

  /** The command's lesson table has that shape. */
  lemma LessonsCatalogue()
    ensures Catalogue(Lessons)
  {
    Biology10Numbered();
    Arabic10Numbered();
    Biology12Numbered();
    Arabic12Numbered();
    Biology13Numbered();
    Arabic13Numbered();
    Biology10Urls();
    Arabic10Urls();
    Biology12Urls();
    Arabic12Urls();
    Biology13Urls();
    Arabic13Urls();
  }

  /** The lesson table names each lesson once, each chapter once within its
      lesson and each part once within its chapter. */
  lemma CatalogueDistinct(ls: seq<LessonSeed>)
    requires Catalogue(ls)
    ensures DistinctLessons(ls)
  {
    forall j | 0 <= j < |ls| ensures DistinctChapters(ls[j].chapters) {
      NumberedDistinct(ls[j], Counts[j]);
    }
  }

  /** The number of chapters, by the parts-per-chapter lists. */
  function ChapterCount(counts: seq<seq<nat>>): nat
    decreases |counts|
  {
    if counts == [] then 0 else ChapterCount(counts[..|counts| - 1]) + |counts[|counts| - 1]|
  }

  /** The number of parts, by the parts-per-chapter lists. */
  function PartCount(counts: seq<seq<nat>>): nat
    decreases |counts|
  {
    if counts == [] then 0 else PartCount(counts[..|counts| - 1]) + Sum(counts[|counts| - 1])
  }

  lemma {:induction false} NumberedTotals(ls: seq<LessonSeed>, counts: seq<seq<nat>>)
    requires |ls| == |counts| && forall j :: 0 <= j < |ls| ==> Numbered(ls[j], counts[j])
    ensures ChapterTotal(ls) == ChapterCount(counts) && LessonPartTotal(ls) == PartCount(counts)
    decreases |ls|
  {
    if ls != [] {
      var n := |ls| - 1;
      NumberedTotals(ls[..n], counts[..n]);
      PartTotalSum(ls[n].chapters, counts[n]);
    }
  }

  lemma CatalogueTotals(ls: seq<LessonSeed>)
    requires Catalogue(ls)
    ensures ChapterTotal(ls) == 9 && LessonPartTotal(ls) == 21
  {
    NumberedTotals(ls, Counts);
    CountsTotals();
  }

  lemma CountsTotals()
    ensures ChapterCount(Counts) == 9 && PartCount(Counts) == 21
  {
    assert Sum([3, 2]) == 5 by {
      assert [3, 2][..1] == [3] && [3][..0] == [];
    }
    assert Sum([2]) == 2 by {
      assert [2][..0] == [];
    }
    CountStep(Counts, 1);
    CountStep(Counts, 2);
    CountStep(Counts, 3);
    CountStep(Counts, 4);
    CountStep(Counts, 5);
    CountStep(Counts, 6);
    assert Counts[..6] == Counts;
  }

  lemma CountStep(counts: seq<seq<nat>>, k: nat)
    requires 0 < k <= |counts|
    ensures ChapterCount(counts[..k]) == ChapterCount(counts[..k - 1]) + |counts[k - 1]|
    ensures PartCount(counts[..k]) == PartCount(counts[..k - 1]) + Sum(counts[k - 1])
  {
    assert counts[..k][..k - 1] == counts[..k - 1];
  }

  lemma EmptyTotalsOf(ls: seq<LessonSeed>)
    requires Catalogue(ls)
    ensures var r := ApplyAll(Empty, PlanOf(GradesData, SubjectsData, ls));
      && Size(r, GradeTable) == 3 && Size(r, SubjectTable) == 2 && Size(r, LessonTable) == 6
      && Size(r, ChapterTable) == 9 && Size(r, PartTable) == 21
  {
    CatalogueDistinct(ls);
    CatalogueTotals(ls);
    EmptyTotalsFrom(ls);
  }

  /** The totals, from the lesson table's size, distinctness and counts. */
  lemma EmptyTotalsFrom(ls: seq<LessonSeed>)
    requires |ls| == 6 && DistinctLessons(ls) && ChapterTotal(ls) == 9 && LessonPartTotal(ls) == 21
    ensures var r := ApplyAll(Empty, PlanOf(GradesData, SubjectsData, ls));
      && Size(r, GradeTable) == 3 && Size(r, SubjectTable) == 2 && Size(r, LessonTable) == 6
      && Size(r, ChapterTable) == 9 && Size(r, PartTable) == 21
  {
    assert DistinctCodes(GradesData) && DistinctSubjectCodes(SubjectsData);
    EmptyTableSizes(GradesData, SubjectsData, ls);
  }

  /** Each table's size after a well-formed command on an empty store. */
  lemma EmptyTableSizes(grades: seq<(string, string)>, subjects: seq<(string, string, string)>, ls: seq<LessonSeed>)
    requires DistinctCodes(grades) && DistinctSubjectCodes(subjects) && DistinctLessons(ls)
    ensures var r := ApplyAll(Empty, PlanOf(grades, subjects, ls));
      && Size(r, GradeTable) == |grades| && Size(r, SubjectTable) == |subjects| && Size(r, LessonTable) == |ls|
      && Size(r, ChapterTable) == ChapterTotal(ls) && Size(r, PartTable) == LessonPartTotal(ls)
  {
    EmptyRunSizes(grades, subjects, ls, GradeTable);
    EmptyRunSizes(grades, subjects, ls, SubjectTable);
    EmptyRunSizes(grades, subjects, ls, LessonTable);
    EmptyRunSizes(grades, subjects, ls, ChapterTable);
    EmptyRunSizes(grades, subjects, ls, PartTable);
  }

  /** On an empty store the command leaves 3 grades, 2 subjects, 6 lessons,
      9 chapters and 21 parts. */
  lemma EmptyTotals()
    ensures var r := ApplyAll(Empty, Plan());
      && Size(r, GradeTable) == 3 && Size(r, SubjectTable) == 2 && Size(r, LessonTable) == 6
      && Size(r, ChapterTable) == 9 && Size(r, PartTable) == 21
  {
    LessonsCatalogue();
    EmptyTotalsOf(Lessons);
  }

  lemma SeededGradesOf(db: Db, ls: seq<LessonSeed>)
    ensures var r := ApplyAll(db, PlanOf(GradesData, SubjectsData, ls));
      && "10" in r.grades && "12" in r.grades && "13" in r.grades
      && (forall c :: c in r.grades && c !in db.grades ==>
            || (c == "10" && r.grades[c] == Grade("Grade 10"))
            || (c == "12" && r.grades[c] == Grade("Grade 12"))
            || (c == "13" && r.grades[c] == Grade("Grade 13")))
  {
    var r := ApplyAll(db, PlanOf(GradesData, SubjectsData, ls));
    SeededGradeRows(db, GradesData, SubjectsData, ls);
    assert GradesData[0].0 in r.grades && GradesData[1].0 in r.grades && GradesData[2].0 in r.grades;
    forall c | c in r.grades && c !in db.grades
      ensures || (c == "10" && r.grades[c] == Grade("Grade 10"))
              || (c == "12" && r.grades[c] == Grade("Grade 12"))
              || (c == "13" && r.grades[c] == Grade("Grade 13"))
    {
      var i :| 0 <= i < |GradesData| && GradesData[i].0 == c && r.grades[c] == Grade(GradesData[i].1);
      assert i == 0 || i == 1 || i == 2;
    }
  }

  /** After the command grades 10, 12 and 13 exist, and a grade it created
      is one of them, named "Grade 10", "Grade 12" or "Grade 13". */
  lemma SeededGrades(db: Db)
    ensures var r := ApplyAll(db, Plan());
      && "10" in r.grades && "12" in r.grades && "13" in r.grades
      && (forall c :: c in r.grades && c !in db.grades ==>
            || (c == "10" && r.grades[c] == Grade("Grade 10"))
            || (c == "12" && r.grades[c] == Grade("Grade 12"))
            || (c == "13" && r.grades[c] == Grade("Grade 13")))
  {
    SeededGradesOf(db, Lessons);
  }

  lemma SeededSubjectsOf(db: Db, ls: seq<LessonSeed>)
    ensures var r := ApplyAll(db, PlanOf(GradesData, SubjectsData, ls));
      && "biology1" in r.subjects && "arabic1" in r.subjects
      && (forall c :: c in r.subjects && c !in db.subjects ==>
            || (c == "biology1" && r.subjects[c] == Subject("Biology 1", "fa"))
            || (c == "arabic1" && r.subjects[c] == Subject("Arabic 1", "fa")))
  {
    var r := ApplyAll(db, PlanOf(GradesData, SubjectsData, ls));
    SeededSubjectRows(db, GradesData, SubjectsData, ls);
    assert SubjectsData[0].0 in r.subjects && SubjectsData[1].0 in r.subjects;
    forall c | c in r.subjects && c !in db.subjects
      ensures || (c == "biology1" && r.subjects[c] == Subject("Biology 1", "fa"))
              || (c == "arabic1" && r.subjects[c] == Subject("Arabic 1", "fa"))
    {
      var i :| 0 <= i < |SubjectsData| && SubjectsData[i].0 == c && r.subjects[c] == Subject(SubjectsData[i].1, SubjectsData[i].2);
      assert i == 0 || i == 1;
    }
  }

  /** After the command subjects biology1 and arabic1 exist, and a subject
      it created is one of them, titled "Biology 1" or "Arabic 1", in
      language "fa". */
  lemma SeededSubjects(db: Db)
    ensures var r := ApplyAll(db, Plan());
      && "biology1" in r.subjects && "arabic1" in r.subjects
      && (forall c :: c in r.subjects && c !in db.subjects ==>
            || (c == "biology1" && r.subjects[c] == Subject("Biology 1", "fa"))
            || (c == "arabic1" && r.subjects[c] == Subject("Arabic 1", "fa")))
  {
    SeededSubjectsOf(db, Lessons);
  }

  /** Every part the command creates has content type "url", mime
      "text/html" and a URL under `/static/<its grade>/`. */
  lemma CreatedParts(db: Db)
    ensures var r := ApplyAll(db, Plan());
      forall p :: p in r.parts && p !in db.parts ==> UnderGrade(r.parts[p], p.chapter.lesson.grade)
  {
    LessonsCatalogue();
    CreatedPartsUnderGrade(db, GradesData, SubjectsData, Lessons);
  }

  lemma EmptyLessonOf(ls: seq<LessonSeed>, j: nat)
    requires Catalogue(ls) && j < 6
    ensures var r := ApplyAll(Empty, PlanOf(GradesData, SubjectsData, ls));
      var lesson := LessonKeys[j];
      && lesson in r.lessons
      && (forall c: ChapterKey :: c.lesson == lesson ==> (c in r.chapters <==> 1 <= c.number <= |Counts[j]|))
      && (forall p: PartKey :: p.chapter.lesson == lesson ==>
            (p in r.parts <==> 1 <= p.chapter.number <= |Counts[j]| && 1 <= p.number <= Counts[j][p.chapter.number - 1]))
  {
    CatalogueDistinct(ls);
    EmptyRunNumbered(GradesData, SubjectsData, ls, j, Counts[j]);
  }

  lemma EmptyBiologyLessonOf(ls: seq<LessonSeed>, grade: string)
    requires Catalogue(ls)
    requires grade == "10" || grade == "12" || grade == "13"
    ensures var r := ApplyAll(Empty, PlanOf(GradesData, SubjectsData, ls));
      var lesson := LessonKey(grade, "biology1");
      && lesson in r.lessons
      && (forall c: ChapterKey :: c.lesson == lesson ==> (c in r.chapters <==> c.number == 1 || c.number == 2))
      && (forall p: PartKey :: p.chapter == ChapterKey(lesson, 1) ==> (p in r.parts <==> 1 <= p.number <= 3))
      && (forall p: PartKey :: p.chapter == ChapterKey(lesson, 2) ==> (p in r.parts <==> 1 <= p.number <= 2))
      && (forall p: PartKey :: p.chapter.lesson == lesson && p in r.parts ==> p.chapter.number == 1 || p.chapter.number == 2)
  {
    var j := if grade == "10" then 0 else if grade == "12" then 2 else 4;
    assert LessonKeys[j] == LessonKey(grade, "biology1") && Counts[j] == [3, 2];
    EmptyLessonOf(ls, j);
  }

  /** On an empty store each Biology lesson ends with chapters 1 and 2,
      with parts 1 to 3 and 1 to 2. */
  lemma EmptyBiologyLesson(grade: string)
    requires grade == "10" || grade == "12" || grade == "13"
    ensures var r := ApplyAll(Empty, Plan());
      var lesson := LessonKey(grade, "biology1");
      && lesson in r.lessons
      && (forall c: ChapterKey :: c.lesson == lesson ==> (c in r.chapters <==> c.number == 1 || c.number == 2))
      && (forall p: PartKey :: p.chapter == ChapterKey(lesson, 1) ==> (p in r.parts <==> 1 <= p.number <= 3))
      && (forall p: PartKey :: p.chapter == ChapterKey(lesson, 2) ==> (p in r.parts <==> 1 <= p.number <= 2))
      && (forall p: PartKey :: p.chapter.lesson == lesson && p in r.parts ==> p.chapter.number == 1 || p.chapter.number == 2)
  {
    LessonsCatalogue();
    EmptyBiologyLessonOf(Lessons, grade);
  }

  lemma EmptyArabicLessonOf(ls: seq<LessonSeed>, grade: string)
    requires Catalogue(ls)
    requires grade == "10" || grade == "12" || grade == "13"
    ensures var r := ApplyAll(Empty, PlanOf(GradesData, SubjectsData, ls));
      var lesson := LessonKey(grade, "arabic1");
      && lesson in r.lessons
      && (forall c: ChapterKey :: c.lesson == lesson ==> (c in r.chapters <==> c.number == 1))
      && (forall p: PartKey :: p.chapter.lesson == lesson ==> (p in r.parts <==> p.chapter.number == 1 && 1 <= p.number <= 2))
  {
    var j := if grade == "10" then 1 else if grade == "12" then 3 else 5;
    assert LessonKeys[j] == LessonKey(grade, "arabic1") && Counts[j] == [2];
    EmptyLessonOf(ls, j);
  }

  /** On an empty store each Arabic lesson ends with chapter 1 alone, with
      parts 1 and 2. */
  lemma EmptyArabicLesson(grade: string)
    requires grade == "10" || grade == "12" || grade == "13"
    ensures var r := ApplyAll(Empty, Plan());
      var lesson := LessonKey(grade, "arabic1");
      && lesson in r.lessons
      && (forall c: ChapterKey :: c.lesson == lesson ==> (c in r.chapters <==> c.number == 1))
      && (forall p: PartKey :: p.chapter.lesson == lesson ==> (p in r.parts <==> p.chapter.number == 1 && 1 <= p.number <= 2))
  {
    LessonsCatalogue();
    EmptyArabicLessonOf(Lessons, grade);
  }

  /** A second run creates and changes nothing; neither run modifies a row
      that existed before it. */
  lemma SecondRun(db: Db)
    ensures ApplyAll(ApplyAll(db, Plan()), Plan()) == ApplyAll(db, Plan())
    ensures Extends(db, ApplyAll(db, Plan()))
  {
    ApplyAllIdempotent(db, Plan());
    ApplyAllExtends(db, Plan());
  }
}
