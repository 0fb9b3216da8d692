/**
 * The store contract of content/models.py.
 *
 * Every table is a map from its natural key to the row's other fields, so
 * the uniqueness constraints hold by construction: `Grade.code` and
 * `Subject.code` are `unique`, and Lesson (grade, subject), Chapter
 * (lesson, number) and Part (chapter, number) are `unique_together`. A
 * foreign key is the parent's natural key. Identifiers and timestamps are
 * not modelled.
 *
 * The seeding commands only ever write with `get_or_create`: `Apply` is
 * that write, and `ApplyAll` a run of them.
 */
module Store {
  import opened Wrappers

  datatype LessonKey = LessonKey(grade: string, subject: string)
  datatype ChapterKey = ChapterKey(lesson: LessonKey, number: nat)
  datatype PartKey = PartKey(chapter: ChapterKey, number: nat)

  datatype Grade = Grade(name: string)
  datatype Subject = Subject(title: string, language: string)
  datatype Lesson = Lesson(title: string, description: string)
  datatype Chapter = Chapter(title: string, summary: string)

  /** `Part.CONTENT_TYPE_CHOICES`: `url` or `inline`. */
  datatype ContentType = Url | Inline

  datatype Part = Part(
    title: string,
    mime: string,
    contentType: ContentType,
    contentUrl: Option<string>,
    html: string,
    sizeBytes: Option<nat>)

  /** A part with only its title given: the field defaults of the model
      (`mime` "text/html", `content_type` inline, no URL, empty HTML, no
      size). */
  function DefaultPart(title: string): Part {
    Part(title, "text/html", Inline, None, "", None)
  }

  /** The part every seeder writes: the defaults, with `content_type`
      "url", the given URL and possibly a size. */
  function UrlPart(title: string, url: string, size: Option<nat>): (p: Part)
    ensures p.contentType == Url && p.mime == "text/html" && p.contentUrl == Some(url)
    ensures p.title == title && p.sizeBytes == size && p.html == DefaultPart(title).html
  {
    DefaultPart(title).(contentType := Url, contentUrl := Some(url), sizeBytes := size)
  }

  datatype Db = Db(
    grades: map<string, Grade>,
    subjects: map<string, Subject>,
    lessons: map<LessonKey, Lesson>,
    chapters: map<ChapterKey, Chapter>,
    parts: map<PartKey, Part>)

  const Empty: Db := Db(map[], map[], map[], map[], map[])

  /** The natural key of a row of any table. */
  datatype Key =
    | GradeKey(code: string)
    | SubjectKey(code: string)
    | LessonK(lesson: LessonKey)
    | ChapterK(chapter: ChapterKey)
    | PartK(part: PartKey)

  predicate Has(db: Db, k: Key) {
    match k
    case GradeKey(c) => c in db.grades
    case SubjectKey(c) => c in db.subjects
    case LessonK(l) => l in db.lessons
    case ChapterK(c) => c in db.chapters
    case PartK(p) => p in db.parts
  }

  predicate SubMap<K, V(==)>(a: map<K, V>, b: map<K, V>) {
    forall k :: k in a ==> k in b && b[k] == a[k]
  }

  /** `b` holds every row of `a`, unchanged. */
  predicate Extends(a: Db, b: Db) {
    && SubMap(a.grades, b.grades)
    && SubMap(a.subjects, b.subjects)
    && SubMap(a.lessons, b.lessons)
    && SubMap(a.chapters, b.chapters)
    && SubMap(a.parts, b.parts)
  }

  lemma ExtendsTrans(a: Db, b: Db, c: Db)
    requires Extends(a, b) && Extends(b, c)
    ensures Extends(a, c)
  {
  }

  // ---------------------------------------------------------------------
  // get_or_create
  // ---------------------------------------------------------------------

  /** A lesson title is either given, or built from the title of the stored
      subject (`f"{subject.title}{suffix}"`, where `subject` is the row
      `get_or_create` returned for the lesson's subject). */
  datatype LessonTitle = Titled(title: string) | AfterSubject(suffix: string)

  function TitleIn(db: Db, key: LessonKey, t: LessonTitle): string {
    match t
    case Titled(s) => s
    case AfterSubject(suffix) =>
      (if key.subject in db.subjects then db.subjects[key.subject].title else "") + suffix
  }

  /** One `get_or_create(key..., defaults=...)` call. */
  datatype Op =
    | GradeOp(code: string, grade: Grade)
    | SubjectOp(code: string, subject: Subject)
    | LessonOp(lesson: LessonKey, title: LessonTitle, description: string)
    | ChapterOp(chapter: ChapterKey, row: Chapter)
    | PartOp(part: PartKey, value: Part)

  function KeyOf(op: Op): Key {
    match op
    case GradeOp(c, _) => GradeKey(c)
    case SubjectOp(c, _) => SubjectKey(c)
    case LessonOp(l, _, _) => LessonK(l)
    case ChapterOp(c, _) => ChapterK(c)
    case PartOp(p, _) => PartK(p)
  }

  /** `get_or_create`: a row with the key is left as it is; otherwise one
      is created from the defaults. No other row is touched. */
  function Apply(db: Db, op: Op): (r: Db)
    ensures Extends(db, r)
    ensures Has(db, KeyOf(op)) ==> r == db
    ensures forall k :: Has(r, k) <==> Has(db, k) || k == KeyOf(op)
  {
    match op
    case GradeOp(c, g) =>
      if c in db.grades then db else db.(grades := db.grades[c := g])
    case SubjectOp(c, s) =>
      if c in db.subjects then db else db.(subjects := db.subjects[c := s])
    case LessonOp(l, t, d) =>
      if l in db.lessons then db else db.(lessons := db.lessons[l := Lesson(TitleIn(db, l, t), d)])
    case ChapterOp(c, ch) =>
      if c in db.chapters then db else db.(chapters := db.chapters[c := ch])
    case PartOp(p, v) =>
      if p in db.parts then db else db.(parts := db.parts[p := v])
  }

  /** A run of `get_or_create` calls, in order. */
  function ApplyAll(db: Db, ops: seq<Op>): Db
    decreases |ops|
  {
    if ops == [] then db else Apply(ApplyAll(db, ops[..|ops| - 1]), ops[|ops| - 1])
  }

  lemma {:induction false} ApplyAllAppend(db: Db, a: seq<Op>, b: seq<Op>)
    ensures ApplyAll(db, a + b) == ApplyAll(ApplyAll(db, a), b)
    decreases |b|
  {
    if b == [] {
      assert a + b == a;
    } else {
      assert (a + b)[..|a + b| - 1] == a + b[..|b| - 1];
      ApplyAllAppend(db, a, b[..|b| - 1]);
    }
  }

  lemma ApplyAllOne(db: Db, a: Op)
    ensures ApplyAll(db, [a]) == Apply(db, a)
  {
    assert [a][..0] == [];
  }

  lemma ApplyAllTwo(db: Db, a: Op, b: Op)
    ensures ApplyAll(db, [a, b]) == Apply(Apply(db, a), b)
  {
    assert [a, b][..1] == [a];
    ApplyAllOne(db, a);
  }

  /** Existing rows are never modified. */
  lemma {:induction false} ApplyAllExtends(db: Db, ops: seq<Op>)
    ensures Extends(db, ApplyAll(db, ops))
    decreases |ops|
  {
    if ops != [] {
      ApplyAllExtends(db, ops[..|ops| - 1]);
      ExtendsTrans(db, ApplyAll(db, ops[..|ops| - 1]), ApplyAll(db, ops));
    }
  }

  /** After the run, a row exists exactly for the keys that existed before
      or that some call named: nothing else is created. */
  lemma {:induction false} ApplyAllKeys(db: Db, ops: seq<Op>)
    ensures forall k :: Has(ApplyAll(db, ops), k) <==>
      Has(db, k) || exists i :: 0 <= i < |ops| && KeyOf(ops[i]) == k
    decreases |ops|
  {
    if ops != [] {
      var init := ops[..|ops| - 1];
      ApplyAllKeys(db, init);
      forall k ensures Has(ApplyAll(db, ops), k) <==>
        Has(db, k) || exists i :: 0 <= i < |ops| && KeyOf(ops[i]) == k
      {
        if exists i :: 0 <= i < |ops| && KeyOf(ops[i]) == k {
          var i :| 0 <= i < |ops| && KeyOf(ops[i]) == k;
          if i < |init| {
            assert KeyOf(init[i]) == k;
          }
        }
        if exists i :: 0 <= i < |init| && KeyOf(init[i]) == k {
          var i :| 0 <= i < |init| && KeyOf(init[i]) == k;
          assert KeyOf(ops[i]) == k;
        }
      }
    }
  }

  /** Every key a call named has a row after the run. */
  lemma ApplyAllCovers(db: Db, ops: seq<Op>)
    ensures forall i :: 0 <= i < |ops| ==> Has(ApplyAll(db, ops), KeyOf(ops[i]))
  {
    ApplyAllKeys(db, ops);
  }

  /** When every key already has a row, the run changes nothing. */
  lemma {:induction false} ApplyAllPresent(db: Db, ops: seq<Op>)
    requires forall i :: 0 <= i < |ops| ==> Has(db, KeyOf(ops[i]))
    ensures ApplyAll(db, ops) == db
    decreases |ops|
  {
    if ops != [] {
      ApplyAllPresent(db, ops[..|ops| - 1]);
    }
  }

  /** A run of `get_or_create` calls is idempotent: running it again on its
      own result creates and changes nothing. */
  lemma ApplyAllIdempotent(db: Db, ops: seq<Op>)
    ensures ApplyAll(ApplyAll(db, ops), ops) == ApplyAll(db, ops)
  {
    ApplyAllCovers(db, ops);
    ApplyAllPresent(ApplyAll(db, ops), ops);
  }

  // A row the run created holds the defaults of a call that named it.

  lemma ApplyGradeFrom(q: Db, op: Op)
    ensures forall c :: c in Apply(q, op).grades && c !in q.grades ==> op == GradeOp(c, Apply(q, op).grades[c])
  {
  }

  lemma {:induction false} ApplyAllNewGrades(db: Db, ops: seq<Op>)
    ensures var r := ApplyAll(db, ops);
      forall c :: c in r.grades && c !in db.grades ==> exists i :: 0 <= i < |ops| && ops[i] == GradeOp(c, r.grades[c])
    decreases |ops|
  {
    if ops != [] {
      var n := |ops| - 1;
      var init := ops[..n];
      ApplyAllNewGrades(db, init);
      var q := ApplyAll(db, init);
      var r := ApplyAll(db, ops);
      ApplyGradeFrom(q, ops[n]);
      forall c | c in r.grades && c !in db.grades ensures exists i :: 0 <= i < |ops| && ops[i] == GradeOp(c, r.grades[c]) {
        if c in q.grades {
          var i :| 0 <= i < |init| && init[i] == GradeOp(c, q.grades[c]);
          assert ops[i] == init[i];
        } else {
          assert ops[n] == GradeOp(c, r.grades[c]);
        }
      }
    }
  }

  lemma ApplySubjectFrom(q: Db, op: Op)
    ensures forall c :: c in Apply(q, op).subjects && c !in q.subjects ==> op == SubjectOp(c, Apply(q, op).subjects[c])
  {
  }

  lemma {:induction false} ApplyAllNewSubjects(db: Db, ops: seq<Op>)
    ensures var r := ApplyAll(db, ops);
      forall c :: c in r.subjects && c !in db.subjects ==> exists i :: 0 <= i < |ops| && ops[i] == SubjectOp(c, r.subjects[c])
    decreases |ops|
  {
    if ops != [] {
      var n := |ops| - 1;
      var init := ops[..n];
      ApplyAllNewSubjects(db, init);
      var q := ApplyAll(db, init);
      var r := ApplyAll(db, ops);
      ApplySubjectFrom(q, ops[n]);
      forall c | c in r.subjects && c !in db.subjects ensures exists i :: 0 <= i < |ops| && ops[i] == SubjectOp(c, r.subjects[c]) {
        if c in q.subjects {
          var i :| 0 <= i < |init| && init[i] == SubjectOp(c, q.subjects[c]);
          assert ops[i] == init[i];
        } else {
          assert ops[n] == SubjectOp(c, r.subjects[c]);
        }
      }
    }
  }

  lemma ApplyPartFrom(q: Db, op: Op)
    ensures forall p :: p in Apply(q, op).parts && p !in q.parts ==> op == PartOp(p, Apply(q, op).parts[p])
  {
  }

  lemma {:induction false} ApplyAllNewParts(db: Db, ops: seq<Op>)
    ensures var r := ApplyAll(db, ops);
      forall p :: p in r.parts && p !in db.parts ==> exists i :: 0 <= i < |ops| && ops[i] == PartOp(p, r.parts[p])
    decreases |ops|
  {
    if ops != [] {
      var n := |ops| - 1;
      var init := ops[..n];
      ApplyAllNewParts(db, init);
      var q := ApplyAll(db, init);
      var r := ApplyAll(db, ops);
      ApplyPartFrom(q, ops[n]);
      forall p | p in r.parts && p !in db.parts ensures exists i :: 0 <= i < |ops| && ops[i] == PartOp(p, r.parts[p]) {
        if p in q.parts {
          var i :| 0 <= i < |init| && init[i] == PartOp(p, q.parts[p]);
          assert ops[i] == init[i];
        } else {
          assert ops[n] == PartOp(p, r.parts[p]);
        }
      }
    }
  }

  // ---------------------------------------------------------------------
  // Runs that name every key once
  // ---------------------------------------------------------------------

  /** No two calls of the run name the same key. */
  predicate DistinctKeys(ops: seq<Op>) {
    forall i, j :: 0 <= i < j < |ops| ==> KeyOf(ops[i]) != KeyOf(ops[j])
  }

  /** Two runs that name different keys can be joined. */
  lemma DistinctAppend(a: seq<Op>, b: seq<Op>)
    requires DistinctKeys(a) && DistinctKeys(b)
    requires forall i, j :: 0 <= i < |a| && 0 <= j < |b| ==> KeyOf(a[i]) != KeyOf(b[j])
    ensures DistinctKeys(a + b)
  {
    var s := a + b;
    forall i, j | 0 <= i < j < |s| ensures KeyOf(s[i]) != KeyOf(s[j]) {
      if j < |a| {
        assert s[i] == a[i] && s[j] == a[j];
      } else if i < |a| {
        assert s[i] == a[i] && s[j] == b[j - |a|];
      } else {
        assert s[i] == b[i - |a|] && s[j] == b[j - |a|];
      }
    }
  }

  /** The table a key belongs to. */
  datatype Table = GradeTable | SubjectTable | LessonTable | ChapterTable | PartTable

  function TableOf(k: Key): Table {
    match k
    case GradeKey(_) => GradeTable
    case SubjectKey(_) => SubjectTable
    case LessonK(_) => LessonTable
    case ChapterK(_) => ChapterTable
    case PartK(_) => PartTable
  }

  /** The number of rows of a table. */
  function Size(db: Db, t: Table): nat {
    match t
    case GradeTable => |db.grades|
    case SubjectTable => |db.subjects|
    case LessonTable => |db.lessons|
    case ChapterTable => |db.chapters|
    case PartTable => |db.parts|
  }

  /** The number of calls of the run that write to table `t`. */
  function Count(ops: seq<Op>, t: Table): nat
    decreases |ops|
  {
    if ops == [] then 0
    else Count(ops[..|ops| - 1], t) + (if TableOf(KeyOf(ops[|ops| - 1])) == t then 1 else 0)
  }

  lemma {:induction false} CountAppend(a: seq<Op>, b: seq<Op>, t: Table)
    ensures Count(a + b, t) == Count(a, t) + Count(b, t)
    decreases |b|
  {
    if b == [] {
      assert a + b == a;
    } else {
      var n := |b| - 1;
      assert (a + b)[..|a + b| - 1] == a + b[..n];
      CountAppend(a, b[..n], t);
    }
  }

  /** A run that writes only to `t` counts each of its calls there. */
  lemma {:induction false} CountOnly(ops: seq<Op>, t: Table, u: Table)
    requires forall i :: 0 <= i < |ops| ==> TableOf(KeyOf(ops[i])) == t
    ensures Count(ops, u) == if u == t then |ops| else 0
    decreases |ops|
  {
    if ops != [] {
      CountOnly(ops[..|ops| - 1], t, u);
    }
  }

  /** A run naming new keys only, each once, adds one row per call to
      the table the call writes to. */
  lemma {:induction false} ApplyAllFresh(db: Db, ops: seq<Op>, t: Table)
    requires DistinctKeys(ops)
    requires forall i :: 0 <= i < |ops| ==> !Has(db, KeyOf(ops[i]))
    ensures Size(ApplyAll(db, ops), t) == Size(db, t) + Count(ops, t)
    decreases |ops|
  {
    if ops != [] {
      var n := |ops| - 1;
      var init := ops[..n];
      ApplyAllFresh(db, init, t);
      var q := ApplyAll(db, init);
      ApplyAllKeys(db, init);
      assert !Has(q, KeyOf(ops[n])) by {
        forall i | 0 <= i < |init| ensures KeyOf(init[i]) != KeyOf(ops[n]) {
          assert init[i] == ops[i];
        }
      }
      ApplyFreshSize(q, ops[n], t);
    }
  }

  /** A call naming a new key adds one row to its table. */
  lemma ApplyFreshSize(q: Db, op: Op, t: Table)
    requires !Has(q, KeyOf(op))
    ensures Size(Apply(q, op), t) == Size(q, t) + (if TableOf(KeyOf(op)) == t then 1 else 0)
  {
    match op
    case GradeOp(c, g) =>
    case SubjectOp(c, v) =>
    case LessonOp(l, ti, d) =>
    case ChapterOp(c, ch) =>
    case PartOp(p, v) =>
  }

  // ---------------------------------------------------------------------
  // Referential integrity and cascades
  // ---------------------------------------------------------------------

  /** Every foreign key names an existing row. */
  predicate Consistent(db: Db) {
    && (forall l :: l in db.lessons ==> l.grade in db.grades && l.subject in db.subjects)
    && (forall c :: c in db.chapters ==> c.lesson in db.lessons)
    && (forall p :: p in db.parts ==> p.chapter in db.chapters)
  }

  /** The rows a call's row points to. */
  function Parents(op: Op): set<Key> {
    match op
    case GradeOp(_, _) => {}
    case SubjectOp(_, _) => {}
    case LessonOp(l, _, _) => {GradeKey(l.grade), SubjectKey(l.subject)}
    case ChapterOp(c, _) => {LessonK(c.lesson)}
    case PartOp(p, _) => {ChapterK(p.chapter)}
  }

  lemma ApplyConsistent(db: Db, op: Op)
    requires Consistent(db)
    requires forall k :: k in Parents(op) ==> Has(db, k)
    ensures Consistent(Apply(db, op))
  {
  }

  /** Each call's parents exist before the run or are named by an earlier
      call of it. */
  predicate Grounded(db: Db, ops: seq<Op>) {
    forall i, k :: 0 <= i < |ops| && k in Parents(ops[i]) ==>
      Has(db, k) || exists j :: 0 <= j < i && KeyOf(ops[j]) == k
  }

  /** A grounded run keeps every foreign key valid. */
  lemma {:induction false} ApplyAllConsistent(db: Db, ops: seq<Op>)
    requires Consistent(db) && Grounded(db, ops)
    ensures Consistent(ApplyAll(db, ops))
    decreases |ops|
  {
    if ops != [] {
      var init := ops[..|ops| - 1];
      var op := ops[|ops| - 1];
      assert Grounded(db, init) by {
        forall i, k | 0 <= i < |init| && k in Parents(init[i])
          ensures Has(db, k) || exists j :: 0 <= j < i && KeyOf(init[j]) == k
        {
          assert init[i] == ops[i];
          if exists j :: 0 <= j < i && KeyOf(ops[j]) == k {
            var j :| 0 <= j < i && KeyOf(ops[j]) == k;
            assert KeyOf(init[j]) == k;
          }
        }
      }
      ApplyAllConsistent(db, init);
      var mid := ApplyAll(db, init);
      ApplyAllKeys(db, init);
      ApplyAllExtends(db, init);
      forall k | k in Parents(op) ensures Has(mid, k) {
        if !Has(db, k) {
          var j :| 0 <= j < |ops| - 1 && KeyOf(ops[j]) == k;
          assert KeyOf(init[j]) == k;
        }
      }
      ApplyConsistent(mid, op);
    }
  }

  /** Keeps the chapters whose lesson is kept, and the parts whose chapter
      is kept (`on_delete=CASCADE`). */
  function CascadeFromLessons(db: Db, lessons: map<LessonKey, Lesson>): Db {
    var chapters := map c | c in db.chapters && c.lesson in lessons :: db.chapters[c];
    var parts := map p | p in db.parts && p.chapter in chapters :: db.parts[p];
    db.(lessons := lessons, chapters := chapters, parts := parts)
  }

  /** Deleting a grade deletes its lessons, their chapters and their parts. */
  function DeleteGrade(db: Db, code: string): Db {
    var lessons := map l | l in db.lessons && l.grade != code :: db.lessons[l];
    CascadeFromLessons(db.(grades := db.grades - {code}), lessons)
  }

  /** Deleting a subject deletes its lessons, their chapters and parts. */
  function DeleteSubject(db: Db, code: string): Db {
    var lessons := map l | l in db.lessons && l.subject != code :: db.lessons[l];
    CascadeFromLessons(db.(subjects := db.subjects - {code}), lessons)
  }

  function DeleteLesson(db: Db, key: LessonKey): Db {
    CascadeFromLessons(db, db.lessons - {key})
  }

  function DeleteChapter(db: Db, key: ChapterKey): Db {
    var chapters := db.chapters - {key};
    db.(chapters := chapters, parts := map p | p in db.parts && p.chapter in chapters :: db.parts[p])
  }

  /** Deleting a grade keeps the store consistent; exactly the lessons,
      chapters and parts under it go, and every other row stays as it was. */
  lemma DeleteGradeCascades(db: Db, code: string)
    requires Consistent(db)
    ensures Consistent(DeleteGrade(db, code))
    ensures forall g :: g in DeleteGrade(db, code).grades <==> g in db.grades && g != code
    ensures DeleteGrade(db, code).subjects == db.subjects
    ensures forall l :: l in DeleteGrade(db, code).lessons <==> l in db.lessons && l.grade != code
    ensures forall c :: c in DeleteGrade(db, code).chapters <==> c in db.chapters && c.lesson.grade != code
    ensures forall p :: p in DeleteGrade(db, code).parts <==> p in db.parts && p.chapter.lesson.grade != code
    ensures Extends(DeleteGrade(db, code), db)
  {
  }

  /** Deleting a subject: exactly the subject and the rows under it go;
      the grades and every kept row stay as they were. */
  lemma DeleteSubjectCascades(db: Db, code: string)
    requires Consistent(db)
    ensures Consistent(DeleteSubject(db, code))
    ensures forall s :: s in DeleteSubject(db, code).subjects <==> s in db.subjects && s != code
    ensures DeleteSubject(db, code).grades == db.grades
    ensures forall l :: l in DeleteSubject(db, code).lessons <==> l in db.lessons && l.subject != code
    ensures forall c :: c in DeleteSubject(db, code).chapters <==> c in db.chapters && c.lesson.subject != code
    ensures forall p :: p in DeleteSubject(db, code).parts <==> p in db.parts && p.chapter.lesson.subject != code
    ensures Extends(DeleteSubject(db, code), db)
  {
  }

  /** Deleting a lesson: exactly the lesson, its chapters and their parts
      go; the grades, the subjects and every kept row stay as they were. */
  lemma DeleteLessonCascades(db: Db, key: LessonKey)
    requires Consistent(db)
    ensures Consistent(DeleteLesson(db, key))
    ensures DeleteLesson(db, key).grades == db.grades && DeleteLesson(db, key).subjects == db.subjects
    ensures forall l :: l in DeleteLesson(db, key).lessons <==> l in db.lessons && l != key
    ensures forall c :: c in DeleteLesson(db, key).chapters <==> c in db.chapters && c.lesson != key
    ensures forall p :: p in DeleteLesson(db, key).parts <==> p in db.parts && p.chapter.lesson != key
    ensures Extends(DeleteLesson(db, key), db)
  {
  }

  /** Deleting a chapter: exactly the chapter and its parts go; the tables
      above and every kept row stay as they were. */
  lemma DeleteChapterCascades(db: Db, key: ChapterKey)
    requires Consistent(db)
    ensures Consistent(DeleteChapter(db, key))
    ensures DeleteChapter(db, key).grades == db.grades && DeleteChapter(db, key).subjects == db.subjects
    ensures DeleteChapter(db, key).lessons == db.lessons
    ensures forall c :: c in DeleteChapter(db, key).chapters <==> c in db.chapters && c != key
    ensures forall p :: p in DeleteChapter(db, key).parts <==> p in db.parts && p.chapter != key
    ensures Extends(DeleteChapter(db, key), db)
  {
  }

  // ---------------------------------------------------------------------
  // Ordering
  // ---------------------------------------------------------------------

  predicate Ascending(s: seq<nat>) {
    forall i, j :: 0 <= i < j < |s| ==> s[i] < s[j]
  }

  lemma HasMin(s: set<nat>)
    requires s != {}
    ensures exists m :: m in s && forall x :: x in s ==> m <= x
  {
    var y :| y in s;
    LeastFrom(s, 0, y);
  }

  /** Counting up from a lower bound `k` of `s` reaches its least element
      by the time it reaches the element `y`. */
  lemma {:induction false} LeastFrom(s: set<nat>, k: nat, y: nat)
    requires y in s && k <= y
    requires forall x :: x in s ==> k <= x
    ensures exists m :: m in s && forall x :: x in s ==> m <= x
    decreases y - k
  {
    if k !in s {
      LeastFrom(s, k + 1, y);
    }
  }

  /** The least element of a non-empty set. */
  ghost function Least(s: set<nat>): (m: nat)
    requires s != {}
    ensures m in s && forall x :: x in s ==> m <= x
  {
    HasMin(s);
    var m :| m in s && forall x :: x in s ==> m <= x;
    m
  }

  /** The numbers of `s` in ascending order. */
  ghost function SortedNumbers(s: set<nat>): (r: seq<nat>)
    ensures Ascending(r)
    ensures forall n :: n in r <==> n in s
    decreases s
  {
    if s == {} then []
    else
      var m := Least(s);
      var t := s - {m};
      assert t < s;
      var rest := SortedNumbers(t);
      LeastCons(m, rest, s);
      [m] + rest
  }

  /** The least element of `s` followed by the rest of `s` in ascending
      order is `s` in ascending order. */
  lemma LeastCons(m: nat, rest: seq<nat>, s: set<nat>)
    requires m in s && forall x :: x in s ==> m <= x
    requires Ascending(rest) && forall n :: n in rest <==> n in s - {m}
    ensures Ascending([m] + rest)
    ensures forall n :: n in [m] + rest <==> n in s
  {
    var r := [m] + rest;
    forall i, j | 0 <= i < j < |r| ensures r[i] < r[j] {
      assert r[j] == rest[j - 1] && rest[j - 1] in rest;
      if i > 0 {
        assert r[i] == rest[i - 1];
      }
    }
  }

  /** `lesson.chapters.all()` (`ordering = ['number']`): the chapter
      numbers of a lesson, ascending, each once. */
  ghost function ChapterNumbers(db: Db, lesson: LessonKey): (r: seq<nat>)
    ensures Ascending(r)
    ensures forall n :: n in r <==> ChapterKey(lesson, n) in db.chapters
  {
    SortedNumbers(set c | c in db.chapters && c.lesson == lesson :: c.number)
  }

  /** `chapter.parts.all()` (`ordering = ['number']`). */
  ghost function PartNumbers(db: Db, chapter: ChapterKey): (r: seq<nat>)
    ensures Ascending(r)
    ensures forall n :: n in r <==> PartKey(chapter, n) in db.parts
  {
    SortedNumbers(set p | p in db.parts && p.chapter == chapter :: p.number)
  }

  // ---------------------------------------------------------------------
  // The store as an object
  // ---------------------------------------------------------------------

  /** The database the commands write to: one map per table. */
  class HierarchyStore {
    var grades: map<string, Grade>
    var subjects: map<string, Subject>
    var lessons: map<LessonKey, Lesson>
    var chapters: map<ChapterKey, Chapter>
    var parts: map<PartKey, Part>

    function State(): Db
      reads this
    {
      Db(grades, subjects, lessons, chapters, parts)
    }

    constructor(db: Db)
      ensures State() == db
    {
      grades := db.grades;
      subjects := db.subjects;
      lessons := db.lessons;
      chapters := db.chapters;
      parts := db.parts;
    }

    /** `Grade.objects.get_or_create(code=code, defaults=...)`. */
    method GetOrCreateGrade(code: string, defaults: Grade) returns (grade: Grade, created: bool)
      modifies this
      ensures State() == Apply(old(State()), GradeOp(code, defaults))
      ensures created <==> code !in old(grades)
      ensures grade == grades[code]
    {
      created := code !in grades;
      if created {
        grades := grades[code := defaults];
      }
      grade := grades[code];
    }

    method GetOrCreateSubject(code: string, defaults: Subject) returns (subject: Subject, created: bool)
      modifies this
      ensures State() == Apply(old(State()), SubjectOp(code, defaults))
      ensures created <==> code !in old(subjects)
      ensures subject == subjects[code]
    {
      created := code !in subjects;
      if created {
        subjects := subjects[code := defaults];
      }
      subject := subjects[code];
    }

    method GetOrCreateLesson(key: LessonKey, title: string, description: string)
      returns (lesson: Lesson, created: bool)
      modifies this
      ensures State() == Apply(old(State()), LessonOp(key, Titled(title), description))
      ensures created <==> key !in old(lessons)
      ensures lesson == lessons[key]
    {
      created := key !in lessons;
      if created {
        lessons := lessons[key := Lesson(title, description)];
      }
      lesson := lessons[key];
    }

    method GetOrCreateChapter(key: ChapterKey, defaults: Chapter) returns (chapter: Chapter, created: bool)
      modifies this
      ensures State() == Apply(old(State()), ChapterOp(key, defaults))
      ensures created <==> key !in old(chapters)
      ensures chapter == chapters[key]
    {
      created := key !in chapters;
      if created {
        chapters := chapters[key := defaults];
      }
      chapter := chapters[key];
    }

    method GetOrCreatePart(key: PartKey, defaults: Part) returns (part: Part, created: bool)
      modifies this
      ensures State() == Apply(old(State()), PartOp(key, defaults))
      ensures created <==> key !in old(parts)
      ensures part == parts[key]
    {
      created := key !in parts;
      if created {
        parts := parts[key := defaults];
      }
      part := parts[key];
    }

    /** `Part.objects.filter(chapter=..., number=...).exists()`. */
    method PartExists(key: PartKey) returns (b: bool)
      ensures b <==> key in parts
    {
      b := key in parts;
    }

    /** `Part.objects.create(...)`: the key must be free, or the unique
      constraint on (chapter, number) rejects the row. */
    method CreatePart(key: PartKey, part: Part)
      requires key !in parts
      modifies this
      ensures State() == Apply(old(State()), PartOp(key, part))
    {
      parts := parts[key := part];
    }
  }

  /** A lesson title built from the stored subject is the one `Apply`
      derives for it. */
  lemma AfterSubjectTitle(db: Db, key: LessonKey, suffix: string, d: string)
    requires key.subject in db.subjects
    ensures Apply(db, LessonOp(key, Titled(db.subjects[key.subject].title + suffix), d))
         == Apply(db, LessonOp(key, AfterSubject(suffix), d))
  {
  }
}
