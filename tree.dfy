/**
 * The folder tree the seeding commands read, as a value. A directory's
 * children are listed in `iterdir()` order, which is arbitrary; the
 * commands sort what they visit, and so does the model:
 *
 *   - `sorted(entries)` orders by name, compared code point by code point
 *     (Python's `str` order, which is how paths in one directory compare);
 *   - `sorted(grade_dirs, key=lambda x: int(x.name))` orders by number.
 *
 * Both are one stable insertion sort over a total preorder.
 */
module Tree {
  import Names

  /** A file carries its size in bytes (`stat().st_size`). */
  datatype Entry =
    | Dir(name: string, children: seq<Entry>)
    | File(name: string, size: nat)

  // ---------------------------------------------------------------------
  // Orders
  // ---------------------------------------------------------------------

  /** Python's `a <= b` on strings. */
  predicate LexLe(a: string, b: string)
    decreases |a|
  {
    if a == [] then true
    else if b == [] then false
    else if a[0] != b[0] then a[0] < b[0]
    else LexLe(a[1..], b[1..])
  }

  lemma {:induction false} LexLeTotal(a: string, b: string)
    ensures LexLe(a, b) || LexLe(b, a)
    decreases |a|
  {
    if a != [] && b != [] && a[0] == b[0] {
      LexLeTotal(a[1..], b[1..]);
    }
  }

  lemma {:induction false} LexLeTrans(a: string, b: string, c: string)
    requires LexLe(a, b) && LexLe(b, c)
    ensures LexLe(a, c)
    decreases |a|
  {
    if a != [] && b != [] && c != [] && a[0] == b[0] && b[0] == c[0] {
      LexLeTrans(a[1..], b[1..], c[1..]);
    }
  }

  lemma {:induction false} LexLeAntisym(a: string, b: string)
    requires LexLe(a, b) && LexLe(b, a)
    ensures a == b
    decreases |a|
  {
    if a != [] {
      LexLeAntisym(a[1..], b[1..]);
      assert a == [a[0]] + a[1..] && b == [b[0]] + b[1..];
    }
  }

  predicate ByName(x: Entry, y: Entry) { LexLe(x.name, y.name) }

  /** `int(name)`, for names made of ASCII digits; 0 otherwise. */
  function NumberOf(e: Entry): nat {
    if Names.AllDigits(e.name) then Names.DigitsValue(e.name) else 0
  }

  predicate ByNumber(x: Entry, y: Entry) { NumberOf(x) <= NumberOf(y) }

  /** `le` is a total preorder on entries. */
  ghost predicate TotalPreorder(le: (Entry, Entry) -> bool) {
    && (forall x, y :: le(x, y) || le(y, x))
    && (forall x, y, z :: le(x, y) && le(y, z) ==> le(x, z))
  }

  lemma ByNameTotalPreorder()
    ensures TotalPreorder(ByName)
  {
    forall x, y ensures ByName(x, y) || ByName(y, x) {
      LexLeTotal(x.name, y.name);
    }
    forall x, y, z | ByName(x, y) && ByName(y, z) ensures ByName(x, z) {
      LexLeTrans(x.name, y.name, z.name);
    }
  }

  lemma ByNumberTotalPreorder()
    ensures TotalPreorder(ByNumber)
  {
  }

  // ---------------------------------------------------------------------
  // Stable insertion sort
  // ---------------------------------------------------------------------

  predicate SortedBy(s: seq<Entry>, le: (Entry, Entry) -> bool) {
    forall i, j :: 0 <= i < j < |s| ==> le(s[i], s[j])
  }

  /** Inserts `x` after every element at the end of `s` that is `le` it,
      so that equal elements keep their input order. */
  function Insert(x: Entry, s: seq<Entry>, le: (Entry, Entry) -> bool): (r: seq<Entry>)
    ensures multiset(r) == multiset(s) + multiset{x}
    decreases |s|
  {
    if s == [] then [x]
    else if le(s[|s| - 1], x) then
      assert s == s[..|s| - 1] + [s[|s| - 1]];
      s + [x]
    else
      assert s == s[..|s| - 1] + [s[|s| - 1]];
      Insert(x, s[..|s| - 1], le) + [s[|s| - 1]]
  }

  lemma {:induction false} InsertSorted(x: Entry, s: seq<Entry>, le: (Entry, Entry) -> bool)
    requires TotalPreorder(le) && SortedBy(s, le)
    ensures SortedBy(Insert(x, s, le), le)
    decreases |s|
  {
    if s != [] {
      var last := s[|s| - 1];
      var init := s[..|s| - 1];
      if !le(last, x) {
        InsertSorted(x, init, le);
        var r := Insert(x, init, le);
        forall i | 0 <= i < |r| ensures le(r[i], last) {
          assert r[i] in multiset(r);
          if r[i] != x {
            assert r[i] in init;
            var k :| 0 <= k < |init| && init[k] == r[i];
            assert s[k] == r[i];
          }
        }
      }
    }
  }

  /** `sorted(s, key=...)`: a stable sort of `s` by `le`; it keeps the
      entries (`SortBySorted` shows that it orders them). */
  function SortBy(s: seq<Entry>, le: (Entry, Entry) -> bool): (r: seq<Entry>)
    ensures multiset(r) == multiset(s)
    decreases |s|
  {
    if s == [] then []
    else
      assert s == s[..|s| - 1] + [s[|s| - 1]];
      Insert(s[|s| - 1], SortBy(s[..|s| - 1], le), le)
  }

  lemma {:induction false} SortBySorted(s: seq<Entry>, le: (Entry, Entry) -> bool)
    requires TotalPreorder(le)
    ensures SortedBy(SortBy(s, le), le)
    decreases |s|
  {
    if s != [] {
      SortBySorted(s[..|s| - 1], le);
      InsertSorted(s[|s| - 1], SortBy(s[..|s| - 1], le), le);
    }
  }

  /** `sorted(entries)`: by name. */
  function SortByName(s: seq<Entry>): (r: seq<Entry>)
    ensures multiset(r) == multiset(s)
  {
    SortBy(s, ByName)
  }

  lemma SortByNameSorted(s: seq<Entry>)
    ensures SortedBy(SortByName(s), ByName)
  {
    ByNameTotalPreorder();
    SortBySorted(s, ByName);
  }

  /** `sorted(grade_dirs, key=lambda x: int(x.name))`. */
  function SortByNumber(s: seq<Entry>): (r: seq<Entry>)
    ensures multiset(r) == multiset(s)
  {
    SortBy(s, ByNumber)
  }

  lemma SortByNumberSorted(s: seq<Entry>)
    ensures SortedBy(SortByNumber(s), ByNumber)
  {
    ByNumberTotalPreorder();
    SortBySorted(s, ByNumber);
  }

  // ---------------------------------------------------------------------
  // Listings
  // ---------------------------------------------------------------------

  /** `[p for p in s if keep(p)]`. */
  function Filter(s: seq<Entry>, keep: Entry -> bool): (r: seq<Entry>)
    ensures forall e :: e in r <==> e in s && keep(e)
    ensures |r| <= |s|
  {
    if s == [] then [] else (if keep(s[0]) then [s[0]] else []) + Filter(s[1..], keep)
  }

  /** A filter keeps each entry that passes as often as it occurs, and no
      other entry. */
  lemma {:induction false} FilterMultiset(s: seq<Entry>, keep: Entry -> bool)
    ensures forall e :: multiset(Filter(s, keep))[e] == if keep(e) then multiset(s)[e] else 0
  {
    if s != [] {
      FilterMultiset(s[1..], keep);
      assert s == [s[0]] + s[1..];
      assert multiset(s) == multiset([s[0]]) + multiset(s[1..]);
      var head := if keep(s[0]) then [s[0]] else [];
      assert multiset(Filter(s, keep)) == multiset(head) + multiset(Filter(s[1..], keep));
    }
  }

  /** A filter keeps the order of what it keeps. */
  lemma {:induction false} FilterSorted(s: seq<Entry>, keep: Entry -> bool, le: (Entry, Entry) -> bool)
    requires SortedBy(s, le)
    ensures SortedBy(Filter(s, keep), le)
  {
    if s != [] {
      var tail := s[1..];
      FilterSorted(tail, keep, le);
      var r := Filter(s, keep);
      var r' := Filter(tail, keep);
      if keep(s[0]) {
        forall i, j | 0 <= i < j < |r| ensures le(r[i], r[j]) {
          assert r[j] == r'[j - 1] && r'[j - 1] in r';
          if i == 0 {
            var k :| 0 <= k < |tail| && tail[k] == r[j];
            assert s[k + 1] == r[j];
          } else {
            assert r[i] == r'[i - 1];
          }
        }
      } else {
        assert r == r';
      }
    }
  }

  predicate IsDir(e: Entry) { e.Dir? }

  /** `p.is_file() and p.suffix.lower() == ".html"`. */
  predicate IsHtmlFile(e: Entry) { e.File? && Names.IsHtmlName(e.name) }

  /** `d.is_dir() and d.name.isdigit()`. */
  predicate IsGradeDir(e: Entry) { e.Dir? && Names.IsDigitName(e.name) }

  /** `[p for p in entries if p.is_dir()]`. */
  function SubDirs(s: seq<Entry>): seq<Entry> { Filter(s, IsDir) }

  /** `find_html_files(path)`: the HTML files of a directory, in sorted-name
      order (`FindHtmlFilesSorted`). */
  function FindHtmlFiles(dir: seq<Entry>): (r: seq<Entry>)
    ensures forall e :: e in r <==> e in dir && IsHtmlFile(e)
  {
    var sorted := SortByName(dir);
    assert forall e :: e in sorted <==> e in multiset(sorted);
    Filter(sorted, IsHtmlFile)
  }

  /** Each HTML file of the folder is listed as often as the folder holds
      it, and nothing else is listed. */
  lemma FindHtmlFilesMultiset(dir: seq<Entry>)
    ensures forall e :: multiset(FindHtmlFiles(dir))[e] == if IsHtmlFile(e) then multiset(dir)[e] else 0
  {
    FilterMultiset(SortByName(dir), IsHtmlFile);
  }

  lemma FindHtmlFilesSorted(dir: seq<Entry>)
    ensures SortedBy(FindHtmlFiles(dir), ByName)
  {
    SortByNameSorted(dir);
    FilterSorted(SortByName(dir), IsHtmlFile, ByName);
  }

  /** `[d for d in root.iterdir() if d.is_dir() and d.name.isdigit()]`. */
  function GradeDirs(s: seq<Entry>): seq<Entry> { Filter(s, IsGradeDir) }

  /** An entry that is a file. */
  type FileEntry = e: Entry | e.File? witness File("", 0)

  predicate AllDirs(s: seq<Entry>) { forall i :: 0 <= i < |s| ==> s[i].Dir? }

  /** `find_html_files`, typed as a listing of files. The ensures only
      gives the result its subset type; `FindHtmlFiles` states what it holds. */
  function HtmlFiles(dir: seq<Entry>): (r: seq<FileEntry>)
    ensures r == FindHtmlFiles(dir)
  {
    var r := FindHtmlFiles(dir);
    assert forall i :: 0 <= i < |r| ==> r[i] in r;
    r
  }

  /** `sorted(p for p in entries if p.is_dir())` lists folders only. */
  lemma SortedSubDirsAreDirs(s: seq<Entry>)
    ensures AllDirs(SortByName(SubDirs(s)))
  {
    var r := SortByName(SubDirs(s));
    forall i | 0 <= i < |r| ensures r[i].Dir? {
      assert r[i] in multiset(r);
      assert r[i] in SubDirs(s);
    }
  }
}
