/**
 * Name helpers of the seeding commands
 * (content/management/commands/seed_all_grades.py and seed_grade10.py):
 * the two subject-code normalisers, the first-number extraction, the title
 * derived from a folder name, and pathlib's suffix and stem of a file name.
 *
 * Digits are the ASCII digits; see README.md for the Unicode digits that
 * Python's `\d`, `str.isdigit` and `int` also accept.
 */
module Names {
  import opened Wrappers

  predicate IsDigit(c: char) { '0' <= c <= '9' }
  predicate IsUpper(c: char) { 'A' <= c <= 'Z' }
  predicate IsLower(c: char) { 'a' <= c <= 'z' }

  /** The class `[0-9A-Za-z]` of the normalisers' regular expression. */
  predicate IsAlnum(c: char) { IsDigit(c) || IsUpper(c) || IsLower(c) }

  predicate IsSep(c: char) { c == '_' }

  /** The characters a normalised code is made of. */
  predicate IsCodeChar(c: char) { IsDigit(c) || IsLower(c) || c == '_' }

  predicate NoDoubleSep(s: string) {
    forall i :: 0 <= i < |s| - 1 ==> !(s[i] == '_' && s[i + 1] == '_')
  }

  /** A code as the normaliser produces it: lowercase letters, digits and
      single `_` separators, with no separator at either end. */
  predicate IsCode(s: string) {
    && (forall i :: 0 <= i < |s| ==> IsCodeChar(s[i]))
    && NoDoubleSep(s)
    && (|s| > 0 ==> s[0] != '_' && s[|s| - 1] != '_')
  }

  /** The letters and digits of `s`, in order. */
  function Alnums(s: string): string {
    if s == [] then [] else (if IsAlnum(s[0]) then [s[0]] else []) + Alnums(s[1..])
  }

  lemma {:induction false} AlnumsAppend(a: string, b: string)
    ensures Alnums(a + b) == Alnums(a) + Alnums(b)
  {
    if a == [] {
      assert a + b == b;
    } else {
      var head := if IsAlnum(a[0]) then [a[0]] else [];
      assert (a + b)[0] == a[0] && (a + b)[1..] == a[1..] + b;
      assert Alnums(a + b) == head + Alnums(a[1..] + b);
      AlnumsAppend(a[1..], b);
      assert Alnums(a) == head + Alnums(a[1..]);
    }
  }

  /** A string whose characters all fail `IsAlnum` has no letters or digits. */
  lemma {:induction false} AlnumsNone(s: string)
    requires forall i :: 0 <= i < |s| ==> !IsAlnum(s[i])
    ensures Alnums(s) == []
  {
    if s != [] {
      AlnumsNone(s[1..]);
    }
  }

  // ---------------------------------------------------------------------
  // normalize_code
  // ---------------------------------------------------------------------

  /** Skips the leading characters that are not letters or digits. */
  function DropNonAlnum(s: string): (r: string)
    ensures |r| <= |s| && r == s[|s| - |r|..]
    ensures r == [] || IsAlnum(r[0])
    ensures Alnums(r) == Alnums(s)
  {
    if s != [] && !IsAlnum(s[0]) then DropNonAlnum(s[1..]) else s
  }

  /** `re.sub(r"[^0-9A-Za-z]+", "_", s)`: every maximal run of characters
      that are not letters or digits becomes a single `_`. */
  function ReplaceNonAlnumRuns(s: string): (r: string)
    ensures forall i :: 0 <= i < |r| ==> IsAlnum(r[i]) || r[i] == '_'
    ensures NoDoubleSep(r)
    ensures s != [] && IsAlnum(s[0]) ==> r != [] && r[0] == s[0]
    ensures Alnums(r) == Alnums(s)
    decreases |s|
  {
    if s == [] then []
    else if IsAlnum(s[0]) then
      var rest := ReplaceNonAlnumRuns(s[1..]);
      assert ([s[0]] + rest)[1..] == rest;
      [s[0]] + rest
    else
      var rest := ReplaceNonAlnumRuns(DropNonAlnum(s[1..]));
      assert ("_" + rest)[1..] == rest;
      "_" + rest
  }

  function LowerChar(c: char): char {
    if IsUpper(c) then (c as int + 32) as char else c
  }

  /** ASCII `str.lower()`. In `normalize_code` it only ever sees ASCII
      letters, digits and `_`, for which this is Python's lowering. */
  function Lower(s: string): string {
    seq(|s|, i requires 0 <= i < |s| => LowerChar(s[i]))
  }

  lemma {:induction false} AlnumsLower(s: string)
    ensures Alnums(Lower(s)) == Lower(Alnums(s))
  {
    if s != [] {
      assert Lower(s) == [LowerChar(s[0])] + Lower(s[1..]);
      AlnumsLower(s[1..]);
      if IsAlnum(s[0]) {
        assert Lower(Alnums(s)) == [LowerChar(s[0])] + Lower(Alnums(s[1..]));
      }
    }
  }

  /** Skips the leading `_` characters. */
  function DropSeps(s: string): (r: string)
    ensures |r| <= |s| && r == s[|s| - |r|..]
    ensures r == [] || r[0] != '_'
  {
    if s != [] && s[0] == '_' then DropSeps(s[1..]) else s
  }

  /** `re.sub(r"_+", "_", s)`. */
  function CollapseSeps(s: string): string
    decreases |s|
  {
    if s == [] then []
    else if s[0] == '_' then "_" + CollapseSeps(DropSeps(s[1..]))
    else [s[0]] + CollapseSeps(s[1..])
  }

  lemma {:induction false} CollapseSepsFixes(s: string)
    requires NoDoubleSep(s)
    ensures CollapseSeps(s) == s
    decreases |s|
  {
    if s != [] {
      assert NoDoubleSep(s[1..]);
      if s[0] == '_' {
        assert DropSeps(s[1..]) == s[1..];
      }
      CollapseSepsFixes(s[1..]);
    }
  }

  /** Drops the leading characters satisfying `drop`. */
  function TrimStart(s: string, drop: char -> bool): (r: string)
    ensures |r| <= |s| && r == s[|s| - |r|..]
    ensures r == [] || !drop(r[0])
    ensures forall k :: 0 <= k < |s| - |r| ==> drop(s[k])
    decreases |s|
  {
    if s != [] && drop(s[0]) then
      var r := TrimStart(s[1..], drop);
      assert forall k :: 1 <= k < |s| - |r| ==> s[k] == s[1..][k - 1];
      r
    else s
  }

  /** Drops the trailing characters satisfying `drop`. */
  function TrimEnd(s: string, drop: char -> bool): (r: string)
    ensures |r| <= |s| && r == s[..|r|]
    ensures r == [] || !drop(r[|r| - 1])
    ensures forall k :: |r| <= k < |s| ==> drop(s[k])
    decreases |s|
  {
    if s != [] && drop(s[|s| - 1]) then TrimEnd(s[..|s| - 1], drop) else s
  }

  /** Python's `str.strip`, for the characters `drop` selects. */
  function Strip(s: string, drop: char -> bool): string {
    TrimEnd(TrimStart(s, drop), drop)
  }

  /** `Strip(s, IsSep)` is a slice of `s` whose removed ends are all `_`. */
  lemma StripSepSlice(s: string)
    ensures StripLo(s) <= StripHi(s) <= |s| && Strip(s, IsSep) == s[StripLo(s)..StripHi(s)]
    ensures forall k :: 0 <= k < StripLo(s) ==> s[k] == '_'
    ensures forall k :: StripHi(s) <= k < |s| ==> s[k] == '_'
  {
    StripSlice(s, IsSep);
  }

  function StripLo(s: string): nat { |s| - |TrimStart(s, IsSep)| }
  function StripHi(s: string): nat { StripLo(s) + |Strip(s, IsSep)| }

  /** Lowering the output of `ReplaceNonAlnumRuns` leaves the separators
      where they were and yields only code characters. */
  lemma LowerOfReplaced(r: string)
    requires forall i :: 0 <= i < |r| ==> IsAlnum(r[i]) || r[i] == '_'
    requires NoDoubleSep(r)
    ensures forall i :: 0 <= i < |Lower(r)| ==> IsCodeChar(Lower(r)[i])
    ensures NoDoubleSep(Lower(r))
  {
    var l := Lower(r);
    assert forall i :: 0 <= i < |l| ==> (l[i] == '_' <==> r[i] == '_');
  }

  /** Stripping the separators off a string of code characters without
      doubled separators leaves a well-formed code. */
  lemma StripCode(l: string)
    requires forall i :: 0 <= i < |l| ==> IsCodeChar(l[i])
    requires NoDoubleSep(l)
    ensures IsCode(Strip(l, IsSep))
  {
    StripSepSlice(l);
    var code := Strip(l, IsSep);
    assert forall i :: 0 <= i < |code| ==> code[i] == l[StripLo(l) + i];
  }

  /** `normalize_code` (seed_all_grades.py): replace the runs of characters
      outside `[0-9A-Za-z]` by `_`, lowercase, collapse `_` runs, strip `_`.
      The result is always a well-formed code. */
  function NormalizeCode(name: string): (code: string)
    ensures IsCode(code)
  {
    var l := Lower(ReplaceNonAlnumRuns(name));
    LowerOfReplaced(ReplaceNonAlnumRuns(name));
    CollapseSepsFixes(l);
    StripCode(l);
    Strip(CollapseSeps(l), IsSep)
  }

  lemma TrimStartSepAlnums(l: string)
    ensures Alnums(TrimStart(l, IsSep)) == Alnums(l)
  {
    var t := TrimStart(l, IsSep);
    var d := l[..|l| - |t|];
    assert l == d + t;
    forall k | 0 <= k < |d| ensures !IsAlnum(d[k]) {
      assert d[k] == l[k] && IsSep(l[k]);
    }
    AlnumsNone(d);
    AlnumsAppend(d, t);
  }

  lemma TrimEndSepAlnums(l: string)
    ensures Alnums(TrimEnd(l, IsSep)) == Alnums(l)
  {
    var t := TrimEnd(l, IsSep);
    var d := l[|t|..];
    assert l == t + d;
    forall k | 0 <= k < |d| ensures !IsAlnum(d[k]) {
      assert d[k] == l[|t| + k] && IsSep(l[|t| + k]);
    }
    AlnumsNone(d);
    AlnumsAppend(t, d);
  }

  /** Stripping `_` from the ends keeps the letters and digits. */
  lemma StripSepAlnums(l: string)
    ensures Alnums(Strip(l, IsSep)) == Alnums(l)
  {
    TrimStartSepAlnums(l);
    TrimEndSepAlnums(TrimStart(l, IsSep));
  }

  /** The letters and digits of the name survive, lowercased and in order:
      only separators are added or removed. */
  lemma NormalizeCodeKeepsAlnums(name: string)
    ensures Alnums(NormalizeCode(name)) == Lower(Alnums(name))
  {
    var r := ReplaceNonAlnumRuns(name);
    var l := Lower(r);
    LowerOfReplaced(r);
    CollapseSepsFixes(l);
    assert NormalizeCode(name) == Strip(l, IsSep);
    StripSepAlnums(l);
    AlnumsLower(r);
  }

  /** The code is empty exactly when the name has no letter or digit
      (so `""` maps to `""`). */
  lemma NormalizeCodeEmpty(name: string)
    ensures NormalizeCode(name) == [] <==> Alnums(name) == []
  {
    var code := NormalizeCode(name);
    NormalizeCodeKeepsAlnums(name);
    assert |Lower(Alnums(name))| == |Alnums(name)|;
    if code != [] {
      assert IsAlnum(code[0]);
      assert Alnums(code) == [code[0]] + Alnums(code[1..]);
    }
  }

  lemma {:induction false} ReplaceFixesCode(s: string)
    requires forall i :: 0 <= i < |s| ==> IsAlnum(s[i]) || s[i] == '_'
    requires NoDoubleSep(s)
    ensures ReplaceNonAlnumRuns(s) == s
    decreases |s|
  {
    if s != [] {
      if IsAlnum(s[0]) {
        assert NoDoubleSep(s[1..]);
        ReplaceFixesCode(s[1..]);
      } else {
        assert s[1..] == [] || IsAlnum(s[1]);
        assert DropNonAlnum(s[1..]) == s[1..];
        assert NoDoubleSep(s[1..]);
        ReplaceFixesCode(s[1..]);
      }
    }
  }

  /** One more step of `DropNonAlnum` past a string that ends in a letter
      or digit: what follows is kept as it is. */
  lemma {:induction false} DropNonAlnumAppend(x: string, y: string)
    requires x != [] && IsAlnum(x[|x| - 1])
    ensures DropNonAlnum(x + y) == DropNonAlnum(x) + y
    ensures DropNonAlnum(x) != [] && DropNonAlnum(x)[|DropNonAlnum(x)| - 1] == x[|x| - 1]
    decreases |x|
  {
    if !IsAlnum(x[0]) {
      assert (x + y)[1..] == x[1..] + y;
      DropNonAlnumAppend(x[1..], y);
    }
  }

  /** A run of characters that are not letters or digits is skipped up to
      the letter or digit that follows it. */
  lemma {:induction false} DropNonAlnumRun(d: string, b: string)
    requires forall i :: 0 <= i < |d| ==> !IsAlnum(d[i])
    requires b == [] || IsAlnum(b[0])
    ensures DropNonAlnum(d + b) == b
    decreases |d|
  {
    if d == [] {
      assert d + b == b;
    } else {
      assert (d + b)[1..] == d[1..] + b;
      DropNonAlnumRun(d[1..], b);
    }
  }

  /** A word of letters and digits is left as it is. */
  lemma ReplaceWord(w: string)
    requires forall i :: 0 <= i < |w| ==> IsAlnum(w[i])
    ensures ReplaceNonAlnumRuns(w) == w
  {
    ReplaceFixesCode(w);
  }

  lemma ReplaceAlnumHead(c: char, x: string)
    requires IsAlnum(c)
    ensures ReplaceNonAlnumRuns([c] + x) == [c] + ReplaceNonAlnumRuns(x)
  {
    assert ([c] + x)[1..] == x;
  }

  lemma ReplaceOtherHead(x: string)
    requires x != [] && !IsAlnum(x[0])
    ensures ReplaceNonAlnumRuns(x) == "_" + ReplaceNonAlnumRuns(DropNonAlnum(x[1..]))
  {
  }

  /** Sequence facts used below, each proved in an empty context. */
  lemma TailOfAppend(x: string, y: string)
    requires x != []
    ensures (x + y)[1..] == x[1..] + y
  {
  }

  lemma AppendAssoc(x: string, y: string, z: string)
    ensures x + (y + z) == x + y + z
  {
  }

  lemma HeadTail(x: string)
    requires x != []
    ensures x == [x[0]] + x[1..]
  {
  }

  /** `ReplaceSplit` past a leading letter or digit. */
  lemma SplitAlnumStep(a: string, d: string, b: string)
    requires a != [] && IsAlnum(a[0])
    requires ReplaceNonAlnumRuns(a[1..] + d + b) == ReplaceNonAlnumRuns(a[1..]) + "_" + ReplaceNonAlnumRuns(b)
    ensures ReplaceNonAlnumRuns(a + d + b) == ReplaceNonAlnumRuns(a) + "_" + ReplaceNonAlnumRuns(b)
  {
    var tail := a[1..];
    HeadTail(a);
    AppendAssoc(a, d, b);
    AppendAssoc(tail, d, b);
    AppendAssoc([a[0]], tail, d + b);
    ReplaceAlnumHead(a[0], tail + d + b);
    ReplaceAlnumHead(a[0], tail);
    var rt := ReplaceNonAlnumRuns(tail);
    var rb := ReplaceNonAlnumRuns(b);
    AppendAssoc([a[0]], rt + "_", rb);
    AppendAssoc([a[0]], rt, "_");
  }

  /** `ReplaceSplit` past a leading run that is not letters or digits. */
  lemma SplitOtherStep(a: string, d: string, b: string, a': string)
    requires a != [] && !IsAlnum(a[0]) && a' == DropNonAlnum(a[1..])
    requires DropNonAlnum(a[1..] + (d + b)) == a' + (d + b)
    requires ReplaceNonAlnumRuns(a' + d + b) == ReplaceNonAlnumRuns(a') + "_" + ReplaceNonAlnumRuns(b)
    ensures ReplaceNonAlnumRuns(a + d + b) == ReplaceNonAlnumRuns(a) + "_" + ReplaceNonAlnumRuns(b)
  {
    AppendAssoc(a, d, b);
    TailOfAppend(a, d + b);
    AppendAssoc(a', d, b);
    ReplaceOtherHead(a + d + b);
    ReplaceOtherHead(a);
    var ra := ReplaceNonAlnumRuns(a');
    var rb := ReplaceNonAlnumRuns(b);
    AppendAssoc("_", ra + "_", rb);
    AppendAssoc("_", ra, "_");
  }

  /** `ReplaceSplit` when nothing comes before the run. */
  lemma SplitEmptyHead(d: string, b: string)
    requires d != [] && forall i :: 0 <= i < |d| ==> !IsAlnum(d[i])
    requires b == [] || IsAlnum(b[0])
    ensures ReplaceNonAlnumRuns(d + b) == "_" + ReplaceNonAlnumRuns(b)
  {
    ReplaceOtherHead(d + b);
    TailOfAppend(d, b);
    DropNonAlnumRun(d[1..], b);
  }

  /** What `DropNonAlnum` leaves of the tail of a string that starts with a
      non-alphanumeric character and ends with an alphanumeric one. */
  lemma OtherHeadTail(a: string, y: string)
    requires a != [] && !IsAlnum(a[0]) && IsAlnum(a[|a| - 1])
    ensures var a' := DropNonAlnum(a[1..]);
      && a' != [] && IsAlnum(a'[|a'| - 1]) && |a'| < |a|
      && DropNonAlnum(a[1..] + y) == a' + y
  {
    var tail := a[1..];
    assert |a| >= 2 && tail[|tail| - 1] == a[|a| - 1];
    DropNonAlnumAppend(tail, y);
  }

  lemma TailEndsAlnum(a: string)
    requires a != [] && IsAlnum(a[|a| - 1])
    ensures a[1..] == [] || IsAlnum(a[1..][|a[1..]| - 1])
  {
  }

  /** Where the `_` goes: a maximal run `d` of characters that are not
      letters or digits, between `a` and `b`, becomes exactly one `_` between
      the replaced `a` and the replaced `b`. */
  lemma {:induction false} ReplaceSplit(a: string, d: string, b: string)
    requires a == [] || IsAlnum(a[|a| - 1])
    requires d != [] && forall i :: 0 <= i < |d| ==> !IsAlnum(d[i])
    requires b == [] || IsAlnum(b[0])
    ensures ReplaceNonAlnumRuns(a + d + b) == ReplaceNonAlnumRuns(a) + "_" + ReplaceNonAlnumRuns(b)
    decreases |a|
  {
    if a == [] {
      assert a + d + b == d + b;
      SplitEmptyHead(d, b);
    } else if IsAlnum(a[0]) {
      TailEndsAlnum(a);
      ReplaceSplit(a[1..], d, b);
      SplitAlnumStep(a, d, b);
    } else {
      OtherHeadTail(a, d + b);
      var a' := DropNonAlnum(a[1..]);
      ReplaceSplit(a', d, b);
      SplitOtherStep(a, d, b, a');
    }
  }

  lemma LowerFixesCode(s: string)
    requires forall i :: 0 <= i < |s| ==> IsCodeChar(s[i])
    ensures Lower(s) == s
  {
  }

  lemma StripFixesCode(s: string)
    requires IsCode(s)
    ensures Strip(s, IsSep) == s
  {
    assert TrimStart(s, IsSep) == s;
    assert TrimEnd(s, IsSep) == s;
  }

  /** A code is its own normal form. */
  lemma NormalizeCodeFixesCodes(s: string)
    requires IsCode(s)
    ensures NormalizeCode(s) == s
  {
    ReplaceFixesCode(s);
    LowerFixesCode(s);
    CollapseSepsFixes(s);
    StripFixesCode(s);
  }

  /** `normalize_code` is idempotent. */
  lemma NormalizeCodeIdempotent(name: string)
    ensures NormalizeCode(NormalizeCode(name)) == NormalizeCode(name)
  {
    NormalizeCodeFixesCodes(NormalizeCode(name));
  }

  // ---------------------------------------------------------------------
  // normalize_subject_code (seed_grade10.py)
  // ---------------------------------------------------------------------

  /** Length of the run of digits at the end of `s`. */
  function TrailingDigits(s: string): (n: nat)
    ensures n <= |s|
    ensures forall k :: |s| - n <= k < |s| ==> IsDigit(s[k])
    ensures n == |s| || !IsDigit(s[|s| - n - 1])
    decreases |s|
  {
    if s != [] && IsDigit(s[|s| - 1]) then 1 + TrailingDigits(s[..|s| - 1]) else 0
  }

  /** `re.sub(r"_(\d+)$", r"\1", s)`: drops the `_` standing just before a
      trailing run of digits. Only the maximal trailing run can follow a
      `_`, so at most one match exists. */
  function DropSepBeforeTrailingDigits(s: string): string {
    var n := TrailingDigits(s);
    if 0 < n < |s| && s[|s| - n - 1] == '_' then s[..|s| - n - 1] + s[|s| - n..] else s
  }

  /** Dropping that separator keeps a well-formed code. */
  lemma DropSepKeepsCode(c: string)
    requires IsCode(c)
    ensures IsCode(DropSepBeforeTrailingDigits(c))
  {
    var n := TrailingDigits(c);
    if 0 < n < |c| && c[|c| - n - 1] == '_' {
      var m := |c| - n - 1;
      var code := c[..m] + c[m + 1..];
      assert m > 0;
      assert forall i :: 0 <= i < |code| ==> code[i] == (if i < m then c[i] else c[i + 1]);
      assert IsDigit(c[m + 1]);
    }
  }

  /** Dropping that separator keeps the letters and digits. */
  lemma DropSepKeepsAlnums(c: string)
    ensures Alnums(DropSepBeforeTrailingDigits(c)) == Alnums(c)
  {
    var n := TrailingDigits(c);
    if 0 < n < |c| && c[|c| - n - 1] == '_' {
      var m := |c| - n - 1;
      assert c == c[..m] + "_" + c[m + 1..];
      AlnumsAppend(c[..m] + "_", c[m + 1..]);
      AlnumsAppend(c[..m], "_");
      AlnumsAppend(c[..m], c[m + 1..]);
      assert Alnums("_") == [];
    }
  }

  /** When `s` ends in `_` and `n` digits, that `_` is removed and nothing
      else changes. */
  lemma DropSepEffect(s: string, n: nat)
    requires 0 < n < |s| && s[|s| - n - 1] == '_'
    requires forall k :: |s| - n <= k < |s| ==> IsDigit(s[k])
    ensures DropSepBeforeTrailingDigits(s) == s[..|s| - n - 1] + s[|s| - n..]
  {
    var m := TrailingDigits(s);
    if m != n {
      assert false;
    }
  }

  /** When `s` does not end in `_` followed by digits (every `_` has a
      non-digit somewhere after it), it is left as it is. */
  lemma DropSepNoMatch(s: string)
    requires forall j :: 0 <= j < |s| && s[j] == '_' ==> exists k :: j < k < |s| && !IsDigit(s[k])
    ensures DropSepBeforeTrailingDigits(s) == s
  {
    var m := TrailingDigits(s);
    if 0 < m < |s| && s[|s| - m - 1] == '_' {
      assert false;
    }
  }

  /** `normalize_subject_code`: `normalize_code`, then the `_` before a
      trailing number is dropped (`Biology_1` becomes `biology1`). The result
      is still a well-formed code with the same letters and digits. */
  function NormalizeSubjectCode(name: string): (code: string)
    ensures IsCode(code)
    ensures Alnums(code) == Alnums(NormalizeCode(name))
  {
    DropSepKeepsCode(NormalizeCode(name));
    DropSepKeepsAlnums(NormalizeCode(name));
    DropSepBeforeTrailingDigits(NormalizeCode(name))
  }

  lemma LowerAppend(x: string, y: string)
    ensures Lower(x + y) == Lower(x) + Lower(y)
  {
  }

  /** When the replaced and lowered name is already a code, collapsing and
      stripping change nothing. */
  lemma NormalizeOfCode(name: string)
    requires IsCode(Lower(ReplaceNonAlnumRuns(name)))
    ensures NormalizeCode(name) == Lower(ReplaceNonAlnumRuns(name))
  {
    var l := Lower(ReplaceNonAlnumRuns(name));
    CollapseSepsFixes(l);
    StripFixesCode(l);
  }

  /** Two lowered words joined by one `_` form a code. */
  lemma JoinedWordsCode(w: string, v: string)
    requires w != [] && forall i :: 0 <= i < |w| ==> IsAlnum(w[i])
    requires v != [] && forall i :: 0 <= i < |v| ==> IsAlnum(v[i])
    ensures IsCode(Lower(w) + "_" + Lower(v))
  {
    var l := Lower(w) + "_" + Lower(v);
    assert forall i :: 0 <= i < |l| ==> (l[i] == '_' <==> i == |w|);
  }

  /** Two words of letters and digits with a run of other characters
      between them normalise to the lowered words joined by one `_`. */
  lemma NormalizeTwoWords(w: string, d: string, v: string)
    requires w != [] && forall i :: 0 <= i < |w| ==> IsAlnum(w[i])
    requires d != [] && forall i :: 0 <= i < |d| ==> !IsAlnum(d[i])
    requires v != [] && forall i :: 0 <= i < |v| ==> IsAlnum(v[i])
    ensures NormalizeCode(w + d + v) == Lower(w) + "_" + Lower(v)
  {
    ReplaceWord(w);
    ReplaceWord(v);
    ReplaceSplit(w, d, v);
    LowerAppend(w + "_", v);
    LowerAppend(w, "_");
    assert Lower("_") == "_";
    JoinedWordsCode(w, v);
    NormalizeOfCode(w + d + v);
  }

  /** A subject folder named `<word>_<number>` has the code of the lowered
      word followed directly by the number: the `_` that `normalize_code`
      keeps is the one `normalize_subject_code` drops. */
  lemma SubjectCodeOfWordNumber(w: string, n: string)
    requires w != [] && forall i :: 0 <= i < |w| ==> IsAlnum(w[i])
    requires !IsDigit(w[|w| - 1])
    requires n != [] && forall i :: 0 <= i < |n| ==> IsDigit(n[i])
    ensures NormalizeCode(w + "_" + n) == Lower(w) + "_" + n
    ensures NormalizeSubjectCode(w + "_" + n) == Lower(w) + n
  {
    NormalizeTwoWords(w, "_", n);
    LowerFixesCode(n);
    var c := Lower(w) + "_" + n;
    assert c[|c| - |n| - 1] == '_';
    assert forall k :: |c| - |n| <= k < |c| ==> c[k] == n[k - |c| + |n|];
    DropSepEffect(c, |n|);
    assert c[..|c| - |n| - 1] == Lower(w) && c[|c| - |n|..] == n;
  }

  // ---------------------------------------------------------------------
  // extract_number
  // ---------------------------------------------------------------------

  /** Length of the run of digits at the start of `s`. */
  function DigitRun(s: string): (n: nat)
    ensures n <= |s|
    ensures forall k :: 0 <= k < n ==> IsDigit(s[k])
    ensures n == |s| || !IsDigit(s[n])
    decreases |s|
  {
    if s != [] && IsDigit(s[0]) then 1 + DigitRun(s[1..]) else 0
  }

  /** Index of the first digit of `s`, or `|s|` when it has none. */
  function FirstDigit(s: string): (i: nat)
    ensures i <= |s|
    ensures forall k :: 0 <= k < i ==> !IsDigit(s[k])
    ensures i < |s| ==> IsDigit(s[i])
    decreases |s|
  {
    if s == [] || IsDigit(s[0]) then 0 else 1 + FirstDigit(s[1..])
  }

  predicate AllDigits(d: string) {
    forall k :: 0 <= k < |d| ==> IsDigit(d[k])
  }

  /** `int(d)` for a string of ASCII digits (leading zeros allowed). */
  function DigitsValue(d: string): nat
    requires AllDigits(d)
    decreases |d|
  {
    if d == [] then 0 else 10 * DigitsValue(d[..|d| - 1]) + (d[|d| - 1] as int - '0' as int)
  }

  /** `s[i..j]` is the first maximal run of digits of `s`: what
      `re.search(r"(\d+)", s)` matches. */
  predicate FirstDigitRun(s: string, i: int, j: int) {
    && 0 <= i < j <= |s|
    && (forall k :: 0 <= k < i ==> !IsDigit(s[k]))
    && (forall k :: i <= k < j ==> IsDigit(s[k]))
    && (j == |s| || !IsDigit(s[j]))
  }

  /** The digits found at `FirstDigit(s)` form the one first maximal run. */
  lemma FirstRunAt(s: string, i: nat, n: nat)
    requires i == FirstDigit(s) < |s| && n == DigitRun(s[i..])
    ensures FirstDigitRun(s, i, i + n)
    ensures forall i', j' :: FirstDigitRun(s, i', j') ==> i' == i && j' == i + n
  {
    forall k | i <= k < i + n ensures IsDigit(s[k]) { assert s[k] == s[i..][k - i]; }
    if i + n < |s| { assert s[i..][n] == s[i + n]; }
    forall i', j' | FirstDigitRun(s, i', j') ensures i' == i && j' == i + n {
      assert IsDigit(s[i']) && IsDigit(s[i]);
      assert i' == i;
    }
  }

  /** `extract_number`: the value of the first maximal run of digits, and
      `None` exactly when the name has no digit. */
  function ExtractNumber(s: string): (r: Option<nat>)
    ensures r.None? <==> forall k :: 0 <= k < |s| ==> !IsDigit(s[k])
    ensures forall i, j :: FirstDigitRun(s, i, j) ==> r == Some(DigitsValue(s[i..j]))
  {
    var i := FirstDigit(s);
    if i == |s| then None
    else
      var n := DigitRun(s[i..]);
      FirstRunAt(s, i, n);
      Some(DigitsValue(s[i..i + n]))
  }

  /** `extract_number(s) or fallback`: the first number of the name, or
      `fallback` when there is none or it is zero. */
  function NumberOr(s: string, fallback: nat): (n: nat)
    ensures (forall k :: 0 <= k < |s| ==> !IsDigit(s[k])) ==> n == fallback
    ensures forall i, j :: FirstDigitRun(s, i, j) ==>
      n == (if DigitsValue(s[i..j]) == 0 then fallback else DigitsValue(s[i..j]))
    ensures fallback > 0 ==> n > 0
  {
    match ExtractNumber(s)
    case Some(v) => if v == 0 then fallback else v
    case None => fallback
  }

  /** `str.isdigit()` on an ASCII name: non-empty and all digits. */
  predicate IsDigitName(s: string) {
    |s| > 0 && AllDigits(s)
  }

  // ---------------------------------------------------------------------
  // Titles and file names
  // ---------------------------------------------------------------------

  /** The characters Python's `str.strip()` removes (`str.isspace`). */
  predicate IsSpace(c: char) {
    var n := c as int;
    || 9 <= n <= 13 || 28 <= n <= 32 || n == 0x85 || n == 0xa0 || n == 0x1680
    || 0x2000 <= n <= 0x200a || n == 0x2028 || n == 0x2029 || n == 0x202f
    || n == 0x205f || n == 0x3000
  }

  /** `name.replace("_", " ")`. */
  function SepToSpace(s: string): (r: string)
    ensures |r| == |s|
    ensures forall i :: 0 <= i < |r| ==> r[i] != '_'
  {
    seq(|s|, i requires 0 <= i < |s| => if s[i] == '_' then ' ' else s[i])
  }

  /** The title the scanners derive from a folder name:
      `name.replace("_", " ").strip()`; it has no `_` and no surrounding
      white space, and `TitleOfSlice` states which slice it is. */
  function TitleOf(name: string): (t: string)
    ensures forall i :: 0 <= i < |t| ==> t[i] != '_'
    ensures t != [] ==> !IsSpace(t[0]) && !IsSpace(t[|t| - 1])
  {
    var s := SepToSpace(name);
    StripEnds(s, IsSpace);
    StripSlice(s, IsSpace);
    Strip(s, IsSpace)
  }

  /** The title is exactly what `strip()` leaves of the name with `_`
      turned into spaces: the slice starting at `lo`, with only white space
      before it and after it. */
  lemma TitleOfSlice(name: string)
    ensures var s := SepToSpace(name); var t := TitleOf(name); var lo := |s| - |TrimStart(s, IsSpace)|;
      && lo + |t| <= |s| && t == s[lo..lo + |t|]
      && (forall k :: 0 <= k < lo ==> IsSpace(s[k]))
      && (forall k :: lo + |t| <= k < |s| ==> IsSpace(s[k]))
  {
    StripSlice(SepToSpace(name), IsSpace);
  }

  /** A stripped string neither starts nor ends with a dropped character. */
  lemma StripEnds(s: string, drop: char -> bool)
    ensures var t := Strip(s, drop); t != [] ==> !drop(t[0]) && !drop(t[|t| - 1])
  {
    var u := TrimStart(s, drop);
    var t := TrimEnd(u, drop);
    if t != [] {
      assert t == u[..|t|];
      assert t[0] == u[0];
    }
  }

  /** Stripping leaves the slice between a run of dropped characters at
      each end. */
  lemma StripSlice(s: string, drop: char -> bool)
    ensures var t := Strip(s, drop); var lo := |s| - |TrimStart(s, drop)|;
      && lo + |t| <= |s| && t == s[lo..lo + |t|]
      && (forall k :: 0 <= k < lo ==> drop(s[k]))
      && (forall k :: lo + |t| <= k < |s| ==> drop(s[k]))
  {
    var u := TrimStart(s, drop);
    var t := TrimEnd(u, drop);
    var lo := |s| - |u|;
    assert u == s[lo..];
    assert t == u[..|t|];
    forall k | 0 <= k < |t|
      ensures t[k] == s[lo + k]
    {
      assert t[k] == u[k];
    }
    assert t == s[lo..lo + |t|];
    forall k | lo + |t| <= k < |s|
      ensures drop(s[k])
    {
      assert s[k] == u[k - lo];
    }
  }

  /** Index of the last `.` of `s`, or -1 (`str.rfind(".")`). */
  function LastDot(s: string): (i: int)
    ensures -1 <= i < |s|
    ensures i >= 0 ==> s[i] == '.'
    ensures forall k :: i < k < |s| ==> s[k] != '.'
    decreases |s|
  {
    if s == [] then -1 else if s[|s| - 1] == '.' then |s| - 1 else LastDot(s[..|s| - 1])
  }

  /** pathlib's `PurePath.suffix` of a file name. */
  function Suffix(name: string): string {
    var i := LastDot(name);
    if 0 < i < |name| - 1 then name[i..] else ""
  }

  /** pathlib's `PurePath.stem` of a file name. */
  function Stem(name: string): string {
    var i := LastDot(name);
    if 0 < i < |name| - 1 then name[..i] else name
  }

  /** A name is its stem followed by its suffix; the suffix is empty or a
      `.` followed by at least one character and no further `.`, and a name
      with a suffix has a non-empty stem. */
  lemma NameParts(name: string)
    ensures Stem(name) + Suffix(name) == name
    ensures Suffix(name) == [] || (|Suffix(name)| > 1 && Suffix(name)[0] == '.')
    ensures forall k :: 0 < k < |Suffix(name)| ==> Suffix(name)[k] != '.'
    ensures Suffix(name) != [] ==> Stem(name) != []
  {
    var i := LastDot(name);
    if 0 < i < |name| - 1 {
      assert name[..i] + name[i..] == name;
    }
  }

  /** `path.suffix.lower() == ".html"`. */
  predicate IsHtmlName(name: string) {
    Lower(Suffix(name)) == ".html"
  }

  /** An HTML file's stem is its name without the five characters of the
      extension, and it is never empty (`.html` alone has no suffix). */
  lemma HtmlStem(name: string)
    requires IsHtmlName(name)
    ensures |name| > 5 && Stem(name) == name[..|name| - 5] && Stem(name) != []
    ensures Stem(name) + Suffix(name) == name
  {
    var i := LastDot(name);
    assert |Lower(Suffix(name))| == |Suffix(name)|;
  }
}
