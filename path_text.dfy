/**
 * Text operations over path strings, as the sprite-sheet cache uses them:
 * `str::split(..).last()`, `str::split(..).next()`, `str::replace`, and the
 * parts of `std::path::Path` (`file_name`, `extension`) it relies on,
 * for Unix-style paths separated by '/'.
 */
module PathText {
  import opened Wrappers

  /** The position of the last `c` among the first `end` characters of
      `s`, or -1 when there is none. */
  function LastIndex(s: string, c: char, end: nat): (r: int)
    requires end <= |s|
    ensures -1 <= r < end
    ensures r >= 0 ==> s[r] == c
    ensures forall j | r < j < end :: s[j] != c
    decreases end
  {
    if end == 0 then -1
    else if s[end - 1] == c then end - 1
    else LastIndex(s, c, end - 1)
  }

  /** The position of the first `c` in `s` at or after `start`, or `|s|`
      when there is none. */
  function FirstIndex(s: string, c: char, start: nat): (r: nat)
    requires start <= |s|
    ensures start <= r <= |s|
    ensures r < |s| ==> s[r] == c
    ensures forall j | start <= j < r :: s[j] != c
    decreases |s| - start
  {
    if start == |s| then |s|
    else if s[start] == c then start
    else FirstIndex(s, c, start + 1)
  }

  /** A `c` at `k` with none after it, up to `end`, is the last one. */
  lemma LastIndexIs(s: string, c: char, end: nat, k: nat)
    requires k < end <= |s| && s[k] == c
    requires forall j | k < j < end :: s[j] != c
    ensures LastIndex(s, c, end) == k
  {
  }

  /** A `c` at `k` with none before it is the first one. */
  lemma FirstIndexIs(s: string, c: char, k: nat)
    requires k < |s| && s[k] == c
    requires forall j | 0 <= j < k :: s[j] != c
    ensures FirstIndex(s, c, 0) == k
  {
  }

  /** Without any `c`, the first-occurrence search runs to the end. */
  lemma FirstIndexNone(s: string, c: char)
    requires forall j | 0 <= j < |s| :: s[j] != c
    ensures FirstIndex(s, c, 0) == |s|
  {
  }

  /** The text after the last `c` in `s`, or all of `s` when `c` does not
      occur: the last piece of `s.split(c)`, which always exists. */
  function AfterLast(s: string, c: char): string
  {
    s[LastIndex(s, c, |s|) + 1..]
  }

  /** The text before the first `c` in `s`, or all of `s` when `c` does not
      occur: the first piece of `s.split(c)`, which always exists. */
  function BeforeFirst(s: string, c: char): string
  {
    s[..FirstIndex(s, c, 0)]
  }

  /** Regrouping a concatenation of three pieces. */
  lemma ConcatAssoc(a: string, b: string, c: string)
    ensures a + b + c == a + (b + c)
    ensures a + "" == a && "" + a == a
  {
  }

  /** Whether `pat` occurs in `s` starting at index `i`. */
  predicate OccursAt(s: string, pat: string, i: int)
  {
    0 <= i && i + |pat| <= |s| && s[i..i + |pat|] == pat
  }

  /** `s.replace(pat, rep)` for a non-empty pattern: every non-overlapping
      occurrence of `pat`, found scanning left to right, is replaced by `rep`. */
  function ReplaceAll(s: string, pat: string, rep: string): (r: string)
    requires pat != ""
    ensures rep == pat ==> r == s
    ensures |rep| == |pat| ==> |r| == |s|
    decreases |s|
  {
    if |s| < |pat| then s
    else if s[..|pat|] == pat then rep + ReplaceAll(s[|pat|..], pat, rep)
    else [s[0]] + ReplaceAll(s[1..], pat, rep)
  }

  /** Whether no occurrence of `pat` starts anywhere in `x`. */
  predicate NoOccurrence(x: string, pat: string)
  {
    forall j | 0 <= j < |x| :: !OccursAt(x, pat, j)
  }

  /** Splitting off the first character of a non-empty text. */
  lemma FirstRegroup(x: string, u: string, v: string)
    requires x != []
    ensures (x + u + v)[1..] == x[1..] + u + v
    ensures [x[0]] + (x[1..] + u + v) == x + u + v
    ensures [x[0]] + x[1..] == x
  {
  }

  /** Text without any occurrence of the pattern is left as it is. */
  lemma {:induction false} ReplaceAllWithoutOccurrence(s: string, pat: string, rep: string)
    requires pat != "" && NoOccurrence(s, pat)
    ensures ReplaceAll(s, pat, rep) == s
    decreases |s|
  {
    if |s| >= |pat| {
      assert !OccursAt(s, pat, 0);
      NoOccurrenceInSuffix(s, 1, pat);
      ReplaceAllWithoutOccurrence(s[1..], pat, rep);
      FirstRegroup(s, [], []);
    }
  }

  /** Where `pat` does not start the text, its first character is kept. */
  lemma ReplaceAllMiss(s: string, pat: string, rep: string)
    requires pat != "" && s != [] && !OccursAt(s, pat, 0)
    ensures ReplaceAll(s, pat, rep) == [s[0]] + ReplaceAll(s[1..], pat, rep)
  {
  }

  /** An occurrence that cannot start inside `x`, whose first character
      does not recur in `pat`, cannot start at the front of `x + pat + y`. */
  lemma NoOccurrenceAtFront(x: string, y: string, pat: string)
    requires pat != "" && x != [] && NoOccurrence(x, pat)
    requires forall j | 1 <= j < |pat| :: pat[j] != pat[0]
    ensures !OccursAt(x + pat + y, pat, 0)
  {
    var s := x + pat + y;
    if |pat| <= |x| {
      assert !OccursAt(x, pat, 0);
      assert s[..|pat|] == x[..|pat|];
    } else {
      assert s[..|pat|][|x|] == pat[0];
    }
  }

  /**
   * Every occurrence is replaced, not only the last: when no occurrence
   * starts in `x` and the first character of `pat` does not recur in it,
   * the `pat` after `x` is replaced and the rest is replaced on its own.
   */
  lemma {:induction false} ReplaceAllSplits(x: string, y: string, pat: string, rep: string)
    requires pat != "" && NoOccurrence(x, pat)
    requires forall j | 1 <= j < |pat| :: pat[j] != pat[0]
    ensures ReplaceAll(x + pat + y, pat, rep) == x + rep + ReplaceAll(y, pat, rep)
    decreases |x|
  {
    var s := x + pat + y;
    if x == [] {
      assert s[..|pat|] == pat;
      assert s[|pat|..] == y;
    } else {
      NoOccurrenceAtFront(x, y, pat);
      ReplaceAllMiss(s, pat, rep);
      NoOccurrenceInSuffix(x, 1, pat);
      ReplaceAllSplits(x[1..], y, pat, rep);
      FirstRegroup(x, pat, y);
      FirstRegroup(x, rep, ReplaceAll(y, pat, rep));
    }
  }

  /** A character other than the first of `pat`, put in front of text
      without an occurrence, does not create one. */
  lemma NoOccurrencePrepend(c: char, x: string, pat: string)
    requires pat != "" && c != pat[0] && NoOccurrence(x, pat)
    ensures NoOccurrence([c] + x, pat)
  {
    var s := [c] + x;
    forall j | 0 <= j < |s| ensures !OccursAt(s, pat, j) {
      if j == 0 {
        if |pat| <= |s| {
          assert s[..|pat|][0] == c;
        }
      } else {
        assert !OccursAt(x, pat, j - 1);
        if j + |pat| <= |s| {
          assert s[j..j + |pat|] == x[j - 1..j - 1 + |pat|];
        }
      }
    }
  }

  /** The same, when the pattern ends the text. */
  lemma ReplaceAllFinal(x: string, pat: string, rep: string)
    requires pat != "" && NoOccurrence(x, pat)
    requires forall j | 1 <= j < |pat| :: pat[j] != pat[0]
    ensures ReplaceAll(x + pat, pat, rep) == x + rep
  {
    ReplaceAllSplits(x, "", pat, rep);
    assert x + pat + "" == x + pat;
    assert ReplaceAll("", pat, rep) == "";
    assert x + rep + "" == x + rep;
  }

  /** No occurrence in `x` means none in any suffix of `x`. */
  lemma NoOccurrenceInSuffix(x: string, d: nat, pat: string)
    requires d <= |x| && NoOccurrence(x, pat)
    ensures NoOccurrence(x[d..], pat)
  {
    forall j | 0 <= j < |x| - d ensures !OccursAt(x[d..], pat, j) {
      assert !OccursAt(x, pat, j + d);
      if j + |pat| <= |x| - d {
        assert x[d..][j..j + |pat|] == x[j + d..j + d + |pat|];
      }
    }
  }

  /** ASCII lower-casing of one character. */
  function LowerChar(c: char): char
  {
    if 'A' <= c <= 'Z' then (c as int + 32) as char else c
  }

  /** `s.to_lowercase()` restricted to ASCII letters. */
  function Lower(s: string): (r: string)
    ensures |r| == |s|
    ensures forall i :: 0 <= i < |s| ==> r[i] == LowerChar(s[i])
  {
    seq(|s|, i requires 0 <= i < |s| => LowerChar(s[i]))
  }

  /** Where `path[..end]` ends once trailing separators and trailing "."
      components, which `Path::file_name` skips, are removed. */
  function TrimmedEnd(path: string, end: nat): (e: nat)
    requires end <= |path|
    ensures e <= end
    decreases end
  {
    var slash := LastIndex(path, '/', end);
    if slash >= 0 && (slash + 1 == end || (slash + 2 == end && path[slash + 1] == '.')) then TrimmedEnd(path, slash)
    else end
  }

  /** The names "." and "..": one or two characters, all of them '.'. */
  predicate DotName(x: string)
  {
    1 <= |x| <= 2 && x[0] == '.' && x[|x| - 1] == '.'
  }

  /** The file name that `path[..end]` has when nothing is left to trim:
      its last '/'-piece, unless that is empty, "." or "..". */
  function NameAt(path: string, end: nat): (r: Option<string>)
    requires end <= |path|
    ensures r.Some? ==> r.value != [] && !DotName(r.value)
  {
    var last := path[LastIndex(path, '/', end) + 1..end];
    if last == [] || DotName(last) then None else Some(last)
  }

  /**
   * `Path::file_name` for a '/'-separated path: the last component once
   * trailing empty and "." components are skipped; an empty last
   * component, a "." and a ".." have no file name.
   */
  function FileName(path: string): (r: Option<string>)
    ensures r.Some? ==> r.value != [] && !DotName(r.value)
  {
    NameAt(path, TrimmedEnd(path, |path|))
  }

  /** A path whose last '/'-piece is non-empty and does not end in '.' has
      nothing to trim. */
  lemma NothingToTrim(path: string)
    requires LastIndex(path, '/', |path|) + 1 < |path| && path[|path| - 1] != '.'
    ensures TrimmedEnd(path, |path|) == |path|
  {
  }

  /** A non-empty suffix that does not end in '.' is neither "." nor "..". */
  lemma SuffixIsName(path: string, a: nat)
    requires a < |path| && path[|path| - 1] != '.'
    ensures path[a..] != [] && !DotName(path[a..])
  {
    var last := path[a..];
    assert last[|last| - 1] == path[|path| - 1];
  }

  /** With nothing to trim, a last '/'-piece that is not empty and does
      not end in '.' is the name. */
  lemma NameAtLastPiece(path: string)
    requires LastIndex(path, '/', |path|) + 1 < |path| && path[|path| - 1] != '.'
    ensures NameAt(path, |path|) == Some(AfterLast(path, '/'))
  {
    var a := LastIndex(path, '/', |path|) + 1;
    SuffixIsName(path, a);
    SliceToEnd(path, a);
  }

  /** A last '/'-piece that is not empty and does not end in '.' is the
      file name. */
  lemma FileNameOfLastPiece(path: string)
    requires LastIndex(path, '/', |path|) + 1 < |path| && path[|path| - 1] != '.'
    ensures FileName(path) == Some(AfterLast(path, '/'))
  {
    NothingToTrim(path);
    NameAtLastPiece(path);
  }

  /** A slice up to the length is the suffix. */
  lemma SliceToEnd(s: string, a: nat)
    requires a <= |s|
    ensures s[a..|s|] == s[a..]
  {
  }

  /**
   * `Path::extension` applied to a file name: the text after its last '.',
   * except that a name without a '.', a name whose only '.' is its first
   * character (a hidden file), and ".." have no extension.
   */
  function Extension(file: string): (r: Option<string>)
    ensures r.Some? ==> |r.value| + 1 < |file| && r.value == file[|file| - |r.value|..]
    ensures r.Some? ==> file[|file| - |r.value| - 1] == '.'
    ensures r.Some? ==> forall j | 0 <= j < |r.value| :: r.value[j] != '.'
  {
    var dot := LastIndex(file, '.', |file|);
    if file == ".." || dot <= 0 then None else Some(file[dot + 1..])
  }
}
