/** String operations the parser borrows from Python: substring search, `str.split`, `str.strip`,
    and the character classes `[0-9]` and `\s` of its regular expressions. Strings are `seq<char>`;
    the byte/unicode distinction of Python 2 plays no part. */
module Text {
  import opened Wrappers

  /** `[0-9]` */
  predicate IsDigit(c: char) {
    '0' <= c <= '9'
  }

  /** `\s` of a Python 2 regular expression compiled without the UNICODE flag, which is also the
      set of characters `strip()` removes from a byte string. */
  predicate IsSpace(c: char) {
    c == ' ' || c == '\t' || c == '\n' || c == '\r' || c == '\U{0B}' || c == '\U{0C}'
  }

  predicate IsPrefix(p: string, s: string) {
    |p| <= |s| && s[..|p|] == p
  }

  /** `sep` occurs in `s` starting at position `i`. */
  predicate OccursAt(s: string, sep: string, i: int) {
    0 <= i && i + |sep| <= |s| && s[i..i + |sep|] == sep
  }

  /** `s.find(sep, from)`: the first occurrence of `sep` at or after `from`. */
  function Find(s: string, sep: string, from: nat): (r: Option<nat>)
    decreases |s| - from
    ensures r.Some? ==> from <= r.value && OccursAt(s, sep, r.value)
    ensures forall i :: from <= i && OccursAt(s, sep, i) ==> r.Some? && r.value <= i
  {
    if from + |sep| > |s| then None
    else if s[from..from + |sep|] == sep then Some(from)
    else Find(s, sep, from + 1)
  }

  /** Python's `sep in s`. */
  predicate Contains(s: string, sep: string) {
    Find(s, sep, 0).Some?
  }

  /** The last occurrence of `sep` in `s` that starts before position `below`. */
  function FindLast(s: string, sep: string, below: nat): (r: Option<nat>)
    decreases below
    ensures r.Some? ==> r.value < below && OccursAt(s, sep, r.value)
    ensures forall i :: 0 <= i < below && OccursAt(s, sep, i) ==> r.Some? && i <= r.value
  {
    if below == 0 then None
    else if OccursAt(s, sep, below - 1) then Some(below - 1)
    else FindLast(s, sep, below - 1)
  }

  /** `s.split(sep)[1]`: the text after the first occurrence of `sep`, up to the next occurrence
      (searched from the end of the first one) or the end of `s`. */
  function SecondPiece(s: string, sep: string): (r: string)
    requires |sep| > 0 && Contains(s, sep)
    ensures !Contains(r, sep)
    ensures var i := Find(s, sep, 0).value;
      && IsPrefix(r, s[i + |sep|..])
      && (i + |sep| + |r| == |s| || OccursAt(s, sep, i + |sep| + |r|))
  {
    var i := Find(s, sep, 0).value;
    var rest := s[i + |sep|..];
    match Find(rest, sep, 0)
    case Some(j) => PieceBeforeNext(s, sep, i + |sep|, j); rest[..j]
    case None => rest
  }

  /** The text from position `b` up to the next occurrence of `sep`, which starts `j` characters
      later, holds no `sep`, and the occurrence does start there. */
  lemma PieceBeforeNext(s: string, sep: string, b: nat, j: nat)
    requires |sep| > 0 && b <= |s| && Find(s[b..], sep, 0) == Some(j)
    ensures !Contains(s[b..][..j], sep) && OccursAt(s, sep, b + j)
  {
    NoSepBeforeFirst(s[b..], sep, j);
    OccursShifted(s, sep, b, j);
  }

  /** An occurrence in a suffix of `s` is an occurrence in `s`, shifted. */
  lemma OccursShifted(s: string, sep: string, b: nat, j: nat)
    requires b <= |s| && OccursAt(s[b..], sep, j)
    ensures OccursAt(s, sep, b + j)
  {
    assert s[b + j..b + j + |sep|] == s[b..][j..j + |sep|];
  }

  /** The text before the first occurrence of `sep` holds no `sep`. */
  lemma NoSepBeforeFirst(rest: string, sep: string, j: nat)
    requires |sep| > 0 && Find(rest, sep, 0) == Some(j)
    ensures !Contains(rest[..j], sep) && OccursAt(rest, sep, j)
  {
    var r := rest[..j];
    if Contains(r, sep) {
      var k := Find(r, sep, 0).value;
      assert r[k..k + |sep|] == rest[k..k + |sep|];
      assert OccursAt(rest, sep, k);
    }
  }

  /** The text before the first line break (what `.` in a regular expression can run over). */
  function FirstLine(s: string): (r: string)
    ensures IsPrefix(r, s) && '\n' !in r
    ensures |r| < |s| ==> s[|r|] == '\n'
  {
    match Find(s, "\n", 0)
    case Some(j) =>
      assert '\n' !in s[..j] by {
        forall k | 0 <= k < j ensures s[k] != '\n' {
          assert s[k..k + 1] == [s[k]];
          assert s[k] == '\n' ==> OccursAt(s, "\n", k);
        }
      }
      s[..j]
    case None =>
      assert '\n' !in s by {
        forall k | 0 <= k < |s| ensures s[k] != '\n' {
          assert s[k..k + 1] == [s[k]];
          assert s[k] == '\n' ==> OccursAt(s, "\n", k);
        }
      }
      s
  }

  /** The end of the run of `\s` characters that starts at `i` (a greedy `\s*`). */
  function SkipSpaces(s: string, i: nat): (j: nat)
    requires i <= |s|
    decreases |s| - i
    ensures i <= j <= |s|
    ensures forall k | i <= k < j :: IsSpace(s[k])
    ensures j < |s| ==> !IsSpace(s[j])
  {
    if i < |s| && IsSpace(s[i]) then SkipSpaces(s, i + 1) else i
  }

  /** The end of the run of `c` characters that starts at `i` (a greedy `c*`). */
  function SkipRun(s: string, c: char, i: nat): (j: nat)
    requires i <= |s|
    decreases |s| - i
    ensures i <= j <= |s|
    ensures forall k | i <= k < j :: s[k] == c
    ensures j < |s| ==> s[j] != c
  {
    if i < |s| && s[i] == c then SkipRun(s, c, i + 1) else i
  }

  /** The first position at or after `i` holding `c`, or `|s|` (where a greedy `[^c]*` stops). */
  function IndexOfChar(s: string, c: char, i: nat): (j: nat)
    requires i <= |s|
    decreases |s| - i
    ensures i <= j <= |s|
    ensures forall k | i <= k < j :: s[k] != c
    ensures j < |s| ==> s[j] == c
  {
    if i < |s| && s[i] != c then IndexOfChar(s, c, i + 1) else i
  }

  /** `s.lstrip()` */
  function StripStart(s: string): (r: string)
    ensures |r| <= |s| && r == s[|s| - |r|..]
    ensures forall k | 0 <= k < |s| - |r| :: IsSpace(s[k])
    ensures |r| > 0 ==> !IsSpace(r[0])
  {
    if |s| > 0 && IsSpace(s[0]) then StripStart(s[1..]) else s
  }

  /** `s.rstrip()` */
  function StripEnd(s: string): (r: string)
    ensures IsPrefix(r, s)
    ensures forall k | |r| <= k < |s| :: IsSpace(s[k])
    ensures |r| > 0 ==> !IsSpace(r[|r| - 1])
  {
    if |s| > 0 && IsSpace(s[|s| - 1]) then StripEnd(s[..|s| - 1]) else s
  }

  /** `s.strip()` */
  function Strip(s: string): (r: string)
    ensures |r| > 0 ==> !IsSpace(r[0]) && !IsSpace(r[|r| - 1])
  {
    StripEnd(StripStart(s))
  }

  /** A separator whose first character does not occur in `s` is not found in it. */
  lemma {:induction false} FindAbsent(s: string, sep: string, from: nat)
    requires |sep| > 0 && sep[0] !in s
    ensures Find(s, sep, from) == None
    decreases |s| - from
  {
    if from + |sep| <= |s| {
      assert s[from..from + |sep|][0] == s[from];
      FindAbsent(s, sep, from + 1);
    }
  }

  /** The second piece of a text whose first separator follows `before`, and which does not
      contain the separator again, is everything after that separator. */
  lemma SecondPieceAfter(before: string, sep: string, rest: string)
    requires |sep| > 0 && Find(before + sep + rest, sep, 0) == Some(|before|) && !Contains(rest, sep)
    ensures Contains(before + sep + rest, sep) && SecondPiece(before + sep + rest, sep) == rest
  {
    var s := before + sep + rest;
    assert s[|before| + |sep|..] == rest;
  }

  /** The second piece of a text that opens with the separator and does not contain it again. */
  lemma SecondPieceOfLeading(sep: string, rest: string)
    requires |sep| > 0 && !Contains(rest, sep)
    ensures Contains(sep + rest, sep) && SecondPiece(sep + rest, sep) == rest
  {
    var s := sep + rest;
    assert s[0..|sep|] == sep;
    assert [] + sep + rest == s;
    SecondPieceAfter([], sep, rest);
  }

  /** A text that neither starts nor ends with whitespace is its own strip. */
  lemma StripUnchanged(s: string)
    requires |s| > 0 && !IsSpace(s[0]) && !IsSpace(s[|s| - 1])
    ensures Strip(s) == s
  {
  }
}
