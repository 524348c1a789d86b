/**
 * Character-level helpers shared by the three browser forms: JavaScript's
 * `String.prototype.trim`, the whitespace class `\s`, and the unanchored
 * email test `/\S+@\S+\.\S+/.test(s)`.
 *
 * Whitespace is the ASCII part of JavaScript's `\s` (space, tab, line feed,
 * carriage return, vertical tab, form feed); the Unicode spaces are left out.
 */
module Text {

  predicate IsSpace(c: char) {
    c == ' ' || c == '\t' || c == '\n' || c == '\r' || c == '\U{000B}' || c == '\U{000C}'
  }

  /** Every character of s is whitespace (in particular, the empty string). */
  predicate IsBlank(s: string) {
    forall i :: 0 <= i < |s| ==> IsSpace(s[i])
  }

  /** s without its leading whitespace. */
  function TrimStart(s: string): (r: string)
    ensures |r| <= |s| && r == s[|s| - |r|..]
    ensures IsBlank(s[..|s| - |r|])
    ensures r == [] || !IsSpace(r[0])
  {
    if s == [] || !IsSpace(s[0]) then s else TrimStart(s[1..])
  }

  /** s without its trailing whitespace. */
  function TrimEnd(s: string): (r: string)
    ensures |r| <= |s| && r == s[..|r|]
    ensures IsBlank(s[|r|..])
    ensures r == [] || !IsSpace(r[|r| - 1])
  {
    if s == [] || !IsSpace(s[|s| - 1]) then s else TrimEnd(s[..|s| - 1])
  }

  /** `s.trim()`: whitespace cut off on both sides. */
  function Trim(s: string): (r: string)
    ensures |r| <= |s|
    ensures r == [] || (!IsSpace(r[0]) && !IsSpace(r[|r| - 1]))
  {
    TrimEnd(TrimStart(s))
  }

  /** What `trim()` keeps is a slice of s with nothing but whitespace cut off on either side. */
  lemma TrimCutsBlankEnds(s: string)
    ensures exists a, b :: 0 <= a <= b <= |s| && Trim(s) == s[a..b] && IsBlank(s[..a]) && IsBlank(s[b..])
  {
    var t := TrimStart(s);
    var r := TrimEnd(t);
    var a := |s| - |t|;
    DropThenSlice(s, a, |r|);
    assert Trim(s) == s[a..a + |r|] && IsBlank(s[..a]) && IsBlank(s[a + |r|..]);
  }

  /** Cutting a prefix of length a off s, then splitting what is left at n. */
  lemma DropThenSlice(s: string, a: nat, n: nat)
    requires a + n <= |s|
    ensures s[a..][..n] == s[a..a + n] && s[a..][n..] == s[a + n..]
  {
  }

  /** `!s.trim()` in JavaScript: the trimmed string is empty exactly when s is all whitespace. */
  lemma {:induction false} TrimEmptyIffBlank(s: string)
    ensures Trim(s) == [] <==> IsBlank(s)
  {
    var t := TrimStart(s);
    var r := TrimEnd(t);
    var k := |s| - |t|;
    if r == [] {
      assert t[|r|..] == t;
      assert s[..k] == s;
    } else {
      assert !IsSpace(r[0]) && r[0] == t[0] == s[k];
    }
  }

  /** A non-empty run s[i..j] of non-whitespace characters: what `\S+` matches. */
  ghost predicate NonSpaceRun(s: string, i: int, j: int) {
    0 <= i < j <= |s| && forall k :: i <= k < j ==> !IsSpace(s[k])
  }

  /**
   * `/\S+@\S+\.\S+/.test(s)`: some slice s[a..e] of s reads X@Y.Z with X, Y
   * and Z non-empty runs of non-whitespace.
   */
  ghost predicate EmailShaped(s: string) {
    exists a, at, dot, e :: Shaped(s, a, at, dot, e)
  }

  /** s[a..e] reads X@Y.Z, with the '@' at index `at` and the '.' at index `dot`. */
  ghost predicate Shaped(s: string, a: int, at: int, dot: int, e: int) {
    && NonSpaceRun(s, a, at) && at < |s| && s[at] == '@'
    && NonSpaceRun(s, at + 1, dot) && dot < |s| && s[dot] == '.'
    && NonSpaceRun(s, dot + 1, e)
  }

  /**
   * The shortest match: one character before the '@' at index `at`, the run
   * between '@' and the '.' at index `dot`, one character after the '.'.
   */
  ghost predicate MatchAt(s: string, at: int, dot: int) {
    && 0 < at && at + 1 < dot && dot + 1 < |s|
    && s[at] == '@' && s[dot] == '.'
    && !IsSpace(s[at - 1]) && !IsSpace(s[dot + 1])
    && forall k :: at < k < dot ==> !IsSpace(s[k])
  }

  lemma EmailShapedIffMatchAt(s: string)
    ensures EmailShaped(s) <==> exists at, dot :: MatchAt(s, at, dot)
  {
    if EmailShaped(s) {
      var a, at, dot, e :| Shaped(s, a, at, dot, e);
      assert MatchAt(s, at, dot);
    }
    if exists at, dot :: MatchAt(s, at, dot) {
      var at, dot :| MatchAt(s, at, dot);
      assert Shaped(s, at - 1, at, dot, dot + 2);
    }
  }

  /**
   * The left-to-right search the regular expression performs, written as one
   * pass: `start` is where the current whitespace-free word began and `at` the
   * first '@' of that word that has a character before it.
   */
  method MatchesEmail(s: string) returns (found: bool)
    ensures found <==> EmailShaped(s)
  {
    var start, at, i := 0, -1, 0;
    while i < |s|
      invariant 0 <= start <= i <= |s|
      invariant start > 0 ==> IsSpace(s[start - 1])
      invariant forall k :: start <= k < i ==> !IsSpace(s[k])
      invariant at == -1 || (start < at < i && s[at] == '@')
      invariant at == -1 ==> forall k :: start < k < i ==> s[k] != '@'
      invariant at != -1 ==> forall k :: start < k < at ==> s[k] != '@'
      invariant forall p, q :: MatchAt(s, p, q) ==> i <= q
    {
      if IsSpace(s[i]) {
        start, at := i + 1, -1;
      } else if s[i] == '@' && at == -1 && start < i {
        at := i;
      } else if s[i] == '.' && at != -1 && at + 2 <= i && i + 1 < |s| && !IsSpace(s[i + 1]) {
        assert MatchAt(s, at, i);
        EmailShapedIffMatchAt(s);
        return true;
      }
      i := i + 1;
    }
    EmailShapedIffMatchAt(s);
    return false;
  }
}
