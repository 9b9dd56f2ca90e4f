/** The string operations the dispatcher uses: substring containment
    (Python's `in`, and `re.search` with a pattern made of plain text),
    `str.split` on one separator character, and `str.replace` of one
    character by another. */
module Text {
  import opened Common

  predicate IsPrefix(pat: string, s: string)
  {
    |pat| <= |s| && s[..|pat|] == pat
  }

  /** `pat` occurs in `s` starting at position `i`. */
  predicate OccursAt(s: string, pat: string, i: int)
  {
    0 <= i && i + |pat| <= |s| && s[i..i + |pat|] == pat
  }

  /** `pat in s`, by scanning the start positions of `s` left to right. */
  function Contains(s: string, pat: string): bool
    decreases |s|
  {
    IsPrefix(pat, s) || (s != [] && Contains(s[1..], pat))
  }

  /** The scan finds `pat` exactly when `pat` occurs at some position of `s`. */
  lemma {:induction false} ContainsIff(s: string, pat: string)
    ensures Contains(s, pat) <==> exists i :: OccursAt(s, pat, i)
    decreases |s|
  {
    if IsPrefix(pat, s) {
      assert s[0..0 + |pat|] == pat;
      assert OccursAt(s, pat, 0);
    } else if s == [] {
    } else {
      var t := s[1..];
      ContainsIff(t, pat);
      if Contains(t, pat) {
        var i :| OccursAt(t, pat, i);
        assert s[i + 1..i + 1 + |pat|] == t[i..i + |pat|];
        assert OccursAt(s, pat, i + 1);
      }
      if exists i :: OccursAt(s, pat, i) {
        var i :| OccursAt(s, pat, i);
        assert i != 0 by { assert s[..|pat|] == s[0..0 + |pat|]; }
        assert t[i - 1..i - 1 + |pat|] == s[i..i + |pat|];
        assert OccursAt(t, pat, i - 1);
      }
    }
  }

  /** Every string contains itself, so a pattern equal to the text matches. */
  lemma ContainsSelf(s: string)
    ensures Contains(s, s)
  {
    assert IsPrefix(s, s);
  }

  /** Python's `s.split(sep)` for a one-character separator: the pieces
      between successive separators, always at least one. */
  function Split(s: string, sep: char): (pieces: seq<string>)
    ensures |pieces| >= 1
    ensures forall k :: 0 <= k < |pieces| ==> sep !in pieces[k]
    decreases |s|
  {
    if s == [] then [""]
    else
      var rest := Split(s[1..], sep);
      if s[0] == sep then [""] + rest
      else [[s[0]] + rest[0]] + rest[1..]
  }

  /** `sep.join(pieces)`, the inverse of `Split`. */
  function Join(pieces: seq<string>, sep: char): string
    requires |pieces| >= 1
    decreases |pieces|
  {
    if |pieces| == 1 then pieces[0] else pieces[0] + [sep] + Join(pieces[1..], sep)
  }

  /** Splitting loses nothing: joining the pieces gives the string back. */
  lemma {:induction false} JoinSplit(s: string, sep: char)
    ensures Join(Split(s, sep), sep) == s
    decreases |s|
  {
    if s != [] {
      var rest := Split(s[1..], sep);
      JoinSplit(s[1..], sep);
      if s[0] == sep {
        assert ([""] + rest)[1..] == rest;
      } else {
        var pieces := [[s[0]] + rest[0]] + rest[1..];
        if |rest| == 1 {
          assert pieces == [[s[0]] + rest[0]];
        } else {
          assert pieces[1..] == rest[1..];
          assert Join(rest, sep) == rest[0] + [sep] + Join(rest[1..], sep);
        }
      }
    }
  }

  /** There is a second piece exactly when the separator occurs. */
  lemma {:induction false} SplitHasSecond(s: string, sep: char)
    ensures |Split(s, sep)| >= 2 <==> sep in s
    decreases |s|
  {
    if s != [] {
      SplitHasSecond(s[1..], sep);
      assert s == [s[0]] + s[1..];
    }
  }

  /** `s.split(sep)[k]`: an IndexError when there are not enough pieces. */
  function Piece(s: string, sep: char, k: nat): (r: Result<string>)
    ensures r.Ok? <==> k < |Split(s, sep)|
    ensures r.Ok? ==> r.value == Split(s, sep)[k] && sep !in r.value
    ensures r.Err? ==> r.error == IndexErr
  {
    var pieces := Split(s, sep);
    if k < |pieces| then Ok(pieces[k]) else Err(IndexErr)
  }

  /** `s.replace(x, y)` for one-character strings `x` and `y`. */
  function ReplaceChar(s: string, x: char, y: char): (r: string)
    ensures |r| == |s|
    ensures forall i :: 0 <= i < |s| ==> r[i] == (if s[i] == x then y else s[i])
    decreases |s|
  {
    if s == [] then [] else [if s[0] == x then y else s[0]] + ReplaceChar(s[1..], x, y)
  }

  /** After the replacement no `x` is left, and nothing but `x` changed. */
  lemma ReplaceCharRemoves(s: string, x: char, y: char)
    requires x != y
    ensures x !in ReplaceChar(s, x, y)
    ensures forall i :: 0 <= i < |s| && s[i] != x ==> ReplaceChar(s, x, y)[i] == s[i]
  {
  }
}
