/**
 * The parts of java.lang.Character and java.lang.String the core relies on, restricted to
 * ASCII: character classes, case folding, trimming, prefix tests and single-character split.
 */
module JavaText {

  /** Character.isWhitespace on ASCII: TAB, LF, VT, FF, CR, the four separators 0x1C-0x1F, SPACE. */
  predicate IsWhitespace(c: char) {
    ('\t' <= c <= '\r') || ('\U{1C}' <= c <= ' ')
  }

  /** Character.isLetter on ASCII. */
  predicate IsLetter(c: char) {
    ('a' <= c <= 'z') || ('A' <= c <= 'Z')
  }

  /** Character.isDigit on ASCII. */
  predicate IsDigit(c: char) {
    '0' <= c <= '9'
  }

  predicate IsLetterOrDigit(c: char) {
    IsLetter(c) || IsDigit(c)
  }

  function LowerChar(c: char): (r: char)
    ensures IsLetter(c) <==> IsLetter(r) && ('a' <= c <= 'z' || c == (r as int - 32) as char)
    ensures !IsLetter(c) ==> r == c
  {
    if 'A' <= c <= 'Z' then (c as int + 32) as char else c
  }

  /** String.toLowerCase on ASCII. */
  function ToLower(s: string): (r: string)
    ensures |r| == |s|
    ensures forall i :: 0 <= i < |s| ==> r[i] == LowerChar(s[i])
  {
    if s == [] then [] else [LowerChar(s[0])] + ToLower(s[1..])
  }

  /** String.equalsIgnoreCase on ASCII. */
  predicate EqualsIgnoreCase(a: string, b: string) {
    ToLower(a) == ToLower(b)
  }

  predicate StartsWith(s: string, prefix: string) {
    |prefix| <= |s| && s[..|prefix|] == prefix
  }

  predicate EndsWith(s: string, suffix: string) {
    |suffix| <= |s| && s[|s| - |suffix|..] == suffix
  }

  /** String.indexOf(char): the first index of `c`, or -1. */
  function IndexOf(s: string, c: char): (r: int)
    ensures -1 <= r < |s|
    ensures r == -1 <==> c !in s
    ensures r >= 0 ==> s[r] == c && c !in s[..r]
  {
    if s == [] then -1
    else if s[0] == c then 0
    else
      var k := IndexOf(s[1..], c);
      if k == -1 then -1
      else
        assert s[..k + 1] == [s[0]] + s[1..][..k];
        k + 1
  }

  /** String.trim: drops every leading and trailing character at or below U+0020. */
  function Trim(s: string): (r: string)
    ensures |r| <= |s|
    ensures r != [] ==> ' ' < r[0] && ' ' < r[|r| - 1]
  {
    TrimEnd(TrimStart(s))
  }

  function TrimStart(s: string): (r: string)
    ensures |r| <= |s|
    ensures r != [] ==> ' ' < r[0] && r[|r| - 1] == s[|s| - 1]
  {
    if s == [] || ' ' < s[0] then s else TrimStart(s[1..])
  }

  function TrimEnd(s: string): (r: string)
    ensures |r| <= |s|
    ensures r != [] ==> ' ' < r[|r| - 1] && r[0] == s[0]
  {
    if s == [] || ' ' < s[|s| - 1] then s else TrimEnd(s[..|s| - 1])
  }

  /** String.replace of one character by nothing. */
  function RemoveChar(s: string, c: char): (r: string)
    ensures c !in r
    ensures forall x :: x in r <==> x in s && x != c
  {
    if s == [] then [] else (if s[0] == c then [] else [s[0]]) + RemoveChar(s[1..], c)
  }

  /** The pieces of `s` between occurrences of `d`, empty pieces included. */
  function SplitAll(s: string, d: char): (r: seq<string>)
    ensures |r| >= 1
    ensures forall i :: 0 <= i < |r| ==> d !in r[i]
  {
    if s == [] then [""]
    else
      var rest := SplitAll(s[1..], d);
      if s[0] == d then [""] + rest else [[s[0]] + rest[0]] + rest[1..]
  }

  /** The first piece is the text before the first `d`; the rest are the pieces after it. */
  lemma {:induction false} SplitAllHead(s: string, d: char)
    ensures d !in s ==> SplitAll(s, d) == [s]
    ensures d in s ==> var j := IndexOf(s, d);
      SplitAll(s, d) == [s[..j]] + SplitAll(s[j + 1..], d)
  {
    if s != [] && s[0] != d {
      SplitAllHead(s[1..], d);
      if d in s {
        assert d in s[1..];
        var j := IndexOf(s[1..], d);
        assert IndexOf(s, d) == j + 1;
        assert s[..j + 1] == [s[0]] + s[1..][..j];
        assert s[j + 2..] == s[1..][j + 1..];
      } else {
        assert [s[0]] + s[1..] == s;
      }
    }
  }

  /** The pieces separated by `d` again: the inverse of SplitAll. */
  function Join(pieces: seq<string>, d: char): string
  {
    if pieces == [] then ""
    else if |pieces| == 1 then pieces[0]
    else pieces[0] + [d] + Join(pieces[1..], d)
  }

  lemma {:induction false} JoinSplitAll(s: string, d: char)
    ensures Join(SplitAll(s, d), d) == s
  {
    if s != [] {
      var rest := SplitAll(s[1..], d);
      JoinSplitAll(s[1..], d);
      if s[0] == d {
        assert SplitAll(s, d) == [""] + rest;
        assert ([""] + rest)[1..] == rest;
      } else {
        var r := [[s[0]] + rest[0]] + rest[1..];
        assert SplitAll(s, d) == r;
        if |rest| == 1 {
          assert Join(r, d) == [s[0]] + rest[0] == [s[0]] + Join(rest, d);
        } else {
          assert r[1..] == rest[1..];
          assert Join(r, d) == [s[0]] + rest[0] + [d] + Join(rest[1..], d);
          assert Join(rest, d) == rest[0] + [d] + Join(rest[1..], d);
        }
        assert [s[0]] + s[1..] == s;
      }
    }
  }

  function DropTrailingEmpty(pieces: seq<string>): (r: seq<string>)
    ensures |r| <= |pieces| && r == pieces[..|r|]
    ensures r == [] || r[|r| - 1] != ""
    ensures forall i :: |r| <= i < |pieces| ==> pieces[i] == ""
  {
    if pieces == [] || pieces[|pieces| - 1] != "" then pieces
    else DropTrailingEmpty(pieces[..|pieces| - 1])
  }

  /**
   * String.split with a one-character, non-special delimiter and no limit: a string without
   * the delimiter gives itself; otherwise the pieces, less the trailing empty ones.
   */
  function Split(s: string, d: char): (r: seq<string>)
    ensures forall i :: 0 <= i < |r| ==> d !in r[i]
    ensures d !in s ==> r == [s]
    ensures d in s ==> r == [] || r[|r| - 1] != ""
  {
    if d !in s then [s]
    else DropTrailingEmpty(SplitAll(s, d))
  }

  /** Pieces free of `d` with a non-empty last one come back from Split(Join(pieces, d), d). */
  lemma SplitJoin(pieces: seq<string>, d: char)
    requires pieces != [] && pieces[|pieces| - 1] != ""
    requires forall i :: 0 <= i < |pieces| ==> d !in pieces[i]
    ensures Split(Join(pieces, d), d) == pieces
  {
    SplitAllJoin(pieces, d);
    if |pieces| > 1 {
      assert Join(pieces, d) == pieces[0] + [d] + Join(pieces[1..], d);
      assert Join(pieces, d)[|pieces[0]|] == d;
    } else {
      assert Join(pieces, d) == pieces[0];
    }
  }

  lemma {:induction false} SplitAllJoin(pieces: seq<string>, d: char)
    requires pieces != []
    requires forall i :: 0 <= i < |pieces| ==> d !in pieces[i]
    ensures SplitAll(Join(pieces, d), d) == pieces
  {
    if |pieces| == 1 {
      SplitAllFree(pieces[0], d);
    } else {
      SplitAllJoin(pieces[1..], d);
      SplitAllCons(pieces[0], d, Join(pieces[1..], d));
      assert [pieces[0]] + pieces[1..] == pieces;
    }
  }

  /** A string free of `d` is one piece. */
  lemma {:induction false} SplitAllFree(a: string, d: char)
    requires d !in a
    ensures SplitAll(a, d) == [a]
  {
    if a != [] {
      SplitAllFree(a[1..], d);
      assert [a[0]] + a[1..] == a;
    }
  }

  /** A first piece free of `d`, then `d`, then the rest. */
  lemma {:induction false} SplitAllCons(a: string, d: char, rest: string)
    requires d !in a
    ensures SplitAll(a + [d] + rest, d) == [a] + SplitAll(rest, d)
  {
    if a == [] {
      assert a + [d] + rest == [d] + rest;
      assert ([d] + rest)[1..] == rest;
    } else {
      var s := a + [d] + rest;
      assert s[0] == a[0] && s[1..] == a[1..] + [d] + rest;
      SplitAllCons(a[1..], d, rest);
      assert [a[0]] + a[1..] == a;
    }
  }

  /**
   * Split loses only delimiters at the end: joining its pieces again gives a prefix of `s`,
   * and what follows is delimiters only.
   */
  lemma SplitLosesTrailingDelimiters(s: string, d: char)
    ensures var j := Join(Split(s, d), d);
      |j| <= |s| && s[..|j|] == j && forall i :: |j| <= i < |s| ==> s[i] == d
  {
    var all := SplitAll(s, d);
    JoinSplitAll(s, d);
    if d in s {
      var k := |DropTrailingEmpty(all)|;
      JoinDropped(all, k, d);
    }
  }

  lemma {:induction false} JoinDropped(ps: seq<string>, k: nat, d: char)
    requires k <= |ps|
    requires forall i :: k <= i < |ps| ==> ps[i] == ""
    ensures var j, t := Join(ps[..k], d), Join(ps, d);
      |j| <= |t| && t[..|j|] == j && forall i :: |j| <= i < |t| ==> t[i] == d
  {
    if k == 0 {
      JoinEmpties(ps, d);
    } else if |ps| > 1 {
      assert ps[..k][0] == ps[0];
      assert ps[1..][..k - 1] == ps[..k][1..];
      JoinDropped(ps[1..], k - 1, d);
      var t := Join(ps, d);
      assert t == ps[0] + [d] + Join(ps[1..], d);
      if k > 1 {
        assert Join(ps[..k], d) == ps[0] + [d] + Join(ps[1..][..k - 1], d);
      } else {
        assert Join(ps[..k], d) == ps[0];
        JoinEmpties(ps[1..], d);
      }
    } else {
      assert ps[..k] == ps;
    }
  }

  lemma {:induction false} JoinEmpties(ps: seq<string>, d: char)
    requires forall i :: 0 <= i < |ps| ==> ps[i] == ""
    ensures forall i :: 0 <= i < |Join(ps, d)| ==> Join(ps, d)[i] == d
  {
    if |ps| > 1 {
      JoinEmpties(ps[1..], d);
      assert Join(ps, d) == [d] + Join(ps[1..], d);
    }
  }
}
