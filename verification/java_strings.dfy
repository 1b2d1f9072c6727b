/** The `java.lang.String` operations the backend relies on, over `seq<char>`. */
module JavaStrings {

  /** Characters `String.trim` removes: every code point up to and including U+0020. */
  predicate IsTrimmed(c: char) {
    c <= ' '
  }

  /** Drops leading characters up to U+0020. */
  function TrimStart(s: string): (r: string)
    ensures |r| <= |s| && r == s[|s| - |r|..]
    ensures forall i :: 0 <= i < |s| - |r| ==> IsTrimmed(s[i])
    ensures |r| > 0 ==> !IsTrimmed(r[0])
  {
    if |s| > 0 && IsTrimmed(s[0]) then TrimStart(s[1..]) else s
  }

  /** Drops trailing characters up to U+0020. */
  function TrimEnd(s: string): (r: string)
    ensures |r| <= |s| && r == s[..|r|]
    ensures forall i :: |r| <= i < |s| ==> IsTrimmed(s[i])
    ensures |r| > 0 ==> !IsTrimmed(r[|r| - 1])
  {
    if |s| > 0 && IsTrimmed(s[|s| - 1]) then TrimEnd(s[..|s| - 1]) else s
  }

  /** `String.trim`: the inner slice of `s` left after blank characters are cut from both ends. */
  function Trim(s: string): (r: string)
    ensures |r| <= |s|
    ensures |r| > 0 ==> !IsTrimmed(r[0]) && !IsTrimmed(r[|r| - 1])
    ensures exists i, j ::
      && 0 <= i <= j <= |s| && r == s[i..j]
      && (forall k :: 0 <= k < i ==> IsTrimmed(s[k]))
      && (forall k :: j <= k < |s| ==> IsTrimmed(s[k]))
  {
    var t := TrimStart(s);
    var r := TrimEnd(t);
    PrefixOfSuffix(s, t, r, |s| - |t|);
    TrimCutsBlank(s, t, r, |s| - |t|);
    r
  }

  /** A prefix of a suffix is a slice. */
  lemma PrefixOfSuffix(s: string, t: string, r: string, i: nat)
    requires i <= |s| && t == s[i..] && |r| <= |t| && r == t[..|r|]
    ensures r == s[i..i + |r|]
  {
  }

  /** Everything `Trim` cuts off is blank. */
  lemma TrimCutsBlank(s: string, t: string, r: string, i: nat)
    requires t == TrimStart(s) && r == TrimEnd(t) && i == |s| - |t|
    ensures forall k :: 0 <= k < i ==> IsTrimmed(s[k])
    ensures forall k :: i + |r| <= k < |s| ==> IsTrimmed(s[k])
  {
    assert t == s[i..];
    assert forall k :: i <= k < |s| ==> s[k] == t[k - i];
  }

  /** `s.trim().isEmpty()`: every character is at most U+0020. */
  predicate IsBlank(s: string) {
    Trim(s) == []
  }

  lemma BlankIffAllTrimmed(s: string)
    ensures IsBlank(s) <==> forall i :: 0 <= i < |s| ==> IsTrimmed(s[i])
  {
  }

  /** A string with no blank character at either end is its own trim. */
  lemma TrimOfTrimmed(s: string)
    requires |s| > 0 ==> !IsTrimmed(s[0]) && !IsTrimmed(s[|s| - 1])
    ensures Trim(s) == s
  {
  }

  /** Blank characters in front are dropped by `TrimStart`. */
  lemma {:induction false} TrimStartPast(ws: string, s: string)
    requires forall k :: 0 <= k < |ws| ==> IsTrimmed(ws[k])
    requires |s| > 0 ==> !IsTrimmed(s[0])
    ensures TrimStart(ws + s) == TrimStart(s)
    decreases |ws|
  {
    if |ws| > 0 {
      assert (ws + s)[1..] == ws[1..] + s;
      TrimStartPast(ws[1..], s);
    } else {
      assert ws + s == s;
    }
  }

  /** Blank characters behind are dropped by `TrimEnd`. */
  lemma {:induction false} TrimEndPast(s: string, ws: string)
    requires forall k :: 0 <= k < |ws| ==> IsTrimmed(ws[k])
    requires |s| > 0 ==> !IsTrimmed(s[|s| - 1])
    ensures TrimEnd(s + ws) == TrimEnd(s)
    decreases |ws|
  {
    if |ws| > 0 {
      assert (s + ws)[..|s + ws| - 1] == s + ws[..|ws| - 1];
      TrimEndPast(s, ws[..|ws| - 1]);
    } else {
      assert s + ws == s;
    }
  }

  /** Blank characters on both sides of a string with non-blank ends are what `Trim` removes. */
  lemma TrimAround(ws1: string, s: string, ws2: string)
    requires forall k :: 0 <= k < |ws1| ==> IsTrimmed(ws1[k])
    requires forall k :: 0 <= k < |ws2| ==> IsTrimmed(ws2[k])
    requires |s| > 0 ==> !IsTrimmed(s[0]) && !IsTrimmed(s[|s| - 1])
    ensures Trim(ws1 + s + ws2) == s
  {
    if |s| == 0 {
      assert ws1 + s + ws2 == ws1 + ws2;
      BlankIffAllTrimmed(ws1 + ws2);
    } else {
      assert ws1 + s + ws2 == ws1 + (s + ws2);
      TrimStartPast(ws1, s + ws2);
      assert TrimStart(s + ws2) == s + ws2;
      TrimEndPast(s, ws2);
      TrimOfTrimmed(s);
    }
  }

  /** `a` is a contiguous piece of `b`. */
  ghost predicate SliceOf(a: string, b: string) {
    exists i, j :: 0 <= i <= j <= |b| && a == b[i..j]
  }

  /** `Trim` keeps a contiguous piece of its input. */
  lemma TrimIsSlice(s: string)
    ensures SliceOf(Trim(s), s)
  {
    var i, j :| 0 <= i <= j <= |s| && Trim(s) == s[i..j];
  }

  lemma SliceSelf(s: string)
    ensures SliceOf(s, s)
  {
    assert s == s[0..|s|];
  }

  lemma DropFront(s: string, n: nat)
    requires n <= |s|
    ensures SliceOf(s[n..], s)
  {
    assert s[n..] == s[n..|s|];
  }

  lemma DropBack(s: string, n: nat)
    requires n <= |s|
    ensures SliceOf(s[..|s| - n], s)
  {
    assert s[..|s| - n] == s[0..|s| - n];
  }

  /** A slice of a slice is a slice. */
  lemma SliceTrans(a: string, b: string, c: string)
    requires SliceOf(a, b) && SliceOf(b, c)
    ensures SliceOf(a, c)
  {
    var i, j :| 0 <= i <= j <= |b| && a == b[i..j];
    var i', j' :| 0 <= i' <= j' <= |c| && b == c[i'..j'];
    assert |a| == j - i;
    forall k | 0 <= k < |a|
      ensures a[k] == c[i' + i + k]
    {
      assert a[k] == b[i + k];
    }
    assert a == c[i' + i..i' + j];
  }

  /** `s.startsWith(p)`. */
  predicate StartsWith(s: string, p: string) {
    p <= s
  }

  /** A string whose first character differs from that of a non-empty `p` does not start with `p`. */
  lemma NotStartsWith(s: string, p: string)
    requires |s| > 0 && |p| > 0 && s[0] != p[0]
    ensures !StartsWith(s, p)
  {
  }

  /** `s.endsWith(p)`. */
  predicate EndsWith(s: string, p: string) {
    |p| <= |s| && s[|s| - |p|..] == p
  }

  /** `s.contains(t)`: some position of `s` starts a copy of `t`. */
  predicate Contains(s: string, t: string)
    decreases |s|
  {
    t <= s || (|s| > 0 && Contains(s[1..], t))
  }

  /** `t` occurs in `s` starting at index `i`. */
  predicate OccursAt(s: string, t: string, i: int) {
    0 <= i <= |s| - |t| && s[i..i + |t|] == t
  }

  /** `Contains` means: `t` occurs at some index of `s`. */
  lemma {:induction false} ContainsIff(s: string, t: string)
    ensures Contains(s, t) <==> exists i :: OccursAt(s, t, i)
    decreases |s|
  {
    if t <= s {
      assert OccursAt(s, t, 0);
    } else if |s| > 0 {
      ContainsIff(s[1..], t);
      if Contains(s[1..], t) {
        var i :| OccursAt(s[1..], t, i);
        assert s[i + 1..i + 1 + |t|] == s[1..][i..i + |t|];
        assert OccursAt(s, t, i + 1);
      }
      if exists i :: OccursAt(s, t, i) {
        var i :| OccursAt(s, t, i);
        if i > 0 {
          assert s[1..][i - 1..i - 1 + |t|] == s[i..i + |t|];
          assert OccursAt(s[1..], t, i - 1);
        }
      }
    }
  }

  /** A non-empty `t` is not contained in `s` when `s` lacks its first character or is shorter. */
  lemma {:induction false} NotContained(s: string, t: string)
    requires |t| > 0 && (t[0] !in s || |t| > |s|)
    ensures !Contains(s, t)
    decreases |s|
  {
    if |s| > 0 {
      if t[0] !in s {
        assert t[0] !in s[1..];
      }
      NotContained(s[1..], t);
    }
  }

  /** Every string contains the empty string, so `"".trim()` matches any location. */
  lemma ContainsEmpty(s: string)
    ensures Contains(s, [])
  {
  }

  /** A string contains itself. */
  lemma ContainsSelf(s: string)
    ensures Contains(s, s)
  {
  }

  /** The pieces between occurrences of `sep`, keeping every empty piece. */
  function Pieces(s: string, sep: char): (r: seq<string>)
    ensures |r| >= 1
    ensures forall k, i :: 0 <= k < |r| && 0 <= i < |r[k]| ==> r[k][i] != sep
  {
    if |s| == 0 then [[]]
    else if s[0] == sep then [[]] + Pieces(s[1..], sep)
    else
      var rest := Pieces(s[1..], sep);
      [[s[0]] + rest[0]] + rest[1..]
  }

  /** Gluing the pieces back with the separator gives the original string. */
  function Join(parts: seq<string>, sep: char): string
    requires |parts| >= 1
  {
    if |parts| == 1 then parts[0] else parts[0] + [sep] + Join(parts[1..], sep)
  }

  lemma {:induction false} JoinPieces(s: string, sep: char)
    ensures Join(Pieces(s, sep), sep) == s
  {
    if |s| == 0 {
    } else if s[0] == sep {
      JoinPieces(s[1..], sep);
      assert Pieces(s, sep)[1..] == Pieces(s[1..], sep);
    } else {
      var rest := Pieces(s[1..], sep);
      JoinPieces(s[1..], sep);
      var r := Pieces(s, sep);
      assert r[1..] == rest[1..];
      if |rest| > 1 {
        assert rest[1..][1..] == rest[2..];
        assert Join(rest, sep) == rest[0] + [sep] + Join(rest[1..], sep);
      }
    }
  }

  function DropTrailingEmpty(parts: seq<string>): (r: seq<string>)
    ensures r <= parts
    ensures |r| > 0 ==> r[|r| - 1] != []
    ensures forall k :: |r| <= k < |parts| ==> parts[k] == []
  {
    if |parts| > 0 && parts[|parts| - 1] == [] then DropTrailingEmpty(parts[..|parts| - 1]) else parts
  }

  /**
   * `s.split(sep)` for a one-character literal separator: when `sep` occurs,
   * the pieces between occurrences with trailing empty pieces removed;
   * otherwise the whole string as one piece (so `"".split(",")` is `[""]`).
   */
  function Split(s: string, sep: char): (r: seq<string>)
    ensures r <= Pieces(s, sep)
    ensures sep !in s ==> r == [s]
    ensures sep in s && |r| > 0 ==> r[|r| - 1] != []
    ensures forall k :: |r| <= k < |Pieces(s, sep)| ==> Pieces(s, sep)[k] == []
  {
    if sep in s then DropTrailingEmpty(Pieces(s, sep)) else (NoSeparatorOnePiece(s, sep); [s])
  }

  /** The first piece is the longest separator-free prefix: it runs to the end or stops at a separator. */
  lemma {:induction false} FirstPieceMaximal(s: string, sep: char)
    ensures Pieces(s, sep)[0] <= s
    ensures |Pieces(s, sep)[0]| == |s| || s[|Pieces(s, sep)[0]|] == sep
  {
    if |s| > 0 && s[0] != sep {
      FirstPieceMaximal(s[1..], sep);
    }
  }

  /** Every piece is empty exactly when every character is the separator. */
  lemma {:induction false} PiecesAllEmpty(s: string, sep: char)
    ensures (forall k :: 0 <= k < |Pieces(s, sep)| ==> Pieces(s, sep)[k] == []) <==>
            (forall i :: 0 <= i < |s| ==> s[i] == sep)
  {
    if |s| > 0 {
      PiecesAllEmpty(s[1..], sep);
      if s[0] == sep {
        var p := Pieces(s, sep);
        assert p[1..] == Pieces(s[1..], sep);
        assert forall i :: 1 <= i < |s| ==> s[i] == s[1..][i - 1];
      } else {
        assert Pieces(s, sep)[0] != [];
      }
    }
  }

  /**
   * `split` yields no piece exactly for a non-empty string of separators only;
   * otherwise its first piece is the first piece between separators.
   */
  lemma SplitFirstPiece(s: string, sep: char)
    ensures |Split(s, sep)| == 0 <==> |s| > 0 && forall i :: 0 <= i < |s| ==> s[i] == sep
    ensures |Split(s, sep)| > 0 ==> Split(s, sep)[0] == Pieces(s, sep)[0]
  {
    var p := Pieces(s, sep);
    var r := Split(s, sep);
    PiecesAllEmpty(s, sep);
    if |s| > 0 && forall i :: 0 <= i < |s| ==> s[i] == sep {
      assert s[0] == sep;
    } else if sep in s {
      var i :| 0 <= i < |s| && s[i] != sep;
      var k :| 0 <= k < |p| && p[k] != [];
      assert |r| > k;
    }
  }

  /** A separator in front of separator-free text splits off one empty leading piece. */
  lemma LeadingSeparatorSplit(rest: string, sep: char)
    requires sep !in rest && |rest| > 0
    ensures Split([sep] + rest, sep) == [[], rest]
  {
    var a := [sep] + rest;
    assert a[1..] == rest;
    NoSeparatorOnePiece(rest, sep);
    assert Pieces(a, sep) == [[]] + [rest];
    assert sep in a;
  }

  lemma {:induction false} NoSeparatorOnePiece(s: string, sep: char)
    requires sep !in s
    ensures Pieces(s, sep) == [s]
  {
    if |s| > 0 {
      assert s[0] != sep;
      NoSeparatorOnePiece(s[1..], sep);
      assert [s[0]] + s[1..] == s;
    }
  }

  /**
   * ASCII upper-casing. `String.toUpperCase` also maps non-ASCII letters,
   * which this model does not.
   */
  function UpperAscii(c: char): char {
    if 'a' <= c <= 'z' then (c as int - 32) as char else c
  }

  function LowerAscii(c: char): char {
    if 'A' <= c <= 'Z' then (c as int + 32) as char else c
  }

  function ToUpper(s: string): (r: string)
    ensures |r| == |s| && forall i :: 0 <= i < |s| ==> r[i] == UpperAscii(s[i])
  {
    seq(|s|, i requires 0 <= i < |s| => UpperAscii(s[i]))
  }

  function ToLower(s: string): (r: string)
    ensures |r| == |s| && forall i :: 0 <= i < |s| ==> r[i] == LowerAscii(s[i])
  {
    seq(|s|, i requires 0 <= i < |s| => LowerAscii(s[i]))
  }
}
