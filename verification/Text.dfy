/** Strings: their order by code point, surrounding white space, pieces between separators. */
module Text {
  predicate LexLeq(s: string, t: string) {
    s == "" || (t != "" && (s[0] < t[0] || (s[0] == t[0] && LexLeq(s[1..], t[1..]))))
  }

  lemma {:induction false} LexTotal(s: string, t: string)
    ensures LexLeq(s, t) || LexLeq(t, s)
    ensures LexLeq(s, t) && LexLeq(t, s) ==> s == t
  {
    if s != "" && t != "" && s[0] == t[0] {
      LexTotal(s[1..], t[1..]);
      assert s == [s[0]] + s[1..] && t == [t[0]] + t[1..];
    }
  }

  lemma {:induction false} LexTransitive(s: string, t: string, u: string)
    requires LexLeq(s, t) && LexLeq(t, u)
    ensures LexLeq(s, u)
  {
    if s != "" && s[0] == t[0] && t[0] == u[0] { LexTransitive(s[1..], t[1..], u[1..]); }
  }

  // -------------------------------------------------------------------- white space

  predicate IsSpace(c: char) { c == ' ' || c == '\t' || '\n' <= c <= '\r' }

  function StripLeft(s: string): string {
    if s != "" && IsSpace(s[0]) then StripLeft(s[1..]) else s
  }

  function StripRight(s: string): string {
    if s != "" && IsSpace(s[|s| - 1]) then StripRight(s[..|s| - 1]) else s
  }

  function Strip(s: string): string { StripRight(StripLeft(s)) }

  // -------------------------------------------------------------- splitting, joining

  function SplitOn(s: string, sep: char): (r: seq<string>)
    ensures |r| >= 1
  {
    if s == "" then [""]
    else
      var rest := SplitOn(s[1..], sep);
      if s[0] == sep then [""] + rest else [[s[0]] + rest[0]] + rest[1..]
  }

  function Join(items: seq<string>, sep: char): string
    requires |items| >= 1
  {
    if |items| == 1 then items[0] else items[0] + ([sep] + Join(items[1..], sep))
  }

  lemma {:induction false} SplitPiece(s: string, sep: char, rest: string)
    requires sep !in s
    ensures SplitOn(s + ([sep] + rest), sep) == [s] + SplitOn(rest, sep)
    ensures SplitOn(s, sep) == [s]
  {
    if s == "" {
      assert s + ([sep] + rest) == [sep] + rest;
      assert ([sep] + rest)[1..] == rest;
    } else {
      SplitPiece(s[1..], sep, rest);
      assert (s + ([sep] + rest))[1..] == s[1..] + ([sep] + rest);
      assert s == [s[0]] + s[1..];
    }
  }

  lemma {:induction false} SplitJoin(items: seq<string>, sep: char)
    requires |items| >= 1 && forall i :: 0 <= i < |items| ==> sep !in items[i]
    ensures SplitOn(Join(items, sep), sep) == items
  {
    if |items| == 1 {
      SplitPiece(items[0], sep, "");
    } else {
      SplitJoin(items[1..], sep);
      SplitPiece(items[0], sep, Join(items[1..], sep));
    }
  }

  /** Pieces never contain the separator. */
  lemma {:induction false} PiecesAreFree(s: string, sep: char)
    ensures forall i :: 0 <= i < |SplitOn(s, sep)| ==> sep !in SplitOn(s, sep)[i]
  {
    if s != "" { PiecesAreFree(s[1..], sep); }
  }

  lemma JoinInjective(a: seq<string>, b: seq<string>, sep: char)
    requires |a| >= 1 && |b| >= 1 && Join(a, sep) == Join(b, sep)
    requires (forall i :: 0 <= i < |a| ==> sep !in a[i]) && (forall i :: 0 <= i < |b| ==> sep !in b[i])
    ensures a == b
  {
    SplitJoin(a, sep);
    SplitJoin(b, sep);
  }

  // ------------------------------------------------------------------------- pieces

  /** s[i..j] lies between two separators or ends. */
  predicate IsPiece(s: string, sep: char, i: nat, j: nat)
    requires i <= j <= |s|
  {
    (i == 0 || s[i - 1] == sep) && (j == |s| || s[j] == sep) && forall k :: i <= k < j ==> s[k] != sep
  }

  ghost predicate HasPiece(s: string, sep: char, piece: string) {
    exists i, j :: 0 <= i <= j <= |s| && IsPiece(s, sep, i, j) && s[i..j] == piece
  }

  /** The first piece reaches to the first separator. */
  lemma {:induction false} FirstPiece(s: string, sep: char)
    ensures var f := SplitOn(s, sep)[0];
            f <= s && sep !in f &&
            ((f == s && SplitOn(s, sep) == [f]) ||
             (|f| < |s| && s[|f|] == sep && SplitOn(s, sep) == [f] + SplitOn(s[|f| + 1..], sep)))
  {
    if s != "" {
      FirstPiece(s[1..], sep);
      assert s == [s[0]] + s[1..];
      if s[0] != sep {
        var g := SplitOn(s[1..], sep)[0];
        assert |g| < |s[1..]| ==> s[1..][|g| + 1..] == s[|g| + 2..];
      } else {
        assert s[|""| + 1..] == s[1..];
      }
    }
  }

  /** Splitting finds the text between separators, and nothing else. */
  lemma {:induction false} PieceMeans(s: string, sep: char, piece: string)
    ensures piece in SplitOn(s, sep) <==> HasPiece(s, sep, piece)
    decreases |s|
  {
    hide SplitOn, HasPiece;
    FirstPiece(s, sep);
    var f := SplitOn(s, sep)[0];
    if f == s {
      OnlyPiece(s, sep, piece);
    } else {
      PieceMeans(s[|f| + 1..], sep, piece);
      LaterPiece(s, sep, f, piece);
    }
  }

  lemma OnlyPiece(s: string, sep: char, piece: string)
    requires sep !in s
    ensures HasPiece(s, sep, piece) <==> piece == s
  {
    assert s[0..|s|] == s && IsPiece(s, sep, 0, |s|);
    assert forall k :: 0 <= k < |s| ==> s[k] != sep;
  }

  lemma LaterPiece(s: string, sep: char, f: string, piece: string)
    requires f <= s && sep !in f && |f| < |s| && s[|f|] == sep
    ensures HasPiece(s, sep, piece) <==> piece == f || HasPiece(s[|f| + 1..], sep, piece)
  {
    var n := |f| + 1;
    var rest := s[n..];
    assert forall k :: 0 <= k < |f| ==> s[k] == f[k] && f[k] in f;
    assert s[0..|f|] == f && IsPiece(s, sep, 0, |f|);
    forall i, j | 0 <= i <= j <= |s| && IsPiece(s, sep, i, j) && s[i..j] == piece ensures piece == f || HasPiece(rest, sep, piece) {
      if i == 0 {
        assert j == |f|;
      } else {
        assert i >= n;
        assert rest[i - n..j - n] == piece && IsPiece(rest, sep, i - n, j - n);
      }
    }
    forall i, j | 0 <= i <= j <= |rest| && IsPiece(rest, sep, i, j) && rest[i..j] == piece ensures HasPiece(s, sep, piece) {
      assert s[n + i..n + j] == piece && IsPiece(s, sep, n + i, n + j);
    }
  }
}
