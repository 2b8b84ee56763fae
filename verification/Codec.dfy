/** The text codec of name lists: splitting at a separator, the two ways of joining, and what each gives back. */
module Codec {

  /** The position of the next c from `start` on; the length if there is none. */
  function Find(s: string, c: char, start: nat): (p: nat)
    requires start <= |s|
    ensures start <= p <= |s|
    ensures p < |s| ==> s[p] == c
    decreases |s| - start
  {
    if start == |s| || s[start] == c then start else Find(s, c, start + 1)
  }

  /** The pieces of s from `start` on. */
  function Pieces(s: string, c: char, start: nat): (r: seq<string>)
    requires start <= |s|
    ensures r != []
    decreases |s| - start
  {
    var p := Find(s, c, start);
    if p == |s| then [s[start..]] else [s[start..p]] + Pieces(s, c, p + 1)
  }

  /** The empty text splits into nothing. */
  function Split(s: string, c: char): seq<string> {
    var r := Pieces(s, c, 0);
    if r == [""] then [] else r
  }

  method SplitText(s: string, c: char) returns (res: seq<string>)
    ensures res == Split(s, c)
  {
    res := [];
    var start := 0;
    var p := FindNext(s, c, start);
    while p < |s|
      invariant 0 <= start <= p <= |s| && p == Find(s, c, start)
      invariant res + Pieces(s, c, start) == Pieces(s, c, 0)
      decreases |s| - start
    {
      Appended(res, s[start..p], Pieces(s, c, p + 1));
      res := res + [s[start..p]];
      start := p + 1;
      p := FindNext(s, c, start);
    }
    res := res + [s[start..]];
    if |res| == 1 && res[0] == "" {
      return [];
    }
  }

  lemma Appended(res: seq<string>, x: string, rest: seq<string>)
    ensures res + ([x] + rest) == (res + [x]) + rest
  {
  }

  method FindNext(s: string, c: char, start: nat) returns (p: nat)
    requires start <= |s|
    ensures p == Find(s, c, start)
  {
    p := start;
    while p < |s| && s[p] != c
      invariant start <= p <= |s| && Find(s, c, p) == Find(s, c, start)
    {
      p := p + 1;
    }
  }

  /** The fold that puts a separator only after text: leading empty names leave no trace. */
  function Join(l: seq<string>, c: char): string {
    if l == [] then "" else
    var x := Join(l[..|l| - 1], c);
    if x == "" then l[|l| - 1] else x + [c] + l[|l| - 1]
  }

  /** The loop that puts a separator before every name but the first. */
  function JoinAll(l: seq<string>, c: char): string {
    if l == [] then "" else if |l| == 1 then l[0] else l[0] + [c] + JoinAll(l[1..], c)
  }

  method JoinNames(l: seq<string>, c: char) returns (s: string)
    ensures s == JoinAll(l, c)
  {
    s := "";
    for i := 0 to |l|
      invariant s == JoinAll(l[..i], c)
    {
      assert l[..i + 1] == l[..i] + [l[i]];
      JoinAllAppends(l[..i], l[i], c);
      if i != 0 {
        s := s + [c];
      }
      s := s + l[i];
    }
    assert l[..|l|] == l;
  }

  lemma {:induction false} JoinAllAppends(l: seq<string>, x: string, c: char)
    ensures JoinAll(l + [x], c) == if l == [] then x else JoinAll(l, c) + [c] + x
  {
    if |l| > 0 {
      assert (l + [x])[1..] == l[1..] + [x];
      JoinAllAppends(l[1..], x, c);
    }
  }

  // ---------- what splitting gives ----------

  lemma {:induction false} FindAt(s: string, c: char, start: nat, p: nat)
    requires start <= p <= |s| && c !in s[start..p] && (p < |s| ==> s[p] == c)
    ensures Find(s, c, start) == p
    decreases p - start
  {
    if start < p {
      assert s[start..p] == [s[start]] + s[start + 1..p];
      FindAt(s, c, start + 1, p);
    }
  }

  lemma {:induction false} FindFirst(s: string, c: char, start: nat)
    requires start <= |s|
    ensures c !in s[start..Find(s, c, start)]
    decreases |s| - start
  {
    if start < |s| && s[start] != c {
      FindFirst(s, c, start + 1);
      var p := Find(s, c, start + 1);
      assert s[start..p] == [s[start]] + s[start + 1..p];
    }
  }

  lemma {:induction false} PiecesAreFree(s: string, c: char, start: nat)
    requires start <= |s|
    ensures forall x :: x in Pieces(s, c, start) ==> c !in x
    decreases |s| - start
  {
    var p := Find(s, c, start);
    FindFirst(s, c, start);
    if p < |s| {
      PiecesAreFree(s, c, p + 1);
    } else {
      assert s[start..] == s[start..p];
    }
  }

  /** Splitting loses nothing: putting the separators back restores the text. */
  lemma {:induction false} PiecesJoin(s: string, c: char, start: nat)
    requires start <= |s|
    ensures JoinAll(Pieces(s, c, start), c) == s[start..]
    decreases |s| - start
  {
    var p := Find(s, c, start);
    if p < |s| {
      PiecesJoin(s, c, p + 1);
      JoinAllFirst(s[start..p], Pieces(s, c, p + 1), c);
      AroundSeparator(s, start, p);
    }
  }

  lemma AroundSeparator(s: string, start: nat, p: nat)
    requires start <= p < |s|
    ensures s[start..] == s[start..p] + [s[p]] + s[p + 1..]
  {
  }

  lemma JoinAllFirst(x: string, l: seq<string>, c: char)
    requires l != []
    ensures JoinAll([x] + l, c) == x + [c] + JoinAll(l, c)
  {
    assert ([x] + l)[1..] == l;
  }

  lemma SplitLosesNothing(s: string, c: char)
    ensures JoinAll(Split(s, c), c) == s
  {
    PiecesJoin(s, c, 0);
  }

  lemma Regroup(a: string, b: string, c: string, d: string)
    ensures a + (b + c + d) == (a + b + c) + d
  {
  }

  lemma LastPiece(before: string, x: string, c: char)
    requires c !in x
    ensures Pieces(before + x, c, |before|) == [x]
  {
    var s := before + x;
    assert s[|before|..|s|] == x == s[|before|..];
    FindAt(s, c, |before|, |s|);
  }

  lemma FirstPiece(before: string, x: string, c: char, after: string)
    requires c !in x
    ensures var s := before + x + [c] + after;
            Pieces(s, c, |before|) == [x] + Pieces(s, c, |before + x + [c]|)
  {
    var s := before + x + [c] + after;
    var p := |before| + |x|;
    assert s[|before|..p] == x && s[p] == c;
    FindAt(s, c, |before|, p);
  }

  /** The text of names free of the separator comes apart into those names. */
  lemma {:induction false} PiecesOf(before: string, l: seq<string>, c: char)
    requires l != [] && forall x :: x in l ==> c !in x
    ensures Pieces(before + JoinAll(l, c), c, |before|) == l
    decreases |l|
  {
    if |l| == 1 {
      LastPiece(before, l[0], c);
    } else {
      var next, rest := before + l[0] + [c], JoinAll(l[1..], c);
      FirstPiece(before, l[0], c, rest);
      PiecesOf(next, l[1..], c);
      Regroup(before, l[0], [c], rest);
      assert l == [l[0]] + l[1..];
    }
  }

  lemma SplitOfJoinAll(l: seq<string>, c: char)
    requires forall x :: x in l ==> c !in x
    ensures Split(JoinAll(l, c), c) == if l == [""] then [] else l
  {
    assert "" + JoinAll(l, c) == JoinAll(l, c);
    if l == [] {
      FindAt("", c, 0, 0);
    } else {
      PiecesOf("", l, c);
    }
  }

  // ---------- the fold ----------

  /** With a first name that is not empty the two ways of joining agree. */
  lemma {:induction false} JoinIsJoinAll(l: seq<string>, c: char)
    requires l != [] ==> l[0] != ""
    ensures Join(l, c) == JoinAll(l, c)
    ensures l != [] ==> Join(l, c) != ""
  {
    if l != [] {
      var n := |l| - 1;
      assert l == l[..n] + [l[n]];
      JoinAllAppends(l[..n], l[n], c);
      JoinIsJoinAll(l[..n], c);
    }
  }

  /** An empty first name is dropped. */
  lemma {:induction false} JoinDropsEmpty(l: seq<string>, c: char)
    requires l != [] && l[0] == ""
    ensures Join(l, c) == Join(l[1..], c)
  {
    var n := |l| - 1;
    if n > 0 {
      JoinDropsEmpty(l[..n], c);
      assert l[..n][1..] == l[1..][..n - 1];
      assert l[1..][n - 1] == l[n];
    }
  }

  lemma {:induction false} JoinFirst(l: seq<string>, c: char) returns (k: nat)
    ensures k <= |l| && Join(l, c) == Join(l[k..], c)
    ensures l[k..] != [] ==> l[k] != ""
    ensures l != [] && l[0] == "" ==> k > 0
  {
    if l == [] || l[0] != "" {
      k := 0;
      assert l[0..] == l;
    } else {
      JoinDropsEmpty(l, c);
      var j := JoinFirst(l[1..], c);
      k := j + 1;
      assert l[1..][j..] == l[k..];
    }
  }

  /** A list can be printed and read back. */
  predicate Codable(l: seq<string>, c: char) {
    (l == [] || l[0] != "") && forall x :: x in l ==> c !in x
  }

  /** Reading back what was printed gives the list exactly when its names are free of the separator and its
      first name is not empty. */
  lemma SplitJoinIff(l: seq<string>, c: char)
    ensures Split(Join(l, c), c) == l <==> Codable(l, c)
  {
    if Codable(l, c) {
      JoinIsJoinAll(l, c);
      SplitOfJoinAll(l, c);
    }
    if Split(Join(l, c), c) == l {
      PiecesAreFree(Join(l, c), c, 0);
      if l != [] && l[0] == "" {
        LeadingEmptyIsLost(l, c);
      }
    }
  }

  lemma LeadingEmptyIsLost(l: seq<string>, c: char)
    requires l != [] && l[0] == "" && forall x :: x in l ==> c !in x
    ensures Split(Join(l, c), c) != l
  {
    var k := JoinFirst(l, c);
    var rest := l[k..];
    JoinIsJoinAll(rest, c);
    SplitOfJoinAll(rest, c);
    assert |rest| < |l|;
  }
}
