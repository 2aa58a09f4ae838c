/**
 * The JavaScript string operations the transcoder relies on, as pure functions
 * over `string` (a `seq<char>`): `indexOf`, `includes`, `split` and `join` with a
 * string separator, `trim`, `replace(/c/g, '')` and `toUpperCase`.
 *
 * `trim` is modelled over ASCII whitespace and `toUpperCase` over ASCII `a`-`z`;
 * the Unicode whitespace and case tables of JavaScript are not part of this model.
 */
module JsString {

  /** `key` occurs in `s` starting at index `i`. */
  predicate Occurs(s: string, key: string, i: int) {
    0 <= i && i + |key| <= |s| && s[i..i + |key|] == key
  }

  /** `s.indexOf(key, from)`: the first occurrence of `key` at or after `from`, or -1. */
  function IndexOf(s: string, key: string, from: nat): (r: int)
    ensures r == -1 || (from <= r && Occurs(s, key, r))
    ensures r == -1 ==> forall i :: from <= i ==> !Occurs(s, key, i)
    ensures r != -1 ==> forall i :: from <= i < r ==> !Occurs(s, key, i)
    decreases |s| - from
  {
    if from + |key| > |s| then -1
    else if s[from..from + |key|] == key then from
    else IndexOf(s, key, from + 1)
  }

  /** `s.includes(key)`. */
  predicate Includes(s: string, key: string) {
    IndexOf(s, key, 0) != -1
  }

  /** `s.includes(key)` holds exactly when `key` occurs somewhere in `s`. */
  lemma IncludesIff(s: string, key: string)
    ensures Includes(s, key) <==> exists i :: Occurs(s, key, i)
  {
    if !Includes(s, key) {
      forall i ensures !Occurs(s, key, i) {
        if 0 <= i { assert !Occurs(s, key, i); }
      }
    }
  }

  /** Occurrences inside the slice `s[p..q]` are the occurrences in `s` that lie within it. */
  lemma OccursInSlice(s: string, key: string, p: nat, q: nat, t: int)
    requires p <= q <= |s|
    ensures Occurs(s[p..q], key, t) <==> (0 <= t && Occurs(s, key, p + t) && p + t + |key| <= q)
  {
    if 0 <= t && p + t + |key| <= q {
      var a, b := s[p..q][t..t + |key|], s[p + t..p + t + |key|];
      assert |a| == |b| && forall k :: 0 <= k < |a| ==> a[k] == b[k];
    }
  }

  /** A one-character key occurs exactly where that character stands. */
  lemma OccursChar(s: string, c: char, j: int)
    ensures Occurs(s, [c], j) <==> (0 <= j < |s| && s[j] == c)
  {
    if 0 <= j < |s| {
      assert s[j..j + 1] == [s[j]];
    }
  }

  /** `s.includes(c)` for a one-character string is membership of `c`. */
  lemma IncludesChar(s: string, c: char)
    ensures Includes(s, [c]) <==> c in s
  {
    if c in s {
      var j :| 0 <= j < |s| && s[j] == c;
      OccursChar(s, c, j);
    } else {
      forall j ensures !Occurs(s, [c], j) {
        OccursChar(s, c, j);
      }
    }
  }

  /** `pieces.join(sep)`. */
  function Join(pieces: seq<string>, sep: string): string {
    if pieces == [] then ""
    else if |pieces| == 1 then pieces[0]
    else pieces[0] + sep + Join(pieces[1..], sep)
  }

  /** Joining a piece in front of a non-empty list adds the piece and one separator. */
  lemma JoinCons(a: string, rest: seq<string>, sep: string)
    requires |rest| > 0
    ensures Join([a] + rest, sep) == a + sep + Join(rest, sep)
  {
    assert ([a] + rest)[1..] == rest;
  }

  /** A character in neither the pieces nor the separator is not in their join. */
  lemma {:induction false} JoinOmits(pieces: seq<string>, sep: string, c: char)
    requires c !in sep
    requires forall k :: 0 <= k < |pieces| ==> c !in pieces[k]
    ensures c !in Join(pieces, sep)
  {
    if |pieces| > 1 {
      JoinOmits(pieces[1..], sep, c);
    }
  }

  /**
   * The pieces of `s` from index `p` on, cut at successive non-overlapping
   * occurrences of `sep` (the loop of JavaScript's `split`).
   */
  function SplitFrom(s: string, sep: string, p: nat): (pieces: seq<string>)
    requires |sep| > 0 && p <= |s|
    ensures |pieces| >= 1
    ensures |pieces| == 1 <==> IndexOf(s, sep, p) == -1
    decreases |s| - p
  {
    var q := IndexOf(s, sep, p);
    if q == -1 then [s[p..]] else [s[p..q]] + SplitFrom(s, sep, q + |sep|)
  }

  /** `s.split(sep)` for a non-empty separator. */
  function Split(s: string, sep: string): (pieces: seq<string>)
    requires |sep| > 0
    ensures |pieces| >= 1
    ensures |pieces| == 1 <==> !Includes(s, sep)
  {
    SplitFrom(s, sep, 0)
  }

  /** The first piece from `p` runs up to the next occurrence of `sep`, or to the end. */
  lemma SplitFromHead(s: string, sep: string, p: nat)
    requires |sep| > 0 && p <= |s|
    ensures var q := IndexOf(s, sep, p);
            q <= |s| && SplitFrom(s, sep, p)[0] == s[p..if q == -1 then |s| else q]
  {
  }

  /** After the first piece come the pieces after the next occurrence of `sep`. */
  lemma SplitFromTail(s: string, sep: string, p: nat)
    requires |sep| > 0 && p <= |s| && IndexOf(s, sep, p) != -1
    ensures SplitFrom(s, sep, p)[1..] == SplitFrom(s, sep, IndexOf(s, sep, p) + |sep|)
  {
  }

  /**
   * The text after the first occurrence of `key` in `s`, up to the next
   * occurrence of `key` or the end of `s`.
   */
  function AfterFirst(s: string, key: string): string
    requires Includes(s, key)
  {
    var d := IndexOf(s, key, 0) + |key|;
    var e := IndexOf(s, key, d);
    if e == -1 then s[d..] else s[d..e]
  }

  /** `AfterFirst` with its two cases folded into one slice, the way `SplitFromHead` states a piece. */
  lemma AfterFirstSlice(s: string, key: string)
    requires Includes(s, key)
    ensures var d := IndexOf(s, key, 0) + |key|;
            var e := IndexOf(s, key, d);
            d <= |s| && (e == -1 || d <= e <= |s|) && AfterFirst(s, key) == s[d..if e == -1 then |s| else e]
  {
  }

  /** The first piece after the first occurrence of `sep` is the text `AfterFirst` takes. */
  lemma HeadAfterFirst(s: string, sep: string)
    requires |sep| > 0 && Includes(s, sep)
    ensures SplitFrom(s, sep, IndexOf(s, sep, 0) + |sep|)[0] == AfterFirst(s, sep)
  {
    SplitFromHead(s, sep, IndexOf(s, sep, 0) + |sep|);
    AfterFirstSlice(s, sep);
  }

  /** The second piece of `s.split(sep)` is the first piece after the first occurrence of `sep`. */
  lemma SecondPieceIsNextHead(s: string, sep: string)
    requires |sep| > 0 && Includes(s, sep)
    ensures Split(s, sep)[1] == SplitFrom(s, sep, IndexOf(s, sep, 0) + |sep|)[0]
  {
    SplitFromTail(s, sep, 0);
    assert Split(s, sep)[1] == Split(s, sep)[1..][0];
  }

  /** `s.split(sep)[1]` is the text between the first two occurrences of `sep`. */
  lemma SplitSecondPiece(s: string, sep: string)
    requires |sep| > 0 && Includes(s, sep)
    ensures Split(s, sep)[1] == AfterFirst(s, sep)
  {
    SecondPieceIsNextHead(s, sep);
    HeadAfterFirst(s, sep);
  }

  /** The first piece of `s.split(sep)` from `p` does not include `sep`. */
  lemma FirstPieceExcludes(s: string, sep: string, p: nat)
    requires |sep| > 0 && p <= |s|
    ensures !Includes(SplitFrom(s, sep, p)[0], sep)
  {
    var q := IndexOf(s, sep, p);
    var e := if q == -1 then |s| else q;
    SplitFromHead(s, sep, p);
    var t := IndexOf(s[p..e], sep, 0);
    if t != -1 {
      OccursInSlice(s, sep, p, e, t);
    }
  }

  /** No piece of `s.split(sep)` includes `sep`. */
  lemma {:induction false} SplitPiecesExclude(s: string, sep: string, p: nat)
    requires |sep| > 0 && p <= |s|
    ensures forall k :: 0 <= k < |SplitFrom(s, sep, p)| ==> !Includes(SplitFrom(s, sep, p)[k], sep)
    decreases |s| - p
  {
    FirstPieceExcludes(s, sep, p);
    var q := IndexOf(s, sep, p);
    if q != -1 {
      LaterPieces(s, sep, p);
      SplitPiecesExclude(s, sep, q + |sep|);
    }
  }

  /** A character absent from `s` is absent from the first piece of `s.split(sep)` from `p`. */
  lemma FirstPieceOmits(s: string, sep: string, p: nat, c: char)
    requires |sep| > 0 && p <= |s| && c !in s
    ensures c !in SplitFrom(s, sep, p)[0]
  {
    SplitFromHead(s, sep, p);
    var piece := SplitFrom(s, sep, p)[0];
    assert forall t :: 0 <= t < |piece| ==> piece[t] == s[p + t];
  }

  /** The pieces after the first are the pieces from just past the first separator. */
  lemma LaterPieces(s: string, sep: string, p: nat)
    requires |sep| > 0 && p <= |s| && IndexOf(s, sep, p) != -1
    ensures var rest := SplitFrom(s, sep, IndexOf(s, sep, p) + |sep|);
            |SplitFrom(s, sep, p)| == |rest| + 1
            && forall k :: 1 <= k < |SplitFrom(s, sep, p)| ==> SplitFrom(s, sep, p)[k] == rest[k - 1]
  {
    SplitFromTail(s, sep, p);
  }

  /** A character absent from `s` is absent from every piece of `s.split(sep)`. */
  lemma {:induction false} SplitPiecesOmit(s: string, sep: string, p: nat, c: char)
    requires |sep| > 0 && p <= |s| && c !in s
    ensures forall k :: 0 <= k < |SplitFrom(s, sep, p)| ==> c !in SplitFrom(s, sep, p)[k]
    decreases |s| - p
  {
    FirstPieceOmits(s, sep, p, c);
    var q := IndexOf(s, sep, p);
    if q != -1 {
      LaterPieces(s, sep, p);
      SplitPiecesOmit(s, sep, q + |sep|, c);
    }
  }

  /** When `s` from `p` on is `a + b`, it holds `a` first and `b` after it. */
  lemma SuffixParts(s: string, p: nat, a: string, b: string)
    requires p <= |s| && s[p..] == a + b
    ensures p + |a| <= |s| && s[p..p + |a|] == a && s[p + |a|..] == b
  {
    forall t | 0 <= t < |a| ensures s[p..p + |a|][t] == a[t] {
      assert s[p..][t] == (a + b)[t];
    }
    forall t | 0 <= t < |b| ensures s[p + |a|..][t] == b[t] {
      assert s[p..][|a| + t] == (a + b)[|a| + t];
    }
  }

  /** A one-character separator occurs exactly where its character stands. */
  lemma OccursSingle(s: string, sep: string, j: int)
    requires |sep| == 1
    ensures Occurs(s, sep, j) <==> (0 <= j < |s| && s[j] == sep[0])
  {
    if 0 <= j < |s| {
      assert s[j..j + 1][0] == s[j];
    }
  }

  /** An occurrence at `e` with none between `from` and `e` is the first one from `from`. */
  lemma FirstOccurrence(s: string, key: string, from: nat, e: nat)
    requires from <= e && Occurs(s, key, e)
    requires forall j :: from <= j < e ==> !Occurs(s, key, j)
    ensures IndexOf(s, key, from) == e
  {
  }

  /** Where `sep` occurs from `p` on, the split from `p` is the piece before it followed by the split after it. */
  lemma SplitFromCut(s: string, sep: string, p: nat, q: nat)
    requires |sep| > 0 && p <= q && q + |sep| <= |s| && IndexOf(s, sep, p) == q
    ensures SplitFrom(s, sep, p) == [s[p..q]] + SplitFrom(s, sep, q + |sep|)
  {
  }

  /** Where `piece`, free of the character of a one-character `sep`, ends `s` from `p` on, splitting from `p` gives that piece alone. */
  lemma SplitNoSeparator(s: string, sep: string, p: nat, piece: string)
    requires |sep| == 1 && p + |piece| == |s| && s[p..p + |piece|] == piece && sep[0] !in piece
    ensures SplitFrom(s, sep, p) == [piece]
  {
    NoSeparatorBefore(s, sep, p, |s|);
    forall j | |s| <= j ensures !Occurs(s, sep, j) {
      OccursSingle(s, sep, j);
    }
    assert IndexOf(s, sep, p) == -1;
    assert s[p..] == piece;
  }

  /** A one-character `sep` whose character is absent from `s[p..e]` occurs nowhere from `p` up to `e`. */
  lemma NoSeparatorBefore(s: string, sep: string, p: nat, e: nat)
    requires |sep| == 1 && p <= e <= |s| && sep[0] !in s[p..e]
    ensures forall j :: p <= j < e ==> !Occurs(s, sep, j)
  {
    forall j | p <= j < e ensures !Occurs(s, sep, j) {
      OccursSingle(s, sep, j);
      assert s[j] == s[p..e][j - p];
    }
  }

  /** Where `piece`, free of the character of a one-character `sep`, stands at `p` and that character follows it, splitting from `p` cuts after `piece`. */
  lemma SplitAtSeparator(s: string, sep: string, p: nat, piece: string)
    requires |sep| == 1 && p + |piece| < |s| && sep[0] !in piece
    requires s[p..p + |piece|] == piece && s[p + |piece|] == sep[0]
    ensures SplitFrom(s, sep, p) == [piece] + SplitFrom(s, sep, p + |piece| + 1)
  {
    var e := p + |piece|;
    NoSeparatorBefore(s, sep, p, e);
    OccursSingle(s, sep, e);
    FirstOccurrence(s, sep, p, e);
    SplitFromCut(s, sep, p, e);
  }

  /** The join of two or more pieces is the first piece, the separator, then the join of the others. */
  lemma JoinSplitsOff(pieces: seq<string>, sep: string)
    requires |pieces| >= 2
    ensures Join(pieces, sep) == pieces[0] + (sep + Join(pieces[1..], sep))
  {
    var piece, rest := pieces[0], Join(pieces[1..], sep);
    assert Join(pieces, sep) == piece + sep + rest;
    assert piece + sep + rest == piece + (sep + rest);
  }

  /** Text joined from two or more pieces holds the first piece, the one-character separator, then the join of the others. */
  lemma JoinRest(s: string, sep: string, p: nat, pieces: seq<string>)
    requires |sep| == 1 && p <= |s| && |pieces| >= 2
    requires s[p..] == Join(pieces, sep)
    ensures p + |pieces[0]| < |s| && s[p..p + |pieces[0]|] == pieces[0] && s[p + |pieces[0]|] == sep[0]
    ensures s[p + |pieces[0]| + 1..] == Join(pieces[1..], sep)
  {
    var piece, rest := pieces[0], Join(pieces[1..], sep);
    JoinSplitsOff(pieces, sep);
    SuffixParts(s, p, piece, sep + rest);
    SuffixParts(s, p + |piece|, sep, rest);
    assert s[p + |piece|] == s[p + |piece|..][0];
  }

  /** Where `piece` and the separator's character stand at `p` and the text past them splits into `rest`, the text from `p` splits into `piece` then `rest`. */
  lemma SplitCons(s: string, sep: string, p: nat, piece: string, rest: seq<string>, pieces: seq<string>)
    requires |sep| == 1 && p + |piece| < |s| && sep[0] !in piece
    requires s[p..p + |piece|] == piece && s[p + |piece|] == sep[0]
    requires SplitFrom(s, sep, p + |piece| + 1) == rest && pieces == [piece] + rest
    ensures SplitFrom(s, sep, p) == pieces
  {
    SplitAtSeparator(s, sep, p, piece);
  }

  /**
   * `s` from `p` on is `pieces` joined by the one-character `sep`, each piece
   * free of the separator's character: the first piece stands at `p`, then
   * either `s` ends or the separator's character follows and the other pieces
   * are joined from just past it.
   */
  predicate JoinedAt(s: string, sep: string, p: nat, pieces: seq<string>)
    requires |sep| == 1
    decreases |pieces|
  {
    |pieces| >= 1 && p + |pieces[0]| <= |s| && s[p..p + |pieces[0]|] == pieces[0] && sep[0] !in pieces[0]
    && if |pieces| == 1 then p + |pieces[0]| == |s|
       else p + |pieces[0]| < |s| && s[p + |pieces[0]|] == sep[0] && JoinedAt(s, sep, p + |pieces[0]| + 1, pieces[1..])
  }

  /** A join of pieces free of a one-character separator's character is joined in the sense of `JoinedAt`. */
  lemma {:induction false} JoinIsJoinedAt(s: string, sep: string, p: nat, pieces: seq<string>)
    requires |sep| == 1 && p <= |s| && |pieces| >= 1
    requires forall k :: 0 <= k < |pieces| ==> sep[0] !in pieces[k]
    requires s[p..] == Join(pieces, sep)
    ensures JoinedAt(s, sep, p, pieces)
    decreases |pieces|
  {
    if |pieces| == 1 {
      SuffixParts(s, p, pieces[0], []);
    } else {
      JoinRest(s, sep, p, pieces);
      JoinIsJoinedAt(s, sep, p + |pieces[0]| + 1, pieces[1..]);
    }
  }

  /** Pieces joined at `p`, more than one of them: the first stands at `p` followed by the separator's character, the rest are joined past it. */
  lemma JoinedAtCons(s: string, sep: string, p: nat, piece: string, rest: seq<string>, pieces: seq<string>)
    requires |sep| == 1 && JoinedAt(s, sep, p, pieces) && pieces == [piece] + rest && |rest| >= 1
    ensures p + |piece| < |s| && s[p..p + |piece|] == piece && sep[0] !in piece && s[p + |piece|] == sep[0]
    ensures JoinedAt(s, sep, p + |piece| + 1, rest)
  {
    assert pieces[0] == piece && pieces[1..] == rest;
  }

  /** One step of splitting joined pieces: when the text past the first piece and its separator splits into the other pieces, the text at `p` splits into all of them. */
  lemma SplitJoinedStep(s: string, sep: string, p: nat, pieces: seq<string>, q: nat)
    requires |sep| == 1 && JoinedAt(s, sep, p, pieces) && |pieces| >= 2 && q == p + |pieces[0]| + 1
    requires SplitFrom(s, sep, q) == pieces[1..]
    ensures SplitFrom(s, sep, p) == pieces
  {
    var piece, rest := pieces[0], pieces[1..];
    assert pieces == [piece] + rest;
    JoinedAtCons(s, sep, p, piece, rest, pieces);
    SplitCons(s, sep, p, piece, rest, pieces);
  }

  /** Splitting text joined from `pieces` gives the pieces back. */
  lemma {:induction false} SplitJoinedAt(s: string, sep: string, p: nat, pieces: seq<string>)
    requires |sep| == 1 && p <= |s| && JoinedAt(s, sep, p, pieces)
    ensures SplitFrom(s, sep, p) == pieces
    decreases |pieces|
  {
    if |pieces| == 1 {
      SplitNoSeparator(s, sep, p, pieces[0]);
      assert pieces == [pieces[0]];
    } else {
      var q := p + |pieces[0]| + 1;
      SplitJoinedAt(s, sep, q, pieces[1..]);
      SplitJoinedStep(s, sep, p, pieces, q);
    }
  }

  /** Splitting on a one-character separator undoes joining on it. */
  lemma SplitJoin(s: string, sep: string, p: nat, pieces: seq<string>)
    requires |sep| == 1 && p <= |s| && |pieces| >= 1
    requires forall k :: 0 <= k < |pieces| ==> sep[0] !in pieces[k]
    requires s[p..] == Join(pieces, sep)
    ensures SplitFrom(s, sep, p) == pieces
  {
    JoinIsJoinedAt(s, sep, p, pieces);
    SplitJoinedAt(s, sep, p, pieces);
  }

  /** The whitespace `trim` removes (ASCII only). */
  predicate IsSpace(c: char) {
    c == ' ' || c == '\t' || c == '\n' || c == '\r' || c == '\U{B}' || c == '\U{C}'
  }

  /** Neither end of `s` is whitespace. */
  predicate IsTrimmed(s: string) {
    s == [] || (!IsSpace(s[0]) && !IsSpace(s[|s| - 1]))
  }

  /** `s.trimStart()`: `s` without its leading whitespace. */
  function TrimStart(s: string): (r: string)
    ensures |r| <= |s| && r == s[|s| - |r|..]
    ensures forall k :: 0 <= k < |s| - |r| ==> IsSpace(s[k])
    ensures r == [] || !IsSpace(r[0])
  {
    if s != [] && IsSpace(s[0]) then
      var r := TrimStart(s[1..]);
      assert s[1..][|s| - 1 - |r|..] == s[|s| - |r|..];
      assert forall k :: 1 <= k < |s| - |r| ==> s[k] == s[1..][k - 1];
      r
    else s
  }

  /** `s.trimEnd()`: `s` without its trailing whitespace. */
  function TrimEnd(s: string): (r: string)
    ensures |r| <= |s| && r == s[..|r|]
    ensures forall k :: |r| <= k < |s| ==> IsSpace(s[k])
    ensures r == [] || !IsSpace(r[|r| - 1])
  {
    if s != [] && IsSpace(s[|s| - 1]) then
      var r := TrimEnd(s[..|s| - 1]);
      assert s[..|s| - 1][..|r|] == s[..|r|];
      r
    else s
  }

  /** `s.trim()`: `s` without its leading and trailing whitespace. */
  function Trim(s: string): (r: string)
    ensures IsTrimmed(r)
    ensures |r| <= |s|
  {
    var a := TrimStart(s);
    var r := TrimEnd(a);
    assert r != [] ==> r[0] == a[0];
    r
  }

  /**
   * `s.trim()` is a contiguous slice of `s`, and everything cut off on either
   * side of it is whitespace.
   */
  lemma TrimSlice(s: string) returns (i: nat)
    ensures i + |Trim(s)| <= |s| && Trim(s) == s[i..i + |Trim(s)|]
    ensures forall k :: 0 <= k < i ==> IsSpace(s[k])
    ensures forall k :: i + |Trim(s)| <= k < |s| ==> IsSpace(s[k])
  {
    var a := TrimStart(s);
    i := |s| - |a|;
    assert Trim(s) == s[i..i + |Trim(s)|];
  }

  /** `trim` changes a string exactly when one of its ends is whitespace. */
  lemma TrimFixed(s: string)
    ensures Trim(s) == s <==> IsTrimmed(s)
  {
    if IsTrimmed(s) && s != [] {
      var r := Trim(s);
      var i := TrimSlice(s);
      assert !IsSpace(s[0]) && !IsSpace(s[|s| - 1]);
      assert i == 0 && i + |r| == |s|;
    }
  }

  /** Every character of `s.trim()` is a character of `s`. */
  lemma TrimChars(s: string, c: char)
    requires c in Trim(s)
    ensures c in s
  {
    var r := Trim(s);
    var i := TrimSlice(s);
    var k :| 0 <= k < |r| && r[k] == c;
    assert s[i + k] == c;
  }

  /** `s.replace(/c/g, '')`: `s` with every `c` removed. */
  function RemoveAll(s: string, c: char): (r: string)
    ensures c !in r
    ensures c !in s ==> r == s
  {
    if s == [] then s
    else if s[0] == c then RemoveAll(s[1..], c)
    else [s[0]] + RemoveAll(s[1..], c)
  }

  /** Removing `c` drops every `c` and keeps every other character as often as it occurs. */
  lemma {:induction false} RemoveAllCount(s: string, c: char)
    ensures multiset(RemoveAll(s, c)) == multiset(s)[c := 0]
  {
    if s != [] {
      assert s == [s[0]] + s[1..];
      RemoveAllCount(s[1..], c);
    }
  }

  /** Removing `c` from one character keeps it exactly when it is not `c`. */
  lemma RemoveAllChar(x: char, c: char)
    ensures RemoveAll([x], c) == if x == c then [] else [x]
  {
    assert [x][1..] == [];
  }

  /** Removing `c` works piece by piece: the kept characters stay in their order. */
  lemma {:induction false} RemoveAllConcat(a: string, b: string, c: char)
    ensures RemoveAll(a + b, c) == RemoveAll(a, c) + RemoveAll(b, c)
  {
    if a == [] {
      assert a + b == b;
    } else {
      assert (a + b)[0] == a[0] && (a + b)[1..] == a[1..] + b;
      RemoveAllConcat(a[1..], b, c);
    }
  }

  /** Removing a character twice removes it once. */
  lemma RemoveAllIdempotent(s: string, c: char)
    ensures RemoveAll(RemoveAll(s, c), c) == RemoveAll(s, c)
  {
  }

  /** ASCII upper-casing of one character. */
  function UpperChar(c: char): char {
    if 'a' <= c <= 'z' then (c as int - 32) as char else c
  }

  /** `s.toUpperCase()` over ASCII letters. */
  function ToUpper(s: string): (r: string)
    ensures |r| == |s|
    ensures forall k :: 0 <= k < |s| ==> r[k] == UpperChar(s[k])
  {
    if s == [] then [] else [UpperChar(s[0])] + ToUpper(s[1..])
  }

  /** Upper-casing leaves no ASCII lower-case letter and is idempotent. */
  lemma ToUpperIdempotent(s: string)
    ensures forall k :: 0 <= k < |s| ==> !('a' <= ToUpper(s)[k] <= 'z')
    ensures ToUpper(ToUpper(s)) == ToUpper(s)
  {
  }

  /** `s.substring(0, n)` for `n >= 0`: at most the first `n` characters. */
  function Prefix(s: string, n: nat): (r: string)
    ensures |r| == if n < |s| then n else |s|
    ensures r <= s
  {
    if n < |s| then s[..n] else s
  }
}
