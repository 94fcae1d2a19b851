/** Joining pieces of text with a separator, and splitting them again. */
module Text {

  /** Splits at every occurrence of a separator; the pieces never contain it. */
  function Split(s: string, separator: char): (pieces: seq<string>)
    ensures |pieces| >= 1
  {
    if s == "" then [""]
    else if s[0] == separator then [""] + Split(s[1..], separator)
    else var rest := Split(s[1..], separator); [[s[0]] + rest[0]] + rest[1..]
  }

  function Join(pieces: seq<string>, separator: char): string {
    if pieces == [] then ""
    else if |pieces| == 1 then pieces[0]
    else pieces[0] + [separator] + Join(pieces[1..], separator)
  }

  lemma {:induction false} SplitJoin(pieces: seq<string>, c: char)
    requires |pieces| >= 1
    requires forall p :: p in pieces ==> c !in p
    ensures Split(Join(pieces, c), c) == pieces
    decreases |pieces|
  {
    assert pieces[0] in pieces;
    if |pieces| == 1 {
      SplitWithout(pieces[0], c);
    } else {
      SplitJoin(pieces[1..], c);
      SplitFirst(pieces[0], Join(pieces[1..], c), c);
      assert pieces == [pieces[0]] + pieces[1..];
    }
  }

  lemma {:induction false} SplitWithout(s: string, c: char)
    requires c !in s
    ensures Split(s, c) == [s]
    decreases |s|
  {
    if s != "" {
      SplitWithout(s[1..], c);
      assert s == [s[0]] + s[1..];
    }
  }

  lemma {:induction false} SplitFirst(s: string, rest: string, c: char)
    requires c !in s
    ensures Split(s + [c] + rest, c) == [s] + Split(rest, c)
    decreases |s|
  {
    if s == "" {
      assert s + [c] + rest == [c] + rest;
    } else {
      SplitFirst(s[1..], rest, c);
      assert (s + [c] + rest)[1..] == s[1..] + [c] + rest;
      assert s == [s[0]] + s[1..];
    }
  }

  lemma HeadIsNotShorter(s: string, t: string, p: string, q: string, c: char)
    requires c !in t && s + [c] + p == t + [c] + q
    ensures |s| >= |t|
  {
    assert (s + [c] + p)[|s|] == c;
    assert forall i :: 0 <= i < |t| ==> (t + [c] + q)[i] == t[i];
  }

  /** Text up to the first separator, and what follows it, are determined by the whole. */
  lemma SameHead(s: string, t: string, p: string, q: string, c: char)
    requires c !in s && c !in t && s + [c] + p == t + [c] + q
    ensures s == t && p == q
  {
    HeadIsNotShorter(s, t, p, q, c);
    HeadIsNotShorter(t, s, q, p, c);
    assert s == (s + [c] + p)[..|s|] && t == (t + [c] + q)[..|s|];
    assert p == (s + [c] + p)[|s| + 1..] && q == (t + [c] + q)[|s| + 1..];
  }

  /** Either there is no separator, or splitting gives what stands before the first
      one and the pieces of what follows it. */
  lemma {:induction false} FirstPiece(s: string, c: char) returns (tail: string)
    ensures if c in s then s == Split(s, c)[0] + [c] + tail && Split(s, c) == [Split(s, c)[0]] + Split(tail, c) && c !in Split(s, c)[0]
            else Split(s, c) == [s]
    decreases |s|
  {
    tail := "";
    if c !in s {
      SplitWithout(s, c);
    } else if s[0] == c {
      tail := s[1..];
      assert s == [] + [c] + tail;
    } else {
      tail := FirstPiece(s[1..], c);
      assert s == [s[0]] + s[1..];
      assert c in s[1..];
    }
  }

  /** A piece of `s` stands at position `i`, between separators or ends. */
  predicate StandsAt(s: string, piece: string, c: char, i: int) {
    && 0 <= i <= |s| - |piece| && s[i..i + |piece|] == piece
    && (i == 0 || s[i - 1] == c) && (i + |piece| == |s| || s[i + |piece|] == c)
  }

  /** The pieces are exactly what stands between separators or ends. */
  lemma {:induction false} PieceIff(s: string, piece: string, c: char)
    requires c !in piece
    ensures piece in Split(s, c) <==> exists i :: StandsAt(s, piece, c, i)
    decreases |s|
  {
    hide StandsAt;
    var tail := FirstPiece(s, c);
    if c !in s {
      WholeStandsIff(s, piece, c);
    } else {
      var head := Split(s, c)[0];
      PieceIff(tail, piece, c);
      forall i | StandsAt(tail, piece, c, i)
        ensures StandsAt(s, piece, c, |head| + 1 + i)
      {
        StandsInWhole(head, tail, piece, c, i);
      }
      HeadStands(head, tail, c);
      forall i | StandsAt(s, piece, c, i)
        ensures piece == head || StandsAt(tail, piece, c, i - |head| - 1)
      {
        StandsInHeadOrTail(head, tail, piece, c, i);
      }
    }
  }

  lemma WholeStandsIff(s: string, piece: string, c: char)
    requires c !in s
    ensures (exists i :: StandsAt(s, piece, c, i)) <==> piece == s
  {
    assert forall k :: 0 <= k < |s| ==> s[k] != c;
    assert StandsAt(s, s, c, 0);
  }

  lemma HeadStands(head: string, tail: string, c: char)
    ensures StandsAt(head + [c] + tail, head, c, 0)
  {
  }

  lemma StandsInWhole(head: string, tail: string, piece: string, c: char, i: int)
    requires StandsAt(tail, piece, c, i)
    ensures StandsAt(head + [c] + tail, piece, c, |head| + 1 + i)
  {
    var s, n := head + [c] + tail, |head| + 1;
    assert forall k :: 0 <= k < |tail| ==> s[n + k] == tail[k];
    assert s[n + i..n + i + |piece|] == tail[i..i + |piece|];
  }

  lemma StandsInHeadOrTail(head: string, tail: string, piece: string, c: char, i: int)
    requires c !in piece && c !in head && StandsAt(head + [c] + tail, piece, c, i)
    ensures piece == head || StandsAt(tail, piece, c, i - |head| - 1)
  {
    var s, n := head + [c] + tail, |head| + 1;
    assert forall k :: 0 <= k < |head| ==> s[k] == head[k] && head[k] in head;
    assert s[|head|] == c;
    assert forall k :: 0 <= k < |tail| ==> s[n + k] == tail[k];
    assert forall k :: 0 <= k < |piece| ==> s[i + k] == piece[k] && piece[k] in piece;
    if i == 0 {
      assert |piece| <= |head|;
      assert piece == head;
    } else {
      assert i - 1 >= |head|;
      assert s[i..i + |piece|] == tail[i - n..i - n + |piece|];
    }
  }

  /** The last piece is what stands at the end. */
  lemma {:induction false} LastPieceIff(s: string, piece: string, c: char)
    requires c !in piece
    ensures Split(s, c)[|Split(s, c)| - 1] == piece <==> s == piece || (|s| > |piece| && s[|s| - |piece| - 1..] == [c] + piece)
    decreases |s|
  {
    var tail := FirstPiece(s, c);
    if c !in s {
      if |s| > |piece| {
        EndsWithout(s, piece, c);
      }
    } else {
      var head := Split(s, c)[0];
      LastPieceIff(tail, piece, c);
      EndsInTail(head, tail, piece, c);
    }
  }

  lemma EndsWithout(s: string, piece: string, c: char)
    requires c !in s && |s| > |piece|
    ensures s[|s| - |piece| - 1..] != [c] + piece
  {
    var t := s[|s| - |piece| - 1..];
    assert t[0] in s;
  }

  lemma EndsInTail(head: string, tail: string, piece: string, c: char)
    requires c !in piece && c !in head
    ensures var s := head + [c] + tail;
            (s == piece || (|s| > |piece| && s[|s| - |piece| - 1..] == [c] + piece))
            <==> tail == piece || (|tail| > |piece| && tail[|tail| - |piece| - 1..] == [c] + piece)
  {
    var s := head + [c] + tail;
    assert s[|head|] == c;
    assert s != piece;
    if |s| > |piece| {
      var k := |s| - |piece| - 1;
      if k > |head| {
        assert s[k..] == tail[k - |head| - 1..];
      } else if k == |head| {
        assert s[k..] == [c] + tail;
        assert ([c] + piece)[1..] == piece && ([c] + tail)[1..] == tail;
      } else {
        assert s[k] == head[k] && head[k] in head;
        assert s[k..][0] == s[k];
      }
    }
  }
}
