/**
 * `split_sentences` of scripts/vv_box.py (repeated character for character in
 * scripts/stream_play_sample.py): a reply is cut into the segments the
 * streaming pipeline synthesizes one by one.
 */
module Sentences {
  import opened Cleanup

  function Concat(parts: seq<string>): string
  {
    if |parts| == 0 then [] else parts[0] + Concat(parts[1..])
  }

  /** No character of `s` except possibly its last one is a sentence end. */
  predicate TermOnlyAtEnd(s: string) {
    forall i :: 0 <= i < |s| - 1 ==> !IsTerm(s[i])
  }

  /** `s` holds no sentence end at all. */
  predicate NoTerm(s: string) {
    forall i :: 0 <= i < |s| ==> !IsTerm(s[i])
  }

  /** Every text but the last ends in a sentence end, and none holds one earlier. */
  predicate SentenceShaped(texts: seq<string>) {
    && (forall k :: 0 <= k < |texts| - 1 ==> EndsInTerm(texts[k]))
    && (forall k :: 0 <= k < |texts| ==> TermOnlyAtEnd(texts[k]))
  }

  /** `s` is non-empty and its last character is a sentence end. */
  predicate EndsInTerm(s: string) {
    |s| > 0 && IsTerm(s[|s| - 1])
  }

  /**
   * `re.split(r"(?<=[。！？!?])", s)`: `s` is cut right after every sentence
   * end. The last piece is what follows the last sentence end (possibly
   * empty); every other piece ends in exactly one sentence end.
   */
  function SplitAfter(s: string): (pieces: seq<string>)
    ensures |pieces| >= 1
    ensures Concat(pieces) == s
    ensures pieces[0] <= s
    ensures |pieces| == 1 ==> pieces[0] == s
    ensures forall k :: 0 <= k < |pieces| - 1 ==> EndsInTerm(pieces[k])
    ensures forall k :: 0 <= k < |pieces| ==> TermOnlyAtEnd(pieces[k])
    ensures NoTerm(pieces[|pieces| - 1])
    decreases |s|
  {
    if |s| == 0 then [[]]
    else if IsTerm(s[0]) then
      var rest := SplitAfter(s[1..]);
      SplitTermFirst(s, rest);
      [[s[0]]] + rest
    else
      var rest := SplitAfter(s[1..]);
      SplitPlainFirst(s, rest);
      [[s[0]] + rest[0]] + rest[1..]
  }

  /** `pieces` is a split of `s` after its sentence ends, as `SplitAfter` promises. */
  predicate SplitOf(pieces: seq<string>, s: string) {
    && |pieces| >= 1
    && Concat(pieces) == s
    && pieces[0] <= s
    && (|pieces| == 1 ==> pieces[0] == s)
    && (forall k :: 0 <= k < |pieces| - 1 ==> EndsInTerm(pieces[k]))
    && (forall k :: 0 <= k < |pieces| ==> TermOnlyAtEnd(pieces[k]))
    && NoTerm(pieces[|pieces| - 1])
  }

  /** A sentence end in front becomes a piece of its own. */
  lemma SplitTermFirst(s: string, rest: seq<string>)
    requires |s| > 0 && IsTerm(s[0])
    requires SplitOf(rest, s[1..])
    ensures SplitOf([[s[0]]] + rest, s)
  {
    assert s == [s[0]] + s[1..];
    var pieces := [[s[0]]] + rest;
    assert pieces[1..] == rest;
    forall k | 0 <= k < |pieces| - 1 ensures EndsInTerm(pieces[k]) {
      if k > 0 { assert pieces[k] == rest[k - 1]; }
    }
    forall k | 0 <= k < |pieces| ensures TermOnlyAtEnd(pieces[k]) {
      if k > 0 { assert pieces[k] == rest[k - 1]; }
    }
  }

  /** Any other character in front joins the first piece. */
  lemma SplitPlainFirst(s: string, rest: seq<string>)
    requires |s| > 0 && !IsTerm(s[0])
    requires SplitOf(rest, s[1..])
    ensures SplitOf([[s[0]] + rest[0]] + rest[1..], s)
  {
    var first := [s[0]] + rest[0];
    var pieces := [first] + rest[1..];
    assert pieces[1..] == rest[1..];
    assert Concat(rest) == rest[0] + Concat(rest[1..]);
    assert first + Concat(rest[1..]) == [s[0]] + Concat(rest);
    assert s == [s[0]] + s[1..];
    assert forall i :: 0 < i < |first| ==> first[i] == rest[0][i - 1];
    forall k | 0 <= k < |pieces| - 1 ensures EndsInTerm(pieces[k]) {
      if k > 0 { assert pieces[k] == rest[k]; }
    }
    forall k | 0 <= k < |pieces| ensures TermOnlyAtEnd(pieces[k]) {
      if k > 0 { assert pieces[k] == rest[k]; }
    }
    if |pieces| == 1 {
      assert |rest| == 1;
    }
  }

  /** `[p.strip() for p in pieces if p.strip()]`. */
  function StripNonBlank(pieces: seq<string>): (parts: seq<string>)
    ensures |parts| <= |pieces|
    ensures forall k :: 0 <= k < |parts| ==> |parts[k]| > 0 && Strip(parts[k]) == parts[k]
  {
    if |pieces| == 0 then []
    else
      var h := Strip(pieces[0]);
      StripStripped(pieces[0]);
      (if |h| > 0 then [h] else []) + StripNonBlank(pieces[1..])
  }

  /**
   * The comprehension works piece by piece: the parts of a concatenation of
   * piece lists are the parts of each, in order, and a single piece gives its
   * stripped text when that is not blank and nothing otherwise.
   */
  lemma {:induction false} StripNonBlankConcat(a: seq<string>, b: seq<string>)
    ensures StripNonBlank(a + b) == StripNonBlank(a) + StripNonBlank(b)
    decreases |a|
  {
    if |a| == 0 {
      assert a + b == b;
    } else {
      assert (a + b)[0] == a[0] && (a + b)[1..] == a[1..] + b;
      var first := StripNonBlankOne(a[0]);
      StripNonBlankConcat(a[1..], b);
      assert StripNonBlank(a + b) == first + (StripNonBlank(a[1..]) + StripNonBlank(b));
    }
  }

  lemma StripNonBlankOne(p: string) returns (first: seq<string>)
    ensures first == if |Strip(p)| > 0 then [Strip(p)] else []
    ensures StripNonBlank([p]) == first
    ensures forall rest :: StripNonBlank([p] + rest) == first + StripNonBlank(rest)
  {
    first := if |Strip(p)| > 0 then [Strip(p)] else [];
    forall rest ensures StripNonBlank([p] + rest) == first + StripNonBlank(rest) {
      assert ([p] + rest)[0] == p && ([p] + rest)[1..] == rest;
    }
    assert [p] == [p] + [];
  }

  /**
   * Line 215: `split_sentences(text)`. The segments are empty exactly for a
   * blank text; each is a non-empty stripped text holding a sentence end only
   * as its last character; all but the last end in one; and together they
   * spell the collapsed text minus the spaces that followed sentence ends.
   */
  function SplitSentences(text: string): (segments: seq<string>)
    ensures |segments| == 0 <==> AllWs(text)
    ensures forall k :: 0 <= k < |segments| ==>
      |segments[k]| > 0 && !IsWs(segments[k][0]) && !IsWs(segments[k][|segments[k]| - 1])
    ensures forall k :: 0 <= k < |segments| ==> TermOnlyAtEnd(segments[k])
    ensures forall k :: 0 <= k < |segments| - 1 ==> EndsInTerm(segments[k])
    ensures Concat(segments) == DropSpaceAfterTerm(Collapse(text))
  {
    var normalized := Collapse(text);
    if |normalized| == 0 then []
    else
      var parts := StripNonBlank(SplitAfter(normalized));
      SegmentsSpellText(normalized);
      PartsShape(SplitAfter(normalized));
      if |parts| > 0 then parts else [normalized]
  }

  /** The reference text the segments spell out: `s` minus each whitespace character right after a sentence end. */
  function DropSpaceAfterTerm(s: string): (r: string)
    ensures |s| > 0 ==> |r| > 0 && r[0] == s[0]
    decreases |s|
  {
    if |s| == 0 then []
    else if |s| >= 2 && IsTerm(s[0]) && IsWs(s[1]) then [s[0]] + DropSpaceAfterTerm(s[2..])
    else [s[0]] + DropSpaceAfterTerm(s[1..])
  }

  /** A sentence end is never whitespace. */
  lemma TermIsVisible(c: char)
    ensures IsTerm(c) ==> !IsWs(c)
  {
  }

  /** One leading whitespace character in front of a text with visible ends is stripped away. */
  lemma StripLeadingSpace(w: char, x: string)
    requires IsWs(w) && |x| > 0 && !IsWs(x[0]) && !IsWs(x[|x| - 1])
    ensures Strip([w] + x) == x
  {
    assert ([w] + x)[1..] == x;
    assert LStrip([w] + x) == LStrip(x) == x;
    StripVisibleEnds(x);
  }

  /** The first piece of a text with visible ends starts and ends with a visible character. */
  lemma FirstPieceVisible(s: string)
    requires |s| > 0 && !IsWs(s[0]) && !IsWs(s[|s| - 1])
    ensures var p := SplitAfter(s)[0]; |p| > 0 && !IsWs(p[0]) && !IsWs(p[|p| - 1])
  {
    var pieces := SplitAfter(s);
    var p := pieces[0];
    if |pieces| > 1 {
      assert EndsInTerm(p);
      TermIsVisible(p[|p| - 1]);
    }
    assert p[0] == s[0];
  }

  lemma ConcatCons(h: string, rest: seq<string>)
    ensures Concat([h] + rest) == h + Concat(rest)
  {
    assert ([h] + rest)[1..] == rest;
  }

  /** The first piece followed by the stripped later pieces spells `s` minus the whitespace after each sentence end. */
  predicate Joins(s: string) {
    var pieces := SplitAfter(s);
    pieces[0] + Concat(StripNonBlank(pieces[1..])) == DropSpaceAfterTerm(s)
  }

  /**
   * The heart of lines 216-220: for a text without whitespace runs or trailing
   * whitespace, the first piece followed by the stripped later pieces spells
   * the text minus the whitespace after each sentence end.
   */
  lemma {:induction false} SplitJoin(s: string)
    requires NoWsRun(s)
    requires |s| > 0 ==> !IsWs(s[|s| - 1])
    ensures Joins(s)
    decreases |s|
  {
    if |s| == 0 {
      return;
    }
    SliceTidy(s, 1, |s|);
    assert s[1..|s|] == s[1..];
    if !IsTerm(s[0]) {
      SplitJoin(s[1..]);
      JoinPlain(s);
    } else if |s| == 1 {
      var pieces := SplitAfter(s);
      assert pieces == [[s[0]], []];
      assert StripNonBlank(pieces[1..]) == [];
    } else if IsWs(s[1]) {
      assert |s| - 1 != 1;
      assert !WsPairAt(s, 1);
      SliceTidy(s, 2, |s|);
      assert s[2..|s|] == s[2..];
      SplitJoin(s[2..]);
      JoinTermSpace(s);
    } else {
      SplitJoin(s[1..]);
      JoinTermVisible(s);
    }
  }

  lemma JoinPlain(s: string)
    requires |s| > 0 && !IsTerm(s[0])
    requires Joins(s[1..])
    ensures Joins(s)
  {
    var pieces := SplitAfter(s);
    var q := SplitAfter(s[1..]);
    var tail := Concat(StripNonBlank(q[1..]));
    assert pieces[0] == [s[0]] + q[0] && pieces[1..] == q[1..];
    assert q[0] + tail == DropSpaceAfterTerm(s[1..]) by {
      assert Joins(s[1..]);
    }
    assert DropSpaceAfterTerm(s) == [s[0]] + DropSpaceAfterTerm(s[1..]);
    assert pieces[0] + Concat(StripNonBlank(pieces[1..])) == ([s[0]] + q[0]) + tail;
    ConcatAssoc([s[0]], q[0], tail);
  }

  lemma ConcatAssoc(a: string, b: string, c: string)
    ensures (a + b) + c == a + (b + c)
  {
  }

  lemma JoinTermVisible(s: string)
    requires |s| > 1 && IsTerm(s[0]) && !IsWs(s[1]) && !IsWs(s[|s| - 1])
    requires Joins(s[1..])
    ensures Joins(s)
  {
    var pieces := SplitAfter(s);
    var q := SplitAfter(s[1..]);
    FirstPieceVisible(s[1..]);
    StripVisibleEnds(q[0]);
    assert pieces[1..] == q;
    assert StripNonBlank(q) == [q[0]] + StripNonBlank(q[1..]);
    ConcatCons(q[0], StripNonBlank(q[1..]));
  }

  lemma JoinTermSpace(s: string)
    requires |s| > 2 && IsTerm(s[0]) && IsWs(s[1]) && !IsWs(s[2]) && !IsWs(s[|s| - 1])
    requires Joins(s[2..])
    ensures Joins(s)
  {
    var pieces := SplitAfter(s);
    var q := SplitAfter(s[1..]);
    assert s[1..][1..] == s[2..];
    var r := SplitAfter(s[2..]);
    TermIsVisible(s[1]);
    assert q[0] == [s[1]] + r[0] && q[1..] == r[1..];
    FirstPieceVisible(s[2..]);
    StripLeadingSpace(s[1], r[0]);
    assert pieces[1..] == q;
    assert StripNonBlank(q) == [r[0]] + StripNonBlank(r[1..]);
    ConcatCons(r[0], StripNonBlank(r[1..]));
  }

  /** Stripping keeps a piece's sentence-end shape. */
  lemma StripKeepsShape(p: string)
    ensures TermOnlyAtEnd(p) ==> TermOnlyAtEnd(Strip(p))
    ensures EndsInTerm(p) ==> Strip(p) == LStrip(p) && EndsInTerm(Strip(p))
  {
    StripSlice(p);
    var l := LStrip(p);
    var r := Strip(p);
    var a := |p| - |l|;
    if TermOnlyAtEnd(p) {
      forall i | 0 <= i < |r| - 1
        ensures !IsTerm(r[i])
      {
        assert r[i] == l[i] == p[a + i];
      }
    }
    if EndsInTerm(p) {
      TermIsVisible(p[|p| - 1]);
      assert l[|l| - 1] == p[|p| - 1];
      assert RStrip(l) == l;
    }
  }

  /** The stripped, non-blank pieces keep the shape of the pieces they come from. */
  lemma {:induction false} PartsShape(pieces: seq<string>)
    requires SentenceShaped(pieces)
    ensures SentenceShaped(StripNonBlank(pieces))
  {
    if |pieces| > 0 {
      var h := Strip(pieces[0]);
      var rest := StripNonBlank(pieces[1..]);
      ShapedTail(pieces);
      PartsShape(pieces[1..]);
      StripKeepsShape(pieces[0]);
      if |h| > 0 {
        assert StripNonBlank(pieces) == [h] + rest;
        if |rest| > 0 {
          assert EndsInTerm(pieces[0]);
        }
        ShapedCons(h, rest);
      } else {
        assert StripNonBlank(pieces) == rest;
      }
    }
  }

  lemma ShapedTail(texts: seq<string>)
    requires SentenceShaped(texts) && |texts| > 0
    ensures SentenceShaped(texts[1..])
  {
    var t := texts[1..];
    forall k | 0 <= k < |t| - 1
      ensures EndsInTerm(t[k])
    {
      assert t[k] == texts[k + 1];
    }
    forall k | 0 <= k < |t|
      ensures TermOnlyAtEnd(t[k])
    {
      assert t[k] == texts[k + 1];
    }
  }

  lemma ShapedCons(h: string, rest: seq<string>)
    requires SentenceShaped(rest) && TermOnlyAtEnd(h)
    requires |rest| > 0 ==> EndsInTerm(h)
    ensures SentenceShaped([h] + rest)
  {
    var t := [h] + rest;
    forall k | 0 < k < |t| - 1
      ensures EndsInTerm(t[k])
    {
      assert t[k] == rest[k - 1];
    }
    forall k | 0 < k < |t|
      ensures TermOnlyAtEnd(t[k])
    {
      assert t[k] == rest[k - 1];
    }
  }

  /**
   * Lines 216-220 for a non-blank collapsed text: the first piece survives
   * stripping unchanged, so the segments spell the text minus the spaces after
   * sentence ends, and the `or [normalized]` fallback is never taken.
   */
  lemma SegmentsSpellText(n: string)
    requires Collapsed(n) && |n| > 0
    ensures var parts := StripNonBlank(SplitAfter(n));
      |parts| > 0 && Concat(parts) == DropSpaceAfterTerm(n)
  {
    var pieces := SplitAfter(n);
    SplitJoin(n);
    assert Joins(n);
    FirstPieceVisible(n);
    StripVisibleEnds(pieces[0]);
    assert pieces == [pieces[0]] + pieces[1..];
    assert StripNonBlank(pieces) == [pieces[0]] + StripNonBlank(pieces[1..]);
    ConcatCons(pieces[0], StripNonBlank(pieces[1..]));
  }
}
