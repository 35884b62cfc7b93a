/**
 * `normalize_text` and `normalize_direct_text` of scripts/vv_box.py: the
 * length and ending policy applied to a reply after cleanup.
 */
module Normalize {
  import opened Wrappers
  import opened Cleanup

  /** Python's `s[:k]`, where a negative `k` counts from the end. */
  function PyPrefix(s: string, k: int): (r: string)
    ensures r <= s
    ensures 0 <= k <= |s| ==> |r| == k
    ensures k > |s| ==> r == s
    ensures k < 0 ==> |r| == if |s| + k >= 0 then |s| + k else 0
  {
    if k >= 0 then (if k <= |s| then s[..k] else s)
    else if |s| + k >= 0 then s[..|s| + k]
    else []
  }

  /** Python's `s.rfind(c)`: the last index holding `c`, or -1. */
  function RFind(s: string, c: char): (i: int)
    ensures -1 <= i < |s|
    ensures i >= 0 ==> s[i] == c
    ensures forall j :: i < j < |s| ==> s[j] != c
    decreases |s|
  {
    if |s| == 0 then -1
    else if s[|s| - 1] == c then |s| - 1
    else RFind(s[..|s| - 1], c)
  }

  /** Line 174: `max(head.rfind("。"), head.rfind("！"), head.rfind("？"))`, the last sentence end in `head`. */
  function LastStrongTerm(head: string): (idx: int)
    ensures -1 <= idx < |head|
    ensures idx >= 0 ==> IsStrongTerm(head[idx])
    ensures forall j :: idx < j < |head| ==> !IsStrongTerm(head[j])
  {
    var a := RFind(head, '。');
    var b := RFind(head, '！');
    var c := RFind(head, '？');
    if a >= b && a >= c then a else if b >= c then b else c
  }

  /** Lines 169-170: the text with `。` appended unless it already ends in one of `。！？`. */
  function Terminated(t: string): (u: string)
    ensures |u| > 0 && IsStrongTerm(u[|u| - 1])
    ensures |t| > 0 && IsStrongTerm(t[|t| - 1]) ==> u == t
    ensures !(|t| > 0 && IsStrongTerm(t[|t| - 1])) ==> |u| == |t| + 1 && u[..|t|] == t
  {
    if |t| > 0 && IsStrongTerm(t[|t| - 1]) then t else t + "。"
  }

  /** `head` has a sentence end at an index of at least `minChars - 1`. */
  predicate CutWithin(head: string, minChars: int) {
    exists i :: 0 <= i < |head| && minChars - 1 <= i && IsStrongTerm(head[i])
  }

  /** Line 175: the test on the last sentence end in `head`, as a property of `head` itself. */
  lemma CutCondition(head: string, minChars: int)
    ensures LastStrongTerm(head) >= minChars - 1 <==> minChars <= 0 || CutWithin(head, minChars)
  {
    var idx := LastStrongTerm(head);
    if idx >= minChars - 1 && idx >= 0 {
      assert IsStrongTerm(head[idx]);
    }
    if CutWithin(head, minChars) {
      var i :| 0 <= i < |head| && minChars - 1 <= i && IsStrongTerm(head[i]);
      assert i <= idx;
    }
  }

  /**
   * Lines 172-178: a terminated text longer than `maxChars` is cut after the
   * last sentence end within its first `maxChars + 1` characters when that cut
   * keeps at least `minChars` characters, and otherwise hard-cut to `maxChars`
   * characters, right-stripped, with `。` appended. With `minChars` below 1
   * and no sentence end in the head, the cut keeps nothing.
   */
  function Truncate(u: string, minChars: int, maxChars: int): (v: string)
    requires |u| > 0 && IsStrongTerm(u[|u| - 1])
    ensures |v| > 0 ==> IsStrongTerm(v[|v| - 1]) && v[..|v| - 1] <= u[..|u| - 1]
    ensures |v| == 0 ==> minChars <= 0
    ensures |v| <= |u|
    ensures maxChars >= 0 ==> |v| <= maxChars + 1
    ensures |u| <= maxChars ==> v == u
  {
    if |u| > maxChars then
      var head := PyPrefix(u, maxChars + 1);
      var idx := LastStrongTerm(head);
      if idx >= minChars - 1 then
        if idx >= 0 then
          assert head[..idx + 1][..idx] == u[..idx];
          head[..idx + 1]
        else []
      else
        var p := PyPrefix(u, maxChars);
        var q := RStrip(p);
        assert (q + "。")[..|q|] == q;
        assert q <= p[..|p|] && p <= u[..|u| - 1];
        q + "。"
    else u
  }

  /**
   * Lines 172-178, where the cut of a too long text falls. When the first
   * `maxChars + 1` characters hold a sentence end at index `minChars - 1` or
   * later (or `minChars` is below 1), the result is the prefix of them that
   * ends at their last sentence end, and it keeps at least `minChars`
   * characters. Otherwise the first `maxChars` characters are right-stripped
   * and given a `。`.
   */
  lemma TruncateCuts(u: string, minChars: int, maxChars: int)
    requires |u| > 0 && IsStrongTerm(u[|u| - 1])
    requires |u| > maxChars
    ensures var v := Truncate(u, minChars, maxChars);
      var head := PyPrefix(u, maxChars + 1);
      minChars <= 0 || CutWithin(head, minChars) ==>
        && v <= head
        && minChars <= |v|
        && (forall j :: |v| <= j < |head| ==> !IsStrongTerm(head[j]))
    ensures !(minChars <= 0 || CutWithin(PyPrefix(u, maxChars + 1), minChars)) ==>
      Truncate(u, minChars, maxChars) == RStrip(PyPrefix(u, maxChars)) + "。"
  {
    CutCondition(PyPrefix(u, maxChars + 1), minChars);
  }

  /**
   * Lines 165-182: the ending and length policy of `normalize_text`, applied
   * to the cleaned text `t`.
   */
  function ShapeReply(t: string, minChars: int, maxChars: int): (r: Option<string>)
    ensures |t| == 0 ==> r.None?
    ensures |t| > 0 && IsQuestion(t[|t| - 1]) ==> r.None?
    ensures r.Some? ==> minChars <= |r.value|
    ensures r.Some? && maxChars >= 0 ==> |r.value| <= maxChars + 1
    ensures r.Some? && |r.value| > 0 ==> IsStrongTerm(r.value[|r.value| - 1]) && r.value[..|r.value| - 1] <= t
    ensures r.Some? && |r.value| == 0 ==> minChars <= 0
    ensures r.Some? ==> |r.value| <= |t| + 1
    ensures |t| > 0 && !IsQuestion(t[|t| - 1]) && |Terminated(t)| <= maxChars ==>
      r == if minChars <= |Terminated(t)| then Some(Terminated(t)) else None
  {
    if |t| == 0 then None
    else if IsQuestion(t[|t| - 1]) then None
    else
      var u := Terminated(t);
      var v := Truncate(u, minChars, maxChars);
      if |v| < minChars then None else Some(v)
  }

  /**
   * Line 161: `normalize_text(text, min_chars, max_chars)`. An accepted text
   * ends a sentence; only a `minChars` below 1 lets the empty text through.
   */
  function NormalizeText(text: string, minChars: int, maxChars: int): (r: Option<string>)
    ensures r.Some? ==> minChars <= |r.value| <= |text| + 1
    ensures r.Some? && maxChars >= 0 ==> |r.value| <= maxChars + 1
    ensures r.Some? && |r.value| > 0 ==> IsStrongTerm(r.value[|r.value| - 1])
    ensures r.Some? && |r.value| == 0 ==> minChars <= 0
    ensures r.Some? && |r.value| > 0 ==> Content(r.value[..|r.value| - 1]) <= Content(text)
    ensures minChars <= maxChars ==>
      var t := Clean(text);
      (r.None? <==> |t| == 0 || IsQuestion(t[|t| - 1]) || |Terminated(t)| < minChars)
  {
    var t := Clean(text);
    ShapeFacts(t, minChars, maxChars);
    ShapeReply(t, minChars, maxChars)
  }

  /** What `NormalizeText` passes on about the policy: `ShapeRejects`, and that the reply keeps the content of the text. */
  lemma ShapeFacts(t: string, minChars: int, maxChars: int)
    requires Collapsed(t)
    ensures var r := ShapeReply(t, minChars, maxChars);
      && (minChars <= maxChars ==> (r.None? <==> |t| == 0 || IsQuestion(t[|t| - 1]) || |Terminated(t)| < minChars))
      && (r.Some? && |r.value| > 0 ==> Content(r.value[..|r.value| - 1]) <= Content(t))
  {
    if minChars <= maxChars {
      ShapeRejects(t, minChars, maxChars);
    }
    var r := ShapeReply(t, minChars, maxChars);
    if r.Some? && |r.value| > 0 {
      ContentOfPrefix(r.value[..|r.value| - 1], t);
    }
  }

  /** Line 185: `normalize_direct_text(text)`. */
  function NormalizeDirectText(text: string): (r: Option<string>)
    ensures r.None? <==> |Clean(text)| == 0
    ensures r.Some? ==> |r.value| > 0 && IsTerm(r.value[|r.value| - 1])
    ensures r.Some? ==> Collapsed(r.value)
    ensures r.Some? && IsTerm(Clean(text)[|Clean(text)| - 1]) ==> r.value == Clean(text)
    ensures r.Some? && !IsTerm(Clean(text)[|Clean(text)| - 1]) ==> r.value == Clean(text) + "。"
  {
    var t := Clean(text);
    if |t| == 0 then None
    else if IsTerm(t[|t| - 1]) then Some(t)
    else
      AppendVisibleKeepsCollapsed(t, '。');
      Some(t + "。")
  }

  /** Appending a visible character to a collapsed text keeps it collapsed. */
  lemma AppendVisibleKeepsCollapsed(t: string, c: char)
    requires Collapsed(t) && !IsWs(c)
    ensures Collapsed(t + [c])
  {
    var u := t + [c];
    forall i | 0 <= i < |u| - 1
      ensures !WsPairAt(u, i)
    {
      if i + 1 < |t| {
        assert u[i] == t[i] && u[i + 1] == t[i + 1];
        assert !WsPairAt(t, i);
      }
    }
  }

  /**
   * Lines 169-182: a cleaned text of at most `maxChars` characters that does
   * not end in a question mark is kept as it is, apart from the `。` added when
   * it lacks an ending, and rejected only when that is shorter than `minChars`.
   */
  lemma ShortTextKept(t: string, minChars: int, maxChars: int)
    requires Collapsed(t)
    requires 0 < |t| <= maxChars
    requires !IsQuestion(t[|t| - 1])
    ensures ShapeReply(t, minChars, maxChars)
         == if |Terminated(t)| >= minChars then Some(Terminated(t)) else None
  {
    var u := Terminated(t);
    if |u| > maxChars {
      // Only `t + "。"` can exceed the bound, by exactly one character.
      assert u == t + "。" && |u| == maxChars + 1;
      var head := PyPrefix(u, maxChars + 1);
      assert head == u;
      assert LastStrongTerm(head) == |u| - 1;
      assert PyPrefix(u, maxChars) == t;
      assert RStrip(t) == t;
    }
  }

  /**
   * Lines 165-181: for a cleaned text and bounds with `minChars <= maxChars`,
   * the policy rejects exactly the empty text, a question, and a text that
   * is too short even with its ending. Truncation never makes an accepted
   * text too short: a cut at a sentence end keeps at least `minChars`
   * characters by its own test, and a hard cut loses at most the one space
   * in front of the added `。`.
   */
  lemma ShapeRejects(t: string, minChars: int, maxChars: int)
    requires Collapsed(t) && minChars <= maxChars
    ensures ShapeReply(t, minChars, maxChars).None? <==>
      |t| == 0 || IsQuestion(t[|t| - 1]) || |Terminated(t)| < minChars
  {
    if |t| > 0 && !IsQuestion(t[|t| - 1]) {
      var u := Terminated(t);
      var head := PyPrefix(u, maxChars + 1);
      if |u| > maxChars && !(minChars <= 0 || CutWithin(head, minChars)) {
        if u != t {
          AppendVisibleKeepsCollapsed(t, '。');
          assert u == t + ['。'];
        }
        HardCutLength(u, maxChars);
      }
    }
  }

  /** A hard cut of a text without whitespace runs loses at most one trailing space. */
  lemma HardCutLength(u: string, maxChars: int)
    requires NoWsRun(u) && maxChars < |u|
    ensures |RStrip(PyPrefix(u, maxChars))| + 1 >= maxChars
  {
    if maxChars >= 0 {
      var p := PyPrefix(u, maxChars);
      SliceTidy(u, 0, maxChars);
      assert u[0..maxChars] == p;
      RStripOne(p);
    }
  }

  /** `rstrip()` of a text without whitespace runs drops at most one character. */
  lemma RStripOne(p: string)
    requires NoWsRun(p)
    ensures |RStrip(p)| + 1 >= |p|
  {
    if |p| >= 2 && IsWs(p[|p| - 1]) {
      assert !WsPairAt(p, |p| - 2);
      assert RStrip(p[..|p| - 1]) == p[..|p| - 1];
    }
  }

  /** The content of a prefix is a prefix of the content. */
  lemma {:induction false} ContentOfPrefix(a: string, b: string)
    requires a <= b
    ensures Content(a) <= Content(b)
  {
    assert b == a + b[|a|..];
    FilterConcat(a, b[|a|..], IsWsOrMarker);
  }

  /**
   * tests/test_vv_box.py:38-40 in general form: a text shorter than
   * `minChars - 1` characters cannot reach the minimum even with the added `。`.
   */
  lemma TooShortRejected(text: string, minChars: int, maxChars: int)
    requires |text| + 1 < minChars
    ensures NormalizeText(text, minChars, maxChars) == None
  {
  }

  /**
   * tests/test_vv_box.py:33-36 in general form: direct mode hands back a text
   * without whitespace untouched, with `。` added when it has no ending.
   */
  lemma DirectPlainTextTerminated(text: string)
    requires |text| > 0 && !IsTerm(text[|text| - 1])
    requires forall i :: 0 <= i < |text| ==> !IsWs(text[i])
    ensures NormalizeDirectText(text) == Some(text + "。")
  {
    CleanKeepsPlainText(text);
    DirectOfClean(text, text);
  }

  /** `normalize_direct_text` depends on the text only through its cleanup. */
  lemma DirectOfClean(text: string, t: string)
    requires Clean(text) == t && |t| > 0 && !IsTerm(t[|t| - 1])
    ensures NormalizeDirectText(text) == Some(t + "。")
  {
  }

  /**
   * Lines 172-176: when the cleaned text is too long and its character at
   * index `maxChars` ends a sentence, the reply keeps `maxChars + 1`
   * characters (with bounds 3 and 5, `abcde。x` gives `abcde。`).
   */
  lemma CutAtSentenceEnd(t: string, minChars: int, maxChars: int)
    requires 0 <= maxChars && minChars <= maxChars + 1
    requires maxChars < |t|
    requires IsStrongTerm(t[maxChars])
    requires !IsQuestion(t[|t| - 1])
    ensures ShapeReply(t, minChars, maxChars) == Some(t[..maxChars + 1])
  {
    var u := Terminated(t);
    assert u[..|t|] == t;
    var head := PyPrefix(u, maxChars + 1);
    assert head == t[..maxChars + 1];
    var idx := LastStrongTerm(head);
    assert idx == maxChars;
    assert head[..idx + 1] == head;
  }
}
