/**
 * The whitespace and list-marker cleanup that `normalize_text`,
 * `normalize_direct_text` and `split_sentences` in scripts/vv_box.py run
 * before anything else. The regular expressions of the source are written
 * out as explicit scans over a fixed whitespace set.
 */
module Cleanup {

  /** The whitespace set standing for Python's `\s` and for `str.strip()`. */
  predicate IsWs(c: char) {
    || c == ' ' || c == '\t' || c == '\n' || c == '\U{000B}' || c == '\U{000C}' || c == '\r'
    || c == '\U{00A0}' || c == '\U{3000}'
  }

  /** The list-marker characters `[\-\*]`. */
  predicate IsMarker(c: char) {
    c == '-' || c == '*'
  }

  /** `[。！？]`: the endings `normalize_text` accepts. */
  predicate IsStrongTerm(c: char) {
    c == '。' || c == '！' || c == '？'
  }

  /** `[。！？!?]`: the endings `normalize_direct_text` and `split_sentences` accept. */
  predicate IsTerm(c: char) {
    IsStrongTerm(c) || c == '!' || c == '?'
  }

  /** The question marks a speakable reply may not end with. */
  predicate IsQuestion(c: char) {
    c == '?' || c == '？'
  }

  predicate AllWs(s: string) {
    forall i :: 0 <= i < |s| ==> IsWs(s[i])
  }

  /** Every whitespace character of `s` is a plain space (no `\r`, `\n`, tab, ...). */
  predicate SpacesOnly(s: string) {
    forall i :: 0 <= i < |s| && IsWs(s[i]) ==> s[i] == ' '
  }

  /** Positions `i` and `i + 1` of `s` both hold whitespace. */
  predicate WsPairAt(s: string, i: int)
    requires 0 <= i < |s| - 1
  {
    IsWs(s[i]) && IsWs(s[i + 1])
  }

  /** No two whitespace characters are adjacent in `s`. */
  predicate NoWsRun(s: string) {
    forall i :: 0 <= i < |s| - 1 ==> !WsPairAt(s, i)
  }

  /** The shape `re.sub(r"\s+", " ", s).strip()` produces. */
  predicate Collapsed(s: string) {
    && SpacesOnly(s)
    && NoWsRun(s)
    && (|s| > 0 ==> !IsWs(s[0]) && !IsWs(s[|s| - 1]))
  }

  predicate IsWsOrMarker(c: char) {
    IsWs(c) || IsMarker(c)
  }

  /** The characters of `s` that `drop` does not single out, in their order. */
  function Filter(s: string, drop: char -> bool): (r: string)
    ensures |r| <= |s|
  {
    if |s| == 0 then [] else (if drop(s[0]) then [] else [s[0]]) + Filter(s[1..], drop)
  }

  /** The visible (non-whitespace) characters of `s`, in order. */
  function Visible(s: string): string {
    Filter(s, IsWs)
  }

  /** The characters of `s` other than whitespace and list markers, in order. */
  function Content(s: string): string {
    Filter(s, IsWsOrMarker)
  }

  /** `drop` singles out every whitespace character (and maybe more). */
  predicate DropsWs(drop: char -> bool) {
    forall c :: IsWs(c) ==> drop(c)
  }

  lemma {:induction false} FilterConcat(a: string, b: string, drop: char -> bool)
    ensures Filter(a + b, drop) == Filter(a, drop) + Filter(b, drop)
    decreases |a|
  {
    if |a| == 0 {
      assert a + b == b;
    } else {
      assert (a + b)[1..] == a[1..] + b;
      FilterConcat(a[1..], b, drop);
    }
  }

  /** A word of `s.split()`: a non-empty run of visible characters. */
  predicate IsWord(w: string) {
    |w| > 0 && forall j :: 0 <= j < |w| ==> !IsWs(w[j])
  }

  /** `s.split()`: the maximal runs of visible characters of `s`, in order. */
  function Words(s: string): (ws: seq<string>)
    ensures forall k :: 0 <= k < |ws| ==> IsWord(ws[k])
    ensures |s| > 0 && !IsWs(s[0]) ==> |ws| > 0 && |ws[0]| > 0 && ws[0][0] == s[0]
    decreases |s|
  {
    if |s| == 0 then []
    else if IsWs(s[0]) then Words(s[1..])
    else if |s| > 1 && !IsWs(s[1]) then
      var rest := Words(s[1..]);
      [[s[0]] + rest[0]] + rest[1..]
    else [[s[0]]] + Words(s[1..])
  }

  /** `" ".join(ws)`. */
  function JoinSpaces(ws: seq<string>): string
    decreases |ws|
  {
    if |ws| == 0 then "" else if |ws| == 1 then ws[0] else ws[0] + " " + JoinSpaces(ws[1..])
  }

  /** A word that is a lone list marker, `-` or `*`. */
  predicate IsMarkerWord(w: string) {
    |w| == 1 && IsMarker(w[0])
  }

  /** `vs` is `ws` with some of its lone-marker words deleted and nothing else changed. */
  predicate MarkerWordsDropped(ws: seq<string>, vs: seq<string>)
    decreases |ws|
  {
    if |ws| == 0 then vs == []
    else
      || (|vs| > 0 && vs[0] == ws[0] && MarkerWordsDropped(ws[1..], vs[1..]))
      || (IsMarkerWord(ws[0]) && MarkerWordsDropped(ws[1..], vs))
  }

  /**
   * Which words the list-marker substitution deletes from a text without
   * trailing whitespace. Word `i` goes exactly when it is a lone `-` or `*`,
   * it is not the last word, and the whitespace in front of it is still
   * there: it is the first word and `mayDrop` holds, or word `i - 1` was
   * kept (a deleted word's match swallows the whitespace after it).
   */
  function DropMarkersFrom(ws: seq<string>, mayDrop: bool): seq<string>
    decreases |ws|
  {
    if |ws| == 0 then []
    else if mayDrop && IsMarkerWord(ws[0]) && |ws| > 1 then DropMarkersFrom(ws[1..], false)
    else [ws[0]] + DropMarkersFrom(ws[1..], true)
  }

  /** The words line 164 of vv_box.py leaves, where `^` lets the first word go too. */
  function DropMarkers(ws: seq<string>): seq<string> {
    DropMarkersFrom(ws, true)
  }

  /**
   * A leading lone marker goes, a marker right after a deleted one stays,
   * and a marker that ends the text stays.
   */
  lemma DropMarkersExamples()
    ensures DropMarkers(["-", "a"]) == ["a"]
    ensures DropMarkers(["a", "-", "-", "b"]) == ["a", "-", "b"]
    ensures DropMarkers(["a", "*"]) == ["a", "*"]
  {
    DropMarkerWord("-", ["a"]);
    DropKeepWord("a", [], false);
    DropKeepWord("a", ["-", "-", "b"], true);
    DropMarkerWord("-", ["-", "b"]);
    DropKeepWord("-", ["b"], false);
    DropKeepWord("b", [], true);
    DropKeepWord("a", ["*"], true);
    DropKeepWord("*", [], true);
  }

  /** How one more character in front changes the words. */
  lemma {:induction false} WordsCons(c: char, x: string)
    ensures Words([c] + x) ==
      if IsWs(c) then Words(x)
      else if |x| > 0 && !IsWs(x[0]) then [[c] + Words(x)[0]] + Words(x)[1..]
      else [[c]] + Words(x)
  {
    assert ([c] + x)[1..] == x;
  }

  /** Whitespace at the end adds no word. */
  lemma {:induction false} WordsSnocWs(x: string, w: char)
    requires IsWs(w)
    ensures Words(x + [w]) == Words(x)
    decreases |x|
  {
    if |x| == 0 {
      assert x + [w] == [w] && [w][1..] == [];
    } else {
      var y := x[1..];
      WordsSnocWs(y, w);
      assert x + [w] == [x[0]] + (y + [w]);
      assert [x[0]] + y == x;
      WordsCons(x[0], y + [w]);
      WordsCons(x[0], y);
      if |y| == 0 {
        assert (y + [w])[0] == w;
      } else {
        assert (y + [w])[0] == y[0];
      }
    }
  }

  lemma {:induction false} WordsLStrip(s: string)
    ensures Words(LStrip(s)) == Words(s)
    decreases |s|
  {
    if |s| > 0 && IsWs(s[0]) {
      WordsLStrip(s[1..]);
    }
  }

  lemma {:induction false} WordsRStrip(s: string)
    ensures Words(RStrip(s)) == Words(s)
    decreases |s|
  {
    if |s| > 0 && IsWs(s[|s| - 1]) {
      var p := s[..|s| - 1];
      WordsRStrip(p);
      WordsSnocWs(p, s[|s| - 1]);
      assert s == p + [s[|s| - 1]];
    }
  }

  /** `strip()` keeps the words. */
  lemma WordsStrip(s: string)
    ensures Words(Strip(s)) == Words(s)
  {
    WordsLStrip(s);
    WordsRStrip(LStrip(s));
  }

  /** Prepending a character to the first word of `ws` prepends it to the joined text. */
  lemma {:induction false} JoinConsHead(c: char, ws: seq<string>)
    requires |ws| > 0
    ensures JoinSpaces([[c] + ws[0]] + ws[1..]) == [c] + JoinSpaces(ws)
  {
    var h := [c] + ws[0];
    var v := [h] + ws[1..];
    assert v[0] == h && v[1..] == ws[1..];
    if |ws| > 1 {
      var j := JoinSpaces(ws[1..]);
      assert JoinSpaces(v) == h + " " + j;
      assert JoinSpaces(ws) == ws[0] + " " + j;
      assert h + " " + j == [c] + (ws[0] + " " + j);
    }
  }

  /** Prepending a one-character word to `ws` prepends it and a space to the joined text. */
  lemma {:induction false} JoinConsWord(c: char, ws: seq<string>)
    requires |ws| > 0
    ensures JoinSpaces([[c]] + ws) == [c] + " " + JoinSpaces(ws)
  {
    assert ([[c]] + ws)[0] == [c] && ([[c]] + ws)[1..] == ws;
  }

  /** A suffix of a collapsed text that starts visible is collapsed. */
  lemma CollapsedTail(t: string, k: nat)
    requires Collapsed(t) && k < |t| && !IsWs(t[k])
    ensures Collapsed(t[k..])
  {
    SliceTidy(t, k, |t|);
    assert t[k..|t|] == t[k..];
  }

  /** A collapsed text is its words joined by single spaces. */
  lemma {:induction false} CollapsedJoin(t: string)
    requires Collapsed(t)
    ensures JoinSpaces(Words(t)) == t
    decreases |t|
  {
    if |t| > 1 {
      var c := t[0];
      var x := t[1..];
      assert t == [c] + x;
      WordsCons(c, x);
      if !IsWs(x[0]) {
        CollapsedTail(t, 1);
        CollapsedJoin(x);
        JoinConsHead(c, Words(x));
      } else {
        assert !WsPairAt(t, 0) && |t| > 2 && !WsPairAt(t, 1);
        var y := t[2..];
        CollapsedTail(t, 2);
        assert x == [x[0]] + y;
        WordsCons(x[0], y);
        CollapsedJoin(y);
        JoinConsWord(c, Words(y));
        assert x[0] == ' ';
      }
    }
  }

  /** `s.lstrip()`: the suffix of `s` left after its leading whitespace. */
  function LStrip(s: string): (r: string)
    ensures |r| <= |s|
    ensures |r| > 0 ==> !IsWs(r[0])
    ensures forall i :: 0 <= i < |s| - |r| ==> IsWs(s[i])
    decreases |s|
  {
    if |s| > 0 && IsWs(s[0]) then LStrip(s[1..]) else s
  }

  /** `s.lstrip()` is the suffix of `s` of its own length. */
  lemma {:induction false} LStripSuffix(s: string)
    ensures LStrip(s) == s[|s| - |LStrip(s)|..]
    decreases |s|
  {
    if |s| > 0 && IsWs(s[0]) {
      LStripSuffix(s[1..]);
      assert s[1..][|s| - 1 - |LStrip(s)|..] == s[|s| - |LStrip(s)|..];
    }
  }

  /** `s.rstrip()`: the prefix of `s` left after its trailing whitespace. */
  function RStrip(s: string): (r: string)
    ensures |r| <= |s| && r == s[..|r|]
    ensures |r| > 0 ==> !IsWs(r[|r| - 1])
    ensures forall i :: |r| <= i < |s| ==> IsWs(s[i])
    decreases |s|
  {
    if |s| > 0 && IsWs(s[|s| - 1]) then RStrip(s[..|s| - 1]) else s
  }

  /** `s.strip()`. The result is the slice of `s` between its leading and trailing whitespace. */
  function Strip(s: string): (r: string)
    ensures |r| <= |s|
    ensures |r| > 0 ==> !IsWs(r[0]) && !IsWs(r[|r| - 1])
    ensures |r| == 0 <==> AllWs(s)
  {
    LStripSuffix(s);
    RStrip(LStrip(s))
  }

  /** `strip()` is idempotent. */
  lemma StripStripped(s: string)
    ensures Strip(Strip(s)) == Strip(s)
  {
    var r := Strip(s);
    if |r| > 0 {
      assert LStrip(r) == r;
      assert RStrip(r) == r;
    }
  }

  /** Stripping a text whose ends are visible changes nothing. */
  lemma StripVisibleEnds(x: string)
    requires |x| > 0 ==> !IsWs(x[0]) && !IsWs(x[|x| - 1])
    ensures Strip(x) == x
  {
    if |x| > 0 {
      assert LStrip(x) == x;
      assert RStrip(x) == x;
    }
  }

  /** `s.strip()` is the slice of `s` between its leading and trailing whitespace. */
  lemma StripSlice(s: string)
    ensures |Strip(s)| <= |LStrip(s)| && Strip(s) == LStrip(s)[..|Strip(s)|]
    ensures LStrip(s) == s[|s| - |LStrip(s)|..]
  {
    LStripSuffix(s);
  }

  /** Leading whitespace is nothing a whitespace-dropping filter keeps. */
  lemma {:induction false} FilterLStrip(s: string, drop: char -> bool)
    requires DropsWs(drop)
    ensures Filter(LStrip(s), drop) == Filter(s, drop)
    decreases |s|
  {
    if |s| > 0 && IsWs(s[0]) {
      FilterLStrip(s[1..], drop);
    }
  }

  /** Trailing whitespace is nothing a whitespace-dropping filter keeps. */
  lemma {:induction false} FilterRStrip(s: string, drop: char -> bool)
    requires DropsWs(drop)
    ensures Filter(RStrip(s), drop) == Filter(s, drop)
    decreases |s|
  {
    if |s| > 0 && IsWs(s[|s| - 1]) {
      var p := s[..|s| - 1];
      FilterRStrip(p, drop);
      FilterConcat(p, [s[|s| - 1]], drop);
      assert s == p + [s[|s| - 1]];
      assert [s[|s| - 1]][1..] == [];
    }
  }

  /** `strip()` removes nothing but whitespace. */
  lemma FilterStrip(s: string, drop: char -> bool)
    requires DropsWs(drop)
    ensures Filter(Strip(s), drop) == Filter(s, drop)
  {
    FilterLStrip(s, drop);
    FilterRStrip(LStrip(s), drop);
  }

  /** `re.sub(r"\s+", " ", s)`: every maximal whitespace run becomes one space. */
  function CollapseRuns(s: string): (r: string)
    ensures |r| <= |s|
    ensures SpacesOnly(r) && NoWsRun(r)
    ensures |s| > 0 ==> |r| > 0 && (IsWs(r[0]) <==> IsWs(s[0]))
    decreases |s|
  {
    if |s| == 0 then []
    else if IsWs(s[0]) then
      var rest := CollapseRuns(LStrip(s));
      TidyCons(' ', rest);
      " " + rest
    else
      var rest := CollapseRuns(s[1..]);
      TidyCons(s[0], rest);
      [s[0]] + rest
  }

  /** Collapsing runs leaves a text blank exactly when it was blank. */
  lemma {:induction false} CollapseRunsBlank(s: string)
    ensures AllWs(CollapseRuns(s)) <==> AllWs(s)
    decreases |s|
  {
    if |s| > 0 {
      if IsWs(s[0]) {
        var t := LStrip(s);
        LStripSuffix(s);
        CollapseRunsBlank(t);
        AllWsConcat(s[..|s| - |t|], t);
        AllWsConcat(" ", CollapseRuns(t));
        assert s == s[..|s| - |t|] + t;
      } else {
        assert !IsWs(CollapseRuns(s)[0]);
      }
    }
  }

  /** Collapsing runs only rewrites whitespace: every other character survives, in order. */
  lemma {:induction false} CollapseRunsKeeps(s: string, drop: char -> bool)
    requires DropsWs(drop)
    ensures Filter(CollapseRuns(s), drop) == Filter(s, drop)
    decreases |s|
  {
    if |s| > 0 {
      if IsWs(s[0]) {
        var t := LStrip(s);
        CollapseRunsKeeps(t, drop);
        FilterLStrip(s, drop);
        FilterConcat(" ", CollapseRuns(t), drop);
        assert " "[1..] == [];
      } else {
        var rest := CollapseRuns(s[1..]);
        CollapseRunsKeeps(s[1..], drop);
        assert ([s[0]] + rest)[1..] == rest;
      }
    }
  }

  /** Collapsing runs keeps the words: it changes only what separates them. */
  lemma {:induction false} CollapseRunsWords(s: string)
    ensures Words(CollapseRuns(s)) == Words(s)
    decreases |s|
  {
    if |s| > 0 {
      if IsWs(s[0]) {
        var t := LStrip(s);
        CollapseRunsWords(t);
        WordsLStrip(s);
        WordsCons(' ', CollapseRuns(t));
      } else {
        var rest := CollapseRuns(s[1..]);
        CollapseRunsWords(s[1..]);
        WordsCons(s[0], rest);
        WordsCons(s[0], s[1..]);
        assert [s[0]] + s[1..] == s;
      }
    }
  }

  lemma AllWsConcat(a: string, b: string)
    ensures AllWs(a + b) <==> AllWs(a) && AllWs(b)
  {
    if AllWs(a) && AllWs(b) {
      forall i | 0 <= i < |a + b|
        ensures IsWs((a + b)[i])
      {
        if i >= |a| {
          assert (a + b)[i] == b[i - |a|];
        }
      }
    }
    if AllWs(a + b) {
      forall i | 0 <= i < |a|
        ensures IsWs(a[i])
      {
        assert (a + b)[i] == a[i];
      }
      forall i | 0 <= i < |b|
        ensures IsWs(b[i])
      {
        assert (a + b)[|a| + i] == b[i];
      }
    }
  }

  /**
   * `re.sub(r"(?:^|\s)[\-\*]\s+", " ", ...)` from an offset past the start of
   * the text: there only the `\s` alternative can open a match, the greedy
   * `\s+` swallows the whole run after the marker, and scanning resumes right
   * after the match.
   */
  function MarkersFrom(s: string): (r: string)
    ensures |r| <= |s|
    ensures |s| > 0 ==> |r| > 0 && (IsWs(r[0]) <==> IsWs(s[0]))
    ensures SpacesOnly(s) ==> SpacesOnly(r)
    ensures NoWsRun(s) ==> NoWsRun(r)
    decreases |s|
  {
    if |s| == 0 then []
    else if |s| >= 3 && IsWs(s[0]) && IsMarker(s[1]) && IsWs(s[2]) then
      var t := LStrip(s[2..]);
      LStripSuffix(s[2..]);
      SliceTidy(s, |s| - |t|, |s|);
      assert s[|s| - |t|..|s|] == t;
      var rest := MarkersFrom(t);
      TidyCons(' ', rest);
      " " + rest
    else
      SliceTidy(s, 1, |s|);
      assert s[1..|s|] == s[1..];
      var rest := MarkersFrom(s[1..]);
      assert NoWsRun(s) && |s| > 1 ==> !WsPairAt(s, 0);
      TidyCons(s[0], rest);
      [s[0]] + rest
  }

  /** Marker removal deletes only whitespace and markers: the content survives, in order. */
  lemma {:induction false} MarkersFromKeeps(s: string)
    ensures Content(MarkersFrom(s)) == Content(s)
    decreases |s|
  {
    if |s| >= 3 && IsWs(s[0]) && IsMarker(s[1]) && IsWs(s[2]) {
      var t := LStrip(s[2..]);
      MarkersFromKeeps(t);
      MarkerDropped(s, 2, MarkersFrom(t));
    } else if |s| > 0 {
      var rest := MarkersFrom(s[1..]);
      MarkersFromKeeps(s[1..]);
      assert ([s[0]] + rest)[1..] == rest;
    }
  }

  /** Marker removal keeps a visible last character. */
  lemma {:induction false} MarkersFromKeepsLast(s: string)
    requires |s| > 0 && !IsWs(s[|s| - 1])
    ensures |MarkersFrom(s)| > 0 && MarkersFrom(s)[|MarkersFrom(s)| - 1] == s[|s| - 1]
    decreases |s|
  {
    if |s| >= 3 && IsWs(s[0]) && IsMarker(s[1]) && IsWs(s[2]) {
      var t := LStrip(s[2..]);
      LastAfterStrip(s, 2);
      MarkersFromKeepsLast(t);
    } else if |s| > 1 {
      MarkersFromKeepsLast(s[1..]);
    }
  }

  /**
   * Marker removal deletes some lone `-`/`*` words and changes no other word;
   * from a visible first character, the first word is kept.
   */
  lemma {:induction false} MarkersFromWords(s: string)
    ensures MarkerWordsDropped(Words(s), Words(MarkersFrom(s)))
    ensures |s| > 0 && !IsWs(s[0]) ==>
      && Words(MarkersFrom(s))[0] == Words(s)[0]
      && MarkerWordsDropped(Words(s)[1..], Words(MarkersFrom(s))[1..])
    decreases |s|
  {
    if |s| >= 3 && IsWs(s[0]) && IsMarker(s[1]) && IsWs(s[2]) {
      var t := LStrip(s[2..]);
      MarkersFromWords(t);
      WordsLStrip(s[2..]);
      MarkerWordFirst(s, 1, MarkersFrom(t));
    } else if |s| > 0 {
      var rest := MarkersFrom(s[1..]);
      MarkersFromWords(s[1..]);
      WordsCons(s[0], rest);
      WordsCons(s[0], s[1..]);
      assert [s[0]] + s[1..] == s;
      if !IsWs(s[0]) {
        var a := Words(s[1..]);
        var b := Words(rest);
        if |s| > 1 && !IsWs(s[1]) {
          DroppedConsSame([s[0]] + a[0], a[1..], b[1..]);
        } else {
          DroppedConsSame([s[0]], a, b);
        }
      }
    }
  }

  /**
   * The words of `s` start with the lone marker `s[k]`, which only
   * whitespace precedes and follows; replacing everything up to `s[k + 1]`
   * by one space in front of `rest` drops that word.
   */
  lemma MarkerWordFirst(s: string, k: nat, rest: string)
    requires k + 1 < |s| && IsMarker(s[k]) && IsWs(s[k + 1])
    requires forall i :: 0 <= i < k ==> IsWs(s[i])
    requires MarkerWordsDropped(Words(s[k + 1..]), Words(rest))
    ensures MarkerWordsDropped(Words(s), Words(" " + rest))
  {
    WordsCons(' ', rest);
    WordsLStrip(s);
    assert LStrip(s) == s[k..] by {
      LStripSuffix(s);
    }
    assert s[k..] == [s[k]] + s[k + 1..];
    WordsCons(s[k], s[k + 1..]);
    assert ([[s[k]]] + Words(s[k + 1..]))[1..] == Words(s[k + 1..]);
  }

  /**
   * A text that does not start with a lone marker followed by whitespace has
   * a first word that cannot go, whether or not whitespace precedes it.
   */
  lemma {:induction false} FirstWordStays(s: string)
    requires |s| > 0 && !IsWs(s[0]) && !IsWs(s[|s| - 1])
    requires !(|s| >= 2 && IsMarker(s[0]) && IsWs(s[1]))
    ensures DropMarkersFrom(Words(s), true) == DropMarkersFrom(Words(s), false)
  {
    var a := Words(s);
    if |s| > 1 {
      assert s == [s[0]] + s[1..];
      WordsCons(s[0], s[1..]);
      if !IsWs(s[1]) {
        assert |a[0]| > 1;
      } else {
        assert !IsMarker(s[0]);
      }
    }
  }

  /**
   * Marker removal away from the start deletes exactly the words
   * `DropMarkersFrom` says, where a leading whitespace character lets the
   * first word go.
   */
  lemma {:induction false} MarkersFromDrops(s: string)
    requires |s| > 0 ==> !IsWs(s[|s| - 1])
    ensures Words(MarkersFrom(s)) == DropMarkersFrom(Words(s), |s| > 0 && IsWs(s[0]))
    decreases |s|
  {
    if |s| >= 3 && IsWs(s[0]) && IsMarker(s[1]) && IsWs(s[2]) {
      var t := LStrip(s[2..]);
      LStripSuffix(s[2..]);
      MarkersFromDrops(t);
      WordsLStrip(s[2..]);
      MarkerWordGone(s, 1, MarkersFrom(t));
    } else if |s| > 0 {
      var rest := MarkersFrom(s[1..]);
      MarkersFromDrops(s[1..]);
      WordsCons(s[0], rest);
      WordsCons(s[0], s[1..]);
      assert [s[0]] + s[1..] == s;
      var a := Words(s[1..]);
      if IsWs(s[0]) {
        if !IsWs(s[1]) {
          FirstWordStays(s[1..]);
        }
      } else if |s| > 1 {
        if !IsWs(s[1]) {
          DropKeepWord(a[0], a[1..], false);
          DropKeepWord([s[0]] + a[0], a[1..], false);
        } else {
          DropKeepWord([s[0]], a, false);
        }
      }
    }
  }

  /** The words of a text that ends visible are not empty. */
  lemma WordsNonEmpty(x: string)
    requires |x| > 0 && !IsWs(x[|x| - 1])
    ensures |Words(x)| > 0
  {
    LStripSuffix(x);
    WordsLStrip(x);
  }

  /** A lone marker word with more words after it goes when it may. */
  lemma {:induction false} DropMarkerWord(m: string, ws: seq<string>)
    requires IsMarkerWord(m) && |ws| > 0
    ensures DropMarkersFrom([m] + ws, true) == DropMarkersFrom(ws, false)
  {
    assert ([m] + ws)[0] == m && ([m] + ws)[1..] == ws;
  }

  /** A word that may not go, or is no lone marker, or is the last, stays. */
  lemma {:induction false} DropKeepWord(w: string, ws: seq<string>, mayDrop: bool)
    requires !(mayDrop && IsMarkerWord(w) && |ws| > 0)
    ensures DropMarkersFrom([w] + ws, mayDrop) == [w] + DropMarkersFrom(ws, true)
  {
    assert ([w] + ws)[0] == w && ([w] + ws)[1..] == ws;
  }

  /**
   * The lone marker `s[k]`, with only whitespace before it and whitespace
   * after it, goes when its match and the whitespace after it become one
   * space in front of `rest`.
   */
  lemma MarkerWordGone(s: string, k: nat, rest: string)
    requires k + 1 < |s| && IsMarker(s[k]) && IsWs(s[k + 1]) && !IsWs(s[|s| - 1])
    requires forall i :: 0 <= i < k ==> IsWs(s[i])
    requires Words(rest) == DropMarkersFrom(Words(s[k + 1..]), false)
    ensures Words(" " + rest) == DropMarkersFrom(Words(s), true)
  {
    WordsCons(' ', rest);
    WordsFromMarker(s, k);
    DropMarkerWord([s[k]], Words(s[k + 1..]));
  }

  /** The first word of `s` is the lone marker `s[k]`, and more words follow. */
  lemma WordsFromMarker(s: string, k: nat)
    requires k + 1 < |s| && IsMarker(s[k]) && IsWs(s[k + 1]) && !IsWs(s[|s| - 1])
    requires forall i :: 0 <= i < k ==> IsWs(s[i])
    ensures Words(s) == [[s[k]]] + Words(s[k + 1..]) && |Words(s[k + 1..])| > 0
  {
    WordsLStrip(s);
    assert LStrip(s) == s[k..] by {
      LStripSuffix(s);
    }
    assert s[k..] == [s[k]] + s[k + 1..];
    WordsCons(s[k], s[k + 1..]);
    WordsNonEmpty(s[k + 1..]);
  }

  /** Keeping the same word in front keeps the relation. */
  lemma {:induction false} DroppedConsSame(w: string, ws: seq<string>, vs: seq<string>)
    requires MarkerWordsDropped(ws, vs)
    ensures MarkerWordsDropped([w] + ws, [w] + vs)
    ensures ([w] + ws)[1..] == ws && ([w] + vs)[1..] == vs
  {
    assert ([w] + ws)[1..] == ws && ([w] + vs)[1..] == vs;
  }

  /**
   * Replacing the first `k` characters of `s`, all whitespace or markers,
   * by one space in front of `rest` keeps the content when `rest` keeps the
   * content of the stripped remainder.
   */
  lemma MarkerDropped(s: string, k: nat, rest: string)
    requires k <= |s| && forall i :: 0 <= i < k ==> IsWsOrMarker(s[i])
    requires Content(rest) == Content(LStrip(s[k..]))
    ensures Content(" " + rest) == Content(s)
  {
    FilterLStrip(s[k..], IsWsOrMarker);
    DroppedPrefix(s, k);
    assert (" " + rest)[1..] == rest;
  }

  /** Stripping what follows the first `k` characters keeps a visible last character. */
  lemma LastAfterStrip(s: string, k: nat)
    requires k < |s| && !IsWs(s[|s| - 1])
    ensures var t := LStrip(s[k..]); |t| > 0 && t[|t| - 1] == s[|s| - 1]
  {
    var t := LStrip(s[k..]);
    LStripSuffix(s[k..]);
    assert |t| > 0;
  }

  /** A prefix of whitespace and markers adds nothing to the content. */
  lemma {:induction false} DroppedPrefix(s: string, k: nat)
    requires k <= |s| && forall i :: 0 <= i < k ==> IsWsOrMarker(s[i])
    ensures Content(s) == Content(s[k..])
    decreases k
  {
    if k > 0 {
      DroppedPrefix(s[1..], k - 1);
      assert s[1..][k - 1..] == s[k..];
    }
  }

  /** The whole substitution: at offset 0 the `^` alternative is tried first. */
  function StripMarkers(s: string): (r: string)
    ensures |r| <= |s|
    ensures SpacesOnly(s) && NoWsRun(s) ==> SpacesOnly(r) && NoWsRun(r)
  {
    if |s| >= 2 && IsMarker(s[0]) && IsWs(s[1]) then
      var t := LStrip(s[1..]);
      LStripSuffix(s[1..]);
      SliceTidy(s, |s| - |t|, |s|);
      assert s[|s| - |t|..|s|] == t;
      var rest := MarkersFrom(t);
      TidyCons(' ', rest);
      " " + rest
    else MarkersFrom(s)
  }

  /** The whole substitution keeps the content, in order. */
  lemma StripMarkersKeeps(s: string)
    ensures Content(StripMarkers(s)) == Content(s)
  {
    if |s| >= 2 && IsMarker(s[0]) && IsWs(s[1]) {
      var t := LStrip(s[1..]);
      MarkersFromKeeps(t);
      MarkerDropped(s, 1, MarkersFrom(t));
    } else {
      MarkersFromKeeps(s);
    }
  }

  /** The whole substitution deletes some lone `-`/`*` words and changes no other word. */
  lemma StripMarkersWords(s: string)
    ensures MarkerWordsDropped(Words(s), Words(StripMarkers(s)))
  {
    if |s| >= 2 && IsMarker(s[0]) && IsWs(s[1]) {
      var t := LStrip(s[1..]);
      MarkersFromWords(t);
      WordsLStrip(s[1..]);
      MarkerWordFirst(s, 0, MarkersFrom(t));
    } else {
      MarkersFromWords(s);
    }
  }

  /** The whole substitution deletes exactly the words `DropMarkers` says. */
  lemma StripMarkersDrops(s: string)
    requires |s| > 0 ==> !IsWs(s[|s| - 1])
    ensures Words(StripMarkers(s)) == DropMarkers(Words(s))
  {
    if |s| >= 2 && IsMarker(s[0]) && IsWs(s[1]) {
      var t := LStrip(s[1..]);
      LStripSuffix(s[1..]);
      MarkersFromDrops(t);
      WordsLStrip(s[1..]);
      MarkerWordGone(s, 0, MarkersFrom(t));
    } else {
      MarkersFromDrops(s);
      if |s| > 0 && !IsWs(s[0]) {
        FirstWordStays(s);
      }
    }
  }

  /** The whole substitution keeps a visible last character. */
  lemma StripMarkersKeepsLast(s: string)
    requires |s| > 0 && !IsWs(s[|s| - 1])
    ensures |StripMarkers(s)| > 0 && StripMarkers(s)[|StripMarkers(s)| - 1] == s[|s| - 1]
  {
    if |s| >= 2 && IsMarker(s[0]) && IsWs(s[1]) {
      var t := LStrip(s[1..]);
      LastAfterStrip(s, 1);
      MarkersFromKeepsLast(t);
      assert StripMarkers(s) == " " + MarkersFrom(t);
    } else {
      MarkersFromKeepsLast(s);
    }
  }

  /** Lines 162-163 of vv_box.py (and 216): line breaks and whitespace runs become single spaces, then strip. */
  function Collapse(s: string): (r: string)
    ensures Collapsed(r)
    ensures |r| <= |s|
    ensures |r| == 0 <==> AllWs(s)
    ensures Visible(r) == Visible(s) && Content(r) == Content(s)
    ensures r == JoinSpaces(Words(s))
  {
    StripTidy(CollapseRuns(s));
    CollapseRunsWords(s);
    WordsStrip(CollapseRuns(s));
    CollapsedJoin(Strip(CollapseRuns(s)));
    CollapseRunsBlank(s);
    CollapseRunsKeeps(s, IsWs);
    CollapseRunsKeeps(s, IsWsOrMarker);
    FilterStrip(CollapseRuns(s), IsWs);
    FilterStrip(CollapseRuns(s), IsWsOrMarker);
    Strip(CollapseRuns(s))
  }

  /** The collapsed text has the words of the original. */
  lemma CollapseWords(s: string)
    ensures Words(Collapse(s)) == Words(s)
  {
    CollapseRunsWords(s);
    WordsStrip(CollapseRuns(s));
  }

  /** Lines 162-164 of vv_box.py: collapse, then drop `-`/`*` list markers, then strip again. */
  function Clean(s: string): (r: string)
    ensures Collapsed(r)
    ensures |r| <= |s|
    ensures |r| == 0 <==> AllWs(s)
    ensures Content(r) == Content(s)
    ensures MarkerWordsDropped(Words(s), Words(r)) && r == JoinSpaces(Words(r))
  {
    var c := Collapse(s);
    StripTidy(StripMarkers(c));
    StripMarkersKeeps(c);
    CollapseWords(s);
    StripMarkersWords(c);
    WordsStrip(StripMarkers(c));
    CollapsedJoin(Strip(StripMarkers(c)));
    assert |c| > 0 ==> |StripMarkers(c)| > 0 && !IsWs(StripMarkers(c)[|StripMarkers(c)| - 1]) by {
      if |c| > 0 {
        StripMarkersKeepsLast(c);
      }
    }
    FilterStrip(StripMarkers(c), IsWsOrMarker);
    Strip(StripMarkers(c))
  }

  /**
   * The cleaned text is exactly the words of the input, less the lone
   * markers line 164 deletes, joined by single spaces.
   */
  lemma CleanDropsMarkers(s: string)
    ensures Clean(s) == JoinSpaces(DropMarkers(Words(s)))
  {
    var c := Collapse(s);
    CollapseWords(s);
    StripMarkersDrops(c);
    WordsStrip(StripMarkers(c));
  }

  /** Stripping a text without whitespace runs gives a collapsed text. */
  lemma StripTidy(s: string)
    requires SpacesOnly(s) && NoWsRun(s)
    ensures Collapsed(Strip(s))
  {
    var t := LStrip(s);
    LStripSuffix(s);
    SliceTidy(s, |s| - |t|, |s|);
    assert s[|s| - |t|..|s|] == t;
    var r := Strip(s);
    SliceTidy(t, 0, |r|);
    assert t[0..|r|] == r;
  }

  /** A slice of a text without whitespace runs has none either. */
  lemma SliceTidy(s: string, a: int, b: int)
    requires 0 <= a <= b <= |s|
    ensures SpacesOnly(s) ==> SpacesOnly(s[a..b])
    ensures NoWsRun(s) ==> NoWsRun(s[a..b])
  {
    var t := s[a..b];
    if NoWsRun(s) {
      forall i | 0 <= i < |t| - 1
        ensures !WsPairAt(t, i)
      {
        assert t[i] == s[a + i] && t[i + 1] == s[a + i + 1];
        assert !WsPairAt(s, a + i);
      }
    }
    if SpacesOnly(s) {
      forall i | 0 <= i < |t| && IsWs(t[i])
        ensures t[i] == ' '
      {
        assert t[i] == s[a + i];
      }
    }
  }

  /** Prepending one character keeps a text free of whitespace runs unless it makes one. */
  lemma TidyCons(c: char, s: string)
    ensures SpacesOnly(s) && (IsWs(c) ==> c == ' ') ==> SpacesOnly([c] + s)
    ensures NoWsRun(s) && (|s| > 0 && IsWs(c) ==> !IsWs(s[0])) ==> NoWsRun([c] + s)
  {
    var t := [c] + s;
    if NoWsRun(s) && (|s| > 0 && IsWs(c) ==> !IsWs(s[0])) {
      forall i | 0 <= i < |t| - 1
        ensures !WsPairAt(t, i)
      {
        if i > 0 {
          assert t[i] == s[i - 1] && t[i + 1] == s[i];
          assert !WsPairAt(s, i - 1);
        }
      }
    }
    if SpacesOnly(s) && (IsWs(c) ==> c == ' ') {
      forall i | 0 <= i < |t| && IsWs(t[i])
        ensures t[i] == ' '
      {
        if i > 0 {
          assert t[i] == s[i - 1];
        }
      }
    }
  }

  /** A text without whitespace passes the whole cleanup unchanged. */
  lemma {:induction false} CleanKeepsPlainText(s: string)
    requires forall i :: 0 <= i < |s| ==> !IsWs(s[i])
    ensures Clean(s) == s
  {
    CollapseRunsKeepsPlain(s);
    MarkersFromKeepsPlain(s);
  }

  lemma {:induction false} CollapseRunsKeepsPlain(s: string)
    requires forall i :: 0 <= i < |s| ==> !IsWs(s[i])
    ensures CollapseRuns(s) == s
    decreases |s|
  {
    if |s| > 0 {
      CollapseRunsKeepsPlain(s[1..]);
    }
  }

  lemma {:induction false} MarkersFromKeepsPlain(s: string)
    requires forall i :: 0 <= i < |s| ==> !IsWs(s[i])
    ensures MarkersFrom(s) == s
    decreases |s|
  {
    if |s| > 0 {
      MarkersFromKeepsPlain(s[1..]);
    }
  }
}
