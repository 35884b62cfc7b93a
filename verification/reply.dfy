/**
 * `BoxLogic._make_reply` of scripts/vv_box.py: how the reply text is chosen
 * in direct mode and in LLM mode. The LLM process is an oracle: `llm(k)` is
 * the outcome of the `k`-th call, `None` when the call raised (non-zero exit,
 * timeout, empty output).
 */
module Reply {
  import opened Wrappers
  import opened Cleanup
  import opened Normalize

  /** Lines 25-28: the canned reply spoken when nothing better is available. */
  const FallbackReply: string :=
    "今は情報が少ないから、私の方で要点を先にまとめるわ。"
    + "まず優先順位を一つに絞って、短い手順から試すのが確実よ。"

  /** Lines 82-83: the default `MIN_CHARS` and `MAX_CHARS`. */
  const DefaultMinChars: int := 80
  const DefaultMaxChars: int := 160

  /** Line 302: the number of LLM attempts. */
  const Attempts: nat := 2

  /** The `reply_source` field: `"direct"`, `"llm"` or `"fallback"`. */
  datatype Source = Direct | Llm | Fallback

  /** A chosen reply, with how many LLM calls it took. */
  datatype Reply = Reply(text: string, source: Source, llmCalls: nat)

  /** Lines 304-307: the text a call contributes; a call that raised contributes the fallback reply. */
  function Candidate(outcome: Option<string>): string {
    if outcome.Some? then outcome.value else FallbackReply
  }

  /** Python's truthiness on an optional string: the empty string counts as no text. */
  function Truthy(o: Option<string>): Option<string> {
    if o.Some? && |o.value| > 0 then o else None
  }

  /** Lines 309-310: what `normalize_text` makes of the candidate of call `k`, when it is truthy. */
  function Verdict(llm: nat -> Option<string>, k: nat, minChars: int, maxChars: int): Option<string>
  {
    Truthy(NormalizeText(Candidate(llm(k)), minChars, maxChars))
  }

  /** `value or default`. */
  function OrElse(o: Option<string>, default: string): string {
    if Truthy(o).Some? then o.value else default
  }

  /** The text is non-empty and its last character is `。`, `！` or `？`. */
  predicate EndsSentence(t: string) {
    |t| > 0 && IsStrongTerm(t[|t| - 1])
  }

  lemma FallbackLength()
    ensures |FallbackReply| == 54
  {
  }

  /** Lines 297-299: direct mode speaks the directly normalized text, or the fallback reply. */
  function DirectReply(text: string): (r: string)
    ensures |r| > 0
    ensures NormalizeDirectText(text).Some? ==> r == NormalizeDirectText(text).value
    ensures NormalizeDirectText(text).None? ==> r == FallbackReply
  {
    FallbackLength();
    OrElse(NormalizeDirectText(text), FallbackReply)
  }

  /** Lines 312-313: the fallback reply, normalized when `normalize_text` accepts it. */
  function FallbackText(minChars: int, maxChars: int): (r: string)
    ensures |r| > 0
    ensures Truthy(NormalizeText(FallbackReply, minChars, maxChars)).Some? ==>
      r == NormalizeText(FallbackReply, minChars, maxChars).value
    ensures Truthy(NormalizeText(FallbackReply, minChars, maxChars)).None? ==> r == FallbackReply
  {
    FallbackLength();
    OrElse(NormalizeText(FallbackReply, minChars, maxChars), FallbackReply)
  }

  /** Lines 301-313: up to two LLM calls, then the fallback. */
  function LlmReply(minChars: int, maxChars: int, llm: nat -> Option<string>): (r: Reply)
    ensures |r.text| > 0
    ensures r.source != Direct
    ensures r.llmCalls == 1 <==> Verdict(llm, 0, minChars, maxChars).Some?
    ensures r.llmCalls == 1 ==> r.source == Llm && Some(r.text) == Verdict(llm, 0, minChars, maxChars)
    ensures r.llmCalls != 1 ==> r.llmCalls == Attempts
    ensures r.llmCalls == 2 && r.source == Llm <==>
      Verdict(llm, 0, minChars, maxChars).None? && Verdict(llm, 1, minChars, maxChars).Some?
    ensures r.llmCalls == 2 && r.source == Llm ==> Some(r.text) == Verdict(llm, 1, minChars, maxChars)
    ensures r.source == Fallback ==> r.text == FallbackText(minChars, maxChars)
  {
    var first := Verdict(llm, 0, minChars, maxChars);
    if first.Some? then Reply(first.value, Llm, 1)
    else
      var second := Verdict(llm, 1, minChars, maxChars);
      if second.Some? then Reply(second.value, Llm, 2)
      else Reply(FallbackText(minChars, maxChars), Fallback, 2)
  }

  /**
   * Lines 294-313. Direct mode makes no call; LLM mode returns the first of
   * two candidates that `normalize_text` accepts, and otherwise the
   * normalized fallback reply, or the raw one when even that is rejected.
   */
  function MakeReply(text: string, mode: string, minChars: int, maxChars: int, llm: nat -> Option<string>): (r: Reply)
    ensures |r.text| > 0
    ensures r.source == Direct <==> mode == "direct"
    ensures r.source == Direct ==> r.llmCalls == 0
    ensures r.source == Direct && NormalizeDirectText(text).Some? ==> r.text == NormalizeDirectText(text).value
    ensures r.source == Direct && NormalizeDirectText(text).None? ==> r.text == FallbackReply
    ensures r.source != Direct ==> 1 <= r.llmCalls <= Attempts
    ensures r.source != Direct ==> (r.llmCalls == 1 <==> Verdict(llm, 0, minChars, maxChars).Some?)
    ensures r.source != Direct && r.llmCalls == 1 ==> r.source == Llm && Some(r.text) == Verdict(llm, 0, minChars, maxChars)
    ensures r.source == Llm && r.llmCalls == 2 <==>
      mode != "direct" && Verdict(llm, 0, minChars, maxChars).None? && Verdict(llm, 1, minChars, maxChars).Some?
    ensures r.source == Llm && r.llmCalls == 2 ==> Some(r.text) == Verdict(llm, 1, minChars, maxChars)
    ensures r.source == Fallback <==>
      mode != "direct" && Verdict(llm, 0, minChars, maxChars).None? && Verdict(llm, 1, minChars, maxChars).None?
    ensures r.source == Fallback ==> r.llmCalls == Attempts
    ensures r.source == Fallback && Truthy(NormalizeText(FallbackReply, minChars, maxChars)).Some? ==>
      r.text == NormalizeText(FallbackReply, minChars, maxChars).value
    ensures r.source == Fallback && Truthy(NormalizeText(FallbackReply, minChars, maxChars)).None? ==> r.text == FallbackReply
  {
    if mode == "direct" then Reply(DirectReply(text), Direct, 0)
    else LlmReply(minChars, maxChars, llm)
  }

  /** A reply the LLM produced ends a sentence, as `normalize_text` demands. */
  lemma LlmReplyEndsSentence(text: string, mode: string, minChars: int, maxChars: int,
                             llm: nat -> Option<string>, r: Reply)
    requires r == MakeReply(text, mode, minChars, maxChars, llm) && r.source == Llm
    ensures EndsSentence(r.text)
  {
    if r.llmCalls == 1 {
      VerdictWithinPolicy(llm, 0, minChars, maxChars, r.text);
    } else {
      VerdictWithinPolicy(llm, 1, minChars, maxChars, r.text);
    }
  }

  /** A reply the LLM produced meets the length bounds of `normalize_text`. */
  lemma LlmReplyLength(text: string, mode: string, minChars: int, maxChars: int,
                       llm: nat -> Option<string>, r: Reply)
    requires r == MakeReply(text, mode, minChars, maxChars, llm) && r.source == Llm
    ensures minChars <= |r.text|
    ensures maxChars >= 0 ==> |r.text| <= maxChars + 1
  {
    var k := if r.llmCalls == 1 then 0 else 1;
    assert Verdict(llm, k, minChars, maxChars) == Some(r.text);
    VerdictWithinPolicy(llm, k, minChars, maxChars, r.text);
  }

  lemma VerdictWithinPolicy(llm: nat -> Option<string>, k: nat, minChars: int, maxChars: int, t: string)
    requires Verdict(llm, k, minChars, maxChars) == Some(t)
    ensures minChars <= |t|
    ensures maxChars >= 0 ==> |t| <= maxChars + 1
    ensures EndsSentence(t)
  {
  }

  /** Only the first two LLM outcomes can influence the reply. */
  lemma OnlyTwoCallsMatter(text: string, mode: string, minChars: int, maxChars: int,
                           llm: nat -> Option<string>, other: nat -> Option<string>)
    requires forall k :: 0 <= k < Attempts ==> llm(k) == other(k)
    ensures MakeReply(text, mode, minChars, maxChars, llm) == MakeReply(text, mode, minChars, maxChars, other)
  {
    assert llm(0) == other(0) && llm(1) == other(1);
  }

  /**
   * Lines 82-83 with line 312: at the default `MIN_CHARS` the 54-character
   * fallback reply is too short for `normalize_text`, so when both calls are
   * rejected the raw fallback reply is spoken.
   */
  lemma DefaultFallbackIsRaw(text: string, mode: string, llm: nat -> Option<string>)
    requires mode != "direct"
    requires Verdict(llm, 0, DefaultMinChars, DefaultMaxChars).None?
    requires Verdict(llm, 1, DefaultMinChars, DefaultMaxChars).None?
    ensures MakeReply(text, mode, DefaultMinChars, DefaultMaxChars, llm) == Reply(FallbackReply, Fallback, 2)
  {
    FallbackLength();
    TooShortRejected(FallbackReply, DefaultMinChars, DefaultMaxChars);
  }

  /** Under the defaults a failed call is never accepted, for the same reason. */
  lemma DefaultFailedCallRejected(llm: nat -> Option<string>, k: nat)
    requires llm(k).None?
    ensures Verdict(llm, k, DefaultMinChars, DefaultMaxChars).None?
  {
    FallbackLength();
    TooShortRejected(FallbackReply, DefaultMinChars, DefaultMaxChars);
  }
}
