# vv-speaker request processing, modelled in Dafny

This project models the request-processing core of the vv-speaker box. It
covers `scripts/vv_box.py` and the pseudo-streaming sample
`scripts/stream_play_sample.py`:

- text cleanup and the reply length/ending policy (`normalize_text`,
  `normalize_direct_text`);
- sentence splitting (`split_sentences`, identical in both scripts);
- the reply policy with LLM retry and fallback (`_make_reply`);
- speaker-name lookup and the speaker-id cache (`resolve_speaker_id`, in
  both of its variants);
- player selection (`detect_player_command`, `detect_player`);
- the two-slot producer/consumer synthesis and playback pipeline;
- `BoxLogic.process`;
- the single-worker bounded request queue of `APIService` and the status
  codes of `do_POST`;
- the `main` of the sample script.

Everything outside the program is a parameter: the LLM, the speaker list and
client lookups, `shutil.which`, `shlex.split`, synthesis and playback.

| module | file | models |
|---|---|---|
| `Wrappers` | wrappers.dfy | `Option` and `Result` |
| `Cleanup` | cleanup.dfy | `str.strip`, `re.sub(r"\s+", " ", …)`, the list-marker substitution |
| `Normalize` | normalize.dfy | `normalize_text`, `normalize_direct_text` |
| `Sentences` | sentences.dfy | `re.split` after sentence ends, `split_sentences` |
| `Reply` | reply.dfy | `FALLBACK_REPLY`, `_make_reply` |
| `Speakers` | speakers.dfy | the two `/speakers` lookups, `BoxLogic.resolve_speaker_id` |
| `Player` | player.dfy | `detect_player_command`, `detect_player` |
| `Pipeline` | pipeline.dfy | the `queue.Queue(maxsize=2)` hand-off between synthesis and playback |
| `Box` | box.dfy | `BoxLogic.process` |
| `Service` | service.dfy | `APIService`, `do_POST` |
| `Sample` | sample.dfy | `main` of the sample script |

## Modelling choices

- **Whitespace.** Python's `\s` and `str.strip()` are modelled by one fixed set of characters: space, tab, `\n`, `\v`, `\f`, `\r`, U+00A0 and U+3000. The regular expressions are written as explicit scans over this set:
  - `\s+` → one space (`CollapseRuns`);
  - `(?:^|\s)[\-\*]\s+` → one space (`StripMarkers`, where `^` can only match at offset 0);
  - `re.split(r"(?<=[。！？!?])", …)` (`SplitAfter`).
- **Words.** `Words` is an independent definition of `str.split()` over the same set, and `JoinSpaces` is `" ".join`. The cleanup contracts use them to say that words are neither split nor merged.
- **Slicing and `int()`.** `text[:k]` with a negative `k` is Python slicing (`PyPrefix`). `str.isdigit()` and `int()` are taken over ASCII digits.
- **LLM.** The LLM is a function from the attempt number to `Some(output)` or `None`, where `None` means `run_llm` raised.
- **Synthesis and playback.** Synthesis is a function from the segment number to a clip or an error. Playback is a function from the play number to success or an error.
- **Client lookup.** The client lookup of a speaker name is a function from the name to an id or an error. The lookup over the `/speakers` list is modelled separately on a `seq<Speaker>`.
- **Pipeline threads.** The two threads of the pipeline are a state machine. Either thread may move at any point, and a put into a full queue waits. Every schedule after which the consumer has left its loop has the outcome of the sequential reference `PlayAll`, and the schedule `Schedule` always gets there.
- **Service threads.** The service's worker thread and HTTP threads are steps of a second state machine. `Enqueue` stands for `put_nowait`, `Take` for the worker's `get`, and `Finish` for running `process` and storing the result. `TakeInv`, `FifoOrder`, `FinishInv`, `ResultsKept` and `Drain` state what these steps keep across the whole service.
- **Counting lookups.** The speaker cache counts the client lookups it makes in a plain `lookups` field, so that "at most one lookup per distinct name" can be stated.
- **`min_chars` below 1.** `MIN_CHARS` is not constrained. With a value below 1, `normalize_text` can return the empty string. `_make_reply` treats that empty string as a rejection, because line 310 tests truthiness, and `Reply.Verdict` models this.
- **Player detection and playback failures.**
  - Nothing re-selects a player or retries a play after a playback failure. The player is detected once per `BoxLogic`, lines 332-333, and a failed detection is retried on the next request.
  - A synthesis failure inside the producer thread does not reach `process`, lines 342-349. The exception leaves the thread once its `finally` has put the sentinel. Playback ends after the clips already synthesized, and the request reports `played = true` with no error (`Box.SynthesisFailureStillPlayed`).
- **The sample's splitter.** `split_sentences` in the sample script (stream_play_sample.py lines 84-89) is character for character the one in vv_box.py. `Sentences.SplitSentences` models both.

## Model

| member | source | states |
|---|---|---|
| Cleanup.Strip | vv-speaker-box-logic/scripts/vv_box.py:163 | the stripped text neither starts nor ends with whitespace, is no longer than the input, and is empty exactly when the input is all whitespace |
| Cleanup.RStrip | vv-speaker-box-logic/scripts/vv_box.py:178 | `rstrip()` keeps a prefix of the text that does not end in whitespace and drops only whitespace |
| Cleanup.StripStripped | vv-speaker-box-logic/scripts/vv_box.py:257-261 | stripping an already stripped name changes nothing |
| Cleanup.CollapseRuns | vv-speaker-box-logic/scripts/vv_box.py:163 | after `\s+` → space, the only whitespace left is plain spaces, no two are adjacent, the text never grows, and it starts with whitespace exactly when the input did |
| Cleanup.CollapseRunsWords | vv-speaker-box-logic/scripts/vv_box.py:163 | `\s+` → space keeps the words of `str.split()` unchanged: no word is split, merged or altered |
| Cleanup.WordsStrip | vv-speaker-box-logic/scripts/vv_box.py:163 | `strip()` keeps the words of `str.split()` unchanged |
| Cleanup.CollapsedJoin | vv-speaker-box-logic/scripts/vv_box.py:162-163 | a text without line breaks, whitespace runs or outer whitespace is its words joined by single spaces |
| Cleanup.CollapseRunsKeeps | vv-speaker-box-logic/scripts/vv_box.py:163 | `\s+` → space rewrites only whitespace: any filter that drops all whitespace sees the same characters, in the same order, before and after |
| Cleanup.FilterStrip | vv-speaker-box-logic/scripts/vv_box.py:163 | `strip()` removes only whitespace: any filter that drops all whitespace sees the same characters before and after |
| Cleanup.CollapseRunsBlank | vv-speaker-box-logic/scripts/vv_box.py:163-166 | collapsing whitespace runs leaves a text blank exactly when it was blank |
| Cleanup.MarkersFrom | vv-speaker-box-logic/scripts/vv_box.py:164 | the list-marker substitution away from the start never grows the text and keeps it free of line breaks and whitespace runs |
| Cleanup.MarkersFromWords | vv-speaker-box-logic/scripts/vv_box.py:164 | the substitution away from the start deletes some words that are a lone `-` or `*` and changes no other word; a visible first character keeps its word |
| Cleanup.MarkersFromDrops | vv-speaker-box-logic/scripts/vv_box.py:164 | on a text without trailing whitespace, the substitution away from the start deletes exactly the words that are a lone `-` or `*`, are not the last word, and still have the whitespace in front of them (a leading whitespace character, or a kept word before them); every other word stays unchanged |
| Cleanup.MarkersFromKeeps | vv-speaker-box-logic/scripts/vv_box.py:164 | the substitution away from the start deletes only whitespace and `-`/`*`: every other character survives, in order |
| Cleanup.MarkersFromKeepsLast | vv-speaker-box-logic/scripts/vv_box.py:164 | the substitution away from the start keeps a last character that is not whitespace |
| Cleanup.MarkerDropped | vv-speaker-box-logic/scripts/vv_box.py:164 | replacing a marker match (whitespace and `-`/`*` only) and the whitespace after it by one space keeps the content |
| Cleanup.StripMarkers | vv-speaker-box-logic/scripts/vv_box.py:164 | the whole list-marker substitution never grows the text and keeps it free of line breaks and whitespace runs |
| Cleanup.StripMarkersWords | vv-speaker-box-logic/scripts/vv_box.py:164 | the whole substitution, `^` alternative included, deletes some words that are a lone `-` or `*` and changes no other word |
| Cleanup.StripMarkersDrops | vv-speaker-box-logic/scripts/vv_box.py:164 | on a text without trailing whitespace, the whole substitution deletes exactly those words, where the `^` alternative lets a leading lone marker go too |
| Cleanup.DropMarkersExamples | vv-speaker-box-logic/scripts/vv_box.py:164 | `- a` keeps only `a`; in `a - - b` only the first `-` goes, because its match swallows the space in front of the second; a `*` that ends the text stays |
| Cleanup.StripMarkersKeeps | vv-speaker-box-logic/scripts/vv_box.py:164 | the whole substitution, `^` alternative included, deletes only whitespace and `-`/`*`: every other character survives, in order |
| Cleanup.StripMarkersKeepsLast | vv-speaker-box-logic/scripts/vv_box.py:164 | the whole substitution keeps a last character that is not whitespace, which is why cleanup never empties a text with a visible character |
| Cleanup.Collapse | vv-speaker-box-logic/scripts/vv_box.py:162-163 | the collapsed text has no line breaks, no whitespace runs and no outer whitespace, is empty exactly when the input is all whitespace, holds every visible character of the input in order, and is exactly the words of the input joined by single spaces |
| Cleanup.Clean | vv-speaker-box-logic/scripts/vv_box.py:162-164 | the cleaned text keeps that shape after the markers are removed, is never longer than the input, is empty exactly when the input is all whitespace, holds every character other than whitespace and `-`/`*` in order, and is its words joined by single spaces, which are the input's words with only lone `-`/`*` words deleted |
| Cleanup.CleanDropsMarkers | vv-speaker-box-logic/scripts/vv_box.py:162-164 | the cleaned text is exactly the input's words, less the lone `-`/`*` words the substitution deletes, joined by single spaces |
| Cleanup.CleanKeepsPlainText | vv-speaker-box-logic/scripts/vv_box.py:162-164 | a text without whitespace passes cleanup unchanged |
| Normalize.PyPrefix | vv-speaker-box-logic/scripts/vv_box.py:173 | `s[:k]` is a prefix of `s`: of length `k` when `0 <= k <= len(s)`, all of `s` when `k > len(s)`, and of length `max(0, len(s) + k)` for a negative `k` |
| Normalize.RFind | vv-speaker-box-logic/scripts/vv_box.py:174 | `rfind` gives -1 or an index holding the character, with no later occurrence |
| Normalize.LastStrongTerm | vv-speaker-box-logic/scripts/vv_box.py:174 | the maximum of the three `rfind`s is the last position holding `。`, `！` or `？`, or -1 when there is none |
| Normalize.Terminated | vv-speaker-box-logic/scripts/vv_box.py:169-170 | the result ends in `。`, `！` or `？`; it is the text itself when the text already ends in one of them, and otherwise the text followed by one more character, a sentence end |
| Normalize.Truncate | vv-speaker-box-logic/scripts/vv_box.py:172-178 | a text of at most `max_chars` characters is left alone; a cut text has at most `max_chars + 1` characters, never grows, and keeps a prefix of the text before a final sentence end; it is empty only when `min_chars` is below 1 |
| Normalize.CutCondition | vv-speaker-box-logic/scripts/vv_box.py:174-175 | the test on the last `rfind` holds exactly when the head has a sentence end at index `min_chars - 1` or later, or `min_chars` is below 1 |
| Normalize.TruncateCuts | vv-speaker-box-logic/scripts/vv_box.py:172-178 | where the cut of a too long text falls: with a sentence end at index `min_chars - 1` or later in the first `max_chars + 1` characters, the prefix of them that ends at the last sentence end in them, of at least `min_chars` characters; otherwise the first `max_chars` characters right-stripped, plus `。` |
| Normalize.ShapeReply | vv-speaker-box-logic/scripts/vv_box.py:165-182 | empty text and text ending in `?`/`？` are rejected; a text that fits within `max_chars` once terminated is accepted, terminated, exactly when that reaches `min_chars`; an accepted reply has `min_chars <= len <= max_chars + 1`, ends in `。！？` and is a prefix of the cleaned text plus one character |
| Normalize.NormalizeText | vv-speaker-box-logic/scripts/vv_box.py:161-182 | with `min_chars <= max_chars`, the text is rejected exactly when cleanup leaves nothing, it ends in a question mark, or it is shorter than `min_chars` once terminated; an accepted reply has `min_chars <= len <= max_chars + 1`, is at most one character longer than the input, and before its final `。！？` holds a prefix of the input's characters other than whitespace and `-`/`*`; an empty one needs `min_chars` below 1 |
| Normalize.NormalizeDirectText | vv-speaker-box-logic/scripts/vv_box.py:185-193 | None exactly when cleanup leaves nothing; otherwise the cleaned text, with `。` appended exactly when it does not already end in `。！？!?`, free of line breaks and whitespace runs |
| Normalize.ShortTextKept | vv-speaker-box-logic/scripts/vv_box.py:169-182 | a cleaned text of at most `max_chars` characters not ending in a question mark is kept unchanged apart from the added `。`, and rejected only when that is shorter than `min_chars` |
| Normalize.ShapeRejects | vv-speaker-box-logic/scripts/vv_box.py:165-181 | with `min_chars <= max_chars`, the policy rejects a cleaned text if and only if it is empty, ends in a question mark, or is shorter than `min_chars` once terminated: truncation never makes an accepted text too short |
| Normalize.HardCutLength | vv-speaker-box-logic/scripts/vv_box.py:178 | the hard cut of a cleaned text loses at most one character to `rstrip()`, so with `。` it keeps at least `max_chars` characters |
| Normalize.RStripOne | vv-speaker-box-logic/scripts/vv_box.py:178 | `rstrip()` of a text without whitespace runs drops at most one character |
| Normalize.TooShortRejected | tests/test_vv_box.py:38-40 | a text shorter than `min_chars - 1` is rejected whatever it holds |
| Normalize.DirectPlainTextTerminated | tests/test_vv_box.py:33-36 | in direct mode a text without whitespace and without an ending comes back with exactly `。` appended |
| Normalize.CutAtSentenceEnd | vv-speaker-box-logic/scripts/vv_box.py:172-176 | when the character at index `max_chars` ends a sentence, the reply keeps `max_chars + 1` characters, so the bound is `max_chars + 1` and not `max_chars` |
| Sentences.SplitAfter | vv-speaker-box-logic/scripts/vv_box.py:219 | the pieces concatenate back to the text; every piece but the last ends in a sentence end; a sentence end appears only as a piece's last character; the last piece holds none |
| Sentences.StripNonBlank | vv-speaker-box-logic/scripts/vv_box.py:219 | the kept pieces are non-empty and stripped, and there are no more of them than pieces |
| Sentences.StripNonBlankConcat | vv-speaker-box-logic/scripts/vv_box.py:219 | the comprehension works piece by piece: the parts of two lists of pieces, one after the other, are the parts of each, in order |
| Sentences.StripNonBlankOne | vv-speaker-box-logic/scripts/vv_box.py:219 | a single piece gives its stripped text when that is not blank, and nothing otherwise |
| Sentences.SplitSentences | vv-speaker-box-logic/scripts/vv_box.py:215-220 | no segments exactly for a whitespace-only text; each segment is non-empty with visible ends and holds a sentence end only as its last character; all but the last end in one; together they spell the collapsed text minus the space after each sentence end |
| Sentences.SplitJoin | vv-speaker-box-logic/scripts/vv_box.py:219 | for a text without whitespace runs or trailing whitespace, the first piece followed by the stripped later pieces spells the text minus the whitespace after each sentence end |
| Sentences.PartsShape | vv-speaker-box-logic/scripts/vv_box.py:219 | stripping the pieces and dropping blank ones keeps the sentence shape: sentence ends only at the end, and all but the last piece end in one |
| Sentences.SegmentsSpellText | vv-speaker-box-logic/scripts/vv_box.py:216-220 | for a non-blank collapsed text the kept pieces are never empty, so the `or [normalized]` fallback is never taken, and they spell the text minus the spaces after sentence ends |
| Reply.FallbackLength | vv-speaker-box-logic/scripts/vv_box.py:25-28 | the fallback reply has 54 characters |
| Reply.DirectReply | vv-speaker-box-logic/scripts/vv_box.py:297-299 | direct mode speaks the directly normalized text, or the fallback reply when cleanup leaves nothing; never empty |
| Reply.FallbackText | vv-speaker-box-logic/scripts/vv_box.py:312-313 | the fallback path speaks the normalized fallback reply when `normalize_text` accepts it with a non-empty text, else the raw fallback reply; never empty |
| Reply.LlmReply | vv-speaker-box-logic/scripts/vv_box.py:301-313 | the first of the two candidates that normalization accepts is returned with source `llm`, after one or two calls; when both are rejected, two calls were made and the fallback text is returned with source `fallback` |
| Reply.MakeReply | vv-speaker-box-logic/scripts/vv_box.py:294-313 | the source is `direct` exactly in direct mode, which makes no call; otherwise at most two calls, the first accepted candidate, or the fallback exactly when both are rejected; the reply is never empty |
| Reply.VerdictWithinPolicy | vv-speaker-box-logic/scripts/vv_box.py:309-310 | an accepted candidate meets the length bounds and ends in `。！？` |
| Reply.LlmReplyEndsSentence | vv-speaker-box-logic/scripts/vv_box.py:309-311 | a reply with source `llm` ends in `。`, `！` or `？` |
| Reply.LlmReplyLength | vv-speaker-box-logic/scripts/vv_box.py:309-311 | a reply with source `llm` has between `min_chars` and `max_chars + 1` characters |
| Reply.OnlyTwoCallsMatter | vv-speaker-box-logic/scripts/vv_box.py:302 | only the first two LLM outcomes influence the reply |
| Reply.DefaultFallbackIsRaw | vv-speaker-box-logic/scripts/vv_box.py:312-313 | under the default bounds of 80 and 160 characters, two rejected candidates give the raw fallback reply with source `fallback` |
| Reply.DefaultFailedCallRejected | vv-speaker-box-logic/scripts/vv_box.py:304-310 | under the default bounds, a call that raised contributes a candidate that is always rejected |
| Speakers.LookupFirstMatch | vv-speaker-box-logic/scripts/vv_box.py:135-144 | success returns the first style id of the first entry with the name; failure is "Speaker not found" exactly when that first entry has no style or no entry has the name |
| Speakers.LookupAnyStyled | vv-speaker-box-logic/scripts/stream_play_sample.py:62-70 | success returns the first style id of the first entry with the name that has a style; failure is "Speaker not found" exactly when no entry with the name has a style |
| Speakers.LookupsAgree | vv-speaker-box-logic/scripts/stream_play_sample.py:62-70 | when the first entry with the name has a style, both lookups return its first style id |
| Speakers.LookupsDiverge | vv-speaker-box-logic/scripts/vv_box.py:141-142 | when the first entry with the name has no style, the box lookup fails while the sample lookup continues with the entries after it |
| Speakers.SkipUnstyled | vv-speaker-box-logic/scripts/stream_play_sample.py:64-69 | dropping leading entries that are not a styled match does not change the sample lookup |
| Speakers.FirstMatchRefinesAnyStyled | vv-speaker-box-logic/scripts/stream_play_sample.py:62-70 | whenever the box lookup succeeds, the sample lookup returns the same id |
| Speakers.Decimal | vv-speaker-box-logic/scripts/vv_box.py:262-263 | the decimal text of a number consists only of digits |
| Speakers.DecimalRoundTrip | vv-speaker-box-logic/scripts/vv_box.py:262-263 | `int(str(n)) == n`: a speaker id sent as digits resolves to itself |
| Speakers.NameOf | vv-speaker-box-logic/scripts/vv_box.py:257-261 | an integer argument has no name; an absent or blank argument stands for the stripped default name; any other argument is its stripped text |
| Speakers.Resolve | vv-speaker-box-logic/scripts/vv_box.py:256-269 | integers and digit strings resolve to themselves without a lookup, and so does a cached name, to its cached id; any other name costs exactly one client lookup, whose answer is the outcome, and the cache changes only when the lookup succeeds |
| Speakers.ResolveTwiceLooksUpOnce | tests/test_vv_box.py:59-61 | resolving the same argument twice gives the same id and makes at most one client lookup |
| Speakers.FailedLookupRepeats | vv-speaker-box-logic/scripts/vv_box.py:267-268 | a failed lookup leaves the cache unchanged, so asking again makes another client lookup, whose answer at that time is the outcome |
| Speakers.DecimalResolves | vv-speaker-box-logic/scripts/vv_box.py:262-263 | a speaker id sent as its decimal text resolves to that id, with no lookup and no change to the cache |
| Speakers.ResolveAll | vv-speaker-box-logic/scripts/vv_box.py:256-269 | over a run of requests the lookup count never decreases and no cached name is forgotten |
| Speakers.LookupsMatchNewNames | vv-speaker-box-logic/scripts/vv_box.py:264-268 | while lookups succeed, each one adds exactly one requested name to the cache |
| Speakers.LookupsBoundedByNames | vv-speaker-box-logic/scripts/vv_box.py:264-268 | while lookups succeed, a run of requests makes at most one client lookup per distinct name it asks for |
| Player.ProbeFrom | vv-speaker-box-logic/scripts/vv_box.py:226-231 | from a given preference onward, a player is chosen exactly when one is available, and the choice is the most preferred available one |
| Player.Probe | vv-speaker-box-logic/scripts/vv_box.py:226-231 | a built-in player is chosen exactly when one of `pw-play`, `paplay`, `aplay` is available, and the choice is the most preferred available one |
| Player.ProbeChoosesPreferred | vv-speaker-box-logic/scripts/vv_box.py:226-231 | the choice is exactly the command of the most preferred available player |
| Player.ProbeIgnoresLessPreferred | vv-speaker-box-logic/scripts/vv_box.py:226-231 | making a less preferred program available does not change the choice |
| Player.DetectPlayerCommand | vv-speaker-box-logic/scripts/vv_box.py:223-232 | a non-blank configured command is split and used without probing; otherwise the command of the available built-in player that no available one is preferred to, and the "No audio player found" error exactly when none of `pw-play`, `paplay`, `aplay` is available |
| Player.DetectPlayer | vv-speaker-box-logic/scripts/stream_play_sample.py:92-99 | returns the most preferred available built-in player, and fails with "No player found" exactly when none of them is available |
| Player.DetectorsAgree | vv-speaker-box-logic/scripts/stream_play_sample.py:92-99 | with no command configured, both scripts choose the same player and fail in the same cases |
| Pipeline.Audio | vv-speaker-box-logic/scripts/vv_box.py:344-347 | the clips of the first `m` segments are the synthesis results, in segment order |
| Pipeline.SynthCount | vv-speaker-box-logic/scripts/vv_box.py:343-349 | the producer synthesizes every segment, or those before the first synthesis failure |
| Pipeline.SynthCountUnique | vv-speaker-box-logic/scripts/vv_box.py:343-349 | that count is the only one where everything before it succeeds and it stops at a failure or at the end |
| Pipeline.PlayFrom | vv-speaker-box-logic/scripts/vv_box.py:354-358 | playing from a clip onward succeeds with all the clips exactly when every remaining play succeeds |
| Pipeline.PlayAll | vv-speaker-box-logic/scripts/vv_box.py:354-358 | the sequential reference succeeds with all the clips exactly when every play succeeds |
| Pipeline.PlayFromFirstFailure | vv-speaker-box-logic/scripts/vv_box.py:354-358 | the outcome of a failed run is the error of the first failed play |
| Pipeline.InitInv | vv-speaker-box-logic/scripts/vv_box.py:340 | the empty queue with both threads at their start satisfies the pipeline invariant |
| Pipeline.ProduceStepInv | vv-speaker-box-logic/scripts/vv_box.py:342-349 | a producer move keeps the invariant: at most two items queued, clips queued in segment order, and the sentinel last and only once it is done |
| Pipeline.ConsumeStepInv | vv-speaker-box-logic/scripts/vv_box.py:354-358 | a consumer move keeps the invariant: clips are played in the order they were queued, and the loop stops at the sentinel or at the first failed play |
| Pipeline.RunInv | vv-speaker-box-logic/scripts/vv_box.py:340-358 | every interleaving of the two threads keeps the invariant |
| Pipeline.OutcomeMatchesReference | vv-speaker-box-logic/scripts/vv_box.py:354-359 | once the consumer leaves its loop, its outcome is the sequential reference on the synthesized clips |
| Pipeline.InterleavingIrrelevant | vv-speaker-box-logic/scripts/vv_box.py:340-359 | however the threads interleave, a finished consumer has played exactly what playing the synthesized clips one after the other would |
| Pipeline.PlayedIsPrefix | vv-speaker-box-logic/scripts/stream_play_sample.py:135-155 | at every point of every interleaving at most two items are queued, and the clips played are a prefix of the synthesized clips in segment order |
| Pipeline.Schedule | vv-speaker-box-logic/scripts/vv_box.py:340-359 | from any state satisfying the invariant, the schedule that moves the consumer whenever an item is queued and the producer otherwise is finite and ends with the consumer out of its loop |
| Pipeline.Stream | vv-speaker-box-logic/scripts/vv_box.py:340-359 | the whole playback equals the sequential reference on the clips synthesized before the first synthesis failure |
| Pipeline.StreamReportsFirstPlayFailure | vv-speaker-box-logic/scripts/vv_box.py:340-359 | the playback fails exactly when a play of a clip synthesized before the first synthesis failure fails, and then with the message of the first such play |
| Pipeline.SynthesisFailureStopsQuietly | vv-speaker-box-logic/scripts/vv_box.py:342-349 | when every play succeeds, a synthesis failure only shortens the playback, which still succeeds |
| Box.Segments | vv-speaker-box-logic/scripts/vv_box.py:336-338 | at least one segment is streamed: the split sentences whenever splitting finds any, and the reply itself when it is blank |
| Box.StreamError | vv-speaker-box-logic/scripts/vv_box.py:340-359 | streaming reports no error exactly when every clip synthesized before the first synthesis failure plays, and otherwise the message of the first play that fails |
| Box.Speak | vv-speaker-box-logic/scripts/vv_box.py:335-362 | streaming, the error is the first failing play among the clips synthesized; otherwise it is the whole-reply synthesis error, or else the error of its single play, and there is none exactly when both succeed |
| Box.Playback | vv-speaker-box-logic/scripts/vv_box.py:331-366 | a chosen player is kept; without one, the player is left unchosen exactly when detection fails, and then the detection error is the error; with a player, the error is that of speaking |
| Box.DetectedOnceForAll | vv-speaker-box-logic/scripts/vv_box.py:332-333 | after a request that detected a player, the next request's outcome does not depend on the configured command or the search path |
| Box.Process | vv-speaker-box-logic/scripts/vv_box.py:315-386 | `process` raises exactly when the speaker cannot be resolved, and then keeps the player; otherwise it returns the reply, its source, the speaker id and the lengths. `played` is set exactly when a non-dry run finishes without error. A non-dry run reports the error of `Playback`, the detection/synthesis/playback block of lines 331-366, and keeps the player it chose; a dry run keeps the player and has no error, and a chosen player is never replaced |
| Box.DryRunIgnoresAudio | vv-speaker-box-logic/scripts/vv_box.py:330 | a dry run's outcome does not depend on player detection, synthesis or playback |
| Box.PlayerChosenOnce | vv-speaker-box-logic/scripts/vv_box.py:332-333 | once a player is chosen, neither the configured command nor the search path matters again |
| Box.DetectionRemembered | vv-speaker-box-logic/scripts/vv_box.py:332-333 | a successful detection is kept for later requests |
| Box.DetectionFailureReported | vv-speaker-box-logic/scripts/vv_box.py:331-366 | a failed detection is reported as the error, nothing is played, and the player stays unchosen |
| Box.SynthesisFailureStillPlayed | vv-speaker-box-logic/scripts/vv_box.py:342-364 | when streaming and every play succeeds, the request reports played with no error, whatever synthesis did |
| Box.PlayFailureReported | vv-speaker-box-logic/scripts/vv_box.py:360-366 | a failed play is reported as the error, nothing counts as played, and the reply text is still returned |
| Service.Enqueue | vv-speaker-box-logic/scripts/vv_box.py:420-423 | a limit of zero or less never refuses a task; a positive limit refuses exactly when the waiting tasks reach it, and a refusal changes nothing; an admitted task joins the end of the queue under the next number |
| Service.EnqueueBounded | vv-speaker-box-logic/scripts/vv_box.py:399-423 | with a positive limit, queueing never takes the waiting tasks past it |
| Service.AdmissionIgnoresCurrent | vv-speaker-box-logic/scripts/vv_box.py:405-423 | the task the worker has taken out of the queue does not count against the limit |
| Service.Outcome | vv-speaker-box-logic/scripts/vv_box.py:408-415 | the stored result is the error entry with the raised message when `process` raised, and otherwise the result `process` returned |
| Service.Take | vv-speaker-box-logic/scripts/vv_box.py:405 | an idle worker with waiting tasks becomes busy; the tasks still owed a result, in progress first and then waiting, are the same tasks in the same order; nothing else changes |
| Service.Finish | vv-speaker-box-logic/scripts/vv_box.py:406-418 | once a task is finished the worker is idle, the finished task is no longer owed, its id maps to the outcome of `process`, and the state `process` left behind is kept even when it raised |
| Service.ResultsKept | vv-speaker-box-logic/scripts/vv_box.py:406-418 | a stored result is never overwritten: finishing a task adds a result under its own number, which had none |
| Service.InitInv | vv-speaker-box-logic/scripts/vv_box.py:397-401 | a new service satisfies the FIFO bookkeeping |
| Service.EnqueueInv | vv-speaker-box-logic/scripts/vv_box.py:420-423 | queueing keeps the FIFO bookkeeping |
| Service.TakeInv | vv-speaker-box-logic/scripts/vv_box.py:405 | taking a task keeps the FIFO bookkeeping |
| Service.FinishInv | vv-speaker-box-logic/scripts/vv_box.py:406-418 | finishing a task keeps the bookkeeping whether `process` returned or raised |
| Service.FifoOrder | vv-speaker-box-logic/scripts/vv_box.py:399-405 | the task taken has the smallest number waiting, and exactly the tasks before it have results |
| Service.Drain | vv-speaker-box-logic/scripts/vv_box.py:403-418 | the worker never stops: it works through everything queued, and every queued task ends with a result |
| Service.Post | vv-speaker-box-logic/scripts/vv_box.py:444-459 | another path is 404, an unreadable body is 500, a missing or blank `text` is 400, a full queue is 429, and the task is queued exactly when none of these applies |
| Service.ResultStatus | vv-speaker-box-logic/scripts/vv_box.py:460-464 | a finished request is 200 exactly when `process` returned, even with a playback error, and 500 exactly when it raised |
| Service.QueuedRequestAnswered | vv-speaker-box-logic/scripts/vv_box.py:455-464 | a queued request gets a result once the worker has worked through the queue |
| Sample.StreamRun | vv-speaker-box-logic/scripts/stream_play_sample.py:135-156 | the sample completes exactly when every synthesized clip plays, and then has played them all in order |
| Sample.Main | vv-speaker-box-logic/scripts/stream_play_sample.py:115-156 | the steps run in order, and the first failure ends the script: unknown speaker, then empty text, then no player, then the stream |
| Sample.EmptyTextRejectedFirst | vv-speaker-box-logic/scripts/stream_play_sample.py:130-132 | a whitespace-only text is rejected whatever the players, synthesis and playback would do |
| Sample.SampleAcceptsServiceSpeakers | vv-speaker-box-logic/scripts/stream_play_sample.py:62-70 | a speaker the service finds is found by the sample with the same id |

## Left out

- HTTP to the speech engine (`_json_request`, `_bytes_request`, `synthesize`, `get_speakers`): network I/O. The speaker list, client lookups and synthesis are parameters.
- `run_llm`: a subprocess with a timeout. Each attempt is a parameter, `Some(output)` or `None`.
- `shlex.split`: a foreign tokenizer. The outcome of splitting the configured player command is a parameter.
- `play_wav_bytes`: temporary files and a subprocess. Each play is a parameter that succeeds or fails.
- `ProcessLock` (`fcntl.flock`): an operating-system lock. Each `process` call is treated as atomic.
- Real threads, `queue.Queue` blocking, `threading.Event` and `join(timeout=1)`: only the interleavings of the moves are modelled. Leaving `join` out does not matter, because the producer has always put the sentinel before the consumer stops at it. After a failed play the producer may still be running; it is not modelled further.
- Timings (`time.perf_counter`, `latency_ms`, `tts_ms`), the md5 `request_id` and logging: nondeterministic and not part of the logic.
- `load_dotenv`, `Config.from_env`, `argparse`, `run_cli`, `main`, `run_api`, `do_GET`, `health()` and the `_send` encoding: configuration and I/O plumbing.
- `scripts/mcp_server.py`: a thin wrapper that forwards to `process`.
- The sample's progress lines (`print`) and its default speaker and URL arguments: output and configuration only.
- Python's full Unicode `\s` class and `str.isdigit()` on non-ASCII digits: a fixed whitespace set and ASCII digits stand for them.
- The JSON request body: `Service.Body` takes it already parsed. The `speaker` field is an integer, absent, or any other value given as its `str()`. JSON `true` and `false` are Python `bool`, which `isinstance(..., int)` accepts on line 259, so they stand for `IntId(1)` and `IntId(0)` and need no lookup; that the result then echoes the boolean rather than the number is not modelled. A JSON float goes through its `str()` like any other value. `mode` and `dry_run` arrive already converted. A JSON body that is not an object is not modelled: a string or list that contains `"text"` passes the `"text" in payload` test on line 452 and then raises `TypeError` on `payload["text"]` (status 500), a number raises `TypeError` on the test itself (500), and one without `"text"`, such as `[]`, gives 400.
- Cleanup.MarkersFrom: its own contract states only the shape of the result; which words it deletes is stated by `Cleanup.MarkersFromDrops`, for texts without trailing whitespace.
- Cleanup.MarkersFromWords: states only that the deleted words are lone markers, not which ones go; `Cleanup.MarkersFromDrops` states that exactly.
- Cleanup.StripMarkersWords: the same, with `Cleanup.StripMarkersDrops` as the exact statement.
- Cleanup.MarkersFromDrops and Cleanup.StripMarkersDrops: stated only for texts that do not end in whitespace, which is every text `Clean` hands them; on trailing whitespace a final lone marker would go as well.
- Cleanup.StripMarkers: its own contract states only the shape of the result; which words it deletes is stated by `Cleanup.StripMarkersDrops`, and `Cleanup.CleanDropsMarkers` carries that to the whole cleanup.
- Cleanup.StripMarkers: no idempotence is claimed, because the list-marker substitution is not idempotent (`"a - - b"` becomes `"a - b"`, and that becomes `"a b"`).
- Pipeline.Stream: synthesis is given per segment number rather than per segment text, so two equal segments may synthesize differently. Each segment is synthesized once, in order, so this loses nothing.
- Box.Process: the result leaves out `request_id` and `latency_ms`. Every other field of the result dictionary is modelled.
