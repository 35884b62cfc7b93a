/**
 * `BoxLogic.process` of scripts/vv_box.py: resolve the speaker, choose the
 * reply, then (unless it is a dry run) find a player and speak the reply.
 * Everything the request meets outside the program is gathered in a
 * `World`; the process lock, the timings and the request id are not modelled.
 */
module Box {
  import opened Wrappers
  import Cleanup
  import Sentences
  import Reply
  import Speakers
  import Player
  import Pipeline

  /** The settings `process` reads (the `Config` fields it uses). */
  datatype Config = Config(
    speakerName: string,
    minChars: int,
    maxChars: int,
    playerCommand: string,
    streamPlayback: bool)

  /**
   * What the outside world answers during one request: the client lookup of
   * a speaker name, the LLM attempts, `shlex.split` of the configured player
   * command, the programs on the search path, the synthesis of each segment
   * (or of the whole reply when not streaming), and each play.
   */
  datatype World = World(
    client: string -> Result<int, string>,
    llm: nat -> Option<string>,
    words: Result<seq<string>, string>,
    available: set<string>,
    synth: nat -> Result<Pipeline.Wav, string>,
    synthWhole: Result<Pipeline.Wav, string>,
    play: nat -> Result<(), string>)

  /** What a `BoxLogic` keeps between requests: the speaker cache and the chosen player. */
  datatype BoxState = BoxState(resolver: Speakers.Resolver, player: Option<seq<string>>)

  /** The result dictionary of lines 369-384, without the timings and the request id. */
  datatype BoxResult = BoxResult(
    replyText: string,
    played: bool,
    speakerId: int,
    replySource: Reply.Source,
    inputChars: nat,
    outputChars: nat,
    mode: string,
    error: Option<string>)

  /** A call of `process`: it raises, or returns a result; either way the state may have changed. */
  datatype ProcessRun =
    | Raised(message: string, state: BoxState)
    | Returned(result: BoxResult, state: BoxState)

  /** Lines 336-338: the segments streamed, the whole reply when splitting finds none. */
  function Segments(reply: string): (segs: seq<string>)
    ensures |segs| > 0
    ensures |Sentences.SplitSentences(reply)| > 0 ==> segs == Sentences.SplitSentences(reply)
    ensures Cleanup.AllWs(reply) ==> segs == [reply]
  {
    var parts := Sentences.SplitSentences(reply);
    if |parts| == 0 then [reply] else parts
  }

  /**
   * Lines 335-362: speak the reply with a player already chosen. Streaming,
   * the clips synthesized before the first synthesis failure are played in
   * order, and the error is the message of the first play that fails among
   * them. Otherwise the error is that of the whole-reply synthesis, or else
   * of its play.
   */
  function Speak(cfg: Config, reply: string, w: World): (error: Option<string>)
    ensures cfg.streamPlayback ==>
      var m := Pipeline.SynthCount(|Segments(reply)|, w.synth);
      && (error.None? <==> forall j :: 0 <= j < m ==> w.play(j).Ok?)
      && (forall f :: 0 <= f < m && w.play(f).Err? && (forall j :: 0 <= j < f ==> w.play(j).Ok?) ==>
            error == Some(w.play(f).error))
    ensures !cfg.streamPlayback ==>
      && (error.None? <==> w.synthWhole.Ok? && w.play(0).Ok?)
      && (w.synthWhole.Err? ==> error == Some(w.synthWhole.error))
      && (w.synthWhole.Ok? && w.play(0).Err? ==> error == Some(w.play(0).error))
  {
    if cfg.streamPlayback then StreamError(|Segments(reply)|, w.synth, w.play)
    else
      match w.synthWhole
      case Err(e) => Some(e)
      case Ok(_) =>
        match w.play(0)
        case Ok(_) => None
        case Err(e) => Some(e)
  }

  /** Lines 340-359: the error of streaming `n` segments, `None` when the playback succeeds. */
  function StreamError(n: nat, synth: nat -> Result<Pipeline.Wav, string>, play: nat -> Result<(), string>): (error: Option<string>)
    ensures var m := Pipeline.SynthCount(n, synth);
      && (error.None? <==> forall j :: 0 <= j < m ==> play(j).Ok?)
      && (forall f :: 0 <= f < m && play(f).Err? && (forall j :: 0 <= j < f ==> play(j).Ok?) ==>
            error == Some(play(f).error))
  {
    Pipeline.StreamReportsFirstPlayFailure(n, synth, play);
    match Pipeline.Stream(n, synth, play)
    case Ok(_) => None
    case Err(e) => Some(e)
  }

  /** The outcome of the audio part of `process`: the player kept afterwards, and the error. */
  datatype Audible = Audible(player: Option<seq<string>>, error: Option<string>)

  /**
   * Lines 331-366: choose a player the first time only, then speak. An
   * exception anywhere becomes the error; a failed detection leaves the
   * player unchosen, so the next request tries again.
   */
  function Playback(cfg: Config, player: Option<seq<string>>, reply: string, w: World): (r: Audible)
    ensures player.Some? ==> r.player == player
    ensures var found := Player.DetectPlayerCommand(cfg.playerCommand, w.words, w.available);
      && (r.player.None? <==> player.None? && found.Err?)
      && (r.player.None? ==> r.error == Some(found.error))
      && (player.None? && found.Ok? ==> r.player == Some(found.value))
    ensures r.player.Some? ==> r.error == Speak(cfg, reply, w)
  {
    if player.Some? then Audible(player, Speak(cfg, reply, w))
    else
      match Player.DetectPlayerCommand(cfg.playerCommand, w.words, w.available)
      case Err(e) => Audible(None, Some(e))
      case Ok(cmd) => Audible(Some(cmd), Speak(cfg, reply, w))
  }

  /**
   * scripts/vv_box.py lines 315-386. A speaker that cannot be resolved makes
   * `process` raise before any LLM call; otherwise the reply is always
   * returned, with `played` set exactly when a real run spoke it without
   * error.
   */
  function Process(cfg: Config, st: BoxState, text: string, mode: string, dryRun: bool,
                   speaker: Speakers.SpeakerArg, w: World): (r: ProcessRun)
    ensures var res := Speakers.Resolve(cfg.speakerName, st.resolver, speaker, w.client);
      && (r.Raised? <==> res.outcome.Err?)
      && (r.Raised? ==> r.message == res.outcome.error)
      && r.state.resolver == res.resolver
      && (r.Returned? ==> r.result.speakerId == res.outcome.value)
    ensures r.Returned? ==>
      var reply := Reply.MakeReply(text, mode, cfg.minChars, cfg.maxChars, w.llm);
      && r.result.replyText == reply.text
      && r.result.replySource == reply.source
      && r.result.inputChars == |text|
      && r.result.outputChars == |reply.text| > 0
      && r.result.mode == mode
    ensures r.Returned? ==> (r.result.played <==> !dryRun && r.result.error.None?)
    ensures dryRun ==> r.state.player == st.player
    ensures r.Returned? && dryRun ==> r.result.error.None?
    ensures st.player.Some? ==> r.state.player == st.player
    ensures r.Raised? ==> r.state.player == st.player
    ensures r.Returned? && !dryRun ==>
      var audible := Playback(cfg, st.player, Reply.MakeReply(text, mode, cfg.minChars, cfg.maxChars, w.llm).text, w);
      r.result.error == audible.error && r.state.player == audible.player
  {
    var res := Speakers.Resolve(cfg.speakerName, st.resolver, speaker, w.client);
    match res.outcome
    case Err(e) => Raised(e, st.(resolver := res.resolver))
    case Ok(id) =>
      var reply := Reply.MakeReply(text, mode, cfg.minChars, cfg.maxChars, w.llm);
      if dryRun then
        Returned(BoxResult(reply.text, false, id, reply.source, |text|, |reply.text|, mode, None),
                 st.(resolver := res.resolver))
      else
        var audible := Playback(cfg, st.player, reply.text, w);
        Returned(BoxResult(reply.text, audible.error.None?, id, reply.source, |text|, |reply.text|, mode, audible.error),
                 BoxState(res.resolver, audible.player))
  }

  /** `w` with every audio answer replaced: detection, synthesis and playback. */
  function WithAudio(w: World, words: Result<seq<string>, string>, available: set<string>,
                     synth: nat -> Result<Pipeline.Wav, string>, synthWhole: Result<Pipeline.Wav, string>,
                     play: nat -> Result<(), string>): World
  {
    w.(words := words, available := available, synth := synth, synthWhole := synthWhole, play := play)
  }

  /**
   * Lines 330-331: a dry run detects no player, synthesizes and plays
   * nothing, so its outcome does not depend on any of them.
   */
  lemma DryRunIgnoresAudio(cfg: Config, st: BoxState, text: string, mode: string,
                           speaker: Speakers.SpeakerArg, w: World,
                           words: Result<seq<string>, string>, available: set<string>,
                           synth: nat -> Result<Pipeline.Wav, string>, synthWhole: Result<Pipeline.Wav, string>,
                           play: nat -> Result<(), string>)
    ensures var v := WithAudio(w, words, available, synth, synthWhole, play);
      Process(cfg, st, text, mode, true, speaker, w) == Process(cfg, st, text, mode, true, speaker, v)
  {
  }

  /**
   * Lines 332-333: once a player has been chosen, later requests never look
   * for one again: neither the configured command nor the search path matters.
   */
  lemma PlayerChosenOnce(cfg: Config, st: BoxState, text: string, mode: string, dryRun: bool,
                         speaker: Speakers.SpeakerArg, w: World,
                         words: Result<seq<string>, string>, available: set<string>)
    requires st.player.Some?
    ensures Process(cfg, st, text, mode, dryRun, speaker, w)
         == Process(cfg, st, text, mode, dryRun, speaker, w.(words := words, available := available))
  {
  }

  /** A successful detection is kept for the next request. */
  lemma DetectionRemembered(cfg: Config, st: BoxState, text: string, mode: string,
                            speaker: Speakers.SpeakerArg, w: World)
    requires st.player.None?
    requires Process(cfg, st, text, mode, false, speaker, w).Returned?
    requires Player.DetectPlayerCommand(cfg.playerCommand, w.words, w.available).Ok?
    ensures Process(cfg, st, text, mode, false, speaker, w).state.player
         == Some(Player.DetectPlayerCommand(cfg.playerCommand, w.words, w.available).value)
  {
  }

  /**
   * Lines 332-333 across two requests: after a request that detected a
   * player, the next request does not depend on what detection would find.
   */
  lemma DetectedOnceForAll(cfg: Config, st: BoxState, text: string, mode: string,
                           speaker: Speakers.SpeakerArg, w: World,
                           text2: string, mode2: string, dryRun2: bool, speaker2: Speakers.SpeakerArg, w2: World,
                           words: Result<seq<string>, string>, available: set<string>)
    requires Process(cfg, st, text, mode, false, speaker, w).Returned?
    requires Player.DetectPlayerCommand(cfg.playerCommand, w.words, w.available).Ok?
    ensures var st2 := Process(cfg, st, text, mode, false, speaker, w).state;
      && st2.player.Some?
      && Process(cfg, st2, text2, mode2, dryRun2, speaker2, w2)
         == Process(cfg, st2, text2, mode2, dryRun2, speaker2, w2.(words := words, available := available))
  {
    var st2 := Process(cfg, st, text, mode, false, speaker, w).state;
    if st.player.None? {
      DetectionRemembered(cfg, st, text, mode, speaker, w);
    }
    PlayerChosenOnce(cfg, st2, text2, mode2, dryRun2, speaker2, w2, words, available);
  }

  /** A failed detection is reported as the error and nothing is played. */
  lemma DetectionFailureReported(cfg: Config, st: BoxState, text: string, mode: string,
                                 speaker: Speakers.SpeakerArg, w: World)
    requires st.player.None?
    requires Process(cfg, st, text, mode, false, speaker, w).Returned?
    requires Player.DetectPlayerCommand(cfg.playerCommand, w.words, w.available).Err?
    ensures var r := Process(cfg, st, text, mode, false, speaker, w);
      && !r.result.played
      && r.result.error == Some(Player.DetectPlayerCommand(cfg.playerCommand, w.words, w.available).error)
      && r.state.player.None?
  {
  }

  /**
   * Lines 342-349 with 364: a synthesis failure inside the producer thread
   * never reaches `process`. When a player is at hand and every play succeeds, the
   * request reports `played` and no error, whatever the synthesis did.
   */
  lemma SynthesisFailureStillPlayed(cfg: Config, st: BoxState, text: string, mode: string,
                                    speaker: Speakers.SpeakerArg, w: World)
    requires cfg.streamPlayback
    requires st.player.Some?
    requires forall j :: 0 <= j < |Segments(Reply.MakeReply(text, mode, cfg.minChars, cfg.maxChars, w.llm).text)| ==> w.play(j).Ok?
    requires Process(cfg, st, text, mode, false, speaker, w).Returned?
    ensures Process(cfg, st, text, mode, false, speaker, w).result.played
    ensures Process(cfg, st, text, mode, false, speaker, w).result.error.None?
  {
    var reply := Reply.MakeReply(text, mode, cfg.minChars, cfg.maxChars, w.llm);
    Pipeline.SynthesisFailureStopsQuietly(|Segments(reply.text)|, w.synth, w.play);
  }

  /** A failed play is reported as the error, the reply text is still returned. */
  lemma PlayFailureReported(cfg: Config, st: BoxState, text: string, mode: string,
                            speaker: Speakers.SpeakerArg, w: World)
    requires !cfg.streamPlayback
    requires st.player.Some?
    requires w.synthWhole.Ok? && w.play(0).Err?
    requires Process(cfg, st, text, mode, false, speaker, w).Returned?
    ensures var r := Process(cfg, st, text, mode, false, speaker, w);
      && !r.result.played
      && r.result.error == Some(w.play(0).error)
      && r.result.replyText == Reply.MakeReply(text, mode, cfg.minChars, cfg.maxChars, w.llm).text
  {
  }
}
