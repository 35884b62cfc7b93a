/**
 * `main` of scripts/stream_play_sample.py (lines 115-156): look up the
 * speaker, split the text, find a player, then stream. The `/speakers`
 * list, the search path, synthesis and playback are parameters; argument
 * parsing and the progress lines it prints are not modelled.
 */
module Sample {
  import opened Wrappers
  import Cleanup
  import Sentences
  import Speakers
  import Player
  import Pipeline

  /** How the script ends: normally, having played some clips, or with an exception. */
  datatype SampleRun = Completed(played: seq<Pipeline.Wav>) | Raised(message: string)

  /** Line 132: the error for a text with nothing to say. */
  const EmptyText: string := "Empty text"

  /**
   * Lines 135-156: the stream of `n` segments. It completes when every clip
   * synthesized before the first synthesis failure plays.
   */
  function StreamRun(n: nat, synth: nat -> Result<Pipeline.Wav, string>, play: nat -> Result<(), string>): (r: SampleRun)
    ensures var clips := Pipeline.Audio(synth, Pipeline.SynthCount(n, synth));
      && (r.Completed? <==> forall j :: 0 <= j < |clips| ==> play(j).Ok?)
      && (r.Completed? ==> r.played == clips)
  {
    match Pipeline.Stream(n, synth, play)
    case Ok(ws) => Completed(ws)
    case Err(e) => Raised(e)
  }

  /**
   * Lines 128-156. The steps run in this order and the first failure ends
   * the script: an unknown speaker, a text that splits into no segment
   * (before any player is looked for or anything synthesized), no player,
   * and a failed play. A failed synthesis only ends the stream early.
   */
  function Main(speakers: seq<Speakers.Speaker>, name: string, text: string, available: set<string>,
                synth: nat -> Result<Pipeline.Wav, string>, play: nat -> Result<(), string>): (r: SampleRun)
    ensures Speakers.LookupAnyStyled(speakers, name).Err? ==> r == Raised(Speakers.NotFound(name))
    ensures Speakers.LookupAnyStyled(speakers, name).Ok? && Cleanup.AllWs(text) ==> r == Raised(EmptyText)
    ensures Speakers.LookupAnyStyled(speakers, name).Ok? && !Cleanup.AllWs(text) && Player.DetectPlayer(available).Err? ==>
      r == Raised(Player.SampleNoPlayer)
    ensures Speakers.LookupAnyStyled(speakers, name).Ok? && !Cleanup.AllWs(text) && Player.DetectPlayer(available).Ok? ==>
      r == StreamRun(|Sentences.SplitSentences(text)|, synth, play)
  {
    match Speakers.LookupAnyStyled(speakers, name)
    case Err(e) => Raised(e)
    case Ok(_) =>
      var segments := Sentences.SplitSentences(text);
      if |segments| == 0 then Raised(EmptyText)
      else
        match Player.DetectPlayer(available)
        case Err(e) => Raised(e)
        case Ok(_) => StreamRun(|segments|, synth, play)
  }

  /**
   * Lines 130-132: a text with nothing to say is rejected before a player is
   * looked for and before anything is synthesized or played.
   */
  lemma EmptyTextRejectedFirst(speakers: seq<Speakers.Speaker>, name: string, text: string,
                               available: set<string>, synth: nat -> Result<Pipeline.Wav, string>,
                               play: nat -> Result<(), string>,
                               available2: set<string>, synth2: nat -> Result<Pipeline.Wav, string>,
                               play2: nat -> Result<(), string>)
    requires Cleanup.AllWs(text)
    ensures Main(speakers, name, text, available, synth, play) == Main(speakers, name, text, available2, synth2, play2)
    ensures Main(speakers, name, text, available, synth, play).Raised?
  {
  }

  /**
   * The sample and the service agree on which speaker names exist whenever
   * the service finds one: the sample then uses the same style id.
   */
  lemma SampleAcceptsServiceSpeakers(speakers: seq<Speakers.Speaker>, name: string)
    requires Speakers.LookupFirstMatch(speakers, name).Ok?
    ensures Speakers.LookupAnyStyled(speakers, name) == Speakers.LookupFirstMatch(speakers, name)
  {
    Speakers.FirstMatchRefinesAnyStyled(speakers, name);
  }
}
