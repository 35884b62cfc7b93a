/**
 * Player selection: `detect_player_command` of scripts/vv_box.py and
 * `detect_player` of scripts/stream_play_sample.py. `shutil.which` becomes
 * the set of programs found on the search path, and `shlex.split` of a
 * configured command becomes its outcome, given as a parameter.
 */
module Player {
  import opened Wrappers
  import opened Cleanup

  /** The number of built-in players. */
  const Choices: nat := 3

  /** The command line of built-in player `i`, in order of preference. */
  function Command(i: nat): (cmd: seq<string>)
    requires i < Choices
    ensures |cmd| > 0
  {
    if i == 0 then ["pw-play"]
    else if i == 1 then ["paplay"]
    else ["aplay", "-q"]
  }

  /** The program that `which` looks for to offer player `i`. */
  function Program(i: nat): string
    requires i < Choices
  {
    Command(i)[0]
  }

  /** Player `i` is found and no more preferred player is. */
  predicate PreferredAt(available: set<string>, i: nat) {
    && i < Choices
    && Program(i) in available
    && forall j :: 0 <= j < i ==> Program(j) !in available
  }

  /** The most preferred built-in player found, searching from player `i`. */
  function ProbeFrom(available: set<string>, i: nat): (r: Option<seq<string>>)
    requires i <= Choices
    requires forall j :: 0 <= j < i ==> Program(j) !in available
    ensures r.Some? <==> exists j :: i <= j < Choices && Program(j) in available
    ensures r.Some? ==> exists j :: PreferredAt(available, j) && r.value == Command(j)
    decreases Choices - i
  {
    if i == Choices then None
    else if Program(i) in available then
      assert PreferredAt(available, i);
      Some(Command(i))
    else ProbeFrom(available, i + 1)
  }

  /** Lines 226-231 of scripts/vv_box.py: the built-in players in order of preference. */
  function Probe(available: set<string>): (r: Option<seq<string>>)
    ensures r.Some? <==> exists j :: 0 <= j < Choices && Program(j) in available
    ensures r.Some? ==> exists j :: PreferredAt(available, j) && r.value == Command(j)
  {
    ProbeFrom(available, 0)
  }

  /** At most one player is the preferred one. */
  lemma PreferredUnique(available: set<string>, i: nat, j: nat)
    requires PreferredAt(available, i) && PreferredAt(available, j)
    ensures i == j
  {
  }

  /** The choice is exactly the preferred player found. */
  lemma ProbeChoosesPreferred(available: set<string>, i: nat)
    requires PreferredAt(available, i)
    ensures Probe(available) == Some(Command(i))
  {
    var r := Probe(available);
    var j :| PreferredAt(available, j) && r.value == Command(j);
    PreferredUnique(available, i, j);
  }

  /** Making a less preferred program available does not change the choice. */
  lemma ProbeIgnoresLessPreferred(available: set<string>, i: nat, extra: string)
    requires PreferredAt(available, i)
    requires forall j :: 0 <= j <= i ==> Program(j) != extra
    ensures Probe(available + {extra}) == Probe(available)
  {
    ProbeChoosesPreferred(available, i);
    assert PreferredAt(available + {extra}, i);
    ProbeChoosesPreferred(available + {extra}, i);
  }

  /** The error `detect_player_command` raises when no player is found. */
  const BoxNoPlayer: string :=
    "No audio player found. Set PLAYER_COMMAND or install pw-play/paplay/aplay."

  /** The error `detect_player` raises when no player is found. */
  const SampleNoPlayer: string :=
    "No player found. Install one of: pw-play, paplay, aplay"

  /**
   * scripts/vv_box.py lines 223-232. A configured command that is not blank
   * is split into words and used as is, without probing; otherwise the most
   * preferred built-in player found is used.
   */
  function DetectPlayerCommand(userCommand: string, words: Result<seq<string>, string>,
                               available: set<string>): (r: Result<seq<string>, string>)
    ensures |Strip(userCommand)| > 0 ==> r == words
    ensures |Strip(userCommand)| == 0 ==> forall i :: PreferredAt(available, i) ==> r == Ok(Command(i))
    ensures |Strip(userCommand)| == 0 ==>
      (r == Err(BoxNoPlayer) <==> forall j :: 0 <= j < Choices ==> Program(j) !in available)
  {
    if |Strip(userCommand)| > 0 then words
    else
      assert forall i :: PreferredAt(available, i) ==> Probe(available) == Some(Command(i)) by {
        forall i | PreferredAt(available, i) ensures Probe(available) == Some(Command(i)) {
          ProbeChoosesPreferred(available, i);
        }
      }
      match Probe(available)
      case Some(cmd) => Ok(cmd)
      case None => Err(BoxNoPlayer)
  }

  /** scripts/stream_play_sample.py lines 92-99: only the built-in players. */
  function DetectPlayer(available: set<string>): (r: Result<seq<string>, string>)
    ensures r.Ok? ==> exists j :: PreferredAt(available, j) && r.value == Command(j)
    ensures r.Err? <==> forall j :: 0 <= j < Choices ==> Program(j) !in available
    ensures r.Err? ==> r.error == SampleNoPlayer
  {
    match Probe(available)
    case Some(cmd) => Ok(cmd)
    case None => Err(SampleNoPlayer)
  }

  /**
   * With no command configured, both scripts choose the same player and fail
   * in the same situations, with different messages.
   */
  lemma DetectorsAgree(userCommand: string, words: Result<seq<string>, string>, available: set<string>)
    requires |Strip(userCommand)| == 0
    ensures DetectPlayerCommand(userCommand, words, available).Ok? <==> DetectPlayer(available).Ok?
    ensures DetectPlayer(available).Ok? ==> DetectPlayerCommand(userCommand, words, available) == DetectPlayer(available)
  {
  }
}
