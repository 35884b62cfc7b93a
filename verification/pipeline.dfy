/**
 * The sentence-by-sentence playback of `BoxLogic.process` in
 * scripts/vv_box.py (lines 335-359) and of `main` in
 * scripts/stream_play_sample.py (lines 135-156): a producer thread
 * synthesizes the segments in order into a queue of two slots and always
 * ends with a sentinel; the consumer plays what it takes until the sentinel.
 *
 * The threads become a state machine whose two steps may interleave in any
 * order. Synthesis is an oracle `synth(k)` for segment `k`, playback an
 * oracle `play(j)` for the `j`-th clip played; either may fail.
 */
module Pipeline {
  import opened Wrappers

  /** The bytes of one synthesized WAV clip. */
  type Wav = seq<bv8>

  /** Lines 340 and 135: `queue.Queue(maxsize=2)`. */
  const Capacity: nat := 2

  /** A queue item: a clip, or the `None` that ends the stream. */
  datatype Slot = Payload(wav: Wav) | Sentinel

  /** Where the producer thread is. */
  datatype Producer =
    | Synthesizing(next: nat)       // about to synthesize segment `next`, or to give up
    | Putting(next: nat, slot: Slot) // waiting for room to put `slot`; `next` segments synthesized
    | Done                          // the sentinel is in the queue

  /** Where the consumer loop is. */
  datatype Consumer = Waiting | Stopped | Failed(error: string)

  datatype Pipe = Pipe(producer: Producer, buffer: seq<Slot>, played: seq<Wav>, consumer: Consumer)

  /** Which thread moves next. */
  datatype Actor = ProducerThread | ConsumerThread

  function Init(): Pipe {
    Pipe(Synthesizing(0), [], [], Waiting)
  }

  // ---------------------------------------------------------------------
  // The reference behaviour
  // ---------------------------------------------------------------------

  /** The first `m` syntheses succeed. */
  predicate AllOk(synth: nat -> Result<Wav, string>, m: nat) {
    forall j :: 0 <= j < m ==> synth(j).Ok?
  }

  /** The clips of the first `m` segments. */
  function Audio(synth: nat -> Result<Wav, string>, m: nat): (ws: seq<Wav>)
    requires AllOk(synth, m)
    ensures |ws| == m
    ensures forall j :: 0 <= j < m ==> ws[j] == synth(j).value
  {
    if m == 0 then [] else Audio(synth, m - 1) + [synth(m - 1).value]
  }

  function SynthCountFrom(n: nat, synth: nat -> Result<Wav, string>, i: nat): (m: nat)
    requires i <= n && AllOk(synth, i)
    ensures i <= m <= n && AllOk(synth, m)
    ensures m < n ==> synth(m).Err?
    decreases n - i
  {
    if i == n || synth(i).Err? then i else SynthCountFrom(n, synth, i + 1)
  }

  /**
   * How many of the `n` segments the producer synthesizes: all of them, or
   * those before the first failure, which ends the loop (the exception
   * leaves the thread after its `finally` puts the sentinel and never
   * reaches `process`).
   */
  function SynthCount(n: nat, synth: nat -> Result<Wav, string>): (m: nat)
    ensures m <= n && AllOk(synth, m)
    ensures m < n ==> synth(m).Err?
  {
    SynthCountFrom(n, synth, 0)
  }

  /** The count is the only one that fits: everything before it succeeds, it stops at a failure or at `n`. */
  lemma SynthCountUnique(n: nat, synth: nat -> Result<Wav, string>, k: nat)
    requires k <= n && AllOk(synth, k)
    requires k < n ==> synth(k).Err?
    ensures k == SynthCount(n, synth)
  {
  }

  /** Playing `ws` in order from clip `i`, stopping at the first failure. */
  function PlayFrom(ws: seq<Wav>, play: nat -> Result<(), string>, i: nat): (r: Result<seq<Wav>, string>)
    requires i <= |ws|
    ensures r.Ok? <==> forall j :: i <= j < |ws| ==> play(j).Ok?
    ensures r.Ok? ==> r.value == ws
    decreases |ws| - i
  {
    if i == |ws| then Ok(ws)
    else if play(i).Err? then Err(play(i).error)
    else PlayFrom(ws, play, i + 1)
  }

  /** The sequential reference: play every clip in order; the first failure is the outcome. */
  function PlayAll(ws: seq<Wav>, play: nat -> Result<(), string>): (r: Result<seq<Wav>, string>)
    ensures r.Ok? <==> forall j :: 0 <= j < |ws| ==> play(j).Ok?
    ensures r.Ok? ==> r.value == ws
  {
    PlayFrom(ws, play, 0)
  }

  lemma {:induction false} PlayFromAllOk(ws: seq<Wav>, play: nat -> Result<(), string>, i: nat)
    requires i <= |ws|
    requires forall j :: i <= j < |ws| ==> play(j).Ok?
    ensures PlayFrom(ws, play, i) == Ok(ws)
    decreases |ws| - i
  {
    if i < |ws| {
      PlayFromAllOk(ws, play, i + 1);
    }
  }

  lemma {:induction false} PlayFromFirstFailure(ws: seq<Wav>, play: nat -> Result<(), string>, i: nat, f: nat)
    requires i <= f < |ws|
    requires forall j :: i <= j < f ==> play(j).Ok?
    requires play(f).Err?
    ensures PlayFrom(ws, play, i) == Err(play(f).error)
    decreases f - i
  {
    if i < f {
      PlayFromFirstFailure(ws, play, i + 1, f);
    }
  }

  // ---------------------------------------------------------------------
  // The two threads
  // ---------------------------------------------------------------------

  /**
   * One move of the producer (lines 342-349). It synthesizes the next
   * segment; a failure or the end of the segments makes it put the
   * sentinel. A put waits while the queue is full.
   */
  function ProduceStep(p: Pipe, n: nat, synth: nat -> Result<Wav, string>): Pipe {
    match p.producer
    case Synthesizing(k) =>
      if k < n && synth(k).Ok? then p.(producer := Putting(k + 1, Payload(synth(k).value)))
      else p.(producer := Putting(k, Sentinel))
    case Putting(k, slot) =>
      if |p.buffer| < Capacity then
        p.(buffer := p.buffer + [slot], producer := if slot.Sentinel? then Done else Synthesizing(k))
      else p
    case Done => p
  }

  /**
   * One move of the consumer (lines 354-358). It takes the oldest item;
   * the sentinel ends the loop, a clip is played, and a failed play ends
   * the loop with its error.
   */
  function ConsumeStep(p: Pipe, play: nat -> Result<(), string>): Pipe {
    if !p.consumer.Waiting? || |p.buffer| == 0 then p
    else
      match p.buffer[0]
      case Sentinel => p.(buffer := p.buffer[1..], consumer := Stopped)
      case Payload(w) =>
        match play(|p.played|)
        case Ok(_) => p.(buffer := p.buffer[1..], played := p.played + [w])
        case Err(e) => p.(buffer := p.buffer[1..], consumer := Failed(e))
  }

  function Step(p: Pipe, a: Actor, n: nat, synth: nat -> Result<Wav, string>,
                play: nat -> Result<(), string>): Pipe {
    match a
    case ProducerThread => ProduceStep(p, n, synth)
    case ConsumerThread => ConsumeStep(p, play)
  }

  /** The pipe after the moves of `schedule`, in order. */
  function Run(p: Pipe, schedule: seq<Actor>, n: nat, synth: nat -> Result<Wav, string>,
               play: nat -> Result<(), string>): Pipe
    decreases |schedule|
  {
    if |schedule| == 0 then p
    else Run(Step(p, schedule[0], n, synth, play), schedule[1..], n, synth, play)
  }

  // ---------------------------------------------------------------------
  // The invariant
  // ---------------------------------------------------------------------

  /** The clips among the queued items, in queue order. */
  function Payloads(b: seq<Slot>): (ws: seq<Wav>)
    ensures |ws| <= |b|
  {
    if |b| == 0 then []
    else if b[0].Payload? then [b[0].wav] + Payloads(b[1..])
    else Payloads(b[1..])
  }

  lemma {:induction false} PayloadsAppend(b: seq<Slot>, s: Slot)
    ensures Payloads(b + [s]) == Payloads(b) + (if s.Payload? then [s.wav] else [])
  {
    if |b| > 0 {
      assert (b + [s])[1..] == b[1..] + [s];
      PayloadsAppend(b[1..], s);
    } else {
      assert (b + [s])[1..] == [];
    }
  }

  predicate NoSentinel(b: seq<Slot>) {
    forall i :: 0 <= i < |b| ==> b[i].Payload?
  }

  /** The sentinel is the last item and the only one. */
  predicate SentinelLast(b: seq<Slot>) {
    |b| > 0 && b[|b| - 1].Sentinel? && NoSentinel(b[..|b| - 1])
  }

  /** The sentinel is queued exactly when the producer is done. */
  predicate Shape(p: Pipe) {
    && (p.producer.Done? ==> SentinelLast(p.buffer))
    && (!p.producer.Done? ==> NoSentinel(p.buffer))
  }

  /** What the producer knows about the segments it has synthesized. */
  predicate ProducerOk(pr: Producer, n: nat, synth: nat -> Result<Wav, string>) {
    match pr
    case Synthesizing(k) => k <= n && AllOk(synth, k)
    case Putting(k, slot) =>
      && k <= n && AllOk(synth, k)
      && (slot.Payload? ==> 1 <= k && slot.wav == synth(k - 1).value)
      && (slot.Sentinel? ==> k == SynthCount(n, synth))
    case Done => true
  }

  /** How many segments the producer has synthesized. */
  function Produced(pr: Producer, n: nat, synth: nat -> Result<Wav, string>): nat {
    match pr
    case Synthesizing(k) => k
    case Putting(k, _) => k
    case Done => SynthCount(n, synth)
  }

  /** The clip the producer holds while it waits to put it. */
  function Held(pr: Producer): seq<Wav> {
    if pr.Putting? && pr.slot.Payload? then [pr.slot.wav] else []
  }

  predicate PlayedOk(p: Pipe, play: nat -> Result<(), string>) {
    forall j :: 0 <= j < |p.played| ==> play(j).Ok?
  }

  /** The clips played, queued and held are the first ones synthesized, in order. */
  predicate Flowing(p: Pipe, n: nat, synth: nat -> Result<Wav, string>) {
    var m := Produced(p.producer, n, synth);
    && m <= SynthCount(n, synth)
    && AllOk(synth, m)
    && p.played + Payloads(p.buffer) + Held(p.producer) == Audio(synth, m)
  }

  /** The consumer met the sentinel after playing every synthesized clip. */
  predicate Finished(p: Pipe, n: nat, synth: nat -> Result<Wav, string>) {
    && p.producer.Done?
    && p.buffer == []
    && p.played == Audio(synth, SynthCount(n, synth))
  }

  /** The consumer stopped at a failed play of the next synthesized clip. */
  predicate Broken(p: Pipe, n: nat, synth: nat -> Result<Wav, string>, play: nat -> Result<(), string>, e: string) {
    && |p.played| < SynthCount(n, synth)
    && p.played == Audio(synth, SynthCount(n, synth))[..|p.played|]
    && play(|p.played|) == Err(e)
  }

  /**
   * The state every interleaving keeps: at most two items queued, and the
   * clips played, queued and held are the synthesized ones in order.
   */
  predicate Inv(p: Pipe, n: nat, synth: nat -> Result<Wav, string>, play: nat -> Result<(), string>) {
    && |p.buffer| <= Capacity
    && ProducerOk(p.producer, n, synth)
    && PlayedOk(p, play)
    && match p.consumer
       case Waiting => Shape(p) && Flowing(p, n, synth)
       case Stopped => Finished(p, n, synth)
       case Failed(e) => Shape(p) && Broken(p, n, synth, play, e)
  }

  lemma {:induction false} AudioPrefix(synth: nat -> Result<Wav, string>, m: nat, k: nat)
    requires k <= m && AllOk(synth, m)
    ensures Audio(synth, m)[..k] == Audio(synth, k)
  {
  }

  lemma InitInv(n: nat, synth: nat -> Result<Wav, string>, play: nat -> Result<(), string>)
    ensures Inv(Init(), n, synth, play)
  {
  }

  lemma ProduceKeepsProducerOk(p: Pipe, n: nat, synth: nat -> Result<Wav, string>)
    requires ProducerOk(p.producer, n, synth)
    ensures ProducerOk(ProduceStep(p, n, synth).producer, n, synth)
  {
    if p.producer.Synthesizing? {
      var k := p.producer.next;
      if !(k < n && synth(k).Ok?) {
        SynthCountUnique(n, synth, k);
      }
    }
  }

  lemma ProduceKeepsShape(p: Pipe, n: nat, synth: nat -> Result<Wav, string>)
    requires Shape(p)
    ensures Shape(ProduceStep(p, n, synth))
  {
    var q := ProduceStep(p, n, synth);
    if p.producer.Putting? && |p.buffer| < Capacity {
      assert q.buffer[..|q.buffer| - 1] == p.buffer;
    }
  }

  /** Synthesizing a segment hands its clip to the producer, or ends the segments. */
  lemma SynthesizeKeepsFlowing(p: Pipe, n: nat, synth: nat -> Result<Wav, string>)
    requires p.producer.Synthesizing?
    requires ProducerOk(p.producer, n, synth) && Flowing(p, n, synth)
    ensures Flowing(ProduceStep(p, n, synth), n, synth)
  {
    var k := p.producer.next;
    if k < n && synth(k).Ok? {
      assert k < SynthCount(n, synth);
      assert Audio(synth, k + 1) == Audio(synth, k) + [synth(k).value];
    } else {
      SynthCountUnique(n, synth, k);
    }
  }

  /** Putting an item moves it from the producer's hands to the queue. */
  lemma PutKeepsFlowing(p: Pipe, n: nat, synth: nat -> Result<Wav, string>)
    requires p.producer.Putting?
    requires ProducerOk(p.producer, n, synth) && Flowing(p, n, synth)
    ensures Flowing(ProduceStep(p, n, synth), n, synth)
  {
    var q := ProduceStep(p, n, synth);
    if |p.buffer| < Capacity {
      PayloadsAppend(p.buffer, p.producer.slot);
      assert q.played + Payloads(q.buffer) + Held(q.producer) == p.played + Payloads(p.buffer) + Held(p.producer);
      assert Produced(q.producer, n, synth) == Produced(p.producer, n, synth);
    }
  }

  lemma ProduceStepInv(p: Pipe, n: nat, synth: nat -> Result<Wav, string>, play: nat -> Result<(), string>)
    requires Inv(p, n, synth, play)
    ensures Inv(ProduceStep(p, n, synth), n, synth, play)
  {
    ProduceKeepsProducerOk(p, n, synth);
    if !p.consumer.Stopped? {
      ProduceKeepsShape(p, n, synth);
    }
    if p.consumer.Waiting? && p.producer.Synthesizing? {
      SynthesizeKeepsFlowing(p, n, synth);
    }
    if p.consumer.Waiting? && p.producer.Putting? {
      PutKeepsFlowing(p, n, synth);
    }
  }

  /** Taking the sentinel: it was the only item, and everything synthesized has been played. */
  lemma ConsumeSentinel(p: Pipe, n: nat, synth: nat -> Result<Wav, string>)
    requires p.consumer.Waiting? && |p.buffer| > 0 && p.buffer[0].Sentinel?
    requires ProducerOk(p.producer, n, synth) && Shape(p) && Flowing(p, n, synth)
    ensures Finished(p.(buffer := p.buffer[1..], consumer := Stopped), n, synth)
  {
    assert p.producer.Done?;
    assert p.buffer == [Sentinel];
  }

  /** Taking a clip keeps the queue shape. */
  lemma ConsumePayloadShape(p: Pipe)
    requires |p.buffer| > 0 && p.buffer[0].Payload? && Shape(p)
    ensures Shape(p.(buffer := p.buffer[1..]))
  {
    var b := p.buffer[1..];
    if p.producer.Done? {
      assert b[..|b| - 1] == p.buffer[..|p.buffer| - 1][1..];
    }
  }

  /** Playing a clip moves it from the queue to the played clips. */
  lemma ConsumePayloadPlayed(p: Pipe, n: nat, synth: nat -> Result<Wav, string>)
    requires |p.buffer| > 0 && p.buffer[0].Payload? && Flowing(p, n, synth)
    ensures Flowing(p.(buffer := p.buffer[1..], played := p.played + [p.buffer[0].wav]), n, synth)
  {
    assert p.played + Payloads(p.buffer) + Held(p.producer)
        == (p.played + [p.buffer[0].wav]) + Payloads(p.buffer[1..]) + Held(p.producer);
  }

  /** A failed play leaves the clips before it played. */
  lemma ConsumePayloadFailed(p: Pipe, n: nat, synth: nat -> Result<Wav, string>,
                             play: nat -> Result<(), string>, e: string)
    requires |p.buffer| > 0 && p.buffer[0].Payload? && Flowing(p, n, synth)
    requires play(|p.played|) == Err(e)
    ensures Broken(p.(buffer := p.buffer[1..], consumer := Failed(e)), n, synth, play, e)
  {
    var m := Produced(p.producer, n, synth);
    var total := SynthCount(n, synth);
    assert |Payloads(p.buffer)| > 0;
    AudioPrefix(synth, total, m);
    assert Audio(synth, m)[..|p.played|] == p.played;
  }

  lemma ConsumeStepInv(p: Pipe, n: nat, synth: nat -> Result<Wav, string>, play: nat -> Result<(), string>)
    requires Inv(p, n, synth, play)
    ensures Inv(ConsumeStep(p, play), n, synth, play)
  {
    if p.consumer.Waiting? && |p.buffer| > 0 {
      match p.buffer[0]
      case Sentinel =>
        ConsumeSentinel(p, n, synth);
      case Payload(w) =>
        ConsumePayloadShape(p);
        if play(|p.played|).Ok? {
          ConsumePayloadPlayed(p, n, synth);
        } else {
          ConsumePayloadFailed(p, n, synth, play, play(|p.played|).error);
        }
    }
  }

  lemma StepInv(p: Pipe, a: Actor, n: nat, synth: nat -> Result<Wav, string>, play: nat -> Result<(), string>)
    requires Inv(p, n, synth, play)
    ensures Inv(Step(p, a, n, synth, play), n, synth, play)
  {
    match a
    case ProducerThread => ProduceStepInv(p, n, synth, play);
    case ConsumerThread => ConsumeStepInv(p, n, synth, play);
  }

  lemma {:induction false} RunInv(p: Pipe, schedule: seq<Actor>, n: nat, synth: nat -> Result<Wav, string>,
                                  play: nat -> Result<(), string>)
    requires Inv(p, n, synth, play)
    ensures Inv(Run(p, schedule, n, synth, play), n, synth, play)
    decreases |schedule|
  {
    if |schedule| > 0 {
      StepInv(p, schedule[0], n, synth, play);
      RunInv(Step(p, schedule[0], n, synth, play), schedule[1..], n, synth, play);
    }
  }

  // ---------------------------------------------------------------------
  // What every interleaving guarantees
  // ---------------------------------------------------------------------

  /** What a consumer that left its loop reports: the clips played, or the failed play's error. */
  function Outcome(p: Pipe): Result<seq<Wav>, string>
    requires !p.consumer.Waiting?
  {
    if p.consumer.Stopped? then Ok(p.played) else Err(p.consumer.error)
  }

  lemma OutcomeMatchesReference(p: Pipe, n: nat, synth: nat -> Result<Wav, string>, play: nat -> Result<(), string>)
    requires Inv(p, n, synth, play) && !p.consumer.Waiting?
    ensures Outcome(p) == PlayAll(Audio(synth, SynthCount(n, synth)), play)
  {
    var ws := Audio(synth, SynthCount(n, synth));
    if p.consumer.Stopped? {
      PlayFromAllOk(ws, play, 0);
    } else {
      PlayFromFirstFailure(ws, play, 0, |p.played|);
    }
  }

  /**
   * However the two threads interleave, a consumer that leaves its loop
   * has played exactly what playing the synthesized clips one after the
   * other would: all of them, or those before the first failed play.
   */
  lemma InterleavingIrrelevant(schedule: seq<Actor>, n: nat, synth: nat -> Result<Wav, string>,
                               play: nat -> Result<(), string>)
    requires !Run(Init(), schedule, n, synth, play).consumer.Waiting?
    ensures Outcome(Run(Init(), schedule, n, synth, play)) == PlayAll(Audio(synth, SynthCount(n, synth)), play)
  {
    InitInv(n, synth, play);
    RunInv(Init(), schedule, n, synth, play);
    OutcomeMatchesReference(Run(Init(), schedule, n, synth, play), n, synth, play);
  }

  /**
   * At every point of every interleaving at most two items are queued, the
   * clips played are the first ones synthesized, in segment order, and a
   * clip taken for playing is one of the `n` segments.
   */
  lemma PlayedIsPrefix(schedule: seq<Actor>, n: nat, synth: nat -> Result<Wav, string>,
                       play: nat -> Result<(), string>)
    ensures var p := Run(Init(), schedule, n, synth, play);
      && |p.buffer| <= Capacity
      && |p.played| <= SynthCount(n, synth)
      && p.played == Audio(synth, SynthCount(n, synth))[..|p.played|]
      && (p.consumer.Waiting? && |p.buffer| > 0 && p.buffer[0].Payload? ==> |p.played| < n)
  {
    InitInv(n, synth, play);
    RunInv(Init(), schedule, n, synth, play);
    var p := Run(Init(), schedule, n, synth, play);
    if p.consumer.Waiting? {
      var m := Produced(p.producer, n, synth);
      AudioPrefix(synth, SynthCount(n, synth), m);
      assert (p.played + Payloads(p.buffer) + Held(p.producer))[..|p.played|] == p.played;
    }
  }

  // ---------------------------------------------------------------------
  // Progress
  // ---------------------------------------------------------------------

  /** How much work the producer has left. */
  function Rank(pr: Producer, n: nat): nat {
    match pr
    case Synthesizing(k) => if k <= n then 4 * (n - k) + 3 else 3
    case Putting(k, slot) => if slot.Sentinel? then 2 else if k <= n then 4 * (n - k) + 5 else 5
    case Done => 0
  }

  /** The move `Schedule` picks. */
  function Next(p: Pipe): Actor {
    if |p.buffer| > 0 then ConsumerThread else ProducerThread
  }

  /** While the consumer waits, the picked move always makes progress. */
  lemma NextMakesProgress(p: Pipe, n: nat, synth: nat -> Result<Wav, string>, play: nat -> Result<(), string>)
    requires Inv(p, n, synth, play) && p.consumer.Waiting?
    ensures var q := Step(p, Next(p), n, synth, play);
      Rank(q.producer, n) + |q.buffer| < Rank(p.producer, n) + |p.buffer|
  {
    if |p.buffer| == 0 {
      assert !p.producer.Done?;
    }
  }

  lemma RunCons(p: Pipe, a: Actor, rest: seq<Actor>, n: nat, synth: nat -> Result<Wav, string>,
                play: nat -> Result<(), string>)
    ensures Run(p, [a] + rest, n, synth, play) == Run(Step(p, a, n, synth, play), rest, n, synth, play)
  {
    assert ([a] + rest)[0] == a && ([a] + rest)[1..] == rest;
  }

  /**
   * A schedule under which the consumer leaves its loop: it moves whenever
   * an item is queued, and otherwise the producer moves. This one schedule
   * is finite and brings the consumer out of its loop.
   */
  function Schedule(p: Pipe, n: nat, synth: nat -> Result<Wav, string>, play: nat -> Result<(), string>): (s: seq<Actor>)
    requires Inv(p, n, synth, play)
    ensures !Run(p, s, n, synth, play).consumer.Waiting?
    decreases Rank(p.producer, n) + |p.buffer|
  {
    if !p.consumer.Waiting? then []
    else
      var a := Next(p);
      var q := Step(p, a, n, synth, play);
      StepInv(p, a, n, synth, play);
      NextMakesProgress(p, n, synth, play);
      var rest := Schedule(q, n, synth, play);
      RunCons(p, a, rest, n, synth, play);
      [a] + rest
  }

  /**
   * The whole playback: what the consumer reports once it leaves its loop.
   * It is the sequential reference on the clips synthesized before the
   * first synthesis failure.
   */
  function Stream(n: nat, synth: nat -> Result<Wav, string>, play: nat -> Result<(), string>): (r: Result<seq<Wav>, string>)
    ensures r == PlayAll(Audio(synth, SynthCount(n, synth)), play)
  {
    InitInv(n, synth, play);
    var s := Schedule(Init(), n, synth, play);
    InterleavingIrrelevant(s, n, synth, play);
    Outcome(Run(Init(), s, n, synth, play))
  }

  /**
   * The playback fails exactly when a play of one of the clips synthesized
   * before the first synthesis failure fails, and then with the message of
   * the first such play.
   */
  lemma StreamReportsFirstPlayFailure(n: nat, synth: nat -> Result<Wav, string>, play: nat -> Result<(), string>)
    ensures var m := SynthCount(n, synth);
      && (Stream(n, synth, play).Ok? <==> forall j :: 0 <= j < m ==> play(j).Ok?)
      && (forall f :: 0 <= f < m && play(f).Err? && (forall j :: 0 <= j < f ==> play(j).Ok?) ==>
            Stream(n, synth, play) == Err(play(f).error))
  {
    var m := SynthCount(n, synth);
    forall f | 0 <= f < m && play(f).Err? && (forall j :: 0 <= j < f ==> play(j).Ok?)
      ensures Stream(n, synth, play) == Err(play(f).error)
    {
      PlayFromFirstFailure(Audio(synth, m), play, 0, f);
    }
  }

  /**
   * A synthesis failure only ends the playback early: when every play
   * succeeds the outcome is a success with the clips synthesized before it.
   */
  lemma SynthesisFailureStopsQuietly(n: nat, synth: nat -> Result<Wav, string>, play: nat -> Result<(), string>)
    requires forall j :: 0 <= j < n ==> play(j).Ok?
    ensures Stream(n, synth, play) == Ok(Audio(synth, SynthCount(n, synth)))
  {
  }
}
