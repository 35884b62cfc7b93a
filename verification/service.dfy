/**
 * The HTTP front of scripts/vv_box.py: `APIService` (lines 396-423), a
 * bounded FIFO queue served by one worker thread, and the status codes of
 * `do_POST` (lines 444-466). The threads become steps of a state machine;
 * reading the socket and parsing JSON are not modelled.
 */
module Service {
  import opened Wrappers
  import Cleanup
  import Speakers
  import Box

  /** The request fields the worker hands to `process` (lines 409-412), already converted. */
  datatype Payload = Payload(text: string, mode: string, dryRun: bool, speaker: Speakers.SpeakerArg)

  /** An `APITask`, numbered in the order it was queued. */
  datatype Task = Task(id: nat, payload: Payload)

  /** `task.result`: the result of `process`, or `{"error": ...}` when it raised. */
  datatype TaskResult = Processed(result: Box.BoxResult) | WorkerError(message: string)

  /**
   * The service: the queue limit, the tasks waiting, the task the worker is
   * processing, the results of finished tasks, the next task number and the
   * `BoxLogic` state the worker carries from task to task.
   */
  datatype Service = Service(
    queueMax: int,
    waiting: seq<Task>,
    current: Option<Task>,
    results: map<nat, TaskResult>,
    nextId: nat,
    box: Box.BoxState)

  function Init(queueMax: int, box: Box.BoxState): Service {
    Service(queueMax, [], None, map[], 0, box)
  }

  /** `put_nowait` raises `queue.Full`: the limit is positive and reached by the waiting tasks. */
  predicate IsFull(s: Service) {
    s.queueMax > 0 && |s.waiting| >= s.queueMax
  }

  datatype Admission = Admitted(id: nat) | QueueFull

  datatype Enqueued = Enqueued(admission: Admission, service: Service)

  /**
   * Lines 420-423: queue a task unless the queue is full. A limit of zero or
   * less means no limit, and the task being processed is not in the queue.
   */
  function Enqueue(s: Service, payload: Payload): (r: Enqueued)
    ensures s.queueMax <= 0 ==> r.admission.Admitted?
    ensures s.queueMax > 0 ==> (r.admission.QueueFull? <==> |s.waiting| >= s.queueMax)
    ensures r.admission.QueueFull? ==> r.service == s
    ensures r.admission.Admitted? ==>
      && r.admission.id == s.nextId
      && r.service == s.(waiting := s.waiting + [Task(s.nextId, payload)], nextId := s.nextId + 1)
  {
    if IsFull(s) then Enqueued(QueueFull, s)
    else Enqueued(Admitted(s.nextId), s.(waiting := s.waiting + [Task(s.nextId, payload)], nextId := s.nextId + 1))
  }

  /** The tasks the service still owes a result, oldest first: the one in progress, then the waiting ones. */
  function Pending(s: Service): seq<Task> {
    (if s.current.Some? then [s.current.value] else []) + s.waiting
  }

  /**
   * Line 405: an idle worker takes the oldest waiting task. No task is lost
   * or reordered, the worker is busy whenever there is work, and nothing
   * else changes.
   */
  function Take(s: Service): (r: Service)
    ensures Pending(r) == Pending(s)
    ensures r.current.Some? <==> s.current.Some? || |s.waiting| > 0
    ensures r.results == s.results && r.nextId == s.nextId && r.queueMax == s.queueMax && r.box == s.box
  {
    if s.current.None? && |s.waiting| > 0 then s.(waiting := s.waiting[1..], current := Some(s.waiting[0]))
    else s
  }

  /** What the worker stores for a task: the result of `process`, or the error it raised. */
  function Outcome(run: Box.ProcessRun): (r: TaskResult)
    ensures run.Raised? <==> r.WorkerError?
    ensures run.Raised? ==> r == WorkerError(run.message)
    ensures run.Returned? ==> r == Processed(run.result)
  {
    match run
    case Raised(msg, _) => WorkerError(msg)
    case Returned(res, _) => Processed(res)
  }

  /**
   * Lines 406-418: the worker processes its task, stores the result (an
   * exception becomes `{"error": ...}`), marks it done and is idle again;
   * the state `process` left behind is kept even when it raised.
   */
  function Finish(s: Service, cfg: Box.Config, w: Box.World): (r: Service)
    ensures s.current.None? ==> r == s
    ensures s.current.Some? ==> r.current.None? && Pending(r) == Pending(s)[1..]
    ensures r.nextId == s.nextId && r.queueMax == s.queueMax
    ensures s.current.Some? ==>
      var t := s.current.value;
      var run := Box.Process(cfg, s.box, t.payload.text, t.payload.mode, t.payload.dryRun, t.payload.speaker, w);
      && r.results == s.results[t.id := Outcome(run)]
      && r.box == run.state
  {
    match s.current
    case None => s
    case Some(t) =>
      var run := Box.Process(cfg, s.box, t.payload.text, t.payload.mode, t.payload.dryRun, t.payload.speaker, w);
      s.(current := None, results := s.results[t.id := Outcome(run)], box := run.state)
  }

  /** The number of tasks finished: everything queued that is neither waiting nor being processed. */
  function DoneCount(s: Service): int {
    s.nextId - |s.waiting| - (if s.current.Some? then 1 else 0)
  }

  /**
   * FIFO bookkeeping: tasks are numbered in queue order, the waiting ones
   * are the newest, the one in progress comes just before them, and exactly
   * the tasks before it have results.
   */
  ghost predicate Inv(s: Service) {
    && 0 <= DoneCount(s)
    && (forall i :: 0 <= i < |s.waiting| ==> s.waiting[i].id == s.nextId - |s.waiting| + i)
    && (s.current.Some? ==> s.current.value.id == DoneCount(s))
    && (forall id :: id in s.results <==> 0 <= id < DoneCount(s))
  }

  lemma InitInv(queueMax: int, box: Box.BoxState)
    ensures Inv(Init(queueMax, box))
  {
  }

  lemma EnqueueInv(s: Service, payload: Payload)
    requires Inv(s)
    ensures Inv(Enqueue(s, payload).service)
  {
  }

  /** `queue.Queue(maxsize=QUEUE_MAX)` with a positive limit never holds more than the limit. */
  lemma EnqueueBounded(s: Service, payload: Payload)
    requires s.queueMax > 0 && |s.waiting| <= s.queueMax
    ensures |Enqueue(s, payload).service.waiting| <= s.queueMax
  {
  }

  /**
   * Admission depends only on the waiting tasks and the limit: the task the
   * worker has taken out of the queue does not count against it.
   */
  lemma AdmissionIgnoresCurrent(s: Service, payload: Payload, current: Option<Task>)
    ensures Enqueue(s.(current := current), payload).admission == Enqueue(s, payload).admission
  {
  }

  lemma TakeInv(s: Service)
    requires Inv(s)
    ensures Inv(Take(s))
  {
  }

  /** Recording the result of the task in progress, whatever it is, keeps the bookkeeping. */
  lemma RecordInv(s: Service, v: TaskResult, box: Box.BoxState)
    requires Inv(s) && s.current.Some?
    ensures Inv(s.(current := None, results := s.results[s.current.value.id := v], box := box))
  {
    var r := s.(current := None, results := s.results[s.current.value.id := v], box := box);
    assert DoneCount(r) == DoneCount(s) + 1;
  }

  lemma FinishInv(s: Service, cfg: Box.Config, w: Box.World)
    requires Inv(s)
    ensures Inv(Finish(s, cfg, w))
  {
    if s.current.Some? {
      var t := s.current.value;
      var run := Box.Process(cfg, s.box, t.payload.text, t.payload.mode, t.payload.dryRun, t.payload.speaker, w);
      RecordInv(s, Outcome(run), run.state);
    }
  }

  /**
   * A stored result is never overwritten: finishing a task only adds the
   * result under its own, new number.
   */
  lemma ResultsKept(s: Service, cfg: Box.Config, w: Box.World)
    requires Inv(s)
    ensures var r := Finish(s, cfg, w);
      && (forall id :: id in s.results ==> id in r.results && r.results[id] == s.results[id])
      && (s.current.Some? ==> s.current.value.id !in s.results && s.current.value.id in r.results)
  {
  }

  /**
   * Tasks finish in the order they were queued: the worker always takes the
   * waiting task with the smallest number, and the task it finishes is the
   * one right after every task finished before.
   */
  lemma FifoOrder(s: Service)
    requires Inv(s) && s.current.None? && |s.waiting| > 0
    ensures var t := Take(s).current.value;
      && (forall i :: 0 <= i < |s.waiting| ==> t.id <= s.waiting[i].id)
      && (forall id :: id in s.results <==> 0 <= id < t.id)
  {
  }

  /**
   * The worker never stops: given a world for each task, it works through
   * everything queued, and every queued task ends with a result.
   */
  function Drain(s: Service, cfg: Box.Config, world: nat -> Box.World): (r: Service)
    requires Inv(s)
    ensures Inv(r) && r.waiting == [] && r.current.None?
    ensures r.nextId == s.nextId && r.queueMax == s.queueMax
    ensures forall id :: 0 <= id < s.nextId ==> id in r.results
    decreases |s.waiting|, if s.current.Some? then 1 else 0
  {
    if s.current.Some? then
      FinishInv(s, cfg, world(s.current.value.id));
      Drain(Finish(s, cfg, world(s.current.value.id)), cfg, world)
    else if |s.waiting| > 0 then
      TakeInv(s);
      Drain(Take(s), cfg, world)
    else s
  }

  // ---------------------------------------------------------------------
  // do_POST
  // ---------------------------------------------------------------------

  /**
   * A request body as `do_POST` reads it: unreadable (the read, the decoding
   * or `json.loads` raised), or an object, with whether it has a `"text"`
   * field and the fields the worker will use (`text` being that field's `str()`).
   */
  datatype Body = Unreadable(message: string) | Json(hasText: bool, payload: Payload)

  /** What `do_POST` does: answer at once, or wait for a queued task. */
  datatype PostStart = Answered(code: int, message: string) | Queued(id: nat)

  datatype Posted = Posted(start: PostStart, service: Service)

  /**
   * Lines 445-459: a path other than `/speak` is 404, an unreadable body is
   * 500, a missing or blank `text` is 400, a full queue is 429; otherwise
   * the task is queued.
   */
  function Post(s: Service, path: string, body: Body): (r: Posted)
    ensures r.start.Queued? ==> body.Json? && r.service == Enqueue(s, body.payload).service
    ensures r.start.Queued? <==>
      path == "/speak" && body.Json? && body.hasText && |Cleanup.Strip(body.payload.text)| > 0 && !IsFull(s)
    ensures r.start.Answered? ==> r.service == s
    ensures r.start.Answered? && r.start.code == 404 <==> path != "/speak"
    ensures r.start.Answered? && r.start.code == 400 <==>
      path == "/speak" && body.Json? && !(body.hasText && |Cleanup.Strip(body.payload.text)| > 0)
    ensures r.start.Answered? && r.start.code == 429 <==>
      path == "/speak" && body.Json? && body.hasText && |Cleanup.Strip(body.payload.text)| > 0 && IsFull(s)
    ensures r.start.Answered? && r.start.code == 500 <==> path == "/speak" && body.Unreadable?
  {
    if path != "/speak" then Posted(Answered(404, "not found"), s)
    else
      match body
      case Unreadable(msg) => Posted(Answered(500, msg), s)
      case Json(hasText, payload) =>
        if !hasText || |Cleanup.Strip(payload.text)| == 0 then Posted(Answered(400, "text is required"), s)
        else
          var e := Enqueue(s, payload);
          match e.admission
          case QueueFull => Posted(Answered(429, "queue full"), s)
          case Admitted(id) => Posted(Queued(id), e.service)
  }

  /** The `reply_text` entry of a task result, `None` when it has none. */
  function ReplyTextOf(r: TaskResult): Option<string> {
    match r
    case Processed(res) => Some(res.replyText)
    case WorkerError(_) => None
  }

  /**
   * Lines 460-464: once the task is done, a result with an `error` entry
   * and no `reply_text` is 500, anything else 200. Every result has an
   * `error` entry, and a processed one always has its reply, so a request
   * whose playback failed is still 200.
   */
  function ResultStatus(r: TaskResult): (code: int)
    ensures code == 200 <==> r.Processed?
    ensures code == 500 <==> r.WorkerError?
  {
    if ReplyTextOf(r).None? then 500 else 200
  }

  /**
   * A queued request is answered with the status of its task's result once
   * the worker has worked through the queue.
   */
  lemma QueuedRequestAnswered(s: Service, path: string, body: Body, cfg: Box.Config, world: nat -> Box.World)
    requires Inv(s)
    requires Post(s, path, body).start.Queued?
    ensures var p := Post(s, path, body);
      && Inv(p.service)
      && p.start.id in Drain(p.service, cfg, world).results
  {
    EnqueueInv(s, body.payload);
  }
}
