/**
 The in-process driver as a transition system.

 Every event is one channel operation, one atomic counter update or one local decision of one goroutine, so a
 run is an arbitrary interleaving of callers, workers, retry timers and Close.
 */
module MemqProtocol {
  import opened QueueTypes

  datatype Config = Config(buffer: nat, maxRetries: nat, deadLetterMax: nat)

  datatype Pc =
    // Enqueue: closed check, dead-letter check, channel send, counter, return
    | Calling(job: Job)
    | Admitting(job: Job)
    | Offering(job: Job)
    | Sent(job: Job)
    // worker
    | Idle
    | Taken(p: Payload)
    | Starting(p: Payload)
    | Running(p: Payload)
    | Burying(p: Payload)
    | Scheduling(p: Payload)
    | Spawning(p: Payload)
    | Leaving
    // the goroutine behind one scheduled retry
    | Ticking(p: Payload)
    | Abandoning(p: Payload)
    // Close
    | Stopping
    | Draining
    | Drained(p: Payload)
    | Gone

  /** What goroutines share, and the history the properties speak of. */
  datatype Shared = Shared(
    buffer: seq<Payload>,  // the channel, next to be received first
    pending: int,
    active: int,
    closed: bool,
    stopped: bool,         // the stop channel is closed
    acked: seq<Payload>,   // with completed attempts
    dead: seq<DeadEntry>,
    sends: seq<Payload>,   // everything ever put on the channel
    takes: seq<Payload>,   // everything ever received from it
    accepted: multiset<Job>,
    lost: multiset<Job>,   // abandoned at shutdown, or refused by the dead-letter sink
    sinkFailed: bool)

  datatype State = State(sh: Shared, procs: seq<Pc>)  // every goroutine ever started

  /** What the scheduler, the handler and the dead-letter sink do. */
  datatype Choice = Go | Quit | Fail | Depth(n: nat) | Answer(disp: Disposition)

  datatype Event = Call(job: Job) | Boot | Close | Step(i: nat, choice: Choice)

  /** The one shared access of a step. */
  datatype Effect =
    | Nothing
    | Admit(job: Job)        // a new job on the channel
    | Resend(p: Payload)     // a retry back on the channel
    | Receive                // the head off the channel
    | Up                     // pending.Add(1)
    | Down                   // pending.Add(-1)
    | Forget(job: Job)       // pending.Add(-1) for a job given up at shutdown
    | Enter                  // active.Add(1)
    | Exit                   // active.Add(-1)
    | Finish(p: Payload)
    | Bury(e: DeadEntry)
    | Refuse(job: Job)       // the dead-letter sink failed
    | Spawn(p: Payload)      // the retry's own goroutine
    | Stop

  datatype Move = Move(pc: Pc, effect: Effect)

  function Tried(p: Payload): Payload {
    Payload(p.job, p.attempts + 1)
  }

  /** process: what follows a handler's answer, given the incremented attempts. */
  function Decide(cfg: Config, q: Payload, disp: Disposition): Move {
    match disp
    case Ack => Move(Leaving, Finish(q))
    case Retry => if q.attempts > cfg.maxRetries then Move(Burying(q), Nothing) else Move(Scheduling(q), Nothing)
    case _ => Move(Burying(q), Nothing)
  }

  /** The next step of a goroutine at pc. One that cannot take the step it is asked for stays where it is. */
  function Next(cfg: Config, sh: Shared, pc: Pc, c: Choice): Move {
    match pc
    case Calling(j) => Move(if sh.closed then Gone else Admitting(j), Nothing)
    case Admitting(j) =>
      (match c
       case Depth(n) => Move(if n >= cfg.deadLetterMax then Gone else Offering(j), Nothing)
       case Fail => Move(Gone, Nothing)
       case _ => Move(pc, Nothing))
    case Offering(j) => if |sh.buffer| < cfg.buffer then Move(Sent(j), Admit(j)) else Move(Gone, Nothing)
    case Sent(_) => Move(Gone, Up)
    case Idle =>
      if c.Quit? then Move(Gone, Nothing)
      else if sh.buffer == [] then Move(Idle, Nothing)
      else Move(Taken(sh.buffer[0]), Receive)
    case Taken(p) => Move(Starting(p), Down)
    case Starting(p) => Move(Running(p), Enter)
    case Running(p) => if c.Answer? then Decide(cfg, Tried(p), c.disp) else Move(pc, Nothing)
    case Burying(q) => Move(Leaving, if c.Fail? then Refuse(q.job) else Bury(DeadEntry(q.job, q.attempts)))
    case Scheduling(q) => Move(Spawning(q), Up)
    case Spawning(q) => Move(Leaving, Spawn(q))
    case Leaving => Move(Idle, Exit)
    case Ticking(q) =>
      if c.Quit? then Move(if sh.stopped then Abandoning(q) else pc, Nothing)
      else if |sh.buffer| < cfg.buffer then Move(Gone, Resend(q))
      else Move(pc, Nothing)
    case Abandoning(q) => Move(Gone, Forget(q.job))
    case Stopping => Move(Draining, Stop)
    case Draining => if sh.buffer == [] then Move(Gone, Nothing) else Move(Drained(sh.buffer[0]), Receive)
    case Drained(p) => Move(Draining, Forget(p.job))
    case Gone => Move(Gone, Nothing)
  }

  function Perform(sh: Shared, f: Effect): Shared {
    match f
    case Nothing => sh
    case Admit(j) =>
      sh.(buffer := sh.buffer + [Payload(j, 0)], sends := sh.sends + [Payload(j, 0)],
          accepted := sh.accepted + multiset{j})
    case Resend(p) => sh.(buffer := sh.buffer + [p], sends := sh.sends + [p])
    case Receive =>
      if sh.buffer == [] then sh
      else sh.(buffer := sh.buffer[1..], takes := sh.takes + [sh.buffer[0]])
    case Up => sh.(pending := sh.pending + 1)
    case Down => sh.(pending := sh.pending - 1)
    case Forget(j) => sh.(pending := sh.pending - 1, lost := sh.lost + multiset{j})
    case Enter => sh.(active := sh.active + 1)
    case Exit => sh.(active := sh.active - 1)
    case Finish(p) => sh.(acked := sh.acked + [p])
    case Bury(e) => sh.(dead := sh.dead + [e])
    case Refuse(j) => sh.(lost := sh.lost + multiset{j}, sinkFailed := true)
    case Spawn(_) => sh
    case Stop => sh.(stopped := true)
  }

  function Advance(cfg: Config, s: State, i: nat, c: Choice): State
    requires i < |s.procs|
  {
    var m := Next(cfg, s.sh, s.procs[i], c);
    var procs := s.procs[i := m.pc];
    State(Perform(s.sh, m.effect), if m.effect.Spawn? then procs + [Ticking(m.effect.p)] else procs)
  }

  function Apply(cfg: Config, s: State, e: Event): State {
    match e
    case Call(j) => s.(procs := s.procs + [Calling(j)])
    case Boot => s.(procs := s.procs + [Idle])
    case Close => if s.sh.closed then s else State(s.sh.(closed := true), s.procs + [Stopping])
    case Step(i, c) => if i < |s.procs| then Advance(cfg, s, i, c) else s
  }

  const Init: State := State(Shared([], 0, 0, false, false, [], [], [], [], multiset{}, multiset{}, false), [])

  function After(cfg: Config, es: seq<Event>): State {
    if es == [] then Init else Apply(cfg, After(cfg, es[..|es| - 1]), es[|es| - 1])
  }
}
