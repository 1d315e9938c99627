/**
 * The check queue of one repository: any number of enqueuers and one worker. Each critical
 * section and each channel operation is one atomic step; everything else interleaves.
 */
module RepoQueue {
  import opened Text

  /** A check request; the id tells apart requests for the same commit. */
  datatype Request = Request(id: nat, pr: int, sha: string)

  /** Why a context was cancelled: the first cause stays. */
  datatype Cause = Superseded | RootCancelled

  datatype RunningCheck = RunningCheck(sha: string, cause: Option<Cause>)

  /** What the mutex and the channel protect. */
  datatype Shared = Shared(
    capacity: nat,
    queue: seq<Request>,
    latestSHA: map<int, string>,
    running: map<int, RunningCheck>,
    rootCancelled: bool,
    processed: nat)

  function CancelWith(r: RunningCheck, cause: Cause): RunningCheck {
    if r.cause.Some? then r else r.(cause := Some(cause))
  }

  function Supersede(s: Shared, r: Request): Shared {
    var t := s.(latestSHA := s.latestSHA[r.pr := r.sha]);
    if r.pr in s.running && s.running[r.pr].sha != r.sha then
      t.(running := s.running[r.pr := CancelWith(s.running[r.pr], Superseded)])
    else t
  }

  predicate Skips(s: Shared, r: Request) {
    r.pr in s.latestSHA && s.latestSHA[r.pr] != r.sha
  }

  function Begin(s: Shared, r: Request): Shared {
    if Skips(s, r) then s
    else s.(running := s.running[r.pr := RunningCheck(r.sha, if s.rootCancelled then Some(RootCancelled) else None)])
  }

  function End(s: Shared, r: Request): Shared {
    var t := if r.pr in s.running && s.running[r.pr].sha == r.sha then s.(running := s.running - {r.pr}) else s;
    if r.pr in s.latestSHA && s.latestSHA[r.pr] == r.sha then t.(latestSHA := s.latestSHA - {r.pr}) else t
  }

  function CancelAll(s: Shared): Shared {
    s.(rootCancelled := true, running := map pr | pr in s.running :: CancelWith(s.running[pr], RootCancelled))
  }

  predicate Full(s: Shared) {
    |s.queue| >= s.capacity
  }

  /** The queue object, with its critical sections as methods. */
  class Queue {
    const capacity: nat
    var queue: seq<Request>
    var latestSHA: map<int, string>
    var running: map<int, RunningCheck>
    var rootCancelled: bool
    var processed: nat

    constructor (capacity: nat)
      ensures View() == Shared(capacity, [], map[], map[], false, 0)
    {
      this.capacity := capacity;
      queue, latestSHA, running, rootCancelled, processed := [], map[], map[], false, 0;
    }

    ghost function View(): Shared
      reads this
    {
      Shared(capacity, queue, latestSHA, running, rootCancelled, processed)
    }

    method Record(r: Request)
      modifies this
      ensures View() == Supersede(old(View()), r)
      ensures latestSHA == old(latestSHA)[r.pr := r.sha]
      ensures forall pr :: pr in running <==> pr in old(running)
      ensures forall pr :: pr in running ==>
                running[pr].sha == old(running)[pr].sha && running[pr].cause ==
                  if pr == r.pr && running[pr].sha != r.sha && old(running)[pr].cause.None? then Some(Superseded)
                  else old(running)[pr].cause
    {
      latestSHA := latestSHA[r.pr := r.sha];
      if r.pr in running && running[r.pr].sha != r.sha {
        running := running[r.pr := CancelWith(running[r.pr], Superseded)];
      }
    }

    /** The non-blocking send. */
    method TrySend(r: Request) returns (accepted: bool)
      modifies this
      ensures accepted <==> |old(queue)| < capacity
      ensures View() == if accepted then old(View()).(queue := old(queue) + [r]) else old(View())
    {
      accepted := |queue| < capacity;
      if accepted {
        queue := queue + [r];
      }
    }

    method Receive() returns (r: Request)
      requires queue != []
      modifies this
      ensures r == old(queue)[0] && View() == old(View()).(queue := old(queue)[1..])
    {
      r := queue[0];
      queue := queue[1..];
    }

    method Start(r: Request) returns (ok: bool)
      modifies this
      ensures ok <==> (r.pr in old(latestSHA) ==> old(latestSHA)[r.pr] == r.sha)
      ensures View() == Begin(old(View()), r) && latestSHA == old(latestSHA)
      ensures running == if ok then old(running)[r.pr := RunningCheck(r.sha,
                  if rootCancelled then Some(RootCancelled) else None)] else old(running)
    {
      if r.pr in latestSHA && latestSHA[r.pr] != r.sha {
        return false;
      }
      running := running[r.pr := RunningCheck(r.sha, if rootCancelled then Some(RootCancelled) else None)];
      return true;
    }

    method Stop(r: Request)
      modifies this
      ensures View() == End(old(View()), r)
      ensures running == if r.pr in old(running) && old(running)[r.pr].sha == r.sha then old(running) - {r.pr}
                  else old(running)
      ensures latestSHA == if r.pr in old(latestSHA) && old(latestSHA)[r.pr] == r.sha then old(latestSHA) - {r.pr}
                  else old(latestSHA)
    {
      if r.pr in running && running[r.pr].sha == r.sha {
        running := running - {r.pr};
      }
      if r.pr in latestSHA && latestSHA[r.pr] == r.sha {
        latestSHA := latestSHA - {r.pr};
      }
    }
  }

  /* ----- the system ----- */

  datatype Worker = Idle | Holding(r: Request) | Processing(r: Request) | Ending(r: Request) | Draining | Stopped

  datatype Fate = Begun | Skipped | Drained

  /** A request that left the queue for good, and what became of it. */
  datatype Entry = Entry(r: Request, fate: Fate)

  /** A request that was turned away, and how many accepted ones were waiting then: neither taken nor drained. */
  datatype Rejection = Rejection(r: Request, waiting: int)

  /** What happened so far; no step looks at it. The last field is what was recorded since the last check began. */
  datatype History = History(
    next: nat,
    last: map<int, Request>,
    accepted: seq<Request>,
    rejected: seq<Rejection>,
    log: seq<Entry>,
    ended: seq<Request>,
    since: seq<Request>)

  datatype State = State(shared: Shared, worker: Worker, doneClosed: bool, sending: set<Request>, history: History)

  datatype Step =
    | RecordStep(pr: int, sha: string)
    | SendStep(r: Request)
    | TakeStep
    | BeginStep
    | ReturnStep(ok: bool)
    | EndStep
    | CloseStep
    | CancelAllStep
    | StopStep
    | DrainStep

  function Init(capacity: nat): State {
    State(Shared(capacity, [], map[], map[], false, 0), Idle, false, {}, History(0, map[], [], [], [], [], []))
  }

  predicate Enabled(s: State, step: Step) {
    match step
    case RecordStep(_, _) => true
    case SendStep(r) => r in s.sending
    case TakeStep => s.worker.Idle? && s.shared.queue != []
    case BeginStep => s.worker.Holding?
    case ReturnStep(_) => s.worker.Processing?
    case EndStep => s.worker.Ending?
    case CloseStep => !s.doneClosed
    case CancelAllStep => s.doneClosed
    case StopStep => s.shared.queue == [] && (s.worker.Draining? || (s.worker.Idle? && s.doneClosed))
    case DrainStep => s.shared.queue != [] && (s.worker.Draining? || (s.worker.Idle? && s.doneClosed))
  }

  function Next(s: State, step: Step): State
    requires Enabled(s, step)
  {
    var h := s.history;
    match step
    case RecordStep(pr, sha) =>
      var r := Request(h.next, pr, sha);
      s.(shared := Supersede(s.shared, r), sending := s.sending + {r},
         history := h.(next := h.next + 1, last := h.last[pr := r], since := h.since + [r]))
    case SendStep(r) =>
      if Full(s.shared) then s.(sending := s.sending - {r},
         history := h.(rejected := h.rejected + [Rejection(r, |h.accepted| - |h.log| - |Held(s.worker)|)]))
      else s.(shared := s.shared.(queue := s.shared.queue + [r]), sending := s.sending - {r},
              history := h.(accepted := h.accepted + [r]))
    case TakeStep =>
      s.(shared := s.shared.(queue := s.shared.queue[1..]), worker := Holding(s.shared.queue[0]))
    case BeginStep =>
      var r := s.worker.r;
      if Skips(s.shared, r) then s.(worker := Idle, history := h.(log := h.log + [Entry(r, Skipped)]))
      else s.(shared := Begin(s.shared, r), worker := Processing(r),
              history := h.(log := h.log + [Entry(r, Begun)], since := []))
    case ReturnStep(ok) =>
      s.(shared := if ok then s.shared.(processed := s.shared.processed + 1) else s.shared,
         worker := Ending(s.worker.r))
    case EndStep =>
      s.(shared := End(s.shared, s.worker.r), worker := Idle, history := h.(ended := h.ended + [s.worker.r]))
    case CloseStep => s.(doneClosed := true)
    case CancelAllStep => s.(shared := CancelAll(s.shared))
    case StopStep => s.(worker := Stopped)
    case DrainStep =>
      s.(shared := s.shared.(queue := s.shared.queue[1..]), worker := Draining,
         history := h.(log := h.log + [Entry(s.shared.queue[0], Drained)]))
  }

  /** The state after the steps, unless one of them was not enabled. */
  function Run(capacity: nat, steps: seq<Step>): Option<State> {
    if steps == [] then Some(Init(capacity)) else
    match Run(capacity, steps[..|steps| - 1])
    case None => None
    case Some(s) => if Enabled(s, steps[|steps| - 1]) then Some(Next(s, steps[|steps| - 1])) else None
  }

  /* ----- what every step keeps ----- */

  function Requests(log: seq<Entry>): seq<Request> {
    seq(|log|, i requires 0 <= i < |log| => log[i].r)
  }

  function Held(w: Worker): seq<Request> {
    if w.Holding? then [w.r] else []
  }

  /** Accepted requests are, in the order they were accepted, those that left, the one held, those queued. */
  predicate Conserved(s: State) {
    s.history.accepted == Requests(s.history.log) + Held(s.worker) + s.shared.queue
  }

  predicate AtWork(w: Worker) {
    w.Processing? || w.Ending?
  }

  /** Exactly the request at work is registered as running. */
  predicate OneRunning(s: State) {
    if AtWork(s.worker) then
      s.shared.running.Keys == {s.worker.r.pr} && s.shared.running[s.worker.r.pr].sha == s.worker.r.sha
    else s.shared.running == map[]
  }

  /**
   * A running check for another commit than the recorded one has been cancelled, as superseded unless
   * shutdown came first.
   */
  predicate StaleCancelled(s: Shared) {
    && (forall pr :: pr in s.running && s.running[pr].cause == Some(RootCancelled) ==> s.rootCancelled)
    && (forall pr :: pr in s.running && pr in s.latestSHA && s.running[pr].sha != s.latestSHA[pr] ==>
         s.running[pr].cause.Some?)
  }

  /** Another commit of the same PR was recorded since the check began. */
  predicate Overtaken(since: seq<Request>, r: Request) {
    exists i :: 0 <= i < |since| && since[i].pr == r.pr && since[i].sha != r.sha
  }

  /** The check at work is cancelled exactly if it was overtaken or the whole queue manager was cancelled. */
  predicate CancelledExactly(s: State) {
    AtWork(s.worker) && s.worker.r.pr in s.shared.running ==>
      (s.shared.running[s.worker.r.pr].cause.Some? <==>
        s.shared.rootCancelled || Overtaken(s.history.since, s.worker.r))
  }

  /** A recorded commit is the last one recorded; a missing record means its check has ended. */
  predicate Recorded(s: State) {
    && (forall pr :: pr in s.shared.latestSHA ==>
         pr in s.history.last && s.shared.latestSHA[pr] == s.history.last[pr].sha)
    && (forall pr :: pr in s.history.last && pr !in s.shared.latestSHA ==> EndedFor(s.history, pr))
  }

  predicate EndedFor(h: History, pr: int)
    requires pr in h.last
  {
    exists i :: 0 <= i < |h.ended| && h.ended[i].pr == pr && h.ended[i].sha == h.last[pr].sha
  }

  /** The last request recorded for a PR was not skipped. */
  predicate LastNotSkipped(h: History) {
    forall i :: 0 <= i < |h.log| && h.log[i].fate == Skipped && h.log[i].r.pr in h.last ==>
      h.last[h.log[i].r.pr] != h.log[i].r
  }

  /** Requests are told apart by their ids. */
  predicate Known(s: State) {
    && (forall r :: r in s.sending ==> r.id < s.history.next)
    && (forall i :: 0 <= i < |s.history.accepted| ==> s.history.accepted[i].id < s.history.next)
    && (forall pr :: pr in s.history.last ==> s.history.last[pr].pr == pr)
  }

  predicate DrainsAtShutdown(s: State) {
    && (s.worker.Draining? || s.worker.Stopped? ==> s.doneClosed)
    && (forall i :: 0 <= i < |s.history.log| && s.history.log[i].fate == Drained ==> s.doneClosed)
  }

  /** Whoever was turned away met as many accepted requests as the queue can hold. */
  predicate RejectedAtCapacity(s: State) {
    forall i :: 0 <= i < |s.history.rejected| ==> s.history.rejected[i].waiting == s.shared.capacity
  }

  ghost predicate Inv(s: State) {
    && |s.shared.queue| <= s.shared.capacity && RejectedAtCapacity(s)
    && Conserved(s) && OneRunning(s) && StaleCancelled(s.shared) && CancelledExactly(s)
    && Recorded(s) && LastNotSkipped(s.history) && Known(s) && DrainsAtShutdown(s)
  }

  lemma RequestsSnoc(log: seq<Entry>, e: Entry)
    ensures Requests(log + [e]) == Requests(log) + [e.r]
  {
  }

  lemma QueueMoves(a: seq<Request>, q: seq<Request>, r: Request)
    ensures q != [] ==> a + q == (a + [q[0]]) + q[1..] && a + [] + q == a + [q[0]] + q[1..]
    ensures (a + q) + [r] == a + (q + [r])
    ensures a + [r] + q == (a + [r]) + [] + q
  {
  }

  lemma StepConserves(s: State, step: Step)
    requires Conserved(s) && Enabled(s, step)
    ensures Conserved(Next(s, step))
  {
    var q, gone := s.shared.queue, Requests(s.history.log);
    match step
    case SendStep(r) => QueueMoves(gone + Held(s.worker), q, r);
    case TakeStep => QueueMoves(gone, q, q[0]);
    case BeginStep =>
      QueueMoves(gone, q, s.worker.r);
      RequestsSnoc(s.history.log, Entry(s.worker.r, Skipped));
      RequestsSnoc(s.history.log, Entry(s.worker.r, Begun));
    case DrainStep =>
      QueueMoves(gone, q, q[0]);
      QueueMoves(gone, q[1..], q[0]);
      RequestsSnoc(s.history.log, Entry(q[0], Drained));
    case _ =>
  }

  lemma StepRecords(s: State, step: Step)
    requires Recorded(s) && Enabled(s, step)
    ensures Recorded(Next(s, step))
  {
    var t := Next(s, step);
    forall pr | pr in t.history.last && pr !in t.shared.latestSHA
      ensures EndedFor(t.history, pr)
    {
      if pr !in s.shared.latestSHA {
        var i :| 0 <= i < |s.history.ended| && s.history.ended[i].pr == pr &&
          s.history.ended[i].sha == s.history.last[pr].sha;
        assert t.history.ended[i] == s.history.ended[i];
      } else {
        assert t.history.ended[|s.history.ended|] == s.worker.r;
      }
    }
  }

  /** An accepted request carries an id that no later request has. */
  lemma LogIsKnown(s: State)
    requires Conserved(s) && Known(s)
    ensures forall i :: 0 <= i < |s.history.log| ==> s.history.log[i].r.id < s.history.next
    ensures s.worker.Holding? ==> s.worker.r.id < s.history.next
  {
    var log := s.history.log;
    forall i | 0 <= i < |log|
      ensures log[i].r.id < s.history.next
    {
      assert s.history.accepted[i] == log[i].r;
    }
    if s.worker.Holding? {
      assert s.history.accepted[|log|] == s.worker.r;
    }
  }

  lemma StepSkipsNoLast(s: State, step: Step)
    requires Inv(s) && Enabled(s, step)
    ensures LastNotSkipped(Next(s, step).history)
  {
    LogIsKnown(s);
  }

  lemma StepKeepsInv(s: State, step: Step)
    requires Inv(s) && Enabled(s, step)
    ensures Inv(Next(s, step))
  {
    StepConserves(s, step);
    StepRecords(s, step);
    StepSkipsNoLast(s, step);
    StepKeepsOneRunning(s, step);
    StepKeepsCancelled(s, step);
    StepCancelsExactly(s, step);
    StepRejects(s, step);
    hide RejectedAtCapacity, Conserved, Recorded, LastNotSkipped, OneRunning, StaleCancelled, CancelledExactly;
  }

  lemma StepRejects(s: State, step: Step)
    requires RejectedAtCapacity(s) && Conserved(s) && |s.shared.queue| <= s.shared.capacity && Enabled(s, step)
    ensures RejectedAtCapacity(Next(s, step)) && |Next(s, step).shared.queue| <= Next(s, step).shared.capacity
  {
    hide CancelWith;
    if step.SendStep? {
      assert |s.history.accepted| - |s.history.log| - |Held(s.worker)| == |s.shared.queue|;
    }
    StepKeepsCapacity(s, step);
  }

  lemma StepKeepsOneRunning(s: State, step: Step)
    requires OneRunning(s) && Enabled(s, step)
    ensures OneRunning(Next(s, step))
  {
  }

  lemma StepKeepsCancelled(s: State, step: Step)
    requires OneRunning(s) && StaleCancelled(s.shared) && Enabled(s, step)
    ensures StaleCancelled(Next(s, step).shared)
  {
  }

  lemma StepCancelsExactly(s: State, step: Step)
    requires OneRunning(s) && CancelledExactly(s) && Enabled(s, step)
    ensures CancelledExactly(Next(s, step))
  {
    var t := Next(s, step);
    if step.RecordStep? && AtWork(s.worker) {
      var r := Request(s.history.next, step.pr, step.sha);
      OvertakenSnoc(s.history.since, s.worker.r, r);
    }
  }

  lemma OvertakenSnoc(since: seq<Request>, r: Request, recorded: Request)
    ensures Overtaken(since + [recorded], r) <==> Overtaken(since, r) || (recorded.pr == r.pr && recorded.sha != r.sha)
  {
    var all := since + [recorded];
    assert all[|since|] == recorded;
    assert forall i :: 0 <= i < |since| ==> all[i] == since[i];
  }

  /** The invariant holds after any interleaving of enqueuers, worker and shutdown. */
  lemma {:induction false} EveryRunKeepsInv(capacity: nat, steps: seq<Step>)
    requires Run(capacity, steps).Some?
    ensures Inv(Run(capacity, steps).value)
  {
    if steps != [] {
      hide Inv, Next;
      EveryRunKeepsInv(capacity, steps[..|steps| - 1]);
      StepKeepsInv(Run(capacity, steps[..|steps| - 1]).value, steps[|steps| - 1]);
    } else {
      InitInv(capacity);
    }
  }

  lemma InitInv(capacity: nat)
    ensures Inv(Init(capacity))
  {
  }

  /* ----- what it means for pull requests ----- */

  /**
   * In every run: a running check for a commit other than the recorded one has been cancelled,
   * and nothing is cancelled unless another commit came in or everything is shut down.
   */
  lemma StaleChecksAreCancelled(capacity: nat, steps: seq<Step>)
    requires Run(capacity, steps).Some?
    ensures var s := Run(capacity, steps).value.shared;
            forall pr :: pr in s.running && pr in s.latestSHA && s.running[pr].sha != s.latestSHA[pr] ==>
              s.running[pr].cause == Some(Superseded) || (s.rootCancelled && s.running[pr].cause == Some(RootCancelled))
    ensures CancelledExactly(Run(capacity, steps).value)
  {
    EveryRunKeepsInv(capacity, steps);
    var s := Run(capacity, steps).value;
    hide Run, Conserved, Recorded, LastNotSkipped, Known, OneRunning;
    var shared := s.shared;
    forall pr | pr in shared.running && pr in shared.latestSHA && shared.running[pr].sha != shared.latestSHA[pr]
      ensures shared.running[pr].cause == Some(Superseded) ||
          (shared.rootCancelled && shared.running[pr].cause == Some(RootCancelled))
    {
      var cause := shared.running[pr].cause;
      assert cause.Some?;
      assert cause.value == Superseded || cause.value == RootCancelled;
    }
  }

  /** A request that is the last one recorded for its PR is never skipped. */
  lemma LastRequestIsNeverSkipped(capacity: nat, steps: seq<Step>)
    requires Run(capacity, steps).Some?
    requires var s := Run(capacity, steps).value;
             s.worker.Holding? && s.worker.r.pr in s.history.last && s.worker.r.sha == s.history.last[s.worker.r.pr].sha
    ensures !Skips(Run(capacity, steps).value.shared, Run(capacity, steps).value.worker.r)
  {
    EveryRunKeepsInv(capacity, steps);
    hide Run, Conserved, LastNotSkipped, Known, OneRunning, StaleCancelled, CancelledExactly;
  }

  predicate Quiet(s: State) {
    s.worker.Idle? && s.shared.queue == [] && s.sending == {} && !s.doneClosed
  }

  predicate WasBegun(h: History, r: Request) {
    exists i :: 0 <= i < |h.log| && h.log[i] == Entry(r, Begun)
  }

  /**
   * Once the queue is quiet, the last request of a PR has been checked exactly if the queue had
   * accepted it: no interleaving leaves the newest accepted commit unchecked.
   */
  lemma QuietMeansChecked(capacity: nat, steps: seq<Step>, pr: int)
    requires Run(capacity, steps).Some? && Quiet(Run(capacity, steps).value)
    requires pr in Run(capacity, steps).value.history.last
    ensures var h := Run(capacity, steps).value.history; WasBegun(h, h.last[pr]) <==> h.last[pr] in h.accepted
  {
    EveryRunKeepsInv(capacity, steps);
    var s := Run(capacity, steps).value;
    hide Run, OneRunning, StaleCancelled, CancelledExactly, Recorded;
    var h := s.history;
    assert h.accepted == Requests(h.log);
    if h.last[pr] in h.accepted {
      var i :| 0 <= i < |h.accepted| && h.accepted[i] == h.last[pr];
      assert h.log[i].r == h.last[pr];
      assert h.log[i].fate == Begun;
    }
    if WasBegun(h, h.last[pr]) {
      var i :| 0 <= i < |h.log| && h.log[i] == Entry(h.last[pr], Begun);
      assert h.accepted[i] == h.last[pr];
    }
  }

  /** Accepted requests leave in the order they came, and what is queued is exactly what is left of them. */
  lemma FirstInFirstOut(capacity: nat, steps: seq<Step>)
    requires Run(capacity, steps).Some?
    ensures var s := Run(capacity, steps).value;
            && |s.shared.queue| <= s.shared.capacity == capacity
            && s.history.accepted == Requests(s.history.log) + Held(s.worker) + s.shared.queue
            && |s.shared.running| == (if AtWork(s.worker) then 1 else 0)
  {
    EveryRunKeepsInv(capacity, steps);
    CapacityStays(capacity, steps);
    var s := Run(capacity, steps).value;
    hide Run, StaleCancelled, CancelledExactly, Recorded, LastNotSkipped, Known;
    if AtWork(s.worker) {
      assert |s.shared.running| == |s.shared.running.Keys| == 1;
    }
  }

  /** A request is turned away only when as many accepted ones wait as the queue was made for, and never else. */
  lemma TurnedAwayOnlyAtCapacity(capacity: nat, steps: seq<Step>, i: nat)
    requires Run(capacity, steps).Some? && i < |Run(capacity, steps).value.history.rejected|
    ensures Run(capacity, steps).value.history.rejected[i].waiting == capacity
  {
    EveryRunKeepsInv(capacity, steps);
    CapacityStays(capacity, steps);
    hide Run, StaleCancelled, CancelledExactly, Recorded, LastNotSkipped, Known, Conserved, OneRunning;
  }

  lemma StepKeepsCapacity(s: State, step: Step)
    requires Enabled(s, step)
    ensures Next(s, step).shared.capacity == s.shared.capacity
  {
  }

  lemma {:induction false} CapacityStays(capacity: nat, steps: seq<Step>)
    requires Run(capacity, steps).Some?
    ensures Run(capacity, steps).value.shared.capacity == capacity
  {
    if steps != [] {
      hide Next;
      CapacityStays(capacity, steps[..|steps| - 1]);
      StepKeepsCapacity(Run(capacity, steps[..|steps| - 1]).value, steps[|steps| - 1]);
    }
  }

  /**
   * A check begins for a commit that is not the last one recorded exactly if the record was
   * deleted, and then a check of that last commit has already ended.
   */
  lemma StaleStartsOnlyAfterTheNewest(capacity: nat, steps: seq<Step>)
    requires Run(capacity, steps).Some?
    requires var s := Run(capacity, steps).value; s.worker.Holding? && s.worker.r.pr in s.history.last
    requires var s := Run(capacity, steps).value; s.worker.r.sha != s.history.last[s.worker.r.pr].sha
    ensures var s := Run(capacity, steps).value;
            && (!Skips(s.shared, s.worker.r) <==> s.worker.r.pr !in s.shared.latestSHA)
            && (!Skips(s.shared, s.worker.r) ==> EndedFor(s.history, s.worker.r.pr))
  {
    EveryRunKeepsInv(capacity, steps);
    hide Run, Conserved, LastNotSkipped, Known, OneRunning, StaleCancelled, CancelledExactly;
  }

  /** How many checks of the run returned without an error. */
  function Successes(steps: seq<Step>): nat {
    if steps == [] then 0
    else Successes(steps[..|steps| - 1]) + if steps[|steps| - 1] == ReturnStep(true) then 1 else 0
  }

  lemma StepProcesses(s: State, step: Step)
    requires Enabled(s, step)
    ensures Next(s, step).shared.processed == s.shared.processed + if step == ReturnStep(true) then 1 else 0
  {
  }

  lemma {:induction false} ProcessedCounts(capacity: nat, steps: seq<Step>)
    requires Run(capacity, steps).Some?
    ensures Run(capacity, steps).value.shared.processed == Successes(steps)
  {
    if steps != [] {
      hide Next, Enabled;
      ProcessedCounts(capacity, steps[..|steps| - 1]);
      StepProcesses(Run(capacity, steps[..|steps| - 1]).value, steps[|steps| - 1]);
    }
  }

  /** Once the worker drains the queue it begins nothing any more. */
  predicate DrainsToTheEnd(s: State) {
    && (forall i, j :: 0 <= i < j < |s.history.log| && s.history.log[i].fate == Drained ==>
         s.history.log[j].fate == Drained)
    && (forall i :: 0 <= i < |s.history.log| && s.history.log[i].fate == Drained ==>
         s.worker.Draining? || s.worker.Stopped?)
  }

  lemma StepDrains(s: State, step: Step)
    requires DrainsToTheEnd(s) && Enabled(s, step)
    ensures DrainsToTheEnd(Next(s, step))
  {
    hide CancelWith, Supersede, Begin, End, CancelAll, Skips;
  }

  /** In every run, no request is begun or skipped after one was drained. */
  lemma {:induction false} NothingBeginsAfterDraining(capacity: nat, steps: seq<Step>)
    requires Run(capacity, steps).Some?
    ensures DrainsToTheEnd(Run(capacity, steps).value)
  {
    if steps != [] {
      hide Next, Enabled, DrainsToTheEnd;
      NothingBeginsAfterDraining(capacity, steps[..|steps| - 1]);
      StepDrains(Run(capacity, steps[..|steps| - 1]).value, steps[|steps| - 1]);
    } else {
      InitDrains(capacity);
    }
  }

  lemma InitDrains(capacity: nat)
    ensures DrainsToTheEnd(Init(capacity))
  {
  }

  /* ----- two runs that end badly ----- */

  lemma RunSnoc(capacity: nat, steps: seq<Step>, step: Step, s: State)
    requires Run(capacity, steps) == Some(s) && Enabled(s, step)
    ensures Run(capacity, steps + [step]) == Some(Next(s, step))
  {
    assert (steps + [step])[..|steps|] == steps;
  }

  /** A commit can be checked after a newer one: its request was sent late, after the newer check had ended. */
  lemma StaleCheckCanRun() returns (steps: seq<Step>)
    ensures Run(1, steps).Some?
    ensures var s := Run(1, steps).value;
            s.worker.Processing? && s.worker.r.pr in s.history.last &&
              s.worker.r.sha != s.history.last[s.worker.r.pr].sha
  {
    hide Run;
    var older, newer := Request(0, 7, "a"), Request(1, 7, "b");
    var s := Init(1);
    steps := StartRun(1);
    steps, s := Follow(1, steps, s, RecordStep(7, "a"));
    steps, s := Follow(1, steps, s, RecordStep(7, "b"));
    steps, s := Follow(1, steps, s, SendStep(newer));
    steps, s := Follow(1, steps, s, TakeStep);
    steps, s := Follow(1, steps, s, BeginStep);
    steps, s := Follow(1, steps, s, ReturnStep(true));
    steps, s := Follow(1, steps, s, EndStep);
    assert s.shared.latestSHA == map[] && s.shared.queue == [] && s.sending == {older};
    assert s.history.last == map[7 := newer] && s.worker == Idle;
    steps, s := Follow(1, steps, s, SendStep(older));
    steps, s := Follow(1, steps, s, TakeStep);
    steps, s := Follow(1, steps, s, BeginStep);
  }

  lemma StartRun(capacity: nat) returns (steps: seq<Step>)
    ensures Run(capacity, steps) == Some(Init(capacity))
  {
    steps := [];
  }

  lemma Follow(capacity: nat, steps: seq<Step>, s: State, step: Step) returns (more: seq<Step>, t: State)
    requires Run(capacity, steps) == Some(s) && Enabled(s, step)
    ensures t == Next(s, step) && Run(capacity, more) == Some(t)
  {
    RunSnoc(capacity, steps, step, s);
    more, t := steps + [step], Next(s, step);
  }

  /**
   * A rejected request still records its commit, so it can make the worker skip the request
   * that took its place in the queue: the PR then ends up with no check at all.
   */
  lemma RejectedCommitCanStarveItsPr() returns (steps: seq<Step>)
    ensures Run(1, steps).Some? && Quiet(Run(1, steps).value)
    ensures var h := Run(1, steps).value.history;
            && 7 in h.last && (exists i :: 0 <= i < |h.rejected| && h.rejected[i].r == h.last[7])
            && |h.accepted| == 1 && !exists r :: WasBegun(h, r)
  {
    var first, second := Request(0, 7, "a"), Request(1, 7, "b");
    hide Run;
    var s := Init(1);
    steps := StartRun(1);
    steps, s := Follow(1, steps, s, RecordStep(7, "a"));
    steps, s := Follow(1, steps, s, SendStep(first));
    steps, s := Follow(1, steps, s, RecordStep(7, "b"));
    steps, s := Follow(1, steps, s, SendStep(second));
    steps, s := Follow(1, steps, s, TakeStep);
    steps, s := Follow(1, steps, s, BeginStep);
    assert s.history.log == [Entry(first, Skipped)] && s.history.rejected[0].r == second;
  }
}
