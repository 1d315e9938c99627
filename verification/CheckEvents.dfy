/**
 * The apps of one check run: a producer and its workers share a channel and a wait group,
 * and workers queue further apps while they process one.
 */
module CheckEvents {
  import opened Text

  /** An app by name; two apps with the same name are equal if their definitions are. */
  datatype App = App(name: string, definition: int)

  /** Whoever holds the lock of queueApp: the producer or a worker. */
  datatype Caller = Producer | Worker(id: nat)

  /** Inside queueApp, past the check for duplicates: before and after the wait group is raised. */
  datatype Queueing = Nobody | Recorded(caller: Caller, app: App) | Counted(caller: Caller, app: App)

  datatype Phase = Producing(i: nat) | Waiting | Closed

  /** What the lock, the wait group and the channel hold. */
  datatype Shared = Shared(
    capacity: nat,
    addedAppsSet: map<string, App>,
    wg: int,
    appsSent: nat,
    channel: seq<App>,
    channelClosed: bool)

  /** Already queued with this very definition. */
  predicate IsDuplicate(s: Shared, app: App) {
    app.name in s.addedAppsSet && s.addedAppsSet[app.name] == app
  }

  function RecordApp(s: Shared, app: App): Shared {
    if IsDuplicate(s, app) then s else s.(addedAppsSet := s.addedAppsSet[app.name := app])
  }

  function CountApp(s: Shared): Shared {
    s.(wg := s.wg + 1, appsSent := s.appsSent + 1)
  }

  function SendApp(s: Shared, app: App): Shared {
    s.(channel := s.channel + [app])
  }

  function TakeApp(s: Shared): Shared
    requires s.channel != []
  {
    s.(channel := s.channel[1..])
  }

  function AppDone(s: Shared): Shared {
    s.(wg := s.wg - 1)
  }

  function CloseChannel(s: Shared): Shared {
    s.(channelClosed := true)
  }

  /** The check event, with its atomic sections as methods; a send or receive that would block is not enabled. */
  class CheckEvent {
    const capacity: nat
    var addedAppsSet: map<string, App>
    var wg: int
    var appsSent: nat
    var appChannel: seq<App>
    var closed: bool

    constructor (capacity: nat)
      ensures View() == Shared(capacity, map[], 0, 0, [], false)
    {
      this.capacity := capacity;
      addedAppsSet, wg, appsSent, appChannel, closed := map[], 0, 0, [], false;
    }

    ghost function View(): Shared
      reads this
    {
      Shared(capacity, addedAppsSet, wg, appsSent, appChannel, closed)
    }

    /** The part of queueApp that may return early. */
    method Record(app: App) returns (recorded: bool)
      modifies this
      ensures recorded <==> (app.name in old(addedAppsSet) ==> old(addedAppsSet)[app.name] != app)
      ensures View() == RecordApp(old(View()), app) && addedAppsSet == old(addedAppsSet)[app.name := app]
    {
      if app.name in addedAppsSet {
        var earlier := addedAppsSet[app.name];
        if earlier == app {
          return false;
        }
      }
      addedAppsSet := addedAppsSet[app.name := app];
      return true;
    }

    method Count()
      modifies this
      ensures View() == CountApp(old(View())) && wg == old(wg) + 1 && appsSent == old(appsSent) + 1
    {
      wg := wg + 1;
      appsSent := appsSent + 1;
    }

    method Send(app: App)
      requires !closed && |appChannel| < capacity
      modifies this
      ensures View() == SendApp(old(View()), app) && appChannel == old(appChannel) + [app]
    {
      appChannel := appChannel + [app];
    }

    method Receive() returns (app: App)
      requires appChannel != []
      modifies this
      ensures View() == TakeApp(old(View())) && old(appChannel) == [app] + appChannel
    {
      app := appChannel[0];
      appChannel := appChannel[1..];
    }

    method Done()
      modifies this
      ensures View() == AppDone(old(View())) && wg == old(wg) - 1
    {
      wg := wg - 1;
    }

    method Close()
      requires !closed
      modifies this
      ensures View() == CloseChannel(old(View()))
    {
      closed := true;
    }
  }

  /* ----- the system ----- */

  /** Apps accepted for processing are told apart by their place in accepted. */
  datatype State = State(
    shared: Shared,
    todo: seq<App>,
    phase: Phase,
    queueing: Queueing,
    busy: map<nat, nat>,
    accepted: seq<App>,
    received: nat,
    finished: set<nat>)

  datatype Step =
    | QueueStep(caller: Caller, app: App)
    | CountStep
    | SendStep
    | HandOverStep(id: nat)
    | ReceiveStep(id: nat)
    | DoneStep(id: nat)
    | WaitStep
    | CloseStep

  function Init(capacity: nat, todo: seq<App>): State {
    State(Shared(capacity, map[], 0, 0, [], false), todo, Producing(0), Nobody, map[], [], 0, {})
  }

  /** Who may call queueApp: the producer with its next app, or a worker that is processing one. */
  predicate MayQueue(s: State, caller: Caller, app: App) {
    match caller
    case Producer => s.phase.Producing? && s.phase.i < |s.todo| && s.todo[s.phase.i] == app
    case Worker(id) => id in s.busy
  }

  predicate InQueueApp(s: State, caller: Caller) {
    !s.queueing.Nobody? && s.queueing.caller == caller
  }

  predicate Enabled(s: State, step: Step) {
    match step
    case QueueStep(caller, app) => s.queueing.Nobody? && MayQueue(s, caller, app)
    case CountStep => s.queueing.Recorded?
    case SendStep => s.queueing.Counted? && |s.shared.channel| < s.shared.capacity
    case HandOverStep(id) => s.queueing.Counted? && s.shared.channel == [] && id !in s.busy
    case ReceiveStep(id) => s.shared.channel != [] && id !in s.busy
    case DoneStep(id) => id in s.busy && !InQueueApp(s, Worker(id))
    case WaitStep => s.phase.Producing? && s.phase.i == |s.todo|
    case CloseStep => s.phase.Waiting? && s.shared.wg == 0
  }

  /** queueApp returns: the producer goes on to its next app. */
  function Return(s: State, caller: Caller): State {
    if caller.Producer? && s.phase.Producing? then s.(phase := Producing(s.phase.i + 1), queueing := Nobody)
    else s.(queueing := Nobody)
  }

  function Next(s: State, step: Step): State
    requires Enabled(s, step)
  {
    match step
    case QueueStep(caller, app) =>
      var t := s.(shared := RecordApp(s.shared, app));
      if IsDuplicate(s.shared, app) then Return(t, caller) else t.(queueing := Recorded(caller, app))
    case CountStep =>
      s.(shared := CountApp(s.shared), accepted := s.accepted + [s.queueing.app],
         queueing := Counted(s.queueing.caller, s.queueing.app))
    case SendStep => Return(s.(shared := SendApp(s.shared, s.queueing.app)), s.queueing.caller)
    case HandOverStep(id) => Return(s.(busy := s.busy[id := s.received], received := s.received + 1), s.queueing.caller)
    case ReceiveStep(id) =>
      s.(shared := TakeApp(s.shared), busy := s.busy[id := s.received], received := s.received + 1)
    case DoneStep(id) =>
      s.(shared := AppDone(s.shared), finished := s.finished + {s.busy[id]}, busy := s.busy - {id})
    case WaitStep => s.(phase := Waiting)
    case CloseStep => s.(shared := CloseChannel(s.shared), phase := Closed)
  }

  function Run(capacity: nat, todo: seq<App>, steps: seq<Step>): Option<State> {
    if steps == [] then Some(Init(capacity, todo)) else
    match Run(capacity, todo, steps[..|steps| - 1])
    case None => None
    case Some(s) => if Enabled(s, steps[|steps| - 1]) then Some(Next(s, steps[|steps| - 1])) else None
  }

  /* ----- what every step keeps ----- */

  function Pending(q: Queueing): seq<App> {
    if q.Counted? then [q.app] else []
  }

  /** The wait group counts the app being sent, those in the channel and those being processed. */
  predicate AllCounted(s: State) {
    s.shared.wg == |Pending(s.queueing)| + |s.shared.channel| + |s.busy|
  }

  /** Accepted apps are, in order, those received, those in the channel and the one being sent. */
  predicate InOrder(s: State) {
    && s.shared.appsSent == |s.accepted|
    && s.received <= |s.accepted|
    && s.accepted[s.received..] == s.shared.channel + Pending(s.queueing)
  }

  function UpTo(n: nat): (r: set<nat>)
    ensures |r| == n && forall k: nat :: k in r <==> k < n
  {
    if n == 0 then {} else UpTo(n - 1) + {n - 1}
  }

  ghost predicate Injective(busy: map<nat, nat>) {
    forall a, b :: a in busy && b in busy && busy[a] == busy[b] ==> a == b
  }

  /** Every received app is being processed by one worker, or is finished. */
  ghost predicate OnceEach(busy: map<nat, nat>, received: nat, finished: set<nat>) {
    Injective(busy) && finished !! busy.Values && finished + busy.Values == UpTo(received)
  }

  /** Only the producer while it produces, and workers while they process, are in queueApp. */
  predicate CallersLive(s: State) {
    && (InQueueApp(s, Producer) ==> s.phase.Producing? && s.phase.i < |s.todo|)
    && (s.queueing.Nobody? || s.queueing.caller.Producer? || s.queueing.caller.id in s.busy)
    && (s.phase.Producing? ==> s.phase.i <= |s.todo|)
  }

  /** Once the channel is closed nothing is left to send, to receive or to process. */
  predicate QuietWhenClosed(s: State) {
    && (s.shared.channelClosed <==> s.phase.Closed?)
    && (s.shared.channelClosed ==> s.shared.wg == 0 && s.queueing.Nobody? && s.shared.channel == [] && s.busy == map[])
  }

  ghost predicate Inv(s: State) {
    AllCounted(s) && InOrder(s) && OnceEach(s.busy, s.received, s.finished) && CallersLive(s) && QuietWhenClosed(s)
  }

  lemma BusyGrows(busy: map<nat, nat>, id: nat, k: nat)
    requires id !in busy
    ensures |busy[id := k]| == |busy| + 1
  {
    assert busy[id := k].Keys == busy.Keys + {id};
  }

  lemma ValuesGrow(busy: map<nat, nat>, id: nat, k: nat)
    requires id !in busy
    ensures busy[id := k].Values == busy.Values + {k}
  {
    var after := busy[id := k];
    assert after[id] == k && k in after.Values;
    forall v | v in busy.Values
      ensures v in after.Values
    {
      var j :| j in busy && busy[j] == v;
      assert after[j] == v;
    }
  }

  lemma BusyShrinks(busy: map<nat, nat>, id: nat)
    requires id in busy
    ensures |busy - {id}| == |busy| - 1
  {
    assert (busy - {id}).Keys == busy.Keys - {id};
  }

  lemma ValuesShrink(busy: map<nat, nat>, id: nat)
    requires id in busy && Injective(busy)
    ensures (busy - {id}).Values == busy.Values - {busy[id]}
  {
    var after := busy - {id};
    forall v | v in busy.Values && v != busy[id]
      ensures v in after.Values
    {
      var j :| j in busy && busy[j] == v;
      assert j in after && after[j] == v;
    }
  }

  lemma InjectiveGrows(busy: map<nat, nat>, id: nat, k: nat)
    requires Injective(busy) && id !in busy && k !in busy.Values
    ensures Injective(busy[id := k])
  {
    forall a | a in busy
      ensures busy[a] != k
    {
      assert busy[a] in busy.Values;
    }
  }

  lemma SetsGrow(finished: set<nat>, values: set<nat>, k: nat)
    requires finished !! values && k !in finished + values
    ensures k !in values && finished !! (values + {k}) && finished + (values + {k}) == (finished + values) + {k}
  {
  }

  lemma UpToNext(n: nat)
    ensures n !in UpTo(n) && UpTo(n + 1) == UpTo(n) + {n}
  {
  }

  lemma OneMoreReceived(busy: map<nat, nat>, received: nat, finished: set<nat>, id: nat)
    requires OnceEach(busy, received, finished) && id !in busy
    ensures OnceEach(busy[id := received], received + 1, finished)
  {
    hide UpTo, Injective;
    UpToNext(received);
    SetsGrow(finished, busy.Values, received);
    ValuesGrow(busy, id, received);
    InjectiveGrows(busy, id, received);
  }

  lemma OneMoreFinished(busy: map<nat, nat>, received: nat, finished: set<nat>, id: nat)
    requires OnceEach(busy, received, finished) && id in busy
    ensures OnceEach(busy - {id}, received, finished + {busy[id]})
  {
    ValuesShrink(busy, id);
    assert busy[id] in busy.Values;
  }

  lemma StepBalances(s: State, step: Step)
    requires AllCounted(s) && Enabled(s, step)
    ensures AllCounted(Next(s, step))
  {
    match step
    case HandOverStep(id) => BusyGrows(s.busy, id, s.received);
    case ReceiveStep(id) => BusyGrows(s.busy, id, s.received);
    case DoneStep(id) => BusyShrinks(s.busy, id);
    case _ =>
  }

  lemma StepKeepsOrder(s: State, step: Step)
    requires InOrder(s) && Enabled(s, step)
    ensures InOrder(Next(s, step))
  {
    var t, rest := Next(s, step), s.accepted[s.received..];
    match step
    case CountStep => assert t.accepted[t.received..] == rest + [s.queueing.app];
    case HandOverStep(id) => assert t.accepted[t.received..] == rest[1..];
    case ReceiveStep(id) => assert t.accepted[t.received..] == rest[1..];
    case _ =>
  }

  lemma StepsOfApps(s: State, step: Step)
    requires Enabled(s, step)
    ensures var t := Next(s, step);
            if step.HandOverStep? || step.ReceiveStep? then
              step.id !in s.busy && t.busy == s.busy[step.id := s.received] && t.received == s.received + 1 &&
                t.finished == s.finished
            else if step.DoneStep? then
              step.id in s.busy && t.busy == s.busy - {step.id} && t.received == s.received &&
                t.finished == s.finished + {s.busy[step.id]}
            else t.busy == s.busy && t.received == s.received && t.finished == s.finished
  {
  }

  lemma StepKeepsOnceEach(s: State, step: Step)
    requires OnceEach(s.busy, s.received, s.finished) && Enabled(s, step)
    ensures var t := Next(s, step); OnceEach(t.busy, t.received, t.finished)
  {
    hide OnceEach, Next, Enabled;
    StepsOfApps(s, step);
    if step.HandOverStep? || step.ReceiveStep? {
      OneMoreReceived(s.busy, s.received, s.finished, step.id);
    } else if step.DoneStep? {
      OneMoreFinished(s.busy, s.received, s.finished, step.id);
    }
  }

  lemma EmptyBusy(busy: map<nat, nat>)
    requires |busy| == 0
    ensures busy == map[]
  {
    assert |busy.Keys| == 0;
  }

  lemma StepStaysQuiet(s: State, step: Step)
    requires Inv(s) && Enabled(s, step)
    ensures CallersLive(Next(s, step)) && QuietWhenClosed(Next(s, step))
  {
    if step.CloseStep? {
      EmptyBusy(s.busy);
    }
  }

  lemma StepKeepsInv(s: State, step: Step)
    requires Inv(s) && Enabled(s, step)
    ensures Inv(Next(s, step))
  {
    StepBalances(s, step);
    StepKeepsOrder(s, step);
    StepKeepsOnceEach(s, step);
    StepStaysQuiet(s, step);
  }

  lemma {:induction false} EveryRunKeepsInv(capacity: nat, todo: seq<App>, steps: seq<Step>)
    requires Run(capacity, todo, steps).Some?
    ensures Inv(Run(capacity, todo, steps).value)
  {
    if steps != [] {
      hide Inv, Next, Enabled;
      EveryRunKeepsInv(capacity, todo, steps[..|steps| - 1]);
      StepKeepsInv(Run(capacity, todo, steps[..|steps| - 1]).value, steps[|steps| - 1]);
    }
  }

  /* ----- what it means ----- */

  /** Nobody can send, hand over or queue any more. */
  ghost predicate NothingToSend(s: State) {
    && !Enabled(s, SendStep)
    && (forall id :: !Enabled(s, HandOverStep(id)))
    && (forall caller, app :: !Enabled(s, QueueStep(caller, app)))
  }

  /**
   * In every run the wait group is exact, so it is never below zero, and once the channel is
   * closed nothing can be sent on it.
   */
  lemma NothingIsSentAfterClose(capacity: nat, todo: seq<App>, steps: seq<Step>)
    requires Run(capacity, todo, steps).Some?
    ensures var s := Run(capacity, todo, steps).value;
            s.shared.wg == |Pending(s.queueing)| + |s.shared.channel| + |s.busy|
    ensures var s := Run(capacity, todo, steps).value; s.shared.channelClosed ==> NothingToSend(s)
  {
    EveryRunKeepsInv(capacity, todo, steps);
    hide Run, InOrder, OnceEach;
  }

  /** When the channel is closed, every accepted app has been processed exactly once, and appsSent counts them. */
  lemma AllProcessedAtClose(capacity: nat, todo: seq<App>, steps: seq<Step>)
    requires Run(capacity, todo, steps).Some? && Run(capacity, todo, steps).value.shared.channelClosed
    ensures var s := Run(capacity, todo, steps).value;
            s.finished == UpTo(|s.accepted|) && |s.finished| == s.shared.appsSent == |s.accepted|
  {
    EveryRunKeepsInv(capacity, todo, steps);
    var s := Run(capacity, todo, steps).value;
    hide Run;
    assert |s.accepted[s.received..]| == 0;
    assert s.finished + {} == s.finished;
  }

  /* ----- no app twice without a change ----- */

  /** The apps that passed the check for duplicates, in order. */
  function Asked(s: State): seq<App> {
    s.accepted + if s.queueing.Recorded? then [s.queueing.app] else []
  }

  function LastNamed(apps: seq<App>, name: string): Option<App> {
    if apps == [] then None
    else if apps[|apps| - 1].name == name then Some(apps[|apps| - 1])
    else LastNamed(apps[..|apps| - 1], name)
  }

  /** No app follows an equal one without another definition of it in between. */
  predicate NoRepeats(apps: seq<App>) {
    forall k :: 0 <= k < |apps| ==> LastNamed(apps[..k], apps[k].name) != Some(apps[k])
  }

  ghost predicate Deduplicated(s: State) {
    && (forall name :: LastNamed(Asked(s), name) == if name in s.shared.addedAppsSet
         then Some(s.shared.addedAppsSet[name]) else None)
    && NoRepeats(Asked(s))
  }

  lemma AskedGrows(apps: seq<App>, app: App)
    requires NoRepeats(apps) && LastNamed(apps, app.name) != Some(app)
    ensures NoRepeats(apps + [app])
    ensures forall name :: LastNamed(apps + [app], name) == if name == app.name then Some(app)
        else LastNamed(apps, name)
  {
    var all := apps + [app];
    assert all[..|apps|] == apps;
    forall k | 0 <= k < |all|
      ensures LastNamed(all[..k], all[k].name) != Some(all[k])
    {
      if k < |apps| {
        assert all[..k] == apps[..k];
      }
    }
  }

  lemma StepKeepsDeduplicated(s: State, step: Step)
    requires Deduplicated(s) && Enabled(s, step)
    ensures Deduplicated(Next(s, step))
  {
    hide LastNamed, NoRepeats;
    var t := Next(s, step);
    if step.QueueStep? && !IsDuplicate(s.shared, step.app) {
      AskedGrows(Asked(s), step.app);
      assert Asked(t) == Asked(s) + [step.app];
    } else {
      assert Asked(t) == Asked(s);
    }
  }

  /** An app is processed again only if its definition changed since it was last queued. */
  lemma {:induction false} AppsAreQueuedOnlyWhenChanged(capacity: nat, todo: seq<App>, steps: seq<Step>)
    requires Run(capacity, todo, steps).Some?
    ensures Deduplicated(Run(capacity, todo, steps).value)
  {
    if steps != [] {
      hide Next, Enabled, Deduplicated;
      AppsAreQueuedOnlyWhenChanged(capacity, todo, steps[..|steps| - 1]);
      StepKeepsDeduplicated(Run(capacity, todo, steps[..|steps| - 1]).value, steps[|steps| - 1]);
    }
  }

  /* ----- every change is queued ----- */

  /** In every run, an app is queued exactly if it is not what was queued last under its name. */
  lemma ChangedAppsAreQueued(capacity: nat, todo: seq<App>, steps: seq<Step>, caller: Caller, app: App)
    requires Run(capacity, todo, steps).Some? && Enabled(Run(capacity, todo, steps).value, QueueStep(caller, app))
    ensures var s := Run(capacity, todo, steps).value;
            var t := Next(s, QueueStep(caller, app));
            if LastNamed(Asked(s), app.name) == Some(app) then t.queueing.Nobody? && Asked(t) == Asked(s)
            else t.queueing == Recorded(caller, app) && Asked(t) == Asked(s) + [app]
  {
    AppsAreQueuedOnlyWhenChanged(capacity, todo, steps);
    hide Run, LastNamed, NoRepeats;
  }

  lemma {:induction false} LastNamedOccurs(apps: seq<App>, name: string)
    ensures LastNamed(apps, name).Some? ==> LastNamed(apps, name).value in apps
  {
    if apps != [] {
      LastNamedOccurs(apps[..|apps| - 1], name);
    }
  }

  /** The apps that the producer is done with are accepted, and the one it is queueing is its next. */
  predicate TodoAccepted(s: State) {
    && (s.phase.Producing? ==> s.phase.i <= |s.todo| && forall j :: 0 <= j < s.phase.i ==> s.todo[j] in s.accepted)
    && (!s.phase.Producing? ==> forall j :: 0 <= j < |s.todo| ==> s.todo[j] in s.accepted)
    && (InQueueApp(s, Producer) ==>
         s.phase.Producing? && s.phase.i < |s.todo| && s.queueing.app == s.todo[s.phase.i] &&
           (s.queueing.Counted? ==> s.queueing.app in s.accepted))
  }

  lemma StepKeepsTodo(s: State, step: Step)
    requires TodoAccepted(s) && Deduplicated(s) && Enabled(s, step)
    ensures TodoAccepted(Next(s, step)) && Next(s, step).todo == s.todo
  {
    hide LastNamed, NoRepeats;
    if step.QueueStep? {
      LastNamedOccurs(Asked(s), step.app.name);
      assert Asked(s) == s.accepted;
    }
  }

  lemma {:induction false} EveryRunKeepsTodo(capacity: nat, todo: seq<App>, steps: seq<Step>)
    requires Run(capacity, todo, steps).Some?
    ensures TodoAccepted(Run(capacity, todo, steps).value) && Run(capacity, todo, steps).value.todo == todo
  {
    if steps != [] {
      hide Next, Enabled, Deduplicated, TodoAccepted;
      var init := steps[..|steps| - 1];
      EveryRunKeepsTodo(capacity, todo, init);
      AppsAreQueuedOnlyWhenChanged(capacity, todo, init);
      StepKeepsTodo(Run(capacity, todo, init).value, steps[|steps| - 1]);
    }
  }

  /** When the channel is closed, every app the run was given, in each of its definitions, has been processed. */
  lemma EveryAppIsProcessed(capacity: nat, todo: seq<App>, steps: seq<Step>, j: nat)
    requires Run(capacity, todo, steps).Some? && Run(capacity, todo, steps).value.shared.channelClosed && j < |todo|
    ensures var s := Run(capacity, todo, steps).value;
            exists k: nat :: k in s.finished && k < |s.accepted| && s.accepted[k] == todo[j]
  {
    EveryRunKeepsTodo(capacity, todo, steps);
    AllProcessedAtClose(capacity, todo, steps);
    EveryRunKeepsInv(capacity, todo, steps);
    var s := Run(capacity, todo, steps).value;
    hide Run;
    assert todo[j] in s.accepted;
    var k: nat :| k < |s.accepted| && s.accepted[k] == todo[j];
    assert k in UpTo(|s.accepted|);
  }
}
