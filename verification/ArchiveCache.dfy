/**
 * The cache of extracted archives: reference counts, eviction of stale entries, and at most one
 * download at a time for each commit. Times are integers handed in by the caller.
 */
module ArchiveCache {
  import opened Text

  datatype Entry = Entry(path: string, refCount: int, lastUsed: int)

  type Entries = map<string, Entry>

  function Acquire(es: Entries, sha: string, now: int): Entries {
    if sha !in es then es else es[sha := es[sha].(refCount := es[sha].refCount + 1, lastUsed := now)]
  }

  function Release(es: Entries, sha: string, now: int): Entries {
    if sha !in es then es
    else
      var count := es[sha].refCount;
      es[sha := es[sha].(refCount := if count > 0 then count - 1 else count, lastUsed := now)]
  }

  /** Not in use, and unused for longer than the time to live. */
  predicate Expired(e: Entry, now: int, ttl: int) {
    e.refCount <= 0 && now - e.lastUsed > ttl
  }

  function Cleaned(es: Entries, now: int, ttl: int): Entries {
    map sha | sha in es && !Expired(es[sha], now, ttl) :: es[sha]
  }

  function Inserted(es: Entries, sha: string, path: string, now: int): Entries {
    es[sha := Entry(path, 0, now)]
  }

  /** The cache object; each method is one critical section. */
  class Cache {
    const ttl: int
    var entries: Entries

    constructor (ttl: int)
      ensures this.ttl == ttl && entries == map[]
    {
      this.ttl := ttl;
      entries := map[];
    }

    method TryAcquire(sha: string, now: int) returns (path: Option<string>)
      modifies this`entries
      ensures entries == Acquire(old(entries), sha, now)
      ensures sha in old(entries) ==>
                entries == old(entries)[sha := Entry(old(entries)[sha].path, old(entries)[sha].refCount + 1, now)]
      ensures sha !in old(entries) ==> entries == old(entries)
      ensures path == if sha in old(entries) then Some(old(entries)[sha].path) else None
    {
      if sha !in entries {
        return None;
      }
      var entry := entries[sha];
      entry := entry.(refCount := entry.refCount + 1);
      entry := entry.(lastUsed := now);
      entries := entries[sha := entry];
      return Some(entry.path);
    }

    method GiveBack(sha: string, now: int)
      modifies this`entries
      ensures entries == Release(old(entries), sha, now)
      ensures sha in old(entries) ==>
                var e := old(entries)[sha];
                var count := if e.refCount > 0 then e.refCount - 1 else e.refCount;
                entries == old(entries)[sha := Entry(e.path, count, now)]
      ensures sha !in old(entries) ==> entries == old(entries)
    {
      if sha !in entries {
        return;
      }
      var entry := entries[sha];
      if entry.refCount > 0 {
        entry := entry.(refCount := entry.refCount - 1);
      }
      entry := entry.(lastUsed := now);
      entries := entries[sha := entry];
    }

    method Insert(sha: string, path: string, now: int)
      modifies this`entries
      ensures entries == Inserted(old(entries), sha, path, now) == old(entries)[sha := Entry(path, 0, now)]
    {
      entries := entries[sha := Entry(path, 0, now)];
    }

    /** Entries are visited in any order, and deleted on the way. */
    method CleanupStaleArchives(now: int) returns (removed: nat)
      modifies this`entries
      ensures entries == Cleaned(old(entries), now, ttl)
      ensures forall sha :: sha in entries <==>
                sha in old(entries) && (old(entries)[sha].refCount > 0 || now <= old(entries)[sha].lastUsed + ttl)
      ensures forall sha :: sha in entries ==> entries[sha] == old(entries)[sha]
      ensures removed == |old(entries)| - |entries|
    {
      removed := 0;
      var left := entries.Keys;
      while left != {}
        invariant left <= old(entries).Keys
        invariant entries == map sha | sha in old(entries) &&
            (sha in left || !Expired(old(entries)[sha], now, ttl)) :: old(entries)[sha]
        invariant removed == |old(entries)| - |entries|
        decreases |left|
      {
        var key :| key in left;
        if entries[key].refCount <= 0 && now - entries[key].lastUsed > ttl {
          assert (entries - {key}).Keys == entries.Keys - {key};
          entries := entries - {key};
          removed := removed + 1;
        }
        left := left - {key};
      }
    }
  }

  /* ----- the system: callers, one flight for each commit, the cleanup routine ----- */

  const MAX_DOWNLOAD_ATTEMPTS := 3

  /**
   * A caller of GetOrDownload. Landed has the result of a flight, and has yet to acquire.
   * Holding has the path it was given, and the path of the entry it took a reference on.
   */
  datatype Client =
    | Idle
    | Trying(sha: string, attempt: nat)
    | Waiting(sha: string, attempt: nat)
    | Landed(sha: string, attempt: nat, result: Option<string>)
    | Holding(sha: string, path: string, entryPath: string)

  datatype Flight = Checking | Downloading | Fetched(path: string) | Returning(result: Option<string>)

  datatype State = State(ttl: int, entries: Entries, flights: map<string, Flight>, clients: map<nat, Client>)

  datatype Step =
    | GetStep(id: nat, sha: string, now: int)
    | JoinStep(id: nat)
    | GiveUpStep(id: nat)
    | CheckStep(sha: string)
    | DownloadStep(sha: string, result: Option<string>)
    | InsertStep(sha: string, now: int)
    | FinishStep(sha: string)
    | AcquireStep(id: nat, now: int, retriable: bool)
    | ReleaseStep(id: nat, now: int)
    | CleanupStep(now: int)
    | StrayReleaseStep(sha: string, now: int)

  function Init(ttl: int): State {
    State(ttl, map[], map[], map[])
  }

  function ClientOf(s: State, id: nat): Client {
    if id in s.clients then s.clients[id] else Idle
  }

  predicate Enabled(s: State, step: Step) {
    match step
    case GetStep(id, _, _) => ClientOf(s, id).Idle?
    case JoinStep(id) => ClientOf(s, id).Trying?
    case GiveUpStep(id) => ClientOf(s, id).Trying? && ClientOf(s, id).attempt > 0
    case CheckStep(sha) => sha in s.flights && s.flights[sha].Checking?
    case DownloadStep(sha, _) => sha in s.flights && s.flights[sha].Downloading?
    case InsertStep(sha, _) => sha in s.flights && s.flights[sha].Fetched?
    case FinishStep(sha) => sha in s.flights && s.flights[sha].Returning?
    case AcquireStep(id, _, _) => ClientOf(s, id).Landed?
    case ReleaseStep(id, _) => ClientOf(s, id).Holding?
    case CleanupStep(_) => true
    case StrayReleaseStep(_, _) => true
  }

  /** What a waiting caller becomes when the flight it waits for returns. */
  function Land(c: Client, sha: string, result: Option<string>): Client {
    if c.Waiting? && c.sha == sha then Landed(sha, c.attempt, result) else c
  }

  function LandAll(clients: map<nat, Client>, sha: string, result: Option<string>): map<nat, Client> {
    map id | id in clients :: Land(clients[id], sha, result)
  }

  /** After a failed attempt. */
  function Retry(sha: string, attempt: nat, retriable: bool): Client {
    if retriable && attempt + 1 < MAX_DOWNLOAD_ATTEMPTS then Trying(sha, attempt + 1) else Idle
  }

  function Next(s: State, step: Step): State
    requires Enabled(s, step)
  {
    match step
    case GetStep(id, sha, now) =>
      s.(entries := Acquire(s.entries, sha, now),
         clients := s.clients[id := if sha in s.entries then Holding(sha, s.entries[sha].path, s.entries[sha].path)
                                    else Trying(sha, 0)])
    case JoinStep(id) =>
      var c := s.clients[id];
      s.(flights := if c.sha in s.flights then s.flights else s.flights[c.sha := Checking],
         clients := s.clients[id := Waiting(c.sha, c.attempt)])
    case GiveUpStep(id) => s.(clients := s.clients[id := Idle])
    case CheckStep(sha) =>
      s.(flights := s.flights[sha := if sha in s.entries then Returning(Some(s.entries[sha].path)) else Downloading])
    case DownloadStep(sha, result) =>
      s.(flights := s.flights[sha := if result.Some? then Fetched(result.value) else Returning(None)])
    case InsertStep(sha, now) =>
      var path := s.flights[sha].path;
      s.(entries := Inserted(s.entries, sha, path, now), flights := s.flights[sha := Returning(Some(path))])
    case FinishStep(sha) =>
      s.(flights := s.flights - {sha}, clients := LandAll(s.clients, sha, s.flights[sha].result))
    case AcquireStep(id, now, retriable) =>
      var c := s.clients[id];
      if c.result.Some? && c.sha in s.entries then
        s.(entries := Acquire(s.entries, c.sha, now),
           clients := s.clients[id := Holding(c.sha, c.result.value, s.entries[c.sha].path)])
      else s.(clients := s.clients[id := Retry(c.sha, c.attempt, retriable)])
    case ReleaseStep(id, now) =>
      s.(entries := Release(s.entries, s.clients[id].sha, now), clients := s.clients[id := Idle])
    case CleanupStep(now) => s.(entries := Cleaned(s.entries, now, s.ttl))
    case StrayReleaseStep(sha, now) => s.(entries := Release(s.entries, sha, now))
  }

  function Run(ttl: int, steps: seq<Step>): Option<State> {
    if steps == [] then Some(Init(ttl)) else
    match Run(ttl, steps[..|steps| - 1])
    case None => None
    case Some(s) => if Enabled(s, steps[|steps| - 1]) then Some(Next(s, steps[|steps| - 1])) else None
  }

  /** Every release gives back a reference its caller holds. */
  predicate Balanced(steps: seq<Step>) {
    forall i :: 0 <= i < |steps| ==> !steps[i].StrayReleaseStep?
  }

  /* ----- what every step keeps ----- */

  predicate Holds(c: Client, sha: string) {
    c.Holding? && c.sha == sha
  }

  function Holders(clients: map<nat, Client>, sha: string): set<nat> {
    set id | id in clients && Holds(clients[id], sha)
  }

  /** The count of every entry is the number of its holders. */
  ghost predicate CountsExact(es: Entries, clients: map<nat, Client>) {
    forall sha :: sha in es ==> es[sha].refCount == |Holders(clients, sha)|
  }

  /** What is held is there, and is what it was when it was acquired. */
  ghost predicate HeldIsThere(es: Entries, clients: map<nat, Client>) {
    forall id :: id in clients && clients[id].Holding? ==>
      clients[id].sha in es && es[clients[id].sha].path == clients[id].entryPath
  }

  /** A flight that downloads has no entry to replace. */
  ghost predicate NothingToReplace(es: Entries, flights: map<string, Flight>) {
    forall sha :: sha in flights && (flights[sha].Downloading? || flights[sha].Fetched?) ==> sha !in es
  }

  /** Nobody waits for a flight that has returned, and nobody tries too often. */
  ghost predicate Attended(flights: map<string, Flight>, clients: map<nat, Client>) {
    forall id :: id in clients ==>
      && (clients[id].Waiting? ==> clients[id].sha in flights)
      && (clients[id].Trying? || clients[id].Waiting? || clients[id].Landed? ==>
           clients[id].attempt < MAX_DOWNLOAD_ATTEMPTS)
  }

  ghost predicate Inv(s: State) {
    && CountsExact(s.entries, s.clients)
    && HeldIsThere(s.entries, s.clients)
    && NothingToReplace(s.entries, s.flights)
    && Attended(s.flights, s.clients)
  }

  lemma HoldersAfter(clients: map<nat, Client>, id: nat, c: Client, sha: string)
    ensures Holders(clients[id := c], sha) ==
            if Holds(c, sha) then Holders(clients, sha) + {id} else Holders(clients, sha) - {id}
  {
  }

  lemma HoldersLanded(clients: map<nat, Client>, at: string, result: Option<string>, sha: string)
    ensures Holders(LandAll(clients, at, result), sha) == Holders(clients, sha)
  {
  }

  /** A caller that held nothing, and now holds nothing, changes no count. */
  lemma CountsUnheld(es: Entries, clients: map<nat, Client>, id: nat, c: Client)
    requires CountsExact(es, clients) && HeldIsThere(es, clients)
    requires !c.Holding? && (id in clients ==> !clients[id].Holding?)
    ensures CountsExact(es, clients[id := c]) && HeldIsThere(es, clients[id := c])
  {
    forall sha | sha in es
      ensures Holders(clients[id := c], sha) == Holders(clients, sha)
    {
      HoldersAfter(clients, id, c, sha);
    }
  }

  lemma CountsAcquired(es: Entries, clients: map<nat, Client>, id: nat, sha: string, path: string, now: int)
    requires CountsExact(es, clients) && HeldIsThere(es, clients) && sha in es
    requires id in clients ==> !clients[id].Holding?
    ensures var after := clients[id := Holding(sha, path, es[sha].path)];
            CountsExact(Acquire(es, sha, now), after) && HeldIsThere(Acquire(es, sha, now), after)
  {
    var c := Holding(sha, path, es[sha].path);
    forall other | other in es
      ensures |Holders(clients[id := c], other)| == |Holders(clients, other)| + if other == sha then 1 else 0
    {
      HoldersAfter(clients, id, c, other);
    }
    hide Holders;
  }

  lemma CountsReleased(es: Entries, clients: map<nat, Client>, id: nat, now: int)
    requires CountsExact(es, clients) && HeldIsThere(es, clients) && id in clients && clients[id].Holding?
    ensures var after := clients[id := Idle];
            CountsExact(Release(es, clients[id].sha, now), after) &&
              HeldIsThere(Release(es, clients[id].sha, now), after)
  {
    var sha := clients[id].sha;
    assert id in Holders(clients, sha);
    forall other | other in es
      ensures |Holders(clients[id := Idle], other)| == |Holders(clients, other)| - if other == sha then 1 else 0
    {
      HoldersAfter(clients, id, Idle, other);
    }
    hide Holders;
  }

  lemma CountsInserted(es: Entries, clients: map<nat, Client>, sha: string, path: string, now: int)
    requires CountsExact(es, clients) && HeldIsThere(es, clients) && sha !in es
    ensures CountsExact(Inserted(es, sha, path, now), clients) && HeldIsThere(Inserted(es, sha, path, now), clients)
  {
    assert Holders(clients, sha) == {};
  }

  lemma HeldCounts(es: Entries, clients: map<nat, Client>, id: nat)
    requires CountsExact(es, clients) && HeldIsThere(es, clients) && id in clients && clients[id].Holding?
    ensures es[clients[id].sha].refCount > 0
  {
    assert id in Holders(clients, clients[id].sha);
  }

  lemma CountsCleaned(es: Entries, clients: map<nat, Client>, now: int, ttl: int)
    requires CountsExact(es, clients) && HeldIsThere(es, clients)
    ensures CountsExact(Cleaned(es, now, ttl), clients) && HeldIsThere(Cleaned(es, now, ttl), clients)
  {
    forall id | id in clients && clients[id].Holding?
      ensures es[clients[id].sha].refCount > 0
    {
      HeldCounts(es, clients, id);
    }
    hide Holders;
  }

  lemma CountsLanded(es: Entries, clients: map<nat, Client>, at: string, result: Option<string>)
    requires CountsExact(es, clients) && HeldIsThere(es, clients)
    ensures CountsExact(es, LandAll(clients, at, result)) && HeldIsThere(es, LandAll(clients, at, result))
  {
    forall sha | sha in es
      ensures Holders(LandAll(clients, at, result), sha) == Holders(clients, sha)
    {
      HoldersLanded(clients, at, result, sha);
    }
    hide Holders;
  }

  lemma StepCounts(s: State, step: Step)
    requires Inv(s) && Enabled(s, step) && !step.StrayReleaseStep?
    ensures var t := Next(s, step); CountsExact(t.entries, t.clients) && HeldIsThere(t.entries, t.clients)
  {
    hide CountsExact, HeldIsThere, Attended, Cleaned, LandAll, Release, Acquire, Inserted;
    match step
    case GetStep(id, sha, now) =>
      if sha in s.entries {
        CountsAcquired(s.entries, s.clients, id, sha, s.entries[sha].path, now);
      } else {
        assert Acquire(s.entries, sha, now) == s.entries by {
          AcquireMissing(s.entries, sha, now);
        }
        CountsUnheld(s.entries, s.clients, id, Trying(sha, 0));
      }
    case JoinStep(id) => CountsUnheld(s.entries, s.clients, id, Waiting(s.clients[id].sha, s.clients[id].attempt));
    case GiveUpStep(id) => CountsUnheld(s.entries, s.clients, id, Idle);
    case InsertStep(sha, now) => CountsInserted(s.entries, s.clients, sha, s.flights[sha].path, now);
    case FinishStep(sha) => CountsLanded(s.entries, s.clients, sha, s.flights[sha].result);
    case AcquireStep(id, now, retriable) =>
      var c := s.clients[id];
      if c.result.Some? && c.sha in s.entries {
        CountsAcquired(s.entries, s.clients, id, c.sha, c.result.value, now);
      } else {
        CountsUnheld(s.entries, s.clients, id, Retry(c.sha, c.attempt, retriable));
      }
    case ReleaseStep(id, now) => CountsReleased(s.entries, s.clients, id, now);
    case CleanupStep(now) => CountsCleaned(s.entries, s.clients, now, s.ttl);
    case _ =>
  }

  lemma AcquireMissing(es: Entries, sha: string, now: int)
    requires sha !in es
    ensures Acquire(es, sha, now) == es
  {
  }

  lemma StepFlights(s: State, step: Step)
    requires Inv(s) && Enabled(s, step)
    ensures var t := Next(s, step); NothingToReplace(t.entries, t.flights) && Attended(t.flights, t.clients)
  {
    hide CountsExact, HeldIsThere;
  }

  lemma {:induction false} EveryRunKeepsInv(ttl: int, steps: seq<Step>)
    requires Balanced(steps) && Run(ttl, steps).Some?
    ensures Inv(Run(ttl, steps).value)
  {
    if steps != [] {
      hide Inv, Next, Enabled;
      EveryRunKeepsInv(ttl, steps[..|steps| - 1]);
      var s, step := Run(ttl, steps[..|steps| - 1]).value, steps[|steps| - 1];
      StepCounts(s, step);
      StepFlights(s, step);
      assert Inv(Next(s, step)) by {
        InvFrom(Next(s, step));
      }
    }
  }

  lemma InvFrom(s: State)
    requires CountsExact(s.entries, s.clients) && HeldIsThere(s.entries, s.clients)
    requires NothingToReplace(s.entries, s.flights) && Attended(s.flights, s.clients)
    ensures Inv(s)
  {
  }

  /* ----- what it means ----- */

  /**
   * While an archive is held its entry is there, is the one that was acquired, and counts
   * exactly the callers that hold it; no count is ever negative.
   */
  lemma HeldArchivesStay(ttl: int, steps: seq<Step>, id: nat)
    requires Balanced(steps) && Run(ttl, steps).Some? && ClientOf(Run(ttl, steps).value, id).Holding?
    ensures var s := Run(ttl, steps).value;
            var c := ClientOf(s, id);
            && c.sha in s.entries
            && s.entries[c.sha].path == c.entryPath
            && s.entries[c.sha].refCount == |Holders(s.clients, c.sha)| > 0
  {
    EveryRunKeepsInv(ttl, steps);
    hide Run, Holders;
    HeldCounts(Run(ttl, steps).value.entries, Run(ttl, steps).value.clients, id);
  }

  /** The cleanup removes an archive exactly when nobody holds it and it is stale, and leaves the others as they are. */
  lemma EvictionSparesHeld(ttl: int, steps: seq<Step>, now: int, sha: string)
    requires Balanced(steps) && Run(ttl, steps).Some? && sha in Run(ttl, steps).value.entries
    ensures var s := Run(ttl, steps).value;
            var t := Next(s, CleanupStep(now));
            && (sha !in t.entries <==> Holders(s.clients, sha) == {} && now - s.entries[sha].lastUsed > s.ttl)
            && (sha in t.entries ==> t.entries[sha] == s.entries[sha])
  {
    EveryRunKeepsInv(ttl, steps);
    hide Run, Holders;
  }

  /**
   * A download is kept only where there is no entry, and while one is under way no other starts for the same
   * commit.
   */
  lemma InsertNeverReplaces(ttl: int, steps: seq<Step>, sha: string)
    requires Balanced(steps) && Run(ttl, steps).Some? && sha in Run(ttl, steps).value.flights
    ensures var s := Run(ttl, steps).value;
            s.flights[sha].Downloading? || s.flights[sha].Fetched? ==> sha !in s.entries
    ensures forall id :: var s := Run(ttl, steps).value;
            Enabled(s, JoinStep(id)) && s.clients[id].sha == sha ==> Next(s, JoinStep(id)).flights == s.flights
  {
    EveryRunKeepsInv(ttl, steps);
    hide Run, CountsExact, HeldIsThere, Attended;
  }

  /* ----- when an archive was used last ----- */

  /** The time at which the step takes a reference on the entry of the commit, gives one back or stores it. */
  function UseTime(s: State, step: Step, sha: string): Option<int> {
    match step
    case GetStep(_, other, now) => if other == sha && sha in s.entries then Some(now) else None
    case AcquireStep(id, now, _) =>
      var c := ClientOf(s, id);
      if c.Landed? && c.result.Some? && c.sha == sha && sha in s.entries then Some(now) else None
    case ReleaseStep(id, now) =>
      if ClientOf(s, id).Holding? && ClientOf(s, id).sha == sha && sha in s.entries then Some(now) else None
    case StrayReleaseStep(other, now) => if other == sha && sha in s.entries then Some(now) else None
    case InsertStep(other, now) => if other == sha then Some(now) else None
    case _ => None
  }

  /** The last of these times in the run. */
  function LastUse(ttl: int, steps: seq<Step>, sha: string): Option<int> {
    if steps == [] || Run(ttl, steps[..|steps| - 1]).None? then None else
    var use := UseTime(Run(ttl, steps[..|steps| - 1]).value, steps[|steps| - 1], sha);
    if use.Some? then use else LastUse(ttl, steps[..|steps| - 1], sha)
  }

  lemma StepUses(s: State, step: Step, sha: string)
    requires Enabled(s, step) && sha in Next(s, step).entries
    ensures var use, e := UseTime(s, step, sha), Next(s, step).entries[sha];
            if use.Some? then e.lastUsed == use.value else sha in s.entries && e.lastUsed == s.entries[sha].lastUsed
  {
  }

  /** Every use counts, and nothing else does: an archive is as old as its last use. */
  lemma {:induction false} UsedWhenLastUsed(ttl: int, steps: seq<Step>, sha: string)
    requires Run(ttl, steps).Some? && sha in Run(ttl, steps).value.entries
    ensures LastUse(ttl, steps, sha) == Some(Run(ttl, steps).value.entries[sha].lastUsed)
  {
    if steps != [] {
      hide Next, Enabled, UseTime;
      var init := steps[..|steps| - 1];
      StepUses(Run(ttl, init).value, steps[|steps| - 1], sha);
      if UseTime(Run(ttl, init).value, steps[|steps| - 1], sha).None? {
        UsedWhenLastUsed(ttl, init, sha);
      }
    }
  }

  /* ----- one call ----- */

  /** A caller of a commit that is cached holds it at once; without an entry it tries, the first of three times. */
  lemma HitsAreServed(s: State, id: nat, sha: string, now: int)
    requires Enabled(s, GetStep(id, sha, now))
    ensures var t := Next(s, GetStep(id, sha, now));
            && t.flights == s.flights
            && if sha in s.entries then
                 t.clients[id] == Holding(sha, s.entries[sha].path, s.entries[sha].path) &&
                 t.entries == s.entries[sha := Entry(s.entries[sha].path, s.entries[sha].refCount + 1, now)]
               else t.clients[id] == Trying(sha, 0) && t.entries == s.entries
  {
  }

  /** A flight downloads only if there is no entry by then; otherwise it returns the one that is there. */
  lemma FlightsLookAgain(s: State, sha: string)
    requires Enabled(s, CheckStep(sha))
    ensures var t := Next(s, CheckStep(sha));
            t.flights[sha] == if sha in s.entries then Returning(Some(s.entries[sha].path)) else Downloading
  {
  }

  /** After a failed attempt a caller tries again if the failure is one that passes, three times in all. */
  lemma ThreeAttempts(s: State, id: nat, now: int, retriable: bool)
    requires Enabled(s, AcquireStep(id, now, retriable))
    ensures var c, d := s.clients[id], Next(s, AcquireStep(id, now, retriable)).clients[id];
            if c.result.Some? && c.sha in s.entries then d == Holding(c.sha, c.result.value, s.entries[c.sha].path)
            else if retriable && c.attempt < 2 then d == Trying(c.sha, c.attempt + 1)
            else d == Idle
  {
  }

  /* ----- the path handed out ----- */

  /** Every successful download of the commit ends up at this path. */
  ghost predicate OnePlace(steps: seq<Step>, sha: string, path: string) {
    forall i :: 0 <= i < |steps| && steps[i].DownloadStep? && steps[i].sha == sha && steps[i].result.Some? ==>
      steps[i].result.value == path
  }

  predicate FlightAt(f: Flight, path: string) {
    && (f.Fetched? ==> f.path == path)
    && (f.Returning? && f.result.Some? ==> f.result.value == path)
  }

  predicate ClientAt(c: Client, path: string) {
    && (c.Landed? && c.result.Some? ==> c.result.value == path)
    && (c.Holding? ==> c.path == path && c.entryPath == path)
  }

  ghost predicate ClientsInPlace(clients: map<nat, Client>, sha: string, path: string) {
    forall id :: id in clients && !clients[id].Idle? && clients[id].sha == sha ==> ClientAt(clients[id], path)
  }

  ghost predicate InPlace(s: State, sha: string, path: string) {
    && (sha in s.entries ==> s.entries[sha].path == path)
    && (sha in s.flights ==> FlightAt(s.flights[sha], path))
    && ClientsInPlace(s.clients, sha, path)
  }

  lemma StepClientsInPlace(s: State, step: Step, sha: string, path: string)
    requires InPlace(s, sha, path) && Enabled(s, step)
    ensures ClientsInPlace(Next(s, step).clients, sha, path)
  {
  }

  lemma StepStaysInPlace(s: State, step: Step, sha: string, path: string)
    requires InPlace(s, sha, path) && Enabled(s, step)
    requires step.DownloadStep? && step.sha == sha && step.result.Some? ==> step.result.value == path
    ensures InPlace(Next(s, step), sha, path)
  {
    StepClientsInPlace(s, step, sha, path);
    hide ClientsInPlace;
  }

  lemma {:induction false} RunsStayInPlace(ttl: int, steps: seq<Step>, sha: string, path: string)
    requires OnePlace(steps, sha, path) && Run(ttl, steps).Some?
    ensures InPlace(Run(ttl, steps).value, sha, path)
  {
    if steps != [] {
      hide InPlace, Next, Enabled;
      var init, step := steps[..|steps| - 1], steps[|steps| - 1];
      assert OnePlace(init, sha, path);
      RunsStayInPlace(ttl, init, sha, path);
      StepStaysInPlace(Run(ttl, init).value, step, sha, path);
    } else {
      InitInPlace(ttl, sha, path);
    }
  }

  lemma InitInPlace(ttl: int, sha: string, path: string)
    ensures InPlace(Init(ttl), sha, path)
  {
  }

  /** If the downloads of a commit agree on the place, the path a caller is given is that of the entry it holds. */
  lemma GivenPathIsHeld(ttl: int, steps: seq<Step>, id: nat, path: string)
    requires Balanced(steps) && Run(ttl, steps).Some? && ClientOf(Run(ttl, steps).value, id).Holding?
    requires OnePlace(steps, ClientOf(Run(ttl, steps).value, id).sha, path)
    ensures var s := Run(ttl, steps).value;
            var c := ClientOf(s, id);
            c.sha in s.entries && s.entries[c.sha].path == c.path == path
  {
    RunsStayInPlace(ttl, steps, ClientOf(Run(ttl, steps).value, id).sha, path);
    HeldArchivesStay(ttl, steps, id);
    hide Run;
  }

  /* ----- runs that end badly ----- */

  lemma StartRun(ttl: int) returns (steps: seq<Step>)
    ensures steps == [] && Run(ttl, steps) == Some(Init(ttl)) && Balanced(steps)
  {
    steps := [];
  }

  lemma Follow(ttl: int, steps: seq<Step>, s: State, step: Step) returns (more: seq<Step>, t: State)
    requires Run(ttl, steps) == Some(s) && Enabled(s, step)
    ensures more == steps + [step] && t == Next(s, step) && Run(ttl, more) == Some(t)
    ensures Balanced(steps) && !step.StrayReleaseStep? ==> Balanced(more)
  {
    more, t := steps + [step], Next(s, step);
    assert more[..|steps|] == steps;
  }

  /** When the cleanup finds an archive stale that was last used at 0. */
  function Late(ttl: int): nat {
    if ttl < 0 then 0 else ttl + 1
  }

  /** A caller has downloaded an archive, and has yet to acquire it. */
  lemma OneDownload(ttl: int, sha: string, x: string) returns (steps: seq<Step>, s: State)
    ensures Run(ttl, steps) == Some(s) && Balanced(steps)
    ensures s == State(ttl, map[sha := Entry(x, 0, 0)], map[], map[0 := Landed(sha, 0, Some(x))])
    ensures steps == [GetStep(0, sha, 0), JoinStep(0), CheckStep(sha), DownloadStep(sha, Some(x)), InsertStep(sha, 0),
                      FinishStep(sha)]
  {
    hide Run, Balanced;
    s := Init(ttl);
    steps := StartRun(ttl);
    steps, s := Follow(ttl, steps, s, GetStep(0, sha, 0));
    steps, s := Follow(ttl, steps, s, JoinStep(0));
    steps, s := Follow(ttl, steps, s, CheckStep(sha));
    steps, s := Follow(ttl, steps, s, DownloadStep(sha, Some(x)));
    steps, s := Follow(ttl, steps, s, InsertStep(sha, 0));
    steps, s := Follow(ttl, steps, s, FinishStep(sha));
  }

  /** Every successful download of the run ends up where it may. */
  ghost predicate Among(steps: seq<Step>, may: (string, string) -> bool) {
    forall i :: 0 <= i < |steps| && steps[i].DownloadStep? && steps[i].result.Some? ==>
      may(steps[i].sha, steps[i].result.value)
  }

  /**
   * The path comes from the flight, the reference from the entry: when the entry is evicted and
   * downloaded again elsewhere in between, a caller holds one archive and is given the path of another.
   * So for every commit and any two places its downloads may end up in.
   */
  lemma GivenPathCanDiffer(ttl: int, sha: string, x: string, y: string, may: (string, string) -> bool)
    returns (steps: seq<Step>)
    requires may(sha, x) && may(sha, y)
    ensures Balanced(steps) && Among(steps, may) && Run(ttl, steps).Some?
    ensures ClientOf(Run(ttl, steps).value, 0) == Holding(sha, x, y)
  {
    hide Run, Balanced;
    var s;
    var late := Late(ttl);
    steps, s := OneDownload(ttl, sha, x);
    steps, s := Follow(ttl, steps, s, CleanupStep(late));
    assert s.entries == map[];
    steps, s := Follow(ttl, steps, s, GetStep(1, sha, late));
    steps, s := Follow(ttl, steps, s, JoinStep(1));
    steps, s := Follow(ttl, steps, s, CheckStep(sha));
    steps, s := Follow(ttl, steps, s, DownloadStep(sha, Some(y)));
    steps, s := Follow(ttl, steps, s, InsertStep(sha, late));
    assert s.entries == map[sha := Entry(y, 0, late)] && s.clients[0] == Landed(sha, 0, Some(x));
    steps, s := Follow(ttl, steps, s, AcquireStep(0, late, true));
  }

  /** In every balanced run with these downloads, who holds the commit was given the path of the held entry. */
  ghost predicate GivenWhatIsHeld(ttl: int, sha: string, may: (string, string) -> bool) {
    forall steps, id: nat | Balanced(steps) && Among(steps, may) && Run(ttl, steps).Some? ::
      var s := Run(ttl, steps).value;
      var c := ClientOf(s, id);
      Holds(c, sha) ==> sha in s.entries && s.entries[sha].path == c.path
  }

  /** The downloads of a commit may end up in one place at most. */
  ghost predicate OnePlaceOnly(sha: string, may: (string, string) -> bool) {
    forall x, y :: may(sha, x) && may(sha, y) ==> x == y
  }

  lemma AgreedPathIsHeld(ttl: int, steps: seq<Step>, id: nat, may: (string, string) -> bool)
    requires Balanced(steps) && Among(steps, may) && Run(ttl, steps).Some?
    requires var c := ClientOf(Run(ttl, steps).value, id); c.Holding? && OnePlaceOnly(c.sha, may)
    ensures var s := Run(ttl, steps).value;
            var c := ClientOf(s, id);
            c.sha in s.entries && s.entries[c.sha].path == c.path
  {
    hide Run, Balanced;
    var sha := ClientOf(Run(ttl, steps).value, id).sha;
    var path :| (exists x :: may(sha, x)) ==> may(sha, path);
    assert OnePlace(steps, sha, path);
    GivenPathIsHeld(ttl, steps, id, path);
  }

  /** Exactly if the downloads of the commit cannot end up in two places. */
  lemma GivenPathExactly(ttl: int, sha: string, may: (string, string) -> bool)
    ensures GivenWhatIsHeld(ttl, sha, may) <==> OnePlaceOnly(sha, may)
  {
    hide Run, Balanced, Among;
    if OnePlaceOnly(sha, may) {
      forall steps, id: nat | Balanced(steps) && Among(steps, may) && Run(ttl, steps).Some? &&
          Holds(ClientOf(Run(ttl, steps).value, id), sha)
        ensures var s := Run(ttl, steps).value;
                sha in s.entries && s.entries[sha].path == ClientOf(s, id).path
      {
        AgreedPathIsHeld(ttl, steps, id, may);
      }
    } else {
      var x, y :| may(sha, x) && may(sha, y) && x != y;
      var steps := GivenPathCanDiffer(ttl, sha, x, y, may);
      HeldArchivesStay(ttl, steps, 0);
      assert Holds(ClientOf(Run(ttl, steps).value, 0), sha);
    }
  }

  /** One release too many, and the cleanup removes an archive that is still held, whatever the time to live. */
  lemma StrayReleaseEvictsHeld(ttl: int, sha: string, x: string) returns (steps: seq<Step>)
    ensures Run(ttl, steps).Some?
    ensures var s := Run(ttl, steps).value; ClientOf(s, 0) == Holding(sha, x, x) && sha !in s.entries
  {
    hide Run, Balanced;
    var s;
    steps, s := OneDownload(ttl, sha, x);
    steps, s := Follow(ttl, steps, s, AcquireStep(0, 0, true));
    assert s.entries == map[sha := Entry(x, 1, 0)] && s.clients == map[0 := Holding(sha, x, x)];
    steps, s := Follow(ttl, steps, s, StrayReleaseStep(sha, 0));
    steps, s := Follow(ttl, steps, s, CleanupStep(Late(ttl)));
  }
}
