/**
 The signing-key cache (api/auth.py): two critical sections under one lock with a network
 fetch between them. Any number of threads run them in any order against a clock that
 never runs backwards; each critical section is one atomic step.
 */
module JwksCache {
  import opened Prelude

  type Kid = string
  type Key = string
  type Time = int

  /** Lifetimes as configured; `maxNegative` is never negative. */
  datatype Settings = Settings(ttl: Time, cooldown: Time, negativeTtl: Time, maxNegative: nat)

  /** Unknown key ids in insertion order, each with the time it is remembered until. */
  type Unknown = seq<(Kid, Time)>

  datatype Cache = Cache(keys: map<Kid, Key>, expiresAt: Time, unknown: Unknown, nextRefreshAt: Time, refreshing: bool)

  function EmptyCache(): Cache {
    Cache(map[], 0, [], 0, false)
  }

  // ----- the table of unknown ids -----

  function Remove(u: Unknown, kid: Kid): Unknown {
    if u == [] then []
    else if u[|u| - 1].0 == kid then Remove(u[..|u| - 1], kid)
    else Remove(u[..|u| - 1], kid) + [u[|u| - 1]]
  }

  function Until(u: Unknown, kid: Kid): Option<Time> {
    if u == [] then None
    else if u[|u| - 1].0 == kid then Some(u[|u| - 1].1)
    else Until(u[..|u| - 1], kid)
  }

  /** The newest `max` entries. */
  function Newest(u: Unknown, max: nat): Unknown {
    if |u| <= max then u else u[|u| - max..]
  }

  function Remember(s: Settings, u: Unknown, kid: Kid, now: Time): Unknown {
    if s.maxNegative == 0 then u else Newest(Remove(u, kid) + [(kid, now + s.negativeTtl)], s.maxNegative)
  }

  // ----- the two critical sections -----

  datatype Decision = Return(key: Option<Key>) | Wait | StartFetch

  function Lookup(s: Settings, c: Cache, kid: Kid, now: Time): (Cache, Decision) {
    if kid in c.keys && now < c.expiresAt then (c, Return(Some(c.keys[kid])))
    else
      var until := Until(c.unknown, kid);
      if until.Some? && now < until.value then (c, Return(None))
      else
        var c1 := if until.Some? then c.(unknown := Remove(c.unknown, kid)) else c;
        if now < c1.nextRefreshAt then (c1.(unknown := Remember(s, c1.unknown, kid, now)), Return(None))
        else if c1.refreshing then (c1, Wait)
        else (c1.(refreshing := true), StartFetch)
  }

  /** `fetched` is the key set the server answered, or None after a failure. */
  function Complete(s: Settings, c: Cache, kid: Kid, fetched: Option<map<Kid, Key>>, now: Time): (Cache, Option<Key>) {
    var c1 := c.(nextRefreshAt := now + s.cooldown);
    var c2 := if fetched.Some? then c1.(keys := fetched.value, expiresAt := now + s.ttl) else c1;
    var key := if fetched.Some? && kid in fetched.value then Some(fetched.value[kid]) else None;
    var c3 := if key.None? then c2.(unknown := Remember(s, c2.unknown, kid, now)) else c2;
    (c3.(refreshing := false), key)
  }

  // ----- many threads -----

  type Thread = nat

  datatype Phase = Idle | Waiting(kid: Kid) | Fetching(kid: Kid)

  /** What the log records: a fetch started, finished or was abandoned, a call returned. */
  datatype Entry =
    | Started(at: Time)
    | Finished(at: Time, fetched: Option<map<Kid, Key>>)
    | Abandoned(at: Time)
    | Returned(at: Time, kid: Kid, key: Option<Key>)

  datatype System = System(cache: Cache, phases: map<Thread, Phase>, clock: Time, log: seq<Entry>)

  /**
   A thread enters or re-enters the lookup, comes back from the network with an answer or a caught
   failure, or leaves the fetch by an exception that get_key does not catch.
   */
  datatype Action =
    | Enter(thread: Thread, kid: Kid, now: Time)
    | Answer(thread: Thread, fetched: Option<map<Kid, Key>>, now: Time)
    | Abandon(thread: Thread, now: Time)

  function PhaseOf(y: System, thread: Thread): Phase {
    if thread in y.phases then y.phases[thread] else Idle
  }

  /** A waiting thread asks again for the id it waits for; the clock does not run backwards. */
  predicate Enabled(y: System, a: Action) {
    && y.clock <= a.now
    && match a
       case Enter(thread, kid, _) => PhaseOf(y, thread) == Idle || PhaseOf(y, thread) == Waiting(kid)
       case Answer(thread, _, _) => PhaseOf(y, thread).Fetching?
       case Abandon(thread, _) => PhaseOf(y, thread).Fetching?
  }

  function Entered(s: Settings, y: System, thread: Thread, kid: Kid, now: Time): System {
    var (c, d) := Lookup(s, y.cache, kid, now);
    match d
    case Return(key) => System(c, y.phases[thread := Idle], now, y.log + [Returned(now, kid, key)])
    case Wait => System(c, y.phases[thread := Waiting(kid)], now, y.log)
    case StartFetch => System(c, y.phases[thread := Fetching(kid)], now, y.log + [Started(now)])
  }

  function Answered(s: Settings, y: System, thread: Thread, kid: Kid, fetched: Option<map<Kid, Key>>,
        now: Time): System {
    var (c, key) := Complete(s, y.cache, kid, fetched, now);
    System(c, y.phases[thread := Idle], now, y.log + [Finished(now, fetched), Returned(now, kid, key)])
  }

  /** The second critical section never runs: `refreshing` stays set. */
  function Dropped(y: System, thread: Thread, now: Time): System {
    System(y.cache, y.phases[thread := Idle], now, y.log + [Abandoned(now)])
  }

  function Step(s: Settings, y: System, a: Action): System {
    if !Enabled(y, a) then y
    else match a
      case Enter(thread, kid, now) => Entered(s, y, thread, kid, now)
      case Answer(thread, fetched, now) => Answered(s, y, thread, PhaseOf(y, thread).kid, fetched, now)
      case Abandon(thread, now) => Dropped(y, thread, now)
  }

  function Start(clock: Time): System {
    System(EmptyCache(), map[], clock, [])
  }

  function Run(s: Settings, y: System, actions: seq<Action>): System {
    if actions == [] then y else Step(s, Run(s, y, actions[..|actions| - 1]), actions[|actions| - 1])
  }

  // ----- the table stays bounded and keeps its newest entry -----

  ghost predicate DistinctKids(u: Unknown) {
    forall i, j :: 0 <= i < j < |u| ==> u[i].0 != u[j].0
  }

  lemma {:induction false} RemoveShrinks(u: Unknown, kid: Kid)
    ensures |Remove(u, kid)| <= |u|
    ensures forall i :: 0 <= i < |Remove(u, kid)| ==> Remove(u, kid)[i].0 != kid && Remove(u, kid)[i] in u
    ensures forall e :: e in u && e.0 != kid ==> e in Remove(u, kid)
    ensures DistinctKids(u) ==> DistinctKids(Remove(u, kid))
  {
    if u != [] {
      RemoveShrinks(u[..|u| - 1], kid);
      if DistinctKids(u) { assert DistinctKids(u[..|u| - 1]); }
    }
  }

  lemma {:induction false} UntilFinds(u: Unknown, kid: Kid)
    ensures Until(u, kid).None? <==> forall i :: 0 <= i < |u| ==> u[i].0 != kid
    ensures Until(u, kid).Some? ==> (kid, Until(u, kid).value) in u
  {
    if u != [] { UntilFinds(u[..|u| - 1], kid); }
  }

  lemma RemovedDistinct(u: Unknown, kid: Kid, until: Time)
    requires DistinctKids(u)
    ensures DistinctKids(Remove(u, kid) + [(kid, until)])
  {
    RemoveShrinks(u, kid);
  }

  lemma NewestSuffix(w: Unknown, max: nat)
    requires DistinctKids(w)
    ensures var v := Newest(w, max);
            DistinctKids(v) && |v| <= max && |v| <= |w| && v == w[|w| - |v|..]
  {
  }

  lemma UntilLast(v: Unknown)
    requires v != []
    ensures Until(v, v[|v| - 1].0) == Some(v[|v| - 1].1)
  {
  }

  /** Remembering an id makes it the newest entry, bounds the table, drops only the oldest and keeps ids distinct. */
  lemma RememberKeepsNewest(s: Settings, u: Unknown, kid: Kid, now: Time)
    requires DistinctKids(u) && |u| <= s.maxNegative
    ensures var v := Remember(s, u, kid, now);
            && DistinctKids(v) && |v| <= s.maxNegative
            && (s.maxNegative > 0 ==>
                  v != [] && v[|v| - 1] == (kid, now + s.negativeTtl) && Until(v, kid) == Some(now + s.negativeTtl))
            && var w := Remove(u, kid) + [(kid, now + s.negativeTtl)];
               (s.maxNegative > 0 ==> |v| <= |w| && v == w[|w| - |v|..])
  {
    hide DistinctKids, Remove, Until;
    RemovedDistinct(u, kid, now + s.negativeTtl);
    NewestSuffix(Remove(u, kid) + [(kid, now + s.negativeTtl)], s.maxNegative);
    if s.maxNegative > 0 { UntilLast(Remember(s, u, kid, now)); }
  }

  // ----- single flight -----

  ghost predicate SomeFetcher(phases: map<Thread, Phase>) {
    exists a :: a in phases && phases[a].Fetching?
  }

  /** `lost` says that a fetch was abandoned; from then on nobody fetches. */
  ghost predicate OneFetcher(phases: map<Thread, Phase>, refreshing: bool, lost: bool) {
    && (forall a, b :: a in phases && b in phases && phases[a].Fetching? && phases[b].Fetching? ==> a == b)
    && (refreshing <==> lost || SomeFetcher(phases))
    && (lost ==> !SomeFetcher(phases))
  }

  lemma OneFetcherStarts(phases: map<Thread, Phase>, lost: bool, thread: Thread, kid: Kid)
    requires OneFetcher(phases, false, lost)
    ensures OneFetcher(phases[thread := Fetching(kid)], true, lost)
  {
    assert phases[thread := Fetching(kid)][thread].Fetching?;
  }

  lemma OneFetcherPauses(phases: map<Thread, Phase>, refreshing: bool, lost: bool, thread: Thread, phase: Phase)
    requires OneFetcher(phases, refreshing, lost) && !phase.Fetching?
    requires thread in phases ==> !phases[thread].Fetching?
    ensures OneFetcher(phases[thread := phase], refreshing, lost)
  {
    if SomeFetcher(phases) {
      var a :| a in phases && phases[a].Fetching?;
      assert phases[thread := phase][a].Fetching?;
    }
  }

  /** The end of the one fetch: an answered one releases `refreshing`, an abandoned one does not. */
  lemma OneFetcherEnds(phases: map<Thread, Phase>, refreshing: bool, lost: bool, thread: Thread, abandoned: bool)
    requires OneFetcher(phases, refreshing, lost) && thread in phases && phases[thread].Fetching?
    ensures refreshing && !lost && OneFetcher(phases[thread := Idle], abandoned, abandoned)
  {
  }

  // ----- the log -----

  /** The last time a fetch finished, whatever its outcome. */
  function LastFinish(log: seq<Entry>): Option<Time> {
    if log == [] then None
    else if log[|log| - 1].Finished? then Some(log[|log| - 1].at)
    else LastFinish(log[..|log| - 1])
  }

  /** The keys and the time of the latest successful fetch. */
  function LastSuccess(log: seq<Entry>): Option<(Time, map<Kid, Key>)> {
    if log == [] then None
    else if log[|log| - 1].Finished? && log[|log| - 1].fetched.Some?
    then Some((log[|log| - 1].at, log[|log| - 1].fetched.value))
    else LastSuccess(log[..|log| - 1])
  }

  /** Some fetch was abandoned. */
  predicate Lost(log: seq<Entry>) {
    log != [] && (log[|log| - 1].Abandoned? || Lost(log[..|log| - 1]))
  }

  function Opens(e: Entry): int {
    if e.Started? then 1 else if e.Finished? then -1 else 0
  }

  /** Fetches started and not finished: in flight or abandoned. */
  function InFlight(log: seq<Entry>): int {
    if log == [] then 0 else InFlight(log[..|log| - 1]) + Opens(log[|log| - 1])
  }

  /** What entry i says about the entries before it. */
  ghost predicate EntryGood(s: Settings, log: seq<Entry>, i: nat)
    requires i < |log|
  {
    var before := log[..i];
    match log[i]
    case Started(at) =>
      && InFlight(before) == 0
      && (LastFinish(before).Some? ==> at >= LastFinish(before).value + s.cooldown)
    case Finished(_, _) => InFlight(before) == 1 && !Lost(before)
    case Abandoned(_) => InFlight(before) == 1 && !Lost(before)
    case Returned(at, kid, Some(key)) =>
      && LastSuccess(before).Some? && kid in LastSuccess(before).value.1 && LastSuccess(before).value.1[kid] == key
      && (at < LastSuccess(before).value.0 + s.ttl || at == LastSuccess(before).value.0)
    case Returned(_, _, None) => true
  }

  ghost predicate LogGood(s: Settings, log: seq<Entry>) {
    forall i :: 0 <= i < |log| ==> EntryGood(s, log, i)
  }

  /** The cache agrees with the log. */
  ghost predicate CacheGood(s: Settings, c: Cache, log: seq<Entry>) {
    && (LastSuccess(log).None? ==> c.keys == map[])
    && (LastSuccess(log).Some? ==>
          c.keys == LastSuccess(log).value.1 && c.expiresAt == LastSuccess(log).value.0 + s.ttl)
    && (LastFinish(log).Some? ==> c.nextRefreshAt == LastFinish(log).value + s.cooldown)
    && InFlight(log) == (if c.refreshing then 1 else 0)
    && DistinctKids(c.unknown) && |c.unknown| <= s.maxNegative
  }

  ghost predicate Good(s: Settings, y: System) {
    OneFetcher(y.phases, y.cache.refreshing, Lost(y.log)) && LogGood(s, y.log) && CacheGood(s, y.cache, y.log)
  }

  lemma LogAdded(s: Settings, log: seq<Entry>, e: Entry)
    requires LogGood(s, log) && EntryGood(s, log + [e], |log|)
    ensures LogGood(s, log + [e])
  {
    forall i | 0 <= i < |log + [e]| ensures EntryGood(s, log + [e], i) {
      if i < |log| {
        assert EntryGood(s, log, i);
        assert (log + [e])[..i] == log[..i];
      }
    }
  }

  lemma Appended(log: seq<Entry>, e: Entry)
    ensures (log + [e])[..|log|] == log
    ensures LastFinish(log + [e]) == if e.Finished? then Some(e.at) else LastFinish(log)
    ensures LastSuccess(log + [e]) ==
              if e.Finished? && e.fetched.Some? then Some((e.at, e.fetched.value)) else LastSuccess(log)
    ensures Lost(log + [e]) <==> Lost(log) || e.Abandoned?
    ensures InFlight(log + [e]) == InFlight(log) + Opens(e)
  {
  }

  lemma StartGood(s: Settings, clock: Time)
    ensures Good(s, Start(clock))
  {
  }

  lemma RemoveKeeps(s: Settings, c: Cache, log: seq<Entry>, kid: Kid)
    requires CacheGood(s, c, log)
    ensures CacheGood(s, c.(unknown := Remove(c.unknown, kid)), log)
  {
    RemoveShrinks(c.unknown, kid);
  }

  lemma RememberKeeps(s: Settings, c: Cache, log: seq<Entry>, kid: Kid, now: Time)
    requires CacheGood(s, c, log)
    ensures CacheGood(s, c.(unknown := Remember(s, c.unknown, kid, now)), log)
  {
    hide Remember;
    RememberKeepsNewest(s, c.unknown, kid, now);
  }

  /** The lookup only forgets or remembers ids, except that it may start the one fetch. */
  lemma LookupKeeps(s: Settings, c: Cache, log: seq<Entry>, kid: Kid, now: Time)
    requires CacheGood(s, c, log)
    ensures var (c1, d) := Lookup(s, c, kid, now);
            && (!d.StartFetch? ==> CacheGood(s, c1, log) && c1.refreshing == c.refreshing)
            && (d.StartFetch? ==>
                  !c.refreshing && c1.refreshing && CacheGood(s, c1.(refreshing := false), log) &&
                  now >= c.nextRefreshAt)
            && (d.Return? && d.key.Some? ==>
                  c1 == c && kid in c.keys && d.key.value == c.keys[kid] && now < c.expiresAt)
  {
    hide CacheGood, Remove, Remember, Until;
    var until := Until(c.unknown, kid);
    RemoveKeeps(s, c, log, kid);
    var c1 := if until.Some? then c.(unknown := Remove(c.unknown, kid)) else c;
    RememberKeeps(s, c1, log, kid, now);
    if !c1.refreshing { assert c1.(refreshing := false) == c1; }
  }

  lemma CacheReturns(s: Settings, c: Cache, log: seq<Entry>, now: Time, kid: Kid, key: Option<Key>)
    requires CacheGood(s, c, log) && LogGood(s, log)
    requires key.Some? ==> kid in c.keys && key.value == c.keys[kid] && now < c.expiresAt
    ensures LogGood(s, log + [Returned(now, kid, key)]) && CacheGood(s, c, log + [Returned(now, kid, key)])
    ensures Lost(log + [Returned(now, kid, key)]) == Lost(log)
  {
    hide LogGood;
    Appended(log, Returned(now, kid, key));
    LogAdded(s, log, Returned(now, kid, key));
  }

  lemma CacheStarts(s: Settings, c: Cache, log: seq<Entry>, now: Time)
    requires CacheGood(s, c.(refreshing := false), log) && c.refreshing && LogGood(s, log) && now >= c.nextRefreshAt
    ensures LogGood(s, log + [Started(now)]) && CacheGood(s, c, log + [Started(now)])
    ensures Lost(log + [Started(now)]) == Lost(log)
  {
    hide LogGood;
    Appended(log, Started(now));
    LogAdded(s, log, Started(now));
  }

  lemma EnteredKeeps(s: Settings, y: System, thread: Thread, kid: Kid, now: Time)
    requires Good(s, y) && !PhaseOf(y, thread).Fetching?
    ensures Good(s, Entered(s, y, thread, kid, now))
  {
    hide Lookup, LogGood, CacheGood, OneFetcher;
    LookupKeeps(s, y.cache, y.log, kid, now);
    var (c, d) := Lookup(s, y.cache, kid, now);
    match d
    case Return(key) =>
      CacheReturns(s, c, y.log, now, kid, key);
      OneFetcherPauses(y.phases, y.cache.refreshing, Lost(y.log), thread, Idle);
    case Wait => OneFetcherPauses(y.phases, y.cache.refreshing, Lost(y.log), thread, Waiting(kid));
    case StartFetch =>
      LookupRefresh(s, y.cache, kid, now);
      CacheStarts(s, c, y.log, now);
      OneFetcherStarts(y.phases, Lost(y.log), thread, kid);
  }

  lemma LookupRefresh(s: Settings, c: Cache, kid: Kid, now: Time)
    ensures Lookup(s, c, kid, now).0.nextRefreshAt == c.nextRefreshAt
  {
  }

  /** The end of the fetch: logged, published and answered. */
  lemma CompleteKeeps(s: Settings, c: Cache, log: seq<Entry>, kid: Kid, fetched: Option<map<Kid, Key>>, now: Time)
    requires CacheGood(s, c, log) && LogGood(s, log) && c.refreshing && !Lost(log)
    ensures var (c1, key) := Complete(s, c, kid, fetched, now);
            var log1 := log + [Finished(now, fetched), Returned(now, kid, key)];
            CacheGood(s, c1, log1) && LogGood(s, log1) && !c1.refreshing && !Lost(log1)
  {
    hide LogGood, Remember;
    var (c1, key) := Complete(s, c, kid, fetched, now);
    var mid := log + [Finished(now, fetched)];
    Appended(log, Finished(now, fetched));
    LogAdded(s, log, Finished(now, fetched));
    Appended(mid, Returned(now, kid, key));
    LogAdded(s, mid, Returned(now, kid, key));
    assert mid + [Returned(now, kid, key)] == log + [Finished(now, fetched), Returned(now, kid, key)];
    RememberKeepsNewest(s, c.unknown, kid, now);
  }

  lemma AnsweredKeeps(s: Settings, y: System, thread: Thread, kid: Kid, fetched: Option<map<Kid, Key>>, now: Time)
    requires Good(s, y) && thread in y.phases && y.phases[thread].Fetching?
    ensures Good(s, Answered(s, y, thread, kid, fetched, now))
  {
    hide Complete, LogGood, CacheGood, OneFetcher;
    OneFetcherEnds(y.phases, y.cache.refreshing, Lost(y.log), thread, false);
    CompleteKeeps(s, y.cache, y.log, kid, fetched, now);
  }

  lemma DroppedKeeps(s: Settings, y: System, thread: Thread, now: Time)
    requires Good(s, y) && thread in y.phases && y.phases[thread].Fetching?
    ensures Good(s, Dropped(y, thread, now)) && Stuck(Dropped(y, thread, now))
  {
    hide LogGood;
    OneFetcherEnds(y.phases, y.cache.refreshing, Lost(y.log), thread, true);
    Appended(y.log, Abandoned(now));
    LogAdded(s, y.log, Abandoned(now));
  }

  // ----- an abandoned fetch -----

  /** `refreshing` is set and no thread is left that would reset it. */
  ghost predicate Stuck(y: System) {
    y.cache.refreshing && !SomeFetcher(y.phases)
  }

  /** In a stuck state no lookup starts a fetch; it answers from the old keys, with None or waits. */
  lemma StuckLookup(s: Settings, c: Cache, kid: Kid, now: Time)
    requires c.refreshing
    ensures var (c1, d) := Lookup(s, c, kid, now);
            && !d.StartFetch? && c1.refreshing && c1.keys == c.keys && c1.expiresAt == c.expiresAt
            && c1.nextRefreshAt == c.nextRefreshAt
            && (now >= c.expiresAt ==> d == Wait || d == Return(None))
  {
    hide Remember, Remove, Until;
  }

  lemma StuckStep(s: Settings, y: System, a: Action)
    requires Stuck(y)
    ensures var z := Step(s, y, a);
            && Stuck(z) && z.cache.keys == y.cache.keys && z.cache.expiresAt == y.cache.expiresAt
            && (z.log == y.log || (|z.log| == |y.log| + 1 && z.log[..|y.log|] == y.log && z.log[|y.log|].Returned?))
  {
    hide Lookup;
    if Enabled(y, a) && a.Enter? {
      StuckLookup(s, y.cache, a.kid, a.now);
      var (c, d) := Lookup(s, y.cache, a.kid, a.now);
      assert d.Return? || d.Wait?;
    }
  }

  /** After an abandoned fetch the key set is never renewed: over any run no fetch starts or finishes again. */
  lemma {:induction false} StuckForever(s: Settings, y: System, actions: seq<Action>)
    requires Stuck(y)
    ensures var z := Run(s, y, actions);
            && Stuck(z) && z.cache.keys == y.cache.keys && z.cache.expiresAt == y.cache.expiresAt
            && |y.log| <= |z.log| && z.log[..|y.log|] == y.log
            && forall i :: |y.log| <= i < |z.log| ==> z.log[i].Returned?
  {
    hide Step, Stuck;
    if actions != [] {
      var n := |actions| - 1;
      StuckForever(s, y, actions[..n]);
      StuckStep(s, Run(s, y, actions[..n]), actions[n]);
    }
  }

  /** The cache is stuck in a reachable state exactly when some fetch was abandoned. */
  lemma StuckIffAbandoned(s: Settings, clock: Time, actions: seq<Action>)
    ensures var y := Run(s, Start(clock), actions);
            Stuck(y) <==> exists i :: 0 <= i < |y.log| && y.log[i].Abandoned?
  {
    hide Run, LogGood, CacheGood, SomeFetcher;
    InterleavingGood(s, clock, actions);
    LostIff(Run(s, Start(clock), actions).log);
  }

  lemma TwoSteps(s: Settings, y: System, a: Action, b: Action)
    ensures Run(s, y, [a, b]) == Step(s, Step(s, y, a), b)
  {
    hide Step;
    assert [a, b][..1] == [a] && [a][..0] == [];
    assert Run(s, y, []) == y && Run(s, y, [a]) == Step(s, y, a);
  }

  lemma FirstLookupFetches(s: Settings, kid: Kid, now: Time)
    requires now >= 0
    ensures Lookup(s, EmptyCache(), kid, now) == (EmptyCache().(refreshing := true), StartFetch)
  {
    hide Remember, Remove;
  }

  /** The shortest such run: one lookup that starts a fetch, and the fetch is abandoned. */
  lemma AbandonSticks(s: Settings, clock: Time, kid: Kid)
    requires clock >= 0
    ensures Stuck(Run(s, Start(clock), [Enter(0, kid, clock), Abandon(0, clock)]))
  {
    hide Lookup, Run;
    TwoSteps(s, Start(clock), Enter(0, kid, clock), Abandon(0, clock));
    FirstLookupFetches(s, kid, clock);
  }

  lemma {:induction false} LostIff(log: seq<Entry>)
    ensures Lost(log) <==> exists i :: 0 <= i < |log| && log[i].Abandoned?
  {
    if log != [] {
      var n := |log| - 1;
      LostIff(log[..n]);
      assert forall i :: 0 <= i < n ==> log[..n][i] == log[i];
    }
  }

  // ----- every interleaving -----

  /** Under any interleaving of threads every reachable state of the cache is good. */
  lemma {:induction false} InterleavingGood(s: Settings, clock: Time, actions: seq<Action>)
    ensures Good(s, Run(s, Start(clock), actions))
  {
    hide Good, Entered, Answered, Dropped, Stuck;
    if actions == [] {
      StartGood(s, clock);
    } else {
      InterleavingGood(s, clock, actions[..|actions| - 1]);
      var before := Run(s, Start(clock), actions[..|actions| - 1]);
      var a := actions[|actions| - 1];
      if Enabled(before, a) {
        match a
        case Enter(thread, kid, now) => EnteredKeeps(s, before, thread, kid, now);
        case Answer(thread, fetched, now) => AnsweredKeeps(s, before, thread, PhaseOf(before, thread).kid, fetched,
                                                           now);
        case Abandon(thread, now) => DroppedKeeps(s, before, thread, now);
      }
    }
  }

  // ----- what the log then says -----

  /** At most one fetch is in flight at any time, by the threads and by the log. */
  lemma SingleFlight(s: Settings, clock: Time, actions: seq<Action>, a: Thread, b: Thread)
    ensures var y := Run(s, Start(clock), actions);
            && (PhaseOf(y, a).Fetching? && PhaseOf(y, b).Fetching? ==> a == b)
            && 0 <= InFlight(y.log) <= 1
  {
    hide Run, LogGood;
    InterleavingGood(s, clock, actions);
  }

  /** A fetch starts only with none in flight and no earlier than the cooldown after the previous one finished. */
  lemma FetchesKeepCooldown(s: Settings, clock: Time, actions: seq<Action>, i: nat)
    requires i < |Run(s, Start(clock), actions).log| && Run(s, Start(clock), actions).log[i].Started?
    ensures var log := Run(s, Start(clock), actions).log;
            && InFlight(log[..i]) == 0
            && (LastFinish(log[..i]).Some? ==> log[i].at >= LastFinish(log[..i]).value + s.cooldown)
  {
    hide Run, OneFetcher, CacheGood;
    InterleavingGood(s, clock, actions);
    assert EntryGood(s, Run(s, Start(clock), actions).log, i);
  }

  /** A returned key is the latest successful fetch's key of that id, unexpired when the lifetime is positive. */
  lemma ReturnedKeyIsLatest(s: Settings, clock: Time, actions: seq<Action>, i: nat)
    requires s.ttl > 0
    requires i < |Run(s, Start(clock), actions).log| && Run(s, Start(clock), actions).log[i].Returned?
    requires Run(s, Start(clock), actions).log[i].key.Some?
    ensures var log := Run(s, Start(clock), actions).log;
            && LastSuccess(log[..i]).Some? && log[i].kid in LastSuccess(log[..i]).value.1
            && LastSuccess(log[..i]).value.1[log[i].kid] == log[i].key.value
            && log[i].at < LastSuccess(log[..i]).value.0 + s.ttl
  {
    hide Run, OneFetcher, CacheGood;
    InterleavingGood(s, clock, actions);
    assert EntryGood(s, Run(s, Start(clock), actions).log, i);
  }

  /**
   The key a fetch answers is unexpired exactly when the lifetime is positive: otherwise it is
   returned already expired.
   */
  lemma AnswerUnexpiredIff(s: Settings, c: Cache, kid: Kid, fetched: Option<map<Kid, Key>>, now: Time)
    requires Complete(s, c, kid, fetched, now).1.Some?
    ensures now < Complete(s, c, kid, fetched, now).0.expiresAt <==> s.ttl > 0
  {
  }

  /** Such a run: with a lifetime of zero the first fetched key is returned at the moment at which it expires. */
  lemma ZeroLifetimeReturnsExpired(s: Settings, clock: Time, kid: Kid, key: Key)
    requires s.ttl == 0 && clock >= 0
    ensures var y := Run(s, Start(clock), [Enter(0, kid, clock), Answer(0, Some(map[kid := key]), clock)]);
            && |y.log| > 0 && y.log[|y.log| - 1] == Returned(clock, kid, Some(key))
            && y.cache.keys == map[kid := key] && y.cache.expiresAt == clock
  {
    hide Lookup, Run, Remember;
    TwoSteps(s, Start(clock), Enter(0, kid, clock), Answer(0, Some(map[kid := key]), clock));
    FirstLookupFetches(s, kid, clock);
  }

  /** The table of unknown ids never exceeds its bound and names no id twice. */
  lemma UnknownBounded(s: Settings, clock: Time, actions: seq<Action>)
    ensures var u := Run(s, Start(clock), actions).cache.unknown;
            |u| <= s.maxNegative && DistinctKids(u)
  {
    hide Run, OneFetcher, LogGood, DistinctKids;
    InterleavingGood(s, clock, actions);
  }

  /** An id a fetch did not bring is answered None for the negative lifetime, without a fetch and without a change. */
  lemma UnknownAnsweredAgain(s: Settings, c: Cache, kid: Kid, fetched: Option<map<Kid, Key>>, now: Time, later: Time)
    requires DistinctKids(c.unknown) && |c.unknown| <= s.maxNegative && s.maxNegative > 0
    requires Complete(s, c, kid, fetched, now).1.None? && now <= later < now + s.negativeTtl
    ensures var c1 := Complete(s, c, kid, fetched, now).0;
            (kid in c1.keys && later < c1.expiresAt) || Lookup(s, c1, kid, later) == (c1, Return(None))
  {
  }

  // ----- exactly what a lookup and a fetch do -----

  /** The id is taken out of the table and every other entry keeps its place. */
  ghost predicate Forgets(u: Unknown, v: Unknown, kid: Kid) {
    if forall i :: 0 <= i < |u| ==> u[i].0 != kid then v == u
    else exists i :: 0 <= i < |u| && u[i].0 == kid && v == u[..i] + u[i + 1..]
  }

  lemma {:induction false} RemoveAbsent(u: Unknown, kid: Kid)
    requires forall i :: 0 <= i < |u| ==> u[i].0 != kid
    ensures Remove(u, kid) == u
  {
    if u != [] { RemoveAbsent(u[..|u| - 1], kid); }
  }

  lemma {:induction false} RemoveAt(u: Unknown, kid: Kid, i: nat)
    requires DistinctKids(u) && i < |u| && u[i].0 == kid
    ensures Remove(u, kid) == u[..i] + u[i + 1..]
  {
    var n := |u| - 1;
    if i == n {
      RemoveAbsent(u[..n], kid);
      assert u[n + 1..] == [];
    } else {
      RemoveAt(u[..n], kid, i);
      assert u[..n][..i] == u[..i] && u[..n][i + 1..] + [u[n]] == u[i + 1..];
    }
  }

  lemma RemoveForgets(u: Unknown, kid: Kid)
    requires DistinctKids(u)
    ensures Forgets(u, Remove(u, kid), kid)
  {
    hide Remove, DistinctKids;
    if i :| 0 <= i < |u| && u[i].0 == kid {
      RemoveAt(u, kid, i);
    } else {
      RemoveAbsent(u, kid);
    }
  }

  /** The id becomes the newest entry, for the negative lifetime, and the oldest over the bound are dropped. */
  ghost predicate Remembers(s: Settings, u: Unknown, v: Unknown, kid: Kid, now: Time) {
    exists w ::
      && Forgets(u, w, kid) && |v| == Min(|w| + 1, s.maxNegative)
      && v == (w + [(kid, now + s.negativeTtl)])[|w| + 1 - |v|..]
  }

  lemma RememberRemembers(s: Settings, u: Unknown, kid: Kid, now: Time)
    requires DistinctKids(u) && |u| <= s.maxNegative
    ensures Remembers(s, u, Remember(s, u, kid, now), kid, now)
  {
    hide Remove, Forgets;
    RemoveForgets(u, kid);
    var w := Remove(u, kid);
    if s.maxNegative == 0 { assert (w + [(kid, now + s.negativeTtl)])[|w| + 1..] == []; }
    assert Forgets(u, w, kid);
  }

  lemma ForgetTwice(s: Settings, u: Unknown, kid: Kid, now: Time)
    requires |u| <= s.maxNegative
    ensures Remember(s, Remove(u, kid), kid, now) == Remember(s, u, kid, now)
  {
    RemoveShrinks(u, kid);
    RemoveAbsent(Remove(u, kid), kid);
  }

  ghost predicate KnownUnknown(u: Unknown, kid: Kid, now: Time) {
    exists i :: 0 <= i < |u| && u[i].0 == kid && now < u[i].1
  }

  /**
   What one lookup does, in every case: a cached, unexpired key and a remembered unknown id are
   answered at once and change nothing; within the cooldown the id is remembered and answered
   None; otherwise it is forgotten and the call waits for the fetch in flight or starts one.
   */
  lemma LookupAnswers(s: Settings, c: Cache, kid: Kid, now: Time)
    requires DistinctKids(c.unknown) && |c.unknown| <= s.maxNegative
    ensures var (c1, d) := Lookup(s, c, kid, now);
            if kid in c.keys && now < c.expiresAt then c1 == c && d == Return(Some(c.keys[kid]))
            else if KnownUnknown(c.unknown, kid, now) then c1 == c && d == Return(None)
            else if now < c.nextRefreshAt then
              && d == Return(None) && c1 == c.(unknown := c1.unknown)
              && Remembers(s, c.unknown, c1.unknown, kid, now)
            else
              && d == (if c.refreshing then Wait else StartFetch)
              && c1 == c.(unknown := c1.unknown, refreshing := true) && Forgets(c.unknown, c1.unknown, kid)
  {
    hide Remembers, Forgets, Remember, Remove;
    var until := Until(c.unknown, kid);
    UntilDecides(c.unknown, kid, now);
    RemoveShrinks(c.unknown, kid);
    RemoveForgets(c.unknown, kid);
    NothingToForget(c.unknown, kid);
    var u := if until.Some? then Remove(c.unknown, kid) else c.unknown;
    RememberRemembers(s, c.unknown, kid, now);
    ForgetTwice(s, c.unknown, kid, now);
  }

  lemma NothingToForget(u: Unknown, kid: Kid)
    ensures Until(u, kid).None? ==> Forgets(u, u, kid)
  {
    UntilFinds(u, kid);
  }

  lemma UntilDecides(u: Unknown, kid: Kid, now: Time)
    requires DistinctKids(u)
    ensures KnownUnknown(u, kid, now) <==> Until(u, kid).Some? && now < Until(u, kid).value
  {
    UntilFinds(u, kid);
  }

  /** What a finished fetch stores and answers: the cooldown starts, and a new key set replaces the old one whole. */
  lemma CompleteStores(s: Settings, c: Cache, kid: Kid, fetched: Option<map<Kid, Key>>, now: Time)
    requires DistinctKids(c.unknown) && |c.unknown| <= s.maxNegative
    ensures var (c1, key) := Complete(s, c, kid, fetched, now);
            && (key.Some? <==> fetched.Some? && kid in fetched.value)
            && (key.Some? ==> key.value == fetched.value[kid] && c1.unknown == c.unknown)
            && (key.None? ==> Remembers(s, c.unknown, c1.unknown, kid, now))
            && c1.nextRefreshAt == now + s.cooldown && !c1.refreshing
            && (fetched.Some? ==> c1.keys == fetched.value && c1.expiresAt == now + s.ttl)
            && (fetched.None? ==> c1.keys == c.keys && c1.expiresAt == c.expiresAt)
  {
    hide Remembers, Remember;
    RememberRemembers(s, c.unknown, kid, now);
  }

  // ----- a known key is never denied -----

  /** The thread in the fetch had no unexpired key of its id when it started, and has none yet. */
  ghost predicate FetcherWants(y: System) {
    forall t :: t in y.phases && y.phases[t].Fetching? ==>
      y.phases[t].kid !in y.cache.keys || y.cache.expiresAt <= y.clock
  }

  /** The latest successful fetch brought no key of the id that is still unexpired. */
  ghost predicate Unavailable(s: Settings, log: seq<Entry>, kid: Kid, at: Time) {
    LastSuccess(log).Some? && kid in LastSuccess(log).value.1 ==> LastSuccess(log).value.0 + s.ttl <= at
  }

  ghost predicate DeniesOnlyUnavailable(s: Settings, log: seq<Entry>) {
    forall i :: 0 <= i < |log| && log[i].Returned? && log[i].key.None? ==>
      Unavailable(s, log[..i], log[i].kid, log[i].at)
  }

  lemma DeniesAdded(s: Settings, log: seq<Entry>, e: Entry)
    requires DeniesOnlyUnavailable(s, log)
    requires e.Returned? && e.key.None? ==> Unavailable(s, log, e.kid, e.at)
    ensures DeniesOnlyUnavailable(s, log + [e])
  {
    hide Unavailable;
    var log1 := log + [e];
    forall i | 0 <= i < |log1| && log1[i].Returned? && log1[i].key.None?
      ensures Unavailable(s, log1[..i], log1[i].kid, log1[i].at)
    {
      assert log1[..i] == log[..i];
      if i == |log| { assert log[..i] == log; }
    }
  }

  /** Under any interleaving a key of the latest successful fetch is never answered None before it expires. */
  lemma NeverDenied(s: Settings, clock: Time, actions: seq<Action>, i: nat)
    requires i < |Run(s, Start(clock), actions).log|
    requires Run(s, Start(clock), actions).log[i].Returned? && Run(s, Start(clock), actions).log[i].key.None?
    ensures var log := Run(s, Start(clock), actions).log;
            Unavailable(s, log[..i], log[i].kid, log[i].at)
  {
    hide Run, Unavailable;
    AlwaysFair(s, clock, actions);
  }

  lemma {:induction false} AlwaysFair(s: Settings, clock: Time, actions: seq<Action>)
    ensures var y := Run(s, Start(clock), actions);
            FetcherWants(y) && DeniesOnlyUnavailable(s, y.log)
  {
    hide Good, Entered, Answered, FetcherWants, DeniesOnlyUnavailable;
    if actions == [] {
      StartFair(s, clock);
    } else {
      var front := actions[..|actions| - 1];
      AlwaysFair(s, clock, front);
      InterleavingGood(s, clock, front);
      var before := Run(s, Start(clock), front);
      var a := actions[|actions| - 1];
      if Enabled(before, a) {
        match a
        case Enter(thread, kid, now) => EnteredFair(s, before, thread, kid, now);
        case Answer(thread, fetched, now) => AnsweredFair(s, before, thread, fetched, now);
        case Abandon(thread, now) => DroppedFair(s, before, thread, now);
      }
    }
  }

  lemma StartFair(s: Settings, clock: Time)
    ensures FetcherWants(Start(clock)) && DeniesOnlyUnavailable(s, Start(clock).log)
  {
  }

  lemma EnteredFair(s: Settings, y: System, thread: Thread, kid: Kid, now: Time)
    requires Good(s, y) && FetcherWants(y) && DeniesOnlyUnavailable(s, y.log) && y.clock <= now
    requires !PhaseOf(y, thread).Fetching?
    ensures var z := Entered(s, y, thread, kid, now);
            FetcherWants(z) && DeniesOnlyUnavailable(s, z.log)
  {
    hide Lookup, LogGood, OneFetcher, DistinctKids, DeniesOnlyUnavailable, Remembers, Forgets, KnownUnknown;
    LookupAnswers(s, y.cache, kid, now);
    var (c, d) := Lookup(s, y.cache, kid, now);
    match d
    case Return(key) => DeniesAdded(s, y.log, Returned(now, kid, key));
    case Wait =>
    case StartFetch => DeniesAdded(s, y.log, Started(now));
  }

  lemma AnsweredFair(s: Settings, y: System, thread: Thread, fetched: Option<map<Kid, Key>>, now: Time)
    requires Good(s, y) && FetcherWants(y) && DeniesOnlyUnavailable(s, y.log) && y.clock <= now
    requires PhaseOf(y, thread).Fetching?
    ensures var z := Answered(s, y, thread, PhaseOf(y, thread).kid, fetched, now);
            FetcherWants(z) && DeniesOnlyUnavailable(s, z.log)
  {
    hide Complete, LogGood, DistinctKids, DeniesOnlyUnavailable, Remembers;
    var kid := PhaseOf(y, thread).kid;
    CompleteStores(s, y.cache, kid, fetched, now);
    var key := Complete(s, y.cache, kid, fetched, now).1;
    var mid := y.log + [Finished(now, fetched)];
    Appended(y.log, Finished(now, fetched));
    DeniesAdded(s, y.log, Finished(now, fetched));
    DeniesAdded(s, mid, Returned(now, kid, key));
    assert mid + [Returned(now, kid, key)] == y.log + [Finished(now, fetched), Returned(now, kid, key)];
    OneFetcherEnds(y.phases, y.cache.refreshing, Lost(y.log), thread, false);
  }

  lemma DroppedFair(s: Settings, y: System, thread: Thread, now: Time)
    requires FetcherWants(y) && DeniesOnlyUnavailable(s, y.log) && y.clock <= now
    ensures FetcherWants(Dropped(y, thread, now)) && DeniesOnlyUnavailable(s, Dropped(y, thread, now).log)
  {
    DeniesAdded(s, y.log, Abandoned(now));
  }

  /** The log tells time in order. */
  lemma {:induction false} LogInOrder(s: Settings, clock: Time, actions: seq<Action>)
    ensures var y := Run(s, Start(clock), actions);
            && clock <= y.clock
            && (forall i, j :: 0 <= i < j < |y.log| ==> y.log[i].at <= y.log[j].at)
            && (forall i :: 0 <= i < |y.log| ==> y.log[i].at <= y.clock)
  {
    hide Lookup, Complete;
    if actions != [] { LogInOrder(s, clock, actions[..|actions| - 1]); }
  }

  // ----- the object -----

  class KeyCache {
    const settings: Settings
    var keys: map<Kid, Key>
    var expiresAt: Time
    var unknown: Unknown
    var nextRefreshAt: Time
    var refreshing: bool

    constructor (settings: Settings)
      ensures State() == EmptyCache() && this.settings == settings
    {
      this.settings := settings;
      keys, expiresAt, unknown, nextRefreshAt, refreshing := map[], 0, [], 0, false;
    }

    function State(): Cache
      reads this
    {
      Cache(keys, expiresAt, unknown, nextRefreshAt, refreshing)
    }

    /** Makes the id the newest entry and drops the oldest ones over the bound. */
    method RememberUnknown(kid: Kid, now: Time)
      modifies `unknown
      ensures unknown == Remember(settings, old(unknown), kid, now)
    {
      hide Remove;
      if settings.maxNegative == 0 { return; }
      unknown := Remove(unknown, kid) + [(kid, now + settings.negativeTtl)];
      ghost var all := unknown;
      while |unknown| > settings.maxNegative
        invariant |unknown| <= |all| && unknown == all[|all| - |unknown|..]
        invariant |all| > settings.maxNegative ==> |unknown| >= settings.maxNegative
        invariant |all| <= settings.maxNegative ==> unknown == all
      {
        unknown := unknown[1..];
      }
    }

    /** The first critical section of get_key. */
    method Look(kid: Kid, now: Time) returns (d: Decision)
      modifies this
      ensures (State(), d) == Lookup(settings, old(State()), kid, now)
    {
      hide Remember, Remove, Until;
      if kid in keys && now < expiresAt { return Return(Some(keys[kid])); }
      var until := Until(unknown, kid);
      if until.Some? {
        if now < until.value { return Return(None); }
        unknown := Remove(unknown, kid);
      }
      if now < nextRefreshAt {
        RememberUnknown(kid, now);
        return Return(None);
      }
      if refreshing { return Wait; }
      refreshing := true;
      return StartFetch;
    }

    /** The second critical section of get_key, after the fetch. */
    method Finish(kid: Kid, fetched: Option<map<Kid, Key>>, now: Time) returns (key: Option<Key>)
      modifies this
      ensures (State(), key) == Complete(settings, old(State()), kid, fetched, now)
    {
      hide Remember;
      nextRefreshAt := now + settings.cooldown;
      key := None;
      if fetched.Some? {
        keys := fetched.value;
        expiresAt := now + settings.ttl;
        if kid in fetched.value { key := Some(fetched.value[kid]); }
      }
      if key.None? { RememberUnknown(kid, now); }
      refreshing := false;
    }
  }
}
