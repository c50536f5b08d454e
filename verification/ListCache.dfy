/**
 * Concurrent callers of ListToolsCached (pkg/mcpclient/tools_list_cache.go). A call reads the clock,
 * looks into the cache, fetches (alone or by joining the open fetch of its key) and stores what the
 * fetch brought under the clock it read first. Other calls, invalidations and the passing of time
 * come in between any two of these.
 */
module ListCache {

  import opened Options
  import opened ToolsCache

  /** A fetched list, the moment its fetch finished, and how many steps the run had made when it began and ended. */
  datatype Listing = Listing(key: Key, tools: seq<string>, at: int, begun: nat, ended: nat)

  datatype Flight =
    | Running(key: Key, begun: nat)
    | Broken(key: Key, begun: nat)
    | Done(key: Key, begun: nat, listing: Listing)

  datatype Call =
    | Looking(key: Key, ttl: int, now: int)
    | Missed(key: Key, ttl: int, now: int)
    | Waiting(key: Key, ttl: int, now: int, flight: nat)
    | Served(key: Key, now: int, listing: Listing, storedTtl: int)
    | Returned(key: Key, listing: Listing)
    | GaveUp(key: Key)

  /** `ttls` remembers the ttl each entry was stored with; `open` is the fetch a new caller joins. */
  datatype State = State(
    clock: int,
    steps: nat,
    entries: map<Key, Entry<Listing>>,
    ttls: map<Key, int>,
    open: map<Key, nat>,
    flights: seq<Flight>,
    calls: map<nat, Call>
  )

  datatype Step =
    | Tick(elapsed: nat)
    | Begin(call: nat, key: Key, ttl: int)
    | Look(call: nat)
    | Fetch(call: nat, coalesced: bool)
    | Finish(flight: nat, result: Result<seq<string>>)
    | Receive(call: nat)
    | Invalidate(id: int)

  const START := State(0, 0, map[], map[], map[], [], map[])

  predicate Enabled(s: State, step: Step) {
    match step
    case Tick(_) => true
    case Begin(c, key, _) => c !in s.calls && key.id > 0
    case Look(c) => c in s.calls && s.calls[c].Looking?
    case Fetch(c, _) => c in s.calls && s.calls[c].Missed?
    case Finish(f, _) => f < |s.flights| && s.flights[f].Running?
    case Receive(c) =>
      c in s.calls && s.calls[c].Waiting? && s.calls[c].flight < |s.flights|
      && !s.flights[s.calls[c].flight].Running?
    case Invalidate(_) => true
  }

  function LookInto(s: State, call: Call): Call
    requires call.Looking?
  {
    match Hit(s.entries, call.key, call.now)
    case Some(listing) =>
      Served(call.key, call.now, listing, if call.key in s.ttls then s.ttls[call.key] else 0)
    case None => Missed(call.key, call.ttl, call.now)
  }

  function Fetched(s: State, c: nat, call: Call, coalesced: bool): State
    requires call.Missed?
  {
    if coalesced && call.key in s.open then
      s.(calls := s.calls[c := Waiting(call.key, call.ttl, call.now, s.open[call.key])])
    else
      s.(calls := s.calls[c := Waiting(call.key, call.ttl, call.now, |s.flights|)],
         flights := s.flights + [Running(call.key, s.steps)],
         open := if coalesced then s.open[call.key := |s.flights|] else s.open)
  }

  function Finished(s: State, f: nat, result: Result<seq<string>>): State
    requires f < |s.flights|
  {
    var key, begun := s.flights[f].key, s.flights[f].begun;
    var flight := if result.Ok? then Done(key, begun, Listing(key, result.value, s.clock, begun, s.steps))
                  else Broken(key, begun);
    s.(flights := s.flights[f := flight],
       open := if key in s.open && s.open[key] == f then s.open - {key} else s.open)
  }

  function Received(s: State, c: nat, call: Call): State
    requires call.Waiting? && call.flight < |s.flights|
  {
    match s.flights[call.flight]
    case Done(_, _, listing) =>
      s.(entries := Stored(s.entries, call.key, listing, call.now, call.ttl),
         ttls := s.ttls[call.key := call.ttl],
         calls := s.calls[c := Returned(call.key, listing)])
    case _ => s.(calls := s.calls[c := GaveUp(call.key)])
  }

  function Apply(s: State, step: Step): State
    requires Enabled(s, step)
  {
    match step
    case Tick(elapsed) => s.(clock := s.clock + elapsed)
    case Begin(c, key, ttl) => s.(calls := s.calls[c := Looking(key, Ttl(ttl), s.clock)])
    case Look(c) => s.(calls := s.calls[c := LookInto(s, s.calls[c])])
    case Fetch(c, coalesced) => Fetched(s, c, s.calls[c], coalesced)
    case Finish(f, result) => Finished(s, f, result)
    case Receive(c) => Received(s, c, s.calls[c])
    case Invalidate(id) => s.(entries := Invalidated(s.entries, id))
  }

  function Next(s: State, step: Step): State
    requires Enabled(s, step)
  {
    Apply(s, step).(steps := s.steps + 1)
  }

  /** Whether a run can be made from a state, and where it leads. */
  predicate CanRun(s: State, run: seq<Step>)
    decreases |run|
  {
    run == [] || (Enabled(s, run[0]) && CanRun(Next(s, run[0]), run[1..]))
  }

  function RunFrom(s: State, run: seq<Step>): State
    requires CanRun(s, run)
    decreases |run|
  {
    if run == [] then s else RunFrom(Next(s, run[0]), run[1..])
  }

  // ----- The invariant

  predicate EntryOk(s: State, k: Key) {
    k in s.entries ==>
      && k in s.ttls
      && s.entries[k].tools.key == k
      && s.entries[k].tools.at <= s.clock
      && s.entries[k].until <= s.entries[k].tools.at + s.ttls[k]
  }

  predicate FlightOk(s: State, f: nat) {
    && (f < |s.flights| ==> s.flights[f].begun < s.steps)
    && (f < |s.flights| && s.flights[f].Done? ==>
      s.flights[f].listing.key == s.flights[f].key && s.flights[f].listing.at <= s.clock
      && s.flights[f].listing.ended < s.steps && s.flights[f].listing.begun == s.flights[f].begun)
  }

  predicate OpenOk(s: State, k: Key) {
    k in s.open ==> s.open[k] < |s.flights| && s.flights[s.open[k]].Running? && s.flights[s.open[k]].key == k
  }

  predicate CallOk(s: State, c: nat) {
    c in s.calls ==>
      match s.calls[c]
      case Looking(_, _, now) => now <= s.clock
      case Missed(_, _, now) => now <= s.clock
      case Waiting(key, _, now, f) =>
        && now <= s.clock && f < |s.flights| && s.flights[f].key == key
        && (s.flights[f].Done? ==> now <= s.flights[f].listing.at)
      case Served(key, now, listing, storedTtl) => listing.key == key && now - storedTtl < listing.at <= s.clock
      case _ => true
  }

  ghost predicate EntriesOk(s: State) {
    forall k :: EntryOk(s, k)
  }

  ghost predicate FlightsOk(s: State) {
    forall f :: FlightOk(s, f)
  }

  ghost predicate OpensOk(s: State) {
    forall k :: OpenOk(s, k)
  }

  ghost predicate CallsOk(s: State) {
    forall c :: CallOk(s, c)
  }

  ghost predicate Inv(s: State) {
    EntriesOk(s) && FlightsOk(s) && OpensOk(s) && CallsOk(s) && OneFingerprint(s.entries)
  }

  lemma EntryKept(s: State, step: Step, k: Key)
    requires Inv(s) && Enabled(s, step)
    ensures EntryOk(Next(s, step), k)
  {
    assert EntryOk(s, k);
    if step.Receive? {
      var call := s.calls[step.call];
      assert CallOk(s, step.call) && FlightOk(s, call.flight);
    }
    hide Inv, OneFingerprint;
  }

  lemma FingerprintKept(s: State, step: Step)
    requires OneFingerprint(s.entries) && Enabled(s, step)
    ensures OneFingerprint(Next(s, step).entries)
  {
    if step.Receive? {
      var call := s.calls[step.call];
      if s.flights[call.flight].Done? {
        StoredOneFingerprint(s.entries, call.key, s.flights[call.flight].listing, call.now, call.ttl);
      }
    }
    hide Stored, Hit;
  }

  lemma FlightKept(s: State, step: Step, f: nat)
    requires Inv(s) && Enabled(s, step)
    ensures FlightOk(Next(s, step), f)
  {
    hide Stored, Hit, Invalidated, Ttl;
    assert FlightOk(s, f);
    hide Inv;
  }

  lemma OpenKept(s: State, step: Step, k: Key)
    requires Inv(s) && Enabled(s, step)
    ensures OpenOk(Next(s, step), k)
  {
    hide Stored, Hit, Invalidated, Ttl;
    assert OpenOk(s, k);
    hide Inv;
  }

  /** The step is one of the call itself. */
  predicate Acts(step: Step, c: nat) {
    (step.Begin? || step.Look? || step.Fetch? || step.Receive?) && step.call == c
  }

  lemma OwnStepKeepsCall(s: State, step: Step, c: nat)
    requires Inv(s) && Enabled(s, step) && Acts(step, c)
    ensures CallOk(Next(s, step), c)
  {
    hide Stored, Invalidated, Ttl, Finished;
    assert CallOk(s, c);
    if c in s.calls {
      assert EntryOk(s, s.calls[c].key) && OpenOk(s, s.calls[c].key);
    }
    hide Inv;
  }

  lemma OtherStepLeavesCall(s: State, step: Step, c: nat)
    requires Enabled(s, step) && !Acts(step, c)
    ensures var t := Next(s, step);
            && (c in t.calls <==> c in s.calls)
            && (c in s.calls ==> t.calls[c] == s.calls[c])
            && s.clock <= t.clock && |s.flights| <= |t.flights|
  {
    hide Stored, Invalidated, Ttl, LookInto;
  }

  /** A flight keeps its key; it only ever changes from running to finished, at the clock and step of that change. */
  lemma FlightMoves(s: State, step: Step, f: nat)
    requires Enabled(s, step) && f < |s.flights|
    ensures var t := Next(s, step);
            && f < |t.flights| && t.flights[f].key == s.flights[f].key
            && t.flights[f].begun == s.flights[f].begun
            && (t.flights[f] == s.flights[f]
                || (s.flights[f].Running? && !t.flights[f].Running?
                    && (t.flights[f].Done? ==>
                          && t.flights[f].listing.at == s.clock && t.flights[f].listing.ended == s.steps
                          && t.flights[f].listing.begun == s.flights[f].begun)))
  {
    hide Stored, Invalidated, Ttl, LookInto;
  }

  lemma CallKept(s: State, step: Step, c: nat)
    requires Inv(s) && Enabled(s, step)
    ensures CallOk(Next(s, step), c)
  {
    hide Next, Enabled;
    if Acts(step, c) {
      OwnStepKeepsCall(s, step, c);
    } else {
      OtherStepLeavesCall(s, step, c);
      assert CallOk(s, c);
      if c in s.calls && s.calls[c].Waiting? {
        FlightMoves(s, step, s.calls[c].flight);
      }
    }
    hide Inv;
  }

  lemma StepKeepsInv(s: State, step: Step)
    requires Inv(s) && Enabled(s, step)
    ensures Inv(Next(s, step))
  {
    hide Next, Enabled, EntryOk, FlightOk, OpenOk, CallOk;
    FingerprintKept(s, step);
    forall k
      ensures EntryOk(Next(s, step), k) && OpenOk(Next(s, step), k)
    {
      EntryKept(s, step, k);
      OpenKept(s, step, k);
    }
    forall i
      ensures FlightOk(Next(s, step), i) && CallOk(Next(s, step), i)
    {
      FlightKept(s, step, i);
      CallKept(s, step, i);
    }
  }

  lemma {:induction false} RunKeepsInv(s: State, run: seq<Step>)
    requires Inv(s) && CanRun(s, run)
    ensures Inv(RunFrom(s, run))
    decreases |run|
  {
    hide Inv, Next, Enabled;
    if run != [] {
      StepKeepsInv(s, run[0]);
      RunKeepsInv(Next(s, run[0]), run[1..]);
    }
  }

  // ----- Main results

  /**
   * In every run a hit at time t serves a list of the same server and fingerprint whose fetch finished
   * after t minus the ttl it was stored with, and no server has two fingerprints in the cache.
   */
  lemma HitsAreFresh(run: seq<Step>, c: nat)
    requires CanRun(START, run)
    ensures var s := RunFrom(START, run);
            && OneFingerprint(s.entries)
            && (c in s.calls && s.calls[c].Served? ==>
                  && s.calls[c].listing.key == s.calls[c].key
                  && s.calls[c].now - s.calls[c].storedTtl < s.calls[c].listing.at <= s.clock)
  {
    RunKeepsInv(START, run);
    assert CallOk(RunFrom(START, run), c);
  }

  /** A fetch lies before a step if it ended before it, or merely if it began before it. */
  datatype Since = Ended | Begun

  function Age(since: Since, listing: Listing): nat {
    if since.Ended? then listing.ended else listing.begun
  }

  /** A lookup about to be served a list whose fetch lies before step `n`. */
  predicate ServesStale(s: State, c: nat, id: int, since: Since, n: nat) {
    && c in s.calls && s.calls[c].Looking? && s.calls[c].key.id == id
    && var hit := Hit(s.entries, s.calls[c].key, s.calls[c].now);
       hit.Some? && Age(since, hit.value) < n
  }

  /** Nobody who reads the clock from now on, or has already read it, can hit an entry good until `until`. */
  ghost predicate Expired(s: State, key: Key, until: int) {
    && until <= s.clock
    && forall c :: c in s.calls && s.calls[c].Looking? && s.calls[c].key == key ==> until <= s.calls[c].now
  }

  /** A fetch that has brought, or may still bring, a list from before step `n`. */
  predicate Brings(s: State, f: nat, since: Since, n: nat) {
    f < |s.flights| &&
    match s.flights[f]
    case Running(_, begun) => since.Begun? && begun < n
    case Broken(_, _) => false
    case Done(_, _, listing) => Age(since, listing) < n
  }

  /** A call that will store such a list of the server. */
  predicate Holds(s: State, c: nat, id: int, since: Since, n: nat) {
    && c in s.calls && s.calls[c].Waiting? && s.calls[c].key.id == id
    && Brings(s, s.calls[c].flight, since, n)
  }

  /** The list a call will store would still be good once stored. */
  ghost predicate HoldsLive(s: State, c: nat, id: int, since: Since, n: nat) {
    Holds(s, c, id, since, n) && !Expired(s, s.calls[c].key, s.calls[c].now + s.calls[c].ttl)
  }

  /** Such a fetch is still open, so that new calls join it. */
  predicate OpenBrings(s: State, k: Key, id: int, since: Since, n: nat) {
    k in s.open && k.id == id && Brings(s, s.open[k], since, n)
  }

  ghost predicate SafeEntry(s: State, k: Key, id: int, since: Since, n: nat) {
    k in s.entries && k.id == id && Age(since, s.entries[k].tools) < n ==> Expired(s, k, s.entries[k].until)
  }

  ghost predicate Safe(s: State, id: int, since: Since, n: nat) {
    && n <= s.steps
    && (forall k :: SafeEntry(s, k, id, since, n))
    && (forall c :: !HoldsLive(s, c, id, since, n))
    && (forall k :: !OpenBrings(s, k, id, since, n))
  }

  lemma ExpiredKept(s: State, step: Step, key: Key, until: int)
    requires Enabled(s, step) && Expired(s, key, until)
    ensures Expired(Next(s, step), key, until)
  {
    hide Stored, Hit, Invalidated, Ttl;
  }

  lemma BringsKept(s: State, step: Step, f: nat, since: Since, n: nat)
    requires Enabled(s, step) && n <= s.steps && f < |s.flights| && Brings(Next(s, step), f, since, n)
    ensures Brings(s, f, since, n)
  {
    FlightMoves(s, step, f);
    hide Next, Enabled;
  }

  /** An entry was there before or is what a call has just received. */
  lemma EntryFrom(s: State, step: Step, k: Key)
    requires Enabled(s, step)
    ensures var t := Next(s, step);
            k in t.entries ==>
              || (k in s.entries && t.entries[k] == s.entries[k])
              || (step.Receive? && var call := s.calls[step.call];
                  && k == call.key && s.flights[call.flight].Done?
                  && t.entries[k] == Entry(s.flights[call.flight].listing, call.now + call.ttl))
  {
    hide Hit, Ttl;
  }

  lemma SafeEntryKept(s: State, step: Step, k: Key, id: int, since: Since, n: nat)
    requires Enabled(s, step) && Safe(s, id, since, n)
    ensures SafeEntry(Next(s, step), k, id, since, n)
  {
    assert SafeEntry(s, k, id, since, n);
    EntryFrom(s, step, k);
    if step.Receive? {
      assert !HoldsLive(s, step.call, id, since, n);
    }
    hide Expired, Safe, Next;
    if k in s.entries && Expired(s, k, s.entries[k].until) {
      ExpiredKept(s, step, k, s.entries[k].until);
    }
    if step.Receive? && Expired(s, s.calls[step.call].key, s.calls[step.call].now + s.calls[step.call].ttl) {
      ExpiredKept(s, step, s.calls[step.call].key, s.calls[step.call].now + s.calls[step.call].ttl);
    }
  }

  /** A call's own step brings it nothing from before: a fetch that it starts is new, and the open one is safe. */
  lemma OwnStepHoldsNothing(s: State, step: Step, c: nat, id: int, since: Since, n: nat)
    requires Enabled(s, step) && Acts(step, c) && Safe(s, id, since, n)
    ensures !Holds(Next(s, step), c, id, since, n)
  {
    if c in s.calls {
      assert !OpenBrings(s, s.calls[c].key, id, since, n);
    }
    hide Safe, Stored, Hit, Invalidated, Ttl, Finished;
  }

  lemma SafeCallKept(s: State, step: Step, c: nat, id: int, since: Since, n: nat)
    requires Inv(s) && Enabled(s, step) && Safe(s, id, since, n)
    ensures !HoldsLive(Next(s, step), c, id, since, n)
  {
    hide Next, Enabled, Brings;
    if Acts(step, c) {
      OwnStepHoldsNothing(s, step, c, id, since, n);
    } else {
      OtherStepLeavesCall(s, step, c);
      assert !HoldsLive(s, c, id, since, n) && CallOk(s, c);
      if c in s.calls && s.calls[c].Waiting? {
        if Brings(Next(s, step), s.calls[c].flight, since, n) {
          BringsKept(s, step, s.calls[c].flight, since, n);
        }
        if Expired(s, s.calls[c].key, s.calls[c].now + s.calls[c].ttl) {
          ExpiredKept(s, step, s.calls[c].key, s.calls[c].now + s.calls[c].ttl);
        }
      }
    }
    hide Inv, Safe, Expired;
  }

  lemma SafeOpenKept(s: State, step: Step, k: Key, id: int, since: Since, n: nat)
    requires Inv(s) && Enabled(s, step) && Safe(s, id, since, n)
    ensures !OpenBrings(Next(s, step), k, id, since, n)
  {
    assert !OpenBrings(s, k, id, since, n) && OpenOk(s, k);
    var t := Next(s, step);
    OpensFrom(s, step, k);
    hide Inv, Safe, Next, Enabled;
    if k in t.open && t.open[k] < |s.flights| && Brings(t, t.open[k], since, n) {
      BringsKept(s, step, t.open[k], since, n);
    }
  }

  /** An open fetch was open before or is new. */
  lemma OpensFrom(s: State, step: Step, k: Key)
    requires Enabled(s, step)
    ensures var t := Next(s, step);
            k in t.open ==> (k in s.open && t.open[k] == s.open[k])
                            || (t.open[k] == |s.flights| && |t.flights| == |s.flights| + 1
                                && t.flights[|s.flights|] == Running(k, s.steps))
  {
    hide Stored, Hit, Invalidated, Ttl;
  }

  lemma StepKeepsSafe(s: State, step: Step, id: int, since: Since, n: nat)
    requires Inv(s) && Enabled(s, step) && Safe(s, id, since, n)
    ensures Safe(Next(s, step), id, since, n)
  {
    hide Enabled, SafeEntry, HoldsLive, OpenBrings;
    forall k
      ensures SafeEntry(Next(s, step), k, id, since, n) && !OpenBrings(Next(s, step), k, id, since, n)
    {
      SafeEntryKept(s, step, k, id, since, n);
      SafeOpenKept(s, step, k, id, since, n);
    }
    forall c
      ensures !HoldsLive(Next(s, step), c, id, since, n)
    {
      SafeCallKept(s, step, c, id, since, n);
    }
    hide Inv, Apply;
  }

  lemma SafeServesNothingStale(s: State, c: nat, id: int, since: Since, n: nat)
    requires Safe(s, id, since, n)
    ensures !ServesStale(s, c, id, since, n)
  {
    if c in s.calls {
      assert SafeEntry(s, s.calls[c].key, id, since, n);
    }
  }

  lemma {:induction false} SafeRun(s: State, run: seq<Step>, c: nat, id: int, since: Since, n: nat)
    requires Inv(s) && Safe(s, id, since, n) && CanRun(s, run)
    ensures !ServesStale(RunFrom(s, run), c, id, since, n)
    decreases |run|
  {
    hide Inv, Safe, Next, Enabled;
    if run == [] {
      SafeServesNothingStale(s, c, id, since, n);
    } else {
      StepKeepsInv(s, run[0]);
      StepKeepsSafe(s, run[0], id, since, n);
      SafeRun(Next(s, run[0]), run[1..], c, id, since, n);
    }
  }

  lemma {:induction false} Unused(calls: set<nat>) returns (c: nat)
    ensures forall x :: x in calls ==> x < c
  {
    c := 0;
    var left := calls;
    while left != {}
      invariant left <= calls
      invariant forall x :: x in calls && x !in left ==> x < c
      decreases left
    {
      assert (forall x :: x !in left) ==> left == {};
      var x :| x in left;
      left := left - {x};
      c := if x < c then c else x + 1;
    }
  }

  /** What could be stored and served, seen from the moment before the invalidation. */
  ghost predicate Threatened(s: State, id: int, since: Since) {
    (exists c :: HoldsLive(s, c, id, since, s.steps)) || (exists k :: OpenBrings(s, k, id, since, s.steps))
  }

  lemma InvalidationIsSafe(s: State, id: int, since: Since)
    requires id > 0 && !Threatened(s, id, since)
    ensures Safe(Next(s, Invalidate(id)), id, since, s.steps)
  {
    var t := Next(s, Invalidate(id));
    forall c
      ensures !HoldsLive(t, c, id, since, s.steps)
    {
      assert !HoldsLive(s, c, id, since, s.steps);
    }
    forall k
      ensures !OpenBrings(t, k, id, since, s.steps)
    {
      assert !OpenBrings(s, k, id, since, s.steps);
    }
  }

  // ----- How a threat comes true

  lemma StepFirst(s: State, a: Step, run: seq<Step>)
    requires Enabled(s, a) && CanRun(Next(s, a), run)
    ensures CanRun(s, [a] + run) && RunFrom(s, [a] + run) == RunFrom(Next(s, a), run)
  {
    hide Enabled, Next;
    assert ([a] + run)[1..] == run;
  }

  /** Receiving a finished list puts it in the cache. */
  lemma ReceiveStores(s: State, c: nat)
    requires c in s.calls && s.calls[c].Waiting?
    requires s.calls[c].flight < |s.flights| && s.flights[s.calls[c].flight].Done?
    ensures var call := s.calls[c];
            && Enabled(s, Receive(c))
            && var t := Next(s, Receive(c));
               && t.clock == s.clock
               && t.calls == s.calls[c := Returned(call.key, s.flights[call.flight].listing)]
               && call.key in t.entries
               && t.entries[call.key] == Entry(s.flights[call.flight].listing, call.now + call.ttl)
  {
    hide Invalidated, LookInto, Fetched, Finished;
  }

  lemma BeginAndHit(t: State, looker: nat, key: Key, since: Since, n: nat)
    requires key.id > 0 && looker !in t.calls
    requires key in t.entries && t.clock < t.entries[key].until && Age(since, t.entries[key].tools) < n
    ensures Enabled(t, Begin(looker, key, 1)) && ServesStale(Next(t, Begin(looker, key, 1)), looker, key.id, since, n)
  {
    hide Stored, Invalidated, LookInto, Fetched, Finished;
  }

  /** A finished list that is stored is served to the next caller, or to one who has read the clock but not looked yet. */
  lemma StaleFromDone(s: State, c: nat, since: Since, n: nat) returns (run: seq<Step>, looker: nat)
    requires c in s.calls && s.calls[c].Waiting? && s.calls[c].key.id > 0
    requires s.calls[c].flight < |s.flights| && s.flights[s.calls[c].flight].Done?
    requires Age(since, s.flights[s.calls[c].flight].listing) < n
    requires !Expired(s, s.calls[c].key, s.calls[c].now + s.calls[c].ttl)
    ensures CanRun(s, run) && ServesStale(RunFrom(s, run), looker, s.calls[c].key.id, since, n)
  {
    hide Next, Enabled;
    var call := s.calls[c];
    ReceiveStores(s, c);
    var t := Next(s, Receive(c));
    if call.now + call.ttl <= s.clock {
      looker :| looker in s.calls && s.calls[looker].Looking? && s.calls[looker].key == call.key
                && s.calls[looker].now < call.now + call.ttl;
      run := [Receive(c)] + [];
      StepFirst(s, Receive(c), []);
    } else {
      looker := Unused(s.calls.Keys);
      assert looker !in s.calls.Keys;
      BeginAndHit(t, looker, call.key, since, n);
      StepFirst(t, Begin(looker, call.key, 1), []);
      StepFirst(s, Receive(c), [Begin(looker, call.key, 1)] + []);
      run := [Receive(c)] + ([Begin(looker, call.key, 1)] + []);
    }
  }

  /** A running fetch finishes and leaves everything else as it is. */
  lemma FinishBrings(s: State, f: nat)
    requires f < |s.flights| && s.flights[f].Running?
    ensures Enabled(s, Finish(f, Ok([])))
    ensures var t := Next(s, Finish(f, Ok([])));
            && t.clock == s.clock && t.calls == s.calls && |t.flights| == |s.flights|
            && t.flights[f].Done? && t.flights[f].listing.begun == s.flights[f].begun
  {
    hide Stored, Hit, Invalidated, LookInto, Fetched;
  }

  lemma StaleFromHeld(s: State, c: nat, id: int, since: Since, n: nat) returns (run: seq<Step>, looker: nat)
    requires id > 0 && HoldsLive(s, c, id, since, n)
    ensures CanRun(s, run) && ServesStale(RunFrom(s, run), looker, id, since, n)
  {
    hide Next, Enabled, ServesStale;
    var f := s.calls[c].flight;
    if s.flights[f].Running? {
      FinishBrings(s, f);
      var t := Next(s, Finish(f, Ok([])));
      run, looker := StaleFromDone(t, c, since, n);
      StepFirst(s, Finish(f, Ok([])), run);
      run := [Finish(f, Ok([]))] + run;
    } else {
      run, looker := StaleFromDone(s, c, since, n);
    }
  }

  /** A new call misses and joins the open fetch. */
  lemma JoinsOpen(s: State, c: nat, k: Key)
    requires c !in s.calls && k.id > 0 && k in s.open && k !in s.entries
    ensures Enabled(s, Begin(c, k, 1))
    ensures var s1 := Next(s, Begin(c, k, 1));
            && Enabled(s1, Look(c))
            && var s2 := Next(s1, Look(c));
               && Enabled(s2, Fetch(c, true))
               && var s3 := Next(s2, Fetch(c, true));
                  && s3.clock == s.clock && s3.flights == s.flights
                  && c in s3.calls && s3.calls[c] == Waiting(k, 1, s.clock, s.open[k])
  {
    hide Stored, Invalidated, Finished;
  }

  lemma StaleFromOpen(s: State, k: Key, id: int, since: Since, n: nat) returns (run: seq<Step>, looker: nat)
    requires id > 0 && OpenBrings(s, k, id, since, n) && k !in s.entries
    ensures CanRun(s, run) && ServesStale(RunFrom(s, run), looker, id, since, n)
  {
    hide Next, Enabled, ServesStale;
    var c := Unused(s.calls.Keys);
    assert c !in s.calls.Keys;
    JoinsOpen(s, c, k);
    var s1 := Next(s, Begin(c, k, 1));
    var s2 := Next(s1, Look(c));
    var s3 := Next(s2, Fetch(c, true));
    assert HoldsLive(s3, c, id, since, n);
    run, looker := StaleFromHeld(s3, c, id, since, n);
    StepFirst(s2, Fetch(c, true), run);
    StepFirst(s1, Look(c), [Fetch(c, true)] + run);
    StepFirst(s, Begin(c, k, 1), [Look(c)] + ([Fetch(c, true)] + run));
    run := [Begin(c, k, 1)] + ([Look(c)] + ([Fetch(c, true)] + run));
  }

  lemma InvalidationLeavesThreat(s: State, id: int, since: Since, n: nat)
    requires id > 0
    ensures var t := Next(s, Invalidate(id));
            && (forall c :: HoldsLive(s, c, id, since, n) ==> HoldsLive(t, c, id, since, n))
            && (forall k :: OpenBrings(s, k, id, since, n) ==> OpenBrings(t, k, id, since, n) && k !in t.entries)
  {
  }

  ghost predicate StaleCanBeServed(t: State, id: int, since: Since, n: nat) {
    exists run: seq<Step>, c :: CanRun(t, run) && ServesStale(RunFrom(t, run), c, id, since, n)
  }

  lemma StaleIff(s: State, id: int, since: Since)
    requires Inv(s) && id > 0
    ensures StaleCanBeServed(Next(s, Invalidate(id)), id, since, s.steps) <==> Threatened(s, id, since)
  {
    var t := Next(s, Invalidate(id));
    hide Inv, Next, HoldsLive, OpenBrings, ServesStale, Safe;
    if Threatened(s, id, since) {
      InvalidationLeavesThreat(s, id, since, s.steps);
      var run, looker := [], 0;
      if c :| HoldsLive(s, c, id, since, s.steps) {
        run, looker := StaleFromHeld(t, c, id, since, s.steps);
      } else {
        var k :| OpenBrings(s, k, id, since, s.steps);
        run, looker := StaleFromOpen(t, k, id, since, s.steps);
      }
      assert CanRun(t, run) && ServesStale(RunFrom(t, run), looker, id, since, s.steps);
    } else {
      InvalidationIsSafe(s, id, since);
      StepKeepsInv(s, Invalidate(id));
      forall run: seq<Step>, c | CanRun(t, run)
        ensures !ServesStale(RunFrom(t, run), c, id, since, s.steps)
      {
        SafeRun(t, run, c, id, since, s.steps);
      }
    }
  }

  /** A call that holds a finished list of the server, unstored, which would not have expired. */
  ghost predicate HoldsFinished(s: State, c: nat, id: int) {
    && c in s.calls && s.calls[c].Waiting? && s.calls[c].key.id == id
    && s.calls[c].flight < |s.flights| && s.flights[s.calls[c].flight].Done?
    && !Expired(s, s.calls[c].key, s.calls[c].now + s.calls[c].ttl)
  }

  /**
   * After an invalidation a list whose fetch finished before it can still be served as a hit exactly when, at
   * the invalidation, some call holds such a list, not yet stored, that would not have expired.
   */
  lemma StaleAfterInvalidationIff(s: State, id: int)
    requires Inv(s) && id > 0
    ensures StaleCanBeServed(Next(s, Invalidate(id)), id, Ended, s.steps) <==> exists c :: HoldsFinished(s, c, id)
  {
    StaleIff(s, id, Ended);
    forall c
      ensures HoldsLive(s, c, id, Ended, s.steps) <==> HoldsFinished(s, c, id)
    {
      if c in s.calls && s.calls[c].Waiting? {
        assert FlightOk(s, s.calls[c].flight);
      }
    }
    forall k
      ensures !OpenBrings(s, k, id, Ended, s.steps)
    {
      assert OpenOk(s, k);
    }
    hide Inv, HoldsLive, HoldsFinished, OpenBrings, StaleCanBeServed;
  }

  /** A call that waits for a fetch, not failed, whose list would not have expired. */
  ghost predicate AwaitsLive(s: State, c: nat, id: int) {
    && c in s.calls && s.calls[c].Waiting? && s.calls[c].key.id == id
    && s.calls[c].flight < |s.flights| && !s.flights[s.calls[c].flight].Broken?
    && !Expired(s, s.calls[c].key, s.calls[c].now + s.calls[c].ttl)
  }

  /**
   * A list whose fetch merely began before the invalidation can be served after it exactly when some call
   * waits for a fetch of the server that would not be expired when stored, or one is open for new calls to join.
   */
  lemma StaleFetchIff(s: State, id: int)
    requires Inv(s) && id > 0
    ensures StaleCanBeServed(Next(s, Invalidate(id)), id, Begun, s.steps) <==>
              (exists c :: AwaitsLive(s, c, id)) || (exists k :: k in s.open && k.id == id)
  {
    StaleIff(s, id, Begun);
    forall c
      ensures HoldsLive(s, c, id, Begun, s.steps) <==> AwaitsLive(s, c, id)
    {
      if c in s.calls && s.calls[c].Waiting? {
        assert FlightOk(s, s.calls[c].flight);
      }
    }
    forall k
      ensures OpenBrings(s, k, id, Begun, s.steps) <==> k in s.open && k.id == id
    {
      assert OpenOk(s, k);
      if k in s.open {
        assert FlightOk(s, s.open[k]);
      }
    }
    hide Inv, HoldsLive, AwaitsLive, OpenBrings, StaleCanBeServed;
  }

  /** Such a call exists: one that has fetched and is about to store when the invalidation comes. */
  lemma HeldListExample()
    ensures var run := [Begin(0, Key(1, ""), 0), Look(0), Fetch(0, true), Finish(0, Ok([]))];
            CanRun(START, run) && HoldsFinished(RunFrom(START, run), 0, 1)
  {
    hide Stored, Invalidated;
    var key := Key(1, "");
    var run := [Begin(0, key, 0), Look(0), Fetch(0, true), Finish(0, Ok([]))];
    var s1 := Next(START, run[0]);
    var s2 := Next(s1, run[1]);
    var s3 := Next(s2, run[2]);
    assert s2.calls[0] == Missed(key, DEFAULT_TTL, 0);
    assert s3.flights == [Running(key, 2)];
    var s4 := Next(s3, run[3]);
    assert s4.calls[0] == Waiting(key, DEFAULT_TTL, 0, 0) && s4.flights[0].Done? && s4.clock == 0;
    assert run[1..][1..] == run[2..] && run[2..][1..] == run[3..] && run[3..][1..] == [];
    assert CanRun(s3, run[3..]) && RunFrom(s3, run[3..]) == s4;
    assert CanRun(s2, run[2..]) && RunFrom(s2, run[2..]) == s4;
    assert CanRun(s1, run[1..]) && RunFrom(s1, run[1..]) == s4;
  }
}
