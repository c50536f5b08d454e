/** What concurrent callers find in the tool-list cache and which fetches they share
    (pkg/mcpclient/tools_list_cache.go). */
module CacheHits {
  import opened Options
  import opened ToolsCache
  import opened ListCache

  ghost predicate Has(s: State, key: Key, e: Entry<Listing>) {
    key in s.entries && s.entries[key] == e
  }

  /** The step hands a finished list to a waiting call, which stores it. */
  predicate Stores(s: State, step: Step)
    requires Enabled(s, step)
  {
    step.Receive? && s.flights[s.calls[step.call].flight].Done?
  }

  /** The step stores exactly this entry, which lives for the call's ttl from the call's first look at the clock. */
  ghost predicate Puts(s: State, step: Step, key: Key, e: Entry<Listing>)
    requires Enabled(s, step)
  {
    && Stores(s, step)
    && var call := s.calls[step.call];
       key == call.key && e == Entry(s.flights[call.flight].listing, call.now + call.ttl)
  }

  /** The step removes the entry: an invalidation of its server, or a call that stores for the same server, or one
      that stores and began when the entry had expired. */
  ghost predicate Drops(s: State, step: Step, key: Key, e: Entry<Listing>)
    requires Enabled(s, step)
  {
    || (step.Invalidate? && step.id > 0 && step.id == key.id)
    || (Stores(s, step) && (s.calls[step.call].key.id == key.id || s.calls[step.call].now >= e.until))
  }

  lemma StepEntry(s: State, step: Step, key: Key, e: Entry<Listing>)
    requires Enabled(s, step)
    ensures Has(Next(s, step), key, e) <==> Puts(s, step, key, e) || (Has(s, key, e) && !Drops(s, step, key, e))
  {
    hide LookInto, Ttl;
  }

  /** No step of the run removes the entry. */
  ghost predicate Undropped(s: State, run: seq<Step>, key: Key, e: Entry<Listing>)
    requires CanRun(s, run)
    decreases |run|
  {
    run == [] || (!Drops(s, run[0], key, e) && Undropped(Next(s, run[0]), run[1..], key, e))
  }

  /** Some step of the run stores the entry, and none behind it removes it. */
  ghost predicate PutLast(s: State, run: seq<Step>, key: Key, e: Entry<Listing>)
    requires CanRun(s, run)
    decreases |run|
  {
    run != [] && var next := Next(s, run[0]);
                 || (Puts(s, run[0], key, e) && Undropped(next, run[1..], key, e))
                 || PutLast(next, run[1..], key, e)
  }

  /** An entry is in the cache after a run exactly when it was there or was stored, and nothing has removed it since. */
  lemma {:induction false} EntryIff(s: State, run: seq<Step>, key: Key, e: Entry<Listing>)
    requires CanRun(s, run)
    ensures Has(RunFrom(s, run), key, e) <==> (Has(s, key, e) && Undropped(s, run, key, e)) || PutLast(s, run, key, e)
    decreases |run|
  {
    hide Has, Puts, Drops, Next, Enabled;
    if run != [] {
      StepEntry(s, run[0], key, e);
      EntryIff(Next(s, run[0]), run[1..], key, e);
    }
  }

  /**
   * In every run, a call that looks into the cache is served a list exactly when some call stored that list under its
   * key to be served longer than until the moment of the look, and nothing has removed it since; otherwise it misses.
   */
  lemma HitIff(run: seq<Step>, c: nat, listing: Listing)
    requires CanRun(START, run) && c in RunFrom(START, run).calls && RunFrom(START, run).calls[c].Looking?
    ensures var s := RunFrom(START, run);
            var call, after := s.calls[c], Next(s, Look(c)).calls[c];
            && (after.Served? && after.listing == listing <==>
                  exists until :: PutLast(START, run, call.key, Entry(listing, until)) && call.now < until)
            && (after.Served? || after.Missed?)
  {
    var s := RunFrom(START, run);
    var call := s.calls[c];
    hide PutLast, Undropped, RunFrom, CanRun;
    forall until
      ensures Has(s, call.key, Entry(listing, until)) <==> PutLast(START, run, call.key, Entry(listing, until))
    {
      EntryIff(START, run, call.key, Entry(listing, until));
    }
    if call.key in s.entries && s.entries[call.key].tools == listing {
      assert s.entries[call.key] == Entry(listing, s.entries[call.key].until);
    }
  }

  // ----- Shared fetches

  /** Callers share their fetches in all of the run. */
  predicate Shares(run: seq<Step>) {
    forall k :: 0 <= k < |run| && run[k].Fetch? ==> run[k].coalesced
  }

  ghost predicate UnderWay(s: State, f: nat, key: Key) {
    f < |s.flights| && s.flights[f].Running? && s.flights[f].key == key
  }

  /** Every fetch under way is the one that a new caller would join. */
  ghost predicate AllOpen(s: State) {
    forall f: nat, key :: UnderWay(s, f, key) ==> key in s.open && s.open[key] == f
  }

  lemma StepAllOpen(s: State, step: Step)
    requires Enabled(s, step) && AllOpen(s) && (step.Fetch? ==> step.coalesced)
    ensures AllOpen(Next(s, step))
  {
    hide Stored, Invalidated, Ttl, LookInto;
    var t := Next(s, step);
    forall f: nat, key | UnderWay(t, f, key)
      ensures key in t.open && t.open[key] == f
    {
      assert f < |s.flights| ==> UnderWay(s, f, key);
    }
  }

  lemma {:induction false} RunAllOpen(s: State, run: seq<Step>)
    requires CanRun(s, run) && AllOpen(s) && Shares(run)
    ensures AllOpen(RunFrom(s, run))
    decreases |run|
  {
    hide AllOpen, Next, Enabled;
    if run != [] {
      StepAllOpen(s, run[0]);
      RunAllOpen(Next(s, run[0]), run[1..]);
    }
  }

  /**
   * While callers share their fetches, there is never more than one fetch under way for a server and fingerprint, and
   * a call that missed begins a fetch exactly when there is none.
   */
  lemma OneFetchAtATime(run: seq<Step>, c: nat)
    requires CanRun(START, run) && Shares(run)
    ensures var s := RunFrom(START, run);
            && (forall f: nat, g: nat, key :: UnderWay(s, f, key) && UnderWay(s, g, key) ==> f == g)
            && (c in s.calls && s.calls[c].Missed? ==>
                  (|Next(s, Fetch(c, true)).flights| > |s.flights| <==> !exists f: nat :: UnderWay(s, f, s.calls[c].key)))
  {
    var s := RunFrom(START, run);
    assert AllOpen(START);
    RunAllOpen(START, run);
    assert Inv(START) by { StartInv(); }
    RunKeepsInv(START, run);
    hide CanRun, RunFrom;
    if c in s.calls && s.calls[c].Missed? {
      var key := s.calls[c].key;
      assert OpenOk(s, key);
      assert key in s.open ==> UnderWay(s, s.open[key], key);
    }
  }

  lemma StartInv()
    ensures Inv(START)
  {
  }
}
