/** The per-client token bucket of internal/delivery/ratelimit.go, over the reals. */
module TokenBucket {
  import opened Options

  /** `limit` tokens come back per second; a full bucket holds `burst`. */
  datatype Config = Config(limit: real, burst: real)

  datatype Client = Client(tokens: real, last: real)

  datatype Event = Event(key: string, at: real)

  /** No limiter is built for a rate of zero or less: every request is then let through. */
  function NewConfig(requestsPerMinute: int): (c: Option<Config>)
    ensures c.Some? <==> requestsPerMinute > 0
    ensures c.Some? ==> Sound(c.value) && c.value.burst == c.value.limit * 60.0
  {
    if requestsPerMinute <= 0 then None
    else Some(Config(requestsPerMinute as real / 60.0, requestsPerMinute as real))
  }

  ghost predicate Sound(c: Config) {
    c.limit > 0.0 && c.burst >= 1.0
  }

  /** What comes back to a bucket between two moments. */
  function Gain(c: Config, from: real, to: real): real {
    (to - from) * c.limit
  }

  function Refill(c: Config, client: Client, now: real): real {
    var tokens := client.tokens + Gain(c, client.last, now);
    if tokens > c.burst then c.burst else tokens
  }

  /** The client record after a request, and whether the request is admitted. */
  function Serve(c: Config, client: Option<Client>, now: real): (Client, bool) {
    match client
    case None => (Client(c.burst - 1.0, now), true)
    case Some(cl) =>
      var tokens := Refill(c, cl, now);
      if tokens < 1.0 then (Client(tokens, now), false) else (Client(tokens - 1.0, now), true)
  }

  function Lookup(clients: map<string, Client>, key: string): Option<Client> {
    if key in clients then Some(clients[key]) else None
  }

  class RateLimiter {
    const config: Option<Config>
    var clients: map<string, Client>

    constructor (requestsPerMinute: int)
      ensures config == NewConfig(requestsPerMinute) && clients == map[]
    {
      config := NewConfig(requestsPerMinute);
      clients := map[];
    }

    method Allow(key: string, now: real) returns (ok: bool)
      modifies this
      ensures config.None? ==> ok && clients == old(clients)
      ensures config.Some? ==>
                var s := Serve(config.value, Lookup(old(clients), key), now);
                ok == s.1 && clients == old(clients)[key := s.0]
    {
      if config.None? {
        return true;
      }
      var c := config.value;
      if key !in clients {
        clients := clients[key := Client(c.burst - 1.0, now)];
        return true;
      }
      var cl := clients[key];
      var elapsed := now - cl.last;
      ghost var gained := Gain(c, cl.last, now);
      assert elapsed * c.limit == gained;
      hide Gain;
      cl := cl.(tokens := cl.tokens + elapsed * c.limit);
      if cl.tokens > c.burst {
        cl := cl.(tokens := c.burst);
      }
      cl := cl.(last := now);
      if cl.tokens < 1.0 {
        clients := clients[key := cl];
        return false;
      }
      clients := clients[key := cl.(tokens := cl.tokens - 1.0)];
      return true;
    }
  }

  // ----- Runs

  /** The clients after the first `k` requests of a run. */
  function ClientsAfter(c: Config, events: seq<Event>, k: nat): map<string, Client>
    requires k <= |events|
  {
    if k == 0 then map[]
    else
      var before, e := ClientsAfter(c, events, k - 1), events[k - 1];
      before[e.key := Serve(c, Lookup(before, e.key), e.at).0]
  }

  function BucketAfter(c: Config, events: seq<Event>, key: string, k: nat): Option<Client>
    requires k <= |events|
  {
    Lookup(ClientsAfter(c, events, k), key)
  }

  /** The answer to request `k` of a run. */
  predicate Admitted(c: Config, events: seq<Event>, k: nat)
    requires k < |events|
  {
    Serve(c, BucketAfter(c, events, events[k].key, k), events[k].at).1
  }

  /** The admitted requests of one client in the interval [from, to], among the first `k`. */
  function Count(c: Config, events: seq<Event>, key: string, from: real, to: real, k: nat): nat
    requires k <= |events|
  {
    if k == 0 then 0
    else
      var e := events[k - 1];
      Count(c, events, key, from, to, k - 1) +
      if e.key == key && from <= e.at <= to && Admitted(c, events, k - 1) then 1 else 0
  }

  ghost predicate Monotone(events: seq<Event>) {
    forall i, j :: 0 <= i <= j < |events| ==> events[i].at <= events[j].at
  }

  // ----- The account of one bucket

  lemma GainSplit(c: Config, from: real, mid: real, to: real)
    ensures Gain(c, from, mid) + Gain(c, mid, to) == Gain(c, from, to)
  {
  }

  /** Since the moment `a` the bucket has given `n` requests no more than it held and what came back. */
  ghost predicate Paid(c: Config, client: Client, n: nat, a: real) {
    n as real + client.tokens <= c.burst + Gain(c, a, client.last)
  }

  /** A request keeps the account, whatever its time: what it takes was refilled or was in the bucket. */
  lemma ServePays(c: Config, client: Client, now: real, n: nat, a: real)
    requires Paid(c, client, n, a)
    ensures var (cl, ok) := Serve(c, Some(client), now);
            && Paid(c, cl, n + if ok then 1 else 0, a)
            && (ok ==> (n + 1) as real <= c.burst + Gain(c, a, now))
  {
    GainSplit(c, a, client.last, now);
    hide Gain;
  }

  /** An admitted request starts an account of its own. */
  lemma ServeStarts(c: Config, client: Option<Client>, now: real)
    requires Sound(c)
    ensures var (cl, ok) := Serve(c, client, now);
            ok ==> Paid(c, cl, 1, now)
  {
    GainZero(c, now);
    hide Gain;
  }

  lemma GainZero(c: Config, at: real)
    ensures Gain(c, at, at) == 0.0
  {
  }

  lemma GainWithin(c: Config, from: real, a: real, b: real, to: real)
    requires Sound(c) && from <= a && b <= to
    ensures Gain(c, a, b) <= Gain(c, from, to)
  {
    assert Gain(c, from, from) <= Gain(c, from, a) && 0.0 <= Gain(c, from, a) && Gain(c, from, from) == 0.0;
    assert Gain(c, b, b) <= Gain(c, b, to) && 0.0 <= Gain(c, b, to) && Gain(c, b, b) == 0.0;
    GainSplit(c, from, a, b);
    GainSplit(c, from, b, to);
  }

  /** The account of the requests admitted in [from, to], opened by the first of them at `a`. */
  lemma {:induction false} RunPays(c: Config, events: seq<Event>, key: string, from: real, to: real, k: nat)
    returns (a: real)
    requires Sound(c) && k <= |events|
    ensures var n := Count(c, events, key, from, to, k);
            n > 0 ==>
              && from <= a <= to && BucketAfter(c, events, key, k).Some?
              && Paid(c, BucketAfter(c, events, key, k).value, n, a)
              && n as real <= c.burst + Gain(c, from, to)
    decreases k
  {
    a := from;
    hide Serve, Gain, Paid;
    if k > 0 {
      var e := events[k - 1];
      var client, n := BucketAfter(c, events, key, k - 1), Count(c, events, key, from, to, k - 1);
      a := RunPays(c, events, key, from, to, k - 1);
      if e.key == key {
        if n > 0 {
          ServePays(c, client.value, e.at, n, a);
          if e.at <= to {
            GainWithin(c, from, a, e.at, to);
          }
          Unspent(c, client.value, e.at, n, a, from, to);
        } else if from <= e.at <= to && Admitted(c, events, k - 1) {
          ServeStarts(c, client, e.at);
          GainWithin(c, from, from, from, to);
          GainZero(c, from);
          a := e.at;
        }
      }
    }
  }

  /** A request admitted outside the interval only makes the account of the interval smaller. */
  lemma Unspent(c: Config, client: Client, now: real, n: nat, a: real, from: real, to: real)
    requires Paid(c, client, n, a)
    ensures Paid(c, Serve(c, Some(client), now).0, n, a)
  {
    GainSplit(c, a, client.last, now);
    hide Gain;
  }

  // ----- Main results

  /** In any interval of length T one client gets at most burst + limit * T requests admitted, in whatever
      order requests that have read the clock come to be served. */
  lemma WindowBound(c: Config, events: seq<Event>, key: string, from: real, to: real)
    requires Sound(c) && from <= to
    ensures Count(c, events, key, from, to, |events|) as real <= c.burst + c.limit * (to - from)
  {
    assert Gain(c, from, to) == c.limit * (to - from);
    GainWithin(c, from, from, from, to);
    GainZero(c, from);
    hide Serve, Gain, Count, BucketAfter, Paid;
    var a := RunPays(c, events, key, from, to, |events|);
  }

  // ----- The bound is exact

  /** A client that was not there since `from` was not admitted since. */
  lemma {:induction false} NoneSince(c: Config, events: seq<Event>, key: string, from: real, to: real, k: nat)
    requires Monotone(events) && k <= |events|
    requires var client := BucketAfter(c, events, key, k); client.Some? ==> client.value.last < from
    ensures Count(c, events, key, from, to, k) == 0
    decreases k
  {
    hide Gain;
    if k > 0 {
      var client := BucketAfter(c, events, key, k - 1);
      if client.Some? && events[k - 1].key == key {
        LastIsPast(c, events, key, k - 1);
      }
      NoneSince(c, events, key, from, to, k - 1);
    }
  }

  lemma {:induction false} LastIsPast(c: Config, events: seq<Event>, key: string, k: nat)
    requires Monotone(events) && k < |events|
    ensures var client := BucketAfter(c, events, key, k); client.Some? ==> client.value.last <= events[k].at
    decreases k
  {
    hide Gain;
    if k > 0 {
      LastIsPast(c, events, key, k - 1);
    }
  }

  /** Since some moment `from`, when the bucket was full, everything that came back or was taken is in it. */
  ghost predicate Exact(c: Config, client: Client, n: nat, from: real) {
    from <= client.last && client.tokens == c.burst + Gain(c, from, client.last) - n as real
  }

  lemma ServeExact(c: Config, client: Client, n: nat, from: real, now: real)
    requires Exact(c, client, n, from) && client.last <= now && client.tokens + Gain(c, client.last, now) <= c.burst
    ensures var (cl, ok) := Serve(c, Some(client), now);
            Exact(c, cl, n + if ok then 1 else 0, from)
  {
    GainSplit(c, from, client.last, now);
    hide Gain;
  }

  lemma {:induction false} AtMostBurst(c: Config, events: seq<Event>, key: string, k: nat)
    requires Sound(c) && k <= |events|
    ensures var client := BucketAfter(c, events, key, k); client.Some? ==> client.value.tokens <= c.burst
    decreases k
  {
    hide Gain;
    if k > 0 {
      AtMostBurst(c, events, key, k - 1);
    }
  }

  lemma {:induction false} FullSince(c: Config, events: seq<Event>, key: string, to: real, k: nat) returns (from: real)
    requires Sound(c) && Monotone(events) && k <= |events| && (k > 0 ==> events[k - 1].at <= to)
    ensures var client := BucketAfter(c, events, key, k);
            client.Some? ==> Exact(c, client.value, Count(c, events, key, from, to, k), from)
    decreases k
  {
    from := 0.0;
    if k > 0 {
      var e := events[k - 1];
      var client := BucketAfter(c, events, key, k - 1);
      from := FullSince(c, events, key, to, k - 1);
      if e.key == key {
        LastIsPast(c, events, key, k - 1);
        assert && Gain(c, e.at, e.at) <= Gain(c, e.at, e.at) && 0.0 <= Gain(c, e.at, e.at)
               && Gain(c, e.at, e.at) == 0.0;
        if client.None? {
          from := e.at;
          NoneSince(c, events, key, from, to, k - 1);
        } else if client.value.tokens + Gain(c, client.value.last, e.at) > c.burst {
          AtMostBurst(c, events, key, k - 1);
          GainZero(c, client.value.last);
          from := e.at;
          NoneSince(c, events, key, from, to, k - 1);
        } else {
          ServeExact(c, client.value, Count(c, events, key, from, to, k - 1), from, e.at);
        }
        hide Gain;
      }
    }
  }

  /**
   * A request is admitted exactly when, for every interval that ends with it, admitting it keeps the
   * client within burst + limit * T.
   */
  lemma AdmittedIff(c: Config, events: seq<Event>, k: nat)
    requires Sound(c) && Monotone(events) && k < |events|
    ensures var e := events[k];
            Admitted(c, events, k) <==>
              forall from :: from <= e.at ==>
                Count(c, events, e.key, from, e.at, k) as real + 1.0 <= c.burst + Gain(c, from, e.at)
  {
    var e := events[k];
    var client := BucketAfter(c, events, e.key, k);
    if Admitted(c, events, k) {
      forall from | from <= e.at
        ensures Count(c, events, e.key, from, e.at, k) as real + 1.0 <= c.burst + Gain(c, from, e.at)
      {
        var a := RunPays(c, events, e.key, from, e.at, k + 1);
        assert Count(c, events, e.key, from, e.at, k + 1) == Count(c, events, e.key, from, e.at, k) + 1;
      }
    } else {
      var from := FullSince(c, events, e.key, e.at, k);
      LastIsPast(c, events, e.key, k);
      GainSplit(c, from, client.value.last, e.at);
      hide Gain, Count;
      assert Count(c, events, e.key, from, e.at, k) as real + 1.0 > c.burst + Gain(c, from, e.at);
    }
  }

  // ----- In any order of the readings

  /** The admitted requests of one client among those served from the `j`-th on, before the `k`-th. */
  function Since(c: Config, events: seq<Event>, key: string, j: nat, k: nat): nat
    requires j <= k <= |events|
  {
    if j == k then 0
    else
      Since(c, events, key, j, k - 1) + if events[k - 1].key == key && Admitted(c, events, k - 1) then 1 else 0
  }

  /** From the `j`-th request on the bucket gave no more than a full one and what came back since. */
  ghost predicate Covered(c: Config, events: seq<Event>, key: string, client: Client, j: nat, k: nat)
    requires j < k <= |events|
  {
    events[j].key == key ==> client.tokens + Since(c, events, key, j, k) as real <= c.burst + Gain(c, events[j].at, client.last)
  }

  lemma CoveredNext(c: Config, events: seq<Event>, client: Client, j: nat, k: nat)
    requires j < k < |events| && Some(client) == BucketAfter(c, events, events[k].key, k)
    requires Covered(c, events, events[k].key, client, j, k)
    ensures Covered(c, events, events[k].key, Serve(c, Some(client), events[k].at).0, j, k + 1)
  {
    GainSplit(c, events[j].at, client.last, events[k].at);
    hide Gain, ClientsAfter;
  }

  lemma CoveredNow(c: Config, events: seq<Event>, k: nat)
    requires k < |events|
    ensures var key := events[k].key;
            Covered(c, events, key, Serve(c, BucketAfter(c, events, key, k), events[k].at).0, k, k + 1)
  {
    GainZero(c, events[k].at);
    hide Gain, ClientsAfter;
    assert Since(c, events, events[k].key, k, k) == 0;
  }

  /** The bucket holds the least that is left over, counted from any of the client's requests. */
  lemma {:induction false} LeastLeft(c: Config, events: seq<Event>, key: string, k: nat) returns (i: nat)
    requires Sound(c) && k <= |events|
    ensures var client := BucketAfter(c, events, key, k);
            if client.Some? then
              && i < k && events[i].key == key
              && client.value.tokens + Since(c, events, key, i, k) as real == c.burst + Gain(c, events[i].at, client.value.last)
              && forall j :: 0 <= j < k ==> Covered(c, events, key, client.value, j, k)
            else forall j :: 0 <= j < k ==> events[j].key != key
    decreases k
  {
    i := 0;
    if k > 0 {
      var e := events[k - 1];
      hide Gain, Serve, Admitted;
      i := LeastLeft(c, events, key, k - 1);
      if e.key == key {
        var client := BucketAfter(c, events, key, k - 1);
        i := LeastNext(c, events, k - 1, i);
        forall j | 0 <= j < k
          ensures Covered(c, events, key, Serve(c, client, e.at).0, j, k)
        {
          if j == k - 1 {
            CoveredNow(c, events, k - 1);
          } else if client.Some? {
            CoveredNext(c, events, client.value, j, k - 1);
          }
        }
      } else if BucketAfter(c, events, key, k).Some? {
        var client := BucketAfter(c, events, key, k).value;
        forall j | 0 <= j < k
          ensures Covered(c, events, key, client, j, k)
        {
          assert j < k - 1 ==> Covered(c, events, key, client, j, k - 1);
        }
      }
    }
  }

  lemma LeastNext(c: Config, events: seq<Event>, k: nat, i: nat) returns (next: nat)
    requires Sound(c) && k < |events|
    requires var key := events[k].key;
             var client := BucketAfter(c, events, key, k);
             client.Some? ==>
               && i < k && events[i].key == key
               && client.value.tokens + Since(c, events, key, i, k) as real == c.burst + Gain(c, events[i].at, client.value.last)
    ensures var key := events[k].key;
            var cl := Serve(c, BucketAfter(c, events, key, k), events[k].at).0;
            && next <= k && events[next].key == key
            && cl.tokens + Since(c, events, key, next, k + 1) as real == c.burst + Gain(c, events[next].at, cl.last)
  {
    var key, e := events[k].key, events[k];
    var client := BucketAfter(c, events, key, k);
    GainZero(c, e.at);
    assert Since(c, events, key, k, k) == 0;
    next := k;
    if client.Some? && client.value.tokens + Gain(c, client.value.last, e.at) <= c.burst {
      next := i;
      GainSplit(c, events[i].at, client.value.last, e.at);
    }
    hide Gain, ClientsAfter;
  }

  /** So many requests fit, counted from the `j`-th request on. */
  ghost predicate FitsFrom(c: Config, events: seq<Event>, j: nat, k: nat)
    requires j <= k < |events|
  {
    var e := events[k];
    events[j].key == e.key ==> Since(c, events, e.key, j, k) as real + 1.0 <= c.burst + Gain(c, events[j].at, e.at)
  }

  /**
   * In any run, whatever the order of the readings: a request is admitted exactly when, counted from each of the
   * client's requests up to it, it and those admitted before it fit into a full bucket and what came back since.
   */
  lemma AdmittedInAnyOrderIff(c: Config, events: seq<Event>, k: nat)
    requires Sound(c) && k < |events|
    ensures Admitted(c, events, k) <==> forall j :: 0 <= j <= k ==> FitsFrom(c, events, j, k)
  {
    var e := events[k];
    var i := LeastLeft(c, events, e.key, k + 1);
    var cl := Serve(c, BucketAfter(c, events, e.key, k), e.at).0;
    assert BucketAfter(c, events, e.key, k + 1) == Some(cl);
    AnswerTokens(c, events, k);
    hide Gain, ClientsAfter, Serve, Admitted;
    if Admitted(c, events, k) {
      forall j | 0 <= j <= k && events[j].key == e.key
        ensures FitsFrom(c, events, j, k)
      {
        assert Covered(c, events, e.key, cl, j, k + 1);
      }
    } else {
      assert !FitsFrom(c, events, i, k);
    }
  }

  lemma AnswerTokens(c: Config, events: seq<Event>, k: nat)
    requires Sound(c) && k < |events|
    ensures var cl := Serve(c, BucketAfter(c, events, events[k].key, k), events[k].at).0;
            && cl.last == events[k].at
            && (if Admitted(c, events, k) then cl.tokens >= 0.0 else cl.tokens < 1.0)
  {
    hide Gain, ClientsAfter;
  }

  /** The requests of one client, in order. */
  function Own(events: seq<Event>, key: string): seq<Event> {
    if events == [] then []
    else
      var last := events[|events| - 1];
      Own(events[..|events| - 1], key) + if last.key == key then [last] else []
  }

  lemma {:induction false} ClientsOfPrefix(c: Config, a: seq<Event>, b: seq<Event>, k: nat)
    requires k <= |a|
    ensures ClientsAfter(c, a + b, k) == ClientsAfter(c, a, k)
    decreases k
  {
    if k > 0 {
      ClientsOfPrefix(c, a, b, k - 1);
    }
  }

  /** One more request changes the bucket of its own client only. */
  lemma BucketAfterOneMore(c: Config, front: seq<Event>, e: Event, key: string)
    ensures BucketAfter(c, front + [e], key, |front| + 1)
         == if e.key == key then Some(Serve(c, BucketAfter(c, front, key, |front|), e.at).0)
            else BucketAfter(c, front, key, |front|)
  {
    hide Serve;
    ClientsOfPrefix(c, front, [e], |front|);
  }

  /** A client's bucket, and so every answer it gets, is what its own requests alone would make it. */
  lemma {:induction false} OthersDoNotMatter(c: Config, events: seq<Event>, key: string)
    ensures BucketAfter(c, events, key, |events|) == BucketAfter(c, Own(events, key), key, |Own(events, key)|)
    decreases |events|
  {
    hide Serve, ClientsAfter, BucketAfter;
    if events != [] {
      var front, last := events[..|events| - 1], events[|events| - 1];
      OthersDoNotMatter(c, front, key);
      assert events == front + [last];
      BucketAfterOneMore(c, front, last, key);
      BucketAfterOneMore(c, Own(front, key), last, key);
      assert Own(events, key) == if last.key == key then Own(front, key) + [last] else Own(front, key);
    }
  }

  /** The same for the answers: request `k` is admitted exactly when the client alone would have been. */
  lemma AnswerFromOwn(c: Config, events: seq<Event>, k: nat)
    requires k < |events|
    ensures var key := events[k].key;
            var own := Own(events[..k + 1], key);
            own == Own(events[..k], key) + [events[k]] && Admitted(c, events, k) == Admitted(c, own, |own| - 1)
  {
    var e := events[k];
    var front := Own(events[..k], e.key);
    assert events[..k + 1][..k] == events[..k];
    hide Serve, ClientsAfter;
    OthersDoNotMatter(c, events[..k], e.key);
    ClientsOfPrefix(c, events[..k], events[k..], k);
    assert events[..k] + events[k..] == events;
    ClientsOfPrefix(c, front, [e], |front|);
  }
}
