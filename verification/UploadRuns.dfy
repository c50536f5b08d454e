/** Runs of the upload limiter (pkg/sessionupload/ratelimit.go) that reach its bounds, served block by block. */
module UploadRuns {
  import opened Options
  import opened UploadLimiter
  import opened UploadBounds

  // ----- Runs by blocks

  /** The table after a block of checks. */
  function ServeAll(t: map<int, Window>, block: seq<Upload>): map<int, Window> {
    if block == [] then t
    else
      var u := block[|block| - 1];
      Checked(ServeAll(t, block[..|block| - 1]), u.user, u.byteLen, u.at)
  }

  /** The uploads of user 1 that a block admits in [from, from + one minute). */
  function Gained(t: map<int, Window>, block: seq<Upload>, from: int): nat {
    if block == [] then 0
    else
      var front, u := block[..|block| - 1], block[|block| - 1];
      Gained(t, front, from) +
      if u.user == 1 && from <= u.at < from + RATE_WINDOW
         && Charge(Lookup(ServeAll(t, front), 1), u.byteLen, u.at).1 == Admitted then 1 else 0
  }

  lemma {:induction false} ServeAppend(t: map<int, Window>, a: seq<Upload>, b: seq<Upload>, from: int)
    ensures ServeAll(t, a + b) == ServeAll(ServeAll(t, a), b)
    ensures Gained(t, a + b, from) == Gained(t, a, from) + Gained(ServeAll(t, a), b, from)
    decreases |b|
  {
    hide Checked, Charge, Lookup;
    if b == [] {
      assert a + b == a;
    } else {
      var front := b[..|b| - 1];
      ServeAppend(t, a, front, from);
      assert (a + b)[..|a + b| - 1] == a + front && (a + b)[|a + b| - 1] == b[|b| - 1];
    }
  }

  lemma {:induction false} RunIsServe(run: seq<Upload>, from: int, k: nat)
    requires k <= |run|
    ensures TableAfter(run, k) == ServeAll(map[], run[..k])
    ensures Tally(Uploads, run, 1, from, k) == Gained(map[], run[..k], from)
    decreases k
  {
    hide Checked, Charge, Lookup;
    if k > 0 {
      RunIsServe(run, from, k - 1);
      assert run[..k][..k - 1] == run[..k - 1];
    }
  }

  lemma RunTally(run: seq<Upload>, from: int)
    ensures Tally(Uploads, run, 1, from, |run|) == Gained(map[], run, from)
  {
    RunIsServe(run, from, |run|);
    assert run[..|run|] == run;
    hide Tally, Gained;
  }

  // ----- One check

  /** Every window is open at that reading. */
  ghost predicate Quiet(t: map<int, Window>, at: int) {
    forall u :: u in t ==> Live(Some(t[u]), at)
  }

  lemma PrunedQuiet(t: map<int, Window>, at: int)
    requires Quiet(t, at)
    ensures Pruned(t, at) == t
  {
    var p := Pruned(t, at);
    forall u | u in t
      ensures u in p && p[u] == t[u]
    {
    }
    assert p.Keys == t.Keys;
  }

  /** A check that opens a window for user 1 while all others are open. */
  lemma Opens(t: map<int, Window>, at: int)
    requires !Live(Lookup(t, 1), at) && Quiet(t - {1}, at)
    ensures Checked(t, 1, 0, at) == t[1 := Window(at, 0, 1)] && Charge(Lookup(t, 1), 0, at).1 == Admitted
    ensures Quiet(t[1 := Window(at, 0, 1)], at)
  {
    var next := t[1 := Window(at, 0, 1)];
    forall u | u in next
      ensures Live(Some(next[u]), at)
    {
      if u != 1 {
        assert u in t - {1};
      }
    }
    PrunedQuiet(next, at);
    hide Pruned;
  }

  lemma GoesOn(t: map<int, Window>, w: Window, at: int)
    requires 1 in t && t[1] == w && Quiet(t, at) && w.n < MAX_UPLOADS_PER_MIN && w.bytes == 0
    ensures Checked(t, 1, 0, at) == t[1 := Window(w.start, 0, w.n + 1)] && Charge(Lookup(t, 1), 0, at).1 == Admitted
    ensures Quiet(t[1 := Window(w.start, 0, w.n + 1)], at)
  {
    var next := t[1 := Window(w.start, 0, w.n + 1)];
    forall u | u in next
      ensures Live(Some(next[u]), at)
    {
      assert u in t;
    }
    PrunedQuiet(next, at);
    hide Pruned;
  }

  // ----- Blocks of one user

  /** Empty uploads of user 1 at one reading. */
  function Same(at: int, n: nat): seq<Upload> {
    seq(n, _ => Upload(1, 0, at))
  }

  lemma SameNone(at: int)
    ensures Same(at, 0) == []
  {
  }

  lemma SameSnoc(at: int, n: nat)
    requires n > 0
    ensures Same(at, n)[..n - 1] == Same(at, n - 1) && Same(at, n)[n - 1] == Upload(1, 0, at) && |Same(at, n)| == n
  {
  }

  function Counted(at: int, from: int, n: nat): nat {
    if from <= at < from + RATE_WINDOW then n else 0
  }

  lemma {:induction false} Fills(t: map<int, Window>, w: Window, at: int, n: nat, from: int)
    requires 1 in t && t[1] == w && Quiet(t, at) && w.n + n <= MAX_UPLOADS_PER_MIN && w.bytes == 0
    ensures ServeAll(t, Same(at, n)) == t[1 := Window(w.start, 0, w.n + n)]
    ensures Gained(t, Same(at, n), from) == Counted(at, from, n)
    ensures Quiet(t[1 := Window(w.start, 0, w.n + n)], at)
    decreases n
  {
    hide Same, Checked, Charge, Quiet;
    if n == 0 {
      assert t[1 := Window(w.start, 0, w.n)] == t;
      SameNone(at);
    } else {
      var last := Window(w.start, 0, w.n + n - 1);
      Fills(t, w, at, n - 1, from);
      SameSnoc(at, n);
      GoesOn(t[1 := last], last, at);
      assert t[1 := last][1 := Window(w.start, 0, w.n + n)] == t[1 := Window(w.start, 0, w.n + n)];
    }
  }

  lemma OneServed(t: map<int, Window>, at: int, from: int)
    ensures ServeAll(t, Same(at, 1)) == Checked(t, 1, 0, at)
    ensures Gained(t, Same(at, 1), from) == if Charge(Lookup(t, 1), 0, at).1 == Admitted then Counted(at, from, 1) else 0
  {
    hide Checked, Charge, Lookup;
    SameSnoc(at, 1);
    assert Same(at, 1)[..0] == [];
  }

  /** One upload at `start`, and the rest of its window at `at`, a reading in that window. */
  lemma OpensThenFills(t: map<int, Window>, start: int, at: int, n: nat, from: int)
    requires !Live(Lookup(t, 1), start) && Quiet(t - {1}, start) && Quiet(t - {1}, at)
    requires at - start < RATE_WINDOW && 1 <= n <= MAX_UPLOADS_PER_MIN
    ensures ServeAll(t, Same(start, 1) + Same(at, n - 1)) == t[1 := Window(start, 0, n)]
    ensures Gained(t, Same(start, 1) + Same(at, n - 1), from) == Counted(start, from, 1) + Counted(at, from, n - 1)
  {
    hide Same, Checked, Charge, Quiet, ServeAll, Gained, Counted, Live;
    var begun := t[1 := Window(start, 0, 1)];
    assert && ServeAll(t, Same(start, 1)) == t[1 := Window(start, 0, 1)]
           && Gained(t, Same(start, 1), from) == Counted(start, from, 1) by {
      hide Same, Checked, Charge, Quiet, ServeAll, Gained, Counted, Live;
      Opens(t, start);
      OneServed(t, start, from);
    }
    QuietWith(t, Window(start, 0, 1), at);
    Fills(begun, Window(start, 0, 1), at, n - 1, from);
    ServeAppend(t, Same(start, 1), Same(at, n - 1), from);
    assert t[1 := Window(start, 0, 1)][1 := Window(start, 0, n)] == t[1 := Window(start, 0, n)];
  }

  /** A whole window of user 1 at one reading. */
  lemma OpensAndFills(t: map<int, Window>, at: int, n: nat, from: int)
    requires !Live(Lookup(t, 1), at) && Quiet(t - {1}, at) && 1 <= n <= MAX_UPLOADS_PER_MIN
    ensures ServeAll(t, Same(at, n)) == t[1 := Window(at, 0, n)]
    ensures Gained(t, Same(at, n), from) == Counted(at, from, n)
  {
    OpensThenFills(t, at, at, n, from);
    assert Same(at, n) == Same(at, 1) + Same(at, n - 1);
    hide Same, Checked, Charge, Quiet, ServeAll, Gained, Live;
  }

  lemma QuietWith(t: map<int, Window>, w: Window, at: int)
    requires Quiet(t - {1}, at) && at - w.start < RATE_WINDOW
    ensures Quiet(t[1 := w], at)
  {
    var next := t[1 := w];
    forall u | u in next
      ensures Live(Some(next[u]), at)
    {
      if u != 1 {
        assert u in t - {1};
      }
    }
  }

  // ----- A table that stays small: the bound is reached

  /** The windows of user 1 that begin after the minute and are filled by late readings in it. */
  function Late(q: nat): seq<Upload> {
    if q == 0 then []
    else Late(q - 1) + LateWindow(q)
  }

  function LateWindow(q: nat): seq<Upload> {
    Same((q + 1) * RATE_WINDOW, 1) + Same(2 * RATE_WINDOW - 2, MAX_UPLOADS_PER_MIN - 1)
  }

  /** Two windows filled in order, then those of late readings. */
  function SmallRun(q: nat): seq<Upload> {
    (Same(0, 1) + Same(RATE_WINDOW - 1, MAX_UPLOADS_PER_MIN - 1)) + Same(RATE_WINDOW, MAX_UPLOADS_PER_MIN) + Late(q)
  }

  lemma LoneQuiet(t: map<int, Window>, at: int)
    requires t.Keys <= {1}
    ensures Quiet(t - {1}, at)
  {
  }

  lemma LateWindowServes(q: nat)
    requires q > 0
    ensures var t := map[1 := Window(q * RATE_WINDOW, 0, MAX_UPLOADS_PER_MIN)];
            && ServeAll(t, LateWindow(q)) == map[1 := Window((q + 1) * RATE_WINDOW, 0, MAX_UPLOADS_PER_MIN)]
            && Gained(t, LateWindow(q), RATE_WINDOW - 1) == MAX_UPLOADS_PER_MIN - 1
  {
    hide Same, Checked, Charge, Quiet, ServeAll, Gained, Counted, Live;
    var w, next := Window(q * RATE_WINDOW, 0, MAX_UPLOADS_PER_MIN), Window((q + 1) * RATE_WINDOW, 0, MAX_UPLOADS_PER_MIN);
    LoneQuiet(map[1 := w], next.start);
    LoneQuiet(map[1 := w], 2 * RATE_WINDOW - 2);
    LateIn(q);
    OpensThenFills(map[1 := w], next.start, 2 * RATE_WINDOW - 2, MAX_UPLOADS_PER_MIN, RATE_WINDOW - 1);
    assert map[][1 := w][1 := next] == map[][1 := next];
  }

  lemma {:induction false} LateServes(t: map<int, Window>, q: nat)
    requires t == map[1 := Window(RATE_WINDOW, 0, MAX_UPLOADS_PER_MIN)]
    ensures ServeAll(t, Late(q)) == map[1 := Window((q + 1) * RATE_WINDOW, 0, MAX_UPLOADS_PER_MIN)]
    ensures Gained(t, Late(q), RATE_WINDOW - 1) == (MAX_UPLOADS_PER_MIN - 1) * q
  {
    hide Checked, Charge, LateWindow;
    if q > 0 {
      hide ServeAll, Gained;
      LateServes(t, q - 1);
      LateWindowServes(q);
      ServeAppend(t, Late(q - 1), LateWindow(q), RATE_WINDOW - 1);
    }
  }

  lemma LateIn(q: nat)
    requires q > 0
    ensures (q + 1) * RATE_WINDOW >= 2 * RATE_WINDOW
    ensures Counted((q + 1) * RATE_WINDOW, RATE_WINDOW - 1, 1) == 0
    ensures Counted(2 * RATE_WINDOW - 2, RATE_WINDOW - 1, MAX_UPLOADS_PER_MIN - 1) == MAX_UPLOADS_PER_MIN - 1
    ensures !Live(Some(Window(q * RATE_WINDOW, 0, MAX_UPLOADS_PER_MIN)), (q + 1) * RATE_WINDOW)
  {
    MulGrows(2, q + 1, RATE_WINDOW);
  }

  lemma SmallRunServes(q: nat)
    ensures Gained(map[], SmallRun(q), RATE_WINDOW - 1) == (MAX_UPLOADS_PER_MIN - 1) * (q + 2) + 1
  {
    var from, n := RATE_WINDOW - 1, MAX_UPLOADS_PER_MIN;
    var a, b := Same(0, 1) + Same(RATE_WINDOW - 1, n - 1), Same(RATE_WINDOW, n);
    var one: map<int, Window> := map[1 := Window(0, 0, n)];
    var two: map<int, Window> := map[1 := Window(RATE_WINDOW, 0, n)];
    var none: map<int, Window> := map[];
    forall at, t | t in {none, one}
      ensures Quiet(t - {1}, at)
    {
      LoneQuiet(t, at);
    }
    OpensThenFills(none, 0, RATE_WINDOW - 1, n, from);
    OpensAndFills(one, RATE_WINDOW, n, from);
    LateServes(two, q);
    hide Same, Checked, Charge, Quiet, ServeAll, Gained, Late;
    assert none[1 := Window(0, 0, n)] == one && one[1 := Window(RATE_WINDOW, 0, n)] == two;
    ServeAppend(none, a, b, from);
    ServeAppend(none, a + b, Late(q), from);
  }

  // ----- A crowd of other users: large tables are pruned

  /** The table of users 2 to n + 1, each with one upload. */
  function Others(n: nat): map<int, Window> {
    if n == 0 then map[] else Others(n - 1)[n + 1 := Window(RATE_WINDOW, 0, 1)]
  }

  lemma {:induction false} OthersAre(n: nat)
    ensures forall u :: u in Others(n) <==> 2 <= u < n + 2
    ensures forall u :: u in Others(n) ==> Others(n)[u] == Window(RATE_WINDOW, 0, 1)
  {
    if n > 0 {
      OthersAre(n - 1);
    }
  }

  /** The first empty upload of each of `n` other users, at one reading. */
  function Crowd(n: nat): seq<Upload> {
    seq(n, i => Upload(i + 2, 0, RATE_WINDOW))
  }

  lemma {:induction false} OthersCount(n: nat)
    ensures |Others(n)| == n
  {
    if n > 0 {
      OthersCount(n - 1);
      OthersAre(n - 1);
    }
  }

  lemma OthersNext(n: nat)
    ensures Others(n)[n + 2 := Window(RATE_WINDOW, 0, 1)] == Others(n + 1)
    ensures n + 2 !in Others(n) && 1 !in Others(n)
  {
    OthersAre(n);
  }

  lemma OthersOpen(n: nat, at: int)
    requires at < 2 * RATE_WINDOW
    ensures Quiet(Others(n), at) && Others(n) - {1} == Others(n)
  {
    OthersAre(n);
  }

  /** While the table is small the window of user 1 stays, expired or not. */
  lemma Joins(n: nat, w: Window)
    requires n + 2 < PRUNE_ENTRIES
    ensures Checked(Others(n)[1 := w], n + 2, 0, RATE_WINDOW) == Others(n + 1)[1 := w]
  {
    var t := Others(n)[1 := w];
    OthersCount(n);
    OthersNext(n);
    hide Others;
    assert n + 2 !in t;
    assert t[n + 2 := Window(RATE_WINDOW, 0, 1)] == Others(n + 1)[1 := w];
    OthersCount(n + 1);
    assert |Others(n + 1)[1 := w]| == n + 2;
  }

  /** A newcomer to a large table: the expired window of user 1 is dropped. */
  lemma Evicts(n: nat, w: Window, at: int)
    requires n + 2 >= PRUNE_ENTRIES && RATE_WINDOW <= at - w.start && at < 2 * RATE_WINDOW
    ensures Checked(Others(n)[1 := w], n + 2, 0, at) == Others(n)[n + 2 := Window(at, 0, 1)]
  {
    var t := Others(n)[1 := w];
    OthersCount(n);
    OthersNext(n);
    OthersOpen(n, at);
    hide Others;
    var charged := t[n + 2 := Window(at, 0, 1)];
    assert n + 2 !in t && |t| == n + 1;
    assert |charged| == n + 2;
    assert Charged(t, n + 2, 0, at) == charged;
    assert Pruned(charged, at) == Others(n)[(n + 2) := Window(at, 0, 1)] by {
      var p, q := Pruned(charged, at), Others(n)[(n + 2) := Window(at, 0, 1)];
      forall u | u in charged && u != 1
        ensures Live(Some(charged[u]), at)
      {
        if u != (n + 2) {
          assert u in Others(n);
        }
      }
      assert p.Keys == q.Keys;
    }
  }

  lemma {:induction false} CrowdJoins(n: nat, w: Window)
    requires n + 1 < PRUNE_ENTRIES
    ensures ServeAll(map[1 := w], Crowd(n)) == Others(n)[1 := w]
  {
    if n == 0 {
      assert Crowd(0) == [];
    } else {
      CrowdJoins(n - 1, w);
      CrowdSnoc(n);
      Joins(n - 1, w);
      hide Checked, Crowd, Others;
    }
  }

  lemma CrowdSnoc(n: nat)
    requires n > 0
    ensures |Crowd(n)| == n && Crowd(n)[..n - 1] == Crowd(n - 1) && Crowd(n)[n - 1] == Upload(n + 1, 0, RATE_WINDOW)
  {
  }

  const FULL_CROWD: nat := PRUNE_ENTRIES - 1

  lemma {:induction false} NoneOfOthers(t: map<int, Window>, block: seq<Upload>, from: int)
    requires forall i :: 0 <= i < |block| ==> block[i].user != 1
    ensures Gained(t, block, from) == 0
    decreases |block|
  {
    if block != [] {
      NoneOfOthers(t, block[..|block| - 1], from);
    }
  }

  // ----- The runs

  const N: nat := MAX_UPLOADS_PER_MIN

  /** User 1 fills a window at the end of its minute, and the crowd makes the limiter forget it. */
  function Forgotten(): seq<Upload> {
    (Same(0, 1) + Same(RATE_WINDOW - 1, N - 1)) + Crowd(FULL_CROWD)
  }

  lemma ForgottenServes(from: int)
    requires from > 0
    ensures ServeAll(map[], Forgotten()) == Others(FULL_CROWD)
    ensures Gained(map[], Forgotten(), from) == Counted(RATE_WINDOW - 1, from, N - 1)
  {
    var none: map<int, Window> := map[];
    LoneQuiet(none, 0);
    LoneQuiet(none, RATE_WINDOW - 1);
    OpensThenFills(none, 0, RATE_WINDOW - 1, N, from);
    var a := Same(0, 1) + Same(RATE_WINDOW - 1, N - 1);
    // The last of the crowd fills the table, and user 1 is forgotten.
    assert ServeAll(map[1 := Window(0, 0, N)], Crowd(FULL_CROWD)) == Others(FULL_CROWD) by {
      CrowdJoins(FULL_CROWD - 1, Window(0, 0, N));
      CrowdSnoc(FULL_CROWD);
      Evicts(FULL_CROWD - 1, Window(0, 0, N), RATE_WINDOW);
      OthersNext(FULL_CROWD - 1);
      hide Checked, Crowd, Others;
    }
    NoneOfOthers(map[1 := Window(0, 0, N)], Crowd(FULL_CROWD), from);
    hide Same, Others, ServeAll, Gained, Crowd;
    ServeAppend(none, a, Crowd(FULL_CROWD), from);
  }

  /** Readings one tick late: three full windows in a minute, but for one upload. */
  function ThreeWindows(): seq<Upload> {
    Forgotten() + Same(RATE_WINDOW - 1, N) + [Upload(FULL_CROWD + 2, 0, 2 * RATE_WINDOW - 1)] + Same(2 * RATE_WINDOW - 2, N)
  }

  lemma ServesOne(t: map<int, Window>, u: Upload, from: int)
    requires u.user != 1
    ensures ServeAll(t, [u]) == Checked(t, u.user, u.byteLen, u.at) && Gained(t, [u], from) == 0
  {
    hide Checked, Charge;
    assert [u][..0] == [];
  }

  lemma ThreeWindowsServes()
    ensures Gained(map[], ThreeWindows(), RATE_WINDOW - 1) == 3 * N - 1
  {
    var from := RATE_WINDOW - 1;
    var crowd := Others(FULL_CROWD);
    var a, b, c, d := Forgotten(), Same(from, N), [Upload(FULL_CROWD + 2, 0, 2 * RATE_WINDOW - 1)], Same(2 * RATE_WINDOW - 2, N);
    ForgottenServes(from);
    OthersOpen(FULL_CROWD, from);
    OthersOpen(FULL_CROWD, 2 * RATE_WINDOW - 2);
    OthersNext(FULL_CROWD);
    OpensAndFills(crowd, from, N, from);
    var full := crowd[1 := Window(from, 0, N)];
    var fresh1 := crowd[FULL_CROWD + 2 := Window(2 * RATE_WINDOW - 1, 0, 1)];
    Evicts(FULL_CROWD, Window(from, 0, N), 2 * RATE_WINDOW - 1);
    ServesOne(full, c[0], from);
    QuietNext(crowd, FULL_CROWD + 2, 2 * RATE_WINDOW - 1, 2 * RATE_WINDOW - 2);
    OpensAndFills(fresh1, 2 * RATE_WINDOW - 2, N, from);
    hide Same, Others, ServeAll, Gained, Crowd, Forgotten, Checked, Quiet;
    ServeAppend(map[], a, b, from);
    ServeAppend(map[], a + b, c, from);
    ServeAppend(map[], a + b + c, d, from);
  }

  lemma QuietNext(t: map<int, Window>, user: int, start: int, at: int)
    requires Quiet(t, at) && at - start < RATE_WINDOW && user != 1 && 1 !in t
    ensures Quiet(t[user := Window(start, 0, 1)] - {1}, at) && Lookup(t[user := Window(start, 0, 1)], 1) == None
  {
    var next := t[user := Window(start, 0, 1)] - {1};
    forall u | u in next
      ensures Live(Some(next[u]), at)
    {
      if u != user {
        assert u in t;
      }
    }
  }

  /** Readings a whole minute late: user 1 fills a window at 0 over and over, and newcomers make the limiter forget it. */
  function Endless(n: nat): seq<Upload> {
    if n == 0 then Forgotten()
    else Endless(n - 1) + Same(0, N) + [Upload(FULL_CROWD + n + 1, 0, RATE_WINDOW)]
  }

  lemma {:induction false} EndlessServes(n: nat)
    ensures ServeAll(map[], Endless(n)) == Others(FULL_CROWD + n)
    ensures Gained(map[], Endless(n), 0) >= N * n
  {
    hide Others, Same, Crowd, ServeAll, Gained, Checked, Quiet, Forgotten, Live, Charge;
    if n == 0 {
      ForgottenServes(1);
    } else {
      EndlessServes(n - 1);
      EndlessStep(FULL_CROWD + n - 1);
      var t, u := Others(FULL_CROWD + n - 1), Upload(FULL_CROWD + n + 1, 0, RATE_WINDOW);
      ServesOne(t[1 := Window(0, 0, N)], u, 0);
      ServeAppend(map[], Endless(n - 1), Same(0, N), 0);
      ServeAppend(map[], Endless(n - 1) + Same(0, N), [u], 0);
    }
  }

  lemma EndlessStep(k: nat)
    requires k >= FULL_CROWD
    ensures var t := Others(k);
            && ServeAll(t, Same(0, N)) == t[1 := Window(0, 0, N)] && Gained(t, Same(0, N), 0) == N
            && Checked(t[1 := Window(0, 0, N)], k + 2, 0, RATE_WINDOW) == Others(k + 1)
  {
    OthersOpen(k, 0);
    OthersNext(k);
    OpensAndFills(Others(k), 0, N, 0);
    Evicts(k, Window(0, 0, N), RATE_WINDOW);
    hide Others, Same, ServeAll, Gained, Checked, Quiet;
  }

  // ----- How late the readings of these runs are

  ghost predicate Between(block: seq<Upload>, lo: int, hi: int) {
    forall i :: 0 <= i < |block| ==> lo <= block[i].at <= hi
  }

  ghost predicate Spread(block: seq<Upload>, d: nat, lo: int, hi: int) {
    Skewed(block, d) && Between(block, lo, hi)
  }

  lemma JoinLate(a: seq<Upload>, b: seq<Upload>, d: nat, lo: int, mid: int, from: int, hi: int)
    requires Spread(a, d, lo, mid) && Spread(b, d, from, hi) && mid - d <= from
    ensures Spread(a + b, d, if lo <= from then lo else from, if mid <= hi then hi else mid)
  {
    assert Skewed(a + b, d) by {
      var run := a + b;
      forall i, j | 0 <= i < j < |run|
        ensures run[i].at - d <= run[j].at
      {
        if i < |a| <= j {
          assert run[i] == a[i] && run[j] == b[j - |a|];
        }
      }
    }
  }

  lemma SameLate(at: int, n: nat, d: nat)
    ensures Spread(Same(at, n), d, at, at)
  {
  }

  lemma OneLate(u: Upload, d: nat)
    ensures Spread([u], d, u.at, u.at)
  {
  }

  lemma ForgottenLate(d: nat)
    ensures Spread(Forgotten(), d, 0, RATE_WINDOW)
  {
    var a, b, c := Same(0, 1), Same(RATE_WINDOW - 1, N - 1), Crowd(FULL_CROWD);
    SameLate(0, 1, d);
    SameLate(RATE_WINDOW - 1, N - 1, d);
    assert Spread(c, d, RATE_WINDOW, RATE_WINDOW);
    hide Same, Crowd, Spread;
    JoinLate(a, b, d, 0, 0, RATE_WINDOW - 1, RATE_WINDOW - 1);
    JoinLate(a + b, c, d, 0, RATE_WINDOW - 1, RATE_WINDOW, RATE_WINDOW);
  }

  lemma ThreeWindowsLate()
    ensures Skewed(ThreeWindows(), 1)
  {
    var start, last := RATE_WINDOW - 1, 2 * RATE_WINDOW - 1;
    var a, b, c, d := Forgotten(), Same(start, N), [Upload(FULL_CROWD + 2, 0, last)], Same(last - 1, N);
    ForgottenLate(1);
    SameLate(start, N, 1);
    OneLate(c[0], 1);
    SameLate(last - 1, N, 1);
    hide Same, Forgotten, Spread;
    JoinLate(a, b, 1, 0, RATE_WINDOW, start, start);
    JoinLate(a + b, c, 1, 0, RATE_WINDOW, last, last);
    JoinLate(a + b + c, d, 1, 0, last, last - 1, last - 1);
    assert Spread(ThreeWindows(), 1, 0, last);
    LateSkewed(ThreeWindows(), 1, 0, last);
  }

  lemma LateSkewed(block: seq<Upload>, d: nat, lo: int, hi: int)
    requires Spread(block, d, lo, hi)
    ensures Skewed(block, d)
  {
  }

  lemma {:induction false} EndlessLate(n: nat)
    ensures Spread(Endless(n), RATE_WINDOW, 0, RATE_WINDOW)
  {
    hide Same, Forgotten, Spread;
    if n == 0 {
      ForgottenLate(RATE_WINDOW);
    } else {
      var a, b, c := Endless(n - 1), Same(0, N), [Upload(FULL_CROWD + n + 1, 0, RATE_WINDOW)];
      EndlessLate(n - 1);
      SameLate(0, N, RATE_WINDOW);
      OneLate(c[0], RATE_WINDOW);
      JoinLate(a, b, RATE_WINDOW, 0, RATE_WINDOW, 0, 0);
      JoinLate(a + b, c, RATE_WINDOW, 0, RATE_WINDOW, RATE_WINDOW, RATE_WINDOW);
    }
  }

  lemma {:induction false} LateLate(q: nat, d: nat)
    requires q > 0 ==> (q - 1) * RATE_WINDOW + 2 <= d
    ensures Spread(Late(q), d, 2 * RATE_WINDOW - 2, if q == 0 then RATE_WINDOW else (q + 1) * RATE_WINDOW)
  {
    hide Same;
    if q > 0 {
      hide Spread;
      MulNext(q - 2, RATE_WINDOW);
      LateLate(q - 1, d);
      var start, late := (q + 1) * RATE_WINDOW, 2 * RATE_WINDOW - 2;
      LateIn(q);
      SameLate(start, 1, d);
      SameLate(late, N - 1, d);
      MulNext(q, RATE_WINDOW);
      MulNext(q - 1, RATE_WINDOW);
      JoinLate(Same(start, 1), Same(late, N - 1), d, start, start, late, late);
      JoinLate(Late(q - 1), Same(start, 1) + Same(late, N - 1), d, late, q * RATE_WINDOW, late, start);
    }
  }

  lemma SmallRunLate(q: nat, d: nat)
    requires q > 0 ==> (q - 1) * RATE_WINDOW + 2 <= d
    ensures Skewed(SmallRun(q), d)
  {
    var a, b, c := Same(0, 1), Same(RATE_WINDOW - 1, N - 1), Same(RATE_WINDOW, N);
    var hi := if q == 0 then RATE_WINDOW else (q + 1) * RATE_WINDOW;
    SameLate(0, 1, d);
    SameLate(RATE_WINDOW - 1, N - 1, d);
    SameLate(RATE_WINDOW, N, d);
    LateLate(q, d);
    hide Same, Late, Spread;
    JoinLate(a, b, d, 0, 0, RATE_WINDOW - 1, RATE_WINDOW - 1);
    JoinLate(a + b, c, d, 0, RATE_WINDOW - 1, RATE_WINDOW, RATE_WINDOW);
    JoinLate(a + b + c, Late(q), d, 0, RATE_WINDOW, 2 * RATE_WINDOW - 2, hi);
    LateSkewed(SmallRun(q), d, 0, if RATE_WINDOW <= hi then hi else RATE_WINDOW);
  }

  // ----- Runs of one user stay small

  ghost predicate Lone(run: seq<Upload>, k: nat)
    requires k <= |run|
  {
    forall i :: 0 <= i < k ==> run[i].user == 1
  }

  lemma LoneCheck(t: map<int, Window>, u: Upload)
    requires t.Keys <= {1} && u.user == 1
    ensures Checked(t, u.user, u.byteLen, u.at).Keys <= {1}
    ensures |Charged(t, u.user, u.byteLen, u.at)| < PRUNE_ENTRIES
  {
    var charged := Charged(t, u.user, u.byteLen, u.at);
    assert charged.Keys <= {1};
    assert |charged.Keys| <= |({1})| by {
      assert ({1}) == charged.Keys + (({1}) - charged.Keys);
    }
  }

  lemma SmallNext(run: seq<Upload>, k: nat)
    requires k <= |run|
    requires k > 0 ==>
               StaysSmall(run, k - 1)
               && |Charged(TableAfter(run, k - 1), run[k - 1].user, run[k - 1].byteLen, run[k - 1].at)| < PRUNE_ENTRIES
    ensures StaysSmall(run, k)
  {
    hide Charged, TableAfter;
  }

  lemma {:induction false} LoneTable(run: seq<Upload>, k: nat)
    requires k <= |run| && Lone(run, k)
    ensures TableAfter(run, k).Keys <= {1} && StaysSmall(run, k)
    decreases k
  {
    hide Charged, Checked, StaysSmall;
    if k > 0 {
      LoneTable(run, k - 1);
      LoneCheck(TableAfter(run, k - 1), run[k - 1]);
    }
    SmallNext(run, k);
  }

  lemma {:induction false} LateLone(q: nat)
    ensures Lone(Late(q), |Late(q)|)
  {
    if q > 0 {
      LateLone(q - 1);
    }
  }

  lemma SmallRunSmall(q: nat)
    ensures StaysSmall(SmallRun(q), |SmallRun(q)|)
  {
    LateLone(q);
    hide Late, StaysSmall;
    assert Lone(SmallRun(q), |SmallRun(q)|);
    LoneTable(SmallRun(q), |SmallRun(q)|);
  }
}
