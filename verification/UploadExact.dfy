/**
 * Which bounds of the upload limiter (pkg/sessionupload/ratelimit.go) hold for which disorder of the clock
 * readings, and for which sizes of an upload.
 */
module UploadExact {
  import opened Options
  import opened UploadLimiter
  import opened UploadBounds
  import opened UploadRuns

  // ----- Which bound holds for which disorder

  /** No run with readings up to `d` late lets a user upload more than `b` files in a minute. */
  ghost predicate UploadsWithin(d: nat, b: int) {
    forall run, user, from :: Skewed(run, d) ==> Tally(Uploads, run, user, from, |run|) <= b
  }

  ghost predicate SmallUploadsWithin(d: nat, b: int) {
    forall run, user, from :: Skewed(run, d) && StaysSmall(run, |run|) ==> Tally(Uploads, run, user, from, |run|) <= b
  }

  /** A run that beats a bound. */
  lemma Exceeds(run: seq<Upload>, d: nat, e: nat, from: int, b: int)
    requires Skewed(run, d) && d <= e && Gained(map[], run, from) > b
    ensures !UploadsWithin(e, b)
  {
    assert Skewed(run, e);
    RunTally(run, from);
    hide Tally, Gained, Skewed;
  }

  lemma UploadsBounded(d: nat)
    requires d < RATE_WINDOW
    ensures UploadsWithin(d, Windows(d) * N - 1)
  {
    forall run, user, from | Skewed(run, d)
      ensures Tally(Uploads, run, user, from, |run|) <= Windows(d) * N - 1
    {
      assert Fits(Uploads, run, user);
      MinuteBound(Uploads, run, user, from, d);
    }
  }

  lemma ThreeFull(d: nat, b: int)
    requires d > 0 && b < 3 * N - 1
    ensures !UploadsWithin(d, b)
  {
    hide Gained, ThreeWindows, Skewed, UploadsWithin;
    ThreeWindowsServes();
    ThreeWindowsLate();
    Exceeds(ThreeWindows(), 1, d, RATE_WINDOW - 1, b);
  }

  /** With readings at most 20 seconds late, the bound cannot be improved. */
  lemma MinuteLeast(d: nat, b: int)
    requires 3 * d < RATE_WINDOW + 2
    ensures UploadsWithin(d, b) <==> b >= Windows(d) * N - 1
  {
    UploadsBounded(d);
    FewWindows(d);
    hide Windows;
    if b < Windows(d) * N - 1 {
      hide UploadsWithin;
      if d == 0 {
        assert !UploadsWithin(0, b) by {
          hide Gained, SmallRun, Skewed, UploadsWithin;
          SmallRunServes(0);
          SmallRunLate(0, 0);
          Exceeds(SmallRun(0), 0, 0, RATE_WINDOW - 1, b);
        }
      } else {
        ThreeFull(d, b);
      }
    } else {
      assert UploadsWithin(d, b);
    }
  }

  lemma FewWindows(d: nat)
    requires 3 * d < RATE_WINDOW + 2
    ensures Windows(d) == if d == 0 then 2 else 3
  {
  }

  /** A minute holds at most 159 uploads of a user in all runs exactly when readings come in the order they are served. */
  lemma WithinIff(d: nat)
    ensures UploadsWithin(d, 2 * N - 1) <==> d == 0
  {
    if d == 0 {
      FewWindows(0);
      hide UploadsWithin, Windows;
      MinuteLeast(0, 2 * N - 1);
    } else {
      ThreeFull(d, 2 * N - 1);
    }
  }

  /** Any bound at all holds exactly while readings are less than a minute late. */
  lemma BoundedIff(d: nat)
    ensures (exists b :: UploadsWithin(d, b)) <==> d < RATE_WINDOW
  {
    if d < RATE_WINDOW {
      UploadsBounded(d);
    } else {
      forall b
        ensures !UploadsWithin(d, b)
      {
        var n: nat := if b < 0 then 0 else b + 1;
        EndlessServes(n);
        EndlessLate(n);
        LateSkewed(Endless(n), RATE_WINDOW, 0, RATE_WINDOW);
        hide Gained, Endless, Skewed, UploadsWithin;
        Exceeds(Endless(n), RATE_WINDOW, d, 0, b);
      }
    }
  }

  /** While the table is never large, the least bound for every lateness: 159 for one tick at most, 238 from two on. */
  lemma SmallLeast(d: nat, b: int)
    ensures SmallUploadsWithin(d, b) <==> b >= (N - 1) * SmallWindows(d) + 1
  {
    if b >= (N - 1) * SmallWindows(d) + 1 {
      forall run, user, from | Skewed(run, d) && StaysSmall(run, |run|)
        ensures Tally(Uploads, run, user, from, |run|) <= b
      {
        assert Fits(Uploads, run, user);
        SmallMinuteBound(Uploads, run, user, from, d);
      }
    } else {
      var q: nat := SmallWindows(d) - 2;
      SmallRunServes(q);
      assert SmallWindows(d) > 2 ==> (SmallWindows(d) - 3) * RATE_WINDOW + 2 <= d;
      SmallRunLate(q, d);
      SmallRunSmall(q);
      RunTally(SmallRun(q), RATE_WINDOW - 1);
      hide Gained, SmallRun, Skewed, StaysSmall, Tally, SmallWindows;
    }
  }

  // ----- Pruning

  lemma {:induction false} OthersKeepWindow(run: seq<Upload>, i: nat, k: nat)
    requires i <= k <= |run| && forall j :: i <= j < k ==> run[j].user != 1
    ensures WindowAfter(run, 1, k) == WindowAfter(run, 1, i)
    decreases k - i
  {
    if i < k {
      OthersKeepWindow(run, i, k - 1);
    }
  }

  /** A full window, forgotten while it is still open for a reading one tick late. */
  function ForgottenRun(): seq<Upload> {
    Forgotten() + Same(RATE_WINDOW - 1, 1)
  }

  lemma ForgottenAdmits()
    ensures |ForgottenRun()| == N + FULL_CROWD + 1
    ensures VerdictAt(ForgottenRun(), N + FULL_CROWD) == Admitted
  {
    var run, k := ForgottenRun(), N + FULL_CROWD;
    assert |Forgotten()| == k && run[..k] == Forgotten() && run[k] == Upload(1, 0, RATE_WINDOW - 1);
    RunIsServe(run, 1, k);
    ForgottenServes(1);
    OthersNext(FULL_CROWD);
    hide Forgotten, TableAfter, ServeAll, Others;
  }

  lemma FullWindow()
    ensures var run := ForgottenRun();
            |run| == N + FULL_CROWD + 1 && WindowAfter(run, 1, N) == Some(Window(0, 0, N))
  {
    var run, none: map<int, Window> := ForgottenRun(), map[];
    var a := Same(0, 1) + Same(RATE_WINDOW - 1, N - 1);
    assert |run| == N + FULL_CROWD + 1 && run[..N] == a && Lone(run, N);
    LoneQuiet(none, 0);
    LoneQuiet(none, RATE_WINDOW - 1);
    OpensThenFills(none, 0, RATE_WINDOW - 1, N, 1);
    RunIsServe(run, 1, N);
    LoneTable(run, N);
    SmallTableIsUnpruned(run, 1, N);
    hide Same, ForgottenRun, ServeAll, TableAfter, WindowAfter;
  }

  lemma ForgottenRefuses()
    ensures |ForgottenRun()| == N + FULL_CROWD + 1
    ensures UnprunedVerdictAt(ForgottenRun(), N + FULL_CROWD) == TooManyUploads
  {
    var run, k := ForgottenRun(), N + FULL_CROWD;
    hide ForgottenRun, WindowAfter;
    FullWindow();
    CrowdBetween();
    OthersKeepWindow(run, N, k);
  }

  lemma CrowdBetween()
    ensures var run, k := ForgottenRun(), N + FULL_CROWD;
            && |run| == k + 1 && run[k] == Upload(1, 0, RATE_WINDOW - 1)
            && forall j :: N <= j < k ==> run[j].user != 1
  {
  }

  lemma ForgottenRunLate(d: nat)
    requires d > 0
    ensures Skewed(ForgottenRun(), d)
  {
    ForgottenLate(d);
    SameLate(RATE_WINDOW - 1, 1, d);
    hide Forgotten, Same, Spread;
    JoinLate(Forgotten(), Same(RATE_WINDOW - 1, 1), d, 0, RATE_WINDOW, RATE_WINDOW - 1, RATE_WINDOW - 1);
    LateSkewed(ForgottenRun(), d, 0, RATE_WINDOW);
  }

  /** Every answer is that of a limiter which never prunes, in all runs, exactly when readings come in order. */
  lemma PruningIsInvisibleIff(d: nat)
    ensures (forall run, k :: Skewed(run, d) && 0 <= k < |run| ==> VerdictAt(run, k) == UnprunedVerdictAt(run, k)) <==> d == 0
  {
    hide VerdictAt, UnprunedVerdictAt, Skewed, ForgottenRun;
    if d == 0 {
      forall run, k | Skewed(run, d) && 0 <= k < |run|
        ensures VerdictAt(run, k) == UnprunedVerdictAt(run, k)
      {
        PruningIsInvisible(run, k);
      }
    } else {
      ForgottenRunLate(d);
      ForgottenAdmits();
      ForgottenRefuses();
    }
  }

  // ----- Bytes

  /** No upload is larger than `x`. */
  ghost predicate UpTo(run: seq<Upload>, x: nat) {
    forall i :: 0 <= i < |run| ==> Length(run[i].byteLen) <= x
  }

  /** No ordered run of uploads up to `x` bytes lets a user upload more than `b` bytes in a minute. */
  ghost predicate BytesWithin(x: nat, b: int) {
    forall run, user, from :: Skewed(run, 0) && UpTo(run, x) ==> Tally(Bytes, run, user, from, |run|) <= b
  }

  function BytesRun(y: nat): seq<Upload> {
    [Upload(1, 0, 0), Upload(1, MAX_BYTES_PER_MIN, RATE_WINDOW - 1), Upload(1, y, RATE_WINDOW)]
  }

  lemma BytesRunTally(y: nat)
    ensures Tally(Bytes, BytesRun(y), 1, 1, 3) == MAX_BYTES_PER_MIN + y
  {
    var run := BytesRun(y);
    var w := Window(0, MAX_BYTES_PER_MIN, 2);
    var none: map<int, Window> := map[];
    assert Checked(none, 1, 0, 0) == map[1 := Window(0, 0, 1)];
    assert Checked(map[1 := Window(0, 0, 1)], 1, MAX_BYTES_PER_MIN, RATE_WINDOW - 1) == map[1 := w];
    hide Checked;
    assert TableAfter(run, 0) == none;
    assert TableAfter(run, 1) == map[1 := Window(0, 0, 1)];
    assert TableAfter(run, 2) == map[1 := w];
    assert Tally(Bytes, run, 1, 1, 0) == 0;
    assert Tally(Bytes, run, 1, 1, 1) == 0;
    assert Tally(Bytes, run, 1, 1, 2) == MAX_BYTES_PER_MIN;
  }

  lemma BytesBounded(x: nat)
    requires x <= MAX_BYTES_PER_MIN
    ensures BytesWithin(x, 2 * MAX_BYTES_PER_MIN)
  {
    hide Tally, Skewed;
    forall run, user, from | Skewed(run, 0) && UpTo(run, x)
      ensures Tally(Bytes, run, user, from, |run|) <= 2 * MAX_BYTES_PER_MIN
    {
      assert Fits(Bytes, run, user);
      MinuteBound(Bytes, run, user, from, 0);
    }
  }

  lemma BytesReached(x: nat, y: nat)
    requires y <= x && MAX_BYTES_PER_MIN <= x
    ensures !BytesWithin(x, MAX_BYTES_PER_MIN + y - 1)
  {
    BytesRunTally(y);
    hide Tally;
    assert UpTo(BytesRun(y), x);
    assert Skewed(BytesRun(y), 0);
    hide BytesRun;
  }

  lemma WithinLess(x: nat, b: int)
    ensures BytesWithin(x, b) && b <= 2 * MAX_BYTES_PER_MIN - 1 ==> BytesWithin(x, 2 * MAX_BYTES_PER_MIN - 1)
  {
    hide Tally, Skewed, UpTo;
  }

  /** The minute is held to twice the byte limit exactly when no upload alone is larger than the limit, and to no less. */
  lemma BytesWithinIff(x: nat, b: int)
    ensures BytesWithin(x, 2 * MAX_BYTES_PER_MIN) <==> x <= MAX_BYTES_PER_MIN
    ensures BytesWithin(MAX_BYTES_PER_MIN, b) ==> b >= 2 * MAX_BYTES_PER_MIN
  {
    hide BytesWithin;
    if x <= MAX_BYTES_PER_MIN {
      BytesBounded(x);
    } else {
      BytesReached(x, MAX_BYTES_PER_MIN + 1);
    }
    BytesReached(MAX_BYTES_PER_MIN, MAX_BYTES_PER_MIN);
    WithinLess(MAX_BYTES_PER_MIN, b);
  }
}
