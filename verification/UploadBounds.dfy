/**
 * What one minute can hold of one user's uploads under the limiter of pkg/sessionupload/ratelimit.go, by how
 * far the clock readings of the checks are out of the order in which they are served.
 */
module UploadBounds {
  import opened Options
  import opened UploadLimiter

  // ----- Arithmetic

  lemma MulBound(q: int, g: int, x: int)
    requires 0 < g && q * g <= x
    ensures q <= x / g
  {
    MulNext(x / g, g);
    assert q < (x / g + 1) by {
      if (x / g + 1) <= q {
        MulGrows((x / g + 1), q, g);
      }
    }
  }

  lemma MulGrows(a: int, b: int, g: int)
    requires a <= b && 0 < g
    ensures a * g <= b * g
  {
  }

  lemma MulNext(c: int, g: int)
    ensures (c + 1) * g == c * g + g
  {
  }

  /** The latest reading among the first `k` checks. */
  function Latest(run: seq<Upload>, k: nat): int
    requires 0 < k <= |run|
  {
    if k == 1 || run[k - 1].at > Latest(run, k - 1) then run[k - 1].at else Latest(run, k - 1)
  }

  lemma {:induction false} LatestIs(run: seq<Upload>, k: nat, d: nat)
    requires Skewed(run, d) && 0 < k < |run|
    ensures Latest(run, k) - d <= run[k].at
    decreases k
  {
    if k > 1 {
      LatestIs(run, k - 1, d);
      assert run[k - 1].at - d <= run[k].at;
      LatestAmong(run, k);
      var i :| 0 <= i < k && run[i].at == Latest(run, k);
      assert run[i].at - d <= run[k].at;
    }
  }

  lemma {:induction false} LatestAmong(run: seq<Upload>, k: nat)
    requires 0 < k <= |run|
    ensures exists i :: 0 <= i < k && run[i].at == Latest(run, k)
  {
    if k == 1 || run[k - 1].at > Latest(run, k - 1) {
      assert run[k - 1].at == Latest(run, k);
    } else {
      LatestAmong(run, k - 1);
    }
  }

  // ----- The limiter as it is

  /** How many windows of a user can reach into one minute, when readings are at most `d` late. */
  function Windows(d: nat): nat
    requires d < RATE_WINDOW
  {
    2 + (RATE_WINDOW + d - 2) / (RATE_WINDOW - d)
  }

  /**
   * A tally since `from`, the window open now and the `c` windows before it that the tally reaches into. Each
   * of these was followed by a reading a whole window after its start; `inside` when the first of all these
   * windows was opened since `from`, so that the tally may hold the upload that opened it.
   */
  ghost predicate Chain(m: Measure, w: Option<Window>, total: int, c: nat, inside: bool, latest: int, from: int, d: nat)
    requires d < RATE_WINDOW
  {
    var g := RATE_WINDOW - d;
    var least := if inside then from else from - RATE_WINDOW + 1;
    var spared := if inside then 0 else Opener(m);
    && (w.Some? ==> Opener(m) <= Used(m, w.value) <= Cap(m))
    && 0 <= total
    && (total > 0 ==>
          && (w.Some? ==> total <= c * Cap(m) + Used(m, w.value) - spared && w.value.start >= least + c * g)
          && (w.None? ==> 1 <= c && total <= c * Cap(m) - spared)
          && (c >= 1 ==> latest >= least + RATE_WINDOW + (c - 1) * g))
  }

  /** A window that has expired, at a reading served by then, joins those before. */
  lemma ChainExpires(m: Measure, w: Option<Window>, total: int, c: nat, inside: bool, latest: int, from: int, d: nat, now: int)
    returns (more: nat)
    requires d < RATE_WINDOW && Chain(m, w, total, c, inside, latest, from, d)
    requires w.Some? && !Live(w, now) && now <= latest
    ensures Chain(m, None, total, more, inside, latest, from, d)
  {
    more := c + 1;
    MulNext(c, Cap(m));
  }

  /** The first upload of a new window. */
  lemma ChainOpens(m: Measure, total: int, c: nat, inside: bool, latest: int, from: int, d: nat, byteLen: int, now: int)
    returns (more: nat, within: bool)
    requires d < RATE_WINDOW && Chain(m, None, total, c, inside, latest, from, d)
    requires latest - d <= now <= latest && Weight(m, byteLen) <= Cap(m)
    ensures var added := if from <= now < from + RATE_WINDOW then Weight(m, byteLen) else 0;
            Chain(m, Charge(None, byteLen, now).0, total + added, more, within, latest, from, d)
  {
    more, within := c, inside;
    if total > 0 {
      MulNext(c - 1, RATE_WINDOW - d);
    } else {
      more, within := 0, true;
    }
  }

  /** A further upload of a window that is open. */
  lemma ChainGoesOn(m: Measure, w: Option<Window>, total: int, c: nat, inside: bool, latest: int, from: int, d: nat, byteLen: int, now: int)
    returns (more: nat, within: bool)
    requires d < RATE_WINDOW && Chain(m, w, total, c, inside, latest, from, d) && Live(w, now)
    ensures var (next, verdict) := Charge(w, byteLen, now);
            var added := if from <= now < from + RATE_WINDOW && verdict == Admitted then Weight(m, byteLen) else 0;
            Chain(m, next, total + added, more, within, latest, from, d)
  {
    more, within := c, inside;
    if total == 0 {
      more, within := 0, w.value.start >= from;
    }
  }

  /** A tally that is just being added to reaches into a bounded number of windows. */
  lemma ChainBound(m: Measure, w: Option<Window>, total: int, c: nat, inside: bool, latest: int, from: int, d: nat)
    requires d < RATE_WINDOW && Chain(m, w, total, c, inside, latest, from, d)
    requires w.Some? && latest - d < from + RATE_WINDOW
    ensures total <= Windows(d) * Cap(m) - Opener(m)
  {
    var g := RATE_WINDOW - d;
    var n := Windows(d);
    if total > 0 {
      if c == 0 {
        assert Windows(d) >= 2;
        MulGrows(2, n, Cap(m));
      } else if inside {
        MulBound(c - 1, g, d - 1);
        assert (d - 1) / (RATE_WINDOW - d) + 2 <= Windows(d) - 1 by {
          var g := RATE_WINDOW - d;
          if d >= 1 {
            MulNext((d - 1) / g, g);
            MulBound((d - 1) / g + 1, g, RATE_WINDOW + d - 2);
          } else {
            MulBound(-1, g, -1);
            MulBound(0, g, RATE_WINDOW - 2);
          }
        }
        MulGrows(c + 1, n - 1, Cap(m));
        MulNext(n - 1, Cap(m));
        MulNext(c, Cap(m));
      } else {
        MulBound(c - 1, g, RATE_WINDOW + d - 2);
        MulGrows(c + 1, n, Cap(m));
        MulNext(c, Cap(m));
      }
    } else {
      assert Windows(d) >= 2;
      MulGrows(2, n, Cap(m));
    }
  }

  function Bound(m: Measure, d: nat): int
    requires d < RATE_WINDOW
  {
    Windows(d) * Cap(m) - Opener(m)
  }

  lemma BoundPositive(m: Measure, d: nat)
    requires d < RATE_WINDOW
    ensures 0 <= Bound(m, d)
  {
    assert Windows(d) >= 2;
    MulGrows(2, Windows(d), Cap(m));
  }

  /** One check of the user itself, before any pruning. */
  lemma ChainCharge(m: Measure, w: Option<Window>, total: int, c: nat, inside: bool, latest: int, from: int, d: nat, byteLen: int, now: int)
    returns (more: nat, within: bool)
    requires d < RATE_WINDOW && Chain(m, w, total, c, inside, latest, from, d) && total <= Bound(m, d)
    requires latest - d <= now <= latest && Weight(m, byteLen) <= Cap(m)
    ensures var (next, verdict) := Charge(w, byteLen, now);
            var added := if from <= now < from + RATE_WINDOW && verdict == Admitted then Weight(m, byteLen) else 0;
            Chain(m, next, total + added, more, within, latest, from, d) && total + added <= Bound(m, d)
  {
    var (next, verdict) := Charge(w, byteLen, now);
    var added := if from <= now < from + RATE_WINDOW && verdict == Admitted then Weight(m, byteLen) else 0;
    if Live(w, now) {
      more, within := ChainGoesOn(m, w, total, c, inside, latest, from, d, byteLen, now);
    } else {
      var before := c;
      if w.Some? {
        before := ChainExpires(m, w, total, c, inside, latest, from, d, now);
      }
      more, within := ChainOpens(m, total, before, inside, latest, from, d, byteLen, now);
    }
    hide Chain;
    if added > 0 {
      ChainBound(m, next, total + added, more, within, latest, from, d);
    }
  }

  /** One check of anybody, with the pruning that follows it. */
  lemma ChainCheck(m: Measure, perUser: map<int, Window>, u: Upload, user: int, total: int, c: nat, inside: bool, latest: int, from: int, d: nat)
    returns (more: nat, within: bool)
    requires d < RATE_WINDOW && Chain(m, Lookup(perUser, user), total, c, inside, latest, from, d) && total <= Bound(m, d)
    requires latest - d <= u.at <= latest && (u.user == user ==> Weight(m, u.byteLen) <= Cap(m))
    ensures var verdict := Charge(Lookup(perUser, u.user), u.byteLen, u.at).1;
            var added := if u.user == user && from <= u.at < from + RATE_WINDOW && verdict == Admitted
                         then Weight(m, u.byteLen) else 0;
            && Chain(m, Lookup(Checked(perUser, u.user, u.byteLen, u.at), user), total + added, more, within, latest, from, d)
            && total + added <= Bound(m, d)
  {
    more, within := c, inside;
    CheckedLookup(perUser, u, user);
    hide Charge, Checked, Chain, Weight, Bound, Live;
    var w := Lookup(perUser, user);
    var next, sum := w, total;
    if u.user == user {
      more, within := ChainCharge(m, w, total, c, inside, latest, from, d, u.byteLen, u.at);
      next := Charge(w, u.byteLen, u.at).0;
      sum := total + if from <= u.at < from + RATE_WINDOW && Charge(w, u.byteLen, u.at).1 == Admitted then Weight(m, u.byteLen) else 0;
    }
    if Lookup(Checked(perUser, u.user, u.byteLen, u.at), user) != next {
      more := ChainExpires(m, next, sum, more, within, latest, from, d, u.at);
    }
  }

  lemma EmptyChain(m: Measure, inside: bool, from: int, d: nat, user: int)
    requires d < RATE_WINDOW
    ensures Chain(m, Lookup(map[], user), 0, 0, inside, 0, from, d)
  {
  }

  lemma {:induction false} RunChain(m: Measure, run: seq<Upload>, user: int, from: int, d: nat, k: nat) returns (c: nat, inside: bool)
    requires d < RATE_WINDOW && Skewed(run, d) && Fits(m, run, user) && k <= |run|
    ensures Chain(m, WindowAt(run, user, k), Tally(m, run, user, from, k), c, inside, if k == 0 then 0 else Latest(run, k), from, d)
    ensures Tally(m, run, user, from, k) <= Bound(m, d)
    decreases k
  {
    hide Charge, Checked, Chain, Weight, Bound, Lookup;
    if k == 0 {
      c, inside := 0, false;
      BoundPositive(m, d);
      EmptyChain(m, inside, from, d, user);
    } else {
      c, inside := RunChain(m, run, user, from, d, k - 1);
      if k > 1 {
        LatestIs(run, k - 1, d);
      }
      NothingYet(m, run, user, from, k, c, inside, d);
      assert Latest(run, k) - d <= run[k - 1].at <= Latest(run, k);
      hide Latest, Skewed;
      c, inside := ChainCheck(m, TableAfter(run, k - 1), run[k - 1], user, Tally(m, run, user, from, k - 1), c, inside,
                              Latest(run, k), from, d);
    }
  }

  /** The account of the checks before one holds at its own latest reading. */
  lemma NothingYet(m: Measure, run: seq<Upload>, user: int, from: int, k: nat, c: nat, inside: bool, d: nat)
    requires 0 < k <= |run| && d < RATE_WINDOW
    requires Chain(m, WindowAt(run, user, k - 1), Tally(m, run, user, from, k - 1), c, inside,
                   if k == 1 then 0 else Latest(run, k - 1), from, d)
    ensures Chain(m, WindowAt(run, user, k - 1), Tally(m, run, user, from, k - 1), c, inside, Latest(run, k), from, d)
  {
    if k > 1 {
      assert Chain(m, WindowAt(run, user, k - 1), Tally(m, run, user, from, k - 1), c, inside, Latest(run, k), from, d);
    } else {
      hide Checked;
      assert TableAfter(run, 0) == map[] && Tally(m, run, user, from, 0) == 0;
    }
  }

  /** Readings at most `d` late, d below one minute: a minute reaches into at most Windows(d) windows. */
  lemma MinuteBound(m: Measure, run: seq<Upload>, user: int, from: int, d: nat)
    requires d < RATE_WINDOW && Skewed(run, d) && Fits(m, run, user)
    ensures Tally(m, run, user, from, |run|) <= Windows(d) * Cap(m) - Opener(m)
  {
    var c, inside := RunChain(m, run, user, from, d, |run|);
    hide Tally, Chain, Windows, Fits, Skewed, TableAfter;
  }

  // ----- A table that stays small

  /** The same without pruning, where windows follow each other at a whole window's distance. */
  function SmallWindows(d: nat): nat {
    2 + (RATE_WINDOW + d - 2) / RATE_WINDOW
  }

  /** How many windows before one started at `start` can reach into the minute. */
  function Earlier(start: int, from: int): int {
    (start - from + RATE_WINDOW - 1) / RATE_WINDOW
  }

  ghost predicate SmallChain(m: Measure, w: Option<Window>, total: int, from: int) {
    && (w.Some? ==> Opener(m) <= Used(m, w.value) <= Cap(m))
    && 0 <= total
    && (total > 0 ==>
          && w.Some? && w.value.start > from - RATE_WINDOW
          && total <= (Cap(m) - Opener(m)) * Earlier(w.value.start, from) + Used(m, w.value)
                      - if w.value.start < from then Opener(m) else 0)
  }

  function SmallBound(m: Measure, d: nat): int {
    (Cap(m) - Opener(m)) * SmallWindows(d) + Opener(m)
  }

  lemma EarlierNext(start: int, now: int, from: int)
    requires start + RATE_WINDOW <= now && start > from - RATE_WINDOW
    ensures Earlier(start, from) + 1 <= Earlier(now, from) && 0 <= Earlier(start, from)
  {
  }

  lemma SmallChainCharge(m: Measure, w: Option<Window>, total: int, from: int, d: nat, byteLen: int, now: int)
    requires SmallChain(m, w, total, from) && total <= SmallBound(m, d) && Weight(m, byteLen) <= Cap(m)
    requires w.Some? ==> w.value.start - d <= now
    ensures var (next, verdict) := Charge(w, byteLen, now);
            var added := if from <= now < from + RATE_WINDOW && verdict == Admitted then Weight(m, byteLen) else 0;
            SmallChain(m, next, total + added, from) && total + added <= SmallBound(m, d)
  {
    hide SmallWindows, Earlier, SmallChain, SmallBound;
    if Live(w, now) {
      if from <= now < from + RATE_WINDOW {
        SmallGoesOn(m, w, total, from, d, byteLen, now);
      } else {
        SmallElsewhere(m, w, total, from, byteLen, now);
      }
    } else {
      SmallOpens(m, w, total, from, d, byteLen, now);
    }
  }

  lemma SmallElsewhere(m: Measure, w: Option<Window>, total: int, from: int, byteLen: int, now: int)
    requires SmallChain(m, w, total, from) && Live(w, now)
    ensures SmallChain(m, Charge(w, byteLen, now).0, total, from)
  {
    hide Earlier;
  }

  lemma SmallGoesOn(m: Measure, w: Option<Window>, total: int, from: int, d: nat, byteLen: int, now: int)
    requires SmallChain(m, w, total, from) && total <= SmallBound(m, d) && Live(w, now)
    requires w.value.start - d <= now && from <= now < from + RATE_WINDOW
    ensures var (next, verdict) := Charge(w, byteLen, now);
            var added := if verdict == Admitted then Weight(m, byteLen) else 0;
            SmallChain(m, next, total + added, from) && total + added <= SmallBound(m, d)
  {
    hide SmallWindows, Earlier;
    var g := Cap(m) - Opener(m);
    EarlierBound(w.value.start, from, d);
    MulGrows(Earlier(w.value.start, from), SmallWindows(d) - 1, g);
    MulNext(SmallWindows(d) - 1, g);
    if total == 0 && w.value.start > from - RATE_WINDOW {
      MulGrows(0, Earlier(w.value.start, from), g);
    }
  }

  lemma SmallOpens(m: Measure, w: Option<Window>, total: int, from: int, d: nat, byteLen: int, now: int)
    requires SmallChain(m, w, total, from) && total <= SmallBound(m, d) && Weight(m, byteLen) <= Cap(m) && !Live(w, now)
    ensures var added := if from <= now < from + RATE_WINDOW then Weight(m, byteLen) else 0;
            SmallChain(m, Charge(w, byteLen, now).0, total + added, from) && total + added <= SmallBound(m, d)
  {
    hide SmallWindows, Earlier;
    assert total > 0 ==> now > from && total <= Already(m, now, from) by {
      var g := Cap(m) - Opener(m);
      hide Earlier;
      if total > 0 {
        EarlierNext(w.value.start, now, from);
        MulGrows(Earlier(w.value.start, from) + 1, Earlier(now, from), g);
        MulNext(Earlier(w.value.start, from), g);
      }
    }
    hide SmallChain;
    var added := if from <= now < from + RATE_WINDOW then Weight(m, byteLen) else 0;
    if added > 0 {
      assert total + Cap(m) <= SmallBound(m, d) by {
        var g := Cap(m) - Opener(m);
        EarlierBound(now, from, d);
        hide SmallWindows, Earlier;
        MulGrows(0, Earlier(now, from), g);
        MulGrows(Earlier(now, from), SmallWindows(d) - 1, g);
        MulNext(SmallWindows(d) - 1, g);
      }
    }
    OpenedChain(m, total, from, byteLen, now);
  }

  /** What a new window is added to: at most a window but for one upload for each one before it, if it adds to the minute. */
  function Already(m: Measure, now: int, from: int): int {
    (Cap(m) - Opener(m)) * Earlier(now, from) + if now < from + RATE_WINDOW then 0 else Opener(m)
  }

  lemma OpenedChain(m: Measure, total: int, from: int, byteLen: int, now: int)
    requires 0 <= total && Weight(m, byteLen) <= Cap(m)
    requires total > 0 ==> now > from && total <= Already(m, now, from)
    ensures var added := if from <= now < from + RATE_WINDOW then Weight(m, byteLen) else 0;
            SmallChain(m, Some(Window(now, Length(byteLen), 1)), total + added, from)
  {
    assert now >= from ==> Earlier(now, from) >= 0;
    hide Earlier;
    if from <= now {
      MulGrows(0, Earlier(now, from), Cap(m) - Opener(m));
    }
  }

  lemma EarlierBound(start: int, from: int, d: nat)
    requires start - d < from + RATE_WINDOW
    ensures Earlier(start, from) <= SmallWindows(d) - 1
    ensures start > from - RATE_WINDOW ==> 0 <= Earlier(start, from)
  {
  }

  lemma {:induction false} RunSmallChain(m: Measure, run: seq<Upload>, user: int, from: int, d: nat, k: nat)
    requires Skewed(run, d) && Fits(m, run, user) && k <= |run| && StaysSmall(run, k)
    ensures SmallChain(m, WindowAt(run, user, k), Tally(m, run, user, from, k), from)
    ensures Tally(m, run, user, from, k) <= SmallBound(m, d)
    decreases k
  {
    hide Charge, Charged, Checked, SmallChain, Weight, SmallBound, StaysSmall;
    if k == 0 {
      NoChain(m, d, from);
    } else {
      var u, w := run[k - 1], WindowAt(run, user, k - 1);
      SmallBefore(run, k);
      RunSmallChain(m, run, user, from, d, k - 1);
      NotPruned(TableAfter(run, k - 1), u);
      ChargedLookup(TableAfter(run, k - 1), u, user);
      if u.user == user {
        if w.Some? {
          var i := WindowBytesIff(run, user, k - 1);
          assert run[i].at - d <= run[k - 1].at;
        }
        hide Skewed, Fits;
        SmallChainCharge(m, w, Tally(m, run, user, from, k - 1), from, d, u.byteLen, u.at);
      }
    }
  }

  lemma NoChain(m: Measure, d: nat, from: int)
    ensures SmallChain(m, None, 0, from) && 0 <= SmallBound(m, d)
  {
  }

  /** With a table that is never pruned, readings may be any `d` late. */
  lemma SmallMinuteBound(m: Measure, run: seq<Upload>, user: int, from: int, d: nat)
    requires Skewed(run, d) && Fits(m, run, user) && StaysSmall(run, |run|)
    ensures Tally(m, run, user, from, |run|) <= (Cap(m) - Opener(m)) * SmallWindows(d) + Opener(m)
  {
    RunSmallChain(m, run, user, from, d, |run|);
    hide Tally, SmallChain, SmallWindows, Fits, Skewed, TableAfter, StaysSmall;
  }
}
