/** The per-user upload window of pkg/sessionupload/ratelimit.go; times are in nanoseconds. */
module UploadLimiter {
  import opened Options

  const RATE_WINDOW: int := 60_000_000_000
  const MAX_BYTES_PER_MIN: int := 48 * 1024 * 1024
  const MAX_UPLOADS_PER_MIN: int := 80
  const PRUNE_ENTRIES: int := 4096

  datatype Window = Window(start: int, bytes: int, n: int)

  datatype Verdict = Admitted | TooManyUploads | TooManyBytes

  /** A negative length is taken for zero. */
  function Length(byteLen: int): (b: nat)
    ensures b == byteLen || (byteLen < 0 && b == 0)
  {
    if byteLen < 0 then 0 else byteLen
  }

  predicate Live(w: Option<Window>, now: int) {
    w.Some? && now - w.value.start < RATE_WINDOW
  }

  /** One check against the user's window; a fresh or expired one is replaced without a look at the size. */
  function Charge(w: Option<Window>, byteLen: int, now: int): (Option<Window>, Verdict) {
    var b := Length(byteLen);
    if !Live(w, now) then (Some(Window(now, b, 1)), Admitted)
    else if w.value.n >= MAX_UPLOADS_PER_MIN then (w, TooManyUploads)
    else if w.value.bytes + b > MAX_BYTES_PER_MIN then (w, TooManyBytes)
    else (Some(Window(w.value.start, w.value.bytes + b, w.value.n + 1)), Admitted)
  }

  function Lookup(perUser: map<int, Window>, user: int): Option<Window> {
    if user in perUser then Some(perUser[user]) else None
  }

  /** A large table keeps only the windows that are still open. */
  function Pruned(perUser: map<int, Window>, now: int): map<int, Window> {
    if |perUser| < PRUNE_ENTRIES then perUser
    else map u | u in perUser && Live(Some(perUser[u]), now) :: perUser[u]
  }

  /** The table after a check that never prunes. */
  function Charged(perUser: map<int, Window>, user: int, byteLen: int, now: int): map<int, Window> {
    match Charge(Lookup(perUser, user), byteLen, now).0
    case Some(w) => perUser[user := w]
    case None => perUser
  }

  /** The table after a check of the limiter: pruned when the upload was admitted. */
  function Checked(perUser: map<int, Window>, user: int, byteLen: int, now: int): map<int, Window> {
    var charged := Charged(perUser, user, byteLen, now);
    if Charge(Lookup(perUser, user), byteLen, now).1 == Admitted then Pruned(charged, now) else charged
  }

  class Limiter {
    var perUser: map<int, Window>

    constructor ()
      ensures perUser == map[]
    {
      perUser := map[];
    }

    method CheckPutSessionFile(user: int, byteLen: int, now: int) returns (verdict: Verdict)
      modifies this
      ensures verdict == Charge(Lookup(old(perUser), user), byteLen, now).1
      ensures perUser == Checked(old(perUser), user, byteLen, now)
    {
      var b := if byteLen < 0 then 0 else byteLen;
      if user !in perUser || now - perUser[user].start >= RATE_WINDOW {
        perUser := perUser[user := Window(now, b, 1)];
        MaybePrune(now);
        return Admitted;
      }
      var w := perUser[user];
      if w.n >= MAX_UPLOADS_PER_MIN {
        assert perUser[user := w] == perUser;
        return TooManyUploads;
      }
      if w.bytes + b > MAX_BYTES_PER_MIN {
        assert perUser[user := w] == perUser;
        return TooManyBytes;
      }
      perUser := perUser[user := Window(w.start, w.bytes + b, w.n + 1)];
      MaybePrune(now);
      return Admitted;
    }

    method MaybePrune(now: int)
      modifies this
      ensures perUser == Pruned(old(perUser), now)
    {
      if |perUser| < PRUNE_ENTRIES {
        return;
      }
      var all := perUser;
      var left: set<int> := perUser.Keys;
      while left != {}
        invariant left <= all.Keys
        invariant perUser == map u | u in all && (u in left || Live(Some(all[u]), now)) :: all[u]
        decreases left
      {
        assert (forall uid :: uid !in left) ==> left == {};
        var uid :| uid in left;
        left := left - {uid};
        if now - perUser[uid].start >= RATE_WINDOW {
          perUser := perUser - {uid};
        }
      }
    }
  }

  // ----- Runs

  datatype Upload = Upload(user: int, byteLen: int, at: int)

  /**
   * A check reads the clock before it waits for the lock, so checks need not be served in the order of their
   * readings: here none is more than `d` behind a reading that was served before it.
   */
  ghost predicate Skewed(run: seq<Upload>, d: nat) {
    forall i, j :: 0 <= i < j < |run| ==> run[i].at - d <= run[j].at
  }

  /** The limiter's table after the first `k` checks. */
  function TableAfter(run: seq<Upload>, k: nat): map<int, Window>
    requires k <= |run|
  {
    if k == 0 then map[]
    else Checked(TableAfter(run, k - 1), run[k - 1].user, run[k - 1].byteLen, run[k - 1].at)
  }

  function VerdictAt(run: seq<Upload>, k: nat): Verdict
    requires k < |run|
  {
    Charge(Lookup(TableAfter(run, k), run[k].user), run[k].byteLen, run[k].at).1
  }

  /** One user's window after the first `k` checks. */
  function WindowAt(run: seq<Upload>, user: int, k: nat): Option<Window>
    requires k <= |run|
  {
    Lookup(TableAfter(run, k), user)
  }

  /** The same for a limiter that never prunes. */
  function WindowAfter(run: seq<Upload>, user: int, k: nat): Option<Window>
    requires k <= |run|
  {
    if k == 0 then None
    else
      var before, u := WindowAfter(run, user, k - 1), run[k - 1];
      if u.user == user then Charge(before, u.byteLen, u.at).0 else before
  }

  function UnprunedVerdictAt(run: seq<Upload>, k: nat): Verdict
    requires k < |run|
  {
    Charge(WindowAfter(run, run[k].user, k), run[k].byteLen, run[k].at).1
  }

  // ----- Pruning is invisible

  /** The same window, or none where the other one has expired for good. */
  ghost predicate Agrees(pruned: Option<Window>, kept: Option<Window>, now: int) {
    pruned == kept || (pruned.None? && !Live(kept, now))
  }

  lemma CheckedAgrees(perUser: map<int, Window>, u: Upload, user: int, kept: Option<Window>)
    requires Agrees(Lookup(perUser, user), kept, u.at)
    ensures var next := if u.user == user then Charge(kept, u.byteLen, u.at).0 else kept;
            Agrees(Lookup(Checked(perUser, u.user, u.byteLen, u.at), user), next, u.at)
  {
    assert Charge(Lookup(perUser, user), u.byteLen, u.at) == Charge(kept, u.byteLen, u.at);
    var next := if u.user == user then Charge(kept, u.byteLen, u.at).0 else kept;
    var charged := Charged(perUser, u.user, u.byteLen, u.at);
    assert Agrees(Lookup(charged, user), next, u.at);
    assert Agrees(Lookup(Pruned(charged, u.at), user), next, u.at);
    hide Pruned, Charged, Charge;
  }

  lemma AgreesLater(pruned: Option<Window>, kept: Option<Window>, now: int, later: int)
    requires Agrees(pruned, kept, now) && now <= later
    ensures Agrees(pruned, kept, later)
  {
  }

  lemma {:induction false} TableAgrees(run: seq<Upload>, user: int, k: nat, now: int)
    requires Skewed(run, 0) && k <= |run| && (k > 0 ==> run[k - 1].at <= now)
    ensures Agrees(WindowAt(run, user, k), WindowAfter(run, user, k), now)
    decreases k
  {
    hide Checked, Charge, Agrees;
    if k > 0 {
      TableAgrees(run, user, k - 1, run[k - 1].at);
      CheckedAgrees(TableAfter(run, k - 1), run[k - 1], user, WindowAfter(run, user, k - 1));
      AgreesLater(WindowAt(run, user, k), WindowAfter(run, user, k), run[k - 1].at, now);
    } else {
      NothingAgrees(now);
    }
  }

  lemma NothingAgrees(now: int)
    ensures Agrees(Lookup(map[], 0), None, now) && forall user :: Lookup(map[], user) == None
  {
  }

  /** While the clock does not go back, every answer is the one a limiter that never prunes would give. */
  lemma PruningIsInvisible(run: seq<Upload>, k: nat)
    requires Skewed(run, 0) && k < |run|
    ensures VerdictAt(run, k) == UnprunedVerdictAt(run, k)
  {
    var u := run[k];
    TableAgrees(run, u.user, k, u.at);
    assert Charge(WindowAt(run, u.user, k), u.byteLen, u.at) == Charge(WindowAfter(run, u.user, k), u.byteLen, u.at);
    hide Charge, Agrees, TableAfter;
  }

  /** The table is below the pruning size after each of the first `k` checks. */
  ghost predicate StaysSmall(run: seq<Upload>, k: nat)
    requires k <= |run|
  {
    forall i :: 0 <= i < k ==> |Charged(TableAfter(run, i), run[i].user, run[i].byteLen, run[i].at)| < PRUNE_ENTRIES
  }

  lemma ChargedLookup(perUser: map<int, Window>, u: Upload, user: int)
    ensures Lookup(Charged(perUser, u.user, u.byteLen, u.at), user) ==
              if u.user == user then Charge(Lookup(perUser, user), u.byteLen, u.at).0 else Lookup(perUser, user)
  {
  }

  /** A small table is not pruned at all, whatever the clock does. */
  lemma {:induction false} SmallTableIsUnpruned(run: seq<Upload>, user: int, k: nat)
    requires k <= |run| && StaysSmall(run, k)
    ensures WindowAt(run, user, k) == WindowAfter(run, user, k)
    decreases k
  {
    hide Charge, Charged, Checked, StaysSmall;
    if k > 0 {
      var u := run[k - 1];
      SmallBefore(run, k);
      SmallTableIsUnpruned(run, user, k - 1);
      ChargedLookup(TableAfter(run, k - 1), u, user);
      NotPruned(TableAfter(run, k - 1), u);
    }
  }

  lemma SmallBefore(run: seq<Upload>, k: nat)
    requires 0 < k <= |run| && StaysSmall(run, k)
    ensures StaysSmall(run, k - 1)
    ensures |Charged(TableAfter(run, k - 1), run[k - 1].user, run[k - 1].byteLen, run[k - 1].at)| < PRUNE_ENTRIES
  {
    hide Charged, TableAfter;
  }

  lemma NotPruned(perUser: map<int, Window>, u: Upload)
    requires |Charged(perUser, u.user, u.byteLen, u.at)| < PRUNE_ENTRIES
    ensures Checked(perUser, u.user, u.byteLen, u.at) == Charged(perUser, u.user, u.byteLen, u.at)
  {
    hide Charged;
  }

  /** What a check leaves of a user's window: what it was charged, or nothing if it had expired and was pruned. */
  lemma CheckedLookup(perUser: map<int, Window>, u: Upload, user: int)
    ensures var next := if u.user == user then Charge(Lookup(perUser, user), u.byteLen, u.at).0 else Lookup(perUser, user);
            var now := Lookup(Checked(perUser, u.user, u.byteLen, u.at), user);
            now == next || (now == None && next.Some? && !Live(next, u.at))
  {
    hide Charge, Charged;
    ChargedLookup(perUser, u, user);
  }

  // ----- What one minute can hold

  /** Uploads are counted, or their bytes are. */
  datatype Measure = Uploads | Bytes

  function Weight(m: Measure, byteLen: int): nat {
    if m.Uploads? then 1 else Length(byteLen)
  }

  function Used(m: Measure, w: Window): int {
    if m.Uploads? then w.n else w.bytes
  }

  function Cap(m: Measure): int {
    if m.Uploads? then MAX_UPLOADS_PER_MIN else MAX_BYTES_PER_MIN
  }

  /** What one user was let to upload in [from, from + one minute), among the first `k` checks. */
  function Tally(m: Measure, run: seq<Upload>, user: int, from: int, k: nat): nat
    requires k <= |run|
  {
    if k == 0 then 0
    else
      var u := run[k - 1];
      Tally(m, run, user, from, k - 1) +
      if u.user == user && from <= u.at < from + RATE_WINDOW && VerdictAt(run, k - 1) == Admitted
      then Weight(m, u.byteLen) else 0
  }

  /** What the upload that opens a window weighs at least. */
  function Opener(m: Measure): int {
    if m.Uploads? then 1 else 0
  }

  /** No single upload of the user is larger than a whole window. */
  ghost predicate Fits(m: Measure, run: seq<Upload>, user: int) {
    forall i :: 0 <= i < |run| && run[i].user == user ==> Weight(m, run[i].byteLen) <= Cap(m)
  }

  // ----- A window and the uploads it has taken

  /** What the checks `i` to `k` - 1 admitted of one user. */
  function Admissions(m: Measure, run: seq<Upload>, user: int, i: nat, k: nat): nat
    requires i <= k <= |run|
  {
    if i == k then 0
    else
      var u := run[k - 1];
      Admissions(m, run, user, i, k - 1) +
      if u.user == user && VerdictAt(run, k - 1) == Admitted then Weight(m, u.byteLen) else 0
  }

  /** The check `i` opened the window that the user has after `k` checks. */
  ghost predicate OpenedBy(run: seq<Upload>, user: int, k: nat, i: nat)
    requires k <= |run|
  {
    && i < k && run[i].user == user && !Live(WindowAt(run, user, i), run[i].at)
    && WindowAt(run, user, k).Some? && WindowAt(run, user, k).value.start == run[i].at
    && WindowAt(run, user, k).value.n == Admissions(Uploads, run, user, i, k)
    && WindowAt(run, user, k).value.bytes == Admissions(Bytes, run, user, i, k)
  }

  /** Count and bytes of a window are what was admitted from the check that opened it on, in any run. */
  lemma {:induction false} WindowIsAdmissions(run: seq<Upload>, user: int, k: nat) returns (i: nat)
    requires k <= |run|
    ensures WindowAt(run, user, k).Some? ==> OpenedBy(run, user, k, i)
    decreases k
  {
    i := 0;
    if k > 0 {
      var u, before := run[k - 1], WindowAt(run, user, k - 1);
      hide Checked, TableAfter;
      i := WindowIsAdmissions(run, user, k - 1);
      WindowNext(run, user, k - 1);
      if u.user == user && !Live(before, u.at) {
        i := k - 1;
        assert Admissions(Uploads, run, user, k - 1, k - 1) == 0 == Admissions(Bytes, run, user, k - 1, k - 1);
      }
    }
  }

  lemma WindowNext(run: seq<Upload>, user: int, k: nat)
    requires k < |run|
    ensures var before, u := WindowAt(run, user, k), run[k];
            var next := if u.user == user then Charge(before, u.byteLen, u.at).0 else before;
            var now := WindowAt(run, user, k + 1);
            now == next || (now == None && next.Some? && !Live(next, u.at))
  {
    hide Charge, Checked, Live;
    CheckedLookup(TableAfter(run, k), run[k], user);
  }

  /**
   * In any run an upload is admitted exactly when no window of the user is open, or what was admitted from
   * the check that opened it on leaves room for it in count and in bytes; of two limits passed the count is named.
   */
  lemma AdmittedIff(run: seq<Upload>, k: nat) returns (i: nat)
    requires k < |run|
    ensures var u := run[k];
            var w := WindowAt(run, u.user, k);
            var open := w.Some? && u.at - w.value.start < RATE_WINDOW;
            && (w.Some? ==> OpenedBy(run, u.user, k, i))
            && (VerdictAt(run, k) == Admitted <==>
                  !open
                  || (Admissions(Uploads, run, u.user, i, k) < MAX_UPLOADS_PER_MIN
                      && Admissions(Bytes, run, u.user, i, k) + Length(u.byteLen) <= MAX_BYTES_PER_MIN))
            && (VerdictAt(run, k) == TooManyUploads <==> open && Admissions(Uploads, run, u.user, i, k) >= MAX_UPLOADS_PER_MIN)
  {
    i := WindowIsAdmissions(run, run[k].user, k);
    hide Admissions, TableAfter;
  }

  /**
   * The upload that opens a window is never held against the byte limit, every later one is: the window
   * stays within the limit exactly when the upload that opened it does, and one that does not takes no
   * second upload.
   */
  lemma {:induction false} WindowBytesIff(run: seq<Upload>, user: int, k: nat) returns (i: nat)
    requires k <= |run|
    ensures var w := WindowAt(run, user, k);
            w.Some? ==>
              && i < k && run[i].user == user && !Live(WindowAt(run, user, i), run[i].at) && w.value.start == run[i].at
              && (w.value.bytes <= MAX_BYTES_PER_MIN <==> Length(run[i].byteLen) <= MAX_BYTES_PER_MIN)
              && (w.value.bytes > MAX_BYTES_PER_MIN ==> w.value.n == 1)
    decreases k
  {
    i := 0;
    if k > 0 {
      hide Checked, TableAfter;
      i := WindowBytesIff(run, user, k - 1);
      WindowNext(run, user, k - 1);
      if run[k - 1].user == user && !Live(WindowAt(run, user, k - 1), run[k - 1].at) {
        i := k - 1;
      }
    }
  }
}
