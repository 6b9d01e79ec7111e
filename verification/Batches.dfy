/** The log of postings cut into batches: the queries that walk it, which postings a batch covers, how
    many batches a log takes, and what a whole run of them keeps. */
module Batches {
  import opened Uuids
  import opened Ledger

  const DEFAULT_BATCH_SIZE := 100

  /** The most statements that one validation takes while nothing else commits. */
  const QUIET_TICKS := 8

  // ---- queries ----

  /** GetPostingsSum: without a positive limit it sums all postings of the account. */
  function PostingsSum(ps: seq<Posting>, a: Uuid, limit: int): int {
    if limit > 0 then TotalUpTo(ps, a, limit) else Total(ps, a)
  }

  /** COALESCE(MAX(id), 0) over all postings. */
  function LastId(ps: seq<Posting>): int {
    if ps == [] then 0 else Max(LastId(ps[..|ps| - 1]), ps[|ps| - 1].id)
  }

  /** No id is larger, and in a log with positive ids it is the id of a posting. */
  lemma {:induction false} LastIdIsLargest(ps: seq<Posting>)
    ensures LastId(ps) >= 0
    ensures forall k :: 0 <= k < |ps| ==> ps[k].id <= LastId(ps)
    ensures LastId(ps) > 0 ==> exists k :: 0 <= k < |ps| && ps[k].id == LastId(ps)
    ensures ps != [] && (forall k :: 0 <= k < |ps| ==> ps[k].id > 0) ==> LastId(ps) > 0
  {
    if ps != [] {
      var n := |ps| - 1;
      LastIdIsLargest(ps[..n]);
      assert forall k :: 0 <= k < n ==> ps[..n][k] == ps[k];
      if LastId(ps[..n]) > 0 && LastId(ps) == LastId(ps[..n]) {
        var k :| 0 <= k < n && ps[..n][k].id == LastId(ps[..n]);
        assert ps[k].id == LastId(ps);
      }
    }
  }

  /** `hi` is one batch beyond `lo`, or nothing is beyond it; and it is not beyond the last posting. */
  ghost predicate IsBound(ps: seq<Posting>, lo: int, size: int, hi: int) {
    && hi <= lo + size
    && (hi < lo + size ==> forall k :: 0 <= k < |ps| ==> ps[k].id <= hi)
    && (hi > 0 ==> exists k :: 0 <= k < |ps| && hi <= ps[k].id)
  }

  predicate Ascending(s: seq<Uuid>) {
    forall i :: 0 < i < |s| ==> s[i - 1] < s[i]
  }

  function Insert(s: seq<Uuid>, a: Uuid): (r: seq<Uuid>)
    ensures forall b :: b in r <==> b in s || b == a
    ensures Ascending(s) ==> Ascending(r)
    ensures r != [] && (r[0] == a || (s != [] && r[0] == s[0]))
  {
    if s == [] || a < s[0] then [a] + s
    else if a == s[0] then s
    else [s[0]] + Insert(s[1..], a)
  }

  /** SELECT DISTINCT account_id ... ORDER BY account_id over lo < id <= hi. */
  function ActiveAccounts(ps: seq<Posting>, lo: int, hi: int): (r: seq<Uuid>)
    ensures Ascending(r)
    ensures forall a :: a in r <==> exists k :: 0 <= k < |ps| && lo < ps[k].id <= hi && ps[k].account == a
  {
    if ps == [] then []
    else
      var init := ActiveAccounts(ps[..|ps| - 1], lo, hi);
      var p := ps[|ps| - 1];
      if lo < p.id <= hi then Insert(init, p.account) else init
  }

  lemma {:induction false} SumOfAll(ps: seq<Posting>, a: Uuid, limit: int)
    requires MaxId(ps, a) <= limit
    ensures TotalUpTo(ps, a, limit) == Total(ps, a)
  {
    if ps != [] {
      SumOfAll(ps[..|ps| - 1], a, limit);
    }
  }

  lemma {:induction false} NewPosting(ps: seq<Posting>, qs: seq<Posting>, a: Uuid, limit: int)
    ensures TotalUpTo(ps + qs, a, limit) == TotalUpTo(ps, a, limit)
            || exists k :: 0 <= k < |qs| && qs[k].account == a && qs[k].id <= limit
  {
    if qs == [] {
      assert ps + qs == ps;
    } else {
      var n := |qs| - 1;
      assert (ps + qs)[..|ps + qs| - 1] == ps + qs[..n];
      if !(qs[n].account == a && qs[n].id <= limit) {
        NewPosting(ps, qs[..n], a, limit);
      }
    }
  }

  /** The sums the worker computes for this account are int64 values, and the full one is not negative. */
  ghost predicate Summable(ps: seq<Posting>, a: Uuid) {
    && 0 <= Total(ps, a) <= MAX_INT64
    && forall n :: MIN_INT64 <= TotalUpTo(ps, a, n) <= MAX_INT64
  }

  // ---- batches ----

  /** One committed batch: the interval (lo, hi], the largest id when its bound was chosen and how many
      postings were visible then and at the scan, the validations run before it was committed, and
      whether the worker learned that it was. */
  datatype Batch = Batch(lo: int, hi: int, max: int, visible: nat, scanned: nat, first: nat, last: nat, acked: bool)

  ghost predicate BatchOk(b: Batch, ps: seq<Posting>, validated: seq<Uuid>, size: int) {
    && b.visible <= b.scanned <= |ps|
    && b.max == LastId(ps[..b.visible])
    && b.lo < b.hi == Min(b.lo + size, b.max)
    && b.first <= b.last <= |validated|
    && validated[b.first..b.last] == ActiveAccounts(ps[..b.scanned], b.lo, b.hi)
  }

  lemma BatchKept(b: Batch, ps: seq<Posting>, qs: seq<Posting>, v: seq<Uuid>, w: seq<Uuid>, size: int)
    requires BatchOk(b, ps, v, size) && ps <= qs && v <= w
    ensures BatchOk(b, qs, w, size)
  {
    assert qs[..b.visible] == ps[..b.visible];
    assert qs[..b.scanned] == ps[..b.scanned];
    assert w[b.first..b.last] == v[b.first..b.last];
  }

  /** Exactly which postings a batch covers: the account of a posting in its interval was handed to
      ValidateBalance if and only if that posting, or another one of the account in the interval, was
      visible at the scan. */
  lemma CoverageExact(b: Batch, ps: seq<Posting>, v: seq<Uuid>, size: int, k: nat)
    requires BatchOk(b, ps, v, size) && k < |ps| && b.lo < ps[k].id <= b.hi
    ensures ps[k].account in v[b.first..b.last] <==>
            exists j :: 0 <= j < b.scanned && b.lo < ps[j].id <= b.hi && ps[j].account == ps[k].account
    ensures k < b.scanned ==> ps[k].account in v[b.first..b.last]
  {
    var scan := ps[..b.scanned];
    assert forall j :: 0 <= j < b.scanned ==> scan[j] == ps[j];
    if k < b.scanned {
      assert scan[k].account == ps[k].account;
    }
  }

  /** Ids commit out of order, so a batch can miss a posting: posting 2 of one account was visible at the
      scan of the batch (0, 2], posting 1 of the other became visible after it. */
  lemma LatePostingMissed(a: Uuid, b: Uuid, x: Uuid, y: Uuid)
    requires a != b
    ensures var ps := [Posting(2, x, a, 1), Posting(1, y, b, 1)];
            var batch := Batch(0, 2, 2, 1, 1, 0, 1, true);
            && BatchOk(batch, ps, [a], DEFAULT_BATCH_SIZE)
            && batch.lo < ps[1].id <= batch.hi && ps[1].account !in [a][batch.first..batch.last]
  {
    var ps := [Posting(2, x, a, 1), Posting(1, y, b, 1)];
    assert ps[..1] == [ps[0]] && [ps[0]][..0] == [];
    assert ActiveAccounts([], 0, 2) == [];
    assert [a][0..1] == [a];
  }

  ghost predicate Recorded(bs: seq<Batch>, ps: seq<Posting>, validated: seq<Uuid>, size: int) {
    forall i :: 0 <= i < |bs| ==> BatchOk(bs[i], ps, validated, size)
  }

  lemma RecordedKept(bs: seq<Batch>, ps: seq<Posting>, qs: seq<Posting>, v: seq<Uuid>, w: seq<Uuid>, size: int)
    requires Recorded(bs, ps, v, size) && ps <= qs && v <= w
    ensures Recorded(bs, qs, w, size)
  {
    forall i | 0 <= i < |bs| ensures BatchOk(bs[i], qs, w, size) {
      BatchKept(bs[i], ps, qs, v, w, size);
    }
  }

  /** Without concurrent commits: the log is the same, and no account lost an amount that was right. */
  ghost predicate SameLog(t: Tables, u: Tables) {
    && u.postings == t.postings && u.accounts.Keys == t.accounts.Keys
    && forall a :: a in t.accounts && t.accounts[a].amount == Total(t.postings, a) ==>
         u.accounts[a].amount == Total(t.postings, a)
  }

  /** Every account whose last posting lies in (lo, hi] has its posting total as amount. */
  ghost predicate Repaired(t: Tables, lo: int, hi: int) {
    forall a :: a in t.accounts && lo < MaxId(t.postings, a) <= hi && Summable(t.postings, a) ==>
      t.accounts[a].amount == Total(t.postings, a)
  }

  /** Contiguous half-open intervals leading from `lo` to `hi`. */
  predicate Chain(bs: seq<Batch>, lo: int, hi: int) {
    if bs == [] then lo == hi
    else
      var b := bs[|bs| - 1];
      Chain(bs[..|bs| - 1], lo, b.lo) && b.lo < b.hi == hi
  }

  lemma ChainPush(bs: seq<Batch>, lo: int, b: Batch)
    requires Chain(bs, lo, b.lo) && b.lo < b.hi
    ensures Chain(bs + [b], lo, b.hi)
  {
    assert (bs + [b])[..|bs|] == bs;
  }

  lemma {:induction false} ChainUp(bs: seq<Batch>, lo: int, hi: int)
    requires Chain(bs, lo, hi)
    ensures lo <= hi
  {
    if bs != [] {
      ChainUp(bs[..|bs| - 1], lo, bs[|bs| - 1].lo);
    }
  }

  /** Every id that the cursor has passed lies in exactly one of the batches. */
  lemma {:induction false} PassedOnce(bs: seq<Batch>, lo: int, hi: int, id: int)
    requires Chain(bs, lo, hi)
    ensures forall i :: 0 <= i < |bs| ==> lo <= bs[i].lo && bs[i].hi <= hi
    ensures lo < id <= hi ==> exists i :: 0 <= i < |bs| && bs[i].lo < id <= bs[i].hi
    ensures forall i, j :: 0 <= i < |bs| && 0 <= j < |bs| && bs[i].lo < id <= bs[i].hi && bs[j].lo < id <= bs[j].hi ==>
              i == j
  {
    if bs != [] {
      var n := |bs| - 1;
      PassedOnce(bs[..n], lo, bs[n].lo, id);
      assert forall i :: 0 <= i < n ==> bs[..n][i] == bs[i];
      assert bs[n].lo < bs[n].hi == hi;
      ChainUp(bs, lo, hi);
      ChainUp(bs[..n], lo, bs[n].lo);
    }
  }

  lemma {:induction false} ChainSteps(bs: seq<Batch>, lo: int, hi: int, size: int, max: int)
    requires Chain(bs, lo, hi) && size > 0 && bs != []
    requires forall i :: 0 <= i < |bs| ==> bs[i].hi == Min(bs[i].lo + size, max)
    ensures hi <= max && lo + (|bs| - 1) * size < hi <= lo + |bs| * size
    ensures hi < max ==> hi == lo + |bs| * size
  {
    var n := |bs| - 1;
    assert bs[n].hi == Min(bs[n].lo + size, max);
    if n > 0 {
      ChainSteps(bs[..n], lo, bs[n].lo, size, max);
    }
    assert (n + 1) * size == n * size + size;
  }

  function CeilDiv(x: int, size: int): int
    requires size > 0
  {
    (x + size - 1) / size
  }

  lemma Monotone(x: int, y: int, size: int)
    requires size > 0
    ensures x >= y ==> x * size >= (y - 1) * size + size
    ensures y * size == (y - 1) * size + size
  {
    if x >= y {
      assert (x - y) * size >= 0;
    }
  }

  lemma Ceiling(x: int, size: int, n: int)
    requires size > 0 && (n - 1) * size < x <= n * size
    ensures CeilDiv(x, size) == n
  {
    var q := (x + size - 1) / size;
    assert x + size - 1 == q * size + (x + size - 1) % size;
    Monotone(n, q + 1, size);
    Monotone(q, n + 1, size);
    assert (n - 1) * size == n * size - size;
  }

  /** A frozen log is exhausted in exactly ceil((max - cursor) / size) batches. */
  lemma BatchCount(bs: seq<Batch>, lo: int, size: int, max: int)
    requires Chain(bs, lo, max) && size > 0
    requires forall i :: 0 <= i < |bs| ==> bs[i].hi == Min(bs[i].lo + size, max)
    ensures |bs| == CeilDiv(max - lo, size)
  {
    if bs == [] {
      Ceiling(0, size, 0);
    } else {
      ChainSteps(bs, lo, max, size, max);
      Ceiling(max - lo, size, |bs|);
    }
  }

  /** The most statements that one batch takes while nothing else commits. */
  function Budget(ps: seq<Posting>): nat {
    4 + QUIET_TICKS * |ps|
  }

  lemma {:induction false} InsertOne(s: seq<Uuid>, a: Uuid)
    ensures |Insert(s, a)| <= |s| + 1
  {
    if s != [] && a > s[0] {
      InsertOne(s[1..], a);
    }
  }

  lemma {:induction false} FewAccounts(ps: seq<Posting>, lo: int, hi: int)
    ensures |ActiveAccounts(ps, lo, hi)| <= |ps|
  {
    if ps != [] {
      FewAccounts(ps[..|ps| - 1], lo, hi);
      InsertOne(ActiveAccounts(ps[..|ps| - 1], lo, hi), ps[|ps| - 1].account);
    }
  }

  // ---- what the run keeps ----

  lemma CeilAbove(x: int, size: int, n: nat)
    requires size > 0 && x > n * size
    ensures CeilDiv(x, size) >= n + 1
  {
    var q := (x + size - 1) / size;
    assert x + size - 1 == q * size + (x + size - 1) % size;
    Monotone(n, q, size);
  }

  /** Batches that stop short of the end are fewer than the log needs. */
  lemma ShortChain(bs: seq<Batch>, lo: int, hi: int, size: int, max: int)
    requires Chain(bs, lo, hi) && size > 0 && lo <= max && hi != max
    requires forall i :: 0 <= i < |bs| ==> bs[i].hi == Min(bs[i].lo + size, max)
    ensures hi < max && CeilDiv(max - lo, size) >= |bs| + 1
  {
    hide CeilDiv;
    if bs == [] {
      CeilAbove(max - lo, size, 0);
    } else {
      ChainSteps(bs, lo, hi, size, max);
      CeilAbove(max - lo, size, |bs|);
    }
  }

  ghost predicate AllMax(bs: seq<Batch>, max: int) {
    forall i :: 0 <= i < |bs| ==> bs[i].max == max
  }

  lemma FullSteps(bs: seq<Batch>, ps: seq<Posting>, v: seq<Uuid>, size: int, max: int)
    requires Recorded(bs, ps, v, size) && AllMax(bs, max)
    ensures forall i :: 0 <= i < |bs| ==> bs[i].hi == Min(bs[i].lo + size, max)
  {
    forall i | 0 <= i < |bs| ensures bs[i].hi == Min(bs[i].lo + size, max) {
      assert BatchOk(bs[i], ps, v, size);
    }
  }

  lemma RecordPush(bs: seq<Batch>, cs: seq<Batch>, ps: seq<Posting>, v: seq<Uuid>, size: int, lo: int, mid: int)
    requires |cs| == |bs| + 1 && cs[..|bs|] == bs && Recorded(bs, ps, v, size) && BatchOk(cs[|bs|], ps, v, size)
    requires Chain(bs, lo, mid) && cs[|bs|].lo == mid
    ensures Recorded(cs, ps, v, size) && Chain(cs, lo, cs[|bs|].hi) && cs[|bs|].hi > mid
  {
    assert cs == bs + [cs[|bs|]];
    ChainPush(bs, lo, cs[|bs|]);
    hide LastId;
  }

  lemma MakeBatch(b: Batch, bounded: Tables, scan: Tables, t: Tables, before: seq<Uuid>, users: seq<Uuid>, size: int)
    requires Extends(bounded, scan) && Extends(scan, t)
    requires users == ActiveAccounts(scan.postings, b.lo, b.hi)
    requires b.visible == |bounded.postings| && b.max == LastId(bounded.postings) && b.scanned == |scan.postings|
    requires b.lo < b.hi == Min(b.lo + size, b.max)
    requires b.first == |before| && b.last == |before + users|
    ensures BatchOk(b, t.postings, before + users, size)
  {
    hide LastId;
    hide ActiveAccounts;
    assert t.postings[..b.visible] == bounded.postings && t.postings[..b.scanned] == scan.postings;
    assert (before + users)[b.first..b.last] == users;
  }

  /** The end of the last batch that the worker knows to be committed. */
  function LastAcked(bs: seq<Batch>): int {
    if bs == [] then 0
    else if bs[|bs| - 1].acked then bs[|bs| - 1].hi
    else LastAcked(bs[..|bs| - 1])
  }

  ghost predicate AllAcked(bs: seq<Batch>) {
    forall i :: 0 <= i < |bs| ==> bs[i].acked
  }

  lemma AckedPush(bs: seq<Batch>, cs: seq<Batch>)
    requires |cs| == |bs| + 1 && cs[..|bs|] == bs
    ensures LastAcked(cs) == if cs[|bs|].acked then cs[|bs|].hi else LastAcked(bs)
    ensures AllAcked(cs) <==> AllAcked(bs) && cs[|bs|].acked
  {
    forall i | 0 <= i < |bs| ensures cs[i] == bs[i] {
      assert cs[..|bs|][i] == bs[i];
    }
  }

  /** Writing the last acknowledged position again would move the stored cursor exactly when some batch
      was acknowledged and the last one was not; and it would move it back. */
  lemma {:induction false} StaleExactly(bs: seq<Batch>, lo: int, hi: int)
    requires Chain(bs, lo, hi) && lo >= 0
    ensures LastAcked(bs) > 0 <==> exists i :: 0 <= i < |bs| && bs[i].acked
    ensures lo <= hi && LastAcked(bs) <= hi
    ensures bs != [] ==> (LastAcked(bs) == hi <==> bs[|bs| - 1].acked)
    ensures LastAcked(bs) > 0 && AllAcked(bs) ==> LastAcked(bs) == hi
  {
    if bs != [] {
      var n := |bs| - 1;
      StaleExactly(bs[..n], lo, bs[n].lo);
      if i :| 0 <= i < n && bs[..n][i].acked {
        assert bs[i].acked;
      }
      if i :| 0 <= i < n && bs[i].acked {
        assert bs[..n][i].acked;
      }
    }
  }

  lemma RepairedBatch(t: Tables, users: seq<Uuid>, lo: int, hi: int)
    requires 0 <= lo < hi && users == ActiveAccounts(t.postings, lo, hi)
    requires forall a :: a in users && a in t.accounts && MaxId(t.postings, a) <= hi && Summable(t.postings, a) ==>
               t.accounts[a].amount == Total(t.postings, a)
    ensures Repaired(t, lo, hi)
  {
    forall a | a in t.accounts && lo < MaxId(t.postings, a) <= hi && Summable(t.postings, a)
      ensures t.accounts[a].amount == Total(t.postings, a)
    {
      MaxIdIsLargest(t.postings, a);
      assert a in users;
    }
  }

  lemma SameLogOn(t0: Tables, t: Tables, u: Tables)
    requires SameLog(t0, t) && SameLog(t, u)
    ensures SameLog(t0, u)
  {
  }

  lemma RepairedOn(t: Tables, u: Tables, start: int, mid: int, end: int)
    requires Repaired(t, start, mid) && SameLog(t, u) && Repaired(u, mid, end)
    ensures Repaired(u, start, end)
  {
  }

  /** An account with a posting after `lo`. */
  ghost predicate PostedAfter(ps: seq<Posting>, a: Uuid, lo: int) {
    exists k :: 0 <= k < |ps| && ps[k].account == a && ps[k].id > lo
  }

  /** At the end of the log nothing is ahead, and every account posted to after `lo` is right. */
  ghost predicate AllRepaired(t: Tables, lo: int, hi: int) {
    && (forall k :: 0 <= k < |t.postings| ==> t.postings[k].id <= hi)
    && (forall a :: a in t.accounts && PostedAfter(t.postings, a, lo) && Summable(t.postings, a) ==>
          t.accounts[a].amount == Total(t.postings, a))
  }

  lemma RepairedToTheEnd(t: Tables, lo: int, hi: int)
    requires Repaired(t, lo, hi) && hi == LastId(t.postings) && lo >= 0
    ensures AllRepaired(t, lo, hi)
  {
    hide Total;
    hide Summable;
    hide LastId;
    hide MaxId;
    LastIdIsLargest(t.postings);
    forall a | a in t.accounts && PostedAfter(t.postings, a, lo) && Summable(t.postings, a)
      ensures t.accounts[a].amount == Total(t.postings, a)
    {
      MaxIdIsLargest(t.postings, a);
    }
  }

  /** `done` batches and at most one interrupted one account for all statements but `left`. */
  ghost predicate Paced(left: nat, done: nat, budget: nat, total: nat) {
    left + done * budget >= total || (done + 1) * budget >= total
  }

  lemma PacedBatch(before: nat, left: nat, done: nat, budget: nat, total: nat)
    requires left >= before - budget
    ensures Paced(before, done, budget, total) ==> Paced(left, done + 1, budget, total)
  {
    assert (done + 1) * budget == done * budget + budget;
    assert (done + 2) * budget == (done + 1) * budget + budget;
  }

  lemma PacedShort(before: nat, done: nat, budget: nat, total: nat)
    ensures before <= budget && Paced(before, done, budget, total) ==>
              forall left: nat :: Paced(left, done, budget, total)
  {
    assert (done + 1) * budget == done * budget + budget;
  }

  lemma PacedOut(done: nat, budget: nat, total: nat, needed: int)
    requires Paced(0, done, budget, total) && needed >= done + 1
    ensures total <= needed * budget
  {
    Scale(needed, done + 1, budget);
    assert (done + 1) * budget == done * budget + budget;
  }

  /** What every run keeps: contiguous, covered batches over a log that only grows. */
  ghost predicate Going(t0: Tables, c0: int, t: Tables, c: int, bs: seq<Batch>, v: seq<Uuid>, size: int) {
    Chain(bs, c0, c) && Recorded(bs, t.postings, v, size) && Extends(t0, t)
  }

  /** What a run without concurrent commits and failures keeps as well. */
  ghost predicate Quiet(t0: Tables, c0: int, t: Tables, c: int, bs: seq<Batch>, left: nat, total: nat) {
    && SameLog(t0, t) && Repaired(t, c0, c) && AllMax(bs, LastId(t.postings))
    && (c >= LastId(t.postings) || Paced(left, |bs|, Budget(t.postings), total))
  }

  lemma StartsGoing(t: Tables, c: int, v: seq<Uuid>, size: int, total: nat)
    ensures Going(t, c, t, c, [], v, size) && Quiet(t, c, t, c, [], total, total)
    ensures LastAcked([]) == 0 && AllAcked([])
  {
  }

  lemma GoesOn(t0: Tables, c0: int, t: Tables, c: int, u: Tables, bs: seq<Batch>, v: seq<Uuid>, w: seq<Uuid>, size: int)
    requires Going(t0, c0, t, c, bs, v, size) && Extends(t, u) && v <= w
    ensures Going(t0, c0, u, c, bs, w, size)
  {
    RecordedKept(bs, t.postings, u.postings, v, w, size);
  }

  lemma GoingBatch(t0: Tables, c0: int, t: Tables, c: int, bs: seq<Batch>, cs: seq<Batch>, v: seq<Uuid>, size: int)
    requires Going(t0, c0, t, c, bs, v, size)
    requires |cs| == |bs| + 1 && cs[..|bs|] == bs && BatchOk(cs[|bs|], t.postings, v, size) && cs[|bs|].lo == c
    ensures Going(t0, c0, t, cs[|bs|].hi, cs, v, size) && cs[|bs|].hi > c
  {
    RecordPush(bs, cs, t.postings, v, size, c0, c);
  }

  lemma QuietBatch(t0: Tables, c0: int, t: Tables, c: int, u: Tables, bs: seq<Batch>, cs: seq<Batch>,
                   before: nat, left: nat, total: nat)
    requires Quiet(t0, c0, t, c, bs, before, total) && SameLog(t, u)
    requires |cs| == |bs| + 1 && cs[..|bs|] == bs && cs[|bs|].max == LastId(u.postings)
    requires cs[|bs|].hi > c && Repaired(u, c, cs[|bs|].hi) && left >= before - Budget(u.postings)
    ensures Quiet(t0, c0, u, cs[|bs|].hi, cs, left, total)
  {
    SameLogOn(t0, t, u);
    RepairedOn(t, u, c0, c, cs[|bs|].hi);
    PacedBatch(before, left, |bs|, Budget(u.postings), total);
  }

  lemma QuietPass(t0: Tables, c0: int, t: Tables, c: int, u: Tables, bs: seq<Batch>,
                  before: nat, left: nat, total: nat)
    requires Quiet(t0, c0, t, c, bs, before, total) && SameLog(t, u)
    requires c < LastId(u.postings) ==> before <= Budget(u.postings)
    ensures Quiet(t0, c0, u, c, bs, left, total)
  {
    SameLogOn(t0, t, u);
    RepairedOn(t, u, c0, c, c);
    PacedShort(before, |bs|, Budget(u.postings), total);
  }

  lemma RunEnds(t0: Tables, c0: int, t: Tables, c: int, bs: seq<Batch>, v: seq<Uuid>, size: int)
    requires Going(t0, c0, t, c, bs, v, size)
    ensures Chain(bs, c0, c) && Recorded(bs, t.postings, v, size) && Extends(t0, t)
  {
  }

  lemma QuietEnds(t0: Tables, c0: int, t: Tables, c: int, bs: seq<Batch>, v: seq<Uuid>, size: int, total: nat)
    requires Going(t0, c0, t, c, bs, v, size) && Quiet(t0, c0, t, c, bs, 0, total) && size > 0
    ensures SameLog(t0, t) && Repaired(t, c0, c)
    ensures c == LastId(t.postings) ==> |bs| == CeilDiv(LastId(t.postings) - c0, size)
    ensures c0 <= LastId(t.postings) && total > CeilDiv(LastId(t.postings) - c0, size) * Budget(t.postings) ==>
              c == LastId(t.postings)
  {
    hide CeilDiv;
    hide Paced;
    hide Budget;
    hide Repaired;
    hide SameLog;
    hide BatchOk;
    var max := LastId(t.postings);
    FullSteps(bs, t.postings, v, size, max);
    hide LastId;
    if c == max {
      BatchCount(bs, c0, size, max);
    } else if c0 <= max {
      ShortChain(bs, c0, c, size, max);
      PacedOut(|bs|, Budget(t.postings), total, CeilDiv(max - c0, size));
    }
  }
}
