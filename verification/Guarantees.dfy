/** What the concurrent protocol guarantees over every run: it is serializable, it never deadlocks,
    it always ends, every committed state is a healthy ledger, and a correction misses exactly
    what was committed behind its back. */
module Guarantees {
  import opened Uuids
  import opened Ledger
  import opened Protocol

  lemma {:induction false} RunKept(s: State, t0: Tables, es: seq<Event>)
    requires Inv(s, t0) && Runs(s, es)
    ensures Inv(After(s, es), t0)
  {
    if es != [] {
      RunKept(s, t0, es[..|es| - 1]);
      InvKept(After(s, es[..|es| - 1]), t0, es[|es| - 1]);
    }
  }

  lemma RunInv(s: State, es: seq<Event>)
    requires Initial(s) && Runs(s, es)
    ensures Inv(After(s, es), s.tables)
  {
    assert Commits(s.log) == [];
    RunKept(s, s.tables, es);
  }

  /** Serializability: after any interleaving, the committed tables are those of running the
      committed units of work one at a time, each admissible on its own, in commit order; the log
      holds each committed session once and no failed or unfinished one. */
  lemma Serializability(s: State, es: seq<Event>)
    requires Initial(s) && Runs(s, es)
    ensures var u := After(s, es);
            && Serial(s.tables, Commits(u.log))
            && u.tables == Replay(s.tables, Commits(u.log))
            && Traced(u)
  {
    RunInv(s, es);
  }

  /** What an event does to session `i`. */
  lemma SessionAfter(s: State, e: Event, i: nat)
    requires Enabled(s, e)
    ensures |s.sessions| <= |Do(s, e).sessions| && (i < |Do(s, e).sessions| ==> i < |s.sessions| || e.Arrive?)
    ensures i >= |s.sessions| && i < |Do(s, e).sessions| ==> Do(s, e).sessions[i] == Begin(e.job)
    ensures i < |s.sessions| && (e.Arrive? || e.i != i) ==> Do(s, e).sessions[i] == s.sessions[i]
    ensures i < |s.sessions| && e == Step(i) && !s.sessions[i].phase.Ready? ==>
              Do(s, e).sessions[i] == Advance(s.tables, s.nextId, s.sessions[i])
    ensures i < |s.sessions| && e == Step(i) && s.sessions[i].phase.Ready? ==>
              Do(s, e).sessions[i] == s.sessions[i].(phase := Committed(|s.log|), rows := map[])
    ensures i < |s.sessions| && (e == Reject(i) || e == Fail(i)) ==> Do(s, e).sessions[i].phase.Aborted?
    ensures i < |s.sessions| ==> Do(s, e).sessions[i].job == s.sessions[i].job
  {
    hide Advance;
    hide Blocked;
    hide Installed;
    hide CommitOf;
    hide Fresh;
    if i < |s.sessions| && e == Step(i) && !s.sessions[i].phase.Ready? {
      AdvanceAdds(s.tables, s.nextId, s.sessions[i]);
    }
  }

  /** The jobs in the order in which they arrived. */
  function Arrivals(es: seq<Event>): seq<Job> {
    if es == [] then []
    else Arrivals(es[..|es| - 1]) + if es[|es| - 1].Arrive? then [es[|es| - 1].job] else []
  }

  /** Every session works on the job that arrived, for ever. */
  lemma {:induction false} JobsAsRequested(s: State, es: seq<Event>)
    requires Initial(s) && Runs(s, es)
    ensures var u := After(s, es);
            |u.sessions| == |Arrivals(es)| && forall i :: 0 <= i < |u.sessions| ==> u.sessions[i].job == Arrivals(es)[i]
  {
    if es != [] {
      var init, e := es[..|es| - 1], es[|es| - 1];
      var m := After(s, init);
      JobsAsRequested(s, init);
      forall i | 0 <= i < |After(s, es).sessions| ensures After(s, es).sessions[i].job == Arrivals(es)[i] {
        SessionAfter(m, e, i);
      }
      SessionAfter(m, e, |m.sessions|);
    }
  }

  /** The unit of work a job asks for. */
  predicate Fulfils(c: Commit, job: Job) {
    match job
    case TransferJob(row) => c.Transferred? && c.row == row
    case OpenJob(row) => if row.amount > 0 then c.Opened? && c.row == row else c == OpenedEmpty(row.to, row.currency)
    case CorrectJob(a) => c.Corrected? && c.account == a
  }

  /** What a session commits is what its client asked for. */
  lemma CommittedAsRequested(s: State, es: seq<Event>, i: nat)
    requires Initial(s) && Runs(s, es)
    requires i < |After(s, es).sessions| && After(s, es).sessions[i].phase.Committed?
    ensures i < |Arrivals(es)|
    ensures var u := After(s, es);
            var at := u.sessions[i].phase.at;
            at < |u.log| && u.log[at].session == i && Fulfils(u.log[at].commit, Arrivals(es)[i])
  {
    RunInv(s, es);
    JobsAsRequested(s, es);
    hide AllOk;
    hide Refines;
  }

  // ---- the ledger invariant ----

  ghost predicate NoCorrections(s: State) {
    forall i :: 0 <= i < |s.sessions| ==> !s.sessions[i].job.CorrectJob?
  }

  /** In every committed state of every run of openings and transfers, each account has a
      non-negative amount equal to the sum of its postings and the largest of their ids, and the
      balances of each currency add up to its openings. */
  lemma LedgerInvariant(s: State, es: seq<Event>)
    requires Initial(s) && Runs(s, es) && Healthy(s.tables) && NoCorrections(After(s, es))
    ensures Healthy(After(s, es).tables)
  {
    var u := After(s, es);
    RunInv(s, es);
    forall k | 0 <= k < |u.log| ensures !Commits(u.log)[k].Corrected? {
      assert u.log[k].commit == CommitOf(u.sessions[u.log[k].session]);
    }
    SerialHealthy(s.tables, Commits(u.log));
  }

  /** Every committed balance is at most what was put into its currency. */
  lemma BalanceBound(s: State, es: seq<Event>, a: Uuid)
    requires Initial(s) && Runs(s, es) && Healthy(s.tables) && NoCorrections(After(s, es))
    requires a in After(s, es).tables.accounts
    ensures var t := After(s, es).tables;
            0 <= t.accounts[a].amount <= Openings(t.transactions, t.accounts[a].currency)
  {
    LedgerInvariant(s, es);
    BoundedAlone(After(s, es).tables, a);
  }

  /** The postings are the legs of the transactions, and no idempotency key, transaction id or
      posting id is ever committed twice, corrections or not. */
  lemma BookInvariant(s: State, es: seq<Event>)
    requires Initial(s) && Runs(s, es) && Booked(s.tables)
    ensures Booked(After(s, es).tables)
  {
    RunInv(s, es);
    SerialBooked(s.tables, Commits(After(s, es).log));
  }

  // ---- refusals ----

  /** A transfer is refused only at a moment when the serial ledger would refuse it too: either it is
      not acceptable, or its credit would overflow. While the currency fits in int64 an acceptable
      transfer is never refused, even when its credit comes before its debit. */
  lemma RefusalDeserved(s: State, t0: Tables, e: Event, i: nat)
    requires Inv(s, t0) && (e == Step(i) || e == Reject(i)) && Enabled(s, e)
    requires s.sessions[i].job.TransferJob? && Do(s, e).sessions[i].phase.Aborted?
    ensures !Do(s, e).sessions[i].phase.error.SystemError?
    ensures var t, row := s.tables, s.sessions[i].job.row;
            && (Accepts(t, row) ==> t.accounts[row.to].amount + row.amount > MAX_INT64)
            && (Healthy(t) && Openings(t.transactions, row.currency) <= MAX_INT64 ==> !Accepts(t, row))
  {
    var x := s.sessions[i];
    assert SessionOk(s.tables, s.nextId, x);
    assert Accepts(s.tables, x.job.row) ==> s.tables.accounts[x.job.row.to].amount + x.job.row.amount > MAX_INT64;
    var t, row := s.tables, x.job.row;
    if Healthy(t) && Openings(t.transactions, row.currency) <= MAX_INT64 && Accepts(t, row) {
      CreditRoom(t, row);
    }
  }

  /** The error of a refused transfer tells the truth about the request and the tables at that moment. */
  lemma ErrorDeserved(s: State, t0: Tables, e: Event, i: nat)
    requires Inv(s, t0) && (e == Step(i) || e == Reject(i)) && Enabled(s, e)
    requires s.sessions[i].job.TransferJob? && Do(s, e).sessions[i].phase.Aborted?
    ensures Justifies(s.tables, s.sessions[i].job.row, Do(s, e).sessions[i].phase.error)
  {
    assert SessionOk(s.tables, s.nextId, s.sessions[i]);
  }

  /** A statement of an opening is refused exactly when the serial ledger would refuse the account: the
      currency is the unspecified one, the key is used, or the amount does not fit. */
  lemma OpeningRefused(s: State, t0: Tables, i: nat)
    requires Inv(s, t0) && Enabled(s, Step(i)) && s.sessions[i].job.OpenJob?
    ensures var t, x := s.tables, s.sessions[i];
            var row, y := x.job.row, Do(s, Step(i)).sessions[i].phase;
            && (y == Aborted(InvalidCurrency) <==> x.phase.Validate? && row.currency == CURRENCY_UNSPECIFIED)
            && (y == Aborted(IdempotencyConflict) <==> x.phase.InsertRow? && KeyUsed(t.transactions, row.key))
            && (y == Aborted(OutOfRange) <==> x.phase.UpdateFirst? && row.amount > MAX_INT64)
            && (y.Aborted? ==> y.error.InvalidCurrency? || y.error.IdempotencyConflict? || y.error.OutOfRange?)
  {
    assert SessionOk(s.tables, s.nextId, s.sessions[i]);
  }

  // ---- deadlock freedom ----

  predicate CanStep(s: State, k: nat) {
    k < |s.sessions| && Active(s.sessions[k]) && !Blocked(s, k)
  }

  /** Following row waits climbs the UUID order, so it ends at a session that can step. */
  lemma ClimbRows(s: State, i: nat, j: nat)
    requires AllOk(s) && i < |s.sessions| && j < |s.sessions| && WaitsForRow(s, i, j)
    ensures exists k :: CanStep(s, k)
    decreases SPAN - Target(s.sessions[i]).value
  {
    var y := s.sessions[j];
    assert SessionOk(s.tables, s.nextId, y);
    if Blocked(s, j) {
      assert y.job.TransferJob? && y.phase.UpdateSecond?;
      var k :| 0 <= k < |s.sessions| && (WaitsForKey(s, j, k) || WaitsForRow(s, j, k));
      ClimbRows(s, j, k);
    } else {
      assert CanStep(s, j);
    }
  }

  /** Deadlock freedom: while any session is unfinished, some session can run its next statement. */
  lemma DeadlockFree(s: State, t0: Tables, i: nat)
    requires Inv(s, t0) && i < |s.sessions| && Active(s.sessions[i])
    ensures exists k :: CanStep(s, k)
  {
    if Blocked(s, i) {
      var j :| 0 <= j < |s.sessions| && (WaitsForKey(s, i, j) || WaitsForRow(s, i, j));
      if WaitsForRow(s, i, j) {
        ClimbRows(s, i, j);
      } else if Blocked(s, j) {
        var k :| 0 <= k < |s.sessions| && (WaitsForKey(s, j, k) || WaitsForRow(s, j, k));
        ClimbRows(s, j, k);
      } else {
        assert CanStep(s, j);
      }
    } else {
      assert CanStep(s, i);
    }
  }

  // ---- termination ----

  function Rank(p: Phase): nat {
    match p
    case Validate => 8
    case InsertAccount => 7
    case InsertRow => 6
    case PostFirst => 5
    case PostSecond => 4
    case UpdateFirst => 3
    case UpdateSecond => 2
    case ReadSum => 4
    case StartWrite => 3
    case WriteAmount => 2
    case Ready => 1
    case Committed(_) => 0
    case Aborted(_) => 0
  }

  /** How many statements the sessions still have before them, at most. */
  function Work(ss: seq<Session>): nat {
    if ss == [] then 0 else Work(ss[..|ss| - 1]) + Rank(ss[|ss| - 1].phase)
  }

  lemma {:induction false} WorkUpdate(ss: seq<Session>, i: nat, y: Session)
    requires i < |ss|
    ensures Work(ss[i := y]) == Work(ss) - Rank(ss[i].phase) + Rank(y.phase)
  {
    if i == |ss| - 1 {
      assert ss[i := y][..i] == ss[..i];
    } else {
      assert ss[i := y][..|ss| - 1] == ss[..|ss| - 1][i := y];
      WorkUpdate(ss[..|ss| - 1], i, y);
    }
  }

  lemma AdvanceWorks(t: Tables, n: int, x: Session)
    requires JobOk(t, x) && !x.phase.Ready?
    ensures Rank(Advance(t, n, x).phase) < Rank(x.phase)
  {
  }

  lemma EventWorks(s: State, e: Event)
    requires Enabled(s, e) && !e.Arrive? && JobOk(s.tables, s.sessions[e.i])
    ensures Work(Do(s, e).sessions) < Work(s.sessions)
  {
    var x, y := s.sessions[e.i], Do(s, e).sessions[e.i];
    if e.Step? && !x.phase.Ready? {
      AdvanceWorks(s.tables, s.nextId, x);
    }
    assert Rank(y.phase) < Rank(x.phase) && Do(s, e).sessions == s.sessions[e.i := y] by {
      hide JobOk;
      hide Advance;
      hide Blocked;
      hide Installed;
      hide Target;
      hide CommitOf;
    }
    WorkUpdate(s.sessions, e.i, y);
  }

  lemma LiveJob(s: State, t0: Tables, e: Event)
    requires Inv(s, t0) && Enabled(s, e) && !e.Arrive?
    ensures JobOk(s.tables, s.sessions[e.i])
  {
    assert SessionOk(s.tables, s.nextId, s.sessions[e.i]);
  }

  /** Every run without new arrivals is bounded by the work at its start. */
  lemma {:induction false} RunBounded(s: State, t0: Tables, es: seq<Event>)
    requires Inv(s, t0) && Runs(s, es)
    requires forall k :: 0 <= k < |es| ==> !es[k].Arrive?
    ensures |es| + Work(After(s, es).sessions) <= Work(s.sessions)
  {
    if es != [] {
      var init := es[..|es| - 1];
      RunBounded(s, t0, init);
      RunKept(s, t0, init);
      LiveJob(After(s, init), t0, es[|es| - 1]);
      hide Inv;
      EventWorks(After(s, init), es[|es| - 1]);
    }
  }

  /** A run that can go no further has committed or rolled back every session. */
  lemma MaximalRunEnds(s: State, t0: Tables, es: seq<Event>)
    requires Inv(s, t0) && Runs(s, es)
    requires forall k :: !CanStep(After(s, es), k)
    ensures forall i :: 0 <= i < |After(s, es).sessions| ==> !Active(After(s, es).sessions[i])
  {
    var u := After(s, es);
    RunKept(s, t0, es);
    forall i | 0 <= i < |u.sessions| ensures !Active(u.sessions[i]) {
      if Active(u.sessions[i]) {
        DeadlockFree(u, t0, i);
      }
    }
  }

  // ---- corrections ----

  /** The amount a correction commits falls short of the posting total by exactly the account's
      postings committed between the reading of the sum and the write of the row. */
  lemma CorrectionEffect(s: State, t0: Tables, i: nat)
    requires Inv(s, t0) && Enabled(s, Step(i))
    requires s.sessions[i].job.CorrectJob? && s.sessions[i].phase.Ready?
    ensures var x := s.sessions[i];
            var a := x.job.account;
            var u := Do(s, Step(i)).tables;
            && a in u.accounts
            && x.readLen <= x.writeLen <= |u.postings|
            && Drift(u, a) == -Total(u.postings[x.readLen..x.writeLen], a)
  {
    var x := s.sessions[i];
    var a, ps := x.job.account, s.tables.postings;
    assert SessionOk(s.tables, s.nextId, x);
    assert Do(s, Step(i)).tables.postings == ps;
    assert ps == ps[..x.readLen] + ps[x.readLen..x.writeLen] + ps[x.writeLen..];
    TotalConcat(ps[..x.readLen] + ps[x.readLen..x.writeLen], ps[x.writeLen..], a);
    TotalConcat(ps[..x.readLen], ps[x.readLen..x.writeLen], a);
  }

  lemma EventExtends(s: State, t0: Tables, e: Event)
    requires Inv(s, t0) && Enabled(s, e)
    ensures Extends(s.tables, Do(s, e).tables)
  {
    if e.Step? && s.sessions[e.i].phase.Ready? {
      CommitIsAtomic(s.tables, s.nextId, s.sessions[e.i]);
    }
  }

  /** The state in which session `i` last ran the statement `p`. */
  function StateAt(s: State, es: seq<Event>, i: nat, p: Phase): Option<State>
    requires Runs(s, es)
  {
    if es == [] then None
    else
      var m := After(s, es[..|es| - 1]);
      if es[|es| - 1] == Step(i) && i < |m.sessions| && m.sessions[i].phase == p then Some(m)
      else StateAt(s, es[..|es| - 1], i, p)
  }

  /** What a correction carries is what was committed when its statements ran. */
  ghost predicate Remembers(s: State, es: seq<Event>, i: nat)
    requires Runs(s, es)
  {
    var u := After(s, es);
    i < |u.sessions| && u.sessions[i].job.CorrectJob? ==>
      var x := u.sessions[i];
      var a := x.job.account;
      var read, start := StateAt(s, es, i, ReadSum), StateAt(s, es, i, StartWrite);
      var write := StateAt(s, es, i, WriteAmount);
      && (x.phase.StartWrite? || x.phase.WriteAmount? || x.phase.Ready? || x.phase.Committed? ==>
            && read.Some? && read.value.tables.postings <= u.tables.postings
            && x.readLen == |read.value.tables.postings| && x.sum == Total(read.value.tables.postings, a))
      && (x.phase.WriteAmount? || x.phase.Ready? || x.phase.Committed? ==>
            && start.Some? && start.value.tables.postings <= u.tables.postings
            && |read.value.tables.postings| <= |start.value.tables.postings|
            && x.latest == MaxId(start.value.tables.postings, a))
      && (x.phase.Ready? || x.phase.Committed? ==>
            && write.Some? && write.value.tables.postings <= u.tables.postings
            && x.writeLen == |write.value.tables.postings|)
  }

  /** A statement of a correction records what it sees, and nothing else changes what was recorded. */
  lemma CorrectStep(t: Tables, n: int, x: Session)
    requires x.job.CorrectJob?
    ensures var y := Advance(t, n, x);
            && y.job == x.job
            && (!x.phase.ReadSum? && !x.phase.StartWrite? && !x.phase.WriteAmount? ==> y == x)
            && (x.phase.ReadSum? && !y.phase.Aborted? ==>
                  y.phase.StartWrite? && y.readLen == |t.postings| && y.sum == Total(t.postings, x.job.account))
            && (x.phase.StartWrite? ==>
                  y == x.(phase := WriteAmount, latest := MaxId(t.postings, x.job.account)))
            && (x.phase.WriteAmount? && !y.phase.Aborted? ==>
                  y == x.(phase := Ready, writeLen := |t.postings|, rows := y.rows))
  {
  }

  lemma {:induction false} Remembered(s: State, es: seq<Event>, i: nat)
    requires Initial(s) && Runs(s, es)
    ensures Remembers(s, es, i)
  {
    hide Inv;
    hide Do;
    hide Enabled;
    hide Advance;
    hide Total;
    hide MaxId;
    if es != [] {
      var init, e := es[..|es| - 1], es[|es| - 1];
      var m, u := After(s, init), After(s, es);
      Remembered(s, init, i);
      RunInv(s, init);
      EventExtends(m, s.tables, e);
      SessionAfter(m, e, i);
      if i < |m.sessions| && m.sessions[i].job.CorrectJob? && !m.sessions[i].phase.Ready? {
        CorrectStep(m.tables, m.nextId, m.sessions[i]);
      }
    }
  }

  lemma TotalNone(a: Uuid)
    ensures Total([], a) == 0
  {
  }

  lemma CorrectionInstalls(s: State, t0: Tables, i: nat)
    requires Inv(s, t0) && Enabled(s, Step(i)) && s.sessions[i].job.CorrectJob? && s.sessions[i].phase.Ready?
    ensures var x := s.sessions[i];
            var u := Do(s, Step(i)).tables;
            && u.postings == s.tables.postings && x.job.account in u.accounts
            && u.accounts[x.job.account].amount == x.sum && u.accounts[x.job.account].latest == x.latest
  {
    hide Total;
    assert SessionOk(s.tables, s.nextId, s.sessions[i]);
  }

  /** The exact effect of a correction over a whole run: it commits the posting total of the moment when
      its sum was read, so it falls short of the present total by exactly the account's postings committed
      between the read and the write; when nothing was posted meanwhile, the account is right again. */
  lemma CorrectionInRun(s: State, es: seq<Event>, i: nat)
    requires Initial(s) && Runs(s, es) && Enabled(After(s, es), Step(i))
    requires After(s, es).sessions[i].job.CorrectJob? && After(s, es).sessions[i].phase.Ready?
    ensures var a := After(s, es).sessions[i].job.account;
            var u := Do(After(s, es), Step(i)).tables;
            var read, start := StateAt(s, es, i, ReadSum), StateAt(s, es, i, StartWrite);
            var write := StateAt(s, es, i, WriteAmount);
            && read.Some? && start.Some? && write.Some? && a in u.accounts
            && u.accounts[a].amount == Total(read.value.tables.postings, a)
            && u.accounts[a].latest == MaxId(start.value.tables.postings, a)
            && var m, w := |read.value.tables.postings|, |write.value.tables.postings|;
               && m <= w <= |u.postings| && Drift(u, a) == -Total(u.postings[m..w], a)
               && (m == |u.postings| ==> Drift(u, a) == 0 && u.accounts[a].latest == MaxId(u.postings, a))
  {
    hide Total;
    hide MaxId;
    hide StateAt;
    var u := After(s, es);
    RunInv(s, es);
    Remembered(s, es, i);
    CorrectionEffect(u, s.tables, i);
    CorrectionInstalls(u, s.tables, i);
    hide Inv;
    hide Do;
    hide Enabled;
    var v := Do(u, Step(i)).tables;
    var x := u.sessions[i];
    if x.readLen == |v.postings| {
      assert v.postings[x.readLen..x.writeLen] == [];
      assert StateAt(s, es, i, StartWrite).value.tables.postings == v.postings;
      TotalNone(x.job.account);
    }
  }

  /** A statement of a correction is refused exactly when the sum does not fit in int64 as it is read, or
      when the sum that was read is negative as it is written. */
  lemma CorrectionRefused(s: State, es: seq<Event>, i: nat)
    requires Initial(s) && Runs(s, es) && Enabled(After(s, es), Step(i)) && After(s, es).sessions[i].job.CorrectJob?
    ensures var u := After(s, es);
            var x, read := u.sessions[i], StateAt(s, es, i, ReadSum);
            Do(u, Step(i)).sessions[i].phase.Aborted? <==>
              || (x.phase.ReadSum? && !(MIN_INT64 <= Total(u.tables.postings, x.job.account) <= MAX_INT64))
              || (x.phase.WriteAmount? && read.Some? && Total(read.value.tables.postings, x.job.account) < 0)
  {
    var u := After(s, es);
    RunInv(s, es);
    Remembered(s, es, i);
    assert SessionOk(u.tables, u.nextId, u.sessions[i]);
    hide Total;
  }

  /** No entry from `start` on corrects account `a`. */
  ghost predicate Spares(log: seq<Entry>, start: nat, a: Uuid) {
    forall k :: start <= k < |log| && log[k].commit.Corrected? ==> log[k].commit.account != a
  }

  /** Until the next correction of an account commits, its drift stays what the last one left. */
  lemma {:induction false} DriftInRun(s: State, t0: Tables, es: seq<Event>, a: Uuid)
    requires Inv(s, t0) && References(t0) && Runs(s, es) && a in s.tables.accounts
    requires Spares(After(s, es).log, |s.log|, a)
    ensures |s.log| <= |After(s, es).log|
    ensures a in After(s, es).tables.accounts && Drift(After(s, es).tables, a) == Drift(s.tables, a)
  {
    if es != [] {
      var init, e := es[..|es| - 1], es[|es| - 1];
      var m, u := After(s, init), After(s, es);
      assert |m.log| <= |u.log| && m.log == u.log[..|m.log|];
      assert Spares(m.log, |s.log|, a);
      DriftInRun(s, t0, init, a);
      RunKept(s, t0, init);
      if e.Step? && m.sessions[e.i].phase.Ready? {
        var x := m.sessions[e.i];
        CommitIsAtomic(m.tables, m.nextId, x);
        assert u.log[|m.log|].commit == CommitOf(x);
        SerialReferences(t0, Commits(m.log));
        DriftKept(m.tables, CommitOf(x), a);
      } else {
        assert u.tables == m.tables;
      }
    }
  }

  /** Committed rows stay committed, unchanged, in every later state. */
  lemma {:induction false} RunExtends(s: State, t0: Tables, es: seq<Event>)
    requires Inv(s, t0) && Runs(s, es)
    ensures Extends(s.tables, After(s, es).tables)
  {
    if es != [] {
      var init := es[..|es| - 1];
      RunExtends(s, t0, init);
      RunKept(s, t0, init);
      EventExtends(After(s, init), t0, es[|es| - 1]);
    }
  }
}
