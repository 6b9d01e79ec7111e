/** The idempotency interceptor: a Redis lock and replay in front of the transfer handler, over the
    UNIQUE key of the database. Redis may expire keys and fail before or after taking effect. */
module Idempotency {
  import opened Uuids
  import opened Ledger
  import P = Protocol
  import G = Guarantees

  const IN_PROCESS: string := "in process"
  const COMPLETED: string := "completed:"

  datatype Reply = Ok(id: Uuid) | InProgress | Error

  function CompletedStatus(id: Uuid): string {
    COMPLETED + Text(id)
  }

  function ParseCompleted(st: string): Option<Uuid> {
    if |st| >= |COMPLETED| && st[..|COMPLETED|] == COMPLETED then Parse(st[|COMPLETED|..]) else None
  }

  function HandleDuplicate(st: string): Reply {
    if st == IN_PROCESS then InProgress
    else
      var id := ParseCompleted(st);
      if id.Some? then Ok(id.value) else Error
  }

  /** A stored completion is replayed as the id it was written with, and the lock never as a completion. */
  lemma ReplayRoundTrip(id: Uuid)
    ensures HandleDuplicate(CompletedStatus(id)) == Ok(id)
    ensures HandleDuplicate(IN_PROCESS) == InProgress
  {
    var st := CompletedStatus(id);
    assert st[..|COMPLETED|] == COMPLETED && st[|COMPLETED|..] == Text(id);
    assert st[0] == 'c';
    TextRoundTrip(id);
  }

  /** Only the lock is told to be in progress, and a text that is neither is an error. */
  lemma DuplicateMeaning(st: string)
    ensures HandleDuplicate(st) == InProgress <==> st == "in process"
    ensures HandleDuplicate(st).Ok? ==> "completed:" <= st
  {
  }

  // ---- the system ----

  /** `update` is a "completed" write that still runs in the background. */
  datatype Stage = Arrived | Handling(session: nat) | Cleanup | Replied(reply: Reply)
  datatype Request = Request(row: Transaction, stage: Stage, claimed: bool, update: Option<Uuid>)
  datatype System = System(db: P.State, redis: map<Uuid, string>, requests: seq<Request>)

  datatype Event =
    | Call(row: Transaction)
    | Check(r: nat, fault: Fault)
    | Db(event: P.Event)
    | Return(r: nat, lost: bool)
    | Delete(r: nat, fault: Fault)
    | Update(r: nat, fault: Fault)
    | Expire(key: Uuid)

  predicate Enabled(s: System, e: Event) {
    match e
    case Call(_) => true
    case Check(r, _) =>
      && r < |s.requests| && s.requests[r].stage.Arrived?
      && P.Enabled(s.db, P.Arrive(P.TransferJob(s.requests[r].row)))
    case Db(event) => P.Enabled(s.db, event)
    // the handler returns what its session decided; an error may also hide a commit that happened or will
    case Return(r, lost) =>
      && r < |s.requests| && s.requests[r].stage.Handling?
      && s.requests[r].stage.session < |s.db.sessions|
      && var phase := s.db.sessions[s.requests[r].stage.session].phase;
         phase.Committed? || phase.Aborted? || (lost && phase.Ready?)
    case Delete(r, _) => r < |s.requests| && s.requests[r].stage.Cleanup?
    case Update(r, _) => r < |s.requests| && s.requests[r].update.Some?
    case Expire(_) => true
  }

  function Start(s: System, r: nat, claimed: bool, redis: map<Uuid, string>): System
    requires Enabled(s, Check(r, NoFault))
  {
    System(
      P.Do(s.db, P.Arrive(P.TransferJob(s.requests[r].row))),
      redis,
      s.requests[r := s.requests[r].(stage := Handling(|s.db.sessions|), claimed := claimed)])
  }

  function Do(s: System, e: Event): System
    requires Enabled(s, e)
  {
    match e
    case Call(row) => s.(requests := s.requests + [Request(row, Arrived, false, None)])
    case Check(r, fault) =>
      var key := s.requests[r].row.key;
      if key == NIL || fault.FaultBefore? then Start(s, r, false, s.redis)
      else if fault.FaultAfter? then
        Start(s, r, false, if key in s.redis then s.redis else s.redis[key := IN_PROCESS])
      else if key in s.redis then
        s.(requests := s.requests[r := s.requests[r].(stage := Replied(HandleDuplicate(s.redis[key])))])
      else Start(s, r, true, s.redis[key := IN_PROCESS])
    case Db(event) => s.(db := P.Do(s.db, event))
    case Return(r, lost) =>
      var q := s.requests[r];
      if s.db.sessions[q.stage.session].phase.Committed? && !lost then
        var update := if q.claimed then Some(q.row.id) else None;
        s.(requests := s.requests[r := q.(stage := Replied(Ok(q.row.id)), update := update)])
      else
        s.(requests := s.requests[r := q.(stage := if q.claimed then Cleanup else Replied(Error))])
    case Delete(r, fault) =>
      var q := s.requests[r];
      s.(requests := s.requests[r := q.(stage := Replied(Error))],
         redis := if fault.FaultBefore? then s.redis else s.redis - {q.row.key})
    case Update(r, fault) =>
      var q := s.requests[r];
      s.(requests := s.requests[r := q.(update := None)],
         redis := if fault.FaultBefore? then s.redis else s.redis[q.row.key := CompletedStatus(q.update.value)])
    case Expire(key) => s.(redis := s.redis - {key})
  }

  predicate Runs(s: System, es: seq<Event>)
    decreases |es|, 0
  {
    es == [] || (Runs(s, es[..|es| - 1]) && Enabled(After(s, es[..|es| - 1]), es[|es| - 1]))
  }

  function After(s: System, es: seq<Event>): System
    requires Runs(s, es)
    decreases |es|, 1
  {
    if es == [] then s else Do(After(s, es[..|es| - 1]), es[|es| - 1])
  }

  predicate Initial(s: System) {
    P.Initial(s.db) && s.redis == map[] && s.requests == []
  }

  // ---- safety, whatever Redis does ----

  predicate CommittedAs(ts: seq<Transaction>, key: Uuid, id: Uuid) {
    exists i :: 0 <= i < |ts| && ts[i].key == key && ts[i].id == id
  }

  ghost predicate RequestOk(s: System, q: Request) {
    && (q.stage.Handling? ==>
          q.stage.session < |s.db.sessions| && s.db.sessions[q.stage.session].job == P.TransferJob(q.row))
    && (q.stage.Replied? && q.stage.reply.Ok? ==> CommittedAs(s.db.tables.transactions, q.row.key, q.stage.reply.id))
    && (q.update.Some? ==> CommittedAs(s.db.tables.transactions, q.row.key, q.update.value))
  }

  /** The stored value is the lock or the completion of the transaction committed under that key. */
  ghost predicate Stored(s: System, key: Uuid) {
    key in s.redis ==>
      || s.redis[key] == IN_PROCESS
      || exists id :: s.redis[key] == CompletedStatus(id) && CommittedAs(s.db.tables.transactions, key, id)
  }

  ghost predicate Inv(s: System, t0: Tables) {
    && P.Inv(s.db, t0)
    && (forall k :: Stored(s, k))
    && (forall r :: 0 <= r < |s.requests| ==> RequestOk(s, s.requests[r]))
  }

  lemma CommittedStays(ts: seq<Transaction>, us: seq<Transaction>, key: Uuid, id: Uuid)
    requires ts <= us && CommittedAs(ts, key, id)
    ensures CommittedAs(us, key, id)
  {
    var i :| 0 <= i < |ts| && ts[i].key == key && ts[i].id == id;
    assert us[i].key == key;
  }

  lemma JobsStay(d: P.State, e: P.Event)
    requires P.Enabled(d, e)
    ensures |d.sessions| <= |P.Do(d, e).sessions|
    ensures forall i :: 0 <= i < |d.sessions| ==> P.Do(d, e).sessions[i].job == d.sessions[i].job
  {
  }

  /** The database may move on without disturbing what requests and Redis rely on. */
  lemma DbKept(s: System, t0: Tables, e: P.Event)
    requires Inv(s, t0) && P.Enabled(s.db, e)
    ensures Inv(s.(db := P.Do(s.db, e)), t0)
  {
    var u := s.(db := P.Do(s.db, e));
    hide P.Inv;
    P.InvKept(s.db, t0, e);
    G.EventExtends(s.db, t0, e);
    JobsStay(s.db, e);
    forall k ensures Stored(u, k) {
      assert Stored(s, k);
      if k in s.redis && s.redis[k] != IN_PROCESS {
        var id :| s.redis[k] == CompletedStatus(id) && CommittedAs(s.db.tables.transactions, k, id);
        CommittedStays(s.db.tables.transactions, u.db.tables.transactions, k, id);
      }
    }
    forall r | 0 <= r < |u.requests| ensures RequestOk(u, u.requests[r]) {
      var q := s.requests[r];
      assert RequestOk(s, q);
      if q.stage.Replied? && q.stage.reply.Ok? {
        CommittedStays(s.db.tables.transactions, u.db.tables.transactions, q.row.key, q.stage.reply.id);
      }
      if q.update.Some? {
        CommittedStays(s.db.tables.transactions, u.db.tables.transactions, q.row.key, q.update.value);
      }
    }
  }

  lemma RequestKept(s: System, t0: Tables, r: nat, q: Request, redis: map<Uuid, string>)
    requires Inv(s, t0) && r < |s.requests| && RequestOk(s, q)
    requires forall k :: k in redis ==>
               redis[k] == IN_PROCESS || (k in s.redis && redis[k] == s.redis[k])
               || (exists id :: redis[k] == CompletedStatus(id) && CommittedAs(s.db.tables.transactions, k, id))
    ensures Inv(s.(requests := s.requests[r := q], redis := redis), t0)
  {
    var u := s.(requests := s.requests[r := q], redis := redis);
    forall k ensures Stored(u, k) {
      assert Stored(s, k);
    }
    forall j | 0 <= j < |u.requests| ensures RequestOk(u, u.requests[j]) {
      assert j != r ==> RequestOk(s, s.requests[j]);
    }
  }

  lemma StartKept(s: System, t0: Tables, r: nat, claimed: bool, redis: map<Uuid, string>)
    requires Inv(s, t0) && Enabled(s, Check(r, NoFault))
    requires forall k :: k in redis ==> redis[k] == IN_PROCESS || (k in s.redis && redis[k] == s.redis[k])
    ensures Inv(Start(s, r, claimed, redis), t0)
  {
    var e := P.Arrive(P.TransferJob(s.requests[r].row));
    DbKept(s, t0, e);
    var u := s.(db := P.Do(s.db, e));
    var q := s.requests[r].(stage := Handling(|s.db.sessions|), claimed := claimed);
    assert RequestOk(s, s.requests[r]) && RequestOk(u, u.requests[r]);
    assert RequestOk(u, q);
    RequestKept(u, t0, r, q, redis);
  }

  lemma CommittedSession(d: P.State, t0: Tables, i: nat, row: Transaction)
    requires P.Inv(d, t0) && i < |d.sessions|
    requires d.sessions[i].job == P.TransferJob(row) && d.sessions[i].phase.Committed?
    ensures CommittedAs(d.tables.transactions, row.key, row.id)
  {
    var x := d.sessions[i];
    assert P.SessionOk(d.tables, d.nextId, x);
    assert row in P.RowsOf(x);
    var k :| 0 <= k < |d.tables.transactions| && d.tables.transactions[k] == row;
  }

  lemma CheckKept(s: System, t0: Tables, r: nat, fault: Fault)
    requires Inv(s, t0) && Enabled(s, Check(r, fault))
    ensures Inv(Do(s, Check(r, fault)), t0)
  {
    hide P.Inv;
    var u := Do(s, Check(r, fault));
    var key := s.requests[r].row.key;
    if u.requests[r].stage.Handling? {
      StartKept(s, t0, r, u.requests[r].claimed, u.redis);
    } else {
      assert RequestOk(s, s.requests[r]) && Stored(s, key);
      if s.redis[key] == IN_PROCESS {
        ReplayRoundTrip(0);
      } else {
        var id :| s.redis[key] == CompletedStatus(id) && CommittedAs(s.db.tables.transactions, key, id);
        ReplayRoundTrip(id);
      }
      RequestKept(s, t0, r, u.requests[r], s.redis);
    }
  }

  lemma ReturnKept(s: System, t0: Tables, r: nat, lost: bool)
    requires Inv(s, t0) && Enabled(s, Return(r, lost))
    ensures Inv(Do(s, Return(r, lost)), t0)
  {
    var u := Do(s, Return(r, lost));
    var q := s.requests[r];
    assert RequestOk(s, q);
    if s.db.sessions[q.stage.session].phase.Committed? && !lost {
      CommittedSession(s.db, t0, q.stage.session, q.row);
    }
    hide P.Inv;
    RequestKept(s, t0, r, u.requests[r], s.redis);
  }

  lemma EventKept(s: System, t0: Tables, e: Event)
    requires Inv(s, t0) && Enabled(s, e)
    ensures Inv(Do(s, e), t0)
  {
    hide P.Inv;
    match e
    case Call(row) =>
      var u := Do(s, e);
      assert forall k :: Stored(s, k) ==> Stored(u, k);
      assert forall r :: 0 <= r < |s.requests| ==> RequestOk(s, s.requests[r]);
    case Check(r, fault) => CheckKept(s, t0, r, fault);
    case Db(event) => DbKept(s, t0, event);
    case Return(r, lost) => ReturnKept(s, t0, r, lost);
    case Delete(r, fault) =>
      assert RequestOk(s, s.requests[r]);
      RequestKept(s, t0, r, Do(s, e).requests[r], Do(s, e).redis);
    case Update(r, fault) =>
      assert RequestOk(s, s.requests[r]);
      RequestKept(s, t0, r, Do(s, e).requests[r], Do(s, e).redis);
    case Expire(key) =>
      var u := Do(s, e);
      assert forall k :: Stored(s, k) ==> Stored(u, k);
      assert forall r :: 0 <= r < |s.requests| ==> RequestOk(s, s.requests[r]);
  }

  lemma {:induction false} RunKept(s: System, es: seq<Event>)
    requires Initial(s) && Runs(s, es)
    ensures Inv(After(s, es), s.db.tables)
  {
    if es == [] {
      G.RunInv(s.db, []);
    } else {
      RunKept(s, es[..|es| - 1]);
      EventKept(After(s, es[..|es| - 1]), s.db.tables, es[|es| - 1]);
    }
  }

  lemma OneIdPerKey(ts: seq<Transaction>, key: Uuid, id: Uuid, other: Uuid)
    requires UniqueRows(ts) && CommittedAs(ts, key, id) && CommittedAs(ts, key, other)
    ensures id == other
  {
  }

  /** Idempotency over whole runs: whatever Redis does, every OK reply for a key, fresh or replayed,
      carries the id of a transaction committed under that key, and there is only one. */
  lemma AtMostOncePerKey(s: System, es: seq<Event>, p: nat, q: nat)
    requires Initial(s) && Runs(s, es) && Booked(s.db.tables)
    requires p < |After(s, es).requests| && q < |After(s, es).requests|
    ensures UniqueRows(After(s, es).db.tables.transactions)
    ensures var u := After(s, es);
            var x, y := u.requests[p], u.requests[q];
            x.stage.Replied? && x.stage.reply.Ok? ==>
              && CommittedAs(u.db.tables.transactions, x.row.key, x.stage.reply.id)
              && (y.row.key == x.row.key && y.stage.Replied? && y.stage.reply.Ok? ==> y.stage.reply == x.stage.reply)
  {
    var u := After(s, es);
    RunKept(s, es);
    SerialBooked(s.db.tables, P.Commits(u.db.log));
    var x, y, ts := u.requests[p], u.requests[q], u.db.tables.transactions;
    assert RequestOk(u, x) && RequestOk(u, y);
    if x.stage.Replied? && x.stage.reply.Ok? && y.stage.Replied? && y.stage.reply.Ok? && y.row.key == x.row.key {
      OneIdPerKey(ts, x.row.key, x.stage.reply.id, y.stage.reply.id);
    }
  }

  // ---- mutual exclusion while Redis behaves ----

  predicate Faultless(e: Event) {
    match e
    case Check(_, fault) => fault.NoFault?
    case Delete(_, fault) => fault.NoFault?
    case Update(_, fault) => fault.NoFault?
    case Expire(_) => false
    case _ => true
  }

  /** The request has claimed its key and has not yet released or completed it. */
  predicate Owns(q: Request) {
    q.claimed && (q.stage.Handling? || q.stage.Cleanup? || q.update.Some?)
  }

  ghost predicate Exclusive(s: System) {
    && (forall r :: 0 <= r < |s.requests| ==>
          var q := s.requests[r];
          && (q.stage.Handling? && q.row.key != NIL ==> q.claimed)
          && (q.stage.Cleanup? ==> q.claimed)
          && (q.stage.Arrived? ==> !q.claimed && q.update.None?)
          && (q.update.Some? ==> q.claimed && q.stage.Replied?)
          && (Owns(q) ==> q.row.key in s.redis && s.redis[q.row.key] == IN_PROCESS))
    && (forall r, j :: 0 <= r < |s.requests| && 0 <= j < |s.requests| && r != j
                       && Owns(s.requests[r]) && Owns(s.requests[j]) ==>
          s.requests[r].row.key != s.requests[j].row.key)
  }

  lemma ExclusiveKept(s: System, e: Event)
    requires Exclusive(s) && Enabled(s, e) && Faultless(e)
    ensures Exclusive(Do(s, e))
  {
    hide P.Do;
    hide P.Enabled;
    hide HandleDuplicate;
    hide CompletedStatus;
  }

  /** Without expiry and Redis errors, at most one handler per key is in flight. */
  lemma {:induction false} MutualExclusion(s: System, es: seq<Event>)
    requires Initial(s) && Runs(s, es)
    requires forall k :: 0 <= k < |es| ==> Faultless(es[k])
    ensures Exclusive(After(s, es))
    ensures forall k :: Stored(After(s, es), k)
    ensures var u := After(s, es);
            forall p, q :: 0 <= p < q < |u.requests| && u.requests[p].stage.Handling? && u.requests[q].stage.Handling?
                           && u.requests[p].row.key == u.requests[q].row.key
              ==> u.requests[p].row.key == NIL
  {
    RunKept(s, es);
    hide Inv;
    if es != [] {
      MutualExclusion(s, es[..|es| - 1]);
      ExclusiveKept(After(s, es[..|es| - 1]), es[|es| - 1]);
    }
  }

  // ---- what a request gets ----

  /** The requests in the order of their calls. */
  function Calls(es: seq<Event>): seq<Transaction> {
    if es == [] then []
    else Calls(es[..|es| - 1]) + if es[|es| - 1].Call? then [es[|es| - 1].row] else []
  }

  lemma RowsStay(s: System, e: Event, r: nat)
    requires Enabled(s, e)
    ensures |Do(s, e).requests| == |s.requests| + if e.Call? then 1 else 0
    ensures r < |s.requests| ==> Do(s, e).requests[r].row == s.requests[r].row
    ensures e.Call? ==> Do(s, e).requests[|s.requests|].row == e.row
  {
    hide P.Do;
    hide P.Enabled;
    hide HandleDuplicate;
    hide CompletedStatus;
  }

  /** Every request is served with the row it was called with. */
  lemma {:induction false} RequestsAsCalled(s: System, es: seq<Event>)
    requires Initial(s) && Runs(s, es)
    ensures var u := After(s, es);
            |u.requests| == |Calls(es)| && forall r :: 0 <= r < |u.requests| ==> u.requests[r].row == Calls(es)[r]
  {
    hide Do;
    hide Enabled;
    if es != [] {
      var init, e := es[..|es| - 1], es[|es| - 1];
      RequestsAsCalled(s, init);
      RowsStay(After(s, init), e, 0);
      forall r | 0 <= r < |After(s, es).requests| ensures After(s, es).requests[r].row == Calls(es)[r] {
        RowsStay(After(s, init), e, r);
      }
    }
  }

  /** The handler's session has committed, and its client learns of it. */
  predicate Succeeds(s: System, r: nat, lost: bool)
    requires Enabled(s, Return(r, lost))
  {
    s.db.sessions[s.requests[r].stage.session].phase.Committed? && !lost
  }

  /** What the handler's return leads to: a success is answered with the transaction's id, and its owner
      goes on to write it back; the owner of a failed request goes on to delete the lock. */
  lemma ReturnOutcome(s: System, r: nat, lost: bool)
    requires Enabled(s, Return(r, lost))
    ensures var q, u := s.requests[r], Do(s, Return(r, lost));
            && u.db == s.db && u.redis == s.redis && |u.requests| == |s.requests|
            && (forall p :: 0 <= p < |s.requests| && p != r ==> u.requests[p] == s.requests[p])
            && u.requests[r].row == q.row && u.requests[r].claimed == q.claimed
            && (Succeeds(s, r, lost) ==>
                  && u.requests[r].stage == Replied(Ok(q.row.id))
                  && (q.claimed ==> Enabled(u, Update(r, NoFault)) && u.requests[r].update == Some(q.row.id)))
            && (!Succeeds(s, r, lost) && q.claimed ==>
                  Enabled(u, Delete(r, NoFault)) && Do(u, Delete(r, NoFault)).requests[r].stage == Replied(Error))
            && (!Succeeds(s, r, lost) && !q.claimed ==> u.requests[r].stage == Replied(Error))
  {
  }


  /** While the owner of a key is at work, a repeat is told so and starts nothing. */
  lemma RepeatWhileOwned(s: System, r: nat, p: nat)
    requires Exclusive(s) && r < |s.requests| && Owns(s.requests[r])
    requires Enabled(s, Check(p, NoFault)) && s.requests[p].row.key == s.requests[r].row.key != NIL
    ensures var u := Do(s, Check(p, NoFault));
            u.requests[p].stage == Replied(InProgress) && u.db == s.db && u.redis == s.redis
  {
    ReplayRoundTrip(0);
  }

  predicate AllFaultless(es: seq<Event>) {
    forall k :: 0 <= k < |es| ==> Faultless(es[k])
  }

  predicate IsCompleted(s: System, key: Uuid, id: Uuid) {
    key in s.redis && s.redis[key] == CompletedStatus(id)
  }

  /** Nobody owns a completed key, so nobody can overwrite or delete its value. */
  lemma CompletedKept(s: System, e: Event, key: Uuid, id: Uuid)
    requires Exclusive(s) && IsCompleted(s, key, id) && Enabled(s, e) && Faultless(e)
    ensures Exclusive(Do(s, e)) && IsCompleted(Do(s, e), key, id)
  {
    ExclusiveKept(s, e);
    assert CompletedStatus(id)[0] == 'c';
    hide P.Do;
    hide P.Enabled;
    hide HandleDuplicate;
    hide CompletedStatus;
  }

  lemma {:induction false} CompletedStays(s: System, es: seq<Event>, key: Uuid, id: Uuid)
    requires Exclusive(s) && IsCompleted(s, key, id) && Runs(s, es) && AllFaultless(es)
    ensures Exclusive(After(s, es)) && IsCompleted(After(s, es), key, id)
  {
    if es != [] {
      CompletedStays(s, es[..|es| - 1], key, id);
      CompletedKept(After(s, es[..|es| - 1]), es[|es| - 1], key, id);
    }
  }

  /** A success stays to be written back until it is, and from then on is stored. */
  lemma {:induction false} WriteBack(s: System, es: seq<Event>, r: nat, id: Uuid)
    requires Exclusive(s) && r < |s.requests| && s.requests[r].update == Some(id)
    requires Runs(s, es) && AllFaultless(es)
    ensures var u := After(s, es);
            && Exclusive(u) && r < |u.requests| && u.requests[r].row == s.requests[r].row
            && (Update(r, NoFault) !in es ==> u.requests[r].update == Some(id))
            && (Update(r, NoFault) in es ==> IsCompleted(u, s.requests[r].row.key, id))
  {
    if es != [] {
      var init, e := es[..|es| - 1], es[|es| - 1];
      var m := After(s, init);
      WriteBack(s, init, r, id);
      assert es == init + [e];
      ExclusiveKept(m, e);
      if Update(r, NoFault) in init {
        CompletedKept(m, e, s.requests[r].row.key, id);
      }
      RowsStay(m, e, r);
      hide P.Do;
      hide P.Enabled;
      hide HandleDuplicate;
      hide CompletedStatus;
    }
  }

  /** A success answers the transaction's id. In every later state of every run a repeat is told to wait
      until the success has been written back, and gets the same id from then on; it starts nothing. */
  lemma RepeatAfterSuccess(s: System, r: nat, es: seq<Event>, p: nat)
    requires Exclusive(s) && Enabled(s, Return(r, false)) && Succeeds(s, r, false)
    requires s.requests[r].claimed && s.requests[r].row.key != NIL
    requires Runs(Do(s, Return(r, false)), es) && AllFaultless(es)
    requires var u := After(Do(s, Return(r, false)), es);
             Enabled(u, Check(p, NoFault)) && u.requests[p].row.key == s.requests[r].row.key
    ensures Do(s, Return(r, false)).requests[r].stage == Replied(Ok(s.requests[r].row.id))
    ensures Update(r, NoFault) !in es ==> Enabled(After(Do(s, Return(r, false)), es), Update(r, NoFault))
    ensures var u := After(Do(s, Return(r, false)), es);
            var v := Do(u, Check(p, NoFault));
            && v.requests[p].stage == Replied(if Update(r, NoFault) in es then Ok(s.requests[r].row.id) else InProgress)
            && v.db == u.db && v.redis == u.redis
  {
    var key, id := s.requests[r].row.key, s.requests[r].row.id;
    var v := Do(s, Return(r, false));
    var u := After(v, es);
    ReturnOutcome(s, r, false);
    ExclusiveKept(s, Return(r, false));
    WriteBack(v, es, r, id);
    ReplayRoundTrip(id);
    if Update(r, NoFault) !in es {
      assert Owns(u.requests[r]);
    }
    hide HandleDuplicate;
    hide CompletedStatus;
    hide P.Enabled;
  }

  /** No request with this key asks for the lock during the run. */
  predicate Unasked(s: System, es: seq<Event>, key: Uuid)
    requires Runs(s, es)
  {
    es == [] ||
    var init, e := es[..|es| - 1], es[|es| - 1];
    Unasked(s, init, key) && (e.Check? ==> After(s, init).requests[e.r].row.key != key)
  }

  /** Nobody owns a free key either, so only a request for the lock can take it. */
  lemma {:induction false} FreeStays(s: System, es: seq<Event>, key: Uuid)
    requires Exclusive(s) && key !in s.redis && Runs(s, es) && AllFaultless(es) && Unasked(s, es, key)
    ensures Exclusive(After(s, es)) && key !in After(s, es).redis
  {
    if es != [] {
      FreeStays(s, es[..|es| - 1], key);
      ExclusiveKept(After(s, es[..|es| - 1]), es[|es| - 1]);
      hide P.Do;
      hide P.Enabled;
      hide HandleDuplicate;
      hide CompletedStatus;
    }
  }

  predicate Deletes(es: seq<Event>, r: nat) {
    exists k :: 0 <= k < |es| && es[k].Delete? && es[k].r == r
  }

  lemma {:induction false} CleanupStays(s: System, es: seq<Event>, r: nat)
    requires Exclusive(s) && r < |s.requests| && s.requests[r].stage.Cleanup?
    requires Runs(s, es) && AllFaultless(es) && !Deletes(es, r)
    ensures var u := After(s, es);
            && Exclusive(u) && r < |u.requests| && u.requests[r].row == s.requests[r].row
            && u.requests[r].stage.Cleanup?
  {
    if es != [] {
      var init, e := es[..|es| - 1], es[|es| - 1];
      assert forall k :: 0 <= k < |init| ==> init[k] == es[k];
      CleanupStays(s, init, r);
      ExclusiveKept(After(s, init), e);
      RowsStay(After(s, init), e, r);
      hide P.Do;
      hide P.Enabled;
      hide HandleDuplicate;
    }
  }

  /** A failure keeps its lock until it deletes it, which it always can; until then a repeat is told to
      wait. */
  lemma FailureReleases(s: System, r: nat, lost: bool, es: seq<Event>)
    requires Exclusive(s) && Enabled(s, Return(r, lost)) && !Succeeds(s, r, lost)
    requires s.requests[r].claimed && s.requests[r].row.key != NIL
    requires Runs(Do(s, Return(r, lost)), es) && AllFaultless(es) && !Deletes(es, r)
    ensures var u := After(Do(s, Return(r, lost)), es);
            && Exclusive(u) && Enabled(u, Delete(r, NoFault)) && u.requests[r].row == s.requests[r].row
            && forall p: nat :: Enabled(u, Check(p, NoFault)) && u.requests[p].row.key == s.requests[r].row.key ==>
                 Do(u, Check(p, NoFault)).requests[p].stage == Replied(InProgress)
  {
    ReturnOutcome(s, r, lost);
    ExclusiveKept(s, Return(r, lost));
    var v := Do(s, Return(r, lost));
    CleanupStays(v, es, r);
    var u := After(v, es);
    forall p: nat | Enabled(u, Check(p, NoFault)) && u.requests[p].row.key == s.requests[r].row.key
      ensures Do(u, Check(p, NoFault)).requests[p].stage == Replied(InProgress)
    {
      RepeatWhileOwned(u, r, p);
    }
  }

  /** After a failure, and once it has deleted its lock, the first request for the key, whenever it comes,
      claims it and runs the handler again. */
  lemma RepeatAfterFailure(s: System, r: nat, lost: bool, es: seq<Event>, later: seq<Event>, p: nat)
    requires Exclusive(s) && Enabled(s, Return(r, lost)) && !Succeeds(s, r, lost)
    requires s.requests[r].claimed && s.requests[r].row.key != NIL
    requires Runs(Do(s, Return(r, lost)), es) && AllFaultless(es) && !Deletes(es, r)
    requires Enabled(After(Do(s, Return(r, lost)), es), Delete(r, NoFault))
    requires var w := Do(After(Do(s, Return(r, lost)), es), Delete(r, NoFault));
             && Runs(w, later) && AllFaultless(later) && Unasked(w, later, s.requests[r].row.key)
             && Enabled(After(w, later), Check(p, NoFault))
             && After(w, later).requests[p].row.key == s.requests[r].row.key
    ensures var u := After(Do(After(Do(s, Return(r, lost)), es), Delete(r, NoFault)), later);
            var v := Do(u, Check(p, NoFault));
            && v.requests[p].stage == Handling(|u.db.sessions|) && v.requests[p].claimed
            && |v.db.sessions| == |u.db.sessions| + 1
            && v.db.sessions[|u.db.sessions|].job == P.TransferJob(u.requests[p].row)
            && v.redis == u.redis[s.requests[r].row.key := IN_PROCESS]
  {
    hide Exclusive;
    hide P.Enabled;
    hide Unasked;
    FailureReleases(s, r, lost, es);
    var m := After(Do(s, Return(r, lost)), es);
    ExclusiveKept(m, Delete(r, NoFault));
    FreeStays(Do(m, Delete(r, NoFault)), later, s.requests[r].row.key);
  }

  /** Fail-open: a request without a key, or one for which Redis fails, runs its handler all the same, as
      nobody's owner. A lock that was set before the failure stays until it expires. */
  lemma FailOpen(s: System, r: nat, fault: Fault)
    requires Enabled(s, Check(r, fault)) && (s.requests[r].row.key == NIL || !fault.NoFault?)
    ensures var u := Do(s, Check(r, fault));
            var key := s.requests[r].row.key;
            && u.requests == s.requests[r := s.requests[r].(stage := Handling(|s.db.sessions|), claimed := false)]
            && u.db.sessions == s.db.sessions + [P.Begin(P.TransferJob(s.requests[r].row))]
            && u.db.tables == s.db.tables
            && u.redis == (if key != NIL && fault.FaultAfter? && key !in s.redis then s.redis[key := IN_PROCESS]
                           else s.redis)
  {
  }
}
