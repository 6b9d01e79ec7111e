/** The load phase: streams build jobs, reserve money for them in the local pool and queue them, workers
    take jobs and finish them, and on cancellation the phase winds down. Every reservation is finished
    exactly once, so that at the end the pool holds the initial balances plus the successful jobs. */
module Load {
  import opened Uuids
  import opened Ledger
  import opened Pool

  datatype Outcome = Open | Succeeded | Failed | Dropped

  /** `reserved` marks a job whose amount has been moved in the pool; other jobs never touch the pool. */
  datatype Job = Job(from: Uuid, to: Uuid, amount: int, reserved: bool, outcome: Outcome)

  // ---- the pool's part of a job ----

  /** The balances after a job that will not go through has been given up. */
  function Released(m: map<Uuid, int>, j: Job): map<Uuid, int> {
    if j.reserved then PutBack(m, j.from, j.to, j.amount) else m
  }

  /** One unit, or one time in four anything below the balance. */
  function Drawn(balance: int, die: nat, draw: nat): (amount: int)
    requires balance > 0 && (balance > 1 ==> draw < balance - 1)
    ensures 1 <= amount <= balance && (amount == balance ==> balance == 1)
  {
    if balance > 1 && die == 0 then draw + 1 else 1
  }

  /** Every amount below the balance comes from exactly one draw, and without the die it is one unit. */
  lemma DrawnOnto(balance: int, amount: int)
    requires 1 <= amount < balance
    ensures Drawn(balance, 0, amount - 1) == amount
    ensures forall draw: nat :: draw < balance - 1 && Drawn(balance, 0, draw) == amount ==> draw == amount - 1
    ensures forall die: nat, draw: nat :: die > 0 && draw < balance - 1 ==> Drawn(balance, die, draw) == 1
  {
  }

  /** The money for a job is there. */
  predicate Reservable(m: map<Uuid, int>, from: Uuid, to: Uuid, amount: int) {
    from in m && to in m && m[from] >= amount
  }

  /** BuildValid on two accounts that were read from the pool a moment ago. A job exists exactly when its
      money could still be reserved, and the reservation is all that changes. */
  method BuildValid(pool: AccountPool, from: Slot, to: Slot, die: nat, draw: nat) returns (job: Option<Job>)
    requires pool.Valid() && from.balance > 0 && (from.balance > 1 ==> draw < from.balance - 1)
    modifies pool`accounts
    ensures pool.Valid() && pool.index == old(pool.index)
    ensures var m, amount := old(pool.Balances()), Drawn(from.balance, die, draw);
            if Reservable(m, from.id, to.id, amount) then
              && job == Some(Job(from.id, to.id, amount, true, Open))
              && pool.Balances() == Moved(m, from.id, to.id, amount)
            else
              job.None? && pool.Balances() == m
  {
    hide Indexed;
    hide BalancesOf;
    hide Moved;
    var amount := Drawn(from.balance, die, draw);
    var ok := pool.ReserveValid(from.id, to.id, amount);
    if !ok {
      return None;
    }
    return Some(Job(from.id, to.id, amount, true, Open));
  }

  method DropReserved(pool: AccountPool, job: Job)
    requires pool.Valid()
    modifies pool`accounts
    ensures pool.Valid() && pool.index == old(pool.index)
    ensures pool.Balances() == Released(old(pool.Balances()), job)
  {
    hide Indexed;
    hide BalancesOf;
    if !job.reserved {
      return;
    }
    pool.RollbackValid(job.from, job.to, job.amount);
  }

  /** handleJob: the reservation stays when the transfer succeeded and is undone when it failed. */
  method HandleJob(pool: AccountPool, job: Job, failed: bool)
    requires pool.Valid()
    modifies pool`accounts
    ensures pool.Valid() && pool.index == old(pool.index)
    ensures pool.Balances() == if failed then Released(old(pool.Balances()), job) else old(pool.Balances())
  {
    hide Indexed;
    hide BalancesOf;
    if job.reserved && failed {
      pool.RollbackValid(job.from, job.to, job.amount);
    }
  }

  // ---- the step machine ----

  /** A stream or a worker: between jobs, with a job in hand, or returned. */
  datatype Party = Idle | Busy(job: nat) | Gone

  /** `room` is the capacity of the queue, `done` that the phase was cancelled, `closed` that the queue is. */
  datatype State = State(
    balances: map<Uuid, int>, jobs: seq<Job>,
    streams: seq<Party>, queue: seq<nat>, room: nat, workers: seq<Party>,
    done: bool, closed: bool)

  /** Each access to the pool is one step, because the pool's mutex is held for it. A build that fails
      changes nothing and is no event. */
  datatype Event =
    | Reserve(i: nat, from: Uuid, to: Uuid, amount: int)
    | Make(i: nat, from: Uuid, to: Uuid, amount: int)
    | Send(i: nat)
    | Drop(i: nat)
    | Leave(i: nat)
    | Cancel
    | Close
    | Take(k: nat)
    | Finish(k: nat, failed: bool)
    | Exit(k: nat)

  predicate AllGone(ps: seq<Party>) {
    forall i :: 0 <= i < |ps| ==> ps[i].Gone?
  }

  predicate Enabled(s: State, e: Event) {
    match e
    case Reserve(i, from, to, amount) =>
      i < |s.streams| && s.streams[i].Idle? && Reservable(s.balances, from, to, amount)
    case Make(i, _, _, _) => i < |s.streams| && s.streams[i].Idle?
    case Send(i) => i < |s.streams| && s.streams[i].Busy? && |s.queue| < s.room
    case Drop(i) => i < |s.streams| && s.streams[i].Busy? && s.streams[i].job < |s.jobs| && s.done
    case Leave(i) => i < |s.streams| && s.streams[i].Idle? && s.done
    case Cancel => !s.done
    case Close => s.done && !s.closed && AllGone(s.streams)
    case Take(k) => k < |s.workers| && s.workers[k].Idle? && s.queue != []
    case Finish(k, _) => k < |s.workers| && s.workers[k].Busy? && s.workers[k].job < |s.jobs|
    case Exit(k) => k < |s.workers| && s.workers[k].Idle? && s.closed && s.queue == []
  }

  function Settle(jobs: seq<Job>, j: nat, outcome: Outcome): seq<Job>
    requires j < |jobs|
  {
    jobs[j := jobs[j].(outcome := outcome)]
  }

  function Do(s: State, e: Event): State
    requires Enabled(s, e)
  {
    match e
    case Reserve(i, from, to, amount) =>
      s.(balances := Moved(s.balances, from, to, amount),
         jobs := s.jobs + [Job(from, to, amount, true, Open)],
         streams := s.streams[i := Busy(|s.jobs|)])
    case Make(i, from, to, amount) =>
      s.(jobs := s.jobs + [Job(from, to, amount, false, Open)], streams := s.streams[i := Busy(|s.jobs|)])
    case Send(i) => s.(queue := s.queue + [s.streams[i].job], streams := s.streams[i := Idle])
    case Drop(i) =>
      var j := s.streams[i].job;
      s.(balances := Released(s.balances, s.jobs[j]), jobs := Settle(s.jobs, j, Dropped),
         streams := s.streams[i := Gone])
    case Leave(i) => s.(streams := s.streams[i := Gone])
    case Cancel => s.(done := true)
    case Close => s.(closed := true)
    case Take(k) => s.(queue := s.queue[1..], workers := s.workers[k := Busy(s.queue[0])])
    case Finish(k, failed) =>
      var j := s.workers[k].job;
      s.(balances := if failed then Released(s.balances, s.jobs[j]) else s.balances,
         jobs := Settle(s.jobs, j, if failed then Failed else Succeeded),
         workers := s.workers[k := Idle])
    case Exit(k) => s.(workers := s.workers[k := Gone])
  }

  predicate Runs(s: State, es: seq<Event>)
    decreases |es|, 0
  {
    es == [] || (Runs(s, es[..|es| - 1]) && Enabled(After(s, es[..|es| - 1]), es[|es| - 1]))
  }

  function After(s: State, es: seq<Event>): State
    requires Runs(s, es)
    decreases |es|, 1
  {
    if es == [] then s else Do(After(s, es[..|es| - 1]), es[|es| - 1])
  }

  /** A stream whose rate is not positive returns at once. */
  predicate Initial(s: State) {
    && s.jobs == [] && s.queue == [] && s.room > 0 && |s.workers| > 0 && !s.done && !s.closed
    && (forall i :: 0 <= i < |s.streams| ==> !s.streams[i].Busy?)
    && (forall k :: 0 <= k < |s.workers| ==> s.workers[k].Idle?)
  }

  /** runLoad returns when it has waited for every worker. */
  predicate Ended(s: State) {
    AllGone(s.workers)
  }

  // ---- where a job is ----

  function Hand(p: Party, j: nat): nat {
    if p == Busy(j) then 1 else 0
  }

  /** How many of the parties have job `j` in hand. */
  function Hands(ps: seq<Party>, j: nat): nat {
    if ps == [] then 0 else Hands(ps[..|ps| - 1], j) + Hand(ps[|ps| - 1], j)
  }

  lemma {:induction false} HandsUpdate(ps: seq<Party>, i: nat, p: Party, j: nat)
    requires i < |ps|
    ensures Hands(ps[i := p], j) == Hands(ps, j) - Hand(ps[i], j) + Hand(p, j)
  {
    if i == |ps| - 1 {
      assert ps[i := p][..i] == ps[..i];
    } else {
      assert ps[i := p][..|ps| - 1] == ps[..|ps| - 1][i := p];
      HandsUpdate(ps[..|ps| - 1], i, p, j);
    }
  }

  lemma {:induction false} NoHands(ps: seq<Party>, j: nat)
    requires forall i :: 0 <= i < |ps| ==> !ps[i].Busy?
    ensures Hands(ps, j) == 0
  {
    if ps != [] {
      NoHands(ps[..|ps| - 1], j);
    }
  }

  /** In how many places a job is: in the hand of a stream, in the queue, in the hand of a worker. */
  function Places(s: State, j: nat): nat {
    Hands(s.streams, j) + multiset(s.queue)[j] + Hands(s.workers, j)
  }

  predicate IsOpen(s: State, j: nat) {
    j < |s.jobs| && s.jobs[j].outcome.Open?
  }

  /** Every open job is in exactly one place, and a finished job is in none. */
  ghost predicate OnePlace(s: State) {
    forall j: nat :: Places(s, j) == if IsOpen(s, j) then 1 else 0
  }

  predicate Builds(e: Event) {
    e.Reserve? || e.Make?
  }

  /** The event that ends a job. */
  predicate Settles(s: State, e: Event, j: nat) {
    match e
    case Drop(i) => i < |s.streams| && s.streams[i] == Busy(j)
    case Finish(k, _) => k < |s.workers| && s.workers[k] == Busy(j)
    case _ => false
  }

  /** A build puts the new job in one place, the event that ends a job takes it from one, and every
      other event keeps it in as many places as before. */
  lemma PlacesAfter(s: State, e: Event, j: nat)
    requires Enabled(s, e)
    ensures Places(Do(s, e), j)
         == Places(s, j) + (if Builds(e) && j == |s.jobs| then 1 else 0) - (if Settles(s, e, j) then 1 else 0)
  {
    hide Hands;
    hide Released;
    hide Moved;
    hide Settle;
    match e
    case Reserve(i, _, _, _) => HandsUpdate(s.streams, i, Busy(|s.jobs|), j);
    case Make(i, _, _, _) => HandsUpdate(s.streams, i, Busy(|s.jobs|), j);
    case Send(i) => HandsUpdate(s.streams, i, Idle, j);
    case Drop(i) => HandsUpdate(s.streams, i, Gone, j);
    case Leave(i) => HandsUpdate(s.streams, i, Gone, j);
    case Take(k) =>
      HandsUpdate(s.workers, k, Busy(s.queue[0]), j);
      assert s.queue == [s.queue[0]] + s.queue[1..];
    case Finish(k, _) => HandsUpdate(s.workers, k, Idle, j);
    case Exit(k) => HandsUpdate(s.workers, k, Gone, j);
    case _ =>
  }

  lemma OnePlaceKept(s: State, e: Event)
    requires OnePlace(s) && Enabled(s, e)
    ensures OnePlace(Do(s, e))
    ensures forall j :: Settles(s, e, j) ==> IsOpen(s, j)
  {
    hide Places;
    hide Released;
    hide Moved;
    var u := Do(s, e);
    forall j: nat
      ensures Places(u, j) == if IsOpen(u, j) then 1 else 0
      ensures Settles(s, e, j) ==> IsOpen(s, j)
    {
      PlacesAfter(s, e, j);
      assert Places(s, j) == if IsOpen(s, j) then 1 else 0;
    }
  }

  // ---- what the pool holds ----

  function Effect(j: Job, id: Uuid): int {
    (if j.to == id then j.amount else 0) - (if j.from == id then j.amount else 0)
  }

  /** What a job still moves into an account: nothing unless it was reserved and not given up. */
  function Share(j: Job, id: Uuid): int {
    if j.reserved && (j.outcome.Open? || j.outcome.Succeeded?) then Effect(j, id) else 0
  }

  function Net(jobs: seq<Job>, id: Uuid): int {
    if jobs == [] then 0 else Net(jobs[..|jobs| - 1], id) + Share(jobs[|jobs| - 1], id)
  }

  /** What the successful jobs moved into an account. */
  function NetSucceeded(jobs: seq<Job>, id: Uuid): int {
    if jobs == [] then 0
    else
      var j := jobs[|jobs| - 1];
      NetSucceeded(jobs[..|jobs| - 1], id) + if j.reserved && j.outcome.Succeeded? then Effect(j, id) else 0
  }

  lemma {:induction false} NetUpdate(jobs: seq<Job>, i: nat, j: Job, id: Uuid)
    requires i < |jobs|
    ensures Net(jobs[i := j], id) == Net(jobs, id) - Share(jobs[i], id) + Share(j, id)
  {
    if i == |jobs| - 1 {
      assert jobs[i := j][..i] == jobs[..i];
    } else {
      assert jobs[i := j][..|jobs| - 1] == jobs[..|jobs| - 1][i := j];
      NetUpdate(jobs[..|jobs| - 1], i, j, id);
    }
  }

  lemma {:induction false} NetSucceededUpdate(jobs: seq<Job>, i: nat, outcome: Outcome, id: Uuid)
    requires i < |jobs| && jobs[i].outcome.Open?
    ensures NetSucceeded(Settle(jobs, i, outcome), id)
         == NetSucceeded(jobs, id) + if outcome.Succeeded? && jobs[i].reserved then Effect(jobs[i], id) else 0
  {
    var us := Settle(jobs, i, outcome);
    if i == |jobs| - 1 {
      assert us[..i] == jobs[..i];
    } else {
      assert us[..|jobs| - 1] == Settle(jobs[..|jobs| - 1], i, outcome);
      NetSucceededUpdate(jobs[..|jobs| - 1], i, outcome, id);
    }
  }

  lemma {:induction false} NetAtEnd(jobs: seq<Job>, id: Uuid)
    requires forall i :: 0 <= i < |jobs| ==> !jobs[i].outcome.Open?
    ensures Net(jobs, id) == NetSucceeded(jobs, id)
  {
    if jobs != [] {
      NetAtEnd(jobs[..|jobs| - 1], id);
    }
  }

  /** The mirror is the initial balances plus the jobs that were not given up, and keeps their total. */
  ghost predicate Mirrors(balances: map<Uuid, int>, initial: map<Uuid, int>, jobs: seq<Job>) {
    && balances.Keys == initial.Keys
    && (forall i :: 0 <= i < |jobs| && jobs[i].reserved ==> jobs[i].from in initial && jobs[i].to in initial)
    && (forall id :: id in initial ==> balances[id] == initial[id] + Net(jobs, id))
    && SumOver(balances) == SumOver(initial)
  }

  lemma MirrorsBuild(balances: map<Uuid, int>, initial: map<Uuid, int>, jobs: seq<Job>, j: Job)
    requires Mirrors(balances, initial, jobs) && j.outcome.Open?
    requires j.reserved ==> j.from in initial && j.to in initial
    ensures Mirrors(if j.reserved then Moved(balances, j.from, j.to, j.amount) else balances, initial, jobs + [j])
  {
    hide SumOver;
    if j.reserved {
      MovedTotal(balances, j.from, j.to, j.amount);
    }
    assert (jobs + [j])[..|jobs|] == jobs;
  }

  /** Giving up any one open job, in any order, keeps the mirror exact. */
  lemma MirrorsRelease(balances: map<Uuid, int>, initial: map<Uuid, int>, jobs: seq<Job>, i: nat, outcome: Outcome)
    requires Mirrors(balances, initial, jobs) && i < |jobs| && jobs[i].outcome.Open?
    requires outcome.Failed? || outcome.Dropped?
    ensures Mirrors(Released(balances, jobs[i]), initial, Settle(jobs, i, outcome))
  {
    hide SumOver;
    var j := jobs[i];
    var us := Settle(jobs, i, outcome);
    if j.reserved {
      MovedTotal(balances, j.to, j.from, j.amount);
      PutBackReverses(balances, j.from, j.to, j.amount);
    }
    forall id | id in initial ensures Released(balances, j)[id] == initial[id] + Net(us, id) {
      NetUpdate(jobs, i, us[i], id);
    }
  }

  lemma MirrorsSuccess(balances: map<Uuid, int>, initial: map<Uuid, int>, jobs: seq<Job>, i: nat)
    requires Mirrors(balances, initial, jobs) && i < |jobs| && jobs[i].outcome.Open?
    ensures Mirrors(balances, initial, Settle(jobs, i, Succeeded))
  {
    hide SumOver;
    var us := Settle(jobs, i, Succeeded);
    forall id | id in initial ensures Net(us, id) == Net(jobs, id) {
      NetUpdate(jobs, i, us[i], id);
    }
  }

  lemma MirrorsKept(s: State, initial: map<Uuid, int>, e: Event)
    requires Mirrors(s.balances, initial, s.jobs) && OnePlace(s) && Enabled(s, e)
    ensures Mirrors(Do(s, e).balances, initial, Do(s, e).jobs)
  {
    OnePlaceKept(s, e);
    hide OnePlace;
    match e
    case Reserve(i, from, to, amount) =>
      MirrorsBuild(s.balances, initial, s.jobs, Job(from, to, amount, true, Open));
    case Make(i, from, to, amount) =>
      MirrorsBuild(s.balances, initial, s.jobs, Job(from, to, amount, false, Open));
    case Drop(i) =>
      assert Settles(s, e, s.streams[i].job);
      MirrorsRelease(s.balances, initial, s.jobs, s.streams[i].job, Dropped);
    case Finish(k, failed) =>
      assert Settles(s, e, s.workers[k].job);
      if failed {
        MirrorsRelease(s.balances, initial, s.jobs, s.workers[k].job, Failed);
      } else {
        MirrorsSuccess(s.balances, initial, s.jobs, s.workers[k].job);
      }
    case _ =>
  }

  // ---- whole runs ----

  /** The queue keeps to its capacity and is closed only after the streams, and a worker returns only from
      a closed, empty queue. */
  predicate Orderly(s: State) {
    && s.room > 0 && |s.queue| <= s.room && |s.workers| > 0
    && (s.closed ==> s.done && AllGone(s.streams))
    && (forall k :: 0 <= k < |s.workers| && s.workers[k].Gone? ==> s.closed && s.queue == [])
  }

  ghost predicate Inv(s: State, initial: map<Uuid, int>) {
    Mirrors(s.balances, initial, s.jobs) && OnePlace(s) && Orderly(s)
  }

  lemma EventKept(s: State, initial: map<Uuid, int>, e: Event)
    requires Inv(s, initial) && Enabled(s, e)
    ensures Inv(Do(s, e), initial)
  {
    MirrorsKept(s, initial, e);
    OnePlaceKept(s, e);
    hide Mirrors;
    hide OnePlace;
  }

  /** Every run keeps the invariant, the queue never exceeds its capacity, and no stream ever sends on the
      closed queue. */
  lemma {:induction false} RunKept(s: State, es: seq<Event>)
    requires Initial(s) && Runs(s, es)
    ensures Inv(After(s, es), s.balances)
    ensures |After(s, es).queue| <= After(s, es).room == s.room
    ensures forall i :: Enabled(After(s, es), Send(i)) ==> !After(s, es).closed
  {
    if es == [] {
      forall j: nat ensures Places(s, j) == 0 {
        NoHands(s.streams, j);
        NoHands(s.workers, j);
      }
    } else {
      RunKept(s, es[..|es| - 1]);
      EventKept(After(s, es[..|es| - 1]), s.balances, es[|es| - 1]);
    }
  }

  /** How often a run ends a job. */
  function Settlings(s: State, es: seq<Event>, j: nat): nat
    requires Runs(s, es)
  {
    if es == [] then 0
    else
      var init := es[..|es| - 1];
      Settlings(s, init, j) + if Settles(After(s, init), es[|es| - 1], j) then 1 else 0
  }

  predicate IsFinished(s: State, j: nat) {
    j < |s.jobs| && !s.jobs[j].outcome.Open?
  }

  /** Only the event that ends a job changes it, and it finds the job open. */
  lemma JobAfter(s: State, e: Event, j: nat)
    requires OnePlace(s) && Enabled(s, e)
    ensures IsFinished(Do(s, e), j) <==> IsFinished(s, j) || Settles(s, e, j)
    ensures j < |s.jobs| && !Settles(s, e, j) ==> j < |Do(s, e).jobs| && Do(s, e).jobs[j] == s.jobs[j]
    ensures Settles(s, e, j) ==> !IsFinished(s, j)
  {
    OnePlaceKept(s, e);
    hide OnePlace;
    hide Released;
    hide Moved;
  }

  /** Each job is ended at most once, and exactly once when it is finished. */
  lemma {:induction false} FinishedOnce(s: State, es: seq<Event>, j: nat)
    requires Initial(s) && Runs(s, es)
    ensures Settlings(s, es, j) == if IsFinished(After(s, es), j) then 1 else 0
  {
    if es != [] {
      var init := es[..|es| - 1];
      FinishedOnce(s, init, j);
      RunKept(s, init);
      JobAfter(After(s, init), es[|es| - 1], j);
    }
  }

  /** Once finished, a job never changes again, in any continuation of the run. */
  lemma {:induction false} FinishedStays(s: State, initial: map<Uuid, int>, es: seq<Event>, j: nat)
    requires Inv(s, initial) && Runs(s, es) && IsFinished(s, j)
    ensures Inv(After(s, es), initial)
    ensures j < |After(s, es).jobs| && After(s, es).jobs[j] == s.jobs[j]
  {
    if es != [] {
      var init := es[..|es| - 1];
      FinishedStays(s, initial, init, j);
      EventKept(After(s, init), initial, es[|es| - 1]);
      JobAfter(After(s, init), es[|es| - 1], j);
    }
  }

  function NewJobs(e: Event): seq<Job> {
    match e
    case Reserve(_, from, to, amount) => [Job(from, to, amount, true, Open)]
    case Make(_, from, to, amount) => [Job(from, to, amount, false, Open)]
    case _ => []
  }

  /** What the build events of a run ask for, in their order. */
  function Built(es: seq<Event>): seq<Job> {
    if es == [] then [] else Built(es[..|es| - 1]) + NewJobs(es[|es| - 1])
  }

  /** How the run ended a job. */
  function Ending(s: State, es: seq<Event>, j: nat): Outcome
    requires Runs(s, es)
  {
    if es == [] then Open
    else
      var init, e := es[..|es| - 1], es[|es| - 1];
      if !Settles(After(s, init), e, j) then Ending(s, init, j)
      else if e.Drop? then Dropped
      else if e.failed then Failed
      else Succeeded
  }

  /** What the transfers that succeeded during the run moved into an account. */
  function Gained(s: State, es: seq<Event>, id: Uuid): int
    requires Runs(s, es)
  {
    if es == [] then 0
    else
      var init, e := es[..|es| - 1], es[|es| - 1];
      var m := After(s, init);
      Gained(s, init, id) +
      if e.Finish? && !e.failed && m.jobs[m.workers[e.k].job].reserved then Effect(m.jobs[m.workers[e.k].job], id)
      else 0
  }

  /** A stream that drops its job gives the reservation back and returns. */
  lemma DropOutcome(s: State, i: nat)
    requires Enabled(s, Drop(i))
    ensures var j, u := s.streams[i].job, Do(s, Drop(i));
            && u.jobs == s.jobs[j := s.jobs[j].(outcome := Dropped)]
            && u.balances == Released(s.balances, s.jobs[j])
            && u.streams == s.streams[i := Gone] && u.queue == s.queue
  {
  }

  /** A job is handled as its transfer turned out: the reservation of a success stays, a failure gives it
      back; then the worker is free again. */
  lemma FinishOutcome(s: State, k: nat, failed: bool)
    requires Enabled(s, Finish(k, failed))
    ensures var j, u := s.workers[k].job, Do(s, Finish(k, failed));
            && u.jobs == s.jobs[j := s.jobs[j].(outcome := if failed then Failed else Succeeded)]
            && (!failed ==> u.balances == s.balances)
            && (failed ==> u.balances == Released(s.balances, s.jobs[j]))
            && u.workers == s.workers[k := Idle] && u.queue == s.queue
  {
  }

  /** An event changes at most the outcome of a job, and a build adds one. */
  lemma JobsAfter(s: State, e: Event)
    requires Enabled(s, e)
    ensures |Do(s, e).jobs| == |s.jobs + NewJobs(e)|
    ensures forall j :: 0 <= j < |Do(s, e).jobs| ==>
              Do(s, e).jobs[j].(outcome := Open) == (s.jobs + NewJobs(e))[j].(outcome := Open)
  {
    hide Released;
    hide Moved;
  }

  lemma OnlyOpen(e: Event)
    ensures forall j :: 0 <= j < |NewJobs(e)| ==> NewJobs(e)[j].(outcome := Open) == NewJobs(e)[j]
  {
  }

  /** The jobs are those that were built, with nothing changed but their outcome. */
  lemma {:induction false} JobsAsBuilt(s: State, es: seq<Event>)
    requires Initial(s) && Runs(s, es)
    ensures var u := After(s, es);
            && |u.jobs| == |Built(es)|
            && forall j :: 0 <= j < |u.jobs| ==> u.jobs[j].(outcome := Open) == Built(es)[j]
  {
    hide Do;
    hide NewJobs;
    if es != [] {
      var init, e := es[..|es| - 1], es[|es| - 1];
      var m, u := After(s, init), After(s, es);
      JobsAsBuilt(s, init);
      JobsAfter(m, e);
      OnlyOpen(e);
      forall j | 0 <= j < |u.jobs| ensures u.jobs[j].(outcome := Open) == Built(es)[j] {
        assert u.jobs[j].(outcome := Open) == (m.jobs + NewJobs(e))[j].(outcome := Open);
      }
    }
  }

  /** Every recorded outcome is how the run ended the job: a job is recorded as successful if and only if
      a worker finished it without an error. */
  lemma {:induction false} OutcomeAsEnded(s: State, es: seq<Event>, j: nat)
    requires Initial(s) && Runs(s, es)
    ensures Ending(s, es, j) == if j < |After(s, es).jobs| then After(s, es).jobs[j].outcome else Open
  {
    if es != [] {
      var init, e := es[..|es| - 1], es[|es| - 1];
      OutcomeAsEnded(s, init, j);
      RunKept(s, init);
      JobAfter(After(s, init), e, j);
      OnePlaceKept(After(s, init), e);
      hide Inv;
      hide Released;
      hide Moved;
    }
  }

  lemma NetAfter(s: State, e: Event, id: Uuid)
    requires OnePlace(s) && Enabled(s, e)
    ensures NetSucceeded(Do(s, e).jobs, id)
         == NetSucceeded(s.jobs, id)
            + if e.Finish? && !e.failed && s.jobs[s.workers[e.k].job].reserved then
                Effect(s.jobs[s.workers[e.k].job], id)
              else 0
  {
    OnePlaceKept(s, e);
    hide OnePlace;
    match e
    case Reserve(_, from, to, amount) => assert Do(s, e).jobs[..|s.jobs|] == s.jobs;
    case Make(_, _, _, _) => assert Do(s, e).jobs[..|s.jobs|] == s.jobs;
    case Drop(i) =>
      assert Settles(s, e, s.streams[i].job);
      NetSucceededUpdate(s.jobs, s.streams[i].job, Dropped, id);
    case Finish(k, failed) =>
      assert Settles(s, e, s.workers[k].job);
      NetSucceededUpdate(s.jobs, s.workers[k].job, if failed then Failed else Succeeded, id);
    case _ =>
  }

  lemma {:induction false} NetIsGained(s: State, es: seq<Event>, id: Uuid)
    requires Initial(s) && Runs(s, es)
    ensures NetSucceeded(After(s, es).jobs, id) == Gained(s, es, id)
  {
    if es != [] {
      NetIsGained(s, es[..|es| - 1], id);
      RunKept(s, es[..|es| - 1]);
      NetAfter(After(s, es[..|es| - 1]), es[|es| - 1], id);
    }
  }

  /** Reservation accounting: when the load phase has ended, the streams have returned and the queue is
      closed and empty, every job was finished exactly once, each balance is the initial one plus what
      the transfers that succeeded moved, and the total is the initial total. */
  lemma AtEnd(s: State, es: seq<Event>, id: Uuid)
    requires Initial(s) && Runs(s, es) && Ended(After(s, es))
    ensures var u := After(s, es);
            && u.done && u.closed && u.queue == [] && AllGone(u.streams)
            && |u.jobs| == |Built(es)|
            && (forall j :: 0 <= j < |u.jobs| ==> !Ending(s, es, j).Open? && Settlings(s, es, j) == 1)
            && u.balances.Keys == s.balances.Keys
            && (id in s.balances ==> u.balances[id] == s.balances[id] + Gained(s, es, id))
            && SumOver(u.balances) == SumOver(s.balances)
  {
    hide SumOver;
    var u := After(s, es);
    RunKept(s, es);
    JobsAsBuilt(s, es);
    assert u.workers[0].Gone?;
    forall j | 0 <= j < |u.jobs|
      ensures !u.jobs[j].outcome.Open? && !Ending(s, es, j).Open? && Settlings(s, es, j) == 1
    {
      NoHands(u.streams, j);
      NoHands(u.workers, j);
      assert Places(u, j) == 0;
      FinishedOnce(s, es, j);
      OutcomeAsEnded(s, es, j);
    }
    NetAtEnd(u.jobs, id);
    NetIsGained(s, es, id);
  }

  // ---- the queue ----

  /** The jobs that streams have sent, in order. */
  function Sent(s: State, es: seq<Event>): seq<nat>
    requires Runs(s, es)
  {
    if es == [] then []
    else
      var init, e := es[..|es| - 1], es[|es| - 1];
      Sent(s, init) + if e.Send? then [After(s, init).streams[e.i].job] else []
  }

  /** The jobs that workers have received, in order. */
  function Received(s: State, es: seq<Event>): seq<nat>
    requires Runs(s, es)
  {
    if es == [] then []
    else
      var init, e := es[..|es| - 1], es[|es| - 1];
      Received(s, init) + if e.Take? && After(s, es).workers[e.k].Busy? then [After(s, es).workers[e.k].job] else []
  }

  lemma QueueAfter(s: State, e: Event)
    requires Enabled(s, e)
    ensures e.Send? ==>
              Do(s, e).queue == s.queue + [s.streams[e.i].job] && Do(s, e).streams == s.streams[e.i := Idle]
    ensures e.Take? ==>
              && Do(s, e).queue == s.queue[1..]
              && |Do(s, e).workers| == |s.workers| && Do(s, e).workers[e.k] == Busy(s.queue[0])
    ensures !e.Send? && !e.Take? ==> Do(s, e).queue == s.queue
  {
  }

  /** Jobs are received in the order in which they were sent, and those not yet received are queued. */
  lemma {:induction false} FirstInFirstOut(s: State, es: seq<Event>)
    requires Initial(s) && Runs(s, es)
    ensures Sent(s, es) == Received(s, es) + After(s, es).queue
  {
    hide Do;
    if es != [] {
      var init, e := es[..|es| - 1], es[|es| - 1];
      var m := After(s, init);
      FirstInFirstOut(s, init);
      QueueAfter(m, e);
      if e.Take? {
        assert m.queue == [m.queue[0]] + m.queue[1..];
      }
    }
  }

  /** Before cancellation no stream and no worker returns, and nothing is dropped. */
  lemma {:induction false} NobodyLeavesEarly(s: State, es: seq<Event>)
    requires Initial(s) && Runs(s, es) && !After(s, es).done
    ensures var u := After(s, es);
            && !u.closed && |u.streams| == |s.streams| && |u.workers| == |s.workers|
            && (forall i :: 0 <= i < |u.streams| ==> (u.streams[i].Gone? <==> s.streams[i].Gone?))
            && (forall k :: 0 <= k < |u.workers| ==> !u.workers[k].Gone?)
            && (forall j :: 0 <= j < |u.jobs| ==> !u.jobs[j].outcome.Dropped?)
  {
    hide Released;
    hide Moved;
    if es != [] {
      NobodyLeavesEarly(s, es[..|es| - 1]);
    }
  }

  // ---- the phase winds down ----

  /** After cancellation somebody can always go on until the phase has ended: a full queue, a late
      stream or an idle worker never leave it stuck. */
  lemma NeverStuck(s: State, initial: map<Uuid, int>)
    requires Inv(s, initial) && s.done && !Ended(s)
    ensures exists e :: Enabled(s, e) && !Builds(e)
  {
    hide Mirrors;
    hide Hands;
    var k :| 0 <= k < |s.workers| && !s.workers[k].Gone?;
    if !AllGone(s.streams) {
      var i :| 0 <= i < |s.streams| && !s.streams[i].Gone?;
      if s.streams[i].Idle? {
        assert Enabled(s, Leave(i));
      } else {
        HandsUpdate(s.streams, i, Idle, s.streams[i].job);
        assert Places(s, s.streams[i].job) > 0;
        assert Enabled(s, Drop(i));
      }
    } else if !s.closed {
      assert Enabled(s, Close);
    } else if s.workers[k].Busy? {
      HandsUpdate(s.workers, k, Idle, s.workers[k].job);
      assert Places(s, s.workers[k].job) > 0;
      assert Enabled(s, Finish(k, false));
    } else if s.queue != [] {
      assert Enabled(s, Take(k));
    } else {
      assert Enabled(s, Exit(k));
    }
  }

  /** Steps that the parties can still take with what is in their hands. */
  function Steps(ps: seq<Party>, busy: nat): nat {
    if ps == [] then 0
    else
      var p := ps[|ps| - 1];
      Steps(ps[..|ps| - 1], busy) + match p case Idle => 1 case Busy(_) => busy case Gone => 0
  }

  lemma {:induction false} StepsUpdate(ps: seq<Party>, i: nat, p: Party, busy: nat)
    requires i < |ps|
    ensures Steps(ps[i := p], busy) == Steps(ps, busy)
         - (match ps[i] case Idle => 1 case Busy(_) => busy case Gone => 0)
         + (match p case Idle => 1 case Busy(_) => busy case Gone => 0)
  {
    if i == |ps| - 1 {
      assert ps[i := p][..i] == ps[..i];
    } else {
      assert ps[i := p][..|ps| - 1] == ps[..|ps| - 1][i := p];
      StepsUpdate(ps[..|ps| - 1], i, p, busy);
    }
  }

  function Work(s: State): nat {
    Steps(s.streams, 5) + 3 * |s.queue| + Steps(s.workers, 3)
    + (if s.done then 0 else 1) + (if s.closed then 0 else 1)
  }

  lemma EventWorks(s: State, e: Event)
    requires Enabled(s, e)
    ensures Work(Do(s, e)) + 1 <= Work(s) + if Builds(e) then 5 else 0
  {
    hide Released;
    hide Moved;
    hide Steps;
    match e
    case Reserve(i, _, _, _) => StepsUpdate(s.streams, i, Busy(|s.jobs|), 5);
    case Make(i, _, _, _) => StepsUpdate(s.streams, i, Busy(|s.jobs|), 5);
    case Send(i) => StepsUpdate(s.streams, i, Idle, 5);
    case Drop(i) => StepsUpdate(s.streams, i, Gone, 5);
    case Leave(i) => StepsUpdate(s.streams, i, Gone, 5);
    case Take(k) => StepsUpdate(s.workers, k, Busy(s.queue[0]), 3);
    case Finish(k, _) => StepsUpdate(s.workers, k, Idle, 3);
    case Exit(k) => StepsUpdate(s.workers, k, Gone, 3);
    case _ =>
  }

  function CountBuilds(es: seq<Event>): nat {
    if es == [] then 0 else CountBuilds(es[..|es| - 1]) + if Builds(es[|es| - 1]) then 1 else 0
  }

  /** A run is bounded by the work at its start and five steps for each job built: once the streams stop
      building, the phase ends. */
  lemma {:induction false} RunBounded(s: State, es: seq<Event>)
    requires Runs(s, es)
    ensures |es| + Work(After(s, es)) <= Work(s) + 5 * CountBuilds(es)
  {
    if es != [] {
      RunBounded(s, es[..|es| - 1]);
      EventWorks(After(s, es[..|es| - 1]), es[|es| - 1]);
    }
  }
}
