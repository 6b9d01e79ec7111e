/** What the rest of the system does between the statements of the posting worker: other transactions
    commit, and statements fail. It is proved to be what the concurrent protocol can do. */
module Environment {
  import opened Uuids
  import opened Ledger
  import P = Protocol
  import G = Guarantees

  /** What the environment does before one statement of the worker: any commits become visible, and
      the statement may fail. A worker whose script has run out has been cancelled. */
  datatype Tick = Tick(commits: seq<Commit>, fault: Fault)

  predicate Touches(c: Commit, a: Uuid) {
    match c
    case Transferred(row, _, _) => row.from == a || row.to == a
    case Opened(row, _) => row.to == a
    case OpenedEmpty(account, _) => account == a
    case Corrected(account, _, _) => account == a
  }

  /** The commits of other transactions. An inadmissible one does not happen, nobody else corrects, and
      while the worker holds the lock of a row no transaction that updates that row can commit. */
  function Absorb(t: Tables, cs: seq<Commit>, locked: Option<Uuid>): Tables {
    if cs == [] then t
    else
      var u := Absorb(t, cs[..|cs| - 1], locked);
      var c := cs[|cs| - 1];
      if Admissible(u, c) && !c.Corrected? && (locked.Some? ==> !Touches(c, locked.value)) then Apply(u, c) else u
  }

  lemma {:induction false} AbsorbExtends(t: Tables, cs: seq<Commit>, locked: Option<Uuid>)
    ensures Extends(t, Absorb(t, cs, locked))
  {
    if cs != [] {
      AbsorbExtends(t, cs[..|cs| - 1], locked);
    }
  }

  lemma ApplySpares(t: Tables, c: Commit, a: Uuid)
    requires Admissible(t, c) && a in t.accounts && !Touches(c, a)
    ensures var u := Apply(t, c);
            && a in u.accounts && u.accounts[a] == t.accounts[a]
            && Total(u.postings, a) == Total(t.postings, a)
  {
    hide Total;
    match c
    case Transferred(row, debitId, creditId) =>
      PushTwo(t.postings, Posting(debitId, row.id, row.from, -row.amount),
              Posting(creditId, row.id, row.to, row.amount), a);
    case Opened(row, postingId) =>
      Push(t.postings, Posting(postingId, row.id, row.to, row.amount), a);
    case _ =>
  }

  /** A locked account keeps its row and gets no postings. */
  lemma {:induction false} AbsorbLocked(t: Tables, cs: seq<Commit>, a: Uuid)
    requires a in t.accounts
    ensures var u := Absorb(t, cs, Some(a));
            && a in u.accounts && u.accounts[a] == t.accounts[a]
            && Total(u.postings, a) == Total(t.postings, a)
  {
    hide Total;
    hide Apply;
    hide Admissible;
    hide Touches;
    if cs != [] {
      var u, c := Absorb(t, cs[..|cs| - 1], Some(a)), cs[|cs| - 1];
      AbsorbLocked(t, cs[..|cs| - 1], a);
      if Admissible(u, c) && !Touches(c, a) {
        ApplySpares(u, c, a);
      }
    }
  }

  /** Every account that is not among `vs` keeps its drift. */
  ghost predicate Spared(t: Tables, u: Tables, vs: seq<Uuid>) {
    References(t) ==>
      References(u) && forall a :: a in t.accounts && a !in vs ==> a in u.accounts && Drift(u, a) == Drift(t, a)
  }

  lemma SparedOn(t: Tables, u: Tables, v: Tables, vs: seq<Uuid>, ws: seq<Uuid>, xs: seq<Uuid>)
    requires Spared(t, u, vs) && Spared(u, v, ws)
    requires forall a :: a in vs || a in ws ==> a in xs
    ensures Spared(t, v, xs)
  {
  }

  lemma SparedWrite(t: Tables, u: Tables, a: Uuid, row: Account)
    requires Spared(t, u, []) && a in u.accounts
    ensures Spared(t, u.(accounts := u.accounts[a := row]), [a])
  {
    hide Total;
  }

  /** Sound accounts stay sound, and every account keeps its drift. */
  ghost predicate Calm(t: Tables, u: Tables) {
    && (References(t) ==> References(u) && forall a :: SoundAccount(t, a) ==> SoundAccount(u, a))
    && Spared(t, u, [])
  }

  lemma CalmSpares(t: Tables, u: Tables, a: Uuid)
    requires Calm(t, u)
    ensures Spared(t, u, []) && Spared(t, u, [a])
  {
  }

  lemma CalmWide(t: Tables, u: Tables, vs: seq<Uuid>)
    requires Calm(t, u)
    ensures Spared(t, u, vs)
  {
  }

  lemma CalmItself(t: Tables)
    ensures Calm(t, t)
  {
  }

  lemma CalmOn(t: Tables, u: Tables, v: Tables)
    requires Calm(t, u) && Calm(u, v)
    ensures Calm(t, v)
  {
  }

  lemma {:induction false} AbsorbCalm(t: Tables, cs: seq<Commit>, locked: Option<Uuid>)
    ensures Calm(t, Absorb(t, cs, locked))
  {
    if cs != [] && References(t) {
      var u, c := Absorb(t, cs[..|cs| - 1], locked), cs[|cs| - 1];
      AbsorbCalm(t, cs[..|cs| - 1], locked);
      if Admissible(u, c) && !c.Corrected? {
        ReferencesKept(u, c);
        forall a | SoundAccount(t, a) ensures SoundAccount(Apply(u, c), a) {
          SoundAccountKept(u, c, a);
        }
        forall a | a in u.accounts ensures Drift(Apply(u, c), a) == Drift(u, a) {
          DriftKept(u, c, a);
        }
      }
    }
  }

  // ---- scripts ----

  predicate Frozen(script: seq<Tick>) {
    forall k :: 0 <= k < |script| ==> script[k] == Tick([], NoFault)
  }

  /** A script of any length may be quiet. */
  lemma FrozenScript(n: nat)
    ensures Frozen(seq(n, _ => Tick([], NoFault)))
  {
  }

  /** No acknowledgement gets lost. */
  predicate Acknowledged(script: seq<Tick>) {
    forall k :: 0 <= k < |script| ==> !script[k].fault.FaultAfter?
  }

  /** What is left of a script after some statements. */
  ghost predicate Consumed(before: seq<Tick>, after: seq<Tick>) {
    && |after| <= |before|
    && (Frozen(before) ==> Frozen(after))
    && (Acknowledged(before) ==> Acknowledged(after))
  }

  // ---- the environment is the concurrent protocol ----

  /** The commits logged since the log had `n` entries. */
  function Since(log: seq<P.Entry>, n: nat): seq<Commit>
    requires n <= |log|
  {
    P.Commits(log[n..])
  }

  predicate HasLock(s: P.State, i: nat, locked: Option<Uuid>) {
    locked.Some? ==> i < |s.sessions| && locked.value in s.sessions[i].rows
  }

  /** During the run, session `i` holds the lock of the given row, if one is given. */
  predicate KeepsLock(s: P.State, es: seq<P.Event>, i: nat, locked: Option<Uuid>)
    requires P.Runs(s, es)
  {
    HasLock(P.After(s, es), i, locked) && (es != [] ==> KeepsLock(s, es[..|es| - 1], i, locked))
  }

  /** A ready session holds every row that its commit touches. */
  lemma TouchedHeld(t: Tables, n: int, x: P.Session, a: Uuid)
    requires P.SessionOk(t, n, x) && x.phase.Ready? && Touches(P.CommitOf(x), a)
    ensures a in x.rows
  {
  }

  /** One event of the protocol commits at most one unit, and none that touches a row that another
      session has locked. */
  lemma EventAbsorbed(s: P.State, t0: Tables, e: P.Event, i: nat, locked: Option<Uuid>)
    requires P.Inv(s, t0) && P.Enabled(s, e) && HasLock(s, i, locked) && HasLock(P.Do(s, e), i, locked)
    ensures var u := P.Do(s, e);
            || (u.log == s.log && u.tables == s.tables)
            || exists c :: |u.log| == |s.log| + 1 && u.log[..|s.log|] == s.log && u.log[|s.log|].commit == c
                           && Admissible(s.tables, c) && u.tables == Apply(s.tables, c)
                           && (locked.Some? ==> !Touches(c, locked.value))
  {
    hide P.Advance;
    hide Apply;
    hide Admissible;
    if e.Step? && s.sessions[e.i].phase.Ready? {
      var x, u := s.sessions[e.i], P.Do(s, e);
      assert P.SessionOk(s.tables, s.nextId, x);
      P.CommitIsAtomic(s.tables, s.nextId, x);
      if locked.Some? {
        assert e.i != i && P.Apart(x, s.sessions[i]);
        if Touches(P.CommitOf(x), locked.value) {
          TouchedHeld(s.tables, s.nextId, x, locked.value);
        }
      }
      assert u.log[|s.log|].commit == P.CommitOf(x);
    }
  }

  /** What the concurrent protocol does to the tables between two of its states, corrections apart, is
      what `Absorb` does with the commits in between; while a session holds a row lock, they are commits
      that spare that row. */
  lemma {:induction false} InterleavingIsAbsorbed(
    s: P.State, t0: Tables, es: seq<P.Event>, i: nat, locked: Option<Uuid>)
    requires P.Inv(s, t0) && P.Runs(s, es) && KeepsLock(s, es, i, locked)
    requires forall k :: |s.log| <= k < |P.After(s, es).log| ==> !P.After(s, es).log[k].commit.Corrected?
    ensures P.Inv(P.After(s, es), t0)
    ensures |s.log| <= |P.After(s, es).log|
    ensures P.After(s, es).tables == Absorb(s.tables, Since(P.After(s, es).log, |s.log|), locked)
  {
    hide P.Inv;
    hide P.Do;
    hide P.Enabled;
    hide Apply;
    hide Admissible;
    hide Touches;
    if es != [] {
      var init, e := es[..|es| - 1], es[|es| - 1];
      var m, u := P.After(s, init), P.After(s, es);
      G.RunKept(s, t0, init);
      EventAbsorbed(m, t0, e, i, locked);
      assert forall k :: 0 <= k < |m.log| ==> m.log[k] == u.log[k];
      InterleavingIsAbsorbed(s, t0, init, i, locked);
      P.InvKept(m, t0, e);
      if u.log != m.log {
        var c := u.log[|m.log|].commit;
        var cs := Since(m.log, |s.log|);
        assert Since(u.log, |s.log|) == cs + [c] && (cs + [c])[..|cs|] == cs;
      }
    } else {
      assert Since(s.log, |s.log|) == [];
    }
  }
}
