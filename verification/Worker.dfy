/** The posting worker: it walks the log of postings in batches, compares each active account with
    the sum of its postings and overwrites the balance when they disagree. Other transactions may
    commit between any two of its statements. */
module Worker {
  import opened Uuids
  import opened Ledger
  import opened Environment
  import opened Batches

  const DEFAULT_BACKOFF := 5_000_000_000
  const MAX_BALANCE_VERSION_STEPS := 8

  datatype Status = Done | Failed | Canceled

  // ---- one account ----

  /** The last comparison before a correction: the balance read in `seen` is not the sum, up to a
      bound no lower than the version read with it, of the postings visible in `summed`. */
  ghost predicate Mismatch(seen: Tables, summed: Tables, a: Uuid, bound: int) {
    && a in seen.accounts
    && seen.postings <= summed.postings
    && seen.accounts[a].latest <= bound
    && PostingsSum(summed.postings, a, bound) != seen.accounts[a].amount
  }

  /** No spurious correction: when the account was sound at the snapshot, a posting of it with an id
      within the bound became visible between the snapshot and the sum. Commits above the bound
      never lead to a correction. */
  lemma NoSpuriousCorrection(seen: Tables, summed: Tables, a: Uuid, bound: int)
    requires SoundAccount(seen, a) && bound > 0 && Mismatch(seen, summed, a, bound)
    ensures exists k :: |seen.postings| <= k < |summed.postings|
                        && summed.postings[k].account == a && summed.postings[k].id <= bound
  {
    var qs := summed.postings[|seen.postings|..];
    assert summed.postings == seen.postings + qs;
    SumOfAll(seen.postings, a, bound);
    NewPosting(seen.postings, qs, a, bound);
    var k :| 0 <= k < |qs| && qs[k].account == a && qs[k].id <= bound;
    assert summed.postings[|seen.postings| + k] == qs[k];
  }

  lemma Unprovoked(t: Tables, seen: Tables, summed: Tables, a: Uuid, bound: int)
    requires Calm(t, seen) && Mismatch(seen, summed, a, bound)
    ensures bound > 0 && References(t) && SoundAccount(t, a) ==>
              exists k :: |seen.postings| <= k < |summed.postings|
                          && summed.postings[k].account == a && summed.postings[k].id <= bound
  {
    if bound > 0 && References(t) && SoundAccount(t, a) {
      NoSpuriousCorrection(seen, summed, a, bound);
    }
  }

  /** Between two states only account `a` was rewritten, to its old amount or to its posting total. */
  ghost predicate OnlyRepairs(t: Tables, u: Tables, a: Uuid) {
    && u.transactions == t.transactions && u.postings == t.postings
    && u.accounts.Keys == t.accounts.Keys
    && (forall b :: b in t.accounts && b != a ==> u.accounts[b] == t.accounts[b])
    && (a in t.accounts ==>
          u.accounts[a].amount == t.accounts[a].amount || u.accounts[a].amount == Total(t.postings, a))
  }

  lemma RepairedOnly(t: Tables, u: Tables, a: Uuid)
    requires a in u.accounts && u == t.(accounts := t.accounts[a := u.accounts[a]]) && a in t.accounts
    requires u.accounts[a].amount == Total(t.postings, a)
    ensures OnlyRepairs(t, u, a)
  {
  }

  lemma LogGrows(t: Tables, u: Tables, a: Uuid)
    requires Extends(t, u)
    ensures |t.postings| <= |u.postings| && (a in t.accounts ==> a in u.accounts)
    ensures t == u ==> OnlyRepairs(t, u, a)
  {
  }

  /** An amount that was the posting total in `t` misses exactly the postings committed since. */
  lemma Shortfall(t: Tables, u: Tables, a: Uuid)
    requires Extends(t, u) && a in u.accounts && u.accounts[a].amount == Total(t.postings, a)
    ensures |t.postings| <= |u.postings| && Drift(u, a) == -Total(u.postings[|t.postings|..], a)
  {
    var qs := u.postings[|t.postings|..];
    assert u.postings == t.postings + qs;
    TotalConcat(t.postings, qs, a);
  }

  /** The amount is the posting total at some moment since `t`. */
  ghost predicate ShortSince(t: Tables, u: Tables, a: Uuid) {
    && a in u.accounts
    && exists read :: |t.postings| <= read <= |u.postings| && Drift(u, a) == -Total(u.postings[read..], a)
  }

  class PostingWorker {
    const name: string
    const batchSize: int
    const backoff: int
    var tables: Tables
    var cursor: int
    var script: seq<Tick>
    ghost var validated: seq<Uuid>
    ghost var batches: seq<Batch>

    constructor (name: string, batchSize: int, backoff: int, tables: Tables, cursor: int, script: seq<Tick>)
      requires batchSize > 0 && cursor >= 0
      ensures this.name == name && this.batchSize == batchSize && this.backoff == backoff
      ensures this.tables == tables && this.cursor == cursor && this.script == script
      ensures validated == [] && batches == []
    {
      this.name, this.batchSize, this.backoff := name, batchSize, backoff;
      this.tables, this.cursor, this.script := tables, cursor, script;
      validated, batches := [], [];
    }

    /** Lets the environment act before a statement, and says whether the statement takes effect. */
    method Await(locked: Option<Uuid>) returns (st: Status, took: bool)
      modifies this`tables, this`script
      ensures Extends(old(tables), tables) && Calm(old(tables), tables) && Consumed(old(script), script)
      ensures old(script) == [] ==> st == Canceled && !took && tables == old(tables)
      ensures old(script) != [] ==>
                && script == old(script)[1..]
                && tables == Absorb(old(tables), old(script)[0].commits, locked)
                && st == (if old(script)[0].fault.NoFault? then Done else Failed)
                && took == !old(script)[0].fault.FaultBefore?
      ensures |old(script)| - 1 <= |script| && (st == Canceled ==> script == [])
      ensures st == Done ==> took
      ensures Acknowledged(old(script)) ==> (took <==> st == Done)
      ensures Frozen(old(script)) ==> tables == old(tables) && st != Failed
    {
      if script == [] {
        return Canceled, false;
      }
      var tick := script[0];
      AbsorbExtends(tables, tick.commits, locked);
      AbsorbCalm(tables, tick.commits, locked);
      tables := Absorb(tables, tick.commits, locked);
      script := script[1..];
      st := if tick.fault.NoFault? then Done else Failed;
      took := !tick.fault.FaultBefore?;
    }

    /** Lets the environment act before a statement that only matters if its answer arrives. */
    method AwaitQuery() returns (st: Status)
      modifies this`tables, this`script
      ensures Extends(old(tables), tables) && Calm(old(tables), tables) && Consumed(old(script), script)
      ensures |old(script)| - 1 <= |script| && (st == Canceled ==> script == [])
      ensures old(script) != [] ==>
                && script == old(script)[1..] && tables == Absorb(old(tables), old(script)[0].commits, None)
                && st == if old(script)[0].fault.NoFault? then Done else Failed
      ensures old(script) == [] ==> st == Canceled
      ensures Frozen(old(script)) ==> tables == old(tables) && st != Failed
    {
      var took;
      st, took := Await(None);
    }

    method GetAccountBalanceSnapshot(a: Uuid) returns (st: Status, balance: int, latest: int)
      modifies this`tables, this`script
      ensures Extends(old(tables), tables) && Calm(old(tables), tables) && Consumed(old(script), script)
      ensures |old(script)| - 1 <= |script| && (st == Canceled ==> script == [])
      ensures st == Done ==>
                a in tables.accounts && tables.accounts[a].amount == balance && tables.accounts[a].latest == latest
      ensures old(script) != [] ==> (st == Done <==> old(script)[0].fault.NoFault? && a in tables.accounts)
      ensures Frozen(old(script)) ==> tables == old(tables) && (a in tables.accounts ==> st != Failed)
    {
      balance, latest := 0, 0;
      st := AwaitQuery();
      if st == Done {
        if a in tables.accounts {
          balance, latest := tables.accounts[a].amount, tables.accounts[a].latest;
        } else {
          st := Failed;
        }
      }
    }

    method GetPostingsSum(a: Uuid, limit: int) returns (st: Status, sum: int)
      modifies this`tables, this`script
      ensures Extends(old(tables), tables) && Calm(old(tables), tables) && Consumed(old(script), script)
      ensures |old(script)| - 1 <= |script| && (st == Canceled ==> script == [])
      ensures st == Done ==> sum == PostingsSum(tables.postings, a, limit)
      ensures old(script) != [] ==>
                (st == Done <==> old(script)[0].fault.NoFault?
                                 && MIN_INT64 <= PostingsSum(tables.postings, a, limit) <= MAX_INT64)
      ensures Frozen(old(script)) ==> tables == old(tables)
      ensures Frozen(old(script)) && MIN_INT64 <= PostingsSum(tables.postings, a, limit) <= MAX_INT64 ==> st != Failed
    {
      sum := 0;
      st := AwaitQuery();
      if st == Done {
        sum := PostingsSum(tables.postings, a, limit);
        if !(MIN_INT64 <= sum <= MAX_INT64) {
          st := Failed;
        }
      }
    }

    /** The UPDATE of a correction: its MAX(id) subquery sees the start of the statement, and the row is
        overwritten once its lock is free. Until the commit the new row is only the worker's. */
    method ApplyBalanceCorrection(a: Uuid, amount: int) returns (st: Status, row: Option<Account>)
      modifies this`tables, this`script
      ensures Extends(old(tables), tables) && Calm(old(tables), tables) && Consumed(old(script), script)
      ensures |old(script)| - 2 <= |script| && (st == Canceled ==> script == [])
      ensures st == Done ==> (row.Some? <==> a in tables.accounts)
      ensures row.Some? ==>
                && a in tables.accounts && amount >= 0
                && row.value.amount == amount && row.value.currency == tables.accounts[a].currency
      ensures Frozen(old(script)) ==> tables == old(tables) && (amount >= 0 ==> st != Failed)
      ensures Frozen(old(script)) && row.Some? ==> row.value.latest == MaxId(tables.postings, a)
    {
      row := None;
      st := AwaitQuery();
      if st != Done { return; }
      var latest := MaxId(tables.postings, a);
      st := AwaitQuery();
      if st != Done || a !in tables.accounts { return; }
      if amount < 0 {
        return Failed, None;
      }
      row := Some(Account(amount, tables.accounts[a].currency, latest));
    }

    /** The commit of a correction, which may go through without the worker learning of it. Until then
        the row stays locked, so nothing of that account is committed meanwhile. */
    method CommitCorrection(a: Uuid, row: Option<Account>) returns (st: Status, took: bool)
      requires row.Some? ==> a in tables.accounts && row.value.currency == tables.accounts[a].currency
      modifies this`tables, this`script
      ensures Extends(old(tables), tables) && Consumed(old(script), script)
      ensures |old(script)| - 1 <= |script| && (st == Canceled ==> script == [])
      ensures (st == Done ==> took) && (Acknowledged(old(script)) ==> (took <==> st == Done))
      ensures took && row.Some? ==>
                && a in tables.accounts && tables.accounts[a] == row.value
                && Total(tables.postings, a) == Total(old(tables).postings, a)
      ensures !(took && row.Some?) ==> Calm(old(tables), tables)
      ensures Spared(old(tables), tables, [a])
      ensures Frozen(old(script)) ==>
                && st != Failed
                && tables == if took && row.Some? then
                     old(tables).(accounts := old(tables).accounts[a := row.value]) else old(tables)
    {
      hide Calm;
      hide Spared;
      if row.Some? && script != [] {
        AbsorbLocked(tables, script[0].commits, a);
      }
      st, took := Await(if row.Some? then Some(a) else None);
      CalmSpares(old(tables), tables, a);
      if took && row.Some? {
        SparedWrite(old(tables), tables, a, row.value);
        tables := tables.(accounts := tables.accounts[a := row.value]);
      }
    }

    /** Reads the full sum in one statement, overwrites the row in another and commits. If the commit
        goes through, whether or not the worker learns of it, the amount is the total of the postings
        visible at the read, so it falls short of the present total by exactly the account's postings
        committed since. Otherwise the worker has changed nothing. */
    method CorrectBalance(a: Uuid) returns (st: Status, ghost read: nat, ghost wrote: bool)
      modifies this`tables, this`script
      ensures Extends(old(tables), tables) && Consumed(old(script), script)
      ensures |old(script)| - 5 <= |script| && (st == Canceled ==> script == [])
      ensures |old(tables).postings| <= read <= |tables.postings|
      ensures st == Done && a in old(tables).accounts ==> wrote
      ensures wrote ==> a in tables.accounts && Drift(tables, a) == -Total(tables.postings[read..], a)
      ensures !wrote ==> Calm(old(tables), tables)
      ensures Spared(old(tables), tables, [a])
      ensures Frozen(old(script)) ==> OnlyRepairs(old(tables), tables, a)
      ensures Frozen(old(script)) && wrote ==>
                && tables.accounts[a].amount == Total(tables.postings, a)
                && tables.accounts[a].latest == MaxId(tables.postings, a)
      ensures Frozen(old(script)) && 0 <= Total(old(tables).postings, a) <= MAX_INT64 ==> st != Failed
    {
      hide Total;
      hide MaxId;
      hide Calm;
      hide Frozen;
      hide Acknowledged;
      hide Extends;
      hide OnlyRepairs;
      hide Spared;
      wrote := false;
      st := AwaitQuery();
      read := |tables.postings|;
      LogGrows(old(tables), tables, a);
      CalmSpares(old(tables), tables, a);
      if st != Done { return; }
      var sum, row;
      ghost var t := tables;
      st, sum := GetPostingsSum(a, 0);
      read := |tables.postings|;
      LogGrows(t, tables, a);
      CalmOn(old(tables), t, tables);
      CalmSpares(old(tables), tables, a);
      ExtendsOn(old(tables), t, tables);
      if st != Done { return; }
      t := tables;
      st, row := ApplyBalanceCorrection(a, sum);
      LogGrows(t, tables, a);
      CalmOn(old(tables), t, tables);
      CalmSpares(old(tables), tables, a);
      ExtendsOn(old(tables), t, tables);
      if st != Done { return; }
      ghost var u := tables;
      var took;
      st, took := CommitCorrection(a, row);
      wrote := took && row.Some?;
      LogGrows(u, tables, a);
      ExtendsOn(old(tables), u, tables);
      ExtendsOn(t, u, tables);
      SparedOn(old(tables), u, tables, [a], [a], [a]);
      if wrote {
        Shortfall(t, tables, a);
        if Frozen(old(script)) {
          RepairedOnly(old(tables), tables, a);
        }
      } else {
        CalmOn(old(tables), u, tables);
      }
    }

    /** One comparison: the balance at a snapshot against the sum of the postings up to the larger of
        the given bound and the version in the snapshot; when they disagree, the version is read again. */
    method Compare(a: Uuid, effectiveMax: int)
      returns (st: Status, agree: bool, bound: int, refreshed: int,
               ghost seen: Tables, ghost summed: Tables)
      modifies this`tables, this`script
      ensures Extends(old(tables), tables) && Calm(old(tables), tables) && Consumed(old(script), script)
      ensures |old(script)| - 3 <= |script| && (st == Canceled ==> script == [])
      ensures st == Done ==> bound >= effectiveMax && Extends(old(tables), seen) && Calm(old(tables), seen)
      ensures st == Done && agree ==>
                a in seen.accounts && seen.accounts[a].latest <= bound
                && PostingsSum(summed.postings, a, bound) == seen.accounts[a].amount
      ensures st == Done && !agree ==>
                Mismatch(seen, summed, a, bound) && a in tables.accounts && tables.accounts[a].latest == refreshed
      ensures Frozen(old(script)) ==> tables == old(tables)
      ensures Frozen(old(script)) && st == Done ==> a in tables.accounts && (!agree ==> refreshed <= bound)
      ensures Frozen(old(script)) && st == Done && agree && bound > 0 && MaxId(tables.postings, a) <= bound ==>
                tables.accounts[a].amount == Total(tables.postings, a)
      ensures Frozen(old(script)) && a in tables.accounts && Summable(tables.postings, a) ==> st != Failed
    {
      agree, bound, refreshed, seen, summed := false, effectiveMax, 0, tables, tables;
      var balance, latest, sum;
      st, balance, latest := GetAccountBalanceSnapshot(a);
      if st != Done { return; }
      seen := tables;
      if latest > bound {
        bound := latest;
      }
      st, sum := GetPostingsSum(a, bound);
      if st != Done { return; }
      summed := tables;
      if sum == balance {
        agree := true;
        if bound > 0 && MaxId(tables.postings, a) <= bound {
          SumOfAll(tables.postings, a, bound);
        }
        return;
      }
      st, balance, refreshed := GetAccountBalanceSnapshot(a);
    }

    /** Compares one account with its postings and corrects it when they disagree. `seen` and `summed`
        are the tables at the last snapshot and the last sum, and `bound` the limit of that sum. A
        correction comes either after the version, read again in `again`, was found within the bound,
        or after all `steps` were used up. */
    method ValidateBalance(a: Uuid, batchMax: int)
      returns (st: Status, corrected: bool, ghost seen: Tables, ghost summed: Tables, ghost bound: int,
               ghost again: Tables, ghost steps: nat)
      modifies this`tables, this`script, this`validated
      ensures validated == old(validated) + [a]
      ensures Extends(old(tables), tables) && Consumed(old(script), script)
      ensures st == Canceled ==> script == []
      ensures Frozen(old(script)) ==> |old(script)| - QUIET_TICKS <= |script|
      ensures !corrected ==> Calm(old(tables), tables)
      ensures Spared(old(tables), tables, [a])
      ensures corrected && st == Done && a in old(tables).accounts ==> ShortSince(old(tables), tables, a)
      ensures corrected ==> bound >= batchMax && Extends(old(tables), seen) && Mismatch(seen, summed, a, bound)
      ensures corrected ==>
                || steps == MAX_BALANCE_VERSION_STEPS
                || (a in again.accounts && again.accounts[a].latest <= bound && Extends(again, tables))
      ensures corrected && batchMax > 0 && References(old(tables)) && SoundAccount(old(tables), a) ==>
                exists k :: |seen.postings| <= k < |summed.postings|
                            && summed.postings[k].account == a && summed.postings[k].id <= bound
      ensures st == Done && !corrected ==>
                && bound >= batchMax && a in seen.accounts && seen.accounts[a].latest <= bound
                && PostingsSum(summed.postings, a, bound) == seen.accounts[a].amount
      ensures Frozen(old(script)) ==> OnlyRepairs(old(tables), tables, a)
      ensures Frozen(old(script)) && st == Done && batchMax > 0 && MaxId(old(tables).postings, a) <= batchMax ==>
                a in tables.accounts && tables.accounts[a].amount == Total(tables.postings, a)
      ensures Frozen(old(script)) && a in old(tables).accounts && Summable(old(tables).postings, a) ==> st != Failed
    {
      hide SoundAccount;
      hide References;
      hide TotalUpTo;
      hide MaxId;
      hide Total;
      hide Calm;
      hide Spared;
      hide Frozen;
      hide Acknowledged;
      CalmItself(tables);
      validated := validated + [a];
      corrected, seen, summed, bound, again, steps := false, tables, tables, batchMax, tables, 0;
      var effectiveMax := batchMax;
      var step := 0;
      ghost var read, wrote;
      while step < MAX_BALANCE_VERSION_STEPS
        invariant 0 <= step <= MAX_BALANCE_VERSION_STEPS && batchMax <= bound <= effectiveMax && !corrected
        invariant validated == old(validated) + [a]
        invariant Extends(old(tables), tables) && Extends(old(tables), seen) && Consumed(old(script), script)
        invariant Calm(old(tables), tables) && Calm(old(tables), seen)
        invariant step > 0 ==> Mismatch(seen, summed, a, bound)
        invariant Frozen(old(script)) ==> step == 0 && Frozen(script) && tables == old(tables) && script == old(script)
      {
        CalmSpares(old(tables), tables, a);
        if script == [] {
          st := Canceled;
          return;
        }
        var agree, limit, refreshed;
        ghost var now := tables;
        st, agree, limit, refreshed, seen, summed := Compare(a, effectiveMax);
        CalmOn(old(tables), now, tables);
        CalmSpares(old(tables), tables, a);
        if st != Done { return; }
        CalmOn(old(tables), now, seen);
        bound, again := limit, tables;
        if agree { return; }
        if refreshed > limit {
          effectiveMax := refreshed;
          step := step + 1;
          continue;
        }
        corrected := true;
        Unprovoked(old(tables), seen, summed, a, bound);
        CalmSpares(old(tables), tables, a);
        st, read, wrote := CorrectBalance(a);
        SparedOn(old(tables), again, tables, [a], [a], [a]);
        return;
      }
      corrected, steps := true, step;
      Unprovoked(old(tables), seen, summed, a, bound);
      ghost var last := tables;
      CalmSpares(old(tables), last, a);
      st, read, wrote := CorrectBalance(a);
      SparedOn(old(tables), last, tables, [a], [a], [a]);
    }

    /** The stored position, and a bound one batch further but not beyond the largest posting id. */
    method GetCursorPosition() returns (st: Status, lo: int, hi: int, ghost visible: nat)
      modifies this`tables, this`script
      ensures Extends(old(tables), tables) && Calm(old(tables), tables) && Consumed(old(script), script)
      ensures |old(script)| - 2 <= |script| && (st == Canceled ==> script == [])
      ensures old(script) != [] ==> |script| < |old(script)|
      ensures |old(script)| >= 2 ==> (st == Done <==> old(script)[0].fault.NoFault? && old(script)[1].fault.NoFault?)
      ensures visible == |tables.postings|
      ensures st == Done ==> IsBound(tables.postings, lo, batchSize, hi)
      ensures st == Done ==> lo == cursor && hi == Min(cursor + batchSize, LastId(tables.postings))
      ensures Frozen(old(script)) ==> tables == old(tables) && st != Failed
    {
      hide Calm;
      hide Absorb;
      hide LastId;
      lo, hi := 0, 0;
      st := AwaitQuery();
      visible := |tables.postings|;
      if st != Done { return; }
      lo := cursor;
      ghost var t := tables;
      st := AwaitQuery();
      visible := |tables.postings|;
      CalmOn(old(tables), t, tables);
      if st != Done { return; }
      hi := Min(lo + batchSize, LastId(tables.postings));
      LastIdIsLargest(tables.postings);
    }

    method GetActiveAccounts(lo: int, hi: int) returns (st: Status, users: seq<Uuid>)
      modifies this`tables, this`script
      ensures Extends(old(tables), tables) && Calm(old(tables), tables) && Consumed(old(script), script)
      ensures lo < hi && old(script) != [] ==> (st == Done <==> old(script)[0].fault.NoFault?)
      ensures |old(script)| - 1 <= |script| && (st == Canceled ==> script == [])
      ensures st == Done ==> users == ActiveAccounts(tables.postings, lo, hi)
      ensures Frozen(old(script)) ==> tables == old(tables) && st != Failed
    {
      if lo >= hi {
        return Done, ActiveAccounts(tables.postings, lo, hi);
      }
      users := [];
      st := AwaitQuery();
      if st == Done {
        users := ActiveAccounts(tables.postings, lo, hi);
      }
    }

    /** Stores the position; the write may take effect without the worker learning of it. */
    method UpdateCursorPosition(position: int) returns (st: Status, took: bool)
      modifies this`tables, this`script, this`cursor
      ensures Extends(old(tables), tables) && Calm(old(tables), tables) && Consumed(old(script), script)
      ensures old(script) != [] ==>
                took == !old(script)[0].fault.FaultBefore? && (st == Done <==> old(script)[0].fault.NoFault?)
      ensures |old(script)| - 1 <= |script| && (st == Canceled ==> script == [])
      ensures cursor == if took then position else old(cursor)
      ensures (st == Done ==> took) && (Acknowledged(old(script)) ==> (took <==> st == Done))
      ensures Frozen(old(script)) ==> tables == old(tables) && (took <==> st == Done) && st != Failed
    {
      st, took := Await(None);
      if took {
        cursor := position;
      }
    }

    /** Hands every active account of a batch to ValidateBalance; only a cancellation stops it early. */
    method ValidateAll(users: seq<Uuid>, hi: int) returns (st: Status)
      modifies this`tables, this`script, this`validated
      ensures Extends(old(tables), tables) && Consumed(old(script), script)
      ensures st == Done || (st == Canceled && script == [])
      ensures Frozen(old(script)) ==> |old(script)| - QUIET_TICKS * |users| <= |script|
      ensures old(validated) <= validated
      ensures st == Done ==> validated == old(validated) + users
      ensures Spared(old(tables), tables, validated)
      ensures Frozen(old(script)) ==> SameLog(old(tables), tables)
      ensures Frozen(old(script)) && st == Done && hi > 0 ==>
                forall a :: a in users && a in tables.accounts && MaxId(tables.postings, a) <= hi
                            && Summable(tables.postings, a) ==>
                  tables.accounts[a].amount == Total(tables.postings, a)
    {
      hide Total;
      hide MaxId;
      hide Summable;
      hide Mismatch;
      hide SoundAccount;
      hide References;
      hide PostingsSum;
      hide Spared;
      hide Calm;
      CalmItself(tables);
      CalmWide(tables, tables, validated);
      for k := 0 to |users|
        invariant Spared(old(tables), tables, validated)
        invariant Extends(old(tables), tables) && Consumed(old(script), script)
        invariant validated == old(validated) + users[..k]
        invariant Frozen(old(script)) ==> |old(script)| - QUIET_TICKS * k <= |script|
        invariant Frozen(old(script)) ==> Frozen(script) && SameLog(old(tables), tables)
        invariant Frozen(old(script)) && hi > 0 ==>
                    forall a :: a in users[..k] && a in tables.accounts && MaxId(tables.postings, a) <= hi
                                && Summable(tables.postings, a) ==>
                      tables.accounts[a].amount == Total(tables.postings, a)
      {
        var corrected;
        ghost var seen, summed, bound, again, steps;
        ghost var t, v := tables, validated;
        st, corrected, seen, summed, bound, again, steps := ValidateBalance(users[k], hi);
        SparedOn(old(tables), t, tables, v, [users[k]], validated);
        assert users[..k + 1] == users[..k] + [users[k]];
        if st == Canceled {
          return;
        }
      }
      assert users[..|users|] == users;
      st := Done;
    }

    /** One pass of the loop body. A batch is recorded exactly when its cursor is stored, whether or not
        the worker learns of that. */
    method ProcessBatch() returns (st: Status, moved: bool)
      requires batchSize > 0 && cursor >= 0
      modifies this
      ensures Extends(old(tables), tables) && Consumed(old(script), script)
      ensures old(script) != [] ==> |script| < |old(script)|
      ensures old(validated) <= validated && Spared(old(tables), tables, validated)
      ensures moved ==>
                && |batches| == |old(batches)| + 1 && batches[..|old(batches)|] == old(batches)
                && batches[|old(batches)|].lo == old(cursor) && batches[|old(batches)|].hi == cursor
                && batches[|old(batches)|].acked == (st == Done)
                && BatchOk(batches[|old(batches)|], tables.postings, validated, batchSize)
      ensures !moved ==> cursor == old(cursor) && batches == old(batches)
      ensures Acknowledged(old(script)) && moved ==> st == Done
      ensures Frozen(old(script)) && moved ==> |old(script)| - Budget(tables.postings) <= |script|
      ensures Frozen(old(script)) && cursor < LastId(tables.postings) && |old(script)| > Budget(tables.postings) ==>
                moved
      ensures st == Canceled ==> script == []
      ensures Frozen(old(script)) ==> SameLog(old(tables), tables)
      ensures Frozen(old(script)) && moved ==>
                && st == Done && batches[|old(batches)|].max == LastId(tables.postings)
                && Repaired(tables, old(cursor), cursor)
    {
      hide Total;
      hide MaxId;
      hide Summable;
      hide LastId;
      hide ActiveAccounts;
      hide BatchOk;
      hide Repaired;
      hide Frozen;
      hide Acknowledged;
      hide Extends;
      hide Calm;
      hide Spared;
      hide IsBound;
      moved := false;
      ghost var first := |validated|;
      var lo, hi, users;
      ghost var visible;
      st, lo, hi, visible := GetCursorPosition();
      ghost var bounded := tables;
      CalmWide(old(tables), tables, validated);
      if st != Done || lo >= hi { return; }
      st, users := GetActiveAccounts(lo, hi);
      ghost var scan := tables;
      ExtendsOn(old(tables), bounded, tables);
      CalmOn(old(tables), bounded, tables);
      CalmWide(old(tables), tables, validated);
      if st != Done { return; }
      FewAccounts(scan.postings, lo, hi);
      st := ValidateAll(users, hi);
      ghost var checked := tables;
      ExtendsOn(old(tables), scan, tables);
      SparedOn(old(tables), scan, tables, old(validated), validated, validated);
      if st != Done { return; }
      st, moved := UpdateCursorPosition(hi);
      ExtendsOn(old(tables), checked, tables);
      ExtendsOn(scan, checked, tables);
      CalmWide(checked, tables, validated);
      SparedOn(old(tables), checked, tables, validated, validated, validated);
      if moved {
        ghost var max := LastId(bounded.postings);
        ghost var b := Batch(lo, hi, max, visible, |scan.postings|, first, |validated|, st == Done);
        batches := batches + [b];
        MakeBatch(b, bounded, scan, tables, old(validated), users, batchSize);
        if Frozen(old(script)) {
          RepairedBatch(tables, users, lo, hi);
        }
      }
    }

    /** waitBackoff: false when the worker is cancelled while it waits. */
    method WaitBackoff() returns (resume: bool)
      modifies this`tables, this`script
      ensures Extends(old(tables), tables) && Calm(old(tables), tables) && Consumed(old(script), script)
      ensures resume <==> old(script) != []
      ensures Frozen(old(script)) ==> tables == old(tables)
    {
      var st := AwaitQuery();
      resume := st != Canceled;
    }

    /** The worker's main loop, until it is cancelled; `stored` is the cursor before the shutdown write,
        which comes only when the cancellation is noticed at the `head` of the loop. `alive` says whether
        a write on the cancelled context would still be carried out.

        Coverage: the stored batches are contiguous half-open intervals from the first cursor to the
        last, each strictly ahead and never beyond the largest visible id, and each was stored after
        exactly the accounts with a posting in it visible at its scan had been validated.

        Shutdown: on the cancelled context the last write is refused and the cursor stays. Were it carried
        out, the cursor would go to the end of the last acknowledged batch, which is where it stands
        unless the acknowledgement of the last batch was lost.

        Repair: when nothing else commits and no statement fails, every account whose last posting
        the run has passed holds its posting total, whatever its amount and version were before; a run
        that is not cancelled too soon reaches the end of the log; and it does so in
        ceil((max - cursor) / size) batches. There no posting is ahead of the cursor, and every account
        posted to after the first cursor holds its posting total.

        Restraint: under any commits and failures, an account that was never validated keeps its drift. */
    method Run(alive: bool) returns (head: bool, ghost stored: int)
      requires batchSize > 0 && cursor >= 0 && validated == [] && batches == []
      modifies this
      ensures Chain(batches, old(cursor), stored)
      ensures Recorded(batches, tables.postings, validated, batchSize)
      ensures cursor == if alive && head && LastAcked(batches) > 0 then LastAcked(batches) else stored
      ensures !alive || Acknowledged(old(script)) ==> cursor == stored
      ensures cursor <= stored && (cursor < stored ==> !batches[|batches| - 1].acked)
      ensures Extends(old(tables), tables) && Spared(old(tables), tables, validated) && script == []
      ensures Frozen(old(script)) ==> SameLog(old(tables), tables) && Repaired(tables, old(cursor), cursor)
      ensures Frozen(old(script)) && old(cursor) <= LastId(tables.postings)
              && |old(script)| > CeilDiv(LastId(tables.postings) - old(cursor), batchSize) * Budget(tables.postings)
              ==> cursor == LastId(tables.postings)
      ensures Frozen(old(script)) && cursor == LastId(tables.postings) ==>
                && AllRepaired(tables, old(cursor), cursor)
                && |batches| == CeilDiv(LastId(tables.postings) - old(cursor), batchSize)
    {
      hide Going;
      hide Quiet;
      hide BatchOk;
      hide Repaired;
      hide SameLog;
      hide Extends;
      hide LastId;
      hide Chain;
      hide Recorded;
      hide CeilDiv;
      hide Budget;
      hide LastAcked;
      hide AllAcked;
      hide AllRepaired;
      hide Calm;
      hide Spared;
      CalmItself(tables);
      CalmWide(tables, tables, validated);
      var lastCommitted := 0;
      head := false;
      StartsGoing(tables, cursor, validated, batchSize, |script|);
      while true
        invariant cursor >= 0 && !head && lastCommitted == LastAcked(batches)
        invariant Consumed(old(script), script) && (Acknowledged(old(script)) ==> AllAcked(batches))
        invariant Going(old(tables), old(cursor), tables, cursor, batches, validated, batchSize)
        invariant Spared(old(tables), tables, validated)
        invariant Frozen(old(script)) ==>
                    Quiet(old(tables), old(cursor), tables, cursor, batches, |script|, |old(script)|)
        decreases |script|
      {
        if script == [] {
          head := true;
          break;
        }
        ghost var bs, t, v, c, n := batches, tables, validated, cursor, |script|;
        var st, moved := ProcessBatch();
        GoesOn(old(tables), old(cursor), t, c, tables, bs, v, validated, batchSize);
        SparedOn(old(tables), t, tables, v, validated, validated);
        if moved {
          AckedPush(bs, batches);
          GoingBatch(old(tables), old(cursor), tables, c, bs, batches, validated, batchSize);
          if Frozen(old(script)) {
            QuietBatch(old(tables), old(cursor), t, c, tables, bs, batches, n, |script|, |old(script)|);
          }
        }
        if moved && st == Done {
          lastCommitted := cursor;
        } else {
          ghost var m := tables;
          var resume := WaitBackoff();
          GoesOn(old(tables), old(cursor), m, cursor, tables, batches, validated, validated, batchSize);
          CalmWide(m, tables, validated);
          SparedOn(old(tables), m, tables, validated, validated, validated);
          if Frozen(old(script)) {
            QuietPass(old(tables), old(cursor), t, c, tables, bs, n, |script|, |old(script)|);
          }
          if !resume {
            break;
          }
        }
      }
      stored := cursor;
      RunEnds(old(tables), old(cursor), tables, cursor, batches, validated, batchSize);
      if Frozen(old(script)) {
        QuietEnds(old(tables), old(cursor), tables, cursor, batches, validated, batchSize, |old(script)|);
        if cursor == LastId(tables.postings) {
          RepairedToTheEnd(tables, old(cursor), cursor);
        }
      }
      StaleExactly(batches, old(cursor), cursor);
      if head && alive && lastCommitted > 0 {
        cursor := lastCommitted;
      }
    }
  }

  /** The worker needs a name; a batch size or a waiting time that is not positive becomes the default. */
  method NewPostingWorker(name: string, size: int, backoff: int, tables: Tables, cursor: int, script: seq<Tick>)
    returns (w: PostingWorker?)
    requires cursor >= 0
    ensures w == null <==> name == ""
    ensures w != null ==>
              && fresh(w) && w.name == name
              && w.batchSize == (if size <= 0 then DEFAULT_BATCH_SIZE else size)
              && w.backoff == (if backoff <= 0 then DEFAULT_BACKOFF else backoff)
              && w.tables == tables && w.cursor == cursor && w.script == script
              && w.validated == [] && w.batches == []
  {
    if name == "" {
      return null;
    }
    w := new PostingWorker(
      name, if size <= 0 then DEFAULT_BATCH_SIZE else size, if backoff <= 0 then DEFAULT_BACKOFF else backoff,
      tables, cursor, script);
  }
}
