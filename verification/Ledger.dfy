/** The committed tables and the serial ledger: what one committed unit of work does to them,
    and what every serial history keeps. The concurrent protocol is proved to refine this. */
module Ledger {
  import opened Uuids

  const MAX_INT64: int := 0x7fff_ffff_ffff_ffff
  const MIN_INT64: int := -0x8000_0000_0000_0000
  const CURRENCY_UNSPECIFIED: Currency := 0

  /** A currency is a 16-bit number, in the service and in the SMALLINT columns. */
  type Currency = c: int | -0x8000 <= c < 0x8000

  datatype Account = Account(amount: int, currency: Currency, latest: int)

  datatype Transaction = Transaction(id: Uuid, key: Uuid, from: Uuid, to: Uuid, amount: int, currency: Currency)

  datatype Posting = Posting(id: int, trx: Uuid, account: Uuid, amount: int)

  /** Rows of `transactions` and `postings` are listed in the order in which they were committed. */
  datatype Tables = Tables(accounts: map<Uuid, Account>, transactions: seq<Transaction>, postings: seq<Posting>)

  /** How a call to the database or to Redis fails: without effect, or with its acknowledgement lost. */
  datatype Fault = NoFault | FaultBefore | FaultAfter

  function Max(x: int, y: int): int {
    if x >= y then x else y
  }

  function Min(x: int, y: int): int {
    if x <= y then x else y
  }

  // ---- queries ----

  /** SUM(amount) over the postings of one account. */
  function Total(ps: seq<Posting>, a: Uuid): int {
    if ps == [] then 0
    else Total(ps[..|ps| - 1], a) + if ps[|ps| - 1].account == a then ps[|ps| - 1].amount else 0
  }

  /** SUM(amount) over the postings of one account with id <= limit. */
  function TotalUpTo(ps: seq<Posting>, a: Uuid, limit: int): int {
    if ps == [] then 0
    else
      var p := ps[|ps| - 1];
      TotalUpTo(ps[..|ps| - 1], a, limit) + if p.account == a && p.id <= limit then p.amount else 0
  }

  /** COALESCE(MAX(id), 0) over the postings of one account. */
  function MaxId(ps: seq<Posting>, a: Uuid): int {
    if ps == [] then 0
    else
      var p := ps[|ps| - 1];
      if p.account == a then Max(MaxId(ps[..|ps| - 1], a), p.id) else MaxId(ps[..|ps| - 1], a)
  }

  predicate KeyUsed(ts: seq<Transaction>, k: Uuid) {
    exists i :: 0 <= i < |ts| && ts[i].key == k
  }

  predicate IdUsed(ts: seq<Transaction>, id: Uuid) {
    exists i :: 0 <= i < |ts| && ts[i].id == id
  }

  predicate PostingUsed(ps: seq<Posting>, id: int) {
    exists i :: 0 <= i < |ps| && ps[i].id == id
  }

  lemma Push(ps: seq<Posting>, p: Posting, a: Uuid)
    ensures Total(ps + [p], a) == Total(ps, a) + if p.account == a then p.amount else 0
    ensures MaxId(ps + [p], a) == if p.account == a then Max(MaxId(ps, a), p.id) else MaxId(ps, a)
  {
    assert (ps + [p])[..|ps|] == ps;
  }

  lemma PushTwo(ps: seq<Posting>, p: Posting, q: Posting, a: Uuid)
    ensures Total(ps + [p, q], a)
         == Total(ps, a) + (if p.account == a then p.amount else 0) + (if q.account == a then q.amount else 0)
    ensures p.account != a && q.account != a ==> MaxId(ps + [p, q], a) == MaxId(ps, a)
    ensures p.account == a && q.account != a ==> MaxId(ps + [p, q], a) == Max(MaxId(ps, a), p.id)
    ensures p.account != a && q.account == a ==> MaxId(ps + [p, q], a) == Max(MaxId(ps, a), q.id)
  {
    assert ps + [p, q] == ps + [p] + [q];
    Push(ps + [p], q, a);
    Push(ps, p, a);
  }

  /** The rows that WHERE id <= limit lets through. */
  function UpTo(ps: seq<Posting>, limit: int): (rs: seq<Posting>)
    ensures forall p :: p in rs <==> p in ps && p.id <= limit
  {
    if ps == [] then []
    else
      var p := ps[|ps| - 1];
      assert ps == ps[..|ps| - 1] + [p];
      UpTo(ps[..|ps| - 1], limit) + if p.id <= limit then [p] else []
  }

  /** The bounded sum is the sum of the rows within the bound, whatever the order of their commits. */
  lemma {:induction false} BoundedSum(ps: seq<Posting>, a: Uuid, limit: int)
    ensures TotalUpTo(ps, a, limit) == Total(UpTo(ps, limit), a)
  {
    if ps != [] {
      var p := ps[|ps| - 1];
      BoundedSum(ps[..|ps| - 1], a, limit);
      if p.id <= limit {
        Push(UpTo(ps[..|ps| - 1], limit), p, a);
      } else {
        assert UpTo(ps, limit) == UpTo(ps[..|ps| - 1], limit);
      }
    }
  }

  lemma TotalUpToPush(ps: seq<Posting>, p: Posting, a: Uuid, limit: int)
    ensures TotalUpTo(ps + [p], a, limit)
         == TotalUpTo(ps, a, limit) + if p.account == a && p.id <= limit then p.amount else 0
  {
    assert (ps + [p])[..|ps|] == ps;
  }

  /** MaxId is the largest id of the account's postings, and 0 when there is none. */
  lemma {:induction false} MaxIdIsLargest(ps: seq<Posting>, a: Uuid)
    ensures MaxId(ps, a) >= 0
    ensures forall k :: 0 <= k < |ps| && ps[k].account == a ==> ps[k].id <= MaxId(ps, a)
    ensures MaxId(ps, a) > 0 ==> exists k :: 0 <= k < |ps| && ps[k].account == a && ps[k].id == MaxId(ps, a)
  {
    if ps != [] {
      var n := |ps| - 1;
      MaxIdIsLargest(ps[..n], a);
      assert forall k :: 0 <= k < n ==> ps[..n][k] == ps[k];
      if MaxId(ps[..n], a) > 0 && MaxId(ps, a) == MaxId(ps[..n], a) {
        var k :| 0 <= k < n && ps[..n][k].account == a && ps[..n][k].id == MaxId(ps[..n], a);
        assert ps[k].account == a && ps[k].id == MaxId(ps, a);
      }
    }
  }

  lemma {:induction false} TotalConcat(ps: seq<Posting>, qs: seq<Posting>, a: Uuid)
    ensures Total(ps + qs, a) == Total(ps, a) + Total(qs, a)
  {
    if qs == [] {
      assert ps + qs == ps;
    } else {
      var init := qs[..|qs| - 1];
      assert ps + qs == (ps + init) + [qs[|qs| - 1]];
      Push(ps + init, qs[|qs| - 1], a);
      TotalConcat(ps, init, a);
    }
  }

  // ---- one UPDATE of an account row ----

  function Debited(acc: Account, amount: int, posting: int): Account {
    Account(acc.amount - amount, acc.currency, Max(acc.latest, posting))
  }

  function Credited(acc: Account, amount: int, posting: int): Account {
    Account(acc.amount + amount, acc.currency, Max(acc.latest, posting))
  }

  predicate ValidCurrency(c: int) {
    1 <= c <= 4
  }

  /** What validateRequest lets through. */
  predicate WellFormed(row: Transaction) {
    row.amount > 0 && row.from != row.to && row.key != NIL && ValidCurrency(row.currency)
  }

  // ---- the serial ledger ----

  datatype Commit =
    | Transferred(row: Transaction, debitId: int, creditId: int)
    | Opened(row: Transaction, postingId: int)
    | OpenedEmpty(account: Uuid, currency: Currency)
    | Corrected(account: Uuid, amount: int, latest: int)

  predicate FreshRow(t: Tables, row: Transaction) {
    !KeyUsed(t.transactions, row.key) && !IdUsed(t.transactions, row.id)
  }

  predicate FreshPosting(t: Tables, id: int) {
    id > 0 && !PostingUsed(t.postings, id)
  }

  /** A transfer is accepted exactly when the request is well formed, the key is fresh, both
      accounts exist in the requested currency and the source can pay. */
  predicate Accepts(t: Tables, row: Transaction) {
    && WellFormed(row)
    && !KeyUsed(t.transactions, row.key)
    && row.from in t.accounts && row.to in t.accounts
    && t.accounts[row.from].currency == row.currency == t.accounts[row.to].currency
    && t.accounts[row.from].amount >= row.amount
  }

  predicate Admissible(t: Tables, c: Commit) {
    match c
    case Transferred(row, debitId, creditId) =>
      && Accepts(t, row)
      && !IdUsed(t.transactions, row.id)
      && t.accounts[row.to].amount + row.amount <= MAX_INT64
      && FreshPosting(t, debitId) && FreshPosting(t, creditId) && debitId != creditId
    case Opened(row, postingId) =>
      && row.from == row.to && row.to !in t.accounts
      && 0 < row.amount <= MAX_INT64 && row.currency != CURRENCY_UNSPECIFIED
      && FreshRow(t, row) && FreshPosting(t, postingId)
    case OpenedEmpty(account, currency) =>
      account !in t.accounts && currency != CURRENCY_UNSPECIFIED
    case Corrected(account, amount, latest) =>
      account in t.accounts && amount >= 0
  }

  function Apply(t: Tables, c: Commit): Tables
    requires Admissible(t, c)
  {
    match c
    case Transferred(row, debitId, creditId) =>
      Tables(
        t.accounts[row.from := Debited(t.accounts[row.from], row.amount, debitId)]
                  [row.to := Credited(t.accounts[row.to], row.amount, creditId)],
        t.transactions + [row],
        t.postings + [Posting(debitId, row.id, row.from, -row.amount), Posting(creditId, row.id, row.to, row.amount)])
    case Opened(row, postingId) =>
      Tables(
        t.accounts[row.to := Account(row.amount, row.currency, Max(0, postingId))],
        t.transactions + [row],
        t.postings + [Posting(postingId, row.id, row.to, row.amount)])
    case OpenedEmpty(account, currency) =>
      t.(accounts := t.accounts[account := Account(0, currency, 0)])
    case Corrected(account, amount, latest) =>
      t.(accounts := t.accounts[account := Account(amount, t.accounts[account].currency, latest)])
  }

  /** A history whose every commit is admissible at its place. */
  predicate Serial(t: Tables, log: seq<Commit>)
    decreases |log|, 0
  {
    log == [] || (Serial(t, log[..|log| - 1]) && Admissible(Replay(t, log[..|log| - 1]), log[|log| - 1]))
  }

  function Replay(t: Tables, log: seq<Commit>): Tables
    requires Serial(t, log)
    decreases |log|, 1
  {
    if log == [] then t else Apply(Replay(t, log[..|log| - 1]), log[|log| - 1])
  }

  lemma SerialPush(t: Tables, log: seq<Commit>, c: Commit)
    requires Serial(t, log) && Admissible(Replay(t, log), c)
    ensures Serial(t, log + [c]) && Replay(t, log + [c]) == Apply(Replay(t, log), c)
  {
    assert (log + [c])[..|log|] == log;
  }

  /** Rows never disappear, never change, and accounts keep their currency. */
  ghost predicate Extends(t: Tables, u: Tables) {
    && t.transactions <= u.transactions
    && t.postings <= u.postings
    && forall a :: a in t.accounts ==> a in u.accounts && u.accounts[a].currency == t.accounts[a].currency
  }

  lemma ExtendsOn(t: Tables, u: Tables, v: Tables)
    requires Extends(t, u) && Extends(u, v)
    ensures Extends(t, v)
  {
  }

  lemma {:induction false} ReplayExtends(t: Tables, log: seq<Commit>)
    requires Serial(t, log)
    ensures Extends(t, Replay(t, log))
  {
    if log != [] {
      ReplayExtends(t, log[..|log| - 1]);
    }
  }

  // ---- what an account owes to its postings ----

  /** How far an account's amount is from the sum of its postings. */
  function Drift(t: Tables, a: Uuid): int
    requires a in t.accounts
  {
    t.accounts[a].amount - Total(t.postings, a)
  }

  ghost predicate SoundAccount(t: Tables, a: Uuid) {
    && a in t.accounts
    && t.accounts[a].amount >= 0
    && Drift(t, a) == 0
    && t.accounts[a].latest == MaxId(t.postings, a)
  }

  ghost predicate References(t: Tables) {
    && (forall i :: 0 <= i < |t.postings| ==> t.postings[i].account in t.accounts && t.postings[i].id > 0)
  }

  ghost predicate Sound(t: Tables) {
    && References(t)
    && forall a :: a in t.accounts ==> SoundAccount(t, a)
  }

  lemma {:induction false} NoPostings(ps: seq<Posting>, a: Uuid)
    requires forall i :: 0 <= i < |ps| ==> ps[i].account != a
    ensures Total(ps, a) == 0 && MaxId(ps, a) == 0
  {
    if ps != [] {
      NoPostings(ps[..|ps| - 1], a);
    }
  }

  /** Every commit except a correction keeps the drift of every existing account, whatever it is,
      and a new account starts without drift. */
  lemma DriftKept(t: Tables, c: Commit, a: Uuid)
    requires Admissible(t, c) && References(t) && (c.Corrected? ==> c.account != a)
    requires a in Apply(t, c).accounts
    ensures Drift(Apply(t, c), a) == if a in t.accounts then Drift(t, a) else 0
  {
    hide Total;
    hide MaxId;
    match c
    case Transferred(row, debitId, creditId) =>
      PushTwo(t.postings, Posting(debitId, row.id, row.from, -row.amount),
              Posting(creditId, row.id, row.to, row.amount), a);
    case Opened(row, postingId) =>
      Push(t.postings, Posting(postingId, row.id, row.to, row.amount), a);
      if a == row.to { NoPostings(t.postings, a); }
    case OpenedEmpty(account, currency) =>
      if a == account { NoPostings(t.postings, a); }
    case Corrected(_, _, _) =>
  }

  lemma ReferencesKept(t: Tables, c: Commit)
    requires Admissible(t, c) && References(t)
    ensures References(Apply(t, c))
  {
  }

  /** Whatever happened before, the drift of an account stays what it is until it is corrected. */
  lemma {:induction false} DriftUntilCorrection(t: Tables, log: seq<Commit>, a: Uuid)
    requires Serial(t, log) && References(t) && a in t.accounts
    requires forall i :: 0 <= i < |log| ==> log[i].Corrected? ==> log[i].account != a
    ensures References(Replay(t, log))
    ensures a in Replay(t, log).accounts && Drift(Replay(t, log), a) == Drift(t, a)
  {
    if log != [] {
      var init := log[..|log| - 1];
      DriftUntilCorrection(t, init, a);
      DriftKept(Replay(t, init), log[|log| - 1], a);
      ReferencesKept(Replay(t, init), log[|log| - 1]);
    }
  }

  /** Soundness of one account survives every commit of others, and new accounts are sound. */
  lemma SoundAccountKept(t: Tables, c: Commit, a: Uuid)
    requires Admissible(t, c) && References(t) && !c.Corrected? && a in Apply(t, c).accounts
    requires a in t.accounts ==> SoundAccount(t, a)
    ensures SoundAccount(Apply(t, c), a)
  {
    hide Total;
    hide MaxId;
    DriftKept(t, c, a);
    match c
    case Transferred(row, debitId, creditId) =>
      PushTwo(t.postings, Posting(debitId, row.id, row.from, -row.amount),
              Posting(creditId, row.id, row.to, row.amount), a);
    case Opened(row, postingId) =>
      Push(t.postings, Posting(postingId, row.id, row.to, row.amount), a);
      if a == row.to { NoPostings(t.postings, a); }
    case OpenedEmpty(account, currency) =>
      if a == account { NoPostings(t.postings, a); }
  }

  lemma SoundKept(t: Tables, c: Commit)
    requires Admissible(t, c) && Sound(t) && !c.Corrected?
    ensures Sound(Apply(t, c))
  {
    ReferencesKept(t, c);
    forall a | a in Apply(t, c).accounts ensures SoundAccount(Apply(t, c), a) {
      SoundAccountKept(t, c, a);
    }
  }

  // ---- double entry ----

  datatype Leg = Leg(trx: Uuid, account: Uuid, amount: int)

  /** The postings a transaction row stands for: an opening has one leg, a transfer two. */
  function Legs(row: Transaction): seq<Leg> {
    if row.from == row.to then [Leg(row.id, row.to, row.amount)]
    else [Leg(row.id, row.from, -row.amount), Leg(row.id, row.to, row.amount)]
  }

  function Book(ts: seq<Transaction>): seq<Leg> {
    if ts == [] then [] else Book(ts[..|ts| - 1]) + Legs(ts[|ts| - 1])
  }

  function LegsOf(ps: seq<Posting>): (ls: seq<Leg>)
    ensures |ls| == |ps|
  {
    seq(|ps|, i requires 0 <= i < |ps| => Leg(ps[i].trx, ps[i].account, ps[i].amount))
  }

  ghost predicate UniqueRows(ts: seq<Transaction>) {
    forall i, j :: 0 <= i < j < |ts| ==> ts[i].key != ts[j].key && ts[i].id != ts[j].id
  }

  ghost predicate UniquePostings(ps: seq<Posting>) {
    forall i, j :: 0 <= i < j < |ps| ==> ps[i].id != ps[j].id
  }

  /** The postings table is determined by the transactions table, and all keys are unique. */
  ghost predicate Booked(t: Tables) {
    && LegsOf(t.postings) == Book(t.transactions)
    && UniqueRows(t.transactions)
    && UniquePostings(t.postings)
    && (forall i :: 0 <= i < |t.transactions| ==> t.transactions[i].amount > 0)
  }

  lemma BookPush(ts: seq<Transaction>, row: Transaction)
    ensures Book(ts + [row]) == Book(ts) + Legs(row)
  {
    assert (ts + [row])[..|ts|] == ts;
  }

  lemma UniqueRowsPush(ts: seq<Transaction>, row: Transaction)
    requires UniqueRows(ts) && !KeyUsed(ts, row.key) && !IdUsed(ts, row.id)
    ensures UniqueRows(ts + [row])
  {
  }

  lemma UniquePostingsPush(ps: seq<Posting>, p: Posting)
    requires UniquePostings(ps) && !PostingUsed(ps, p.id)
    ensures UniquePostings(ps + [p])
    ensures forall id :: PostingUsed(ps + [p], id) ==> PostingUsed(ps, id) || id == p.id
  {
  }

  lemma BookedKept(t: Tables, c: Commit)
    requires Admissible(t, c) && Booked(t)
    ensures Booked(Apply(t, c))
  {
    hide Book;
    hide UniqueRows;
    hide UniquePostings;
    var ts, ps := t.transactions, t.postings;
    match c
    case Transferred(row, debitId, creditId) =>
      var p, q := Posting(debitId, row.id, row.from, -row.amount), Posting(creditId, row.id, row.to, row.amount);
      BookPush(ts, row);
      UniqueRowsPush(ts, row);
      UniquePostingsPush(ps, p);
      UniquePostingsPush(ps + [p], q);
      assert ps + [p, q] == ps + [p] + [q];
      assert LegsOf(ps + [p, q]) == LegsOf(ps) + Legs(row);
    case Opened(row, postingId) =>
      var p := Posting(postingId, row.id, row.to, row.amount);
      BookPush(ts, row);
      UniqueRowsPush(ts, row);
      UniquePostingsPush(ps, p);
      assert LegsOf(ps + [p]) == LegsOf(ps) + Legs(row);
    case OpenedEmpty(_, _) =>
    case Corrected(_, _, _) =>
  }

  function LegsFor(ls: seq<Leg>, id: Uuid): seq<Leg> {
    if ls == [] then []
    else LegsFor(ls[..|ls| - 1], id) + if ls[|ls| - 1].trx == id then [ls[|ls| - 1]] else []
  }

  lemma LegsForPush(ls: seq<Leg>, row: Transaction, id: Uuid)
    ensures LegsFor(ls + Legs(row), id) == LegsFor(ls, id) + if row.id == id then Legs(row) else []
  {
    var rs := Legs(row);
    if |rs| == 1 {
      assert (ls + rs)[..|ls|] == ls;
    } else {
      assert ls + rs == ls + [rs[0]] + [rs[1]];
      assert (ls + [rs[0]] + [rs[1]])[..|ls| + 1] == ls + [rs[0]];
      assert (ls + [rs[0]])[..|ls|] == ls;
    }
  }

  lemma {:induction false} LegsForNone(ts: seq<Transaction>, id: Uuid)
    requires forall k :: 0 <= k < |ts| ==> ts[k].id != id
    ensures LegsFor(Book(ts), id) == []
  {
    if ts != [] {
      LegsForNone(ts[..|ts| - 1], id);
      LegsForPush(Book(ts[..|ts| - 1]), ts[|ts| - 1], id);
    }
  }

  lemma {:induction false} LegsForBook(ts: seq<Transaction>, i: nat)
    requires UniqueRows(ts) && i < |ts|
    ensures LegsFor(Book(ts), ts[i].id) == Legs(ts[i])
  {
    var init, last := ts[..|ts| - 1], ts[|ts| - 1];
    LegsForPush(Book(init), last, ts[i].id);
    hide LegsFor;
    hide Legs;
    if i == |init| {
      LegsForNone(init, last.id);
    } else {
      LegsForBook(init, i);
    }
  }

  /** The postings that carry a transaction's id are exactly that transaction's legs. */
  lemma DoubleEntry(t: Tables, i: nat)
    requires Booked(t) && i < |t.transactions|
    ensures LegsFor(LegsOf(t.postings), t.transactions[i].id) == Legs(t.transactions[i])
  {
    LegsForBook(t.transactions, i);
  }

  function Sum(ls: seq<Leg>): int {
    if ls == [] then 0 else Sum(ls[..|ls| - 1]) + ls[|ls| - 1].amount
  }

  function OpeningSum(ts: seq<Transaction>): int {
    if ts == [] then 0
    else OpeningSum(ts[..|ts| - 1]) + if ts[|ts| - 1].from == ts[|ts| - 1].to then ts[|ts| - 1].amount else 0
  }

  lemma SumPush(ls: seq<Leg>, l: Leg)
    ensures Sum([]) == 0 && Sum(ls + [l]) == Sum(ls) + l.amount
  {
    assert (ls + [l])[..|ls|] == ls;
  }

  lemma OpeningSumPush(ts: seq<Transaction>, row: Transaction)
    ensures OpeningSum([]) == 0
    ensures OpeningSum(ts + [row]) == OpeningSum(ts) + if row.from == row.to then row.amount else 0
  {
    assert (ts + [row])[..|ts|] == ts;
  }

  lemma {:induction false} BookSum(ts: seq<Transaction>)
    ensures Sum(Book(ts)) == OpeningSum(ts)
  {
    hide Sum;
    SumPush([], Leg(0, 0, 0));
    if ts != [] {
      var init, rs := Book(ts[..|ts| - 1]), Legs(ts[|ts| - 1]);
      BookSum(ts[..|ts| - 1]);
      SumPush(init, rs[0]);
      if |rs| == 2 {
        SumPush(init + [rs[0]], rs[1]);
        assert rs == [rs[0]] + [rs[1]] && init + rs == init + [rs[0]] + [rs[1]];
      } else {
        assert rs == [rs[0]];
      }
    }
  }

  /** Transfers cancel out: the sum of all postings is the sum of all openings. */
  lemma TransfersCancel(t: Tables)
    requires Booked(t)
    ensures Sum(LegsOf(t.postings)) == OpeningSum(t.transactions)
  {
    BookSum(t.transactions);
  }

  // ---- conservation per currency ----

  ghost function SumOver(m: map<Uuid, int>): int
    decreases m.Keys
  {
    if m == map[] then 0
    else
      var k :| k in m;
      assert (m - {k}).Keys == m.Keys - {k};
      m[k] + SumOver(m - {k})
  }

  lemma {:induction false} SumRemove(m: map<Uuid, int>, k: Uuid)
    requires k in m
    ensures SumOver(m) == m[k] + SumOver(m - {k})
    decreases m.Keys
  {
    var j :| j in m && SumOver(m) == m[j] + SumOver(m - {j});
    if j != k {
      assert (m - {j}).Keys == m.Keys - {j} && (m - {k}).Keys == m.Keys - {k};
      SumRemove(m - {j}, k);
      SumRemove(m - {k}, j);
      assert m - {j} - {k} == m - {k} - {j};
    }
  }

  lemma SumUpdate(m: map<Uuid, int>, k: Uuid, v: int)
    ensures SumOver(m[k := v]) == SumOver(m) + v - if k in m then m[k] else 0
  {
    hide SumOver;
    SumRemove(m[k := v], k);
    assert m[k := v] - {k} == m - {k};
    if k in m {
      SumRemove(m, k);
    } else {
      assert m - {k} == m;
    }
  }

  lemma {:induction false} SumNonNegative(m: map<Uuid, int>)
    requires forall k :: k in m ==> m[k] >= 0
    ensures SumOver(m) >= 0
    decreases m.Keys
  {
    if m != map[] {
      var k :| k in m;
      assert (m - {k}).Keys == m.Keys - {k};
      SumRemove(m, k);
      SumNonNegative(m - {k});
    }
  }

  function Amounts(accounts: map<Uuid, Account>, c: int): map<Uuid, int> {
    map a | a in accounts && accounts[a].currency == c :: accounts[a].amount
  }

  function Openings(ts: seq<Transaction>, c: int): int {
    if ts == [] then 0
    else
      var row := ts[|ts| - 1];
      Openings(ts[..|ts| - 1], c) + if row.from == row.to && row.currency == c then row.amount else 0
  }

  /** The balances of a currency add up to what was put in when its accounts were opened. */
  ghost predicate Conserved(t: Tables) {
    forall c :: SumOver(Amounts(t.accounts, c)) == Openings(t.transactions, c)
  }

  lemma AmountsUpdate(accounts: map<Uuid, Account>, a: Uuid, acc: Account, c: int)
    requires a in accounts ==> accounts[a].currency == acc.currency
    ensures SumOver(Amounts(accounts[a := acc], c))
         == SumOver(Amounts(accounts, c))
            + if acc.currency == c then acc.amount - (if a in accounts then accounts[a].amount else 0) else 0
  {
    hide SumOver;
    if acc.currency == c {
      assert Amounts(accounts[a := acc], c) == Amounts(accounts, c)[a := acc.amount];
      SumUpdate(Amounts(accounts, c), a, acc.amount);
    } else {
      assert Amounts(accounts[a := acc], c) == Amounts(accounts, c);
    }
  }

  lemma ConservedKept(t: Tables, c: Commit)
    requires Admissible(t, c) && Conserved(t) && !c.Corrected?
    ensures Conserved(Apply(t, c))
  {
    hide SumOver;
    hide Amounts;
    var u := Apply(t, c);
    forall cur ensures SumOver(Amounts(u.accounts, cur)) == Openings(u.transactions, cur) {
      assert SumOver(Amounts(t.accounts, cur)) == Openings(t.transactions, cur);
      if c.Transferred? || c.Opened? {
        assert u.transactions[..|t.transactions|] == t.transactions;
      }
      match c
      case Transferred(row, debitId, creditId) =>
        var debited := Debited(t.accounts[row.from], row.amount, debitId);
        AmountsUpdate(t.accounts, row.from, debited, cur);
        AmountsUpdate(t.accounts[row.from := debited], row.to, Credited(t.accounts[row.to], row.amount, creditId), cur);
      case Opened(row, postingId) =>
        AmountsUpdate(t.accounts, row.to, u.accounts[row.to], cur);
      case OpenedEmpty(account, currency) =>
        AmountsUpdate(t.accounts, account, u.accounts[account], cur);
    }
  }

  /** No balance exceeds what its currency was opened with. */
  lemma BoundedAlone(t: Tables, a: Uuid)
    requires Sound(t) && Conserved(t) && a in t.accounts
    ensures 0 <= t.accounts[a].amount <= Openings(t.transactions, t.accounts[a].currency)
  {
    hide SumOver;
    var m := Amounts(t.accounts, t.accounts[a].currency);
    assert SoundAccount(t, a) && forall k :: k in m ==> SoundAccount(t, k);
    SumRemove(m, a);
    SumNonNegative(m - {a});
  }

  /** No two balances together exceed what their currency was opened with. */
  lemma Bounded(t: Tables, a: Uuid, b: Uuid)
    requires Sound(t) && Conserved(t)
    requires a in t.accounts && b in t.accounts && a != b && t.accounts[a].currency == t.accounts[b].currency
    ensures t.accounts[a].amount + t.accounts[b].amount <= Openings(t.transactions, t.accounts[a].currency)
  {
    hide SumOver;
    var m := Amounts(t.accounts, t.accounts[a].currency);
    assert forall k :: k in m ==> SoundAccount(t, k);
    SumRemove(m, a);
    SumRemove(m - {a}, b);
    SumNonNegative(m - {a} - {b});
  }

  /** While the currency fits in int64, a transfer that is accepted never overflows its destination. */
  lemma CreditRoom(t: Tables, row: Transaction)
    requires Sound(t) && Conserved(t) && Accepts(t, row)
    requires Openings(t.transactions, row.currency) <= MAX_INT64
    ensures t.accounts[row.to].amount + row.amount <= MAX_INT64
  {
    Bounded(t, row.from, row.to);
  }

  // ---- whole serial histories ----

  ghost predicate Healthy(t: Tables) {
    Sound(t) && Conserved(t)
  }

  lemma {:induction false} SerialReferences(t: Tables, log: seq<Commit>)
    requires Serial(t, log) && References(t)
    ensures References(Replay(t, log))
  {
    if log != [] {
      SerialReferences(t, log[..|log| - 1]);
      ReferencesKept(Replay(t, log[..|log| - 1]), log[|log| - 1]);
    }
  }

  lemma {:induction false} SerialBooked(t: Tables, log: seq<Commit>)
    requires Serial(t, log) && Booked(t)
    ensures Booked(Replay(t, log))
  {
    if log != [] {
      SerialBooked(t, log[..|log| - 1]);
      BookedKept(Replay(t, log[..|log| - 1]), log[|log| - 1]);
    }
  }

  lemma {:induction false} SerialHealthy(t: Tables, log: seq<Commit>)
    requires Serial(t, log) && Healthy(t)
    requires forall i :: 0 <= i < |log| ==> !log[i].Corrected?
    ensures Healthy(Replay(t, log))
  {
    if log != [] {
      SerialHealthy(t, log[..|log| - 1]);
      SoundKept(Replay(t, log[..|log| - 1]), log[|log| - 1]);
      ConservedKept(Replay(t, log[..|log| - 1]), log[|log| - 1]);
    }
  }
}
