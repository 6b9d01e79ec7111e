/** Any number of concurrent database transactions, interleaved statement by statement under
    READ COMMITTED (section 13.2.1 of the PostgreSQL documentation): transfers, account openings
    and balance corrections.

    A session keeps its uncommitted account rows in `rows`; having a row there is holding its lock.
    An UPDATE waits while another session holds the row and then works on the committed row.
    An INSERT of a transaction waits while another session has inserted the same key.
    Posting ids are drawn from a counter before commit, one row at a time, and never returned. */
module Protocol {
  import opened Uuids
  import opened Ledger

  datatype Job =
    | TransferJob(row: Transaction)
    | OpenJob(row: Transaction)
    | CorrectJob(account: Uuid)

  datatype Error =
    | InvalidAmount | SameAccountTransfer | EmptyIdempotencyKey | InvalidCurrency
    | AccountNotFound | CurrencyMismatch | IdempotencyConflict
    | InsufficientFunds | OutOfRange | SystemError

  /** The statement a session is about to run, or how it ended; `at` is its place in the log. */
  datatype Phase =
    | Validate | InsertAccount | InsertRow | PostFirst | PostSecond | UpdateFirst | UpdateSecond
    | ReadSum | StartWrite | WriteAmount
    | Ready | Committed(at: nat) | Aborted(error: Error)

  datatype Session = Session(
    job: Job, phase: Phase, rows: map<Uuid, Account>, ids: seq<int>,
    sum: int, latest: int, readLen: nat, writeLen: nat)

  datatype Entry = Entry(session: nat, commit: Commit)

  datatype State = State(tables: Tables, sessions: seq<Session>, nextId: int, log: seq<Entry>)

  function Begin(job: Job): Session {
    Session(job, if job.CorrectJob? then ReadSum else Validate, map[], [], 0, 0, 0, 0)
  }

  predicate Active(x: Session) {
    !x.phase.Committed? && !x.phase.Aborted?
  }

  function Abort(x: Session, e: Error): Session {
    x.(phase := Aborted(e), rows := map[])
  }

  // ---- one statement of a session ----

  /** validateRequest: the first check that fails, and none exactly for a well-formed request. */
  function RequestError(row: Transaction): (e: Option<Error>)
    ensures e.None? <==> WellFormed(row)
  {
    if row.amount <= 0 then Some(InvalidAmount)
    else if row.from == row.to then Some(SameAccountTransfer)
    else if row.key == NIL then Some(EmptyIdempotencyKey)
    else if !ValidCurrency(row.currency) then Some(InvalidCurrency)
    else None
  }

  /** The account of the first balance update: the smaller UUID. */
  function Lo(row: Transaction): Uuid {
    if row.to < row.from then row.to else row.from
  }

  function Hi(row: Transaction): Uuid {
    if row.to < row.from then row.from else row.to
  }

  function Id(x: Session, k: nat): int {
    if k < |x.ids| then x.ids[k] else 0
  }

  /** Whether the balance UPDATE of account `a` in this transfer finds a row it may change. */
  predicate Payable(t: Tables, row: Transaction, a: Uuid) {
    && a in t.accounts
    && if a == row.from then t.accounts[a].amount >= row.amount else t.accounts[a].amount + row.amount <= MAX_INT64
  }

  function Updated(t: Tables, x: Session, row: Transaction, a: Uuid): Account
    requires a in t.accounts
  {
    if a == row.from then Debited(t.accounts[a], row.amount, Id(x, 0))
    else Credited(t.accounts[a], row.amount, Id(x, 1))
  }

  /** How the balance UPDATE of account `a` fails: no row for a debit reads as too little money. */
  function UpdateError(t: Tables, row: Transaction, a: Uuid): Option<Error> {
    if Payable(t, row, a) then None
    else if a == row.from then Some(InsufficientFunds)
    else if a !in t.accounts then Some(AccountNotFound)
    else Some(OutOfRange)
  }

  /** What each refusal of a transfer says about the request and the tables. */
  predicate Justifies(t: Tables, row: Transaction, e: Error) {
    match e
    case InvalidAmount => row.amount <= 0
    case SameAccountTransfer => row.amount > 0 && row.from == row.to
    case EmptyIdempotencyKey => row.amount > 0 && row.from != row.to && row.key == NIL
    case InvalidCurrency =>
      row.amount > 0 && row.from != row.to && row.key != NIL && !(1 <= row.currency <= 4)
    case AccountNotFound => WellFormed(row) && (row.from !in t.accounts || row.to !in t.accounts)
    case CurrencyMismatch =>
      && row.from in t.accounts && row.to in t.accounts
      && (t.accounts[row.from].currency != row.currency || t.accounts[row.to].currency != row.currency)
      && WellFormed(row)
    case IdempotencyConflict => exists i :: 0 <= i < |t.transactions| && t.transactions[i].key == row.key
    case InsufficientFunds => row.from in t.accounts && t.accounts[row.from].amount < row.amount
    case OutOfRange => row.to in t.accounts && t.accounts[row.to].amount + row.amount > MAX_INT64
    case SystemError => false
  }

  /** validateRequest answers an error exactly when that error is justified by the request alone. */
  lemma RequestErrorMeaning(t: Tables, row: Transaction, e: Error)
    requires e.InvalidAmount? || e.SameAccountTransfer? || e.EmptyIdempotencyKey? || e.InvalidCurrency?
    ensures RequestError(row) == Some(e) <==> Justifies(t, row, e)
  {
  }

  function UpdateRow(t: Tables, x: Session, row: Transaction, a: Uuid, next: Phase): Session {
    var e := UpdateError(t, row, a);
    if e.Some? then Abort(x, e.value) else x.(phase := next, rows := x.rows[a := Updated(t, x, row, a)])
  }

  predicate Cleared(t: Tables, row: Transaction) {
    && WellFormed(row) && row.from in t.accounts && row.to in t.accounts
    && t.accounts[row.from].currency == row.currency == t.accounts[row.to].currency
  }

  function AdvanceTransfer(t: Tables, n: int, x: Session, row: Transaction): Session {
    match x.phase
    case Validate =>
      if RequestError(row).Some? then Abort(x, RequestError(row).value)
      else if row.from !in t.accounts || row.to !in t.accounts then Abort(x, AccountNotFound)
      else if !Cleared(t, row) then Abort(x, CurrencyMismatch)
      else x.(phase := InsertRow)
    case InsertRow =>
      if KeyUsed(t.transactions, row.key) then Abort(x, IdempotencyConflict)
      else if row.from !in t.accounts || row.to !in t.accounts then Abort(x, SystemError)
      else x.(phase := PostFirst)
    case PostFirst => x.(phase := PostSecond, ids := x.ids + [n])
    case PostSecond => x.(phase := UpdateFirst, ids := x.ids + [n])
    case UpdateFirst => UpdateRow(t, x, row, Lo(row), UpdateSecond)
    case UpdateSecond => UpdateRow(t, x, row, Hi(row), Ready)
    case _ => x
  }

  function AdvanceOpen(t: Tables, n: int, x: Session, row: Transaction): Session {
    match x.phase
    case Validate =>
      if row.currency == CURRENCY_UNSPECIFIED then Abort(x, InvalidCurrency) else x.(phase := InsertAccount)
    case InsertAccount =>
      if row.to in t.accounts then Abort(x, SystemError)
      else
        x.(phase := if row.amount > 0 then InsertRow else Ready,
           rows := x.rows[row.to := Account(0, row.currency, 0)])
    case InsertRow =>
      if KeyUsed(t.transactions, row.key) then Abort(x, IdempotencyConflict) else x.(phase := PostFirst)
    case PostFirst => x.(phase := UpdateFirst, ids := x.ids + [n])
    case UpdateFirst =>
      if row.to !in x.rows then Abort(x, AccountNotFound)
      else if x.rows[row.to].amount + row.amount > MAX_INT64 then Abort(x, OutOfRange)
      else x.(phase := Ready, rows := x.rows[row.to := Credited(x.rows[row.to], row.amount, Id(x, 0))])
    case _ => x
  }

  /** A correction reads the sum in one statement and overwrites the row in another; the MAX(id)
      subquery of the UPDATE sees what was committed when that statement started. */
  function AdvanceCorrect(t: Tables, x: Session, a: Uuid): Session {
    match x.phase
    case ReadSum =>
      var sum := Total(t.postings, a);
      if MIN_INT64 <= sum <= MAX_INT64 then x.(phase := StartWrite, sum := sum, readLen := |t.postings|)
      else Abort(x, SystemError)
    case StartWrite => x.(phase := WriteAmount, latest := MaxId(t.postings, a))
    case WriteAmount =>
      if a !in t.accounts || x.sum < 0 then Abort(x, SystemError)
      else
        x.(phase := Ready, writeLen := |t.postings|,
           rows := map[a := Account(x.sum, t.accounts[a].currency, x.latest)])
    case _ => x
  }

  function Advance(t: Tables, n: int, x: Session): Session {
    match x.job
    case TransferJob(row) => AdvanceTransfer(t, n, x, row)
    case OpenJob(row) => AdvanceOpen(t, n, x, row)
    case CorrectJob(a) => AdvanceCorrect(t, x, a)
  }

  predicate Allocates(x: Session) {
    x.phase.PostFirst? || x.phase.PostSecond?
  }

  // ---- commit ----

  function RowsOf(x: Session): seq<Transaction> {
    match x.job
    case TransferJob(row) => [row]
    case OpenJob(row) => if row.amount > 0 then [row] else []
    case CorrectJob(_) => []
  }

  function PostingsOf(x: Session): seq<Posting> {
    match x.job
    case TransferJob(row) =>
      [Posting(Id(x, 0), row.id, row.from, -row.amount), Posting(Id(x, 1), row.id, row.to, row.amount)]
    case OpenJob(row) => if row.amount > 0 then [Posting(Id(x, 0), row.id, row.to, row.amount)] else []
    case CorrectJob(_) => []
  }

  /** Committing makes the session's own rows visible, whatever they are. */
  function Installed(t: Tables, x: Session): Tables {
    Tables(t.accounts + x.rows, t.transactions + RowsOf(x), t.postings + PostingsOf(x))
  }

  function CommitOf(x: Session): Commit {
    match x.job
    case TransferJob(row) => Transferred(row, Id(x, 0), Id(x, 1))
    case OpenJob(row) => if row.amount > 0 then Opened(row, Id(x, 0)) else OpenedEmpty(row.to, row.currency)
    case CorrectJob(a) => Corrected(a, x.sum, x.latest)
  }

  // ---- waiting ----

  /** The session has inserted its transaction row and so holds its idempotency key. */
  predicate Reserves(x: Session) {
    && !x.job.CorrectJob?
    && (x.job.OpenJob? ==> x.job.row.amount > 0)
    && (x.phase.PostFirst? || x.phase.PostSecond? || x.phase.UpdateFirst? || x.phase.UpdateSecond? || x.phase.Ready?)
  }

  /** The committed account row that the next statement has to lock. */
  function Target(x: Session): Option<Uuid> {
    match x.job
    case TransferJob(row) =>
      if x.phase.UpdateFirst? then Some(Lo(row)) else if x.phase.UpdateSecond? then Some(Hi(row)) else None
    case OpenJob(_) => None
    case CorrectJob(a) => if x.phase.WriteAmount? then Some(a) else None
  }

  predicate WaitsForKey(s: State, i: nat, j: nat)
    requires i < |s.sessions| && j < |s.sessions|
  {
    var x, y := s.sessions[i], s.sessions[j];
    i != j && !x.job.CorrectJob? && x.phase.InsertRow? && Reserves(y) && y.job.row.key == x.job.row.key
  }

  predicate WaitsForRow(s: State, i: nat, j: nat)
    requires i < |s.sessions| && j < |s.sessions|
  {
    var a := Target(s.sessions[i]);
    i != j && a.Some? && a.value in s.tables.accounts && a.value in s.sessions[j].rows
  }

  predicate Blocked(s: State, i: nat)
    requires i < |s.sessions|
  {
    exists j :: 0 <= j < |s.sessions| && (WaitsForKey(s, i, j) || WaitsForRow(s, i, j))
  }

  // ---- the step machine ----

  datatype Event = Arrive(job: Job) | Step(i: nat) | Reject(i: nat) | Fail(i: nat)

  predicate FreshId(s: State, id: Uuid) {
    && !IdUsed(s.tables.transactions, id)
    && forall j :: 0 <= j < |s.sessions| && !s.sessions[j].job.CorrectJob? ==> s.sessions[j].job.row.id != id
  }

  /** UUIDs drawn by the service are new; a correction starts after its account was read. */
  predicate Fresh(s: State, job: Job) {
    match job
    case TransferJob(row) => FreshId(s, row.id)
    case OpenJob(row) =>
      && FreshId(s, row.id) && row.from == row.to && row.amount >= 0 && row.to !in s.tables.accounts
      && forall j :: 0 <= j < |s.sessions| && s.sessions[j].job.OpenJob? ==> s.sessions[j].job.row.to != row.to
    case CorrectJob(a) => a in s.tables.accounts
  }

  predicate Enabled(s: State, e: Event) {
    match e
    case Arrive(job) => Fresh(s, job)
    case Step(i) => i < |s.sessions| && Active(s.sessions[i]) && !Blocked(s, i)
    // a debit whose committed row is short when the statement starts is refused without waiting
    case Reject(i) =>
      && i < |s.sessions| && s.sessions[i].job.TransferJob?
      && var x := s.sessions[i];
         Target(x) == Some(x.job.row.from) && x.job.row.from in s.tables.accounts
         && s.tables.accounts[x.job.row.from].amount < x.job.row.amount
    // any other failure: a lost connection, a cancelled request, a refused commit
    case Fail(i) => i < |s.sessions| && Active(s.sessions[i])
  }

  function Do(s: State, e: Event): State
    requires Enabled(s, e)
  {
    match e
    case Arrive(job) => s.(sessions := s.sessions + [Begin(job)])
    case Step(i) =>
      var x := s.sessions[i];
      if x.phase.Ready? then
        State(Installed(s.tables, x),
              s.sessions[i := x.(phase := Committed(|s.log|), rows := map[])],
              s.nextId,
              s.log + [Entry(i, CommitOf(x))])
      else
        s.(sessions := s.sessions[i := Advance(s.tables, s.nextId, x)],
           nextId := if Allocates(x) then s.nextId + 1 else s.nextId)
    case Reject(i) => s.(sessions := s.sessions[i := Abort(s.sessions[i], InsufficientFunds)])
    case Fail(i) => s.(sessions := s.sessions[i := Abort(s.sessions[i], SystemError)])
  }

  predicate Runs(s: State, es: seq<Event>)
    decreases |es|, 0
  {
    es == [] || (Runs(s, es[..|es| - 1]) && Enabled(After(s, es[..|es| - 1]), es[|es| - 1]))
  }

  function After(s: State, es: seq<Event>): State
    requires Runs(s, es)
    decreases |es|, 1
  {
    if es == [] then s else Do(After(s, es[..|es| - 1]), es[|es| - 1])
  }

  predicate Initial(s: State) {
    && s.sessions == [] && s.log == [] && s.nextId > 0
    && forall i :: 0 <= i < |s.tables.postings| ==> s.tables.postings[i].id < s.nextId
  }

  // ---- the invariant ----

  function Pending(t: Tables, x: Session, row: Transaction): map<Uuid, Account>
    requires row.from in t.accounts && row.to in t.accounts
  {
    if x.phase.UpdateSecond? then map[Lo(row) := Updated(t, x, row, Lo(row))]
    else if x.phase.Ready? then map[Lo(row) := Updated(t, x, row, Lo(row)), Hi(row) := Updated(t, x, row, Hi(row))]
    else map[]
  }

  /** What a live transfer has done: each row it holds is one update away from the committed row. */
  predicate TransferOk(t: Tables, x: Session, row: Transaction) {
    match x.phase
    case Validate => |x.ids| == 0 && x.rows == map[]
    case InsertRow => |x.ids| == 0 && x.rows == map[] && Cleared(t, row)
    case PostFirst => |x.ids| == 0 && x.rows == map[] && Cleared(t, row)
    case PostSecond => |x.ids| == 1 && x.rows == map[] && Cleared(t, row)
    case UpdateFirst => |x.ids| == 2 && x.rows == map[] && Cleared(t, row)
    case UpdateSecond => |x.ids| == 2 && Cleared(t, row) && Payable(t, row, Lo(row)) && x.rows == Pending(t, x, row)
    case Ready =>
      && |x.ids| == 2 && Cleared(t, row)
      && Payable(t, row, Lo(row)) && Payable(t, row, Hi(row)) && x.rows == Pending(t, x, row)
    case _ => false
  }

  predicate OpenOk(t: Tables, x: Session, row: Transaction) {
    && row.to !in t.accounts && row.from == row.to && row.amount >= 0
    && (!x.phase.Validate? ==> row.currency != CURRENCY_UNSPECIFIED)
    && var blank := Account(0, row.currency, 0);
       match x.phase
       case Validate => |x.ids| == 0 && x.rows == map[]
       case InsertAccount => |x.ids| == 0 && x.rows == map[]
       case InsertRow => |x.ids| == 0 && row.amount > 0 && x.rows == map[row.to := blank]
       case PostFirst => |x.ids| == 0 && row.amount > 0 && x.rows == map[row.to := blank]
       case UpdateFirst => |x.ids| == 1 && row.amount > 0 && x.rows == map[row.to := blank]
       case Ready =>
         if row.amount > 0 then
           |x.ids| == 1 && row.amount <= MAX_INT64 && x.rows == map[row.to := Credited(blank, row.amount, Id(x, 0))]
         else |x.ids| == 0 && x.rows == map[row.to := blank]
       case _ => false
  }

  predicate CorrectOk(t: Tables, x: Session, a: Uuid) {
    && a in t.accounts && |x.ids| == 0
    && (!x.phase.ReadSum? ==> x.readLen <= |t.postings| && x.sum == Total(t.postings[..x.readLen], a))
    && match x.phase
       case ReadSum => x.rows == map[]
       case StartWrite => x.rows == map[]
       case WriteAmount => x.rows == map[]
       case Ready =>
         && x.sum >= 0 && x.rows == map[a := Account(x.sum, t.accounts[a].currency, x.latest)]
         && x.readLen <= x.writeLen <= |t.postings| && Total(t.postings[x.writeLen..], a) == 0
       case _ => false
  }

  predicate JobOk(t: Tables, x: Session) {
    match x.job
    case TransferJob(row) => TransferOk(t, x, row)
    case OpenJob(row) => OpenOk(t, x, row)
    case CorrectJob(a) => CorrectOk(t, x, a)
  }

  predicate SessionOk(t: Tables, n: int, x: Session) {
    && (forall k :: 0 <= k < |x.ids| ==> 0 < x.ids[k] < n)
    && (forall k, l :: 0 <= k < l < |x.ids| ==> x.ids[k] != x.ids[l])
    && (Active(x) ==>
          && JobOk(t, x)
          && (!x.job.CorrectJob? ==> !IdUsed(t.transactions, x.job.row.id))
          && (Reserves(x) ==> !KeyUsed(t.transactions, x.job.row.key))
          && (forall k :: 0 <= k < |x.ids| ==> !PostingUsed(t.postings, x.ids[k])))
    && (!Active(x) ==> x.rows == map[])
    && (x.phase.Committed? ==> forall r :: r in RowsOf(x) ==> r in t.transactions)
  }

  /** Two sessions never share a row lock, a held key, a posting id or a drawn UUID. */
  predicate Apart(x: Session, y: Session) {
    && x.rows.Keys !! y.rows.Keys
    && (Reserves(x) && Reserves(y) ==> x.job.row.key != y.job.row.key)
    && (forall k, l :: 0 <= k < |x.ids| && 0 <= l < |y.ids| ==> x.ids[k] != y.ids[l])
    && (!x.job.CorrectJob? && !y.job.CorrectJob? ==> x.job.row.id != y.job.row.id)
    && (x.job.OpenJob? && y.job.OpenJob? ==> x.job.row.to != y.job.row.to)
  }

  function Commits(log: seq<Entry>): seq<Commit> {
    seq(|log|, k requires 0 <= k < |log| => log[k].commit)
  }

  /** The log lists every committed session once, in commit order, and nothing else. */
  ghost predicate Traced(s: State) {
    && (forall k :: 0 <= k < |s.log| ==>
          s.log[k].session < |s.sessions|
          && s.sessions[s.log[k].session].phase == Committed(k)
          && s.log[k].commit == CommitOf(s.sessions[s.log[k].session]))
    && (forall i :: 0 <= i < |s.sessions| && s.sessions[i].phase.Committed? ==>
          s.sessions[i].phase.at < |s.log| && s.log[s.sessions[i].phase.at].session == i)
  }

  ghost predicate Refines(s: State, t0: Tables) {
    Serial(t0, Commits(s.log)) && s.tables == Replay(t0, Commits(s.log))
  }

  ghost predicate AllOk(s: State) {
    && s.nextId > 0
    && (forall i :: 0 <= i < |s.tables.postings| ==> s.tables.postings[i].id < s.nextId)
    && (forall i :: 0 <= i < |s.sessions| ==> SessionOk(s.tables, s.nextId, s.sessions[i]))
    && (forall i, j :: 0 <= i < |s.sessions| && 0 <= j < |s.sessions| && i != j ==> Apart(s.sessions[i], s.sessions[j]))
  }

  ghost predicate Inv(s: State, t0: Tables) {
    Refines(s, t0) && AllOk(s) && Traced(s)
  }

  // ---- the invariant is kept ----

  lemma TransferAdvances(t: Tables, n: int, x: Session, row: Transaction)
    requires TransferOk(t, x, row) && !x.phase.Ready?
    ensures var y := AdvanceTransfer(t, n, x, row);
            && y.job == x.job && (Active(y) ==> TransferOk(t, y, row)) && (!Active(y) ==> y.rows == map[])
            && y.ids == x.ids + (if Allocates(x) then [n] else [])
            && (Active(y) && Reserves(y) ==> Reserves(x) || !KeyUsed(t.transactions, row.key) || x.phase.Validate?)
            && (x.phase.Validate? ==> !Reserves(y)) && !y.phase.Committed?
  {
  }

  lemma AdvanceTransferOk(t: Tables, n: int, x: Session, row: Transaction)
    requires SessionOk(t, n, x) && x.job == TransferJob(row) && Active(x) && !x.phase.Ready? && n > 0
    requires forall i :: 0 <= i < |t.postings| ==> t.postings[i].id < n
    ensures SessionOk(t, if Allocates(x) then n + 1 else n, AdvanceTransfer(t, n, x, row))
  {
    TransferAdvances(t, n, x, row);
    assert !PostingUsed(t.postings, n);
  }

  lemma AdvanceOpenOk(t: Tables, n: int, x: Session, row: Transaction)
    requires SessionOk(t, n, x) && x.job == OpenJob(row) && Active(x) && !x.phase.Ready? && n > 0
    requires forall i :: 0 <= i < |t.postings| ==> t.postings[i].id < n
    ensures SessionOk(t, if Allocates(x) then n + 1 else n, AdvanceOpen(t, n, x, row))
  {
    var y := AdvanceOpen(t, n, x, row);
    if Active(y) {
      assert OpenOk(t, y, row);
    }
  }

  lemma AdvanceCorrectOk(t: Tables, n: int, x: Session, a: Uuid)
    requires SessionOk(t, n, x) && x.job == CorrectJob(a) && Active(x) && !x.phase.Ready?
    ensures SessionOk(t, n, AdvanceCorrect(t, x, a)) && !Allocates(x)
  {
    assert t.postings[..|t.postings|] == t.postings;
    assert t.postings[|t.postings|..] == [];
  }

  lemma AdvanceOk(t: Tables, n: int, x: Session)
    requires SessionOk(t, n, x) && Active(x) && !x.phase.Ready? && n > 0
    requires forall i :: 0 <= i < |t.postings| ==> t.postings[i].id < n
    ensures SessionOk(t, if Allocates(x) then n + 1 else n, Advance(t, n, x))
  {
    match x.job
    case TransferJob(row) => AdvanceTransferOk(t, n, x, row);
    case OpenJob(row) => AdvanceOpenOk(t, n, x, row);
    case CorrectJob(a) => AdvanceCorrectOk(t, n, x, a);
  }

  lemma RowsKnown(t: Tables, n: int, x: Session, a: Uuid)
    requires SessionOk(t, n, x) && a in x.rows
    ensures a in t.accounts || (x.job.OpenJob? && a == x.job.row.to)
  {
  }

  /** What one statement may add to a session: the row it had to lock, its own new account, a fresh
      posting id, or its key. */
  lemma AdvanceAdds(t: Tables, n: int, x: Session)
    requires Active(x) && !x.phase.Ready?
    ensures var y := Advance(t, n, x);
            && y.job == x.job
            && y.ids == x.ids + (if Allocates(x) && y.ids != x.ids then [n] else [])
            && (forall a :: a in y.rows ==>
                  a in x.rows || (Target(x) == Some(a) && a in t.accounts) || (x.job.OpenJob? && a == x.job.row.to))
            && (Reserves(y) ==> Reserves(x) || x.phase.InsertRow? || x.phase.InsertAccount?)
            && (Reserves(y) && x.phase.InsertAccount? ==> x.job.OpenJob? && x.job.row.amount <= 0)
            && !y.phase.Committed?
  {
  }

  lemma ApartAfter(x: Session, z: Session, y: Session, n: int)
    requires Apart(x, y) && Apart(y, x) && z.job == x.job && (z.ids == x.ids || z.ids == x.ids + [n])
    requires forall k :: 0 <= k < |y.ids| ==> y.ids[k] < n
    requires forall a :: a in z.rows ==> a in x.rows || a !in y.rows
    requires Reserves(z) && Reserves(y) ==> Reserves(x) || x.job.row.key != y.job.row.key
    ensures Apart(z, y) && Apart(y, z)
  {
  }

  /** The account that a session is opening is nobody else's. */
  lemma OwnAccount(t: Tables, n: int, x: Session, y: Session)
    requires SessionOk(t, n, x) && SessionOk(t, n, y) && Apart(x, y) && Active(x) && x.job.OpenJob?
    ensures x.job.row.to !in y.rows
  {
    if x.job.row.to in y.rows {
      RowsKnown(t, n, y, x.job.row.to);
    }
  }

  lemma AdvanceApart(s: State, i: nat, j: nat)
    requires AllOk(s) && i < |s.sessions| && j < |s.sessions| && i != j
    requires Active(s.sessions[i]) && !s.sessions[i].phase.Ready? && !Blocked(s, i)
    ensures Apart(Advance(s.tables, s.nextId, s.sessions[i]), s.sessions[j])
    ensures Apart(s.sessions[j], Advance(s.tables, s.nextId, s.sessions[i]))
  {
    hide Advance;
    hide JobOk;
    hide Apart;
    var x, y := s.sessions[i], s.sessions[j];
    var z := Advance(s.tables, s.nextId, x);
    AdvanceAdds(s.tables, s.nextId, x);
    assert SessionOk(s.tables, s.nextId, x) && SessionOk(s.tables, s.nextId, y) && Apart(x, y) && Apart(y, x);
    assert !WaitsForKey(s, i, j) && !WaitsForRow(s, i, j);
    if x.job.OpenJob? {
      OwnAccount(s.tables, s.nextId, x, y);
    }
    hide SessionOk;
    hide AllOk;
    hide Blocked;
    ApartAfter(x, z, y, s.nextId);
  }

  /** The heart of the refinement: installing a ready session's rows is applying its commit to the
      tables as they are now, not as they were when its statements ran. */
  lemma CommitIsAtomic(t: Tables, n: int, x: Session)
    requires SessionOk(t, n, x) && x.phase.Ready?
    ensures Admissible(t, CommitOf(x)) && Installed(t, x) == Apply(t, CommitOf(x))
  {
    var u, v := Installed(t, x), Apply(t, CommitOf(x));
    assert u.accounts == v.accounts;
    if x.job.OpenJob? && x.job.row.amount == 0 {
      assert t.transactions + [] == t.transactions && t.postings + [] == t.postings;
    }
  }

  lemma InstalledQueries(t: Tables, x: Session)
    ensures var u := Installed(t, x);
            && (forall k :: KeyUsed(u.transactions, k) ==>
                  KeyUsed(t.transactions, k) || (!x.job.CorrectJob? && RowsOf(x) != [] && k == x.job.row.key))
            && (forall k :: IdUsed(u.transactions, k) ==>
                  IdUsed(t.transactions, k) || (!x.job.CorrectJob? && k == x.job.row.id))
            && (forall k :: PostingUsed(u.postings, k) ==>
                  PostingUsed(t.postings, k) || exists l :: 0 <= l < |PostingsOf(x)| && PostingsOf(x)[l].id == k)
  {
    var u := Installed(t, x);
    forall k | PostingUsed(u.postings, k) && !PostingUsed(t.postings, k)
      ensures exists l :: 0 <= l < |PostingsOf(x)| && PostingsOf(x)[l].id == k
    {
      var l :| 0 <= l < |u.postings| && u.postings[l].id == k;
      assert PostingsOf(x)[l - |t.postings|].id == k;
    }
  }

  lemma TransferKept(t: Tables, u: Tables, y: Session, row: Transaction)
    requires TransferOk(t, y, row)
    requires forall a :: a in t.accounts ==> a in u.accounts && u.accounts[a].currency == t.accounts[a].currency
    requires forall a :: a in t.accounts && a in y.rows ==> u.accounts[a] == t.accounts[a]
    ensures TransferOk(u, y, row)
  {
  }

  /** A ready session holds the row of every account it has postings for. */
  lemma PostedHeld(t: Tables, n: int, x: Session, a: Uuid)
    requires SessionOk(t, n, x) && x.phase.Ready? && a !in x.rows
    ensures forall k :: 0 <= k < |PostingsOf(x)| ==> PostingsOf(x)[k].account != a
  {
  }

  lemma CorrectKept(t: Tables, n: int, x: Session, y: Session, a: Uuid)
    requires SessionOk(t, n, x) && x.phase.Ready? && SessionOk(t, n, y) && Apart(x, y)
    requires Active(y) && y.job == CorrectJob(a)
    ensures CorrectOk(Installed(t, x), y, a)
  {
    hide Total;
    hide PostingsOf;
    var u := Installed(t, x);
    assert CorrectOk(t, y, a);
    if a in y.rows {
      PostedHeld(t, n, x, a);
    } else {
      CommitIsAtomic(t, n, x);
    }
    if !y.phase.ReadSum? {
      assert u.postings[..y.readLen] == t.postings[..y.readLen];
    }
    if y.phase.Ready? {
      assert u.postings[y.writeLen..] == t.postings[y.writeLen..] + PostingsOf(x);
      TotalConcat(t.postings[y.writeLen..], PostingsOf(x), a);
      NoPostings(PostingsOf(x), a);
    }
  }

  /** Another session's commit does not disturb what a session has done so far. */
  lemma JobKept(t: Tables, n: int, x: Session, y: Session)
    requires SessionOk(t, n, x) && x.phase.Ready? && SessionOk(t, n, y) && Active(y) && Apart(x, y)
    ensures JobOk(Installed(t, x), y)
  {
    match y.job
    case TransferJob(row) =>
      CommitIsAtomic(t, n, x);
      TransferKept(t, Installed(t, x), y, row);
    case OpenJob(row) =>
      if row.to in x.rows {
        RowsKnown(t, n, x, row.to);
      }
    case CorrectJob(a) =>
      CorrectKept(t, n, x, y, a);
  }

  lemma OtherKept(t: Tables, n: int, x: Session, y: Session)
    requires SessionOk(t, n, x) && x.phase.Ready? && SessionOk(t, n, y) && Apart(x, y)
    ensures SessionOk(Installed(t, x), n, y)
  {
    InstalledQueries(t, x);
    if Active(y) {
      JobKept(t, n, x, y);
      hide JobOk;
    }
  }

  lemma FinishedApart(x: Session, y: Session, z: Session)
    requires Apart(x, y) && Apart(y, x) && z.rows == map[] && !Active(z) && z.job == x.job && z.ids == x.ids
    ensures Apart(z, y) && Apart(y, z)
  {
  }

  /** Changing one session leaves the others alone. */
  lemma Replaced(s: State, i: nat, y: Session, n: int)
    requires AllOk(s) && i < |s.sessions| && n >= s.nextId && SessionOk(s.tables, n, y)
    requires forall j :: 0 <= j < |s.sessions| && j != i ==> Apart(y, s.sessions[j]) && Apart(s.sessions[j], y)
    ensures AllOk(s.(sessions := s.sessions[i := y], nextId := n))
  {
  }

  lemma TracedReplaced(s: State, i: nat, y: Session)
    requires Traced(s) && i < |s.sessions| && Active(s.sessions[i]) && !y.phase.Committed?
    ensures Traced(s.(sessions := s.sessions[i := y]))
  {
  }

  lemma CommitAllOk(s: State, i: nat)
    requires AllOk(s) && Enabled(s, Step(i)) && s.sessions[i].phase.Ready?
    ensures AllOk(Do(s, Step(i)))
  {
    var x, u := s.sessions[i], Do(s, Step(i));
    CommitIsAtomic(s.tables, s.nextId, x);
    assert forall r :: r in RowsOf(x) ==> r in u.tables.transactions;
    assert SessionOk(u.tables, u.nextId, u.sessions[i]);
    assert forall k :: 0 <= k < |PostingsOf(x)| ==> PostingsOf(x)[k].id < u.nextId;
    forall j | 0 <= j < |u.sessions| && j != i
      ensures SessionOk(u.tables, u.nextId, u.sessions[j])
      ensures Apart(u.sessions[i], u.sessions[j]) && Apart(u.sessions[j], u.sessions[i])
    {
      OtherKept(s.tables, s.nextId, x, s.sessions[j]);
      FinishedApart(x, s.sessions[j], u.sessions[i]);
    }
    hide Apart;
    hide SessionOk;
  }

  lemma CommitTraced(s: State, i: nat)
    requires Traced(s) && Enabled(s, Step(i)) && s.sessions[i].phase.Ready?
    ensures Traced(Do(s, Step(i)))
  {
    var u := Do(s, Step(i));
    assert CommitOf(u.sessions[i]) == CommitOf(s.sessions[i]);
  }

  lemma CommitRefines(s: State, t0: Tables, i: nat)
    requires Refines(s, t0) && Enabled(s, Step(i)) && s.sessions[i].phase.Ready?
    requires SessionOk(s.tables, s.nextId, s.sessions[i])
    ensures Refines(Do(s, Step(i)), t0)
  {
    var x := s.sessions[i];
    CommitIsAtomic(s.tables, s.nextId, x);
    SerialPush(t0, Commits(s.log), CommitOf(x));
    assert Commits(Do(s, Step(i)).log) == Commits(s.log) + [CommitOf(x)];
  }

  lemma CommitKept(s: State, t0: Tables, i: nat)
    requires Inv(s, t0) && Enabled(s, Step(i)) && s.sessions[i].phase.Ready?
    ensures Inv(Do(s, Step(i)), t0)
  {
    hide SessionOk;
    hide Apart;
    hide Do;
    CommitAllOk(s, i);
    CommitRefines(s, t0, i);
    CommitTraced(s, i);
  }

  lemma AbortKept(s: State, t0: Tables, i: nat, e: Error)
    requires Inv(s, t0) && i < |s.sessions| && Active(s.sessions[i])
    ensures Inv(s.(sessions := s.sessions[i := Abort(s.sessions[i], e)]), t0)
  {
    var x, y := s.sessions[i], Abort(s.sessions[i], e);
    forall j | 0 <= j < |s.sessions| && j != i ensures Apart(y, s.sessions[j]) && Apart(s.sessions[j], y) {
      FinishedApart(x, s.sessions[j], y);
    }
    assert SessionOk(s.tables, s.nextId, x);
    Replaced(s, i, y, s.nextId);
    TracedReplaced(s, i, y);
  }

  lemma StatementKept(s: State, t0: Tables, i: nat)
    requires Inv(s, t0) && Enabled(s, Step(i)) && !s.sessions[i].phase.Ready?
    ensures Inv(Do(s, Step(i)), t0)
  {
    var x, y := s.sessions[i], Advance(s.tables, s.nextId, s.sessions[i]);
    AdvanceOk(s.tables, s.nextId, x);
    AdvanceAdds(s.tables, s.nextId, x);
    hide Advance;
    hide SessionOk;
    hide Apart;
    forall j | 0 <= j < |s.sessions| && j != i ensures Apart(y, s.sessions[j]) && Apart(s.sessions[j], y) {
      AdvanceApart(s, i, j);
    }
    Replaced(s, i, y, if Allocates(x) then s.nextId + 1 else s.nextId);
    TracedReplaced(s, i, y);
  }

  lemma BeginOk(t: Tables, n: int, job: Job)
    requires job.CorrectJob? ==> job.account in t.accounts
    requires job.OpenJob? ==> job.row.to !in t.accounts && job.row.from == job.row.to && job.row.amount >= 0
    requires !job.CorrectJob? ==> !IdUsed(t.transactions, job.row.id)
    ensures SessionOk(t, n, Begin(job))
  {
  }

  lemma BeginApart(s: State, job: Job, y: Session)
    requires Fresh(s, job) && y in s.sessions
    ensures Apart(Begin(job), y) && Apart(y, Begin(job))
  {
  }

  lemma ArriveKept(s: State, t0: Tables, job: Job)
    requires Inv(s, t0) && Enabled(s, Arrive(job))
    ensures Inv(Do(s, Arrive(job)), t0)
  {
    var x := Begin(job);
    BeginOk(s.tables, s.nextId, job);
    forall j | 0 <= j < |s.sessions| ensures Apart(x, s.sessions[j]) && Apart(s.sessions[j], x) {
      BeginApart(s, job, s.sessions[j]);
    }
    hide SessionOk;
    hide Apart;
    hide Fresh;
  }

  lemma InvKept(s: State, t0: Tables, e: Event)
    requires Inv(s, t0) && Enabled(s, e)
    ensures Inv(Do(s, e), t0)
  {
    match e
    case Arrive(job) => ArriveKept(s, t0, job);
    case Step(i) => if s.sessions[i].phase.Ready? { CommitKept(s, t0, i); } else { StatementKept(s, t0, i); }
    case Reject(i) => AbortKept(s, t0, i, InsufficientFunds);
    case Fail(i) => AbortKept(s, t0, i, SystemError);
  }
}
