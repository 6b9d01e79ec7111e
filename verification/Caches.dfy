/** The two Redis caches agree with the tables they speed up: account currencies, kept as decimal
    text, and committed transactions, projected from events that may be lost, repeated or reordered. */
module Caches {
  import opened Uuids
  import opened Ledger
  import P = Protocol
  import G = Guarantees

  // ---- decimal text ----

  function Dec(n: nat): (s: string)
    ensures s != [] && forall i :: 0 <= i < |s| ==> '0' <= s[i] <= '9'
  {
    if n < 10 then [('0' as int + n) as char] else Dec(n / 10) + [('0' as int + n % 10) as char]
  }

  function Itoa(n: int): string {
    if n < 0 then "-" + Dec(-n) else Dec(n)
  }

  function ParseDec(s: string): Option<nat> {
    if s == [] then None
    else
      var c := s[|s| - 1];
      if !('0' <= c <= '9') then None
      else if |s| == 1 then Some((c - '0') as nat)
      else
        var init := ParseDec(s[..|s| - 1]);
        if init.None? then None else Some(10 * init.value + (c - '0') as nat)
  }

  function Atoi(s: string): Option<int> {
    if s == [] then None
    else
      var signed := s[0] == '-' || s[0] == '+';
      var n := ParseDec(if signed then s[1..] else s);
      if n.None? then None
      else
        var v: int := if s[0] == '-' then 0 - n.value else n.value;
        if MIN_INT64 <= v <= MAX_INT64 then Some(v) else None
  }

  lemma {:induction false} DecRoundTrip(n: nat)
    ensures ParseDec(Dec(n)) == Some(n)
  {
    if n >= 10 {
      DecRoundTrip(n / 10);
      assert Dec(n)[..|Dec(n)| - 1] == Dec(n / 10);
    }
  }

  lemma AtoiRoundTrip(n: int)
    requires MIN_INT64 <= n <= MAX_INT64
    ensures Atoi(Itoa(n)) == Some(n)
  {
    hide ParseDec;
    hide Dec;
    var s := Itoa(n);
    if n < 0 {
      DecRoundTrip(-n);
      assert s[0] == '-' && s[1..] == Dec(-n);
    } else {
      DecRoundTrip(n);
      assert s[0] != '-' && s[0] != '+';
    }
  }

  predicate Digits10(s: string) {
    s != [] && forall i :: 0 <= i < |s| ==> '0' <= s[i] <= '9'
  }

  lemma {:induction false} ParseDecMeaning(s: string)
    ensures ParseDec(s).Some? <==> Digits10(s)
  {
    if |s| > 1 {
      ParseDecMeaning(s[..|s| - 1]);
      assert forall i :: 0 <= i < |s| - 1 ==> s[..|s| - 1][i] == s[i];
    }
  }

  /** A text is a number exactly when it is digits after at most one sign, and fits in int64. */
  lemma AtoiMeaning(s: string)
    ensures var rest := if s != [] && (s[0] == '-' || s[0] == '+') then s[1..] else s;
            && (Atoi(s).Some? ==> Digits10(rest) && MIN_INT64 <= Atoi(s).value <= MAX_INT64)
            && (Atoi(s).None? && Digits10(rest) ==> ParseDec(rest).Some? && ParseDec(rest).value > MAX_INT64)
  {
    ParseDecMeaning(if s != [] && (s[0] == '-' || s[0] == '+') then s[1..] else s);
  }

  // ---- the currency cache ----

  /** The conversion of an int to the 16-bit currency type. */
  function Int16(n: int): (c: Currency)
    ensures (n - c) % 0x1_0000 == 0
  {
    (n + 0x8000) % 0x1_0000 - 0x8000
  }

  /** What a cached text stands for; a broken text is a miss. */
  function Decoded(s: string): Currency {
    var n := Atoi(s);
    if n.None? then CURRENCY_UNSPECIFIED else Int16(n.value)
  }

  lemma DecodedRoundTrip(c: Currency)
    ensures Decoded(Itoa(c)) == c
  {
    hide Atoi;
    hide Itoa;
    AtoiRoundTrip(c);
  }

  /** No stored currency is the one that stands for a miss. */
  predicate Known(accounts: map<Uuid, Account>) {
    forall a :: a in accounts ==> accounts[a].currency != CURRENCY_UNSPECIFIED
  }

  lemma {:induction false} SerialKnown(t: Tables, log: seq<Commit>)
    requires Serial(t, log) && Known(t.accounts)
    ensures Known(Replay(t, log).accounts)
  {
    if log != [] {
      SerialKnown(t, log[..|log| - 1]);
    }
  }

  /** A currency that a request has read, or has just opened an account with. */
  datatype Fact = Fact(account: Uuid, currency: Currency)

  predicate Holds(accounts: map<Uuid, Account>, f: Fact) {
    f.account in accounts && accounts[f.account].currency == f.currency
  }

  /** Every usable entry is the stored currency of an existing account. */
  predicate Truthful(accounts: map<Uuid, Account>, cache: map<Uuid, string>) {
    forall a :: a in cache && Decoded(cache[a]) != CURRENCY_UNSPECIFIED ==> Holds(accounts, Fact(a, Decoded(cache[a])))
  }

  /** The database, the cache, and the currencies that requests have learned and may still write. */
  datatype World = World(db: P.State, cache: map<Uuid, string>, learned: seq<Fact>)

  datatype Event =
    | Db(event: P.Event)
    | Select(account: Uuid)
    | AfterOpening(i: nat)
    | Fill(k: nat)
    | Expire(account: Uuid)
    | Spoil(account: Uuid, text: string)

  predicate Enabled(w: World, e: Event) {
    match e
    case Db(event) => P.Enabled(w.db, event)
    case Select(a) => a in w.db.tables.accounts
    // the request that opened an account goes on to cache its currency once it has committed
    case AfterOpening(i) =>
      i < |w.db.sessions| && w.db.sessions[i].job.OpenJob? && w.db.sessions[i].phase.Committed?
    case Fill(k) => k < |w.learned|
    case Expire(_) => true
    // a text in an old or broken format turns up
    case Spoil(_, text) => Atoi(text).None?
  }

  function Do(w: World, e: Event): World
    requires Enabled(w, e)
  {
    match e
    case Db(event) => w.(db := P.Do(w.db, event))
    case Select(a) => w.(learned := w.learned + [Fact(a, w.db.tables.accounts[a].currency)])
    case AfterOpening(i) =>
      var row := w.db.sessions[i].job.row;
      w.(learned := w.learned + [Fact(row.to, row.currency)])
    case Fill(k) => w.(cache := w.cache[w.learned[k].account := Itoa(w.learned[k].currency)])
    case Expire(a) => w.(cache := w.cache - {a})
    case Spoil(a, text) => w.(cache := w.cache[a := text])
  }

  predicate IsCached(w: World, f: Fact) {
    f.account in w.cache && Decoded(w.cache[f.account]) == f.currency
  }

  predicate Runs(w: World, es: seq<Event>)
    decreases |es|, 0
  {
    es == [] || (Runs(w, es[..|es| - 1]) && Enabled(After(w, es[..|es| - 1]), es[|es| - 1]))
  }

  function After(w: World, es: seq<Event>): World
    requires Runs(w, es)
    decreases |es|, 1
  {
    if es == [] then w else Do(After(w, es[..|es| - 1]), es[|es| - 1])
  }

  ghost predicate Inv(w: World, t0: Tables) {
    && P.Inv(w.db, t0) && Known(t0.accounts)
    && (forall k :: 0 <= k < |w.learned| ==> Holds(w.db.tables.accounts, w.learned[k]))
    && Truthful(w.db.tables.accounts, w.cache)
  }

  lemma {:induction false} OpenedStays(t: Tables, log: seq<Commit>, k: nat, f: Fact)
    requires Serial(t, log) && k < |log|
    requires match log[k]
             case Opened(row, _) => f == Fact(row.to, row.currency)
             case OpenedEmpty(account, currency) => f == Fact(account, currency)
             case _ => false
    ensures Holds(Replay(t, log).accounts, f)
  {
    if k < |log| - 1 {
      OpenedStays(t, log[..|log| - 1], k, f);
    }
  }

  /** An opening that has committed left its account there, in its currency. */
  lemma OpeningHolds(s: P.State, t0: Tables, i: nat)
    requires P.Inv(s, t0) && i < |s.sessions| && s.sessions[i].job.OpenJob? && s.sessions[i].phase.Committed?
    ensures Holds(s.tables.accounts, Fact(s.sessions[i].job.row.to, s.sessions[i].job.row.currency))
  {
    hide P.AllOk;
    var k := s.sessions[i].phase.at;
    assert P.Commits(s.log)[k] == P.CommitOf(s.sessions[i]);
    OpenedStays(t0, P.Commits(s.log), k, Fact(s.sessions[i].job.row.to, s.sessions[i].job.row.currency));
  }

  /** Writing a currency that the account has keeps the cache truthful. */
  lemma FillKept(w: World, t0: Tables, f: Fact)
    requires Inv(w, t0) && Holds(w.db.tables.accounts, f)
    ensures Inv(w.(cache := w.cache[f.account := Itoa(f.currency)]), t0)
  {
    hide P.Inv;
    hide Decoded;
    DecodedRoundTrip(f.currency);
  }

  /** Every step of the ledger, of the cache and of the requests that fill it keeps the cache truthful
      and what requests have learned true. */
  lemma EventKept(w: World, t0: Tables, e: Event)
    requires Inv(w, t0) && Enabled(w, e)
    ensures Inv(Do(w, e), t0)
    ensures Extends(w.db.tables, Do(w, e).db.tables)
  {
    hide P.Inv;
    match e
    case Db(event) =>
      P.InvKept(w.db, t0, event);
      G.EventExtends(w.db, t0, event);
    case AfterOpening(i) => OpeningHolds(w.db, t0, i);
    case Fill(k) => FillKept(w, t0, w.learned[k]);
    case _ =>
  }

  /** A fill caches what was learned, and an opening that has committed has its currency cached so. */
  lemma FillCaches(w: World, k: nat)
    requires Enabled(w, Fill(k))
    ensures IsCached(Do(w, Fill(k)), w.learned[k])
  {
    DecodedRoundTrip(w.learned[k].currency);
  }

  lemma OpeningCached(w: World, i: nat)
    requires Enabled(w, AfterOpening(i))
    ensures var u := Do(w, AfterOpening(i));
            && Enabled(u, Fill(|w.learned|))
            && IsCached(Do(u, Fill(|w.learned|)), Fact(w.db.sessions[i].job.row.to, w.db.sessions[i].job.row.currency))
  {
    FillCaches(Do(w, AfterOpening(i)), |w.learned|);
  }

  /** In every reachable state each usable cache entry is the stored currency. */
  lemma {:induction false} TruthfulInEveryRun(w: World, es: seq<Event>)
    requires P.Initial(w.db) && Known(w.db.tables.accounts) && w.cache == map[] && w.learned == []
    requires Runs(w, es)
    ensures Inv(After(w, es), w.db.tables)
    ensures Known(After(w, es).db.tables.accounts) && Truthful(After(w, es).db.tables.accounts, After(w, es).cache)
  {
    if es == [] {
      G.RunInv(w.db, []);
    } else {
      TruthfulInEveryRun(w, es[..|es| - 1]);
      EventKept(After(w, es[..|es| - 1]), w.db.tables, es[|es| - 1]);
    }
    SerialKnown(w.db.tables, P.Commits(After(w, es).db.log));
  }

  /** Whatever happens in between two statements of a request; a disabled event does not happen. */
  function Disturbed(w: World, es: seq<Event>): World {
    if es == [] then w
    else
      var u := Disturbed(w, es[..|es| - 1]);
      if Enabled(u, es[|es| - 1]) then Do(u, es[|es| - 1]) else u
  }

  lemma {:induction false} DisturbedKept(w: World, t0: Tables, es: seq<Event>)
    requires Inv(w, t0)
    ensures Inv(Disturbed(w, es), t0) && Extends(w.db.tables, Disturbed(w, es).db.tables)
  {
    if es != [] {
      DisturbedKept(w, t0, es[..|es| - 1]);
      var u := Disturbed(w, es[..|es| - 1]);
      if Enabled(u, es[|es| - 1]) {
        EventKept(u, t0, es[|es| - 1]);
      }
    }
  }

  datatype CurrencyError = NotFound | Mismatch | DatabaseError

  /** The verdict from the accounts table alone. */
  function CurrencyVerdict(accounts: map<Uuid, Account>, from: Uuid, to: Uuid, currency: Currency)
    : Option<CurrencyError>
  {
    if from !in accounts || to !in accounts then Some(NotFound)
    else if accounts[from].currency != currency || accounts[to].currency != currency then Some(Mismatch)
    else None
  }

  /** The verdict is the decision of the Validate step of a transfer: not found exactly when an account is
      missing, a mismatch exactly when one of the two currencies differs, and a match exactly when the
      step lets a well-formed request through. */
  lemma VerdictMeaning(t: Tables, n: int, x: P.Session, row: Transaction)
    requires x.phase.Validate?
    ensures var v := CurrencyVerdict(t.accounts, row.from, row.to, row.currency);
            && (v == Some(NotFound) <==> row.from !in t.accounts || row.to !in t.accounts)
            && (v == Some(Mismatch) <==>
                  && row.from in t.accounts && row.to in t.accounts
                  && (t.accounts[row.from].currency != row.currency || t.accounts[row.to].currency != row.currency))
            && v != Some(DatabaseError)
            && (WellFormed(row) ==>
                  && (v.None? <==> P.Cleared(t, row))
                  && (v.None? <==> P.AdvanceTransfer(t, n, x, row).phase == P.InsertRow)
                  && (v == Some(NotFound) <==> P.AdvanceTransfer(t, n, x, row).phase == P.Aborted(P.AccountNotFound))
                  && (v == Some(Mismatch) <==> P.AdvanceTransfer(t, n, x, row).phase == P.Aborted(P.CurrencyMismatch)))
  {
  }

  /** A match or a mismatch is for ever. */
  lemma VerdictStays(t: Tables, u: Tables, from: Uuid, to: Uuid, currency: Currency)
    requires Extends(t, u) && CurrencyVerdict(t.accounts, from, to, currency) != Some(NotFound)
    ensures CurrencyVerdict(u.accounts, from, to, currency) == CurrencyVerdict(t.accounts, from, to, currency)
  {
  }

  /** What happens before one statement of the validation, and whether that statement fails. */
  datatype Tick = Tick(events: seq<Event>, down: bool)

  predicate Quiet(script: seq<Tick>) {
    forall k :: 0 <= k < |script| ==> script[k] == Tick([], false)
  }

  predicate SomeDown(script: seq<Tick>) {
    exists k :: 0 <= k < |script| && script[k].down
  }

  /** One request that validates currencies while everybody else goes on. */
  class CurrencyValidator {
    ghost const start: Tables
    var world: World
    var script: seq<Tick>

    ghost predicate Valid()
      reads this
    {
      Inv(world, start)
    }

    constructor (ghost start: Tables, world: World, script: seq<Tick>)
      requires Inv(world, start)
      ensures Valid() && this.start == start && this.world == world && this.script == script
    {
      this.start, this.world, this.script := start, world, script;
    }

    method Await() returns (down: bool)
      requires Valid()
      modifies this`world, this`script
      ensures Valid() && Extends(old(world.db.tables), world.db.tables)
      ensures script == if old(script) == [] then [] else old(script)[1..]
      ensures down <==> old(script) != [] && old(script)[0].down
      ensures Quiet(old(script)) ==> Quiet(script) && world == old(world) && !down
      ensures SomeDown(script) || down ==> SomeDown(old(script))
    {
      hide Inv;
      if script == [] {
        return false;
      }
      var tick := script[0];
      DisturbedKept(world, start, tick.events);
      world := Disturbed(world, tick.events);
      script := script[1..];
      down := tick.down;
    }

    method SetAccountCurrency(a: Uuid, currency: Currency)
      requires Valid() && Holds(world.db.tables.accounts, Fact(a, currency))
      modifies this`world, this`script
      ensures Valid() && Extends(old(world.db.tables), world.db.tables)
      ensures SomeDown(script) ==> SomeDown(old(script))
      ensures Quiet(old(script)) ==>
                && Quiet(script) && world == old(world).(cache := world.cache)
                && world.cache == old(world.cache)[a := Itoa(currency)] && Decoded(world.cache[a]) == currency
    {
      hide Inv;
      hide Decoded;
      hide Itoa;
      DecodedRoundTrip(currency);
      var down := Await();
      if !down {
        FillKept(world, start, Fact(a, currency));
        world := world.(cache := world.cache[a := Itoa(currency)]);
      }
    }

    /** A miss, a failure and a broken text all read as unspecified; anything else is the stored currency. */
    method GetAccountCurrency(a: Uuid) returns (currency: Currency)
      requires Valid()
      modifies this`world, this`script
      ensures Valid() && Extends(old(world.db.tables), world.db.tables)
      ensures currency != CURRENCY_UNSPECIFIED ==>
                && Holds(world.db.tables.accounts, Fact(a, currency))
                && IsCached(world, Fact(a, currency))
      ensures old(script) != [] && !old(script)[0].down && a in world.cache ==> currency == Decoded(world.cache[a])
      ensures SomeDown(script) ==> SomeDown(old(script))
      ensures Quiet(old(script)) ==> Quiet(script) && world == old(world)
    {
      var down := Await();
      if down || a !in world.cache {
        return CURRENCY_UNSPECIFIED;
      }
      return Decoded(world.cache[a]);
    }

    /** One SELECT: exactly the existing accounts among the ids, with their currencies. */
    method GetCurrencies(ids: seq<Uuid>) returns (ok: bool, found: map<Uuid, Currency>)
      requires Valid()
      modifies this`world, this`script
      ensures Valid() && Extends(old(world.db.tables), world.db.tables)
      ensures ok ==> forall a :: a in found <==> a in ids && a in world.db.tables.accounts
      ensures forall a :: a in found ==> Holds(world.db.tables.accounts, Fact(a, found[a]))
      ensures SomeDown(script) || !ok ==> SomeDown(old(script))
      ensures Quiet(old(script)) ==> ok && Quiet(script) && world == old(world)
    {
      found := map[];
      var down := Await();
      if down {
        return false, found;
      }
      ok := true;
      var accounts := world.db.tables.accounts;
      for k := 0 to |ids|
        invariant forall a :: a in found <==> a in ids[..k] && a in accounts
        invariant forall a :: a in found ==> Holds(accounts, Fact(a, found[a]))
      {
        if ids[k] in accounts {
          found := found[ids[k] := accounts[ids[k]].currency];
        }
      }
    }

    /** The currency of one account: the cached one, or the selected one, which is then cached. */
    method Resolve(a: Uuid, cached: Currency, selected: map<Uuid, Currency>, ghost at: Tables)
      returns (found: bool, currency: Currency)
      requires Valid() && Extends(at, world.db.tables)
      requires cached != CURRENCY_UNSPECIFIED ==> Holds(at.accounts, Fact(a, cached))
      requires a in selected ==> Holds(at.accounts, Fact(a, selected[a]))
      modifies this`world, this`script
      ensures Valid() && Extends(at, world.db.tables)
      ensures found <==> cached != CURRENCY_UNSPECIFIED || a in selected
      ensures found ==> Holds(at.accounts, Fact(a, currency))
      ensures Quiet(old(script)) ==>
                && Quiet(script) && world.db == old(world.db)
                && (found && (cached == CURRENCY_UNSPECIFIED || IsCached(old(world), Fact(a, cached))) ==>
                      IsCached(world, Fact(a, currency)))
                && (forall f: Fact :: f.account != a && IsCached(old(world), f) ==> IsCached(world, f))
    {
      hide Inv;
      hide Quiet;
      hide Itoa;
      hide Decoded;
      if cached != CURRENCY_UNSPECIFIED {
        return true, cached;
      }
      if a !in selected {
        return false, cached;
      }
      SetAccountCurrency(a, selected[a]);
      return true, selected[a];
    }

    /** The currencies of both accounts: from the cache, or from one SELECT for all that are missing. */
    method LookUp(from: Uuid, to: Uuid)
      returns (err: Option<CurrencyError>, fromCurrency: Currency, toCurrency: Currency, ghost at: Tables)
      requires Valid()
      modifies this`world, this`script
      ensures Valid()
      ensures Extends(old(world.db.tables), at) && Extends(at, world.db.tables)
      ensures err.None? ==> Holds(at.accounts, Fact(from, fromCurrency)) && Holds(at.accounts, Fact(to, toCurrency))
      ensures err.Some? ==>
                || (err == Some(NotFound) && (from !in at.accounts || to !in at.accounts))
                || (err == Some(DatabaseError) && SomeDown(old(script)))
      ensures Quiet(old(script)) ==>
                && world.db == old(world.db) && at == world.db.tables && err != Some(DatabaseError)
                && (err.None? ==> IsCached(world, Fact(from, fromCurrency)) && IsCached(world, Fact(to, toCurrency)))
    {
      hide Inv;
      hide Quiet;
      hide SomeDown;
      hide IsCached;
      fromCurrency := GetAccountCurrency(from);
      toCurrency := GetAccountCurrency(to);
      at := world.db.tables;
      err := None;
      var missing := [];
      if fromCurrency == CURRENCY_UNSPECIFIED {
        missing := missing + [from];
      }
      if toCurrency == CURRENCY_UNSPECIFIED {
        missing := missing + [to];
      }
      if |missing| > 0 {
        var ok, currencies := GetCurrencies(missing);
        at := world.db.tables;
        if !ok {
          err := Some(DatabaseError);
          return;
        }
        var found;
        found, fromCurrency := Resolve(from, fromCurrency, currencies, at);
        if !found {
          err := Some(NotFound);
          return;
        }
        found, toCurrency := Resolve(to, toCurrency, currencies, at);
        if !found {
          err := Some(NotFound);
        }
      }
    }

    /** Whatever is cached, whether or not Redis answers, and whatever commits, expires or is cached in
        between: the verdict is that of the accounts table at a moment of the call, the one of the SELECT
        if there is one. Only a failing database replaces it. A match or a mismatch still holds at the
        end, and a call in peace leaves both currencies cached. */
    method ValidateTransferCurrencies(from: Uuid, to: Uuid, currency: Currency)
      returns (err: Option<CurrencyError>, ghost at: Tables)
      requires Valid()
      modifies this`world, this`script
      ensures Valid()
      ensures Extends(old(world.db.tables), at) && Extends(at, world.db.tables)
      ensures err == CurrencyVerdict(at.accounts, from, to, currency)
              || (err == Some(DatabaseError) && SomeDown(old(script)))
      ensures err.None? || err == Some(Mismatch) ==>
                err == CurrencyVerdict(world.db.tables.accounts, from, to, currency)
      ensures Quiet(old(script)) ==>
                && world.db == old(world.db) && at == world.db.tables
                && err == CurrencyVerdict(at.accounts, from, to, currency)
                && (err != Some(NotFound) ==>
                      && IsCached(world, Fact(from, at.accounts[from].currency))
                      && IsCached(world, Fact(to, at.accounts[to].currency)))
    {
      hide Inv;
      hide Quiet;
      hide SomeDown;
      hide IsCached;
      var fromCurrency, toCurrency;
      err, fromCurrency, toCurrency, at := LookUp(from, to);
      if err.Some? {
        return;
      }
      if fromCurrency != currency || toCurrency != currency {
        err := Some(Mismatch);
      }
    }
  }

  // ---- the read cache of transactions ----

  /** An event: the transaction id as key, and the transaction, unless the payload does not decode. */
  datatype Message = Message(key: seq<nat>, value: Option<Transaction>)

  datatype Lookup = Found(row: Transaction) | Missing | CacheError | DatabaseFailure

  function FromBytes(bs: seq<nat>): Option<Uuid> {
    if |bs| == 16 && Value(bs, 256) < SPAN then Some(Value(bs, 256)) else None
  }

  lemma BytesRoundTrip(id: Uuid)
    ensures FromBytes(Bytes(id)) == Some(id)
  {
    assert Pow(256, 8) == 0x1_0000_0000_0000_0000;
    assert Pow(256, 16) == SPAN;
    WidthOf(id, 256, 16);
    ValueOfDigits(id, 256, 16);
  }

  /** The transaction a message is cached as, if any: an empty id is taken from the message key. */
  function Projected(m: Message): Option<Transaction> {
    if m.value.None? then None
    else
      var row := m.value.value;
      var id := if row.id == NIL then FromBytes(m.key) else Some(row.id);
      if id.None? || id.value == NIL then None else Some(row.(id := id.value))
  }

  /** A message is cached under its own id, under its key when it has none, and not at all when that is
      no sixteen bytes or empty too, or when the payload does not decode. */
  lemma ProjectedMeaning(key: seq<nat>, row: Transaction, id: Uuid)
    ensures Projected(Message(key, None)) == None
    ensures row.id != NIL ==> Projected(Message(key, Some(row))) == Some(row)
    ensures row.id == NIL && id != NIL ==> Projected(Message(Bytes(id), Some(row))) == Some(row.(id := id))
    ensures row.id == NIL ==> Projected(Message(Bytes(NIL), Some(row))) == None
    ensures row.id == NIL && |key| != 16 ==> Projected(Message(key, Some(row))) == None
  {
    BytesRoundTrip(id);
    BytesRoundTrip(NIL);
  }

  class TransactionReads {
    var rows: seq<Transaction>
    var topic: seq<Message>
    var cache: map<Uuid, Transaction>

    /** Events and cache entries are copies of committed rows. */
    ghost predicate Valid()
      reads this
    {
      && UniqueRows(rows)
      && (forall k :: 0 <= k < |topic| ==> topic[k].value.Some? && topic[k].value.value in rows
                                           && topic[k].key == Bytes(topic[k].value.value.id))
      && (forall id :: id in cache ==> cache[id].id == id && cache[id] in rows)
    }

    constructor ()
      ensures Valid() && rows == [] && topic == [] && cache == map[]
    {
      rows, topic, cache := [], [], map[];
    }

    method Commit(row: Transaction)
      requires Valid() && !KeyUsed(rows, row.key) && !IdUsed(rows, row.id)
      modifies this`rows
      ensures Valid() && rows == old(rows) + [row]
    {
      rows := rows + [row];
    }

    /** Publishing happens after the commit, and may be lost. */
    method PublishTransaction(row: Transaction, lost: bool)
      requires Valid() && row in rows
      modifies this`topic
      ensures Valid()
      ensures topic == if lost then old(topic) else old(topic) + [Message(Bytes(row.id), Some(row))]
    {
      if !lost {
        topic := topic + [Message(Bytes(row.id), Some(row))];
      }
    }

    /** Any event of the topic may be delivered, at any time and any number of times. */
    method HandleKafkaMessage(m: Message, setFails: bool) returns (ok: bool)
      requires Valid()
      modifies this`cache
      ensures m in topic ==> Valid() && (ok <==> m.value.value.id != NIL && !setFails)
      ensures ok <==> Projected(m).Some? && !setFails
      ensures cache == if ok then old(cache)[Projected(m).value.id := Projected(m).value] else old(cache)
    {
      var row := Projected(m);
      if m in topic {
        ghost var k :| 0 <= k < |topic| && topic[k] == m;
        BytesRoundTrip(m.value.value.id);
      }
      if row.None? || setFails {
        return false;
      }
      cache := cache[row.value.id := row.value];
      return true;
    }

    method Expire(id: Uuid)
      requires Valid()
      modifies this`cache
      ensures Valid() && cache == old(cache) - {id}
    {
      cache := cache - {id};
    }

    /** Cache first, then the database: a successful answer is the committed row with that id. A cache
        error is the answer at once, and a failing database matters only when the row is not cached. */
    method GetTransaction(id: Uuid, cacheDown: bool, dbDown: bool) returns (r: Lookup)
      requires Valid()
      ensures r.Found? ==> r.row in rows && r.row.id == id
      ensures r.CacheError? <==> cacheDown
      ensures r.DatabaseFailure? <==> !cacheDown && id !in cache && dbDown
      ensures r.Found? <==> !cacheDown && IdUsed(rows, id) && (id in cache || !dbDown)
    {
      if cacheDown {
        return CacheError;
      }
      if id in cache {
        var row := cache[id];
        ghost var k :| 0 <= k < |rows| && rows[k] == row;
        return Found(row);
      }
      if dbDown {
        return DatabaseFailure;
      }
      for k := 0 to |rows|
        invariant forall j :: 0 <= j < k ==> rows[j].id != id
      {
        if rows[k].id == id {
          return Found(rows[k]);
        }
      }
      return Missing;
    }
  }
}
