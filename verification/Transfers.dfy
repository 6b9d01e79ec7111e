/** One client alone on one connection: the repository's statements as updates of the tables in
    place, and the two use cases that string them together. */
module Transfers {
  import opened Uuids
  import opened Ledger
  import opened Protocol

  datatype BalanceOp = BalanceOp(account: Uuid, isDebit: bool)

  /** One balance UPDATE of a transfer; None when it changes no row or overflows. */
  function RunOp(t: Tables, row: Transaction, debitId: int, creditId: int, op: BalanceOp): Option<Tables> {
    if op.account !in t.accounts then None
    else
      var acc := t.accounts[op.account];
      if op.isDebit then
        if acc.amount >= row.amount then
          Some(t.(accounts := t.accounts[op.account := Debited(acc, row.amount, debitId)]))
        else None
      else if acc.amount + row.amount <= MAX_INT64 then
        Some(t.(accounts := t.accounts[op.account := Credited(acc, row.amount, creditId)]))
      else None
  }

  function RunOps(t: Tables, row: Transaction, debitId: int, creditId: int, ops: seq<BalanceOp>): Option<Tables> {
    if ops == [] then Some(t)
    else
      var u := RunOps(t, row, debitId, creditId, ops[..|ops| - 1]);
      if u.None? then None else RunOp(u.value, row, debitId, creditId, ops[|ops| - 1])
  }

  lemma RunTwo(t: Tables, row: Transaction, debitId: int, creditId: int, p: BalanceOp, q: BalanceOp)
    ensures RunOps(t, row, debitId, creditId, [p, q])
         == var u := RunOp(t, row, debitId, creditId, p);
            if u.None? then None else RunOp(u.value, row, debitId, creditId, q)
  {
    assert [p, q][..1] == [p] && [p][..0] == [];
    assert RunOps(t, row, debitId, creditId, []) == Some(t);
    assert RunOps(t, row, debitId, creditId, [p]) == RunOp(t, row, debitId, creditId, p);
  }

  /** Debit first or credit first: the same decision and the same tables, for every request on two
      distinct accounts and in every state; and the decision is the one that speaks of neither order. */
  lemma OrderIrrelevant(t: Tables, row: Transaction, debitId: int, creditId: int)
    requires row.from != row.to
    ensures var debit, credit := BalanceOp(row.from, true), BalanceOp(row.to, false);
            var u := RunOps(t, row, debitId, creditId, [debit, credit]);
            && u == RunOps(t, row, debitId, creditId, [credit, debit])
            && (u.Some? <==>
                  && row.from in t.accounts && row.to in t.accounts
                  && t.accounts[row.from].amount >= row.amount
                  && t.accounts[row.to].amount + row.amount <= MAX_INT64)
  {
    var debit, credit := BalanceOp(row.from, true), BalanceOp(row.to, false);
    RunTwo(t, row, debitId, creditId, debit, credit);
    RunTwo(t, row, debitId, creditId, credit, debit);
    if Payable(t, row, row.from) && Payable(t, row, row.to) {
      var d := Debited(t.accounts[row.from], row.amount, debitId);
      var c := Credited(t.accounts[row.to], row.amount, creditId);
      assert t.accounts[row.from := d][row.to := c] == t.accounts[row.to := c][row.from := d];
    }
  }

  /** Running both updates, debit first, gives the accounts of the atomic transfer. */
  lemma SettleInFull(t: Tables, row: Transaction, debitId: int, creditId: int)
    requires row.from != row.to && Payable(t, row, row.from) && Payable(t, row, row.to)
    ensures RunOps(t, row, debitId, creditId, [BalanceOp(row.from, true), BalanceOp(row.to, false)])
         == Some(t.(accounts := t.accounts[row.from := Debited(t.accounts[row.from], row.amount, debitId)]
                                          [row.to := Credited(t.accounts[row.to], row.amount, creditId)]))
  {
    RunTwo(t, row, debitId, creditId, BalanceOp(row.from, true), BalanceOp(row.to, false));
  }

  /** The reply of a transfer that runs alone; only the choice between the errors of the two updates
      looks at which of them comes first. */
  function Verdict(t: Tables, row: Transaction): Option<Error> {
    if RequestError(row).Some? then RequestError(row)
    else if row.from !in t.accounts || row.to !in t.accounts then Some(AccountNotFound)
    else if !Cleared(t, row) then Some(CurrencyMismatch)
    else if KeyUsed(t.transactions, row.key) then Some(IdempotencyConflict)
    else if UpdateError(t, row, Lo(row)).Some? then UpdateError(t, row, Lo(row))
    else UpdateError(t, row, Hi(row))
  }

  /** A transfer alone on a healthy ledger whose currency fits in int64 succeeds exactly when it is
      accepted: fresh key, both accounts in the currency, and enough on the source. */
  lemma VerdictIsAcceptance(t: Tables, row: Transaction)
    requires Healthy(t) && Openings(t.transactions, row.currency) <= MAX_INT64
    ensures Verdict(t, row).None? <==> Accepts(t, row)
  {
    if Accepts(t, row) {
      CreditRoom(t, row);
    }
  }

  /** The reply of a lone transfer is an error that is justified, and success only when none is. */
  lemma VerdictMeaning(t: Tables, row: Transaction)
    ensures Verdict(t, row).Some? ==> Justifies(t, row, Verdict(t, row).value)
    ensures Verdict(t, row).None? <==> forall e :: !Justifies(t, row, e)
  {
    if Verdict(t, row).Some? {
      assert Justifies(t, row, Verdict(t, row).value);
    } else {
      forall e ensures !Justifies(t, row, e) {
        assert Payable(t, row, row.from) && Payable(t, row, row.to) && !KeyUsed(t.transactions, row.key);
      }
    }
  }

  /** The rows that an INSERT of postings adds when the sequence stands at `n`. */
  function Numbered(ps: seq<Posting>, n: int): (rs: seq<Posting>)
    ensures |rs| == |ps|
    ensures forall i :: 0 <= i < |ps| ==> rs[i] == ps[i].(id := n + i)
  {
    seq(|ps|, i requires 0 <= i < |ps| => ps[i].(id := n + i))
  }

  class Repository {
    var tables: Tables
    var saved: Tables
    var nextId: int

    ghost predicate Valid()
      reads this
    {
      nextId > 0 && forall i :: 0 <= i < |tables.postings| ==> tables.postings[i].id < nextId
    }

    method BeginTx()
      modifies this`saved
      ensures saved == tables
    {
      saved := tables;
    }

    /** Rolling back restores the tables but not the sequence. */
    method RollbackTx()
      modifies this`tables
      ensures tables == saved
    {
      tables := saved;
    }

    method CreateTransaction(row: Transaction) returns (err: Option<Error>)
      modifies this`tables
      ensures err.None? <==> FreshRow(old(tables), row) && row.from in old(tables).accounts
                             && row.to in old(tables).accounts && row.amount > 0
      ensures err.Some? ==>
                err == Some(if row.amount > 0 && !FreshRow(old(tables), row) then IdempotencyConflict else SystemError)
      ensures err.None? ==> tables == old(tables).(transactions := old(tables).transactions + [row])
      ensures err.Some? ==> tables == old(tables)
    {
      if row.amount <= 0 {
        return Some(SystemError);
      }
      if !FreshRow(tables, row) {
        return Some(IdempotencyConflict);
      }
      if row.from !in tables.accounts || row.to !in tables.accounts {
        return Some(SystemError);
      }
      tables := tables.(transactions := tables.transactions + [row]);
      return None;
    }

    /** Inserts one or two postings and returns, per account, the id of its last row; any other
        number of postings is ignored. */
    method CreatePostings(ps: seq<Posting>) returns (ids: map<Uuid, int>)
      modifies this`tables, this`nextId
      ensures |ps| != 1 && |ps| != 2 ==> ids == map[] && tables == old(tables) && nextId == old(nextId)
      ensures 1 <= |ps| <= 2 ==>
                && nextId == old(nextId) + |ps|
                && tables == old(tables).(postings := old(tables).postings + Numbered(ps, old(nextId)))
                && (forall a :: a in ids <==> exists i :: 0 <= i < |ps| && ps[i].account == a)
                && (forall i :: 0 <= i < |ps| && (forall j :: i < j < |ps| ==> ps[j].account != ps[i].account) ==>
                      ps[i].account in ids && ids[ps[i].account] == old(nextId) + i)
    {
      ids := map[];
      if |ps| != 1 && |ps| != 2 {
        return;
      }
      var rows := Numbered(ps, nextId);
      tables := tables.(postings := tables.postings + rows);
      nextId := nextId + |ps|;
      for k := 0 to |rows|
        invariant forall a :: a in ids <==> exists i :: 0 <= i < k && ps[i].account == a
        invariant forall i :: 0 <= i < k && (forall j :: i < j < k ==> ps[j].account != ps[i].account) ==>
                    ids[ps[i].account] == old(nextId) + i
      {
        ids := ids[rows[k].account := rows[k].id];
      }
    }

    method DebitBalance(a: Uuid, amount: int, posting: int) returns (err: Option<Error>)
      modifies this`tables
      ensures err.None? <==> a in old(tables).accounts && old(tables).accounts[a].amount >= amount
      ensures err.Some? ==> err == Some(InsufficientFunds) && tables == old(tables)
      ensures err.None? ==>
                var accounts := old(tables).accounts;
                tables == old(tables).(accounts := accounts[a := Debited(accounts[a], amount, posting)])
    {
      if a !in tables.accounts || tables.accounts[a].amount < amount {
        return Some(InsufficientFunds);
      }
      tables := tables.(accounts := tables.accounts[a := Debited(tables.accounts[a], amount, posting)]);
      return None;
    }

    method CreditBalance(a: Uuid, amount: int, posting: int) returns (err: Option<Error>)
      modifies this`tables
      ensures err.None? <==> a in old(tables).accounts && old(tables).accounts[a].amount + amount <= MAX_INT64
      ensures err.Some? ==> err == Some(if a in old(tables).accounts then OutOfRange else AccountNotFound)
                            && tables == old(tables)
      ensures err.None? ==>
                var accounts := old(tables).accounts;
                tables == old(tables).(accounts := accounts[a := Credited(accounts[a], amount, posting)])
    {
      if a !in tables.accounts {
        return Some(AccountNotFound);
      }
      if tables.accounts[a].amount + amount > MAX_INT64 {
        return Some(OutOfRange);
      }
      tables := tables.(accounts := tables.accounts[a := Credited(tables.accounts[a], amount, posting)]);
      return None;
    }

    /** The two balance updates in ascending byte order of the account UUIDs. */
    method UpdateBalances(row: Transaction, debitId: int, creditId: int) returns (err: Option<Error>)
      requires row.from != row.to
      modifies this`tables
      ensures err == if UpdateError(old(tables), row, Lo(row)).Some? then UpdateError(old(tables), row, Lo(row))
                     else UpdateError(old(tables), row, Hi(row))
      ensures err.None? ==>
                var accounts := old(tables).accounts;
                tables.accounts == accounts[row.from := Debited(accounts[row.from], row.amount, debitId)]
                                           [row.to := Credited(accounts[row.to], row.amount, creditId)]
      ensures err.None? ==> tables.transactions == old(tables).transactions && tables.postings == old(tables).postings
    {
      ghost var t := tables;
      var ops := [BalanceOp(row.from, true), BalanceOp(row.to, false)];
      ByteOrder(row.to, row.from);
      if Compare(Bytes(ops[1].account), Bytes(ops[0].account)) < 0 {
        ops := [ops[1], ops[0]];
      }
      for k := 0 to |ops|
        invariant |ops| == 2 && ops[0] != ops[1]
        invariant ops[0].account == Lo(row) && ops[0].isDebit == (Lo(row) == row.from)
        invariant ops[1].account == Hi(row) && ops[1].isDebit == (Hi(row) == row.from)
        invariant tables.transactions == t.transactions && tables.postings == t.postings
        invariant k >= 1 ==> Payable(t, row, Lo(row))
        invariant k == 2 ==> Payable(t, row, Hi(row))
        invariant k == 0 ==> tables == t
        invariant RunOps(t, row, debitId, creditId, ops[..k]) == Some(tables)
        invariant forall a :: a in tables.accounts <==> a in t.accounts
        invariant k <= 1 && Hi(row) in t.accounts ==> tables.accounts[Hi(row)] == t.accounts[Hi(row)]
      {
        var op := ops[k];
        assert ops[..k + 1][..k] == ops[..k];
        if op.isDebit {
          err := DebitBalance(op.account, row.amount, debitId);
        } else {
          err := CreditBalance(op.account, row.amount, creditId);
        }
        if err.Some? {
          return;
        }
      }
      assert ops[..2] == ops;
      OrderIrrelevant(t, row, debitId, creditId);
      SettleInFull(t, row, debitId, creditId);
      err := None;
    }

    /** A transfer that runs alone: the reply, and all of its effect or none. */
    method Transaction(row: Transaction) returns (err: Option<Error>)
      requires Valid() && !IdUsed(tables.transactions, row.id)
      modifies this
      ensures Valid()
      ensures err == Verdict(old(tables), row)
      ensures err.Some? ==> tables == old(tables)
      ensures err.None? ==>
                && Admissible(old(tables), Transferred(row, old(nextId), old(nextId) + 1))
                && tables == Apply(old(tables), Transferred(row, old(nextId), old(nextId) + 1))
    {
      err := RequestError(row);
      if err.Some? {
        return;
      }
      if row.from !in tables.accounts || row.to !in tables.accounts {
        return Some(AccountNotFound);
      }
      if tables.accounts[row.from].currency != row.currency || tables.accounts[row.to].currency != row.currency {
        return Some(CurrencyMismatch);
      }
      BeginTx();
      err := CreateTransaction(row);
      if err.Some? {
        RollbackTx();
        return;
      }
      var ps := [Posting(0, row.id, row.from, -row.amount), Posting(0, row.id, row.to, row.amount)];
      var ids := CreatePostings(ps);
      assert ps[0].account in ids && ps[1].account in ids;
      err := UpdateBalances(row, ids[row.from], ids[row.to]);
      if err.Some? {
        RollbackTx();
        return;
      }
    }

    /** Opening an account alone: the account, and for a positive balance its opening transaction,
        posting and credit, or nothing at all. */
    method CreateAccount(row: Transaction) returns (err: Option<Error>)
      requires Valid() && !IdUsed(tables.transactions, row.id)
      requires row.from == row.to && 0 <= row.amount <= MAX_INT64 && row.to !in tables.accounts
      modifies this
      ensures Valid()
      ensures err.None? <==>
                row.currency != CURRENCY_UNSPECIFIED && (row.amount > 0 ==> !KeyUsed(old(tables).transactions, row.key))
      ensures err.Some? ==>
                && tables == old(tables)
                && err.value == if row.currency == CURRENCY_UNSPECIFIED then InvalidCurrency else IdempotencyConflict
      ensures err.None? ==>
                var c := if row.amount > 0 then Opened(row, old(nextId)) else OpenedEmpty(row.to, row.currency);
                Admissible(old(tables), c) && tables == Apply(old(tables), c)
    {
      if row.currency == CURRENCY_UNSPECIFIED {
        return Some(InvalidCurrency);
      }
      BeginTx();
      tables := tables.(accounts := tables.accounts[row.to := Account(0, row.currency, 0)]);
      if row.amount > 0 {
        err := CreateTransaction(row);
        if err.Some? {
          RollbackTx();
          return;
        }
        var ps := [Posting(0, row.id, row.to, row.amount)];
        var ids := CreatePostings(ps);
        assert ps[0].account in ids;
        err := CreditBalance(row.to, row.amount, ids[row.to]);
        assert err.None?;
      }
      err := None;
    }
  }
}
