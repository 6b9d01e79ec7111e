/** The load generator's local mirror of balances: an indexed pool that is updated in place. */
module Pool {
  import opened Uuids
  import opened Ledger

  datatype Slot = Slot(id: Uuid, currency: int, balance: int)
  datatype Ref = Ref(currency: int, idx: nat)

  /** Balances by account id, with `amount` moved from one account to another. */
  function Moved(m: map<Uuid, int>, from: Uuid, to: Uuid, amount: int): (r: map<Uuid, int>)
    requires from in m && to in m
    ensures from == to ==> r == m
    ensures from != to ==> r.Keys == m.Keys && r[from] == m[from] - amount && r[to] == m[to] + amount
    ensures forall id :: id in m && id != from && id != to ==> id in r && r[id] == m[id]
  {
    var taken := m[from := m[from] - amount];
    taken[to := taken[to] + amount]
  }

  /** Moving money never changes the total. */
  lemma MovedTotal(m: map<Uuid, int>, from: Uuid, to: Uuid, amount: int)
    requires from in m && to in m
    ensures SumOver(Moved(m, from, to, amount)) == SumOver(m)
  {
    hide SumOver;
    SumUpdate(m, from, m[from] - amount);
    var taken := m[from := m[from] - amount];
    SumUpdate(taken, to, taken[to] + amount);
  }

  /** Balances with `amount` returned to `from` and taken from `to`, on whichever side is known. */
  function PutBack(m: map<Uuid, int>, from: Uuid, to: Uuid, amount: int): (r: map<Uuid, int>)
    ensures r.Keys == m.Keys
    ensures from in m && from != to ==> r[from] == m[from] + amount
    ensures to in m && from != to ==> r[to] == m[to] - amount
    ensures forall id :: id in m && ((id != from && id != to) || from == to) ==> r[id] == m[id]
  {
    var given := if from in m then m[from := m[from] + amount] else m;
    if to in given then given[to := given[to] - amount] else given
  }

  /** A rollback undoes a reservation, also when other reservations were made in between: putting
      back is moving in the other direction. */
  lemma PutBackReverses(m: map<Uuid, int>, from: Uuid, to: Uuid, amount: int)
    requires from in m && to in m
    ensures PutBack(m, from, to, amount) == Moved(m, to, from, amount)
    ensures PutBack(Moved(m, from, to, amount), from, to, amount) == m
  {
    assert PutBack(m, from, to, amount) == Moved(m, to, from, amount);
    assert PutBack(Moved(m, from, to, amount), from, to, amount) == m;
  }

  /** Two distinct indexes below `size` from a draw below `size` and one below `size - 1`. */
  function DistinctIndexes(i: nat, j: nat, size: nat): (r: (nat, nat))
    requires i < size && j < size - 1
    ensures r.0 < size && r.1 < size && r.0 != r.1
  {
    (i, if j >= i then j + 1 else j)
  }

  /** Every ordered pair of distinct indexes comes from exactly one pair of draws. */
  lemma DistinctIndexesBijective(p: nat, q: nat, size: nat)
    requires p < size && q < size && p != q
    ensures var j := if q > p then q - 1 else q;
            j < size - 1 && DistinctIndexes(p, j, size) == (p, q)
    ensures forall i: nat, k: nat :: i < size && k < size - 1 && DistinctIndexes(i, k, size) == (p, q) ==>
              i == p && k == if q > p then q - 1 else q
  {
    var j := if q > p then q - 1 else q;
    assert DistinctIndexes(p, j, size) == (p, q);
  }

  /** The reference names the slot that holds this id. */
  predicate Points(accounts: map<int, seq<Slot>>, ref: Ref, id: Uuid) {
    ref.currency in accounts && ref.idx < |accounts[ref.currency]| && accounts[ref.currency][ref.idx].id == id
  }

  ghost predicate Indexed(accounts: map<int, seq<Slot>>, index: map<Uuid, Ref>) {
    forall id :: id in index ==> Points(accounts, index[id], id)
  }

  ghost function BalancesOf(accounts: map<int, seq<Slot>>, index: map<Uuid, Ref>): (m: map<Uuid, int>)
    requires Indexed(accounts, index)
    ensures m.Keys == index.Keys
  {
    map id | id in index :: accounts[index[id].currency][index[id].idx].balance
  }

  lemma AddIndexed(accounts: map<int, seq<Slot>>, index: map<Uuid, Ref>, slots: seq<Slot>, slot: Slot)
    requires Indexed(accounts, index)
    requires slots == if slot.currency in accounts then accounts[slot.currency] else []
    ensures var accounts' := accounts[slot.currency := slots + [slot]];
            var index' := index[slot.id := Ref(slot.currency, |slots|)];
            && Indexed(accounts', index')
            && BalancesOf(accounts', index') == BalancesOf(accounts, index)[slot.id := slot.balance]
  {
    var accounts' := accounts[slot.currency := slots + [slot]];
    forall id | id in index
      ensures Points(accounts', index[id], id)
      ensures accounts'[index[id].currency][index[id].idx] == accounts[index[id].currency][index[id].idx]
    {
      assert Points(accounts, index[id], id);
    }
  }

  class AccountPool {
    var accounts: map<int, seq<Slot>>
    var index: map<Uuid, Ref>

    ghost predicate Valid()
      reads this
    {
      Indexed(accounts, index)
    }

    ghost function Balances(): map<Uuid, int>
      requires Valid()
      reads this
    {
      BalancesOf(accounts, index)
    }

    constructor ()
      ensures Valid() && Balances() == map[] && accounts == map[] && index == map[]
    {
      accounts, index := map[], map[];
    }

    /** The newest slot of an id is the one the index points at. */
    method Add(slot: Slot)
      requires Valid()
      modifies this
      ensures Valid()
      ensures Balances() == old(Balances())[slot.id := slot.balance]
    {
      var slots := if slot.currency in accounts then accounts[slot.currency] else [];
      AddIndexed(accounts, index, slots, slot);
      accounts := accounts[slot.currency := slots + [slot]];
      index := index[slot.id := Ref(slot.currency, |slots|)];
    }

    method BalanceOf(id: Uuid) returns (balance: int, ok: bool)
      requires Valid()
      ensures ok <==> id in index
      ensures ok ==> balance == Balances()[id]
    {
      if id !in index {
        return 0, false;
      }
      assert Points(accounts, index[id], id);
      return accounts[index[id].currency][index[id].idx].balance, true;
    }

    /** Adds to the balance of one indexed slot and leaves every other slot alone. */
    method Adjust(id: Uuid, delta: int)
      requires Valid() && id in index
      modifies this`accounts
      ensures Valid()
      ensures Balances() == old(Balances())[id := old(Balances())[id] + delta]
    {
      assert Points(accounts, index[id], id);
      var ref := index[id];
      var slots := accounts[ref.currency];
      var slot := slots[ref.idx];
      accounts := accounts[ref.currency := slots[ref.idx := slot.(balance := slot.balance + delta)]];
      assert forall other :: other in index ==> Points(old(accounts), index[other], other);
    }

    method ReserveValid(from: Uuid, to: Uuid, amount: int) returns (ok: bool)
      requires Valid()
      modifies this`accounts
      ensures Valid() && index == old(index)
      ensures ok <==> from in index && to in index && old(Balances())[from] >= amount
      ensures Balances() == if ok then Moved(old(Balances()), from, to, amount) else old(Balances())
    {
      hide Indexed;
      hide BalancesOf;
      if from !in index || to !in index {
        return false;
      }
      var balance, _ := BalanceOf(from);
      if balance < amount {
        return false;
      }
      Adjust(from, -amount);
      Adjust(to, amount);
      return true;
    }

    /** Undoes a reservation, on whichever of the two accounts the pool knows. */
    method RollbackValid(from: Uuid, to: Uuid, amount: int)
      requires Valid()
      modifies this`accounts
      ensures Valid() && index == old(index)
      ensures Balances() == PutBack(old(Balances()), from, to, amount)
    {
      hide Indexed;
      hide BalancesOf;
      if from in index {
        Adjust(from, amount);
      }
      if to in index {
        Adjust(to, -amount);
      }
    }
  }
}
