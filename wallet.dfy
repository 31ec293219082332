/** The wallet service: a class whose four fields the operations update in place.
    Each state-changing method is proved to leave the fields and return the value
    that the matching Ledger function gives for the old fields; the searches, the
    account history and the partitioned aggregations only read the fields.

    A pointer into one of the slices, as the Find*ByID methods return it, is
    modelled by its index; writing through it is an update of that index. */
module Wallet {
  import opened Types
  import opened Seqs
  import opened Ledger
  import opened Partition

  class Service {
    var nextAccountID: int
    var accounts: seq<Account>
    var payments: seq<Payment>
    var favorites: seq<Favorite>

    /** The zero value `Service{}`. */
    constructor ()
      ensures Snapshot() == Empty
    {
      nextAccountID := 0;
      accounts := [];
      payments := [];
      favorites := [];
    }

    /** The fields as a Ledger value. */
    function Snapshot(): State
      reads this
    {
      State(nextAccountID, accounts, payments, favorites)
    }

    // -------------------------------------------------------------------------
    // Searches

    method FindAccountByID(accountID: int) returns (r: Result<nat>)
      ensures r == ToResult(AccountIndex(accounts, accountID), AccountNotFound)
    {
      for j := 0 to |accounts|
        invariant forall m :: 0 <= m < j ==> accounts[m].id != accountID
      {
        if accounts[j].id == accountID {
          return Success(j);
        }
      }
      return Failure(AccountNotFound);
    }

    method FindPaymentByID(paymentID: string) returns (r: Result<nat>)
      ensures r == ToResult(PaymentIndex(payments, paymentID), PaymentNotFound)
    {
      for j := 0 to |payments|
        invariant forall m :: 0 <= m < j ==> payments[m].id != paymentID
      {
        if payments[j].id == paymentID {
          return Success(j);
        }
      }
      return Failure(PaymentNotFound);
    }

    method FindFavoriteByID(favoriteID: string) returns (r: Result<nat>)
      ensures r == ToResult(FavoriteIndex(favorites, favoriteID), FavoriteNotFound)
    {
      for j := 0 to |favorites|
        invariant forall m :: 0 <= m < j ==> favorites[m].id != favoriteID
      {
        if favorites[j].id == favoriteID {
          return Success(j);
        }
      }
      return Failure(FavoriteNotFound);
    }

    // -------------------------------------------------------------------------
    // Ledger operations

    method RegisterAccount(phone: Phone) returns (r: Result<Account>)
      modifies this
      ensures Outcome(Snapshot(), r) == Register(old(Snapshot()), phone)
    {
      for j := 0 to |accounts|
        invariant forall m :: 0 <= m < j ==> accounts[m].phone != phone
      {
        if accounts[j].phone == phone {
          return Failure(PhoneRegistered);
        }
      }
      nextAccountID := nextAccountID + 1;
      var account := Account(nextAccountID, phone, 0);
      accounts := accounts + [account];
      return Success(account);
    }

    /** The source repeats FindAccountByID's loop inline; it stops at the same account. */
    method Deposit(accountID: int, amount: Money) returns (r: Result<()>)
      modifies this
      ensures Outcome(Snapshot(), r) == Ledger.Deposit(old(Snapshot()), accountID, amount)
    {
      if amount <= 0 {
        return Failure(AmountMustBePositive);
      }
      var found := FindAccountByID(accountID);
      if found.Failure? {
        return Failure(AccountNotFound);
      }
      accounts := Credit(accounts, found.value, amount);
      return Success(());
    }

    /** The payment ID is the fresh UUID the source draws. */
    method Pay(accountID: int, amount: Money, category: PaymentCategory, paymentID: string) returns (r: Result<Payment>)
      modifies this
      ensures Outcome(Snapshot(), r) == Ledger.Pay(old(Snapshot()), accountID, amount, category, paymentID)
    {
      if amount <= 0 {
        return Failure(AmountMustBePositive);
      }
      var found := FindAccountByID(accountID);
      if found.Failure? {
        return Failure(found.error);
      }
      var i := found.value;
      if accounts[i].balance < amount {
        return Failure(NotEnoughBalance);
      }
      accounts := Credit(accounts, i, -amount);
      var payment := Payment(paymentID, accountID, amount, category, StatusInProgress);
      payments := payments + [payment];
      return Success(payment);
    }

    method Reject(paymentID: string) returns (r: Result<()>)
      modifies this
      ensures Outcome(Snapshot(), r) == Ledger.Reject(old(Snapshot()), paymentID)
    {
      var foundPayment := FindPaymentByID(paymentID);
      if foundPayment.Failure? {
        return Failure(foundPayment.error);
      }
      var k := foundPayment.value;
      var foundAccount := FindAccountByID(payments[k].accountID);
      if foundAccount.Failure? {
        return Failure(foundAccount.error);
      }
      var payment := payments[k];
      payments := payments[k := payment.(status := StatusFail)];
      accounts := Credit(accounts, foundAccount.value, payment.amount);
      return Success(());
    }

    method AddAccountWithBalance(phone: Phone, balance: Money) returns (r: Result<Account>)
      modifies this
      ensures Outcome(Snapshot(), r) == Ledger.AddAccountWithBalance(old(Snapshot()), phone, balance)
    {
      var at := |accounts|;
      var registered := RegisterAccount(phone);
      if registered.Failure? {
        return Failure(CannotRegisterAccount);
      }
      var deposited := Deposit(registered.value.id, balance);
      if deposited.Failure? {
        return Failure(CannotDepositAccount);
      }
      return Success(accounts[at]);
    }

    method Repeat(paymentID: string, newPaymentID: string) returns (r: Result<Payment>)
      modifies this
      ensures Outcome(Snapshot(), r) == Ledger.Repeat(old(Snapshot()), paymentID, newPaymentID)
    {
      var found := FindPaymentByID(paymentID);
      if found.Failure? {
        return Failure(found.error);
      }
      var target := payments[found.value];
      r := Pay(target.accountID, target.amount, target.category, newPaymentID);
    }

    /** The favorite ID is the fresh UUID the source draws. */
    method FavoritePayment(paymentID: string, name: string, favoriteID: string) returns (r: Result<Favorite>)
      modifies this
      ensures Outcome(Snapshot(), r) == Ledger.FavoritePayment(old(Snapshot()), paymentID, name, favoriteID)
    {
      var found := FindPaymentByID(paymentID);
      if found.Failure? {
        return Failure(found.error);
      }
      var payment := payments[found.value];
      var favorite := Favorite(favoriteID, payment.accountID, name, payment.amount, payment.category);
      favorites := favorites + [favorite];
      return Success(favorite);
    }

    method PayFromFavorite(favoriteID: string, paymentID: string) returns (r: Result<Payment>)
      modifies this
      ensures Outcome(Snapshot(), r) == Ledger.PayFromFavorite(old(Snapshot()), favoriteID, paymentID)
    {
      var found := FindFavoriteByID(favoriteID);
      if found.Failure? {
        return Failure(found.error);
      }
      var favorite := favorites[found.value];
      r := Pay(favorite.accountID, favorite.amount, favorite.category, paymentID);
    }

    /** Copies of the account's payments in list order, or AccountNotFound when it has none. */
    method ExportAccountHistory(accountID: int) returns (r: Result<seq<Payment>>)
      ensures r == AccountHistory(payments, accountID)
      ensures r.Success? ==> forall j :: 0 <= j < |r.value| ==> r.value[j] in payments && r.value[j].accountID == accountID
      ensures r.Failure? <==> forall j :: 0 <= j < |payments| ==> payments[j].accountID != accountID
    {
      var history: seq<Payment> := [];
      for j := 0 to |payments|
        invariant history == Filter(payments[..j], ByAccount(accountID))
      {
        FilterSnoc(payments, j, ByAccount(accountID));
        if payments[j].accountID == accountID {
          history := history + [payments[j]];
        }
      }
      assert payments[..|payments|] == payments;
      if |history| <= 0 {
        r := Failure(AccountNotFound);
      } else {
        r := Success(history);
      }
      AccountHistoryMeaning(payments, accountID);
    }

    // -------------------------------------------------------------------------
    // Partitioned aggregations; `order` is the order in which the workers take the mutex

    /** The work of one SumPayments worker: `val += payment.Amount` over its slice. */
    method SumBlock(lo: nat, hi: nat) returns (val: Money)
      requires lo <= hi <= |payments|
      ensures val == SumAmounts(payments[lo..hi])
    {
      val := 0;
      for j := lo to hi
        invariant val == SumAmounts(payments[lo..j])
      {
        assert payments[lo..j + 1][..j - lo] == payments[lo..j];
        val := val + payments[j].amount;
      }
    }

    /** The partial sums every summing worker holds when it takes the mutex, in worker order. */
    method SumWorkers(goroutines: int) returns (partials: seq<Money>)
      requires goroutines != 0
      ensures partials == SumEach(Blocks(payments, goroutines))
    {
      ghost var want := SumEach(Blocks(payments, goroutines));
      SumEachBlock(payments, goroutines, 0);
      var n := |payments|;
      partials := [];
      var i := 0;
      while i < goroutines - 1
        invariant 0 <= i <= FullBlocks(goroutines) && |want| == Workers(goroutines)
        invariant partials == want[..i]
      {
        var val := SumBlock(Lo(n, goroutines, i), Hi(n, goroutines, i));
        SumEachBlock(payments, goroutines, i);
        PrefixSnoc(want, i);
        partials := partials + [val];
        i := i + 1;
      }
      var val := SumBlock(Lo(n, goroutines, i), n);
      SumEachBlock(payments, goroutines, i);
      PrefixSnoc(want, i);
      partials := partials + [val];
      assert want[..i + 1] == want;
    }

    /** A goroutines of zero divides by zero before any worker starts. */
    method SumPayments(goroutines: int, order: seq<nat>) returns (total: Money)
      requires goroutines != 0
      requires IsSchedule(order, Workers(goroutines))
      ensures total == SumAmounts(payments)
    {
      var partials := SumWorkers(goroutines);
      ghost var blocks := Blocks(payments, goroutines);
      BlocksShape(payments, goroutines);
      ScheduleInRange(order, Workers(goroutines));
      total := 0;
      for j := 0 to |order|
        invariant total == SumAmounts(Merge(order[..j], blocks))
      {
        MergeSnoc(order, j, blocks);
        SumByConcat(Merge(order[..j], blocks), blocks[order[j]], AmountOf);
        total := total + partials[order[j]];
      }
      assert order[..|order|] == order;
      ScheduledSumIsTotal(payments, goroutines, order);
    }

    /** The work of one filtering worker: copies of the matching payments of its slice. */
    method FilterBlock(lo: nat, hi: nat, filter: Payment -> bool) returns (pays: seq<Payment>)
      requires lo <= hi <= |payments|
      ensures pays == Filter(payments[lo..hi], filter)
    {
      pays := [];
      for j := lo to hi
        invariant pays == Filter(payments[lo..j], filter)
      {
        assert payments[lo..j + 1] == payments[lo..j] + [payments[j]];
        FilterConcat(payments[lo..j], [payments[j]], filter);
        if filter(payments[j]) {
          pays := pays + [payments[j]];
        }
      }
    }

    /** The matches every filtering worker holds when it takes the mutex, in worker order. */
    method FilterWorkers(filter: Payment -> bool, goroutines: int) returns (parts: seq<seq<Payment>>)
      requires goroutines != 0
      ensures parts == FilterEach(Blocks(payments, goroutines), filter)
    {
      ghost var want := FilterEach(Blocks(payments, goroutines), filter);
      FilterEachBlock(payments, goroutines, filter, 0);
      var n := |payments|;
      parts := [];
      var i := 0;
      while i < goroutines - 1
        invariant 0 <= i <= FullBlocks(goroutines) && |want| == Workers(goroutines)
        invariant parts == want[..i]
      {
        var pays := FilterBlock(Lo(n, goroutines, i), Hi(n, goroutines, i), filter);
        FilterEachBlock(payments, goroutines, filter, i);
        PrefixSnoc(want, i);
        parts := parts + [pays];
        i := i + 1;
      }
      var pays := FilterBlock(Lo(n, goroutines, i), n, filter);
      FilterEachBlock(payments, goroutines, filter, i);
      PrefixSnoc(want, i);
      parts := parts + [pays];
      assert want[..i + 1] == want;
    }

    /** The error result of the source is always nil; an empty result is its nil slice. */
    method FilterPaymentsByFn(filter: Payment -> bool, goroutines: int, order: seq<nat>) returns (ps: seq<Payment>)
      requires goroutines != 0
      requires IsSchedule(order, Workers(goroutines))
      ensures ps == ScheduledFilter(payments, goroutines, filter, order)
      ensures multiset(ps) == multiset(Filter(payments, filter))
    {
      var parts := FilterWorkers(filter, goroutines);
      BlocksShape(payments, goroutines);
      ScheduleInRange(order, Workers(goroutines));
      ps := AppendInOrder(parts, order);
      ScheduledFilterIsPermutation(payments, goroutines, filter, order);
    }

    /** The account is looked up before the payments are divided, so an unknown
        account is reported even when goroutines is zero. */
    method FilterPayments(accountID: int, goroutines: int, order: seq<nat>) returns (r: Result<seq<Payment>>)
      requires goroutines == 0 ==> AccountIndex(accounts, accountID).None?
      requires IsSchedule(order, Workers(goroutines))
      ensures AccountIndex(accounts, accountID).None? ==> r == Failure(AccountNotFound)
      ensures AccountIndex(accounts, accountID).Some? ==>
        r == Success(ScheduledFilter(payments, goroutines, ByAccount(accountID), order))
      ensures r.Success? ==> multiset(r.value) == multiset(Filter(payments, ByAccount(accountID)))
    {
      var found := FindAccountByID(accountID);
      if found.Failure? {
        return Failure(found.error);
      }
      var ps := FilterPaymentsByFn(ByAccount(accounts[found.value].id), goroutines, order);
      return Success(ps);
    }
  }

  /** `ps = append(ps, pays...)` by each worker as it takes the mutex, in `order`. */
  method AppendInOrder(parts: seq<seq<Payment>>, order: seq<nat>) returns (ps: seq<Payment>)
    requires forall j :: 0 <= j < |order| ==> order[j] < |parts|
    ensures ps == Merge(order, parts)
  {
    ps := [];
    for j := 0 to |order|
      invariant ps == Merge(order[..j], parts)
    {
      MergeSnoc(order, j, parts);
      ps := ps + parts[order[j]];
    }
    assert order[..|order|] == order;
  }
}
