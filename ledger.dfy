/** The wallet ledger as a value: the four fields of the service and one function
    per operation giving the new fields and the returned value or error. The class
    Wallet.Service implements these operations in place and is proved against them;
    the lemmas here state what the operations guarantee. */
module Ledger {
  import opened Types
  import opened Seqs

  /** nextAccountID, accounts, payments and favorites of the service. */
  datatype State = State(nextAccountID: int, accounts: seq<Account>, payments: seq<Payment>, favorites: seq<Favorite>)

  /** What one operation leaves behind: the new state and its returned value or error. */
  datatype Outcome<+T> = Outcome(state: State, result: Result<T>)

  /** The zero value of the service, as a test's `Service{}` creates it. */
  const Empty: State := State(0, [], [], [])

  // ---------------------------------------------------------------------------
  // Lookups: the index of the first record with a given ID

  /** Where FindAccountByID stops: the first account with that ID. */
  function AccountIndex(accounts: seq<Account>, id: int): (r: Option<nat>)
    ensures r.Some? ==> r.value < |accounts| && accounts[r.value].id == id
    ensures r.Some? ==> forall j :: 0 <= j < r.value ==> accounts[j].id != id
    ensures r.None? <==> forall j :: 0 <= j < |accounts| ==> accounts[j].id != id
  {
    FirstWhere(accounts, (a: Account) => a.id == id)
  }

  /** Where FindPaymentByID stops: the first payment with that ID. */
  function PaymentIndex(payments: seq<Payment>, id: string): (r: Option<nat>)
    ensures r.Some? ==> r.value < |payments| && payments[r.value].id == id
    ensures r.Some? ==> forall j :: 0 <= j < r.value ==> payments[j].id != id
    ensures r.None? <==> forall j :: 0 <= j < |payments| ==> payments[j].id != id
  {
    FirstWhere(payments, (p: Payment) => p.id == id)
  }

  /** Where FindFavoriteByID stops: the first favorite with that ID. */
  function FavoriteIndex(favorites: seq<Favorite>, id: string): (r: Option<nat>)
    ensures r.Some? ==> r.value < |favorites| && favorites[r.value].id == id
    ensures r.Some? ==> forall j :: 0 <= j < r.value ==> favorites[j].id != id
    ensures r.None? <==> forall j :: 0 <= j < |favorites| ==> favorites[j].id != id
  {
    FirstWhere(favorites, (f: Favorite) => f.id == id)
  }

  /** Appending a record moves no earlier search, and the record is found when
      nothing before it has its ID. */
  lemma AccountIndexAppend(accounts: seq<Account>, a: Account, id: int)
    ensures AccountIndex(accounts, id).Some? ==> AccountIndex(accounts + [a], id) == AccountIndex(accounts, id)
    ensures AccountIndex(accounts, id).None? ==> AccountIndex(accounts + [a], id) == if a.id == id then Some(|accounts|) else None
  {
    var s := accounts + [a];
    assert forall j :: 0 <= j < |accounts| ==> s[j] == accounts[j];
    match AccountIndex(accounts, id)
    case Some(i) =>
      var r := AccountIndex(s, id);
      assert s[i].id == id;
      assert r.Some? && r.value <= i;
      assert r.value == i;
    case None =>
      if a.id == id {
        assert s[|accounts|].id == id;
      }
  }

  lemma PaymentIndexAppend(payments: seq<Payment>, p: Payment, id: string)
    ensures PaymentIndex(payments, id).Some? ==> PaymentIndex(payments + [p], id) == PaymentIndex(payments, id)
    ensures PaymentIndex(payments, id).None? ==> PaymentIndex(payments + [p], id) == if p.id == id then Some(|payments|) else None
  {
    var s := payments + [p];
    assert forall j :: 0 <= j < |payments| ==> s[j] == payments[j];
    match PaymentIndex(payments, id)
    case Some(i) =>
      var r := PaymentIndex(s, id);
      assert s[i].id == id;
      assert r.Some? && r.value <= i;
      assert r.value == i;
    case None =>
      if p.id == id {
        assert s[|payments|].id == id;
      }
  }

  lemma FavoriteIndexAppend(favorites: seq<Favorite>, f: Favorite, id: string)
    ensures FavoriteIndex(favorites, id).Some? ==> FavoriteIndex(favorites + [f], id) == FavoriteIndex(favorites, id)
    ensures FavoriteIndex(favorites, id).None? ==> FavoriteIndex(favorites + [f], id) == if f.id == id then Some(|favorites|) else None
  {
    var s := favorites + [f];
    assert forall j :: 0 <= j < |favorites| ==> s[j] == favorites[j];
    match FavoriteIndex(favorites, id)
    case Some(i) =>
      var r := FavoriteIndex(s, id);
      assert s[i].id == id;
      assert r.Some? && r.value <= i;
      assert r.value == i;
    case None =>
      if f.id == id {
        assert s[|favorites|].id == id;
      }
  }

  /** Overwriting the record a search found with one of the same ID keeps it found there. */
  lemma AccountIndexSet(accounts: seq<Account>, i: nat, a: Account)
    requires AccountIndex(accounts, a.id) == Some(i)
    ensures AccountIndex(accounts[i := a], a.id) == Some(i)
  {
    var s := accounts[i := a];
    assert forall j :: 0 <= j < i ==> s[j] == accounts[j];
    var r := AccountIndex(s, a.id);
    assert s[i].id == a.id;
    assert r.Some? && r.value <= i;
    assert r.value == i;
  }

  lemma PaymentIndexSet(payments: seq<Payment>, k: nat, p: Payment)
    requires PaymentIndex(payments, p.id) == Some(k)
    ensures PaymentIndex(payments[k := p], p.id) == Some(k)
  {
    var s := payments[k := p];
    assert forall j :: 0 <= j < k ==> s[j] == payments[j];
    var r := PaymentIndex(s, p.id);
    assert s[k].id == p.id;
    assert r.Some? && r.value <= k;
    assert r.value == k;
  }

  lemma FavoriteIndexSet(favorites: seq<Favorite>, k: nat, f: Favorite)
    requires FavoriteIndex(favorites, f.id) == Some(k)
    ensures FavoriteIndex(favorites[k := f], f.id) == Some(k)
  {
    var s := favorites[k := f];
    assert forall j :: 0 <= j < k ==> s[j] == favorites[j];
    var r := FavoriteIndex(s, f.id);
    assert s[k].id == f.id;
    assert r.Some? && r.value <= k;
    assert r.value == k;
  }

  predicate HasAccount(accounts: seq<Account>, id: int)
  {
    exists i :: 0 <= i < |accounts| && accounts[i].id == id
  }

  predicate PhoneTaken(accounts: seq<Account>, phone: Phone)
  {
    exists i :: 0 <= i < |accounts| && accounts[i].phone == phone
  }

  /** The account at index i with delta added to its balance, as
      `account.Balance += delta` does through the found pointer. */
  function Credit(accounts: seq<Account>, i: nat, delta: Money): (r: seq<Account>)
    requires i < |accounts|
  {
    accounts[i := accounts[i].(balance := accounts[i].balance + delta)]
  }

  /** Changing a balance does not move any account in a search by ID. */
  lemma AccountIndexCredit(accounts: seq<Account>, i: nat, delta: Money, id: int)
    requires i < |accounts|
    ensures AccountIndex(Credit(accounts, i, delta), id) == AccountIndex(accounts, id)
  {
    var c := Credit(accounts, i, delta);
    assert forall j :: 0 <= j < |c| ==> c[j].id == accounts[j].id;
  }

  /** Predicate of FilterPayments and ExportAccountHistory: the payment belongs to the account. */
  function ByAccount(accountID: int): Payment -> bool
  {
    (p: Payment) => p.accountID == accountID
  }

  // ---------------------------------------------------------------------------
  // Operations

  /** RegisterAccount: a phone already in use is refused; otherwise the counter is
      bumped and a zero-balance account with the new counter as ID is appended. */
  function Register(st: State, phone: Phone): (o: Outcome<Account>)
    ensures o.result.Failure? ==> o.state == st
    ensures o.state.payments == st.payments && o.state.favorites == st.favorites
  {
    if PhoneTaken(st.accounts, phone) then Outcome(st, Failure(PhoneRegistered))
    else
      var account := Account(st.nextAccountID + 1, phone, 0);
      Outcome(st.(nextAccountID := st.nextAccountID + 1, accounts := st.accounts + [account]), Success(account))
  }

  /** Deposit: the amount is checked before the account is looked up. */
  function Deposit(st: State, accountID: int, amount: Money): (o: Outcome<()>)
    ensures o.result.Failure? ==> o.state == st
    ensures |o.state.accounts| == |st.accounts| && o.state.nextAccountID == st.nextAccountID
    ensures o.state.payments == st.payments && o.state.favorites == st.favorites
  {
    if amount <= 0 then Outcome(st, Failure(AmountMustBePositive))
    else match AccountIndex(st.accounts, accountID)
      case None => Outcome(st, Failure(AccountNotFound))
      case Some(i) => Outcome(st.(accounts := Credit(st.accounts, i, amount)), Success(()))
  }

  /** Pay: amount, then account, then balance are checked; on success the balance
      is debited and an in-progress payment with the given ID is appended. */
  function Pay(st: State, accountID: int, amount: Money, category: PaymentCategory, paymentID: string): (o: Outcome<Payment>)
    ensures o.result.Failure? ==> o.state == st
    ensures o.result.Success? ==> o.result.value.status == StatusInProgress && o.result.value.amount > 0
    ensures |o.state.accounts| == |st.accounts| && o.state.nextAccountID == st.nextAccountID
    ensures o.state.favorites == st.favorites
  {
    if amount <= 0 then Outcome(st, Failure(AmountMustBePositive))
    else match AccountIndex(st.accounts, accountID)
      case None => Outcome(st, Failure(AccountNotFound))
      case Some(i) =>
        if st.accounts[i].balance < amount then Outcome(st, Failure(NotEnoughBalance))
        else
          var payment := Payment(paymentID, accountID, amount, category, StatusInProgress);
          Outcome(st.(accounts := Credit(st.accounts, i, -amount), payments := st.payments + [payment]), Success(payment))
  }

  /** Reject: the payment is marked FAIL and its amount is credited back to the
      first account with its accountID. The status is not checked. */
  function Reject(st: State, paymentID: string): (o: Outcome<()>)
    ensures o.result.Failure? ==> o.state == st
    ensures |o.state.accounts| == |st.accounts| && |o.state.payments| == |st.payments|
    ensures o.state.nextAccountID == st.nextAccountID && o.state.favorites == st.favorites
  {
    match PaymentIndex(st.payments, paymentID)
    case None => Outcome(st, Failure(PaymentNotFound))
    case Some(k) =>
      var payment := st.payments[k];
      match AccountIndex(st.accounts, payment.accountID)
      case None => Outcome(st, Failure(AccountNotFound))
      case Some(i) =>
        Outcome(st.(payments := st.payments[k := payment.(status := StatusFail)],
                    accounts := Credit(st.accounts, i, payment.amount)), Success(()))
  }

  /** AddAccountWithBalance: Register, then Deposit into the new ID. A failed
      deposit is reported but the registered account stays. The returned account
      is the appended record as the deposit left it. */
  function AddAccountWithBalance(st: State, phone: Phone, balance: Money): (o: Outcome<Account>)
    ensures o.result == Failure(CannotRegisterAccount) ==> o.state == st
    ensures o.result != Failure(CannotRegisterAccount) ==> |o.state.accounts| == |st.accounts| + 1
    ensures o.state.payments == st.payments && o.state.favorites == st.favorites
  {
    var reg := Register(st, phone);
    if reg.result.Failure? then Outcome(reg.state, Failure(CannotRegisterAccount))
    else
      var dep := Deposit(reg.state, reg.result.value.id, balance);
      if dep.result.Failure? then Outcome(dep.state, Failure(CannotDepositAccount))
      else Outcome(dep.state, Success(dep.state.accounts[|st.accounts|]))
  }

  /** Repeat: Pay again with the stored payment's account, amount and category. */
  function Repeat(st: State, paymentID: string, newPaymentID: string): (o: Outcome<Payment>)
    ensures o.result.Failure? ==> o.state == st
    ensures o.state.favorites == st.favorites
  {
    match PaymentIndex(st.payments, paymentID)
    case None => Outcome(st, Failure(PaymentNotFound))
    case Some(k) =>
      var p := st.payments[k];
      Pay(st, p.accountID, p.amount, p.category, newPaymentID)
  }

  /** FavoritePayment: a favorite copying the payment's account, amount and category is appended. */
  function FavoritePayment(st: State, paymentID: string, name: string, favoriteID: string): (o: Outcome<Favorite>)
    ensures o.result.Failure? ==> o.state == st
    ensures o.state.accounts == st.accounts && o.state.payments == st.payments
  {
    match PaymentIndex(st.payments, paymentID)
    case None => Outcome(st, Failure(PaymentNotFound))
    case Some(k) =>
      var p := st.payments[k];
      var favorite := Favorite(favoriteID, p.accountID, name, p.amount, p.category);
      Outcome(st.(favorites := st.favorites + [favorite]), Success(favorite))
  }

  /** PayFromFavorite: Pay with the stored favorite's account, amount and category. */
  function PayFromFavorite(st: State, favoriteID: string, paymentID: string): (o: Outcome<Payment>)
    ensures o.result.Failure? ==> o.state == st
    ensures o.state.favorites == st.favorites
  {
    match FavoriteIndex(st.favorites, favoriteID)
    case None => Outcome(st, Failure(FavoriteNotFound))
    case Some(k) =>
      var f := st.favorites[k];
      Pay(st, f.accountID, f.amount, f.category, paymentID)
  }

  /** ExportAccountHistory: copies of the account's payments in list order; no
      payment at all is reported as an unknown account. */
  function AccountHistory(payments: seq<Payment>, accountID: int): (r: Result<seq<Payment>>)
    ensures r.Failure? ==> r.error == AccountNotFound
    ensures r.Success? ==> 0 < |r.value| <= |payments|
  {
    var h := Filter(payments, ByAccount(accountID));
    if |h| == 0 then Failure(AccountNotFound) else Success(h)
  }

  /** The history holds only the account's payments, and it is missing exactly when
      no payment belongs to the account. */
  lemma AccountHistoryMeaning(payments: seq<Payment>, accountID: int)
    ensures var r := AccountHistory(payments, accountID);
      && (r.Success? ==> forall j :: 0 <= j < |r.value| ==> r.value[j] in payments && r.value[j].accountID == accountID)
      && (r.Success? ==> forall j :: 0 <= j < |payments| && payments[j].accountID == accountID ==> payments[j] in r.value)
      && (r.Failure? <==> forall j :: 0 <= j < |payments| ==> payments[j].accountID != accountID)
  {
    var h := Filter(payments, ByAccount(accountID));
    if |h| > 0 {
      assert h[0] in payments;
      var k :| 0 <= k < |payments| && payments[k] == h[0];
      assert payments[k].accountID == accountID;
    }
  }

  // ---------------------------------------------------------------------------
  // What each operation returns and changes

  /** Registration succeeds exactly for a phone not yet in use, with the next ID
      and a zero balance, and changes nothing else; a refusal changes nothing. */
  lemma RegisterOutcome(st: State, phone: Phone)
    ensures var o := Register(st, phone);
      && (o.result.Success? <==> !PhoneTaken(st.accounts, phone))
      && (o.result.Failure? ==> o.result.error == PhoneRegistered && o.state == st)
      && (o.result.Success? ==>
            && o.result.value == Account(st.nextAccountID + 1, phone, 0)
            && o.state.nextAccountID == st.nextAccountID + 1
            && o.state.accounts == st.accounts + [o.result.value]
            && o.state.payments == st.payments && o.state.favorites == st.favorites)
  {
  }

  /** A deposit fails for a non-positive amount first, then for an unknown account,
      changing nothing; otherwise it adds the amount to the first account with that
      ID, whose ID and phone stay as they were, and changes nothing else. */
  lemma DepositOutcome(st: State, accountID: int, amount: Money)
    ensures var o := Deposit(st, accountID, amount);
      && (o.result == Failure(AmountMustBePositive) <==> amount <= 0)
      && (o.result == Failure(AccountNotFound) <==> amount > 0 && !HasAccount(st.accounts, accountID))
      && (o.result.Failure? ==> o.state == st)
      && (o.result.Success? ==>
            var i := AccountIndex(st.accounts, accountID).value;
            && o.state.accounts == Credit(st.accounts, i, amount)
            && o.state.accounts[i] == st.accounts[i].(balance := st.accounts[i].balance + amount)
            && o.state.nextAccountID == st.nextAccountID
            && o.state.payments == st.payments && o.state.favorites == st.favorites)
  {
  }

  /** A payment fails for a non-positive amount, then an unknown account, then a
      balance below the amount, changing nothing; otherwise it debits the first
      account with that ID and appends an in-progress payment of that amount. */
  lemma PayOutcome(st: State, accountID: int, amount: Money, category: PaymentCategory, paymentID: string)
    ensures var o := Pay(st, accountID, amount, category, paymentID);
      && (o.result == Failure(AmountMustBePositive) <==> amount <= 0)
      && (o.result == Failure(AccountNotFound) <==> amount > 0 && !HasAccount(st.accounts, accountID))
      && (o.result == Failure(NotEnoughBalance) <==>
            amount > 0 && HasAccount(st.accounts, accountID) &&
            st.accounts[AccountIndex(st.accounts, accountID).value].balance < amount)
      && (o.result.Failure? ==> o.state == st)
      && (o.result.Success? ==>
            var i := AccountIndex(st.accounts, accountID).value;
            && o.result.value == Payment(paymentID, accountID, amount, category, StatusInProgress)
            && o.state.accounts == Credit(st.accounts, i, -amount)
            && o.state.accounts[i].balance >= 0
            && o.state.payments == st.payments + [o.result.value]
            && o.state.favorites == st.favorites && o.state.nextAccountID == st.nextAccountID)
  {
  }

  /** A rejection fails for an unknown payment, then for an unknown account of the
      payment, changing nothing; otherwise it marks the first payment with that ID
      FAIL, leaves every other payment alone and credits its amount back. */
  lemma RejectOutcome(st: State, paymentID: string)
    ensures var o := Reject(st, paymentID);
      && (o.result == Failure(PaymentNotFound) <==> PaymentIndex(st.payments, paymentID).None?)
      && (o.result == Failure(AccountNotFound) <==>
            PaymentIndex(st.payments, paymentID).Some? &&
            !HasAccount(st.accounts, st.payments[PaymentIndex(st.payments, paymentID).value].accountID))
      && (o.result.Success? <==>
            PaymentIndex(st.payments, paymentID).Some? &&
            HasAccount(st.accounts, st.payments[PaymentIndex(st.payments, paymentID).value].accountID))
      && (o.result.Failure? ==> o.state == st)
      && (o.result.Success? ==>
            var k := PaymentIndex(st.payments, paymentID).value;
            var i := AccountIndex(st.accounts, st.payments[k].accountID).value;
            && o.state.payments == st.payments[k := st.payments[k].(status := StatusFail)]
            && o.state.accounts == Credit(st.accounts, i, st.payments[k].amount)
            && o.state.favorites == st.favorites && o.state.nextAccountID == st.nextAccountID)
  {
  }

  /** A favorite copies the account, amount and category of the first payment with
      the given ID and is appended; an unknown payment changes nothing. */
  lemma FavoritePaymentOutcome(st: State, paymentID: string, name: string, favoriteID: string)
    ensures var o := FavoritePayment(st, paymentID, name, favoriteID);
      && (o.result.Failure? <==> PaymentIndex(st.payments, paymentID).None?)
      && (o.result.Failure? ==> o.result.error == PaymentNotFound && o.state == st)
      && (o.result.Success? ==>
            var p := st.payments[PaymentIndex(st.payments, paymentID).value];
            && o.result.value == Favorite(favoriteID, p.accountID, name, p.amount, p.category)
            && o.state == st.(favorites := st.favorites + [o.result.value]))
  {
  }

  // ---------------------------------------------------------------------------
  // Invariant of a ledger built by the operations from the zero service

  /** Account IDs are positive, at most the counter, and distinct. */
  ghost predicate IdsValid(next: int, accounts: seq<Account>)
  {
    && next >= 0
    && (forall i :: 0 <= i < |accounts| ==> 0 < accounts[i].id <= next)
    && (forall i, j :: 0 <= i < j < |accounts| ==> accounts[i].id != accounts[j].id)
  }

  ghost predicate BalancesValid(accounts: seq<Account>)
  {
    forall i :: 0 <= i < |accounts| ==> accounts[i].balance >= 0
  }

  /** Payments and favorites carry positive amounts and name existing accounts. */
  ghost predicate RefsValid(accounts: seq<Account>, payments: seq<Payment>, favorites: seq<Favorite>)
  {
    && (forall k :: 0 <= k < |payments| ==> payments[k].amount > 0)
    && (forall k :: 0 <= k < |payments| ==> HasAccount(accounts, payments[k].accountID))
    && (forall k :: 0 <= k < |favorites| ==> favorites[k].amount > 0)
    && (forall k :: 0 <= k < |favorites| ==> HasAccount(accounts, favorites[k].accountID))
  }

  ghost predicate Valid(st: State)
  {
    && IdsValid(st.nextAccountID, st.accounts)
    && BalancesValid(st.accounts)
    && RefsValid(st.accounts, st.payments, st.favorites)
  }

  lemma HasAccountCredit(accounts: seq<Account>, i: nat, delta: Money, id: int)
    requires i < |accounts|
    ensures HasAccount(Credit(accounts, i, delta), id) == HasAccount(accounts, id)
  {
    var c := Credit(accounts, i, delta);
    if HasAccount(accounts, id) {
      var j :| 0 <= j < |accounts| && accounts[j].id == id;
      assert c[j].id == id;
    }
    if HasAccount(c, id) {
      var j :| 0 <= j < |c| && c[j].id == id;
      assert accounts[j].id == id;
    }
  }

  lemma HasAccountAppend(accounts: seq<Account>, a: Account, id: int)
    requires HasAccount(accounts, id)
    ensures HasAccount(accounts + [a], id)
  {
    var j :| 0 <= j < |accounts| && accounts[j].id == id;
    assert (accounts + [a])[j].id == id;
  }

  lemma CreditKeepsRefs(accounts: seq<Account>, i: nat, delta: Money, payments: seq<Payment>, favorites: seq<Favorite>)
    requires i < |accounts| && RefsValid(accounts, payments, favorites)
    ensures RefsValid(Credit(accounts, i, delta), payments, favorites)
  {
    forall k | 0 <= k < |payments| ensures HasAccount(Credit(accounts, i, delta), payments[k].accountID) {
      HasAccountCredit(accounts, i, delta, payments[k].accountID);
    }
    forall k | 0 <= k < |favorites| ensures HasAccount(Credit(accounts, i, delta), favorites[k].accountID) {
      HasAccountCredit(accounts, i, delta, favorites[k].accountID);
    }
  }

  lemma AppendKeepsRefs(accounts: seq<Account>, a: Account, payments: seq<Payment>, favorites: seq<Favorite>)
    requires RefsValid(accounts, payments, favorites)
    ensures RefsValid(accounts + [a], payments, favorites)
  {
    forall k | 0 <= k < |payments| ensures HasAccount(accounts + [a], payments[k].accountID) {
      HasAccountAppend(accounts, a, payments[k].accountID);
    }
    forall k | 0 <= k < |favorites| ensures HasAccount(accounts + [a], favorites[k].accountID) {
      HasAccountAppend(accounts, a, favorites[k].accountID);
    }
  }

  /** An account with the next ID keeps the IDs valid and is found at the end. */
  lemma AppendKeepsIds(next: int, accounts: seq<Account>, a: Account)
    requires IdsValid(next, accounts) && a.id == next + 1
    ensures IdsValid(a.id, accounts + [a])
    ensures AccountIndex(accounts + [a], a.id) == Some(|accounts|)
  {
    var accs := accounts + [a];
    assert forall i :: 0 <= i < |accounts| ==> accs[i] == accounts[i];
    assert accs[|accounts|] == a;
    assert AccountIndex(accounts, a.id).None?;
    AccountIndexAppend(accounts, a, a.id);
  }

  lemma EmptyIsValid()
    ensures Valid(Empty)
  {
  }

  /** Appending an account with the next ID and a non-negative balance keeps the
      invariant, and the account is then found under its ID at the end. */
  lemma ValidAppendAccount(st: State, a: Account)
    requires Valid(st) && a.id == st.nextAccountID + 1 && a.balance >= 0
    ensures Valid(st.(nextAccountID := a.id, accounts := st.accounts + [a]))
    ensures AccountIndex(st.accounts + [a], a.id) == Some(|st.accounts|)
  {
    AppendKeepsIds(st.nextAccountID, st.accounts, a);
    AppendKeepsRefs(st.accounts, a, st.payments, st.favorites);
    assert (st.accounts + [a])[|st.accounts|] == a;
  }

  /** Registering keeps IDs distinct and within the counter; the new account is
      the one a lookup of its ID finds. */
  lemma RegisterPreservesValid(st: State, phone: Phone)
    requires Valid(st)
    ensures Valid(Register(st, phone).state)
    ensures Register(st, phone).result.Success? ==>
      AccountIndex(Register(st, phone).state.accounts, st.nextAccountID + 1) == Some(|st.accounts|)
  {
    var o := Register(st, phone);
    if PhoneTaken(st.accounts, phone) {
      assert o.state == st;
    } else {
      var a := Account(st.nextAccountID + 1, phone, 0);
      ValidAppendAccount(st, a);
      assert o.state == st.(nextAccountID := a.id, accounts := st.accounts + [a]);
    }
  }

  /** A deposit of a positive amount keeps balances non-negative. */
  lemma DepositPreservesValid(st: State, accountID: int, amount: Money)
    requires Valid(st)
    ensures Valid(Deposit(st, accountID, amount).state)
  {
    if amount > 0 && AccountIndex(st.accounts, accountID).Some? {
      CreditKeepsRefs(st.accounts, AccountIndex(st.accounts, accountID).value, amount, st.payments, st.favorites);
    }
  }

  /** A payment never overdraws: the balance was at least the amount. */
  lemma PayPreservesValid(st: State, accountID: int, amount: Money, category: PaymentCategory, paymentID: string)
    requires Valid(st)
    ensures Valid(Pay(st, accountID, amount, category, paymentID).state)
  {
    var o := Pay(st, accountID, amount, category, paymentID);
    if o.result.Success? {
      var i := AccountIndex(st.accounts, accountID).value;
      CreditKeepsRefs(st.accounts, i, -amount, st.payments, st.favorites);
      HasAccountCredit(st.accounts, i, -amount, accountID);
      assert HasAccount(st.accounts, accountID);
    }
  }

  lemma RejectPreservesValid(st: State, paymentID: string)
    requires Valid(st)
    ensures Valid(Reject(st, paymentID).state)
  {
    var o := Reject(st, paymentID);
    if o.result.Success? {
      var k := PaymentIndex(st.payments, paymentID).value;
      var i := AccountIndex(st.accounts, st.payments[k].accountID).value;
      CreditKeepsRefs(st.accounts, i, st.payments[k].amount, st.payments, st.favorites);
    }
  }

  lemma FavoritePaymentPreservesValid(st: State, paymentID: string, name: string, favoriteID: string)
    requires Valid(st)
    ensures Valid(FavoritePayment(st, paymentID, name, favoriteID).state)
  {
  }

  /** Registering and then depositing keeps the invariant, whether or not the
      deposit succeeds. */
  lemma AddAccountWithBalancePreservesValid(st: State, phone: Phone, balance: Money)
    requires Valid(st)
    ensures Valid(AddAccountWithBalance(st, phone, balance).state)
  {
    var reg := Register(st, phone);
    RegisterPreservesValid(st, phone);
    if reg.result.Success? {
      DepositPreservesValid(reg.state, reg.result.value.id, balance);
    }
  }

  /** Repeating a payment keeps the invariant. */
  lemma RepeatPreservesValid(st: State, paymentID: string, newPaymentID: string)
    requires Valid(st)
    ensures Valid(Repeat(st, paymentID, newPaymentID).state)
  {
    match PaymentIndex(st.payments, paymentID)
    case None =>
    case Some(k) =>
      var p := st.payments[k];
      PayPreservesValid(st, p.accountID, p.amount, p.category, newPaymentID);
  }

  /** Paying from a favorite keeps the invariant. */
  lemma PayFromFavoritePreservesValid(st: State, favoriteID: string, paymentID: string)
    requires Valid(st)
    ensures Valid(PayFromFavorite(st, favoriteID, paymentID).state)
  {
    match FavoriteIndex(st.favorites, favoriteID)
    case None =>
    case Some(k) =>
      var f := st.favorites[k];
      PayPreservesValid(st, f.accountID, f.amount, f.category, paymentID);
  }

  /** On a valid ledger the two error results of AddAccountWithBalance mean a taken
      phone and a non-positive balance, and a success appends exactly the account
      with the next ID, the phone and the balance. */
  lemma AddAccountWithBalanceOnValid(st: State, phone: Phone, balance: Money)
    requires Valid(st)
    ensures var o := AddAccountWithBalance(st, phone, balance);
      && (o.result == Failure(CannotRegisterAccount) <==> PhoneTaken(st.accounts, phone))
      && (o.result == Failure(CannotDepositAccount) <==> !PhoneTaken(st.accounts, phone) && balance <= 0)
      && (o.result.Success? ==>
            o.result.value == Account(st.nextAccountID + 1, phone, balance) &&
            o.state == st.(nextAccountID := st.nextAccountID + 1, accounts := st.accounts + [o.result.value]))
  {
    if !PhoneTaken(st.accounts, phone) {
      RegisterPreservesValid(st, phone);
      var accs := st.accounts + [Account(st.nextAccountID + 1, phone, 0)];
      assert Credit(accs, |st.accounts|, balance) == st.accounts + [Account(st.nextAccountID + 1, phone, balance)];
    }
  }

  /** On a valid ledger a rejection can only fail for an unknown payment. */
  lemma RejectOnValid(st: State, paymentID: string)
    requires Valid(st)
    ensures Reject(st, paymentID).result.Success? <==> PaymentIndex(st.payments, paymentID).Some?
  {
    match PaymentIndex(st.payments, paymentID)
    case None =>
    case Some(k) =>
      assert HasAccount(st.accounts, st.payments[k].accountID);
  }

  /** On a valid ledger, repeating a known payment fails only when its account's
      balance is below the amount; the new payment copies the account, amount
      and category and is in progress. */
  lemma RepeatOnValid(st: State, paymentID: string, newPaymentID: string)
    requires Valid(st)
    ensures var o := Repeat(st, paymentID, newPaymentID);
      && (PaymentIndex(st.payments, paymentID).None? ==> o.result == Failure(PaymentNotFound) && o.state == st)
      && (PaymentIndex(st.payments, paymentID).Some? ==>
            var p := st.payments[PaymentIndex(st.payments, paymentID).value];
            var i := AccountIndex(st.accounts, p.accountID).value;
            && AccountIndex(st.accounts, p.accountID).Some?
            && (o.result.Success? <==> st.accounts[i].balance >= p.amount)
            && (o.result.Success? ==> o.result.value == Payment(newPaymentID, p.accountID, p.amount, p.category, StatusInProgress)))
  {
    match PaymentIndex(st.payments, paymentID)
    case None =>
    case Some(k) =>
      var p := st.payments[k];
      assert p.amount > 0 && HasAccount(st.accounts, p.accountID);
      PayOutcome(st, p.accountID, p.amount, p.category, newPaymentID);
  }

  /** On a valid ledger, paying from a known favorite fails only when its account's
      balance is below the amount; the payment copies the favorite's account,
      amount and category. */
  lemma PayFromFavoriteOnValid(st: State, favoriteID: string, paymentID: string)
    requires Valid(st)
    ensures var o := PayFromFavorite(st, favoriteID, paymentID);
      && (FavoriteIndex(st.favorites, favoriteID).None? ==> o.result == Failure(FavoriteNotFound) && o.state == st)
      && (FavoriteIndex(st.favorites, favoriteID).Some? ==>
            var f := st.favorites[FavoriteIndex(st.favorites, favoriteID).value];
            var i := AccountIndex(st.accounts, f.accountID).value;
            && AccountIndex(st.accounts, f.accountID).Some?
            && (o.result.Success? <==> st.accounts[i].balance >= f.amount)
            && (o.result.Success? ==> o.result.value == Payment(paymentID, f.accountID, f.amount, f.category, StatusInProgress)))
  {
    match FavoriteIndex(st.favorites, favoriteID)
    case None =>
    case Some(k) =>
      var f := st.favorites[k];
      assert f.amount > 0 && HasAccount(st.accounts, f.accountID);
      PayOutcome(st, f.accountID, f.amount, f.category, paymentID);
  }

  // ---------------------------------------------------------------------------
  // Money accounting

  function BalanceOf(a: Account): int { a.balance }

  function PendingAmount(p: Payment): int
  {
    if p.status == StatusInProgress then p.amount else 0
  }

  /** Money held: all balances plus the amounts of payments still in progress. */
  function Holdings(st: State): int
  {
    SumBy(st.accounts, BalanceOf) + SumBy(st.payments, PendingAmount)
  }

  lemma CreditTotal(accounts: seq<Account>, i: nat, delta: Money)
    requires i < |accounts|
    ensures SumBy(Credit(accounts, i, delta), BalanceOf) == SumBy(accounts, BalanceOf) + delta
  {
    SumByUpdate(accounts, i, accounts[i].(balance := accounts[i].balance + delta), BalanceOf);
  }

  /** A deposit adds exactly its amount to the money held. */
  lemma DepositAddsAmount(st: State, accountID: int, amount: Money)
    ensures Deposit(st, accountID, amount).result.Success? ==>
      Holdings(Deposit(st, accountID, amount).state) == Holdings(st) + amount
  {
    if Deposit(st, accountID, amount).result.Success? {
      CreditTotal(st.accounts, AccountIndex(st.accounts, accountID).value, amount);
    }
  }

  /** A payment moves its amount from a balance to an in-progress payment. */
  lemma PayConservesHoldings(st: State, accountID: int, amount: Money, category: PaymentCategory, paymentID: string)
    ensures Holdings(Pay(st, accountID, amount, category, paymentID).state) == Holdings(st)
  {
    var o := Pay(st, accountID, amount, category, paymentID);
    if o.result.Success? {
      CreditTotal(st.accounts, AccountIndex(st.accounts, accountID).value, -amount);
      assert o.state.payments[..|o.state.payments| - 1] == st.payments;
    }
  }

  /** Rejecting an in-progress payment moves its amount back to the balance. */
  lemma RejectConservesHoldings(st: State, paymentID: string)
    requires PaymentIndex(st.payments, paymentID).Some?
    requires st.payments[PaymentIndex(st.payments, paymentID).value].status == StatusInProgress
    ensures Holdings(Reject(st, paymentID).state) == Holdings(st)
  {
    var o := Reject(st, paymentID);
    if o.result.Success? {
      var k := PaymentIndex(st.payments, paymentID).value;
      var p := st.payments[k];
      CreditTotal(st.accounts, AccountIndex(st.accounts, p.accountID).value, p.amount);
      SumByUpdate(st.payments, k, p.(status := StatusFail), PendingAmount);
    }
  }

  /** Reject does not look at the status: rejecting the same payment again refunds
      its amount a second time. */
  lemma RejectTwiceRefundsTwice(st: State, paymentID: string)
    requires Reject(st, paymentID).result.Success?
    requires st.payments[PaymentIndex(st.payments, paymentID).value].status == StatusInProgress
    ensures var once := Reject(st, paymentID).state;
      && Reject(once, paymentID).result.Success?
      && Holdings(Reject(once, paymentID).state) == Holdings(st) + st.payments[PaymentIndex(st.payments, paymentID).value].amount
  {
    var k := PaymentIndex(st.payments, paymentID).value;
    var p := st.payments[k];
    var i := AccountIndex(st.accounts, p.accountID).value;
    var once := Reject(st, paymentID).state;
    RejectConservesHoldings(st, paymentID);
    assert PaymentIndex(once.payments, paymentID) == Some(k) by {
      assert forall j :: 0 <= j < |once.payments| ==> once.payments[j].id == st.payments[j].id;
    }
    AccountIndexCredit(st.accounts, i, p.amount, p.accountID);
    CreditTotal(once.accounts, i, p.amount);
    SumByUpdate(once.payments, k, once.payments[k].(status := StatusFail), PendingAmount);
  }

  /** Pay followed by Reject of the new payment restores every balance and leaves
      the payment recorded as failed (the payment ID must be unused, as a fresh
      UUID is). */
  lemma PayThenRejectRestoresBalances(st: State, accountID: int, amount: Money, category: PaymentCategory, paymentID: string)
    requires PaymentIndex(st.payments, paymentID).None?
    requires Pay(st, accountID, amount, category, paymentID).result.Success?
    ensures var paid := Pay(st, accountID, amount, category, paymentID);
      Reject(paid.state, paymentID) ==
        Outcome(st.(payments := st.payments + [paid.result.value.(status := StatusFail)]), Success(()))
  {
    var paid := Pay(st, accountID, amount, category, paymentID);
    var p := paid.result.value;
    var i := AccountIndex(st.accounts, accountID).value;
    assert PaymentIndex(paid.state.payments, paymentID) == Some(|st.payments|) by {
      assert paid.state.payments[|st.payments|].id == paymentID;
      assert forall j :: 0 <= j < |st.payments| ==> paid.state.payments[j] == st.payments[j];
    }
    AccountIndexCredit(st.accounts, i, -amount, accountID);
    assert Credit(Credit(st.accounts, i, -amount), i, amount) == st.accounts;
    assert paid.state.payments[|st.payments| := p.(status := StatusFail)] == st.payments + [p.(status := StatusFail)];
  }
}
