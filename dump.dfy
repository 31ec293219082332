/** The text formats the service writes and reads back.

    The dump directory (Export / Import): one file per collection, one line per
    record, fields separated by ';' and the line ended by '\n'. Export appends the
    lines of every record to the files of the directory; Import reads every
    complete line of every file of the directory, in directory order, and merges
    the record it describes into the service: a record whose ID is already present
    overwrites that one, any other is appended.

    The account file (ExportToFile / ImportFromFile): every account as
    `id;phone;balance|`, all in one file; reading splits at '|' and appends the
    accounts up to the first empty piece. */
module Dump {
  import opened Types
  import opened Seqs
  import opened Text
  import opened Ledger

  /** A file: the path written, or the name listed in the directory read, and its text. */
  datatype File = File(name: string, content: string)

  const AccountsDump := "accounts.dump"
  const FavoritesDump := "favorites.dump"
  const PaymentsDump := "payments.dump"

  // ---------------------------------------------------------------------------
  // Encoders

  /** The fields of an account in both formats: ID, phone, balance. */
  function AccountFields(a: Account): seq<string>
  {
    [FormatInt(a.id), a.phone, FormatInt(a.balance)]
  }

  function PaymentFields(p: Payment): seq<string>
  {
    [p.id, FormatInt(p.accountID), FormatInt(p.amount), p.category, p.status]
  }

  function FavoriteFields(f: Favorite): seq<string>
  {
    [f.id, FormatInt(f.accountID), f.name, FormatInt(f.amount), f.category]
  }

  function AccountLine(a: Account): string
  {
    Join(AccountFields(a), ';') + "\n"
  }

  function PaymentLine(p: Payment): string
  {
    Join(PaymentFields(p), ';') + "\n"
  }

  function FavoriteLine(f: Favorite): string
  {
    Join(FavoriteFields(f), ';') + "\n"
  }

  function AccountLines(accounts: seq<Account>): (r: seq<string>)
    ensures |r| == |accounts|
    ensures forall i :: 0 <= i < |r| ==> r[i] == AccountLine(accounts[i])
  {
    if accounts == [] then [] else [AccountLine(accounts[0])] + AccountLines(accounts[1..])
  }

  function PaymentLines(payments: seq<Payment>): (r: seq<string>)
    ensures |r| == |payments|
    ensures forall i :: 0 <= i < |r| ==> r[i] == PaymentLine(payments[i])
  {
    if payments == [] then [] else [PaymentLine(payments[0])] + PaymentLines(payments[1..])
  }

  function FavoriteLines(favorites: seq<Favorite>): (r: seq<string>)
    ensures |r| == |favorites|
    ensures forall i :: 0 <= i < |r| ==> r[i] == FavoriteLine(favorites[i])
  {
    if favorites == [] then [] else [FavoriteLine(favorites[0])] + FavoriteLines(favorites[1..])
  }

  /** The file a collection's lines go to; a collection without records opens no file. */
  function DumpFile(path: string, lines: seq<string>): seq<File>
  {
    if lines == [] then [] else [File(path, Flatten(lines))]
  }

  /** What Export appends, file by file, in the order it writes them. */
  function Export(st: State, dir: string): (files: seq<File>)
    ensures |files| <= 3
    ensures forall k :: 0 <= k < |files| ==> files[k].content != ""
  {
    DumpFile(dir + "/" + AccountsDump, AccountLines(st.accounts))
    + DumpFile(dir + "/" + PaymentsDump, PaymentLines(st.payments))
    + DumpFile(dir + "/" + FavoritesDump, FavoriteLines(st.favorites))
  }

  /** The directory that Export leaves when it starts from an empty one, as the
      directory read lists it: by name, so accounts, favorites, payments. */
  function Listing(st: State): seq<File>
  {
    DumpFile(AccountsDump, AccountLines(st.accounts))
    + DumpFile(FavoritesDump, FavoriteLines(st.favorites))
    + DumpFile(PaymentsDump, PaymentLines(st.payments))
  }

  // ---------------------------------------------------------------------------
  // Decoders

  /** The fields a converter indexes; on a line with fewer the source indexes past
      the end of the split and panics. The lines of any other file are split and dropped. */
  function Arity(name: string): nat
  {
    if name == AccountsDump then 3
    else if name == FavoritesDump || name == PaymentsDump then 5
    else 0
  }

  /** convertToAccount and the append after it: the account the fields describe is
      afterwards the first account with its ID, whether it overwrote the old one or
      was appended (which also advances nextAccountID). Only the balance is trimmed. */
  function ConvertToAccount(st: State, item: seq<string>): (r: State)
    requires |item| >= 3
    ensures r.payments == st.payments && r.favorites == st.favorites
    ensures var a := Account(ParseIntOrZero(item[0]), item[1], ParseIntOrZero(RemoveEndLine(item[2])));
      && AccountIndex(r.accounts, a.id).Some?
      && r.accounts[AccountIndex(r.accounts, a.id).value] == a
    ensures AccountIndex(st.accounts, ParseIntOrZero(item[0])).None? <==> |r.accounts| == |st.accounts| + 1
    ensures |r.accounts| == |st.accounts| + 1 ==> r.nextAccountID == st.nextAccountID + 1 && r.accounts[..|st.accounts|] == st.accounts
    ensures |r.accounts| == |st.accounts| ==> r.nextAccountID == st.nextAccountID
    ensures var a := Account(ParseIntOrZero(item[0]), item[1], ParseIntOrZero(RemoveEndLine(item[2])));
      match AccountIndex(st.accounts, a.id)
      case None => r.accounts == st.accounts + [a]
      case Some(i) => r.accounts == st.accounts[i := a]
  {
    var a := Account(ParseIntOrZero(item[0]), item[1], ParseIntOrZero(RemoveEndLine(item[2])));
    match AccountIndex(st.accounts, a.id)
    case None =>
      AccountIndexAppend(st.accounts, a, a.id);
      st.(nextAccountID := st.nextAccountID + 1, accounts := st.accounts + [a])
    case Some(i) =>
      AccountIndexSet(st.accounts, i, a);
      st.(accounts := st.accounts[i := a])
  }

  /** convertToPayments and the append after it. A new payment's status is trimmed;
      an existing payment is overwritten with the status as read, '\n' included. */
  function ConvertToPayment(st: State, item: seq<string>): (r: State)
    requires |item| >= 5
    ensures r.nextAccountID == st.nextAccountID && r.accounts == st.accounts && r.favorites == st.favorites
    ensures var isNew := PaymentIndex(st.payments, item[0]).None?;
      var p := Payment(item[0], ParseIntOrZero(item[1]), ParseIntOrZero(item[2]), item[3],
                       if isNew then RemoveEndLine(item[4]) else item[4]);
      && PaymentIndex(r.payments, item[0]).Some?
      && r.payments[PaymentIndex(r.payments, item[0]).value] == p
      && (isNew <==> |r.payments| == |st.payments| + 1)
      && (isNew ==> r.payments[..|st.payments|] == st.payments)
      && (isNew ==> r.payments == st.payments + [p])
      && (!isNew ==> r.payments == st.payments[PaymentIndex(st.payments, item[0]).value := p])
  {
    var isNew := PaymentIndex(st.payments, item[0]).None?;
    var p := Payment(item[0], ParseIntOrZero(item[1]), ParseIntOrZero(item[2]), item[3],
                     if isNew then RemoveEndLine(item[4]) else item[4]);
    match PaymentIndex(st.payments, p.id)
    case None =>
      PaymentIndexAppend(st.payments, p, p.id);
      st.(payments := st.payments + [p])
    case Some(k) =>
      PaymentIndexSet(st.payments, k, p);
      st.(payments := st.payments[k := p])
  }

  /** convertToFavorites and the append after it. A new favorite keeps the category
      as read, '\n' included; an existing favorite is overwritten with it trimmed. */
  function ConvertToFavorite(st: State, item: seq<string>): (r: State)
    requires |item| >= 5
    ensures r.nextAccountID == st.nextAccountID && r.accounts == st.accounts && r.payments == st.payments
    ensures var isNew := FavoriteIndex(st.favorites, item[0]).None?;
      var f := Favorite(item[0], ParseIntOrZero(item[1]), item[2], ParseIntOrZero(item[3]),
                        if isNew then item[4] else RemoveEndLine(item[4]));
      && FavoriteIndex(r.favorites, item[0]).Some?
      && r.favorites[FavoriteIndex(r.favorites, item[0]).value] == f
      && (isNew <==> |r.favorites| == |st.favorites| + 1)
      && (isNew ==> r.favorites[..|st.favorites|] == st.favorites)
      && (isNew ==> r.favorites == st.favorites + [f])
      && (!isNew ==> r.favorites == st.favorites[FavoriteIndex(st.favorites, item[0]).value := f])
  {
    var isNew := FavoriteIndex(st.favorites, item[0]).None?;
    var f := Favorite(item[0], ParseIntOrZero(item[1]), item[2], ParseIntOrZero(item[3]),
                      if isNew then item[4] else RemoveEndLine(item[4]));
    match FavoriteIndex(st.favorites, f.id)
    case None =>
      FavoriteIndexAppend(st.favorites, f, f.id);
      st.(favorites := st.favorites + [f])
    case Some(k) =>
      FavoriteIndexSet(st.favorites, k, f);
      st.(favorites := st.favorites[k := f])
  }

  /** One line of the file called `name`; None where the source panics. */
  function ImportLine(st: State, name: string, line: string): (r: Option<State>)
    ensures r.None? <==> |Split(line, ';')| < Arity(name)
  {
    var item := Split(line, ';');
    if |item| < Arity(name) then None
    else if name == AccountsDump then Some(ConvertToAccount(st, item))
    else if name == FavoritesDump then Some(ConvertToFavorite(st, item))
    else if name == PaymentsDump then Some(ConvertToPayment(st, item))
    else Some(st)
  }

  /** The lines of one file, in order; None at the first line that panics. */
  function ImportLines(st: State, name: string, lines: seq<string>): (r: Option<State>)
    decreases |lines|
  {
    if lines == [] then Some(st)
    else match ImportLine(st, name, lines[0])
      case None => None
      case Some(st') =>
        ImportLines(st', name, lines[1..])
  }

  /** Import: the complete lines of every listed file, file by file. */
  function Import(st: State, files: seq<File>): Option<State>
    decreases |files|
  {
    if files == [] then Some(st)
    else match ImportLines(st, files[0].name, Lines(files[0].content))
      case None => None
      case Some(st') => Import(st', files[1..])
  }

  /** A line panics or not whatever the state: only its field count decides. */
  predicate ShortLine(name: string, line: string)
  {
    |Split(line, ';')| < Arity(name)
  }

  /** The lines of a file stop the import exactly when one of them is short. */
  lemma {:induction false} ImportLinesPanics(st: State, name: string, lines: seq<string>)
    ensures ImportLines(st, name, lines).None? <==> exists i :: 0 <= i < |lines| && ShortLine(name, lines[i])
    decreases |lines|
  {
    if lines != [] {
      if !ShortLine(name, lines[0]) {
        var st' := ImportLine(st, name, lines[0]).value;
        ImportLinesPanics(st', name, lines[1..]);
        assert forall i :: 1 <= i < |lines| ==> lines[i] == lines[1..][i - 1];
        if ImportLines(st', name, lines[1..]).None? {
          var i :| 0 <= i < |lines[1..]| && ShortLine(name, lines[1..][i]);
          assert ShortLine(name, lines[i + 1]);
        }
      }
    }
  }

  /** Importing a directory stops, with no state, exactly when some file holds a
      short line; which state it starts from does not matter. */
  lemma {:induction false} ImportPanics(st: State, files: seq<File>)
    ensures Import(st, files).None? <==>
      exists k, i :: 0 <= k < |files| && 0 <= i < |Lines(files[k].content)| && ShortLine(files[k].name, Lines(files[k].content)[i])
    decreases |files|
  {
    if files != [] {
      var lines := Lines(files[0].content);
      ImportLinesPanics(st, files[0].name, lines);
      match ImportLines(st, files[0].name, lines)
      case None =>
        var i :| 0 <= i < |lines| && ShortLine(files[0].name, lines[i]);
        assert 0 <= 0 < |files| && 0 <= i < |Lines(files[0].content)| && ShortLine(files[0].name, Lines(files[0].content)[i]);
      case Some(st') =>
        ImportPanics(st', files[1..]);
        if Import(st', files[1..]).None? {
          var k, i :| 0 <= k < |files[1..]| && 0 <= i < |Lines(files[1..][k].content)| && ShortLine(files[1..][k].name, Lines(files[1..][k].content)[i]);
          assert files[1..][k] == files[k + 1];
        } else {
          forall k, i | 0 <= k < |files| && 0 <= i < |Lines(files[k].content)|
            ensures !ShortLine(files[k].name, Lines(files[k].content)[i])
          {
            if k > 0 {
              assert files[k] == files[1..][k - 1];
            }
          }
        }
    }
  }

  // ---------------------------------------------------------------------------
  // Round trips of the dump directory

  /** A field that a dump line carries unchanged: no separator, no newline. */
  predicate PlainField(s: string)
  {
    ';' !in s && '\n' !in s
  }

  /** The last field of a line must also not end in '\r', which the trim would take. */
  predicate LastField(s: string)
  {
    PlainField(s) && (s == [] || s[|s| - 1] != '\r')
  }

  predicate DumpableAccounts(accounts: seq<Account>)
  {
    && (forall i :: 0 <= i < |accounts| ==> PlainField(accounts[i].phone))
    && (forall i, j :: 0 <= i < j < |accounts| ==> accounts[i].id != accounts[j].id)
  }

  predicate DumpablePayments(payments: seq<Payment>)
  {
    && (forall i :: 0 <= i < |payments| ==> PlainField(payments[i].id) && PlainField(payments[i].category) && LastField(payments[i].status))
    && (forall i, j :: 0 <= i < j < |payments| ==> payments[i].id != payments[j].id)
  }

  predicate DumpableFavorites(favorites: seq<Favorite>)
  {
    && (forall i :: 0 <= i < |favorites| ==> PlainField(favorites[i].id) && PlainField(favorites[i].name) && PlainField(favorites[i].category))
    && (forall i, j :: 0 <= i < j < |favorites| ==> favorites[i].id != favorites[j].id)
  }

  /** The favorites as Import rebuilds them from their lines: category with its '\n'. */
  function WithLineEnd(favorites: seq<Favorite>): (r: seq<Favorite>)
    ensures |r| == |favorites|
  {
    seq(|favorites|, i requires 0 <= i < |favorites| => favorites[i].(category := favorites[i].category + "\n"))
  }

  lemma WithLineEndCons(favorites: seq<Favorite>)
    requires favorites != []
    ensures WithLineEnd(favorites)[0] == favorites[0].(category := favorites[0].category + "\n")
    ensures WithLineEnd(favorites)[1..] == WithLineEnd(favorites[1..])
  {
  }

  lemma FormatIntChars(x: int)
    ensures PlainField(FormatInt(x)) && '|' !in FormatInt(x)
    ensures !IsLineEnd(FormatInt(x)[|FormatInt(x)| - 1])
  {
    var s := FormatInt(x);
    assert forall i :: 0 <= i < |s| ==> s[i] != ';' && s[i] != '\n' && s[i] != '|';
  }

  /** A line of fields free of ';' and '\n' is one record line, and splits into
      those fields with the '\n' left on the last one. */
  lemma JoinIsLine(fields: seq<string>)
    requires |fields| >= 1
    requires forall i :: 0 <= i < |fields| ==> '\n' !in fields[i]
    ensures IsLine(Join(fields, ';') + "\n")
  {
    var l := Join(fields, ';') + "\n";
    JoinFree(fields, ';', '\n');
    assert l[..|l| - 1] == Join(fields, ';');
  }

  lemma SplitLine(fields: seq<string>)
    requires |fields| >= 1
    requires forall i :: 0 <= i < |fields| ==> PlainField(fields[i])
    ensures IsLine(Join(fields, ';') + "\n")
    ensures Split(Join(fields, ';') + "\n", ';') == fields[..|fields| - 1] + [fields[|fields| - 1] + "\n"]
  {
    JoinIsLine(fields);
    SplitJoinExtended(fields, ';', "\n");
  }

  lemma SplitAccountLine(a: Account)
    requires PlainField(a.phone)
    ensures IsLine(AccountLine(a))
    ensures Split(AccountLine(a), ';') == [FormatInt(a.id), a.phone, FormatInt(a.balance) + "\n"]
  {
    FormatIntChars(a.id);
    FormatIntChars(a.balance);
    SplitLine(AccountFields(a));
  }

  lemma SplitPaymentLine(p: Payment)
    requires PlainField(p.id) && PlainField(p.category) && PlainField(p.status)
    ensures IsLine(PaymentLine(p))
    ensures Split(PaymentLine(p), ';') == [p.id, FormatInt(p.accountID), FormatInt(p.amount), p.category, p.status + "\n"]
  {
    FormatIntChars(p.accountID);
    FormatIntChars(p.amount);
    SplitLine(PaymentFields(p));
  }

  lemma SplitFavoriteLine(f: Favorite)
    requires PlainField(f.id) && PlainField(f.name) && PlainField(f.category)
    ensures IsLine(FavoriteLine(f))
    ensures Split(FavoriteLine(f), ';') == [f.id, FormatInt(f.accountID), f.name, FormatInt(f.amount), f.category + "\n"]
  {
    FormatIntChars(f.accountID);
    FormatIntChars(f.amount);
    SplitLine(FavoriteFields(f));
  }

  /** The fields of an account line parse back to the account. */
  lemma ParseAccountLine(a: Account)
    requires PlainField(a.phone)
    ensures var item := Split(AccountLine(a), ';');
      |item| == 3 && Account(ParseIntOrZero(item[0]), item[1], ParseIntOrZero(RemoveEndLine(item[2]))) == a
  {
    SplitAccountLine(a);
    FormatIntRoundTrip(a.id);
    FormatIntRoundTrip(a.balance);
    FormatIntChars(a.balance);
    RemoveEndLineProperties(FormatInt(a.balance));
  }

  lemma ParsePaymentLine(p: Payment)
    requires PlainField(p.id) && PlainField(p.category) && LastField(p.status)
    ensures var item := Split(PaymentLine(p), ';');
      |item| == 5 && Payment(item[0], ParseIntOrZero(item[1]), ParseIntOrZero(item[2]), item[3], RemoveEndLine(item[4])) == p
  {
    SplitPaymentLine(p);
    FormatIntRoundTrip(p.accountID);
    FormatIntRoundTrip(p.amount);
    RemoveEndLineProperties(p.status);
  }

  lemma ParseFavoriteLine(f: Favorite)
    requires PlainField(f.id) && PlainField(f.name) && PlainField(f.category)
    ensures var item := Split(FavoriteLine(f), ';');
      |item| == 5 && Favorite(item[0], ParseIntOrZero(item[1]), item[2], ParseIntOrZero(item[3]), item[4])
                     == f.(category := f.category + "\n")
  {
    SplitFavoriteLine(f);
    FormatIntRoundTrip(f.accountID);
    FormatIntRoundTrip(f.amount);
  }

  /** One account line read into a service without its ID appends that account. */
  lemma ImportAccountLine(st: State, a: Account)
    requires PlainField(a.phone) && AccountIndex(st.accounts, a.id).None?
    ensures ImportLine(st, AccountsDump, AccountLine(a))
         == Some(st.(nextAccountID := st.nextAccountID + 1, accounts := st.accounts + [a]))
  {
    ParseAccountLine(a);
  }

  lemma ImportPaymentLine(st: State, p: Payment)
    requires PlainField(p.id) && PlainField(p.category) && LastField(p.status)
    requires PaymentIndex(st.payments, p.id).None?
    ensures ImportLine(st, PaymentsDump, PaymentLine(p)) == Some(st.(payments := st.payments + [p]))
  {
    ParsePaymentLine(p);
  }

  lemma ImportFavoriteLine(st: State, f: Favorite)
    requires PlainField(f.id) && PlainField(f.name) && PlainField(f.category)
    requires FavoriteIndex(st.favorites, f.id).None?
    ensures ImportLine(st, FavoritesDump, FavoriteLine(f))
         == Some(st.(favorites := st.favorites + [f.(category := f.category + "\n")]))
  {
    ParseFavoriteLine(f);
  }

  /** The first of a run of account lines is read as ImportAccountLine says. */
  lemma ImportAccountLinesHead(st: State, accounts: seq<Account>)
    requires accounts != [] && PlainField(accounts[0].phone)
    requires AccountIndex(st.accounts, accounts[0].id).None?
    ensures ImportLines(st, AccountsDump, AccountLines(accounts))
         == ImportLines(st.(nextAccountID := st.nextAccountID + 1, accounts := st.accounts + [accounts[0]]),
                        AccountsDump, AccountLines(accounts[1..]))
  {
    ImportAccountLine(st, accounts[0]);
  }

  /** After the first account is appended, the others are still dumpable and new. */
  lemma AccountsTailFresh(held: seq<Account>, accounts: seq<Account>)
    requires accounts != [] && DumpableAccounts(accounts)
    requires forall i :: 0 <= i < |accounts| ==> AccountIndex(held, accounts[i].id).None?
    ensures DumpableAccounts(accounts[1..])
    ensures forall i :: 0 <= i < |accounts[1..]| ==> AccountIndex(held + [accounts[0]], accounts[1..][i].id).None?
  {
    var rest := accounts[1..];
    assert forall i :: 0 <= i < |rest| ==> rest[i] == accounts[i + 1];
    forall i | 0 <= i < |rest| ensures AccountIndex(held + [accounts[0]], rest[i].id).None? {
      AccountIndexAppend(held, accounts[0], rest[i].id);
    }
  }

  /** Account lines read into a service that has none of their IDs append exactly
      those accounts, and advance nextAccountID once per line. */
  lemma {:induction false} ImportAccountLines(st: State, accounts: seq<Account>)
    requires DumpableAccounts(accounts)
    requires forall i :: 0 <= i < |accounts| ==> AccountIndex(st.accounts, accounts[i].id).None?
    ensures ImportLines(st, AccountsDump, AccountLines(accounts))
         == Some(st.(nextAccountID := st.nextAccountID + |accounts|, accounts := st.accounts + accounts))
    decreases |accounts|
  {
    var goal := st.(nextAccountID := st.nextAccountID + |accounts|, accounts := st.accounts + accounts);
    if accounts == [] {
      assert st.accounts + accounts == st.accounts;
      assert goal == st;
    } else {
      var rest := accounts[1..];
      ImportAccountLinesHead(st, accounts);
      AccountsTailFresh(st.accounts, accounts);
      var st' := st.(nextAccountID := st.nextAccountID + 1, accounts := st.accounts + [accounts[0]]);
      ImportAccountLines(st', rest);
      ConsAppend(st.accounts, accounts);
      assert st'.(nextAccountID := st'.nextAccountID + |rest|, accounts := st'.accounts + rest) == goal;
    }
  }

  lemma ImportPaymentLinesHead(st: State, payments: seq<Payment>)
    requires payments != []
    requires PlainField(payments[0].id) && PlainField(payments[0].category) && LastField(payments[0].status)
    requires PaymentIndex(st.payments, payments[0].id).None?
    ensures ImportLines(st, PaymentsDump, PaymentLines(payments))
         == ImportLines(st.(payments := st.payments + [payments[0]]), PaymentsDump, PaymentLines(payments[1..]))
  {
    ImportPaymentLine(st, payments[0]);
  }

  lemma PaymentsTailFresh(held: seq<Payment>, payments: seq<Payment>)
    requires payments != [] && DumpablePayments(payments)
    requires forall i :: 0 <= i < |payments| ==> PaymentIndex(held, payments[i].id).None?
    ensures DumpablePayments(payments[1..])
    ensures forall i :: 0 <= i < |payments[1..]| ==> PaymentIndex(held + [payments[0]], payments[1..][i].id).None?
  {
    var rest := payments[1..];
    assert forall i :: 0 <= i < |rest| ==> rest[i] == payments[i + 1];
    forall i | 0 <= i < |rest| ensures PaymentIndex(held + [payments[0]], rest[i].id).None? {
      PaymentIndexAppend(held, payments[0], rest[i].id);
    }
  }

  /** Payment lines read into a service that has none of their IDs append exactly
      those payments. */
  lemma {:induction false} ImportPaymentLines(st: State, payments: seq<Payment>)
    requires DumpablePayments(payments)
    requires forall i :: 0 <= i < |payments| ==> PaymentIndex(st.payments, payments[i].id).None?
    ensures ImportLines(st, PaymentsDump, PaymentLines(payments)) == Some(st.(payments := st.payments + payments))
    decreases |payments|
  {
    var goal := st.(payments := st.payments + payments);
    if payments == [] {
      assert st.payments + payments == st.payments;
      assert goal == st;
    } else {
      var rest := payments[1..];
      ImportPaymentLinesHead(st, payments);
      PaymentsTailFresh(st.payments, payments);
      var st' := st.(payments := st.payments + [payments[0]]);
      ImportPaymentLines(st', rest);
      ConsAppend(st.payments, payments);
      assert st'.(payments := st'.payments + rest) == goal;
    }
  }

  lemma ImportFavoriteLinesHead(st: State, favorites: seq<Favorite>)
    requires favorites != []
    requires PlainField(favorites[0].id) && PlainField(favorites[0].name) && PlainField(favorites[0].category)
    requires FavoriteIndex(st.favorites, favorites[0].id).None?
    ensures ImportLines(st, FavoritesDump, FavoriteLines(favorites))
         == ImportLines(st.(favorites := st.favorites + [favorites[0].(category := favorites[0].category + "\n")]),
                        FavoritesDump, FavoriteLines(favorites[1..]))
  {
    ImportFavoriteLine(st, favorites[0]);
  }

  lemma FavoritesTailFresh(held: seq<Favorite>, favorites: seq<Favorite>)
    requires favorites != [] && DumpableFavorites(favorites)
    requires forall i :: 0 <= i < |favorites| ==> FavoriteIndex(held, favorites[i].id).None?
    ensures DumpableFavorites(favorites[1..])
    ensures forall i :: 0 <= i < |favorites[1..]| ==>
      FavoriteIndex(held + [favorites[0].(category := favorites[0].category + "\n")], favorites[1..][i].id).None?
  {
    var rest := favorites[1..];
    var f' := favorites[0].(category := favorites[0].category + "\n");
    assert forall i :: 0 <= i < |rest| ==> rest[i] == favorites[i + 1];
    forall i | 0 <= i < |rest| ensures FavoriteIndex(held + [f'], rest[i].id).None? {
      FavoriteIndexAppend(held, f', rest[i].id);
    }
  }

  /** Favorite lines read into a service that has none of their IDs append those
      favorites, each with the line's '\n' left on its category. */
  lemma {:induction false} ImportFavoriteLines(st: State, favorites: seq<Favorite>)
    requires DumpableFavorites(favorites)
    requires forall i :: 0 <= i < |favorites| ==> FavoriteIndex(st.favorites, favorites[i].id).None?
    ensures ImportLines(st, FavoritesDump, FavoriteLines(favorites)) == Some(st.(favorites := st.favorites + WithLineEnd(favorites)))
    decreases |favorites|
  {
    var goal := st.(favorites := st.favorites + WithLineEnd(favorites));
    if favorites == [] {
      assert st.favorites + WithLineEnd(favorites) == st.favorites;
      assert goal == st;
    } else {
      var rest := favorites[1..];
      var f' := favorites[0].(category := favorites[0].category + "\n");
      ImportFavoriteLinesHead(st, favorites);
      FavoritesTailFresh(st.favorites, favorites);
      var st' := st.(favorites := st.favorites + [f']);
      ImportFavoriteLines(st', rest);
      WithLineEndCons(favorites);
      ConsAppend(st.favorites, WithLineEnd(favorites));
      assert st'.(favorites := st'.favorites + WithLineEnd(rest)) == goal;
    }
  }

  /** A dump file's complete lines are exactly the lines written into it. */
  lemma DumpFileLines(name: string, lines: seq<string>)
    requires forall j :: 0 <= j < |lines| ==> IsLine(lines[j])
    ensures forall k :: 0 <= k < |DumpFile(name, lines)| ==> Lines(DumpFile(name, lines)[k].content) == lines
  {
    LinesOfConcat(lines);
  }

  /** Importing the one file that DumpFile writes reads back the lines written. */
  lemma ImportDumpFile(st: State, name: string, lines: seq<string>)
    requires forall j :: 0 <= j < |lines| ==> IsLine(lines[j])
    ensures Import(st, DumpFile(name, lines)) == ImportLines(st, name, lines)
  {
    if lines != [] {
      DumpFileLines(name, lines);
      var files := DumpFile(name, lines);
      assert Lines(files[0].content) == lines;
      assert files[1..] == [];
    }
  }

  /** The accounts file of a dump, read into an empty service. */
  lemma ImportAccountsFile(accounts: seq<Account>)
    requires DumpableAccounts(accounts)
    ensures Import(Empty, DumpFile(AccountsDump, AccountLines(accounts)))
         == Some(Empty.(nextAccountID := |accounts|, accounts := accounts))
  {
    var al := AccountLines(accounts);
    AccountLinesAreLines(accounts);
    ImportDumpFile(Empty, AccountsDump, al);
    NothingInEmpty(accounts);
    ImportAccountLines(Empty, accounts);
    assert Empty.accounts + accounts == accounts;
  }

  lemma NothingInEmpty(accounts: seq<Account>)
    ensures forall i :: 0 <= i < |accounts| ==> AccountIndex([], accounts[i].id).None?
  {
  }

  lemma AccountLinesAreLines(accounts: seq<Account>)
    requires DumpableAccounts(accounts)
    ensures forall j :: 0 <= j < |accounts| ==> IsLine(AccountLines(accounts)[j])
  {
    forall j | 0 <= j < |accounts| ensures IsLine(AccountLines(accounts)[j]) { SplitAccountLine(accounts[j]); }
  }

  /** The favorites file, read into a service that has no favorites yet. */
  lemma ImportFavoritesFile(st: State, favorites: seq<Favorite>)
    requires DumpableFavorites(favorites) && st.favorites == []
    ensures Import(st, DumpFile(FavoritesDump, FavoriteLines(favorites))) == Some(st.(favorites := WithLineEnd(favorites)))
  {
    var fl := FavoriteLines(favorites);
    forall j | 0 <= j < |fl| ensures IsLine(fl[j]) { SplitFavoriteLine(favorites[j]); }
    ImportDumpFile(st, FavoritesDump, fl);
    ImportFavoriteLines(st, favorites);
    assert st.favorites + WithLineEnd(favorites) == WithLineEnd(favorites);
  }

  /** The payments file, read into a service that has no payments yet. */
  lemma ImportPaymentsFile(st: State, payments: seq<Payment>)
    requires DumpablePayments(payments) && st.payments == []
    ensures Import(st, DumpFile(PaymentsDump, PaymentLines(payments))) == Some(st.(payments := payments))
  {
    var pl := PaymentLines(payments);
    forall j | 0 <= j < |pl| ensures IsLine(pl[j]) { SplitPaymentLine(payments[j]); }
    ImportDumpFile(st, PaymentsDump, pl);
    ImportPaymentLines(st, payments);
    assert st.payments + payments == payments;
  }

  /** The directory Export leaves, read back into an empty service, gives back the
      accounts and the payments, and nextAccountID counts the accounts; each
      favorite comes back with '\n' on its category. */
  lemma ImportExport(st: State)
    requires DumpableAccounts(st.accounts) && DumpablePayments(st.payments) && DumpableFavorites(st.favorites)
    ensures Import(Empty, Listing(st)) == Some(State(|st.accounts|, st.accounts, st.payments, WithLineEnd(st.favorites)))
  {
    var s1 := Empty.(nextAccountID := |st.accounts|, accounts := st.accounts);
    var s2 := s1.(favorites := WithLineEnd(st.favorites));
    var s3 := s2.(payments := st.payments);
    var a := DumpFile(AccountsDump, AccountLines(st.accounts));
    var f := DumpFile(FavoritesDump, FavoriteLines(st.favorites));
    var p := DumpFile(PaymentsDump, PaymentLines(st.payments));
    ImportAccountsFile(st.accounts);
    ImportFavoritesFile(s1, st.favorites);
    ImportPaymentsFile(s2, st.payments);
    ImportChain(Empty, a, f, p, s1, s2, s3);
    assert s3 == State(|st.accounts|, st.accounts, st.payments, WithLineEnd(st.favorites));
  }

  /** Three files read one after the other, each from where the last one left off. */
  lemma ImportChain(st: State, a: seq<File>, b: seq<File>, c: seq<File>, s1: State, s2: State, s3: State)
    requires Import(st, a) == Some(s1) && Import(s1, b) == Some(s2) && Import(s2, c) == Some(s3)
    ensures Import(st, a + b + c) == Some(s3)
  {
    ImportAppend(st, a, b);
    ImportAppend(st, a + b, c);
  }

  /** Reading two listings one after the other is reading their concatenation. */
  lemma {:induction false} ImportAppend(st: State, a: seq<File>, b: seq<File>)
    ensures Import(st, a + b) == match Import(st, a) case None => None case Some(st') => Import(st', b)
    decreases |a|
  {
    if a == [] {
      assert a + b == b;
    } else {
      assert (a + b)[0] == a[0];
      assert (a + b)[1..] == a[1..] + b;
      match ImportLines(st, a[0].name, Lines(a[0].content))
      case None =>
      case Some(st') => ImportAppend(st', a[1..], b);
    }
  }

    /** The files of a listing, placed in the directory dir. */
  function InDir(dir: string, files: seq<File>): (r: seq<File>)
    ensures |r| == |files|
  {
    seq(|files|, k requires 0 <= k < |files| => File(dir + "/" + files[k].name, files[k].content))
  }

  lemma InDirConcat(dir: string, a: seq<File>, b: seq<File>)
    ensures InDir(dir, a + b) == InDir(dir, a) + InDir(dir, b)
  {
  }

  lemma InDirDumpFile(dir: string, name: string, lines: seq<string>)
    ensures InDir(dir, DumpFile(name, lines)) == DumpFile(dir + "/" + name, lines)
  {
  }

  /** Export, started on an empty directory, writes exactly the files of Listing
      there: the same names and contents, only in another order. */
  lemma ExportWritesListing(st: State, dir: string)
    ensures multiset(Export(st, dir)) == multiset(InDir(dir, Listing(st)))
  {
    var a := DumpFile(AccountsDump, AccountLines(st.accounts));
    var f := DumpFile(FavoritesDump, FavoriteLines(st.favorites));
    var p := DumpFile(PaymentsDump, PaymentLines(st.payments));
    InDirConcat(dir, a + f, p);
    InDirConcat(dir, a, f);
    InDirDumpFile(dir, AccountsDump, AccountLines(st.accounts));
    InDirDumpFile(dir, FavoritesDump, FavoriteLines(st.favorites));
    InDirDumpFile(dir, PaymentsDump, PaymentLines(st.payments));
    assert InDir(dir, Listing(st)) == InDir(dir, a) + InDir(dir, f) + InDir(dir, p);
  }


  // ---------------------------------------------------------------------------
  // The account file

  function AccountRecord(a: Account): string
  {
    Join(AccountFields(a), ';') + "|"
  }

  /** What ExportToFile writes for the accounts the service holds. */
  function ExportToFile(accounts: seq<Account>): (s: string)
    ensures s == "" <==> accounts == []
    ensures s != "" ==> s[|s| - 1] == '|'
  {
    if accounts == [] then "" else AccountRecord(accounts[0]) + ExportToFile(accounts[1..])
  }

  /** A piece of the file read as an account: ID and balance parsed, phone
      verbatim; None for a piece with fewer than three fields, where the source panics. */
  function ParseRecord(piece: string): (r: Option<Account>)
    ensures r.None? <==> |Split(piece, ';')| < 3
  {
    var item := Split(piece, ';');
    if |item| < 3 then None
    else Some(Account(ParseIntOrZero(item[0]), item[1], ParseIntOrZero(item[2])))
  }

  /** The accounts of the pieces before the first empty one; None when one of them
      panics. */
  function ParseRecords(pieces: seq<string>): (r: Option<seq<Account>>)
    ensures r.Some? ==> |r.value| <= |pieces| && (|r.value| < |pieces| ==> pieces[|r.value|] == "")
    ensures r.Some? ==> forall i :: 0 <= i < |r.value| ==> pieces[i] != "" && ParseRecord(pieces[i]) == Some(r.value[i])
  {
    if pieces == [] || pieces[0] == "" then Some([])
    else match (ParseRecord(pieces[0]), ParseRecords(pieces[1..]))
      case (Some(a), Some(rest)) => Some([a] + rest)
      case _ => None
  }

  /** Piece i is read, every piece up to it being non-empty, and it has too few
      fields: where the source panics. */
  predicate PanicsAt(pieces: seq<string>, i: int)
  {
    && 0 <= i < |pieces|
    && (forall j :: 0 <= j <= i ==> pieces[j] != "")
    && ParseRecord(pieces[i]).None?
  }

  lemma PanicsAtShift(pieces: seq<string>, i: int)
    requires pieces != [] && pieces[0] != "" && i >= 0
    ensures PanicsAt(pieces, i + 1) <==> PanicsAt(pieces[1..], i)
  {
    if 0 <= i < |pieces| - 1 {
      assert forall j :: 0 <= j <= i ==> pieces[1..][j] == pieces[j + 1];
      if PanicsAt(pieces[1..], i) {
        forall j | 0 <= j <= i + 1 ensures pieces[j] != "" {
          if j > 0 { assert pieces[j] == pieces[1..][j - 1]; }
        }
      }
    }
  }

  /** Reading fails, where the source panics, exactly when a piece before the
      first empty one has fewer than three fields. */
  lemma {:induction false} ParseRecordsPanics(pieces: seq<string>)
    ensures ParseRecords(pieces).None? <==> exists i :: PanicsAt(pieces, i)
    decreases |pieces|
  {
    if pieces == [] || pieces[0] == "" {
      assert forall i :: !PanicsAt(pieces, i) by {
        forall i ensures !PanicsAt(pieces, i) {
          if 0 <= i < |pieces| { assert 0 <= 0 <= i; }
        }
      }
    } else {
      ParseRecordsPanics(pieces[1..]);
      if ParseRecord(pieces[0]).None? {
        assert PanicsAt(pieces, 0);
      } else if ParseRecords(pieces[1..]).None? {
        var i :| PanicsAt(pieces[1..], i);
        PanicsAtShift(pieces, i);
      } else {
        forall i ensures !PanicsAt(pieces, i) {
          if i > 0 { PanicsAtShift(pieces, i - 1); }
        }
      }
    }
  }

  /** ImportFromFile: the accounts read are appended after the ones already held;
      nothing else of the service changes. */
  function ImportFromFile(accounts: seq<Account>, content: string): (r: Option<seq<Account>>)
    ensures r.Some? ==> |accounts| <= |r.value| && r.value[..|accounts|] == accounts
    ensures r.None? <==> ParseRecords(Split(content, '|')).None?
    ensures r.Some? ==> r.value == accounts + ParseRecords(Split(content, '|')).value
  {
    match ParseRecords(Split(content, '|'))
    case None => None
    case Some(read) => Some(accounts + read)
  }

  /** The text of each account record, without its '|'. */
  function Pieces(accounts: seq<Account>): seq<string>
  {
    seq(|accounts|, i requires 0 <= i < |accounts| => Join(AccountFields(accounts[i]), ';'))
  }

  predicate FileableAccounts(accounts: seq<Account>)
  {
    forall i :: 0 <= i < |accounts| ==> ';' !in accounts[i].phone && '|' !in accounts[i].phone
  }

  lemma SplitAccountFields(a: Account)
    requires ';' !in a.phone && '|' !in a.phone
    ensures Join(AccountFields(a), ';') != "" && '|' !in Join(AccountFields(a), ';')
    ensures Split(Join(AccountFields(a), ';'), ';') == AccountFields(a)
  {
    FormatIntChars(a.id);
    FormatIntChars(a.balance);
    JoinFree(AccountFields(a), ';', '|');
    SplitJoin(AccountFields(a), ';');
  }

  /** One account record parses back to the account. */
  lemma ParseAccountRecord(a: Account)
    requires ';' !in a.phone && '|' !in a.phone
    ensures ParseRecord(Join(AccountFields(a), ';')) == Some(a)
  {
    SplitAccountFields(a);
    FormatIntRoundTrip(a.id);
    FormatIntRoundTrip(a.balance);
  }

  lemma ExportToFileCons(accounts: seq<Account>, tail: string)
    requires accounts != []
    ensures ExportToFile(accounts) + tail
         == Join(AccountFields(accounts[0]), ';') + ['|'] + (ExportToFile(accounts[1..]) + tail)
  {
  }

  lemma PiecesCons(accounts: seq<Account>, rest: seq<string>)
    requires accounts != []
    ensures (Pieces(accounts) + [""] + rest)[0] == Join(AccountFields(accounts[0]), ';')
    ensures (Pieces(accounts) + [""] + rest)[1..] == Pieces(accounts[1..]) + [""] + rest
    ensures Pieces(accounts) + rest == [Join(AccountFields(accounts[0]), ';')] + (Pieces(accounts[1..]) + rest)
  {
  }

  /** The file splits at '|' into one piece per account, then whatever follows. */
  lemma {:induction false} SplitExported(accounts: seq<Account>, tail: string)
    requires FileableAccounts(accounts)
    ensures Split(ExportToFile(accounts) + tail, '|')
         == Pieces(accounts) + Split(tail, '|')
    decreases |accounts|
  {
    if accounts == [] {
      assert ExportToFile(accounts) + tail == tail;
      assert Pieces(accounts) == [];
    } else {
      var a := accounts[0];
      SplitAccountFields(a);
      ExportToFileCons(accounts, tail);
      SplitFirstPiece(Join(AccountFields(a), ';'), '|', ExportToFile(accounts[1..]) + tail);
      PiecesCons(accounts, Split(tail, '|'));
      SplitExported(accounts[1..], tail);
    }
  }

  lemma {:induction false} ParseExported(accounts: seq<Account>, rest: seq<string>)
    requires FileableAccounts(accounts)
    ensures ParseRecords(Pieces(accounts) + [""] + rest) == Some(accounts)
    decreases |accounts|
  {
    var pieces := Pieces(accounts) + [""] + rest;
    if accounts == [] {
      assert Pieces(accounts) == [];
      assert pieces[0] == "";
    } else {
      ParseAccountRecord(accounts[0]);
      SplitAccountFields(accounts[0]);
      PiecesCons(accounts, rest);
      ParseExported(accounts[1..], rest);
      assert [accounts[0]] + accounts[1..] == accounts;
    }
  }

  /** Reading back what ExportToFile wrote appends exactly the accounts written. */
  lemma ImportFromFileRoundTrip(held: seq<Account>, accounts: seq<Account>)
    requires FileableAccounts(accounts)
    ensures ImportFromFile(held, ExportToFile(accounts)) == Some(held + accounts)
  {
    var text := ExportToFile(accounts);
    SplitExported(accounts, "");
    assert text + "" == text;
    assert Split("", '|') == [""];
    ParseExported(accounts, []);
    assert Pieces(accounts) + [""] + [] == Pieces(accounts) + Split("", '|');
  }

  /** The reader stops at the first empty piece: whatever follows an exported file
      after one more '|' is never read. */
  lemma ImportFromFileStops(held: seq<Account>, accounts: seq<Account>, rest: string)
    requires FileableAccounts(accounts)
    ensures ImportFromFile(held, ExportToFile(accounts) + "|" + rest) == Some(held + accounts)
  {
    var text, tail := ExportToFile(accounts), "|" + rest;
    SplitExported(accounts, tail);
    assert text + "|" + rest == text + tail;
    SplitLeadingSeparator('|', rest);
    ParseExported(accounts, Split(rest, '|'));
    assert Pieces(accounts) + Split(tail, '|') == Pieces(accounts) + [""] + Split(rest, '|');
  }


}
