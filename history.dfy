/** HistoryToFiles: a list of payments written to a directory in the payment
    line format of the dump directory. A list that fits in `records` lines goes
    to payments.dump; a longer one goes to payments1.dump, payments2.dump, ...,
    each holding the next `records` lines and the last one what is left. */
module History {
  import opened Types
  import opened Seqs
  import opened Text
  import opened Ledger
  import opened Dump

  /** The items split from the front into groups of `size`; the last group holds
      what is left over. */
  function Chunks<T>(items: seq<T>, size: nat): (r: seq<seq<T>>)
    requires size >= 1
    ensures r == [] <==> items == []
    ensures |r| <= |items|
    decreases |items|
  {
    if |items| <= size then (if items == [] then [] else [items])
    else [items[..size]] + Chunks(items[size..], size)
  }

  /** The groups give back the items in order; none is empty, none is larger than
      `size`, and all but the last hold exactly `size`. */
  lemma {:induction false} ChunksShape<T>(items: seq<T>, size: nat)
    requires size >= 1
    ensures var r := Chunks(items, size);
      && Flatten(r) == items
      && (forall j :: 0 <= j < |r| ==> 0 < |r[j]| <= size)
      && (forall j :: 0 <= j < |r| - 1 ==> |r[j]| == size)
    decreases |items|
  {
    if |items| > size {
      var r := Chunks(items, size);
      var rest := Chunks(items[size..], size);
      ChunksShape(items[size..], size);
      assert r == [items[..size]] + rest;
      assert r[1..] == rest;
      assert items[..size] + items[size..] == items;
      forall j | 0 < j < |r| ensures r[j] == rest[j - 1] {}
    }
  }

  /** A property of every item is a property of every item of every group. */
  lemma {:induction false} ChunksKeep<T>(items: seq<T>, size: nat, p: T -> bool)
    requires size >= 1
    requires forall i :: 0 <= i < |items| ==> p(items[i])
    ensures forall j, m :: 0 <= j < |Chunks(items, size)| && 0 <= m < |Chunks(items, size)[j]| ==> p(Chunks(items, size)[j][m])
    decreases |items|
  {
    if |items| > size {
      var r := Chunks(items, size);
      var rest := Chunks(items[size..], size);
      ChunksKeep(items[size..], size, p);
      assert r == [items[..size]] + rest;
      forall j, m | 0 <= j < |r| && 0 <= m < |r[j]| ensures p(r[j][m]) {
        if j == 0 {
          assert r[j][m] == items[m];
        } else {
          assert r[j] == rest[j - 1];
          assert p(rest[j - 1][m]);
        }
      }
    }
  }

  /** One more item either starts a new group, when there is none yet or the last
      one is full, or goes at the end of the last group. */
  function AddToGroups<T>(groups: seq<seq<T>>, x: T, size: nat): (r: seq<seq<T>>)
  {
    if groups == [] || |groups[|groups| - 1]| == size then groups + [[x]]
    else groups[..|groups| - 1] + [groups[|groups| - 1] + [x]]
  }

  /** Grouping one more item is adding it to the groups of the others. */
  lemma {:induction false} ChunksSnoc<T>(items: seq<T>, x: T, size: nat)
    requires size >= 1
    ensures Chunks(items + [x], size) == AddToGroups(Chunks(items, size), x, size)
    decreases |items|
  {
    var l := items + [x];
    if |items| < size {
      if items == [] {
        assert l == [x];
      } else {
        var c := Chunks(items, size);
        assert c == [items] && c[..0] == [];
      }
    } else if |items| == size {
      assert l[..size] == items && l[size..] == [x];
    } else if |items| > size {
      assert l[..size] == items[..size] && l[size..] == items[size..] + [x];
      ChunksSnoc(items[size..], x, size);
      var h := items[..size];
      var c' := Chunks(items[size..], size);
      var c := Chunks(items, size);
      assert c == [h] + c';
      assert Chunks(l, size) == [h] + Chunks(items[size..] + [x], size);
      assert c' != [] && c[|c| - 1] == c'[|c'| - 1];
      if |c'[|c'| - 1]| == size {
        assert Chunks(items[size..] + [x], size) == c' + [[x]];
        assert [h] + (c' + [[x]]) == c + [[x]];
        assert Chunks(l, size) == c + [[x]];
      } else {
        var n := |c'| - 1;
        assert Chunks(items[size..] + [x], size) == c'[..n] + [c'[n] + [x]];
        assert [h] + (c'[..n] + [c'[n] + [x]]) == c[..|c| - 1] + [c[|c| - 1] + [x]];
        assert Chunks(l, size) == c[..|c| - 1] + [c[|c| - 1] + [x]];
      }
    }
  }

  /** The name of the t-th file of a long history. */
  function ChunkName(dir: string, t: int): string
  {
    dir + "/payments" + FormatInt(t) + ".dump"
  }

  /** Two numbered files have the same name only when they have the same number,
      so no file of a history truncates another. */
  lemma ChunkNameInjective(dir: string, a: int, b: int)
    requires ChunkName(dir, a) == ChunkName(dir, b)
    ensures a == b
  {
    var m := |dir| + |"/payments"|;
    var s := ChunkName(dir, a);
    var u := ChunkName(dir, b);
    assert s[m..|s| - 5] == FormatInt(a);
    assert u[m..|u| - 5] == FormatInt(b);
    FormatIntRoundTrip(a);
    FormatIntRoundTrip(b);
  }

  /** The numbered files, numbered from 1, each holding one group of lines. */
  function ChunkFiles(dir: string, groups: seq<seq<string>>): seq<File>
  {
    seq(|groups|, j requires 0 <= j < |groups| => File(ChunkName(dir, j + 1), Flatten(groups[j])))
  }

  /** How many lines go to each numbered file: `records`, or, when that is not
      positive, the whole list, since the file counter never reaches it. */
  function GroupSize(n: nat, records: int): nat
  {
    if records >= 1 then records else n
  }

  /** The files HistoryToFiles writes, in the order it opens them. */
  function HistoryFiles(payments: seq<Payment>, dir: string, records: int): (files: seq<File>)
    ensures files == [] <==> payments == []
    ensures |files| <= |payments|
  {
    var lines := PaymentLines(payments);
    if payments == [] then []
    else if |payments| <= records then [File(dir + "/payments.dump", Flatten(lines))]
    else ChunkFiles(dir, Chunks(lines, GroupSize(|payments|, records)))
  }

  /** A new group is a new numbered file, numbered after the others. */
  lemma ChunkFilesSnoc(dir: string, groups: seq<seq<string>>, g: seq<string>)
    ensures ChunkFiles(dir, groups + [g]) == ChunkFiles(dir, groups) + [File(ChunkName(dir, |groups| + 1), Flatten(g))]
  {
  }

  /** A line added to the last group is a line written at the end of the last file. */
  lemma ChunkFilesExtend(dir: string, groups: seq<seq<string>>, x: string)
    requires groups != []
    ensures var n := |groups| - 1;
      var files := ChunkFiles(dir, groups);
      ChunkFiles(dir, groups[..n] + [groups[n] + [x]]) == files[n := File(files[n].name, files[n].content + x)]
  {
    var n := |groups| - 1;
    FlattenConcat(groups[n], [x]);
    assert Flatten([x]) == x;
  }

  /** The state of the numbered-file loop once the lines grouped in `groups` are
      written: one file per group, `k` lines in the open file (0 once it has been
      closed) and `t` the number of the open file, or of the next one to open. */
  predicate CounterState(dir: string, records: int, size: nat, groups: seq<seq<string>>, files: seq<File>, k: int, t: int)
  {
    && files == ChunkFiles(dir, groups)
    && (records >= 1 ==> size == records)
    && (groups != [] ==> |groups[|groups| - 1]| >= 1)
    && ((k == 0) <==> (groups == [] || |groups[|groups| - 1]| == records))
    && (k != 0 ==> k == |groups[|groups| - 1]|)
    && t == |groups| + (if k == 0 then 1 else 0)
  }

  /** The file the loop writes the next line to: a new one when none is open. */
  function OpenFile(dir: string, files: seq<File>, k: int, t: int): (r: seq<File>)
    requires k != 0 ==> files != []
    ensures r != []
  {
    if k == 0 then files + [File(ChunkName(dir, t), "")] else files
  }

  /** The line x written at the end of the last file. */
  function WriteLast(files: seq<File>, x: string): (r: seq<File>)
    requires files != []
  {
    files[|files| - 1 := File(files[|files| - 1].name, files[|files| - 1].content + x)]
  }

  /** One iteration of the numbered-file loop keeps the counter state. */
  lemma CounterStep(dir: string, records: int, size: nat, groups: seq<seq<string>>, x: string, files: seq<File>, k: int, t: int)
    requires records >= 1 || groups == [] || |groups[|groups| - 1]| < size
    requires CounterState(dir, records, size, groups, files, k, t)
    ensures CounterState(dir, records, size, AddToGroups(groups, x, size), WriteLast(OpenFile(dir, files, k, t), x),
                         if k + 1 == records then 0 else k + 1, if k + 1 == records then t + 1 else t)
  {
    var c' := AddToGroups(groups, x, size);
    var written := WriteLast(OpenFile(dir, files, k, t), x);
    if k == 0 {
      assert c' == groups + [[x]];
      ChunkFilesSnoc(dir, groups, [x]);
      assert Flatten([x]) == x;
      assert OpenFile(dir, files, k, t) == files + [File(ChunkName(dir, |groups| + 1), "")];
      assert "" + x == x;
      assert written == files + [File(ChunkName(dir, |groups| + 1), x)];
    } else {
      var n := |groups| - 1;
      assert c' == groups[..n] + [groups[n] + [x]];
      ChunkFilesExtend(dir, groups, x);
      assert OpenFile(dir, files, k, t) == files;
      assert written == files[n := File(files[n].name, files[n].content + x)];
    }
    assert written == ChunkFiles(dir, c');
  }

  /** The invariant of the numbered-file loop after the lines in `done`: they
      are grouped as Chunks groups them, and the counter state holds for those
      groups. */
  predicate LoopState(dir: string, records: int, size: nat, done: seq<string>, groups: seq<seq<string>>, files: seq<File>, k: int, t: int)
    requires size >= 1
  {
    && groups == Chunks(done, size)
    && (groups != [] ==> |groups[|groups| - 1]| <= |done|)
    && CounterState(dir, records, size, groups, files, k, t)
  }

  lemma LoopStep(dir: string, records: int, size: nat, lines: seq<string>, i: nat, groups: seq<seq<string>>, files: seq<File>, k: int, t: int)
    requires size >= 1 && i < |lines| && (records >= 1 || size == |lines|)
    requires LoopState(dir, records, size, lines[..i], groups, files, k, t)
    ensures k != 0 ==> files != []
    ensures LoopState(dir, records, size, lines[..i + 1], AddToGroups(groups, lines[i], size),
                      WriteLast(OpenFile(dir, files, k, t), lines[i]),
                      if k + 1 == records then 0 else k + 1, if k + 1 == records then t + 1 else t)
  {
    CounterStep(dir, records, size, groups, lines[i], files, k, t);
    ChunksSnoc(lines[..i], lines[i], size);
    PrefixSnoc(lines, i);
  }

  /** A list no longer than one group is one group. */
  lemma ChunksShort<T>(items: seq<T>, size: nat)
    requires 1 <= size && |items| <= size
    ensures Chunks(items, size) == if items == [] then [] else [items]
  {
  }

  /** The short-history branch: every payment line, in order, into one string. */
  method HistoryText(payments: seq<Payment>) returns (str: string)
    ensures str == Flatten(PaymentLines(payments))
  {
    ghost var lines := PaymentLines(payments);
    str := "";
    for i := 0 to |payments|
      invariant str == Flatten(lines[..i])
    {
      FlattenConcat(lines[..i], [lines[i]]);
      PrefixSnoc(lines, i);
      str := str + PaymentLine(payments[i]);
    }
    assert lines[..|payments|] == lines;
  }

  /** One line of the long-history loop: open payments<t>.dump when no file is
      open, write the line to it, and close it once it holds `records` lines. */
  method WriteLine(dir: string, records: int, files: seq<File>, k: int, t: int, line: string)
    returns (files': seq<File>, k': int, t': int)
    requires k != 0 ==> files != []
    ensures files' == WriteLast(OpenFile(dir, files, k, t), line)
    ensures k' == (if k + 1 == records then 0 else k + 1)
    ensures t' == (if k + 1 == records then t + 1 else t)
  {
    files', k', t' := files, k, t;
    if k' == 0 {
      files' := files' + [File(ChunkName(dir, t'), "")];
    }
    k' := k' + 1;
    var last := files'[|files'| - 1];
    files' := files'[|files'| - 1 := File(last.name, last.content + line)];
    if k' == records {
      t' := t' + 1;
      k' := 0;
    }
  }

  /** The long-history branch: a counter of the lines in the open file, which
      opens payments<t>.dump at 0 and closes it at `records`. */
  method NumberedFiles(payments: seq<Payment>, dir: string, records: int) returns (files: seq<File>)
    requires |payments| > 0 && |payments| > records
    ensures files == ChunkFiles(dir, Chunks(PaymentLines(payments), GroupSize(|payments|, records)))
  {
    var n := |payments|;
    ghost var lines := PaymentLines(payments);
    ghost var size := GroupSize(n, records);
    files := [];
    var k := 0;
    var t := 1;
    ghost var groups: seq<seq<string>> := [];
    for i := 0 to n
      invariant LoopState(dir, records, size, lines[..i], groups, files, k, t)
    {
      LoopStep(dir, records, size, lines, i, groups, files, k, t);
      files, k, t := WriteLine(dir, records, files, k, t, PaymentLine(payments[i]));
      groups := AddToGroups(groups, lines[i], size);
    }
    assert lines[..n] == lines;
  }

  /** HistoryToFiles (without the file system): the files written, path and
      content, in the order they are opened. */
  method HistoryToFiles(payments: seq<Payment>, dir: string, records: int) returns (files: seq<File>)
    ensures files == HistoryFiles(payments, dir, records)
  {
    files := [];
    if |payments| > 0 {
      if |payments| <= records {
        var str := HistoryText(payments);
        files := [File(dir + "/payments.dump", str)];
      } else {
        files := NumberedFiles(payments, dir, records);
      }
    }
  }

  // ---------------------------------------------------------------------------
  // What the written files hold

  /** The contents of the files, in the order they are written. */
  function Contents(files: seq<File>): seq<string>
  {
    seq(|files|, j requires 0 <= j < |files| => files[j].content)
  }

  lemma {:induction false} FlattenFlattened(groups: seq<seq<string>>)
    ensures Flatten(seq(|groups|, j requires 0 <= j < |groups| => Flatten(groups[j]))) == Flatten(Flatten(groups))
  {
    if groups != [] {
      FlattenFlattened(groups[1..]);
      FlattenConcat(groups[0], Flatten(groups[1..]));
      var f := seq(|groups|, j requires 0 <= j < |groups| => Flatten(groups[j]));
      assert f[1..] == seq(|groups[1..]|, j requires 0 <= j < |groups[1..]| => Flatten(groups[1..][j]));
    }
  }

  /** Every payment line is written exactly once, in the order of the payments:
      the files, read one after another, hold the whole history; and a file is
      written exactly when there are payments. */
  lemma HistoryKeepsLines(payments: seq<Payment>, dir: string, records: int)
    ensures var files := HistoryFiles(payments, dir, records);
      && (files == [] <==> payments == [])
      && Flatten(Contents(files)) == Flatten(PaymentLines(payments))
  {
    var lines := PaymentLines(payments);
    var files := HistoryFiles(payments, dir, records);
    if payments != [] {
      if |payments| <= records {
        assert Contents(files) == [Flatten(lines)];
        var none: seq<string> := [];
        assert Flatten(Contents(files)) == Flatten(lines) + Flatten(none);
      } else {
        var c := Chunks(lines, GroupSize(|payments|, records));
        ChunksShape(lines, GroupSize(|payments|, records));
        FlattenFlattened(c);
        assert Contents(files) == seq(|c|, j requires 0 <= j < |c| => Flatten(c[j]));
        assert c != [];
      }
    }
  }

  /** A history that fits in `records` lines is written as the payments file of
      the dump directory, which Import reads back into a service without payments. */
  lemma HistoryOneFile(st: State, payments: seq<Payment>, dir: string, records: int)
    requires 0 < |payments| <= records
    requires DumpablePayments(payments) && st.payments == []
    ensures HistoryFiles(payments, dir, records) == DumpFile(dir + "/" + PaymentsDump, PaymentLines(payments))
    ensures Import(st, DumpFile(PaymentsDump, PaymentLines(payments))) == Some(st.(payments := payments))
  {
    assert dir + "/payments.dump" == dir + "/" + PaymentsDump;
    assert PaymentLines(payments) != [];
    ImportPaymentsFile(st, payments);
  }

  /** Groups of complete lines read back as those lines. */
  lemma ChunksReadBack(lines: seq<string>, size: nat)
    requires size >= 1
    requires forall i :: 0 <= i < |lines| ==> IsLine(lines[i])
    ensures var c := Chunks(lines, size);
      forall j :: 0 <= j < |c| ==> Lines(Flatten(c[j])) == c[j]
  {
    var c := Chunks(lines, size);
    ChunksKeep(lines, size, IsLine);
    forall j | 0 <= j < |c| ensures Lines(Flatten(c[j])) == c[j] {
      LinesOfConcat(c[j]);
    }
  }

  /** The numbered files of groups of complete lines, all full but the last:
      their names count from 1, and each reads back as its group. */
  lemma NumberedLayout(dir: string, groups: seq<seq<string>>, size: nat)
    requires |groups| >= 2
    requires forall j :: 0 <= j < |groups| ==> 0 < |groups[j]| <= size
    requires forall j :: 0 <= j < |groups| - 1 ==> |groups[j]| == size
    requires forall j :: 0 <= j < |groups| ==> Lines(Flatten(groups[j])) == groups[j]
    ensures var files := ChunkFiles(dir, groups);
      && |files| >= 2
      && (forall j :: 0 <= j < |files| ==> files[j].name == ChunkName(dir, j + 1))
      && (forall j :: 0 <= j < |files| - 1 ==> |Lines(files[j].content)| == size)
      && 1 <= |Lines(files[|files| - 1].content)| <= size
  {
    var files := ChunkFiles(dir, groups);
    forall j | 0 <= j < |files| ensures Lines(files[j].content) == groups[j] {
      assert files[j].content == Flatten(groups[j]);
    }
  }

  /** The length of groups that are all full but the last. */
  lemma {:induction false} FullGroupsLength<T>(groups: seq<seq<T>>, size: nat)
    requires groups != []
    requires forall j :: 0 <= j < |groups| - 1 ==> |groups[j]| == size
    ensures |Flatten(groups)| == (|groups| - 1) * size + |groups[|groups| - 1]|
  {
    if |groups| > 1 {
      var rest := groups[1..];
      FullGroupsLength(rest, size);
      assert groups[|groups| - 1] == rest[|rest| - 1];
      assert (|groups| - 1) * size == size + (|rest| - 1) * size;
    }
  }

  /** Groups all full but the last, which holds between one and `size`, number
      the ceiling of the total length divided by `size`. */
  lemma GroupCount<T>(groups: seq<seq<T>>, size: nat)
    requires groups != [] && 1 <= |groups[|groups| - 1]| <= size
    requires forall j :: 0 <= j < |groups| - 1 ==> |groups[j]| == size
    ensures (|groups| - 1) * size < |Flatten(groups)| <= |groups| * size
  {
    FullGroupsLength(groups, size);
    assert |groups| * size == (|groups| - 1) * size + size;
  }

  /** More items than one group holds make at least two groups. */
  lemma ChunksMany<T>(items: seq<T>, size: nat)
    requires 1 <= size < |items|
    ensures |Chunks(items, size)| >= 2
  {
    assert Chunks(items[size..], size) != [];
  }

  /** Payments whose text fields hold no newline are written as one line each. */
  lemma PaymentLinesAreLines(payments: seq<Payment>)
    requires forall i :: 0 <= i < |payments| ==> '\n' !in payments[i].id && '\n' !in payments[i].category && '\n' !in payments[i].status
    ensures forall i :: 0 <= i < |payments| ==> IsLine(PaymentLines(payments)[i])
  {
    forall i | 0 <= i < |payments| ensures IsLine(PaymentLines(payments)[i]) {
      PaymentLineIsLine(payments[i]);
    }
  }

  /** ';' may appear in the fields: only a newline would break the line. */
  lemma PaymentLineIsLine(p: Payment)
    requires '\n' !in p.id && '\n' !in p.category && '\n' !in p.status
    ensures IsLine(PaymentLine(p))
  {
    FormatIntChars(p.accountID);
    FormatIntChars(p.amount);
    var fields := PaymentFields(p);
    assert forall i :: 0 <= i < |fields| ==> '\n' !in fields[i] by {
      assert fields == [p.id, FormatInt(p.accountID), FormatInt(p.amount), p.category, p.status];
    }
    JoinIsLine(fields);
  }

  /** A positive `records` smaller than the history gives at least two numbered
      files, payments1.dump onwards; each holds `records` payment lines but the
      last, which holds the rest, between one and `records`. */
  lemma HistoryNumberedFiles(payments: seq<Payment>, dir: string, records: int)
    requires 1 <= records < |payments|
    requires forall i :: 0 <= i < |payments| ==> '\n' !in payments[i].id && '\n' !in payments[i].category && '\n' !in payments[i].status
    ensures var files := HistoryFiles(payments, dir, records);
      && |files| >= 2
      && (forall j :: 0 <= j < |files| ==> files[j].name == ChunkName(dir, j + 1))
      && (forall j :: 0 <= j < |files| - 1 ==> |Lines(files[j].content)| == records)
      && 1 <= |Lines(files[|files| - 1].content)| <= records
  {
    var lines := PaymentLines(payments);
    var c := Chunks(lines, records);
    ChunksShape(lines, records);
    ChunksMany(lines, records);
    var files := HistoryFiles(payments, dir, records);
    assert files == ChunkFiles(dir, c);
    PaymentLinesAreLines(payments);
    ChunksReadBack(lines, records);
    NumberedLayout(dir, c, records);
  }

  /** The number of numbered files is the number of payments divided by
      `records`, rounded up. */
  lemma HistoryFileCount(payments: seq<Payment>, dir: string, records: int)
    requires 1 <= records < |payments|
    ensures var k := |HistoryFiles(payments, dir, records)|;
      (k - 1) * records < |payments| <= k * records
  {
    var lines := PaymentLines(payments);
    var c := Chunks(lines, records);
    assert |HistoryFiles(payments, dir, records)| == |c|;
    ChunksShape(lines, records);
    ChunksMany(lines, records);
    GroupCount(c, records);
  }

  /** A `records` that is not positive never closes the first file: a non-empty
      history all goes to payments1.dump. */
  lemma HistoryNonPositiveRecords(payments: seq<Payment>, dir: string, records: int)
    requires records <= 0 && payments != []
    ensures HistoryFiles(payments, dir, records) == [File(dir + "/payments1.dump", Flatten(PaymentLines(payments)))]
  {
    var lines := PaymentLines(payments);
    ChunksShort(lines, |payments|);
    assert Chunks(lines, GroupSize(|payments|, records)) == [lines];
    assert FormatInt(1) == "1";
    assert ChunkName(dir, 1) == dir + "/payments1.dump";
  }

  /** No two files of a history have the same name, so none truncates another. */
  lemma HistoryNamesDistinct(payments: seq<Payment>, dir: string, records: int)
    ensures var files := HistoryFiles(payments, dir, records);
      forall i, j :: 0 <= i < j < |files| ==> files[i].name != files[j].name
  {
    if payments != [] && |payments| > records {
      ChunkNamesDistinct(dir, Chunks(PaymentLines(payments), GroupSize(|payments|, records)));
    }
  }

  /** Numbered files never share a name. */
  lemma ChunkNamesDistinct(dir: string, groups: seq<seq<string>>)
    ensures var files := ChunkFiles(dir, groups);
      forall i, j :: 0 <= i < j < |files| ==> files[i].name != files[j].name
  {
    var files := ChunkFiles(dir, groups);
    forall i, j | 0 <= i < j < |files| ensures files[i].name != files[j].name {
      assert files[i].name == ChunkName(dir, i + 1) && files[j].name == ChunkName(dir, j + 1);
      if files[i].name == files[j].name {
        ChunkNameInjective(dir, i + 1, j + 1);
      }
    }
  }
}
