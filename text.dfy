/** The string primitives the dump formats are built from: decimal integers as
    strconv writes and reads them, strings.Split on a one-character separator,
    the trailing CR/LF trim, and the '\n'-terminated lines a buffered reader
    returns before end of file. */
module Text {
  import opened Types
  import opened Seqs

  predicate IsDigit(c: char) { '0' <= c <= '9' }

  predicate AllDigits(s: string) { forall i :: 0 <= i < |s| ==> IsDigit(s[i]) }

  function DigitChar(d: nat): (c: char)
    requires d < 10
    ensures IsDigit(c) && c as int - '0' as int == d
  {
    ('0' as int + d) as char
  }

  function DigitValue(c: char): nat
    requires IsDigit(c)
  {
    c as int - '0' as int
  }

  /** Decimal digits of n with no leading zero ("0" for zero). */
  function Digits(n: nat): (s: string)
    ensures |s| >= 1 && AllDigits(s)
    decreases n
  {
    if n < 10 then [DigitChar(n)] else Digits(n / 10) + [DigitChar(n % 10)]
  }

  /** strconv.FormatInt(x, 10). */
  function FormatInt(x: int): (s: string)
    ensures |s| >= 1
    ensures forall i :: 0 <= i < |s| ==> IsDigit(s[i]) || s[i] == '-'
  {
    if x < 0 then "-" + Digits(-x) else Digits(x)
  }

  /** Value of a string of decimal digits, most significant first. */
  function DigitsValue(s: string): nat
    requires AllDigits(s)
  {
    if s == [] then 0 else DigitsValue(s[..|s| - 1]) * 10 + DigitValue(s[|s| - 1])
  }

  /** strconv.ParseInt(s, 10, 64): an optional sign and at least one decimal digit;
      anything else is a syntax error (None). */
  function ParseInt(s: string): (r: Option<int>)
    ensures r.Some? ==> |s| >= 1 && AllDigits(s[1..])
  {
    if |s| > 1 && (s[0] == '-' || s[0] == '+') && AllDigits(s[1..]) then
      var v: int := DigitsValue(s[1..]);
      Some(if s[0] == '-' then -v else v)
    else if |s| > 0 && AllDigits(s) then
      Some(DigitsValue(s))
    else
      None
  }

  /** What the service keeps of ParseInt when it discards the error: the value
      strconv returns beside a syntax error is 0. */
  function ParseIntOrZero(s: string): int
  {
    match ParseInt(s)
    case Some(v) => v
    case None => 0
  }

  lemma {:induction false} DigitsRoundTrip(n: nat)
    ensures DigitsValue(Digits(n)) == n
    decreases n
  {
    if n >= 10 {
      var s := Digits(n);
      assert s[..|s| - 1] == Digits(n / 10);
      DigitsRoundTrip(n / 10);
    }
  }

  /** Every integer written by FormatInt is read back by ParseInt. */
  lemma FormatIntRoundTrip(x: int)
    ensures ParseInt(FormatInt(x)) == Some(x)
    ensures ParseIntOrZero(FormatInt(x)) == x
  {
    if x < 0 {
      var s := FormatInt(x);
      assert s[1..] == Digits(-x);
      DigitsRoundTrip(-x);
    } else {
      DigitsRoundTrip(x);
    }
  }

  /** strings.Split(s, string(sep)): the pieces between occurrences of sep. A string
      without sep is one piece, the empty string included. */
  function Split(s: string, sep: char): (r: seq<string>)
    ensures |r| >= 1
  {
    if s == [] then [""]
    else
      var rest := Split(s[1..], sep);
      if s[0] == sep then [""] + rest else [[s[0]] + rest[0]] + rest[1..]
  }

  lemma {:induction false} SplitWithoutSeparator(a: string, sep: char)
    requires sep !in a
    ensures Split(a, sep) == [a]
  {
    if a != [] {
      SplitWithoutSeparator(a[1..], sep);
      assert [a[0]] + a[1..] == a;
    }
  }

  /** A piece free of the separator, followed by the separator, splits off as the first piece. */
  lemma {:induction false} SplitFirstPiece(a: string, sep: char, b: string)
    requires sep !in a
    ensures Split(a + [sep] + b, sep) == [a] + Split(b, sep)
  {
    if a == [] {
      assert a + [sep] + b == [sep] + b;
      assert ([sep] + b)[1..] == b;
    } else {
      var s := a + [sep] + b;
      assert s[0] == a[0];
      assert s[1..] == a[1..] + [sep] + b;
      SplitFirstPiece(a[1..], sep, b);
      assert [a[0]] + a[1..] == a;
    }
  }

  /** A leading separator splits off an empty first piece. */
  lemma SplitLeadingSeparator(sep: char, rest: string)
    ensures Split([sep] + rest, sep) == [""] + Split(rest, sep)
  {
    assert ([sep] + rest)[1..] == rest;
  }

  /** The fields with sep between each two, as the dump writers concatenate them. */
  function Join(fields: seq<string>, sep: char): string
    requires |fields| >= 1
    decreases |fields|
  {
    if |fields| == 1 then fields[0] else fields[0] + [sep] + Join(fields[1..], sep)
  }

  /** Splitting joined fields that hold no separator gives the fields back. */
  lemma {:induction false} SplitJoin(fields: seq<string>, sep: char)
    requires |fields| >= 1
    requires forall i :: 0 <= i < |fields| ==> sep !in fields[i]
    ensures Split(Join(fields, sep), sep) == fields
    decreases |fields|
  {
    if |fields| == 1 {
      SplitWithoutSeparator(fields[0], sep);
    } else {
      SplitFirstPiece(fields[0], sep, Join(fields[1..], sep));
      SplitJoin(fields[1..], sep);
    }
  }

  /** Text written after the joined fields belongs to the last field. */
  lemma {:induction false} JoinExtendLast(fields: seq<string>, sep: char, x: string)
    requires |fields| >= 1
    ensures Join(fields, sep) + x == Join(fields[..|fields| - 1] + [fields[|fields| - 1] + x], sep)
    decreases |fields|
  {
    var g := fields[..|fields| - 1] + [fields[|fields| - 1] + x];
    if |fields| > 1 {
      assert g[1..] == fields[1..][..|fields| - 2] + [fields[|fields| - 1] + x];
      JoinExtendLast(fields[1..], sep, x);
    }
  }

  /** The fields with x appended to the last one. */
  function ExtendLast(fields: seq<string>, x: string): (r: seq<string>)
    requires |fields| >= 1
    ensures |r| == |fields|
  {
    fields[..|fields| - 1] + [fields[|fields| - 1] + x]
  }

  lemma ExtendLastFree(fields: seq<string>, x: string, c: char)
    requires |fields| >= 1 && c !in x
    requires forall i :: 0 <= i < |fields| ==> c !in fields[i]
    ensures forall i :: 0 <= i < |fields| ==> c !in ExtendLast(fields, x)[i]
  {
    var g := ExtendLast(fields, x);
    forall i | 0 <= i < |g| ensures c !in g[i] {
      if i < |g| - 1 {
        assert g[i] == fields[i];
      } else {
        assert g[i] == fields[|fields| - 1] + x;
      }
    }
  }

  /** Joined fields followed by text free of the separator split into the fields,
      the text ending up on the last one. */
  lemma SplitJoinExtended(fields: seq<string>, sep: char, x: string)
    requires |fields| >= 1 && sep !in x
    requires forall i :: 0 <= i < |fields| ==> sep !in fields[i]
    ensures Split(Join(fields, sep) + x, sep) == ExtendLast(fields, x)
  {
    JoinExtendLast(fields, sep, x);
    ExtendLastFree(fields, x, sep);
    SplitJoin(ExtendLast(fields, x), sep);
  }

  /** A character in neither the fields nor the separator is not in their join. */
  lemma {:induction false} JoinFree(fields: seq<string>, sep: char, c: char)
    requires |fields| >= 1 && c != sep
    requires forall i :: 0 <= i < |fields| ==> c !in fields[i]
    ensures c !in Join(fields, sep)
    decreases |fields|
  {
    if |fields| > 1 {
      JoinFree(fields[1..], sep, c);
    }
  }

  predicate IsLineEnd(c: char) { c == '\r' || c == '\n' }

  /** removeEndLine: strings.TrimRightFunc with the CR/LF predicate, which strips
      every trailing '\r' and '\n'. */
  function RemoveEndLine(s: string): (r: string)
    ensures r <= s
    ensures r == [] || !IsLineEnd(r[|r| - 1])
    ensures forall i :: |r| <= i < |s| ==> IsLineEnd(s[i])
  {
    if |s| > 0 && IsLineEnd(s[|s| - 1]) then RemoveEndLine(s[..|s| - 1]) else s
  }

  /** The trim is idempotent, and a newline appended to a string that does not end
      in CR or LF is exactly what it removes. */
  lemma RemoveEndLineProperties(s: string)
    ensures RemoveEndLine(RemoveEndLine(s)) == RemoveEndLine(s)
    ensures s == [] || !IsLineEnd(s[|s| - 1]) ==> RemoveEndLine(s + "\n") == s
  {
  }

  predicate IsNewline(c: char) { c == '\n' }

  /** The lines a bufio.Reader returns, each with its '\n', before ReadString
      reports end of file; an unterminated tail is never returned. */
  function Lines(s: string): seq<string>
    decreases |s|
  {
    match FirstWhere(s, IsNewline)
    case None => []
    case Some(i) => [s[..i + 1]] + Lines(s[i + 1..])
  }

  /** One record line: ends in '\n' and holds no other newline. */
  predicate IsLine(l: string)
  {
    |l| >= 1 && l[|l| - 1] == '\n' && '\n' !in l[..|l| - 1]
  }

  /** Every line returned is one record line. */
  lemma {:induction false} LinesAreLines(s: string)
    ensures forall j :: 0 <= j < |Lines(s)| ==> IsLine(Lines(s)[j])
    decreases |s|
  {
    var f := FirstWhere(s, IsNewline);
    if f.Some? {
      var rest := s[f.value + 1..];
      LinesAreLines(rest);
      LinesUnfold(s, f.value);
      var ls := Lines(s);
      forall j | 1 <= j < |ls| ensures IsLine(ls[j]) {
        assert ls[j] == Lines(rest)[j - 1];
      }
    }
  }

  /** The first line is split off at the first '\n'. */
  lemma LinesUnfold(s: string, i: nat)
    requires FirstWhere(s, IsNewline) == Some(i)
    ensures IsLine(s[..i + 1])
    ensures Lines(s) == [s[..i + 1]] + Lines(s[i + 1..])
  {
    FirstLineIsLine(s, i);
  }

  lemma FirstLineIsLine(s: string, i: nat)
    requires FirstWhere(s, IsNewline) == Some(i)
    ensures IsLine(s[..i + 1])
  {
    var body := s[..i + 1][..i];
    assert forall j :: 0 <= j < |body| ==> body[j] == s[j] && !IsNewline(s[j]);
  }

  lemma LinesFirst(l: string, rest: string)
    requires IsLine(l)
    ensures Lines(l + rest) == [l] + Lines(rest)
  {
    var s := l + rest;
    var i := |l| - 1;
    assert s[i] == '\n';
    forall j | 0 <= j < i ensures !IsNewline(s[j]) {
      assert s[j] == l[..i][j];
    }
    assert FirstWhere(s, IsNewline) == Some(i);
    assert s[..i + 1] == l;
    assert s[i + 1..] == rest;
  }

  /** Reading back a concatenation of record lines yields exactly those lines. */
  lemma {:induction false} LinesOfConcat(ls: seq<string>)
    requires forall j :: 0 <= j < |ls| ==> IsLine(ls[j])
    ensures Lines(Flatten(ls)) == ls
  {
    if ls == [] {
      assert FirstWhere("", IsNewline) == None;
    } else {
      LinesFirst(ls[0], Flatten(ls[1..]));
      LinesOfConcat(ls[1..]);
    }
  }
}
