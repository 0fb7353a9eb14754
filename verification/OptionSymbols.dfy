/**
 Option symbols: the two regular expressions and the scanner that matches them, the
 parser, the printer of subscription symbols, and how far parsing undoes printing.
 */
module OptionSymbols {
  import opened Common
  import opened Rounding
  import opened Calendar

  predicate IsUpper(c: char) { 'A' <= c <= 'Z' }

  predicate IsDigit(c: char) { '0' <= c <= '9' }

  predicate AllUpper(s: string) { forall i :: 0 <= i < |s| ==> IsUpper(s[i]) }

  predicate AllDigits(s: string) { forall i :: 0 <= i < |s| ==> IsDigit(s[i]) }

  // ---- the two patterns ----

  /** The captured groups; `mon` is one character in weekly and three in monthly form. */
  datatype Groups = Groups(exch: string, root: string, yy: string, mon: string, dd: string, strike: string, ot: string)

  predicate CommonGroups(g: Groups) {
    && g.exch != [] && AllUpper(g.exch) && g.root != [] && AllUpper(g.root)
    && |g.yy| == 2 && AllDigits(g.yy)
    && g.strike != [] && AllDigits(g.strike) && (g.ot == "CE" || g.ot == "PE")
  }

  predicate WeeklyGroups(g: Groups) {
    && CommonGroups(g)
    && |g.mon| == 1 && (IsUpper(g.mon[0]) || '1' <= g.mon[0] <= '9')
    && |g.dd| == 2 && AllDigits(g.dd)
  }

  predicate MonthlyGroups(g: Groups) {
    CommonGroups(g) && |g.mon| == 3 && AllUpper(g.mon) && g.dd == []
  }

  /** The text a match spells; `end` is empty or the one newline that `$` tolerates. */
  function Spell(g: Groups, end: string): string {
    g.exch + ":" + g.root + g.yy + g.mon + g.dd + g.strike + g.ot + end
  }

  predicate IsEnd(end: string) { end == "" || end == "\n" }

  ghost predicate MatchesWeekly(s: string, g: Groups) {
    WeeklyGroups(g) && (s == Spell(g, "") || s == Spell(g, "\n"))
  }

  ghost predicate MatchesMonthly(s: string, g: Groups) {
    MonthlyGroups(g) && (s == Spell(g, "") || s == Spell(g, "\n"))
  }

  // ---- scanning ----

  function UpperRun(s: string): (n: nat)
    ensures n <= |s| && AllUpper(s[..n]) && (n < |s| ==> !IsUpper(s[n]))
  {
    if s == [] || !IsUpper(s[0]) then 0
    else
      var n := UpperRun(s[1..]);
      assert s[..n + 1] == [s[0]] + s[1..][..n];
      n + 1
  }

  function DigitRun(s: string): (n: nat)
    ensures n <= |s| && AllDigits(s[..n]) && (n < |s| ==> !IsDigit(s[n]))
  {
    if s == [] || !IsDigit(s[0]) then 0
    else
      var n := DigitRun(s[1..]);
      assert s[..n + 1] == [s[0]] + s[1..][..n];
      n + 1
  }

  lemma UpperRunIs(a: string, b: string)
    requires AllUpper(a) && (b == [] || !IsUpper(b[0]))
    ensures UpperRun(a + b) == |a|
  {
    hide UpperRun;
    var n, s := UpperRun(a + b), a + b;
    forall i | 0 <= i < n ensures IsUpper(s[i]) { assert s[..n][i] == s[i]; }
    assert forall i :: 0 <= i < |a| ==> s[i] == a[i];
    assert b != [] ==> s[|a|] == b[0];
  }

  lemma DigitRunIs(a: string, b: string)
    requires AllDigits(a) && (b == [] || !IsDigit(b[0]))
    ensures DigitRun(a + b) == |a|
  {
    hide DigitRun;
    var n, s := DigitRun(a + b), a + b;
    forall i | 0 <= i < n ensures IsDigit(s[i]) { assert s[..n][i] == s[i]; }
    assert forall i :: 0 <= i < |a| ==> s[i] == a[i];
    assert b != [] ==> s[|a|] == b[0];
  }

  /** Exchange, root and two-digit year; what follows is the rest. */
  datatype Head = Head(exch: string, root: string, yy: string, rest: string)

  function ScanHead(s: string): Option<Head> {
    var n := UpperRun(s);
    if n == 0 || n == |s| || s[n] != ':' then None
    else
      var t := s[n + 1..];
      var m := UpperRun(t);
      if m == 0 || |t| < m + 2 || !IsDigit(t[m]) || !IsDigit(t[m + 1]) then None
      else Some(Head(s[..n], t[..m], t[m..m + 2], t[m + 2..]))
  }

  /** Strike and option type, to the end. */
  function ScanTail(s: string): Option<(string, string)> {
    var n := DigitRun(s);
    if n == 0 then None
    else if s[n..] == "CE" || s[n..] == "CE\n" then Some((s[..n], "CE"))
    else if s[n..] == "PE" || s[n..] == "PE\n" then Some((s[..n], "PE"))
    else None
  }

  function ScanWeekly(s: string): Option<Groups> {
    match ScanHead(s)
    case None => None
    case Some(h) =>
      if |h.rest| < 3 || !(IsUpper(h.rest[0]) || '1' <= h.rest[0] <= '9')
         || !IsDigit(h.rest[1]) || !IsDigit(h.rest[2]) then None
      else match ScanTail(h.rest[3..])
        case None => None
        case Some(t) => Some(Groups(h.exch, h.root, h.yy, h.rest[..1], h.rest[1..3], t.0, t.1))
  }

  function ScanMonthly(s: string): Option<Groups> {
    match ScanHead(s)
    case None => None
    case Some(h) =>
      if |h.rest| < 3 || !IsUpper(h.rest[0]) || !IsUpper(h.rest[1]) || !IsUpper(h.rest[2]) then None
      else match ScanTail(h.rest[3..])
        case None => None
        case Some(t) => Some(Groups(h.exch, h.root, h.yy, h.rest[..3], [], t.0, t.1))
  }

  lemma HeadSound(s: string)
    requires ScanHead(s).Some?
    ensures var h := ScanHead(s).value;
      && s == h.exch + ":" + h.root + h.yy + h.rest
      && h.exch != [] && AllUpper(h.exch) && h.root != [] && AllUpper(h.root) && |h.yy| == 2 && AllDigits(h.yy)
  {
    var n := UpperRun(s);
    var t := s[n + 1..];
    var m := UpperRun(t);
    assert s == s[..n] + ":" + t;
    assert t == t[..m] + t[m..m + 2] + t[m + 2..];
  }

  lemma HeadComplete(exch: string, root: string, yy: string, rest: string)
    requires exch != [] && AllUpper(exch) && root != [] && AllUpper(root) && |yy| == 2 && AllDigits(yy)
    ensures ScanHead(exch + ":" + root + yy + rest) == Some(Head(exch, root, yy, rest))
  {
    var s, t := exch + ":" + root + yy + rest, root + yy + rest;
    assert s == exch + (":" + t) && t == root + (yy + rest);
    UpperRunIs(exch, ":" + t);
    UpperRunIs(root, yy + rest);
    ConcatParts(exch, ":", t);
    ConcatParts(root, yy, rest);
    hide UpperRun, AllUpper;
    assert t[|root|] == yy[0] && t[|root| + 1] == yy[1];
    assert IsDigit(yy[0]) && IsDigit(yy[1]);
  }

  lemma ConcatParts(a: string, b: string, c: string)
    ensures var s := a + b + c; s[..|a|] == a && s[|a|..|a| + |b|] == b && s[|a| + |b|..] == c
    ensures a + b + c == a + (b + c)
  {}

  lemma TailSound(s: string)
    requires ScanTail(s).Some?
    ensures var (strike, ot) := ScanTail(s).value;
      && strike != [] && AllDigits(strike) && (ot == "CE" || ot == "PE")
      && (s == strike + ot || s == strike + ot + "\n")
  {
    var n := DigitRun(s);
    assert s == s[..n] + s[n..];
    assert "CE" + "\n" == "CE\n" && "PE" + "\n" == "PE\n";
  }

  lemma TailComplete(strike: string, ot: string, end: string)
    requires strike != [] && AllDigits(strike) && (ot == "CE" || ot == "PE") && IsEnd(end)
    ensures ScanTail(strike + ot + end) == Some((strike, ot))
  {
    var s := strike + ot + end;
    assert s == strike + (ot + end);
    assert (ot + end)[0] == ot[0];
    DigitRunIs(strike, ot + end);
    assert s[..|strike|] == strike && s[|strike|..] == ot + end;
    if end == "" { assert ot + end == ot; }
    assert "CE" + "\n" == "CE\n" && "PE" + "\n" == "PE\n";
    assert "CE"[0] != "PE"[0] && (ot + end)[0] == ot[0];
  }

  lemma SpellSplits(g: Groups, end: string)
    ensures Spell(g, end) == g.exch + ":" + g.root + g.yy + (g.mon + g.dd + (g.strike + g.ot + end))
  {}

  /** The weekly scanner finds exactly the matches of the weekly pattern, so at most one. */
  lemma WeeklyScannerIsPattern(s: string, g: Groups)
    ensures ScanWeekly(s) == Some(g) <==> MatchesWeekly(s, g)
  {
    hide ScanWeekly, MatchesWeekly;
    if ScanWeekly(s) == Some(g) { WeeklySound(s, g); }
    if MatchesWeekly(s, g) { WeeklyComplete(s, g); }
  }

  lemma WeeklySound(s: string, g: Groups)
    requires ScanWeekly(s) == Some(g)
    ensures MatchesWeekly(s, g)
  {
    hide ScanHead, ScanTail, Spell;
    HeadSound(s);
    var rest := ScanHead(s).value.rest;
    TailSound(rest[3..]);
    assert rest == rest[..1] + rest[1..3] + rest[3..];
    Reassemble(s, g, rest[3..]);
  }

  lemma WeeklyComplete(s: string, g: Groups)
    requires MatchesWeekly(s, g)
    ensures ScanWeekly(s) == Some(g)
  {
    hide ScanHead, ScanTail, Spell, AllUpper;
    ScanSpelled(g, if s == Spell(g, "") then "" else "\n");
    var rest := ScanHead(s).value.rest;
    assert rest[0] == rest[..3][0] == g.mon[0] && rest[1] == rest[..3][1] == g.dd[0]
           && rest[2] == rest[..3][2] == g.dd[1];
    assert rest[..1] == g.mon && rest[1..3] == g.dd;
    assert IsDigit(g.dd[0]) && IsDigit(g.dd[1]);
  }

  /** The monthly scanner finds exactly the matches of the monthly pattern, so at most one. */
  lemma MonthlyScannerIsPattern(s: string, g: Groups)
    ensures ScanMonthly(s) == Some(g) <==> MatchesMonthly(s, g)
  {
    hide ScanMonthly, MatchesMonthly;
    if ScanMonthly(s) == Some(g) { MonthlySound(s, g); }
    if MatchesMonthly(s, g) { MonthlyComplete(s, g); }
  }

  lemma MonthlySound(s: string, g: Groups)
    requires ScanMonthly(s) == Some(g)
    ensures MatchesMonthly(s, g)
  {
    hide ScanHead, ScanTail, Spell;
    HeadSound(s);
    var rest := ScanHead(s).value.rest;
    TailSound(rest[3..]);
    assert rest == rest[..3] + [] + rest[3..];
    Reassemble(s, g, rest[3..]);
  }

  lemma MonthlyComplete(s: string, g: Groups)
    requires MatchesMonthly(s, g)
    ensures ScanMonthly(s) == Some(g)
  {
    hide ScanHead, ScanTail, Spell;
    ScanSpelled(g, if s == Spell(g, "") then "" else "\n");
    var rest := ScanHead(s).value.rest;
    assert g.mon + g.dd == g.mon;
    assert rest[0] == rest[..3][0] && rest[1] == rest[..3][1] && rest[2] == rest[..3][2];
  }

  lemma Reassemble(s: string, g: Groups, tail: string)
    requires s == g.exch + ":" + g.root + g.yy + (g.mon + g.dd + tail)
    requires tail == g.strike + g.ot || tail == g.strike + g.ot + "\n"
    ensures s == Spell(g, "") || s == Spell(g, "\n")
  {
    SpellSplits(g, "");
    SpellSplits(g, "\n");
    assert g.strike + g.ot + "" == g.strike + g.ot;
  }

  /** Head and tail of a spelled symbol are read back whatever the middle. */
  lemma ScanSpelled(g: Groups, end: string)
    requires CommonGroups(g) && IsEnd(end) && |g.mon| + |g.dd| == 3
    ensures var h := ScanHead(Spell(g, end));
      && h == Some(Head(g.exch, g.root, g.yy, g.mon + g.dd + (g.strike + g.ot + end)))
      && h.value.rest[..3] == g.mon + g.dd
      && ScanTail(h.value.rest[3..]) == Some((g.strike, g.ot))
  {
    var tail := g.strike + g.ot + end;
    var rest := g.mon + g.dd + tail;
    SpellSplits(g, end);
    HeadComplete(g.exch, g.root, g.yy, rest);
    TailComplete(g.strike, g.ot, end);
    assert rest[..3] == g.mon + g.dd && rest[3..] == tail;
  }

  /** No symbol matches both patterns. */
  lemma PatternsDisjoint(s: string, g: Groups, h: Groups)
    ensures !(MatchesWeekly(s, g) && MatchesMonthly(s, h))
  {
    WeeklyScannerIsPattern(s, g);
    MonthlyScannerIsPattern(s, h);
  }

  // ---- the parser ----

  function DigitValue(c: char): int
    requires IsDigit(c)
  {
    c as int - '0' as int
  }

  function ValueOf(s: string): nat
    requires AllDigits(s)
  {
    if s == [] then 0 else ValueOf(s[..|s| - 1]) * 10 + DigitValue(s[|s| - 1])
  }

  function Months(): (names: seq<string>)
    ensures |names| == 12
  {
    ["JAN", "FEB", "MAR", "APR", "MAY", "JUN", "JUL", "AUG", "SEP", "OCT", "NOV", "DEC"]
  }

  function WeeklyCodes(): (codes: string)
    ensures |codes| == 12
  {
    "123456789OND"
  }

  function IndexIn<T(==)>(xs: seq<T>, x: T): Option<int> {
    if xs == [] then None
    else if xs[|xs| - 1] == x then Some(|xs| - 1)
    else IndexIn(xs[..|xs| - 1], x)
  }

  /** Month number of a one- or three-character code. */
  function MonthOf(code: string): Option<int> {
    match (if |code| == 1 then IndexIn(WeeklyCodes(), code[0]) else IndexIn(Months(), code))
    case Some(i) => Some(i + 1)
    case None => None
  }

  datatype Symbol = Symbol(exch: string, root: string, expiry: Date, strike: int, ot: string)

  /** `Raises` is the error of an impossible calendar date. */
  datatype ParseResult = Parsed(symbol: Symbol) | NoSymbol | Raises

  function ToSymbol(g: Groups, date: Date): ParseResult
    requires CommonGroups(g)
  {
    if date.Valid() then Parsed(Symbol(g.exch, g.root, date, ValueOf(g.strike), g.ot)) else Raises
  }

  function Parse(s: string): ParseResult {
    match ScanWeekly(s)
    case Some(g) =>
      WeeklyScannerIsPattern(s, g);
      (match MonthOf(g.mon)
       case None => NoSymbol
       case Some(m) => ToSymbol(g, Date(2000 + ValueOf(g.yy), m, ValueOf(g.dd))))
    case None =>
      match ScanMonthly(s)
      case None => NoSymbol
      case Some(g) =>
        MonthlyScannerIsPattern(s, g);
        match MonthOf(g.mon)
        case None => NoSymbol
        case Some(m) =>
          MonthInRange(g.mon);
          ToSymbol(g, Date(2000 + ValueOf(g.yy), m, LastTuesday(2000 + ValueOf(g.yy), m)))
  }

  lemma {:induction false} IndexInRange<T>(xs: seq<T>, x: T)
    ensures IndexIn(xs, x).Some? ==> 0 <= IndexIn(xs, x).value < |xs| && xs[IndexIn(xs, x).value] == x
  {
    if xs == [] {
    } else {
      IndexInRange(xs[..|xs| - 1], x);
    }
  }

  lemma MonthInRange(code: string)
    ensures MonthOf(code).Some? ==> 1 <= MonthOf(code).value <= 12
  {
    if |code| == 1 { IndexInRange(WeeklyCodes(), code[0]); } else { IndexInRange(Months(), code); }
  }

  // ---- the printer ----

  function DigitChar(n: int): (c: char)
    requires 0 <= n <= 9
    ensures IsDigit(c) && DigitValue(c) == n
  {
    '0' + n as char
  }

  function Decimal(n: nat): (s: string)
    ensures s != [] && AllDigits(s)
  {
    if n < 10 then [DigitChar(n)] else Decimal(n / 10) + [DigitChar(n % 10)]
  }

  /** Python's str of an integer. */
  function Str(n: int): string { if n < 0 then "-" + Decimal(-n) else Decimal(n) }

  function TwoDigits(n: int): (s: string)
    requires 0 <= n <= 99
    ensures |s| == 2 && AllDigits(s)
  {
    [DigitChar(n / 10), DigitChar(n % 10)]
  }

  function PrintMonthly(exch: string, root: string, date: Date): string
    requires date.Valid()
  {
    exch + ":" + root + TwoDigits(date.y % 100) + Months()[date.m - 1]
  }

  function PrintWeekly(exch: string, root: string, date: Date): string
    requires date.Valid()
  {
    exch + ":" + root + TwoDigits(date.y % 100) + [WeeklyCodes()[date.m - 1]] + TwoDigits(date.d)
  }

  /** Monthly form for the last occurrence of a weekday in its month, weekly form otherwise. */
  function Prefix(exch: string, root: string, date: Date): string
    requires date.Valid()
  {
    if IsLastWeekdayOfMonth(date) then PrintMonthly(exch, root, date) else PrintWeekly(exch, root, date)
  }

  // ---- round trips ----

  lemma {:induction false} DecimalValue(n: nat)
    ensures ValueOf(Decimal(n)) == n
  {
    if n >= 10 {
      DecimalValue(n / 10);
      var rest := Decimal(n / 10);
      assert (rest + [DigitChar(n % 10)])[..|rest|] == rest;
    } else {
      assert Decimal(n)[..0] == [];
    }
  }

  lemma TwoDigitsValue(n: int)
    requires 0 <= n <= 99
    ensures ValueOf(TwoDigits(n)) == n
  {
    var s := TwoDigits(n);
    assert s[..1] == [s[0]] && s[..1][..0] == [];
    assert ValueOf(s[..1]) == n / 10;
  }

  predicate Names(exch: string, root: string, ot: string) {
    exch != [] && AllUpper(exch) && root != [] && AllUpper(root) && (ot == "CE" || ot == "PE")
  }

  lemma CodesRoundTrip(m: int)
    requires 1 <= m <= 12
    ensures MonthOf([WeeklyCodes()[m - 1]]) == Some(m) && MonthOf(Months()[m - 1]) == Some(m)
    ensures |Months()[m - 1]| == 3 && AllUpper(Months()[m - 1])
    ensures IsUpper(WeeklyCodes()[m - 1]) || '1' <= WeeklyCodes()[m - 1] <= '9'
  {
    IndexOfElement(WeeklyCodes(), m - 1);
    IndexOfElement(Months(), m - 1);
    MonthsDiffer();
  }

  lemma MonthsDiffer()
    ensures forall i, j :: 0 <= i < j < 12 ==> Months()[i] != Months()[j] && WeeklyCodes()[i] != WeeklyCodes()[j]
  {}

  lemma {:induction false} IndexOfElement<T>(xs: seq<T>, i: int)
    requires 0 <= i < |xs| && forall j, k :: 0 <= j < k < |xs| ==> xs[j] != xs[k]
    ensures IndexIn(xs, xs[i]) == Some(i)
  {
    if i == |xs| - 1 {
    } else {
      IndexOfElement(xs[..|xs| - 1], i);
    }
  }

  /** A symbol in weekly form parses back to exactly what was printed. */
  lemma WeeklyRoundTrip(exch: string, root: string, date: Date, strike: nat, ot: string)
    requires Names(exch, root, ot) && date.Valid() && 2000 <= date.y <= 2099
    ensures Parse(PrintWeekly(exch, root, date) + Str(strike) + ot) == Parsed(Symbol(exch, root, date, strike, ot))
  {
    hide ScanWeekly, ScanMonthly, MonthOf, WeeklyCodes, Decimal, TwoDigits, ValueOf;
    var yy, mon, dd := TwoDigits(date.y % 100), [WeeklyCodes()[date.m - 1]], TwoDigits(date.d);
    var g := Groups(exch, root, yy, mon, dd, Decimal(strike), ot);
    var s := PrintWeekly(exch, root, date) + Str(strike) + ot;
    CodesRoundTrip(date.m);
    assert s == Spell(g, "");
    assert MatchesWeekly(s, g);
    WeeklyScannerIsPattern(s, g);
    TwoDigitsValue(date.y % 100); TwoDigitsValue(date.d); DecimalValue(strike);
  }

  /** A symbol in monthly form parses back with the month's last Tuesday as its expiry. */
  lemma MonthlyRoundTrip(exch: string, root: string, date: Date, strike: nat, ot: string)
    requires Names(exch, root, ot) && date.Valid() && 2000 <= date.y <= 2099
    ensures Parse(PrintMonthly(exch, root, date) + Str(strike) + ot)
            == Parsed(Symbol(exch, root, Date(date.y, date.m, LastTuesday(date.y, date.m)), strike, ot))
  {
    hide ScanWeekly, ScanMonthly, MonthOf, Months, Decimal, TwoDigits, ValueOf, LastTuesday, Weekday, IsLastOf;
    var g := Groups(exch, root, TwoDigits(date.y % 100), Months()[date.m - 1], [], Decimal(strike), ot);
    var s := PrintMonthly(exch, root, date) + Str(strike) + ot;
    CodesRoundTrip(date.m);
    assert s == Spell(g, "");
    MonthlyScannerIsPattern(s, g);
    NotWeekly(s, g);
    TwoDigitsValue(date.y % 100); DecimalValue(strike);
    LastTuesdayDate(date.y, date.m);
  }

  lemma NotWeekly(s: string, g: Groups)
    requires MatchesMonthly(s, g)
    ensures ScanWeekly(s) == None
  {
    hide ScanWeekly, MatchesMonthly, MatchesWeekly;
    if ScanWeekly(s).Some? {
      WeeklyScannerIsPattern(s, ScanWeekly(s).value);
      PatternsDisjoint(s, ScanWeekly(s).value, g);
    }
  }

  lemma LastTuesdayDate(y: int, m: int)
    requires y >= 1 && 1 <= m <= 12
    ensures Date(y, m, LastTuesday(y, m)).Valid()
  {
    LastTuesdayIsLast(y, m);
  }

  /**
   What the subscription prints is read back unchanged exactly when the expiry is not
   the last of its weekday in its month, or is a Tuesday.
   */
  lemma SubscribedRoundTrip(exch: string, root: string, date: Date, strike: nat, ot: string)
    requires Names(exch, root, ot) && date.Valid() && 2000 <= date.y <= 2099
    ensures Parse(Prefix(exch, root, date) + Str(strike) + ot) == Parsed(Symbol(exch, root, date, strike, ot))
            <==> (date.d + 7 <= DaysIn(date.y, date.m) || Weekday(date.y, date.m, date.d) == TUESDAY)
  {
    WeeklyRoundTrip(exch, root, date, strike, ot);
    MonthlyRoundTrip(exch, root, date, strike, ot);
    LastWeekdayIff(date);
    LastTuesdayIsLast(date.y, date.m);
    hide Parse, IsLastWeekdayOfMonth, LastTuesday;
    if date.d + 7 > DaysIn(date.y, date.m) && Weekday(date.y, date.m, date.d) == TUESDAY {
      LastIsUnique(date.y, date.m, TUESDAY, date.d, LastTuesday(date.y, date.m));
    }
  }

  /** Thursday 29 January 2026, the last of its weekday, is read back as Tuesday the 27th. */
  lemma ThursdayExpiryMisread()
    ensures Parse(Prefix("BSE", "SENSEX", Date(2026, 1, 29)) + Str(80_000) + "CE")
            == Parsed(Symbol("BSE", "SENSEX", Date(2026, 1, 27), 80_000, "CE"))
  {
    hide Parse, LastTuesday, IsLastWeekdayOfMonth, Weekday, IsLastOf, PrintMonthly, PrintWeekly, Str;
    MonthlyRoundTrip("BSE", "SENSEX", Date(2026, 1, 29), 80_000, "CE");
    LastWeekdayIff(Date(2026, 1, 29));
    LastTuesdayIsLast(2026, 1);
    TuesdayThe27th();
    LastIsUnique(2026, 1, TUESDAY, LastTuesday(2026, 1), 27);
  }

  lemma TuesdayThe27th()
    ensures IsLastOf(2026, 1, TUESDAY, 27)
  {
    assert Weekday(2026, 1, 27) == TUESDAY;
  }

  // ---- what is printed, character by character ----

  /** The abbreviated English name of a month, in capitals. */
  function MonthName(m: int): string
    requires 1 <= m <= 12
  {
    match m
    case 1 => "JAN"
    case 2 => "FEB"
    case 3 => "MAR"
    case 4 => "APR"
    case 5 => "MAY"
    case 6 => "JUN"
    case 7 => "JUL"
    case 8 => "AUG"
    case 9 => "SEP"
    case 10 => "OCT"
    case 11 => "NOV"
    case _ => "DEC"
  }

  /** The one character a weekly symbol has for a month: its digit, from October on its first letter. */
  function MonthCharacter(m: int): char
    requires 1 <= m <= 12
  {
    if m <= 9 then '0' + m as char else MonthName(m)[0]
  }

  lemma MonthTables(m: int)
    requires 1 <= m <= 12
    ensures Months()[m - 1] == MonthName(m) && WeeklyCodes()[m - 1] == MonthCharacter(m)
  {}

  /** The parser reads each month by the same names: a matched weekly O, N or D is month 10, 11 or 12. */
  lemma MonthsRead(m: int)
    requires 1 <= m <= 12
    ensures MonthOf(MonthName(m)) == Some(m) && MonthOf([MonthCharacter(m)]) == Some(m)
    ensures MonthOf("O") == Some(10) && MonthOf("N") == Some(11) && MonthOf("D") == Some(12)
  {
    MonthTables(m); MonthTables(10); MonthTables(11); MonthTables(12);
    CodesRoundTrip(m); CodesRoundTrip(10); CodesRoundTrip(11); CodesRoundTrip(12);
    hide Months, WeeklyCodes, MonthOf;
  }

  /** A number prints as its decimal digits, most significant first, and is read as such. */
  lemma DigitsAre(n: nat, c: char)
    ensures n < 10 ==> Str(n) == ['0' + n as char]
    ensures n >= 10 ==> Str(n) == Str(n / 10) + ['0' + (n % 10) as char]
    ensures IsDigit(c) ==> ValueOf(Str(n) + [c]) == 10 * n + (c as int - '0' as int)
    ensures 10 <= n < 100 ==> TwoDigits(n) == Str(n)
    ensures n < 10 ==> TwoDigits(n) == "0" + Str(n)
  {
    DecimalValue(n);
    assert (Str(n) + [c])[..|Str(n)|] == Str(n);
  }

  /** Both forms, part by part. */
  lemma PrefixParts(exch: string, root: string, date: Date)
    requires date.Valid()
    ensures var yy, head := TwoDigits(date.y % 100), exch + ":" + root;
      Prefix(exch, root, date)
      == if date.d + 7 > DaysIn(date.y, date.m) then head + yy + MonthName(date.m)
         else head + yy + [MonthCharacter(date.m)] + TwoDigits(date.d)
  {
    LastWeekdayIff(date);
    MonthTables(date.m);
    hide IsLastWeekdayOfMonth, TwoDigits, WeeklyCodes, Months, MonthName, MonthCharacter;
  }

  // ---- the subscription list ----

  datatype Index = NIFTY50 | BANKNIFTY | SENSEX

  function StrikeStep(i: Index): int { if i == NIFTY50 then 50 else 100 }

  function RootOf(i: Index): string {
    match i case NIFTY50 => "NIFTY" case BANKNIFTY => "BANKNIFTY" case SENSEX => "SENSEX"
  }

  function ExchangeOf(i: Index): string { if i == SENSEX then "BSE" else "NSE" }

  /** The strike nearest to a price. */
  function AlignStrike(i: Index, price: real): (strike: int)
    ensures strike % StrikeStep(i) == 0
    ensures -(StrikeStep(i) as real) / 2.0 <= strike as real - price <= StrikeStep(i) as real / 2.0
  {
    HalfEven(price / StrikeStep(i) as real) * StrikeStep(i)
  }

  /** At the money plus and minus `window` steps, ascending. */
  function AtmStrikes(i: Index, spot: real, window: int): seq<int> {
    var atm := AlignStrike(i, spot);
    seq(Max(2 * window + 1, 0), k => atm + (k - window) * StrikeStep(i))
  }

  function Side(k: int): string { if k % 2 == 0 then "CE" else "PE" }

  function SymbolAt(i: Index, date: Date, strikes: seq<int>, k: int): string
    requires date.Valid() && 0 <= k < 2 * |strikes|
  {
    Prefix(ExchangeOf(i), RootOf(i), date) + Str(strikes[k / 2]) + Side(k)
  }

  /** Strikes run from `window` steps below the money to `window` steps above, a step apart. */
  lemma AtmStrikesAre(i: Index, spot: real, window: int)
    requires window >= 0
    ensures var strikes, step := AtmStrikes(i, spot, window), if i.NIFTY50? then 50 else 100;
      && |strikes| == 2 * window + 1 && strikes[window] == AlignStrike(i, spot) && strikes[window] % step == 0
      && (forall k :: 0 <= k < 2 * window ==> strikes[k + 1] - strikes[k] == step)
  {
    hide AlignStrike;
  }

  /** A price halfway between two strikes goes to the one that is an even number of steps. */
  lemma HalfwayStrike(i: Index, price: real)
    ensures var step := if i.NIFTY50? then 50 else 100;
      Abs(AlignStrike(i, price) as real - price) == step as real / 2.0 ==> AlignStrike(i, price) % (2 * step) == 0
  {
    HalfEvenTies(price / StrikeStep(i) as real);
    hide HalfEven;
  }

  /** One call and one put symbol per strike, the call first. */
  method BuildOptionSubscription(i: Index, expiry: Date, spot: real, window: int) returns (symbols: seq<string>)
    requires expiry.Valid()
    ensures var strikes := AtmStrikes(i, spot, window);
      && |symbols| == 2 * |strikes|
      && (forall k :: 0 <= k < |symbols| ==> symbols[k] == SymbolAt(i, expiry, strikes, k))
      && (forall n :: 0 <= n < |strikes| ==>
            var exch := if i.SENSEX? then "BSE" else "NSE";
            var root := if i.NIFTY50? then "NIFTY" else if i.BANKNIFTY? then "BANKNIFTY" else "SENSEX";
            && symbols[2 * n] == Prefix(exch, root, expiry) + Str(strikes[n]) + "CE"
            && symbols[2 * n + 1] == Prefix(exch, root, expiry) + Str(strikes[n]) + "PE")
  {
    hide IsLastWeekdayOfMonth, AtmStrikes, Str;
    var strikes := AtmStrikes(i, spot, window);
    var prefix := Prefix(ExchangeOf(i), RootOf(i), expiry);
    symbols := [];
    for n := 0 to |strikes|
      invariant |symbols| == 2 * n
      invariant forall k :: 0 <= k < |symbols| ==> symbols[k] == SymbolAt(i, expiry, strikes, k)
    {
      symbols := symbols + [prefix + Str(strikes[n]) + "CE"] + [prefix + Str(strikes[n]) + "PE"];
    }
  }

  /** No two subscribed symbols are the same, whatever the expiry and the sign of the strikes. */
  lemma SubscriptionDistinct(i: Index, date: Date, spot: real, window: int, j: int, k: int)
    requires date.Valid() && 0 <= j < k < 2 * |AtmStrikes(i, spot, window)|
    ensures var strikes := AtmStrikes(i, spot, window);
      SymbolAt(i, date, strikes, j) != SymbolAt(i, date, strikes, k)
  {
    hide Prefix, Str, AtmStrikes, Side;
    var strikes := AtmStrikes(i, spot, window);
    StrikesAscend(i, spot, window, j / 2);
    SideLength(j);
    SideLength(k);
    if SymbolAt(i, date, strikes, j) == SymbolAt(i, date, strikes, k) {
      Cancel(Prefix(ExchangeOf(i), RootOf(i), date), Str(strikes[j / 2]), Side(j), Str(strikes[k / 2]), Side(k));
      StrInjective(strikes[j / 2], strikes[k / 2]);
      SideParity(j, k);
    }
  }

  lemma StrikesAscend(i: Index, spot: real, window: int, n: int)
    requires 0 <= n < |AtmStrikes(i, spot, window)|
    ensures forall m :: n < m < |AtmStrikes(i, spot, window)| ==>
              AtmStrikes(i, spot, window)[n] < AtmStrikes(i, spot, window)[m]
  {
    hide AlignStrike;
  }

  lemma SideLength(k: int)
    ensures |Side(k)| == 2
  {}

  lemma SideParity(j: int, k: int)
    ensures Side(j) == Side(k) ==> j % 2 == k % 2
  {
    assert "CE"[0] != "PE"[0];
  }

  lemma Cancel(p: string, a: string, x: string, b: string, y: string)
    requires |x| == |y| && p + a + x == p + b + y
    ensures a == b && x == y
  {
    var s := p + a + x;
    assert |a| == |b|;
    assert a == s[|p|..|p| + |a|] == b;
    assert x == s[|p| + |a|..] == y;
  }

  /** Different integers print differently. */
  lemma StrInjective(a: int, b: int)
    requires Str(a) == Str(b)
    ensures a == b
  {
    hide Decimal;
    DecimalValue(if a < 0 then -a else a);
    DecimalValue(if b < 0 then -b else b);
    SignShows(a);
    SignShows(b);
    if a < 0 { assert Str(a)[1..] == Decimal(-a) && Str(b)[1..] == Decimal(-b); }
  }

  lemma SignShows(a: int)
    ensures Str(a) != [] && (Str(a)[0] == '-' <==> a < 0)
  {}
}
