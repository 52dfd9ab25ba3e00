/** Copyright years: sets of years printed as comma-separated ranges, and read back. */
module Copyrights {
  import opened Common
  import opened Text

  datatype Range = Range(first: nat, last: nat)

  predicate IsYear(y: int) {
    1000 <= y <= 9999
  }

  function Render(r: Range): string {
    if r.first == r.last then Decimal(r.first) else Decimal(r.first) + "-" + Decimal(r.last)
  }

  function RenderAll(rs: seq<Range>): seq<string> {
    seq(|rs|, i requires 0 <= i < |rs| => Render(rs[i]))
  }

  /** The years of a range. */
  function Span(r: Range): (years: set<nat>)
    ensures forall y: nat :: y in years <==> r.first <= y <= r.last
    decreases r.last
  {
    if r.first > r.last then {}
    else if r.first == r.last then {r.first}
    else Span(Range(r.first, r.last - 1)) + {r.last}
  }

  function Years(rs: seq<Range>): set<nat> {
    if rs == [] then {} else Years(rs[..|rs| - 1]) + Span(rs[|rs| - 1])
  }

  /** Ascending ranges with a gap between any two, so that none could be merged. */
  predicate Maximal(rs: seq<Range>) {
    && (forall i :: 0 <= i < |rs| ==> rs[i].first <= rs[i].last)
    && (forall i, j :: 0 <= i < j < |rs| ==> rs[i].last + 1 < rs[j].first)
  }

  predicate StrictlyAscending(s: seq<nat>) {
    forall i, j :: 0 <= i < j < |s| ==> s[i] < s[j]
  }

  /** The ranges closed and the range open after the first n dates. */
  datatype Scan = Scan(output: seq<Range>, first: nat, second: nat)

  function ScanDates(dates: seq<nat>, n: nat): Scan
    requires 0 < n <= |dates|
  {
    if n == 1 then Scan([], dates[0], dates[0])
    else
      var before := ScanDates(dates, n - 1);
      var next := dates[n - 1];
      if next == before.second + 1 then before.(second := next)
      else Scan(before.output + [Range(before.first, before.second)], next, next)
  }

  lemma {:induction false} ScanIsMaximal(dates: seq<nat>, n: nat)
    requires 0 < n <= |dates| && StrictlyAscending(dates)
    ensures var s := ScanDates(dates, n);
      && Maximal(s.output) && s.first <= s.second == dates[n - 1]
      && forall i :: 0 <= i < |s.output| ==> s.output[i].last + 1 < s.first
  {
    if n > 1 {
      ScanIsMaximal(dates, n - 1);
    }
  }

  lemma {:induction false} ScanKeepsYears(dates: seq<nat>, n: nat)
    requires 0 < n <= |dates| && StrictlyAscending(dates)
    ensures var s := ScanDates(dates, n);
      Years(s.output) + Span(Range(s.first, s.second)) == Elements(dates[..n])
  {
    ElementsGrow(dates, n - 1);
    if n == 1 {
      SpanOfOne(dates[0]);
      assert Elements(dates[..0]) == {};
    } else {
      ScanKeepsYears(dates, n - 1);
      ScanIsMaximal(dates, n - 1);
      var before := ScanDates(dates, n - 1);
      if dates[n - 1] == before.second + 1 {
        SpanGrows(before.first, before.second);
      } else {
        YearsGrow(before.output, Range(before.first, before.second));
        SpanOfOne(dates[n - 1]);
      }
    }
  }

  function RangesOf(dates: seq<nat>): (rs: seq<Range>)
    requires dates != []
    ensures rs != []
  {
    var s := ScanDates(dates, |dates|);
    s.output + [Range(s.first, s.second)]
  }

  /** The ranges cover exactly the years, and no two of them could be merged. */
  lemma RangesCover(dates: seq<nat>)
    requires dates != [] && StrictlyAscending(dates)
    ensures Maximal(RangesOf(dates)) && Years(RangesOf(dates)) == Elements(dates)
  {
    var s := ScanDates(dates, |dates|);
    ScanIsMaximal(dates, |dates|);
    ScanKeepsYears(dates, |dates|);
    assert dates[..|dates|] == dates;
    YearsGrow(s.output, Range(s.first, s.second));
  }

  // --------------------------------------------------------------------------- sorting

  function InsertYear(y: nat, s: seq<nat>): seq<nat> {
    if s == [] || s[|s| - 1] < y then s + [y] else InsertYear(y, s[..|s| - 1]) + [s[|s| - 1]]
  }

  lemma {:induction false} InsertYearAdds(y: nat, s: seq<nat>)
    ensures forall x :: x in InsertYear(y, s) <==> x == y || x in s
  {
    if !(s == [] || s[|s| - 1] < y) {
      InsertYearAdds(y, s[..|s| - 1]);
      assert s == s[..|s| - 1] + [s[|s| - 1]];
    }
  }

  lemma AppendAscends(s: seq<nat>, y: nat)
    requires StrictlyAscending(s) && forall x :: x in s ==> x < y
    ensures StrictlyAscending(s + [y])
  {
    forall i | 0 <= i < |s| ensures s[i] < y {
      assert s[i] in s;
    }
  }

  lemma {:induction false} InsertYearAscends(y: nat, s: seq<nat>)
    requires StrictlyAscending(s) && y !in s
    ensures StrictlyAscending(InsertYear(y, s))
  {
    if !(s == [] || s[|s| - 1] < y) {
      var init, last := s[..|s| - 1], s[|s| - 1];
      InsertYearAscends(y, init);
      InsertYearAdds(y, init);
      assert last in s && y < last;
      AppendAscends(InsertYear(y, init), last);
    }
  }

  lemma InsertYearSorts(y: nat, s: seq<nat>)
    requires StrictlyAscending(s) && y !in s
    ensures StrictlyAscending(InsertYear(y, s)) && Elements(InsertYear(y, s)) == Elements(s) + {y}
  {
    InsertYearAscends(y, s);
    InsertYearAdds(y, s);
    ElementsAre(s);
    ElementsAre(InsertYear(y, s));
  }

  lemma ElementsAre(s: seq<nat>)
    ensures forall x :: x in Elements(s) <==> x in s
  {}

  /** The years of a set in ascending order. */
  ghost function Listed(years: set<nat>): (s: seq<nat>)
    ensures StrictlyAscending(s) && Elements(s) == years
  {
    if years == {} then []
    else
      var y :| y in years;
      InsertYearSorts(y, Listed(years - {y}));
      InsertYear(y, Listed(years - {y}))
  }

  /** There is only one ascending list of a set. */
  lemma {:induction false} OnlyOneList(s: seq<nat>, t: seq<nat>)
    requires StrictlyAscending(s) && StrictlyAscending(t) && Elements(s) == Elements(t)
    ensures s == t
  {
    NoElements(s);
    NoElements(t);
    if s != [] {
      var (x, z) := (s[|s| - 1], t[|t| - 1]);
      assert x in Elements(t) && z in Elements(s);
      assert x == z;
      LastAside(s);
      LastAside(t);
      OnlyOneList(s[..|s| - 1], t[..|t| - 1]);
      assert s == s[..|s| - 1] + [x] && t == t[..|t| - 1] + [x];
    }
  }

  lemma NoElements(s: seq<nat>)
    ensures Elements(s) == {} <==> s == []
  {
    if s != [] {
      assert s[0] in Elements(s);
    }
  }

  lemma LastAside(s: seq<nat>)
    requires s != [] && StrictlyAscending(s)
    ensures Elements(s[..|s| - 1]) == Elements(s) - {s[|s| - 1]}
  {
    ElementsGrow(s, |s| - 1);
    assert s[..|s|] == s;
  }

  method SortYears(dates: set<nat>) returns (s: seq<nat>)
    ensures s == Listed(dates)
  {
    s := [];
    var left := dates;
    while left != {}
      invariant left <= dates && StrictlyAscending(s) && Elements(s) == dates - left
      decreases left
    {
      var y :| y in left;
      InsertYearSorts(y, s);
      s := InsertYear(y, s);
      left := left - {y};
    }
    OnlyOneList(s, Listed(dates));
  }

  /** The text of a set of years; an empty set has no first year to take. */
  method DateStr(dates: set<nat>) returns (text: Option<string>)
    ensures text == if dates == {} then None else Some(DateText(dates))
  {
    var list := SortYears(dates);
    if list == [] {
      return None;
    }
    assert dates != {};
    var output := Ranges(list);
    text := Some(Join(RenderAll(output), ','));
  }

  ghost function DateText(dates: set<nat>): string
    requires dates != {}
  {
    Join(RenderAll(RangesOf(Listed(dates))), ',')
  }

  method Ranges(dates: seq<nat>) returns (output: seq<Range>)
    requires dates != []
    ensures output == RangesOf(dates)
  {
    output := [];
    var first, second := dates[0], dates[0];
    for n := 1 to |dates|
      invariant Scan(output, first, second) == ScanDates(dates, n)
    {
      var next := dates[n];
      if next == second + 1 {
        second := next;
      } else {
        output := output + [Range(first, second)];
        first := next;
        second := next;
      }
    }
    output := output + [Range(first, second)];
  }

  lemma ElementsGrow(s: seq<nat>, n: nat)
    requires n < |s|
    ensures Elements(s[..n + 1]) == Elements(s[..n]) + {s[n]}
  {
    assert s[..n + 1] == s[..n] + [s[n]];
    assert s[..n + 1][n] == s[n];
    forall y | y in Elements(s[..n]) ensures y in Elements(s[..n + 1]) {
      var i :| 0 <= i < n && s[..n][i] == y;
      assert s[..n + 1][i] == y;
    }
  }

  lemma SpanGrows(first: nat, last: nat)
    requires first <= last
    ensures Span(Range(first, last + 1)) == Span(Range(first, last)) + {last + 1}
  {}

  lemma SpanOfOne(y: nat)
    ensures Span(Range(y, y)) == {y}
  {}

  lemma YearsGrow(rs: seq<Range>, r: Range)
    ensures Years(rs + [r]) == Years(rs) + Span(r)
  {
    assert (rs + [r])[..|rs|] == rs;
  }

  // --------------------------------------------------------------------------- reading

  predicate FourDigits(s: string) {
    |s| >= 4 && AllDigits(s[..4])
  }

  /** Four digits, a dash between optional spaces, four digits; whatever follows is ignored. */
  function MatchRange(s: string): Option<Range> {
    if !FourDigits(s) then None else MatchDash(Number(s[..4]), TrimLeft(s[4..]))
  }

  function MatchDash(first: nat, s: string): Option<Range> {
    if s == [] || s[0] != '-' then None else MatchLast(first, TrimLeft(s[1..]))
  }

  function MatchLast(first: nat, s: string): Option<Range> {
    if !FourDigits(s) then None else Some(Range(first, Number(s[..4])))
  }

  function YearsOf(token: string): set<nat> {
    var r := MatchRange(token);
    if r.Some? then Span(r.value)
    else
      var n := ParseNat(token);
      if n.Some? then {n.value} else {}
  }

  function AllYears(fields: seq<string>): set<nat> {
    if fields == [] then {}
    else AllYears(fields[..|fields| - 1]) + YearsOf(Strip(fields[|fields| - 1]))
  }

  /** Years found in a list of dates; fields that are no number are skipped. */
  method ProcessDates(dates: string) returns (output: set<nat>)
    ensures output == AllYears(Split(dates, ','))
  {
    var fields := Split(dates, ',');
    output := {};
    for n := 0 to |fields|
      invariant output == AllYears(fields[..n])
    {
      assert fields[..n + 1][..n] == fields[..n];
      output := output + YearsOf(Strip(fields[n]));
    }
    assert fields[..|fields|] == fields;
  }

  // ------------------------------------------------------------------------ round trip

  lemma OneMoreDigit(n: nat)
    ensures |Decimal(n)| == if n < 10 then 1 else |Decimal(n / 10)| + 1
  {}

  lemma YearsHaveFourDigits(y: nat)
    ensures |Decimal(y)| < 4 <==> y < 1000
    ensures |Decimal(y)| == 4 <==> IsYear(y)
  {
    OneMoreDigit(y);
    OneMoreDigit(y / 10);
    OneMoreDigit(y / 100);
    OneMoreDigit(y / 1000);
    DecimalIsDigits(y / 10000);
    assert y / 10 / 10 == y / 100 && y / 100 / 10 == y / 1000 && y / 1000 / 10 == y / 10000;
  }

  lemma FourDigitsAreSmall(s: string)
    requires |s| == 4 && AllDigits(s)
    ensures Number(s) <= 9999
  {
    assert Number(s[..0]) == 0;
    assert s[..4] == s && s[..4][..3] == s[..3] && s[..3][..2] == s[..2] && s[..2][..1] == s[..1] && s[..1][..0] == s[..0];
    assert Number(s[..1]) <= 9;
    assert Number(s[..2]) <= 99;
    assert Number(s[..3]) <= 999;
  }

  /** A rendered range is one field, and there are no spaces to strip. */
  lemma RenderIsPlain(r: Range)
    ensures ',' !in Render(r) && Strip(Render(r)) == Render(r)
  {
    DecimalIsDigits(r.first);
    DecimalIsDigits(r.last);
    DigitsArePlain(Decimal(r.first));
    DigitsArePlain(Decimal(r.last));
    NothingToStrip(Render(r));
  }

  /** A single year of any length, or a range whose ends both have four digits. */
  predicate Readable(r: Range) {
    r.first == r.last || (IsYear(r.first) && IsYear(r.last))
  }

  lemma SingleIsRead(y: nat)
    ensures YearsOf(Decimal(y)) == {y}
  {
    DecimalIsDigits(y);
    var s := Decimal(y);
    if |s| > 4 {
      DigitsArePlain(s);
      NothingToStrip(s[4..]);
    }
    assert MatchRange(s) == None;
  }

  lemma DashTooEarly(a: string, b: string)
    requires AllDigits(a) && |a| < 4
    ensures MatchRange(a + "-" + b) == None
  {
    assert (a + "-" + b)[|a|] == '-';
  }

  lemma DashTooLate(a: string, b: string)
    requires AllDigits(a) && |a| > 4
    ensures MatchRange(a + "-" + b) == None
  {
    var s := a + "-" + b;
    assert s[4..][0] == a[4];
    assert TrimLeft(s[4..]) == s[4..];
  }

  lemma LastInPlace(n: nat, b: string, tail: string)
    requires AllDigits(b) && |b| == 4
    ensures MatchLast(n, b + tail) == Some(Range(n, Number(b)))
  {
    assert (b + tail)[..4] == b;
  }

  lemma AfterDash(n: nat, right: string, u: string)
    requires Blank(right) && u != [] && IsDigit(u[0])
    ensures MatchDash(n, "-" + right + u) == MatchLast(n, u)
  {
    assert ("-" + right + u)[1..] == right + u;
    TrimLeftOf(right, u);
  }

  lemma BeforeDash(a: string, left: string, t: string)
    requires AllDigits(a) && |a| == 4 && Blank(left) && t != [] && t[0] == '-'
    ensures MatchRange(a + left + t) == MatchDash(Number(a), t)
  {
    var s := a + left + t;
    assert s[..4] == a && s[4..] == left + t;
    TrimLeftOf(left, t);
  }

  /** Blanks around the dash and anything behind the second number do not matter. */
  lemma DashInPlace(a: string, left: string, right: string, b: string, tail: string)
    requires AllDigits(a) && |a| == 4 && Blank(left) && Blank(right) && AllDigits(b) && |b| == 4
    ensures MatchRange(a + left + "-" + right + b + tail) == Some(Range(Number(a), Number(b)))
  {
    assert a + left + "-" + right + b + tail == a + left + ("-" + right + (b + tail));
    BeforeDash(a, left, "-" + right + (b + tail));
    AfterDash(Number(a), right, b + tail);
    LastInPlace(Number(a), b, tail);
  }

  lemma DashOnly(a: string, b: string)
    requires AllDigits(a) && |a| == 4 && AllDigits(b) && |b| >= 4
    ensures MatchRange(a + "-" + b) == Some(Range(Number(a), Number(b[..4])))
  {
    assert b[..4] + b[4..] == b && "-" + "" + b == "-" + b;
    BeforeDash(a, "", "-" + b);
    assert a + "" + ("-" + b) == a + "-" + b;
    AfterDash(Number(a), "", b);
    LastInPlace(Number(a), b[..4], b[4..]);
  }

  /** The reader takes four digits before the dash and the first four behind it. */
  lemma RangeIsMatched(r: Range)
    requires r.first < r.last
    ensures !IsYear(r.first) ==> MatchRange(Render(r)) == None
    ensures IsYear(r.first) ==>
              && |Decimal(r.last)| >= 4 && AllDigits(Decimal(r.last)[..4])
              && MatchRange(Render(r)) == Some(Range(r.first, Number(Decimal(r.last)[..4])))
  {
    var a, b := Decimal(r.first), Decimal(r.last);
    DecimalIsDigits(r.first);
    DecimalIsDigits(r.last);
    YearsHaveFourDigits(r.first);
    YearsHaveFourDigits(r.last);
    if |a| < 4 {
      DashTooEarly(a, b);
    } else if |a| == 4 {
      DashOnly(a, b);
    } else {
      DashTooLate(a, b);
    }
  }

  /** The first four digits of a number that has as many. */
  function Cut(n: nat): (m: nat)
    requires n >= 1000
    ensures m <= 9999 && (IsYear(n) ==> m == n)
  {
    DecimalIsDigits(n);
    YearsHaveFourDigits(n);
    FourDigitsAreSmall(Decimal(n)[..4]);
    assert IsYear(n) ==> Decimal(n)[..4] == Decimal(n);
    Number(Decimal(n)[..4])
  }

  /** The years read back from a rendered range. */
  function Kept(r: Range): set<nat> {
    if r.first == r.last then {r.first}
    else if IsYear(r.first) && r.first < r.last then Span(Range(r.first, Cut(r.last)))
    else {}
  }

  lemma RangeIsRead(r: Range)
    requires r.first <= r.last
    ensures YearsOf(Render(r)) == Kept(r)
  {
    if r.first == r.last {
      SingleIsRead(r.first);
    } else {
      RangeIsMatched(r);
      assert Render(r)[|Decimal(r.first)|] == '-';
    }
  }

  /** A range is read back whole or without its last year, and never as more. */
  lemma RangeRoundTrip(r: Range)
    requires r.first <= r.last
    ensures Kept(r) <= Span(r)
    ensures Readable(r) ==> Kept(r) == Span(r)
    ensures !Readable(r) ==> r.last !in Kept(r)
  {}

  function AllKept(rs: seq<Range>): set<nat> {
    if rs == [] then {} else AllKept(rs[..|rs| - 1]) + Kept(rs[|rs| - 1])
  }

  lemma {:induction false} AllYearsOfRanges(rs: seq<Range>)
    requires forall i :: 0 <= i < |rs| ==> rs[i].first <= rs[i].last
    ensures AllYears(RenderAll(rs)) == AllKept(rs)
  {
    if rs != [] {
      AllYearsOfRanges(rs[..|rs| - 1]);
      assert RenderAll(rs)[..|rs| - 1] == RenderAll(rs[..|rs| - 1]);
      RenderIsPlain(rs[|rs| - 1]);
      RangeIsRead(rs[|rs| - 1]);
    }
  }

  lemma {:induction false} KeptWithin(rs: seq<Range>)
    requires forall i :: 0 <= i < |rs| ==> rs[i].first <= rs[i].last
    ensures AllKept(rs) <= Years(rs)
    ensures (forall i :: 0 <= i < |rs| ==> Readable(rs[i])) ==> AllKept(rs) == Years(rs)
  {
    if rs != [] {
      KeptWithin(rs[..|rs| - 1]);
      RangeRoundTrip(rs[|rs| - 1]);
    }
  }

  lemma {:induction false} YearsAre(rs: seq<Range>, y: nat)
    ensures y in Years(rs) <==> exists i :: 0 <= i < |rs| && y in Span(rs[i])
  {
    if rs != [] {
      YearsAre(rs[..|rs| - 1], y);
    }
  }

  lemma {:induction false} AfterAll(rs: seq<Range>, y: nat)
    requires forall i :: 0 <= i < |rs| ==> rs[i].last < y
    ensures y !in Years(rs)
  {
    if rs != [] {
      AfterAll(rs[..|rs| - 1], y);
    }
  }

  lemma YearOfRange(rs: seq<Range>, i: nat, y: nat)
    requires i < |rs| && rs[i].first <= y <= rs[i].last
    ensures y in Years(rs)
  {
    YearsAre(rs, y);
  }

  /** The last year of a range that cannot be read is not read from any other range either. */
  lemma {:induction false} LastYearIsLost(rs: seq<Range>, i: nat)
    requires Maximal(rs) && i < |rs| && !Readable(rs[i])
    ensures rs[i].last !in AllKept(rs)
  {
    var init, last := rs[..|rs| - 1], rs[|rs| - 1];
    RangeRoundTrip(last);
    if i < |init| {
      LastYearIsLost(init, i);
    } else {
      KeptWithin(init);
      AfterAll(init, last.last);
    }
  }

  lemma RenderedRoundTrip(rs: seq<Range>)
    requires rs != [] && Maximal(rs)
    ensures AllYears(Split(Join(RenderAll(rs), ','), ',')) == Years(rs) <==>
            forall i :: 0 <= i < |rs| ==> Readable(rs[i])
  {
    forall i | 0 <= i < |rs| ensures ',' !in RenderAll(rs)[i] {
      RenderIsPlain(rs[i]);
    }
    SplitJoin(RenderAll(rs), ',');
    AllYearsOfRanges(rs);
    KeptWithin(rs);
    forall i | 0 <= i < |rs| && !Readable(rs[i]) ensures AllKept(rs) != Years(rs) {
      LastYearIsLost(rs, i);
      YearOfRange(rs, i, rs[i].last);
    }
  }

  /** Whenever two years in a row are listed, both have four digits. */
  predicate RunsHaveFourDigits(years: set<nat>) {
    forall y :: y in years && y + 1 in years ==> IsYear(y) && IsYear(y + 1)
  }

  lemma ReadableRuns(rs: seq<Range>, y: nat)
    requires Maximal(rs) && (forall i :: 0 <= i < |rs| ==> Readable(rs[i]))
    requires y in Years(rs) && y + 1 in Years(rs)
    ensures IsYear(y) && IsYear(y + 1)
  {
    YearsAre(rs, y);
    YearsAre(rs, y + 1);
    var i :| 0 <= i < |rs| && y in Span(rs[i]);
    var j :| 0 <= j < |rs| && y + 1 in Span(rs[j]);
    assert i == j;
  }

  lemma RunsAreReadable(rs: seq<Range>, i: nat)
    requires Maximal(rs) && i < |rs| && RunsHaveFourDigits(Years(rs))
    ensures Readable(rs[i])
  {
    var r := rs[i];
    if r.first < r.last {
      YearOfRange(rs, i, r.first);
      YearOfRange(rs, i, r.first + 1);
      YearOfRange(rs, i, r.last - 1);
      YearOfRange(rs, i, r.last);
    }
  }

  lemma ReadableIffRuns(rs: seq<Range>)
    requires Maximal(rs)
    ensures (forall i :: 0 <= i < |rs| ==> Readable(rs[i])) <==> RunsHaveFourDigits(Years(rs))
  {
    if forall i :: 0 <= i < |rs| ==> Readable(rs[i]) {
      forall y | y in Years(rs) && y + 1 in Years(rs) ensures IsYear(y) && IsYear(y + 1) {
        ReadableRuns(rs, y);
      }
    }
    if RunsHaveFourDigits(Years(rs)) {
      forall i | 0 <= i < |rs| ensures Readable(rs[i]) {
        RunsAreReadable(rs, i);
      }
    }
  }

  /**
   Printing a set of years and reading the text back gives the same set exactly
   when neighbouring years all have four digits; single years can have any length.
   */
  lemma YearsRoundTrip(years: set<nat>)
    requires years != {}
    ensures AllYears(Split(DateText(years), ',')) == years <==> RunsHaveFourDigits(years)
  {
    var rs := RangesOf(Listed(years));
    RangesCover(Listed(years));
    RenderedRoundTrip(rs);
    ReadableIffRuns(rs);
  }

  // ------------------------------------------------------------------ blanks in the text

  /** A field of a list of dates as somebody may have written it. */
  datatype Field =
    | OneYear(pre: string, year: nat, post: string)
    | FromTo(pre: string, first: nat, left: string, right: string, last: nat, tail: string)
    | NoYear(text: string)

  function Written(f: Field): string {
    match f
    case OneYear(pre, year, post) => pre + Decimal(year) + post
    case FromTo(pre, first, left, right, last, tail) =>
      pre + Decimal(first) + left + "-" + right + Decimal(last) + tail
    case NoYear(text) => text
  }

  ghost function Meant(f: Field): set<nat> {
    match f
    case OneYear(_, year, _) => {year}
    case FromTo(_, first, _, _, last, _) => Span(Range(first, last))
    case NoYear(_) => {}
  }

  /** Nothing but blanks around the numbers; anything may follow a range, and a field without digits is no year. */
  ghost predicate WellWritten(f: Field) {
    match f
    case OneYear(pre, _, post) => Blank(pre) && Blank(post)
    case FromTo(pre, first, left, right, last, tail) =>
      Blank(pre) && Blank(left) && Blank(right) && IsYear(first) && IsYear(last) && ',' !in tail
    case NoYear(text) => ',' !in text && forall i :: 0 <= i < |text| ==> !IsDigit(text[i])
  }

  ghost function AllMeant(fs: seq<Field>): set<nat> {
    if fs == [] then {} else AllMeant(fs[..|fs| - 1]) + Meant(fs[|fs| - 1])
  }

  function AllWritten(fs: seq<Field>): seq<string> {
    seq(|fs|, i requires 0 <= i < |fs| => Written(fs[i]))
  }

  lemma {:induction false} TrimRightCuts(s: string, tail: string) returns (k: nat)
    requires s != [] && !IsSpace(s[|s| - 1])
    ensures k <= |tail| && TrimRight(s + tail) == s + tail[..k]
  {
    k := |tail|;
    if tail == [] {
      assert s + tail == s;
    } else if IsSpace(tail[|tail| - 1]) {
      var init := tail[..|tail| - 1];
      k := TrimRightCuts(s, init);
      assert (s + tail)[|s + tail| - 1] == tail[|tail| - 1] && (s + tail)[..|s + tail| - 1] == s + init;
      assert init[..k] == tail[..k];
    } else {
      assert (s + tail)[|s + tail| - 1] == tail[|tail| - 1] && tail[..k] == tail;
    }
  }

  lemma OneYearIsRead(pre: string, year: nat, post: string)
    requires Blank(pre) && Blank(post)
    ensures YearsOf(Strip(pre + Decimal(year) + post)) == {year}
  {
    DecimalIsDigits(year);
    DigitsArePlain(Decimal(year));
    StripOf(pre, Decimal(year), post);
    SingleIsRead(year);
  }

  lemma FromToIsRead(pre: string, first: nat, left: string, right: string, last: nat, tail: string)
    requires Blank(pre) && Blank(left) && Blank(right) && IsYear(first) && IsYear(last)
    ensures YearsOf(Strip(pre + Decimal(first) + left + "-" + right + Decimal(last) + tail)) == Span(Range(first, last))
  {
    var (a, b) := (Decimal(first), Decimal(last));
    DecimalIsDigits(first);
    DecimalIsDigits(last);
    YearsHaveFourDigits(first);
    YearsHaveFourDigits(last);
    DigitsArePlain(a);
    DigitsArePlain(b);
    var s := a + left + "-" + right + b;
    assert s[0] == a[0] && s[|s| - 1] == b[|b| - 1];
    assert pre + a + left + "-" + right + b + tail == pre + (s + tail);
    TrimLeftOf(pre, s + tail);
    var k := TrimRightCuts(s, tail);
    DashInPlace(a, left, right, b, tail[..k]);
  }

  lemma {:induction false} TrimmedHas(s: string, c: char)
    requires c in Strip(s)
    ensures c in s
  {
    TrimRightHas(TrimLeft(s), c);
    TrimLeftHas(s, c);
  }

  lemma {:induction false} TrimLeftHas(s: string, c: char)
    requires c in TrimLeft(s)
    ensures c in s
  {
    if s != [] && IsSpace(s[0]) {
      TrimLeftHas(s[1..], c);
    }
  }

  lemma {:induction false} TrimRightHas(s: string, c: char)
    requires c in TrimRight(s)
    ensures c in s
  {
    if s != [] && IsSpace(s[|s| - 1]) {
      TrimRightHas(s[..|s| - 1], c);
    }
  }

  lemma NoYearIsRead(text: string)
    requires forall i :: 0 <= i < |text| ==> !IsDigit(text[i])
    ensures YearsOf(Strip(text)) == {}
  {
    var s := Strip(text);
    if s != [] {
      TrimmedHas(text, s[0]);
      assert |s| >= 4 ==> s[..4][0] == s[0];
    }
  }

  lemma FieldIsRead(f: Field)
    requires WellWritten(f)
    ensures YearsOf(Strip(Written(f))) == Meant(f)
  {
    match f
    case OneYear(pre, year, post) => OneYearIsRead(pre, year, post);
    case FromTo(pre, first, left, right, last, tail) => FromToIsRead(pre, first, left, right, last, tail);
    case NoYear(text) => NoYearIsRead(text);
  }

  lemma WrittenIsOneField(f: Field)
    requires WellWritten(f)
    ensures ',' !in Written(f)
  {
    match f
    case OneYear(pre, year, post) => NoComma(year);
    case FromTo(_, first, _, _, last, _) =>
      NoComma(first);
      NoComma(last);
    case NoYear(_) =>
  }

  lemma NoComma(n: nat)
    ensures ',' !in Decimal(n)
  {
    DecimalIsDigits(n);
    DigitsArePlain(Decimal(n));
  }

  lemma {:induction false} FieldsAreRead(fs: seq<Field>)
    requires forall i :: 0 <= i < |fs| ==> WellWritten(fs[i])
    ensures AllYears(AllWritten(fs)) == AllMeant(fs)
  {
    if fs != [] {
      var init, last := fs[..|fs| - 1], fs[|fs| - 1];
      FieldsAreRead(init);
      FieldIsRead(last);
      assert AllWritten(fs)[..|fs| - 1] == AllWritten(init);
    }
  }

  /** Blanks do not matter: a list of dates is read as the union of the years its fields stand for. */
  lemma BlanksDoNotMatter(fs: seq<Field>)
    requires fs != [] && forall i :: 0 <= i < |fs| ==> WellWritten(fs[i])
    ensures AllYears(Split(Join(AllWritten(fs), ','), ',')) == AllMeant(fs)
  {
    forall i | 0 <= i < |fs| ensures ',' !in AllWritten(fs)[i] {
      WrittenIsOneField(fs[i]);
    }
    SplitJoin(AllWritten(fs), ',');
    FieldsAreRead(fs);
  }
}
