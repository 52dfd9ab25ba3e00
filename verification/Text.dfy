/** Decimal numbers and character-separated fields. */
module Text {
  import opened Common

  predicate IsDigit(c: char) {
    '0' <= c <= '9'
  }

  function Digit(n: nat): char
    requires n < 10
  {
    "0123456789"[n]
  }

  function Value(c: char): (n: nat)
    requires IsDigit(c)
    ensures n < 10
  {
    c as int - '0' as int
  }

  /** The decimal representation without leading zeros. */
  function Decimal(n: nat): string {
    if n < 10 then [Digit(n)] else Decimal(n / 10) + [Digit(n % 10)]
  }

  predicate AllDigits(s: string) {
    forall i :: 0 <= i < |s| ==> IsDigit(s[i])
  }

  function Number(s: string): nat
    requires AllDigits(s)
  {
    if s == [] then 0 else 10 * Number(s[..|s| - 1]) + Value(s[|s| - 1])
  }

  /** Reading an unsigned number; anything else is a value error. */
  function ParseNat(s: string): Option<nat> {
    if s != [] && AllDigits(s) then Some(Number(s)) else None
  }

  lemma {:induction false} DecimalIsDigits(n: nat)
    ensures Decimal(n) != [] && AllDigits(Decimal(n)) && Number(Decimal(n)) == n
  {
    if n < 10 {
      assert Number([Digit(n)][..0]) == 0;
    } else {
      DecimalIsDigits(n / 10);
      var s := Decimal(n);
      assert s[..|s| - 1] == Decimal(n / 10);
    }
  }

  lemma DecimalRoundTrip(n: nat)
    ensures ParseNat(Decimal(n)) == Some(n)
  {
    DecimalIsDigits(n);
  }

  // ---------------------------------------------------------------------------- blanks

  /** Tab, line feed, vertical tab, form feed and carriage return lie next to each other. */
  predicate IsSpace(c: char) {
    c == ' ' || 9 <= c as int <= 13
  }

  function TrimLeft(s: string): string {
    if s != [] && IsSpace(s[0]) then TrimLeft(s[1..]) else s
  }

  function TrimRight(s: string): string {
    if s != [] && IsSpace(s[|s| - 1]) then TrimRight(s[..|s| - 1]) else s
  }

  function Strip(s: string): string {
    TrimRight(TrimLeft(s))
  }

  predicate Blank(s: string) {
    forall i :: 0 <= i < |s| ==> s[i] in " \t\n\r\U{0B}\U{0C}"
  }

  lemma {:induction false} TrimLeftOf(pre: string, s: string)
    requires Blank(pre) && (s == [] || !IsSpace(s[0]))
    ensures TrimLeft(pre + s) == s
  {
    if pre == [] {
      assert pre + s == s;
    } else {
      TrimLeftOf(pre[1..], s);
      assert (pre + s)[0] == pre[0] && (pre + s)[1..] == pre[1..] + s;
    }
  }

  lemma {:induction false} TrimRightOf(s: string, post: string)
    requires Blank(post) && (s == [] || !IsSpace(s[|s| - 1]))
    ensures TrimRight(s + post) == s
  {
    if post == [] {
      assert s + post == s;
    } else {
      var init := post[..|post| - 1];
      TrimRightOf(s, init);
      assert (s + post)[|s + post| - 1] == post[|post| - 1] && (s + post)[..|s + post| - 1] == s + init;
    }
  }

  /** Blanks around something that neither begins nor ends with one are taken off, and nothing else. */
  lemma StripOf(pre: string, s: string, post: string)
    requires Blank(pre) && Blank(post) && s != [] && !IsSpace(s[0]) && !IsSpace(s[|s| - 1])
    ensures Strip(pre + s + post) == s
  {
    assert pre + s + post == pre + (s + post);
    TrimLeftOf(pre, s + post);
    TrimRightOf(s, post);
  }

  lemma NothingToStrip(s: string)
    requires s == [] || (!IsSpace(s[0]) && !IsSpace(s[|s| - 1]))
    ensures TrimLeft(s) == s && TrimRight(s) == s && Strip(s) == s
  {}

  /** Whatever begins and ends with something that is no blank is left alone. */
  lemma OnlyBlanksAreStripped(s: string)
    requires s != [] && !Blank(s[..1]) && !Blank(s[|s| - 1..])
    ensures Strip(s) == s
  {
    NothingToStrip(s);
  }

  lemma DigitsArePlain(s: string)
    requires AllDigits(s)
    ensures ',' !in s && forall i :: 0 <= i < |s| ==> !IsSpace(s[i])
  {}

  // ---------------------------------------------------------------------------- fields

  /** Splitting at every separator; the empty string is one empty field. */
  function Split(s: string, sep: char): (fields: seq<string>)
    ensures fields != []
  {
    if s == [] then [""]
    else
      var rest := Split(s[1..], sep);
      if s[0] == sep then [""] + rest else [[s[0]] + rest[0]] + rest[1..]
  }

  lemma {:induction false} SplitOne(s: string, sep: char)
    requires sep !in s
    ensures Split(s, sep) == [s]
  {
    if s != [] {
      SplitOne(s[1..], sep);
      assert [s[0]] + s[1..] == s;
    }
  }

  lemma {:induction false} SplitFirst(a: string, sep: char, b: string)
    requires sep !in a
    ensures Split(a + [sep] + b, sep) == [a] + Split(b, sep)
  {
    var s := a + [sep] + b;
    if a == [] {
      assert s[1..] == b;
    } else {
      SplitFirst(a[1..], sep, b);
      assert s[1..] == a[1..] + [sep] + b;
      assert [a[0]] + a[1..] == a;
    }
  }

  /** Fields joined by a separator. */
  function Join(fields: seq<string>, sep: char): string
    requires fields != []
  {
    if |fields| == 1 then fields[0] else fields[0] + [sep] + Join(fields[1..], sep)
  }

  lemma {:induction false} SplitJoin(fields: seq<string>, sep: char)
    requires fields != [] && forall i :: 0 <= i < |fields| ==> sep !in fields[i]
    ensures Split(Join(fields, sep), sep) == fields
  {
    if |fields| == 1 {
      SplitOne(fields[0], sep);
    } else {
      SplitJoin(fields[1..], sep);
      SplitFirst(fields[0], sep, Join(fields[1..], sep));
    }
  }

  lemma {:induction false} JoinAvoids(fields: seq<string>, sep: char, c: char)
    requires fields != [] && c != sep && forall i :: 0 <= i < |fields| ==> c !in fields[i]
    ensures c !in Join(fields, sep)
  {
    if |fields| > 1 {
      JoinAvoids(fields[1..], sep, c);
    }
  }
}
