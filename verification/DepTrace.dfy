/** The text form of instruction dependency records: the printer and the parser. */
module DepTrace {
  import opened Common
  import opened Text

  datatype Kind = INVALID | LOAD | STORE | COMP

  datatype DepRecord = DepRecord(
    seqNum: nat,
    pc: Option<nat>,
    weight: Option<nat>,
    kind: Kind,
    pAddr: Option<nat>,
    size: Option<nat>,
    flags: Option<nat>,
    compDelay: nat,
    robDep: seq<nat>,
    regDep: seq<nat>)

  function Name(k: Kind): string {
    match k
    case INVALID => "INVALID"
    case LOAD => "LOAD"
    case STORE => "STORE"
    case COMP => "COMP"
  }

  function KindOf(s: string): Option<Kind> {
    if s == "INVALID" then Some(INVALID)
    else if s == "LOAD" then Some(LOAD)
    else if s == "STORE" then Some(STORE)
    else if s == "COMP" then Some(COMP)
    else None
  }

  // -------------------------------------------------------------------------- printing

  function Optional(x: Option<nat>): seq<string> {
    if x.Some? then [Decimal(x.value)] else []
  }

  function OrElse(x: Option<nat>, d: nat): nat {
    if x.Some? then x.value else d
  }

  /** The comma-separated fields in front of the first colon. */
  function InfoFields(r: DepRecord): (fields: seq<string>)
    ensures |fields| >= 5
  {
    [Decimal(r.seqNum), Decimal(OrElse(r.pc, 0)), Decimal(OrElse(r.weight, 1)), Name(r.kind)]
      + Optional(r.pAddr) + Optional(r.size) + Optional(r.flags) + [Decimal(r.compDelay)]
  }

  /** Each dependency with a comma in front. */
  function DepList(deps: seq<nat>): string {
    if deps == [] then "" else DepList(deps[..|deps| - 1]) + "," + Decimal(deps[|deps| - 1])
  }

  function Line(r: DepRecord): string {
    Join(InfoFields(r), ',') + ":" + DepList(r.robDep) + ":" + DepList(r.regDep) + "\n"
  }

  method AppendDeps(out: string, deps: seq<nat>) returns (after: string)
    ensures after == out + DepList(deps)
  {
    after := out;
    for n := 0 to |deps|
      invariant after == out + DepList(deps[..n])
    {
      assert deps[..n + 1][..n] == deps[..n];
      after := after + "," + Decimal(deps[n]);
    }
    assert deps[..|deps|] == deps;
  }

  method PrintInfo(r: DepRecord) returns (out: string)
    ensures out == Join(InfoFields(r), ',')
  {
    ghost var fields := [Decimal(r.seqNum)];
    out := Decimal(r.seqNum);
    out, fields := AppendField(out, fields, Decimal(if r.pc.Some? then r.pc.value else 0));
    out, fields := AppendField(out, fields, Decimal(if r.weight.Some? then r.weight.value else 1));
    out, fields := AppendField(out, fields, Name(r.kind));
    assert fields == [Decimal(r.seqNum), Decimal(OrElse(r.pc, 0)), Decimal(OrElse(r.weight, 1)), Name(r.kind)];
    out, fields := AppendOptional(out, fields, r.pAddr);
    out, fields := AppendOptional(out, fields, r.size);
    out, fields := AppendOptional(out, fields, r.flags);
    out, fields := AppendField(out, fields, Decimal(r.compDelay));
    assert fields == InfoFields(r);
  }

  method PrintRecord(r: DepRecord) returns (out: string)
    ensures out == Line(r)
  {
    out := PrintInfo(r);
    out := out + ":";
    out := AppendDeps(out, r.robDep);
    out := out + ":";
    out := AppendDeps(out, r.regDep);
    out := out + "\n";
  }

  method AppendField(out: string, ghost fields: seq<string>, x: string) returns (after: string, ghost fields': seq<string>)
    requires fields != [] && out == Join(fields, ',')
    ensures fields' == fields + [x] && after == Join(fields', ',')
  {
    JoinSnoc(fields, x, ',');
    after, fields' := out + "," + x, fields + [x];
  }

  method AppendOptional(out: string, ghost fields: seq<string>, x: Option<nat>) returns (after: string, ghost fields': seq<string>)
    requires fields != [] && out == Join(fields, ',')
    ensures fields' == fields + Optional(x) && after == Join(fields', ',')
  {
    after, fields' := out, fields;
    if x.Some? {
      after, fields' := AppendField(out, fields, Decimal(x.value));
    }
  }

  lemma {:induction false} JoinSnoc(fields: seq<string>, x: string, sep: char)
    requires fields != []
    ensures Join(fields + [x], sep) == Join(fields, sep) + [sep] + x
  {
    assert (fields + [x])[1..] == fields[1..] + [x];
    if |fields| > 1 {
      JoinSnoc(fields[1..], x, sep);
    } else {
      assert (fields + [x])[1..] == [x];
    }
  }

  // --------------------------------------------------------------------------- parsing

  /** The non-empty fields as numbers. */
  function ParseDeps(fields: seq<string>): Option<seq<nat>> {
    if fields == [] then Some([])
    else
      var init := ParseDeps(fields[..|fields| - 1]);
      var last := fields[|fields| - 1];
      if init.None? || last == "" then init
      else
        var d := ParseNat(last);
        if d.None? then None else Some(init.value + [d.value])
  }

  function ParseInfo(f: seq<string>): Option<DepRecord> {
    if |f| < 5 then None
    else
      var (s, p, w, k) := (ParseNat(f[0]), ParseNat(f[1]), ParseNat(f[2]), KindOf(f[3]));
      if s.None? || p.None? || w.None? || k.None? || k == Some(INVALID) then None
      else if k.value in {LOAD, STORE} then
        if |f| < 8 then None
        else
          var (a, z, g, d) := (ParseNat(f[4]), ParseNat(f[5]), ParseNat(f[6]), ParseNat(f[7]));
          if a.None? || z.None? || g.None? || d.None? then None
          else Some(DepRecord(s.value, p, w, k.value, a, z, g, d.value, [], []))
      else
        var d := ParseNat(f[4]);
        if d.None? then None else Some(DepRecord(s.value, p, w, k.value, None, None, None, d.value, [], []))
  }

  /** A line as the converter reads it; None where the script stops with an error. */
  function ParseLine(line: string): Option<DepRecord> {
    var parts := Split(Strip(line), ':');
    if |parts| != 3 then None
    else
      var info := ParseInfo(Split(parts[0], ','));
      var rob := ParseDeps(Split(Strip(parts[1]), ','));
      var reg := ParseDeps(Split(parts[2], ','));
      if info.None? || rob.None? || reg.None? then None
      else Some(info.value.(robDep := rob.value, regDep := reg.value))
  }

  method ReadDeps(fields: seq<string>) returns (r: Option<seq<nat>>)
    ensures r == ParseDeps(fields)
  {
    r := Some([]);
    for n := 0 to |fields|
      invariant r == ParseDeps(fields[..n])
    {
      assert fields[..n + 1][..n] == fields[..n];
      if r.Some? && fields[n] != "" {
        var d := ParseNat(fields[n]);
        r := if d.None? then None else Some(r.value + [d.value]);
      }
    }
    assert fields[..|fields|] == fields;
  }

  // ------------------------------------------------------------------------ round trip

  /** Printed fields contain no separator and no space. */
  predicate Plain(s: string) {
    s != [] && forall i :: 0 <= i < |s| ==> s[i] != ',' && s[i] != ':' && !IsSpace(s[i])
  }

  lemma NumberIsPlain(n: nat)
    ensures Plain(Decimal(n))
  {
    DecimalIsDigits(n);
  }

  lemma FieldsArePlain(r: DepRecord)
    ensures forall i :: 0 <= i < |InfoFields(r)| ==> Plain(InfoFields(r)[i])
  {
    NumberIsPlain(r.seqNum);
    NumberIsPlain(OrElse(r.pc, 0));
    NumberIsPlain(OrElse(r.weight, 1));
    NumberIsPlain(OrElse(r.pAddr, 0));
    NumberIsPlain(OrElse(r.size, 0));
    NumberIsPlain(OrElse(r.flags, 0));
    NumberIsPlain(r.compDelay);
    assert Plain(Name(r.kind));
  }

  function DepFields(deps: seq<nat>): seq<string> {
    [""] + seq(|deps|, i requires 0 <= i < |deps| => Decimal(deps[i]))
  }

  lemma {:induction false} DepListIsJoin(deps: seq<nat>)
    ensures DepList(deps) == Join(DepFields(deps), ',')
    ensures forall i :: 0 <= i < |DepList(deps)| ==> DepList(deps)[i] != ':' && !IsSpace(DepList(deps)[i])
  {
    if deps != [] {
      var init, last := deps[..|deps| - 1], deps[|deps| - 1];
      DepListIsJoin(init);
      DecimalIsDigits(last);
      assert DepFields(deps) == DepFields(init) + [Decimal(last)];
      JoinSnoc(DepFields(init), Decimal(last), ',');
    }
  }

  lemma {:induction false} ParseDepFields(deps: seq<nat>)
    ensures ParseDeps(DepFields(deps)) == Some(deps)
  {
    if deps == [] {
      assert ParseDeps([""][..0]) == Some([]);
    } else {
      var init, last := deps[..|deps| - 1], deps[|deps| - 1];
      ParseDepFields(init);
      DecimalIsDigits(last);
      assert DepFields(deps)[..|deps|] == DepFields(init);
      assert init + [last] == deps;
    }
  }

  lemma SplitDeps(deps: seq<nat>)
    ensures ParseDeps(Split(DepList(deps), ',')) == Some(deps)
  {
    DepListIsJoin(deps);
    forall i | 0 <= i < |DepFields(deps)| ensures ',' !in DepFields(deps)[i] {
      if i > 0 {
        DecimalIsDigits(deps[i - 1]);
      }
    }
    SplitJoin(DepFields(deps), ',');
    ParseDepFields(deps);
  }

  lemma StripLine(s: string)
    requires s != [] && !IsSpace(s[0]) && !IsSpace(s[|s| - 1])
    ensures Strip(s + "\n") == s && Strip(s) == s
  {
    assert (s + "\n")[..|s|] == s;
    assert TrimRight(s + "\n") == TrimRight(s);
  }

  lemma StripDeps(deps: seq<nat>)
    ensures Strip(DepList(deps)) == DepList(deps)
  {
    DepListIsJoin(deps);
    if DepList(deps) != [] {
      StripLine(DepList(deps));
    }
  }

  lemma LineParts(r: DepRecord)
    ensures Split(Strip(Line(r)), ':') == [Join(InfoFields(r), ','), DepList(r.robDep), DepList(r.regDep)]
  {
    var info, rob, reg := Join(InfoFields(r), ','), DepList(r.robDep), DepList(r.regDep);
    FieldsArePlain(r);
    JoinAvoids(InfoFields(r), ',', ':');
    JoinStarts(InfoFields(r), ',');
    DepListIsJoin(r.robDep);
    DepListIsJoin(r.regDep);
    ThreeParts(info, rob, reg);
  }

  lemma ThreeParts(a: string, b: string, c: string)
    requires a != [] && !IsSpace(a[0]) && ':' !in a && ':' !in b && ':' !in c
    requires c == [] || !IsSpace(c[|c| - 1])
    ensures Split(Strip(a + ":" + b + ":" + c + "\n"), ':') == [a, b, c]
  {
    StripLine(a + ":" + b + ":" + c);
    PartsOf(a, b, c);
  }

  lemma PartsOf(a: string, b: string, c: string)
    requires ':' !in a && ':' !in b && ':' !in c
    ensures Split(a + ":" + b + ":" + c, ':') == [a, b, c]
  {
    assert a + ":" + b + ":" + c == a + [':'] + (b + [':'] + c);
    SplitFirst(a, ':', b + [':'] + c);
    SplitFirst(b, ':', c);
    SplitOne(c, ':');
  }

  lemma JoinStarts(fields: seq<string>, sep: char)
    requires fields != [] && fields[0] != []
    ensures Join(fields, sep) != [] && Join(fields, sep)[0] == fields[0][0]
  {}

  /** A record the text form can carry: everything is set that the printer or the parser counts on. */
  predicate Printable(r: DepRecord) {
    && r.pc.Some? && r.weight.Some? && r.kind != INVALID
    && (if r.kind in {LOAD, STORE} then r.pAddr.Some? && r.size.Some? && r.flags.Some?
        else r.pAddr.None? && r.size.None? && r.flags.None?)
  }

  lemma InfoHead(r: DepRecord)
    ensures var f := InfoFields(r);
      && ParseNat(f[0]) == Some(r.seqNum) && ParseNat(f[1]) == Some(OrElse(r.pc, 0))
      && ParseNat(f[2]) == Some(OrElse(r.weight, 1)) && KindOf(f[3]) == Some(r.kind)
  {
    DecimalRoundTrip(r.seqNum);
    DecimalRoundTrip(OrElse(r.pc, 0));
    DecimalRoundTrip(OrElse(r.weight, 1));
  }

  lemma InfoTail(r: DepRecord)
    ensures var f := InfoFields(r);
      && (r.pAddr.None? && r.size.None? && r.flags.None? ==> ParseNat(f[4]) == Some(r.compDelay))
      && (|f| >= 8 <==> r.pAddr.Some? && r.size.Some? && r.flags.Some?)
      && (|f| >= 8 ==> ParseNat(f[4]) == r.pAddr && ParseNat(f[5]) == r.size
                       && ParseNat(f[6]) == r.flags && ParseNat(f[7]) == Some(r.compDelay))
  {
    DecimalRoundTrip(r.compDelay);
    if InfoFields(r)[4..] == [Decimal(r.compDelay)] {
    } else if r.pAddr.Some? && r.size.Some? && r.flags.Some? {
      DecimalRoundTrip(r.pAddr.value);
      DecimalRoundTrip(r.size.value);
      DecimalRoundTrip(r.flags.value);
    }
  }

  lemma ParseInfoFields(r: DepRecord)
    ensures ParseInfo(InfoFields(r)) == Some(r.(robDep := [], regDep := [])) <==> Printable(r)
  {
    InfoHead(r);
    InfoTail(r);
  }

  lemma InfoIsRead(r: DepRecord)
    ensures var info := ParseInfo(Split(Join(InfoFields(r), ','), ','));
      && (info == Some(r.(robDep := [], regDep := [])) <==> Printable(r))
      && (info.Some? ==> info.value.robDep == [] && info.value.regDep == [])
  {
    FieldsArePlain(r);
    SplitJoin(InfoFields(r), ',');
    ParseInfoFields(r);
  }

  lemma ReadFromParts(line: string, info: string, rob: string, reg: string, r: DepRecord)
    requires Split(Strip(line), ':') == [info, rob, reg]
    requires ParseInfo(Split(info, ',')) == Some(r.(robDep := [], regDep := [])) <==> Printable(r)
    requires var i := ParseInfo(Split(info, ',')); i.Some? ==> i.value.robDep == [] && i.value.regDep == []
    requires ParseDeps(Split(Strip(rob), ',')) == Some(r.robDep) && ParseDeps(Split(reg, ',')) == Some(r.regDep)
    ensures ParseLine(line) == Some(r) <==> Printable(r)
  {}

  /** Parsing a printed line gives the record back exactly when the record is printable. */
  lemma LineRoundTrip(r: DepRecord)
    ensures ParseLine(Line(r)) == Some(r) <==> Printable(r)
  {
    LineParts(r);
    InfoIsRead(r);
    StripDeps(r.robDep);
    SplitDeps(r.robDep);
    SplitDeps(r.regDep);
    ReadFromParts(Line(r), Join(InfoFields(r), ','), DepList(r.robDep), DepList(r.regDep), r);
  }

  /** Whatever is unset reads back as pc 0 and weight 1. */
  lemma DefaultsAreRead(r: DepRecord)
    requires Printable(r.(pc := Some(0), weight := Some(1)))
    ensures ParseLine(Line(r)) == Some(r.(pc := if r.pc.None? then Some(0) else r.pc,
                                          weight := if r.weight.None? then Some(1) else r.weight))
  {
    var full := r.(pc := if r.pc.None? then Some(0) else r.pc, weight := if r.weight.None? then Some(1) else r.weight);
    assert InfoFields(r) == InfoFields(full);
    LineRoundTrip(full);
  }

  /** Blanks around the line and around the order dependencies are not part of them. */
  lemma BlanksDoNotMatter(r: DepRecord, pre: string, left: string, right: string, post: string)
    requires Printable(r) && Blank(pre) && Blank(left) && Blank(right) && Blank(post)
    ensures ParseLine(pre + Join(InfoFields(r), ',') + ":" + left + DepList(r.robDep) + right + ":" + DepList(r.regDep) + post)
            == Some(r)
  {
    var info, rob, reg := Join(InfoFields(r), ','), DepList(r.robDep), DepList(r.regDep);
    FieldsArePlain(r);
    JoinAvoids(InfoFields(r), ',', ':');
    JoinStarts(InfoFields(r), ',');
    DepListIsJoin(r.robDep);
    DepListIsJoin(r.regDep);
    PartsInBlanks(pre, info, left, rob, right, reg, post);
    StripAround(left, rob, right);
    InfoIsRead(r);
    SplitDeps(r.robDep);
    SplitDeps(r.regDep);
    ReadFromParts(pre + info + ":" + left + rob + right + ":" + reg + post, info, left + rob + right, reg, r);
  }

  lemma PartsInBlanks(pre: string, a: string, left: string, b: string, right: string, c: string, post: string)
    requires Blank(pre) && Blank(left) && Blank(right) && Blank(post)
    requires a != [] && !IsSpace(a[0]) && ':' !in a && ':' !in b && ':' !in c
    requires c == [] || !IsSpace(c[|c| - 1])
    ensures Split(Strip(pre + a + ":" + left + b + right + ":" + c + post), ':') == [a, left + b + right, c]
  {
    var body := a + ":" + (left + b + right) + ":" + c;
    assert pre + a + ":" + left + b + right + ":" + c + post == pre + body + post;
    assert body[|body| - 1] == if c == [] then ':' else c[|c| - 1];
    StripOf(pre, body, post);
    PartsOf(a, left + b + right, c);
  }

  lemma StripAround(left: string, s: string, right: string)
    requires Blank(left) && Blank(right) && (s == [] || (!IsSpace(s[0]) && !IsSpace(s[|s| - 1])))
    ensures Strip(left + s + right) == s
  {
    if s == [] {
      assert left + s + right == left + right + "";
      TrimLeftOf(left + right, "");
      assert left + right + "" == left + right;
    } else {
      StripOf(left, s, right);
    }
  }

  /** A load with all its fields, one order dependency and two register dependencies. */
  lemma SampleLine()
    ensures Line(DepRecord(1, Some(2), Some(3), LOAD, Some(4), Some(5), Some(6), 7, [8], [8, 9]))
            == "1,2,3,LOAD,4,5,6,7:,8:,8,9\n"
  {
    assert [8][..0] == [] && [8, 9][..1] == [8];
    assert DepList([8]) == ",8" && DepList([8, 9]) == ",8,9";
    var fields := ["1", "2", "3", "LOAD", "4", "5", "6", "7"];
    assert InfoFields(DepRecord(1, Some(2), Some(3), LOAD, Some(4), Some(5), Some(6), 7, [8], [8, 9])) == fields;
    SampleFields(fields);
  }

  lemma SampleFields(fields: seq<string>)
    requires fields == ["1", "2", "3", "LOAD", "4", "5", "6", "7"]
    ensures Join(fields, ',') == "1,2,3,LOAD,4,5,6,7"
  {
    var later := SampleRest();
    JoinTwo("LOAD", later);
    JoinTwo("3", ["LOAD"] + later);
    JoinTwo("2", ["3"] + (["LOAD"] + later));
    JoinTwo("1", ["2"] + (["3"] + (["LOAD"] + later)));
    assert fields == ["1"] + (["2"] + (["3"] + (["LOAD"] + later)));
  }

  lemma SampleRest() returns (fields: seq<string>)
    ensures fields == ["4", "5", "6", "7"] && Join(fields, ',') == "4,5,6,7"
  {
    JoinTwo("6", ["7"]);
    JoinTwo("5", ["6"] + ["7"]);
    JoinTwo("4", ["5"] + (["6"] + ["7"]));
    fields := ["4"] + (["5"] + (["6"] + ["7"]));
  }

  lemma JoinTwo(x: string, fields: seq<string>)
    requires fields != []
    ensures Join([x] + fields, ',') == x + "," + Join(fields, ',')
  {
    assert ([x] + fields)[1..] == fields;
  }
}
