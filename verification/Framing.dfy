/** Length-prefixed message streams: base-128 varints and the messages framed by them. */
module Framing {
  import opened Common

  function Pow(b: nat, n: nat): (p: nat)
    requires b > 0
    ensures p > 0
  {
    if n == 0 then 1 else b * Pow(b, n - 1)
  }

  /** Seven bits per byte, lowest first, with the top bit set on all but the last. */
  function Varint(value: nat): (s: seq<Byte>)
    ensures s != []
  {
    if value < 128 then [value] else [128 + value % 128] + Varint(value / 128)
  }

  method EncodeVarint32(out: seq<Byte>, value: nat) returns (after: seq<Byte>)
    ensures after == out + Varint(value)
  {
    after := out;
    var bits: Byte := value % 128;
    var rest: nat := value / 128;
    ghost var sent: nat := value;
    while rest != 0
      invariant bits == sent % 128 && rest == sent / 128
      invariant after + Varint(sent) == out + Varint(value)
      decreases rest
    {
      after := after + [128 + bits];
      bits := rest % 128;
      sent := rest;
      rest := rest / 128;
    }
    after := after + [bits];
  }

  /** Eof at the end of the stream, TooLong after ten bytes that all ask for more. */
  datatype Decoded = Eof | TooLong | Size(value: int, read: nat)

  /** What the last byte turns the accumulated bits into: a 32-bit value, or a negative number past 2^63. */
  function Finish(result: nat): int {
    if result >= 0x8000_0000_0000_0000 then Sign(result) else result % 0x1_0000_0000
  }

  /** Two's complement in 64 bits, then every bit above the 32nd set. */
  function Sign(result: nat): int {
    (result - 0x1_0000_0000_0000_0000) % 0x1_0000_0000 - 0x1_0000_0000
  }

  /** The seven bits of byte n, put above those read so far. */
  function Grow(result: nat, b: Byte, n: nat): nat {
    result + (b % 128) * Pow(128, n)
  }

  /** Decoding from position pos of a varint whose first n bytes gave result. */
  function DecodeFrom(s: seq<Byte>, pos: nat, n: nat, result: nat): Decoded
    requires n < 10
    decreases 10 - n
  {
    if pos + n >= |s| then Eof
    else
      var b := s[pos + n];
      var next := Grow(result, b, n);
      if b < 128 then Size(Finish(next), n + 1)
      else if 7 * (n + 1) >= 64 then TooLong
      else DecodeFrom(s, pos, n + 1, next)
  }

  method DecodeVarint32(s: seq<Byte>, pos: nat) returns (r: Decoded)
    ensures r == DecodeFrom(s, pos, 0, 0)
    ensures r.Size? ==> 1 <= r.read <= 10 && pos + r.read <= |s|
  {
    DecodeAdvances(s, pos, 0, 0);
    var result: nat, shift: nat, n: nat := 0, 0, 0;
    while true
      invariant n < 10 && shift == 7 * n
      invariant DecodeFrom(s, pos, n, result) == DecodeFrom(s, pos, 0, 0)
      decreases 10 - n
    {
      if pos + n >= |s| {
        return Eof;
      }
      var b := s[pos + n];
      result := Grow(result, b, n);
      if b < 128 {
        return Size(Finish(result), n + 1);
      }
      n := n + 1;
      shift := shift + 7;
      if shift >= 64 {
        return TooLong;
      }
    }
  }

  /** Reading a varint back where it was written, in whatever stream. */
  lemma {:induction false} DecodeVarint(s: seq<Byte>, pos: nat, n: nat, result: nat, value: nat)
    requires n < 10 && pos + n <= |s| && Varint(value) <= s[pos + n..]
    ensures value < Pow(128, 10 - n) ==>
              DecodeFrom(s, pos, n, result) == Size(Finish(result + value * Pow(128, n)), n + |Varint(value)|)
    ensures value >= Pow(128, 10 - n) ==> DecodeFrom(s, pos, n, result) == TooLong
    decreases 10 - n
  {
    RestFits(value, 9 - n);
    if value < 128 {
      LastByte(s, pos, n, result, value);
    } else {
      OneByte(s, pos, n, result, value);
      NextByte(result, value, n);
      if n < 9 {
        RestFollows(s, pos + n, value);
        DecodeVarint(s, pos, n + 1, Grow(result, 128 + value % 128, n), value / 128);
      }
    }
  }

  lemma LastByte(s: seq<Byte>, pos: nat, n: nat, result: nat, value: nat)
    requires n < 10 && pos + n <= |s| && Varint(value) <= s[pos + n..] && value < 128
    ensures DecodeFrom(s, pos, n, result) == Size(Finish(result + value * Pow(128, n)), n + |Varint(value)|)
  {
    FirstByte(s, pos + n, value);
    assert value % 128 == value;
  }

  lemma OneByte(s: seq<Byte>, pos: nat, n: nat, result: nat, value: nat)
    requires n < 10 && pos + n <= |s| && Varint(value) <= s[pos + n..] && value >= 128
    ensures DecodeFrom(s, pos, n, result) ==
            if n == 9 then TooLong else DecodeFrom(s, pos, n + 1, Grow(result, 128 + value % 128, n))
  {
    FirstByte(s, pos + n, value);
  }

  lemma RestFits(value: nat, n: nat)
    ensures value / 128 < Pow(128, n) <==> value < Pow(128, n + 1)
    ensures n == 0 ==> (value < 128 <==> value < Pow(128, n + 1))
    ensures value < 128 ==> value < Pow(128, n + 1)
  {
    var p := Pow(128, n);
    assert Pow(128, n + 1) == 128 * p;
  }

  lemma FirstByte(s: seq<Byte>, at: nat, value: nat)
    requires at <= |s| && Varint(value) <= s[at..]
    ensures at < |s| && s[at] == if value < 128 then value else 128 + value % 128
  {
    assert s[at] == Varint(value)[0];
  }

  lemma RestFollows(s: seq<Byte>, at: nat, value: nat)
    requires value >= 128 && at <= |s| && Varint(value) <= s[at..]
    ensures at < |s| && Varint(value / 128) <= s[at + 1..]
  {
    assert Varint(value / 128) == Varint(value)[1..];
  }

  lemma NextByte(result: nat, value: nat, n: nat)
    ensures Grow(result, 128 + value % 128, n) + (value / 128) * Pow(128, n + 1) == result + value * Pow(128, n)
  {
    var q, r, p := value / 128, value % 128, Pow(128, n);
    assert (128 + r) % 128 == r;
    assert value == 128 * q + r;
    assert (128 * q + r) * p == r * p + q * (128 * p);
  }

  // ------------------------------------------------------------------------- messages

  function Frame(payload: seq<Byte>): seq<Byte> {
    Varint(|payload|) + payload
  }

  function FrameAll(payloads: seq<seq<Byte>>): seq<Byte> {
    if payloads == [] then [] else Frame(payloads[0]) + FrameAll(payloads[1..])
  }

  method EncodeMessage(out: seq<Byte>, payload: seq<Byte>) returns (after: seq<Byte>)
    ensures after == out + Frame(payload)
  {
    after := EncodeVarint32(out, |payload|);
    after := after + payload;
  }

  /** A read of size bytes stops at the end of the stream; a negative size reads to the end. */
  function ReadEnd(s: seq<Byte>, pos: nat, size: int): (e: nat)
    requires pos <= |s|
    ensures pos <= e <= |s|
  {
    if size < 0 || pos + size > |s| then |s| else pos + size
  }

  datatype Message = NoMessage | Message(payload: seq<Byte>, end: nat)

  function Unframe(s: seq<Byte>, pos: nat): (m: Message)
    requires pos <= |s|
    ensures m.Message? ==> pos < m.end <= |s|
  {
    var d := DecodeFrom(s, pos, 0, 0);
    DecodeAdvances(s, pos, 0, 0);
    if !d.Size? || d.value == 0 then NoMessage
    else
      var e := ReadEnd(s, pos + d.read, d.value);
      Message(s[pos + d.read..e], e)
  }

  lemma {:induction false} DecodeAdvances(s: seq<Byte>, pos: nat, n: nat, result: nat)
    requires n < 10
    ensures DecodeFrom(s, pos, n, result).Size? ==>
              n < DecodeFrom(s, pos, n, result).read <= 10 && pos + DecodeFrom(s, pos, n, result).read <= |s|
    decreases 10 - n
  {
    if pos + n < |s| && s[pos + n] >= 128 && 7 * (n + 1) < 64 {
      DecodeAdvances(s, pos, n + 1, Grow(result, s[pos + n], n));
    }
  }

  method DecodeMessage(s: seq<Byte>, pos: nat) returns (m: Message)
    requires pos <= |s|
    ensures m == Unframe(s, pos)
  {
    var d := DecodeVarint32(s, pos);
    if !d.Size? || d.value == 0 {
      return NoMessage;
    }
    var e := ReadEnd(s, pos + d.read, d.value);
    return Message(s[pos + d.read..e], e);
  }

  datatype Contents = Contents(payloads: seq<seq<Byte>>, end: nat)

  /** Decoding messages until there is none; end is where the last one ended. */
  function UnframeAll(s: seq<Byte>, pos: nat): Contents
    requires pos <= |s|
    decreases |s| - pos
  {
    match Unframe(s, pos)
    case NoMessage => Contents([], pos)
    case Message(payload, end) =>
      var rest := UnframeAll(s, end);
      Contents([payload] + rest.payloads, rest.end)
  }

  method DecodeStream(s: seq<Byte>) returns (payloads: seq<seq<Byte>>, end: nat)
    ensures Contents(payloads, end) == UnframeAll(s, 0)
  {
    payloads, end := [], 0;
    while true
      invariant end <= |s|
      invariant UnframeAll(s, 0) == Contents(payloads + UnframeAll(s, end).payloads, UnframeAll(s, end).end)
      decreases |s| - end
    {
      var m := DecodeMessage(s, end);
      if m.NoMessage? {
        return;
      }
      UnframeAllStep(s, end);
      AppendOne(payloads, m.payload, UnframeAll(s, m.end).payloads);
      payloads, end := payloads + [m.payload], m.end;
    }
  }

  lemma AppendOne(a: seq<seq<Byte>>, x: seq<Byte>, b: seq<seq<Byte>>)
    ensures a + [x] + b == a + ([x] + b)
  {}

  predicate Framable(payload: seq<Byte>) {
    0 < |payload| < 0x1_0000_0000
  }

  lemma HeaderOf(s: seq<Byte>, pos: nat, size: nat)
    requires pos <= |s| && Varint(size) <= s[pos..] && size < 0x8000_0000_0000_0000
    ensures DecodeFrom(s, pos, 0, 0) == Size(size % 0x1_0000_0000, |Varint(size)|)
  {
    PowBound();
    DecodeVarint(s, pos, 0, 0, size);
  }

  /** A message of any length is read back cut to its length modulo 2^32, or as the end if that is zero. */
  lemma UnframeCut(s: seq<Byte>, pos: nat, payload: seq<Byte>)
    requires pos <= |s| && Frame(payload) <= s[pos..] && |payload| < 0x8000_0000_0000_0000
    ensures var size := |payload| % 0x1_0000_0000;
      var start := pos + |Varint(|payload|)|;
      Unframe(s, pos) == if size == 0 then NoMessage else Message(payload[..size], start + size)
  {
    var head, size := Varint(|payload|), |payload| % 0x1_0000_0000;
    PrefixParts(s, pos, head, payload);
    HeaderOf(s, pos, |payload|);
    UnframeSized(s, pos, payload, size, pos + |head|);
  }

  lemma UnframeSized(s: seq<Byte>, pos: nat, payload: seq<Byte>, size: nat, start: nat)
    requires pos <= start && DecodeFrom(s, pos, 0, 0) == Size(size, start - pos) && size <= |payload|
    requires start + |payload| <= |s| && s[start..start + |payload|] == payload
    ensures Unframe(s, pos) == if size == 0 then NoMessage else Message(payload[..size], start + size)
  {
    CutPart(s, start, payload, size);
  }

  /** A framed message is read back whole, and reading goes on right behind it. */
  lemma UnframeFrame(s: seq<Byte>, pos: nat, payload: seq<Byte>)
    requires pos <= |s| && Frame(payload) <= s[pos..] && Framable(payload)
    ensures Unframe(s, pos) == Message(payload, pos + |Frame(payload)|)
  {
    SmallEnough(|payload|);
    UnframeCut(s, pos, payload);
    assert payload[..|payload|] == payload;
  }

  lemma SmallEnough(size: nat)
    requires size < 0x1_0000_0000
    ensures size % 0x1_0000_0000 == size
  {}

  lemma CutPart(s: seq<Byte>, start: nat, part: seq<Byte>, size: nat)
    requires start + |part| <= |s| && s[start..start + |part|] == part && size <= |part|
    ensures s[start..start + size] == part[..size]
  {}

  lemma PrefixParts(s: seq<Byte>, pos: nat, a: seq<Byte>, b: seq<Byte>)
    requires pos <= |s| && a + b <= s[pos..]
    ensures a <= s[pos..] && pos + |a| + |b| <= |s| && s[pos + |a|..pos + |a| + |b|] == b
  {
    assert s[pos..][..|a + b|] == a + b;
    assert s[pos..][..|a|] == (a + b)[..|a|];
    assert s[pos + |a|..pos + |a| + |b|] == s[pos..][|a|..|a| + |b|] == (a + b)[|a|..];
  }

  lemma PowBound()
    ensures Pow(128, 10) > 0x1_0000_0000_0000_0000 && Pow(128, 0) == 1
  {
    assert Pow(128, 1) == 0x80;
    assert Pow(128, 2) == 0x4000;
    assert Pow(128, 4) == 0x1000_0000;
    assert Pow(128, 6) == 0x400_0000_0000;
    assert Pow(128, 8) == 0x100_0000_0000_0000;
    assert Pow(128, 10) == 0x4000 * 0x100_0000_0000_0000;
  }

  predicate AllFramable(payloads: seq<seq<Byte>>) {
    payloads == [] || (Framable(payloads[0]) && AllFramable(payloads[1..]))
  }

  predicate AllShort(payloads: seq<seq<Byte>>) {
    payloads == [] || (|payloads[0]| < 0x8000_0000_0000_0000 && AllShort(payloads[1..]))
  }

  /** The messages read from position pos on begin with these, which end at position end. */
  predicate Reads(s: seq<Byte>, pos: nat, payloads: seq<seq<Byte>>, end: nat)
    requires pos <= |s|
    decreases |payloads|
  {
    if payloads == [] then pos == end
    else
      var m := Unframe(s, pos);
      m.Message? && m.payload == payloads[0] && Reads(s, m.end, payloads[1..], end)
  }

  lemma FirstFrame(s: seq<Byte>, pos: nat, payloads: seq<seq<Byte>>) returns (next: nat)
    requires payloads != [] && pos <= |s| && FrameAll(payloads) <= s[pos..]
    ensures next == pos + |Frame(payloads[0])| <= |s| && Frame(payloads[0]) <= s[pos..]
    ensures FrameAll(payloads[1..]) <= s[next..] && next + |FrameAll(payloads[1..])| == pos + |FrameAll(payloads)|
  {
    next := pos + |Frame(payloads[0])|;
    PrefixRest(s, pos, Frame(payloads[0]), FrameAll(payloads[1..]));
  }

  lemma FirstIsRead(s: seq<Byte>, pos: nat, payloads: seq<seq<Byte>>) returns (next: nat)
    requires payloads != [] && pos <= |s| && FrameAll(payloads) <= s[pos..] && Framable(payloads[0])
    ensures next <= |s| && Unframe(s, pos) == Message(payloads[0], next)
    ensures FrameAll(payloads[1..]) <= s[next..] && next + |FrameAll(payloads[1..])| == pos + |FrameAll(payloads)|
  {
    next := FirstFrame(s, pos, payloads);
    UnframeFrame(s, pos, payloads[0]);
  }

  lemma {:induction false} FramesAreRead(s: seq<Byte>, pos: nat, payloads: seq<seq<Byte>>)
    requires AllFramable(payloads) && pos <= |s| && FrameAll(payloads) <= s[pos..]
    ensures Reads(s, pos, payloads, pos + |FrameAll(payloads)|)
    decreases |payloads|
  {
    if payloads != [] {
      var next := FirstIsRead(s, pos, payloads);
      FramesAreRead(s, next, payloads[1..]);
    }
  }

  lemma {:induction false} ReadsOn(s: seq<Byte>, pos: nat, payloads: seq<seq<Byte>>, end: nat)
    requires pos <= |s| && Reads(s, pos, payloads, end)
    ensures end <= |s| && UnframeAll(s, pos) == Contents(payloads + UnframeAll(s, end).payloads, UnframeAll(s, end).end)
    decreases |payloads|
  {
    if payloads != [] {
      ReadsOn(s, Unframe(s, pos).end, payloads[1..], end);
      UnframeAllStep(s, pos);
      Regroup(payloads[0], payloads[1..], UnframeAll(s, end).payloads, payloads);
    }
  }

  lemma Regroup(x: seq<Byte>, a: seq<seq<Byte>>, b: seq<seq<Byte>>, xa: seq<seq<Byte>>)
    requires xa != [] && x == xa[0] && a == xa[1..]
    ensures [x] + (a + b) == xa + b
  {}

  lemma PrefixRest(s: seq<Byte>, pos: nat, a: seq<Byte>, b: seq<Byte>)
    requires pos <= |s| && a + b <= s[pos..]
    ensures a <= s[pos..] && pos + |a| <= |s| && b <= s[pos + |a|..]
  {
    PrefixParts(s, pos, a, b);
    assert s[pos + |a|..][..|b|] == s[pos + |a|..pos + |a| + |b|];
  }

  lemma EndOfStream(s: seq<Byte>)
    ensures Unframe(s, |s|) == NoMessage
  {}

  lemma UnframeAllStep(s: seq<Byte>, pos: nat)
    requires pos <= |s| && Unframe(s, pos).Message?
    ensures var m := Unframe(s, pos);
      UnframeAll(s, pos) == Contents([m.payload] + UnframeAll(s, m.end).payloads, UnframeAll(s, m.end).end)
  {}

  /** A message that cannot be framed is not read back: an empty one ends the stream, a longer one is cut. */
  lemma BadFrame(s: seq<Byte>, pos: nat, payload: seq<Byte>)
    requires pos <= |s| && Frame(payload) <= s[pos..] && !Framable(payload) && |payload| < 0x8000_0000_0000_0000
    ensures Unframe(s, pos).Message? ==> Unframe(s, pos).payload != payload
  {
    UnframeCut(s, pos, payload);
  }

  lemma DiffersHere(s: seq<Byte>, pos: nat, payloads: seq<seq<Byte>>)
    requires pos <= |s| && payloads != [] && (Unframe(s, pos).Message? ==> Unframe(s, pos).payload != payloads[0])
    ensures UnframeAll(s, pos).payloads != payloads
  {}

  lemma DiffersLater(s: seq<Byte>, pos: nat, payloads: seq<seq<Byte>>)
    requires pos <= |s| && payloads != [] && Unframe(s, pos).Message?
    requires UnframeAll(s, Unframe(s, pos).end).payloads != payloads[1..]
    ensures UnframeAll(s, pos).payloads != payloads
  {}

  lemma {:induction false} BadStream(s: seq<Byte>, pos: nat, payloads: seq<seq<Byte>>)
    requires !AllFramable(payloads) && AllShort(payloads) && pos <= |s| && FrameAll(payloads) <= s[pos..]
    ensures UnframeAll(s, pos).payloads != payloads
    decreases |payloads|
  {
    if Framable(payloads[0]) {
      var next := FirstIsRead(s, pos, payloads);
      BadStream(s, next, payloads[1..]);
      DiffersLater(s, pos, payloads);
    } else {
      var next := FirstFrame(s, pos, payloads);
      BadFrame(s, pos, payloads[0]);
      DiffersHere(s, pos, payloads);
    }
  }

  /**
   Framing is lossless exactly for messages that are neither empty nor 2^32
   bytes long or more; no string of the host language reaches 2^63 bytes.
   */
  lemma FramingRoundTrip(payloads: seq<seq<Byte>>)
    requires forall n :: 0 <= n < |payloads| ==> |payloads[n]| < 0x8000_0000_0000_0000
    ensures UnframeAll(FrameAll(payloads), 0) == Contents(payloads, |FrameAll(payloads)|)
            <==> forall n :: 0 <= n < |payloads| ==> Framable(payloads[n])
  {
    Elementwise(payloads);
    if AllFramable(payloads) {
      WholeStream(FrameAll(payloads), payloads);
    } else {
      assert FrameAll(payloads)[0..] == FrameAll(payloads);
      BadStream(FrameAll(payloads), 0, payloads);
    }
  }

  lemma WholeStream(s: seq<Byte>, payloads: seq<seq<Byte>>)
    requires AllFramable(payloads) && s == FrameAll(payloads)
    ensures UnframeAll(s, 0) == Contents(payloads, |s|)
  {
    assert s[0..] == s;
    FramesAreRead(s, 0, payloads);
    EndOfStream(s);
    ReadsThen(s, payloads, |s|);
  }

  lemma {:induction false} Elementwise(payloads: seq<seq<Byte>>)
    ensures AllFramable(payloads) <==> forall n :: 0 <= n < |payloads| ==> Framable(payloads[n])
    ensures (forall n :: 0 <= n < |payloads| ==> |payloads[n]| < 0x8000_0000_0000_0000) ==> AllShort(payloads)
  {
    if payloads != [] {
      Elementwise(payloads[1..]);
      assert forall n :: 1 <= n < |payloads| ==> payloads[n] == payloads[1..][n - 1];
    }
  }

  // ------------------------------------------------------------- sizes and broken streams

  /** A size is read modulo 2^32, below zero from 2^63 on; more than ten bytes are an error. */
  lemma SizeIsRead(s: seq<Byte>, pos: nat, value: nat)
    requires pos <= |s| && Varint(value) <= s[pos..]
    ensures var d := DecodeFrom(s, pos, 0, 0);
      if value < Pow(128, 10) then
        && d.Size? && d.read == |Varint(value)| && (d.value - value) % 0x1_0000_0000 == 0
        && (value < 0x8000_0000_0000_0000 ==> 0 <= d.value < 0x1_0000_0000)
        && (value >= 0x8000_0000_0000_0000 ==> -0x1_0000_0000 <= d.value < 0)
      else d == TooLong
  {
    PowBound();
    DecodeVarint(s, pos, 0, 0, value);
    FinishIs(value);
  }

  lemma FinishIs(value: nat)
    ensures (Finish(value) - value) % 0x1_0000_0000 == 0
    ensures value < 0x8000_0000_0000_0000 ==> 0 <= Finish(value) < 0x1_0000_0000
    ensures value >= 0x8000_0000_0000_0000 ==> -0x1_0000_0000 <= Finish(value) < 0
  {}

  /** A negative size takes the rest of the stream. */
  lemma NegativeTakesAll(s: seq<Byte>, pos: nat, value: nat)
    requires pos <= |s| && Varint(value) <= s[pos..] && 0x8000_0000_0000_0000 <= value < Pow(128, 10)
    ensures Unframe(s, pos) == Message(s[pos + |Varint(value)|..], |s|)
  {
    SizeIsRead(s, pos, value);
  }

  lemma {:induction false} CutHeader(s: seq<Byte>, pos: nat, n: nat, result: nat, value: nat)
    requires n + |Varint(value)| <= 10 && pos + n <= |s| && s[pos + n..] <= Varint(value)
    requires |s| < pos + n + |Varint(value)|
    ensures DecodeFrom(s, pos, n, result) == Eof
    decreases value
  {
    if pos + n < |s| {
      assert s[pos + n] == Varint(value)[0] && value >= 128;
      assert s[pos + n + 1..] == s[pos + n..][1..] <= Varint(value)[1..] == Varint(value / 128);
      CutHeader(s, pos, n + 1, Grow(result, s[pos + n], n), value / 128);
    }
  }

  lemma {:induction false} HeaderFits(value: nat, n: nat)
    requires value < Pow(128, n) && n > 0
    ensures |Varint(value)| <= n
  {
    if value >= 128 {
      RestFits(value, n - 1);
      assert n - 1 > 0 by {
        assert Pow(128, 1) == 128 * Pow(128, 0);
      }
      HeaderFits(value / 128, n - 1);
    }
  }

  /** The end of the stream inside a message: a broken header is the end, a broken payload is what there is of it. */
  lemma CutMessage(s: seq<Byte>, pos: nat, payload: seq<Byte>)
    requires Framable(payload) && pos <= |s| && s[pos..] <= Frame(payload) && s[pos..] != Frame(payload)
    ensures var head := |Varint(|payload|)|;
      Unframe(s, pos) ==
        if |s| - pos < head then NoMessage else Message(payload[..|s| - pos - head], |s|)
  {
    var head, rest := Varint(|payload|), s[pos..];
    PowBound();
    HeaderFits(|payload|, 10);
    if |rest| < |head| {
      assert rest == Frame(payload)[..|rest|] == head[..|rest|];
      CutHeader(s, pos, 0, 0, |payload|);
    } else {
      CutPayload(s, pos, payload);
    }
  }

  lemma CutPayload(s: seq<Byte>, pos: nat, payload: seq<Byte>)
    requires Framable(payload) && pos <= |s| && s[pos..] <= Frame(payload) && s[pos..] != Frame(payload)
    requires |s| - pos >= |Varint(|payload|)|
    ensures var head := |Varint(|payload|)|; Unframe(s, pos) == Message(payload[..|s| - pos - head], |s|)
  {
    var head := Varint(|payload|);
    CutParts(s, pos, head, payload);
    HeaderOf(s, pos, |payload|);
    SmallEnough(|payload|);
    UnframeRest(s, pos, |payload|, |head|);
  }

  lemma CutParts(s: seq<Byte>, pos: nat, head: seq<Byte>, payload: seq<Byte>)
    requires pos <= |s| && s[pos..] <= head + payload && s[pos..] != head + payload && |s| - pos >= |head|
    ensures head <= s[pos..] && |s| - pos - |head| < |payload|
    ensures s[pos + |head|..] == payload[..|s| - pos - |head|]
  {
    var rest := s[pos..];
    assert rest == (head + payload)[..|rest|];
    assert s[pos + |head|..] == rest[|head|..];
  }

  lemma UnframeRest(s: seq<Byte>, pos: nat, size: nat, read: nat)
    requires DecodeFrom(s, pos, 0, 0) == Size(size, read) && size > 0 && pos + read <= |s| < pos + read + size
    ensures Unframe(s, pos) == Message(s[pos + read..], |s|)
  {}

  lemma ReadsThen(s: seq<Byte>, payloads: seq<seq<Byte>>, at: nat)
    requires Reads(s, 0, payloads, at) && at <= |s| && (Unframe(s, at).Message? ==> Unframe(s, at).end == |s|)
    ensures UnframeAll(s, 0) ==
            if Unframe(s, at).NoMessage? then Contents(payloads, at)
            else Contents(payloads + [Unframe(s, at).payload], |s|)
  {
    ReadsOn(s, 0, payloads, at);
    if Unframe(s, at).Message? {
      UnframeAllStep(s, at);
      EndOfStream(s);
    }
  }

  lemma Joined(front: seq<Byte>, back: seq<Byte>)
    ensures front <= (front + back)[0..] && (front + back)[|front|..] == back
  {}

  lemma ReadUpTo(s: seq<Byte>, payloads: seq<seq<Byte>>, cut: seq<Byte>) returns (at: nat)
    requires AllFramable(payloads) && s == FrameAll(payloads) + cut
    ensures at == |FrameAll(payloads)| && at <= |s| && s[at..] == cut && Reads(s, 0, payloads, at)
  {
    at := |FrameAll(payloads)|;
    Joined(FrameAll(payloads), cut);
    FramesAreRead(s, 0, payloads);
  }

  /** What there is of the last message: nothing while its header is broken. */
  function Left(last: seq<Byte>, cut: seq<Byte>, end: nat): Message
    requires |cut| <= |Frame(last)|
  {
    var head := |Varint(|last|)|;
    if |cut| < head then NoMessage else Message(last[..|cut| - head], end)
  }

  lemma CutEnd(s: seq<Byte>, at: nat, last: seq<Byte>, cut: seq<Byte>)
    requires at <= |s| && s[at..] == cut && Framable(last) && cut <= Frame(last) && cut != Frame(last)
    ensures Unframe(s, at) == Left(last, cut, |s|)
  {
    assert |cut| == |s| - at;
    CutMessage(s, at, last);
  }

  /** A stream that breaks off inside a message: all before it is read, and of it what there is. */
  lemma CutStream(s: seq<Byte>, payloads: seq<seq<Byte>>, last: seq<Byte>, cut: seq<Byte>)
    requires AllFramable(payloads) && s == FrameAll(payloads) + cut
    requires Framable(last) && cut <= Frame(last) && cut != Frame(last)
    ensures UnframeAll(s, 0) ==
            if Left(last, cut, |s|).NoMessage? then Contents(payloads, |FrameAll(payloads)|)
            else Contents(payloads + [Left(last, cut, |s|).payload], |s|)
  {
    var at := ReadUpTo(s, payloads, cut);
    CutEnd(s, at, last, cut);
    ReadsThen(s, payloads, at);
  }

  /** Three hundred takes two bytes, the lower seven bits first. */
  lemma SampleVarint()
    ensures Varint(300) == [0xAC, 0x02]
  {
    assert Varint(2) == [2];
  }
}
