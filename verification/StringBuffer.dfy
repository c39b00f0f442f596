/** Length-prefixed strings packed into one buffer. */
module StringBuffer {

  type Octet = x: int | 0 <= x < 256

  type Text = s: seq<Octet> | |s| < LENGTH_LIMIT

  const PREFIX_SIZE: nat := 4
  const LENGTH_LIMIT := 0x1_0000_0000

  lemma {:induction false} Digits(n: nat)
    requires n < LENGTH_LIMIT
    ensures n / 16777216 < 256
    ensures n % 256 + 256 * (n / 256 % 256) + 65536 * (n / 65536 % 256) + 16777216 * (n / 16777216) == n
  {
    var a, b, c := n / 256, n / 65536, n / 16777216;
    assert n == 256 * a + n % 256;
    assert b == a / 256 && a == 256 * b + a % 256;
    assert c == b / 256 && b == 256 * c + b % 256;
  }

  /** Digits of base 256 can be told apart. */
  lemma {:induction false} SplitDigit(q: nat, d: nat)
    requires d < 256
    ensures (256 * q + d) % 256 == d && (256 * q + d) / 256 == q
  {}

  lemma {:induction false} DivDiv(n: nat)
    ensures n / 65536 == n / 256 / 256 && n / 16777216 == n / 65536 / 256
  {}

  /** A little-endian 32-bit length. */
  function Length(prefix: seq<Octet>): (n: nat)
    requires |prefix| == PREFIX_SIZE
    ensures n < LENGTH_LIMIT
  {
    prefix[0] as int + 256 * (prefix[1] as int) + 65536 * (prefix[2] as int) + 16777216 * (prefix[3] as int)
  }

  function Weight(k: nat): nat {
    if k == 0 then 1 else 256 * Weight(k - 1)
  }

  /** The byte order: nothing but zeros is zero, and each step of byte k counts for
      256 to the k. */
  lemma {:induction false} ByteWeight(p: seq<Octet>, k: nat)
    requires |p| == PREFIX_SIZE && k < 4 && p[k] < 255
    ensures Length([0, 0, 0, 0]) == 0
    ensures Length(p[k := p[k] + 1]) == Length(p) + Weight(k)
  {
    assert Weight(1) == 256 && Weight(2) == 65536 && Weight(3) == 256 * Weight(2);
  }

  function Prefix(n: nat): (p: seq<Octet>)
    requires n < LENGTH_LIMIT
    ensures |p| == PREFIX_SIZE && Length(p) == n
  {
    Digits(n);
    [n % 256, n / 256 % 256, n / 65536 % 256, n / 16777216]
  }

  lemma {:induction false} PrefixOfLength(p: seq<Octet>)
    requires |p| == PREFIX_SIZE
    ensures Prefix(Length(p)) == p
  {
    var n, q2, q1 := Length(p), p[2] as int + 256 * (p[3] as int), p[1] as int + 256 * (p[2] as int) + 65536 * (p[3] as int);
    SplitDigit(q1, p[0]);
    SplitDigit(q2, p[1]);
    SplitDigit(p[3], p[2]);
    DivDiv(n);
    assert n == 256 * q1 + p[0] && q1 == 256 * q2 + p[1] && q2 == 256 * (p[3] as int) + p[2];
  }

  function Encode(s: Text): seq<Octet> {
    Prefix(|s|) + s
  }

  /** The strings one after the other. */
  function EncodeAll(ss: seq<Text>): seq<Octet> {
    if ss == [] then [] else EncodeAll(ss[..|ss| - 1]) + Encode(ss[|ss| - 1])
  }

  lemma {:induction false} EncodeAppend(ss: seq<Text>, s: Text)
    ensures EncodeAll(ss + [s]) == EncodeAll(ss) + Encode(s)
  {
    assert (ss + [s])[..|ss|] == ss;
  }

  lemma {:induction false} EncodeFirst(ss: seq<Text>)
    requires ss != []
    ensures EncodeAll(ss) == Encode(ss[0]) + EncodeAll(ss[1..])
  {
    hide Encode;
    var p, l := ss[..|ss| - 1], ss[|ss| - 1];
    if p == [] {
      assert ss[1..] == [] && EncodeAll(p) == [];
    } else {
      EncodeFirst(p);
      EncodeAppend(p[1..], l);
      assert ss[1..] == p[1..] + [l];
    }
  }

  /** A whole string stands at the front of the buffer. */
  predicate Starts(buffer: seq<Octet>) {
    |buffer| >= PREFIX_SIZE && |buffer| - PREFIX_SIZE >= Length(buffer[..PREFIX_SIZE])
  }

  function Front(buffer: seq<Octet>): Text
    requires Starts(buffer)
  {
    buffer[PREFIX_SIZE..][..Length(buffer[..PREFIX_SIZE])]
  }

  lemma {:induction false} FrontIsEncoded(buffer: seq<Octet>)
    requires Starts(buffer)
    ensures buffer == Encode(Front(buffer)) + buffer[PREFIX_SIZE + |Front(buffer)|..]
  {
    PrefixOfLength(buffer[..PREFIX_SIZE]);
  }

  lemma {:induction false} EncodedStarts(s: Text, rest: seq<Octet>)
    ensures Starts(Encode(s) + rest) && Front(Encode(s) + rest) == s && |Encode(s)| == PREFIX_SIZE + |s|
    ensures (Encode(s) + rest)[PREFIX_SIZE + |s|..] == rest
  {
    assert (Encode(s) + rest)[..PREFIX_SIZE] == Prefix(|s|);
  }

  /** buffer consists of the strings ss and then of tail, which does not start with
      a whole string. */
  ghost predicate Splits(buffer: seq<Octet>, ss: seq<Text>, tail: seq<Octet>) {
    buffer == EncodeAll(ss) + tail && !Starts(tail)
  }

  lemma {:induction false} SplitStarts(buffer: seq<Octet>, ss: seq<Text>, tail: seq<Octet>)
    requires buffer == EncodeAll(ss) + tail
    ensures ss == [] ==> buffer == tail
    ensures ss != [] ==> Starts(buffer) && Front(buffer) == ss[0] && PREFIX_SIZE + |ss[0]| <= |buffer|
    ensures ss != [] ==> buffer[PREFIX_SIZE + |ss[0]|..] == EncodeAll(ss[1..]) + tail
  {
    hide Starts, Front, Encode;
    if ss != [] {
      EncodeFirst(ss);
      assert buffer == Encode(ss[0]) + (EncodeAll(ss[1..]) + tail);
      EncodedStarts(ss[0], EncodeAll(ss[1..]) + tail);
    }
  }

  /** There is only one way to split a buffer. */
  lemma {:induction false} SplitUnique(buffer: seq<Octet>, ss: seq<Text>, tail: seq<Octet>, ts: seq<Text>,
                                       rest: seq<Octet>)
    requires Splits(buffer, ss, tail) && buffer == EncodeAll(ts) + rest
    ensures |ts| <= |ss| && ts == ss[..|ts|]
    ensures |ts| == |ss| || !Starts(rest) ==> ts == ss && rest == tail
  {
    hide Starts, Front, EncodeAll;
    SplitStarts(buffer, ss, tail);
    SplitStarts(buffer, ts, rest);
    if ts != [] {
      SplitUnique(buffer[PREFIX_SIZE + |ts[0]|..], ss[1..], tail, ts[1..], rest);
      assert ss[..|ts|] == [ss[0]] + ss[1..][..|ts| - 1];
    }
  }

  /** Where a string stands in the buffer. */
  datatype Span = Span(start: nat, len: nat)

  ghost predicate InBuffer(spans: seq<Span>, buffer: seq<Octet>) {
    forall i | 0 <= i < |spans| :: spans[i].start + spans[i].len <= |buffer| && spans[i].len < LENGTH_LIMIT
  }

  ghost function Strings(spans: seq<Span>, buffer: seq<Octet>): (ss: seq<Text>)
    requires InBuffer(spans, buffer)
    ensures |ss| == |spans|
    ensures forall i | 0 <= i < |spans| :: ss[i] == buffer[spans[i].start..spans[i].start + spans[i].len]
  {
    seq(|spans|, i requires 0 <= i < |spans| => buffer[spans[i].start..spans[i].start + spans[i].len])
  }

  function End(spans: seq<Span>): nat {
    if spans == [] then 0 else spans[|spans| - 1].start + spans[|spans| - 1].len
  }

  /** Each string stands right behind its own length, and that behind the string before. */
  ghost predicate InTurn(spans: seq<Span>) {
    forall i | 0 <= i < |spans| :: spans[i].start == End(spans[..i]) + PREFIX_SIZE
  }

  datatype Status = Valid | TooMany | Incomplete | TooFew

  /** The strings found stand at the front of the buffer, there are at most
      `expected` of them, and the status says what stopped the search. */
  ghost predicate Scanned(buffer: seq<Octet>, expected: nat, status: Status, spans: seq<Span>) {
    && InBuffer(spans, buffer) && InTurn(spans) && |spans| <= expected && EncodeAll(Strings(spans, buffer)) <= buffer
    && var tail := buffer[|EncodeAll(Strings(spans, buffer))|..];
       match status
       case Valid => |spans| == expected && |tail| < PREFIX_SIZE
       case TooMany => |spans| == expected && |tail| >= PREFIX_SIZE
       case Incomplete => |spans| < expected && |tail| >= PREFIX_SIZE && !Starts(tail)
       case TooFew => |spans| < expected && |tail| < PREFIX_SIZE
  }

  /** Finds the strings in a buffer that should hold exactly `expected` of them. */
  method ValidateStringBuffer(buffer: seq<Octet>, expected: nat) returns (status: Status, spans: seq<Span>)
    ensures Scanned(buffer, expected, status, spans)
  {
    hide EncodeAll, Encode, Length, Strings, InTurn, End;
    spans := [];
    NothingEncoded(buffer);
    var pos: nat, remaining: nat := 0, |buffer|;
    while remaining >= PREFIX_SIZE
      invariant InBuffer(spans, buffer) && |spans| <= expected && pos + remaining == |buffer|
      invariant InTurn(spans) && pos == End(spans)
      invariant buffer[..pos] == EncodeAll(Strings(spans, buffer))
    {
      if |spans| >= expected {
        return TooMany, spans;
      }
      var tail := buffer[pos..];
      assert tail[..PREFIX_SIZE] == buffer[pos..pos + PREFIX_SIZE];
      var len := Length(buffer[pos..pos + PREFIX_SIZE]);
      remaining := remaining - PREFIX_SIZE;
      if remaining < len {
        return Incomplete, spans;
      }
      FrontIsEncoded(tail);
      NextString(buffer, spans, pos, len);
      NextInTurn(spans, len);
      spans := spans + [Span(pos + PREFIX_SIZE, len)];
      pos := pos + PREFIX_SIZE + len;
      remaining := remaining - len;
    }
    status := if |spans| != expected then TooFew else Valid;
  }

  lemma {:induction false} NextInTurn(spans: seq<Span>, len: nat)
    requires InTurn(spans)
    ensures var more := spans + [Span(End(spans) + PREFIX_SIZE, len)];
            InTurn(more) && End(more) == End(spans) + PREFIX_SIZE + len
  {
    var more := spans + [Span(End(spans) + PREFIX_SIZE, len)];
    forall i | 0 <= i < |more|
      ensures more[i].start == End(more[..i]) + PREFIX_SIZE
    {
      if i < |spans| {
        assert more[..i] == spans[..i];
      } else {
        assert more[..i] == spans;
      }
    }
  }

  lemma {:induction false} NothingEncoded(buffer: seq<Octet>)
    ensures EncodeAll(Strings([], buffer)) == [] && InTurn([]) && End([]) == 0
  {}

  lemma {:induction false} EncodedSize(s: Text)
    ensures |Encode(s)| == PREFIX_SIZE + |s|
  {}

  lemma {:induction false} NextString(buffer: seq<Octet>, spans: seq<Span>, pos: nat, len: nat)
    requires InBuffer(spans, buffer) && pos <= |buffer| && buffer[..pos] == EncodeAll(Strings(spans, buffer))
    requires Starts(buffer[pos..]) && len == |Front(buffer[pos..])|
    requires buffer[pos..] == Encode(Front(buffer[pos..])) + buffer[pos..][PREFIX_SIZE + len..]
    ensures var more := spans + [Span(pos + PREFIX_SIZE, len)];
            InBuffer(more, buffer) && buffer[..pos + PREFIX_SIZE + len] == EncodeAll(Strings(more, buffer))
  {
    hide Encode, EncodeAll;
    var more, front := spans + [Span(pos + PREFIX_SIZE, len)], Front(buffer[pos..]);
    assert front == buffer[pos + PREFIX_SIZE..pos + PREFIX_SIZE + len];
    assert Strings(more, buffer) == Strings(spans, buffer) + [front];
    EncodeAppend(Strings(spans, buffer), front);
    EncodedSize(front);
    assert buffer[..pos + PREFIX_SIZE + len] == buffer[..pos] + buffer[pos..][..PREFIX_SIZE + len];
  }

  /** The parser's answer, for any buffer: it succeeds exactly if the buffer is the
      encoding of `expected` strings followed by fewer than four bytes, and then it
      has found these very strings. */
  lemma {:induction false} AcceptsExactly(buffer: seq<Octet>, expected: nat, status: Status, spans: seq<Span>)
    requires Scanned(buffer, expected, status, spans)
    ensures status.Valid? <==> exists ss: seq<Text>, tail: seq<Octet> ::
                                 |ss| == expected && |tail| < PREFIX_SIZE && Splits(buffer, ss, tail)
    ensures forall ss: seq<Text>, tail: seq<Octet> | |ss| == expected && |tail| < PREFIX_SIZE && Splits(buffer, ss, tail) ::
              Strings(spans, buffer) == ss
    ensures forall ss: seq<Text>, tail: seq<Octet> | Splits(buffer, ss, tail) ::
              |spans| <= |ss| && Strings(spans, buffer) == ss[..|spans|]
  {
    var found := Strings(spans, buffer);
    var rest := buffer[|EncodeAll(found)|..];
    assert buffer == EncodeAll(found) + rest;
    if status.Valid? {
      assert Splits(buffer, found, rest);
    }
    forall ss: seq<Text>, tail: seq<Octet> | Splits(buffer, ss, tail)
      ensures |spans| <= |ss| && found == ss[..|spans|]
      ensures |ss| == expected && |tail| < PREFIX_SIZE ==> status.Valid? && found == ss
    {
      SplitUnique(buffer, ss, tail, found, rest);
    }
  }

  /** And what each answer says of the one way to split the buffer. */
  lemma {:induction false} StatusExactly(buffer: seq<Octet>, expected: nat, status: Status, spans: seq<Span>,
                                         ss: seq<Text>, tail: seq<Octet>)
    requires Scanned(buffer, expected, status, spans) && Splits(buffer, ss, tail)
    ensures status.Valid? <==> |ss| == expected && |tail| < 4
    ensures status.TooMany? <==> |ss| > expected || (|ss| == expected && |tail| >= 4)
    ensures status.Incomplete? <==> |ss| < expected && |tail| >= 4
    ensures status.TooFew? <==> |ss| < expected && |tail| < 4
  {
    hide EncodeAll, Encode;
    var found := Strings(spans, buffer);
    SplitUnique(buffer, ss, tail, found, buffer[|EncodeAll(found)|..]);
  }

  /** Parsing what was encoded gives the strings back, whatever short tail follows. */
  lemma {:induction false} ParseEncoded(ss: seq<Text>, tail: seq<Octet>, status: Status, spans: seq<Span>)
    requires |tail| < PREFIX_SIZE
    requires Scanned(EncodeAll(ss) + tail, |ss|, status, spans)
    ensures status.Valid? && Strings(spans, EncodeAll(ss) + tail) == ss
  {
    AcceptsExactly(EncodeAll(ss) + tail, |ss|, status, spans);
    assert Splits(EncodeAll(ss) + tail, ss, tail);
  }

  lemma {:induction false} ShortEncoded(s: seq<Octet>)
    requires |s| < 256
    ensures EncodeAll([s]) == [|s|, 0, 0, 0] + s
  {
    assert [s][..0] == [] && EncodeAll([]) == [];
  }

  /** One short string, byte by byte: its length comes first in the first byte. */
  lemma {:induction false} ParseShort(s: seq<Octet>, status: Status, spans: seq<Span>)
    requires |s| < 256 && Scanned([|s|, 0, 0, 0] + s, 1, status, spans)
    ensures status.Valid? && Strings(spans, [|s|, 0, 0, 0] + s) == [s] && spans == [Span(4, |s|)]
  {
    ShortEncoded(s);
    hide Encode, EncodeAll;
    assert EncodeAll([s]) + [] == [|s|, 0, 0, 0] + s;
    ParseEncoded([s], [], status, spans);
    assert spans[..0] == [];
  }
}
