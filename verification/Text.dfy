/** Text as Relaunch sees it: a `string` is a sequence of Unicode scalar values, measured in
    UTF-8 bytes. This module holds the encoding, decimal and hexadecimal numerals, and splitting
    at a separator, each with the lemma that reads it back. */
module Text {

  datatype Option<+T> = None | Some(value: T)

  type byte = x: int | 0 <= x < 0x100
  type u32 = x: int | 0 <= x < 0x1_0000_0000
  type u64 = x: int | 0 <= x < 0x1_0000_0000_0000_0000

  // ---------------------------------------------------------------- UTF-8

  function Utf8Char(c: char): (bs: seq<byte>)
    ensures 1 <= |bs| <= 4
  {
    var p := c as int;
    if p < 0x80 then [p]
    else if p < 0x800 then [0xC0 + p / 0x40, 0x80 + p % 0x40]
    else if p < 0x1_0000 then [0xE0 + p / 0x1000, 0x80 + p / 0x40 % 0x40, 0x80 + p % 0x40]
    else [0xF0 + p / 0x4_0000, 0x80 + p / 0x1000 % 0x40, 0x80 + p / 0x40 % 0x40, 0x80 + p % 0x40]
  }

  /** The bytes of a string: what `len` measures and what a signature covers. */
  function Utf8(s: string): (bs: seq<byte>)
    ensures |s| <= |bs|
  {
    if s == [] then [] else Utf8Char(s[0]) + Utf8(s[1..])
  }

  function Scalar(p: int): Option<char> {
    if 0 <= p < 0xD800 || 0xE000 <= p < 0x11_0000 then Some(p as char) else None
  }

  /** How many bytes the character starting with lead byte `b` takes. */
  function Width(b: byte): nat {
    if b < 0x80 then 1 else if b < 0xE0 then 2 else if b < 0xF0 then 3 else 4
  }

  function ReadChar(bs: seq<byte>): Option<char>
    requires bs != [] && Width(bs[0]) <= |bs|
  {
    match Width(bs[0])
    case 1 => Scalar(bs[0])
    case 2 => Scalar(Lead(bs, 0xC0) * 0x40 + Tail(bs, 1))
    case 3 => Scalar(Lead(bs, 0xE0) * 0x1000 + Tail(bs, 1) * 0x40 + Tail(bs, 2))
    case _ => Scalar(Lead(bs, 0xF0) * 0x4_0000 + Tail(bs, 1) * 0x1000 + Tail(bs, 2) * 0x40 + Tail(bs, 3))
  }

  function Lead(bs: seq<byte>, mark: int): int
    requires bs != []
  {
    var b: int := bs[0]; b - mark
  }

  function Tail(bs: seq<byte>, i: nat): int
    requires i < |bs|
  {
    var b: int := bs[i]; b - 0x80
  }

  function FromUtf8(bs: seq<byte>): Option<string> {
    if bs == [] then Some([])
    else if Width(bs[0]) > |bs| then None
    else
      match (ReadChar(bs), FromUtf8(bs[Width(bs[0])..]))
      case (Some(c), Some(rest)) => Some([c] + rest)
      case _ => None
  }

  lemma SixBits(p: nat)
    ensures p == p / 0x40 * 0x40 + p % 0x40
    ensures p / 0x40 == p / 0x1000 * 0x40 + p / 0x40 % 0x40
    ensures p / 0x1000 == p / 0x4_0000 * 0x40 + p / 0x1000 % 0x40
  {
  }

  lemma CharRoundTrip(c: char, rest: seq<byte>)
    ensures var bs := Utf8Char(c) + rest;
            Width(bs[0]) == |Utf8Char(c)| && ReadChar(bs) == Some(c) && bs[Width(bs[0])..] == rest
  {
    var p := c as int;
    var bs := Utf8Char(c) + rest;
    assert Scalar(p) == Some(c);
    SixBits(p);
    assert bs[|Utf8Char(c)|..] == rest;
  }

  lemma {:induction false} Utf8RoundTrip(s: string)
    ensures FromUtf8(Utf8(s)) == Some(s)
  {
    if s != [] {
      CharRoundTrip(s[0], Utf8(s[1..]));
      Utf8RoundTrip(s[1..]);
      assert s == [s[0]] + s[1..];
    }
  }

  lemma {:induction false} Utf8Append(a: string, b: string)
    ensures Utf8(a + b) == Utf8(a) + Utf8(b)
  {
    if a == [] {
      assert a + b == b;
    } else {
      assert (a + b)[1..] == a[1..] + b;
      Utf8Append(a[1..], b);
    }
  }

  lemma {:induction false} Utf8AsciiLength(s: string)
    requires forall c | c in s :: c as int < 0x80
    ensures |Utf8(s)| == |s|
  {
    if s != [] {
      assert s[0] in s && forall c | c in s[1..] :: c in s;
      Utf8AsciiLength(s[1..]);
    }
  }

  /** An ASCII byte appears in the encoding only for its own character. */
  lemma {:induction false} Utf8Ascii(s: string, c: char)
    requires c as int < 0x80 && c !in s
    ensures c as int !in Utf8(s)
  {
    if s != [] {
      assert s == [s[0]] + s[1..];
      Utf8Ascii(s[1..], c);
    }
  }

  // ------------------------------------------------------------- splitting

  /** The parts of `s` between separators, as `str::split` gives them: never none. */
  function Split<T(==)>(s: seq<T>, sep: T): (parts: seq<seq<T>>)
    ensures |parts| >= 1
  {
    if s == [] then [[]]
    else
      var rest := Split(s[1..], sep);
      if s[0] == sep then [[]] + rest else [[s[0]] + rest[0]] + rest[1..]
  }

  function Join<T>(parts: seq<seq<T>>, sep: T): seq<T> {
    if parts == [] then []
    else if |parts| == 1 then parts[0]
    else parts[0] + [sep] + Join(parts[1..], sep)
  }

  lemma JoinCons<T>(first: seq<T>, rest: seq<seq<T>>, sep: T)
    ensures Join([first] + rest, sep) == first + if rest == [] then [] else [sep] + Join(rest, sep)
  {
    assert ([first] + rest)[1..] == rest;
    if rest == [] {
      assert first + [] == first;
    } else {
      assert first + [sep] + Join(rest, sep) == first + ([sep] + Join(rest, sep));
    }
  }

  lemma JoinFirst<T>(c: T, rest: seq<seq<T>>, sep: T)
    requires rest != []
    ensures Join([[]] + rest, sep) == [sep] + Join(rest, sep)
    ensures Join([[c] + rest[0]] + rest[1..], sep) == [c] + Join(rest, sep)
  {
    hide Join;
    JoinCons([], rest, sep);
    JoinCons([c] + rest[0], rest[1..], sep);
    JoinCons(rest[0], rest[1..], sep);
    assert rest == [rest[0]] + rest[1..];
    assert [] + ([sep] + Join(rest, sep)) == [sep] + Join(rest, sep);
  }

  lemma {:induction false} SplitParts<T>(s: seq<T>, sep: T)
    ensures Join(Split(s, sep), sep) == s
    ensures forall p | p in Split(s, sep) :: sep !in p
  {
    if s != [] {
      var rest := Split(s[1..], sep);
      SplitParts(s[1..], sep);
      JoinFirst(s[0], rest, sep);
      hide Join;
      assert rest[0] in rest;
      assert s == [s[0]] + s[1..];
    }
  }

  lemma {:induction false} SplitNone<T>(s: seq<T>, sep: T)
    requires sep !in s
    ensures Split(s, sep) == [s]
  {
    if s != [] {
      SplitNone(s[1..], sep);
      assert s == [s[0]] + s[1..];
    }
  }

  lemma {:induction false} SplitFirst<T>(p: seq<T>, sep: T, rest: seq<T>)
    requires sep !in p
    ensures Split(p + [sep] + rest, sep) == [p] + Split(rest, sep)
  {
    var s := p + [sep] + rest;
    if p == [] {
      assert s[1..] == rest;
    } else {
      assert s[1..] == p[1..] + [sep] + rest;
      SplitFirst(p[1..], sep, rest);
      assert p == [p[0]] + p[1..];
    }
  }

  lemma {:induction false} SplitJoin<T>(parts: seq<seq<T>>, sep: T)
    requires parts != []
    requires forall p | p in parts :: sep !in p
    ensures Split(Join(parts, sep), sep) == parts
  {
    if |parts| == 1 {
      SplitNone(parts[0], sep);
    } else {
      SplitFirst(parts[0], sep, Join(parts[1..], sep));
      SplitJoin(parts[1..], sep);
      assert parts == [parts[0]] + parts[1..];
    }
  }

  lemma Grown<T>(c: T, p: seq<seq<T>>, q: seq<seq<T>>)
    requires p != []
    ensures [[]] + (p + q) == [[]] + p + q
    ensures [[c] + (p + q)[0]] + (p + q)[1..] == [[c] + p[0]] + p[1..] + q
  {
    assert (p + q)[0] == p[0] && (p + q)[1..] == p[1..] + q;
  }

  lemma Shift<T>(a: seq<T>, sep: T, b: seq<T>)
    requires a != []
    ensures a + [sep] + b == [a[0]] + (a[1..] + [sep] + b) && a == [a[0]] + a[1..]
  {
  }

  lemma SplitNothing<T>(sep: T, b: seq<T>)
    ensures Split([] + [sep] + b, sep) == Split([], sep) + Split(b, sep)
  {
    assert [] + [sep] + b == [sep] + b && ([sep] + b)[1..] == b;
  }

  lemma {:induction false} SplitConcat<T>(a: seq<T>, sep: T, b: seq<T>)
    ensures Split(a + [sep] + b, sep) == Split(a, sep) + Split(b, sep)
  {
    hide Split;
    if a == [] {
      SplitNothing(sep, b);
    } else {
      SplitConcat(a[1..], sep, b);
      SplitStep(a[0], a[1..] + [sep] + b, sep);
      SplitStep(a[0], a[1..], sep);
      Shift(a, sep, b);
      Grown(a[0], Split(a[1..], sep), Split(b, sep));
    }
  }

  lemma SplitStep<T>(c: T, s: seq<T>, sep: T)
    ensures Split([c] + s, sep) ==
            if c == sep then [[]] + Split(s, sep) else [[c] + Split(s, sep)[0]] + Split(s, sep)[1..]
  {
    assert ([c] + s)[1..] == s;
  }

  // -------------------------------------------------------------- numerals

  function Digit(d: nat): (c: char)
    requires d < 16
    ensures ' ' < c <= '~' && c != '"' && c != '\\'
  {
    if d < 10 then ('0' as int + d) as char else ('a' as int + d - 10) as char
  }

  function DigitValue(c: char): Option<nat> {
    if '0' <= c <= '9' then Some(c as int - '0' as int)
    else if 'a' <= c <= 'f' then Some(c as int - 'a' as int + 10)
    else None
  }

  /** `n` in base `b`, most significant digit first, as `{}` and `{:x}` print it. */
  function Numeral(n: nat, b: nat): (s: string)
    requires b == 10 || b == 16
    ensures s != [] && forall c | c in s :: ' ' < c <= '~' && c != '"' && c != '\\' && c != '\n'
  {
    if n < b then [Digit(n)] else Numeral(n / b, b) + [Digit(n % b)]
  }

  function Dec(n: nat): string { Numeral(n, 10) }

  /** `s` padded with zeros on the left to `width`, as `{:0width}` prints it. */
  function Pad(s: string, width: nat): (p: string)
    ensures forall c | c in p :: c == '0' || c in s
    ensures |s| <= |p| && width <= |p|
    decreases width - |s|
  {
    if |s| >= width then s else Pad(['0'] + s, width)
  }

  /** The value of a string of base-`b` digits; `None` when it has any other character. */
  function Value(s: string, b: nat): Option<nat>
    requires b == 10 || b == 16
  {
    if s == [] then Some(0)
    else
      var n := |s| - 1;
      match (Value(s[..n], b), DigitValue(s[n]))
      case (Some(v), Some(d)) => if d < b then Some(v * b + d) else None
      case _ => None
  }

  lemma {:induction false} NumeralValue(n: nat, b: nat)
    requires b == 10 || b == 16
    ensures Value(Numeral(n, b), b) == Some(n)
  {
    var s := Numeral(n, b);
    if n < b {
      assert s[..0] == [];
    } else {
      NumeralValue(n / b, b);
      assert s[..|s| - 1] == Numeral(n / b, b);
      assert n / b * b + n % b == n by { if b == 10 {} else {} }
    }
  }

  lemma {:induction false} LeadingZero(s: string, b: nat)
    requires b == 10 || b == 16
    ensures Value(['0'] + s, b) == Value(s, b)
  {
    if s == [] {
      assert (['0'] + s)[..0] == [];
    } else {
      LeadingZero(s[..|s| - 1], b);
      assert (['0'] + s)[..|s|] == ['0'] + s[..|s| - 1];
    }
  }

  lemma {:induction false} PadValue(s: string, width: nat, b: nat)
    requires b == 10 || b == 16
    ensures Value(Pad(s, width), b) == Value(s, b)
    decreases width - |s|
  {
    if |s| < width {
      LeadingZero(s, b);
      PadValue(['0'] + s, width, b);
    }
  }

  predicate IsDigit(c: char, b: nat) {
    match DigitValue(c) case Some(d) => d < b case None => false
  }

  /** The longest prefix of base-`b` digits, and what follows it. */
  function DigitSpan(s: string, b: nat): (r: (string, string))
    ensures s == r.0 + r.1
  {
    if s == [] || !IsDigit(s[0], b) then ([], s)
    else var t := DigitSpan(s[1..], b); ([s[0]] + t.0, t.1)
  }

  lemma {:induction false} NumeralDigits(n: nat, b: nat)
    requires b == 10 || b == 16
    ensures forall c | c in Numeral(n, b) :: IsDigit(c, b)
  {
    if n >= b {
      NumeralDigits(n / b, b);
    }
  }

  lemma {:induction false} SpanExact(d: string, rest: string, b: nat)
    requires forall c | c in d :: IsDigit(c, b)
    requires rest == [] || !IsDigit(rest[0], b)
    ensures DigitSpan(d + rest, b) == (d, rest)
  {
    if d == [] {
      assert d + rest == rest;
    } else {
      assert (d + rest)[1..] == d[1..] + rest;
      SpanExact(d[1..], rest, b);
      assert d == [d[0]] + d[1..];
    }
  }

  /** Reads a decimal number off the front. */
  function ReadDec(s: string): Option<(nat, string)> {
    var (d, rest) := DigitSpan(s, 10);
    if d == [] then None
    else match Value(d, 10) case Some(n) => Some((n, rest)) case None => None
  }

  lemma ReadDecExact(n: nat, rest: string)
    requires rest == [] || !IsDigit(rest[0], 10)
    ensures ReadDec(Dec(n) + rest) == Some((n, rest))
  {
    NumeralDigits(n, 10);
    SpanExact(Dec(n), rest, 10);
    NumeralValue(n, 10);
  }

  // ----------------------------------------------------------------- order

  /** `a` comes before `b` by their scalar values. */
  predicate Less(a: string, b: string) {
    b != [] && (a == [] || a[0] < b[0] || (a[0] == b[0] && Less(a[1..], b[1..])))
  }

  /** `a` comes before `b` byte by byte, a proper prefix first. */
  predicate BytesLess(a: seq<byte>, b: seq<byte>) {
    b != [] && (a == [] || a[0] < b[0] || (a[0] == b[0] && BytesLess(a[1..], b[1..])))
  }

  lemma {:induction false} SamePrefix(p: seq<byte>, a: seq<byte>, b: seq<byte>)
    ensures BytesLess(p + a, p + b) <==> BytesLess(a, b)
  {
    if p == [] {
      assert p + a == a && p + b == b;
    } else {
      assert (p + a)[1..] == p[1..] + a && (p + b)[1..] == p[1..] + b;
      SamePrefix(p[1..], a, b);
    }
  }

  /** Two bytes at the first place where they differ decide. */
  lemma FirstDiffers(a: seq<byte>, b: seq<byte>, i: nat)
    requires i < |a| && i < |b| && a[..i] == b[..i] && a[i] < b[i]
    ensures BytesLess(a, b) && !BytesLess(b, a)
  {
    assert a == a[..i] + a[i..] && b == b[..i] + b[i..];
    SamePrefix(a[..i], a[i..], b[i..]);
    SamePrefix(a[..i], b[i..], a[i..]);
  }

  /** Numbers are ordered by all but their last six bits, and then by those. */
  lemma DigitOrder(p: nat, q: nat)
    requires p < q
    ensures p / 0x40 < q / 0x40 || (p / 0x40 == q / 0x40 && p % 0x40 < q % 0x40)
  {
  }

  lemma ThreeDigits(p: nat, q: nat)
    requires p < q
    ensures p / 0x1000 < q / 0x1000
            || (p / 0x1000 == q / 0x1000
                && (p / 0x40 % 0x40 < q / 0x40 % 0x40
                    || (p / 0x40 % 0x40 == q / 0x40 % 0x40 && p % 0x40 < q % 0x40)))
  {
    DigitOrder(p, q);
    SixBits(p);
    SixBits(q);
    if p / 0x40 < q / 0x40 { DigitOrder(p / 0x40, q / 0x40); }
  }

  lemma FourDigits(p: nat, q: nat)
    requires p < q
    ensures p / 0x4_0000 < q / 0x4_0000
            || (p / 0x4_0000 == q / 0x4_0000
                && (p / 0x1000 % 0x40 < q / 0x1000 % 0x40
                    || (p / 0x1000 % 0x40 == q / 0x1000 % 0x40
                        && (p / 0x40 % 0x40 < q / 0x40 % 0x40
                            || (p / 0x40 % 0x40 == q / 0x40 % 0x40 && p % 0x40 < q % 0x40)))))
  {
    ThreeDigits(p, q);
    SixBits(p);
    SixBits(q);
    if p / 0x1000 < q / 0x1000 { DigitOrder(p / 0x1000, q / 0x1000); }
  }

  lemma LeadRange(c: char)
    ensures var x := Utf8Char(c);
            match |x|
            case 1 => x[0] < 0x80
            case 2 => 0x80 < x[0] < 0xE0
            case 3 => 0xE0 <= x[0] < 0xF0
            case _ => 0xF0 <= x[0]
  {
  }

  lemma WidthOrder(c: char, d: char)
    requires c < d
    ensures |Utf8Char(c)| <= |Utf8Char(d)|
    ensures |Utf8Char(c)| < |Utf8Char(d)| ==> Utf8Char(c)[0] < Utf8Char(d)[0]
  {
    assert |Utf8Char(c)| <= |Utf8Char(d)|;
    hide Utf8Char;
    LeadRange(c);
    LeadRange(d);
  }

  lemma SameWidth(c: char, d: char) returns (i: nat)
    requires c < d && |Utf8Char(c)| == |Utf8Char(d)|
    ensures var (x, y) := (Utf8Char(c), Utf8Char(d)); i < |x| && i < |y| && x[..i] == y[..i] && x[i] < y[i]
  {
    var (x, y) := (Utf8Char(c), Utf8Char(d));
    var (p, q) := (c as int, d as int);
    i := 0;
    match |x| {
      case 1 =>
      case 2 =>
        DigitOrder(p, q);
        i := if x[0] != y[0] then 0 else 1;
      case 3 =>
        ThreeDigits(p, q);
        i := if x[0] != y[0] then 0 else if x[1] != y[1] then 1 else 2;
      case _ =>
        FourDigits(p, q);
        i := if x[0] != y[0] then 0 else if x[1] != y[1] then 1 else if x[2] != y[2] then 2 else 3;
    }
  }

  /** The first byte in which the encodings of two characters differ orders them as the characters. */
  lemma CharOrder(c: char, d: char) returns (i: nat)
    requires c < d
    ensures var (x, y) := (Utf8Char(c), Utf8Char(d)); i < |x| && i < |y| && x[..i] == y[..i] && x[i] < y[i]
  {
    WidthOrder(c, d);
    if |Utf8Char(c)| < |Utf8Char(d)| { i := 0; } else { i := SameWidth(c, d); }
  }

  /** UTF-8 keeps the order of scalar values: `Less` is the order of the bytes. */
  lemma {:induction false} LessIsBytes(a: string, b: string)
    ensures Less(a, b) <==> BytesLess(Utf8(a), Utf8(b))
  {
    if a != [] && b != [] {
      if a[0] == b[0] {
        SamePrefix(Utf8Char(a[0]), Utf8(a[1..]), Utf8(b[1..]));
        LessIsBytes(a[1..], b[1..]);
      } else {
        CharsDecide(a, b);
        CharsDecide(b, a);
      }
    }
  }

  lemma CharsDecide(a: string, b: string)
    requires a != [] && b != []
    ensures a[0] < b[0] ==> BytesLess(Utf8(a), Utf8(b)) && !BytesLess(Utf8(b), Utf8(a))
  {
    if a[0] < b[0] {
      var (x, y) := (Utf8Char(a[0]), Utf8Char(b[0]));
      var i := CharOrder(a[0], b[0]);
      hide BytesLess, Utf8Char;
      assert Utf8(a)[..i] == x[..i] && Utf8(b)[..i] == y[..i];
      FirstDiffers(Utf8(a), Utf8(b), i);
    }
  }

  lemma {:induction false} LessTrans(a: string, b: string, c: string)
    requires Less(a, b) && Less(b, c)
    ensures Less(a, c)
  {
    if a != [] && a[0] == b[0] && b[0] == c[0] {
      LessTrans(a[1..], b[1..], c[1..]);
    }
  }

  lemma {:induction false} LessTotal(a: string, b: string)
    ensures Less(a, b) || a == b || Less(b, a)
    ensures !(Less(a, b) && Less(b, a))
    ensures a == b ==> !Less(a, b)
  {
    if a != [] && b != [] && a[0] == b[0] {
      LessTotal(a[1..], b[1..]);
      assert a == [a[0]] + a[1..] && b == [b[0]] + b[1..];
    }
  }
}
