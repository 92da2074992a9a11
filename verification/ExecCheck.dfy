/** Reading a command's words as bash would (execcheck.rs), and what quoting guarantees about them. */
module ExecCheck {
  import opened Text
  import opened Shell

  /** Syntax this reader does not model, an unterminated quote, or the words. */
  datatype Read = Unmodelled | Unterminated | Words(words: seq<string>)

  datatype Mode = Plain | Single | Double | Ansi

  function Prepend(out: seq<string>, r: Read): Read { if r.Words? then Words(out + r.words) else r }

  function Operators(): string { "$`|&;<>()\n*?[" }

  predicate OctalDigit(c: char) { '0' <= c <= '7' }

  function OctalValue(c: char): nat
    requires OctalDigit(c)
  {
    c as int - '0' as int
  }

  /** One to three octal digits: their value and how many there are. */
  function OctalRun(s: string): (r: (nat, nat))
    requires s != [] && OctalDigit(s[0])
    ensures 1 <= r.1 <= 3 && r.1 <= |s| && r.0 < 512
  {
    var a := OctalValue(s[0]);
    if |s| < 2 || !OctalDigit(s[1]) then (a, 1)
    else
      var b := a * 8 + OctalValue(s[1]);
      if |s| < 3 || !OctalDigit(s[2]) then (b, 2) else (b * 8 + OctalValue(s[2]), 3)
  }

  /** The character a `$'…'` escape stands for, for all but octal. */
  function Decoded(e: char): char {
    if e == 'a' then 7 as char
    else if e == 'b' then 8 as char
    else if e == 't' then '\t'
    else if e == 'n' then '\n'
    else if e == 'v' then 11 as char
    else if e == 'f' then 12 as char
    else if e == 'r' then '\r'
    else if e == 'e' || e == 'E' then 27 as char
    else e
  }

  /** The rest of the words, in the middle of one (`cur`, once `started`). */
  function Scan(s: string, mode: Mode, cur: string, started: bool): Read
    decreases |s|
  {
    match mode
    case Plain => ScanPlain(s, cur, started)
    case Single =>
      if s == [] then Unterminated
      else if s[0] == '\'' then Scan(s[1..], Plain, cur, started)
      else Scan(s[1..], Single, cur + [s[0]], started)
    case Double => ScanDouble(s, cur, started)
    case Ansi => ScanAnsi(s, cur, started)
  }

  function ScanPlain(s: string, cur: string, started: bool): Read
    decreases |s|, 0
  {
    if s == [] then Words(if started then [cur] else [])
    else
      var (c, t) := (s[0], s[1..]);
      if c == ' ' || c == '\t' then
        if started then Prepend([cur], Scan(t, Plain, [], false)) else Scan(t, Plain, cur, false)
      else if c == '\'' then Scan(t, Single, cur, true)
      else if c == '"' then Scan(t, Double, cur, true)
      else if c == '\\' then
        if t == [] then Unmodelled else Scan(t[1..], Plain, if t[0] == '\n' then cur else cur + [t[0]], true)
      else if c == '$' && t != [] && t[0] == '\'' then Scan(t[1..], Ansi, cur, true)
      else if c in Operators() then
        if c == '[' && !started && (t == [] || t[0] == ' ' || t[0] == '\t') then Scan(t, Plain, cur + [c], true)
        else Unmodelled
      else if c == '#' && !started then Words([])
      else Scan(t, Plain, cur + [c], true)
  }

  function ScanDouble(s: string, cur: string, started: bool): Read
    decreases |s|, 0
  {
    if s == [] then Unterminated
    else
      var (c, t) := (s[0], s[1..]);
      if c == '"' then Scan(t, Plain, cur, started)
      else if c == '\\' then
        if t == [] then Unterminated
        else if t[0] == '$' || t[0] == '`' || t[0] == '"' || t[0] == '\\'
            then Scan(t[1..], Double, cur + [t[0]], started)
        else if t[0] == '\n' then Scan(t[1..], Double, cur, started)
        else Scan(t[1..], Double, cur + ['\\', t[0]], started)
      else if c == '$' || c == '`' then Unmodelled
      else Scan(t, Double, cur + [c], started)
  }

  function ScanAnsi(s: string, cur: string, started: bool): Read
    decreases |s|, 0
  {
    if s == [] then Unterminated
    else
      var (c, t) := (s[0], s[1..]);
      if c == '\'' then Scan(t, Plain, cur, started)
      else if c != '\\' then Scan(t, Ansi, cur + [c], started)
      else if t == [] then Unterminated
      else if OctalDigit(t[0]) then Scan(t[OctalRun(t).1..], Ansi, cur + [(OctalRun(t).0 % 256) as char], started)
      else Scan(t[1..], Ansi, cur + [Decoded(t[0])], started)
  }

  function ReadWords(exec: string): Read { Scan(exec, Plain, [], false) }

  /** The argv a typed command runs when it is plain words; `None` when it needs bash. */
  function PlainArgv(text: string): Option<seq<string>> {
    match ReadWords(text)
    case Words(argv) => if argv == [] || NamesShellSyntax(argv[0]) then None else Some(argv)
    case _ => None
  }

  // ------------------------------------------------------------- the loops that read

  /** The rest of a word inside single quotes: `None` when they are never closed. */
  method ReadSingle(s: string, cur: string) returns (r: Option<(string, string)>)
    ensures r.Some? ==> |r.value.1| < |s|
    ensures Scan(s, Single, cur, true) == if r.Some? then Scan(r.value.1, Plain, r.value.0, true) else Unterminated
  {
    var (it, word) := (s, cur);
    while it != []
      invariant |it| <= |s| && Scan(s, Single, cur, true) == Scan(it, Single, word, true)
      decreases |it|
    {
      var c := it[0];
      it := it[1..];
      if c == '\'' { return Some((word, it)); }
      word := word + [c];
    }
    return None;
  }

  datatype Inside = Closed(word: string, rest: string) | NeverClosed | Expands

  method ReadDouble(s: string, cur: string) returns (r: Inside)
    ensures r.Closed? ==> |r.rest| < |s|
    ensures Scan(s, Double, cur, true) ==
              match r case Closed(w, t) => Scan(t, Plain, w, true) case NeverClosed => Unterminated
                  case Expands => Unmodelled
  {
    var (it, word) := (s, cur);
    while it != []
      invariant |it| <= |s| && Scan(s, Double, cur, true) == Scan(it, Double, word, true)
      decreases |it|
    {
      var c := it[0];
      it := it[1..];
      if c == '"' { return Closed(word, it); }
      if c == '\\' {
        if it == [] { return NeverClosed; }
        var e := it[0];
        it := it[1..];
        if e == '$' || e == '`' || e == '"' || e == '\\' {
          word := word + [e];
        } else if e != '\n' {
          word := word + ['\\', e];
        }
      } else if c == '$' || c == '`' {
        return Expands;
      } else {
        word := word + [c];
      }
    }
    return NeverClosed;
  }

  /** `ansi_c`. */
  method ReadAnsi(s: string, cur: string) returns (r: Option<(string, string)>)
    ensures r.Some? ==> |r.value.1| < |s|
    ensures Scan(s, Ansi, cur, true) == if r.Some? then Scan(r.value.1, Plain, r.value.0, true) else Unterminated
  {
    var (it, word) := (s, cur);
    while it != []
      invariant |it| <= |s| && Scan(s, Ansi, cur, true) == Scan(it, Ansi, word, true)
      decreases |it|
    {
      var c := it[0];
      it := it[1..];
      if c == '\'' { return Some((word, it)); }
      if c == '\\' {
        if it == [] { return None; }
        var e := it[0];
        if OctalDigit(e) {
          ghost var run := OctalRun(it);
          ghost var from := it;
          it := it[1..];
          var n := OctalValue(e);
          var i := 0;
          while i < 2 && it != [] && OctalDigit(it[0])
            invariant i <= 2 && i + 1 <= |from| && it == from[i + 1..]
            invariant i == 0 ==> n == OctalValue(from[0])
            invariant i == 1 ==> OctalDigit(from[1]) && n == OctalValue(from[0]) * 8 + OctalValue(from[1])
            invariant i == 2 ==> OctalDigit(from[1]) && OctalDigit(from[2])
                                 && n == (OctalValue(from[0]) * 8 + OctalValue(from[1])) * 8 + OctalValue(from[2])
          {
            n := n * 8 + OctalValue(it[0]);
            it := it[1..];
            i := i + 1;
          }
          assert run == (n, i + 1);
          word := word + [(n % 256) as char];
        } else {
          it := it[1..];
          word := word + [Decoded(e)];
        }
      } else {
        word := word + [c];
      }
    }
    return None;
  }

  /** `words`. */
  method WordsOf(exec: string) returns (r: Read)
    ensures r == ReadWords(exec)
  {
    hide Operators, ScanDouble, ScanAnsi;
    var out: seq<string> := [];
    var cur: string := [];
    var started := false;
    var it := exec;
    while it != []
      invariant ReadWords(exec) == Prepend(out, Scan(it, Plain, cur, started))
      decreases |it|
    {
      var c := it[0];
      var rest := it[1..];
      if c == ' ' || c == '\t' {
        if started {
          PrependTwice(out, cur, Scan(rest, Plain, [], false));
          out := out + [cur];
          cur := [];
          started := false;
        }
        it := rest;
      } else if c == '\'' {
        var body := ReadSingle(rest, cur);
        if body.None? { return Unterminated; }
        cur, it, started := body.value.0, body.value.1, true;
      } else if c == '"' {
        var body := ReadDouble(rest, cur);
        if body.NeverClosed? { return Unterminated; }
        if body.Expands? { return Unmodelled; }
        cur, it, started := body.word, body.rest, true;
      } else if c == '\\' {
        if rest == [] { return Unmodelled; }
        if rest[0] != '\n' { cur := cur + [rest[0]]; }
        it := rest[1..];
        started := true;
      } else if c == '$' && rest != [] && rest[0] == '\'' {
        var body := ReadAnsi(rest[1..], cur);
        if body.None? { return Unterminated; }
        cur, it, started := body.value.0, body.value.1, true;
      } else if c in Operators() {
        if !(c == '[' && !started && (rest == [] || rest[0] == ' ' || rest[0] == '\t')) { return Unmodelled; }
        cur := cur + [c];
        started := true;
        it := rest;
      } else if c == '#' && !started {
        assert out + [] == out;
        return Words(out);
      } else {
        cur := cur + [c];
        started := true;
        it := rest;
      }
    }
    return Words(if started then out + [cur] else out);
  }

  lemma PrependTwice(out: seq<string>, cur: string, r: Read)
    ensures Prepend(out, Prepend([cur], r)) == Prepend(out + [cur], r)
  {
    if r.Words? { assert out + ([cur] + r.words) == out + [cur] + r.words; }
  }

  // -------------------------------------------------------- quoting is undone exactly

  lemma Peel(c: char, t: string)
    ensures ([c] + t)[0] == c && ([c] + t)[1..] == t
  {
  }

  lemma Extend(cur: string, w: string)
    requires w != []
    ensures cur + [w[0]] + w[1..] == cur + w
  {
  }

  /** `'\''`: out of the quotes, an escaped quote, and back in. */
  lemma QuoteInQuotes(t: string, cur: string)
    ensures Scan(['\'', '\\', '\'', '\''] + t, Single, cur, true) == Scan(t, Single, cur + ['\''], true)
  {
    var d := ['\''] + t;
    var b := ['\''] + d;
    var a := ['\\'] + b;
    var s := ['\''] + a;
    assert ['\'', '\\', '\'', '\''] + t == s;
    Peel('\'', t);
    Peel('\'', d);
    Peel('\\', b);
    Peel('\'', a);
    assert Scan(s, Single, cur, true) == Scan(a, Plain, cur, true) == ScanPlain(a, cur, true);
    assert ScanPlain(a, cur, true) == Scan(d, Plain, cur + ['\''], true) == ScanPlain(d, cur + ['\''], true);
  }

  lemma {:induction false} SingleRead(w: string, rest: string, cur: string)
    ensures Scan(SingleBody(w) + ['\''] + rest, Single, cur, true) == Scan(rest, Plain, cur + w, true)
  {
    if w == [] {
      assert SingleBody(w) + ['\''] + rest == ['\''] + rest && cur + w == cur;
      Peel('\'', rest);
    } else {
      var t := SingleBody(w[1..]) + ['\''] + rest;
      SingleRead(w[1..], rest, cur + [w[0]]);
      Extend(cur, w);
      if w[0] == '\'' {
        assert SingleBody(w) + ['\''] + rest == ['\'', '\\', '\'', '\''] + t;
        QuoteInQuotes(t, cur);
      } else {
        assert SingleBody(w) + ['\''] + rest == [w[0]] + t;
        Peel(w[0], t);
      }
    }
  }

  lemma Tail(w: string)
    requires w != [] && IsAscii(w) && !HasControl(w)
    ensures IsAscii(w[1..]) && !HasControl(w[1..]) && 0x20 <= w[0] as int < 0x7f
  {
    assert w[0] in w && forall c | c in w[1..] :: c in w;
  }

  lemma BackslashChar(c: char, prev: Option<char>, t: string, cur: string, started: bool)
    requires 0x20 <= c as int < 0x7f && (started <==> prev.Some?)
    ensures Scan(Piece(c, prev) + t, Plain, cur, started) == Scan(t, Plain, cur + [c], true)
  {
    Peel(c, t);
    if Escaped(c, prev) {
      assert ['\\', c] + t == ['\\'] + ([c] + t);
      Peel('\\', [c] + t);
      assert ScanPlain(['\\'] + ([c] + t), cur, started) == Scan(t, Plain, cur + [c], true);
    } else {
      assert c !in Operators() && c != '\'' && c != '"' && c != '\\' && c != ' ';
      assert ScanPlain([c] + t, cur, started) == Scan(t, Plain, cur + [c], true);
    }
  }

  lemma {:induction false} BackslashRead(w: string, prev: Option<char>, rest: string, cur: string, started: bool)
    requires IsAscii(w) && !HasControl(w) && (started || w != []) && (started <==> prev.Some?)
    ensures Scan(Backslashed(w, prev) + rest, Plain, cur, started) == Scan(rest, Plain, cur + w, true)
  {
    hide IsAscii, HasControl, Scan;
    if w == [] {
      assert Backslashed(w, prev) + rest == rest && cur + w == cur;
    } else {
      var t := Backslashed(w[1..], Some(w[0])) + rest;
      Tail(w);
      BackslashRead(w[1..], Some(w[0]), rest, cur + [w[0]], true);
      Extend(cur, w);
      BackslashChar(w[0], prev, t, cur, started);
      assert Backslashed(w, prev) + rest == Piece(w[0], prev) + t;
    }
  }

  lemma EscapeRead(e: char, t: string, cur: string)
    requires !OctalDigit(e)
    ensures Scan(['\\', e] + t, Ansi, cur, true) == Scan(t, Ansi, cur + [Decoded(e)], true)
  {
    assert ['\\', e] + t == ['\\'] + ([e] + t);
    Peel('\\', [e] + t);
    Peel(e, t);
    assert ScanAnsi(['\\'] + ([e] + t), cur, true) == Scan(t, Ansi, cur + [Decoded(e)], true);
  }

  lemma OctalRead(b: nat, t: string, cur: string)
    requires b < 0x80
    ensures Scan(['\\', Octal(b / 64 % 8), Octal(b / 8 % 8), Octal(b % 8)] + t, Ansi, cur, true)
            == Scan(t, Ansi, cur + [b as char], true)
  {
    var digits := [Octal(b / 64 % 8), Octal(b / 8 % 8), Octal(b % 8)];
    var s := digits + t;
    assert ['\\', Octal(b / 64 % 8), Octal(b / 8 % 8), Octal(b % 8)] + t == ['\\'] + s;
    Peel('\\', s);
    assert s[0] == digits[0] && s[1] == digits[1] && s[2] == digits[2] && s[3..] == t;
    assert OctalRun(s) == (b, 3);
    assert ScanAnsi(['\\'] + s, cur, true) == Scan(t, Ansi, cur + [b as char], true);
  }

  lemma AnsiCharRead(c: char, t: string, cur: string)
    requires c as int < 0x80
    ensures Scan(AnsiChar(c) + t, Ansi, cur, true) == Scan(t, Ansi, cur + [c], true)
  {
    hide Scan;
    var b := c as int;
    if c == '\\' || c == '\'' || b == 0x1b || 7 <= b <= 13 {
      var e := AnsiChar(c)[1];
      assert AnsiChar(c) == ['\\', e] && !OctalDigit(e) && Decoded(e) == c;
      EscapeRead(e, t, cur);
    } else if 0x20 <= b <= 0x7e {
      RawRead(c, t, cur);
    } else {
      OctalRead(b, t, cur);
    }
  }

  lemma RawRead(c: char, t: string, cur: string)
    requires c != '\\' && c != '\''
    ensures Scan([c] + t, Ansi, cur, true) == Scan(t, Ansi, cur + [c], true)
  {
    Peel(c, t);
    assert ScanAnsi([c] + t, cur, true) == Scan(t, Ansi, cur + [c], true);
  }

  lemma AnsiClose(rest: string, cur: string)
    ensures Scan(['\''] + rest, Ansi, cur, true) == Scan(rest, Plain, cur, true)
  {
    Peel('\'', rest);
    assert ScanAnsi(['\''] + rest, cur, true) == Scan(rest, Plain, cur, true);
  }

  lemma AsciiTail(w: string)
    requires w != [] && IsAscii(w)
    ensures IsAscii(w[1..]) && w[0] as int < 0x80
  {
    assert w[0] in w && forall c | c in w[1..] :: c in w;
  }

  lemma {:induction false} AnsiRead(w: string, rest: string, cur: string)
    requires IsAscii(w)
    ensures Scan(AnsiBody(w) + ['\''] + rest, Ansi, cur, true) == Scan(rest, Plain, cur + w, true)
  {
    hide Scan, AnsiChar, IsAscii;
    if w == [] {
      assert AnsiBody(w) + ['\''] + rest == ['\''] + rest && cur + w == cur;
      AnsiClose(rest, cur);
    } else {
      AsciiTail(w);
      var t := AnsiBody(w[1..]) + ['\''] + rest;
      AnsiRead(w[1..], rest, cur + [w[0]]);
      Extend(cur, w);
      AnsiCharRead(w[0], t, cur);
      assert AnsiBody(w) + ['\''] + rest == AnsiChar(w[0]) + t;
    }
  }

  /** A quoted word is read back as that word, whatever follows it. */
  lemma WordRead(w: string, rest: string)
    ensures Scan(QuoteWord(w) + rest, Plain, [], false) == Scan(rest, Plain, w, true)
  {
    hide Scan, IsAscii, HasControl, SingleBody, AnsiBody, Backslashed;
    assert [] + w == w;
    if w == [] || !IsAscii(w) {
      EmptySingle();
      SingleRead(w, rest, []);
      assert QuoteWord(w) + rest == ['\''] + (SingleBody(w) + ['\''] + rest);
      Open(SingleBody(w) + ['\''] + rest);
    } else if HasControl(w) {
      AnsiRead(w, rest, []);
      assert QuoteWord(w) + rest == ['$', '\''] + (AnsiBody(w) + ['\''] + rest);
      OpenAnsi(AnsiBody(w) + ['\''] + rest);
    } else {
      BackslashRead(w, None, rest, [], false);
    }
  }

  lemma EmptySingle()
    ensures SingleBody([]) == []
  {
  }

  lemma Open(t: string)
    ensures Scan(['\''] + t, Plain, [], false) == Scan(t, Single, [], true)
  {
    Peel('\'', t);
    assert ScanPlain(['\''] + t, [], false) == Scan(t, Single, [], true);
  }

  lemma OpenAnsi(t: string)
    ensures Scan(['$', '\''] + t, Plain, [], false) == Scan(t, Ansi, [], true)
  {
    assert ['$', '\''] + t == ['$'] + (['\''] + t);
    Peel('$', ['\''] + t);
    Peel('\'', t);
    assert ScanPlain(['$'] + (['\''] + t), [], false) == Scan(t, Ansi, [], true);
  }

  lemma Space(t: string, cur: string)
    ensures Scan([' '] + t, Plain, cur, true) == Prepend([cur], Scan(t, Plain, [], false))
    ensures Scan([], Plain, cur, true) == Words([cur])
  {
    Peel(' ', t);
    assert ScanPlain([' '] + t, cur, true) == Prepend([cur], Scan(t, Plain, [], false));
  }

  /** bash reads a quoted command back as exactly its arguments, whatever characters they hold. */
  lemma {:induction false} QuotedArgvReadsBack(argv: seq<string>)
    ensures ReadWords(QuoteArgv(argv)) == Words(argv)
  {
    hide Scan, QuoteWord;
    if argv == [] {
      NothingToRead();
    } else {
      var rest := if |argv| == 1 then [] else [' '] + QuoteArgv(argv[1..]);
      assert QuoteArgv(argv) == QuoteWord(argv[0]) + rest;
      WordRead(argv[0], rest);
      if |argv| == 1 {
        Space([], argv[0]);
        assert argv == [argv[0]];
      } else {
        Space(QuoteArgv(argv[1..]), argv[0]);
        QuotedArgvReadsBack(argv[1..]);
        assert argv == [argv[0]] + argv[1..];
      }
    }
  }

  lemma NothingToRead()
    ensures Scan([], Plain, [], false) == Words([])
  {
  }

  /** A command quoted from an argv runs without a shell exactly when its program is one bash would look up. */
  lemma QuotedIsPlain(argv: seq<string>)
    ensures PlainArgv(QuoteArgv(argv)) == if argv == [] || NamesShellSyntax(argv[0]) then None else Some(argv)
  {
    hide NamesShellSyntax, ReadWords;
    QuotedArgvReadsBack(argv);
  }

  // ------------------------------------------ the simple splitter agrees where it can

  /** The words that quoting writes without `$'…'`. */
  predicate Simple(w: string) { !IsAscii(w) || !HasControl(w) }

  lemma {:induction false} SingleStored(w: string, rest: string, cur: string)
    ensures Stored(SingleBody(w) + ['\''] + rest, Some('\''), cur, true) == Stored(rest, None, cur + w, true)
  {
    if w == [] {
      assert SingleBody(w) + ['\''] + rest == ['\''] + rest && cur + w == cur;
      Peel('\'', rest);
    } else {
      var t := SingleBody(w[1..]) + ['\''] + rest;
      SingleStored(w[1..], rest, cur + [w[0]]);
      Extend(cur, w);
      if w[0] == '\'' {
        assert SingleBody(w) + ['\''] + rest == ['\'', '\\', '\'', '\''] + t;
        QuoteStored(t, cur);
      } else {
        assert SingleBody(w) + ['\''] + rest == [w[0]] + t;
        Peel(w[0], t);
      }
    }
  }

  lemma QuoteStored(t: string, cur: string)
    ensures Stored(['\'', '\\', '\'', '\''] + t, Some('\''), cur, true) == Stored(t, Some('\''), cur + ['\''], true)
  {
    var d := ['\''] + t;
    var b := ['\''] + d;
    var a := ['\\'] + b;
    assert ['\'', '\\', '\'', '\''] + t == ['\''] + a;
    Peel('\'', t);
    Peel('\'', d);
    Peel('\\', b);
    Peel('\'', a);
    assert Stored(['\''] + a, Some('\''), cur, true) == Stored(a, None, cur, true);
    assert Stored(a, None, cur, true) == Stored(d, None, cur + ['\''], true);
  }

  lemma CharStored(c: char, prev: Option<char>, t: string, cur: string, started: bool)
    requires 0x20 <= c as int < 0x7f
    ensures Stored(Piece(c, prev) + t, None, cur, started) == Stored(t, None, cur + [c], true)
  {
    Peel(c, t);
    if Escaped(c, prev) {
      assert ['\\', c] + t == ['\\'] + ([c] + t);
      Peel('\\', [c] + t);
    } else {
      assert c != '\'' && c != '"' && c != '\\' && c != ' ';
    }
  }

  lemma {:induction false} BackslashStored(w: string, prev: Option<char>, rest: string, cur: string, started: bool)
    requires IsAscii(w) && !HasControl(w) && (started || w != [])
    ensures Stored(Backslashed(w, prev) + rest, None, cur, started) == Stored(rest, None, cur + w, true)
  {
    hide IsAscii, HasControl, Stored;
    if w == [] {
      assert Backslashed(w, prev) + rest == rest && cur + w == cur;
    } else {
      var t := Backslashed(w[1..], Some(w[0])) + rest;
      Tail(w);
      BackslashStored(w[1..], Some(w[0]), rest, cur + [w[0]], true);
      Extend(cur, w);
      CharStored(w[0], prev, t, cur, started);
      assert Backslashed(w, prev) + rest == Piece(w[0], prev) + t;
    }
  }

  lemma WordStored(w: string, rest: string)
    requires Simple(w)
    ensures Stored(QuoteWord(w) + rest, None, [], false) == Stored(rest, None, w, true)
  {
    hide IsAscii, HasControl, SingleBody, Backslashed, Stored;
    assert [] + w == w;
    if w == [] || !IsAscii(w) {
      EmptySingle();
      SingleStored(w, rest, []);
      assert QuoteWord(w) + rest == ['\''] + (SingleBody(w) + ['\''] + rest);
      OpenStored(SingleBody(w) + ['\''] + rest);
    } else {
      BackslashStored(w, None, rest, [], false);
    }
  }

  lemma OpenStored(t: string)
    ensures Stored(['\''] + t, None, [], false) == Stored(t, Some('\''), [], true)
  {
    Peel('\'', t);
  }

  lemma SpaceStored(t: string, cur: string)
    ensures Stored([' '] + t, None, cur, true) == [cur] + Stored(t, None, [], false)
    ensures Stored([], None, cur, true) == [cur] && Stored([], None, [], false) == []
  {
    Peel(' ', t);
  }

  lemma {:induction false} StoredArgv(argv: seq<string>)
    requires forall w | w in argv :: Simple(w)
    ensures Stored(QuoteArgv(argv), None, [], false) == argv
  {
    hide Stored, QuoteWord, Simple;
    if argv == [] {
      SpaceStored([], []);
    } else {
      var rest := if |argv| == 1 then [] else [' '] + QuoteArgv(argv[1..]);
      assert QuoteArgv(argv) == QuoteWord(argv[0]) + rest;
      WordStored(argv[0], rest);
      SpaceStored(if |argv| == 1 then [] else QuoteArgv(argv[1..]), argv[0]);
      if |argv| > 1 { StoredArgv(argv[1..]); }
      assert argv == [argv[0]] + argv[1..];
    }
  }

  /** Nothing in it that quoting or the blank-splitter would touch. */
  predicate Bare(w: string) { w != [] && forall c | c in w :: c != ' ' && c != '\t' && c != '\n' }

  lemma {:induction false} BareBackslashed(w: string, prev: Option<char>)
    requires '\\' !in Backslashed(w, prev)
    ensures Backslashed(w, prev) == w && ' ' !in w
  {
    if w != [] {
      var t := Backslashed(w[1..], Some(w[0]));
      assert Backslashed(w, prev) == Piece(w[0], prev) + t;
      assert forall c | c in t :: c in Backslashed(w, prev);
      assert forall c | c in Piece(w[0], prev) :: c in Backslashed(w, prev);
      assert Piece(w[0], prev)[0] in Piece(w[0], prev);
      BareBackslashed(w[1..], Some(w[0]));
      assert w == [w[0]] + w[1..];
    }
  }

  lemma BareWord(w: string)
    requires Simple(w) && '\\' !in QuoteWord(w) && '\'' !in QuoteWord(w)
    ensures QuoteWord(w) == w && Bare(w)
  {
    hide Backslashed, SingleBody, AnsiBody;
    assert QuoteWord(w) != [] ==> QuoteWord(w)[0] in QuoteWord(w);
    BareBackslashed(w, None);
  }

  lemma {:induction false} BlankWord(w: string, rest: string, cur: string)
    requires forall c | c in w :: c != ' ' && c != '\t'
    ensures Blank(w + rest, cur) == Blank(rest, cur + w)
  {
    if w == [] {
      assert w + rest == rest && cur + w == cur;
    } else {
      assert w + rest == [w[0]] + (w[1..] + rest) && w[0] in w;
      Peel(w[0], w[1..] + rest);
      assert forall c | c in w[1..] :: c in w;
      BlankWord(w[1..], rest, cur + [w[0]]);
      Extend(cur, w);
    }
  }

  lemma BlankSpace(t: string, cur: string)
    requires cur != []
    ensures Blank([' '] + t, cur) == [cur] + Blank(t, []) && Blank([], cur) == [cur] && Blank([], []) == []
  {
    Peel(' ', t);
  }

  lemma {:induction false} BlankArgv(argv: seq<string>)
    requires forall w | w in argv :: Simple(w)
    requires '\\' !in QuoteArgv(argv) && '\'' !in QuoteArgv(argv)
    ensures Blank(QuoteArgv(argv), []) == argv && '\n' !in QuoteArgv(argv)
  {
    hide Blank, QuoteWord, Simple;
    if argv == [] {
      BlankSpace([], ['x']);
    } else {
      var s := QuoteArgv(argv);
      var rest := if |argv| == 1 then [] else [' '] + QuoteArgv(argv[1..]);
      assert s == QuoteWord(argv[0]) + rest;
      assert forall c | c in QuoteWord(argv[0]) :: c in s;
      BareWord(argv[0]);
      BlankWord(argv[0], rest, []);
      assert [] + argv[0] == argv[0];
      BlankSpace(if |argv| == 1 then [] else QuoteArgv(argv[1..]), argv[0]);
      if |argv| > 1 {
        assert forall c | c in QuoteArgv(argv[1..]) :: c in rest && c in s;
        BlankArgv(argv[1..]);
      }
      assert argv == [argv[0]] + argv[1..];
    }
  }

  /** A word being read only grows. */
  lemma {:induction false} StoredGrows(s: string, quote: Option<char>, cur: string)
    ensures var r := Stored(s, quote, cur, true); r != [] && cur <= r[0]
    decreases |s|
  {
    if s != [] {
      var (c, t) := (s[0], s[1..]);
      if quote.Some? {
        if c == quote.value {
          StoredGrows(t, None, cur);
        } else if quote == Some('"') && c == '\\' && t != [] {
          StoredGrows(t[1..], quote, cur + [t[0]]);
        } else {
          StoredGrows(t, quote, cur + [c]);
        }
      } else if c == '\\' {
        if t == [] { StoredGrows(t, None, cur); } else { StoredGrows(t[1..], None, cur + [t[0]]); }
      } else if c == '\'' || c == '"' {
        StoredGrows(t, Some(c), cur);
      } else if c != ' ' && c != '\t' {
        StoredGrows(t, None, cur + [c]);
      }
    }
  }

  /** What starts with one dollar more than the word does is not the word. */
  lemma {:induction false} DollarMore(d: string, w: string, rest: string)
    requires forall c | c in d :: c == '$'
    ensures var r := Stored(AnsiBody(w) + rest, Some('\''), d + ['$'], true); r != [] && r[0] != d + w
    decreases w
  {
    var s := AnsiBody(w) + rest;
    StoredGrows(s, Some('\''), d + ['$']);
    var r := Stored(s, Some('\''), d + ['$'], true);
    assert r[0][|d|] == '$';
    if w != [] && w[0] == '$' {
      assert AnsiBody(w) == ['$'] + AnsiBody(w[1..]);
      assert s == ['$'] + (AnsiBody(w[1..]) + rest);
      Peel('$', AnsiBody(w[1..]) + rest);
      assert (d + ['$']) + ['$'] == d + ['$'] + ['$'] && d + w == (d + ['$']) + w[1..];
      DollarMore(d + ['$'], w[1..], rest);
    } else if w != [] {
      assert (d + w)[|d|] == w[0];
    }
  }

  lemma DollarOpens(t: string)
    ensures Stored(['$'] + (['\''] + t), None, [], false) == Stored(t, Some('\''), ['$'], true)
  {
    Peel('$', ['\''] + t);
    Peel('\'', t);
    assert [] + ['$'] == ['$'];
  }

  lemma DollarQuoted(w: string)
    requires !Simple(w)
    ensures QuoteWord(w) == ['$', '\''] + AnsiBody(w) + ['\''] && '\'' in QuoteWord(w)
  {
  }

  /** A word written as `$'…'` is read with a dollar in front of it. */
  lemma DollarStored(w: string, rest: string)
    requires !Simple(w)
    ensures var r := Stored(QuoteWord(w) + rest, None, [], false); r != [] && r[0] != w
  {
    hide AnsiBody, Stored, QuoteWord, Simple;
    DollarQuoted(w);
    var t := AnsiBody(w) + (['\''] + rest);
    assert QuoteWord(w) + rest == ['$'] + (['\''] + t);
    DollarOpens(t);
    assert [] + ['$'] == ['$'] && [] + w == w;
    DollarMore([], w, ['\''] + rest);
  }

  lemma {:induction false} DollarArgv(argv: seq<string>)
    requires exists w | w in argv :: !Simple(w)
    ensures Stored(QuoteArgv(argv), None, [], false) != argv && '\'' in QuoteArgv(argv)
  {
    hide Stored, QuoteWord, Simple;
    var rest := if |argv| == 1 then [] else [' '] + QuoteArgv(argv[1..]);
    assert QuoteArgv(argv) == QuoteWord(argv[0]) + rest;
    if Simple(argv[0]) {
      assert argv == [argv[0]] + argv[1..];
      DollarArgv(argv[1..]);
      WordStored(argv[0], rest);
      SpaceStored(QuoteArgv(argv[1..]), argv[0]);
    } else {
      DollarStored(argv[0], rest);
      DollarQuoted(argv[0]);
    }
  }

  /** The stored-command splitter gives back the same argv exactly for those quoted without `$'…'`. */
  lemma SplitStoredAgrees(argv: seq<string>)
    ensures SplitStored(QuoteArgv(argv)) == argv <==> forall w | w in argv :: Simple(w)
  {
    hide Stored, Blank, QuoteArgv, Simple;
    var s := QuoteArgv(argv);
    if exists w | w in argv :: !Simple(w) {
      DollarArgv(argv);
    } else if '\\' !in s && '\'' !in s && '"' !in s {
      BlankArgv(argv);
      SplitNone(s, '\n');
    } else {
      StoredArgv(argv);
    }
  }
}
