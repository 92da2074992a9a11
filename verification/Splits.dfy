/** What the stored-command splitter (shell.rs) makes of any command line: quoted parts, escapes, and the blanks
    between words. */
module Splits {
  import opened Text
  import opened Shell

  /** Between double quotes: a character, or any character behind a backslash. */
  datatype Inner = As(c: char) | Behind(c: char)

  datatype Part = Bare(c: char) | Escaped(c: char) | Single(s: string) | Double(inner: seq<Inner>)

  predicate GoodInner(q: Inner) { q.As? ==> q.c != '"' && q.c != '\\' }

  predicate GoodPart(p: Part) {
    match p
    case Bare(c) => c != ' ' && c != '\t' && c != '\'' && c != '"' && c != '\\'
    case Escaped(_) => true
    case Single(s) => '\'' !in s
    case Double(inner) => forall q | q in inner :: GoodInner(q)
  }

  predicate GoodWord(ps: seq<Part>) { ps != [] && forall p | p in ps :: GoodPart(p) }

  function InnerWrite(q: Inner): string { match q case As(c) => [c] case Behind(c) => ['\\', c] }

  function WriteInner(qs: seq<Inner>): string { if qs == [] then [] else InnerWrite(qs[0]) + WriteInner(qs[1..]) }

  function InnerText(qs: seq<Inner>): string { if qs == [] then [] else [qs[0].c] + InnerText(qs[1..]) }

  function PartWrite(p: Part): string {
    match p
    case Bare(c) => [c]
    case Escaped(c) => ['\\', c]
    case Single(s) => ['\''] + s + ['\'']
    case Double(inner) => ['"'] + WriteInner(inner) + ['"']
  }

  function PartText(p: Part): string {
    match p
    case Bare(c) => [c]
    case Escaped(c) => [c]
    case Single(s) => s
    case Double(inner) => InnerText(inner)
  }

  function WriteWord(ps: seq<Part>): string { if ps == [] then [] else PartWrite(ps[0]) + WriteWord(ps[1..]) }

  function WordText(ps: seq<Part>): string { if ps == [] then [] else PartText(ps[0]) + WordText(ps[1..]) }

  lemma {:induction false} SingleRead(s: string, rest: string, cur: string)
    requires '\'' !in s
    ensures Stored(s + (['\''] + rest), Some('\''), cur, true) == Stored(rest, None, cur + s, true)
  {
    var t := s + (['\''] + rest);
    if s == [] {
      assert t == ['\''] + rest && t[1..] == rest && cur + s == cur;
    } else {
      assert s == [s[0]] + s[1..] && t[0] == s[0] && t[1..] == s[1..] + (['\''] + rest);
      SingleRead(s[1..], rest, cur + [s[0]]);
      assert cur + [s[0]] + s[1..] == cur + s;
    }
  }

  lemma {:induction false} DoubleRead(qs: seq<Inner>, rest: string, cur: string)
    requires forall q | q in qs :: GoodInner(q)
    ensures Stored(WriteInner(qs) + (['"'] + rest), Some('"'), cur, true)
            == Stored(rest, None, cur + InnerText(qs), true)
  {
    var t := WriteInner(qs) + (['"'] + rest);
    if qs == [] {
      assert t == ['"'] + rest && t[1..] == rest && cur + [] == cur;
    } else {
      assert qs == [qs[0]] + qs[1..] && qs[0] in qs;
      var more := WriteInner(qs[1..]) + (['"'] + rest);
      DoubleRead(qs[1..], rest, cur + [qs[0].c]);
      assert cur + [qs[0].c] + InnerText(qs[1..]) == cur + InnerText(qs);
      match qs[0] {
        case As(c) => assert t[0] == c && t[1..] == more;
        case Behind(c) => assert t[0] == '\\' && t[1..][0] == c && t[1..][1..] == more;
      }
    }
  }

  lemma QuoteOpens(q: char, t: string, cur: string, started: bool)
    requires q == '\'' || q == '"'
    ensures Stored([q] + t, None, cur, started) == Stored(t, Some(q), cur, true)
  {
    assert ([q] + t)[0] == q && ([q] + t)[1..] == t;
  }

  lemma CharRead(c: char, escaped: bool, rest: string, cur: string, started: bool)
    requires escaped || GoodPart(Bare(c))
    ensures Stored((if escaped then ['\\', c] else [c]) + rest, None, cur, started)
            == Stored(rest, None, cur + [c], true)
  {
    var t := (if escaped then ['\\', c] else [c]) + rest;
    if escaped {
      assert t[0] == '\\' && t[1..][0] == c && t[1..][1..] == rest;
    } else {
      assert t[0] == c && t[1..] == rest;
    }
  }

  lemma PartRead(p: Part, rest: string, cur: string, started: bool)
    requires GoodPart(p)
    ensures Stored(PartWrite(p) + rest, None, cur, started) == Stored(rest, None, cur + PartText(p), true)
  {
    hide Stored, WriteInner, InnerText, GoodInner;
    match p {
      case Bare(c) => CharRead(c, false, rest, cur, started);
      case Escaped(c) => CharRead(c, true, rest, cur, started);
      case Single(s) =>
        assert PartWrite(p) + rest == ['\''] + (s + (['\''] + rest));
        QuoteOpens('\'', s + (['\''] + rest), cur, started);
        SingleRead(s, rest, cur);
      case Double(qs) =>
        assert PartWrite(p) + rest == ['"'] + (WriteInner(qs) + (['"'] + rest));
        QuoteOpens('"', WriteInner(qs) + (['"'] + rest), cur, started);
        DoubleRead(qs, rest, cur);
    }
  }

  lemma {:induction false} PartsRead(ps: seq<Part>, rest: string, cur: string, started: bool)
    requires forall p | p in ps :: GoodPart(p)
    ensures Stored(WriteWord(ps) + rest, None, cur, started)
            == Stored(rest, None, cur + WordText(ps), started || ps != [])
  {
    hide Stored, PartWrite, PartText, GoodPart;
    if ps == [] {
      assert WriteWord(ps) + rest == rest && cur + [] == cur;
    } else {
      assert ps == [ps[0]] + ps[1..] && ps[0] in ps;
      assert WriteWord(ps) + rest == PartWrite(ps[0]) + (WriteWord(ps[1..]) + rest);
      PartRead(ps[0], WriteWord(ps[1..]) + rest, cur, started);
      PartsRead(ps[1..], rest, cur + PartText(ps[0]), true);
      assert cur + PartText(ps[0]) + WordText(ps[1..]) == cur + WordText(ps);
    }
  }

  /** A word with an ending: the blank after it, and how many more. */
  datatype Spaced = Spaced(word: seq<Part>, blank: char)

  function WriteLine(ws: seq<Spaced>): string {
    if ws == [] then [] else WriteWord(ws[0].word) + [ws[0].blank] + WriteLine(ws[1..])
  }

  function LineText(ws: seq<Spaced>): seq<string> {
    if ws == [] then [] else [WordText(ws[0].word)] + LineText(ws[1..])
  }

  predicate GoodLine(ws: seq<Spaced>) {
    forall w | w in ws :: GoodWord(w.word) && (w.blank == ' ' || w.blank == '\t')
  }

  lemma BlankEnds(blank: char, rest: string, cur: string)
    requires blank == ' ' || blank == '\t'
    ensures Stored([blank] + rest, None, cur, true) == [cur] + Stored(rest, None, [], false)
    ensures Stored([blank] + rest, None, [], false) == Stored(rest, None, [], false)
    ensures Stored([], None, cur, true) == [cur] && Stored([], None, [], false) == []
  {
    assert ([blank] + rest)[0] == blank && ([blank] + rest)[1..] == rest;
  }

  lemma {:induction false} LineRead(ws: seq<Spaced>)
    requires GoodLine(ws)
    ensures Stored(WriteLine(ws), None, [], false) == LineText(ws)
  {
    hide Stored, WriteWord, WordText, GoodWord;
    if ws == [] {
      BlankEnds(' ', [], []);
    } else {
      assert ws == [ws[0]] + ws[1..] && ws[0] in ws;
      var rest := WriteLine(ws[1..]);
      assert WriteLine(ws) == WriteWord(ws[0].word) + ([ws[0].blank] + rest);
      WordIs(ws[0].word, [ws[0].blank] + rest);
      BlankEnds(ws[0].blank, rest, WordText(ws[0].word));
      assert forall w | w in ws[1..] :: w in ws;
      LineRead(ws[1..]);
    }
  }

  lemma WordIs(ps: seq<Part>, rest: string)
    requires GoodWord(ps)
    ensures Stored(WriteWord(ps) + rest, None, [], false) == Stored(rest, None, WordText(ps), true)
  {
    PartsRead(ps, rest, [], false);
    assert [] + WordText(ps) == WordText(ps);
  }

  predicate Unquoted(ws: seq<Spaced>) { forall w, p | w in ws && p in w.word :: p.Bare? && p.c != '\n' }

  lemma FirstLineIs(s: string, more: string)
    requires '\n' !in s && (more == [] || more[0] == '\n')
    ensures FirstLine(s + more) == s
  {
    if more == [] {
      assert s + more == s;
      SplitNone(s, '\n');
    } else {
      assert s + more == s + ['\n'] + more[1..];
      SplitFirst(s, '\n', more[1..]);
    }
  }

  lemma {:induction false} LineClean(ws: seq<Spaced>)
    requires GoodLine(ws) && Unquoted(ws)
    ensures forall c | c in WriteLine(ws) :: c != '\\' && c != '\'' && c != '"' && c != '\n'
  {
    if ws != [] {
      assert ws == [ws[0]] + ws[1..] && ws[0] in ws;
      WordClean(ws[0].word);
      LineClean(ws[1..]);
    }
  }

  lemma {:induction false} WordClean(ps: seq<Part>)
    requires forall p | p in ps :: GoodPart(p) && p.Bare? && p.c != '\n'
    ensures forall c | c in WriteWord(ps) :: c != '\\' && c != '\'' && c != '"' && c != '\n' && c != ' ' && c != '\t'
    ensures WriteWord(ps) == WordText(ps)
  {
    if ps != [] {
      assert ps == [ps[0]] + ps[1..] && ps[0] in ps;
      WordClean(ps[1..]);
    }
  }

  lemma {:induction false} BlankLine(ws: seq<Spaced>)
    requires GoodLine(ws) && Unquoted(ws)
    ensures Blank(WriteLine(ws), []) == LineText(ws)
  {
    if ws != [] {
      assert ws == [ws[0]] + ws[1..] && ws[0] in ws;
      var (w, rest) := (WriteWord(ws[0].word), WriteLine(ws[1..]));
      WordClean(ws[0].word);
      BlankLine(ws[1..]);
      assert WriteLine(ws) == w + ([ws[0].blank] + rest);
      BlankWord(w, [ws[0].blank] + rest, []);
      assert [] + w == w && ([ws[0].blank] + rest)[1..] == rest;
      assert w != [] by { assert PartWrite(ws[0].word[0]) != []; }
    }
  }

  lemma {:induction false} BlankWord(w: string, rest: string, cur: string)
    requires forall c | c in w :: c != ' ' && c != '\t'
    ensures Blank(w + rest, cur) == Blank(rest, cur + w)
  {
    if w == [] {
      assert w + rest == rest && cur + w == cur;
    } else {
      assert forall c | c in w[1..] :: c in w;
      assert w == [w[0]] + w[1..] && (w + rest)[0] == w[0] && (w + rest)[1..] == w[1..] + rest && w[0] in w;
      BlankWord(w[1..], rest, cur + [w[0]]);
      assert cur + [w[0]] + w[1..] == cur + w;
    }
  }

  lemma {:induction false} BareLine(ws: seq<Spaced>, more: string)
    requires GoodLine(ws) && Unquoted(ws)
    requires more == [] || more[0] == '\n'
    requires '\\' !in more && '\'' !in more && '"' !in more
    ensures SplitStored(WriteLine(ws) + more) == LineText(ws)
  {
    LineClean(ws);
    BlankLine(ws);
    var s := WriteLine(ws) + more;
    assert forall c | c in s :: c in WriteLine(ws) || c in more;
    FirstLineIs(WriteLine(ws), more);
  }

  /** A command line with a quote or a backslash anywhere is split into the words its parts say, whatever way each
      is quoted; of one without any, the first line is split at its blanks. */
  lemma SplitExact(ws: seq<Spaced>, more: string)
    requires GoodLine(ws) && (more == [] || more[0] == '\n')
    ensures var s := WriteLine(ws);
            '\\' in s || '\'' in s || '"' in s ==> SplitStored(s) == LineText(ws)
    ensures Unquoted(ws) && '\\' !in more && '\'' !in more && '"' !in more ==>
              SplitStored(WriteLine(ws) + more) == LineText(ws)
  {
    hide Stored, Blank, WriteWord, WordText, GoodWord;
    LineRead(ws);
    if Unquoted(ws) && '\\' !in more && '\'' !in more && '"' !in more { BareLine(ws, more); }
  }

  // ------------------------------------------------------- when a word needs no quoting

  predicate SafeChar(c: char) { IsAlpha(c) || '0' <= c <= '9' || c in "%+-./:=@_" }

  /** What bash reads as it stands: a `#` only starts a comment at the front of a word, and a `~` only stands for
      a directory there or behind `=` or `:`. */
  predicate SafeAt(w: string, i: nat)
    requires i < |w|
  {
    || SafeChar(w[i])
    || (w[i] == '#' && i > 0)
    || (w[i] == '~' && i > 0 && w[i - 1] != '=' && w[i - 1] != ':')
  }

  predicate Safe(w: string) { w != [] && forall i | 0 <= i < |w| :: SafeAt(w, i) }

  predicate Printable(w: string) { forall c | c in w :: 0x20 <= c as int < 0x7f }

  lemma {:induction false} BodiesGrow(w: string)
    ensures |SingleBody(w)| >= |w| && |AnsiBody(w)| >= |w|
  {
    if w != [] { BodiesGrow(w[1..]); }
  }

  lemma {:induction false} BackslashedFrom(w: string, i: nat)
    requires i <= |w| && Printable(w)
    ensures var r := Backslashed(w[i..], if i == 0 then None else Some(w[i - 1]));
            && |r| >= |w| - i
            && (|r| == |w| - i <==> forall j | i <= j < |w| :: SafeAt(w, j))
            && (|r| == |w| - i ==> r == w[i..])
    decreases |w| - i
  {
    if i < |w| {
      BackslashedFrom(w, i + 1);
      NextChar(w, i, if i == 0 then None else Some(w[i - 1]));
      SafeIsPlain(w, i);
      assert w[i..] == [w[i]] + w[i + 1..];
      hide Backslashed, Shell.Escaped, SafeAt;
      assert (forall j | i <= j < |w| :: SafeAt(w, j)) <==> SafeAt(w, i) && forall j | i + 1 <= j < |w| :: SafeAt(w, j);
    }
  }

  lemma SafeIsPlain(w: string, i: nat)
    requires i < |w| && Printable(w)
    ensures SafeAt(w, i) <==> !Shell.Escaped(w[i], if i == 0 then None else Some(w[i - 1]))
  {
    assert w[i] in w;
  }

  /** A word is left as it is exactly when bash would read it as it stands. */
  lemma PlainExact(w: string)
    ensures QuoteWord(w) == w <==> Safe(w)
  {
    hide Backslashed, SingleBody, AnsiBody, SafeAt;
    BodiesGrow(w);
    if w != [] && IsAscii(w) && !HasControl(w) {
      BackslashedFrom(w, 0);
      assert w[0..] == w;
    } else if w != [] {
      NotSafe(w);
    }
  }

  lemma NotSafe(w: string)
    requires !IsAscii(w) || HasControl(w)
    ensures !Safe(w)
  {
    var c :| c in w && (c as int >= 0x7f || c as int < 0x20);
    var i :| 0 <= i < |w| && w[i] == c;
    assert !SafeAt(w, i);
  }
}
