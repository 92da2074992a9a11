/** What the command reader (execcheck.rs) makes of any command line, whoever wrote it: each way of quoting a part
    of a word, where words end, and what is not judged. */
module Bash {
  import opened Text
  import opened ExecCheck
  import Shell

  /** Between double quotes: a character, one behind a backslash that takes it off, a backslash that stays with
      what follows it, or a line broken and joined again. */
  datatype Inner = As(c: char) | Behind(c: char) | Kept(c: char) | Joined

  /** Between `$'` and `'`: a character, an escape, or one to three octal digits. */
  datatype Ansi = Raw(c: char) | Escape(c: char) | Octal(digits: string)

  /** A part of a word. */
  datatype Part = Bare(c: char) | Escaped(c: char) | Break | Single(s: string) | Double(inner: seq<Inner>)
    | AnsiC(body: seq<Ansi>)

  predicate GoodInner(q: Inner) {
    match q
    case As(c) => c != '"' && c != '\\' && c != '$' && c != '`'
    case Behind(c) => c == '"' || c == '\\' || c == '$' || c == '`'
    case Kept(c) => c != '"' && c != '\\' && c != '$' && c != '`' && c != '\n'
    case Joined => true
  }

  predicate Octals(ds: string) { 1 <= |ds| <= 3 && forall i | 0 <= i < |ds| :: '0' <= ds[i] <= '7' }

  predicate OctalStart(body: seq<Ansi>) { body != [] && body[0].Raw? && '0' <= body[0].c <= '7' }

  /** The digits of a run are all of it: three of them, or no digit after it. */
  predicate GoodBody(body: seq<Ansi>) {
    body == []
    || (GoodBody(body[1..])
        && match body[0]
           case Raw(c) => c != '\'' && c != '\\'
           case Escape(c) => !('0' <= c <= '7')
           case Octal(ds) => Octals(ds) && (|ds| < 3 ==> !OctalStart(body[1..])))
  }

  /** A bare character means itself, but for the first `#` of a word. */
  predicate GoodPart(p: Part, first: bool) {
    match p
    case Bare(c) => c !in " \t'\"\\$`|&;<>()\n*?[" && (first ==> c != '#')
    case Escaped(c) => c != '\n'
    case Break => true
    case Single(s) => '\'' !in s
    case Double(inner) => forall q | q in inner :: GoodInner(q)
    case AnsiC(body) => GoodBody(body)
  }

  predicate GoodWord(ps: seq<Part>, first: bool) {
    ps == [] || (GoodPart(ps[0], first) && GoodWord(ps[1..], false))
  }

  // ------------------------------------------------------------- writing, and meaning

  function InnerWrite(q: Inner): string {
    match q case As(c) => [c] case Behind(c) => ['\\', c] case Kept(c) => ['\\', c] case Joined => ['\\', '\n']
  }

  function InnerText(q: Inner): string {
    match q case As(c) => [c] case Behind(c) => [c] case Kept(c) => ['\\', c] case Joined => []
  }

  function WriteInner(qs: seq<Inner>): string { if qs == [] then [] else InnerWrite(qs[0]) + WriteInner(qs[1..]) }

  function TextInner(qs: seq<Inner>): string { if qs == [] then [] else InnerText(qs[0]) + TextInner(qs[1..]) }

  const ESCAPES: map<char, int> :=
    map['a' := 7, 'b' := 8, 't' := 9, 'n' := 10, 'v' := 11, 'f' := 12, 'r' := 13, 'e' := 27, 'E' := 27]

  function AnsiWrite(a: Ansi): string {
    match a case Raw(c) => [c] case Escape(c) => ['\\', c] case Octal(ds) => ['\\'] + ds
  }

  /** What one to three octal digits stand for. */
  function Digits(ds: string): nat
    requires Octals(ds)
  {
    var d := (i: nat) requires i < |ds| => ds[i] as int - '0' as int;
    if |ds| == 1 then d(0) else if |ds| == 2 then 8 * d(0) + d(1) else 64 * d(0) + 8 * d(1) + d(2)
  }

  function AnsiText(a: Ansi): string {
    match a
    case Raw(c) => [c]
    case Escape(c) => if c in ESCAPES && 0 <= ESCAPES[c] < 0x80 then [ESCAPES[c] as char] else [c]
    case Octal(ds) => if Octals(ds) then [(Digits(ds) % 0x100) as char] else []
  }

  function WriteBody(body: seq<Ansi>): string { if body == [] then [] else AnsiWrite(body[0]) + WriteBody(body[1..]) }

  function TextBody(body: seq<Ansi>): string { if body == [] then [] else AnsiText(body[0]) + TextBody(body[1..]) }

  function PartWrite(p: Part): string {
    match p
    case Bare(c) => [c]
    case Escaped(c) => ['\\', c]
    case Break => ['\\', '\n']
    case Single(s) => ['\''] + s + ['\'']
    case Double(inner) => ['"'] + WriteInner(inner) + ['"']
    case AnsiC(body) => ['$', '\''] + WriteBody(body) + ['\'']
  }

  function PartText(p: Part): string {
    match p
    case Bare(c) => [c]
    case Escaped(c) => [c]
    case Break => []
    case Single(s) => s
    case Double(inner) => TextInner(inner)
    case AnsiC(body) => TextBody(body)
  }

  function WriteWord(ps: seq<Part>): string { if ps == [] then [] else PartWrite(ps[0]) + WriteWord(ps[1..]) }

  function WordText(ps: seq<Part>): string { if ps == [] then [] else PartText(ps[0]) + WordText(ps[1..]) }

  // ---------------------------------------------------------------------- reading it

  lemma Two(c: char, d: char, t: string)
    ensures var s := [c, d] + t; s[0] == c && s[1..] == [d] + t && s[1..][0] == d && s[1..][1..] == t
  {
  }

  lemma InnerStep(q: Inner, rest: string, cur: string)
    requires GoodInner(q)
    ensures Scan(InnerWrite(q) + rest, Mode.Double, cur, true) == Scan(rest, Mode.Double, cur + InnerText(q), true)
  {
    var s := InnerWrite(q) + rest;
    assert Scan(s, Mode.Double, cur, true) == ScanDouble(s, cur, true);
    match q {
      case As(c) => Peel(c, rest);
      case Behind(c) => Two('\\', c, rest);
      case Kept(c) => Two('\\', c, rest);
      case Joined =>
        Two('\\', '\n', rest);
        assert cur + [] == cur;
    }
  }

  lemma {:induction false} InnerRead(qs: seq<Inner>, rest: string, cur: string)
    requires forall q | q in qs :: GoodInner(q)
    ensures Scan(WriteInner(qs) + rest, Mode.Double, cur, true) == Scan(rest, Mode.Double, cur + TextInner(qs), true)
  {
    hide Scan, InnerWrite, InnerText;
    if qs == [] {
      assert WriteInner(qs) + rest == rest && cur + [] == cur;
    } else {
      assert qs == [qs[0]] + qs[1..] && qs[0] in qs;
      assert WriteInner(qs) + rest == InnerWrite(qs[0]) + (WriteInner(qs[1..]) + rest);
      InnerStep(qs[0], WriteInner(qs[1..]) + rest, cur);
      InnerRead(qs[1..], rest, cur + InnerText(qs[0]));
      assert cur + InnerText(qs[0]) + TextInner(qs[1..]) == cur + TextInner(qs);
    }
  }

  lemma RunRead(ds: string, t: string)
    requires Octals(ds) && (|ds| < 3 && t != [] ==> !('0' <= t[0] <= '7'))
    ensures OctalDigit((ds + t)[0]) && OctalRun(ds + t) == (Digits(ds), |ds|)
  {
    var s := ds + t;
    assert forall i | 0 <= i < |ds| :: s[i] == ds[i];
    if |ds| < |s| { assert s[|ds|] == t[0]; }
  }

  lemma AnsiStep(a: Ansi, t: string, cur: string)
    requires match a
             case Raw(c) => c != '\'' && c != '\\'
             case Escape(c) => !('0' <= c <= '7')
             case Octal(ds) => Octals(ds) && (|ds| < 3 && t != [] ==> !('0' <= t[0] <= '7'))
    ensures Scan(AnsiWrite(a) + t, Mode.Ansi, cur, true) == Scan(t, Mode.Ansi, cur + AnsiText(a), true)
  {
    match a {
      case Raw(c) => RawRead(c, t, cur);
      case Escape(c) =>
        EscapeRead(c, t, cur);
        DecodedIs(c);
      case Octal(ds) =>
        var s := ds + t;
        RunRead(ds, t);
        assert ['\\'] + ds + t == ['\\'] + s && s[|ds|..] == t;
        Peel('\\', s);
        assert ScanAnsi(['\\'] + s, cur, true) == Scan(t, Mode.Ansi, cur + [(Digits(ds) % 0x100) as char], true);
    }
  }

  lemma DecodedIs(c: char)
    ensures AnsiText(Escape(c)) == [Decoded(c)]
  {
  }

  lemma BodyStarts(body: seq<Ansi>, rest: string)
    requires GoodBody(body) && !OctalStart(body)
    ensures var t := WriteBody(body) + (['\''] + rest); t != [] && !('0' <= t[0] <= '7')
  {
  }

  lemma {:induction false} BodyRead(body: seq<Ansi>, rest: string, cur: string)
    requires GoodBody(body)
    ensures Scan(WriteBody(body) + (['\''] + rest), Mode.Ansi, cur, true)
            == Scan(rest, Mode.Plain, cur + TextBody(body), true)
  {
    hide Scan, AnsiText;
    if body == [] {
      assert WriteBody(body) + (['\''] + rest) == ['\''] + rest && cur + [] == cur;
      AnsiClose(rest, cur);
    } else {
      var t := WriteBody(body[1..]) + (['\''] + rest);
      if !OctalStart(body[1..]) { BodyStarts(body[1..], rest); }
      AnsiStep(body[0], t, cur);
      assert WriteBody(body) + (['\''] + rest) == AnsiWrite(body[0]) + t;
      BodyRead(body[1..], rest, cur + AnsiText(body[0]));
      assert cur + AnsiText(body[0]) + TextBody(body[1..]) == cur + TextBody(body);
    }
  }

  lemma {:induction false} SingleStep(s: string, rest: string, cur: string)
    requires '\'' !in s
    ensures Scan(s + (['\''] + rest), Mode.Single, cur, true) == Scan(rest, Mode.Plain, cur + s, true)
  {
    if s == [] {
      assert s + (['\''] + rest) == ['\''] + rest && cur + s == cur;
      Peel('\'', rest);
    } else {
      assert s == [s[0]] + s[1..];
      assert s + (['\''] + rest) == [s[0]] + (s[1..] + (['\''] + rest));
      Peel(s[0], s[1..] + (['\''] + rest));
      SingleStep(s[1..], rest, cur + [s[0]]);
      Extend(cur, s);
    }
  }

  lemma CloseDouble(rest: string, cur: string)
    ensures Scan(['"'] + rest, Mode.Double, cur, true) == Scan(rest, Mode.Plain, cur, true)
  {
    Peel('"', rest);
    assert ScanDouble(['"'] + rest, cur, true) == Scan(rest, Mode.Plain, cur, true);
  }

  lemma OpensDouble(t: string, cur: string, started: bool)
    ensures Scan(['"'] + t, Mode.Plain, cur, started) == Scan(t, Mode.Double, cur, true)
  {
    Peel('"', t);
    assert ScanPlain(['"'] + t, cur, started) == Scan(t, Mode.Double, cur, true);
  }

  lemma OpensSingle(t: string, cur: string, started: bool)
    ensures Scan(['\''] + t, Mode.Plain, cur, started) == Scan(t, Mode.Single, cur, true)
  {
    Peel('\'', t);
    assert ScanPlain(['\''] + t, cur, started) == Scan(t, Mode.Single, cur, true);
  }

  lemma OpensAnsi(t: string, cur: string, started: bool)
    ensures Scan(['$', '\''] + t, Mode.Plain, cur, started) == Scan(t, Mode.Ansi, cur, true)
  {
    Two('$', '\'', t);
    assert ScanPlain(['$', '\''] + t, cur, started) == Scan(t, Mode.Ansi, cur, true);
  }

  lemma UnquotedRead(p: Part, rest: string, cur: string, started: bool)
    requires GoodPart(p, !started) && (p.Bare? || p.Escaped? || p.Break?)
    ensures Scan(PartWrite(p) + rest, Mode.Plain, cur, started) == Scan(rest, Mode.Plain, cur + PartText(p), true)
  {
    hide ScanDouble, ScanAnsi;
    var s := PartWrite(p) + rest;
    assert Scan(s, Mode.Plain, cur, started) == ScanPlain(s, cur, started);
    match p {
      case Bare(c) => Peel(c, rest);
      case Escaped(c) => Two('\\', c, rest);
      case Break =>
        Two('\\', '\n', rest);
        assert cur + [] == cur;
    }
  }

  lemma PartRead(p: Part, rest: string, cur: string, started: bool)
    requires GoodPart(p, !started)
    ensures Scan(PartWrite(p) + rest, Mode.Plain, cur, started) == Scan(rest, Mode.Plain, cur + PartText(p), true)
  {
    hide Scan, WriteInner, TextInner, WriteBody, TextBody, GoodBody, GoodInner;
    match p {
      case Single(w) =>
        assert PartWrite(p) + rest == ['\''] + (w + (['\''] + rest));
        OpensSingle(w + (['\''] + rest), cur, started);
        SingleStep(w, rest, cur);
      case Double(qs) =>
        assert PartWrite(p) + rest == ['"'] + (WriteInner(qs) + (['"'] + rest));
        OpensDouble(WriteInner(qs) + (['"'] + rest), cur, started);
        InnerRead(qs, ['"'] + rest, cur);
        CloseDouble(rest, cur + TextInner(qs));
      case AnsiC(body) =>
        assert PartWrite(p) + rest == ['$', '\''] + (WriteBody(body) + (['\''] + rest));
        OpensAnsi(WriteBody(body) + (['\''] + rest), cur, started);
        BodyRead(body, rest, cur);
      case _ => UnquotedRead(p, rest, cur, started);
    }
  }

  lemma {:induction false} PartsRead(ps: seq<Part>, rest: string, cur: string, started: bool)
    requires GoodWord(ps, !started)
    ensures Scan(WriteWord(ps) + rest, Mode.Plain, cur, started)
            == Scan(rest, Mode.Plain, cur + WordText(ps), started || ps != [])
  {
    hide Scan, PartWrite, PartText, GoodPart;
    if ps == [] {
      assert WriteWord(ps) + rest == rest && cur + [] == cur;
    } else {
      assert WriteWord(ps) + rest == PartWrite(ps[0]) + (WriteWord(ps[1..]) + rest);
      PartRead(ps[0], WriteWord(ps[1..]) + rest, cur, started);
      PartsRead(ps[1..], rest, cur + PartText(ps[0]), true);
      assert cur + PartText(ps[0]) + WordText(ps[1..]) == cur + WordText(ps);
    }
  }

  /** A word is what its parts say, ends at a blank, and the blanks before it are skipped; a `#` where a word would
      start ends the command, and a `[` alone is a word. */
  lemma WordRead(ps: seq<Part>, blank: char, rest: string)
    requires ps != [] && GoodWord(ps, true) && (blank == ' ' || blank == '\t')
    ensures ReadWords([blank] + rest) == ReadWords(rest)
    ensures ReadWords(WriteWord(ps) + ([blank] + rest)) == Prepend([WordText(ps)], ReadWords(rest))
    ensures ReadWords(WriteWord(ps)) == Words([WordText(ps)]) && ReadWords([]) == Words([])
    ensures ReadWords(['#'] + rest) == Words([])
    ensures ReadWords(['[', blank] + rest) == Prepend(["["], ReadWords(rest)) && ReadWords(['[']) == Words(["["])
  {
    PartsRead(ps, [blank] + rest, [], false);
    PartsRead(ps, [], [], false);
    assert WriteWord(ps) + [] == WriteWord(ps) && [] + WordText(ps) == WordText(ps);
    Blanks(blank, rest, WordText(ps));
    hide Scan;
    Marks(blank, rest);
  }

  lemma Blanks(blank: char, rest: string, cur: string)
    requires blank == ' ' || blank == '\t'
    ensures ReadWords([blank] + rest) == ReadWords(rest) && ReadWords([]) == Words([])
    ensures Scan([blank] + rest, Mode.Plain, cur, true) == Prepend([cur], ReadWords(rest))
    ensures Scan([], Mode.Plain, cur, true) == Words([cur])
  {
    Peel(blank, rest);
    assert ScanPlain([blank] + rest, cur, true) == Prepend([cur], Scan(rest, Mode.Plain, [], false));
    assert ScanPlain([blank] + rest, [], false) == Scan(rest, Mode.Plain, [], false);
  }

  lemma Marks(blank: char, rest: string)
    requires blank == ' ' || blank == '\t'
    ensures ReadWords(['#'] + rest) == Words([])
    ensures ReadWords(['[', blank] + rest) == Prepend(["["], ReadWords(rest)) && ReadWords(['[']) == Words(["["])
  {
    Peel('#', rest);
    assert ScanPlain(['#'] + rest, [], false) == Words([]);
    Two('[', blank, rest);
    Blanks(blank, rest, ['[']);
    assert [] + ['['] == ['['];
    assert ScanPlain(['[', blank] + rest, [], false) == Scan([blank] + rest, Mode.Plain, ['['], true);
    assert ScanPlain(['['], [], false) == Scan([], Mode.Plain, ['['], true) by { assert ['['][1..] == []; }
  }

  /** What bash would act on, outside quotes: `$'` opens a quote and `[` alone is a word, and nothing else of it. */
  predicate Acts(c: char, rest: string, started: bool) {
    || c in "`|&;<>()\n*?"
    || (c == '$' && !(rest != [] && rest[0] == '\''))
    || (c == '[' && (started || (rest != [] && rest[0] != ' ' && rest[0] != '\t')))
  }

  /** Whatever stands before it, such a character outside quotes makes a command that is never plain words; nor is
      one with an expansion between double quotes, or with a quote left open. */
  lemma NeverWords(words: seq<seq<Part>>, ps: seq<Part>, c: char, rest: string, inner: seq<Inner>)
    requires (forall w | w in words :: w != [] && GoodWord(w, true)) && GoodWord(ps, true)
    requires (forall q | q in inner :: GoodInner(q))
    ensures Acts(c, rest, ps != []) ==> !ReadWords(Line(words) + (WriteWord(ps) + ([c] + rest))).Words?
    ensures c == '$' || c == '`' ==>
              !ReadWords(Line(words) + (WriteWord(ps) + (['"'] + (WriteInner(inner) + ([c] + rest))))).Words?
    ensures !ReadWords(Line(words) + (WriteWord(ps) + (['"'] + WriteInner(inner)))).Words?
    ensures '\'' !in rest ==> !ReadWords(Line(words) + (WriteWord(ps) + (['\''] + rest))).Words?
  {
    hide Scan, Acts;
    var text := [] + WordText(ps);
    LineRead(words, WriteWord(ps) + ([c] + rest));
    LineRead(words, WriteWord(ps) + (['"'] + (WriteInner(inner) + ([c] + rest))));
    LineRead(words, WriteWord(ps) + (['"'] + WriteInner(inner)));
    LineRead(words, WriteWord(ps) + (['\''] + rest));
    PartsRead(ps, [c] + rest, [], false);
    PartsRead(ps, ['"'] + (WriteInner(inner) + ([c] + rest)), [], false);
    PartsRead(ps, ['"'] + WriteInner(inner), [], false);
    PartsRead(ps, ['\''] + rest, [], false);
    if Acts(c, rest, ps != []) { ActsStops(c, rest, text, ps != []); }
    OpensDouble(WriteInner(inner) + ([c] + rest), text, ps != []);
    OpensDouble(WriteInner(inner), text, ps != []);
    InnerRead(inner, [c] + rest, text);
    InnerRead(inner, [], text);
    assert WriteInner(inner) + [] == WriteInner(inner);
    DoubleStops(c, rest, text + TextInner(inner));
    if '\'' !in rest { SingleStops(rest, text, ps != []); }
  }

  /** Words, each with a space after it. */
  function Line(words: seq<seq<Part>>): string {
    if words == [] then [] else WriteWord(words[0]) + [' '] + Line(words[1..])
  }

  lemma {:induction false} LineRead(words: seq<seq<Part>>, rest: string)
    requires forall w | w in words :: w != [] && GoodWord(w, true)
    ensures ReadWords(Line(words) + rest).Words? <==> ReadWords(rest).Words?
    decreases |words|
  {
    hide ReadWords, GoodWord, WriteWord;
    if words == [] {
      assert Line(words) + rest == rest;
    } else {
      assert words == [words[0]] + words[1..] && words[0] in words;
      assert forall w | w in words[1..] :: w in words;
      LineRead(words[1..], rest);
      WordRead(words[0], ' ', Line(words[1..]) + rest);
      assert Line(words) + rest == WriteWord(words[0]) + ([' '] + (Line(words[1..]) + rest));
    }
  }

  lemma ActsStops(c: char, rest: string, cur: string, started: bool)
    requires Acts(c, rest, started)
    ensures Scan([c] + rest, Mode.Plain, cur, started) == Unmodelled
  {
    Peel(c, rest);
    assert c in Operators();
    assert ScanPlain([c] + rest, cur, started) == Unmodelled;
  }

  lemma DoubleStops(c: char, rest: string, cur: string)
    ensures Scan([], Mode.Double, cur, true) == Unterminated
    ensures c == '$' || c == '`' ==> Scan([c] + rest, Mode.Double, cur, true) == Unmodelled
  {
    Peel(c, rest);
    if c == '$' || c == '`' { assert ScanDouble([c] + rest, cur, true) == Unmodelled; }
  }

  lemma SingleStops(t: string, cur: string, started: bool)
    requires '\'' !in t
    ensures Scan(['\''] + t, Mode.Plain, cur, started) == Unterminated
  {
    OpensSingle(t, cur, started);
    NeverClosed(t, cur);
  }

  lemma {:induction false} NeverClosed(t: string, cur: string)
    requires '\'' !in t
    ensures Scan(t, Mode.Single, cur, true) == Unterminated
  {
    if t != [] {
      assert t == [t[0]] + t[1..];
      NeverClosed(t[1..], cur + [t[0]]);
    }
  }

  /** After any quoted command, a separate operator leaves a line that needs bash. */
  lemma OperatorNeedsBash(argv: seq<string>, c: char, rest: string)
    requires argv != [] && Acts(c, rest, false)
    ensures PlainArgv(Shell.QuoteArgv(argv) + ([' ', c] + rest)) == None
  {
    hide Scan, Shell.QuoteArgv;
    QuotedThen(argv, [c] + rest);
    ActsStops(c, rest, [], false);
    assert [' ', c] + rest == [' '] + ([c] + rest);
  }

  lemma {:induction false} QuotedThen(argv: seq<string>, t: string)
    requires argv != []
    ensures ReadWords(Shell.QuoteArgv(argv) + ([' '] + t)) == Prepend(argv, ReadWords(t))
  {
    hide Scan, Shell.QuoteWord;
    if |argv| == 1 {
      ExecCheck.WordRead(argv[0], [' '] + t);
      Space(t, argv[0]);
      assert argv == [argv[0]];
    } else {
      var rest := Shell.QuoteArgv(argv[1..]) + ([' '] + t);
      assert Shell.QuoteArgv(argv) + ([' '] + t) == Shell.QuoteWord(argv[0]) + ([' '] + rest);
      ExecCheck.WordRead(argv[0], [' '] + rest);
      Space(rest, argv[0]);
      QuotedThen(argv[1..], t);
      assert argv == [argv[0]] + argv[1..];
      PrependTwice([argv[0]], argv[1..][0], ReadWords(t));
      if ReadWords(t).Words? { assert [argv[0]] + (argv[1..] + ReadWords(t).words) == argv + ReadWords(t).words; }
    }
  }
}
