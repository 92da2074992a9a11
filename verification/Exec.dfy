/** The Exec key as the Desktop Entry parser (relaunch-desktop) reads it, whoever wrote it: what each way of
    writing a token means, what the field codes in it expand to, and what is refused. */
module Exec {
  import opened Text
  import opened Desktop

  // ------------------------------------------------------------------ field codes

  /** A token's pieces: a character, an escaped percent, or a field code. */
  datatype Piece = Plain(c: char) | Percent | Code(c: char)

  function PieceText(p: Piece): string {
    match p case Plain(c) => [c] case Percent => ['%', '%'] case Code(c) => ['%', c]
  }

  function WritePieces(ps: seq<Piece>): string { if ps == [] then [] else PieceText(ps[0]) + WritePieces(ps[1..]) }

  /** A code that stands for a file, a link or a deprecated value, all of them absent at login. */
  predicate GoodPiece(p: Piece) {
    match p case Plain(c) => c != '%' case Percent => true case Code(c) => c in "fFuUdDnNvm"
  }

  predicate Good(ps: seq<Piece>) { forall p | p in ps :: GoodPiece(p) }

  function LiteralOf(p: Piece): string { match p case Plain(c) => [c] case Percent => ['%'] case Code(_) => [] }

  /** What is left once the codes are gone. */
  function Literal(ps: seq<Piece>): string {
    if ps == [] then [] else LiteralOf(ps[0]) + Literal(ps[1..])
  }

  predicate HasCode(ps: seq<Piece>) { exists p | p in ps :: p.Code? }

  lemma GoodTail(ps: seq<Piece>)
    requires ps != [] && Good(ps)
    ensures GoodPiece(ps[0]) && Good(ps[1..]) && (HasCode(ps) <==> ps[0].Code? || HasCode(ps[1..]))
  {
    assert ps == [ps[0]] + ps[1..];
  }

  /** `r` with `text` before it. */
  function Before(text: string, coded: bool, r: Outcome<(string, bool)>): Outcome<(string, bool)> {
    match r case Ok(v) => Ok((text + v.0, coded || v.1)) case Err(e) => Err(e)
  }

  lemma PieceExpands(p: Piece, rest: string)
    requires GoodPiece(p)
    ensures Expanded(PieceText(p) + rest) == Before(LiteralOf(p), p.Code?, Expanded(rest))
  {
    var t := PieceText(p) + rest;
    if p.Plain? {
      assert t[0] == p.c && t[1..] == rest;
    } else {
      assert t[0] == '%' && t[1] == (if p.Code? then p.c else '%') && t[2..] == rest;
    }
    if Expanded(rest).Ok? { assert [] + Expanded(rest).value.0 == Expanded(rest).value.0; }
  }

  lemma BeforeTwice(a: string, x: bool, b: string, y: bool, r: Outcome<(string, bool)>)
    ensures Before(a, x, Before(b, y, r)) == Before(a + b, x || y, r)
  {
    if r.Ok? { assert a + (b + r.value.0) == (a + b) + r.value.0; }
  }

  /** Inside a token the codes vanish, `%%` is one percent, and everything else is kept. */
  lemma {:induction false} PiecesExpand(ps: seq<Piece>, rest: string)
    requires Good(ps)
    ensures Expanded(WritePieces(ps) + rest) == Before(Literal(ps), HasCode(ps), Expanded(rest))
  {
    hide Expanded, PieceText;
    if ps == [] {
      assert WritePieces(ps) + rest == rest;
      if Expanded(rest).Ok? { assert [] + Expanded(rest).value.0 == Expanded(rest).value.0; }
    } else {
      hide Good, Before, LiteralOf;
      GoodTail(ps);
      PiecesExpand(ps[1..], rest);
      PieceExpands(ps[0], WritePieces(ps[1..]) + rest);
      assert WritePieces(ps) + rest == PieceText(ps[0]) + (WritePieces(ps[1..]) + rest);
      BeforeTwice(LiteralOf(ps[0]), ps[0].Code?, Literal(ps[1..]), HasCode(ps[1..]), Expanded(rest));
    }
  }

  lemma EmptyExpands()
    ensures Expanded([]) == Ok(([], false))
  {
  }

  /** A token becomes what is left of it, and nothing at all when it was only codes. */
  lemma TokenExpands(ps: seq<Piece>)
    requires Good(ps)
    ensures Expand([WritePieces(ps)]) == Ok(if Literal(ps) == [] && HasCode(ps) then [] else [Literal(ps)])
  {
    PiecesExpand(ps, []);
    EmptyExpands();
    var t := WritePieces(ps);
    assert t + [] == t && Literal(ps) + [] == Literal(ps);
    assert Expanded(t) == Ok((Literal(ps), HasCode(ps)));
    hide Expanded;
    assert [t][1..] == [] && Expand([]) == Ok([]) && [Literal(ps)] + [] == [Literal(ps)];
  }

  /** Any other code, or a percent with nothing after it, refuses the token wherever it stands. */
  lemma TokenRefused(ps: seq<Piece>, c: char, rest: string)
    requires Good(ps) && c != '%' && c !in "fFuUdDnNvm"
    ensures Expanded(WritePieces(ps) + (['%', c] + rest)) == Err(if c in "cik" then UnsupportedCode else InvalidCode)
    ensures Expanded(WritePieces(ps) + ['%']) == Err(TrailingPercent)
  {
    PiecesExpand(ps, ['%', c] + rest);
    PiecesExpand(ps, ['%']);
    var t := ['%', c] + rest;
    assert t[0] == '%' && t[1] == c;
  }

  /** Every token that is accepted is written in such pieces. */
  lemma {:induction false} Pieces(t: string) returns (ps: seq<Piece>)
    ensures Expanded(t).Ok? ==> Good(ps) && WritePieces(ps) == t
    decreases |t|
  {
    ps := [];
    if t != [] && Expanded(t).Ok? {
      var p := if t[0] != '%' then Plain(t[0]) else if t[1] == '%' then Percent else Code(t[1]);
      var rest := t[|PieceText(p)|..];
      assert t == PieceText(p) + rest && GoodPiece(p);
      var more := Pieces(rest);
      ps := [p] + more;
      assert ps[1..] == more;
    }
  }

  lemma {:induction false} ExpandConcat(a: seq<string>, b: seq<string>)
    ensures Expand(a + b) == match Expand(a) case Ok(out) => PrependAll(out, Expand(b)) case Err(e) => Err(e)
  {
    hide Expanded;
    if a == [] {
      assert a + b == b;
      PrependNone(Expand(b));
    } else {
      assert (a + b)[1..] == a[1..] + b;
      ExpandConcat(a[1..], b);
      var e := Expanded(a[0]);
      if e.Ok? && Expand(a[1..]).Ok? && Expand(b).Ok? {
        assert [e.value.0] + (Expand(a[1..]).value + Expand(b).value)
            == [e.value.0] + Expand(a[1..]).value + Expand(b).value;
      }
    }
  }

  /** A token that is only a field code is as if it were not there. */
  lemma CodeGone(a: seq<string>, c: char, b: seq<string>)
    requires c in "fFuUdDnNvm"
    ensures Expand(a + [['%', c]] + b) == Expand(a + b)
  {
    hide Expand;
    assert WritePieces([Code(c)]) == ['%', c] && Literal([Code(c)]) == [] && Code(c) in [Code(c)];
    TokenExpands([Code(c)]);
    ExpandConcat(a, [['%', c]]);
    ExpandConcat(a + [['%', c]], b);
    ExpandConcat(a, b);
    if Expand(a).Ok? { assert Expand(a).value + [] == Expand(a).value; }
  }

  /** Written in good pieces. */
  ghost predicate Written(t: string) { exists ps :: Good(ps) && WritePieces(ps) == t }

  lemma WrittenExact(t: string)
    ensures Expanded(t).Ok? <==> Written(t)
  {
    hide Expanded, WritePieces, Good;
    var ps := Pieces(t);
    EmptyExpands();
    if Written(t) {
      var qs :| Good(qs) && WritePieces(qs) == t;
      PiecesExpand(qs, []);
      assert WritePieces(qs) + [] == t;
    }
  }

  /** A command is accepted exactly when every token is written in good pieces. */
  lemma {:induction false} ExpandAccepts(tokens: seq<string>)
    ensures Expand(tokens).Ok? <==> forall t | t in tokens :: Written(t)
  {
    hide Expanded, Written;
    if tokens != [] {
      assert tokens == [tokens[0]] + tokens[1..];
      ExpandAccepts(tokens[1..]);
      WrittenExact(tokens[0]);
    }
  }

  // ------------------------------------------------------------------ quoting

  /** A character between double quotes: as it is, or behind a backslash. */
  datatype Inner = As(c: char) | Behind(c: char)

  /** A stretch of a token: a bare character, or a stretch between double quotes. */
  datatype Part = Bare(c: char) | Quoted(inner: seq<Inner>)

  predicate GoodInner(i: Inner) {
    match i case As(c) => c != '"' && c != '\\' case Behind(c) => c == '"' || c == '`' || c == '$' || c == '\\'
  }

  predicate GoodPart(p: Part) {
    match p
    case Bare(c) => c != '"' && c != '\\' && c != ' ' && c != '\t' && c != '\n' && c != '\r'
    case Quoted(inner) => forall i | i in inner :: GoodInner(i)
  }

  function WriteInner(qs: seq<Inner>): string {
    if qs == [] then [] else (match qs[0] case As(c) => [c] case Behind(c) => ['\\', c]) + WriteInner(qs[1..])
  }

  function InnerText(qs: seq<Inner>): string { if qs == [] then [] else [qs[0].c] + InnerText(qs[1..]) }

  function PartWrite(p: Part): string {
    match p case Bare(c) => [c] case Quoted(qs) => ['"'] + WriteInner(qs) + ['"']
  }

  function PartText(p: Part): string { match p case Bare(c) => [c] case Quoted(qs) => InnerText(qs) }

  function WriteParts(ps: seq<Part>): string { if ps == [] then [] else PartWrite(ps[0]) + WriteParts(ps[1..]) }

  function PartsText(ps: seq<Part>): string { if ps == [] then [] else PartText(ps[0]) + PartsText(ps[1..]) }

  lemma {:induction false} InnerRead(qs: seq<Inner>, rest: string, cur: string, have: bool)
    requires forall i | i in qs :: GoodInner(i)
    ensures Tokens(WriteInner(qs) + rest, true, cur, have) == Tokens(rest, true, cur + InnerText(qs), have)
  {
    if qs == [] {
      assert WriteInner(qs) + rest == rest && cur + [] == cur;
    } else {
      assert qs == [qs[0]] + qs[1..] && qs[0] in qs;
      var t := WriteInner(qs[1..]) + rest;
      var s := WriteInner(qs) + rest;
      InnerRead(qs[1..], rest, cur + [qs[0].c], have);
      assert cur + [qs[0].c] + InnerText(qs[1..]) == cur + InnerText(qs);
      match qs[0] {
        case As(c) => assert s[0] == c && s[1..] == t;
        case Behind(c) => assert s[0] == '\\' && s[1..][0] == c && s[1..][1..] == t;
      }
    }
  }

  lemma PartRead(p: Part, rest: string, cur: string, have: bool)
    requires GoodPart(p)
    ensures Tokens(PartWrite(p) + rest, false, cur, have) == Tokens(rest, false, cur + PartText(p), true)
  {
    var s := PartWrite(p) + rest;
    match p {
      case Bare(c) => assert s[0] == c && s[1..] == rest;
      case Quoted(qs) =>
        assert s == ['"'] + (WriteInner(qs) + (['"'] + rest));
        assert s[0] == '"' && s[1..] == WriteInner(qs) + (['"'] + rest);
        InnerRead(qs, ['"'] + rest, cur, true);
        assert (['"'] + rest)[0] == '"' && (['"'] + rest)[1..] == rest;
    }
  }

  lemma {:induction false} PartsRead(ps: seq<Part>, rest: string, cur: string, have: bool)
    requires forall p | p in ps :: GoodPart(p)
    ensures Tokens(WriteParts(ps) + rest, false, cur, have)
            == Tokens(rest, false, cur + PartsText(ps), have || ps != [])
  {
    hide Tokens, PartWrite, PartText;
    if ps == [] {
      assert WriteParts(ps) + rest == rest && cur + [] == cur;
    } else {
      assert ps == [ps[0]] + ps[1..] && ps[0] in ps;
      assert WriteParts(ps) + rest == PartWrite(ps[0]) + (WriteParts(ps[1..]) + rest);
      PartRead(ps[0], WriteParts(ps[1..]) + rest, cur, have);
      PartsRead(ps[1..], rest, cur + PartText(ps[0]), true);
      assert cur + PartText(ps[0]) + PartsText(ps[1..]) == cur + PartsText(ps);
    }
  }

  /** Blanks before a token are skipped; a token, quoted here and there or empty between quotes, is what its
      parts say; and the next one starts after a blank. */
  lemma TokenRead(ps: seq<Part>, blank: char, rest: string)
    requires ps != [] && (forall p | p in ps :: GoodPart(p))
    requires blank == ' ' || blank == '\t' || blank == '\n' || blank == '\r'
    ensures Tokens([blank] + rest, false, [], false) == Tokens(rest, false, [], false)
    ensures Tokens(WriteParts(ps) + ([blank] + rest), false, [], false)
            == Cons(PartsText(ps), Tokens(rest, false, [], false))
    ensures Tokens(WriteParts(ps), false, [], false) == Ok([PartsText(ps)])
    ensures Tokens([], false, [], false) == Ok([])
  {
    PartsRead(ps, [blank] + rest, [], false);
    PartsRead(ps, [], [], false);
    assert WriteParts(ps) + [] == WriteParts(ps) && [] + PartsText(ps) == PartsText(ps);
    assert ([blank] + rest)[0] == blank && ([blank] + rest)[1..] == rest;
  }

  /** What is refused: a backslash outside quotes, one before any other character inside them, and quotes that
      are never closed. */
  lemma LineRefused(ps: seq<Part>, qs: seq<Inner>, c: char, rest: string)
    requires (forall p | p in ps :: GoodPart(p)) && (forall i | i in qs :: GoodInner(i))
    requires c != '"' && c != '`' && c != '$' && c != '\\'
    ensures Tokens(WriteParts(ps) + (['\\'] + rest), false, [], false) == Err(BackslashOutsideQuotes)
    ensures Tokens(WriteParts(ps) + (['"'] + (WriteInner(qs) + (['\\', c] + rest))), false, [], false)
            == Err(UndefinedEscape)
    ensures Tokens(WriteParts(ps) + (['"'] + WriteInner(qs)), false, [], false) == Err(UnterminatedQuote)
    ensures Tokens(WriteParts(ps) + (['"'] + (WriteInner(qs) + ['\\'])), false, [], false) == Err(UnterminatedQuote)
  {
    var text := [] + PartsText(ps);
    PartsRead(ps, ['\\'] + rest, [], false);
    assert (['\\'] + rest)[0] == '\\';
    var (a, b, d) := (WriteInner(qs) + (['\\', c] + rest), WriteInner(qs) + [], WriteInner(qs) + ['\\']);
    assert b == WriteInner(qs);
    PartsRead(ps, ['"'] + a, [], false);
    PartsRead(ps, ['"'] + b, [], false);
    PartsRead(ps, ['"'] + d, [], false);
    assert (['"'] + a)[1..] == a && (['"'] + b)[1..] == b && (['"'] + d)[1..] == d;
    InnerRead(qs, ['\\', c] + rest, text, true);
    InnerRead(qs, [], text, true);
    InnerRead(qs, ['\\'], text, true);
    var e := ['\\', c] + rest;
    assert e[0] == '\\' && e[1..][0] == c;
  }

  // ------------------------------------------------------------------ the file layer

  /** A value's character: as it is, or one of the escapes the format defines. */
  datatype Mark = Itself(c: char) | Space | Newline | Tab | Return | Backslash

  predicate GoodMark(m: Mark) { m.Itself? ==> m.c != '\\' }

  function MarkWrite(m: Mark): string {
    match m
    case Itself(c) => [c]
    case Space => ['\\', 's']
    case Newline => ['\\', 'n']
    case Tab => ['\\', 't']
    case Return => ['\\', 'r']
    case Backslash => ['\\', '\\']
  }

  function MarkText(m: Mark): char {
    match m
    case Itself(c) => c
    case Space => ' '
    case Newline => '\n'
    case Tab => '\t'
    case Return => '\r'
    case Backslash => '\\'
  }

  function WriteMarks(ms: seq<Mark>): string { if ms == [] then [] else MarkWrite(ms[0]) + WriteMarks(ms[1..]) }

  function MarksText(ms: seq<Mark>): string { if ms == [] then [] else [MarkText(ms[0])] + MarksText(ms[1..]) }

  lemma {:induction false} MarksRead(ms: seq<Mark>, rest: string)
    requires forall m | m in ms :: GoodMark(m)
    ensures Unescape(WriteMarks(ms) + rest)
            == match Unescape(rest) case Some(v) => Some(MarksText(ms) + v) case None => None
  {
    if ms == [] {
      assert WriteMarks(ms) + rest == rest;
      if Unescape(rest).Some? { assert [] + Unescape(rest).value == Unescape(rest).value; }
    } else {
      assert ms == [ms[0]] + ms[1..] && ms[0] in ms;
      MarksRead(ms[1..], rest);
      var t := WriteMarks(ms[1..]) + rest;
      MarkRead(ms[0], t);
      assert WriteMarks(ms) + rest == MarkWrite(ms[0]) + t;
      if Unescape(rest).Some? {
        assert [MarkText(ms[0])] + (MarksText(ms[1..]) + Unescape(rest).value) == MarksText(ms) + Unescape(rest).value;
      }
    }
  }

  lemma MarkRead(m: Mark, t: string)
    requires GoodMark(m)
    ensures Unescape(MarkWrite(m) + t) == match Unescape(t) case Some(v) => Some([MarkText(m)] + v) case None => None
  {
    var s := MarkWrite(m) + t;
    if m.Itself? {
      assert s[0] == m.c && s[1..] == t;
    } else {
      assert s[0] == '\\' && s[1] == MarkWrite(m)[1] && s[2..] == t;
    }
  }

  /** A value is what its characters and escapes say, without the spaces before it; any other escape, or a backslash
      with nothing after it, makes it undecodable. */
  lemma ValueRead(spaces: nat, ms: seq<Mark>, c: char, rest: string)
    requires (forall m | m in ms :: GoodMark(m)) && (ms == [] || ms[0] != Itself(' '))
    requires c != 's' && c != 'n' && c != 't' && c != 'r' && c != '\\'
    ensures ValueOf(seq(spaces, _ => ' ') + WriteMarks(ms)) == Some(MarksText(ms))
    ensures ValueOf(seq(spaces, _ => ' ') + (WriteMarks(ms) + (['\\', c] + rest))) == None
    ensures ValueOf(seq(spaces, _ => ' ') + (WriteMarks(ms) + ['\\'])) == None
  {
    var bad := ['\\', c] + rest;
    assert bad[0] == '\\' && bad[1] == c;
    MarksRead(ms, []);
    MarksRead(ms, bad);
    MarksRead(ms, ['\\']);
    assert WriteMarks(ms) + [] == WriteMarks(ms) && MarksText(ms) + [] == MarksText(ms);
    SpacesDropped(spaces, WriteMarks(ms));
    SpacesDropped(spaces, WriteMarks(ms) + bad);
    SpacesDropped(spaces, WriteMarks(ms) + ['\\']);
  }

  lemma {:induction false} SpacesDropped(n: nat, s: string)
    requires s == [] || s[0] != ' '
    ensures DropSpaces(seq(n, _ => ' ') + s) == s
  {
    if n == 0 {
      assert seq(n, _ => ' ') + s == s;
    } else {
      SpacesDropped(n - 1, s);
      assert (seq(n, _ => ' ') + s)[1..] == seq(n - 1, _ => ' ') + s;
    }
  }

  /** A key's line, whatever spaces stand around its `=` and whichever way it ends; with an escape the format does
      not define in its value it is no line of the format. */
  lemma LineRead(key: string, before: nat, after: nat, ms: seq<Mark>, c: char, rest: string, end: string)
    requires key != [] && '=' !in key && key[0] !in [' ', '\t', '#', '['] && key[|key| - 1] != ' '
    requires (forall m | m in ms :: GoodMark(m) && m != Itself('\r')) && (ms == [] || ms[0] != Itself(' '))
    requires c != 's' && c != 'n' && c != 't' && c != 'r' && c != '\\' && '\r' !in [c] + rest
    requires end == "" || end == "\r"
    ensures var start := key + seq(before, _ => ' ') + ['='];
            && ReadLine(start + (seq(after, _ => ' ') + WriteMarks(ms)) + end) == Pair(key, MarksText(ms))
            && ReadLine(start + (seq(after, _ => ' ') + (WriteMarks(ms) + (['\\', c] + rest))) + end) == Malformed
  {
    LastKept(ms);
    SpacesTrimmed(key, before);
    ValueRead(after, ms, c, rest);
    NoEquals(key, before);
    var bad := seq(after, _ => ' ') + (WriteMarks(ms) + (['\\', c] + rest));
    assert bad[|bad| - 1] == ([c] + rest)[|rest|] && ([c] + rest)[|rest|] in [c] + rest;
    hide ReadLine, ValueOf, WriteMarks, MarksText, WithoutSpaces;
    PairRead(key + seq(before, _ => ' '), seq(after, _ => ' ') + WriteMarks(ms), end);
    PairRead(key + seq(before, _ => ' '), bad, end);
  }

  /** Every other line: blanks and comments are passed over, a header is its brackets and what they hold, and
      anything else without a `=` is no line of the format. */
  lemma OtherLines(text: string, end: string)
    requires '\r' !in text && (end == "" || end == "\r")
    ensures (forall c | c in text :: c == ' ' || c == '\t') ==> ReadLine(text + end) == Nothing
    ensures ReadLine(['#'] + text + end) == Nothing
    ensures ReadLine(['['] + text + [']'] + end) == Header(['['] + text + [']'])
    ensures text != [] && text[0] !in [' ', '\t', '#', '['] && '=' !in text ==> ReadLine(text + end) == Malformed
  {
    hide ValueOf;
    var (comment, header) := (['#'] + text, ['['] + text + [']']);
    if text == [] { BlankLine(end); } else {
      assert text[|text| - 1] in text && text[0] in text;
      LineIs(text, end);
    }
    assert comment[|comment| - 1] in comment;
    LineIs(comment, end);
    LineIs(header, end);
    hide WithoutReturn;
    assert header[0] in header && comment[0] == '#';
  }

  lemma BlankLine(end: string)
    requires end == "" || end == "\r"
    ensures ReadLine([] + end) == Nothing
  {
    hide ValueOf;
    assert WithoutReturn([] + end) == [];
  }

  lemma NoEquals(key: string, n: nat)
    requires '=' !in key
    ensures '=' !in key + seq(n, _ => ' ')
  {
  }

  lemma {:induction false} LastKept(ms: seq<Mark>)
    requires forall m | m in ms :: m != Itself('\r')
    ensures WriteMarks(ms) == [] || WriteMarks(ms)[|WriteMarks(ms)| - 1] != '\r'
  {
    if ms != [] {
      assert ms[0] in ms && forall m | m in ms[1..] :: m in ms;
      LastKept(ms[1..]);
    }
  }

  lemma {:induction false} SpacesTrimmed(key: string, n: nat)
    requires key != [] && key[|key| - 1] != ' '
    ensures WithoutSpaces(key + seq(n, _ => ' ')) == key
  {
    if n == 0 {
      assert key + seq(n, _ => ' ') == key;
    } else {
      SpacesTrimmed(key, n - 1);
      var s := key + seq(n, _ => ' ');
      assert s[..|s| - 1] == key + seq(n - 1, _ => ' ') && s[|s| - 1] == ' ';
    }
  }

  /** The last header among the first `n` lines. */
  function GroupAt(lines: seq<string>, n: nat): Option<string>
    requires n <= |lines|
  {
    hide ReadLine;
    if n == 0 then None
    else match ReadLine(lines[n - 1]) case Header(g) => Some(g) case _ => GroupAt(lines, n - 1)
  }

  /** A line that makes the file undecodable: one the format does not know, or a key before any group. */
  predicate Spoils(lines: seq<string>, i: nat)
    requires i < |lines|
  {
    hide ReadLine;
    ReadLine(lines[i]).Malformed? || (ReadLine(lines[i]).Pair? && GroupAt(lines, i) == None)
  }

  /** Line `i` gives the key a value, in the group that counts. */
  predicate Gives(lines: seq<string>, i: nat, key: string)
    requires i < |lines|
  {
    hide ReadLine;
    ReadLine(lines[i]).Pair? && ReadLine(lines[i]).key == key && GroupAt(lines, i) == Some(GROUP)
  }

  /** Of the first `n` lines, `i` is the last to give the key. */
  predicate LastToGive(lines: seq<string>, n: nat, key: string, i: nat)
    requires n <= |lines|
  {
    i < n && Gives(lines, i, key) && forall j | i < j < n :: !Gives(lines, j, key)
  }

  predicate HasValue(lines: seq<string>, n: nat, key: string, value: string)
    requires n <= |lines|
  {
    hide ReadLine;
    exists i :: 0 <= i < n && LastToGive(lines, n, key, i) && ReadLine(lines[i]) == Pair(key, value)
  }

  lemma {:induction false} DecodedTo(lines: seq<string>, n: nat)
    requires n <= |lines|
    ensures Decode(lines[..n]).None? <==> exists i :: 0 <= i < n && Spoils(lines, i)
    ensures Decode(lines[..n]).Some? ==> Decode(lines[..n]).value.group == GroupAt(lines, n)
    ensures Decode(lines[..n]).Some? ==>
              forall key, value ::
                Get(Decode(lines[..n]).value.pairs, key) == Some(value) <==> HasValue(lines, n, key, value)
  {
    hide ReadLine, Gives, HasValue;
    if n == 0 {
      NoLines(lines);
    } else {
      DecodedTo(lines, n - 1);
      assert lines[..n][..n - 1] == lines[..n - 1] && lines[..n][n - 1] == lines[n - 1];
      assert Decode(lines[..n]).None? <==> Decode(lines[..n - 1]).None? || Spoils(lines, n - 1);
      if Decode(lines[..n]).Some? {
        assert Decode(lines[..n]).value.group == GroupAt(lines, n);
        var (d, d') := (Decode(lines[..n - 1]).value, Decode(lines[..n]).value);
        assert Some(d') == DecodeLine(d, ReadLine(lines[n - 1]));
        hide Decode, GroupAt;
        forall key, value ensures Get(d'.pairs, key) == Some(value) <==> HasValue(lines, n, key, value) {
          OneLineMore(lines, n, d, key, value);
        }
      }
    }
  }

  lemma NoLines(lines: seq<string>)
    ensures Decode(lines[..0]) == Some(File(None, map[]))
    ensures forall key, value :: !HasValue(lines, 0, key, value)
  {
  }

  lemma OneLineMore(lines: seq<string>, n: nat, d: File, key: string, value: string)
    requires 0 < n <= |lines| && d.group == GroupAt(lines, n - 1) && DecodeLine(d, ReadLine(lines[n - 1])).Some?
    requires Get(d.pairs, key) == Some(value) <==> HasValue(lines, n - 1, key, value)
    ensures Get(DecodeLine(d, ReadLine(lines[n - 1])).value.pairs, key) == Some(value)
            <==> HasValue(lines, n, key, value)
  {
    hide ReadLine, GroupAt;
    var r := ReadLine(lines[n - 1]);
    if Gives(lines, n - 1, key) {
      assert LastToGive(lines, n, key, n - 1);
      assert HasValue(lines, n, key, r.value);
      OneValue(lines, n, key, value);
    } else {
      NotGiven(lines, n, key, value);
      hide HasValue;
      assert Get(DecodeLine(d, r).value.pairs, key) == Get(d.pairs, key);
    }
  }

  lemma OneValue(lines: seq<string>, n: nat, key: string, value: string)
    requires 0 < n <= |lines| && Gives(lines, n - 1, key)
    ensures HasValue(lines, n, key, value) <==> ReadLine(lines[n - 1]) == Pair(key, value)
  {
    hide ReadLine, Gives;
    GivesPair(lines, n - 1, key);
    assert LastToGive(lines, n, key, n - 1);
    if HasValue(lines, n, key, value) {
      var i :| 0 <= i < n && LastToGive(lines, n, key, i) && ReadLine(lines[i]) == Pair(key, value);
      assert i == n - 1;
    }
  }

  lemma GivesPair(lines: seq<string>, i: nat, key: string)
    requires i < |lines| && Gives(lines, i, key)
    ensures ReadLine(lines[i]).Pair? && ReadLine(lines[i]).key == key
  {
    hide ReadLine;
  }

  lemma NotGiven(lines: seq<string>, n: nat, key: string, value: string)
    requires 0 < n <= |lines| && !Gives(lines, n - 1, key)
    ensures HasValue(lines, n, key, value) <==> HasValue(lines, n - 1, key, value)
  {
    hide ReadLine, Gives;
    if HasValue(lines, n, key, value) {
      var i :| 0 <= i < n && LastToGive(lines, n, key, i) && ReadLine(lines[i]) == Pair(key, value);
      assert LastToGive(lines, n - 1, key, i);
    }
    if HasValue(lines, n - 1, key, value) {
      var i :| 0 <= i < n - 1 && LastToGive(lines, n - 1, key, i) && ReadLine(lines[i]) == Pair(key, value);
      assert LastToGive(lines, n, key, i);
    }
  }

  /** A file is undecodable exactly when some line spoils it; otherwise a key of `[Desktop Entry]` has exactly the
      value that the last line to give it there gives it, wherever the group stands and whatever others hold. */
  lemma DecodeExact(lines: seq<string>)
    ensures Decode(lines).None? <==> exists i :: 0 <= i < |lines| && Spoils(lines, i)
    ensures Decode(lines).Some? ==>
              forall key, value ::
                Get(Decode(lines).value.pairs, key) == Some(value) <==> HasValue(lines, |lines|, key, value)
  {
    DecodedTo(lines, |lines|);
    assert lines[..|lines|] == lines;
  }

  /** A file is an app to start exactly when it can be decoded, is an application if it says what it is, its flags
      are flags, and its command comes to at least one argument; a flag is on exactly when it says true, and an
      empty directory is none. */
  lemma ParseExact(buffer: string)
    ensures var lines := Split(buffer, '\n');
            if Decode(lines).None? then ParseEntry(buffer) == Err(NotDesktop)
            else
              var pairs := Decode(lines).value.pairs;
              var (kind, exec, path) := (Get(pairs, "Type"), Get(pairs, "Exec"), Get(pairs, "Path"));
              var (dbus, term) := (Get(pairs, "DBusActivatable"), Get(pairs, "Terminal"));
              && (ParseEntry(buffer).Ok? <==>
                    && UnsetOr(kind, "Application") && (UnsetOr(dbus, "true") || UnsetOr(dbus, "false"))
                    && (UnsetOr(term, "true") || UnsetOr(term, "false"))
                    && exec.Some? && exists tokens, argv :: Tokens(exec.value, false, [], false) == Ok(tokens)
                                                            && Expand(tokens) == Ok(argv) && argv != [])
              && (ParseEntry(buffer).Ok? ==>
                    var e := ParseEntry(buffer).value;
                    && e.dbusActivatable == (dbus == Some("true")) && e.terminal == (term == Some("true"))
                    && e.path == (if path == Some("") then None else path)
                    && exists tokens ::
                         Tokens(exec.value, false, [], false) == Ok(tokens) && Expand(tokens) == Ok(e.argv))
  {
    hide Tokens, Expand, Split, Decode;
  }

  /** A key that is missing or has this text. */
  predicate UnsetOr(v: Option<string>, text: string) { v == None || v == Some(text) }
}
