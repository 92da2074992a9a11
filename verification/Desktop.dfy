/** The Desktop Entry parser (relaunch-desktop): the file's string layer, the Exec quoting and field
    codes, and the canonical text of a command. */
module Desktop {
  import opened Text

  datatype Reason =
    | NotDesktop | NotApplication | BadFlag | NoExec | EmptyExec
    | UndefinedEscape | UnterminatedQuote | BackslashOutsideQuotes
    | UnsupportedCode | InvalidCode | TrailingPercent

  datatype Outcome<+T> = Ok(value: T) | Err(reason: Reason)

  // ----------------------------------------------------------------- Exec quoting

  predicate Quotable(c: char) { c == '"' || c == '`' || c == '$' || c == '\\' }

  predicate Blank(c: char) { c == ' ' || c == '\t' || c == '\n' || c == '\r' }

  function Cons(t: string, r: Outcome<seq<string>>): Outcome<seq<string>> {
    match r case Ok(ts) => Ok([t] + ts) case Err(_) => r
  }

  /** The rest of the tokens, in the middle of one (`cur`, once `have`). */
  function Tokens(s: string, quoted: bool, cur: string, have: bool): Outcome<seq<string>>
    decreases |s|
  {
    if s == [] then (if quoted then Err(UnterminatedQuote) else Ok(if have then [cur] else []))
    else
      var (c, t) := (s[0], s[1..]);
      if quoted then
        if c == '"' then Tokens(t, false, cur, have)
        else if c == '\\' then
          if t == [] then Err(UnterminatedQuote)
          else if Quotable(t[0]) then Tokens(t[1..], true, cur + [t[0]], have)
          else Err(UndefinedEscape)
        else Tokens(t, true, cur + [c], have)
      else if c == '"' then Tokens(t, true, cur, true)
      else if Blank(c) then (if have then Cons(cur, Tokens(t, false, [], false)) else Tokens(t, false, cur, false))
      else if c == '\\' then Err(BackslashOutsideQuotes)
      else Tokens(t, false, cur + [c], true)
  }

  function PrependAll(out: seq<string>, r: Outcome<seq<string>>): Outcome<seq<string>> {
    match r case Ok(ts) => Ok(out + ts) case Err(_) => r
  }

  lemma PrependNone(r: Outcome<seq<string>>)
    ensures PrependAll([], r) == r
  {
    if r.Ok? { assert [] + r.value == r.value; }
  }

  lemma PrependCons(out: seq<string>, t: string, r: Outcome<seq<string>>)
    ensures PrependAll(out, Cons(t, r)) == PrependAll(out + [t], r)
    ensures PrependAll(out, Ok([])) == Ok(out) && PrependAll(out, Ok([t])) == Ok(out + [t])
  {
    if r.Ok? { assert out + ([t] + r.value) == out + [t] + r.value; }
    assert out + [] == out;
  }

  /** `tokenize`. */
  method Tokenize(s: string) returns (r: Outcome<seq<string>>)
    ensures r == Tokens(s, false, [], false)
  {
    var tokens: seq<string> := [];
    var (cur: string, have, quoted) := ([], false, false);
    var it := s;
    PrependNone(Tokens(s, false, [], false));
    while it != []
      invariant Tokens(s, false, [], false) == PrependAll(tokens, Tokens(it, quoted, cur, have))
      decreases |it|
    {
      var c := it[0];
      it := it[1..];
      if quoted {
        if c == '"' {
          quoted := false;
        } else if c == '\\' {
          if it == [] { return Err(UnterminatedQuote); }
          if !Quotable(it[0]) { return Err(UndefinedEscape); }
          cur := cur + [it[0]];
          it := it[1..];
        } else {
          cur := cur + [c];
        }
      } else if c == '"' {
        quoted, have := true, true;
      } else if Blank(c) {
        if have {
          PrependCons(tokens, cur, Tokens(it, false, [], false));
          tokens := tokens + [cur];
          cur := [];
          have := false;
        }
      } else if c == '\\' {
        return Err(BackslashOutsideQuotes);
      } else {
        cur := cur + [c];
        have := true;
      }
    }
    if quoted { return Err(UnterminatedQuote); }
    PrependCons(tokens, cur, Ok([]));
    return Ok(if have then tokens + [cur] else tokens);
  }

  // ------------------------------------------------------------------ field codes

  predicate Dropped(c: char) { c in "fFuUdDnNvm" }

  /** One token expanded, and whether it held a code that expands to nothing. */
  function Expanded(t: string): Outcome<(string, bool)> {
    if t == [] then Ok(([], false))
    else if t[0] != '%' then
      match Expanded(t[1..]) case Ok(r) => Ok(([t[0]] + r.0, r.1)) case Err(e) => Err(e)
    else if |t| == 1 then Err(TrailingPercent)
    else if t[1] == '%' then
      match Expanded(t[2..]) case Ok(r) => Ok((['%'] + r.0, r.1)) case Err(e) => Err(e)
    else if Dropped(t[1]) then
      match Expanded(t[2..]) case Ok(r) => Ok((r.0, true)) case Err(e) => Err(e)
    else if t[1] == 'c' || t[1] == 'i' || t[1] == 'k' then Err(UnsupportedCode)
    else Err(InvalidCode)
  }

  /** Every token expanded; one that was only a field code is dropped. */
  function Expand(tokens: seq<string>): Outcome<seq<string>> {
    if tokens == [] then Ok([])
    else
      match Expanded(tokens[0])
      case Err(e) => Err(e)
      case Ok((text, coded)) => if text == [] && coded then Expand(tokens[1..]) else Cons(text, Expand(tokens[1..]))
  }

  /** The expansion so far, and that of the rest of the token. */
  function Continued(text: string, coded: bool, r: Outcome<(string, bool)>): Outcome<(string, bool)> {
    match r case Ok(v) => Ok((text + v.0, coded || v.1)) case Err(e) => Err(e)
  }

  method ExpandToken(t: string) returns (r: Outcome<(string, bool)>)
    ensures r == Expanded(t)
  {
    var (text: string, coded) := ([], false);
    var it := t;
    if Expanded(t).Ok? { assert [] + Expanded(t).value.0 == Expanded(t).value.0; }
    while it != []
      invariant Expanded(t) == Continued(text, coded, Expanded(it))
      decreases |it|
    {
      if it[0] != '%' {
        Shift(text, it[0], coded, Expanded(it[1..]));
        text := text + [it[0]];
        it := it[1..];
      } else {
        if |it| == 1 { return Err(TrailingPercent); }
        if it[1] == '%' {
          Shift(text, '%', coded, Expanded(it[2..]));
          text := text + ['%'];
        } else if Dropped(it[1]) {
          coded := true;
        } else if it[1] == 'c' || it[1] == 'i' || it[1] == 'k' {
          return Err(UnsupportedCode);
        } else {
          return Err(InvalidCode);
        }
        it := it[2..];
      }
    }
    assert text + [] == text;
    return Ok((text, coded));
  }

  lemma Shift(text: string, c: char, coded: bool, r: Outcome<(string, bool)>)
    ensures r.Ok? ==> Continued(text, coded, Ok(([c] + r.value.0, r.value.1))) == Continued(text + [c], coded, r)
  {
    if r.Ok? { assert text + ([c] + r.value.0) == text + [c] + r.value.0; }
  }

  /** `expand_field_codes`. */
  method ExpandFieldCodes(tokens: seq<string>) returns (r: Outcome<seq<string>>)
    ensures r == Expand(tokens)
  {
    hide Expanded;
    var out: seq<string> := [];
    PrependNone(Expand(tokens));
    assert tokens[0..] == tokens;
    for i := 0 to |tokens|
      invariant Expand(tokens) == PrependAll(out, Expand(tokens[i..]))
    {
      assert tokens[i..][1..] == tokens[i + 1..];
      var e := ExpandToken(tokens[i]);
      if e.Err? { return Err(e.reason); }
      var (text, coded) := e.value;
      if text != [] || !coded {
        PrependCons(out, text, Expand(tokens[i + 1..]));
        out := out + [text];
      }
    }
    PrependCons(out, [], Ok([]));
    return Ok(out);
  }

  // -------------------------------------------------------------- canonical commands

  function CanonicalChar(c: char): string { if c == '\\' || c == ' ' then ['\\', c] else [c] }

  function CanonicalArg(a: string): string {
    if a == [] then [] else CanonicalChar(a[0]) + CanonicalArg(a[1..])
  }

  /** `canonical_exec_string`. */
  function CanonicalExec(argv: seq<string>): string {
    if argv == [] then []
    else if |argv| == 1 then CanonicalArg(argv[0])
    else CanonicalArg(argv[0]) + [' '] + CanonicalExec(argv[1..])
  }

  /** `split_canonical_exec`, in the middle of an argument. */
  function SplitFrom(s: string, cur: string): (argv: seq<string>)
    ensures argv != []
  {
    if s == [] then [cur]
    else if s[0] == '\\' then (if |s| == 1 then [cur] else SplitFrom(s[2..], cur + [s[1]]))
    else if s[0] == ' ' then [cur] + SplitFrom(s[1..], [])
    else SplitFrom(s[1..], cur + [s[0]])
  }

  function SplitCanonical(exec: string): seq<string> { SplitFrom(exec, []) }

  /** `split_canonical_exec`. */
  method SplitCanonicalExec(exec: string) returns (argv: seq<string>)
    ensures argv == SplitCanonical(exec)
  {
    var done: seq<string> := [];
    var cur: string := [];
    var it := exec;
    while it != []
      invariant SplitCanonical(exec) == done + SplitFrom(it, cur)
      decreases |it|
    {
      if it[0] == '\\' {
        if |it| == 1 {
          it := [];
        } else {
          cur := cur + [it[1]];
          it := it[2..];
        }
      } else if it[0] == ' ' {
        assert done + ([cur] + SplitFrom(it[1..], [])) == done + [cur] + SplitFrom(it[1..], []);
        done := done + [cur];
        cur := [];
        it := it[1..];
      } else {
        cur := cur + [it[0]];
        it := it[1..];
      }
    }
    return done + [cur];
  }

  lemma SplitChar(c: char, t: string, cur: string)
    ensures SplitFrom(CanonicalChar(c) + t, cur) == SplitFrom(t, cur + [c])
  {
    var s := CanonicalChar(c) + t;
    if c == '\\' || c == ' ' { assert s[0] == '\\' && s[1] == c && s[2..] == t; }
    else { assert s[0] == c && s[1..] == t; }
  }

  lemma Regroup(cur: string, a: string)
    requires a != []
    ensures cur + [a[0]] + a[1..] == cur + a
  {
  }

  lemma NoneCanonical(rest: string, cur: string)
    ensures SplitFrom(CanonicalArg([]) + rest, cur) == SplitFrom(rest, cur + [])
  {
    assert CanonicalArg([]) + rest == rest && cur + [] == cur;
  }

  lemma FirstCanonical(a: string, rest: string)
    requires a != []
    ensures CanonicalArg(a) + rest == CanonicalChar(a[0]) + (CanonicalArg(a[1..]) + rest)
  {
    hide CanonicalChar;
  }

  lemma {:induction false} SplitArg(a: string, rest: string, cur: string)
    ensures SplitFrom(CanonicalArg(a) + rest, cur) == SplitFrom(rest, cur + a)
  {
    hide SplitFrom, CanonicalChar, CanonicalArg;
    if a == [] {
      NoneCanonical(rest, cur);
    } else {
      FirstCanonical(a, rest);
      SplitChar(a[0], CanonicalArg(a[1..]) + rest, cur);
      SplitArg(a[1..], rest, cur + [a[0]]);
      Regroup(cur, a);
    }
  }

  /** Every non-empty argv comes back from its canonical text exactly, empty arguments included. */
  lemma {:induction false} CanonicalRoundTrip(argv: seq<string>)
    requires argv != []
    ensures SplitCanonical(CanonicalExec(argv)) == argv
  {
    assert [] + argv[0] == argv[0];
    if |argv| == 1 {
      SplitArg(argv[0], [], []);
      assert CanonicalArg(argv[0]) + [] == CanonicalArg(argv[0]) && argv == [argv[0]];
    } else {
      var rest := [' '] + CanonicalExec(argv[1..]);
      SplitArg(argv[0], rest, []);
      CanonicalRoundTrip(argv[1..]);
      assert CanonicalExec(argv) == CanonicalArg(argv[0]) + rest && rest[1..] == CanonicalExec(argv[1..]);
      assert argv == [argv[0]] + argv[1..];
    }
  }

  /** The canonical text of some argv. */
  predicate IsCanonical(exec: string) { CanonicalExec(SplitCanonical(exec)) == exec }

  /** Whatever argv a canonical command stands for is the one it splits into. */
  lemma CanonicalDetermines(argv: seq<string>, exec: string)
    requires argv != [] && CanonicalExec(argv) == exec
    ensures SplitCanonical(exec) == argv && IsCanonical(exec)
  {
    CanonicalRoundTrip(argv);
  }

  // ------------------------------------------------------------------ the file layer

  /** A string value's escapes undone; `None` for one the format does not define. */
  function Unescape(s: string): Option<string> {
    if s == [] then Some([])
    else if s[0] != '\\' then
      match Unescape(s[1..]) case Some(r) => Some([s[0]] + r) case None => None
    else if |s| == 1 then None
    else
      match (Escape(s[1]), Unescape(s[2..]))
      case (Some(c), Some(r)) => Some([c] + r)
      case _ => None
  }

  function Escape(c: char): Option<char> {
    if c == 's' then Some(' ')
    else if c == 'n' then Some('\n')
    else if c == 't' then Some('\t')
    else if c == 'r' then Some('\r')
    else if c == '\\' then Some('\\')
    else None
  }

  function DropSpaces(s: string): string { if s != [] && s[0] == ' ' then DropSpaces(s[1..]) else s }

  function ValueOf(raw: string): Option<string> { Unescape(DropSpaces(raw)) }

  const GROUP := "[Desktop Entry]"

  /** One line of a file: a blank or a comment, a group's header, a key with its decoded value, or nothing the
      format knows. */
  datatype Read = Nothing | Header(group: string) | Pair(key: string, value: string) | Malformed

  function WithoutReturn(l: string): string { if l != [] && l[|l| - 1] == '\r' then l[..|l| - 1] else l }

  function WithoutSpaces(s: string): string {
    if s != [] && s[|s| - 1] == ' ' then WithoutSpaces(s[..|s| - 1]) else s
  }

  function BeforeEquals(l: string): (key: string)
    requires '=' in l
    ensures '=' !in key && key + ['='] <= l
  {
    if l[0] == '=' then [] else [l[0]] + BeforeEquals(l[1..])
  }

  lemma KeyRead(key: string, rest: string)
    requires '=' !in key
    ensures '=' in key + ['='] + rest && BeforeEquals(key + ['='] + rest) == key
  {
    var l := key + ['='] + rest;
    assert l[|key|] == '=';
    var k := BeforeEquals(l);
    assert l[|k|] == '=' && k == l[..|k|] && key == l[..|key|];
  }

  function ReadLine(line: string): Read {
    var l := WithoutReturn(line);
    if (forall c | c in l :: c == ' ' || c == '\t') || l[0] == '#' then Nothing
    else if l[0] == '[' then (if l[|l| - 1] == ']' then Header(l) else Malformed)
    else if '=' !in l then Malformed
    else
      var key := BeforeEquals(l);
      match ValueOf(l[|key| + 1..]) case Some(v) => Pair(WithoutSpaces(key), v) case None => Malformed
  }

  lemma LineIs(l: string, end: string)
    requires l != [] && l[|l| - 1] != '\r' && (end == "" || end == "\r")
    ensures WithoutReturn(l + end) == l
  {
    if end == "" { assert l + end == l; } else { assert (l + end)[..|l|] == l; }
  }

  /** A key's line is read as the key and its value, and one whose value cannot be decoded as no line at all. */
  lemma PairRead(left: string, raw: string, end: string)
    requires left != [] && '=' !in left && left[0] !in [' ', '\t', '#', '[']
    requires (raw == [] || raw[|raw| - 1] != '\r') && (end == "" || end == "\r")
    ensures ReadLine(left + ['='] + raw + end)
            == match ValueOf(raw) case Some(v) => Pair(WithoutSpaces(left), v) case None => Malformed
  {
    hide ValueOf, WithoutSpaces, WithoutReturn;
    var l := left + ['='] + raw;
    LineIs(l, end);
    KeyRead(left, raw);
    assert l[0] == left[0] && l[0] in l && l[|left| + 1..] == raw;
  }

  /** What has been read so far: the group the next key is in, and the keys of `[Desktop Entry]`. */
  datatype File = File(group: Option<string>, pairs: map<string, string>)

  function Decode(lines: seq<string>): Option<File> {
    if lines == [] then Some(File(None, map[]))
    else
      match Decode(lines[..|lines| - 1]) case None => None case Some(d) => DecodeLine(d, ReadLine(lines[|lines| - 1]))
  }

  /** A key before any group, like a line that is none, refuses the file; of two with one name the last counts. */
  function DecodeLine(d: File, r: Read): Option<File> {
    match r
    case Nothing => Some(d)
    case Header(g) => Some(d.(group := Some(g)))
    case Pair(key, value) =>
      if d.group.None? then None
      else if d.group == Some(GROUP) then Some(d.(pairs := d.pairs[key := value]))
      else Some(d)
    case Malformed => None
  }

  function Get(pairs: map<string, string>, key: string): Option<string> {
    if key in pairs then Some(pairs[key]) else None
  }

  datatype DesktopEntry = DesktopEntry(argv: seq<string>, dbusActivatable: bool, terminal: bool, path: Option<string>)

  function Flag(v: Option<string>): Option<bool> {
    if v == None || v == Some("false") then Some(false) else if v == Some("true") then Some(true) else None
  }

  /** `parse_entry`. */
  function ParseEntry(buffer: string): Outcome<DesktopEntry> {
    match Decode(Split(buffer, '\n')) case None => Err(NotDesktop) case Some(d) => EntryOf(d.pairs)
  }

  function EntryOf(pairs: map<string, string>): Outcome<DesktopEntry> {
    var (kind, exec, path) := (Get(pairs, "Type"), Get(pairs, "Exec"), Get(pairs, "Path"));
    var (dbus, term) := (Flag(Get(pairs, "DBusActivatable")), Flag(Get(pairs, "Terminal")));
    if kind.Some? && kind != Some("Application") then Err(NotApplication)
    else if dbus.None? || term.None? then Err(BadFlag)
    else if exec.None? then Err(NoExec)
    else
      match Tokens(exec.value, false, [], false)
      case Err(e) => Err(e)
      case Ok(tokens) =>
        match Expand(tokens)
        case Err(e) => Err(e)
        case Ok(argv) =>
          if argv == [] then Err(EmptyExec)
          else Ok(DesktopEntry(argv, dbus.value, term.value,
                               if path.Some? && path.value != [] then path else None))
  }
}
