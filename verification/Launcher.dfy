/** A pin's private launcher (the engine's launcher.rs): written so that the one parser reads back
    exactly the signed command and directory. */
module Launcher {
  import opened Text
  import opened Model
  import opened Desktop

  datatype WriteError = EmptyCommand | ControlInArgument | ControlInName | ControlInDirectory

  datatype Written<+T> = Wrote(value: T) | Rejected(error: WriteError)

  function Reserved(): string { " \t\"`$\\'<>~|&;*?#()" }

  predicate NeedsQuoting(arg: string) { arg == [] || exists c | c in arg :: c in Reserved() }

  predicate AnyControl(s: string) { exists c | c in s :: IsControl(c) }

  function DoubledChar(c: char): string { if c == '%' then ['%', '%'] else [c] }

  function Doubled(s: string): string {
    if s == [] then [] else DoubledChar(s[0]) + Doubled(s[1..])
  }

  /** `file_escape`: every backslash doubled for the file layer. */
  function FileEscape(s: string): string {
    if s == [] then [] else (if s[0] == '\\' then ['\\', '\\'] else [s[0]]) + FileEscape(s[1..])
  }

  function QuotedChar(c: char): string {
    if Quotable(c) then ['\\', c] else if c == '%' then ['%', '%'] else [c]
  }

  function QuotedBody(arg: string): string {
    if arg == [] then [] else QuotedChar(arg[0]) + QuotedBody(arg[1..])
  }

  function Argument(arg: string): string {
    if NeedsQuoting(arg) then ['"'] + QuotedBody(arg) + ['"'] else Doubled(arg)
  }

  function Arguments(argv: seq<string>): seq<string> {
    if argv == [] then [] else [Argument(argv[0])] + Arguments(argv[1..])
  }

  predicate Clean(argv: seq<string>) { forall a | a in argv :: !AnyControl(a) }

  /** `serialize_exec`. */
  function SerializeExec(argv: seq<string>): Written<string> {
    if argv == [] then Rejected(EmptyCommand)
    else if !Clean(argv) then Rejected(ControlInArgument)
    else Wrote(FileEscape(Join(Arguments(argv), ' ')))
  }

  method QuoteArgument(arg: string) returns (q: string)
    ensures q == Argument(arg)
  {
    if !NeedsQuoting(arg) { return Doubled(arg); }
    hide NeedsQuoting, QuotedChar;
    q := ['"'];
    for j := 0 to |arg|
      invariant q + QuotedBody(arg[j..]) == ['"'] + QuotedBody(arg)
    {
      assert arg[j..][1..] == arg[j + 1..];
      q := q + QuotedChar(arg[j]);
    }
    q := q + ['"'];
  }

  method Serialize(argv: seq<string>) returns (r: Written<string>)
    ensures r == SerializeExec(argv)
  {
    hide Argument, AnyControl;
    if argv == [] { return Rejected(EmptyCommand); }
    var out: seq<string> := [];
    assert argv[0..] == argv;
    for i := 0 to |argv|
      invariant Clean(argv[..i]) && out + Arguments(argv[i..]) == Arguments(argv)
    {
      assert argv[i] in argv;
      if AnyControl(argv[i]) { return Rejected(ControlInArgument); }
      assert argv[..i + 1] == argv[..i] + [argv[i]] && argv[i..][1..] == argv[i + 1..];
      var q := QuoteArgument(argv[i]);
      assert out + ([q] + Arguments(argv[i + 1..])) == out + [q] + Arguments(argv[i + 1..]);
      out := out + [q];
    }
    assert argv[..|argv|] == argv && argv[|argv|..] == [] && out + [] == out;
    return Wrote(FileEscape(Join(out, ' ')));
  }

  /** `string_value`: a leading space is written `\s`, which the format would otherwise drop. */
  function StringValue(s: string): string {
    var e := FileEscape(s); if e != [] && e[0] == ' ' then ['\\', 's'] + e[1..] else e
  }

  function Contents(name: string, exec: string, path: Option<string>): seq<string> {
    [GROUP, "Type=Application", "Name=" + StringValue(name), "Exec=" + exec]
    + (match path case Some(dir) => ["Path=" + StringValue(dir)] case None => [])
    + ["NoDisplay=true", "Terminal=false", ""]
  }

  /** `desktop_contents`. */
  function DesktopContents(name: string, argv: seq<string>, cwd: Option<string>): Written<string> {
    if AnyControl(name) then Rejected(ControlInName)
    else
      match SerializeExec(argv)
      case Rejected(e) => Rejected(e)
      case Wrote(exec) =>
        if cwd.Some? && AnyControl(cwd.value) then Rejected(ControlInDirectory)
        else Wrote(Join(Contents(name, exec, cwd), '\n'))
  }

  /** `binding`: the launcher an entry signs, its path and the hash of its bytes. */
  function Binding(dir: string, sha: seq<byte> -> string, id: string, name: string, exec: string, cwd: Option<string>)
    : Written<Model.Launcher>
  {
    match DesktopContents(name, SplitCanonical(exec), cwd)
    case Rejected(e) => Rejected(e)
    case Wrote(text) => Wrote(Model.Launcher(dir + LAUNCHERS_DIR_SUFFIX + id + ".desktop", sha(Utf8(text))))
  }

  function LauncherText(e: Model.Entry): Written<string> { DesktopContents(e.labelText, SplitCanonical(e.exec), e.cwd) }

  /** An argument is put in double quotes exactly when it is empty or holds a character that the Exec key section
      of the Desktop Entry Specification reserves; one with nothing reserved and no percent is written as it is. */
  lemma QuotedWhenReserved(arg: string)
    requires '\n' !in arg
    ensures Argument(arg) != []
    ensures Argument(arg)[0] == '"' <==>
              arg == [] || exists c | c in arg :: c in [' ', '\t', '\n', '"', '\'', '\\', '>', '<', '~', '|', '&', ';',
                                                       '$', '*', '?', '#', '(', ')', '`']
    ensures Argument(arg)[0] != '"' && '%' !in arg ==> Argument(arg) == arg
  {
    if !NeedsQuoting(arg) {
      assert arg[0] in arg;
      DoubledIs(arg);
    }
  }

  lemma DoubledIs(s: string)
    requires s != [] && s[0] != '"'
    ensures Doubled(s) != [] && Doubled(s)[0] == s[0]
    ensures '%' !in s ==> Doubled(s) == s
  {
    if '%' !in s { DoubledPlain(s); }
  }

  lemma {:induction false} DoubledPlain(s: string)
    requires '%' !in s
    ensures Doubled(s) == s
  {
    if s != [] {
      assert s == [s[0]] + s[1..] && s[0] in s;
      DoubledPlain(s[1..]);
    }
  }

  // --------------------------------------------------------- reading it back

  lemma {:induction false} FileRoundTrip(s: string)
    ensures Unescape(FileEscape(s)) == Some(s)
  {
    if s != [] {
      var t := FileEscape(s[1..]);
      FileRoundTrip(s[1..]);
      assert s == [s[0]] + s[1..];
      var e := FileEscape(s);
      if s[0] == '\\' {
        assert e[0] == '\\' && e[1] == '\\' && e[2..] == t;
      } else {
        assert e[0] == s[0] && e[1..] == t;
      }
    }
  }

  lemma ValueRoundTrip(s: string)
    ensures ValueOf(StringValue(s)) == Some(s)
  {
    var e := FileEscape(s);
    FileRoundTrip(s);
    if e != [] && e[0] == ' ' {
      var v := ['\\', 's'] + e[1..];
      assert v[2..] == e[1..];
      assert Unescape(e[1..]) == Some(s[1..]) && s == [' '] + s[1..];
    }
  }

  lemma {:induction false} EscapeClean(s: string, c: char)
    requires c != '\\' && c !in s
    ensures c !in FileEscape(s)
  {
    if s != [] {
      assert s == [s[0]] + s[1..];
      EscapeClean(s[1..], c);
    }
  }

  lemma Gather(cur: string, arg: string)
    requires arg != []
    ensures cur + DoubledChar(arg[0]) + Doubled(arg[1..]) == cur + Doubled(arg)
  {
  }

  lemma QuotedStep(c: char, t: string, cur: string)
    ensures Tokens(QuotedChar(c) + t, true, cur, true) == Tokens(t, true, cur + DoubledChar(c), true)
  {
    var s := QuotedChar(c) + t;
    if Quotable(c) {
      assert s[1..] == [c] + t && s[1..][1..] == t;
    } else if c == '%' {
      assert s[1..] == ['%'] + t && s[1..][1..] == t;
      assert Tokens(s, true, cur, true) == Tokens(s[1..], true, cur + ['%'], true);
      assert cur + ['%'] + ['%'] == cur + ['%', '%'];
    } else {
      assert s[1..] == t;
    }
  }

  lemma {:induction false} QuotedTokens(arg: string, rest: string, cur: string)
    ensures Tokens(QuotedBody(arg) + ['"'] + rest, true, cur, true) == Tokens(rest, false, cur + Doubled(arg), true)
  {
    var s := QuotedBody(arg) + ['"'] + rest;
    if arg == [] {
      assert s == ['"'] + rest && s[1..] == rest && cur + Doubled(arg) == cur;
    } else {
      hide Tokens, QuotedChar, DoubledChar;
      var t := QuotedBody(arg[1..]) + ['"'] + rest;
      assert s == QuotedChar(arg[0]) + t;
      QuotedStep(arg[0], t, cur);
      QuotedTokens(arg[1..], rest, cur + DoubledChar(arg[0]));
      Gather(cur, arg);
    }
  }

  predicate Plain(s: string) { forall c | c in s :: c !in Reserved() && !IsControl(c) }

  lemma PlainStep(c: char, t: string, cur: string, have: bool)
    requires c !in Reserved() && !IsControl(c)
    ensures Tokens(DoubledChar(c) + t, false, cur, have) == Tokens(t, false, cur + DoubledChar(c), true)
  {
    var s := DoubledChar(c) + t;
    assert c != '"' && c != '\\' && !Blank(c);
    if c == '%' {
      assert s[1..] == ['%'] + t && s[1..][1..] == t;
      assert Tokens(s, false, cur, have) == Tokens(s[1..], false, cur + ['%'], true);
      assert cur + ['%'] + ['%'] == cur + ['%', '%'];
    } else {
      assert s[1..] == t;
    }
  }

  lemma {:induction false} PlainTokens(arg: string, rest: string, cur: string, have: bool)
    requires Plain(arg) && (have || arg != [])
    ensures Tokens(Doubled(arg) + rest, false, cur, have) == Tokens(rest, false, cur + Doubled(arg), true)
  {
    hide Tokens, DoubledChar, Reserved, IsControl;
    var s := Doubled(arg) + rest;
    if arg == [] {
      assert s == rest && cur + Doubled(arg) == cur;
    } else {
      var t := Doubled(arg[1..]) + rest;
      assert arg[0] in arg && forall x | x in arg[1..] :: x in arg;
      assert s == DoubledChar(arg[0]) + t;
      PlainStep(arg[0], t, cur, have);
      PlainTokens(arg[1..], rest, cur + DoubledChar(arg[0]), true);
      Gather(cur, arg);
    }
  }

  lemma ArgumentTokens(arg: string, rest: string)
    requires !AnyControl(arg)
    ensures Tokens(Argument(arg) + rest, false, [], false) == Tokens(rest, false, Doubled(arg), true)
  {
    hide Tokens;
    assert [] + Doubled(arg) == Doubled(arg);
    if NeedsQuoting(arg) {
      var t := QuotedBody(arg) + ['"'] + rest;
      assert Argument(arg) + rest == ['"'] + t;
      OpenQuote(t);
      QuotedTokens(arg, rest, []);
    } else {
      PlainTokens(arg, rest, [], false);
    }
  }

  lemma OpenQuote(t: string)
    ensures Tokens(['"'] + t, false, [], false) == Tokens(t, true, [], true)
  {
    assert (['"'] + t)[1..] == t;
  }

  function AllDoubled(argv: seq<string>): seq<string> {
    if argv == [] then [] else [Doubled(argv[0])] + AllDoubled(argv[1..])
  }

  lemma EndTokens(t: string, cur: string)
    ensures Tokens([], false, cur, true) == Ok([cur])
    ensures Tokens([' '] + t, false, cur, true) == Cons(cur, Tokens(t, false, [], false))
  {
    assert ([' '] + t)[1..] == t;
  }

  lemma {:induction false} ArgvTokens(argv: seq<string>)
    requires argv != [] && Clean(argv)
    ensures Tokens(Join(Arguments(argv), ' '), false, [], false) == Ok(AllDoubled(argv))
  {
    hide Argument, AnyControl, Tokens, Join;
    assert argv[0] in argv;
    JoinedArguments(argv);
    var tail := Arguments(argv[1..]);
    if |argv| == 1 {
      ArgumentTokens(argv[0], []);
      EndTokens([], Doubled(argv[0]));
      assert AllDoubled(argv) == [Doubled(argv[0])];
    } else {
      ArgumentTokens(argv[0], [' '] + Join(tail, ' '));
      EndTokens(Join(tail, ' '), Doubled(argv[0]));
      assert forall a | a in argv[1..] :: a in argv;
      ArgvTokens(argv[1..]);
    }
  }

  lemma JoinedArguments(argv: seq<string>)
    requires argv != []
    ensures Join(Arguments(argv), ' ')
            == Argument(argv[0]) + if |argv| == 1 then [] else [' '] + Join(Arguments(argv[1..]), ' ')
  {
    hide Argument, Join;
    JoinCons(Argument(argv[0]), Arguments(argv[1..]), ' ');
  }

  lemma {:induction false} DoubledExpands(s: string)
    ensures Expanded(Doubled(s)) == Ok((s, false))
  {
    if s != [] {
      var t := Doubled(s[1..]);
      DoubledExpands(s[1..]);
      assert s == [s[0]] + s[1..];
      var d := Doubled(s);
      if s[0] == '%' { assert d[0] == '%' && d[1] == '%' && d[2..] == t; } else { assert d[0] == s[0] && d[1..] == t; }
    }
  }

  lemma {:induction false} AllExpand(argv: seq<string>)
    ensures Expand(AllDoubled(argv)) == Ok(argv)
  {
    hide Expanded;
    if argv != [] {
      DoubledExpands(argv[0]);
      AllExpand(argv[1..]);
      assert AllDoubled(argv)[1..] == AllDoubled(argv[1..]) && argv == [argv[0]] + argv[1..];
    }
  }

  /** Every command without control characters is written so that undoing the string escapes, splitting
      the tokens and expanding the field codes gives it back exactly; the rest are refused. */
  lemma ExecRoundTrip(argv: seq<string>)
    ensures SerializeExec(argv).Wrote? <==> argv != [] && Clean(argv)
    ensures SerializeExec(argv).Wrote? ==>
              var raw := Unescape(SerializeExec(argv).value);
              && raw.Some? && Tokens(raw.value, false, [], false).Ok?
              && Expand(Tokens(raw.value, false, [], false).value) == Ok(argv)
  {
    hide Tokens, Expand, Unescape, Arguments;
    if argv != [] && Clean(argv) {
      FileRoundTrip(Join(Arguments(argv), ' '));
      ArgvTokens(argv);
      AllExpand(argv);
    }
  }

  // ----------------------------------------------------------- the whole file

  /** The two characters that end a line of the file. */
  predicate OneLine(s: string) { '\n' !in s && '\r' !in s }

  lemma {:induction false} ArgumentsClean(argv: seq<string>)
    requires Clean(argv)
    ensures OneLine(Join(Arguments(argv), ' '))
    decreases |argv|
  {
    hide Argument;
    if argv != [] {
      assert argv[0] in argv && forall a | a in argv[1..] :: a in argv;
      ArgumentClean(argv[0]);
      ArgumentsClean(argv[1..]);
      assert Arguments(argv)[1..] == Arguments(argv[1..]);
    }
  }

  lemma ArgumentClean(arg: string)
    requires !AnyControl(arg)
    ensures OneLine(Argument(arg))
  {
    NoControl(arg);
    BodyClean(arg);
  }

  lemma NoControl(s: string)
    requires !AnyControl(s)
    ensures OneLine(s)
  {
  }

  lemma {:induction false} BodyClean(arg: string)
    requires OneLine(arg)
    ensures OneLine(QuotedBody(arg)) && OneLine(Doubled(arg))
  {
    if arg != [] {
      assert arg == [arg[0]] + arg[1..];
      BodyClean(arg[1..]);
    }
  }

  /** What is written of a launcher's command, name and directory stays on one line each. */
  lemma ValuesClean(name: string, argv: seq<string>, cwd: Option<string>)
    requires DesktopContents(name, argv, cwd).Wrote?
    ensures OneLine(SerializeExec(argv).value) && OneLine(StringValue(name))
    ensures cwd.Some? ==> OneLine(StringValue(cwd.value))
  {
    NoControl(name);
    ValueClean(name);
    if cwd.Some? {
      NoControl(cwd.value);
      ValueClean(cwd.value);
    }
    hide Arguments, StringValue, FileEscape, AnyControl;
    ArgumentsClean(argv);
    EscapeClean(Join(Arguments(argv), ' '), '\n');
    EscapeClean(Join(Arguments(argv), ' '), '\r');
  }

  lemma OneLineEach(name: string, exec: string, cwd: Option<string>)
    requires OneLine(exec) && OneLine(StringValue(name)) && (cwd.Some? ==> OneLine(StringValue(cwd.value)))
    ensures Contents(name, exec, cwd) != [] && forall l | l in Contents(name, exec, cwd) :: '\n' !in l
  {
    hide StringValue;
    LiteralsClean();
  }

  lemma LiteralsClean()
    ensures '\n' !in GROUP && '\n' !in "Type=Application" && '\n' !in "NoDisplay=true" && '\n' !in "Terminal=false"
  {
  }

  lemma ValueClean(s: string)
    requires OneLine(s)
    ensures OneLine(StringValue(s))
  {
    EscapeClean(s, '\n');
    EscapeClean(s, '\r');
  }

  lemma ExecValue(argv: seq<string>)
    requires SerializeExec(argv).Wrote?
    ensures var raw := SerializeExec(argv).value; raw != [] && raw[0] != ' '
  {
    hide QuotedBody;
    var a := argv[0];
    assert a in argv && Arguments(argv)[0] == Argument(a);
    var s := Join(Arguments(argv), ' ');
    if !NeedsQuoting(a) { assert a[0] in a; }
    assert Argument(a) != [] && Argument(a)[0] != ' ';
    assert s[0] == Argument(a)[0];
  }

  predicate GoodKey(key: string) {
    && key != [] && '=' !in key && key[0] !in [' ', '\t', '#', '['] && key[|key| - 1] != ' '
  }

  lemma DecodeMore(lines: seq<string>, line: string)
    requires Decode(lines).Some?
    ensures Decode(lines + [line]) == DecodeLine(Decode(lines).value, ReadLine(line))
  {
    hide ReadLine, DecodeLine;
    assert (lines + [line])[..|lines|] == lines;
  }

  lemma PairDecoded(lines: seq<string>, pairs: map<string, string>, key: string, raw: string, value: string)
    requires Decode(lines) == Some(File(Some(GROUP), pairs))
    requires GoodKey(key) && OneLine(raw) && ValueOf(raw) == Some(value)
    ensures Decode(lines + [key + "=" + raw]) == Some(File(Some(GROUP), pairs[key := value]))
  {
    hide Decode, ReadLine, ValueOf;
    if raw != [] { assert raw[|raw| - 1] in raw; }
    PairRead(key, raw, "");
    assert key + ['='] + raw + "" == key + "=" + raw;
    DecodeMore(lines, key + "=" + raw);
  }

  lemma LiteralDecoded(lines: seq<string>, pairs: map<string, string>, key: string, value: string)
    requires Decode(lines) == Some(File(Some(GROUP), pairs)) && GoodKey(key)
    requires value != [] && value[0] != ' ' && '\\' !in value && OneLine(value)
    ensures Decode(lines + [key + "=" + value]) == Some(File(Some(GROUP), pairs[key := value]))
  {
    hide Decode, GoodKey;
    UnescapePlain(value);
    PairDecoded(lines, pairs, key, value, value);
  }

  lemma GroupDecoded()
    ensures Decode([GROUP]) == Some(File(Some(GROUP), map[]))
  {
    assert GROUP[0] == '[' && GROUP[0] in GROUP && GROUP[|GROUP| - 1] == ']' && WithoutReturn(GROUP) == GROUP;
    assert ReadLine(GROUP) == Header(GROUP);
    assert Decode([]) == Some(File(None, map[])) && [GROUP][..0] == [];
  }

  lemma LastLine(lines: seq<string>)
    requires Decode(lines).Some?
    ensures Decode(lines + [""]) == Decode(lines)
  {
    assert ReadLine("") == Nothing;
    DecodeMore(lines, "");
  }

  /** A launcher is written with these keys, and no other. */
  function Pairs(name: string, exec: string, cwd: Option<string>): map<string, string> {
    var pairs := map["Type" := "Application", "Name" := name, "Exec" := exec, "NoDisplay" := "true",
                     "Terminal" := "false"];
    if cwd.Some? then pairs["Path" := cwd.value] else pairs
  }

  lemma ContentsDecoded(name: string, raw: string, exec: string, cwd: Option<string>)
    requires OneLine(raw) && OneLine(StringValue(name)) && (cwd.Some? ==> OneLine(StringValue(cwd.value)))
    requires ValueOf(raw) == Some(exec)
    ensures Decode(Contents(name, raw, cwd)) == Some(File(Some(GROUP), Pairs(name, exec, cwd)))
  {
    hide Decode, StringValue, ValueOf, GoodKey, Pairs, Contents, OneLine;
    GoodKeys();
    FirstDecoded(name, raw, exec);
    var (l3, m3) := (FirstLines(name, raw), map["Type" := "Application", "Name" := name, "Exec" := exec]);
    var (l4, m4) := (l3 + PathLines(cwd), if cwd.Some? then m3["Path" := cwd.value] else m3);
    if cwd.Some? {
      ValueRoundTrip(cwd.value);
      PairDecoded(l3, m3, "Path", StringValue(cwd.value), cwd.value);
    } else {
      assert l4 == l3;
    }
    Literals();
    LiteralDecoded(l4, m4, "NoDisplay", "true");
    var l5 := l4 + ["NoDisplay" + "=" + "true"];
    LiteralDecoded(l5, m4["NoDisplay" := "true"], "Terminal", "false");
    var l6 := l5 + ["Terminal" + "=" + "false"];
    LastLine(l6);
    LinesAre(name, raw, cwd);
    PairsAre(name, exec, cwd);
  }

  function FirstLines(name: string, raw: string): seq<string> {
    [GROUP] + ["Type" + "=" + "Application"] + ["Name" + "=" + StringValue(name)] + ["Exec" + "=" + raw]
  }

  function PathLines(cwd: Option<string>): seq<string> {
    match cwd case Some(dir) => ["Path" + "=" + StringValue(dir)] case None => []
  }

  lemma FirstDecoded(name: string, raw: string, exec: string)
    requires OneLine(raw) && OneLine(StringValue(name)) && ValueOf(raw) == Some(exec)
    ensures Decode(FirstLines(name, raw)) ==
              Some(File(Some(GROUP), map["Type" := "Application", "Name" := name, "Exec" := exec]))
  {
    hide Decode, StringValue, ValueOf, GoodKey, OneLine;
    GroupDecoded();
    GoodKeys();
    Literals();
    ValueRoundTrip(name);
    var l1 := [GROUP] + ["Type" + "=" + "Application"];
    LiteralDecoded([GROUP], map[], "Type", "Application");
    PairDecoded(l1, map["Type" := "Application"], "Name", StringValue(name), name);
    var l2 := l1 + ["Name" + "=" + StringValue(name)];
    PairDecoded(l2, map["Type" := "Application", "Name" := name], "Exec", raw, exec);
  }

  lemma Literals()
    ensures OneLine("Application") && OneLine("true") && OneLine("false")
    ensures '\\' !in "Application" && '\\' !in "true" && '\\' !in "false"
  {
  }

  lemma LinesAre(name: string, raw: string, cwd: Option<string>)
    ensures Contents(name, raw, cwd) == FirstLines(name, raw) + PathLines(cwd) + ["NoDisplay" + "=" + "true"]
                                        + ["Terminal" + "=" + "false"] + [""]
  {
    hide StringValue;
    assert "Type" + "=" + "Application" == "Type=Application" && "Name" + "=" == "Name=" && "Exec" + "=" == "Exec=";
    assert "NoDisplay" + "=" + "true" == "NoDisplay=true" && "Terminal" + "=" + "false" == "Terminal=false";
    assert "Path" + "=" == "Path=";
  }

  lemma PairsAre(name: string, exec: string, cwd: Option<string>)
    ensures var m3 := map["Type" := "Application", "Name" := name, "Exec" := exec];
            var m4 := if cwd.Some? then m3["Path" := cwd.value] else m3;
            m4["NoDisplay" := "true"]["Terminal" := "false"] == Pairs(name, exec, cwd)
  {
  }

  lemma GoodKeys()
    ensures GoodKey("Type") && GoodKey("Name") && GoodKey("Exec") && GoodKey("Path") && GoodKey("NoDisplay")
            && GoodKey("Terminal")
  {
  }

  lemma {:induction false} UnescapePlain(s: string)
    requires '\\' !in s
    ensures Unescape(s) == Some(s)
  {
    if s != [] {
      assert s == [s[0]] + s[1..];
      UnescapePlain(s[1..]);
    }
  }

  /** The parser reads a launcher back as exactly the command and directory it was written for, and
      nothing a name or directory holds can add to it. */
  lemma LauncherReadsBack(name: string, argv: seq<string>, cwd: Option<string>)
    requires DesktopContents(name, argv, cwd).Wrote?
    ensures ParseEntry(DesktopContents(name, argv, cwd).value)
            == Ok(DesktopEntry(argv, false, false, if cwd == Some([]) then None else cwd))
  {
    hide Decode, Unescape, Tokens, Expand, StringValue, SerializeExec, Contents, Split, Join, EntryOf, ValueOf;
    var raw := SerializeExec(argv).value;
    ValuesClean(name, argv, cwd);
    OneLineEach(name, raw, cwd);
    SplitJoin(Contents(name, raw, cwd), '\n');
    ExecRoundTrip(argv);
    ExecValue(argv);
    RawValue(raw);
    ContentsDecoded(name, raw, Unescape(raw).value, cwd);
    PairsRun(name, Unescape(raw).value, argv, cwd);
  }

  lemma RawValue(raw: string)
    requires raw != [] && raw[0] != ' '
    ensures ValueOf(raw) == Unescape(raw)
  {
    hide Unescape;
  }

  lemma PairsRun(name: string, exec: string, argv: seq<string>, cwd: Option<string>)
    requires Tokens(exec, false, [], false).Ok? && Expand(Tokens(exec, false, [], false).value) == Ok(argv)
    requires argv != []
    ensures EntryOf(Pairs(name, exec, cwd))
            == Ok(DesktopEntry(argv, false, false, if cwd == Some([]) then None else cwd))
  {
    hide Tokens, Expand;
  }

  // --------------------------------------------------------- what the anchor decides

  datatype Spawn = Spawn(argv: seq<string>, cwd: Option<string>)

  datatype Refusal = LauncherChanged | NotUtf8 | Unparsable(reason: Reason) | IsDbusActivatable | IsTerminal

  datatype Decision = Run(spawn: Spawn) | Refuse(why: Refusal)

  /** `decide`, over the launcher's bytes and the hash function. */
  function Decide(sha: seq<byte> -> string, e: Model.Entry, buffer: seq<byte>): Decision {
    if sha(buffer) != e.launcher.sha256 then Refuse(LauncherChanged) else
    match FromUtf8(buffer)
    case None => Refuse(NotUtf8)
    case Some(text) =>
      match ParseEntry(text)
      case Err(e) => Refuse(Unparsable(e))
      case Ok(d) =>
        if d.dbusActivatable then Refuse(IsDbusActivatable)
        else if d.terminal then Refuse(IsTerminal)
        else if CanonicalExec(d.argv) != e.exec || d.path != e.cwd then Refuse(LauncherChanged)
        else Run(Spawn(d.argv, d.path))
  }

  /** The bytes are an application's entry to be started directly, with no terminal and no bus. */
  predicate Direct(buffer: seq<byte>) {
    match FromUtf8(buffer)
    case Some(text) =>
      (match ParseEntry(text) case Ok(d) => !d.terminal && !d.dbusActivatable case Err(_) => false)
    case None => false
  }

  /** Whatever bytes are accepted, what runs is the signed command in the signed directory, and the
      bytes are the approved ones, of an entry to be started directly. */
  lemma DecideRunsSigned(sha: seq<byte> -> string, e: Model.Entry, buffer: seq<byte>)
    requires Decide(sha, e, buffer).Run?
    ensures Decide(sha, e, buffer).spawn == Spawn(SplitCanonical(e.exec), e.cwd)
    ensures IsCanonical(e.exec) && sha(buffer) == e.launcher.sha256 && Direct(buffer)
  {
    hide Decode, FromUtf8, Tokens, Expand;
    var d := ParseEntry(FromUtf8(buffer).value).value;
    CanonicalDetermines(d.argv, e.exec);
  }

  /** The launcher written for an entry and hashed into it is accepted exactly when the entry's command
      is canonical and its directory is not the empty string. */
  lemma DecideAcceptsWritten(sha: seq<byte> -> string, e: Model.Entry)
    requires LauncherText(e).Wrote? && e.launcher.sha256 == sha(Utf8(LauncherText(e).value))
    ensures var d := Decide(sha, e, Utf8(LauncherText(e).value));
            d == if IsCanonical(e.exec) && e.cwd != Some([]) then Run(Spawn(SplitCanonical(e.exec), e.cwd))
                 else Refuse(LauncherChanged)
  {
    hide ParseEntry, DesktopContents, FromUtf8, CanonicalExec;
    Utf8RoundTrip(LauncherText(e).value);
    LauncherReadsBack(e.labelText, SplitCanonical(e.exec), e.cwd);
  }

  // -------------------------------------------------- which valid entries can be written

  /** Splitting a command neither adds nor loses a character, but for backslashes. */
  lemma {:induction false} SplitChars(s: string, cur: string, c: char)
    requires c != '\\' && c != ' '
    ensures (exists a :: a in SplitFrom(s, cur) && c in a) <==> c in s || c in cur
    decreases |s|
  {
    if s == [] {
      assert SplitFrom(s, cur) == [cur];
    } else if s[0] == '\\' {
      if |s| == 1 {
        assert SplitFrom(s, cur) == [cur];
      } else {
        assert s == [s[0], s[1]] + s[2..];
        SplitChars(s[2..], cur + [s[1]], c);
      }
    } else if s[0] == ' ' {
      var rest := SplitFrom(s[1..], []);
      assert s == [s[0]] + s[1..] && SplitFrom(s, cur) == [cur] + rest;
      SplitChars(s[1..], [], c);
      assert cur in [cur] + rest && forall a | a in rest :: a in [cur] + rest;
    } else {
      assert s == [s[0]] + s[1..];
      SplitChars(s[1..], cur + [s[0]], c);
    }
  }

  lemma SplitClean(exec: string)
    ensures Clean(SplitCanonical(exec)) <==> !AnyControl(exec)
  {
    var argv := SplitCanonical(exec);
    if AnyControl(exec) {
      var c :| c in exec && IsControl(c);
      SplitChars(exec, [], c);
      var a :| a in argv && c in a;
    } else {
      forall a | a in argv ensures !AnyControl(a) {
        if AnyControl(a) {
          var c :| c in a && IsControl(c);
          SplitChars(exec, [], c);
        }
      }
    }
  }

  lemma ValidNames(e: Model.Entry)
    requires ValidEntry(e)
    ensures !AnyControl(e.labelText) && (e.cwd.Some? ==> !AnyControl(e.cwd.value))
    ensures AnyControl(e.exec) <==> '\t' in e.exec
  {
    hide Len, ValidLauncherPath, IsLauncherId, ValidSha256, EndsWith;
    assert !HasForbiddenControl(e.labelText, false) && !HasForbiddenControl(e.exec, true);
    if e.cwd.Some? { assert !HasForbiddenControl(e.cwd.value, false); }
  }

  /** A valid entry has a launcher exactly when its command holds no tab. */
  lemma ValidWritable(e: Model.Entry)
    requires ValidEntry(e)
    ensures LauncherText(e).Wrote? <==> '\t' !in e.exec
  {
    ValidNames(e);
    SplitClean(e.exec);
    hide ValidEntry, Arguments, AnyControl, Contents;
  }
}
