/** What a reviewer can conclude from the rendered review: read as a patch on the base, it rebuilds
    the proposal; and the summary names exactly what will open. */
module Review {
  import opened Text
  import opened Model
  import opened Diff

  // ------------------------------------------------------ reading one field

  datatype Parsed<+T> = No | Yes(value: T, rest: string)

  function Expect(s: string, prefix: string): Parsed<()> {
    if prefix <= s then Yes((), s[|prefix|..]) else No
  }

  lemma ExpectExact(prefix: string, rest: string)
    ensures Expect(prefix + rest, prefix) == Yes((), rest)
  {
    assert (prefix + rest)[|prefix|..] == rest;
  }

  function Cons(c: char, r: Parsed<string>): Parsed<string> {
    match r case Yes(s, t) => Yes([c] + s, t) case No => No
  }

  /** The contents of a quoted value, up to its closing quote. */
  function Unescape(s: string): Parsed<string>
    decreases |s|
  {
    if s == [] then No
    else if s[0] == '"' then Yes([], s[1..])
    else if s[0] != '\\' then Cons(s[0], Unescape(s[1..]))
    else if |s| < 4 then if |s| >= 2 && s[1] == '\\' then Cons('\\', Unescape(s[2..])) else No
    else if s[1] == '\\' then Cons('\\', Unescape(s[2..]))
    else if s[1] == 'x' then
      match CodePoint(s[2..4]) case Some(c) => Cons(c, Unescape(s[4..])) case None => No
    else if s[1] == 'u' && s[2] == '{' then
      var (digits, rest) := DigitSpan(s[3..], 16);
      if rest == [] || rest[0] != '}' then No
      else match CodePoint(digits) case Some(c) => Cons(c, Unescape(rest[1..])) case None => No
    else No
  }

  function CodePoint(digits: string): Option<char> {
    match Value(digits, 16) case Some(v) => Scalar(v) case None => None
  }

  function ReadQuoted(s: string): Parsed<string> {
    if s != [] && s[0] == '"' then Unescape(s[1..]) else No
  }

  lemma PadCodePoint(c: char, width: nat)
    ensures CodePoint(Pad(Numeral(c as int, 16), width)) == Some(c)
    ensures forall d | d in Pad(Numeral(c as int, 16), width) :: IsDigit(d, 16)
  {
    PadValue(Numeral(c as int, 16), width, 16);
    NumeralValue(c as int, 16);
    NumeralDigits(c as int, 16);
  }

  lemma TwoHexDigits(n: nat)
    requires n < 0x100
    ensures |Pad(Numeral(n, 16), 2)| == 2
  {
    assert |Numeral(n, 16)| <= 2;
    assert |Pad(Numeral(n, 16), 2)| == 2;
  }

  lemma UnescapeByte(c: char, digits: string, rest: string)
    requires |digits| == 2 && CodePoint(digits) == Some(c)
    ensures Unescape("\\x" + digits + rest) == Cons(c, Unescape(rest))
  {
    hide CodePoint;
    var s := "\\x" + digits + rest;
    assert s[2..4] == digits && s[4..] == rest;
  }

  lemma UnescapeBraced(c: char, digits: string, rest: string)
    requires CodePoint(digits) == Some(c) && forall d | d in digits :: IsDigit(d, 16)
    ensures Unescape("\\u{" + digits + "}" + rest) == Cons(c, Unescape(rest))
  {
    hide CodePoint;
    var s := "\\u{" + digits + "}" + rest;
    assert s[3..] == digits + ("}" + rest) && ("}" + rest)[1..] == rest;
    SpanExact(digits, "}" + rest, 16);
  }

  lemma QuoteByte()
    ensures CodePoint("22") == Some('"')
  {
    assert Value("22", 16) == Some(0x22) by { assert "22"[..1] == "2" && "2"[..0] == ""; }
  }

  lemma UnescapeChar(c: char, rest: string)
    ensures Unescape(EscapeChar(c) + rest) == Cons(c, Unescape(rest))
  {
    var cp := c as int;
    if c == '"' {
      QuoteByte();
      UnescapeByte(c, "22", rest);
      assert EscapeChar(c) == "\\x" + "22";
    } else if c == '\\' || ' ' <= c <= '~' {
      var s := EscapeChar(c) + rest;
      assert s[|EscapeChar(c)|..] == rest;
    } else if cp < 0x100 {
      TwoHexDigits(cp);
      PadCodePoint(c, 2);
      UnescapeByte(c, Pad(Numeral(cp, 16), 2), rest);
    } else {
      PadCodePoint(c, 4);
      UnescapeBraced(c, Pad(Numeral(cp, 16), 4), rest);
    }
  }

  lemma {:induction false} UnescapeExact(v: string, rest: string)
    ensures Unescape(Escape(v) + ("\"" + rest)) == Yes(v, rest)
  {
    var tail := "\"" + rest;
    if v == [] {
      assert Escape(v) + tail == tail && tail[1..] == rest;
    } else {
      assert Escape(v) + tail == EscapeChar(v[0]) + (Escape(v[1..]) + tail);
      UnescapeChar(v[0], Escape(v[1..]) + tail);
      UnescapeExact(v[1..], rest);
      assert v == [v[0]] + v[1..];
    }
  }

  lemma QuotedExact(v: string, rest: string)
    ensures ReadQuoted(Quoted(v) + rest) == Yes(v, rest)
  {
    assert (Quoted(v) + rest)[1..] == Escape(v) + ("\"" + rest);
    UnescapeExact(v, rest);
  }

  // ------------------------------------------------------ reading one entry

  /** Everything up to the next space. */
  function ReadWord(s: string): (string, string) {
    if s == [] || s[0] == ' ' then ([], s)
    else var (w, rest) := ReadWord(s[1..]); ([s[0]] + w, rest)
  }

  lemma {:induction false} WordExact(w: string, rest: string)
    requires ' ' !in w && (rest == [] || rest[0] == ' ')
    ensures ReadWord(w + rest) == (w, rest)
  {
    if w == [] {
      assert w + rest == rest;
    } else {
      assert (w + rest)[1..] == w[1..] + rest;
      WordExact(w[1..], rest);
      assert w == [w[0]] + w[1..];
    }
  }

  function GeomOf(w: string): Option<bool> {
    if w == Geom(Some(true)) then Some(true) else if w == Geom(Some(false)) then Some(false) else None
  }

  function SourceOf(w: string): ExecSource {
    if w == SourceText(DesktopFile) then DesktopFile
    else if w == SourceText(OverridesTable) then OverridesTable
    else if w == SourceText(Terminal) then Terminal
    else if w == SourceText(Cmdline) then Cmdline
    else Guess
  }

  function ProvenanceOf(w: string): Provenance {
    if w == ProvenanceText(Host) then Host else NoProvenance
  }

  function ReadCwd(s: string): Parsed<Option<string>> {
    if s != [] && s[0] == '-' then Yes(None, s[1..])
    else match ReadQuoted(s) case Yes(v, r) => Yes(Some(v), r) case No => No
  }

  datatype NamePart = NamePart(id: string, windowClass: string, labelText: string)

  function ReadName(s: string): Parsed<NamePart> {
    match Expect(s, Key(FClass)) case No => No case Yes(_, a1) =>
    match ReadQuoted(a1) case No => No case Yes(id, a2) =>
    match Expect(a2, Key(FWindow)) case No => No case Yes(_, a3) =>
    match ReadQuoted(a3) case No => No case Yes(wc, a4) =>
    match Expect(a4, Key(FLabel)) case No => No case Yes(_, a5) =>
    match ReadQuoted(a5) case No => No case Yes(lab, a6) =>
      Yes(NamePart(id, wc, lab), a6)
  }

  datatype PlacePart = PlacePart(workspace: nat, float: Option<bool>, source: ExecSource,
                                 provenance: Provenance, enabled: bool)

  function ReadPlace(s: string): Parsed<PlacePart> {
    match Expect(s, Key(FWs)) case No => No case Yes(_, a1) =>
    match ReadDec(a1) case None => No case Some((ws, a2)) =>
    match Expect(a2, Key(FGeom)) case No => No case Yes(_, a3) =>
    var (g, a4) := ReadWord(a3);
    match Expect(a4, Key(FSrc)) case No => No case Yes(_, a5) =>
    var (src, a6) := ReadWord(a5);
    match Expect(a6, Key(FProv)) case No => No case Yes(_, a7) =>
    var (prov, a8) := ReadWord(a7);
    match Expect(a8, Key(FEnabled)) case No => No case Yes(_, a9) =>
    var (en, a10) := ReadWord(a9);
      Yes(PlacePart(ws, GeomOf(g), SourceOf(src), ProvenanceOf(prov), en == BoolText(true)), a10)
  }

  datatype CommandPart = CommandPart(exec: string, cwd: Option<string>, launcher: Launcher)

  function ReadCommand(s: string): Parsed<CommandPart> {
    match Expect(s, Key(FExec)) case No => No case Yes(_, a1) =>
    match ReadQuoted(a1) case No => No case Yes(exec, a2) =>
    match Expect(a2, Key(FCwd)) case No => No case Yes(_, a3) =>
    match ReadCwd(a3) case No => No case Yes(cwd, a4) =>
    match Expect(a4, Key(FLauncher)) case No => No case Yes(_, a5) =>
    match ReadQuoted(a5) case No => No case Yes(path, a6) =>
    match Expect(a6, Key(FSha)) case No => No case Yes(_, a7) =>
      Yes(CommandPart(exec, cwd, Launcher(path, a7)), [])
  }

  function ReadEntry(s: string): Option<Entry> {
    match ReadName(s) case No => None case Yes(n, r) =>
    match ReadPlace(r) case No => None case Yes(p, r') =>
    match ReadCommand(r') case No => None case Yes(c, _) =>
      if p.workspace >= 0x1_0000_0000 then None
      else Some(Entry(n.id, n.windowClass, p.workspace, p.float, n.labelText, c.exec, p.source,
                      p.provenance, c.launcher, c.cwd, p.enabled))
  }

  lemma KeysSpaced()
    ensures forall f | f != FClass :: Key(f) != [] && Key(f)[0] == ' '
  {
  }

  lemma NameExact(e: Entry, rest: string)
    ensures ReadName(NameText(e) + rest) == Yes(NamePart(e.id, e.windowClass, e.labelText), rest)
  {
    hide Key, Quoted, ReadQuoted, Expect, Unescape, Escape;
    var a5 := Quoted(e.labelText) + rest;
    var a4 := Key(FLabel) + a5;
    var a3 := Quoted(e.windowClass) + a4;
    var a2 := Key(FWindow) + a3;
    var a1 := Quoted(e.id) + a2;
    assert NameText(e) + rest == Key(FClass) + a1;
    ExpectExact(Key(FClass), a1);
    QuotedExact(e.id, a2);
    ExpectExact(Key(FWindow), a3);
    QuotedExact(e.windowClass, a4);
    ExpectExact(Key(FLabel), a5);
    QuotedExact(e.labelText, rest);
  }

  lemma WordsSpaceless(e: Entry)
    ensures ' ' !in Geom(e.float) && ' ' !in SourceText(e.execSource)
    ensures ' ' !in ProvenanceText(e.provenance) && ' ' !in BoolText(e.enabled)
    ensures GeomOf(Geom(e.float)) == e.float && SourceOf(SourceText(e.execSource)) == e.execSource
    ensures ProvenanceOf(ProvenanceText(e.provenance)) == e.provenance
    ensures (BoolText(e.enabled) == BoolText(true)) == e.enabled
  {
    assert Geom(None)[0] == 'u' && Geom(Some(true))[0] == 'f' && Geom(Some(false))[0] == 't';
    assert SourceText(DesktopFile)[0] == 'D' && SourceText(OverridesTable)[0] == 'O';
    assert SourceText(Terminal)[0] == 'T' && SourceText(Cmdline)[0] == 'C' && SourceText(Guess)[0] == 'G';
    assert ProvenanceText(Host)[0] == 'H' && ProvenanceText(NoProvenance)[0] == 'N';
    assert BoolText(true)[0] == 't' && BoolText(false)[0] == 'f';
  }

  lemma PlaceExact(e: Entry, rest: string)
    requires rest != [] && rest[0] == ' '
    ensures ReadPlace(PlaceText(e) + rest)
            == Yes(PlacePart(e.workspace, e.float, e.execSource, e.provenance, e.enabled), rest)
  {
    KeysSpaced();
    WordsSpaceless(e);
    hide Key, Expect, ReadWord, ReadDec, Numeral, Geom, SourceText, ProvenanceText, BoolText,
      GeomOf, SourceOf, ProvenanceOf;
    var a9 := BoolText(e.enabled) + rest;
    var a8 := Key(FEnabled) + a9;
    var a7 := ProvenanceText(e.provenance) + a8;
    var a6 := Key(FProv) + a7;
    var a5 := SourceText(e.execSource) + a6;
    var a4 := Key(FSrc) + a5;
    var a3 := Geom(e.float) + a4;
    var a2 := Key(FGeom) + a3;
    var a1 := Dec(e.workspace) + a2;
    assert PlaceText(e) + rest == Key(FWs) + a1;
    ExpectExact(Key(FWs), a1);
    ReadDecExact(e.workspace, a2);
    ExpectExact(Key(FGeom), a3);
    WordExact(Geom(e.float), a4);
    ExpectExact(Key(FSrc), a5);
    WordExact(SourceText(e.execSource), a6);
    ExpectExact(Key(FProv), a7);
    WordExact(ProvenanceText(e.provenance), a8);
    ExpectExact(Key(FEnabled), a9);
    WordExact(BoolText(e.enabled), rest);
  }

  lemma CwdExact(c: Option<string>, rest: string)
    ensures ReadCwd(CwdText(c) + rest) == Yes(c, rest)
  {
    hide Unescape, Escape;
    var s := CwdText(c) + rest;
    match c
    case None => assert s[1..] == rest;
    case Some(v) => assert s[0] == '"'; QuotedExact(v, rest);
  }

  lemma CommandExact(e: Entry)
    ensures ReadCommand(CommandText(e)) == Yes(CommandPart(e.exec, e.cwd, e.launcher), [])
  {
    hide Key, Quoted, ReadQuoted, Expect, ReadCwd, CwdText;
    var a7 := e.launcher.sha256;
    var a6 := Key(FSha) + a7;
    var a5 := Quoted(e.launcher.path) + a6;
    var a4 := Key(FLauncher) + a5;
    var a3 := CwdText(e.cwd) + a4;
    var a2 := Key(FCwd) + a3;
    var a1 := Quoted(e.exec) + a2;
    ExpectExact(Key(FExec), a1);
    QuotedExact(e.exec, a2);
    ExpectExact(Key(FCwd), a3);
    CwdExact(e.cwd, a4);
    ExpectExact(Key(FLauncher), a5);
    QuotedExact(e.launcher.path, a6);
    ExpectExact(Key(FSha), a7);
  }

  /** Every field of an entry is legible in its line, whatever its strings contain. */
  lemma EntryExact(e: Entry)
    ensures ReadEntry(FmtEntry(e)) == Some(e)
  {
    KeysSpaced();
    hide Key, ReadName, ReadPlace, ReadCommand, NameText, PlaceText;
    assert CommandText(e)[0] == ' ';
    NameExact(e, PlaceText(e) + CommandText(e));
    PlaceExact(e, CommandText(e));
    CommandExact(e);
  }

  // ------------------------------------------------- the text read as a patch

  /** What a document launches, by class, and its delays. */
  datatype Doc = Doc(entries: map<string, Entry>, pre: nat, post: nat)

  function DocOf(cfg: SignedConfig): Doc { Doc(Index(cfg.entries), cfg.preLaunchMs, cfg.postLaunchMs) }

  function ReadDelay(line: string, d: Delay): Option<nat> {
    match Expect(line, DelayName(d)) case No => None case Yes(_, a1) =>
    match ReadDec(a1) case None => None case Some((_, a2)) =>
    match Expect(a2, Arrow()) case No => None case Yes(_, a3) =>
    match ReadDec(a3) case None => None case Some((n, _)) => Some(n)
  }

  function ReadChange(line: string, c: Change): Option<Entry> {
    match Expect(line, Sign(c)) case No => None case Yes(_, r) => ReadEntry(r)
  }

  function ApplyLine(d: Doc, line: string): Doc {
    match ReadDelay(line, Pre) case Some(n) => d.(pre := n) case None =>
    match ReadDelay(line, Post) case Some(n) => d.(post := n) case None =>
    match ReadChange(line, Added) case Some(e) => d.(entries := d.entries[e.id := e]) case None =>
    match ReadChange(line, After) case Some(e) => d.(entries := d.entries[e.id := e]) case None =>
    match ReadChange(line, Removed) case Some(e) => d.(entries := d.entries - {e.id}) case None => d
  }

  function ApplyLines(d: Doc, lines: seq<string>): Doc
    decreases |lines|
  {
    hide ApplyLine;
    if lines == [] then d else ApplyLines(ApplyLine(d, lines[0]), lines[1..])
  }

  /** The whole rendering read as a patch: the header says nothing, every other line its change. */
  function ReadBack(d: Doc, rendered: string): Doc {
    ApplyLines(d, Split(rendered, '\n')[1..])
  }

  lemma {:induction false} ApplyAppend(d: Doc, a: seq<string>, b: seq<string>)
    ensures ApplyLines(d, a + b) == ApplyLines(ApplyLines(d, a), b)
    decreases |a|
  {
    hide ApplyLine;
    if a == [] {
      assert a + b == b;
    } else {
      assert (a + b)[1..] == a[1..] + b;
      ApplyAppend(ApplyLine(d, a[0]), a[1..], b);
    }
  }

  lemma SignsDiffer()
    ensures Sign(Before)[0] == '~' && Sign(After)[0] == ' ' && Sign(Added)[0] == '+' && Sign(Removed)[0] == '-'
    ensures forall c :: Sign(c) != []
    ensures |Sign(Before)| == 2 && Key(FClass)[0] == 'c'
    ensures |DelayName(Pre)| > 3 && |DelayName(Post)| > 3
    ensures DelayName(Pre)[0] == '~' && DelayName(Post)[0] == '~'
    ensures DelayName(Pre)[2] == 'p' && DelayName(Post)[2] == 'p'
    ensures DelayName(Pre)[3] == 'r' && DelayName(Post)[3] == 'o'
    ensures Arrow() != [] && Arrow()[0] == ' '
  {
  }

  lemma DelayExact(d: Delay, was: nat, now: nat)
    ensures ReadDelay(DelayText(d, was, now), d) == Some(now)
    ensures d.Post? ==> ReadDelay(DelayText(d, was, now), Pre) == None
  {
    SignsDiffer();
    hide Numeral, DelayName, Arrow, Expect, ReadDec;
    var a3 := Dec(now);
    var a2 := Arrow() + a3;
    var a1 := Dec(was) + a2;
    ExpectExact(DelayName(d), a1);
    ReadDecExact(was, a2);
    ExpectExact(Arrow(), a3);
    assert a3 == Dec(now) + [];
    ReadDecExact(now, []);
    if d.Post? { OtherStart(DelayText(d, was, now), DelayName(Pre), 3); }
  }

  lemma OtherStart(line: string, prefix: string, i: nat)
    requires i < |line| && i < |prefix| && line[i] != prefix[i]
    ensures Expect(line, prefix).No?
  {
  }

  lemma DelayLineExact(doc: Doc, d: Delay, was: nat, now: nat)
    ensures ApplyLines(doc, DelayLine(d, was, now))
            == if was == now then doc else if d.Pre? then doc.(pre := now) else doc.(post := now)
  {
    hide ReadDelay, DelayText, ReadChange;
    if was != now {
      DelayExact(d, was, now);
      assert DelayLine(d, was, now)[1..] == [];
      assert ApplyLines(ApplyLine(doc, DelayText(d, was, now)), []) == ApplyLine(doc, DelayText(d, was, now));
    }
  }

  lemma ChangeIsNoDelay(c: Change, e: Entry, d: Delay)
    ensures ReadDelay(ChangeLine(c, e), d).None?
  {
    SignsDiffer();
    assert FmtEntry(e)[0] == 'c' by { hide PlaceText, CommandText, Quoted; }
    hide Sign, DelayName, FmtEntry, Expect;
    OtherStart(ChangeLine(c, e), DelayName(d), if c.Before? then 2 else 0);
  }

  lemma ChangeExact(c: Change, e: Entry, other: Change)
    ensures ReadChange(ChangeLine(c, e), other) == if other == c then Some(e) else None
  {
    SignsDiffer();
    EntryExact(e);
    hide Sign, FmtEntry, ReadEntry, Expect;
    if other == c {
      ExpectExact(Sign(c), FmtEntry(e));
    } else {
      OtherStart(ChangeLine(c, e), Sign(other), 0);
    }
  }

  lemma ChangeLineExact(doc: Doc, c: Change, e: Entry)
    ensures ApplyLine(doc, ChangeLine(c, e))
            == match c
               case Before => doc
               case Removed => doc.(entries := doc.entries - {e.id})
               case _ => doc.(entries := doc.entries[e.id := e])
  {
    hide ChangeLine, ReadDelay, ReadChange;
    ChangeIsNoDelay(c, e, Pre);
    ChangeIsNoDelay(c, e, Post);
    ChangeExact(c, e, Added);
    ChangeExact(c, e, After);
    ChangeExact(c, e, Removed);
  }

  // ------------------------------------------------ the patch makes the proposal

  /** `was` with the classes in `ids` as `now` has them. */
  ghost predicate Mixed(m: map<string, Entry>, was: map<string, Entry>, now: map<string, Entry>, ids: seq<string>) {
    forall id :: if id in ids then (id in m <==> id in now) && (id in now ==> m[id] == now[id])
                 else (id in m <==> id in was) && (id in was ==> m[id] == was[id])
  }

  lemma ClassApplied(doc: Doc, was: map<string, Entry>, now: map<string, Entry>, ids: seq<string>, id: string)
    requires Mixed(doc.entries, was, now, ids) && id !in ids
    requires id in was ==> was[id].id == id
    requires id in now ==> now[id].id == id
    ensures var after := ApplyLines(doc, ClassLines(was, now, id));
            Mixed(after.entries, was, now, ids + [id]) && after.pre == doc.pre && after.post == doc.post
  {
    hide ApplyLine, ChangeLine;
    var lines := ClassLines(was, now, id);
    var after := ApplyLines(doc, lines);
    assert forall x :: x in ids + [id] <==> x in ids || x == id;
    if |lines| == 1 {
      ApplyOne(doc, lines[0]);
      ChangeLineExact(doc, if id in now then Added else Removed, if id in now then now[id] else was[id]);
    } else if |lines| == 2 {
      ChangeLineExact(doc, Before, was[id]);
      ChangeLineExact(doc, After, now[id]);
      ApplyTwo(doc, lines[0], lines[1]);
    }
  }

  lemma ApplyOne(doc: Doc, line: string)
    ensures ApplyLines(doc, [line]) == ApplyLine(doc, line)
  {
    hide ApplyLine;
    assert [line][1..] == [];
  }

  lemma ApplyTwo(doc: Doc, first: string, second: string)
    ensures ApplyLines(doc, [first, second]) == ApplyLine(ApplyLine(doc, first), second)
  {
    hide ApplyLine;
    assert [first, second][1..] == [second];
    ApplyOne(ApplyLine(doc, first), second);
  }

  predicate Keyed(m: map<string, Entry>) { forall id | id in m :: m[id].id == id }

  predicate Distinct(ids: seq<string>) { forall i, j | 0 <= i < j < |ids| :: ids[i] != ids[j] }

  lemma {:induction false} ClassesApplied(doc: Doc, was: map<string, Entry>, now: map<string, Entry>, ids: seq<string>)
    requires doc.entries == was && Keyed(was) && Keyed(now) && Distinct(ids)
    ensures var after := ApplyLines(doc, EntryLines(was, now, ids));
            Mixed(after.entries, was, now, ids) && after.pre == doc.pre && after.post == doc.post
  {
    hide ApplyLine, ChangeLine, ClassLines;
    if ids != [] {
      var (init, id) := (ids[..|ids| - 1], ids[|ids| - 1]);
      ClassesApplied(doc, was, now, init);
      ApplyAppend(doc, EntryLines(was, now, init), ClassLines(was, now, id));
      assert id !in init;
      ClassApplied(ApplyLines(doc, EntryLines(was, now, init)), was, now, init, id);
      assert init + [id] == ids;
    }
  }

  // ------------------------------------------------------ the classes, the maps

  predicate InOrder(ids: seq<string>) { forall i, j | 0 <= i < j < |ids| :: Less(ids[i], ids[j]) }

  lemma {:induction false} InsertIdExact(id: string, ids: seq<string>)
    requires InOrder(ids)
    ensures var r := InsertId(id, ids);
            InOrder(r) && forall x :: x in r <==> x == id || x in ids
  {
    var r := InsertId(id, ids);
    if ids == [] || id == ids[0] {
    } else if Less(id, ids[0]) {
      forall j | 1 <= j < |r| ensures Less(id, r[j]) {
        if j > 1 { LessTrans(id, ids[0], ids[j - 1]); }
      }
    } else {
      LessTotal(id, ids[0]);
      InsertIdExact(id, ids[1..]);
      assert ids == [ids[0]] + ids[1..];
      forall j | 1 <= j < |r| ensures Less(ids[0], r[j]) {
        assert r[j] in r[1..];
        if r[j] != id {
          var k :| 0 <= k < |ids[1..]| && ids[1..][k] == r[j];
          assert Less(ids[0], ids[k + 1]);
        }
      }
    }
  }

  lemma {:induction false} IdsExact(es: seq<Entry>, ids: seq<string>)
    requires InOrder(ids)
    ensures var r := Ids(es, ids);
            InOrder(r) && forall x :: x in r <==> x in ids || exists e :: e in es && e.id == x
    decreases |es|
  {
    if es != [] {
      InsertIdExact(es[0].id, ids);
      IdsExact(es[1..], InsertId(es[0].id, ids));
      assert forall e :: e in es <==> e == es[0] || e in es[1..];
    }
  }

  lemma {:induction false} IndexExact(es: seq<Entry>)
    ensures Keyed(Index(es))
    ensures forall x :: x in Index(es) <==> exists e :: e in es && e.id == x
    ensures Ascending(es) ==> forall e :: e in es <==> e.id in Index(es) && Index(es)[e.id] == e
    decreases |es|
  {
    if es != [] {
      var (init, last) := (es[..|es| - 1], es[|es| - 1]);
      IndexExact(init);
      assert es == init + [last];
      if Ascending(es) {
        forall e | e in init ensures e.id != last.id {
          var i :| 0 <= i < |init| && init[i] == e;
          assert Less(es[i].id, last.id);
          LessTotal(e.id, last.id);
        }
      }
    }
  }

  /** The classes both documents have between them, in order, each once. */
  lemma ClassesExact(base: SignedConfig, proposal: SignedConfig)
    ensures var ids := Classes(base, proposal);
            Distinct(ids)
            && forall x :: x in ids <==> x in Index(base.entries) || x in Index(proposal.entries)
  {
    IdsExact(base.entries, []);
    IdsExact(proposal.entries, Ids(base.entries, []));
    IndexExact(base.entries);
    IndexExact(proposal.entries);
    var ids := Classes(base, proposal);
    forall i, j | 0 <= i < j < |ids| ensures ids[i] != ids[j] {
      LessTotal(ids[i], ids[j]);
    }
  }

  /** A valid document's entries can be told from its map. */
  lemma IndexDetermines(a: seq<Entry>, b: seq<Entry>)
    requires Ascending(a) && Ascending(b) && Index(a) == Index(b)
    ensures a == b
  {
    IndexExact(a);
    IndexExact(b);
    AscendingUnique(a, b);
  }

  // -------------------------------------------------------- lines stay lines

  /** Printable ASCII, and so one line. */
  predicate Visible(s: string) { forall c | c in s :: ' ' <= c <= '~' }

  lemma {:induction false} EscapeClean(s: string)
    ensures Visible(Escape(s))
  {
    if s != [] {
      EscapeClean(s[1..]);
      assert Visible(EscapeChar(s[0]));
    }
  }

  lemma FieldClean(f: Field)
    ensures Visible(Key(f))
  {
  }

  lemma SourceClean(s: ExecSource)
    ensures Visible(SourceText(s))
  {
  }

  lemma SignClean(c: Change)
    ensures Visible(Sign(c))
  {
  }

  lemma DelayClean(d: Delay)
    ensures Visible(DelayName(d))
  {
  }

  lemma KeyClean()
    ensures forall f :: Visible(Key(f))
    ensures forall f :: Visible(Geom(f))
    ensures forall x :: Visible(SourceText(x))
    ensures forall x :: Visible(ProvenanceText(x))
    ensures forall x :: Visible(BoolText(x))
    ensures forall x :: Visible(Sign(x))
    ensures forall x :: Visible(DelayName(x))
    ensures Visible(Arrow())
  {
    hide Key, SourceText, Sign, DelayName;
    forall f ensures Visible(Key(f)) { FieldClean(f); }
    forall x ensures Visible(SourceText(x)) { SourceClean(x); }
    forall x ensures Visible(Sign(x)) { SignClean(x); }
    forall x ensures Visible(DelayName(x)) { DelayClean(x); }
  }

  lemma QuotedClean(s: string)
    ensures Visible(Quoted(s))
  {
    hide Escape;
    EscapeClean(s);
  }

  lemma NameClean(e: Entry)
    ensures Visible(NameText(e))
  {
    hide Key, Quoted;
    KeyClean();
    QuotedClean(e.id);
    QuotedClean(e.windowClass);
    QuotedClean(e.labelText);
  }

  lemma PlaceClean(e: Entry)
    ensures Visible(PlaceText(e))
  {
    hide Key, Geom, SourceText, ProvenanceText, BoolText;
    KeyClean();
  }

  lemma CommandClean(e: Entry)
    requires AllLowerHex(e.launcher.sha256)
    ensures Visible(CommandText(e))
  {
    hide Key, Quoted;
    KeyClean();
    QuotedClean(e.exec);
    if e.cwd.Some? { QuotedClean(e.cwd.value); }
    QuotedClean(e.launcher.path);
  }

  lemma FmtClean(e: Entry)
    requires AllLowerHex(e.launcher.sha256)
    ensures Visible(FmtEntry(e))
  {
    hide NameText, PlaceText, CommandText;
    NameClean(e);
    PlaceClean(e);
    CommandClean(e);
  }

  predicate AllVisible(lines: seq<string>) { forall l | l in lines :: Visible(l) }

  predicate Clean(lines: seq<string>) { forall l | l in lines :: '\n' !in l }

  lemma {:induction false} EntryLinesClean(was: map<string, Entry>, now: map<string, Entry>, ids: seq<string>)
    requires forall id | id in was :: AllLowerHex(was[id].launcher.sha256)
    requires forall id | id in now :: AllLowerHex(now[id].launcher.sha256)
    ensures AllVisible(EntryLines(was, now, ids))
    decreases |ids|
  {
    if ids != [] {
      var id := ids[|ids| - 1];
      EntryLinesClean(was, now, ids[..|ids| - 1]);
      KeyClean();
      if id in was { FmtClean(was[id]); }
      if id in now { FmtClean(now[id]); }
      hide FmtEntry, Sign;
      assert AllVisible(ClassLines(was, now, id));
    }
  }

  predicate HexSums(cfg: SignedConfig) { forall e | e in cfg.entries :: AllLowerHex(e.launcher.sha256) }

  lemma DelayLinesClean(base: SignedConfig, proposal: SignedConfig)
    ensures AllVisible(DelayLines(base, proposal))
  {
    DelayTextClean(Pre, base.preLaunchMs, proposal.preLaunchMs);
    DelayTextClean(Post, base.postLaunchMs, proposal.postLaunchMs);
    hide DelayText, Visible;
  }

  lemma DelayTextClean(d: Delay, was: nat, now: nat)
    ensures Visible(DelayText(d, was, now))
  {
    hide DelayName, Arrow, Numeral;
    KeyClean();
  }

  lemma LinesClean(base: SignedConfig, proposal: SignedConfig)
    requires HexSums(base) && HexSums(proposal) && Ascending(base.entries) && Ascending(proposal.entries)
    ensures AllVisible(Lines(base, proposal)) && Clean(Lines(base, proposal))
  {
    IndexExact(base.entries);
    IndexExact(proposal.entries);
    EntryLinesClean(Index(base.entries), Index(proposal.entries), Classes(base, proposal));
    DelayLinesClean(base, proposal);
    hide DelayLines, EntryLines, Classes, Index, Visible;
    assert AllVisible(Lines(base, proposal));
    VisibleClean(Lines(base, proposal));
  }

  lemma VisibleClean(lines: seq<string>)
    requires AllVisible(lines)
    ensures Clean(lines)
  {
  }

  predicate PlainChar(c: char) { ' ' <= c <= '~' && c != '\\' && c != '"' }

  /** A value in the review: every character that could forge or reorder what is shown is written out, and a value
      is shown as it is exactly when it has none. */
  lemma EscapeVisible(s: string)
    ensures Visible(Escape(s)) && '"' !in Escape(s)
    ensures Escape(s) == s <==> forall c | c in s :: PlainChar(c)
  {
    hide Escape;
    EscapeClean(s);
    EscapedPlain(s);
  }

  lemma {:induction false} EscapedPlain(s: string)
    ensures |Escape(s)| >= |s| && '"' !in Escape(s)
    ensures |Escape(s)| == |s| <==> forall c | c in s :: PlainChar(c)
    ensures |Escape(s)| == |s| ==> Escape(s) == s
  {
    if s != [] {
      hide EscapeChar, PlainChar;
      EscapedPlain(s[1..]);
      CharPlain(s[0]);
      FirstAndRest(s);
      var (first, rest) := (EscapeChar(s[0]), Escape(s[1..]));
      assert Escape(s) == first + rest;
      if |Escape(s)| == |s| { assert first == [s[0]] && rest == s[1..]; }
    }
  }

  lemma FirstAndRest(s: string)
    requires s != []
    ensures forall c :: c in s <==> c == s[0] || c in s[1..]
  {
    assert s == [s[0]] + s[1..];
  }

  lemma CharPlain(c: char)
    ensures EscapeChar(c) != [] && '"' !in EscapeChar(c)
    ensures |EscapeChar(c)| == 1 <==> PlainChar(c)
    ensures |EscapeChar(c)| == 1 ==> EscapeChar(c) == [c]
  {
  }

  lemma {:induction false} JoinVisible(lines: seq<string>)
    requires AllVisible(lines)
    ensures forall c | c in Join(lines, '\n') :: c == '\n' || ' ' <= c <= '~'
  {
    if lines != [] { assert Visible(lines[0]) by { assert lines[0] in lines; } }
    if |lines| > 1 {
      assert AllVisible(lines[1..]) by { assert lines == [lines[0]] + lines[1..]; }
      JoinVisible(lines[1..]);
      assert Join(lines, '\n') == lines[0] + ['\n'] + Join(lines[1..], '\n');
    }
  }

  /** Nothing in the rendered review, whatever the entries hold, is anything but printable ASCII and line ends. */
  lemma RenderedVisible(base: SignedConfig, proposal: SignedConfig, digestShort: string)
    requires HexSums(base) && HexSums(proposal) && Ascending(base.entries) && Ascending(proposal.entries)
    requires Visible(digestShort)
    ensures forall c | c in Full(base, proposal, digestShort).rendered :: c == '\n' || ' ' <= c <= '~'
  {
    hide Lines, Join, Changes, SummaryLines, Ascending, Index, Classes, Header, HexSums;
    LinesClean(base, proposal);
    JoinVisible(Lines(base, proposal));
    HeaderVisible(Full(base, proposal, digestShort).changed, digestShort);
  }

  lemma HeaderVisible(changed: nat, digestShort: string)
    requires Visible(digestShort)
    ensures Visible(Header(changed, digestShort))
  {
    hide Numeral;
  }

  lemma SplitRendered(head: string, lines: seq<string>)
    requires '\n' !in head && Clean(lines)
    ensures Split(head + "\n" + Join(lines, '\n'), '\n')[1..] == if lines == [] then [[]] else lines
  {
    var body := Join(lines, '\n');
    assert head + "\n" + body == head + ['\n'] + body;
    SplitFirst(head, '\n', body);
    if lines != [] { SplitJoin(lines, '\n'); }
  }

  lemma EmptyLine(d: Doc)
    ensures ApplyLines(d, [[]]) == d
  {
    SignsDiffer();
    hide DelayName, Sign, ReadEntry, ReadDec;
    assert ApplyLine(d, []) == d;
    assert ApplyLines(d, [[]]) == ApplyLines(ApplyLine(d, []), []);
  }

  lemma LinesApplied(base: SignedConfig, proposal: SignedConfig)
    ensures ApplyLines(DocOf(base), Lines(base, proposal)) == DocOf(proposal)
  {
    var (was, now, ids) := (Index(base.entries), Index(proposal.entries), Classes(base, proposal));
    ClassesExact(base, proposal);
    IndexExact(base.entries);
    IndexExact(proposal.entries);
    hide EntryLines, Classes, Index, DelayLine, ApplyLines, Less;
    var d0 := DocOf(base);
    var pre := DelayLine(Pre, base.preLaunchMs, proposal.preLaunchMs);
    var post := DelayLine(Post, base.postLaunchMs, proposal.postLaunchMs);
    var rest := EntryLines(was, now, ids);
    DelayLineExact(d0, Pre, base.preLaunchMs, proposal.preLaunchMs);
    ApplyAppend(d0, pre, post);
    var d1 := ApplyLines(d0, pre);
    DelayLineExact(d1, Post, base.postLaunchMs, proposal.postLaunchMs);
    var d2 := ApplyLines(d1, post);
    ApplyAppend(d0, pre + post, rest);
    ClassesApplied(d2, was, now, ids);
    assert ApplyLines(d2, rest).entries == now;
  }

  lemma HeaderClean(changed: nat, digestShort: string)
    requires '\n' !in digestShort
    ensures '\n' !in Header(changed, digestShort)
  {
    hide Numeral;
  }

  /** The review determines the change: read as a patch on the base, the rendered text rebuilds the
      proposal's entries and delays exactly. */
  lemma RenderedRebuilds(base: SignedConfig, proposal: SignedConfig, digestShort: string)
    requires HexSums(base) && HexSums(proposal) && Ascending(base.entries) && Ascending(proposal.entries)
    requires '\n' !in digestShort
    ensures ReadBack(DocOf(base), Full(base, proposal, digestShort).rendered) == DocOf(proposal)
  {
    LinesClean(base, proposal);
    LinesApplied(base, proposal);
    hide Header, Lines, Split, Join, DocOf, Changes, SummaryLines, Ascending, ApplyLine;
    var head := Header(Full(base, proposal, digestShort).changed, digestShort);
    HeaderClean(Full(base, proposal, digestShort).changed, digestShort);
    SplitRendered(head, Lines(base, proposal));
    EmptyLine(DocOf(base));
  }

  /** Two proposals that render alike against one base are the same proposal. */
  lemma RenderedInjective(base: SignedConfig, a: SignedConfig, b: SignedConfig, da: string, db: string)
    requires HexSums(base) && HexSums(a) && HexSums(b)
    requires Ascending(base.entries) && Ascending(a.entries) && Ascending(b.entries)
    requires '\n' !in da && '\n' !in db
    requires Full(base, a, da).rendered == Full(base, b, db).rendered
    ensures a.entries == b.entries && a.preLaunchMs == b.preLaunchMs && a.postLaunchMs == b.postLaunchMs
  {
    RenderedRebuilds(base, a, da);
    RenderedRebuilds(base, b, db);
    IndexDetermines(a.entries, b.entries);
  }

  // ------------------------------------------------------------ has it changed

  function Differing(was: map<string, Entry>, now: map<string, Entry>, ids: seq<string>): set<string> {
    set id | id in ids && Differs(was, now, id)
  }

  lemma {:induction false} ChangesCount(was: map<string, Entry>, now: map<string, Entry>, ids: seq<string>)
    requires Distinct(ids)
    ensures Changes(was, now, ids) == |Differing(was, now, ids)|
    decreases |ids|
  {
    hide Differs;
    if ids != [] {
      var (init, last) := (ids[..|ids| - 1], ids[|ids| - 1]);
      ChangesCount(was, now, init);
      assert last !in init;
      DifferingMore(was, now, init, last);
      assert ids == init + [last];
    } else {
      assert Differing(was, now, ids) == {};
    }
  }

  lemma DifferingMore(was: map<string, Entry>, now: map<string, Entry>, init: seq<string>, last: string)
    requires last !in init
    ensures last !in Differing(was, now, init)
    ensures Differing(was, now, init + [last]) ==
              Differing(was, now, init) + if Differs(was, now, last) then {last} else {}
  {
    hide Differs;
    assert forall id :: id in init + [last] <==> id in init || id == last;
  }

  /** Nothing to authorize means nothing at all changed: `has_change` is false exactly when the
      proposal has the base's entries and delays. */
  lemma HasChangeExact(base: SignedConfig, proposal: SignedConfig, digestShort: string)
    requires Ascending(base.entries) && Ascending(proposal.entries)
    ensures Full(base, proposal, digestShort).hasChange
            <==> base.entries != proposal.entries || base.preLaunchMs != proposal.preLaunchMs
                 || base.postLaunchMs != proposal.postLaunchMs
    ensures Full(base, proposal, digestShort).changed
            == |Differing(Index(base.entries), Index(proposal.entries), Classes(base, proposal))|
  {
    var (was, now, ids) := (Index(base.entries), Index(proposal.entries), Classes(base, proposal));
    ClassesExact(base, proposal);
    ChangesCount(was, now, ids);
    var all := Differing(was, now, ids);
    if was == now {
      assert all == {};
      IndexDetermines(base.entries, proposal.entries);
    } else {
      var id :| id in was.Keys + now.Keys && Differs(was, now, id);
      assert id in all;
    }
  }

  /** Few enough classes differ, and every line and the whole are short enough to be shown. */
  predicate WithinCaps(base: SignedConfig, proposal: SignedConfig, digestShort: string) {
    && |Differing(Index(base.entries), Index(proposal.entries), Classes(base, proposal))| <= MAX_CHANGED
    && (forall l | l in Lines(base, proposal) + SummaryLines(base, proposal) :: Len(l) <= MAX_LINE_BYTES)
    && var r := Full(base, proposal, digestShort); Len(r.rendered) + Len(r.summary) <= MAX_DIFF_BYTES
  }

  /** A change is refused for exceeding a cap and for nothing else. */
  lemma CapsExact(base: SignedConfig, proposal: SignedConfig, digestShort: string)
    requires Ascending(base.entries) && Ascending(proposal.entries)
    ensures Compute(base, proposal, digestShort).Ok? <==> WithinCaps(base, proposal, digestShort)
    ensures Compute(base, proposal, digestShort).Ok? ==>
              Compute(base, proposal, digestShort).review == Full(base, proposal, digestShort)
  {
    hide Lines, SummaryLines, Header, Len, Differing, Index, Classes, Changes, Ascending;
    HasChangeExact(base, proposal, digestShort);
  }

  // --------------------------------------------------------------- the summary

  predicate IsOpening(was: map<string, Entry>, now: map<string, Entry>, a: App) {
    var id := a.entry.id;
    id in now && now[id] == a.entry && a.entry.enabled && a.mark == MarkOf(was, a.entry)
  }

  predicate IsStopping(was: map<string, Entry>, now: map<string, Entry>, a: App) {
    var id := a.entry.id;
    id in was && was[id] == a.entry && a.entry.enabled && !(id in now && now[id].enabled) && a.mark == Same
  }

  /** No class is listed twice. */
  predicate EachOnce(apps: seq<App>) { forall i, j | 0 <= i < j < |apps| :: apps[i].entry.id != apps[j].entry.id }

  lemma {:induction false} OpensExact(was: map<string, Entry>, now: map<string, Entry>, ids: seq<string>)
    requires Keyed(now) && Distinct(ids)
    ensures forall a :: a in Opens(was, now, ids) <==> a.entry.id in ids && IsOpening(was, now, a)
    ensures EachOnce(Opens(was, now, ids))
    decreases |ids|
  {
    if ids != [] {
      var (init, last) := (ids[..|ids| - 1], ids[|ids| - 1]);
      OpensExact(was, now, init);
      assert ids == init + [last] && last !in init;
      var opens := Opens(was, now, init);
      hide MarkOf;
      forall i | 0 <= i < |opens| ensures opens[i].entry.id != last {
        assert opens[i] in opens;
      }
      assert forall a :: a in Opens(was, now, ids) <==> a in opens || (a.entry.id == last && IsOpening(was, now, a));
    }
  }

  lemma {:induction false} StopsExact(was: map<string, Entry>, now: map<string, Entry>, ids: seq<string>)
    requires Keyed(was) && Distinct(ids)
    ensures forall a :: a in Stops(was, now, ids) <==> a.entry.id in ids && IsStopping(was, now, a)
    ensures EachOnce(Stops(was, now, ids))
    decreases |ids|
  {
    if ids != [] {
      var (init, last) := (ids[..|ids| - 1], ids[|ids| - 1]);
      StopsExact(was, now, init);
      assert ids == init + [last] && last !in init;
      var stops := Stops(was, now, init);
      forall i | 0 <= i < |stops| ensures stops[i].entry.id != last { assert stops[i] in stops; }
      assert forall a :: a in Stops(was, now, ids) <==> a in stops || (a.entry.id == last && IsStopping(was, now, a));
    }
  }

  predicate Ordered(apps: seq<App>) { forall i, j | 0 <= i < j < |apps| :: !AppLess(apps[j], apps[i]) }

  lemma AppLessTrans(a: App, b: App, c: App)
    requires AppLess(a, b) && !AppLess(c, b)
    ensures !AppLess(c, a)
  {
    hide Less;
    var (x, y, z) := (a.entry, b.entry, c.entry);
    if AppLess(c, a) {
      if Less(Name(z), Name(x)) && Less(Name(x), Name(y)) { LessTrans(Name(z), Name(x), Name(y)); }
      if Less(z.id, x.id) && Less(x.id, y.id) { LessTrans(z.id, x.id, y.id); }
    }
  }

  lemma AppLessAsym(a: App, b: App)
    ensures !(AppLess(a, b) && AppLess(b, a))
  {
    LessTotal(Name(a.entry), Name(b.entry));
    LessTotal(a.entry.id, b.entry.id);
  }

  lemma {:induction false} InsertAppOrdered(a: App, apps: seq<App>)
    requires Ordered(apps)
    ensures Ordered(InsertApp(a, apps))
    decreases |apps|
  {
    hide AppLess;
    var r := InsertApp(a, apps);
    if apps == [] {
    } else if AppLess(a, apps[0]) {
      forall j | 1 <= j < |r| ensures !AppLess(r[j], a) {
        if j == 1 { AppLessAsym(a, apps[0]); } else { AppLessTrans(a, apps[0], apps[j - 1]); }
      }
    } else {
      InsertAppOrdered(a, apps[1..]);
      var t := InsertApp(a, apps[1..]);
      forall j | 0 <= j < |t| ensures !AppLess(t[j], apps[0]) {
        assert t[j] in multiset(t);
        assert t[j] == a || t[j] in apps[1..];
      }
    }
  }

  lemma {:induction false} ByWorkspaceOrdered(apps: seq<App>)
    ensures Ordered(ByWorkspace(apps))
    decreases |apps|
  {
    hide AppLess;
    if apps != [] {
      ByWorkspaceOrdered(apps[..|apps| - 1]);
      InsertAppOrdered(apps[|apps| - 1], ByWorkspace(apps[..|apps| - 1]));
    }
  }

  lemma {:induction false} InsertAppOnce(a: App, apps: seq<App>)
    requires EachOnce(apps) && forall x | x in apps :: x.entry.id != a.entry.id
    ensures EachOnce(InsertApp(a, apps))
    decreases |apps|
  {
    hide AppLess;
    if apps != [] && !AppLess(a, apps[0]) {
      assert apps == [apps[0]] + apps[1..];
      InsertAppOnce(a, apps[1..]);
      var t := InsertApp(a, apps[1..]);
      forall j | 0 <= j < |t| ensures t[j].entry.id != apps[0].entry.id {
        assert t[j] in multiset(t);
        assert t[j] == a || t[j] in apps[1..];
      }
    } else {
      forall j | 0 <= j < |apps| ensures apps[j].entry.id != a.entry.id { assert apps[j] in apps; }
    }
  }

  lemma {:induction false} ByWorkspaceOnce(apps: seq<App>)
    requires EachOnce(apps)
    ensures EachOnce(ByWorkspace(apps))
    decreases |apps|
  {
    if apps != [] {
      var (init, last) := (apps[..|apps| - 1], apps[|apps| - 1]);
      ByWorkspaceOnce(init);
      SameMembers(ByWorkspace(init), init);
      InsertAppOnce(last, ByWorkspace(init));
    }
  }

  /** By workspace, then by what the reviewer reads as the name, then by class. */
  predicate PanelOrder(apps: seq<App>) {
    forall i, j | 0 <= i < j < |apps| :: InPanelOrder(apps[i].entry, apps[j].entry)
  }

  predicate InPanelOrder(x: Entry, y: Entry) {
    var (a, b) := (Label(x), Label(y));
    x.workspace < y.workspace || (x.workspace == y.workspace && (Less(a, b) || (a == b && !Less(y.id, x.id))))
  }

  function Label(e: Entry): string { if e.labelText != [] then e.labelText else e.windowClass }

  lemma OrderedIsPanel(apps: seq<App>)
    requires Ordered(apps)
    ensures PanelOrder(apps)
  {
    hide Less;
    forall i, j | 0 <= i < j < |apps| ensures InPanelOrder(apps[i].entry, apps[j].entry) {
      assert !AppLess(apps[j], apps[i]);
      LessTotal(Label(apps[i].entry), Label(apps[j].entry));
    }
  }

  /** The apps listed as opening, as the summary shows them. */
  function Opening(base: SignedConfig, proposal: SignedConfig): seq<App> {
    ByWorkspace(Opens(Index(base.entries), Index(proposal.entries), Classes(base, proposal)))
  }

  function Stopping(base: SignedConfig, proposal: SignedConfig): seq<App> {
    ByWorkspace(Stops(Index(base.entries), Index(proposal.entries), Classes(base, proposal)))
  }

  lemma SameMembers<T>(a: seq<T>, b: seq<T>)
    requires multiset(a) == multiset(b)
    ensures forall x :: x in a <==> x in b
  {
    forall x ensures x in a <==> x in b {
      assert x in multiset(a) <==> x in multiset(b);
    }
  }

  /** The summary's opening list is exactly the proposal's enabled entries, in panel order, each
      marked by how the base had it: unmarked only when the base has it identical. */
  lemma OpeningExact(base: SignedConfig, proposal: SignedConfig)
    requires Ascending(base.entries) && Ascending(proposal.entries)
    ensures PanelOrder(Opening(base, proposal)) && EachOnce(Opening(base, proposal))
    ensures forall a | a in Opening(base, proposal) :: a.entry in proposal.entries && a.entry.enabled
    ensures forall e | e in proposal.entries && e.enabled ::
              App(e, MarkOf(Index(base.entries), e)) in Opening(base, proposal)
    ensures forall a | a in Opening(base, proposal) ::
              && (a.mark.Same? <==> a.entry in base.entries)
              && (a.mark.Changed? <==> a.entry !in base.entries
                                       && exists b :: b in base.entries && b.id == a.entry.id && b.enabled)
  {
    var (was, now, ids) := (Index(base.entries), Index(proposal.entries), Classes(base, proposal));
    ClassesExact(base, proposal);
    IndexExact(base.entries);
    IndexExact(proposal.entries);
    hide Index, Classes, Ascending, AppLess, ByWorkspace, PanelOrder, EachOnce;
    OpensExact(was, now, ids);
    var opens := Opens(was, now, ids);
    ByWorkspaceOnce(opens);
    ByWorkspaceOrdered(opens);
    OrderedIsPanel(ByWorkspace(opens));
    SameMembers(ByWorkspace(opens), opens);
    forall e | e in proposal.entries && e.enabled ensures App(e, MarkOf(was, e)) in opens {
      assert e.id in ids && IsOpening(was, now, App(e, MarkOf(was, e)));
    }
  }

  /** It lists as stopping exactly what the base launched and the proposal does not, in the same order and
      without a mark. */
  lemma StoppingExact(base: SignedConfig, proposal: SignedConfig)
    requires Ascending(base.entries) && Ascending(proposal.entries)
    ensures PanelOrder(Stopping(base, proposal)) && EachOnce(Stopping(base, proposal))
    ensures forall a | a in Stopping(base, proposal) :: a.mark.Same?
    ensures forall e :: App(e, Same) in Stopping(base, proposal) <==>
              e in base.entries && e.enabled && !exists n :: n in proposal.entries && n.id == e.id && n.enabled
  {
    var (was, now, ids) := (Index(base.entries), Index(proposal.entries), Classes(base, proposal));
    ClassesExact(base, proposal);
    IndexExact(base.entries);
    IndexExact(proposal.entries);
    hide Index, Classes, Ascending, AppLess, ByWorkspace, PanelOrder, EachOnce;
    StopsExact(was, now, ids);
    var stops := Stops(was, now, ids);
    ByWorkspaceOnce(stops);
    ByWorkspaceOrdered(stops);
    OrderedIsPanel(ByWorkspace(stops));
    SameMembers(ByWorkspace(stops), stops);
    forall e | e in base.entries ensures e.id in ids && was[e.id] == e { }
  }

  /** Those lists are what the summary shows: a row for each app, in order, right after its heading; and
      nothing else but a change of the delays. */
  lemma SummaryShows(base: SignedConfig, proposal: SignedConfig)
    ensures var opens := Opening(base, proposal);
            var stops := Stopping(base, proposal);
            var lines := SummaryLines(base, proposal);
            && |lines| == 1 + |opens| + (if stops == [] then 0 else 1 + |stops|) + |DelaySummary(base, proposal)|
            && (forall i | 0 <= i < |opens| :: 1 + i < |lines| && lines[1 + i] == Row(opens[i]))
            && (forall i | 0 <= i < |stops| :: |opens| + 2 + i < |lines| && lines[|opens| + 2 + i] == Row(stops[i]))
            && (DelaysDiffer(base, proposal) ==> |lines| > 0 && [lines[|lines| - 1]] == DelaySummary(base, proposal))
  {
    hide Row, ByWorkspace, Opens, Stops, Index, Classes, DelaySummary, Numbers, OpensLines, StopsLines;
    var (opens, stops, delays) := (Opening(base, proposal), Stopping(base, proposal), DelaySummary(base, proposal));
    OpensShown(opens);
    StopsShown(stops);
    DelaysShown(base, proposal);
    var (a, b) := (OpensLines(opens), StopsLines(stops));
    assert SummaryLines(base, proposal) == a + b + delays;
    forall i | 0 <= i < |stops| ensures (a + b + delays)[|opens| + 2 + i] == Row(stops[i]) {
      assert (a + b + delays)[|opens| + 2 + i] == b[1 + i];
    }
  }

  predicate Dashed(s: string) { forall c | c in s :: c == DASH || ' ' <= c <= '~' }

  lemma RowVisible(a: App)
    ensures Dashed(Row(a))
  {
    hide Escape, Name;
    EscapeClean(Name(a.entry));
  }

  lemma {:induction false} RowsVisible(apps: seq<App>)
    ensures forall l | l in Rows(apps) :: Dashed(l)
  {
    hide Row, Dashed;
    if apps != [] {
      RowVisible(apps[0]);
      RowsVisible(apps[1..]);
    }
  }

  lemma HeadingsVisible(opens: seq<App>, stops: seq<App>)
    ensures forall l | l in OpensLines(opens) + StopsLines(stops) :: Dashed(l)
  {
    hide Rows, Dec, Dashed;
    RowsVisible(opens);
    RowsVisible(stops);
    HeadingVisible(|opens|);
    assert OpensLines(opens)[1..] == Rows(opens) || opens == [];
  }

  lemma HeadingVisible(n: nat)
    ensures Dashed("Relaunch will open no apps at login.") && Dashed("Relaunch will open this app at login:")
    ensures Dashed("Relaunch will open these " + Dec(n) + " apps at login:") && Dashed("It will no longer open:")
  {
    NoneOrOne();
    Several();
    var (before, after) := ("Relaunch will open these ", " apps at login:");
    hide Numeral;
    assert Dashed(Dec(n));
    assert Dashed(before + Dec(n)) by { assert forall c | c in before + Dec(n) :: c in before || c in Dec(n); }
  }

  lemma NoneOrOne()
    ensures Dashed("Relaunch will open no apps at login.") && Dashed("Relaunch will open this app at login:")
  {
  }

  lemma Several()
    ensures Dashed("Relaunch will open these ") && Dashed(" apps at login:") && Dashed("It will no longer open:")
  {
  }

  lemma DelaysVisible(base: SignedConfig, proposal: SignedConfig)
    ensures forall l | l in DelaySummary(base, proposal) :: Dashed(l)
  {
    hide Numeral;
  }

  lemma {:induction false} JoinDashed(lines: seq<string>)
    requires forall l | l in lines :: Dashed(l)
    ensures forall c | c in Join(lines, '\n') :: c == '\n' || c == DASH || ' ' <= c <= '~'
  {
    if lines != [] { assert Dashed(lines[0]) by { assert lines[0] in lines; } }
    if |lines| > 1 {
      JoinDashed(lines[1..]);
      assert Join(lines, '\n') == lines[0] + ['\n'] + Join(lines[1..], '\n');
    }
  }

  /** The summary is as plain: beyond printable ASCII and line ends it only has the dash put after an app's name. */
  lemma SummaryVisible(base: SignedConfig, proposal: SignedConfig, digestShort: string)
    ensures forall c | c in Full(base, proposal, digestShort).summary :: c == '\n' || c == DASH || ' ' <= c <= '~'
  {
    hide Dashed, OpensLines, StopsLines, DelaySummary, Join, ByWorkspace, Opens, Stops, Index, Classes, Lines, Header;
    HeadingsVisible(Opening(base, proposal), Stopping(base, proposal));
    DelaysVisible(base, proposal);
    JoinDashed(SummaryLines(base, proposal));
  }

  lemma OpensShown(opens: seq<App>)
    ensures |OpensLines(opens)| == 1 + |opens|
    ensures forall i | 0 <= i < |opens| :: OpensLines(opens)[1 + i] == Row(opens[i])
  {
    hide Row, Dec;
  }

  lemma StopsShown(stops: seq<App>)
    ensures |StopsLines(stops)| == if stops == [] then 0 else 1 + |stops|
    ensures forall i | 0 <= i < |stops| :: StopsLines(stops)[1 + i] == Row(stops[i])
  {
    hide Row;
  }

  /** The rendered review opens with the number of classes that change and the digest, each as it is. */
  lemma HeaderRead(base: SignedConfig, proposal: SignedConfig, digestShort: string)
    requires Ascending(base.entries) && Ascending(proposal.entries)
    ensures var rendered := Full(base, proposal, digestShort).rendered;
            "Relaunch: " <= rendered
            && match ReadDec(rendered[|"Relaunch: "|..])
               case Some((n, said)) =>
                 && n == |Differing(Index(base.entries), Index(proposal.entries), Classes(base, proposal))|
                 && " login-start change(s) [" + digestShort + "]\n" <= said
               case None => false
  {
    HasChangeExact(base, proposal, digestShort);
    hide Lines, Join, Changes, Differing, SummaryLines, Ascending, Index, Classes, Header;
    HeaderThen(Full(base, proposal, digestShort).changed, digestShort, Join(Lines(base, proposal), '\n'));
  }

  lemma HeaderThen(n: nat, digestShort: string, rest: string)
    ensures var text := Header(n, digestShort) + "\n" + rest;
            "Relaunch: " <= text
            && match ReadDec(text[|"Relaunch: "|..])
               case Some((m, said)) => m == n && " login-start change(s) [" + digestShort + "]\n" <= said
               case None => false
  {
    hide ReadDec, Dec;
    var (start, middle) := ("Relaunch: ", " login-start change(s) [");
    assert middle[0] == ' ' && "]" + "\n" == "]\n";
    var said := middle + digestShort + ("]" + "\n") + rest;
    ReadDecExact(n, said) by { assert said[0] == ' '; }
    HeaderParts(start, Dec(n), middle, digestShort, rest);
  }

  lemma HeaderParts(start: string, n: string, middle: string, digestShort: string, rest: string)
    ensures var text := start + n + middle + digestShort + "]" + "\n" + rest;
            start <= text && text[|start|..] == n + (middle + digestShort + ("]" + "\n") + rest)
  {
  }

  // ------------------------------------------------------- reading the summary back

  const DASH: char := '\U{2014}'

  /** A row read as a reviewer reads it: the name, the workspace, and what is said after it. */
  function ReadRow(s: string): Option<(string, nat, string)> {
    var parts := Split(s, DASH);
    var place := " workspace ";
    if |parts| != 2 || |parts[0]| < 3 || !(place <= parts[1]) then None
    else
      match Unescape(parts[0][2..|parts[0]| - 1] + "\"")
      case No => None
      case Yes(name, _) =>
        match ReadDec(parts[1][|place|..]) case None => None case Some((ws, said)) => Some((name, ws, said))
  }

  lemma {:induction false} EscapeDashless(s: string)
    ensures DASH !in Escape(s)
  {
    if s != [] {
      EscapeDashless(s[1..]);
      EscapeCharDashless(s[0]);
    }
  }

  lemma EscapeCharDashless(c: char)
    ensures DASH !in EscapeChar(c)
  {
    PadCodePoint(c, 2);
    PadCodePoint(c, 4);
    hide Pad, Numeral;
    assert !IsDigit(DASH, 16);
  }

  /** Whatever its characters, an app's name, its workspace and its mark can be told from its row. */
  lemma RowExact(a: App)
    ensures ReadRow(Row(a)) == Some((Label(a.entry), a.entry.workspace,
                                     if a.mark.New? then " (new)" else if a.mark.Changed? then " (changed)" else ""))
  {
    var (name, ws, said) := (Name(a.entry), a.entry.workspace, MarkText(a.mark));
    var left := "  " + Escape(name) + " ";
    var right := " workspace " + (Dec(ws) + said);
    RowParts(a, left, right);
    assert left[2..|left| - 1] == Escape(name);
    assert right[|" workspace "|..] == Dec(ws) + said;
    UnescapeExact(name, "");
    assert "\"" + "" == "\"";
    MarkNoDigit(a.mark);
    ReadDecExact(ws, said);
    hide Split, Row, Escape, Unescape, ReadDec, Dec;
  }

  lemma MarkNoDigit(m: Mark)
    ensures MarkText(m) == [] || !IsDigit(MarkText(m)[0], 10)
    ensures DASH !in MarkText(m)
  {
  }

  lemma RowParts(a: App, left: string, right: string)
    requires left == "  " + Escape(Name(a.entry)) + " "
      && right == " workspace " + (Dec(a.entry.workspace) + MarkText(a.mark))
    ensures Split(Row(a), DASH) == [left, right]
  {
    hide Escape, Dec, MarkText, Name, Split, Join;
    var (e, d, m) := (Escape(Name(a.entry)), Dec(a.entry.workspace), MarkText(a.mark));
    EscapeDashless(Name(a.entry));
    DecDashless(a.entry.workspace);
    MarkNoDigit(a.mark);
    RowShape(e, d, m);
    JoinTwo(left, right);
    SplitJoin([left, right], DASH);
  }

  lemma RowShape(e: string, d: string, m: string)
    ensures var (left, right) := ("  " + e + " ", " workspace " + (d + m));
            && "  " + e + " \U{2014} workspace " + d + m == left + [DASH] + right
            && (DASH !in e && DASH !in d && DASH !in m ==> DASH !in left && DASH !in right)
  {
    var (x, y, z) := ("  " + e, " workspace ", d + m);
    assert " \U{2014} workspace " == " " + [DASH] + y;
    assert x + (" " + [DASH] + y) + d + m == x + " " + [DASH] + (y + z);
  }

  lemma JoinTwo(left: string, right: string)
    ensures Join([left, right], DASH) == left + [DASH] + right
  {
    assert [left, right][1..] == [right];
  }

  lemma DecDashless(n: nat)
    ensures DASH !in Dec(n)
  {
    NumeralDigits(n, 10);
    assert !IsDigit(DASH, 10);
  }

  /** The numbers in a line, left to right. */
  function Numbers(s: string): seq<nat>
    decreases |s|
  {
    if s == [] then []
    else if !IsDigit(s[0], 10) then Numbers(s[1..])
    else
      var span := DigitSpan(s, 10);
      assert |s| == |span.0| + |span.1|;
      match Value(span.0, 10) case Some(n) => [n] + Numbers(span.1) case None => []
  }

  lemma {:induction false} NumbersText(t: string, s: string)
    requires forall c | c in t :: !IsDigit(c, 10)
    ensures Numbers(t + s) == Numbers(s)
  {
    if t == [] {
      assert t + s == s;
    } else {
      assert t[0] in t && (t + s)[1..] == t[1..] + s;
      NumbersText(t[1..], s);
    }
  }

  lemma NumbersDec(n: nat, s: string)
    requires s == [] || !IsDigit(s[0], 10)
    ensures Numbers(Dec(n) + s) == [n] + Numbers(s)
  {
    NumeralDigits(n, 10);
    SpanExact(Dec(n), s, 10);
    NumeralValue(n, 10);
    hide DigitSpan, Value, Numeral, IsDigit;
    assert (Dec(n) + s)[0] == Dec(n)[0] && Dec(n)[0] in Dec(n);
  }

  lemma NoDigits()
    ensures forall c | c in "Launch delays: " :: !IsDigit(c, 10)
    ensures forall c | c in " ms before, " :: !IsDigit(c, 10)
    ensures forall c | c in " ms after (was " :: !IsDigit(c, 10)
    ensures forall c | c in " ms, " :: !IsDigit(c, 10)
    ensures forall c | c in " ms)" :: !IsDigit(c, 10)
  {
  }

  lemma FourNumbers(a: nat, b: nat, c: nat, d: nat)
    ensures var s2 := Dec(c) + (" ms, " + (Dec(d) + " ms)"));
            var s1 := Dec(b) + (" ms after (was " + s2);
            Numbers("Launch delays: " + (Dec(a) + (" ms before, " + s1))) == [a, b, c, d]
  {
    hide Numbers, Dec, IsDigit;
    var s3 := Dec(d) + " ms)";
    var s2 := Dec(c) + (" ms, " + s3);
    var s1 := Dec(b) + (" ms after (was " + s2);
    NoDigits();
    NumbersText("Launch delays: ", Dec(a) + (" ms before, " + s1));
    NumbersDec(a, " ms before, " + s1);
    NumbersText(" ms before, ", s1);
    NumbersDec(b, " ms after (was " + s2);
    NumbersText(" ms after (was ", s2);
    NumbersDec(c, " ms, " + s3);
    NumbersText(" ms, ", s3);
    NumbersDec(d, " ms)");
    NumbersText(" ms)", "");
    NoNumbers();
    assert " ms)" + "" == " ms)";
  }

  /** A change of the delays, and nothing else, is a last line of the summary: the new ones, then the old. */
  lemma DelaysShown(base: SignedConfig, proposal: SignedConfig)
    ensures var line := DelaySummary(base, proposal);
            if DelaysDiffer(base, proposal)
            then |line| == 1 && Numbers(line[0]) ==
                [proposal.preLaunchMs, proposal.postLaunchMs, base.preLaunchMs, base.postLaunchMs]
            else line == []
  {
    if DelaysDiffer(base, proposal) {
      hide DelaySummary, Numbers, Dec;
      DelayShape(base, proposal);
      FourNumbers(proposal.preLaunchMs, proposal.postLaunchMs, base.preLaunchMs, base.postLaunchMs);
    }
  }

  lemma Assoc(x: string, y: string, z: string)
    ensures x + y + z == x + (y + z)
  {
  }

  lemma DelayShape(base: SignedConfig, proposal: SignedConfig)
    requires DelaysDiffer(base, proposal)
    ensures var s2 := Dec(base.preLaunchMs) + (" ms, " + (Dec(base.postLaunchMs) + " ms)"));
            var s1 := Dec(proposal.postLaunchMs) + (" ms after (was " + s2);
            DelaySummary(base, proposal) == ["Launch delays: " + (Dec(proposal.preLaunchMs) + (" ms before, " + s1))]
  {
    var (a, b, c, d) := (Dec(proposal.preLaunchMs), Dec(proposal.postLaunchMs), Dec(base.preLaunchMs),
                         Dec(base.postLaunchMs));
    hide Dec;
    var (l1, l2) := ("Launch delays: " + a, "Launch delays: " + a + " ms before, ");
    var (l3, l4) := (l2 + b, l2 + b + " ms after (was ");
    var (l5, l6) := (l4 + c, l4 + c + " ms, ");
    var (r7, r5) := (d + " ms)", " ms, " + (d + " ms)"));
    var r4 := c + r5;
    var r3 := " ms after (was " + r4;
    var r2 := b + r3;
    Assoc(l6, d, " ms)");
    Assoc(l5, " ms, ", r7);
    Assoc(l4, c, r5);
    Assoc(l3, " ms after (was ", r4);
    Assoc(l2, b, r3);
    Assoc(l1, " ms before, ", r2);
    Assoc("Launch delays: ", a, " ms before, " + r2);
  }

  lemma NoNumbers()
    ensures Numbers("") == []
  {
  }
}
