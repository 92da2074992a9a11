/** Typing a command for a pin and saving it back (the engine's edit.rs). */
module Edit {
  import opened Text
  import opened Model
  import opened Desktop
  import opened ExecCheck
  import Shell
  import L = Launcher

  function SHELL_PATH(): string { "/usr/bin/bash" }

  function DashC(): string { "-c" }

  /** The argv a typed command is stored as: its plain words, or bash running the text. */
  function TypedArgv(text: string): (argv: seq<string>)
    ensures argv != []
  {
    match PlainArgv(text) case Some(argv) => argv case None => [SHELL_PATH(), DashC(), text]
  }

  function TypedExec(text: string): string { CanonicalExec(TypedArgv(text)) }

  predicate IsShellRun(argv: seq<string>) { |argv| == 3 && argv[0] == SHELL_PATH() && argv[1] == DashC() }

  /** `exec_text`: the command line the panel shows for a stored command. */
  function ExecText(exec: string): string {
    var argv := SplitCanonical(exec); if IsShellRun(argv) then argv[2] else Shell.QuoteArgv(argv)
  }

  /** What saving a command line stores; an empty one is refused. */
  function Saved(text: string): Option<string> { if text == [] then None else Some(TypedExec(text)) }

  /** The text's plain words are themselves `/usr/bin/bash -c X`, with X empty or plain words: the one
      kind of text whose stored command is shown as something else. */
  predicate Nested(text: string) {
    match PlainArgv(text)
    case Some(argv) => IsShellRun(argv) && (argv[2] == [] || PlainArgv(argv[2]).Some?)
    case None => false
  }

  // -------------------------------------------------------- words are never longer

  function Total(ws: seq<string>): nat { if ws == [] then 0 else |ws[0]| + Total(ws[1..]) }

  lemma {:induction false} ScanShort(s: string, mode: Mode, cur: string, started: bool)
    ensures Scan(s, mode, cur, started).Words? ==> Total(Scan(s, mode, cur, started).words) <= |s| + |cur|
    decreases |s|, 1
  {
    hide Operators, Decoded;
    match mode
    case Plain => ScanPlainShort(s, cur, started);
    case Single =>
      if s != [] && s[0] == '\'' { ScanShort(s[1..], Plain, cur, started); }
      else if s != [] { ScanShort(s[1..], Single, cur + [s[0]], started); }
    case Double => ScanDoubleShort(s, cur, started);
    case Ansi => ScanAnsiShort(s, cur, started);
  }

  lemma {:induction false} ScanPlainShort(s: string, cur: string, started: bool)
    ensures ScanPlain(s, cur, started).Words? ==> Total(ScanPlain(s, cur, started).words) <= |s| + |cur|
    decreases |s|, 0
  {
    hide Operators;
    if s != [] {
      var (c, t) := (s[0], s[1..]);
      ScanShort(t, Plain, [], false);
      ScanShort(t, Plain, cur, false);
      ScanShort(t, Plain, cur + [c], true);
      ScanShort(t, Single, cur, true);
      ScanShort(t, Double, cur, true);
      if t != [] {
        ScanShort(t[1..], Plain, cur, true);
        ScanShort(t[1..], Plain, cur + [t[0]], true);
        ScanShort(t[1..], Ansi, cur, true);
      }
      if (c == ' ' || c == '\t') && started && Scan(t, Plain, [], false).Words? {
        var ws := Scan(t, Plain, [], false).words;
        assert ([cur] + ws)[1..] == ws;
      }
    }
  }

  lemma {:induction false} ScanDoubleShort(s: string, cur: string, started: bool)
    ensures ScanDouble(s, cur, started).Words? ==> Total(ScanDouble(s, cur, started).words) <= |s| + |cur|
    decreases |s|, 0
  {
    if s != [] {
      var (c, t) := (s[0], s[1..]);
      ScanShort(t, Plain, cur, started);
      ScanShort(t, Double, cur + [c], started);
      if t != [] {
        ScanShort(t[1..], Double, cur, started);
        ScanShort(t[1..], Double, cur + [t[0]], started);
        ScanShort(t[1..], Double, cur + ['\\', t[0]], started);
      }
    }
  }

  lemma {:induction false} ScanAnsiShort(s: string, cur: string, started: bool)
    ensures ScanAnsi(s, cur, started).Words? ==> Total(ScanAnsi(s, cur, started).words) <= |s| + |cur|
    decreases |s|, 0
  {
    hide Decoded;
    if s != [] {
      var (c, t) := (s[0], s[1..]);
      ScanShort(t, Plain, cur, started);
      ScanShort(t, Ansi, cur + [c], started);
      if t != [] {
        ScanShort(t[1..], Ansi, cur + [Decoded(t[0])], started);
        if OctalDigit(t[0]) { ScanShort(t[OctalRun(t).1..], Ansi, cur + [(OctalRun(t).0 % 256) as char], started); }
      }
    }
  }

  /** No command is one of its own words with others beside it. */
  lemma NotItsOwnScript(text: string)
    requires PlainArgv(text).Some? && IsShellRun(PlainArgv(text).value)
    ensures PlainArgv(text).value[2] != text
  {
    hide Scan, Shell.NamesShellSyntax;
    ScanShort(text, Plain, [], false);
    var argv := PlainArgv(text).value;
    ThreeWords(argv);
  }

  lemma ThreeWords(ws: seq<string>)
    requires |ws| == 3
    ensures Total(ws) == |ws[0]| + (|ws[1]| + |ws[2]|)
  {
    assert ws[1..][1..][1..] == [];
    assert Total(ws[1..][1..]) == |ws[2]| + Total(ws[1..][1..][1..]);
  }

  lemma EmptyRead()
    ensures ReadWords([]) == Words([])
  {
  }

  // --------------------------------------------------------------- saving what is shown

  lemma ShownAs(text: string)
    ensures var argv := TypedArgv(text);
            ExecText(TypedExec(text)) == if IsShellRun(argv) then argv[2] else Shell.QuoteArgv(argv)
  {
    hide PlainArgv;
    CanonicalRoundTrip(TypedArgv(text));
  }

  lemma QuotedTyped(argv: seq<string>)
    requires argv != [] && !Shell.NamesShellSyntax(argv[0])
    ensures Shell.QuoteArgv(argv) != [] && TypedArgv(Shell.QuoteArgv(argv)) == argv
  {
    hide Shell.NamesShellSyntax, ReadWords, Shell.QuoteWord;
    QuotedIsPlain(argv);
    QuotedArgvReadsBack(argv);
    EmptyRead();
  }

  lemma SameArgv(a: string, b: string)
    requires TypedExec(a) == TypedExec(b)
    ensures TypedArgv(a) == TypedArgv(b)
  {
    hide PlainArgv;
    CanonicalRoundTrip(TypedArgv(a));
    CanonicalRoundTrip(TypedArgv(b));
  }

  lemma PlainIs(text: string)
    requires PlainArgv(text).Some?
    ensures PlainArgv(text).value != [] && !Shell.NamesShellSyntax(PlainArgv(text).value[0])
  {
    hide Shell.NamesShellSyntax, ReadWords;
  }

  /** Saving the text shown for a typed command stores that same command, exactly when the text is not
      a plain `/usr/bin/bash -c X` with X empty or itself plain words. */
  lemma SavingChangesNothing(text: string)
    requires text != []
    ensures Saved(ExecText(TypedExec(text))) == Some(TypedExec(text)) <==> !Nested(text)
  {
    hide PlainArgv, ExecText, CanonicalExec, Shell.QuoteArgv, Shell.NamesShellSyntax;
    ShownAs(text);
    if PlainArgv(text).Some? {
      var argv := PlainArgv(text).value;
      PlainIs(text);
      if IsShellRun(argv) {
        if argv[2] != [] && PlainArgv(argv[2]).Some? && TypedExec(argv[2]) == TypedExec(text) {
          SameArgv(argv[2], text);
          NotItsOwnScript(argv[2]);
        }
        assert PlainArgv(argv[2]).None? ==> argv == [SHELL_PATH(), DashC(), argv[2]];
      } else {
        QuotedTyped(argv);
      }
    }
  }

  /** A typed command that is shown, and so saved back, as another one. */
  lemma NestedHappens() returns (text: string)
    ensures text != [] && Nested(text) && Saved(ExecText(TypedExec(text))) != Some(TypedExec(text))
  {
    hide PlainArgv, Shell.QuoteArgv, ExecText, Shell.NamesShellSyntax, SHELL_PATH, DashC, TypedExec;
    var inner := ["/"];
    var argv := [SHELL_PATH(), DashC(), Shell.QuoteArgv(inner)];
    text := Shell.QuoteArgv(argv);
    APath(inner[0]);
    APath(argv[0]) by { ShellIsAPath(); }
    QuotedIsPlain(inner);
    QuotedIsPlain(argv);
    QuotedTyped(argv);
    SavingChangesNothing(text);
  }

  lemma ShellIsAPath()
    ensures '/' in SHELL_PATH()
  {
    assert SHELL_PATH()[0] == '/';
  }

  lemma APath(word: string)
    requires '/' in word
    ensures !Shell.NamesShellSyntax(word)
  {
  }

  // ------------------------------------------------------------------ the whole edit

  datatype EditError = EmptyCommand | NoSuchPin | BadLauncher(why: L.WriteError) | Invalid(e: ValidationError)

  datatype Edited = Proposes(p: Proposal) | Fails(error: EditError)

  /** The config directory, the hash, and the name shown for a command without a stored label. */
  datatype Env = Env(dir: string, sha: seq<byte> -> string, display: (string, string) -> string)

  function Find(es: seq<Model.Entry>, id: string): (r: Option<nat>)
    ensures r.Some? ==> r.value < |es| && es[r.value].id == id
    ensures r.None? ==> forall e | e in es :: e.id != id
  {
    if es == [] then None
    else
      assert es == [es[0]] + es[1..];
      if es[0].id == id then Some(0)
      else match Find(es[1..], id) case Some(i) => Some(i + 1) case None => None
  }

  function Typed(env: Env, e: Model.Entry, text: string): L.Written<Model.Entry> {
    var exec := TypedExec(text);
    var name := if e.labelText == [] then env.display(e.windowClass, text) else e.labelText;
    match L.Binding(env.dir, env.sha, e.id, name, exec, None)
    case Rejected(x) => L.Rejected(x)
    case Wrote(l) =>
      L.Wrote(e.(launcher := l, cwd := None, exec := exec, execSource := OverridesTable, provenance := NoProvenance,
                 labelText := name))
  }

  /** A proposal handed on only if the document it makes would validate. */
  function Checked(p: Proposal): Edited {
    match ConfigError(Document(0, [], 0, p)) case Some(x) => Fails(Invalid(x)) case None => Proposes(p)
  }

  /** `set_exec`, on the delays and pins of the stored list. */
  function SetExec(env: Env, base: Proposal, id: string, text: string): Edited {
    if text == [] then Fails(EmptyCommand) else
    match Find(base.entries, id)
    case None => Fails(NoSuchPin)
    case Some(i) =>
      match Typed(env, base.entries[i], text)
      case Rejected(x) => Fails(BadLauncher(x))
      case Wrote(e) =>
        if EntryError(e).Some? then Fails(Invalid(EntryError(e).value))
        else Checked(base.(entries := WithEntry(base.entries, e)))
  }

  lemma FindUnique(es: seq<Model.Entry>, i: nat)
    requires Ascending(es) && i < |es|
    ensures Find(es, es[i].id) == Some(i)
  {
    var j := Find(es, es[i].id);
    assert es[i] in es;
    if j.value != i { LessTotal(es[i].id, es[j.value].id); }
  }

  /** The stored list is one that validates. */
  predicate ValidList(base: Proposal) { ConfigError(Document(0, [], 0, base)).None? && Ascending(base.entries) }

  lemma ListRules(p: Proposal)
    requires Ascending(p.entries)
    ensures ConfigError(Document(0, [], 0, p)).None? <==>
              && p.preLaunchMs <= MAX_DELAY_MS && p.postLaunchMs <= MAX_DELAY_MS && |p.entries| <= MAX_ENTRIES
              && forall e | e in p.entries :: ValidEntry(e)
  {
    hide ConfigError, ValidEntry, SortEntries, Ascending;
    SortAscending(p.entries);
    ValidateExact(Document(0, [], 0, p));
  }

  lemma AscendingReplaced(es: seq<Model.Entry>, i: nat, e: Model.Entry)
    requires Ascending(es) && i < |es| && es[i].id == e.id
    ensures Ascending(es[i := e])
  {
    hide Less;
  }

  /** Replacing a valid pin of a valid list by another of the same id leaves a valid list. */
  lemma ReplacedValid(base: Proposal, i: nat, e: Model.Entry)
    requires ValidList(base) && i < |base.entries| && base.entries[i].id == e.id && ValidEntry(e)
    ensures ValidList(base.(entries := base.entries[i := e]))
  {
    hide ConfigError, ValidEntry, SortEntries, Ascending;
    var es := base.entries[i := e];
    AscendingReplaced(base.entries, i, e);
    ListRules(base);
    ListRules(base.(entries := es));
    assert forall x | x in es :: x == e || x in base.entries;
  }

  /** A pin with another command: its window, place, switch and name stay, a name it lacked is worked out, it starts
      in no directory of its own, and it is bound to the launcher it will hold. */
  predicate Retyped(env: Env, was: Model.Entry, text: string, e: Model.Entry) {
    && e.id == was.id && e.windowClass == was.windowClass && e.workspace == was.workspace && e.float == was.float
    && e.enabled == was.enabled && e.cwd == None && e.execSource == OverridesTable && e.provenance == NoProvenance
    && e.labelText == (if was.labelText != [] then was.labelText else env.display(was.windowClass, text))
    && L.Binding(env.dir, env.sha, e.id, e.labelText, e.exec, None) == L.Wrote(e.launcher)
    && SplitCanonical(e.exec) == match PlainArgv(text)
       case Some(argv) => argv
       case None => ["/usr/bin/bash", "-c", text]
  }

  lemma TypedIs(env: Env, was: Model.Entry, text: string)
    requires Typed(env, was, text).Wrote?
    ensures Retyped(env, was, text, Typed(env, was, text).value)
  {
    hide PlainArgv, CanonicalExec, SplitCanonical, L.Binding;
    CanonicalRoundTrip(TypedArgv(text));
  }

  /** The edit replaces that one pin's command and nothing else in the list; on a list that validates, what it
      gives always does, so it is refused for nothing but the pin itself. */
  lemma SetExecReplaces(env: Env, base: Proposal, id: string, text: string)
    requires ValidList(base)
    ensures var at := Find(base.entries, id);
            SetExec(env, base, id, text).Proposes? <==>
              text != [] && at.Some? && Typed(env, base.entries[at.value], text).Wrote?
              && ValidEntry(Typed(env, base.entries[at.value], text).value)
    ensures SetExec(env, base, id, text).Proposes? ==>
              var i := Find(base.entries, id).value;
              var e := Typed(env, base.entries[i], text).value;
              && e.exec == TypedExec(text) && ValidList(SetExec(env, base, id, text).p)
              && Retyped(env, base.entries[i], text, e)
              && SetExec(env, base, id, text).p == base.(entries := base.entries[i := e])
  {
    hide EntryError, ConfigError, L.Binding, TypedExec, Less, SortEntries, Retyped, PlainArgv;
    var at := Find(base.entries, id);
    if at.Some? && Typed(env, base.entries[at.value], text).Wrote? {
      var e := Typed(env, base.entries[at.value], text).value;
      WithEntryReplaces(base.entries, e, at.value);
      TypedIs(env, base.entries[at.value], text);
      if ValidEntry(e) { ReplacedValid(base, at.value, e); }
    }
  }

  /** Typing a command again changes the pin exactly when it stores another command, or gives a name to a
      pin that has none. */
  lemma TypedAgain(env: Env, was: Model.Entry, text: string, e: Model.Entry, shown: string)
    requires Typed(env, was, text) == L.Wrote(e)
    ensures Typed(env, e, shown) == L.Wrote(e) <==>
              TypedExec(shown) == TypedExec(text) && (e.labelText == [] ==> env.display(e.windowClass, shown) == [])
  {
    hide TypedExec, L.DesktopContents;
  }

  lemma Again(env: Env, now: Proposal, i: nat, shown: string)
    requires ValidList(now) && i < |now.entries| && ValidEntry(now.entries[i]) && shown != []
    ensures SetExec(env, now, now.entries[i].id, shown) == Proposes(now)
            <==> Typed(env, now.entries[i], shown) == L.Wrote(now.entries[i])
  {
    hide EntryError, ValidEntry, Typed, SetExec, Find, TypedExec, ConfigError, SortEntries, Ascending, Retyped;
    var es := now.entries;
    FindUnique(es, i);
    SetExecReplaces(env, now, es[i].id, shown);
    var again := Typed(env, es[i], shown);
    if again.Wrote? {
      assert es[i := again.value][i] == again.value;
      assert es[i := es[i]] == es;
    }
  }

  /** Editing a pin and saving the text then shown for it proposes that same list again, exactly unless
      the text is a nested `bash -c`, or the pin has no name and the text shown gives it one. */
  lemma SetExecAgain(env: Env, base: Proposal, id: string, text: string) returns (i: nat)
    requires ValidList(base) && SetExec(env, base, id, text).Proposes?
    ensures var now := SetExec(env, base, id, text).p;
            && i < |now.entries| && now.entries[i].id == id
            && var (e, shown) := (now.entries[i], ExecText(now.entries[i].exec));
               SetExec(env, now, id, shown) == Proposes(now)
               <==> !Nested(text) && (e.labelText == [] ==> env.display(e.windowClass, shown) == [])
  {
    hide ValidEntry, EntryError, Typed, TypedExec, ExecText, Nested, ValidList, Ascending, ConfigError;
    SetExecReplaces(env, base, id, text);
    i := Find(base.entries, id).value;
    var e := Typed(env, base.entries[i], text).value;
    var now := base.(entries := base.entries[i := e]);
    SavingChangesNothing(text);
    var shown := ExecText(e.exec);
    if shown != [] { Again(env, now, i, shown); }
    TypedAgain(env, base.entries[i], text, e, shown);
  }
}
