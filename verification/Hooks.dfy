/** The boot line in the user's hyprland.lua (hooks.rs): put in, and taken out byte for byte. */
module Hooks {
  import opened Text

  const NL: byte := 10

  /** The comment above the boot line. */
  function MarkerText(): string { "-- omarchy-relaunch" }

  function Marker(): seq<byte> { Utf8(MarkerText()) }

  type Line = seq<byte>

  lemma MarkerIsLine()
    ensures NL !in Marker() && Marker() != []
  {
    hide Utf8, MarkerText;
    MarkerTextIsLine();
    Utf8Ascii(MarkerText(), '\n');
  }

  lemma MarkerTextIsLine()
    ensures '\n' !in MarkerText() && MarkerText() != []
  {
  }

  // ------------------------------------------------------------------ taking it out

  /** What is kept once line `l` has been read; `held` says a marker was just seen, to be kept unless a
      hook follows it. */
  function Emits(l: Line, held: bool, hooks: seq<Line>): seq<Line> {
    (if held && l !in hooks then [Marker()] else []) + (if l == Marker() || l in hooks then [] else [l])
  }

  predicate Holds(l: Line, held: bool, hooks: seq<Line>) { l == Marker() && !(held && l in hooks) }

  function Kept(lines: seq<Line>, held: bool, hooks: seq<Line>): seq<Line> {
    if lines == [] then (if held then [Marker()] else [])
    else Emits(lines[0], held, hooks) + Kept(lines[1..], Holds(lines[0], held, hooks), hooks)
  }

  function Ended(lines: seq<Line>): seq<byte> { if lines == [] then [] else lines[0] + [NL] + Ended(lines[1..]) }

  predicate FinalNewline(x: seq<byte>) { x != [] && x[|x| - 1] == NL }

  /** The lines of a file, its final newline aside; an empty file has none. */
  function LinesOf(x: seq<byte>): seq<Line> {
    if x == [] then [] else Split(if FinalNewline(x) then x[..|x| - 1] else x, NL)
  }

  /** Lines as a file again, with or without a final newline. */
  function FileOf(lines: seq<Line>, final: bool): seq<byte> {
    var out := Ended(lines); if final || out == [] then out else out[..|out| - 1]
  }

  function Removed(x: seq<byte>, hooks: seq<Line>): seq<byte> {
    FileOf(Kept(LinesOf(x), false, hooks), FinalNewline(x))
  }

  /** One line of `remove_bootstrap`'s loop. */
  method ReadLine(line: Line, held: bool, hooks: seq<Line>, out: seq<byte>) returns (out': seq<byte>, held': bool)
    ensures out' == out + Ended(Emits(line, held, hooks)) && held' == Holds(line, held, hooks)
  {
    hide Marker;
    EmitBytes(line, held, hooks);
    out' := out;
    held' := false;
    if held {
      if line in hooks { return; }
      out' := out' + (Marker() + [NL]);
    }
    if line == Marker() {
      held' := true;
      return;
    }
    if line in hooks { return; }
    out' := out' + (line + [NL]);
  }

  lemma EmitBytes(l: Line, held: bool, hooks: seq<Line>)
    ensures Ended(Emits(l, held, hooks)) ==
              (if held && l !in hooks then Marker() + [NL] else []) +
                  (if l == Marker() || l in hooks then [] else l + [NL])
  {
    hide Marker;
    EndedOne(Marker());
    EndedOne(l);
    EndedMore(if held && l !in hooks then [Marker()] else [], if l == Marker() || l in hooks then [] else [l]);
  }

  lemma EndedOne(l: Line)
    ensures Ended([l]) == l + [NL] && Ended([]) == []
  {
    assert [l][1..] == [];
  }

  lemma {:induction false} EndedMore(a: seq<Line>, b: seq<Line>)
    ensures Ended(a + b) == Ended(a) + Ended(b)
  {
    if a == [] {
      assert a + b == b;
    } else {
      assert (a + b)[1..] == a[1..] + b;
      EndedMore(a[1..], b);
    }
  }

  lemma OneLine(lines: seq<Line>, i: nat, held: bool, hooks: seq<Line>)
    requires i < |lines|
    ensures Ended(Kept(lines[i..], held, hooks))
            == Ended(Emits(lines[i], held, hooks)) + Ended(Kept(lines[i + 1..], Holds(lines[i], held, hooks), hooks))
  {
    hide Emits, Holds;
    assert lines[i..][0] == lines[i] && lines[i..][1..] == lines[i + 1..];
    EndedMore(Emits(lines[i], held, hooks), Kept(lines[i + 1..], Holds(lines[i], held, hooks), hooks));
  }

  /** `remove_bootstrap`. */
  method RemoveBootstrap(input: seq<byte>, hooks: seq<Line>) returns (out: seq<byte>)
    ensures out == Removed(input, hooks)
  {
    hide Marker, Split, Emits, Holds, Kept;
    NoLines(hooks);
    if input == [] { return []; }
    var final := FinalNewline(input);
    var lines := Split(if final then input[..|input| - 1] else input, NL);
    out := [];
    var held := false;
    assert lines[0..] == lines && [] + Ended(Kept(lines, false, hooks)) == Ended(Kept(lines, false, hooks));
    for i := 0 to |lines|
      invariant out + Ended(Kept(lines[i..], held, hooks)) == Ended(Kept(lines, false, hooks))
    {
      OneLine(lines, i, held, hooks);
      out, held := ReadLine(lines[i], held, hooks, out);
    }
    assert lines[|lines|..] == [];
    if held { out := out + (Marker() + [NL]); }
    assert out == Ended(Kept(lines, false, hooks)) by { assert out + [] == out; }
    if !final && out != [] { out := out[..|out| - 1]; }
  }

  lemma NoLines(hooks: seq<Line>)
    ensures Kept([], false, hooks) == [] && Kept([], true, hooks) == [Marker()]
    ensures Ended([]) == [] && Ended([Marker()]) == Marker() + [NL]
  {
    EndedOne(Marker());
  }

  // ------------------------------------------------------------------- putting it in

  /** The file `r` with the marker and the hook put at its end. */
  function Appended(r: seq<byte>, hook: Line): seq<byte> {
    if r != [] && !FinalNewline(r) then r + [NL] + Marker() + [NL] + hook else r + Marker() + [NL] + hook + [NL]
  }

  function Installed(x: seq<byte>, hook: Line, ours: seq<Line>): seq<byte> { Appended(Removed(x, ours), hook) }

  /** `install_bootstrap`. */
  method InstallBootstrap(input: seq<byte>, hook: Line, ours: seq<Line>) returns (out: seq<byte>)
    ensures out == Installed(input, hook, ours)
  {
    hide Marker, Removed;
    out := RemoveBootstrap(input, ours);
    if out != [] && out[|out| - 1] != NL {
      out := out + [NL] + Marker() + [NL] + hook;
    } else {
      out := out + Marker() + [NL] + hook + [NL];
    }
  }

  // ------------------------------------------------------------- lines and bytes

  predicate Lines(ls: seq<Line>) { forall l | l in ls :: NL !in l }

  lemma {:induction false} EndedJoin(ls: seq<Line>)
    requires ls != []
    ensures Ended(ls) == Join(ls, NL) + [NL]
  {
    if |ls| == 1 { EndedOne(ls[0]); assert ls == [ls[0]]; } else {
      EndedJoin(ls[1..]);
      assert Ended(ls) == ls[0] + [NL] + (Join(ls[1..], NL) + [NL]);
    }
  }

  /** A file is its lines and its final-newline state. */
  lemma FileRoundTrip(x: seq<byte>)
    ensures FileOf(LinesOf(x), FinalNewline(x)) == x && Lines(LinesOf(x))
  {
    if x != [] {
      var body := if FinalNewline(x) then x[..|x| - 1] else x;
      SplitParts(body, NL);
      EndedJoin(LinesOf(x));
      hide Split, Join, Ended;
      assert Ended(LinesOf(x)) == body + [NL];
    }
  }

  lemma Cancel(a: seq<byte>, b: seq<byte>)
    requires a + [NL] == b + [NL]
    ensures a == b
  {
    assert a == (a + [NL])[..|a|] && b == (b + [NL])[..|b|];
    assert |a + [NL]| == |b + [NL]|;
  }

  lemma JoinLast(ls: seq<Line>)
    requires |ls| >= 2
    ensures Join(ls, NL) == Join(ls[..|ls| - 1], NL) + [NL] + ls[|ls| - 1]
  {
    hide Join, Ended;
    var (init, last) := (ls[..|ls| - 1], ls[|ls| - 1]);
    EndedJoin(ls);
    EndedJoin(init);
    EndedOne(last);
    assert ls == init + [last];
    EndedMore(init, [last]);
    Regroup(Join(init, NL), last);
    Cancel(Join(ls, NL), Join(init, NL) + [NL] + last);
  }

  lemma Regroup(a: seq<byte>, l: Line)
    ensures a + [NL] + (l + [NL]) == a + [NL] + l + [NL]
  {
  }

  lemma FileIs(ls: seq<Line>, final: bool)
    requires ls != []
    ensures FileOf(ls, final) == if final then Join(ls, NL) + [NL] else Join(ls, NL)
  {
    EndedJoin(ls);
    hide Join, Ended;
  }

  lemma FinalLines(ls: seq<Line>)
    requires ls != [] && Lines(ls)
    ensures LinesOf(Join(ls, NL) + [NL]) == ls
  {
    SplitJoin(ls, NL);
    hide Split, Join;
    var file := Join(ls, NL) + [NL];
    assert file[..|file| - 1] == Join(ls, NL);
  }

  lemma OpenLines(ls: seq<Line>)
    requires ls != [] && Lines(ls) && ls[|ls| - 1] != []
    ensures LinesOf(Join(ls, NL)) == ls && !FinalNewline(Join(ls, NL))
  {
    var last := ls[|ls| - 1];
    assert last in ls;
    SplitJoin(ls, NL);
    JoinEnds(ls);
    hide Split, Join;
    assert last[|last| - 1] in last;
  }

  lemma JoinEnds(ls: seq<Line>)
    requires ls != [] && ls[|ls| - 1] != []
    ensures var (file, last) := (Join(ls, NL), ls[|ls| - 1]); file != [] && file[|file| - 1] == last[|last| - 1]
  {
    if |ls| >= 2 {
      JoinLast(ls);
      hide Join;
    }
  }

  lemma EmptyLastLine(ls: seq<Line>)
    requires ls != [] && Lines(ls) && ls[|ls| - 1] == []
    ensures LinesOf(Join(ls, NL)) == ls[..|ls| - 1]
  {
    var init := ls[..|ls| - 1];
    if |ls| >= 2 {
      JoinLast(ls);
      assert Join(init, NL) + [NL] + [] == Join(init, NL) + [NL];
      assert forall l | l in init :: l in ls;
      FinalLines(init);
    } else {
      assert ls == [[]];
    }
  }

  /** The lines written are the lines read back, but for an empty last one without its newline. */
  lemma LinesBack(ls: seq<Line>, final: bool)
    requires Lines(ls)
    ensures var r := LinesOf(FileOf(ls, final));
            r == ls || (ls != [] && ls[|ls| - 1] == [] && r == ls[..|ls| - 1])
    ensures ls != [] && (final || ls[|ls| - 1] != []) ==>
      LinesOf(FileOf(ls, final)) == ls && FinalNewline(FileOf(ls, final)) == final
  {
    if ls != [] {
      hide Join, LinesOf, Lines;
      FileIs(ls, final);
      if final { FinalLines(ls); } else if ls[|ls| - 1] != [] { OpenLines(ls); } else { EmptyLastLine(ls); }
    } else {
      EmptyLines();
    }
  }

  // ---------------------------------------------------------- taking it out again

  /** Nothing in it is a hook, but perhaps the marker itself. */
  predicate NoHooks(lines: seq<Line>, hooks: seq<Line>) { forall l | l in lines && l in hooks :: l == Marker() }

  lemma {:induction false} KeptLines(lines: seq<Line>, held: bool, hooks: seq<Line>)
    ensures NoHooks(Kept(lines, held, hooks), hooks)
    ensures forall l | l in Kept(lines, held, hooks) :: l == Marker() || l in lines
  {
    hide Marker;
    if lines != [] {
      KeptLines(lines[1..], Holds(lines[0], held, hooks), hooks);
      assert lines == [lines[0]] + lines[1..];
    }
  }

  /** No two markers in a row. */
  predicate Spaced(lines: seq<Line>) {
    forall i | 0 <= i < |lines| - 1 && lines[i] == Marker() :: lines[i + 1] != Marker()
  }

  lemma {:induction false} KeptSpaced(lines: seq<Line>, held: bool, hooks: seq<Line>)
    requires Marker() in hooks
    ensures Spaced(Kept(lines, held, hooks))
  {
    hide Marker;
    if lines != [] { KeptSpaced(lines[1..], Holds(lines[0], held, hooks), hooks); }
  }

  /** The state the loop is in after `lines`, and what it has written by then. */
  predicate HeldAfter(lines: seq<Line>, hooks: seq<Line>) {
    lines != [] && Holds(lines[|lines| - 1], HeldAfter(lines[..|lines| - 1], hooks), hooks)
  }

  function Out(lines: seq<Line>, hooks: seq<Line>): seq<Line> {
    if lines == [] then []
    else
      var init := lines[..|lines| - 1];
      Out(init, hooks) + Emits(lines[|lines| - 1], HeldAfter(init, hooks), hooks)
  }

  lemma KeptCons(l: Line, b: seq<Line>, held: bool, hooks: seq<Line>)
    ensures Kept([l] + b, held, hooks) == Emits(l, held, hooks) + Kept(b, Holds(l, held, hooks), hooks)
  {
    hide Emits, Holds;
    assert ([l] + b)[1..] == b;
  }

  lemma {:induction false} KeptAppend(a: seq<Line>, b: seq<Line>, hooks: seq<Line>)
    ensures Kept(a + b, false, hooks) == Out(a, hooks) + Kept(b, HeldAfter(a, hooks), hooks)
    decreases |a|
  {
    hide Emits, Holds, Kept;
    if a == [] {
      assert a + b == b && [] + Kept(b, false, hooks) == Kept(b, false, hooks);
    } else {
      var (init, last) := (a[..|a| - 1], a[|a| - 1]);
      assert a + b == init + ([last] + b);
      KeptAppend(init, [last] + b, hooks);
      KeptCons(last, b, HeldAfter(init, hooks), hooks);
    }
  }

  /** Lines the loop would leave as they are. */
  predicate Settled(lines: seq<Line>, hooks: seq<Line>) {
    NoHooks(lines, hooks) && (Marker() in hooks ==> Spaced(lines))
  }

  lemma SettledInit(lines: seq<Line>, hooks: seq<Line>)
    requires Settled(lines, hooks) && lines != []
    ensures Settled(lines[..|lines| - 1], hooks)
  {
    hide Marker;
  }

  lemma {:induction false} SettledKept(lines: seq<Line>, hooks: seq<Line>)
    requires Settled(lines, hooks)
    ensures lines == Out(lines, hooks) + (if HeldAfter(lines, hooks) then [Marker()] else [])
    ensures HeldAfter(lines, hooks) <==> lines != [] && lines[|lines| - 1] == Marker()
    decreases |lines|
  {
    hide Marker;
    if lines != [] {
      var (init, last) := (lines[..|lines| - 1], lines[|lines| - 1]);
      SettledInit(lines, hooks);
      SettledKept(init, hooks);
      assert lines == init + [last] && last in lines;
      if init != [] { assert lines[|lines| - 2] == init[|init| - 1]; }
    }
  }

  /** What removing does to a settled file with the marker and a hook after it. */
  lemma HookTaken(lines: seq<Line>, hook: Line, hooks: seq<Line>)
    requires Settled(lines, hooks) && hook in hooks
    ensures Kept(lines + [Marker(), hook], false, hooks) ==
              if Marker() in hooks && hook != Marker() && lines != [] && lines[|lines| - 1] == Marker()
              then lines[..|lines| - 1] else lines
  {
    hide Marker, HeldAfter, Out, Kept, Settled;
    SettledKept(lines, hooks);
    KeptAppend(lines, [Marker(), hook], hooks);
    TailTaken(hook, HeldAfter(lines, hooks), hooks);
    assert Out(lines, hooks) + [] == Out(lines, hooks);
    assert HeldAfter(lines, hooks) ==> lines[..|lines| - 1] == Out(lines, hooks);
  }

  lemma TailTaken(hook: Line, held: bool, hooks: seq<Line>)
    requires hook in hooks
    ensures Kept([Marker(), hook], held, hooks) ==
              if !held then [] else if Marker() !in hooks || hook == Marker() then [Marker()] else []
  {
    hide Marker;
    var m := Marker();
    assert [m, hook][1..] == [hook] && [hook][1..] == [];
    assert Kept([hook], true, hooks) == [];
    assert Kept([hook], false, hooks) == if hook == m then [m] else [];
  }

  lemma KeptSettled(lines: seq<Line>, hooks: seq<Line>)
    requires Settled(lines, hooks)
    ensures Kept(lines, false, hooks) == lines
  {
    SettledKept(lines, hooks);
    KeptAppend(lines, [], hooks);
    assert lines + [] == lines;
  }

  lemma HookFreeSettled(lines: seq<Line>, hooks: seq<Line>)
    requires forall l | l in lines :: l !in hooks
    ensures Settled(lines, hooks)
  {
    hide Marker;
    forall i | 0 <= i < |lines| ensures lines[i] !in hooks { assert lines[i] in lines; }
  }

  /** A file with no hook line is left byte for byte as it was, its final-newline state and lone markers
      included. */
  lemma HookFreeUntouched(x: seq<byte>, hooks: seq<Line>)
    requires forall l | l in LinesOf(x) :: l !in hooks
    ensures Removed(x, hooks) == x
  {
    HookFreeSettled(LinesOf(x), hooks);
    KeptSettled(LinesOf(x), hooks);
    FileRoundTrip(x);
  }

  lemma RemovedSettled(x: seq<byte>, hooks: seq<Line>)
    ensures Settled(LinesOf(Removed(x, hooks)), hooks)
  {
    hide Marker, LinesOf, FileOf, Kept, FinalNewline;
    var kept := Kept(LinesOf(x), false, hooks);
    KeptLines(LinesOf(x), false, hooks);
    if Marker() in hooks { KeptSpaced(LinesOf(x), false, hooks); }
    FileRoundTrip(x);
    MarkerIsLine();
    assert Lines(kept);
    LinesBack(kept, FinalNewline(x));
    if kept != [] { SettledInit(kept, hooks); }
  }

  lemma EndedOf(r: seq<byte>)
    ensures Ended(LinesOf(r)) == if r == [] || FinalNewline(r) then r else r + [NL]
  {
    FileRoundTrip(r);
    if r == [] {
      assert LinesOf(r) == [];
    } else {
      hide LinesOf, Ended;
      EndedEnds(LinesOf(r));
      if !FinalNewline(r) {
        var e := Ended(LinesOf(r));
        assert r == e[..|e| - 1] && e == e[..|e| - 1] + [e[|e| - 1]];
      }
    }
  }

  /** The file with the marker and the hook at its end, in lines. */
  lemma InstalledLines(r: seq<byte>, hook: Line)
    requires NL !in hook && (hook != [] || r == [] || FinalNewline(r))
    ensures var out := Appended(r, hook);
            LinesOf(out) == LinesOf(r) + [Marker(), hook] && FinalNewline(out) == (r == [] || FinalNewline(r))
  {
    var out := Appended(r, hook);
    var (lines, final) := (LinesOf(r) + [Marker(), hook], r == [] || FinalNewline(r));
    MarkerIsLine();
    FileRoundTrip(r);
    EndedMore(LinesOf(r), [Marker(), hook]);
    EndedTwo(Marker(), hook);
    EndedOf(r);
    hide Marker, LinesOf, Ended;
    assert Ended(lines) == Ended(LinesOf(r)) + (Marker() + [NL] + hook + [NL]);
    assert FileOf(lines, final) == out;
    LinesBack(lines, final);
  }

  lemma EndedTwo(a: Line, b: Line)
    ensures Ended([a, b]) == a + [NL] + b + [NL]
  {
    assert [a, b][1..] == [b];
    EndedOne(b);
  }

  /** The two ways a file put in and taken out again could differ: an empty hook after an unterminated
      last line, and a marker that is itself a hook after a last line that is a lone marker. */
  predicate Clashes(r: seq<byte>, hook: Line, ours: seq<Line>) {
    && r != []
    && ((hook == [] && !FinalNewline(r))
        || (Marker() in ours && hook != Marker() && LinesOf(r) != [] && LinesOf(r)[|LinesOf(r)| - 1] == Marker()))
  }

  lemma ShorterFile(lines: seq<Line>, final: bool)
    requires lines != [] && lines[|lines| - 1] != []
    ensures FileOf(lines[..|lines| - 1], final) != FileOf(lines, final)
  {
    var (init, last) := (lines[..|lines| - 1], lines[|lines| - 1]);
    assert lines == init + [last];
    EndedMore(init, [last]);
    EndedOne(last);
  }

  lemma UnterminatedEmpty(r: seq<byte>, ours: seq<Line>)
    requires r != [] && !FinalNewline(r)
    ensures Removed(r + [NL] + Marker() + [NL] + [], ours) != r
  {
    hide Kept, LinesOf, Marker;
    var out := r + [NL] + Marker() + [NL] + [];
    assert out[|out| - 1] == NL;
    EndedEnds(Kept(LinesOf(out), false, ours));
  }

  lemma {:induction false} EndedEnds(ls: seq<Line>)
    ensures Ended(ls) == [] || FinalNewline(Ended(ls))
  {
    if ls != [] { EndedJoin(ls); }
  }

  /** Putting the boot line in and taking it out gives the file taken out at first, for every byte string
      and hook among ours, exactly unless the two clash. */
  lemma RestoreExact(x: seq<byte>, hook: Line, ours: seq<Line>)
    requires hook in ours && NL !in hook
    ensures Removed(Installed(x, hook, ours), ours) == Removed(x, ours) <==> !Clashes(Removed(x, ours), hook, ours)
  {
    var r := Removed(x, ours);
    RemovedSettled(x, ours);
    MarkerIsLine();
    hide Marker, Kept, LinesOf, Removed, FileOf, Settled;
    if hook == [] && r != [] && !FinalNewline(r) {
      UnterminatedEmpty(r, ours);
    } else {
      InstalledLines(r, hook);
      HookTaken(LinesOf(r), hook, ours);
      FileRoundTrip(r);
      RemovedIs(Installed(x, hook, ours), ours);
      if r == [] { EmptyLines(); }
      else if Clashes(r, hook, ours) { ShorterFile(LinesOf(r), FinalNewline(r)); }
    }
  }

  lemma RemovedIs(x: seq<byte>, hooks: seq<Line>)
    ensures Removed(x, hooks) == FileOf(Kept(LinesOf(x), false, hooks), FinalNewline(x))
  {
  }

  lemma EmptyLines()
    ensures LinesOf([]) == [] && FileOf([], true) == []
  {
  }

  lemma AppendedInjective(r: seq<byte>, s: seq<byte>, hook: Line)
    requires Appended(r, hook) == Appended(s, hook)
    ensures r == s
  {
    hide Marker, FinalNewline;
    AppendedAfter(r, hook);
    AppendedAfter(s, hook);
  }

  lemma AppendedAfter(r: seq<byte>, hook: Line)
    ensures |Appended(r, hook)| == |r| + |Marker()| + |hook| + 2 && Appended(r, hook)[..|r|] == r
  {
    hide Marker, FinalNewline;
  }

  /** Putting the boot line in twice is putting it in once, for every byte string and hook among ours,
      exactly unless the two clash. */
  lemma InstallIdempotent(x: seq<byte>, hook: Line, ours: seq<Line>)
    requires hook in ours && NL !in hook
    ensures Installed(Installed(x, hook, ours), hook, ours) == Installed(x, hook, ours)
            <==> !Clashes(Removed(x, ours), hook, ours)
  {
    hide Removed, Clashes, Marker;
    RestoreExact(x, hook, ours);
    hide Appended;
    if Installed(Installed(x, hook, ours), hook, ours) == Installed(x, hook, ours) {
      AppendedInjective(Removed(Installed(x, hook, ours), ours), Removed(x, ours), hook);
    }
  }

  /** An empty hook after an unterminated line: neither taken out again nor put in only once. */
  lemma EmptyHookClashes()
    ensures var (x, hook, ours) := ([97], [], [[]]);
            && Removed(Installed(x, hook, ours), ours) != Removed(x, ours)
            && Installed(Installed(x, hook, ours), hook, ours) != Installed(x, hook, ours)
  {
    var (x: seq<byte>, hook: Line, ours: seq<Line>) := ([97], [], [[]]);
    OneLineFile(x, x);
    HookFreeUntouched(x, ours);
    RestoreExact(x, hook, ours);
    InstallIdempotent(x, hook, ours);
    hide Removed, Installed, LinesOf, Marker;
    assert !FinalNewline(x);
  }

  /** A marker that is itself a hook, after a lone marker: likewise, for any other hook. */
  lemma MarkerHookClashes(hook: Line)
    requires hook != Marker() && NL !in hook
    ensures var (x, ours) := (Marker() + [NL], [Marker(), hook]);
            && Removed(Installed(x, hook, ours), ours) != Removed(x, ours)
            && Installed(Installed(x, hook, ours), hook, ours) != Installed(x, hook, ours)
  {
    hide MarkerText, Marker, Removed, Installed, LinesOf, Settled, Clashes;
    var (x, ours) := (Marker() + [NL], [Marker(), hook]);
    MarkerIsLine();
    OneLineFile(x, Marker());
    LoneMarkerSettled(ours);
    SettledUntouched(x, ours);
    LoneMarkerClashes(x, hook, ours);
    RestoreExact(x, hook, ours);
    InstallIdempotent(x, hook, ours);
  }

  lemma LoneMarkerSettled(hooks: seq<Line>)
    ensures Settled([Marker()], hooks)
  {
    hide Marker;
  }

  lemma LoneMarkerClashes(r: seq<byte>, hook: Line, ours: seq<Line>)
    requires LinesOf(r) == [Marker()] && Marker() in ours && hook != Marker()
    ensures Clashes(r, hook, ours)
  {
    hide Marker, Split;
  }

  lemma SettledUntouched(x: seq<byte>, hooks: seq<Line>)
    requires Settled(LinesOf(x), hooks)
    ensures Removed(x, hooks) == x
  {
    KeptSettled(LinesOf(x), hooks);
    FileRoundTrip(x);
  }

  lemma OneLineFile(x: seq<byte>, l: Line)
    requires NL !in l && l != [] && (x == l || x == l + [NL])
    ensures LinesOf(x) == [l]
  {
    SplitNone(l, NL);
    if x == l { assert x[|x| - 1] in l; } else { assert x[..|x| - 1] == l; }
  }

  /** The hooks Relaunch writes are neither empty nor the marker, so for them there is never a clash; a
      file that had no hook comes back byte for byte. */
  lemma UserFileRestored(x: seq<byte>, hook: Line, ours: seq<Line>)
    requires hook in ours && NL !in hook && hook != [] && Marker() !in ours
    ensures Removed(Installed(x, hook, ours), ours) == Removed(x, ours)
    ensures Installed(Installed(x, hook, ours), hook, ours) == Installed(x, hook, ours)
    ensures (forall l | l in LinesOf(x) :: l !in ours) ==> Removed(Installed(x, hook, ours), ours) == x
  {
    hide Removed, Marker, LinesOf;
    RestoreExact(x, hook, ours);
    if forall l | l in LinesOf(x) :: l !in ours { HookFreeUntouched(x, ours); }
  }

  // ------------------------------------------------------- which lines are taken out

  /** How many markers stand right before line `i`. */
  function Run(lines: seq<Line>, i: nat): nat
    requires i <= |lines|
  {
    hide Marker;
    if i > 0 && lines[i - 1] == Marker() then Run(lines, i - 1) + 1 else 0
  }

  /** A line stays exactly unless it is a hook or a marker right above one. Of markers that are hooks themselves
      every second one of a run is taken for the line above the next. */
  predicate Stays(lines: seq<Line>, hooks: seq<Line>, i: nat)
    requires i < |lines|
  {
    hide Marker;
    if lines[i] == Marker() then
      !(i + 1 < |lines| && lines[i + 1] in hooks) && (Marker() in hooks ==> Run(lines, i) % 2 == 0)
    else lines[i] !in hooks
  }

  function Staying(lines: seq<Line>, hooks: seq<Line>, i: nat): seq<Line>
    requires i <= |lines|
    decreases |lines| - i
  {
    hide Stays;
    if i == |lines| then [] else (if Stays(lines, hooks, i) then [lines[i]] else []) + Staying(lines, hooks, i + 1)
  }

  predicate Above(lines: seq<Line>, hooks: seq<Line>, i: nat)
    requires i <= |lines|
  {
    hide Marker;
    i > 0 && lines[i - 1] == Marker() && (Marker() in hooks ==> Run(lines, i - 1) % 2 == 0)
  }

  lemma {:induction false} KeptFrom(lines: seq<Line>, hooks: seq<Line>, i: nat)
    requires i <= |lines|
    ensures Kept(lines[i..], Above(lines, hooks, i), hooks) ==
              (if Above(lines, hooks, i) && !(i < |lines| && lines[i] in hooks) then [Marker()] else [])
              + Staying(lines, hooks, i)
    decreases |lines| - i
  {
    hide Marker;
    if i < |lines| {
      assert lines[i..][0] == lines[i] && lines[i..][1..] == lines[i + 1..];
      HoldsNext(lines, hooks, i);
      KeptFrom(lines, hooks, i + 1);
      hide Kept, Above;
      KeptCons(lines[i], lines[i + 1..], Above(lines, hooks, i), hooks);
      assert lines[i..] == [lines[i]] + lines[i + 1..];
    }
  }

  lemma HoldsNext(lines: seq<Line>, hooks: seq<Line>, i: nat)
    requires i < |lines|
    ensures Holds(lines[i], Above(lines, hooks, i), hooks) == Above(lines, hooks, i + 1)
  {
    hide Marker;
  }

  /** Taking the boot line out takes the lines that are ours and no other, in order, and keeps the final newline
      or its absence. */
  lemma RemovedExact(x: seq<byte>, hooks: seq<Line>)
    ensures Removed(x, hooks) == FileOf(Staying(LinesOf(x), hooks, 0), FinalNewline(x))
  {
    hide Marker, Kept, Staying, LinesOf;
    KeptFrom(LinesOf(x), hooks, 0);
    var staying := Staying(LinesOf(x), hooks, 0);
    assert LinesOf(x)[0..] == LinesOf(x) && [] + staying == staying;
  }
}
