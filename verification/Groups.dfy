/** The boot scheduler's groups and rounds (relaunch-anchor's boot.rs): entries that could race each
    other launch one at a time. */
module Groups {
  import opened Text
  import opened Model
  import opened Desktop

  // ------------------------------------------------------------------ what links two

  /** `program`: the first word of a signed command. */
  function ProgramFrom(s: string, cur: string): string {
    if s == [] || s[0] == ' ' then cur
    else if s[0] == '\\' then (if |s| == 1 then cur else ProgramFrom(s[2..], cur + [s[1]]))
    else ProgramFrom(s[1..], cur + [s[0]])
  }

  method Program(exec: string) returns (out: string)
    ensures out == SplitCanonical(exec)[0]
  {
    out := [];
    var it := exec;
    FirstWord(exec, []);
    while it != [] && it[0] != ' '
      invariant ProgramFrom(it, out) == ProgramFrom(exec, [])
      decreases |it|
    {
      if it[0] == '\\' {
        if |it| == 1 {
          it := [];
        } else {
          out := out + [it[1]];
          it := it[2..];
        }
      } else {
        out := out + [it[0]];
        it := it[1..];
      }
    }
  }

  /** The program read off a command is the first argument it splits into. */
  lemma {:induction false} FirstWord(s: string, cur: string)
    ensures ProgramFrom(s, cur) == SplitFrom(s, cur)[0]
    decreases |s|
  {
    if s != [] && s[0] != ' ' {
      if s[0] == '\\' {
        if |s| > 1 { FirstWord(s[2..], cur + [s[1]]); }
      } else {
        FirstWord(s[1..], cur + [s[0]]);
      }
    }
  }

  /** For a canonical command, that is the program it runs. */
  lemma ProgramIsFirst(argv: seq<string>)
    requires argv != []
    ensures ProgramFrom(CanonicalExec(argv), []) == argv[0]
  {
    FirstWord(CanonicalExec(argv), []);
    CanonicalRoundTrip(argv);
  }

  function Basename(path: string): string {
    if '/' !in path then path else Basename(path[1..])
  }

  /** What follows the last `/`. */
  lemma {:induction false} BasenameExact(dir: string, name: string)
    requires '/' !in name
    ensures Basename(name) == name && Basename(dir + ['/'] + name) == name
  {
    var path := dir + ['/'] + name;
    assert path[|dir|] == '/';
    if dir == [] {
      assert path[1..] == name;
    } else {
      BasenameExact(dir[1..], name);
      assert path[1..] == dir[1..] + ['/'] + name;
    }
  }

  function Lower(c: char): char { if 'A' <= c <= 'Z' then ((c as int - 'A' as int) + 'a' as int) as char else c }

  /** The class's first word, up to `-` or `.`, in lower case. */
  function ClassWord(s: string): string {
    if s == [] || s[0] == '-' || s[0] == '.' then [] else [Lower(s[0])] + ClassWord(s[1..])
  }

  lemma {:induction false} ClassWordExact(s: string)
    ensures var w := ClassWord(s);
            && |w| <= |s| && (|w| < |s| ==> s[|w|] == '-' || s[|w|] == '.')
            && forall i | 0 <= i < |w| ::
                 && s[i] != '-' && s[i] != '.'
                 && w[i] as int == s[i] as int + if 'A' <= s[i] <= 'Z' then 32 else 0
  {
    if s != [] && s[0] != '-' && s[0] != '.' {
      ClassWordExact(s[1..]);
      var w := ClassWord(s[1..]);
      assert forall i | 0 <= i < |w| :: s[i + 1] == s[1..][i];
      forall i | 0 <= i < |w| + 1
        ensures s[i] != '-' && s[i] != '.'
                && ClassWord(s)[i] as int == s[i] as int + if 'A' <= s[i] <= 'Z' then 32 else 0
      {
        if i > 0 { assert ClassWord(s)[i] == w[i - 1] && s[i] == s[1..][i - 1]; }
      }
    }
  }

  datatype Key = ProgramKey(name: string) | ClassKey(word: string)

  function Keys(e: Entry): seq<Key> {
    [ProgramKey(Basename(ProgramFrom(e.exec, []))), ClassKey(ClassWord(e.windowClass))]
  }

  /** Two entries sharing a key. */
  predicate Linked(es: seq<Entry>, i: nat, j: nat) {
    i < |es| && j < |es| && exists k | k in Keys(es[i]) :: k in Keys(es[j])
  }

  /** They share one exactly when what they run has the same name, wherever it is installed, or their classes have the
      same first word. */
  lemma LinkedExact(es: seq<Entry>, i: nat, j: nat)
    requires i < |es| && j < |es|
    ensures Linked(es, i, j) <==>
              || Basename(SplitCanonical(es[i].exec)[0]) == Basename(SplitCanonical(es[j].exec)[0])
              || ClassWord(es[i].windowClass) == ClassWord(es[j].windowClass)
  {
    FirstWord(es[i].exec, []);
    FirstWord(es[j].exec, []);
    hide Basename, ProgramFrom, ClassWord;
    var (a, b) := (Keys(es[i]), Keys(es[j]));
    assert a[0] in a && a[1] in a && b[0] in b && b[1] in b;
  }

  lemma LinkedSymmetric(es: seq<Entry>, i: nat, j: nat)
    requires Linked(es, i, j)
    ensures Linked(es, j, i)
  {
    hide Keys;
  }

  // --------------------------------------------------------------------- connection

  /** A chain of entries, each sharing a key with the next. */
  predicate Chain(es: seq<Entry>, p: seq<nat>) {
    p != [] && (forall i | i in p :: i < |es|) && forall k | 0 <= k < |p| - 1 :: Linked(es, p[k], p[k + 1])
  }

  ghost predicate Connected(es: seq<Entry>, i: nat, j: nat) {
    exists p :: Chain(es, p) && p[0] == i && p[|p| - 1] == j
  }

  lemma ConnectedSelf(es: seq<Entry>, i: nat)
    requires i < |es|
    ensures Connected(es, i, i)
  {
    assert Chain(es, [i]);
  }

  lemma ConnectedLink(es: seq<Entry>, i: nat, j: nat)
    requires Linked(es, i, j)
    ensures Connected(es, i, j)
  {
    assert Chain(es, [i, j]);
  }

  lemma ConnectedTrans(es: seq<Entry>, i: nat, j: nat, k: nat)
    requires Connected(es, i, j) && Connected(es, j, k)
    ensures Connected(es, i, k)
  {
    hide Linked;
    var p :| Chain(es, p) && p[0] == i && p[|p| - 1] == j;
    var q :| Chain(es, q) && q[0] == j && q[|q| - 1] == k;
    var r := p + q[1..];
    forall m | 0 <= m < |r| - 1 ensures Linked(es, r[m], r[m + 1]) {
      if m < |p| - 1 {
        assert r[m] == p[m] && r[m + 1] == p[m + 1];
      } else {
        assert r[m] == q[m - |p| + 1] && r[m + 1] == q[m - |p| + 2];
      }
    }
    assert forall i | i in r :: i in p || i in q;
    assert Chain(es, r);
  }

  function Reversed(p: seq<nat>): seq<nat> { seq(|p|, k requires 0 <= k < |p| => p[|p| - 1 - k]) }

  lemma ConnectedSym(es: seq<Entry>, i: nat, j: nat)
    requires Connected(es, i, j)
    ensures Connected(es, j, i)
  {
    hide Linked;
    var p :| Chain(es, p) && p[0] == i && p[|p| - 1] == j;
    var r := Reversed(p);
    forall k | 0 <= k < |r| - 1 ensures Linked(es, r[k], r[k + 1]) {
      LinkedSymmetric(es, p[|p| - 2 - k], p[|p| - 1 - k]);
    }
    forall x | x in r ensures x < |es| {
      var k :| 0 <= k < |r| && r[k] == x;
      assert p[|p| - 1 - k] in p;
    }
    assert Chain(es, r);
  }

  // -------------------------------------------------------------------- the labels

  /** Equal labels mean connected. */
  ghost predicate Sound(es: seq<Entry>, g: seq<nat>) {
    forall x, y | 0 <= x < |g| && 0 <= y < |g| && g[x] == g[y] :: Connected(es, x, y)
  }

  function Relabelled(g: seq<nat>, from: nat, to: nat): seq<nat> {
    seq(|g|, k requires 0 <= k < |g| => if g[k] == from then to else g[k])
  }

  lemma RelabelSound(es: seq<Entry>, g: seq<nat>, i: nat, j: nat)
    requires |g| == |es| && Sound(es, g) && Linked(es, i, j)
    ensures Sound(es, Relabelled(g, g[i], g[j]))
  {
    assert i < |g| && j < |g|;
    hide Connected, Linked;
    ConnectedLink(es, i, j);
    var h := Relabelled(g, g[i], g[j]);
    forall x, y | 0 <= x < |h| && 0 <= y < |h| && h[x] == h[y] ensures Connected(es, x, y) {
      if g[x] != g[y] {
        var (a, b) := if g[x] == g[i] then (x, y) else (y, x);
        assert g[a] == g[i] && g[b] == g[j];
        ConnectedTrans(es, a, i, j);
        ConnectedTrans(es, a, j, b);
        ConnectedSym(es, a, b);
      }
    }
  }

  method Relabel(group: array<nat>, from: nat, to: nat)
    modifies group
    ensures group[..] == Relabelled(old(group[..]), from, to)
  {
    for k := 0 to group.Length
      invariant group[..k] == Relabelled(old(group[..]), from, to)[..k] && group[k..] == old(group[k..])
    {
      assert group[k] == old(group[k]);
      if group[k] == from { group[k] := to; }
    }
  }

  /** Linked entries up to `i`, and of entry `i` those before `j`, share a label. */
  predicate Merged(es: seq<Entry>, g: seq<nat>, i: nat, j: nat)
    requires |g| == |es|
  {
    forall x, y | 0 <= y < x < |g| && Linked(es, x, y) && (x < i || (x == i && y < j)) :: g[x] == g[y]
  }

  lemma MergedKeeps(es: seq<Entry>, g: seq<nat>, i: nat, j: nat, from: nat, to: nat)
    requires |g| == |es| && Merged(es, g, i, j)
    ensures Merged(es, Relabelled(g, from, to), i, j)
  {
    hide Linked;
  }

  function Own(n: nat): seq<nat> { seq(n, k => k) }

  /** A linked pair has the later entry's label replaced by the earlier one's. */
  function Paired(es: seq<Entry>, g: seq<nat>, i: nat, j: nat): seq<nat>
    requires |g| == |es| && j < i < |es|
  {
    if Linked(es, i, j) then Relabelled(g, g[i], g[j]) else g
  }

  /** The labels when pair `(i, j)` is reached. */
  function LabelsAt(es: seq<Entry>, i: nat, j: nat): (g: seq<nat>)
    requires j <= i <= |es| && (i == |es| ==> j == 0)
    ensures |g| == |es|
    decreases i, j
  {
    if j > 0 then Paired(es, LabelsAt(es, i, j - 1), i, j - 1)
    else if i > 0 then LabelsAt(es, i - 1, i - 1)
    else Own(|es|)
  }

  function Labels(es: seq<Entry>): (g: seq<nat>)
    ensures |g| == |es|
  {
    LabelsAt(es, |es|, 0)
  }

  /** Labels computed in place, one linked pair at a time. */
  method Label(es: seq<Entry>) returns (group: array<nat>)
    ensures fresh(group) && group[..] == Labels(es)
    ensures Sound(es, group[..]) && Merged(es, group[..], |es|, 0)
  {
    hide Linked, Sound, Merged;
    group := new nat[|es|](k => k);
    assert group[..] == Own(|es|);
    for i := 0 to |es|
      invariant group[..] == LabelsAt(es, i, 0)
    {
      for j := 0 to i
        invariant group[..] == LabelsAt(es, i, j)
      {
        if Linked(es, i, j) { Relabel(group, group[i], group[j]); }
      }
    }
    LabelsSound(es, |es|, 0);
  }

  /** At every pair, equal labels mean connected and the pairs before it are merged. */
  lemma {:induction false} LabelsSound(es: seq<Entry>, i: nat, j: nat)
    requires j <= i <= |es| && (i == |es| ==> j == 0)
    ensures Sound(es, LabelsAt(es, i, j)) && Merged(es, LabelsAt(es, i, j), i, j)
    decreases i, j
  {
    hide Linked, Sound, Merged, Connected;
    if j > 0 {
      var g := LabelsAt(es, i, j - 1);
      LabelsSound(es, i, j - 1);
      if Linked(es, i, j - 1) {
        RelabelSound(es, g, i, j - 1);
        MergedKeeps(es, g, i, j - 1, g[i], g[j - 1]);
      }
      NextPair(es, LabelsAt(es, i, j), i, j - 1);
    } else if i > 0 {
      LabelsSound(es, i - 1, i - 1);
      NextRow(es, LabelsAt(es, i, 0), i - 1);
    } else {
      StartLabels(es, LabelsAt(es, 0, 0));
    }
  }

  lemma StartLabels(es: seq<Entry>, g: seq<nat>)
    requires |g| == |es| && forall k | 0 <= k < |g| :: g[k] == k
    ensures Sound(es, g) && Merged(es, g, 0, 0)
  {
    hide Connected;
    forall x | 0 <= x < |g| ensures Connected(es, x, x) { ConnectedSelf(es, x); }
  }

  lemma NextPair(es: seq<Entry>, g: seq<nat>, i: nat, j: nat)
    requires |g| == |es| && j < i < |es| && Merged(es, g, i, j) && (Linked(es, i, j) ==> g[i] == g[j])
    ensures Merged(es, g, i, j + 1)
  {
    hide Linked;
  }

  lemma NextRow(es: seq<Entry>, g: seq<nat>, i: nat)
    requires |g| == |es| && i < |es| && Merged(es, g, i, i)
    ensures Merged(es, g, i + 1, 0)
  {
    hide Linked;
  }

  lemma {:induction false} ChainLabel(es: seq<Entry>, g: seq<nat>, p: seq<nat>)
    requires |g| == |es| && Merged(es, g, |es|, 0) && Chain(es, p)
    ensures p[0] < |g| && p[|p| - 1] < |g| && g[p[0]] == g[p[|p| - 1]]
  {
    hide Linked;
    assert p[0] in p;
    if |p| > 1 {
      assert forall k | 0 <= k < |p| - 2 :: Linked(es, p[1..][k], p[1..][k + 1]);
      assert p[1] in p && forall i | i in p[1..] :: i in p;
      ChainLabel(es, g, p[1..]);
      if p[0] < p[1] { LinkedSymmetric(es, p[0], p[1]); }
    }
  }

  /** The labels are the connected components. */
  lemma LabelsExact(es: seq<Entry>, g: seq<nat>, i: nat, j: nat)
    requires |g| == |es| && Sound(es, g) && Merged(es, g, |es|, 0) && i < |es| && j < |es|
    ensures g[i] == g[j] <==> Connected(es, i, j)
  {
    hide Linked, Merged;
    if Connected(es, i, j) {
      var p :| Chain(es, p) && p[0] == i && p[|p| - 1] == j;
      ChainLabel(es, g, p);
    }
  }

  // --------------------------------------------------------- which member names a group

  /** Of the entries before `i` in `y`'s group, counting only those entries, `y` is the first to share a key
      with `i`. */
  ghost predicate FirstMet(es: seq<Entry>, i: nat, y: nat)
    requires y < i < |es|
  {
    Linked(es, i, y) && forall w | 0 <= w < y && Linked(es, i, w) :: !Connected(es[..i], w, y)
  }

  /** Entry `i` shares a key with the group of `f` and then, further on, with one more group. */
  ghost predicate TakesOver(es: seq<Entry>, i: nat, f: nat)
    requires i < |es|
  {
    exists x, y | 0 <= x < y < i :: Linked(es, i, x) && Connected(es[..i], x, f) && FirstMet(es, i, y)
  }

  /** In row `i`, an entry before `j` of the group labelled like `k` has been met. */
  predicate Met(es: seq<Entry>, g: seq<nat>, i: nat, j: nat, k: nat)
    requires j <= |g| && k < |g|
  {
    exists w | 0 <= w < j :: Linked(es, i, w) && g[w] == g[k]
  }

  /** What row `i` has made, at `j`, of the labels `g` it started from: the groups met so far and `i` itself
      have the label of one of them, and nothing else has changed. */
  predicate RowState(es: seq<Entry>, g: seq<nat>, h: seq<nat>, i: nat, j: nat)
    requires |g| == |h| == |es| && j <= i < |es|
  {
    && ((h[i] == i && forall w | 0 <= w < j :: !Linked(es, i, w))
        || exists w | 0 <= w < j :: Linked(es, i, w) && h[i] == g[w])
    && forall k | 0 <= k < i :: h[k] == if Met(es, g, i, j, k) then h[i] else g[k]
  }

  /** In row `i`, the group labelled `f` was met and then, before `j`, another for the first time. */
  predicate Turned(es: seq<Entry>, g: seq<nat>, i: nat, j: nat, f: nat)
    requires j <= |g|
  {
    exists x, y | 0 <= x < y < j :: Linked(es, i, x) && g[x] == f && Linked(es, i, y) && !Met(es, g, i, y, y)
  }

  /** Before row `i` its entry and those after it are labelled by themselves, those before it below it. */
  lemma {:induction false} Below(es: seq<Entry>, i: nat, j: nat)
    requires j <= i <= |es| && (i == |es| ==> j == 0)
    ensures var g := LabelsAt(es, i, j);
            && (forall k | 0 <= k < i :: g[k] < i) && (forall k | i < k < |es| :: g[k] == k)
            && (i < |es| ==> if j == 0 then g[i] == i else g[i] <= i)
    decreases i, j
  {
    hide Linked;
    if j > 0 { Below(es, i, j - 1); } else if i > 0 { Below(es, i - 1, i - 1); }
  }

  lemma {:induction false} RowIs(es: seq<Entry>, i: nat, j: nat)
    requires j <= i < |es|
    ensures RowState(es, LabelsAt(es, i, 0), LabelsAt(es, i, j), i, j)
  {
    hide Linked;
    Below(es, i, 0);
    if j > 0 {
      RowIs(es, i, j - 1);
      RowStep(es, LabelsAt(es, i, 0), LabelsAt(es, i, j - 1), i, j - 1);
    }
  }

  lemma PairedAt(es: seq<Entry>, g: seq<nat>, h: seq<nat>, i: nat, j: nat)
    requires |g| == |h| == |es| && j < i < |es| && RowState(es, g, h, i, j)
    ensures Paired(es, h, i, j)[i] == if Linked(es, i, j) && !Met(es, g, i, j, j) then g[j] else h[i]
  {
    hide Linked, Met;
  }

  lemma MetNext(es: seq<Entry>, g: seq<nat>, i: nat, j: nat, k: nat)
    requires j < |g| && k < |g|
    ensures Met(es, g, i, j + 1, k) <==> Met(es, g, i, j, k) || (Linked(es, i, j) && g[j] == g[k])
  {
    hide Linked;
  }

  lemma RowStep(es: seq<Entry>, g: seq<nat>, h: seq<nat>, i: nat, j: nat)
    requires |g| == |h| == |es| && j < i < |es| && RowState(es, g, h, i, j) && forall k | 0 <= k < i :: g[k] < i
    ensures RowState(es, g, Paired(es, h, i, j), i, j + 1)
  {
    hide Linked;
    var r := Paired(es, h, i, j);
    if Linked(es, i, j) {
      PairedAt(es, g, h, i, j);
      forall k | 0 <= k < i ensures r[k] == if Met(es, g, i, j + 1, k) then r[i] else g[k] {
        MetNext(es, g, i, j, k);
        if Met(es, g, i, j, k) { assert r[k] == r[i]; }
      }
    }
  }

  lemma TurnedNext(es: seq<Entry>, g: seq<nat>, i: nat, j: nat, f: nat)
    requires j < |g| && f < |g| && g[f] == f
    ensures Turned(es, g, i, j + 1, f) <==>
            Turned(es, g, i, j, f) || (Linked(es, i, j) && Met(es, g, i, j, f) && !Met(es, g, i, j, j))
  {
    hide Linked, Met;
    if Met(es, g, i, j, f) { MetAt(es, g, i, j, f); }
    if Turned(es, g, i, j + 1, f) && !Turned(es, g, i, j, f) {
      var x, y :| 0 <= x < y < j + 1 && Linked(es, i, x) && g[x] == f && Linked(es, i, y) && !Met(es, g, i, y, y);
      assert y == j;
      MetBy(es, g, i, j, x, f);
    }
  }

  lemma MetBy(es: seq<Entry>, g: seq<nat>, i: nat, j: nat, w: nat, k: nat)
    requires w < j <= |g| && k < |g| && Linked(es, i, w) && g[w] == g[k]
    ensures Met(es, g, i, j, k)
  {
    hide Linked;
  }

  lemma MetAt(es: seq<Entry>, g: seq<nat>, i: nat, j: nat, k: nat)
    requires j <= |g| && k < |g| && Met(es, g, i, j, k)
    ensures exists w | 0 <= w < j :: Linked(es, i, w) && g[w] == g[k]
  {
    hide Linked;
  }

  /** In its row, the label `f` is kept exactly unless the row turns from its group to another. */
  lemma {:induction false} RowKeeps(es: seq<Entry>, i: nat, j: nat, f: nat)
    requires f < i < |es| && j <= i && LabelsAt(es, i, 0)[f] == f
    ensures var (g, h) := (LabelsAt(es, i, 0), LabelsAt(es, i, j));
            && (h[i] == f <==> Met(es, g, i, j, f) && !Turned(es, g, i, j, f))
            && (h[f] == f <==> !Turned(es, g, i, j, f))
  {
    hide Linked, Met, Turned, RowState;
    var g := LabelsAt(es, i, 0);
    Below(es, i, 0);
    RowIs(es, i, j);
    if j > 0 {
      RowKeeps(es, i, j - 1, f);
      RowIs(es, i, j - 1);
      PairedAt(es, g, LabelsAt(es, i, j - 1), i, j - 1);
      MetNext(es, g, i, j - 1, f);
      TurnedNext(es, g, i, j - 1, f);
      if Turned(es, g, i, j - 1, f) { TurnedMet(es, g, i, j - 1, f); }
      if g[j - 1] == f { MetSame(es, g, i, j - 1, f); }
    } else {
      KeepsStart(es, g, i, f);
    }
    KeptLabel(es, g, LabelsAt(es, i, j), i, j, f);
  }

  lemma MetSame(es: seq<Entry>, g: seq<nat>, i: nat, j: nat, f: nat)
    requires j < |g| && f < |g| && g[j] == g[f]
    ensures Met(es, g, i, j, j) <==> Met(es, g, i, j, f)
  {
    hide Linked;
  }

  lemma KeepsStart(es: seq<Entry>, g: seq<nat>, i: nat, f: nat)
    requires f < |g|
    ensures !Met(es, g, i, 0, f) && !Turned(es, g, i, 0, f)
  {
  }

  lemma KeptLabel(es: seq<Entry>, g: seq<nat>, h: seq<nat>, i: nat, j: nat, f: nat)
    requires |g| == |h| == |es| && j <= i < |es| && f < i && g[f] == f && RowState(es, g, h, i, j)
    requires h[i] == f <==> Met(es, g, i, j, f) && !Turned(es, g, i, j, f)
    ensures h[f] == f <==> !Turned(es, g, i, j, f)
  {
    hide Linked, Met, Turned;
    if Turned(es, g, i, j, f) { TurnedMet(es, g, i, j, f); }
  }

  lemma TurnedMet(es: seq<Entry>, g: seq<nat>, i: nat, j: nat, f: nat)
    requires j <= |g| && f < |g| && g[f] == f && Turned(es, g, i, j, f)
    ensures Met(es, g, i, j, f)
  {
    hide Linked, Met;
    var x, y :| 0 <= x < y < j && Linked(es, i, x) && g[x] == f && Linked(es, i, y) && !Met(es, g, i, y, y);
    MetBy(es, g, i, j, x, f);
  }

  /** Every label is its own entry's. */
  predicate Rooted(g: seq<nat>) { forall k | 0 <= k < |g| :: g[k] < |g| && g[g[k]] == g[k] }

  lemma {:induction false} LabelsRooted(es: seq<Entry>, i: nat, j: nat)
    requires j <= i <= |es| && (i == |es| ==> j == 0)
    ensures Rooted(LabelsAt(es, i, j))
    decreases i, j
  {
    hide Linked;
    if j > 0 { LabelsRooted(es, i, j - 1); } else if i > 0 { LabelsRooted(es, i - 1, i - 1); }
  }

  /** So a label once lost does not come back. */
  lemma {:induction false} Gone(es: seq<Entry>, i: nat, j: nat, f: nat)
    requires f < |es| && j <= i < |es| && LabelsAt(es, i, 0)[f] != f
    ensures LabelsAt(es, i, j)[f] != f
  {
    hide Linked;
    if j > 0 {
      Gone(es, i, j - 1, f);
      LabelsRooted(es, i, j - 1);
    }
  }

  /** Before row `i` labels agree exactly for entries connected among those before it. */
  lemma BeforeRow(es: seq<Entry>, i: nat, x: nat, y: nat)
    requires x < i && y < i <= |es|
    ensures LabelsAt(es, i, 0)[x] == LabelsAt(es, i, 0)[y] <==> Connected(es[..i], x, y)
  {
    hide Linked, Connected;
    PrefixLabels(es, i, i, 0);
    LabelsSound(es[..i], i, 0);
    LabelsExact(es[..i], Labels(es[..i]), x, y);
  }

  /** The entries from `n` on play no part in the labels of those before it. */
  lemma {:induction false} PrefixLabels(es: seq<Entry>, n: nat, i: nat, j: nat)
    requires j <= i <= n <= |es| && (i == n ==> j == 0)
    ensures LabelsAt(es, i, j)[..n] == LabelsAt(es[..n], i, j)
    decreases i, j
  {
    hide Linked;
    if j > 0 {
      PrefixLabels(es, n, i, j - 1);
      PrefixLinked(es, n, i, j - 1);
    } else if i > 0 {
      PrefixLabels(es, n, i - 1, i - 1);
    }
  }

  lemma PrefixLinked(es: seq<Entry>, n: nat, i: nat, j: nat)
    requires i < n <= |es| && j < n
    ensures Linked(es[..n], i, j) <==> Linked(es, i, j)
  {
    hide Keys;
  }

  lemma TurnedIs(es: seq<Entry>, i: nat, f: nat)
    requires f < i < |es| && LabelsAt(es, i, 0)[f] == f
    ensures Turned(es, LabelsAt(es, i, 0), i, i, f) <==> TakesOver(es, i, f)
  {
    hide Linked, Connected, LabelsAt, Met, FirstMet;
    var g := LabelsAt(es, i, 0);
    forall x | 0 <= x < i ensures g[x] == f <==> Connected(es[..i], x, f) { BeforeRow(es, i, x, f); }
    forall y | 0 <= y < i ensures FirstMet(es, i, y) <==> Linked(es, i, y) && !Met(es, g, i, y, y) {
      MetIs(es, i, y);
    }
    if Turned(es, g, i, i, f) {
      var x, y :| 0 <= x < y < i && Linked(es, i, x) && g[x] == f && Linked(es, i, y) && !Met(es, g, i, y, y);
      assert FirstMet(es, i, y);
    }
    if TakesOver(es, i, f) {
      var x, y :| 0 <= x < y < i && Linked(es, i, x) && Connected(es[..i], x, f) && FirstMet(es, i, y);
      assert Linked(es, i, y) && g[x] == f;
    }
  }

  lemma MetIs(es: seq<Entry>, i: nat, y: nat)
    requires y < i < |es|
    ensures FirstMet(es, i, y) <==> Linked(es, i, y) && !Met(es, LabelsAt(es, i, 0), i, y, y)
  {
    hide Linked, Connected, LabelsAt;
    forall w | 0 <= w < y ensures LabelsAt(es, i, 0)[w] == LabelsAt(es, i, 0)[y] <==> Connected(es[..i], w, y) {
      BeforeRow(es, i, w, y);
    }
  }

  lemma {:induction false} NamedSoFar(es: seq<Entry>, i: nat, f: nat)
    requires f < i <= |es|
    ensures LabelsAt(es, i, 0)[f] == f <==>
            (forall j | 0 <= j < f :: !Linked(es, f, j)) && forall m | f < m < i :: !TakesOver(es, m, f)
    decreases i
  {
    hide Linked, TakesOver, Turned, Met;
    var m := i - 1;
    assert LabelsAt(es, i, 0) == LabelsAt(es, m, m);
    RowIs(es, m, m);
    Below(es, m, 0);
    if m > f {
      NamedSoFar(es, m, f);
      if LabelsAt(es, m, 0)[f] == f {
        RowKeeps(es, m, m, f);
        TurnedIs(es, m, f);
      } else {
        Gone(es, m, m, f);
      }
    }
  }

  /** An entry's group ends up named by it, as by its first member, exactly unless it joined an earlier
      entry's group or a later entry joins its group to one met further on. */
  lemma NamedByFirst(es: seq<Entry>, f: nat)
    requires f < |es|
    ensures Labels(es)[f] == f <==>
            (forall j | 0 <= j < f :: !Linked(es, f, j)) && forall i | f < i < |es| :: !TakesOver(es, i, f)
  {
    hide Linked, TakesOver;
    NamedSoFar(es, |es|, f);
    assert Labels(es) == LabelsAt(es, |es|, 0);
  }

  function Running(exec: string, windowClass: string): Entry {
    Entry("x", windowClass, 1, None, "x", exec, DesktopFile, NoProvenance, Launcher("", ""), None, true)
  }

  lemma RunningKeys(exec: string, windowClass: string)
    requires |exec| == 1 && |windowClass| == 1 && 'a' <= exec[0] <= 'z' && 'a' <= windowClass[0] <= 'z'
    ensures Keys(Running(exec, windowClass)) == [ProgramKey(exec), ClassKey(windowClass)]
  {
    assert exec == [exec[0]] && windowClass == [windowClass[0]] && exec[1..] == [] && windowClass[1..] == [];
    assert ProgramFrom([], exec) == exec && [] + [exec[0]] == exec && Basename(exec) == exec;
    assert ClassWord([]) == [] && Lower(windowClass[0]) == windowClass[0] && [windowClass[0]] + [] == windowClass;
  }

  lemma LabelsOfThree(es: seq<Entry>)
    requires |es| == 3 && !Linked(es, 1, 0) && Linked(es, 2, 0) && Linked(es, 2, 1)
    ensures Labels(es) == [1, 1, 1] && TakesOver(es, 2, 0)
  {
    hide Linked, TakesOver, Turned, Met;
    assert LabelsAt(es, 0, 0) == [0, 1, 2] == LabelsAt(es, 1, 0) == LabelsAt(es, 1, 1) == LabelsAt(es, 2, 0);
    assert LabelsAt(es, 2, 1) == [0, 1, 0];
    assert LabelsAt(es, 2, 2) == [1, 1, 1] == LabelsAt(es, 3, 0);
    RowKeeps(es, 2, 2, 0);
    TurnedIs(es, 2, 0);
  }

  /** An entry sharing its program with the first of two unrelated ones and its class with the second: the
      second names all three. */
  lemma LaterNames() returns (es: seq<Entry>)
    ensures |es| == 3 && !Linked(es, 1, 0) && Linked(es, 2, 0) && Linked(es, 2, 1)
    ensures Labels(es) == [1, 1, 1] && TakesOver(es, 2, 0)
  {
    es := [Running("a", "p"), Running("b", "q"), Running("a", "q")];
    RunningKeys("a", "p");
    RunningKeys("b", "q");
    RunningKeys("a", "q");
    hide Keys, Running, Labels, TakesOver;
    assert Keys(es[0]) == [ProgramKey("a"), ClassKey("p")] && Keys(es[1]) == [ProgramKey("b"), ClassKey("q")];
    assert Keys(es[2]) == [ProgramKey("a"), ClassKey("q")];
    assert ProgramKey("a") in Keys(es[2]) && ClassKey("q") in Keys(es[2]);
    LabelsOfThree(es);
  }

  // ------------------------------------------------------------- groups and rounds

  predicate Bounded(out: seq<seq<nat>>, n: nat) {
    forall k, m | 0 <= k < |out| && 0 <= m < |out[k]| :: out[k][m] < n
  }

  predicate InSome(out: seq<seq<nat>>, i: nat) { exists k :: 0 <= k < |out| && i in out[k] }

  predicate Covers(out: seq<seq<nat>>, n: nat) { forall i: nat :: i < n ==> InSome(out, i) }

  predicate Ordered(out: seq<seq<nat>>) {
    && (forall k | 0 <= k < |out| :: out[k] != [])
    && forall k, a, b | 0 <= k < |out| && 0 <= a < b < |out[k]| :: out[k][a] < out[k][b]
  }

  /** Two places are in one group exactly when their labels agree. */
  predicate Apart(out: seq<seq<nat>>, g: seq<nat>)
    requires Bounded(out, |g|)
  {
    forall k, l, a, b | 0 <= k < |out| && 0 <= l < |out| && 0 <= a < |out[k]| && 0 <= b < |out[l]| ::
      k == l <==> g[out[k][a]] == g[out[l][b]]
  }

  /** `out` splits the first `n` indices by label: each once, in order inside its group. */
  predicate Splits(out: seq<seq<nat>>, g: seq<nat>, n: nat)
    requires n <= |g|
  {
    Bounded(out, n) && Covers(out, n) && Ordered(out) && Bounded(out, |g|) && Apart(out, g)
  }

  lemma InSomeAfter(out: seq<seq<nat>>, r: seq<seq<nat>>, i: nat)
    requires InSome(out, i) && |out| <= |r| && forall k | 0 <= k < |out| :: out[k] <= r[k]
    ensures InSome(r, i)
  {
    var k :| 0 <= k < |out| && i in out[k];
    assert i in r[k];
  }

  lemma CoversMore(out: seq<seq<nat>>, r: seq<seq<nat>>, n: nat, k: nat)
    requires Covers(out, n) && |out| <= |r| && (forall k | 0 <= k < |out| :: out[k] <= r[k]) && k < |r| && n in r[k]
    ensures Covers(r, n + 1)
  {
    hide InSome;
    forall i: nat | i < n + 1 ensures InSome(r, i) {
      if i < n { InSomeAfter(out, r, i); } else { assert InSome(r, n) by { InGroup(r, k, n); } }
    }
  }

  lemma InGroup(r: seq<seq<nat>>, k: nat, i: nat)
    requires k < |r| && i in r[k]
    ensures InSome(r, i)
  {
  }

  lemma SplitsAdd(out: seq<seq<nat>>, g: seq<nat>, n: nat, k: nat)
    requires n < |g| && Splits(out, g, n) && k < |out| && out[k] != [] && g[out[k][0]] == g[n]
    ensures Splits(out[k := out[k] + [n]], g, n + 1)
  {
    var r := out[k := out[k] + [n]];
    CoversMore(out, r, n, k);
    hide Covers, InSome;
    forall l, a | 0 <= l < |r| && 0 <= a < |r[l]| ensures r[l][a] < n + 1 && (l == k <==> g[r[l][a]] == g[n]) {
      if l != k || a < |out[k]| { assert r[l][a] == out[l][a]; }
    }
    forall l, m, a, b | 0 <= l < |r| && 0 <= m < |r| && 0 <= a < |r[l]| && 0 <= b < |r[m]|
      ensures l == m <==> g[r[l][a]] == g[r[m][b]]
    {
      if l != k && m != k { assert r[l] == out[l] && r[m] == out[m]; }
    }
  }

  lemma SplitsNew(out: seq<seq<nat>>, g: seq<nat>, n: nat)
    requires n < |g| && Splits(out, g, n) && forall l | 0 <= l < |out| :: out[l] != [] && g[out[l][0]] != g[n]
    ensures Splits(out + [[n]], g, n + 1)
  {
    var r := out + [[n]];
    CoversMore(out, r, n, |out|);
    hide Covers, InSome;
    forall l, a | 0 <= l < |r| && 0 <= a < |r[l]| ensures r[l][a] < n + 1 && (l == |out| <==> g[r[l][a]] == g[n]) {
      if l < |out| { assert r[l] == out[l] && g[out[l][a]] == g[out[l][0]]; }
    }
    forall l, m, a, b | 0 <= l < |r| && 0 <= m < |r| && 0 <= a < |r[l]| && 0 <= b < |r[m]|
      ensures l == m <==> g[r[l][a]] == g[r[m][b]]
    {
      if l < |out| && m < |out| { assert r[l] == out[l] && r[m] == out[m]; }
    }
  }

  /** `groups`: the entries, given by their place in launch order, in groups. */
  method GroupsOf(es: seq<Entry>) returns (out: seq<seq<nat>>)
    ensures IsPartition(es, out)
  {
    hide Sound, Merged, Linked, Connected, Splits;
    var group := Label(es);
    ghost var g := group[..];
    out := [];
    assert Splits(out, g, 0) by { EmptySplits(g); }
    for i := 0 to |es|
      invariant group[..] == g && Splits(out, g, i)
    {
      var k := 0;
      SplitsFacts(out, g, i);
      while k < |out| && group[out[k][0]] != group[i]
        invariant k <= |out| && forall l | 0 <= l < k :: g[out[l][0]] != g[i]
      {
        k := k + 1;
      }
      if k < |out| {
        SplitsAdd(out, g, i, k);
        out := out[k := out[k] + [i]];
      } else {
        SplitsNew(out, g, i);
        out := out + [[i]];
      }
    }
    PartitionIs(es, g, out);
  }

  lemma EmptySplits(g: seq<nat>)
    ensures Splits([], g, 0)
  {
  }

  lemma SplitsFacts(out: seq<seq<nat>>, g: seq<nat>, n: nat)
    requires n <= |g| && Splits(out, g, n)
    ensures forall k | 0 <= k < |out| :: out[k] != [] && out[k][0] < n
  {
  }

  /** Every entry in exactly one group, launch order kept in each, and two entries in one group exactly
      when a chain of shared programs or class words connects them. */
  ghost predicate IsPartition(es: seq<Entry>, out: seq<seq<nat>>) {
    && Bounded(out, |es|) && Covers(out, |es|) && Ordered(out)
    && forall k, l, a, b | 0 <= k < |out| && 0 <= l < |out| && 0 <= a < |out[k]| && 0 <= b < |out[l]| ::
         k == l <==> Connected(es, out[k][a], out[l][b])
  }

  lemma PartitionIs(es: seq<Entry>, g: seq<nat>, out: seq<seq<nat>>)
    requires |g| == |es| && Sound(es, g) && Merged(es, g, |es|, 0) && Splits(out, g, |es|)
    ensures IsPartition(es, out)
  {
    hide Sound, Merged, Linked, Connected, Covers, Ordered;
    forall k, l, a, b | 0 <= k < |out| && 0 <= l < |out| && 0 <= a < |out[k]| && 0 <= b < |out[l]|
      ensures k == l <==> Connected(es, out[k][a], out[l][b])
    {
      LabelsExact(es, g, out[k][a], out[l][b]);
    }
  }

  /** Round `r` starts the `r`-th entry of every group that has one. */
  function Round(out: seq<seq<nat>>, r: nat): seq<nat> {
    if out == [] then [] else (if r < |out[0]| then [out[0][r]] else []) + Round(out[1..], r)
  }

  method RoundOf(out: seq<seq<nat>>, r: nat) returns (batch: seq<nat>)
    ensures batch == Round(out, r)
  {
    batch := [];
    for k := 0 to |out|
      invariant batch + Round(out[k..], r) == Round(out, r)
    {
      assert out[k..][0] == out[k] && out[k..][1..] == out[k + 1..];
      if r < |out[k]| {
        assert batch + ([out[k][r]] + Round(out[k + 1..], r)) == batch + [out[k][r]] + Round(out[k + 1..], r);
        batch := batch + [out[k][r]];
      }
    }
  }

  function Rounds(out: seq<seq<nat>>): nat {
    if out == [] then 0 else var n := Rounds(out[1..]); if |out[0]| > n then |out[0]| else n
  }

  lemma {:induction false} RoundExact(out: seq<seq<nat>>, r: nat)
    ensures forall i :: i in Round(out, r) <==> exists k :: 0 <= k < |out| && r < |out[k]| && out[k][r] == i
  {
    if out != [] {
      RoundExact(out[1..], r);
      forall i ensures i in Round(out, r) <==> exists k :: 0 <= k < |out| && r < |out[k]| && out[k][r] == i {
        if i in Round(out[1..], r) {
          var k :| 0 <= k < |out[1..]| && r < |out[1..][k]| && out[1..][k][r] == i;
          assert out[k + 1][r] == i;
        }
        if k :| 0 <= k < |out| && r < |out[k]| && out[k][r] == i {
          if k > 0 { assert out[1..][k - 1][r] == i; }
        }
      }
    }
  }

  lemma {:induction false} RoundOrigin(out: seq<seq<nat>>, r: nat, a: nat, b: nat) returns (k: nat, l: nat)
    requires a < b < |Round(out, r)|
    ensures k < l < |out| && r < |out[k]| && r < |out[l]|
    ensures Round(out, r)[a] == out[k][r] && Round(out, r)[b] == out[l][r]
  {
    var n := if r < |out[0]| then 1 else 0;
    if a >= n {
      k, l := RoundOrigin(out[1..], r, a - n, b - n);
      k, l := k + 1, l + 1;
    } else {
      k := 0;
      RoundExact(out[1..], r);
      assert Round(out, r)[b] == Round(out[1..], r)[b - 1] && Round(out[1..], r)[b - 1] in Round(out[1..], r);
      var m :| 0 <= m < |out[1..]| && r < |out[1..][m]| && out[1..][m][r] == Round(out, r)[b];
      l := m + 1;
    }
  }

  lemma {:induction false} RoundsCover(out: seq<seq<nat>>, k: nat)
    requires k < |out|
    ensures |out[k]| <= Rounds(out)
  {
    if k > 0 {
      RoundsCover(out[1..], k - 1);
      assert out[k] == out[1..][k - 1];
    }
  }

  ghost predicate Started(out: seq<seq<nat>>, i: nat) { exists r: nat :: r < Rounds(out) && i in Round(out, r) }

  lemma StartedOnce(es: seq<Entry>, out: seq<seq<nat>>, i: nat)
    requires IsPartition(es, out) && i < |es|
    ensures Started(out, i)
  {
    hide Connected, Round, Rounds;
    assert InSome(out, i);
    var k :| 0 <= k < |out| && i in out[k];
    var r: nat :| r < |out[k]| && out[k][r] == i;
    RoundExact(out, r);
    RoundsCover(out, k);
    assert r < Rounds(out) && i in Round(out, r);
  }

  lemma NeverTwo(es: seq<Entry>, out: seq<seq<nat>>, r: nat, a: nat, b: nat)
    requires IsPartition(es, out) && a < b < |Round(out, r)|
    ensures Round(out, r)[a] < |es| && Round(out, r)[b] < |es| && !Connected(es, Round(out, r)[a], Round(out, r)[b])
  {
    hide Connected, Round, Covers;
    var k, l := RoundOrigin(out, r, a, b);
    assert out[k][r] < |es| && out[l][r] < |es|;
    assert k == l <==> Connected(es, out[k][r], out[l][r]);
  }

  /** No two of one component. */
  ghost predicate Separate(es: seq<Entry>, batch: seq<nat>) {
    (forall i | i in batch :: i < |es|) && forall a, b | 0 <= a < b < |batch| :: !Connected(es, batch[a], batch[b])
  }

  lemma RoundSeparate(es: seq<Entry>, out: seq<seq<nat>>, r: nat)
    requires IsPartition(es, out)
    ensures Separate(es, Round(out, r))
  {
    hide Connected, Round, Covers;
    RoundExact(out, r);
    var batch := Round(out, r);
    forall a, b | 0 <= a < b < |batch| ensures !Connected(es, batch[a], batch[b]) { NeverTwo(es, out, r, a, b); }
  }

  /** The rounds start each entry exactly once, never two of one component in a round, and the entries of
      a component in launch order. */
  lemma RoundsExact(es: seq<Entry>, out: seq<seq<nat>>)
    requires IsPartition(es, out)
    ensures forall i: nat :: i < |es| ==> Started(out, i)
    ensures forall r: nat :: Separate(es, Round(out, r))
    ensures forall r: nat, s: nat, i: nat, j: nat | i in Round(out, r) && j in Round(out, s) && Connected(es, i, j) ::
              r < s <==> i < j
  {
    hide Connected, Round, Started, Covers, Separate;
    forall i: nat | i < |es| ensures Started(out, i) { StartedOnce(es, out, i); }
    forall r: nat ensures Separate(es, Round(out, r)) { RoundSeparate(es, out, r); }
    forall r: nat, s: nat, i: nat, j: nat | i in Round(out, r) && j in Round(out, s) && Connected(es, i, j)
      ensures r < s <==> i < j
    {
      InOrder(es, out, r, s, i, j);
    }
  }

  lemma InOrder(es: seq<Entry>, out: seq<seq<nat>>, r: nat, s: nat, i: nat, j: nat)
    requires IsPartition(es, out) && i in Round(out, r) && j in Round(out, s) && Connected(es, i, j)
    ensures r < s <==> i < j
  {
    hide Connected, Round, Covers;
    RoundExact(out, r);
    RoundExact(out, s);
    var k :| 0 <= k < |out| && r < |out[k]| && out[k][r] == i;
    var l :| 0 <= l < |out| && s < |out[l]| && out[l][s] == j;
    assert k == l;
  }
}
