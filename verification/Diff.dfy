/** The service-computed review of a change: the escaped diff and the plain-language summary. */
module Diff {
  import opened Text
  import opened Model

  const MAX_CHANGED := 64
  const MAX_LINE_BYTES := 8 * 1024
  const MAX_DIFF_BYTES := 256 * 1024

  datatype DiffError = TooManyChanges(n: nat) | LineTooLong | DiffTooLong

  datatype Review = Review(changed: nat, hasChange: bool, rendered: string, summary: string)

  datatype Result = Ok(review: Review) | Refused(error: DiffError)

  // --------------------------------------------------------------- escaping

  function EscapeChar(c: char): string {
    var cp := c as int;
    if c == '\\' then "\\\\"
    else if c == '"' then "\\x22"
    else if ' ' <= c <= '~' then [c]
    else if cp < 0x100 then "\\x" + Pad(Numeral(cp, 16), 2)
    else "\\u{" + Pad(Numeral(cp, 16), 4) + "}"
  }

  function Escape(s: string): string {
    if s == [] then [] else EscapeChar(s[0]) + Escape(s[1..])
  }

  method EscapeText(s: string) returns (out: string)
    ensures out == Escape(s)
  {
    hide EscapeChar;
    out := [];
    for i := 0 to |s|
      invariant out + Escape(s[i..]) == Escape(s)
    {
      assert s[i..][1..] == s[i + 1..];
      out := out + EscapeChar(s[i]);
    }
    assert s[|s|..] == [];
  }

  function Quoted(s: string): string { "\"" + Escape(s) + "\"" }

  // ------------------------------------------------------- one entry, in text

  datatype Field = FClass | FWindow | FLabel | FWs | FGeom | FSrc | FProv | FEnabled | FExec | FCwd
                 | FLauncher | FSha

  /** What introduces each field: its name, and the space before it. */
  function Key(f: Field): string {
    match f
    case FClass => "class=" case FWindow => " window=" case FLabel => " label=" case FWs => " ws="
    case FGeom => " geom=" case FSrc => " src=" case FProv => " prov=" case FEnabled => " enabled="
    case FExec => " exec=" case FCwd => " cwd=" case FLauncher => " launcher=" case FSha => " sha256="
  }

  function Geom(f: Option<bool>): string {
    match f case Some(b) => if b then "float" else "tile" case None => "unknown"
  }

  function SourceText(s: ExecSource): string {
    match s
    case DesktopFile => "DesktopFile" case OverridesTable => "OverridesTable" case Terminal => "Terminal"
    case Cmdline => "Cmdline" case Guess => "Guess"
  }

  function ProvenanceText(p: Provenance): string { if p.Host? then "Host" else "None" }

  function BoolText(b: bool): string { if b then "true" else "false" }

  function CwdText(c: Option<string>): string { match c case None => "-" case Some(s) => Quoted(s) }

  /** Who the entry is, ... */
  function NameText(e: Entry): string {
    Key(FClass) + (Quoted(e.id) + (Key(FWindow) + (Quoted(e.windowClass) + (Key(FLabel) + Quoted(e.labelText)))))
  }

  /** ... where it goes and how it was captured, ... */
  function PlaceText(e: Entry): string {
    Key(FWs) + (Dec(e.workspace) + (Key(FGeom) + (Geom(e.float) + (Key(FSrc) + (SourceText(e.execSource)
    + (Key(FProv) + (ProvenanceText(e.provenance) + (Key(FEnabled) + BoolText(e.enabled)))))))))
  }

  /** ... and what it runs. */
  function CommandText(e: Entry): string {
    Key(FExec) + (Quoted(e.exec) + (Key(FCwd) + (CwdText(e.cwd) + (Key(FLauncher) + (Quoted(e.launcher.path)
    + (Key(FSha) + e.launcher.sha256))))))
  }

  function FmtEntry(e: Entry): string { NameText(e) + (PlaceText(e) + CommandText(e)) }

  // ------------------------------------------------------------- the changes

  /** The entries by class; of two with one class the later wins, as collecting a map does. */
  function Index(es: seq<Entry>): map<string, Entry> {
    if es == [] then map[] else Index(es[..|es| - 1])[es[|es| - 1].id := es[|es| - 1]]
  }

  function InsertId(id: string, ids: seq<string>): seq<string> {
    if ids == [] then [id]
    else if id == ids[0] then ids
    else if Less(id, ids[0]) then [id] + ids
    else [ids[0]] + InsertId(id, ids[1..])
  }

  /** The classes of `es` and those already in `ids`, sorted, each once. */
  function Ids(es: seq<Entry>, ids: seq<string>): seq<string> {
    if es == [] then ids else Ids(es[1..], InsertId(es[0].id, ids))
  }

  function Classes(base: SignedConfig, proposal: SignedConfig): seq<string> {
    Ids(proposal.entries, Ids(base.entries, []))
  }

  datatype Delay = Pre | Post

  function DelayName(d: Delay): string { match d case Pre => "~ preLaunchMs " case Post => "~ postLaunchMs " }

  function Arrow(): string { " -> " }

  function DelayText(d: Delay, was: nat, now: nat): string {
    DelayName(d) + (Dec(was) + (Arrow() + Dec(now)))
  }

  function DelayLine(d: Delay, was: nat, now: nat): seq<string> {
    if was == now then [] else [DelayText(d, was, now)]
  }

  function DelayLines(base: SignedConfig, proposal: SignedConfig): seq<string> {
    DelayLine(Pre, base.preLaunchMs, proposal.preLaunchMs)
    + DelayLine(Post, base.postLaunchMs, proposal.postLaunchMs)
  }

  datatype Change = Before | After | Added | Removed

  function Sign(c: Change): string {
    match c case Before => "~ " case After => "  -> " case Added => "+ " case Removed => "- "
  }

  function ChangeLine(c: Change, e: Entry): string { Sign(c) + FmtEntry(e) }

  /** The lines one class contributes: none when nothing about it changed. */
  function ClassLines(was: map<string, Entry>, now: map<string, Entry>, id: string): seq<string> {
    if id in was && id in now then
      if was[id] == now[id] then []
      else [ChangeLine(Before, was[id]), ChangeLine(After, now[id])]
    else if id in now then [ChangeLine(Added, now[id])]
    else if id in was then [ChangeLine(Removed, was[id])]
    else []
  }

  function EntryLines(was: map<string, Entry>, now: map<string, Entry>, ids: seq<string>): seq<string> {
    if ids == [] then []
    else EntryLines(was, now, ids[..|ids| - 1]) + ClassLines(was, now, ids[|ids| - 1])
  }

  predicate Differs(was: map<string, Entry>, now: map<string, Entry>, id: string) {
    !(id in was && id in now && was[id] == now[id]) && (id in was || id in now)
  }

  function Changes(was: map<string, Entry>, now: map<string, Entry>, ids: seq<string>): nat {
    if ids == [] then 0
    else Changes(was, now, ids[..|ids| - 1]) + if Differs(was, now, ids[|ids| - 1]) then 1 else 0
  }

  function Lines(base: SignedConfig, proposal: SignedConfig): seq<string> {
    DelayLines(base, proposal)
    + EntryLines(Index(base.entries), Index(proposal.entries), Classes(base, proposal))
  }

  // ------------------------------------------------------------- the summary

  datatype Mark = Same | New | Changed

  datatype App = App(entry: Entry, mark: Mark)

  /** What a reviewer calls an entry. */
  function Name(e: Entry): string { if e.labelText == [] then e.windowClass else e.labelText }

  predicate AppLess(a: App, b: App) {
    var (x, y) := (a.entry, b.entry);
    x.workspace < y.workspace
    || (x.workspace == y.workspace
        && (Less(Name(x), Name(y)) || (Name(x) == Name(y) && Less(x.id, y.id))))
  }

  function InsertApp(a: App, apps: seq<App>): (r: seq<App>)
    ensures multiset(r) == multiset(apps) + multiset{a}
  {
    if apps == [] || AppLess(a, apps[0]) then [a] + apps
    else assert apps == [apps[0]] + apps[1..]; [apps[0]] + InsertApp(a, apps[1..])
  }

  /** In panel order: workspace, then name. */
  function ByWorkspace(apps: seq<App>): (r: seq<App>)
    ensures multiset(r) == multiset(apps)
  {
    if apps == [] then []
    else
      assert apps == apps[..|apps| - 1] + [apps[|apps| - 1]];
      InsertApp(apps[|apps| - 1], ByWorkspace(apps[..|apps| - 1]))
  }

  function MarkOf(was: map<string, Entry>, e: Entry): Mark {
    if e.id in was && was[e.id] == e then Same
    else if e.id in was && was[e.id].enabled then Changed
    else New
  }

  /** The apps the proposal opens, one for each enabled value of the map, in class order. */
  function Opens(was: map<string, Entry>, now: map<string, Entry>, ids: seq<string>): seq<App> {
    if ids == [] then []
    else
      var id := ids[|ids| - 1];
      Opens(was, now, ids[..|ids| - 1])
      + if id in now && now[id].enabled then [App(now[id], MarkOf(was, now[id]))] else []
  }

  function Stops(was: map<string, Entry>, now: map<string, Entry>, ids: seq<string>): seq<App> {
    if ids == [] then []
    else
      var id := ids[|ids| - 1];
      Stops(was, now, ids[..|ids| - 1])
      + if id in was && was[id].enabled && !(id in now && now[id].enabled) then [App(was[id], Same)] else []
  }

  function MarkText(m: Mark): string {
    match m case Same => "" case New => " (new)" case Changed => " (changed)"
  }

  function Row(a: App): string {
    "  " + Escape(Name(a.entry)) + " \U{2014} workspace " + Dec(a.entry.workspace) + MarkText(a.mark)
  }

  function Rows(apps: seq<App>): (r: seq<string>)
    ensures |r| == |apps| && forall i | 0 <= i < |apps| :: r[i] == Row(apps[i])
  {
    if apps == [] then [] else [Row(apps[0])] + Rows(apps[1..])
  }

  function OpensLines(opens: seq<App>): seq<string> {
    if opens == [] then ["Relaunch will open no apps at login."]
    else [if |opens| == 1 then "Relaunch will open this app at login:"
          else "Relaunch will open these " + Dec(|opens|) + " apps at login:"] + Rows(opens)
  }

  function StopsLines(stops: seq<App>): seq<string> {
    if stops == [] then [] else ["It will no longer open:"] + Rows(stops)
  }

  function DelaySummary(base: SignedConfig, proposal: SignedConfig): seq<string> {
    if base.preLaunchMs == proposal.preLaunchMs && base.postLaunchMs == proposal.postLaunchMs then []
    else ["Launch delays: " + Dec(proposal.preLaunchMs) + " ms before, " + Dec(proposal.postLaunchMs)
          + " ms after (was " + Dec(base.preLaunchMs) + " ms, " + Dec(base.postLaunchMs) + " ms)"]
  }

  function SummaryLines(base: SignedConfig, proposal: SignedConfig): seq<string> {
    var (was, now, ids) := (Index(base.entries), Index(proposal.entries), Classes(base, proposal));
    OpensLines(ByWorkspace(Opens(was, now, ids))) + StopsLines(ByWorkspace(Stops(was, now, ids)))
    + DelaySummary(base, proposal)
  }

  // ----------------------------------------------------------------- compute

  function Header(changed: nat, digestShort: string): string {
    "Relaunch: " + Dec(changed) + " login-start change(s) [" + digestShort + "]"
  }

  predicate DelaysDiffer(base: SignedConfig, proposal: SignedConfig) {
    base.preLaunchMs != proposal.preLaunchMs || base.postLaunchMs != proposal.postLaunchMs
  }

  predicate FitsLines(lines: seq<string>) { forall l | l in lines :: Len(l) <= MAX_LINE_BYTES }

  /** The review of a change, with nothing refused. */
  function Full(base: SignedConfig, proposal: SignedConfig, digestShort: string): Review {
    var changed := Changes(Index(base.entries), Index(proposal.entries), Classes(base, proposal));
    Review(changed, changed > 0 || DelaysDiffer(base, proposal),
           Header(changed, digestShort) + "\n" + Join(Lines(base, proposal), '\n'),
           Join(SummaryLines(base, proposal), '\n'))
  }

  /** A change too large to review is refused, never cut short. */
  function Compute(base: SignedConfig, proposal: SignedConfig, digestShort: string): Result {
    var r := Full(base, proposal, digestShort);
    if r.changed > MAX_CHANGED then Refused(TooManyChanges(r.changed))
    else if !FitsLines(Lines(base, proposal) + SummaryLines(base, proposal)) then Refused(LineTooLong)
    else if Len(r.rendered) + Len(r.summary) > MAX_DIFF_BYTES then Refused(DiffTooLong)
    else Ok(r)
  }

  /** `compute`, class by class. */
  method ComputeReview(base: SignedConfig, proposal: SignedConfig, digestShort: string) returns (r: Result)
    ensures r == Compute(base, proposal, digestShort)
  {
    hide ChangeLine, Index, Ids, SummaryLines, Header, Len, DelayLine, Join;
    var was, now := Index(base.entries), Index(proposal.entries);
    var lines := DelayLines(base, proposal);
    var classes := Classes(base, proposal);
    var changed := 0;
    for i := 0 to |classes|
      invariant changed == Changes(was, now, classes[..i])
      invariant lines == DelayLines(base, proposal) + EntryLines(was, now, classes[..i])
    {
      var id := classes[i];
      assert classes[..i + 1][..i] == classes[..i];
      if id in was && id in now {
        if was[id] != now[id] {
          changed := changed + 1;
          lines := lines + [ChangeLine(Before, was[id])];
          lines := lines + [ChangeLine(After, now[id])];
        }
      } else if id in now {
        changed := changed + 1;
        lines := lines + [ChangeLine(Added, now[id])];
      } else if id in was {
        changed := changed + 1;
        lines := lines + [ChangeLine(Removed, was[id])];
      }
    }
    assert classes[..|classes|] == classes;
    if changed > MAX_CHANGED { return Refused(TooManyChanges(changed)); }
    var summary := SummaryLines(base, proposal);
    if !FitsLines(lines + summary) { return Refused(LineTooLong); }
    var rendered := Header(changed, digestShort) + "\n" + Join(lines, '\n');
    if Len(rendered) + Len(Join(summary, '\n')) > MAX_DIFF_BYTES { return Refused(DiffTooLong); }
    return Ok(Review(changed, changed > 0 || DelaysDiffer(base, proposal), rendered, Join(summary, '\n')));
  }
}
