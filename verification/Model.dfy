/** The signed launch document and its validation rules (relaunch-core's model). */
module Model {
  import opened Text

  const SIGNED_SCHEMA_VERSION: u32 := 2
  const FILE_FORMAT_VERSION: u32 := 2
  const MAX_ENTRIES := 256
  const MAX_EXEC_LEN := 4096
  const MAX_CLASS_LEN := 256
  const MAX_LABEL_LEN := 512
  const MAX_PATH_LEN := 4096
  const MAX_USER_LEN := 256
  const MAX_DELAY_MS := 60_000
  const LAUNCHER_ID_PREFIX := "relauncher-"
  const LAUNCHER_ID_HEX := 16
  const LAUNCHERS_DIR_SUFFIX := "/launchers/"

  datatype ExecSource = DesktopFile | OverridesTable | Terminal | Cmdline | Guess

  datatype Provenance = Host | NoProvenance

  datatype Launcher = Launcher(path: string, sha256: string)

  /** One app to launch at login. `id` is the field the document calls `class`: the pin id, which
      entries are sorted by and unique in; `labelText` is its `label`. */
  datatype Entry = Entry(
    id: string, windowClass: string, workspace: u32, float: Option<bool>, labelText: string,
    exec: string, execSource: ExecSource, provenance: Provenance, launcher: Launcher,
    cwd: Option<string>, enabled: bool)

  datatype SignedConfig = SignedConfig(
    v: u32, uid: u32, user: string, gen: u64, preLaunchMs: u32, postLaunchMs: u32,
    entries: seq<Entry>)

  datatype Proposal = Proposal(preLaunchMs: u32, postLaunchMs: u32, entries: seq<Entry>)

  datatype ValidationError =
    | SchemaVersion(v: u32) | TooManyEntries(n: nat) | EmptyClass | ClassTooLong(len: nat)
    | ControlInClass(id: string) | DuplicateClass(id: string) | EntriesNotSorted
    | Workspace(id: string) | EmptyExec(id: string) | ExecTooLong(id: string)
    | ControlInExec(id: string) | LabelTooLong(id: string) | ControlInLabel(id: string)
    | UserTooLong | ControlInUser | ClassNotLauncherId(id: string) | WindowClass(id: string)
    | LauncherName(id: string) | DelayTooLong | ArgvSourceNeedsHost(id: string)
    | NonArgvSourceHasHost(id: string) | LauncherPath(id: string) | Cwd(id: string)
    | BadSha256(id: string)

  /** Byte length, as `str::len`. */
  function Len(s: string): nat { |Utf8(s)| }

  predicate IsLowerHex(c: char) { '0' <= c <= '9' || 'a' <= c <= 'f' }

  predicate AllLowerHex(s: string) { forall c | c in s :: IsLowerHex(c) }

  predicate IsLauncherId(id: string) {
    LAUNCHER_ID_PREFIX <= id
    && |id| == |LAUNCHER_ID_PREFIX| + LAUNCHER_ID_HEX
    && AllLowerHex(id[|LAUNCHER_ID_PREFIX|..])
  }

  /** C0 and C1 controls and DEL: Rust's `char::is_control`. */
  predicate IsControl(c: char) {
    c as int < 0x20 || 0x7f <= c as int <= 0x9f
  }

  predicate IsBidi(c: char) {
    var cp := c as int;
    cp == 0x200E || cp == 0x200F || cp == 0x061C || 0x202A <= cp <= 0x202E || 0x2066 <= cp <= 0x2069
  }

  predicate HasForbiddenControl(s: string, allowTab: bool) {
    exists c | c in s :: (IsControl(c) && !(allowTab && c == '\t')) || IsBidi(c)
  }

  predicate IsArgvDerived(s: ExecSource) { s.Terminal? || s.Cmdline? || s.Guess? }

  predicate EndsWith(s: string, t: string) { |t| <= |s| && s[|s| - |t|..] == t }

  predicate ValidLauncherPath(path: string) {
    && path != [] && Len(path) <= MAX_PATH_LEN && path[0] == '/'
    && !HasForbiddenControl(path, false)
    && forall seg | seg in Split(path, '/') :: seg != ".." && seg != "."
  }

  predicate ValidSha256(h: string) { |h| == 64 && AllLowerHex(h) }

  predicate ValidCwd(cwd: string) {
    cwd != [] && cwd[0] == '/' && Len(cwd) <= MAX_PATH_LEN && !HasForbiddenControl(cwd, false)
  }

  /** The first rule `e` breaks, in the order `Entry::validate` checks them. */
  function EntryError(e: Entry): Option<ValidationError> {
    if e.id == [] then Some(EmptyClass)
    else if Len(e.id) > MAX_CLASS_LEN then Some(ClassTooLong(Len(e.id)))
    else if HasForbiddenControl(e.id, false) then Some(ControlInClass(e.id))
    else if !IsLauncherId(e.id) then Some(ClassNotLauncherId(e.id))
    else if e.windowClass == [] || Len(e.windowClass) > MAX_CLASS_LEN
         || HasForbiddenControl(e.windowClass, false) then Some(WindowClass(e.id))
    else if e.workspace < 1 then Some(Workspace(e.id))
    else if e.exec == [] then Some(EmptyExec(e.id))
    else if Len(e.exec) > MAX_EXEC_LEN then Some(ExecTooLong(e.id))
    else if HasForbiddenControl(e.exec, true) then Some(ControlInExec(e.id))
    else if Len(e.labelText) > MAX_LABEL_LEN then Some(LabelTooLong(e.id))
    else if HasForbiddenControl(e.labelText, false) then Some(ControlInLabel(e.id))
    else if IsArgvDerived(e.execSource) && e.provenance != Host then Some(ArgvSourceNeedsHost(e.id))
    else if !IsArgvDerived(e.execSource) && e.provenance == Host then Some(NonArgvSourceHasHost(e.id))
    else if !ValidLauncherPath(e.launcher.path) then Some(LauncherPath(e.id))
    else if !EndsWith(e.launcher.path, LAUNCHERS_DIR_SUFFIX + e.id + ".desktop")
      then Some(LauncherName(e.id))
    else if !ValidSha256(e.launcher.sha256) then Some(BadSha256(e.id))
    else if e.cwd.Some? && !ValidCwd(e.cwd.value) then Some(Cwd(e.id))
    else None
  }

  predicate ValidEntry(e: Entry) { EntryError(e).None? }

  function HeaderError(cfg: SignedConfig): Option<ValidationError> {
    if cfg.v != SIGNED_SCHEMA_VERSION then Some(SchemaVersion(cfg.v))
    else if cfg.preLaunchMs > MAX_DELAY_MS || cfg.postLaunchMs > MAX_DELAY_MS then Some(DelayTooLong)
    else if Len(cfg.user) > MAX_USER_LEN then Some(UserTooLong)
    else if HasForbiddenControl(cfg.user, false) then Some(ControlInUser)
    else if |cfg.entries| > MAX_ENTRIES then Some(TooManyEntries(|cfg.entries|))
    else None
  }

  /** What the loop finds wrong with entry `i`: the entry itself, then its place after `i - 1`. */
  function PlaceError(es: seq<Entry>, i: nat): Option<ValidationError>
    requires i < |es|
  {
    if EntryError(es[i]).Some? then EntryError(es[i])
    else if i > 0 && es[i - 1].id == es[i].id then Some(DuplicateClass(es[i].id))
    else if i > 0 && Less(es[i].id, es[i - 1].id) then Some(EntriesNotSorted)
    else None
  }

  /** Entries in strictly ascending class order: sorted, and no class twice. */
  predicate Ascending(es: seq<Entry>) {
    forall i, j | 0 <= i < j < |es| :: Less(es[i].id, es[j].id)
  }

  /** A document the service may sign and the anchor may launch. */
  predicate ValidConfig(cfg: SignedConfig) {
    && HeaderError(cfg).None?
    && (forall e | e in cfg.entries :: ValidEntry(e))
    && Ascending(cfg.entries)
  }

  /** The first thing wrong among the first `n` entries. */
  function EntriesError(es: seq<Entry>, n: nat): Option<ValidationError>
    requires n <= |es|
  {
    if n == 0 then None
    else if EntriesError(es, n - 1).Some? then EntriesError(es, n - 1)
    else PlaceError(es, n - 1)
  }

  function ConfigError(cfg: SignedConfig): Option<ValidationError> {
    if HeaderError(cfg).Some? then HeaderError(cfg) else EntriesError(cfg.entries, |cfg.entries|)
  }

  /** `SignedConfig::validate`, comparing each entry with the one before it. */
  method Validate(cfg: SignedConfig) returns (r: Option<ValidationError>)
    ensures r == ConfigError(cfg)
  {
    hide EntryError;
    if HeaderError(cfg).Some? { return HeaderError(cfg); }
    var es := cfg.entries;
    var prev: Option<Entry> := None;
    for i := 0 to |es|
      invariant EntriesError(es, i).None?
      invariant prev == if i == 0 then None else Some(es[i - 1])
    {
      var e := es[i];
      var bad := EntryError(e);
      if bad.None? && prev.Some? {
        if prev.value.id == e.id { bad := Some(DuplicateClass(e.id)); }
        else if Less(e.id, prev.value.id) { bad := Some(EntriesNotSorted); }
      }
      if bad.Some? {
        FirstErrorStays(es, i + 1, |es|);
        return bad;
      }
      prev := Some(e);
    }
    return None;
  }

  lemma {:induction false} FirstErrorStays(es: seq<Entry>, n: nat, m: nat)
    requires n <= m <= |es| && EntriesError(es, n).Some?
    ensures EntriesError(es, m) == EntriesError(es, n)
  {
    hide EntryError;
    if n < m { FirstErrorStays(es, n, m - 1); }
  }

  /** Comparing neighbours is enough: validation passes exactly the documents whose entries are
      each valid and in strictly ascending class order as a whole. */
  lemma ValidateExact(cfg: SignedConfig)
    ensures ConfigError(cfg).None? <==> ValidConfig(cfg)
  {
    var es := cfg.entries;
    if ConfigError(cfg).None? {
      GoodPlaces(es, |es|);
      assert es[..|es|] == es;
    } else if HeaderError(cfg).None? {
      var i := FirstBad(es, |es|);
      BadPlace(cfg, i);
    }
  }

  /** Every rule for one entry. */
  predicate KeepsRules(e: Entry) {
    && IsLauncherId(e.id) && Len(e.id) <= MAX_CLASS_LEN && !HasForbiddenControl(e.id, false)
    && e.windowClass != [] && Len(e.windowClass) <= MAX_CLASS_LEN && !HasForbiddenControl(e.windowClass, false)
    && e.workspace >= 1
    && e.exec != [] && Len(e.exec) <= MAX_EXEC_LEN && !HasForbiddenControl(e.exec, true)
    && Len(e.labelText) <= MAX_LABEL_LEN && !HasForbiddenControl(e.labelText, false)
    && (e.provenance == Host <==> IsArgvDerived(e.execSource))
    && ValidLauncherPath(e.launcher.path) && EndsWith(e.launcher.path, LAUNCHERS_DIR_SUFFIX + e.id + ".desktop")
    && ValidSha256(e.launcher.sha256) && (e.cwd.Some? ==> ValidCwd(e.cwd.value))
  }

  /** Validation passes exactly the documents that keep every rule, whatever order it checks them in. */
  lemma RulesExact(cfg: SignedConfig)
    ensures ConfigError(cfg).None? <==>
              && cfg.v == SIGNED_SCHEMA_VERSION && cfg.preLaunchMs <= MAX_DELAY_MS && cfg.postLaunchMs <= MAX_DELAY_MS
              && Len(cfg.user) <= MAX_USER_LEN && !HasForbiddenControl(cfg.user, false) && |cfg.entries| <= MAX_ENTRIES
              && (forall e | e in cfg.entries :: KeepsRules(e)) && Ascending(cfg.entries)
  {
    ValidateExact(cfg);
    forall e ensures ValidEntry(e) <==> KeepsRules(e) { EntryRules(e); }
    hide ConfigError, ValidEntry, KeepsRules, Ascending, Len, HasForbiddenControl;
  }

  lemma EntryRules(e: Entry)
    ensures ValidEntry(e) <==> KeepsRules(e)
  {
    if IsLauncherId(e.id) { assert e.id != []; }
    hide IsLauncherId, Len, HasForbiddenControl, ValidLauncherPath, EndsWith, ValidSha256, ValidCwd;
  }

  lemma {:induction false} FirstBad(es: seq<Entry>, n: nat) returns (i: nat)
    requires n <= |es| && EntriesError(es, n).Some?
    ensures i < n && PlaceError(es, i).Some?
  {
    hide EntryError;
    if EntriesError(es, n - 1).Some? { i := FirstBad(es, n - 1); } else { i := n - 1; }
  }

  lemma BadPlace(cfg: SignedConfig, i: nat)
    requires i < |cfg.entries| && PlaceError(cfg.entries, i).Some?
    ensures !ValidConfig(cfg)
  {
    var es := cfg.entries;
    if ValidConfig(cfg) {
      assert es[i] in es;
      if i > 0 { LessTotal(es[i - 1].id, es[i].id); }
      assert false;
    }
  }

  lemma {:induction false} GoodPlaces(es: seq<Entry>, n: nat)
    requires n <= |es| && EntriesError(es, n).None?
    ensures (forall e | e in es[..n] :: ValidEntry(e)) && Ascending(es[..n])
  {
    hide EntryError;
    if n > 0 {
      GoodPlaces(es, n - 1);
      assert es[..n] == es[..n - 1] + [es[n - 1]];
      Extend(es, n - 1);
    }
  }

  lemma Extend(es: seq<Entry>, i: nat)
    requires i < |es| && Ascending(es[..i])
    requires i > 0 ==> es[i - 1].id != es[i].id && !Less(es[i].id, es[i - 1].id)
    ensures Ascending(es[..i + 1])
  {
    var p := es[..i];
    forall a, b | 0 <= a < b < i + 1 ensures Less(es[a].id, es[b].id) {
      if b < i {
        assert Less(p[a].id, p[b].id);
      } else {
        LessTotal(es[i - 1].id, es[i].id);
        if a < i - 1 {
          assert Less(p[a].id, p[i - 1].id);
          LessTrans(es[a].id, es[i - 1].id, es[i].id);
        }
      }
    }
  }

  // ------------------------------------------------------- canonical order

  function Insert(e: Entry, es: seq<Entry>): (r: seq<Entry>)
    ensures multiset(r) == multiset(es) + multiset{e}
  {
    if es == [] || Less(e.id, es[0].id) then [e] + es
    else
      assert es == [es[0]] + es[1..];
      [es[0]] + Insert(e, es[1..])
  }

  /** `sort_entries`: stable, by class bytes. */
  function SortEntries(es: seq<Entry>): (r: seq<Entry>)
    ensures multiset(r) == multiset(es)
  {
    if es == [] then []
    else
      assert es == es[..|es| - 1] + [es[|es| - 1]];
      Insert(es[|es| - 1], SortEntries(es[..|es| - 1]))
  }

  predicate Sorted(es: seq<Entry>) {
    forall i, j | 0 <= i < j < |es| :: !Less(es[j].id, es[i].id)
  }

  lemma {:induction false} InsertSorted(e: Entry, es: seq<Entry>)
    requires Sorted(es)
    ensures Sorted(Insert(e, es))
  {
    if es == [] {
    } else if Less(e.id, es[0].id) {
      forall j | 0 <= j < |es| ensures !Less(es[j].id, e.id) {
        if Less(es[j].id, e.id) {
          LessTrans(es[j].id, e.id, es[0].id);
          LessTotal(es[0].id, es[0].id);
        }
      }
    } else {
      var t := Insert(e, es[1..]);
      InsertSorted(e, es[1..]);
      forall j | 0 <= j < |t| ensures !Less(t[j].id, es[0].id) {
        assert t[j] in multiset(t);
        if t[j] != e {
          assert t[j] in es[1..];
        }
      }
    }
  }

  lemma {:induction false} SortSorts(es: seq<Entry>)
    ensures Sorted(SortEntries(es))
  {
    if es != [] {
      SortSorts(es[..|es| - 1]);
      InsertSorted(es[|es| - 1], SortEntries(es[..|es| - 1]));
    }
  }

  /** The document `from_proposal` builds, before it is validated. */
  function Document(uid: u32, user: string, gen: u64, p: Proposal): SignedConfig {
    SignedConfig(SIGNED_SCHEMA_VERSION, uid, user, gen, p.preLaunchMs, p.postLaunchMs, SortEntries(p.entries))
  }

  lemma FirstIsLeast(a: seq<Entry>, e: Entry)
    requires Ascending(a) && e in a
    ensures e == a[0] || Less(a[0].id, e.id)
    ensures Ascending(a[1..]) && (e in a[1..] <==> e != a[0])
  {
    var j :| 0 <= j < |a| && a[j] == e;
    if j > 0 {
      assert a[1..][j - 1] == e;
      LessTotal(a[0].id, e.id);
    } else {
      forall k | 1 <= k < |a| ensures a[k] != a[0] {
        LessTotal(a[0].id, a[k].id);
      }
    }
  }

  lemma HasFirst(a: seq<Entry>)
    requires a != []
    ensures exists e :: e in a
  {
    assert a[0] in a;
  }

  /** An ascending sequence is determined by what it holds. */
  lemma {:induction false} AscendingUnique(a: seq<Entry>, b: seq<Entry>)
    requires Ascending(a) && Ascending(b)
    requires forall e :: e in a <==> e in b
    ensures a == b
  {
    if a == [] {
      if b != [] { HasFirst(b); }
    } else {
      assert a[0] in a && a[0] in b && b[0] in b && b[0] in a;
      FirstIsLeast(a, b[0]);
      FirstIsLeast(b, a[0]);
      LessTotal(a[0].id, b[0].id);
      forall e ensures e in a[1..] <==> e in b[1..] {
        if e in a { FirstIsLeast(a, e); FirstIsLeast(b, e); }
      }
      AscendingUnique(a[1..], b[1..]);
      assert a == [a[0]] + a[1..] && b == [b[0]] + b[1..];
    }
  }

  // --------------------------------------------- entries held by class, in order

  /** An ordered map's insertion: `e` in its id's place, in class order. */
  function WithEntry(es: seq<Entry>, e: Entry): seq<Entry> {
    if es == [] || Less(e.id, es[0].id) then [e] + es
    else if es[0].id == e.id then [e] + es[1..]
    else [es[0]] + WithEntry(es[1..], e)
  }

  lemma {:induction false} WithEntryReplaces(es: seq<Entry>, e: Entry, i: nat)
    requires Ascending(es) && i < |es| && es[i].id == e.id
    ensures WithEntry(es, e) == es[i := e]
  {
    LessTotal(e.id, es[0].id);
    if i > 0 {
      assert Less(es[0].id, es[i].id);
      assert Ascending(es[1..]);
      WithEntryReplaces(es[1..], e, i - 1);
    }
  }

  lemma AscendingTail(a: seq<Entry>)
    requires a != [] && Ascending(a)
    ensures Ascending(a[1..]) && forall e | e in a[1..] :: Less(a[0].id, e.id)
  {
  }

  lemma AscendingCons(b: seq<Entry>)
    requires b != [] && Ascending(b[1..]) && forall e | e in b[1..] :: Less(b[0].id, e.id)
    ensures Ascending(b)
  {
    forall i, j | 0 <= i < j < |b| ensures Less(b[i].id, b[j].id) {
      assert b[j] == b[1..][j - 1];
      if i > 0 { assert b[i] == b[1..][i - 1]; }
    }
  }

  /** Inserting keeps the order, holds `e`, and loses only what had its id. */
  lemma {:induction false} WithEntryExact(es: seq<Entry>, e: Entry)
    requires Ascending(es)
    ensures Ascending(WithEntry(es, e))
    ensures forall x :: x in WithEntry(es, e) <==> x == e || (x in es && x.id != e.id)
    ensures |WithEntry(es, e)| == |es| + (if exists x :: x in es && x.id == e.id then 0 else 1)
  {
    hide Less;
    var r := WithEntry(es, e);
    if es == [] {
    } else {
      assert es == [es[0]] + es[1..] && es[0] in es;
      AscendingTail(es);
      LessTotal(e.id, es[0].id);
      LessTotal(es[0].id, es[0].id);
      if Less(e.id, es[0].id) {
        forall x | x in es ensures Less(e.id, x.id) && x.id != e.id {
          if x != es[0] { LessTrans(e.id, es[0].id, x.id); }
          LessTotal(e.id, x.id);
        }
        assert r[1..] == es;
      } else if es[0].id == e.id {
        forall x | x in es[1..] ensures x.id != e.id { LessTotal(es[0].id, x.id); }
        assert r[1..] == es[1..];
      } else {
        WithEntryExact(es[1..], e);
        assert r[1..] == WithEntry(es[1..], e);
      }
      AscendingCons(r);
    }
  }

  lemma {:induction false} InsertLast(e: Entry, es: seq<Entry>)
    requires Ascending(es) && forall x | x in es :: Less(x.id, e.id)
    ensures Insert(e, es) == es + [e]
  {
    if es != [] {
      assert es[0] in es && forall x | x in es[1..] :: x in es;
      LessTotal(es[0].id, e.id);
      AscendingTail(es);
      InsertLast(e, es[1..]);
      assert es == [es[0]] + es[1..];
    }
  }

  /** Entries already in class order are left as they are. */
  lemma {:induction false} SortAscending(es: seq<Entry>)
    requires Ascending(es)
    ensures SortEntries(es) == es
  {
    if es != [] {
      var (init, last) := (es[..|es| - 1], es[|es| - 1]);
      SortAscending(init);
      InsertLast(last, init);
      assert es == init + [last];
    }
  }
}
