/** The exact bytes that are signed: explicit-length framing in a fixed field order. */
module Canonical {
  import opened Text
  import opened Model

  /** Domain separation: the purpose and the schema version, pinned into the signed bytes. */
  function Domain(): seq<byte> { Utf8("io.github.laytonf.relaunch/config/v2\n") }

  // -------------------------------------------------- what the bytes must be

  /** `n` in `w` little-endian bytes. */
  function Le(n: nat, w: nat): (bs: seq<byte>)
    ensures |bs| == w
  {
    if w == 0 then [] else [n % 0x100] + Le(n / 0x100, w - 1)
  }

  function U32(n: u32): seq<byte> { Le(n, 4) }

  function U64(n: u64): seq<byte> { Le(n, 8) }

  function Bool(b: bool): seq<byte> { if b then [1] else [0] }

  /** A string's length and bytes. The length of a Rust string always fits 64 bits. */
  function Str(s: string): seq<byte> { Le(Len(s), 8) + Utf8(s) }

  function OptBool(b: Option<bool>): seq<byte> {
    match b case None => [0] case Some(v) => [1] + Bool(v)
  }

  function OptStr(s: Option<string>): seq<byte> {
    match s case None => [0] case Some(v) => [1] + Str(v)
  }

  function SourceTag(s: ExecSource): u32 {
    match s
    case DesktopFile => 1 case OverridesTable => 2 case Terminal => 3 case Cmdline => 4 case Guess => 5
  }

  function ProvenanceTag(p: Provenance): u32 { if p.Host? then 1 else 0 }

  /** What the entry is and what it runs... */
  function FaceBytes(e: Entry): seq<byte> {
    Str(e.id) + (Str(e.windowClass) + (U32(e.workspace) + (OptBool(e.float)
    + (Str(e.labelText) + Str(e.exec)))))
  }

  /** ...and where the command came from and is launched from. */
  function SourceBytes(e: Entry): seq<byte> {
    U32(SourceTag(e.execSource)) + (U32(ProvenanceTag(e.provenance)) + (Str(e.launcher.path)
    + (Str(e.launcher.sha256) + (OptStr(e.cwd) + Bool(e.enabled)))))
  }

  function EntryBytes(e: Entry): seq<byte> { FaceBytes(e) + SourceBytes(e) }

  function EntriesBytes(es: seq<Entry>): seq<byte> {
    if es == [] then [] else EntryBytes(es[0]) + EntriesBytes(es[1..])
  }

  function CanonicalBytes(cfg: SignedConfig): seq<byte> {
    Domain() + (U32(cfg.v) + (U32(cfg.uid) + (Str(cfg.user) + (U64(cfg.gen) + (U32(cfg.preLaunchMs)
    + (U32(cfg.postLaunchMs) + (Le(|cfg.entries|, 8) + EntriesBytes(cfg.entries))))))))
  }

  // --------------------------------------------------------------- the writer

  class Writer {
    var buf: seq<byte>

    constructor ()
      ensures buf == Domain()
    {
      buf := Domain();
    }

    method PutU32(v: u32)
      modifies this
      ensures buf == old(buf) + Le(v, 4)
    {
      buf := buf + Le(v, 4);
    }

    method PutU64(v: nat)
      modifies this
      ensures buf == old(buf) + Le(v, 8)
    {
      buf := buf + Le(v, 8);
    }

    method Push(b: byte)
      modifies this
      ensures buf == old(buf) + [b]
    {
      buf := buf + [b];
    }

    method PutBool(v: bool)
      modifies this
      ensures buf == old(buf) + Bool(v)
    {
      Push(if v then 1 else 0);
    }

    method PutStr(s: string)
      modifies this
      ensures buf == old(buf) + Str(s)
    {
      PutU64(Len(s));
      buf := buf + Utf8(s);
    }

    method PutOptBool(v: Option<bool>)
      modifies this
      ensures buf == old(buf) + OptBool(v)
    {
      match v {
        case None => Push(0);
        case Some(b) => Push(1); PutBool(b);
      }
    }

    method PutOptStr(v: Option<string>)
      modifies this
      ensures buf == old(buf) + OptStr(v)
    {
      hide Str;
      match v {
        case None => Push(0);
        case Some(c) => Push(1); PutStr(c);
      }
    }

    method PutEntry(e: Entry)
      modifies this
      ensures buf == old(buf) + EntryBytes(e)
    {
      hide Str, OptBool, OptStr, Bool, Le;
      PutStr(e.id);
      PutStr(e.windowClass);
      PutU32(e.workspace);
      PutOptBool(e.float);
      PutStr(e.labelText);
      PutStr(e.exec);
      PutU32(SourceTag(e.execSource));
      PutU32(ProvenanceTag(e.provenance));
      PutStr(e.launcher.path);
      PutStr(e.launcher.sha256);
      PutOptStr(e.cwd);
      PutBool(e.enabled);
    }
  }

  /** `canonical_bytes`: the writer's fields in order, then every entry. */
  method WriteCanonical(cfg: SignedConfig) returns (bytes: seq<byte>)
    ensures bytes == CanonicalBytes(cfg)
  {
    hide Domain, Str, EntryBytes, Le;
    var w := new Writer();
    w.PutU32(cfg.v);
    w.PutU32(cfg.uid);
    w.PutStr(cfg.user);
    w.PutU64(cfg.gen);
    w.PutU32(cfg.preLaunchMs);
    w.PutU32(cfg.postLaunchMs);
    w.PutU64(|cfg.entries|);
    ghost var head := w.buf;
    var es := cfg.entries;
    for i := 0 to |es|
      invariant w.buf == head + EntriesBytes(es[..i])
    {
      w.PutEntry(es[i]);
      EntriesBytesSnoc(es, i);
    }
    assert es[..|es|] == es;
    return w.buf;
  }

  lemma {:induction false} EntriesBytesSnoc(es: seq<Entry>, i: nat)
    requires i < |es|
    ensures EntriesBytes(es[..i + 1]) == EntriesBytes(es[..i]) + EntryBytes(es[i])
  {
    hide EntryBytes;
    if i == 0 {
      assert es[..1][1..] == [];
    } else {
      assert es[..i + 1][1..] == es[1..][..i] && es[..i][1..] == es[1..][..i - 1];
      EntriesBytesSnoc(es[1..], i - 1);
    }
  }

  // ---------------------------------------------------------- reading it back

  /** A value read off the front of some bytes, and the bytes after it. */
  datatype Read<+T> = Bad | Got(value: T, rest: seq<byte>)

  function LeValue(bs: seq<byte>): nat {
    if bs == [] then 0 else bs[0] + 0x100 * LeValue(bs[1..])
  }

  function ReadLe(bs: seq<byte>, w: nat): Read<nat> {
    if |bs| < w then Bad else Got(LeValue(bs[..w]), bs[w..])
  }

  function ReadU32(bs: seq<byte>): Read<u32> {
    match ReadLe(bs, 4) case Got(n, r) => if n < 0x1_0000_0000 then Got(n, r) else Bad case Bad => Bad
  }

  function ReadU64(bs: seq<byte>): Read<u64> {
    match ReadLe(bs, 8)
    case Got(n, r) => if n < 0x1_0000_0000_0000_0000 then Got(n, r) else Bad
    case Bad => Bad
  }

  function ReadBool(bs: seq<byte>): Read<bool> {
    if bs == [] || bs[0] > 1 then Bad else Got(bs[0] == 1, bs[1..])
  }

  function ReadStr(bs: seq<byte>): Read<string> {
    match ReadLe(bs, 8)
    case Bad => Bad
    case Got(n, r) =>
      if |r| < n then Bad
      else match FromUtf8(r[..n]) case Some(s) => Got(s, r[n..]) case None => Bad
  }

  function ReadOptBool(bs: seq<byte>): Read<Option<bool>> {
    match ReadBool(bs)
    case Bad => Bad
    case Got(some, r) =>
      if !some then Got(None, r)
      else match ReadBool(r) case Got(b, r') => Got(Some(b), r') case Bad => Bad
  }

  function ReadOptStr(bs: seq<byte>): Read<Option<string>> {
    match ReadBool(bs)
    case Bad => Bad
    case Got(some, r) =>
      if !some then Got(None, r)
      else match ReadStr(r) case Got(s, r') => Got(Some(s), r') case Bad => Bad
  }

  function SourceOf(tag: u32): ExecSource {
    if tag == 1 then DesktopFile else if tag == 2 then OverridesTable else if tag == 3 then Terminal
    else if tag == 4 then Cmdline else Guess
  }

  datatype Face = Face(id: string, windowClass: string, workspace: u32, float: Option<bool>,
                       labelText: string, exec: string)

  function ReadFace(bs: seq<byte>): Read<Face> {
    match ReadStr(bs) case Bad => Bad case Got(id, b1) =>
    match ReadStr(b1) case Bad => Bad case Got(wc, b2) =>
    match ReadU32(b2) case Bad => Bad case Got(ws, b3) =>
    match ReadOptBool(b3) case Bad => Bad case Got(fl, b4) =>
    match ReadStr(b4) case Bad => Bad case Got(lab, b5) =>
    match ReadStr(b5) case Bad => Bad case Got(exec, b6) =>
      Got(Face(id, wc, ws, fl, lab, exec), b6)
  }

  function ReadSource(f: Face, bs: seq<byte>): Read<Entry> {
    match ReadU32(bs) case Bad => Bad case Got(src, b1) =>
    match ReadU32(b1) case Bad => Bad case Got(prov, b2) =>
    match ReadStr(b2) case Bad => Bad case Got(path, b3) =>
    match ReadStr(b3) case Bad => Bad case Got(sha, b4) =>
    match ReadOptStr(b4) case Bad => Bad case Got(cwd, b5) =>
    match ReadBool(b5) case Bad => Bad case Got(en, b6) =>
      Got(Entry(f.id, f.windowClass, f.workspace, f.float, f.labelText, f.exec, SourceOf(src),
                if prov == 1 then Host else NoProvenance, Launcher(path, sha), cwd, en), b6)
  }

  function ReadEntry(bs: seq<byte>): Read<Entry> {
    match ReadFace(bs) case Got(f, r) => ReadSource(f, r) case Bad => Bad
  }

  function ReadEntries(bs: seq<byte>, n: nat): Read<seq<Entry>>
    decreases n
  {
    hide ReadEntry;
    if n == 0 then Got([], bs)
    else
      match ReadEntry(bs) case Bad => Bad case Got(e, r) =>
      match ReadEntries(r, n - 1) case Bad => Bad case Got(es, r') => Got([e] + es, r')
  }

  function ReadConfig(bs: seq<byte>): Read<SignedConfig> {
    if !(Domain() <= bs) then Bad else
    match ReadU32(bs[|Domain()|..]) case Bad => Bad case Got(v, b1) =>
    match ReadU32(b1) case Bad => Bad case Got(uid, b2) =>
    match ReadStr(b2) case Bad => Bad case Got(user, b3) =>
    match ReadU64(b3) case Bad => Bad case Got(gen, b4) =>
    match ReadU32(b4) case Bad => Bad case Got(pre, b5) =>
    match ReadU32(b5) case Bad => Bad case Got(post, b6) =>
    match ReadLe(b6, 8) case Bad => Bad case Got(n, b7) =>
    match ReadEntries(b7, n) case Bad => Bad case Got(es, b8) =>
      Got(SignedConfig(v, uid, user, gen, pre, post, es), b8)
  }

  // -------------------------------------------------------------- round trips

  const LIMIT := 0x1_0000_0000_0000_0000

  /** Every length fits the 64-bit count written for it, as it does for any string or vector the
      program can hold in memory. */
  predicate FitsEntry(e: Entry) {
    && Len(e.id) < LIMIT && Len(e.windowClass) < LIMIT && Len(e.labelText) < LIMIT
    && Len(e.exec) < LIMIT && Len(e.launcher.path) < LIMIT && Len(e.launcher.sha256) < LIMIT
    && (e.cwd.Some? ==> Len(e.cwd.value) < LIMIT)
  }

  predicate Fits(cfg: SignedConfig) {
    Len(cfg.user) < LIMIT && |cfg.entries| < LIMIT && forall e | e in cfg.entries :: FitsEntry(e)
  }

  function Pow256(w: nat): nat { if w == 0 then 1 else 0x100 * Pow256(w - 1) }

  lemma {:induction false} LeRead(n: nat, w: nat, rest: seq<byte>)
    requires n < Pow256(w)
    ensures ReadLe(Le(n, w) + rest, w) == Got(n, rest)
  {
    var bs := Le(n, w) + rest;
    assert bs[..w] == Le(n, w) && bs[w..] == rest;
    LeBack(n, w);
  }

  lemma {:induction false} LeBack(n: nat, w: nat)
    requires n < Pow256(w)
    ensures LeValue(Le(n, w)) == n
  {
    if w > 0 {
      assert Le(n, w)[1..] == Le(n / 0x100, w - 1);
      LeBack(n / 0x100, w - 1);
    }
  }

  lemma Widths()
    ensures Pow256(4) == 0x1_0000_0000 && Pow256(8) == LIMIT
  {
    assert Pow256(2) == 0x1_0000;
    assert Pow256(4) == 0x1_0000_0000;
    assert Pow256(6) == 0x1_0000_0000_0000;
  }

  lemma U32Read(n: u32, rest: seq<byte>)
    ensures ReadU32(U32(n) + rest) == Got(n, rest)
  {
    Widths();
    LeRead(n, 4, rest);
  }

  lemma U64Read(n: u64, rest: seq<byte>)
    ensures ReadU64(U64(n) + rest) == Got(n, rest)
  {
    Widths();
    LeRead(n, 8, rest);
  }

  lemma StrRead(s: string, rest: seq<byte>)
    requires Len(s) < LIMIT
    ensures ReadStr(Str(s) + rest) == Got(s, rest)
  {
    Widths();
    var b := Utf8(s) + rest;
    assert Str(s) + rest == Le(Len(s), 8) + b;
    LeRead(Len(s), 8, b);
    assert b[..Len(s)] == Utf8(s) && b[Len(s)..] == rest;
    Utf8RoundTrip(s);
  }

  lemma OptStrRead(s: Option<string>, rest: seq<byte>)
    requires s.Some? ==> Len(s.value) < LIMIT
    ensures ReadOptStr(OptStr(s) + rest) == Got(s, rest)
  {
    hide Str, ReadStr, Utf8;
    var bs := OptStr(s) + rest;
    if s.Some? {
      assert bs[1..] == Str(s.value) + rest;
      StrRead(s.value, rest);
    } else {
      assert bs[1..] == rest;
    }
  }

  lemma OptBoolRead(b: Option<bool>, rest: seq<byte>)
    ensures ReadOptBool(OptBool(b) + rest) == Got(b, rest)
  {
    var bs := OptBool(b) + rest;
    if b.Some? {
      assert bs[1..] == Bool(b.value) + rest && bs[1..][1..] == rest;
    } else {
      assert bs[1..] == rest;
    }
  }

  function FaceOf(e: Entry): Face {
    Face(e.id, e.windowClass, e.workspace, e.float, e.labelText, e.exec)
  }

  lemma FaceRead(e: Entry, rest: seq<byte>)
    requires FitsEntry(e)
    ensures ReadFace(FaceBytes(e) + rest) == Got(FaceOf(e), rest)
  {
    hide Str, U32, OptBool, ReadStr, ReadU32, ReadOptBool, Utf8, FromUtf8;
    var b5 := Str(e.exec) + rest;
    var b4 := Str(e.labelText) + b5;
    var b3 := OptBool(e.float) + b4;
    var b2 := U32(e.workspace) + b3;
    var b1 := Str(e.windowClass) + b2;
    assert FaceBytes(e) + rest == Str(e.id) + b1;
    StrRead(e.id, b1);
    StrRead(e.windowClass, b2);
    U32Read(e.workspace, b3);
    OptBoolRead(e.float, b4);
    StrRead(e.labelText, b5);
    StrRead(e.exec, rest);
  }

  lemma SourceRead(e: Entry, rest: seq<byte>)
    requires FitsEntry(e)
    ensures ReadSource(FaceOf(e), SourceBytes(e) + rest) == Got(e, rest)
  {
    hide Str, U32, OptStr, ReadStr, ReadU32, ReadOptStr, Utf8, FromUtf8;
    var b5 := Bool(e.enabled) + rest;
    assert b5[1..] == rest;
    var b4 := OptStr(e.cwd) + b5;
    var b3 := Str(e.launcher.sha256) + b4;
    var b2 := Str(e.launcher.path) + b3;
    var b1 := U32(ProvenanceTag(e.provenance)) + b2;
    assert SourceBytes(e) + rest == U32(SourceTag(e.execSource)) + b1;
    U32Read(SourceTag(e.execSource), b1);
    U32Read(ProvenanceTag(e.provenance), b2);
    StrRead(e.launcher.path, b3);
    StrRead(e.launcher.sha256, b4);
    OptStrRead(e.cwd, b5);
  }

  lemma EntryRead(e: Entry, rest: seq<byte>)
    requires FitsEntry(e)
    ensures ReadEntry(EntryBytes(e) + rest) == Got(e, rest)
  {
    hide FaceBytes, SourceBytes, ReadFace, ReadSource, FitsEntry;
    assert EntryBytes(e) + rest == FaceBytes(e) + (SourceBytes(e) + rest);
    FaceRead(e, SourceBytes(e) + rest);
    SourceRead(e, rest);
  }

  lemma {:induction false} EntriesRead(es: seq<Entry>, rest: seq<byte>)
    requires forall e | e in es :: FitsEntry(e)
    ensures ReadEntries(EntriesBytes(es) + rest, |es|) == Got(es, rest)
  {
    hide EntryBytes, ReadEntry, FitsEntry;
    if es == [] {
      assert [] + rest == rest;
    } else {
      var more := EntriesBytes(es[1..]) + rest;
      assert EntriesBytes(es) + rest == EntryBytes(es[0]) + more;
      EntryRead(es[0], more);
      EntriesRead(es[1..], rest);
      assert es == [es[0]] + es[1..];
    }
  }

  /** A reader recovers every field of the document, and where the document ends, whatever the
      strings contain and whatever follows. */
  lemma ConfigRead(cfg: SignedConfig, rest: seq<byte>)
    requires Fits(cfg)
    ensures ReadConfig(CanonicalBytes(cfg) + rest) == Got(cfg, rest)
  {
    hide Domain, Utf8, FromUtf8, EntryBytes, FitsEntry, Str, U32, U64, Le, EntriesBytes, Pow256, ReadStr, ReadU32,
         ReadU64, ReadLe, ReadEntries;
    Widths();
    var b7 := EntriesBytes(cfg.entries) + rest;
    var b6 := Le(|cfg.entries|, 8) + b7;
    var b5 := U32(cfg.postLaunchMs) + b6;
    var b4 := U32(cfg.preLaunchMs) + b5;
    var b3 := U64(cfg.gen) + b4;
    var b2 := Str(cfg.user) + b3;
    var b1 := U32(cfg.uid) + b2;
    var b0 := U32(cfg.v) + b1;
    var bs := CanonicalBytes(cfg) + rest;
    assert bs == Domain() + b0;
    assert Domain() <= bs && bs[|Domain()|..] == b0;
    U32Read(cfg.v, b1);
    U32Read(cfg.uid, b2);
    StrRead(cfg.user, b3);
    U64Read(cfg.gen, b4);
    U32Read(cfg.preLaunchMs, b5);
    U32Read(cfg.postLaunchMs, b6);
    LeRead(|cfg.entries|, 8, b7);
    EntriesRead(cfg.entries, rest);
  }

  /** No document's bytes begin another's: equal bytes mean equal documents, field by field. */
  lemma CanonicalPrefixFree(a: SignedConfig, x: seq<byte>, b: SignedConfig, y: seq<byte>)
    requires Fits(a) && Fits(b)
    requires CanonicalBytes(a) + x == CanonicalBytes(b) + y
    ensures a == b && x == y
  {
    hide CanonicalBytes, ReadConfig, Fits;
    ConfigRead(a, x);
    ConfigRead(b, y);
  }

  lemma CanonicalInjective(a: SignedConfig, b: SignedConfig)
    requires Fits(a) && Fits(b) && CanonicalBytes(a) == CanonicalBytes(b)
    ensures a == b
  {
    hide CanonicalBytes, Fits;
    CanonicalPrefixFree(a, [], b, []);
  }
}
