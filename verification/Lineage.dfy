/** Where the entries the anchor launches come from: every document is either one a check approved,
    as reviewed, or the previous document with apps disabled or removed. */
module Lineage {
  import opened Text
  import opened Model
  import opened Disk
  import opened Store
  import opened Crypto
  import opened Engine
  import opened Protocol
  import opened Generations
  import Diff
  import Review

  // -------------------------------------------------------------- what Reduce may do

  /** `b` is `a`, in order, with some entries removed and some of the others disabled. */
  predicate Tames(a: seq<Entry>, b: seq<Entry>)
    decreases |a|
  {
    if a == [] then b == []
    else
      (b != [] && (b[0] == a[0] || b[0] == a[0].(enabled := false)) && Tames(a[1..], b[1..]))
      || Tames(a[1..], b)
  }

  lemma {:induction false} TamesRefl(a: seq<Entry>)
    ensures Tames(a, a)
  {
    if a != [] { TamesRefl(a[1..]); }
  }

  lemma {:induction false} TamesTrans(a: seq<Entry>, b: seq<Entry>, c: seq<Entry>)
    requires Tames(a, b) && Tames(b, c)
    ensures Tames(a, c)
    decreases |a|
  {
    if a != [] {
      if b != [] && (b[0] == a[0] || b[0] == a[0].(enabled := false)) && Tames(a[1..], b[1..]) {
        if c != [] && (c[0] == b[0] || c[0] == b[0].(enabled := false)) && Tames(b[1..], c[1..]) {
          TamesTrans(a[1..], b[1..], c[1..]);
        } else {
          TamesTrans(a[1..], b[1..], c);
        }
      } else {
        TamesTrans(a[1..], b, c);
      }
    }
  }

  /** What an operation does: Disable turns off the first entry of that class, Drop removes them all,
      and either refuses a class that is not there. */
  lemma {:induction false} OpTames(es: seq<Entry>, op: ReduceOp)
    ensures ApplyOp(es, op).Done? <==> exists e :: e in es && e.id == op.id
    ensures ApplyOp(es, op).Done? ==> Tames(es, ApplyOp(es, op).value)
  {
    match op
    case Disable(id) => FirstTames(es, id);
    case Drop(id) => RetainTames(es, id);
  }

  lemma {:induction false} FirstTames(es: seq<Entry>, id: string)
    ensures FirstAt(es, id).Some? <==> exists e :: e in es && e.id == id
    ensures var i := FirstAt(es, id); i.Some? ==> Tames(es, es[i.value := es[i.value].(enabled := false)])
  {
    if es != [] {
      if es[0].id == id {
        TamesRefl(es[1..]);
        assert es[0] in es;
        assert es[0 := es[0].(enabled := false)][1..] == es[1..];
      } else {
        FirstTames(es[1..], id);
        assert es == [es[0]] + es[1..];
        var r := FirstAt(es[1..], id);
        if r.Some? {
          var i := r.value;
          assert es[i + 1 := es[i + 1].(enabled := false)][1..] == es[1..][i := es[1..][i].(enabled := false)];
        }
      }
    }
  }

  lemma {:induction false} RetainTames(es: seq<Entry>, id: string)
    ensures Tames(es, Retain(es, id)) && |Retain(es, id)| <= |es|
    ensures |Retain(es, id)| < |es| <==> exists e :: e in es && e.id == id
  {
    if es != [] {
      RetainTames(es[1..], id);
      assert es == [es[0]] + es[1..];
      if es[0].id == id {
        assert es[0] in es && Retain(es, id) == Retain(es[1..], id);
      } else {
        assert Retain(es, id)[1..] == Retain(es[1..], id);
      }
    }
  }

  lemma {:induction false} OpsTame(es: seq<Entry>, ops: seq<ReduceOp>)
    requires ApplyOps(es, ops).Done?
    ensures Tames(es, ApplyOps(es, ops).value)
    decreases |ops|
  {
    if ops == [] {
      TamesRefl(es);
    } else {
      OpTames(es, ops[0]);
      var es1 := ApplyOp(es, ops[0]).value;
      OpsTame(es1, ops[1..]);
      TamesTrans(es, es1, ApplyOps(es1, ops[1..]).value);
    }
  }

  /** Taming only removes and disables: what is still enabled is there unchanged. */
  lemma {:induction false} TamesKeeps(a: seq<Entry>, b: seq<Entry>)
    requires Tames(a, b)
    ensures |b| <= |a|
    ensures forall e | e in b :: exists o :: o in a && (e == o || e == o.(enabled := false))
    ensures forall e | e in b && e.enabled :: e in a
    decreases |a|
  {
    if a != [] {
      assert a == [a[0]] + a[1..] && a[0] in a;
      if b != [] && (b[0] == a[0] || b[0] == a[0].(enabled := false)) && Tames(a[1..], b[1..]) {
        TamesKeeps(a[1..], b[1..]);
        assert b == [b[0]] + b[1..];
      } else {
        TamesKeeps(a[1..], b);
      }
    }
  }

  lemma DisabledValid(e: Entry)
    requires ValidEntry(e)
    ensures ValidEntry(e.(enabled := false))
  {
  }

  lemma {:induction false} TamesAscending(a: seq<Entry>, b: seq<Entry>)
    requires Tames(a, b) && Ascending(a)
    ensures Ascending(b)
    decreases |a|
  {
    if a != [] {
      AscendingTail(a);
      if b != [] && (b[0] == a[0] || b[0] == a[0].(enabled := false)) && Tames(a[1..], b[1..]) {
        TamesAscending(a[1..], b[1..]);
        TamesKeeps(a[1..], b[1..]);
        AscendingCons(b);
      } else {
        TamesAscending(a[1..], b);
      }
    }
  }

  lemma {:induction false} RetainExact(es: seq<Entry>, id: string)
    ensures forall x :: x in Retain(es, id) <==> x in es && x.id != id
  {
    if es != [] {
      RetainExact(es[1..], id);
      assert es == [es[0]] + es[1..];
    }
  }

  /** Disable turns off the entry of that class and leaves every other as it was, in its place. */
  lemma DisableExact(es: seq<Entry>, id: string)
    requires Ascending(es) && exists e :: e in es && e.id == id
    ensures ApplyOp(es, Disable(id)).Done?
    ensures var r := ApplyOp(es, Disable(id)).value;
            |r| == |es| && forall i | 0 <= i < |es| ::
              r[i] == if es[i].id == id then es[i].(enabled := false) else es[i]
  {
    FirstTames(es, id);
    var i := FirstAt(es, id).value;
    forall j | 0 <= j < |es| && j != i ensures es[j].id != id { LessTotal(es[i].id, es[j].id); }
  }

  /** Drop removes the entry of that class and keeps every other, in order. */
  lemma DropExact(es: seq<Entry>, id: string)
    requires Ascending(es) && exists e :: e in es && e.id == id
    ensures ApplyOp(es, Drop(id)).Done?
    ensures var r := ApplyOp(es, Drop(id)).value;
            Ascending(r) && forall x :: x in r <==> x in es && x.id != id
  {
    hide Ascending;
    RetainTames(es, id);
    RetainExact(es, id);
    TamesAscending(es, Retain(es, id));
  }

  /** An entry once every operation that names its class has been carried out, if none of them drops it. */
  function Off(e: Entry, ops: seq<ReduceOp>): Entry { if Disable(e.id) in ops then e.(enabled := false) else e }

  /** `b` is `a`, in order, without the dropped classes and with the disabled ones off; every entry not named is
      as it was. */
  predicate CarriedOut(a: seq<Entry>, ops: seq<ReduceOp>, b: seq<Entry>) {
    && Ascending(b)
    && (forall e | e in a :: Drop(e.id) in ops || Off(e, ops) in b)
    && (forall x | x in b :: exists e :: e in a && Drop(e.id) !in ops && x == Off(e, ops))
  }

  /** An entry of that class is there, and has not been dropped by then. */
  predicate NamedAt(es: seq<Entry>, ops: seq<ReduceOp>, k: nat)
    requires k < |ops|
  {
    exists e :: e in es && e.id == ops[k].id && Drop(e.id) !in ops[..k]
  }

  /** Every operation names a class that is there when its turn comes. */
  predicate AllNamed(es: seq<Entry>, ops: seq<ReduceOp>) { forall k | 0 <= k < |ops| :: NamedAt(es, ops, k) }

  lemma OpCarriedOut(es: seq<Entry>, op: ReduceOp)
    requires Ascending(es) && exists e :: e in es && e.id == op.id
    ensures ApplyOp(es, op).Done? && CarriedOut(es, [op], ApplyOp(es, op).value)
  {
    hide ApplyOp, Ascending;
    match op
    case Disable(id) =>
      DisableExact(es, id);
      var r := ApplyOp(es, op).value;
      OffAscending(es, id, r);
      forall e | e in es ensures Off(e, [op]) in r {
        var i :| 0 <= i < |es| && es[i] == e;
        assert r[i] == Off(e, [op]);
      }
      forall x | x in r ensures exists e :: e in es && Drop(e.id) !in [op] && x == Off(e, [op]) {
        var i :| 0 <= i < |r| && r[i] == x;
        assert es[i] in es && x == Off(es[i], [op]);
      }
    case Drop(id) =>
      DropExact(es, id);
      var r := ApplyOp(es, op).value;
      forall x | x in r ensures x in es && Drop(x.id) !in [op] && x == Off(x, [op]) { }
  }

  lemma OffAscending(es: seq<Entry>, id: string, r: seq<Entry>)
    requires Ascending(es) && |r| == |es|
    requires forall i | 0 <= i < |es| :: r[i] == if es[i].id == id then es[i].(enabled := false) else es[i]
    ensures Ascending(r)
  {
    hide Less;
  }

  lemma CarriedOn(a: seq<Entry>, op: ReduceOp, b: seq<Entry>, ops: seq<ReduceOp>, c: seq<Entry>)
    requires CarriedOut(a, [op], b) && CarriedOut(b, ops, c)
    ensures CarriedOut(a, [op] + ops, c)
  {
    hide Ascending;
    forall e: Entry ensures Off(Off(e, [op]), ops) == Off(e, [op] + ops) { }
    forall e | e in a ensures Drop(e.id) in [op] + ops || Off(e, [op] + ops) in c {
      if Drop(e.id) !in [op] + ops { assert Off(e, [op]) in b && Off(e, [op]).id == e.id; }
    }
    forall x | x in c ensures exists e :: e in a && Drop(e.id) !in [op] + ops && x == Off(e, [op] + ops) {
      var y :| y in b && Drop(y.id) !in ops && x == Off(y, ops);
      var e :| e in a && Drop(e.id) !in [op] && y == Off(e, [op]);
      assert e.id == y.id;
    }
  }

  /** Reduce carries out exactly the operations it is given, and refuses exactly those that name a class that is
      not there, or not there any more. */
  lemma {:induction false} OpsExact(es: seq<Entry>, ops: seq<ReduceOp>)
    requires Ascending(es)
    ensures ApplyOps(es, ops).Done? <==> AllNamed(es, ops)
    ensures ApplyOps(es, ops).Done? ==> CarriedOut(es, ops, ApplyOps(es, ops).value)
    decreases |ops|
  {
    hide ApplyOp, Ascending;
    if ops == [] {
      forall e | e in es ensures Off(e, ops) == e { }
    } else {
      OpTames(es, ops[0]);
      if exists e :: e in es && e.id == ops[0].id {
        OpCarriedOut(es, ops[0]);
        var es1 := ApplyOp(es, ops[0]).value;
        OpsExact(es1, ops[1..]);
        NamedRest(es, ops, es1);
        assert [ops[0]] + ops[1..] == ops;
        if ApplyOps(es, ops).Done? { CarriedOn(es, ops[0], es1, ops[1..], ApplyOps(es, ops).value); }
      } else {
        assert !NamedAt(es, ops, 0);
      }
    }
  }

  lemma NamedNext(es: seq<Entry>, ops: seq<ReduceOp>, es1: seq<Entry>, k: nat)
    requires k + 1 < |ops| && CarriedOut(es, [ops[0]], es1)
    ensures NamedAt(es1, ops[1..], k) <==> NamedAt(es, ops, k + 1)
  {
    hide Ascending;
    var rest := ops[1..];
    assert ops[..k + 1] == [ops[0]] + rest[..k] && ops[k + 1] == rest[k];
    if NamedAt(es, ops, k + 1) {
      var e :| e in es && e.id == ops[k + 1].id && Drop(e.id) !in ops[..k + 1];
      assert Off(e, [ops[0]]) in es1 && Off(e, [ops[0]]).id == e.id;
    }
    if NamedAt(es1, rest, k) {
      var x :| x in es1 && x.id == rest[k].id && Drop(x.id) !in rest[..k];
      var e :| e in es && Drop(e.id) !in [ops[0]] && x == Off(e, [ops[0]]);
      assert e.id == x.id;
    }
  }

  lemma NamedRest(es: seq<Entry>, ops: seq<ReduceOp>, es1: seq<Entry>)
    requires ops != [] && CarriedOut(es, [ops[0]], es1) && NamedAt(es, ops, 0)
    ensures AllNamed(es, ops) <==> AllNamed(es1, ops[1..])
  {
    hide NamedAt, CarriedOut;
    var rest := ops[1..];
    forall k | 0 <= k < |rest| ensures NamedAt(es1, rest, k) <==> NamedAt(es, ops, k + 1) {
      NamedNext(es, ops, es1, k);
    }
    if AllNamed(es1, rest) {
      forall k | 0 <= k < |ops| ensures NamedAt(es, ops, k) {
        if k > 0 { assert NamedAt(es1, rest, k - 1); }
      }
    }
  }

  /** A reduced document is always valid: Reduce is never refused for what it would produce. */
  lemma ReducedValid(env: Env, user: string, base: SignedConfig, ops: seq<ReduceOp>, gen: u64)
    requires ConfigError(base).None? && base.user == user && ApplyOps(base.entries, ops).Done?
    ensures ConfigError(ReducedDoc(env, user, gen, base, ApplyOps(base.entries, ops).value)).None?
  {
    var es := ApplyOps(base.entries, ops).value;
    var doc := ReducedDoc(env, user, gen, base, es);
    ValidateExact(base);
    ValidateExact(doc);
    OpsTame(base.entries, ops);
    TamesKeeps(base.entries, es);
    TamesAscending(base.entries, es);
    hide ConfigError, EntryError, ApplyOps, Ascending, Tames;
    forall e | e in es ensures ValidEntry(e) {
      var o :| o in base.entries && (e == o || e == o.(enabled := false));
      DisabledValid(o);
    }
  }

  lemma EnrolledIsWhole(d: Disk)
    requires HeadOf(d).Done? && HeadOf(d).value.key.Some?
    ensures !HalfEnrolled(d)
  {
  }

  lemma GoodBase(file: ConfigFile, key: Key, uid: u32, user: string, gen: u64)
    requires Verifiable(file, key, uid, user, gen)
    ensures ParseAndVerify(Some(file), key, uid, user, gen) == Good(file.signed)
    ensures ConfigError(file.signed).None? && file.signed.user == user && Ascending(file.signed.entries)
  {
    hide ConfigError, EntryError, ParseAndVerify, ValidEntry, Ascending;
    VerifyExact(Some(file), key, uid, user, gen);
    ValidateExact(file.signed);
  }

  /** With no fault, a reduction of what verifies goes through exactly when every class it names is there. */
  lemma ReduceWorks(env: Env, io: Io, user: string, base: ConfigFile, ops: seq<ReduceOp>, head: Head, es: seq<Entry>)
    requires Shape(io.disk) && Calm(io) && HeadOf(io.disk) == Done(head) && head.key.Some? && head.gen != GEN_MAX
    requires Verifiable(base, head.key.value, env.uid, user, head.gen)
    requires AllNamed(base.signed.entries, ops) ==>
               CarriedOut(base.signed.entries, ops, es)
               && FitsLimit(env, ReducedDoc(env, user, head.gen + 1, base.signed, es))
    ensures ReduceIo(env, io, user, Some(base), ops).1.Done? <==> AllNamed(base.signed.entries, ops)
  {
    hide Shape, Calm, Commit, ConfigError, FitsLimit, HalfEnrolled, ApplyOps, ParseAndVerify, Verifiable, HeadOf,
         AllNamed, CarriedOut;
    GoodBase(base, head.key.value, env.uid, user, head.gen);
    OpsExact(base.signed.entries, ops);
    if AllNamed(base.signed.entries, ops) {
      CarriedOnce(base.signed.entries, ops, es, ApplyOps(base.signed.entries, ops).value);
      ReduceCommits(env, io, user, base, ops, head, es);
    }
  }

  lemma ReduceCommits(env: Env, io: Io, user: string, base: ConfigFile, ops: seq<ReduceOp>, head: Head, es: seq<Entry>)
    requires Shape(io.disk) && Calm(io) && HeadOf(io.disk) == Done(head) && head.key.Some? && head.gen != GEN_MAX
    requires Verifiable(base, head.key.value, env.uid, user, head.gen) && ApplyOps(base.signed.entries, ops) == Done(es)
    requires FitsLimit(env, ReducedDoc(env, user, head.gen + 1, base.signed, es))
    ensures ReduceIo(env, io, user, Some(base), ops).1.Done?
  {
    hide Shape, Calm, Commit, ConfigError, FitsLimit, HalfEnrolled, ApplyOps, ParseAndVerify, Verifiable, HeadOf;
    GoodBase(base, head.key.value, env.uid, user, head.gen);
    EnrolledIsWhole(io.disk);
    ReducedValid(env, user, base.signed, ops, head.gen + 1);
    var doc := ReducedDoc(env, user, head.gen + 1, base.signed, es);
    assert doc.(gen := head.gen + 1) == doc;
    CommitWorks(env, io, user, head.gen + 1, doc, head);
  }

  /** Reduce says what it refuses: nothing enrolled, a base that does not verify, a class that is not there when
      its turn comes, or no generation left. */
  lemma ReduceReplies(env: Env, io: Io, user: string, base: Option<ConfigFile>, ops: seq<ReduceOp>, head: Head)
    requires HeadOf(io.disk) == Done(head)
    ensures var good := head.key.Some? && base.Some? && Verifiable(base.value, head.key.value, env.uid, user, head.gen);
            var r := ReduceIo(env, io, user, base, ops).1;
            && (r == Refused(NotEnrolled) <==> head.key.None?)
            && (r.Refused? && r.error.BadBase? <==> head.key.Some? && !good)
            && (r.Refused? && r.error.BadOp? <==> good && !AllNamed(base.value.signed.entries, ops))
            && (r == Refused(GenExhausted) <==>
                  good && AllNamed(base.value.signed.entries, ops) && head.gen == GEN_MAX)
  {
    hide Commit, ConfigError, ApplyOps, ParseAndVerify, Verifiable, HeadOf, AllNamed, CarriedOut, ReducedDoc;
    if head.key.Some? {
      VerifyExact(base, head.key.value, env.uid, user, head.gen);
      if base.Some? && Verifiable(base.value, head.key.value, env.uid, user, head.gen) {
        var cfg := base.value.signed;
        GoodBase(base.value, head.key.value, env.uid, user, head.gen);
        OpsExact(cfg.entries, ops);
        RefusedOp(cfg.entries, ops);
        if AllNamed(cfg.entries, ops) && head.gen != GEN_MAX {
          CommitReplies(env, io, user, head.gen + 1,
                        ReducedDoc(env, user, head.gen + 1, cfg, ApplyOps(cfg.entries, ops).value));
        }
      }
    }
  }

  lemma {:induction false} RefusedOp(es: seq<Entry>, ops: seq<ReduceOp>)
    ensures ApplyOps(es, ops).Refused? ==> ApplyOps(es, ops).error.BadOp?
    decreases |ops|
  {
    if ops != [] && ApplyOp(es, ops[0]).Done? { RefusedOp(ApplyOp(es, ops[0]).value, ops[1..]); }
  }

  lemma CommitReplies(env: Env, io: Io, user: string, newGen: u64, doc: SignedConfig)
    ensures var r := Commit(env, io, user, newGen, doc).1;
            r.Refused? ==> r.error.BadDocument? || r.error.BadStore? || r.error.DocumentTooLarge?
  {
    hide ConfigError, EnsureEnrolled, SigningKey, PublishGen, Sign;
  }

  /** What carrying operations out gives is determined. */
  lemma CarriedOnce(a: seq<Entry>, ops: seq<ReduceOp>, b: seq<Entry>, c: seq<Entry>)
    requires CarriedOut(a, ops, b) && CarriedOut(a, ops, c)
    ensures b == c
  {
    hide Ascending;
    forall x | x in b ensures x in c { var e :| e in a && Drop(e.id) !in ops && x == Off(e, ops); }
    forall x | x in c ensures x in b { var e :| e in a && Drop(e.id) !in ops && x == Off(e, ops); }
    AscendingUnique(b, c);
  }

  // ------------------------------------------------------------------ over whole runs

  /** Signatures cannot be forged: every base submitted to Reduce carries one already handed out, or none. */
  ghost predicate Attainable(env: Env, es: seq<Event>) {
    hide Run, HandedOut;
    forall n | 0 <= n < |es| && es[n].ReduceReq? && es[n].base.Some? && es[n].base.value.signature.By? ::
      HandedOut(Run(env, es[..n]), es[n].base.value.signature)
  }

  predicate HandedOut(s: System, signature: Signature) {
    exists j :: 0 <= j < |s.issued| && s.issued[j].file.signature == signature
  }

  lemma ReduceIs(env: Env, io: Io, user: string, base: Option<ConfigFile>, ops: seq<ReduceOp>)
    requires Shape(io.disk) && ReduceIo(env, io, user, base, ops).1.Done?
    ensures base.Some? && Verifies(env, io.disk, user, base.value)
    ensures ApplyOps(base.value.signed.entries, ops).Done? && base.value.signed.user == user
    ensures var doc := ReduceIo(env, io, user, base, ops).1.value.signed;
            doc == ReducedDoc(env, user, doc.gen, base.value.signed, ApplyOps(base.value.signed.entries, ops).value)
            && doc.gen == base.value.signed.gen + 1
  {
    hide ApplyOps, EnsureEnrolled, PublishGen, ConfigError, Sign;
  }

  lemma ReduceVerified(env: Env, es: seq<Event>, n: nat)
    requires n < |es| && es[n].ReduceReq? && ReplyTo(env, es, n).Issued?
    ensures var d := Run(env, es[..n]).m.io.disk;
            Shape(d) && es[n].base.Some? && Verifies(env, d, es[n].user, es[n].base.value)
                && es[n].base.value.signature.By?
    ensures var (last, doc) := (es[n].base.value.signed, ReplyTo(env, es, n).file.signed);
            && ApplyOps(last.entries, es[n].ops).Done? && doc.gen == last.gen + 1 && Ascending(last.entries)
            && doc == ReducedDoc(env, last.user, doc.gen, last, ApplyOps(last.entries, es[n].ops).value)
  {
    hide Run, ReplyTo, Outcome3, Verifies, ApplyOps, ReduceIo, Shape;
    var s := Run(env, es[..n]);
    ReplyIs(env, es, n);
    ReduceAct(env, s, es[n]);
    SoundHolds(env, es[..n]);
    SoundShape(env, s);
    ReduceIs(env, s.m.io, es[n].user, es[n].base, es[n].ops);
    BaseSigned(env, s.m.io.disk, es[n].user, es[n].base.value);
    BaseAscending(env, s.m.io.disk, es[n].user, es[n].base.value);
  }

  /** `base` is the last document issued and `doc` follows it: the operations carried out, and nothing else. */
  predicate TamedLast(issued: seq<Issue>, base: Option<ConfigFile>, ops: seq<ReduceOp>, doc: SignedConfig) {
    && issued != [] && base == Some(issued[|issued| - 1].file)
    && var last := base.value.signed;
       && AllNamed(last.entries, ops) && CarriedOut(last.entries, ops, doc.entries) && Tames(last.entries, doc.entries)
       && doc.gen == last.gen + 1 && doc.user == last.user
       && doc.preLaunchMs == last.preLaunchMs && doc.postLaunchMs == last.postLaunchMs
  }

  /** What Reduce hands out is the last document handed out with exactly the named apps disabled or removed:
      every other as it was, same delays, same user, the next generation. */
  lemma ReduceBase(env: Env, es: seq<Event>, n: nat)
    requires n < |es| && es[n].ReduceReq? && ReplyTo(env, es, n).Issued? && Attainable(env, es)
    ensures TamedLast(Run(env, es[..n]).issued, es[n].base, es[n].ops, ReplyTo(env, es, n).file.signed)
  {
    hide Run, ReplyTo, Verifies, ApplyOps, Leaves, Shape, Attainable, Tames, CarriedOut, AllNamed;
    ReduceVerified(env, es, n);
    OpsTame(es[n].base.value.signed.entries, es[n].ops);
    OpsExact(es[n].base.value.signed.entries, es[n].ops);
    var j := BaseHandedOut(env, es, n);
    OnlyLastVerifies(env, es[..n], Run(env, es[..n]).m.io.disk, es[n].user, es[n].base.value, j);
  }

  lemma BaseHandedOut(env: Env, es: seq<Event>, n: nat) returns (j: nat)
    requires Attainable(env, es) && n < |es| && es[n].ReduceReq? && es[n].base.Some? && es[n].base.value.signature.By?
    ensures j < |Run(env, es[..n]).issued|
    ensures Run(env, es[..n]).issued[j].file.signature == es[n].base.value.signature
  {
    hide Run;
    j :| 0 <= j < |Run(env, es[..n]).issued|
        && Run(env, es[..n]).issued[j].file.signature == es[n].base.value.signature;
  }

  lemma ReduceAct(env: Env, s: System, e: Event)
    requires e.ReduceReq? && Outcome3(env, s, e).2.Issued?
    ensures ReduceIo(env, s.m.io, e.user, e.base, e.ops).1 == Done(Outcome3(env, s, e).2.file)
  {
    hide ReduceIo, HeadOf, Prepare, Claim, Finish, PurgeAll;
  }

  lemma CommitFits(env: Env, io: Io, user: string, newGen: u64, doc: SignedConfig)
    ensures var r := Commit(env, io, user, newGen, doc).1; r.Done? ==> env.sizeOf(r.value) <= env.docLimit
  {
    hide ConfigError, EnsureEnrolled, SigningKey, PublishGen, Sign;
  }

  lemma FinishFits(env: Env, m: Machine, txid: nat)
    ensures var r := Finish(env, m, txid).1; r.Done? ==> env.sizeOf(r.value) <= env.docLimit
  {
    hide Commit, HeadOf;
    if m.pending.Some? && m.pending.value.baseGen != GEN_MAX {
      var t := m.pending.value;
      CommitFits(env, m.io, t.user, t.baseGen + 1, t.proposal);
    }
  }

  lemma ReduceFits(env: Env, io: Io, user: string, base: Option<ConfigFile>, ops: seq<ReduceOp>)
    ensures var r := ReduceIo(env, io, user, base, ops).1; r.Done? ==> env.sizeOf(r.value) <= env.docLimit
  {
    hide Commit, HeadOf, ApplyOps, ReducedDoc, ConfigError, Sign;
    if ReduceIo(env, io, user, base, ops).1.Done? {
      var head := HeadOf(io.disk).value;
      var es := ApplyOps(base.value.signed.entries, ops).value;
      CommitFits(env, io, user, head.gen + 1, ReducedDoc(env, user, head.gen + 1, base.value.signed, es));
    }
  }

  lemma FinishAct(env: Env, s: System, e: Event)
    requires e.FinishReq? && Outcome3(env, s, e).2.Issued?
    ensures e.check in s.calls
    ensures Finish(env, s.m, s.calls[e.check].txid).1 == Done(Outcome3(env, s, e).2.file)
  {
    hide Finish, HeadOf, Prepare, Claim, PurgeAll, Reduce;
  }

  /** Over every run, no document longer than the limit is handed out. */
  lemma IssuedFits(env: Env, es: seq<Event>, n: nat)
    requires n < |es| && ReplyTo(env, es, n).Issued?
    ensures env.sizeOf(ReplyTo(env, es, n).file) <= env.docLimit
  {
    hide Run, ReplyTo, Outcome3, Finish, ReduceIo;
    var s := Run(env, es[..n]);
    ReplyIs(env, es, n);
    ActFacts(env, s, es[n]);
    if es[n].FinishReq? {
      FinishAct(env, s, es[n]);
      FinishFits(env, s.m, s.calls[es[n].check].txid);
    } else {
      ReduceAct(env, s, es[n]);
      ReduceFits(env, s.m.io, es[n].user, es[n].base, es[n].ops);
    }
  }

  lemma SoundShape(env: Env, s: System)
    requires Sound(env, s)
    ensures Shape(s.m.io.disk)
  {
  }

  lemma BaseSigned(env: Env, d: Disk, user: string, file: ConfigFile)
    requires Shape(d) && Verifies(env, d, user, file)
    ensures file.signature.By?
  {
    VerifiesIs(env, d, user, file);
  }

  lemma BaseAscending(env: Env, d: Disk, user: string, file: ConfigFile)
    requires Shape(d) && Verifies(env, d, user, file)
    ensures Ascending(file.signed.entries)
  {
    hide ConfigError, EntryError, ValidEntry, Ascending;
    VerifiesIs(env, d, user, file);
    ValidateExact(file.signed);
  }

  /** The event that handed out document `j`. */
  lemma {:induction false} IssuedEvent(env: Env, es: seq<Event>, j: nat) returns (n: nat)
    requires j < |Run(env, es).issued|
    ensures n < |es| && ReplyTo(env, es, n).Issued? && |Run(env, es[..n]).issued| == j
    ensures Run(env, es[..n]).issued <= Run(env, es).issued
    ensures Run(env, es).issued[j].file == ReplyTo(env, es, n).file
    ensures Run(env, es).issued[j].check == if es[n].FinishReq? then Some(es[n].check) else None
    ensures es[n].FinishReq? || es[n].ReduceReq?
    decreases |es|
  {
    hide Step, Outcome3, ReplyTo;
    if es != [] {
      var init := es[..|es| - 1];
      StepIssues(env, Run(env, init), es[|es| - 1]);
      RunNext(env, es, |init|);
      ReplyIs(env, es, |init|);
      assert es[..|es|] == es;
      if j < |Run(env, init).issued| {
        n := IssuedEvent(env, init, j);
        assert init[..n] == es[..n];
        SameReply(env, init, es, n);
      } else {
        n := |init|;
      }
    }
  }

  lemma StepIssues(env: Env, s: System, e: Event)
    ensures var (r, s') := (Outcome3(env, s, e).2, Step(env, s, e));
            s'.issued == if r.Issued? then s.issued + [Issue(r.file, if e.FinishReq? then Some(e.check) else None)]
                else s.issued
    ensures Outcome3(env, s, e).2.Issued? ==> e.FinishReq? || e.ReduceReq?
  {
    hide Outcome3, Act;
    ActFacts(env, s, e);
  }

  lemma SameReply(env: Env, a: seq<Event>, b: seq<Event>, n: nat)
    requires n < |a| && n < |b| && a[..n] == b[..n] && a[n] == b[n]
    ensures ReplyTo(env, a, n) == ReplyTo(env, b, n)
  {
    hide Outcome3, Run, ReplyTo;
    ReplyIs(env, a, n);
    ReplyIs(env, b, n);
  }

  /** Document `j` launches `e`. */
  predicate LaunchedBy(issued: seq<Issue>, j: nat, e: Entry) {
    j < |issued| && e in issued[j].file.signed.entries && e.enabled
  }

  /** `e` was in document `i`, which a check approved, and in every one since, up to `j`. */
  predicate CarriedFrom(issued: seq<Issue>, i: nat, j: nat, e: Entry) {
    && i <= j < |issued| && issued[i].check.Some?
    && forall k | i <= k <= j :: e in issued[k].file.signed.entries
  }

  /** Every app a document launches was in one a check approved, and in every one since. */
  lemma {:induction false} EnabledOrigin(env: Env, es: seq<Event>, j: nat, e: Entry) returns (i: nat)
    requires Attainable(env, es) && LaunchedBy(Run(env, es).issued, j, e)
    ensures CarriedFrom(Run(env, es).issued, i, j, e)
    decreases j
  {
    hide Run, ReplyTo, Attainable, Tames;
    var n := IssuedEvent(env, es, j);
    if es[n].FinishReq? {
      i := j;
    } else {
      ReduceBase(env, es, n);
      var last := Run(env, es[..n]).issued[j - 1];
      assert last == Run(env, es).issued[j - 1];
      TamesKeeps(last.file.signed.entries, Run(env, es).issued[j].file.signed.entries);
      i := EnabledOrigin(env, es, j - 1, e);
    }
  }

  /** Prepare `p` put `e` up for review, claim `c` of the same connection was granted for it, its check said yes
      at `y`, and `n` handed the document out. */
  predicate Approved(env: Env, es: seq<Event>, p: nat, c: nat, y: nat, n: nat, e: Entry) {
    hide Run, ReplyTo;
    && p < c < y < n < |es|
    && es[p].PrepareReq? && e in es[p].proposal.entries
    && es[c].ClaimReq? && es[c].sender == es[p].sender && ReplyTo(env, es, c).Claimed?
    && ReplyTo(env, es, p).Reviewed? && ReplyTo(env, es, p).prepared.txid == Some(es[c].txid)
    && es[y] == CheckAnswer(ReplyTo(env, es, c).check, true)
    && es[n] == FinishReq(ReplyTo(env, es, c).check) && ReplyTo(env, es, n).Issued?
  }

  /** Whatever the login anchor would launch, at any moment and after any crash, was put to the user in
      a review, claimed by the connection that asked for it, and approved by the check of that claim. */
  lemma LaunchedWasApproved(env: Env, es: seq<Event>, found: Disk, user: string, file: ConfigFile, e: Entry)
    returns (p: nat, c: nat, y: nat, n: nat)
    requires Attainable(env, es) && MayFind(Run(env, es).m.io.disk, found)
    requires Verifies(env, found, user, file) && HandedOut(Run(env, es), file.signature)
    requires e in file.signed.entries && e.enabled
    ensures Approved(env, es, p, c, y, n, e)
  {
    hide Run, ReplyTo, Attainable, Verifies, MayFind, SortEntries, Kills;
    var s := Run(env, es);
    var j :| 0 <= j < |s.issued| && s.issued[j].file.signature == file.signature;
    OnlyLastVerifies(env, es, found, user, file, j);
    var i := EnabledOrigin(env, es, j, e);
    n := IssuedEvent(env, es, i);
    p, c, y := AuthorizeSafe(env, es, n);
    InProposal(env.uid, es[p].user, ReplyTo(env, es, n).file.signed.gen, es[p].proposal, e);
  }

  lemma InProposal(uid: u32, user: string, gen: u64, proposal: Proposal, e: Entry)
    requires e in Document(uid, user, gen, proposal).entries
    ensures e in proposal.entries
  {
    assert e in multiset(SortEntries(proposal.entries));
  }

  // ------------------------------------------------------------- what the user was shown

  lemma PrepareShows(env: Env, m: Machine, user: string, sender: string, base: Option<ConfigFile>,
                     proposal: Proposal, entropy: bool)
    requires var r := Prepare(env, m, user, sender, base, proposal, entropy).1; r.Done? && r.value.txid.Some?
    ensures var (m', r) := Prepare(env, m, user, sender, base, proposal, entropy);
            && m'.pending.Some? && r.value.review.hasChange
            && var (was, cfg) := (VerifiedBase(env, m.io.disk, user, base), m'.pending.value.proposal);
               && ConfigError(cfg).None? && (ConfigError(was).None? || was == EmptyBase(env, user))
               && r.value.review == Diff.Full(was, cfg, env.digestShort(cfg))
  {
    hide ConfigError, SortEntries, Diff.Compute, VerifiedBase, HeadOf;
    var (was, cfg) := (VerifiedBase(env, m.io.disk, user, base),
                       Prepare(env, m, user, sender, base, proposal, entropy).0.pending.value.proposal);
    ComputeIs(was, cfg, env.digestShort(cfg));
    BaseIs(env, m.io.disk, user, base);
  }

  lemma ComputeIs(was: SignedConfig, cfg: SignedConfig, digestShort: string)
    requires Diff.Compute(was, cfg, digestShort).Ok?
    ensures Diff.Compute(was, cfg, digestShort).review == Diff.Full(was, cfg, digestShort)
  {
    hide Diff.Full, Diff.Lines;
  }

  lemma BaseIs(env: Env, d: Disk, user: string, base: Option<ConfigFile>)
    ensures var was := VerifiedBase(env, d, user, base); ConfigError(was).None? || was == EmptyBase(env, user)
  {
    hide ConfigError, Sign, HeadOf;
  }

  /** The base put to Prepare if it verifies, or an empty list. */
  function ShownAgainst(env: Env, d: Disk, user: string, base: Option<ConfigFile>): SignedConfig {
    if base.Some? && Verifies(env, d, user, base.value) then base.value.signed
    else SignedConfig(SIGNED_SCHEMA_VERSION, env.uid, user, 0, 0, 0, [])
  }

  /** The review is drawn against the base put to Prepare if that verifies, and against nothing otherwise. */
  lemma BaseExact(env: Env, d: Disk, user: string, base: Option<ConfigFile>)
    ensures VerifiedBase(env, d, user, base) == ShownAgainst(env, d, user, base)
  {
    hide ConfigError, Sign;
  }

  lemma HexOf(e: Entry)
    requires ValidEntry(e)
    ensures AllLowerHex(e.launcher.sha256)
  {
  }

  lemma BaseReadable(env: Env, user: string, was: SignedConfig)
    requires ConfigError(was).None? || was == EmptyBase(env, user)
    ensures Ascending(was.entries) && Review.HexSums(was)
  {
    hide ConfigError, ValidEntry, AllLowerHex;
    if ConfigError(was).None? {
      ValidateExact(was);
      forall e | e in was.entries ensures AllLowerHex(e.launcher.sha256) { HexOf(e); }
    }
  }

  lemma ReviewShows(env: Env, s: System, e: Event)
    requires e.PrepareReq? && Outcome3(env, s, e).2.Reviewed? && Outcome3(env, s, e).2.prepared.txid.Some?
    ensures Step(env, s, e).m.pending.Some?
    ensures var cfg := Step(env, s, e).m.pending.value.proposal;
            && ConfigError(cfg).None?
            && Outcome3(env, s, e).2.prepared.review
               == Diff.Full(VerifiedBase(env, s.m.io.disk, e.user, e.base), cfg, env.digestShort(cfg))
            && Outcome3(env, s, e).2.prepared.review.hasChange
            && cfg == Document(env.uid, e.user, cfg.gen, e.proposal)
  {
    hide Prepare, Claim, Finish, Reduce, PurgeAll, ConfigError, Diff.Full, VerifiedBase, Document;
    PrepareShows(env, s.m, e.user, e.sender, e.base, e.proposal, e.entropy);
    PrepareFacts(env, s.m, e.user, e.sender, e.base, e.proposal, e.entropy);
  }

  predicate LastIs(issued: seq<Issue>, file: Option<ConfigFile>) {
    issued != [] && Some(issued[|issued| - 1].file) == file
  }

  /** The base verifies, and was handed out by then. */
  ghost predicate Genuine(env: Env, s: System, user: string, base: Option<ConfigFile>) {
    hide Verifies;
    base.Some? && HandedOut(s, base.value.signature) && Verifies(env, s.m.io.disk, user, base.value)
  }

  /** If the base put to Prepare `p` was a document handed out that verified then, it is the very document
      that event `n` replaces. */
  ghost predicate Replaces(env: Env, es: seq<Event>, p: nat, n: nat)
    requires p <= n < |es| && es[p].PrepareReq?
  {
    hide Run, Genuine;
    Genuine(env, Run(env, es[..p]), es[p].user, es[p].base) ==> LastIs(Run(env, es[..n]).issued, es[p].base)
  }

  lemma VerifiesByHead(env: Env, d: Disk, d': Disk, user: string, file: ConfigFile)
    requires Verifies(env, d, user, file) && HeadOf(d) == HeadOf(d')
    ensures Verifies(env, d', user, file)
  {
    hide ParseAndVerify;
  }

  lemma BaseIsReplaced(env: Env, es: seq<Event>, p: nat, n: nat, g: int)
    requires p <= n < |es| && es[p].PrepareReq? && SameHead(env, es, p, n, g)
    ensures Replaces(env, es, p, n)
  {
    hide Run, Verifies, HeadOf;
    var (s, t) := (Run(env, es[..p]), Run(env, es[..n]));
    var base := es[p].base;
    if Genuine(env, s, es[p].user, base) {
      var j :| 0 <= j < |s.issued| && s.issued[j].file.signature == base.value.signature;
      RecordsGrow(env, es, p, n);
      assert t.issued[j] == s.issued[j];
      VerifiesByHead(env, s.m.io.disk, t.m.io.disk, es[p].user, base.value);
      OnlyLastVerifies(env, es[..n], t.m.io.disk, es[p].user, base.value, j);
    }
  }

  /** The review shown spells out the document that is later signed: reading the review as a patch on
      the verified base gives that document's entries and delays, and it is not the base itself. The base
      is what is replaced: nothing else was handed out meanwhile. */
  lemma ReviewIsSigned(env: Env, es: seq<Event>, n: nat) returns (p: nat, was: SignedConfig)
    requires n < |es| && es[n].FinishReq? && ReplyTo(env, es, n).Issued?
    requires forall cfg :: '\n' !in env.digestShort(cfg)
    ensures p < n && es[p].PrepareReq? && ReplyTo(env, es, p).Reviewed?
    ensures Replaces(env, es, p, n) && was == ShownAgainst(env, Run(env, es[..p]).m.io.disk, es[p].user, es[p].base)
    ensures var (review, doc) := (ReplyTo(env, es, p).prepared.review, ReplyTo(env, es, n).file.signed);
            Review.ReadBack(Review.DocOf(was), review.rendered) == Review.DocOf(doc)
            && Review.DocOf(was) != Review.DocOf(doc)
  {
    hide Run, Step, Outcome3, ReplyTo, Diff.Full, VerifiedBase, ShownAgainst, Document, ConfigError, Kills,
         Review.ReadBack, Review.DocOf, SameHead, Replaces;
    var c, y;
    p, c, y := AuthorizeSafe(env, es, n);
    BaseIsReplaced(env, es, p, n, ReplyTo(env, es, n).file.signed.gen - 1);
    var s := Run(env, es[..p]);
    ReplyIs(env, es, p);
    ReviewShows(env, s, es[p]);
    var cfg := Step(env, s, es[p]).m.pending.value.proposal;
    var doc := ReplyTo(env, es, n).file.signed;
    was := VerifiedBase(env, s.m.io.disk, es[p].user, es[p].base);
    BaseIs(env, s.m.io.disk, es[p].user, es[p].base);
    BaseExact(env, s.m.io.disk, es[p].user, es[p].base);
    BaseReadable(env, es[p].user, was);
    BaseReadable(env, es[p].user, cfg);
    Review.RenderedRebuilds(was, cfg, env.digestShort(cfg));
    Review.HasChangeExact(was, cfg, env.digestShort(cfg));
    DocumentsAgree(env.uid, es[p].user, cfg.gen, doc.gen, es[p].proposal);
    DocDiffers(was, cfg);
  }

  lemma DocumentsAgree(uid: u32, user: string, g: u64, h: u64, proposal: Proposal)
    ensures Review.DocOf(Document(uid, user, g, proposal)) == Review.DocOf(Document(uid, user, h, proposal))
  {
    hide SortEntries, Diff.Index;
  }

  lemma DocDiffers(a: SignedConfig, b: SignedConfig)
    requires Ascending(a.entries) && Ascending(b.entries)
    requires a.entries != b.entries || a.preLaunchMs != b.preLaunchMs || a.postLaunchMs != b.postLaunchMs
    ensures Review.DocOf(a) != Review.DocOf(b)
  {
    hide Diff.Index, Ascending;
    if Review.DocOf(a) == Review.DocOf(b) { Review.IndexDetermines(a.entries, b.entries); }
  }
}
