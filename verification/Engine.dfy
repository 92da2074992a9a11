/** Signing and verification with ideal signatures: one verifies exactly the bytes it was made for,
    under the key that made it. */
module Crypto {
  import opened Text
  import opened Model
  import opened Canonical
  import Disk

  /** What the signature field holds: a signature by `key` over `bytes`, or something else, which may
      or may not be 128 hex characters. */
  datatype Signature = By(key: Disk.Key, bytes: seq<byte>) | Junk(wellFormed: bool)

  /** A parsed `config.json`; the display-only `pending` rows are never read. */
  datatype ConfigFile = ConfigFile(v: u32, signed: SignedConfig, signature: Signature)

  datatype VerifyError =
    | Json | Validation(e: ValidationError) | FileVersion | SignatureEncoding | BadSignature
    | UidMismatch | UserMismatch | GenMismatch

  datatype Verified = Good(cfg: SignedConfig) | Rejected(error: VerifyError)

  function Sign(key: Disk.Key, cfg: SignedConfig): Signature { By(key, CanonicalBytes(cfg)) }

  /** `json` is `None` when the bytes do not parse. */
  function ParseAndVerify(json: Option<ConfigFile>, key: Disk.Key, uid: u32, user: string, gen: u64): Verified {
    match json
    case None => Rejected(Json)
    case Some(file) =>
      if file.v != FILE_FORMAT_VERSION then Rejected(FileVersion)
      else if ConfigError(file.signed).Some? then Rejected(Validation(ConfigError(file.signed).value))
      else if file.signed.uid != uid then Rejected(UidMismatch)
      else if file.signed.user != user then Rejected(UserMismatch)
      else if file.signed.gen != gen then Rejected(GenMismatch)
      else if file.signature == Junk(false) then Rejected(SignatureEncoding)
      else if file.signature != Sign(key, file.signed) then Rejected(BadSignature)
      else Good(file.signed)
  }

  /** What verifies is exactly a valid document of this version, uid, user and generation, signed by this
      key, and it is returned as it was presented. */
  lemma VerifyExact(json: Option<ConfigFile>, key: Disk.Key, uid: u32, user: string, gen: u64)
    ensures var r := ParseAndVerify(json, key, uid, user, gen);
            && (r.Good? <==> json.Some? && Verifiable(json.value, key, uid, user, gen))
            && (r.Good? ==> r.cfg == json.value.signed)
  {
    hide ConfigError, ValidConfig, CanonicalBytes;
    if json.Some? { ValidateExact(json.value.signed); }
  }

  predicate Verifiable(file: ConfigFile, key: Disk.Key, uid: u32, user: string, gen: u64) {
    && file.v == FILE_FORMAT_VERSION && ValidConfig(file.signed)
    && file.signed.uid == uid && file.signed.user == user && file.signed.gen == gen
    && file.signature == By(key, CanonicalBytes(file.signed))
  }

  lemma {:induction false} Utf8Bound(s: string)
    ensures Len(s) <= 4 * |s|
  {
    if s != [] { Utf8Bound(s[1..]); }
  }

  lemma ValidFits(cfg: SignedConfig)
    requires ValidConfig(cfg)
    ensures Fits(cfg)
  {
    forall e | e in cfg.entries ensures FitsEntry(e) {
      assert ValidEntry(e);
      Utf8Bound(e.launcher.sha256);
    }
  }

  /** Whoever holds a genuine signature can only have it over the document it was made for. */
  lemma SignatureBinds(a: SignedConfig, b: SignedConfig, ka: Disk.Key, kb: Disk.Key)
    requires ValidConfig(a) && ValidConfig(b) && Sign(ka, a) == Sign(kb, b)
    ensures a == b && ka == kb
  {
    hide CanonicalBytes, ValidConfig, Fits;
    ValidFits(a);
    ValidFits(b);
    CanonicalInjective(a, b);
  }
}

/** The authority engine: Prepare, Authorize, Reduce and Purge for one uid, under its lock. */
module Engine {
  import opened Text
  import opened Model
  import opened Disk
  import opened Store
  import opened Crypto
  import Diff

  const GEN_MAX := 0xFFFF_FFFF_FFFF_FFFF

  /** What the engine is configured with, and the library functions it calls: the size of a
      serialized document, and the short digest shown in the review's header. */
  datatype Env = Env(uid: u32, ttl: nat, docLimit: nat, sizeOf: ConfigFile -> nat, digestShort: SignedConfig -> string)

  datatype Txn = Txn(txid: nat, user: string, enrollment: Option<Key>, sender: string, baseGen: u64,
                     proposal: SignedConfig, created: nat, ttl: nat, authorizing: bool, checkId: Option<nat>)

  datatype ReduceOp = Disable(id: string) | Drop(id: string)

  datatype EngineError =
    | Busy | NotEnrolled | AuthDenied | AuthError | Stale | NoSuchTransaction | WrongSender
    | BadDocument(e: ValidationError) | BadDiff(d: Diff.DiffError) | BadStore(s: StoreError)
    | BadBase(v: VerifyError) | BadOp(id: string) | GenExhausted | DocumentTooLarge(n: nat)

  datatype Outcome<+T> = Done(value: T) | Refused(error: EngineError)

  datatype Prepared = Prepared(txid: Option<nat>, review: Diff.Review)

  /** The engine's memory and disk: the one open transaction, the clock, and how many random ids have
      been drawn. */
  datatype Machine = Machine(io: Io, pending: Option<Txn>, now: nat, draws: nat)

  // ------------------------------------------------------------------- reading

  predicate Expired(t: Txn, now: nat) { (if now < t.created then 0 else now - t.created) >= t.ttl }

  datatype Head = Head(gen: u64, key: Option<Key>)

  function HeadOf(d: Disk): Outcome<Head> {
    match Current(d)
    case Err(e) => Refused(BadStore(e))
    case Ok(None) => Done(Head(0, None))
    case Ok(Some(st)) => Done(Head(st.gen, Some(st.key)))
  }

  function EmptyBase(env: Env, user: string): SignedConfig {
    SignedConfig(SIGNED_SCHEMA_VERSION, env.uid, user, 0, 0, 0, [])
  }

  /** The base the review is drawn against: what verifies, or nothing. */
  function VerifiedBase(env: Env, d: Disk, user: string, base: Option<ConfigFile>): SignedConfig {
    match HeadOf(d)
    case Done(Head(gen, Some(key))) =>
      (match ParseAndVerify(base, key, env.uid, user, gen) case Good(cfg) => cfg
       case Rejected(_) => EmptyBase(env, user))
    case _ => EmptyBase(env, user)
  }

  // ---------------------------------------------------------- what each step does

  /** `prepare`, past the one-per-uid check. */
  function Freeze(env: Env, m: Machine, user: string, sender: string, base: Option<ConfigFile>,
                  proposal: Proposal, entropy: bool): (Machine, Outcome<Prepared>)
  {
    match HeadOf(m.io.disk)
    case Refused(e) => (m, Refused(e))
    case Done(head) =>
      if head.gen == GEN_MAX then (m, Refused(GenExhausted)) else
      var cfg := Document(env.uid, user, head.gen + 1, proposal);
      if ConfigError(cfg).Some? then (m, Refused(BadDocument(ConfigError(cfg).value))) else
      match Diff.Compute(VerifiedBase(env, m.io.disk, user, base), cfg, env.digestShort(cfg))
      case Refused(e) => (m, Refused(BadDiff(e)))
      case Ok(review) =>
        if !review.hasChange then (m, Done(Prepared(None, review)))
        else if !entropy then (m, Refused(AuthError))
        else
          var t := Txn(m.draws, user, head.key, sender, head.gen, cfg, m.now, env.ttl, false, None);
          (m.(pending := Some(t), draws := m.draws + 1), Done(Prepared(Some(m.draws), review)))
  }

  function Prepare(env: Env, m: Machine, user: string, sender: string, base: Option<ConfigFile>,
                   proposal: Proposal, entropy: bool): (Machine, Outcome<Prepared>)
  {
    if m.pending.Some? && !Expired(m.pending.value, m.now) then (m, Refused(Busy))
    else Freeze(env, m.(pending := None), user, sender, base, proposal, entropy)
  }

  /** Authorize, phase 1: claim the transaction; the result is the id of the check to run. */
  function Claim(m: Machine, sender: string, txid: nat, entropy: bool): (Machine, Outcome<nat>) {
    if !entropy then (m, Refused(AuthError)) else
    var check := m.draws;
    var m1 := m.(draws := m.draws + 1);
    match m.pending
    case None => (m1, Refused(NoSuchTransaction))
    case Some(t) =>
      if t.txid != txid then (m1, Refused(NoSuchTransaction))
      else if Expired(t, m.now) then (m1.(pending := None), Refused(Stale))
      else if t.sender != sender then (m1, Refused(WrongSender))
      else if t.authorizing then (m1, Refused(Busy))
      else (m1.(pending := Some(t.(authorizing := true, checkId := Some(check)))), Done(check))
  }

  /** Phase 2, answered no or not at all: free the slot if it is still this transaction's. */
  function Invalidate(m: Machine, txid: nat): Machine {
    if m.pending.Some? && m.pending.value.txid == txid then m.(pending := None) else m
  }

  /** Sign, publish the new generation durably, and only then hand the document out. */
  function Commit(env: Env, io: Io, user: string, newGen: u64, doc: SignedConfig): (Io, Outcome<ConfigFile>) {
    var cfg := doc.(gen := newGen);
    if ConfigError(cfg).Some? then (io, Refused(BadDocument(ConfigError(cfg).value))) else
    var (io1, st) := EnsureEnrolled(io, user);
    if st.Err? then (io1, Refused(BadStore(st.error))) else
    match SigningKey(io1.disk)
    case Err(e) => (io1, Refused(BadStore(e)))
    case Ok(key) =>
      var file := ConfigFile(FILE_FORMAT_VERSION, cfg, Sign(key, cfg));
      if env.sizeOf(file) > env.docLimit then (io1, Refused(DocumentTooLarge(env.sizeOf(file)))) else
      var (io2, r) := PublishGen(io1, user, newGen, key);
      if r.Err? then (io2, Refused(BadStore(r.error))) else (io2, Done(file))
  }

  /** Phase 3: only a transaction still live, claimed and on the generation and enrollment it was
      frozen against is committed. Another transaction in the slot is left alone. */
  function Finish(env: Env, m: Machine, txid: nat): (Machine, Outcome<ConfigFile>) {
    match m.pending
    case None => (m, Refused(Stale))
    case Some(t) =>
      if t.txid != txid then (m, Refused(Stale))
      else
        var m1 := m.(pending := None);
        if !t.authorizing || Expired(t, m.now) then (m1, Refused(Stale))
        else
          match HeadOf(m.io.disk)
          case Refused(e) => (m1, Refused(e))
          case Done(head) =>
            if head.gen != t.baseGen || head.key != t.enrollment then (m1, Refused(Stale))
            else if t.baseGen == GEN_MAX then (m1, Refused(GenExhausted))
            else
              var (io1, r) := Commit(env, m.io, t.user, t.baseGen + 1, t.proposal);
              (m1.(io := io1), r)
  }

  function FirstAt(es: seq<Entry>, id: string): (r: Option<nat>)
    ensures r.Some? ==> r.value < |es| && es[r.value].id == id
  {
    if es == [] then None
    else if es[0].id == id then Some(0)
    else match FirstAt(es[1..], id) case Some(i) => Some(i + 1) case None => None
  }

  function Retain(es: seq<Entry>, id: string): seq<Entry> {
    if es == [] then [] else (if es[0].id == id then [] else [es[0]]) + Retain(es[1..], id)
  }

  function ApplyOp(es: seq<Entry>, op: ReduceOp): Outcome<seq<Entry>> {
    match op
    case Disable(id) =>
      (match FirstAt(es, id)
       case Some(i) => Done(es[i := es[i].(enabled := false)])
       case None => Refused(BadOp(id)))
    case Drop(id) => if |Retain(es, id)| == |es| then Refused(BadOp(id)) else Done(Retain(es, id))
  }

  function ApplyOps(es: seq<Entry>, ops: seq<ReduceOp>): Outcome<seq<Entry>>
    decreases |ops|
  {
    if ops == [] then Done(es)
    else match ApplyOp(es, ops[0]) case Done(es1) => ApplyOps(es1, ops[1..]) case Refused(e) => Refused(e)
  }

  function ReducedDoc(env: Env, user: string, gen: u64, base: SignedConfig, es: seq<Entry>): SignedConfig {
    SignedConfig(SIGNED_SCHEMA_VERSION, env.uid, user, gen, base.preLaunchMs, base.postLaunchMs, es)
  }

  function ReduceIo(env: Env, io: Io, user: string, base: Option<ConfigFile>, ops: seq<ReduceOp>)
    : (Io, Outcome<ConfigFile>) {
    match HeadOf(io.disk)
    case Refused(e) => (io, Refused(e))
    case Done(Head(_, None)) => (io, Refused(NotEnrolled))
    case Done(Head(gen, Some(key))) =>
      match ParseAndVerify(base, key, env.uid, user, gen)
      case Rejected(e) => (io, Refused(BadBase(e)))
      case Good(cfg) =>
        match ApplyOps(cfg.entries, ops)
        case Refused(e) => (io, Refused(e))
        case Done(es) =>
          if gen == GEN_MAX then (io, Refused(GenExhausted))
          else Commit(env, io, user, gen + 1, ReducedDoc(env, user, gen + 1, cfg, es))
  }

  /** Reduce takes the slot from whatever transaction holds it, whether or not it succeeds. */
  function Reduce(env: Env, m: Machine, user: string, base: Option<ConfigFile>, ops: seq<ReduceOp>)
    : (Machine, Outcome<ConfigFile>) {
    var (io1, r) := ReduceIo(env, m.io, user, base, ops);
    (m.(pending := None, io := io1), r)
  }

  /** Purge, once the caller's own check has said yes. */
  function PurgeAll(m: Machine): (Machine, Outcome<()>) {
    var (io1, r) := Purge(m.io);
    (m.(pending := None, io := io1), if r.Ok? then Done(()) else Refused(BadStore(r.error)))
  }

  function InvalidateSender(m: Machine, sender: string): Machine {
    if m.pending.Some? && m.pending.value.sender == sender then m.(pending := None) else m
  }

  // ----------------------------------------------------------------- the engine

  class Authority {
    const env: Env
    const store: KeyStore
    var pending: Option<Txn>
    var now: nat
    var draws: nat

    constructor (env: Env, store: KeyStore)
      ensures this.env == env && this.store == store
      ensures State() == Machine(store.io, None, 0, 0)
    {
      this.env := env;
      this.store := store;
      pending := None;
      now := 0;
      draws := 0;
    }

    function State(): Machine
      reads this, store
    {
      Machine(store.io, pending, now, draws)
    }

    method NewId() returns (id: nat)
      modifies this`draws
      ensures id == old(draws) && draws == old(draws) + 1
    {
      id := draws;
      draws := draws + 1;
    }

    method HandlePrepare(user: string, sender: string, base: Option<ConfigFile>, proposal: Proposal, entropy: bool)
      returns (r: Outcome<Prepared>)
      modifies this
      ensures (State(), r) == Prepare(env, old(State()), user, sender, base, proposal, entropy)
    {
      hide ConfigError, Diff.Compute, SortEntries, ParseAndVerify;
      if pending.Some? {
        if !Expired(pending.value, now) { return Refused(Busy); }
        pending := None;
      }
      var head := HeadOf(store.io.disk);
      if head.Refused? { return Refused(head.error); }
      var Head(gen, key) := head.value;
      if gen == GEN_MAX { return Refused(GenExhausted); }
      var against := VerifiedBase(env, store.io.disk, user, base);
      var cfg := Document(env.uid, user, gen + 1, proposal);
      var bad := Validate(cfg);
      if bad.Some? { return Refused(BadDocument(bad.value)); }
      var diff := Diff.ComputeReview(against, cfg, env.digestShort(cfg));
      if diff.Refused? { return Refused(BadDiff(diff.error)); }
      if !diff.review.hasChange { return Done(Prepared(None, diff.review)); }
      if !entropy { return Refused(AuthError); }
      var txid := NewId();
      pending := Some(Txn(txid, user, key, sender, gen, cfg, now, env.ttl, false, None));
      return Done(Prepared(Some(txid), diff.review));
    }

    method HandleClaim(sender: string, txid: nat, entropy: bool) returns (r: Outcome<nat>)
      modifies this
      ensures (State(), r) == Claim(old(State()), sender, txid, entropy)
    {
      if !entropy { return Refused(AuthError); }
      var check := NewId();
      if pending.None? { return Refused(NoSuchTransaction); }
      var t := pending.value;
      if t.txid != txid { return Refused(NoSuchTransaction); }
      if Expired(t, now) {
        pending := None;
        return Refused(Stale);
      }
      if t.sender != sender { return Refused(WrongSender); }
      if t.authorizing { return Refused(Busy); }
      pending := Some(t.(authorizing := true, checkId := Some(check)));
      return Done(check);
    }

    method HandleCheckFailed(txid: nat)
      modifies this
      ensures State() == Invalidate(old(State()), txid)
    {
      if pending.Some? && pending.value.txid == txid { pending := None; }
    }

    method CommitDoc(user: string, newGen: u64, doc: SignedConfig) returns (r: Outcome<ConfigFile>)
      modifies store
      ensures (store.io, r) == Commit(env, old(store.io), user, newGen, doc)
    {
      hide ConfigError, EnsureEnrolled, PublishGen, Sign;
      var cfg := doc.(gen := newGen);
      var bad := Validate(cfg);
      if bad.Some? { return Refused(BadDocument(bad.value)); }
      var st := store.Enroll(user);
      if st.Err? { return Refused(BadStore(st.error)); }
      var key := SigningKey(store.io.disk);
      if key.Err? { return Refused(BadStore(key.error)); }
      var file := ConfigFile(FILE_FORMAT_VERSION, cfg, Sign(key.value, cfg));
      if env.sizeOf(file) > env.docLimit { return Refused(DocumentTooLarge(env.sizeOf(file))); }
      var published := store.Publish(user, newGen, key.value);
      if published.Err? { return Refused(BadStore(published.error)); }
      return Done(file);
    }

    method HandleFinish(txid: nat) returns (r: Outcome<ConfigFile>)
      modifies this, store
      ensures (State(), r) == Finish(env, old(State()), txid)
    {
      hide Commit;
      var taken := pending;
      pending := None;
      match taken {
        case None => return Refused(Stale);
        case Some(t) =>
          if t.txid != txid {
            pending := taken;
            return Refused(Stale);
          }
          if !t.authorizing || Expired(t, now) { return Refused(Stale); }
          var head := HeadOf(store.io.disk);
          if head.Refused? { return Refused(head.error); }
          if head.value.gen != t.baseGen || head.value.key != t.enrollment { return Refused(Stale); }
          if t.baseGen == GEN_MAX { return Refused(GenExhausted); }
          r := CommitDoc(t.user, t.baseGen + 1, t.proposal);
      }
    }

    /** The operations one after another, editing the entries in place. */
    method ReduceEntries(es: seq<Entry>, ops: seq<ReduceOp>) returns (r: Outcome<seq<Entry>>)
      ensures r == ApplyOps(es, ops)
    {
      var entries := es;
      for i := 0 to |ops|
        invariant ApplyOps(es, ops) == ApplyOps(entries, ops[i..])
      {
        assert ops[i..][1..] == ops[i + 1..];
        match ApplyOp(entries, ops[i]) {
          case Done(next) => entries := next;
          case Refused(e) => return Refused(e);
        }
      }
      return Done(entries);
    }

    method HandleReduce(user: string, base: Option<ConfigFile>, ops: seq<ReduceOp>) returns (r: Outcome<ConfigFile>)
      modifies this, store
      ensures (State(), r) == Reduce(env, old(State()), user, base, ops)
    {
      hide Commit, ParseAndVerify, ApplyOps;
      pending := None;
      var head := HeadOf(store.io.disk);
      if head.Refused? { return Refused(head.error); }
      if head.value.key.None? { return Refused(NotEnrolled); }
      var gen := head.value.gen;
      var verified := ParseAndVerify(base, head.value.key.value, env.uid, user, gen);
      if verified.Rejected? { return Refused(BadBase(verified.error)); }
      var entries := ReduceEntries(verified.cfg.entries, ops);
      if entries.Refused? { return Refused(entries.error); }
      if gen == GEN_MAX { return Refused(GenExhausted); }
      r := CommitDoc(user, gen + 1, ReducedDoc(env, user, gen + 1, verified.cfg, entries.value));
    }

    method HandlePurge() returns (r: Outcome<()>)
      modifies this, store
      ensures (State(), r) == PurgeAll(old(State()))
    {
      hide Purge;
      pending := None;
      var done := store.Revoke();
      r := if done.Ok? then Done(()) else Refused(BadStore(done.error));
    }

    method HandleDisconnect(sender: string)
      modifies this
      ensures State() == InvalidateSender(old(State()), sender)
    {
      if pending.Some? && pending.value.sender == sender { pending := None; }
    }
  }
}
