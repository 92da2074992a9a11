/** What the service grants when nothing stands in the way: when a change is frozen, claimed and signed,
    and when its slot comes free. */
module Progress {
  import opened Text
  import opened Model
  import opened Disk
  import opened Store
  import opened Crypto
  import opened Engine
  import opened Protocol
  import opened Generations
  import opened Lineage
  import Diff
  import Review

  // --------------------------------------------------------------------- Prepare

  /** The transaction still has some of its time left. */
  predicate Leased(t: Txn, now: nat) { t.ttl > 0 && now < t.created + t.ttl }

  predicate Occupied(m: Machine) { m.pending.Some? && Leased(m.pending.value, m.now) }

  predicate Changes(was: SignedConfig, doc: SignedConfig) {
    was.entries != doc.entries || was.preLaunchMs != doc.preLaunchMs || was.postLaunchMs != doc.postLaunchMs
  }

  /** The proposal as the next document makes a valid one that can be reviewed. */
  predicate Admissible(env: Env, was: SignedConfig, doc: SignedConfig) {
    ValidConfig(doc) && Review.WithinCaps(was, doc, env.digestShort(doc))
  }

  /** Prepare answers Busy exactly while a transaction with time left holds the slot. Otherwise it freezes
      exactly the admissible proposals that change something, as the next document, under this connection;
      and of an admissible one that changes nothing it says so. */
  lemma PrepareWorks(env: Env, m: Machine, user: string, sender: string, base: Option<ConfigFile>,
                     proposal: Proposal, entropy: bool, head: Head)
    requires HeadOf(m.io.disk) == Done(head) && head.gen != GEN_MAX
    ensures var (m', r) := Prepare(env, m, user, sender, base, proposal, entropy);
            var was := ShownAgainst(env, m.io.disk, user, base);
            var doc := Document(env.uid, user, head.gen + 1, proposal);
            && (r == Refused(Busy) <==> Occupied(m))
            && (r.Done? && r.value.txid.Some? <==>
                  !Occupied(m) && Admissible(env, was, doc) && Changes(was, doc) && entropy)
            && (r.Done? && r.value.txid.None? <==> !Occupied(m) && Admissible(env, was, doc) && !Changes(was, doc))
            && (r.Refused? && r.error.BadDocument? <==> !Occupied(m) && !ValidConfig(doc))
            && (r.Refused? && r.error.BadDiff? <==>
                  !Occupied(m) && ValidConfig(doc) && !Review.WithinCaps(was, doc, env.digestShort(doc)))
            && (r == Refused(AuthError) <==> !Occupied(m) && Admissible(env, was, doc) && Changes(was, doc) && !entropy)
            && (r.Done? && r.value.txid.Some? ==>
                  && r.value == Prepared(Some(m.draws), Diff.Full(was, doc, env.digestShort(doc)))
                  && m' == m.(pending := Some(Txn(m.draws, user, head.key, sender, head.gen, doc, m.now, env.ttl,
                                                  false, None)), draws := m.draws + 1))
  {
    hide ConfigError, ValidConfig, VerifiedBase, ShownAgainst, Diff.Compute, Diff.Full, Review.WithinCaps, HeadOf,
         Document, Ascending;
    var was := VerifiedBase(env, m.io.disk, user, base);
    var doc := Document(env.uid, user, head.gen + 1, proposal);
    BaseExact(env, m.io.disk, user, base);
    BaseIs(env, m.io.disk, user, base);
    BaseReadable(env, user, was);
    ValidateExact(doc);
    if ConfigError(doc).None? {
      ValidAscending(doc);
      Review.CapsExact(was, doc, env.digestShort(doc));
      Review.HasChangeExact(was, doc, env.digestShort(doc));
    }
  }

  lemma ValidAscending(doc: SignedConfig)
    requires ValidConfig(doc)
    ensures Ascending(doc.entries)
  {
  }

  // ----------------------------------------------------------------------- claim

  /** A claim is granted exactly to the connection that prepared the transaction, while it has time left and is
      not claimed yet. A refused one takes the slot only from a transaction it names whose time has run out. */
  lemma ClaimWorks(m: Machine, sender: string, txid: nat, entropy: bool)
    ensures var (m', r) := Claim(m, sender, txid, entropy);
            var named := m.pending.Some? && m.pending.value.txid == txid;
            && (r.Done? <==> entropy && named && m.pending.value.sender == sender && !m.pending.value.authorizing
                             && Leased(m.pending.value, m.now))
            && (r.Done? ==>
                  var t := m.pending.value.(authorizing := true, checkId := Some(m.draws));
                  r.value == m.draws && m' == m.(pending := Some(t), draws := m.draws + 1))
            && (r == Refused(AuthError) <==> !entropy)
            && (r == Refused(NoSuchTransaction) <==> entropy && !named)
            && (r == Refused(Stale) <==> entropy && named && !Leased(m.pending.value, m.now))
            && (r == Refused(WrongSender) <==>
                  entropy && named && Leased(m.pending.value, m.now) && m.pending.value.sender != sender)
            && (r.Refused? ==>
                  m'.pending == if entropy && named && !Leased(m.pending.value, m.now) then None else m.pending)
  {
  }

  // ---------------------------------------------------------------- freeing the slot

  /** The slot comes free of a transaction with everything that ends it: a Reduce, an allowed Purge, its
      connection leaving, a no from its check, and its commit, whether or not that succeeds. */
  lemma SlotFreed(env: Env, s: System, e: Event)
    requires s.m.pending.Some? && !s.m.io.down
    requires var t := s.m.pending.value;
             || Kills(e, t.sender)
             || (e.CheckAnswer? && !e.yes && e.check in s.calls && !s.calls[e.check].approved
                 && s.calls[e.check].txid == t.txid)
             || (e.FinishReq? && e.check in s.calls && s.calls[e.check].approved && s.calls[e.check].txid == t.txid)
    ensures Step(env, s, e).m.pending == None
  {
    hide HeadOf, Prepare, Claim, Reduce, PurgeAll, Commit;
    ActFacts(env, s, e);
  }

  // ------------------------------------------------------------------ all of Authorize

  /** The four events of a change that nothing comes between, with the clock in between. */
  function Straight(user: string, sender: string, base: Option<ConfigFile>, proposal: Proposal, draws: nat,
                    before: nat, during: nat): seq<Event> {
    [PrepareReq(user, sender, base, proposal, true), Tick(before), ClaimReq(sender, draws, true), Tick(during),
     CheckAnswer(draws + 1, true), FinishReq(draws + 1)]
  }

  /** The machine, the calls in flight and the documents handed out; the other records are left aside. */
  predicate Now(s: System, m: Machine, calls: map<nat, Call>, issued: seq<Issue>) {
    s.m == m && s.calls == calls && s.issued == issued
  }

  lemma PrepareEvent(env: Env, s: System, user: string, sender: string, base: Option<ConfigFile>, proposal: Proposal,
                     m: Machine, p: Prepared)
    requires Prepare(env, s.m, user, sender, base, proposal, true) == (m, Done(p)) && !m.io.down
    ensures Now(Step(env, s, PrepareReq(user, sender, base, proposal, true)), m, s.calls, s.issued)
  {
    hide HeadOf, Prepare;
  }

  lemma PrepareGoes(env: Env, s: System, user: string, sender: string, base: Option<ConfigFile>, proposal: Proposal,
                    head: Head) returns (t: Txn)
    requires !Occupied(s.m) && !s.m.io.down && HeadOf(s.m.io.disk) == Done(head) && head.gen != GEN_MAX
    requires var was := ShownAgainst(env, s.m.io.disk, user, base);
             var doc := Document(env.uid, user, head.gen + 1, proposal);
             Admissible(env, was, doc) && Changes(was, doc)
    ensures t == Txn(s.m.draws, user, head.key, sender, head.gen, Document(env.uid, user, head.gen + 1, proposal),
                     s.m.now, env.ttl, false, None)
    ensures Now(Step(env, s, PrepareReq(user, sender, base, proposal, true)),
                s.m.(pending := Some(t), draws := s.m.draws + 1), s.calls, s.issued)
  {
    hide HeadOf, Prepare, Document, ShownAgainst, Admissible, Changes, Occupied, Step, Diff.Full, ValidConfig,
         Review.WithinCaps;
    t := Txn(s.m.draws, user, head.key, sender, head.gen, Document(env.uid, user, head.gen + 1, proposal), s.m.now,
             env.ttl, false, None);
    PrepareWorks(env, s.m, user, sender, base, proposal, true, head);
    var (m, r) := Prepare(env, s.m, user, sender, base, proposal, true);
    PrepareEvent(env, s, user, sender, base, proposal, m, r.value);
  }

  lemma TickGoes(env: Env, s: System, secs: nat)
    requires !s.m.io.down
    ensures Now(Step(env, s, Tick(secs)), s.m.(now := s.m.now + secs), s.calls, s.issued)
  {
  }

  lemma ClaimEvent(env: Env, s: System, t: Txn, m: Machine)
    requires Claim(s.m, t.sender, t.txid, true) == (m, Done(s.m.draws)) && !m.io.down
    ensures Now(Step(env, s, ClaimReq(t.sender, t.txid, true)), m,
                s.calls[s.m.draws := Call(t.txid, t.sender, false)], s.issued)
  {
    hide HeadOf, Claim;
  }

  lemma ClaimGoes(env: Env, s: System, t: Txn)
    requires s.m.pending == Some(t) && !t.authorizing && Leased(t, s.m.now) && !s.m.io.down
    ensures var check := s.m.draws;
            Now(Step(env, s, ClaimReq(t.sender, t.txid, true)),
                s.m.(pending := Some(t.(authorizing := true, checkId := Some(check))), draws := check + 1),
                s.calls[check := Call(t.txid, t.sender, false)], s.issued)
  {
    hide Claim, Step, HeadOf;
    ClaimWorks(s.m, t.sender, t.txid, true);
    ClaimEvent(env, s, t, Claim(s.m, t.sender, t.txid, true).0);
  }

  lemma YesGoes(env: Env, s: System, check: nat)
    requires check in s.calls && !s.calls[check].approved && !s.m.io.down
    ensures Now(Step(env, s, CheckAnswer(check, true)), s.m,
                s.calls[check := s.calls[check].(approved := true)], s.issued)
  {
  }

  lemma FinishGoes(env: Env, s: System, check: nat, t: Txn)
    requires check in s.calls && s.calls[check].approved && s.calls[check].txid == t.txid
    requires s.m.pending == Some(t) && t.authorizing && Leased(t, s.m.now) && t.baseGen != GEN_MAX
    requires t.proposal.gen == t.baseGen + 1 && ConfigError(t.proposal).None? && FitsLimit(env, t.proposal)
    requires Shape(s.m.io.disk) && Calm(s.m.io) && HeadOf(s.m.io.disk) == Done(Head(t.baseGen, t.enrollment))
    requires !HalfEnrolled(s.m.io.disk)
    ensures var s' := Step(env, s, FinishReq(check));
            |s'.issued| == |s.issued| + 1 && s'.issued[..|s.issued|] == s.issued
            && s'.issued[|s.issued|].file.signed == t.proposal && s'.issued[|s.issued|].check == Some(check)
  {
    hide HeadOf, Shape, HalfEnrolled, FitsLimit, Commit, ConfigError, Act;
    assert t.proposal.(gen := t.baseGen + 1) == t.proposal;
    FinishWorks(env, s.m, t);
    FinishIs(env, s.m, t);
    assert Act(env, s, FinishReq(check)) == Finished3(env, s, check) by { ActIs(env, s, check); }
  }

  function Finished3(env: Env, s: System, check: nat): (Machine, map<nat, Call>, Reply)
    requires check in s.calls
  {
    var (m, r) := Finish(env, s.m, s.calls[check].txid);
    (m, s.calls - {check}, match r case Done(f) => Issued(f) case Refused(x) => Failed(x))
  }

  lemma ActIs(env: Env, s: System, check: nat)
    requires check in s.calls && s.calls[check].approved
    ensures Act(env, s, FinishReq(check)) == Finished3(env, s, check)
  {
    hide Finish;
  }

  lemma CommitUp(env: Env, io: Io, user: string, newGen: u64, doc: SignedConfig)
    requires Calm(io) && Shape(io.disk) && Commit(env, io, user, newGen, doc).1.Done?
    ensures !Commit(env, io, user, newGen, doc).0.down
    ensures Commit(env, io, user, newGen, doc).1.value.signed == doc.(gen := newGen)
  {
    hide Shape, ConfigError, EnsureEnrolled, PublishGen, Sign;
    EnrollWorks(io, user);
    var (io1, st) := EnsureEnrolled(io, user);
    EnsureKeeps(io, user);
    assert SigningKey(io1.disk) == Ok(st.value.key);
    PublishKeeps(io1, user, newGen, st.value.key);
    var (io2, r) := PublishGen(io1, user, newGen, st.value.key);
    assert Commit(env, io, user, newGen, doc).0 == io2 && r.Ok?;
  }

  /** Without a fault a commit leaves the machine up, and what it hands out is the transaction's document. */
  lemma FinishIs(env: Env, m: Machine, t: Txn)
    requires m.pending == Some(t) && Calm(m.io) && Shape(m.io.disk) && Finish(env, m, t.txid).1.Done?
    requires t.proposal.gen == t.baseGen + 1
    ensures !Finish(env, m, t.txid).0.io.down && Finish(env, m, t.txid).1.value.signed == t.proposal
  {
    hide HeadOf, Shape, ConfigError, EnsureEnrolled, PublishGen, Sign;
    CommitUp(env, m.io, t.user, t.baseGen + 1, t.proposal);
  }

  lemma AdmissibleValid(env: Env, was: SignedConfig, doc: SignedConfig)
    requires Admissible(env, was, doc)
    ensures ConfigError(doc).None?
  {
    hide ConfigError, ValidConfig, Review.WithinCaps;
    ValidateExact(doc);
  }

  lemma DocumentGen(uid: u32, user: string, gen: u64, p: Proposal)
    ensures Document(uid, user, gen, p).gen == gen
  {
  }

  function Steps(env: Env, s: System, es: seq<Event>): System
    decreases |es|
  {
    hide Step;
    if es == [] then s else Steps(env, Step(env, s, es[0]), es[1..])
  }

  predicate Stages(env: Env, ss: seq<System>, es: seq<Event>) {
    hide Step;
    |ss| == |es| + 1 && forall i | 0 <= i < |es| :: ss[i + 1] == Step(env, ss[i], es[i])
  }

  lemma {:induction false} StepsAre(env: Env, ss: seq<System>, es: seq<Event>, k: nat)
    requires k <= |es| && Stages(env, ss, es)
    ensures Steps(env, ss[k], es[k..]) == ss[|es|]
    decreases |es| - k
  {
    hide Step;
    if k < |es| {
      StepsAre(env, ss, es, k + 1);
      assert es[k..][0] == es[k] && es[k..][1..] == es[k + 1..];
    }
  }

  /** A change that nothing comes between goes through: with no fault and no half-made enrollment, an admissible
      proposal that changes something, put up while the slot is free, claimed by the same connection, approved
      by that claim's check and finished within its time, is signed as the next document. */
  lemma AuthorizeWorks(env: Env, s: System, user: string, sender: string, base: Option<ConfigFile>,
                       proposal: Proposal, head: Head, before: nat, during: nat)
    requires !Occupied(s.m) && HeadOf(s.m.io.disk) == Done(head) && head.gen != GEN_MAX && before + during < env.ttl
    requires Shape(s.m.io.disk) && Calm(s.m.io) && !HalfEnrolled(s.m.io.disk)
    requires var was := ShownAgainst(env, s.m.io.disk, user, base);
             var doc := Document(env.uid, user, head.gen + 1, proposal);
             Admissible(env, was, doc) && Changes(was, doc) && FitsLimit(env, doc)
    ensures var issued := Steps(env, s, Straight(user, sender, base, proposal, s.m.draws, before, during)).issued;
            |issued| == |s.issued| + 1 && issued[..|s.issued|] == s.issued
            && issued[|s.issued|].file.signed == Document(env.uid, user, head.gen + 1, proposal)
  {
    hide HeadOf, Shape, HalfEnrolled, FitsLimit, Document, Admissible, Changes, ShownAgainst, ConfigError, Occupied,
         Step, Steps;
    var es := Straight(user, sender, base, proposal, s.m.draws, before, during);
    var t := PrepareGoes(env, s, user, sender, base, proposal, head);
    var s1 := Step(env, s, es[0]);
    TickGoes(env, s1, before);
    var s2 := Step(env, s1, es[1]);
    ClaimGoes(env, s2, t);
    var s3 := Step(env, s2, es[2]);
    TickGoes(env, s3, during);
    var s4 := Step(env, s3, es[3]);
    var check := s.m.draws + 1;
    YesGoes(env, s4, check);
    var s5 := Step(env, s4, es[4]);
    var doc := Document(env.uid, user, head.gen + 1, proposal);
    AdmissibleValid(env, ShownAgainst(env, s.m.io.disk, user, base), doc);
    DocumentGen(env.uid, user, head.gen + 1, proposal);
    FinishGoes(env, s5, check, t.(authorizing := true, checkId := Some(check)));
    var ss := [s, s1, s2, s3, s4, s5, Step(env, s5, es[5])];
    StepsAre(env, ss, es, 0);
    assert es[0..] == es;
  }
}
