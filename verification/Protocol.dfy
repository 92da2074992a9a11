/** The authority over whole runs: any interleaving of requests, check results, disconnects, clock
    ticks and crashes. Authorize is three steps, so anything may come between them. */
module Protocol {
  import opened Text
  import opened Model
  import opened Disk
  import opened Store
  import opened Crypto
  import opened Engine
  import Diff

  datatype Event =
    | PrepareReq(user: string, sender: string, base: Option<ConfigFile>, proposal: Proposal, entropy: bool)
    | ClaimReq(sender: string, txid: nat, entropy: bool)
    | CheckAnswer(check: nat, yes: bool)
    | FinishReq(check: nat)
    | ReduceReq(user: string, base: Option<ConfigFile>, ops: seq<ReduceOp>)
    | PurgeReq(allowed: bool)
    | Disconnect(sender: string)
    | Tick(secs: nat)
    | World(script: seq<Fault>)

  datatype Reply =
    | Reviewed(prepared: Prepared) | Claimed(check: nat) | Issued(file: ConfigFile) | Purged
    | Failed(error: EngineError) | Silent

  /** An Authorize call past its claim: whose check it waits for, and whether that has said yes. */
  datatype Call = Call(txid: nat, sender: string, approved: bool)

  /** An event, its reply, and the clock and committed generation it met. */
  datatype Logged = Logged(event: Event, reply: Reply, now: nat, head: Outcome<Head>)

  /** What Prepare froze, when, and against which generation. */
  datatype Frozen = Frozen(at: nat, user: string, sender: string, cfg: SignedConfig, created: nat, head: Head)

  datatype ClaimRecord = ClaimRecord(at: nat, txid: nat, sender: string)

  /** A document handed out, and the check that let it be, if one did. */
  datatype Issue = Issue(file: ConfigFile, check: Option<nat>)

  /** The service and its calls in flight, and what has happened so far. */
  datatype System = System(
    m: Machine, calls: map<nat, Call>,
    log: seq<Logged>, prepared: map<nat, Frozen>, claims: map<nat, ClaimRecord>, approvals: map<nat, nat>,
    issued: seq<Issue>, floor: nat)

  function Start(): System {
    System(Machine(Io(Fresh(), [], false), None, 0, 0), map[], [], map[], map[], map[], [], 0)
  }

  /** What the service does with an event: its next state, its calls in flight, its reply. */
  function Act(env: Env, s: System, e: Event): (Machine, map<nat, Call>, Reply) {
    hide Prepare, Claim, Finish, Reduce, PurgeAll, Invalidate, InvalidateSender;
    match e
    case PrepareReq(user, sender, base, proposal, entropy) =>
      var (m, r) := Prepare(env, s.m, user, sender, base, proposal, entropy);
      (m, s.calls, match r case Done(p) => Reviewed(p) case Refused(x) => Failed(x))
    case ClaimReq(sender, txid, entropy) =>
      var (m, r) := Claim(s.m, sender, txid, entropy);
      (match r
       case Done(check) => (m, s.calls[check := Call(txid, sender, false)], Claimed(check))
       case Refused(x) => (m, s.calls, Failed(x)))
    case CheckAnswer(check, yes) =>
      if check !in s.calls || s.calls[check].approved then (s.m, s.calls, Silent)
      else if yes then (s.m, s.calls[check := s.calls[check].(approved := true)], Silent)
      else (Invalidate(s.m, s.calls[check].txid), s.calls - {check}, Failed(AuthDenied))
    case FinishReq(check) =>
      if check !in s.calls || !s.calls[check].approved then (s.m, s.calls, Silent)
      else
        var (m, r) := Finish(env, s.m, s.calls[check].txid);
        (m, s.calls - {check}, match r case Done(f) => Issued(f) case Refused(x) => Failed(x))
    case ReduceReq(user, base, ops) =>
      var (m, r) := Reduce(env, s.m, user, base, ops);
      (m, s.calls, match r case Done(f) => Issued(f) case Refused(x) => Failed(x))
    case PurgeReq(allowed) =>
      if !allowed then (s.m, s.calls, Failed(AuthDenied))
      else
        var (m, r) := PurgeAll(s.m);
        (m, s.calls, match r case Done(_) => Purged case Refused(x) => Failed(x))
    case Disconnect(sender) => (InvalidateSender(s.m, sender), s.calls, Silent)
    case Tick(secs) => (s.m.(now := s.m.now + secs), s.calls, Silent)
    case World(script) => (s.m.(io := s.m.io.(script := script)), s.calls, Silent)
  }

  /** A crash takes the service's memory and every call in flight; nothing is replied. */
  function Outcome3(env: Env, s: System, e: Event): (Machine, map<nat, Call>, Reply) {
    var (m, calls, reply) := Act(env, s, e);
    if m.io.down then (m.(io := m.io.(down := false), pending := None), map[], Silent) else (m, calls, reply)
  }

  function Freezing(at: nat, user: string, sender: string, t: Txn, now: nat): Frozen {
    Frozen(at, user, sender, t.proposal, now, Head(t.baseGen, t.enrollment))
  }

  function Step(env: Env, s: System, e: Event): System {
    hide Outcome3, HeadOf;
    var (m, calls, reply) := Outcome3(env, s, e);
    var at := |s.log|;
    System(
      m, calls, s.log + [Logged(e, reply, s.m.now, HeadOf(s.m.io.disk))],
      if reply.Reviewed? && reply.prepared.txid.Some? && m.pending.Some? && e.PrepareReq?
      then s.prepared[reply.prepared.txid.value := Freezing(at, e.user, e.sender, m.pending.value, s.m.now)]
      else s.prepared,
      if reply.Claimed? && e.ClaimReq? then s.claims[reply.check := ClaimRecord(at, e.txid, e.sender)] else s.claims,
      if e.CheckAnswer? && e.yes && e.check in s.calls && !s.calls[e.check].approved
      then s.approvals[e.check := at] else s.approvals,
      if reply.Issued? then s.issued + [Issue(reply.file, if e.FinishReq? then Some(e.check) else None)] else s.issued,
      if reply.Purged? then m.io.disk.nextDraw else s.floor)
  }

  /** The system once the events `es` have happened. */
  function Run(env: Env, es: seq<Event>): (s: System)
    ensures |s.log| == |es|
    decreases |es|, 1
  {
    if es == [] then Start() else Latest(env, es)
  }

  function Latest(env: Env, es: seq<Event>): (s: System)
    requires es != []
    ensures |s.log| == |es|
    decreases |es|, 0
  {
    hide HeadOf, Outcome3;
    Step(env, Run(env, es[..|es| - 1]), es[|es| - 1])
  }

  // ------------------------------------------------- what the records are worth

  /** An event that takes the slot from a transaction of `sender`, whatever else it does. */
  predicate Kills(e: Event, sender: string) {
    e.ReduceReq? || (e.PurgeReq? && e.allowed) || (e.Disconnect? && e.sender == sender)
  }

  predicate NoneKilled(log: seq<Logged>, sender: string, from: nat) {
    forall i | from < i < |log| :: !Kills(log[i].event, sender)
  }

  predicate PreparedOk(env: Env, s: System) {
    forall x | x in s.prepared ::
      var f := s.prepared[x];
      && x < s.m.draws && f.at < |s.log|
      && s.log[f.at].event.PrepareReq? && s.log[f.at].event.user == f.user && s.log[f.at].event.sender == f.sender
      && s.log[f.at].reply.Reviewed? && s.log[f.at].reply.prepared.txid == Some(x)
      && s.log[f.at].now == f.created && s.log[f.at].head == Done(f.head)
      && f.cfg == Document(env.uid, f.user, f.cfg.gen, s.log[f.at].event.proposal)
  }

  predicate ClaimsOk(s: System) {
    forall k | k in s.claims ::
      var c := s.claims[k];
      && k < s.m.draws && c.at < |s.log| && c.txid < s.m.draws
      && s.log[c.at].event.ClaimReq? && s.log[c.at].event.txid == c.txid && s.log[c.at].event.sender == c.sender
      && s.log[c.at].reply == Claimed(k)
  }

  predicate ApprovalsOk(s: System) {
    forall k | k in s.approvals ::
      var a := s.approvals[k];
      k in s.claims && s.claims[k].at < a < |s.log| && s.log[a].event == CheckAnswer(k, true)
  }

  predicate CallsOk(s: System) {
    forall k | k in s.calls ::
      && k in s.claims && s.claims[k].txid == s.calls[k].txid && s.claims[k].sender == s.calls[k].sender
      && (s.calls[k].approved ==> k in s.approvals)
  }

  /** The open transaction is the one frozen under its id, nothing has taken the slot since, and at
      most one claim has ever been granted on it. */
  predicate PendingOk(env: Env, s: System) {
    s.m.pending.Some? ==>
      var t := s.m.pending.value;
      && t.txid in s.prepared
      && var f := s.prepared[t.txid];
         && t.sender == f.sender && t.user == f.user && t.proposal == f.cfg && t.created == f.created
         && Head(t.baseGen, t.enrollment) == f.head && t.ttl == env.ttl && NoneKilled(s.log, f.sender, f.at)
         && (t.authorizing ==> t.checkId.Some? && t.checkId.value in s.claims
                               && s.claims[t.checkId.value].at > f.at && s.claims[t.checkId.value].sender == t.sender)
         && (forall k | k in s.claims && s.claims[k].txid == t.txid :: t.authorizing && t.checkId == Some(k))
  }

  /** The transaction document `j` was issued for, if it was for one. */
  function IssuedFor(s: System, j: nat): Option<nat>
    requires j < |s.issued|
  {
    match s.issued[j].check
    case Some(k) => if k in s.claims then Some(s.claims[k].txid) else None
    case None => None
  }

  predicate IssuedOk(s: System) {
    && (forall j | 0 <= j < |s.issued| && s.issued[j].check.Some? :: s.issued[j].check.value in s.claims)
    && (forall j | 0 <= j < |s.issued| :: s.m.pending.Some? ==> IssuedFor(s, j) != Some(s.m.pending.value.txid))
    && (forall i, j | 0 <= i < j < |s.issued| && IssuedFor(s, i).Some? :: IssuedFor(s, i) != IssuedFor(s, j))
  }

  ghost predicate Records(env: Env, s: System) {
    PreparedOk(env, s) && ClaimsOk(s) && ApprovalsOk(s) && CallsOk(s) && PendingOk(env, s) && IssuedOk(s)
  }

  // ------------------------------------------------- what each event may do to the slot

  predicate Froze(env: Env, m: Machine, user: string, sender: string, proposal: Proposal, m': Machine,
                  r: Outcome<Prepared>) {
    && m'.io == m.io && m'.now == m.now
    && (r.Done? && r.value.txid.Some? ==>
          && r.value.txid.value == m.draws && m'.draws == m.draws + 1 && m'.pending.Some?
          && var t := m'.pending.value;
             && t.txid == m.draws && t.user == user && t.sender == sender && t.created == m.now
             && t.ttl == env.ttl && !t.authorizing && HeadOf(m.io.disk) == Done(Head(t.baseGen, t.enrollment))
             && t.proposal == Document(env.uid, user, t.proposal.gen, proposal))
    && (!(r.Done? && r.value.txid.Some?) ==> m'.draws == m.draws && (m'.pending == None || m' == m))
  }

  lemma PrepareFacts(env: Env, m: Machine, user: string, sender: string, base: Option<ConfigFile>,
                     proposal: Proposal, entropy: bool)
    ensures var (m', r) := Prepare(env, m, user, sender, base, proposal, entropy);
            Froze(env, m, user, sender, proposal, m', r)
  {
    hide Diff.Compute, ConfigError, HeadOf, VerifiedBase, SortEntries;
  }

  predicate Took(m: Machine, sender: string, txid: nat, m': Machine, r: Outcome<nat>) {
    && m'.io == m.io && m'.now == m.now && m.draws <= m'.draws
    && (r.Done? ==>
          && r.value == m.draws && m'.draws == m.draws + 1 && m.pending.Some?
          && var t := m.pending.value;
             && t.txid == txid && t.sender == sender && !t.authorizing && !Expired(t, m.now)
             && m'.pending == Some(t.(authorizing := true, checkId := Some(m.draws))))
    && (r.Refused? ==> m'.pending == None || m'.pending == m.pending)
  }

  lemma ClaimFacts(m: Machine, sender: string, txid: nat, entropy: bool)
    ensures var (m', r) := Claim(m, sender, txid, entropy); Took(m, sender, txid, m', r)
  {
  }

  predicate Finished(m: Machine, txid: nat, m': Machine, r: Outcome<ConfigFile>) {
    && m'.draws == m.draws && m'.now == m.now && (m'.pending == None || m'.pending == m.pending)
    && (m.pending.Some? && m.pending.value.txid != txid ==> m' == m && r.Refused?)
    && (r.Done? ==> m.pending.Some? && m'.pending == None
                    && var t := m.pending.value;
                       t.txid == txid && t.authorizing && !Expired(t, m.now)
                       && HeadOf(m.io.disk) == Done(Head(t.baseGen, t.enrollment)))
  }

  lemma FinishFacts(env: Env, m: Machine, txid: nat)
    ensures var (m', r) := Finish(env, m, txid); Finished(m, txid, m', r)
  {
    hide Commit, HeadOf;
  }

  /** What can happen to the slot, the random draws and the calls in flight, whatever the event. */
  lemma ActFacts(env: Env, s: System, e: Event)
    ensures var (m, calls, reply) := Outcome3(env, s, e);
            && s.m.draws <= m.draws
            && (reply.Claimed? ==> e.ClaimReq?) && (reply.Reviewed? ==> e.PrepareReq?)
            && (reply.Issued? ==> e.FinishReq? || e.ReduceReq?)
            && (forall k | k in calls :: k in s.calls || reply == Claimed(k))
            && (e.ReduceReq? || (e.PurgeReq? && e.allowed) ==> m.pending == None)
            && (e.Disconnect? && m.pending.Some? ==> m.pending.value.sender != e.sender)
            && (m.pending == None || m.pending == s.m.pending || reply.Claimed?
                || (reply.Reviewed? && reply.prepared.txid.Some?))
            && (reply.Issued? ==> m.pending == None)
  {
    hide HeadOf, Prepare, Claim, Finish, Reduce, PurgeAll;
    match e
    case PrepareReq(user, sender, base, proposal, entropy) =>
      PrepareFacts(env, s.m, user, sender, base, proposal, entropy);
    case FinishReq(check) => if check in s.calls { FinishFacts(env, s.m, s.calls[check].txid); }
    case ClaimReq(sender, txid, entropy) =>
      ClaimFacts(s.m, sender, txid, entropy);
      assert Claim(s.m, sender, txid, entropy).1.Done? || Claim(s.m, sender, txid, entropy).1.Refused?;
    case ReduceReq(user, base, ops) => assert Reduce(env, s.m, user, base, ops).0.draws == s.m.draws
                                              && Reduce(env, s.m, user, base, ops).0.pending == None
                                       by { ReduceFacts(env, s.m, user, base, ops); }
    case PurgeReq(_) => PurgeFacts(s.m);
    case _ =>
  }

  lemma ReduceFacts(env: Env, m: Machine, user: string, base: Option<ConfigFile>, ops: seq<ReduceOp>)
    ensures var (m', r) := Reduce(env, m, user, base, ops);
            m'.pending == None && m'.draws == m.draws && m'.now == m.now
  {
    hide ReduceIo;
  }

  lemma PurgeFacts(m: Machine)
    ensures PurgeAll(m).0.pending == None && PurgeAll(m).0.draws == m.draws && PurgeAll(m).0.now == m.now
  {
  }

  lemma PreparedStep(env: Env, s: System, e: Event)
    requires PreparedOk(env, s)
    ensures PreparedOk(env, Step(env, s, e))
  {
    hide HeadOf, Prepare, Claim, Finish, Reduce, PurgeAll, Document;
    ActFacts(env, s, e);
    if e.PrepareReq? { PrepareFacts(env, s.m, e.user, e.sender, e.base, e.proposal, e.entropy); }
  }

  lemma ClaimEvent(env: Env, s: System, sender: string, txid: nat, entropy: bool)
    requires PreparedOk(env, s) && PendingOk(env, s)
    ensures var (m, calls, reply) := Outcome3(env, s, ClaimReq(sender, txid, entropy));
            s.m.draws <= m.draws && (reply.Claimed? ==>
                                     reply == Claimed(s.m.draws) && s.m.draws < m.draws && txid < s.m.draws)
  {
    hide HeadOf, Claim, NoneKilled, Document;
    ClaimFacts(s.m, sender, txid, entropy);
  }

  lemma ClaimsStep(env: Env, s: System, e: Event)
    requires PreparedOk(env, s) && ClaimsOk(s) && PendingOk(env, s)
    ensures ClaimsOk(Step(env, s, e))
  {
    hide HeadOf, Outcome3, Act, PreparedOk, PendingOk;
    ActFacts(env, s, e);
    if e.ClaimReq? { ClaimEvent(env, s, e.sender, e.txid, e.entropy); }
    var s' := Step(env, s, e);
    assert forall k | k in s.claims :: s'.log[s.claims[k].at] == s.log[s.claims[k].at];
  }

  lemma ApprovalsStep(env: Env, s: System, e: Event)
    requires ClaimsOk(s) && ApprovalsOk(s) && CallsOk(s)
    ensures ApprovalsOk(Step(env, s, e))
  {
    hide HeadOf, Prepare, Finish, Reduce, PurgeAll;
    ActFacts(env, s, e);
    var s' := Step(env, s, e);
    forall k | k in s.claims ensures k in s'.claims && s'.claims[k] == s.claims[k] { ClaimIsNew(env, s, e, k); }
  }

  lemma ClaimedIsDraw(env: Env, s: System, e: Event)
    ensures var (m, calls, reply) := Outcome3(env, s, e);
            reply.Claimed? ==>
              e.ClaimReq? && reply.check == s.m.draws && calls == s.calls[reply.check := Call(e.txid, e.sender, false)]
  {
    hide HeadOf, Prepare, Claim, Finish, Reduce, PurgeAll;
    ActFacts(env, s, e);
    if e.ClaimReq? { ClaimFacts(s.m, e.sender, e.txid, e.entropy); }
  }

  lemma ClaimIsNew(env: Env, s: System, e: Event, k: nat)
    requires ClaimsOk(s) && k in s.claims
    ensures k in Step(env, s, e).claims && Step(env, s, e).claims[k] == s.claims[k]
  {
    hide HeadOf, Act, Outcome3;
    ClaimedIsDraw(env, s, e);
  }

  /** A call in flight after an event: one just claimed, one just approved, or as before. */
  predicate CallAfter(s: System, e: Event, calls: map<nat, Call>, reply: Reply, k: nat) {
    k in calls &&
    (|| (reply == Claimed(k) && e.ClaimReq? && calls[k] == Call(e.txid, e.sender, false))
     || (k in s.calls && (calls[k] == s.calls[k]
                          || (e == CheckAnswer(k, true) && !s.calls[k].approved
                              && calls[k] == s.calls[k].(approved := true)))))
  }

  lemma CallsFacts(env: Env, s: System, e: Event, k: nat)
    requires k in Outcome3(env, s, e).1
    ensures CallAfter(s, e, Outcome3(env, s, e).1, Outcome3(env, s, e).2, k)
  {
    hide HeadOf, Prepare, Claim, Finish, Reduce, PurgeAll;
    ClaimedIsDraw(env, s, e);
    ActFacts(env, s, e);
  }

  lemma CallsStep(env: Env, s: System, e: Event)
    requires ClaimsOk(s) && ApprovalsOk(s) && CallsOk(s)
    ensures CallsOk(Step(env, s, e))
  {
    hide HeadOf, Act, Outcome3, ClaimsOk, ApprovalsOk;
    var s' := Step(env, s, e);
    forall k | k in s.claims ensures k in s'.claims && s'.claims[k] == s.claims[k] { ClaimIsNew(env, s, e, k); }
    forall k | k in s'.calls
      ensures k in s'.claims && s'.claims[k].txid == s'.calls[k].txid && s'.claims[k].sender == s'.calls[k].sender
      ensures s'.calls[k].approved ==> k in s'.approvals
    {
      CallsFacts(env, s, e, k);
    }
  }

  lemma NoneKilledGrows(log: seq<Logged>, l: Logged, sender: string, from: nat)
    requires NoneKilled(log, sender, from) && !Kills(l.event, sender)
    ensures NoneKilled(log + [l], sender, from)
  {
  }

  /** A transaction that keeps the slot keeps its claim to it. */
  lemma PendingStays(env: Env, s: System, e: Event)
    requires PreparedOk(env, s) && ClaimsOk(s) && PendingOk(env, s)
    requires s.m.pending.Some? && Step(env, s, e).m.pending == s.m.pending
    requires !Outcome3(env, s, e).2.Claimed?
    requires Outcome3(env, s, e).2.Reviewed? ==> Outcome3(env, s, e).2.prepared.txid.None?
    ensures PendingOk(env, Step(env, s, e))
  {
    hide HeadOf, Act, Document, PreparedOk;
    ActFacts(env, s, e);
    var s' := Step(env, s, e);
    var f := s.prepared[s.m.pending.value.txid];
    NoneKilledGrows(s.log, s'.log[|s.log|], f.sender, f.at);
    assert s'.log == s.log + [s'.log[|s.log|]];
  }

  lemma PendingStep(env: Env, s: System, e: Event)
    requires PreparedOk(env, s) && ClaimsOk(s) && PendingOk(env, s)
    ensures PendingOk(env, Step(env, s, e))
  {
    hide HeadOf, Prepare, Claim, Finish, Reduce, PurgeAll, Document;
    ActFacts(env, s, e);
    var (m, calls, reply) := Outcome3(env, s, e);
    var s' := Step(env, s, e);
    if m.pending == None {
    } else if reply.Claimed? {
      ClaimFacts(s.m, e.sender, e.txid, e.entropy);
      var f := s.prepared[e.txid];
      NoneKilledGrows(s.log, s'.log[|s.log|], f.sender, f.at);
      assert s'.log == s.log + [s'.log[|s.log|]];
    } else if reply.Reviewed? && reply.prepared.txid.Some? {
      PrepareFacts(env, s.m, e.user, e.sender, e.base, e.proposal, e.entropy);
    } else {
      PendingStays(env, s, e);
    }
  }

  lemma ForStays(env: Env, s: System, e: Event, j: nat)
    requires ClaimsOk(s) && j < |s.issued|
    requires forall i | 0 <= i < |s.issued| && s.issued[i].check.Some? :: s.issued[i].check.value in s.claims
    ensures s.issued <= Step(env, s, e).issued && IssuedFor(Step(env, s, e), j) == IssuedFor(s, j)
  {
    hide HeadOf, Act, Outcome3, ClaimsOk;
    if s.issued[j].check.Some? { ClaimIsNew(env, s, e, s.issued[j].check.value); }
  }

  /** The slot never goes to a transaction a document was already issued for. */
  lemma SlotUnissued(env: Env, s: System, e: Event, j: nat)
    requires PreparedOk(env, s) && ClaimsOk(s) && PendingOk(env, s) && IssuedOk(s) && j < |s.issued|
    ensures var m := Outcome3(env, s, e).0; m.pending.Some? ==> IssuedFor(s, j) != Some(m.pending.value.txid)
  {
    hide HeadOf, Prepare, Claim, Finish, Reduce, PurgeAll, Document, NoneKilled;
    ActFacts(env, s, e);
    var (m, calls, reply) := Outcome3(env, s, e);
    if m.pending.Some? && m.pending != s.m.pending {
      if reply.Claimed? {
        ClaimFacts(s.m, e.sender, e.txid, e.entropy);
      } else if reply.Reviewed? && reply.prepared.txid.Some? {
        PrepareFacts(env, s.m, e.user, e.sender, e.base, e.proposal, e.entropy);
      }
    }
  }

  /** What a commit issues is for the transaction that held the slot, which then holds it no more. */
  lemma NewIssue(env: Env, s: System, e: Event)
    requires CallsOk(s) && ClaimsOk(s) && Outcome3(env, s, e).2.Issued?
    ensures Outcome3(env, s, e).0.pending == None
    ensures e.FinishReq? ==>
              e.check in s.claims && s.m.pending.Some? && s.claims[e.check].txid == s.m.pending.value.txid
  {
    hide HeadOf, Prepare, Claim, PurgeAll, Finish, Reduce, NoneKilled;
    ActFacts(env, s, e);
    if e.FinishReq? { FinishFacts(env, s.m, s.calls[e.check].txid); }
  }

  lemma IssuedStep(env: Env, s: System, e: Event)
    requires PreparedOk(env, s) && ClaimsOk(s) && CallsOk(s) && PendingOk(env, s) && IssuedOk(s)
    ensures IssuedOk(Step(env, s, e))
  {
    hide HeadOf, Act, PreparedOk, CallsOk, PendingOk, Outcome3, IssuedFor;
    var s' := Step(env, s, e);
    var reply := Outcome3(env, s, e).2;
    forall k | k in s.claims ensures k in s'.claims && s'.claims[k] == s.claims[k] { ClaimIsNew(env, s, e, k); }
    forall j | 0 <= j < |s.issued|
      ensures IssuedFor(s', j) == IssuedFor(s, j)
      ensures s'.m.pending.Some? ==> IssuedFor(s, j) != Some(s'.m.pending.value.txid)
    {
      ForStays(env, s, e, j);
      SlotUnissued(env, s, e, j);
    }
    if reply.Issued? {
      NewIssue(env, s, e);
      IssuedLast(env, s, e);
    } else {
      assert s'.issued == s.issued;
    }
  }

  lemma IssuedLast(env: Env, s: System, e: Event)
    requires CallsOk(s) && ClaimsOk(s) && Outcome3(env, s, e).2.Issued?
    ensures IssuesOne(s, Step(env, s, e), e)
  {
    hide HeadOf, Outcome3, Act, CallsOk, ClaimsOk;
    NewIssue(env, s, e);
    if e.FinishReq? { ClaimIsNew(env, s, e, e.check); }
  }

  /** One more document on record, for the transaction that held the slot if it is a commit's. */
  predicate IssuesOne(s: System, s': System, e: Event) {
    && |s'.issued| == |s.issued| + 1 && s.issued <= s'.issued
    && (s'.issued[|s.issued|].check.Some? ==>
        e.FinishReq? && s'.issued[|s.issued|].check.value == e.check && e.check in s'.claims)
    && (e.FinishReq? ==> s.m.pending.Some? && IssuedFor(s', |s.issued|) == Some(s.m.pending.value.txid))
    && (!e.FinishReq? ==> IssuedFor(s', |s.issued|) == None)
  }

  lemma {:induction false} RecordsHold(env: Env, es: seq<Event>)
    ensures Records(env, Run(env, es))
    decreases |es|
  {
    hide Step, PreparedOk, ClaimsOk, ApprovalsOk, CallsOk, PendingOk, IssuedOk;
    if es == [] {
      StartRecords(env);
    } else {
      var (s, e) := (Run(env, es[..|es| - 1]), es[|es| - 1]);
      RecordsHold(env, es[..|es| - 1]);
      PreparedStep(env, s, e);
      ClaimsStep(env, s, e);
      ApprovalsStep(env, s, e);
      CallsStep(env, s, e);
      PendingStep(env, s, e);
      IssuedStep(env, s, e);
    }
  }

  lemma StartRecords(env: Env)
    ensures Records(env, Start())
  {
  }

  // ----------------------------------------------------------- Authorize, over runs

  /** What event `n` was answered with. */
  function ReplyTo(env: Env, es: seq<Event>, n: nat): Reply
    requires n < |es|
  {
    Run(env, es[..n + 1]).log[n].reply
  }

  lemma PrefixSlice(es: seq<Event>, n: nat, i: nat)
    requires i <= n <= |es|
    ensures es[..n][..i] == es[..i]
  {
  }

  lemma RunNext(env: Env, es: seq<Event>, n: nat)
    requires n < |es|
    ensures Run(env, es[..n + 1]) == Step(env, Run(env, es[..n]), es[n])
  {
    hide Step;
    PrefixSlice(es, n + 1, n);
  }

  lemma ReplyIs(env: Env, es: seq<Event>, n: nat)
    requires n < |es|
    ensures ReplyTo(env, es, n) == Outcome3(env, Run(env, es[..n]), es[n]).2
  {
    hide Run, Outcome3;
    RunNext(env, es, n);
  }

  lemma StepLogs(env: Env, s: System, e: Event)
    ensures Step(env, s, e).log == s.log + [Logged(e, Outcome3(env, s, e).2, s.m.now, HeadOf(s.m.io.disk))]
  {
    hide Outcome3, HeadOf;
  }

  lemma IssueFacts(env: Env, s: System, check: nat)
    requires CallsOk(s) && PendingOk(env, s) && Outcome3(env, s, FinishReq(check)).2.Issued?
    ensures check in s.calls && s.calls[check].approved && check in s.claims && check in s.approvals
    ensures s.m.pending.Some? && s.m.pending.value.authorizing && !Expired(s.m.pending.value, s.m.now)
    ensures s.m.pending.value.txid == s.claims[check].txid && s.m.pending.value.checkId == Some(check)
    ensures HeadOf(s.m.io.disk) == Done(Head(s.m.pending.value.baseGen, s.m.pending.value.enrollment))
    ensures var doc := Outcome3(env, s, FinishReq(check)).2.file.signed;
            doc == s.m.pending.value.proposal.(gen := doc.gen) && doc.gen == s.m.pending.value.baseGen + 1
  {
    hide NoneKilled, Document, HeadOf, ConfigError, EnsureEnrolled, PublishGen, Sign;
    FinishFacts(env, s.m, s.calls[check].txid);
  }

  /** What the records say of a document about to be issued. */
  lemma IssueRecords(env: Env, s: System, check: nat) returns (f: Frozen)
    requires Records(env, s) && Outcome3(env, s, FinishReq(check)).2.Issued?
    ensures check in s.claims && check in s.approvals
    ensures f.at < s.claims[check].at < s.approvals[check] < |s.log|
    ensures var e := s.log[f.at].event;
            && e.PrepareReq? && e.user == f.user && e.sender == f.sender
            && s.log[f.at].reply.Reviewed? && s.log[f.at].reply.prepared.txid == Some(s.claims[check].txid)
            && s.log[f.at].now == f.created && s.log[f.at].head == Done(f.head) == HeadOf(s.m.io.disk)
            && var doc := Outcome3(env, s, FinishReq(check)).2.file.signed;
               doc == Document(env.uid, e.user, doc.gen, e.proposal) && doc.gen == f.head.gen + 1
    ensures var l := s.log[s.claims[check].at];
            l.event.ClaimReq? && l.event.txid == s.claims[check].txid && l.event.sender == f.sender
                && l.reply == Claimed(check)
    ensures s.log[s.approvals[check]].event == CheckAnswer(check, true)
    ensures NoneKilled(s.log, f.sender, f.at) && s.m.now - f.created < env.ttl
  {
    hide HeadOf, Outcome3, NoneKilled, SortEntries;
    IssueFacts(env, s, check);
    f := s.prepared[s.m.pending.value.txid];
  }

  /** Generation `g` is the committed one before event `p` and still, under the same key, before `n`. */
  predicate SameHead(env: Env, es: seq<Event>, p: nat, n: nat, g: int)
    requires p <= n <= |es|
  {
    hide Run, HeadOf;
    var head := HeadOf(Run(env, es[..n]).m.io.disk);
    head == HeadOf(Run(env, es[..p]).m.io.disk) && head.Done? && head.value.gen == g
  }

  /** A successful Authorize, in any run: what it returns is the proposal frozen by one earlier
      Prepare under the transaction it names, as the generation after the one Prepare met, which is
      still the committed one; that same connection claimed it, its check then said yes, the lease was
      live, and between Prepare and commit no Reduce, no allowed Purge and no disconnect of that
      connection took the slot. */
  lemma AuthorizeSafe(env: Env, es: seq<Event>, n: nat) returns (p: nat, c: nat, y: nat)
    requires n < |es| && es[n].FinishReq? && ReplyTo(env, es, n).Issued?
    ensures p < c < y < n
    ensures es[p].PrepareReq? && es[c].ClaimReq? && es[y] == CheckAnswer(es[n].check, true)
    ensures ReplyTo(env, es, p).Reviewed? && ReplyTo(env, es, p).prepared.txid == Some(es[c].txid)
    ensures ReplyTo(env, es, c) == Claimed(es[n].check) && es[c].sender == es[p].sender
    ensures var doc := ReplyTo(env, es, n).file.signed;
            doc == Document(env.uid, es[p].user, doc.gen, es[p].proposal) && SameHead(env, es, p, n, doc.gen - 1)
    ensures forall i | p < i < n :: !Kills(es[i], es[p].sender)
    ensures Run(env, es[..n]).m.now - Run(env, es[..p]).m.now < env.ttl
  {
    hide HeadOf, Run, ReplyTo, Document, Outcome3, Records, Kills, Step;
    var s := Run(env, es[..n]);
    RecordsHold(env, es[..n]);
    ReplyIs(env, es, n);
    var f := IssueRecords(env, s, es[n].check);
    LogIs(env, es, n);
    p, c, y := f.at, s.claims[es[n].check].at, s.approvals[es[n].check];
    NoneKilledIs(env, es, n, f.sender, p);
  }

  lemma NoneKilledIs(env: Env, es: seq<Event>, n: nat, sender: string, p: nat)
    requires n <= |es| && NoneKilled(Run(env, es[..n]).log, sender, p)
    ensures forall i | p < i < n :: !Kills(es[i], sender)
  {
    hide Run, Entered, Kills;
    LogIs(env, es, n);
    forall i | p < i < n ensures !Kills(es[i], sender) {
      EnteredIs(env, es, i);
      assert Run(env, es[..n]).log[i] == Entered(env, es, i);
    }
  }

  /** What the log says of event `i`. */
  function Entered(env: Env, es: seq<Event>, i: nat): Logged
    requires i < |es|
  {
    hide Run, ReplyTo, HeadOf;
    Logged(es[i], ReplyTo(env, es, i), Run(env, es[..i]).m.now, HeadOf(Run(env, es[..i]).m.io.disk))
  }

  /** The log of a run's first `n` events, read off the whole run. */
  predicate LogMatches(env: Env, es: seq<Event>, n: nat)
    requires n <= |es|
  {
    hide Run, ReplyTo;
    forall i | 0 <= i < n ::
      Run(env, es[..n]).log[i] == Entered(env, es, i)
  }

  lemma EnteredIs(env: Env, es: seq<Event>, i: nat)
    requires i < |es|
    ensures Entered(env, es, i).event == es[i]
  {
    hide Run, ReplyTo, HeadOf;
  }

  lemma LogIs(env: Env, es: seq<Event>, n: nat)
    requires n <= |es|
    ensures LogMatches(env, es, n)
  {
    hide Run, ReplyTo;
    forall i | 0 <= i < n
      ensures Run(env, es[..n]).log[i] == Entered(env, es, i)
    {
      AtLog(env, es, n, i);
    }
  }

  /** The log is the run. */
  lemma {:induction false} AtLog(env: Env, es: seq<Event>, n: nat, i: nat)
    requires i < n <= |es|
    ensures Run(env, es[..n]).log[i] == Entered(env, es, i)
    decreases n
  {
    hide Run, Step, Outcome3, ReplyTo;
    RunNext(env, es, n - 1);
    StepLogs(env, Run(env, es[..n - 1]), es[n - 1]);
    if i < n - 1 { AtLog(env, es, n - 1, i); } else { ReplyIs(env, es, i); }
  }

  lemma StepGrows(env: Env, s: System, e: Event)
    requires Records(env, s)
    ensures Extends(s, Step(env, s, e))
  {
    hide HeadOf, Outcome3, Act, PreparedOk, ClaimsOk, ApprovalsOk, CallsOk, PendingOk, IssuedOk;
    forall k | k in s.claims ensures k in Step(env, s, e).claims && Step(env, s, e).claims[k] == s.claims[k] {
      ClaimIsNew(env, s, e, k);
    }
  }

  /** Records only grow. */
  predicate Extends(s: System, s': System) {
    s.issued <= s'.issued && forall k | k in s.claims :: k in s'.claims && s'.claims[k] == s.claims[k]
  }

  lemma {:induction false} RecordsGrow(env: Env, es: seq<Event>, a: nat, b: nat)
    requires a <= b <= |es|
    ensures Extends(Run(env, es[..a]), Run(env, es[..b]))
  {
    hide Step, Records, Run;
    if a < b {
      RecordsGrow(env, es, a, b - 1);
      RecordsHold(env, es[..b - 1]);
      RunNext(env, es, b - 1);
      StepGrows(env, Run(env, es[..b - 1]), es[b - 1]);
    }
  }

  /** A document, once issued, stays on record for the transaction it was issued for. */
  lemma IssueRecorded(env: Env, es: seq<Event>, n: nat, m: nat) returns (j: nat)
    requires n < m <= |es| && es[n].FinishReq? && ReplyTo(env, es, n).Issued?
    ensures var s := Run(env, es[..m]);
            j < |s.issued| && es[n].check in s.claims && IssuedFor(s, j) == Some(s.claims[es[n].check].txid)
    ensures Run(env, es[..m]).issued[j] == Issue(ReplyTo(env, es, n).file, Some(es[n].check))
  {
    hide Run, Outcome3, Records, ReplyTo;
    var s := Run(env, es[..n]);
    RecordsHold(env, es[..n]);
    ReplyIs(env, es, n);
    var f := IssueRecords(env, s, es[n].check);
    RecordsGrow(env, es, n, m);
    RecordsGrow(env, es, n + 1, m);
    IssueNoted(env, es, n);
    j := |s.issued|;
    assert Run(env, es[..n + 1]).issued[j] == Run(env, es[..m]).issued[j];
  }

  lemma IssueNoted(env: Env, es: seq<Event>, n: nat)
    requires n < |es| && es[n].FinishReq? && ReplyTo(env, es, n).Issued?
    ensures Run(env, es[..n + 1]).issued == Run(env, es[..n]).issued +
      [Issue(ReplyTo(env, es, n).file, Some(es[n].check))]
  {
    hide HeadOf, Outcome3, Run, ReplyTo;
    ReplyIs(env, es, n);
    RunNext(env, es, n);
  }

  /** A transaction is committed at most once, however many calls name it. */
  lemma AuthorizeOnce(env: Env, es: seq<Event>, n1: nat, n2: nat)
    requires n1 < n2 < |es| && es[n1].FinishReq? && es[n2].FinishReq?
    requires ReplyTo(env, es, n1).Issued? && ReplyTo(env, es, n2).Issued?
    ensures var claims := Run(env, es[..n2]).claims;
            && es[n1].check in claims && es[n2].check in claims
            && claims[es[n1].check].txid != claims[es[n2].check].txid
  {
    hide HeadOf, Run, ReplyTo, Outcome3, PreparedOk, ClaimsOk, ApprovalsOk, IssuedFor;
    var j := IssueRecorded(env, es, n1, n2);
    var s := Run(env, es[..n2]);
    RecordsHold(env, es[..n2]);
    ReplyIs(env, es, n2);
    IssueFacts(env, s, es[n2].check);
  }

  /** A result that comes late, yes or no, never touches a transaction other than its own. */
  lemma LateResultHarmless(env: Env, s: System, check: nat, yes: bool)
    requires check in s.calls && s.m.pending.Some? && s.m.pending.value.txid != s.calls[check].txid
    ensures Act(env, s, FinishReq(check)).0 == s.m && !Act(env, s, FinishReq(check)).2.Issued?
    ensures Act(env, s, CheckAnswer(check, yes)).0 == s.m
  {
    hide HeadOf, Prepare, Claim, Reduce, PurgeAll, Finish;
    FinishFacts(env, s.m, s.calls[check].txid);
  }

  // ----------------------------------------------------------------- the claim, and the slot

  lemma ClaimTakes(env: Env, s: System, e: Event)
    requires Outcome3(env, s, e).2.Claimed?
    ensures e.ClaimReq? && Outcome3(env, s, e).2.check == s.m.draws && ClaimedOpen(s.m, e.sender, e.txid)
  {
    hide HeadOf, Prepare, Claim, Finish, Reduce, PurgeAll;
    ClaimedIsDraw(env, s, e);
    ClaimFacts(s.m, e.sender, e.txid, e.entropy);
  }

  /** The open transaction, as a claim must find it: this one, live, this connection's, not yet claimed. */
  predicate ClaimedOpen(m: Machine, sender: string, txid: nat) {
    m.pending.Some?
    && var t := m.pending.value; t.txid == txid && t.sender == sender && !t.authorizing && !Expired(t, m.now)
  }

  /** What the records say of a claim about to be granted. */
  lemma ClaimRecords(env: Env, s: System, e: Event) returns (f: Frozen)
    requires Records(env, s) && Outcome3(env, s, e).2.Claimed?
    ensures e.ClaimReq? && f.at < |s.log| && s.m.now - f.created < env.ttl && NoneKilled(s.log, e.sender, f.at)
    ensures var l := s.log[f.at];
            && l.event.PrepareReq? && l.event.sender == e.sender && l.now == f.created
            && l.reply.Reviewed? && l.reply.prepared.txid == Some(e.txid)
    ensures forall k | k in s.claims :: s.claims[k].txid != e.txid
  {
    hide Outcome3, NoneKilled, Document, HeadOf;
    ClaimTakes(env, s, e);
    f := s.prepared[e.txid];
  }

  /** A granted claim, in any run: it is on a transaction some Prepare of the same connection froze, its
      lease is live, and no Reduce, allowed Purge or disconnect came between. */
  lemma ClaimSafe(env: Env, es: seq<Event>, c: nat) returns (p: nat)
    requires c < |es| && ReplyTo(env, es, c).Claimed?
    ensures p < c && es[p].PrepareReq? && es[c].ClaimReq? && es[p].sender == es[c].sender
    ensures ReplyTo(env, es, p).Reviewed? && ReplyTo(env, es, p).prepared.txid == Some(es[c].txid)
    ensures forall i | p < i < c :: !Kills(es[i], es[p].sender)
    ensures Run(env, es[..c]).m.now - Run(env, es[..p]).m.now < env.ttl
  {
    hide HeadOf, Run, ReplyTo, Outcome3, Records, Kills, Step;
    RecordsHold(env, es[..c]);
    ReplyIs(env, es, c);
    var f := ClaimRecords(env, Run(env, es[..c]), es[c]);
    LogIs(env, es, c);
    p := f.at;
    assert Run(env, es[..c]).log[p] == Entered(env, es, p);
    NoneKilledIs(env, es, c, es[c].sender, p);
  }

  lemma ClaimNoted(env: Env, es: seq<Event>, c: nat) returns (k: nat)
    requires c < |es| && ReplyTo(env, es, c).Claimed?
    ensures es[c].ClaimReq?
    ensures k in Run(env, es[..c + 1]).claims && Run(env, es[..c + 1]).claims[k].txid == es[c].txid
  {
    hide HeadOf, Outcome3, Run, ReplyTo;
    ReplyIs(env, es, c);
    RunNext(env, es, c);
    ClaimTakes(env, Run(env, es[..c]), es[c]);
    k := Run(env, es[..c]).m.draws;
  }

  /** A transaction is claimed at most once, however many calls name it. */
  lemma ClaimedOnce(env: Env, es: seq<Event>, c1: nat, c2: nat)
    requires c1 < c2 < |es| && ReplyTo(env, es, c1).Claimed? && ReplyTo(env, es, c2).Claimed?
    ensures es[c1].ClaimReq? && es[c2].ClaimReq? && es[c1].txid != es[c2].txid
  {
    hide HeadOf, Run, ReplyTo, Outcome3, Records, NoneKilled;
    var k := ClaimNoted(env, es, c1);
    RecordsGrow(env, es, c1 + 1, c2);
    RecordsHold(env, es[..c2]);
    ReplyIs(env, es, c2);
    var f := ClaimRecords(env, Run(env, es[..c2]), es[c2]);
  }

  /** What may take the slot from the live transaction `t`: a Reduce, an allowed Purge, its own
      connection leaving, its own check's no, or its own commit. */
  predicate TakesSlot(s: System, e: Event, t: Txn) {
    || Kills(e, t.sender)
    || (e.CheckAnswer? && !e.yes && e.check in s.calls && s.calls[e.check].txid == t.txid)
    || (e.FinishReq? && e.check in s.calls && s.calls[e.check].txid == t.txid)
  }

  /** The same transaction, claimed or not. */
  predicate StillHeld(m: Machine, t: Txn) {
    m.pending.Some? && m.pending.value.(authorizing := t.authorizing, checkId := t.checkId) == t
  }

  /** Nothing else takes it, short of a crash: in particular no other connection and no other Prepare. */
  lemma SlotKept(env: Env, s: System, e: Event)
    requires s.m.pending.Some? && !Expired(s.m.pending.value, s.m.now) && !TakesSlot(s, e, s.m.pending.value)
    requires !Act(env, s, e).0.io.down
    ensures StillHeld(Step(env, s, e).m, s.m.pending.value)
  {
    hide HeadOf, Finish, Reduce, PurgeAll, Freeze, Document;
    if e.FinishReq? && e.check in s.calls { FinishFacts(env, s.m, s.calls[e.check].txid); }
  }
}
