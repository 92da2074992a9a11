/** The panel and relaunchctl together, over a byte pipe that may deliver in any pieces: what is
    installed, and what the user saw first. */
module Session {
  import opened Text
  import opened Frame
  import P = Panel
  import D = Driver

  /** The relaunchctl process of an attempt: all bytes written to its stdin, how many have arrived and
      how many it has read, and the lines it has written that the panel has not seen. */
  datatype Proc = Proc(attempt: nat, mode: P.Mode, started: bool, phase: D.Phase,
                       stdin: seq<byte>, avail: nat, read: nat, closed: bool, out: seq<D.Out>)

  /** What has happened: the service put a review up, the user approved what was on screen, the service
      signed, a document was installed, the user cancelled. */
  datatype Fact =
    | Reviewed(attempt: nat, shown: P.Shown) | Approved(attempt: nat, shown: P.Shown)
    | Signed(attempt: nat, config: string) | Reduced(attempt: nat, config: string)
    | Installed(attempt: nat, config: string, mode: P.Mode) | Withdrew(attempt: nat)

  datatype Sys = Sys(w: P.World, proc: Option<Proc>, log: seq<Fact>)

  datatype Event =
    | User(e: P.Event) | EngineDone(r: P.Proposed)
    | Begun | Arrive(n: nat) | Close | Read | Answered(a: D.Answer) | Deliver | Exit

  // ------------------------------------------------------------------ the panel's side

  function NewProc(a: nat, mode: P.Mode): Proc {
    Proc(a, mode, false, if mode.Reducing? then D.ReduceRequest else D.CommitRequest, [], 0, 0, false, [])
  }

  /** One effect carried out. A terminated helper is given no time limit to die in. */
  function Do(proc: Option<Proc>, e: P.Effect): Option<Proc> {
    match e
    case SpawnCommit(a, mode) => Some(NewProc(a, mode))
    case Write(a, text) =>
      if proc.Some? && proc.value.attempt == a then Some(proc.value.(stdin := proc.value.stdin + Utf8(text))) else proc
    case _ => proc
  }

  function Perform(proc: Option<Proc>, fx: seq<P.Effect>): Option<Proc>
    decreases |fx|
  {
    if fx == [] then proc else Perform(Do(proc, fx[0]), fx[1..])
  }

  function InstallFacts(fx: seq<P.Effect>): seq<Fact> {
    if fx == [] then []
    else
      (if fx[0].Install? then [Installed(fx[0].attempt, fx[0].config, fx[0].mode)] else []) + InstallFacts(fx[1..])
  }

  /** What the user's own input says, before the panel acts on it. */
  function UserFacts(s: P.State, e: P.Event): seq<Fact> {
    if e.Authorize? && P.MayAuthorize(s) then [Approved(s.attempt, s.review.value)]
    else if e.Cancel? && s.committing then [Withdrew(s.attempt)]
    else []
  }

  function NewEffects(before: P.State, after: P.State): seq<P.Effect> {
    if |before.fx| <= |after.fx| then after.fx[|before.fx|..] else []
  }

  function Input(sys: Sys, e: P.Event): Sys {
    var w := P.Next(sys.w, e);
    var fx := NewEffects(sys.w.s, w.s);
    Sys(w, Perform(sys.proc, fx), sys.log + UserFacts(sys.w.s, e) + InstallFacts(fx))
  }

  // ------------------------------------------------------------- relaunchctl's side

  function Pending(p: Proc): Option<Frame>
    requires p.read <= p.avail <= |p.stdin|
  {
    Poll(p.stdin[p.read..p.avail], D.Limit(p.phase), p.closed && p.avail == |p.stdin|)
  }

  /** Reads the next frame, if the process is at a read and one is complete. */
  function DoRead(wire: D.Wire, p: Proc): Proc
    requires p.read <= p.avail <= |p.stdin|
  {
    if !p.started || !D.Reads(p.phase) || Pending(p).None? then p
    else
      var f := Pending(p).value;
      var (phase, out) := D.OnFrame(wire, p.phase, f);
      p.(phase := phase, out := p.out + out, read := if f.Line? then p.read + |f.bytes| + 1 else p.read)
  }

  /** Takes the service's answer, unless a frame is there to be read first. */
  function DoAnswer(p: Proc, a: D.Answer): Proc
    requires p.read <= p.avail <= |p.stdin|
  {
    if !p.started || (p.phase.Authorizing? && Pending(p).Some?) then p
    else
      var (phase, out) := D.OnAnswer(p.phase, a);
      p.(phase := phase, out := p.out + out)
  }

  /** What the service has done for this process by answering it. */
  function AnswerFacts(p: Proc, q: Proc): seq<Fact> {
    if |q.out| != |p.out| + 1 then []
    else
      match q.out[|p.out|]
      case PreparedEvent(summary, diff) => [Reviewed(p.attempt, P.Shown(summary, diff))]
      case CommittedEvent(config) => [if p.phase.Reducing? then Reduced(p.attempt, config)
                                      else Signed(p.attempt, config)]
      case _ => []
  }

  function LineOf(o: D.Out): P.Line {
    match o
    case PreparedEvent(summary, diff) => P.PreparedLine(summary, diff)
    case CommittedEvent(config) => P.CommittedLine(config)
    case NothingEvent => P.NothingLine
    case ErrorEvent => P.ErrorLine
  }

  predicate InBounds(p: Proc) { p.read <= p.avail <= |p.stdin| }

  /** What happens to the process, and what the panel makes of it. */
  function ProcStep(wire: D.Wire, sys: Sys, p: Proc, e: Event): Sys
    requires InBounds(p)
  {
    match e
    case Begun => if p.started then sys else Input(sys.(proc := Some(p.(started := true))), P.CommitStarted(p.attempt))
    case Arrive(n) => sys.(proc := Some(p.(avail := if p.avail + n <= |p.stdin| then p.avail + n else |p.stdin|)))
    case Close => sys.(proc := Some(p.(closed := true)))
    case Read => sys.(proc := Some(DoRead(wire, p)))
    case Answered(a) => Sys(sys.w, Some(DoAnswer(p, a)), sys.log + AnswerFacts(p, DoAnswer(p, a)))
    case Deliver =>
      if p.out == [] then sys
      else Input(sys.(proc := Some(p.(out := p.out[1..]))), P.CommitLine(p.attempt, LineOf(p.out[0])))
    case Exit => Input(sys, P.CommitEnded(p.attempt)).(proc := None)
    case User(_) => sys
    case EngineDone(_) => sys
  }

  function Step(wire: D.Wire, sys: Sys, e: Event): Sys {
    if e.User? then (if P.Origin(e.e).Some? then sys else Input(sys, e.e))
    else if e.EngineDone? then Input(sys, P.ProposeEnded(sys.w.s.attempt, e.r))
    else if sys.proc.Some? && InBounds(sys.proc.value) then ProcStep(wire, sys, sys.proc.value, e)
    else sys
  }

  function Run(wire: D.Wire, es: seq<Event>): Sys {
    if es == [] then Sys(P.World(P.INITIAL, multiset{}), None, [])
    else Step(wire, Run(wire, es[..|es| - 1]), es[|es| - 1])
  }

  /** The engine's proposal is one line, as propose.rs writes it. */
  predicate OneLine(e: Event) {
    e.EngineDone? && e.r.reply.Ok? && e.r.reply.change.CommitChange? ==> '\n' !in e.r.reply.change.proposalJson
  }

  // --------------------------------------------------------------------- invariants

  const AUTH: seq<byte> := Utf8(P.AUTHORIZE + "\n")

  function FrameBytes(frame: string): seq<byte> { Utf8(frame + "\n") }

  function Vouched(mode: P.Mode, a: nat, o: D.Out): Option<Fact> {
    match o
    case PreparedEvent(summary, diff) => Some(Reviewed(a, P.Shown(summary, diff)))
    case CommittedEvent(config) => Some(if mode.Reducing? then Reduced(a, config) else Signed(a, config))
    case _ => None
  }

  predicate WasApproved(log: seq<Fact>, a: nat) { exists f | f in log :: f.Approved? && f.attempt == a }

  predicate WasReviewed(log: seq<Fact>, a: nat) { exists f | f in log :: f.Reviewed? && f.attempt == a }

  /** Where a process is in its dialogue, told from what it has read. */
  predicate PhaseOk(p: Proc, frame: string) {
    var F := FrameBytes(frame);
    match p.phase
    case CommitRequest => p.read == 0 && p.mode.Expanding?
    case ReduceRequest => p.read == 0 && p.mode.Reducing?
    case Preparing(_, _) => p.read == |F| && p.stdin != [] && p.mode.Expanding?
    case Pause(_) => p.read == |F| && p.stdin != [] && p.mode.Expanding?
    case Authorizing(_) => p.stdin == F + AUTH && p.read == |p.stdin| && p.mode.Expanding?
    case Reducing(_) => p.mode.Reducing?
    case Over(_) => true
  }

  predicate ProcOk(p: Proc, frame: string, log: seq<Fact>) {
    && InBounds(p) && PhaseOk(p, frame)
    && (!p.started ==> p.stdin == [] && p.out == [] && (p.phase.CommitRequest? || p.phase.ReduceRequest?))
    && (p.stdin == [] || p.stdin == FrameBytes(frame)
        || (p.stdin == FrameBytes(frame) + AUTH && WasApproved(log, p.attempt)))
    && (forall o | o in p.out && Vouched(p.mode, p.attempt, o).Some? :: Vouched(p.mode, p.attempt, o).value in log)
    && (p.phase.CommitRequest? || p.phase.Preparing? ==> !WasReviewed(log, p.attempt))
  }

  predicate Linked(sys: Sys) {
    var s := sys.w.s;
    && (sys.proc.Some? <==> s.child.Some? && s.child.value.kind.Commit? && s.child.value.running)
    && '\n' !in s.frame && (s.confirmDrop.Some? ==> s.mode.Expanding?)
    && (sys.proc.Some? ==>
          var p := sys.proc.value;
          && p.attempt == s.attempt && p.mode == s.mode && !s.mode.NoMode?
          && ProcOk(p, s.frame, sys.log)
          && (p.started && !s.resolved ==> p.stdin != [])
          && (p.stdin == FrameBytes(s.frame) + AUTH ==> s.authorizing || s.resolved))
    && (s.review.Some? ==> sys.proc.Some? && sys.proc.value.started && Reviewed(s.attempt, s.review.value) in sys.log)
  }

  /** Nothing is on record for a later attempt, and a cancelled one is over. */
  predicate Timely(sys: Sys) {
    var s := sys.w.s;
    forall f | f in sys.log ::
      && f.attempt <= s.attempt
      && (f.Withdrew? && f.attempt == s.attempt ==> s.resolved)
      && (f.Reviewed? && f.attempt == s.attempt ==> s.resolved || sys.proc.Some?)
  }

  /** Each fact rests on those before it. */
  predicate RestsOn(f: Fact, before: seq<Fact>) {
    match f
    case Reviewed(a, _) => !WasReviewed(before, a)
    case Approved(a, shown) => Reviewed(a, shown) in before
    case Signed(a, _) => WasApproved(before, a)
    case Installed(a, config, mode) =>
      && Withdrew(a) !in before
      && (mode.Expanding? || mode.Reducing?)
      && (if mode.Reducing? then Reduced(a, config) else Signed(a, config)) in before
    case _ => true
  }

  predicate Justified(log: seq<Fact>) {
    forall i | 0 <= i < |log| :: RestsOn(log[i], log[..i])
  }

  ghost predicate Inv(sys: Sys) { P.Owned(sys.w) && Linked(sys) && Timely(sys) && Justified(sys.log) }

  // ------------------------------------------------------------------- the records

  lemma JustifiedSnoc(log: seq<Fact>, f: Fact)
    requires Justified(log) && RestsOn(f, log)
    ensures Justified(log + [f])
  {
    hide RestsOn;
    forall i | 0 <= i < |log + [f]| ensures RestsOn((log + [f])[i], (log + [f])[..i]) {
      assert (log + [f])[..i] == log[..i] && (i == |log| ==> log[..i] == log);
    }
  }

  lemma ProcKept(p: Proc, frame: string, log: seq<Fact>, f: Fact)
    requires ProcOk(p, frame, log) && !(f.Reviewed? && f.attempt == p.attempt)
    ensures ProcOk(p, frame, log + [f])
  {
    hide PhaseOk, FrameBytes, Vouched;
  }

  // ------------------------------------------------------------ effects carried out

  lemma PerformOne(proc: Option<Proc>, e: P.Effect)
    ensures Perform(proc, [e]) == Do(proc, e)
    ensures InstallFacts([e]) == if e.Install? then [Installed(e.attempt, e.config, e.mode)] else []
  {
    assert [e][1..] == [];
  }

  lemma PerformTwo(proc: Option<Proc>, e: P.Effect, f: P.Effect)
    ensures Perform(proc, [e, f]) == Do(Do(proc, e), f)
    ensures InstallFacts([e, f]) == InstallFacts([e]) + InstallFacts([f])
  {
    assert [e, f][1..] == [f];
    PerformOne(Do(proc, e), f);
    PerformOne(proc, e);
  }

  /** An input adds `fx` to the effects. */
  lemma InputIs(sys: Sys, e: P.Event, fx: seq<P.Effect>)
    requires P.Next(sys.w, e).s.fx == sys.w.s.fx + fx
    ensures Input(sys, e) == Sys(P.Next(sys.w, e), Perform(sys.proc, fx),
                                 sys.log + UserFacts(sys.w.s, e) + InstallFacts(fx))
  {
    hide P.Next, Perform, InstallFacts;
    assert (sys.w.s.fx + fx)[|sys.w.s.fx|..] == fx;
  }

  /** An input that neither spawns a commit helper, nor writes to one, nor installs. */
  predicate Plain(e: P.Effect) { !e.SpawnCommit? && !e.Write? && !e.Install? }

  lemma InputPlain(sys: Sys, e: P.Event)
    requires var (s, t) := (sys.w.s, P.Next(sys.w, e).s);
             t.fx == s.fx || (|t.fx| == |s.fx| + 1 && t.fx == s.fx + [t.fx[|s.fx|]] && Plain(t.fx[|s.fx|]))
    ensures Input(sys, e) == Sys(P.Next(sys.w, e), sys.proc, sys.log + UserFacts(sys.w.s, e))
  {
    hide P.Next;
    var (s, t) := (sys.w.s, P.Next(sys.w, e).s);
    assert sys.log + UserFacts(sys.w.s, e) + [] == sys.log + UserFacts(sys.w.s, e);
    if t.fx == s.fx {
      assert s.fx + [] == s.fx;
      InputIs(sys, e, []);
    } else {
      InputIs(sys, e, [t.fx[|s.fx|]]);
      PerformOne(sys.proc, t.fx[|s.fx|]);
    }
  }

  // ----------------------------------------------------------- the panel's inputs

  predicate HelperRuns(s: P.State) { s.child.Some? && s.child.value.kind.Commit? && s.child.value.running }

  /** The panel moves on without touching its helper: at most it resolves, and clears what it shows. */
  predicate Quiet(s: P.State, t: P.State) {
    && t.attempt == s.attempt && t.mode == s.mode && t.frame == s.frame
    && (HelperRuns(t) <==> HelperRuns(s))
    && (t.review == s.review || t.review.None?) && (t.confirmDrop == s.confirmDrop || t.confirmDrop.None?)
    && (s.resolved ==> t.resolved) && (!t.resolved ==> t.authorizing == s.authorizing)
  }

  lemma QuietKeeps(sys: Sys, w: P.World)
    requires Linked(sys) && Timely(sys) && Quiet(sys.w.s, w.s)
    ensures Linked(sys.(w := w)) && Timely(sys.(w := w))
  {
    hide ProcOk, FrameBytes;
  }

  lemma FactKeeps(sys: Sys, f: Fact)
    requires Linked(sys) && Timely(sys) && f.attempt == sys.w.s.attempt && !f.Reviewed?
    requires f.Withdrew? ==> sys.w.s.resolved
    ensures Linked(sys.(log := sys.log + [f])) && Timely(sys.(log := sys.log + [f]))
  {
    hide ProcOk, FrameBytes;
    if sys.proc.Some? { ProcKept(sys.proc.value, sys.w.s.frame, sys.log, f); }
  }

  lemma ResolveQuiet(s: P.State, end: P.End)
    requires s.child.Some? ==> s.child.value.attempt == s.attempt
    ensures Quiet(s, P.Resolve(s, end)) && P.Resolve(s, end).resolved
    ensures var t := P.Resolve(s, end);
            t.fx == s.fx || (P.Running(s) && t.fx == s.fx + [P.Terminate(s.child.value.attempt, s.child.value.kind)])
  {
  }

  /** What ownership says, without the rest. */
  lemma OwnedFacts(w: P.World)
    requires P.Owned(w)
    ensures w.s.child.None? ==> w.s.resolved && !w.s.committing && w.alive == multiset{}
    ensures w.s.child.Some? ==> w.s.child.value.attempt == w.s.attempt && w.s.committing
    ensures w.s.child.Some? && w.s.child.value.running ==> w.alive == multiset{(w.s.attempt, w.s.child.value.kind)}
    ensures w.s.child.Some? && !w.s.child.value.running ==> !w.s.resolved && w.alive == multiset{}
    ensures w.s.confirmDrop.Some? ==> !w.s.resolved && !P.Running(w.s)
    ensures w.s.review.Some? ==> !w.s.resolved && w.s.mode == P.Expanding
  {
  }

  lemma NextIs(w: P.World, e: P.Event)
    requires P.Owned(w)
    ensures P.Owned(P.Next(w, e))
    ensures P.Next(w, e).s == if P.Possible(w, e) then P.On(w.s, e) else w.s
  {
    P.OwnedStep(w, e);
    hide P.Owned, P.On, P.Spawned;
  }

  lemma StartKeeps(sys: Sys)
    requires Inv(sys)
    ensures Inv(Input(sys, P.Start))
  {
    hide P.Next, P.Owned, Justified, ProcOk, Input, P.Spawn;
    NextIs(sys.w, P.Start);
    OwnedFacts(sys.w);
    StartIs(sys.w.s);
    InputPlain(sys, P.Start);
    assert sys.log + [] == sys.log;
  }

  lemma StartIs(s: P.State)
    ensures var t := P.On(s, P.Start);
            if s.committing then t == s
            else t.attempt == s.attempt + 1 && t.fx == s.fx + [P.SpawnPropose(t.attempt)] && t.frame == s.frame
                 && t.review.None? && t.confirmDrop == s.confirmDrop
                   && t.child == Some(P.Child(t.attempt, P.Propose, true))
                 && t.mode == P.NoMode
  {
  }

  lemma CancelKeeps(sys: Sys, e: P.Event)
    requires Inv(sys) && (e.Cancel? || e.KeepPins?)
    ensures Inv(Input(sys, e))
  {
    hide P.Next, P.Owned, Justified, Linked, Timely, Quiet, Input, P.Resolve;
    NextIs(sys.w, e);
    OwnedFacts(sys.w);
    ResolveQuiet(sys.w.s, P.Cancelled);
    var w := P.Next(sys.w, e);
    assert Quiet(sys.w.s, w.s) by { QuietRefl(sys.w.s); }
    QuietKeeps(sys, w);
    InputPlain(sys, e);
    if e.Cancel? && sys.w.s.committing {
      FactKeeps(sys.(w := w), Withdrew(sys.w.s.attempt)) by { SameAttempt(sys.w.s, w.s); }
      JustifiedSnoc(sys.log, Withdrew(sys.w.s.attempt));
    } else {
      assert sys.log + [] == sys.log;
    }
  }

  lemma QuietRefl(s: P.State)
    ensures Quiet(s, s)
  {
  }

  lemma SameAttempt(s: P.State, t: P.State)
    requires Quiet(s, t)
    ensures t.attempt == s.attempt && t.mode == s.mode && t.frame == s.frame
  {
  }

  /** A commit helper just spawned, in an attempt nothing has been reviewed in. */
  lemma SpawnKeeps(sys: Sys, w: P.World)
    requires Linked(sys) && Timely(sys) && sys.proc.None? && !sys.w.s.resolved
    requires w.s.attempt == sys.w.s.attempt && (w.s.mode.Expanding? || w.s.mode.Reducing?) && '\n' !in w.s.frame
    requires HelperRuns(w.s) && w.s.review.None? && w.s.confirmDrop.None? && !w.s.resolved
    ensures var sys' := Sys(w, Some(NewProc(w.s.attempt, w.s.mode)), sys.log); Linked(sys') && Timely(sys')
  {
    AuthNonEmpty();
    hide FrameBytes;
  }

  lemma ReplaceKeeps(sys: Sys)
    requires Inv(sys)
    ensures Inv(Input(sys, P.ConfirmReplace))
  {
    hide P.Next, P.Owned, Justified, Linked, Timely, Input;
    var s := sys.w.s;
    NextIs(sys.w, P.ConfirmReplace);
    OwnedFacts(sys.w);
    LinkedFacts(sys);
    assert sys.log + [] + [] == sys.log && sys.log + [] == sys.log;
    if s.confirmDrop.Some? {
      InputIs(sys, P.ConfirmReplace, [P.SpawnCommit(s.attempt, s.mode)]);
      PerformOne(sys.proc, P.SpawnCommit(s.attempt, s.mode));
      SpawnKeeps(sys, P.Next(sys.w, P.ConfirmReplace));
    } else {
      InputPlain(sys, P.ConfirmReplace);
      QuietRefl(s);
      QuietKeeps(sys, P.Next(sys.w, P.ConfirmReplace));
    }
  }

  lemma LinkedFacts(sys: Sys)
    requires Linked(sys)
    ensures sys.proc.Some? <==> HelperRuns(sys.w.s)
    ensures '\n' !in sys.w.s.frame && (sys.w.s.confirmDrop.Some? ==> sys.w.s.mode.Expanding?)
    ensures sys.w.s.review.Some? ==> sys.proc.Some? && sys.proc.value.started
    ensures sys.proc.Some? ==> sys.proc.value.attempt == sys.w.s.attempt && sys.proc.value.mode == sys.w.s.mode
    ensures sys.proc.Some? ==> !sys.w.s.mode.NoMode? && ProcOk(sys.proc.value, sys.w.s.frame, sys.log)
    ensures sys.w.s.review.Some? ==> Reviewed(sys.w.s.attempt, sys.w.s.review.value) in sys.log
  {
    hide ProcOk, FrameBytes;
  }

  lemma ProposedKeeps(sys: Sys, r: P.Proposed)
    requires Inv(sys) && OneLine(EngineDone(r))
    ensures Inv(Input(sys, P.ProposeEnded(sys.w.s.attempt, r)))
  {
    hide P.Next, P.Owned, Justified, Linked, Timely, Input, P.EngineResult, P.On;
    var s := sys.w.s;
    var e := P.ProposeEnded(s.attempt, r);
    NextIs(sys.w, e);
    OwnedFacts(sys.w);
    LinkedFacts(sys);
    assert sys.log + [] + [] == sys.log && sys.log + [] == sys.log;
    var w := P.Next(sys.w, e);
    if !P.Possible(sys.w, e) {
      InputPlain(sys, e);
      QuietRefl(s);
      QuietKeeps(sys, w);
    } else {
      assert s.child == Some(P.Child(s.attempt, P.Propose, true)) by { P.AliveIs(sys.w, s.attempt, P.Propose); }
      ProposedIs(s, r);
      if w.s.resolved {
        InputPlain(sys, e);
        DroppedKeeps(sys, w);
      } else {
        PlanOneLine(r);
        if w.s.confirmDrop.Some? {
          InputPlain(sys, e);
          DroppedKeeps(sys, w);
        } else {
          InputIs(sys, e, [P.SpawnCommit(s.attempt, w.s.mode)]);
          PerformOne(sys.proc, P.SpawnCommit(s.attempt, w.s.mode));
          SpawnKeeps(sys, w);
        }
      }
    }
  }

  /** The engine is done and no commit helper follows, at least not yet. */
  lemma DroppedKeeps(sys: Sys, w: P.World)
    requires Linked(sys) && Timely(sys) && sys.proc.None? && w.s.attempt == sys.w.s.attempt
    requires !HelperRuns(w.s) && w.s.review.None? && '\n' !in w.s.frame && (sys.w.s.resolved ==> w.s.resolved)
    requires w.s.confirmDrop.Some? ==> w.s.mode.Expanding?
    ensures Linked(sys.(w := w)) && Timely(sys.(w := w))
  {
  }

  lemma ProposedIs(s: P.State, r: P.Proposed)
    requires s.child == Some(P.Child(s.attempt, P.Propose, true)) && s.review.None? && s.confirmDrop.None?
    ensures var t := P.On(s, P.ProposeEnded(s.attempt, r));
            && t.attempt == s.attempt && t.review.None?
            && (s.resolved ==> t.resolved)
            && (t.resolved ==> t.child.None? && t.frame == s.frame && t.mode == s.mode && t.confirmDrop.None?
                               && (t.fx == s.fx || t.fx == s.fx + [P.Terminate(s.attempt, P.Propose)]))
            && (!t.resolved ==>
                  P.EngineResult(r).Some? && t.frame == P.EngineResult(r).value.frame
                      && t.mode == P.EngineResult(r).value.mode
                  && (t.confirmDrop.Some? ==> t.fx == s.fx && !HelperRuns(t) && P.EngineResult(r).value.dropping != [])
                  && (t.confirmDrop.None? ==> t.fx == s.fx + [P.SpawnCommit(s.attempt, t.mode)] && HelperRuns(t)))
  {
    hide P.EngineResult;
  }

  lemma PlanOneLine(r: P.Proposed)
    requires OneLine(EngineDone(r)) && P.EngineResult(r).Some?
    ensures '\n' !in P.EngineResult(r).value.frame
    ensures P.EngineResult(r).value.mode.Expanding? || P.EngineResult(r).value.mode.Reducing?
    ensures P.EngineResult(r).value.dropping != [] ==> P.EngineResult(r).value.mode.Expanding?
  {
  }

  lemma AuthNonEmpty()
    ensures AUTH != []
  {
    Utf8Append(P.AUTHORIZE, "\n");
  }

  lemma FrameNonEmpty(frame: string)
    ensures FrameBytes(frame) != []
  {
    Utf8Append(frame, "\n");
  }

  lemma ApprovedKeeps(sys: Sys, w: P.World)
    requires Linked(sys) && Timely(sys) && sys.proc.Some? && sys.proc.value.started
    requires P.MayAuthorize(sys.w.s) && w.s == P.On(sys.w.s, P.Authorize)
    ensures var p := sys.proc.value;
            var sys' := Sys(w, Some(p.(stdin := p.stdin + AUTH)),
                            sys.log + [Approved(sys.w.s.attempt, sys.w.s.review.value)]);
            Linked(sys') && Timely(sys')
  {
    var (s, p) := (sys.w.s, sys.proc.value);
    hide FrameBytes, Vouched;
    AuthNonEmpty();
    assert p.stdin == FrameBytes(s.frame);
    var f := Approved(s.attempt, s.review.value);
    ProcKept(p, s.frame, sys.log, f);
    assert f in sys.log + [f];
  }

  lemma AuthorizeKeeps(sys: Sys)
    requires Inv(sys)
    ensures Inv(Input(sys, P.Authorize))
  {
    hide P.Next, P.Owned, Justified, Linked, Timely, Input;
    var s := sys.w.s;
    NextIs(sys.w, P.Authorize);
    OwnedFacts(sys.w);
    LinkedFacts(sys);
    if P.MayAuthorize(s) {
      var x := P.Write(s.attempt, P.AUTHORIZE + "\n");
      var f := Approved(s.attempt, s.review.value);
      InputIs(sys, P.Authorize, [x]);
      PerformOne(sys.proc, x);
      assert sys.log + [f] + [] == sys.log + [f];
      JustifiedSnoc(sys.log, f);
      ApprovedKeeps(sys, P.Next(sys.w, P.Authorize));
    } else {
      InputPlain(sys, P.Authorize);
      assert sys.log + [] == sys.log;
      QuietRefl(s);
      QuietKeeps(sys, P.Next(sys.w, P.Authorize));
    }
  }

  lemma BegunLinked(sys: Sys, w: P.World)
    requires Linked(sys) && Timely(sys) && sys.proc.Some? && !sys.proc.value.started
    requires w.s == sys.w.s.(fx := w.s.fx)
    ensures var (s, p) := (sys.w.s, sys.proc.value);
            var q := if s.resolved then p.(started := true)
                else p.(started := true, stdin := p.stdin + FrameBytes(s.frame));
            Linked(Sys(w, Some(q), sys.log)) && Timely(Sys(w, Some(q), sys.log))
  {
    var (s, p) := (sys.w.s, sys.proc.value);
    assert [] + FrameBytes(s.frame) == FrameBytes(s.frame);
    AuthNonEmpty();
    FrameNonEmpty(s.frame);
    hide FrameBytes, Vouched;
  }

  lemma BegunKeeps(sys: Sys)
    requires Inv(sys) && sys.proc.Some? && !sys.proc.value.started
    ensures Inv(Input(sys.(proc := Some(sys.proc.value.(started := true))), P.CommitStarted(sys.proc.value.attempt)))
  {
    hide P.Next, P.Owned, Justified, Linked, Timely, Input;
    var (s, p) := (sys.w.s, sys.proc.value);
    var e := P.CommitStarted(p.attempt);
    var sys1 := sys.(proc := Some(p.(started := true)));
    NextIs(sys.w, e);
    OwnedFacts(sys.w);
    LinkedFacts(sys);
    assert sys.log + [] + [] == sys.log && sys.log + [] == sys.log;
    BegunLinked(sys, P.Next(sys.w, e));
    if !s.resolved {
      var x := P.Write(s.attempt, s.frame + "\n");
      InputIs(sys1, e, [x]);
      PerformOne(sys1.proc, x);
    } else {
      InputPlain(sys1, e);
    }
  }

  /** The process with its first undelivered line taken. */
  function Popped(p: Proc): Proc
    requires p.out != []
  {
    p.(out := p.out[1..])
  }

  lemma PopKeeps(sys: Sys)
    requires Inv(sys) && sys.proc.Some? && sys.proc.value.out != []
    ensures Inv(sys.(proc := Some(Popped(sys.proc.value))))
    ensures var (p, o) := (sys.proc.value, sys.proc.value.out[0]);
            p.started && (Vouched(p.mode, p.attempt, o).Some? ==> Vouched(p.mode, p.attempt, o).value in sys.log)
  {
    hide P.Owned, Justified, FrameBytes, Vouched;
    var p := sys.proc.value;
    assert p.out[0] in p.out && forall o | o in p.out[1..] :: o in p.out;
  }

  lemma ReviewKeeps(sys: Sys, w: P.World, shown: P.Shown)
    requires Linked(sys) && Timely(sys) && sys.proc.Some? && sys.proc.value.started
    requires w.s == sys.w.s.(review := Some(shown)) && Reviewed(sys.w.s.attempt, shown) in sys.log
    ensures Linked(sys.(w := w)) && Timely(sys.(w := w))
  {
    hide ProcOk, FrameBytes;
  }

  /** What a line does to a live attempt. */
  lemma LineIs(s: P.State, line: P.Line)
    requires !s.resolved && P.Running(s) && s.child.value.attempt == s.attempt
    ensures var t := P.On(s, P.CommitLine(s.attempt, line));
            var stop := P.Terminate(s.attempt, s.child.value.kind);
            match line
            case PreparedLine(summary, diff) =>
              t == if s.mode.Expanding? && s.review.None? then s.(review := Some(P.Shown(summary, diff))) else s
            case CommittedLine(config) =>
              Quiet(s, t) && t.fx == if config == "" then s.fx + [stop]
                  else s.fx + [stop, P.Install(s.attempt, config, s.mode)]
            case OtherLine => t == s
            case _ => Quiet(s, t) && t.fx == s.fx + [stop]
  {
    var stop := P.Terminate(s.attempt, s.child.value.kind);
    forall x ensures s.fx + [stop] + [x] == s.fx + [stop, x] { }
  }

  lemma LineKeeps(sys: Sys, o: D.Out)
    requires Inv(sys) && sys.proc.Some? && sys.proc.value.started
    requires var v := Vouched(sys.w.s.mode, sys.w.s.attempt, o); v.Some? ==> v.value in sys.log
    ensures Inv(Input(sys, P.CommitLine(sys.w.s.attempt, LineOf(o))))
  {
    hide P.Next, P.Owned, Justified, Linked, Timely, Input, P.On, Quiet, FrameBytes, ProcOk;
    var (s, line) := (sys.w.s, LineOf(o));
    var e := P.CommitLine(s.attempt, line);
    NextIs(sys.w, e);
    OwnedFacts(sys.w);
    LinkedFacts(sys);
    var w := P.Next(sys.w, e);
    assert sys.log + [] + [] == sys.log && sys.log + [] == sys.log;
    if s.resolved {
      ResolvedLine(s, line);
      InputPlain(sys, e);
      QuietRefl(s);
      QuietKeeps(sys, w);
    } else {
      LineIs(s, line);
      match line
      case PreparedLine(summary, diff) =>
        InputPlain(sys, e);
        if w.s == s { QuietRefl(s); QuietKeeps(sys, w); } else { ReviewKeeps(sys, w, P.Shown(summary, diff)); }
      case CommittedLine(config) =>
        QuietKeeps(sys, w);
        if config == "" { InputPlain(sys, e); } else { InstallKeeps(sys, config); }
      case _ =>
        InputPlain(sys, e);
        QuietKeeps(sys, w);
    }
  }

  lemma ResolvedLine(s: P.State, line: P.Line)
    requires s.resolved
    ensures P.On(s, P.CommitLine(s.attempt, line)) == s
  {
  }

  lemma InstallKeeps(sys: Sys, config: string)
    requires Inv(sys) && sys.proc.Some? && !sys.w.s.resolved && config != ""
    requires (if sys.w.s.mode.Reducing? then Reduced(sys.w.s.attempt, config)
              else Signed(sys.w.s.attempt, config)) in sys.log
    ensures Inv(Input(sys, P.CommitLine(sys.w.s.attempt, P.CommittedLine(config))))
  {
    hide P.Next, P.Owned, Justified, Linked, Input, P.On, Quiet, FrameBytes, ProcOk;
    var s := sys.w.s;
    var e := P.CommitLine(s.attempt, P.CommittedLine(config));
    NextIs(sys.w, e);
    OwnedFacts(sys.w);
    LinkedFacts(sys);
    LineIs(s, P.CommittedLine(config));
    var w := P.Next(sys.w, e);
    var (stop, x, f) := (P.Terminate(s.attempt, s.child.value.kind), P.Install(s.attempt, config, s.mode),
                         Installed(s.attempt, config, s.mode));
    InputIs(sys, e, [stop, x]);
    PerformTwo(sys.proc, stop, x);
    PerformOne(sys.proc, stop);
    PerformOne(sys.proc, x);
    assert sys.log + [] + ([] + [f]) == sys.log + [f];
    assert RestsOn(f, sys.log);
    JustifiedSnoc(sys.log, f);
    QuietKeeps(sys, w);
    SameAttempt(s, w.s);
    FactKeeps(sys.(w := w), f);
  }

  lemma ExitIs(s: P.State)
    requires HelperRuns(s) && s.child.value.attempt == s.attempt
    ensures var t := P.On(s, P.CommitEnded(s.attempt));
            t.attempt == s.attempt && t.resolved && t.child.None? && t.frame == s.frame
            && (s.confirmDrop.None? ==> t.confirmDrop.None?) && (s.review.None? || !s.resolved ==> t.review.None?)
            && (t.fx == s.fx || t.fx == s.fx + [P.Terminate(s.attempt, P.Commit)])
  {
  }

  lemma ExitLinked(sys: Sys, w: P.World)
    requires Linked(sys) && Timely(sys) && w.s.attempt == sys.w.s.attempt && w.s.resolved && w.s.child.None?
    requires w.s.frame == sys.w.s.frame && w.s.confirmDrop.None? && w.s.review.None?
    ensures Linked(Sys(w, None, sys.log)) && Timely(Sys(w, None, sys.log))
  {
    hide ProcOk, FrameBytes;
  }

  lemma ExitKeeps(sys: Sys)
    requires Inv(sys) && sys.proc.Some?
    ensures Inv(Input(sys, P.CommitEnded(sys.proc.value.attempt)).(proc := None))
  {
    hide P.Next, P.Owned, Justified, Linked, Timely, Input, P.On, FrameBytes, ProcOk;
    var s := sys.w.s;
    var e := P.CommitEnded(s.attempt);
    NextIs(sys.w, e);
    OwnedFacts(sys.w);
    LinkedFacts(sys);
    ExitIs(s);
    assert sys.log + [] + [] == sys.log && sys.log + [] == sys.log;
    InputPlain(sys, e);
    ExitLinked(sys, P.Next(sys.w, e));
  }

  // ---------------------------------------------------------- relaunchctl's steps

  /** The process moves on, writing lines the log already vouches for. */
  lemma ProcKeeps(sys: Sys, q: Proc)
    requires Inv(sys) && sys.proc.Some?
    requires var p := sys.proc.value;
             q.attempt == p.attempt && q.mode == p.mode && q.started == p.started && q.stdin == p.stdin
    requires ProcOk(q, sys.w.s.frame, sys.log)
    ensures Inv(sys.(proc := Some(q)))
  {
    hide P.Owned, Justified, FrameBytes, ProcOk;
  }

  /** A line can only be read whole: however much of it has arrived, it is the line that was written. */
  lemma LineLength(line: seq<byte>, rest: seq<byte>, x: seq<byte>, max: nat, closed: bool)
    requires NL !in line && x <= line + [NL] + rest
    requires var f := Poll(x, max, closed); f.Some? && f.value.Line?
    ensures |Poll(x, max, closed).value.bytes| == |line|
  {
    var full := line + [NL] + rest;
    var i := Newline(x);
    assert full[..i] == x[..i];
    NewlineIs(full, i);
    assert full[..|line|] == line;
    NewlineIs(full, |line|);
  }

  lemma TextLine(text: string)
    requires '\n' !in text
    ensures Utf8(text + "\n") == Utf8(text) + [NL] && NL !in Utf8(text)
  {
    Utf8Append(text, "\n");
    Utf8Ascii(text, '\n');
  }

  lemma AuthorizeOneLine()
    ensures '\n' !in P.AUTHORIZE
  {
  }

  lemma RequestIs(p: Proc, frame: string, max: nat, closed: bool)
    requires InBounds(p) && p.read == 0 && '\n' !in frame
    requires p.stdin == [] || p.stdin == FrameBytes(frame) || p.stdin == FrameBytes(frame) + AUTH
    requires var f := Poll(p.stdin[p.read..p.avail], max, closed); f.Some? && f.value.Line?
    ensures |Poll(p.stdin[p.read..p.avail], max, closed).value.bytes| + 1 == |FrameBytes(frame)| <= p.avail
      && p.stdin != []
  {
    TextLine(frame);
    var (l, x) := (Utf8(frame), p.stdin[p.read..p.avail]);
    hide Newline, Poll, Utf8;
    EmptyNoLine(max, closed);
    LineFits(x, max, closed);
    if p.stdin == FrameBytes(frame) {
      assert p.stdin == l + [NL] + [];
      LineLength(l, [], x, max, closed);
    } else if p.stdin != [] {
      LineLength(l, AUTH, x, max, closed);
    }
  }

  lemma TailIs(first: seq<byte>, second: seq<byte>, avail: nat)
    requires |first| <= avail <= |first| + |second|
    ensures (first + second)[|first|..avail] == second[..avail - |first|]
  {
  }

  lemma WholeLine(line: seq<byte>, x: seq<byte>, max: nat, closed: bool)
    requires NL !in line && x <= line + [NL]
    requires var f := Poll(x, max, closed); f.Some? && f.value.Line?
    ensures x == line + [NL] && |Poll(x, max, closed).value.bytes| == |line|
  {
    hide Newline, Poll;
    assert line + [NL] + [] == line + [NL];
    LineLength(line, [], x, max, closed);
    LineFits(x, max, closed);
  }

  lemma AuthIs()
    ensures AUTH == Utf8(P.AUTHORIZE) + [NL] && NL !in Utf8(P.AUTHORIZE)
  {
    AuthorizeOneLine();
    TextLine(P.AUTHORIZE);
  }

  lemma DecisionIs(first: seq<byte>, avail: nat, max: nat, closed: bool, sent: bool)
    requires var stdin := if sent then first + AUTH else first;
             |first| <= avail <= |stdin|
             && var f := Poll(stdin[|first|..avail], max, closed); f.Some? && f.value.Line?
    ensures sent && avail == |first + AUTH|
    ensures |Poll((first + AUTH)[|first|..avail], max, closed).value.bytes| + 1 == |AUTH|
  {
    AuthIs();
    EmptyNoLine(max, closed);
    hide Newline, Poll, Utf8;
    if sent {
      TailIs(first, AUTH, avail);
      WholeLine(Utf8(P.AUTHORIZE), AUTH[..avail - |first|], max, closed);
    }
  }

  /** Which line a process reads: its request first, then the user's authorization, then nothing. */
  lemma ReadIs(p: Proc, frame: string, log: seq<Fact>)
    requires ProcOk(p, frame, log) && Pending(p).Some? && Pending(p).value.Line? && '\n' !in frame
    ensures p.phase.CommitRequest? || p.phase.ReduceRequest? ==>
              |Pending(p).value.bytes| + 1 == |FrameBytes(frame)| <= p.avail && p.stdin != []
    ensures p.phase.Pause? ==>
              p.stdin == FrameBytes(frame) + AUTH && p.read + |Pending(p).value.bytes| + 1 == |p.stdin| == p.avail
  {
    hide Newline, Poll, Utf8, FrameBytes;
    var closed := p.closed && p.avail == |p.stdin|;
    if p.phase.CommitRequest? || p.phase.ReduceRequest? {
      RequestIs(p, frame, D.Limit(p.phase), closed);
    } else if p.phase.Pause? {
      DecisionIs(FrameBytes(frame), p.avail, D.Limit(p.phase), closed, p.stdin != FrameBytes(frame));
    }
  }

  lemma AuthorizingIdle(p: Proc, frame: string, log: seq<Fact>)
    requires ProcOk(p, frame, log) && p.phase.Authorizing?
    ensures Pending(p).None? || !Pending(p).value.Line?
  {
    assert p.stdin[p.read..p.avail] == [];
    EmptyNoLine(D.Limit(p.phase), p.closed && p.avail == |p.stdin|);
  }

  lemma EmptyNoLine(max: nat, closed: bool)
    ensures var f := Poll([], max, closed); f.None? || !f.value.Line?
  {
  }

  lemma LineFits(x: seq<byte>, max: nat, closed: bool)
    requires var f := Poll(x, max, closed); f.Some? && f.value.Line?
    ensures |Poll(x, max, closed).value.bytes| < |x|
  {
  }

  lemma OnFrameIs(wire: D.Wire, phase: D.Phase, f: Frame)
    ensures var (q, out) := D.OnFrame(wire, phase, f);
            && (forall o | o in out :: o == D.ErrorEvent)
            && (q.Over? || q == phase || (phase.CommitRequest? && q.Preparing? && f.Line?)
                || (phase.ReduceRequest? && q.Reducing? && f.Line?) || (phase.Pause? && q.Authorizing? && f.Line?))
            && (q == phase && D.Reads(phase) && !phase.Over? ==> f.Line? && phase.Authorizing?)
  {
  }

  lemma ReadPhase(wire: D.Wire, p: Proc, frame: string, log: seq<Fact>)
    requires ProcOk(p, frame, log) && '\n' !in frame
    ensures var q := DoRead(wire, p);
            && InBounds(q) && PhaseOk(q, frame) && (forall o | o in q.out :: o in p.out || o == D.ErrorEvent)
            && q == p.(phase := q.phase, out := q.out, read := q.read)
            && (!p.started ==> q == p) && (q.phase.CommitRequest? || q.phase.Preparing? ==>
                                           p.phase.CommitRequest? || p.phase.Preparing?)
  {
    hide Pending, FrameBytes, D.OnFrame, Vouched;
    AuthNonEmpty();
    if p.started && D.Reads(p.phase) && Pending(p).Some? {
      var f := Pending(p).value;
      OnFrameIs(wire, p.phase, f);
      if p.phase.Authorizing? { AuthorizingIdle(p, frame, log); }
      if f.Line? { ReadIs(p, frame, log); }
    }
  }

  lemma ReadOk(wire: D.Wire, p: Proc, frame: string, log: seq<Fact>)
    requires ProcOk(p, frame, log) && '\n' !in frame
    ensures ProcOk(DoRead(wire, p), frame, log)
  {
    ReadPhase(wire, p, frame, log);
    hide DoRead, PhaseOk, FrameBytes, Vouched;
    var q := DoRead(wire, p);
    forall o | o in q.out && Vouched(q.mode, q.attempt, o).Some? ensures Vouched(q.mode, q.attempt, o).value in log {
      if o !in p.out { ErrorIsQuiet(q.mode, q.attempt); }
    }
  }

  lemma ErrorIsQuiet(mode: P.Mode, a: nat)
    ensures Vouched(mode, a, D.ErrorEvent) == None
  {
  }

  lemma AnswerIs(p: Proc, a: D.Answer)
    requires InBounds(p)
    ensures var q := DoAnswer(p, a);
            && q == p.(phase := q.phase, out := q.out)
            && (q.out == p.out || (|q.out| == |p.out| + 1 && q.out == p.out + [q.out[|p.out|]]))
            && (q.phase == p.phase || q.phase.Over? || (p.phase.Preparing? && q.phase.Pause?))
            && (q.out != p.out ==>
                  && p.started && (p.phase.Preparing? || p.phase.Authorizing? || p.phase.Reducing?)
                  && (q.out[|p.out|].PreparedEvent? <==> q.phase.Pause?)
                  && (q.out[|p.out|].CommittedEvent? ==> !p.phase.Preparing?)
                  && q.phase != p.phase)
            && (q.phase != p.phase ==> q.out != p.out)
  {
    hide FromUtf8, Pending;
  }

  lemma AnsweredFact(p: Proc, q: Proc, log: seq<Fact>, frame: string) returns (f: Option<Fact>)
    requires ProcOk(p, frame, log) && exists a :: q == DoAnswer(p, a)
    ensures AnswerFacts(p, q) == if f.Some? then [f.value] else []
    ensures f.None? ==> ProcOk(q, frame, log)
    ensures f.Some? ==> f.value.attempt == p.attempt && RestsOn(f.value, log) && ProcOk(q, frame, log + [f.value])
    ensures f.Some? ==> f.value.Reviewed? || f.value.Signed? || f.value.Reduced?
  {
    var a :| q == DoAnswer(p, a);
    AnswerIs(p, a);
    hide DoAnswer, FrameBytes;
    if q.out == p.out {
      f := None;
    } else {
      var o := q.out[|p.out|];
      f := Vouched(p.mode, p.attempt, o);
      assert forall x | x in q.out :: x in p.out || x == o;
      if f.Some? { FactIn(log, f.value); }
    }
  }

  lemma FactIn(log: seq<Fact>, f: Fact)
    ensures f in log + [f] && forall g | g in log :: g in log + [f]
    ensures forall g | g in log + [f] :: g in log || g == f
  {
  }

  lemma AnsweredKeeps(sys: Sys, a: D.Answer)
    requires Inv(sys) && sys.proc.Some? && InBounds(sys.proc.value)
    ensures var p := sys.proc.value; Inv(Sys(sys.w, Some(DoAnswer(p, a)), sys.log + AnswerFacts(p, DoAnswer(p, a))))
  {
    hide P.Owned, Justified, FrameBytes, ProcOk, RestsOn;
    var p := sys.proc.value;
    AnswerIs(p, a);
    var q := DoAnswer(p, a);
    var f := AnsweredFact(p, q, sys.log, sys.w.s.frame);
    hide DoAnswer, AnswerFacts;
    if f.Some? {
      JustifiedSnoc(sys.log, f.value);
      FactIn(sys.log, f.value);
    } else {
      assert sys.log + [] == sys.log;
      ProcKeeps(sys, q);
    }
  }

  lemma MovedOk(p: Proc, q: Proc, frame: string, log: seq<Fact>)
    requires ProcOk(p, frame, log) && q == p.(avail := q.avail, closed := q.closed) && p.avail <= q.avail <= |p.stdin|
    ensures ProcOk(q, frame, log)
  {
    hide FrameBytes, Vouched;
  }

  lemma StepKeeps(wire: D.Wire, sys: Sys, e: Event)
    requires Inv(sys) && OneLine(e)
    ensures Inv(Step(wire, sys, e))
  {
    hide Inv, Linked, Input, DoRead, DoAnswer, ProcOk;
    if e.User? {
      match e.e
      case Start => StartKeeps(sys);
      case ConfirmReplace => ReplaceKeeps(sys);
      case KeepPins => CancelKeeps(sys, e.e);
      case Authorize => AuthorizeKeeps(sys);
      case Cancel => CancelKeeps(sys, e.e);
      case _ =>
    } else if e.EngineDone? {
      ProposedKeeps(sys, e.r);
    } else if sys.proc.Some? && InBounds(sys.proc.value) {
      ProcStepKeeps(wire, sys, e);
    }
  }

  lemma InvFacts(sys: Sys)
    requires Inv(sys) && sys.proc.Some?
    ensures var p := sys.proc.value;
            ProcOk(p, sys.w.s.frame, sys.log) && '\n' !in sys.w.s.frame
            && p.attempt == sys.w.s.attempt && p.mode == sys.w.s.mode
  {
    hide ProcOk;
  }

  lemma ProcStepKeeps(wire: D.Wire, sys: Sys, e: Event)
    requires Inv(sys) && sys.proc.Some? && InBounds(sys.proc.value)
    ensures Inv(ProcStep(wire, sys, sys.proc.value, e))
  {
    hide Inv, Linked, Input, DoRead, DoAnswer, ProcOk, Vouched;
    var p := sys.proc.value;
    InvFacts(sys);
    match e
    case Begun => if !p.started { BegunKeeps(sys); }
    case Arrive(n) =>
      var q := p.(avail := if p.avail + n <= |p.stdin| then p.avail + n else |p.stdin|);
      MovedOk(p, q, sys.w.s.frame, sys.log);
      ProcKeeps(sys, q);
    case Close =>
      MovedOk(p, p.(closed := true), sys.w.s.frame, sys.log);
      ProcKeeps(sys, p.(closed := true));
    case Read =>
      ReadOk(wire, p, sys.w.s.frame, sys.log);
      ReadSame(wire, p);
      ProcKeeps(sys, DoRead(wire, p));
    case Answered(a) => AnsweredKeeps(sys, a);
    case Deliver =>
      if p.out != [] {
        PopKeeps(sys);
        LineKeeps(sys.(proc := Some(Popped(p))), p.out[0]);
      }
    case Exit => ExitKeeps(sys);
    case _ =>
  }

  lemma ReadSame(wire: D.Wire, p: Proc)
    requires InBounds(p)
    ensures var q := DoRead(wire, p);
            q.attempt == p.attempt && q.mode == p.mode && q.started == p.started && q.stdin == p.stdin
  {
    hide Pending, D.OnFrame;
  }

  lemma {:induction false} InvHolds(wire: D.Wire, es: seq<Event>)
    requires forall e | e in es :: OneLine(e)
    ensures Inv(Run(wire, es))
    decreases |es|
  {
    hide Step, OneLine;
    if es == [] {
      StartInv();
    } else {
      InvHolds(wire, es[..|es| - 1]);
      hide Inv;
      StepKeeps(wire, Run(wire, es[..|es| - 1]), es[|es| - 1]);
    }
  }

  lemma StartInv()
    ensures Inv(Sys(P.World(P.INITIAL, multiset{}), None, []))
  {
  }

  lemma At(log: seq<Fact>, i: nat, f: Fact) returns (j: nat)
    requires i <= |log| && f in log[..i]
    ensures j < i && log[j] == f
  {
    j :| 0 <= j < i && log[..i][j] == f;
  }

  /** Whatever is installed in a reviewed change: first the service put up one review, the only one of
      that attempt; then the user authorized with exactly that review on screen; then the service handed
      over exactly the document installed; and the user had not cancelled. However the bytes arrived. */
  lemma InstalledWasAuthorized(wire: D.Wire, es: seq<Event>, i: nat, a: nat, config: string)
    returns (r: nat, u: nat, g: nat, shown: P.Shown)
    requires (forall e | e in es :: OneLine(e)) && i < |Run(wire, es).log|
    requires Run(wire, es).log[i] == Installed(a, config, P.Expanding)
    ensures var log := Run(wire, es).log;
            && r < u < g < i && log[r] == Reviewed(a, shown) && log[u] == Approved(a, shown)
              && log[g] == Signed(a, config)
            && (forall k | 0 <= k < i :: log[k] != Withdrew(a))
            && (forall k | 0 <= k < u && k != r :: !(log[k].Reviewed? && log[k].attempt == a))
  {
    hide Run;
    InvHolds(wire, es);
    var log := Run(wire, es).log;
    assert RestsOn(log[i], log[..i]);
    g := At(log, i, Signed(a, config));
    assert RestsOn(log[g], log[..g]);
    var f :| f in log[..g] && f.Approved? && f.attempt == a;
    u := At(log, g, f);
    shown := f.shown;
    assert RestsOn(log[u], log[..u]);
    r := At(log, u, Reviewed(a, shown));
    forall k | 0 <= k < u && k != r ensures !(log[k].Reviewed? && log[k].attempt == a) {
      var (x, y) := if k < r then (k, r) else (r, k);
      assert RestsOn(log[y], log[..y]) && log[..y][x] in log[..y];
    }
    forall k | 0 <= k < i ensures log[k] != Withdrew(a) { assert log[..i][k] in log[..i]; }
  }

  /** A promptless change is only ever the service's own answer to a reduction, and not after a cancel. */
  lemma InstalledReduction(wire: D.Wire, es: seq<Event>, i: nat, a: nat, config: string, mode: P.Mode) returns (g: nat)
    requires (forall e | e in es :: OneLine(e)) && i < |Run(wire, es).log|
    requires Run(wire, es).log[i] == Installed(a, config, mode) && mode != P.Expanding
    ensures mode == P.Reducing && g < i && Run(wire, es).log[g] == Reduced(a, config)
    ensures forall k | 0 <= k < i :: Run(wire, es).log[k] != Withdrew(a)
  {
    hide Run;
    InvHolds(wire, es);
    var log := Run(wire, es).log;
    assert RestsOn(log[i], log[..i]);
    g := At(log, i, Reduced(a, config));
    forall k | 0 <= k < i ensures log[k] != Withdrew(a) { assert log[..i][k] in log[..i]; }
  }
}
