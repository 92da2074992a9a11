/** The panel's transaction lifecycle (TxnLifecycle.js): one change at a time, from the engine's
    proposal through relaunchctl to the installed list. Display text is left out. */
module Panel {
  import opened Text

  datatype Kind = Propose | Commit

  datatype Mode = NoMode | Expanding | Reducing

  datatype Child = Child(attempt: nat, kind: Kind, running: bool)

  datatype Shown = Shown(summary: string, diff: string)

  datatype Pin = Pin(name: string, workspace: nat)

  datatype End = Open | Committed | Unchanged | Failed | Cancelled

  /** What the machine asks of the panel. `Install` also names the attempt it happens in. */
  datatype Effect =
    | SpawnPropose(attempt: nat) | SpawnCommit(attempt: nat, mode: Mode) | Write(attempt: nat, text: string)
    | Terminate(attempt: nat, kind: Kind) | Install(attempt: nat, config: string, mode: Mode)

  datatype State = State(
    attempt: nat, resolved: bool, committing: bool, authorizing: bool, review: Option<Shown>,
    confirmDrop: Option<seq<Pin>>, child: Option<Child>, mode: Mode, frame: string, end: End, fx: seq<Effect>)

  /** The engine's reply once parsed: not JSON, not `ok`, or a change with its base. */
  datatype Change =
    CommitChange(proposalJson: string, dropping: seq<Pin>) | ReduceChange(reduceJson: string) | OtherChange

  datatype EngineReply = NoReply | NotOk | Ok(base: Option<string>, change: Change)

  datatype Proposed = Proposed(started: bool, exitCode: int, reply: EngineReply)

  datatype Line =
    PreparedLine(summary: string, diff: string) | CommittedLine(config: string) | NothingLine | ErrorLine | OtherLine

  datatype Event =
    | Start | ConfirmReplace | KeepPins | Authorize | Cancel
    | ProposeEnded(attempt: nat, result: Proposed)
    | CommitStarted(attempt: nat) | CommitLine(attempt: nat, line: Line) | CommitEnded(attempt: nat)

  const INITIAL := State(0, true, false, false, None, None, None, NoMode, "", Open, [])

  const AUTHORIZE := "{\"decision\":\"authorize\"}"

  // ------------------------------------------------------------ the request frame

  function HexPad(n: nat): string { Pad(Numeral(n, 16), 4) }

  function StringifyChar(c: char): (s: string)
    ensures '\n' !in s
  {
    if c == '"' then "\\\""
    else if c == '\\' then "\\\\"
    else if c == '\n' then "\\n"
    else if c == '\r' then "\\r"
    else if c == '\t' then "\\t"
    else if c as int == 8 then "\\b"
    else if c as int == 12 then "\\f"
    else if c as int < 0x20 then "\\u" + HexPad(c as int)
    else [c]
  }

  /** The inside of `JSON.stringify` of a string: one line, whatever the string holds. */
  function Stringify(s: string): (r: string)
    ensures '\n' !in r
  {
    if s == [] then [] else StringifyChar(s[0]) + Stringify(s[1..])
  }

  function Wrap(base: string, proposalJson: string): (r: string)
    ensures '\n' !in proposalJson ==> '\n' !in r
  {
    "{\"base\":\"" + Stringify(base) + "\",\"proposal\":" + proposalJson + "}"
  }

  datatype Plan = Plan(mode: Mode, frame: string, dropping: seq<Pin>)

  /** Only a reply that exited 0, said ok and named a known kind starts relaunchctl. */
  function EngineResult(r: Proposed): Option<Plan> {
    if r.exitCode == 0 && r.reply.Ok? && r.reply.base.Some? then
      match r.reply.change
      case CommitChange(p, dropping) => Some(Plan(Expanding, Wrap(r.reply.base.value, p), dropping))
      case ReduceChange(j) => if '\n' !in j then Some(Plan(Reducing, j, [])) else None
      case OtherChange => None
    else None
  }

  // ----------------------------------------------------------- what each input does

  predicate Live(s: State, attempt: nat) { attempt == s.attempt && !s.resolved }

  function Emit(s: State, e: Effect): State { s.(fx := s.fx + [e]) }

  predicate Running(s: State) { s.child.Some? && s.child.value.running }

  function Resolve(s: State, end: End): State {
    if s.resolved then s
    else
      var t := s.(resolved := true, authorizing := false, review := None, confirmDrop := None, end := end);
      if Running(s) then Emit(t, Terminate(s.child.value.attempt, s.child.value.kind))
      else t.(committing := false, child := None)
  }

  function Spawn(s: State, kind: Kind): State {
    var t := s.(child := Some(Child(s.attempt, kind, true)));
    Emit(t, if kind.Propose? then SpawnPropose(s.attempt) else SpawnCommit(s.attempt, s.mode))
  }

  function ChildEnded(s: State, attempt: nat, kind: Kind): State {
    var t :=
      if s.child.Some? && s.child.value.attempt == attempt && s.child.value.kind == kind
      then s.(child := Some(s.child.value.(running := false))) else s;
    if attempt == s.attempt && s.resolved && !Running(t) then t.(committing := false, child := None) else t
  }

  /** Refused, with nothing changed, while a change is still being made. */
  function StartAttempt(s: State): State {
    if s.committing then s
    else
      Spawn(s.(attempt := s.attempt + 1, end := Open, resolved := false, committing := true, authorizing := false,
               review := None, mode := NoMode), Propose)
  }

  function OnConfirmReplace(s: State): State {
    if s.confirmDrop.None? || s.resolved then s else Spawn(s.(confirmDrop := None), Commit)
  }

  function OnKeepPins(s: State): State {
    if s.confirmDrop.None? || s.resolved then s else Resolve(s, Cancelled)
  }

  function OnProposeEnded(s: State, attempt: nat, r: Proposed): State {
    if !Live(s, attempt) then ChildEnded(s, attempt, Propose)
    else if !r.started || EngineResult(r).None? then ChildEnded(Resolve(s, Failed), attempt, Propose)
    else
      var plan := EngineResult(r).value;
      var t := ChildEnded(s.(mode := plan.mode, frame := plan.frame), attempt, Propose);
      if plan.dropping != [] then t.(confirmDrop := Some(plan.dropping)) else Spawn(t, Commit)
  }

  function OnCommitStarted(s: State, attempt: nat): State {
    if Live(s, attempt) then Emit(s, Write(attempt, s.frame + "\n")) else Emit(s, Terminate(attempt, Commit))
  }

  function OnCommitLine(s: State, attempt: nat, line: Line): State {
    if !Live(s, attempt) then s
    else
      match line
      case PreparedLine(summary, diff) =>
        if s.mode != Expanding || s.review.Some? then s else s.(review := Some(Shown(summary, diff)))
      case CommittedLine(config) =>
        var t := Resolve(s, Committed);
        if config == "" then t else Emit(t, Install(s.attempt, config, s.mode))
      case NothingLine => Resolve(s, Unchanged)
      case ErrorLine => Resolve(s, Failed)
      case OtherLine => s
  }

  function OnCommitEnded(s: State, attempt: nat): State {
    ChildEnded(if Live(s, attempt) then Resolve(s, Failed) else s, attempt, Commit)
  }

  predicate MayAuthorize(s: State) {
    s.child.Some? && s.child.value.kind.Commit? && Live(s, s.child.value.attempt) && s.review.Some? && !s.authorizing
  }

  function OnAuthorize(s: State): State {
    if MayAuthorize(s) then Emit(s, Write(s.child.value.attempt, AUTHORIZE + "\n")).(authorizing := true) else s
  }

  function OnCancel(s: State): State { if s.committing then Resolve(s, Cancelled) else s }

  function On(s: State, e: Event): State {
    match e
    case Start => StartAttempt(s)
    case ConfirmReplace => OnConfirmReplace(s)
    case KeepPins => OnKeepPins(s)
    case Authorize => OnAuthorize(s)
    case Cancel => OnCancel(s)
    case ProposeEnded(a, r) => OnProposeEnded(s, a, r)
    case CommitStarted(a) => OnCommitStarted(s, a)
    case CommitLine(a, line) => OnCommitLine(s, a, line)
    case CommitEnded(a) => OnCommitEnded(s, a)
  }

  // ------------------------------------------------------------------- the machine

  class Lifecycle {
    var attempt: nat
    var resolved: bool
    var committing: bool
    var authorizing: bool
    var review: Option<Shown>
    var confirmDrop: Option<seq<Pin>>
    var child: Option<Child>
    var mode: Mode
    var frame: string
    var outcome: End
    var fx: seq<Effect>

    constructor ()
      ensures Contents() == INITIAL
    {
      attempt, resolved, committing, authorizing := 0, true, false, false;
      review, confirmDrop, child := None, None, None;
      mode, frame, outcome, fx := NoMode, "", Open, [];
    }

    function Contents(): State
      reads this
    {
      State(attempt, resolved, committing, authorizing, review, confirmDrop, child, mode, frame, outcome, fx)
    }

    method Finish(end: End)
      modifies this
      ensures Contents() == Resolve(old(Contents()), end)
    {
      if resolved { return; }
      resolved := true;
      authorizing := false;
      review := None;
      confirmDrop := None;
      outcome := end;
      if child.Some? && child.value.running {
        fx := fx + [Terminate(child.value.attempt, child.value.kind)];
      } else {
        committing := false;
        child := None;
      }
    }

    method SpawnChild(kind: Kind)
      modifies this
      ensures Contents() == Spawn(old(Contents()), kind)
    {
      child := Some(Child(attempt, kind, true));
      fx := fx + [if kind.Propose? then SpawnPropose(attempt) else SpawnCommit(attempt, mode)];
    }

    method NoteEnded(a: nat, kind: Kind)
      modifies this
      ensures Contents() == ChildEnded(old(Contents()), a, kind)
    {
      if child.Some? && child.value.attempt == a && child.value.kind == kind {
        child := Some(child.value.(running := false));
      }
      if a == attempt && resolved && !(child.Some? && child.value.running) {
        committing := false;
        child := None;
      }
    }

    method Begin() returns (started: bool)
      modifies this
      ensures Contents() == On(old(Contents()), Start) && started == !old(committing)
    {
      if committing { return false; }
      attempt := attempt + 1;
      outcome := Open;
      resolved := false;
      committing := true;
      authorizing := false;
      review := None;
      mode := NoMode;
      SpawnChild(Propose);
      return true;
    }

    method Replace()
      modifies this
      ensures Contents() == On(old(Contents()), ConfirmReplace)
    {
      if confirmDrop.None? || resolved { return; }
      confirmDrop := None;
      SpawnChild(Commit);
    }

    method Keep()
      modifies this
      ensures Contents() == On(old(Contents()), KeepPins)
    {
      if confirmDrop.None? || resolved { return; }
      Finish(Cancelled);
    }

    method ProposalEnded(a: nat, r: Proposed)
      modifies this
      ensures Contents() == On(old(Contents()), ProposeEnded(a, r))
    {
      if a == attempt && !resolved {
        if !r.started {
          Finish(Failed);
        } else {
          var plan := EngineResult(r);
          if plan.None? {
            Finish(Failed);
          } else {
            mode := plan.value.mode;
            frame := plan.value.frame;
            NoteEnded(a, Propose);
            if plan.value.dropping != [] {
              confirmDrop := Some(plan.value.dropping);
              return;
            }
            SpawnChild(Commit);
            return;
          }
        }
      }
      NoteEnded(a, Propose);
    }

    method HelperStarted(a: nat)
      modifies this
      ensures Contents() == On(old(Contents()), CommitStarted(a))
    {
      if !(a == attempt && !resolved) {
        fx := fx + [Terminate(a, Commit)];
        return;
      }
      fx := fx + [Write(a, frame + "\n")];
    }

    method HelperLine(a: nat, line: Line)
      modifies this
      ensures Contents() == On(old(Contents()), CommitLine(a, line))
    {
      if !(a == attempt && !resolved) { return; }
      match line
      case PreparedLine(summary, diff) =>
        if mode != Expanding || review.Some? { return; }
        review := Some(Shown(summary, diff));
      case CommittedLine(config) =>
        Finish(Committed);
        if config != "" { fx := fx + [Install(attempt, config, mode)]; }
      case NothingLine => Finish(Unchanged);
      case ErrorLine => Finish(Failed);
      case OtherLine =>
    }

    method HelperEnded(a: nat)
      modifies this
      ensures Contents() == On(old(Contents()), CommitEnded(a))
    {
      if a == attempt && !resolved { Finish(Failed); }
      NoteEnded(a, Commit);
    }

    method Approve()
      modifies this
      ensures Contents() == On(old(Contents()), Authorize)
    {
      if child.None? { return; }
      var c := child.value;
      if !c.kind.Commit? || !(c.attempt == attempt && !resolved) || review.None? || authorizing { return; }
      fx := fx + [Write(c.attempt, AUTHORIZE + "\n")];
      authorizing := true;
    }

    method Withdraw()
      modifies this
      ensures Contents() == On(old(Contents()), Cancel)
    {
      if !committing { return; }
      Finish(Cancelled);
    }
  }

  // ------------------------------------------------------------ over whole runs

  /** Helper processes that have been spawned and have not reported their end. */
  type Helpers = multiset<(nat, Kind)>

  datatype World = World(s: State, alive: Helpers)

  function SpawnedBy(e: Effect): Helpers {
    match e
    case SpawnPropose(a) => multiset{(a, Propose)}
    case SpawnCommit(a, _) => multiset{(a, Commit)}
    case _ => multiset{}
  }

  function Spawned(fx: seq<Effect>): Helpers {
    if fx == [] then multiset{} else Spawned(fx[..|fx| - 1]) + SpawnedBy(fx[|fx| - 1])
  }

  /** A process reports its end once, and only if it was spawned; any other input may come at any time. */
  predicate Possible(w: World, e: Event) {
    match e
    case ProposeEnded(a, _) => (a, Propose) in w.alive
    case CommitEnded(a) => (a, Commit) in w.alive
    case _ => true
  }

  function Reaped(alive: Helpers, e: Event): Helpers {
    match e
    case ProposeEnded(a, _) => alive - multiset{(a, Propose)}
    case CommitEnded(a) => alive - multiset{(a, Commit)}
    case _ => alive
  }

  function Next(w: World, e: Event): World {
    if !Possible(w, e) then w
    else
      var s := On(w.s, e);
      World(s, Reaped(w.alive, e) + (Spawned(s.fx) - Spawned(w.s.fx)))
  }

  function Run(es: seq<Event>): World {
    if es == [] then World(INITIAL, multiset{}) else Next(Run(es[..|es| - 1]), es[|es| - 1])
  }

  /** Ownership: the helper on record is the one process alive, it belongs to the current attempt, and
      an attempt without one is resolved or waiting for the user's answer. */
  predicate Owned(w: World) {
    var s := w.s;
    && (match s.child
        case None => w.alive == multiset{} && s.resolved && !s.committing
        case Some(c) => c.attempt == s.attempt && s.committing
                        && w.alive == if c.running then multiset{(c.attempt, c.kind)} else multiset{})
    && (s.child.Some? && !s.child.value.running ==> !s.resolved && s.confirmDrop.Some? && s.child.value.kind.Propose?)
    && (s.confirmDrop.Some? ==> !s.resolved && !Running(s))
    && (s.review.Some? ==> !s.resolved && s.mode == Expanding)
    && (s.authorizing ==> s.review.Some? && s.child.value.kind.Commit?)
    && (Running(s) && s.child.value.kind.Propose? && !s.resolved ==> s.mode == NoMode)
  }

  /** How often a document was installed in an attempt. */
  function Installs(fx: seq<Effect>, attempt: nat): nat {
    if fx == [] then 0
    else Installs(fx[..|fx| - 1], attempt) + (if fx[|fx| - 1].Install? && fx[|fx| - 1].attempt == attempt then 1 else 0)
  }

  /** What an effect adds to the processes spawned so far. */
  lemma SpawnedSnoc(fx: seq<Effect>, e: Effect)
    ensures Spawned(fx + [e]) == Spawned(fx) + SpawnedBy(e)
  {
    assert (fx + [e])[..|fx|] == fx;
  }

  /** The helpers alive once the effects have grown from `fx` to `t.fx`. */
  predicate Moved(fx: seq<Effect>, alive: Helpers, t: State) {
    fx <= t.fx && Owned(World(t, alive + (Spawned(t.fx) - Spawned(fx))))
  }

  lemma ResolveOwned(fx: seq<Effect>, s: State, alive: Helpers, end: End)
    requires Owned(World(s, alive)) && fx == s.fx
    ensures Moved(fx, alive, Resolve(s, end))
    ensures Spawned(Resolve(s, end).fx) == Spawned(fx)
  {
    if Running(s) { SpawnedSnoc(fx, Terminate(s.child.value.attempt, s.child.value.kind)); }
  }

  lemma EmitOwned(fx: seq<Effect>, s: State, alive: Helpers, e: Effect)
    requires Moved(fx, alive, s) && !e.SpawnPropose? && !e.SpawnCommit? && Spawned(s.fx) == Spawned(fx)
    ensures Moved(fx, alive, Emit(s, e))
  {
    hide Spawned;
    SpawnedSnoc(s.fx, e);
  }

  /** A helper may be spawned when none is alive. */
  lemma SpawnOwned(s: State, kind: Kind)
    requires !s.resolved && s.committing && !s.authorizing && s.confirmDrop == None && !Running(s)
    requires (s.review.Some? ==> s.mode == Expanding) && (kind.Propose? ==> s.mode == NoMode)
    ensures Moved(s.fx, multiset{}, Spawn(s, kind))
  {
    hide Spawned;
    SpawnedSnoc(s.fx, if kind.Propose? then SpawnPropose(s.attempt) else SpawnCommit(s.attempt, s.mode));
  }

  lemma EndedOwned(w: World, kind: Kind)
    requires Owned(w) && (w.s.attempt, kind) in w.alive && w.s.resolved
    ensures Owned(World(ChildEnded(w.s, w.s.attempt, kind), w.alive - multiset{(w.s.attempt, kind)}))
  {
  }

  lemma AliveIs(w: World, a: nat, kind: Kind)
    requires Owned(w) && (a, kind) in w.alive
    ensures w.s.child == Some(Child(a, kind, true)) && a == w.s.attempt && w.alive == multiset{(a, kind)}
  {
  }

  lemma ProposeEndedOwned(w: World, a: nat, r: Proposed)
    requires Owned(w) && (a, Propose) in w.alive
    ensures Moved(w.s.fx, w.alive - multiset{(a, Propose)}, OnProposeEnded(w.s, a, r))
  {
    hide Spawned, EngineResult;
    AliveIs(w, a, Propose);
    if !Live(w.s, a) {
      EndedOwned(w, Propose);
    } else if !r.started || EngineResult(r).None? {
      ResolveOwned(w.s.fx, w.s, w.alive, Failed);
      EndedOwned(World(Resolve(w.s, Failed), w.alive), Propose);
    } else {
      var plan := EngineResult(r).value;
      var t := ChildEnded(w.s.(mode := plan.mode, frame := plan.frame), a, Propose);
      if plan.dropping == [] { SpawnOwned(t, Commit); }
    }
  }

  lemma CommitEndedOwned(w: World, a: nat)
    requires Owned(w) && (a, Commit) in w.alive
    ensures Moved(w.s.fx, w.alive - multiset{(a, Commit)}, OnCommitEnded(w.s, a))
  {
    hide Spawned;
    AliveIs(w, a, Commit);
    var t := if Live(w.s, a) then Resolve(w.s, Failed) else w.s;
    ResolveOwned(w.s.fx, w.s, w.alive, Failed);
    EndedOwned(World(t, w.alive), Commit);
  }

  lemma LineOwned(w: World, a: nat, line: Line)
    requires Owned(w)
    ensures Moved(w.s.fx, w.alive, OnCommitLine(w.s, a, line))
  {
    hide Spawned, Resolve;
    if Live(w.s, a) {
      match line
      case CommittedLine(config) =>
        ResolveOwned(w.s.fx, w.s, w.alive, Committed);
        EmitOwned(w.s.fx, Resolve(w.s, Committed), w.alive, Install(w.s.attempt, config, w.s.mode));
      case NothingLine => ResolveOwned(w.s.fx, w.s, w.alive, Unchanged);
      case ErrorLine => ResolveOwned(w.s.fx, w.s, w.alive, Failed);
      case _ =>
    }
  }

  lemma OtherOwned(w: World, e: Event)
    requires Owned(w) && !e.ProposeEnded? && !e.CommitEnded? && !e.CommitLine?
    ensures Moved(w.s.fx, w.alive, On(w.s, e))
  {
    hide Spawned, Resolve, Spawn, Emit;
    match e
    case Start => if !w.s.committing { StartOwned(w); }
    case ConfirmReplace => if w.s.confirmDrop.Some? { SpawnOwned(w.s.(confirmDrop := None), Commit); }
    case KeepPins => ResolveOwned(w.s.fx, w.s, w.alive, Cancelled);
    case Cancel => ResolveOwned(w.s.fx, w.s, w.alive, Cancelled);
    case Authorize => if MayAuthorize(w.s) { AuthorizeOwned(w); }
    case CommitStarted(a) =>
      EmitOwned(w.s.fx, w.s, w.alive, if Live(w.s, a) then Write(a, w.s.frame + "\n") else Terminate(a, Commit));
  }

  lemma StartOwned(w: World)
    requires Owned(w) && !w.s.committing
    ensures Moved(w.s.fx, w.alive, StartAttempt(w.s))
  {
    hide Spawned, Spawn;
    SpawnOwned(w.s.(attempt := w.s.attempt + 1, end := Open, resolved := false, committing := true,
                    authorizing := false, review := None, mode := NoMode), Propose);
  }

  lemma AuthorizeOwned(w: World)
    requires Owned(w) && MayAuthorize(w.s)
    ensures Moved(w.s.fx, w.alive, OnAuthorize(w.s))
  {
    hide Spawned;
    EmitOwned(w.s.fx, w.s, w.alive, Write(w.s.child.value.attempt, AUTHORIZE + "\n"));
  }

  lemma OwnedStep(w: World, e: Event)
    requires Owned(w)
    ensures Owned(Next(w, e)) && w.s.fx <= Next(w, e).s.fx
  {
    hide Spawned, Owned, OnProposeEnded, OnCommitEnded, OnCommitLine;
    if Possible(w, e) {
      if e.ProposeEnded? { ProposeEndedOwned(w, e.attempt, e.result); }
      else if e.CommitEnded? { CommitEndedOwned(w, e.attempt); }
      else if e.CommitLine? { LineOwned(w, e.attempt, e.line); }
      else { OtherOwned(w, e); }
    }
  }

  lemma {:induction false} OwnedHolds(es: seq<Event>)
    ensures Owned(Run(es))
    decreases |es|
  {
    hide Next;
    if es != [] {
      OwnedHolds(es[..|es| - 1]);
      OwnedStep(Run(es[..|es| - 1]), es[|es| - 1]);
    }
  }

  /** Never two helper processes at once, and none at all while no change is being made. */
  lemma OneHelper(es: seq<Event>)
    ensures |Run(es).alive| <= 1
    ensures !Run(es).s.committing ==> Run(es).alive == multiset{}
    ensures !Run(es).s.resolved ==> Run(es).s.committing
  {
    hide Run;
    OwnedHolds(es);
  }

  // ------------------------------------------------------- once resolved, for good

  /** The attempt an input comes from. */
  function Origin(e: Event): Option<nat> {
    match e
    case ProposeEnded(a, _) => Some(a)
    case CommitStarted(a) => Some(a)
    case CommitLine(a, _) => Some(a)
    case CommitEnded(a) => Some(a)
    case _ => None
  }

  lemma InstallsSnoc(fx: seq<Effect>, e: Effect, a: nat)
    ensures Installs(fx + [e], a) == Installs(fx, a) + (if e.Install? && e.attempt == a then 1 else 0)
  {
    assert (fx + [e])[..|fx|] == fx;
  }

  lemma OnInstalls(s: State, e: Event, a: nat)
    ensures var t := On(s, e);
            && (Installs(t.fx, a) == Installs(s.fx, a)
                || (Installs(t.fx, a) == Installs(s.fx, a) + 1 && a == s.attempt && !s.resolved && t.resolved
                    && t.attempt == a && t.end == Committed && e.CommitLine? && e.line.CommittedLine?))
            && s.attempt <= t.attempt
            && (s.resolved && t.attempt == s.attempt ==> t.resolved && t.end == s.end)
            && (t.attempt != s.attempt ==> !t.resolved && e == Start)
  {
    hide Installs, EngineResult;
    forall x ensures Installs(s.fx + [x], a) == Installs(s.fx, a) + (if x.Install? && x.attempt == a then 1 else 0) {
      InstallsSnoc(s.fx, x, a);
    }
    if e.CommitLine? && Running(s) {
      var fx := s.fx + [Terminate(s.child.value.attempt, s.child.value.kind)];
      forall x ensures Installs(fx + [x], a) == Installs(fx, a) + (if x.Install? && x.attempt == a then 1 else 0) {
        InstallsSnoc(fx, x, a);
      }
    }
  }

  lemma {:induction false} InstallsHold(es: seq<Event>, a: nat)
    ensures var s := Run(es).s;
            Installs(s.fx, a) <= 1 && (a > s.attempt || (a == s.attempt && !s.resolved) ==> Installs(s.fx, a) == 0)
            && (a == s.attempt && Installs(s.fx, a) == 1 ==> s.end == Committed)
    decreases |es|
  {
    hide On, Installs;
    if es != [] {
      InstallsHold(es[..|es| - 1], a);
      OnInstalls(Run(es[..|es| - 1]).s, es[|es| - 1], a);
    } else {
      assert Installs([], a) == 0 by { NoInstalls(a); }
    }
  }

  lemma NoInstalls(a: nat)
    ensures Installs([], a) == 0
  {
  }

  predicate NoneEmpty(fx: seq<Effect>) { forall e | e in fx && e.Install? :: e.config != "" }

  lemma StepsNoneEmpty()
    ensures forall s: State, end | NoneEmpty(s.fx) :: NoneEmpty(Resolve(s, end).fx)
    ensures forall s: State, kind | NoneEmpty(s.fx) :: NoneEmpty(Spawn(s, kind).fx)
    ensures forall s: State, attempt: nat, kind :: ChildEnded(s, attempt, kind).fx == s.fx
    ensures forall s: State, e: Effect | NoneEmpty(s.fx) && !(e.Install? && e.config == "") :: NoneEmpty(Emit(s, e).fx)
  {
  }

  lemma OnNoneEmpty(s: State, e: Event)
    requires NoneEmpty(s.fx)
    ensures NoneEmpty(On(s, e).fx)
  {
    hide EngineResult, Resolve, Spawn, ChildEnded, Emit, NoneEmpty;
    StepsNoneEmpty();
  }

  /** A result without a document ends the attempt and installs nothing. */
  lemma {:induction false} NothingEmptyInstalled(es: seq<Event>)
    ensures NoneEmpty(Run(es).s.fx)
    decreases |es|
  {
    hide On;
    if es != [] {
      NothingEmptyInstalled(es[..|es| - 1]);
      OnNoneEmpty(Run(es[..|es| - 1]).s, es[|es| - 1]);
    }
  }

  /** An attempt resolves once: however it ended, it stays ended that way, and nothing is installed in
      it from then on (so nothing after a cancel). It installs one document at most. */
  lemma {:induction false} ResolvedForGood(es: seq<Event>, n: nat)
    requires n <= |es| && Run(es[..n]).s.resolved
    ensures var (s, t) := (Run(es[..n]).s, Run(es).s);
            && Installs(t.fx, s.attempt) == Installs(s.fx, s.attempt) <= 1
            && s.attempt <= t.attempt && (t.attempt == s.attempt ==> t.resolved && t.end == s.end)
    decreases |es|
  {
    hide On, Installs;
    var a := Run(es[..n]).s.attempt;
    InstallsHold(es, a);
    if n == |es| {
      assert es[..n] == es;
    } else {
      var init := es[..|es| - 1];
      assert init[..n] == es[..n];
      ResolvedForGood(init, n);
      OnInstalls(Run(init).s, es[|es| - 1], a);
    }
  }

  /** Input from an abandoned or resolved attempt can at most terminate its own helper. */
  lemma StaleHarmless(es: seq<Event>, e: Event)
    requires var s := Run(es).s;
             Origin(e).Some? && (Origin(e).value != s.attempt || (s.resolved && !e.ProposeEnded? && !e.CommitEnded?))
    ensures var (w, v) := (Run(es), Next(Run(es), e));
            (v == w || v == World(w.s.(fx := w.s.fx + [Terminate(Origin(e).value, Commit)]), w.alive))
  {
    hide Run, Spawned;
    OwnedHolds(es);
    var w := Run(es);
    if e.CommitStarted? { SpawnedSnoc(w.s.fx, Terminate(e.attempt, Commit)); }
  }
}
