/** One attempt of the panel from its engine reply on: when relaunchctl is started for it, what it is sent, and
    what becomes of its answer, over every run. */
module Attempts {
  import opened Text
  import opened Panel

  /** The effects of event `n`. */
  function Effects(es: seq<Event>, n: nat): seq<Effect>
    requires n < |es|
  {
    hide Run;
    var (before, after) := (Run(es[..n]).s.fx, Run(es[..n + 1]).s.fx);
    if |before| <= |after| then after[|before|..] else []
  }

  /** Event `k` is the engine's usable reply in the open attempt `a`, and `plan` what it asks for. */
  predicate Replied(es: seq<Event>, k: nat, a: nat, plan: Plan) {
    hide Run, EngineResult;
    && k < |es| && es[k].ProposeEnded? && es[k].attempt == a && es[k].result.started
    && Possible(Run(es[..k]), es[k]) && Live(Run(es[..k]).s, a) && EngineResult(es[k].result) == Some(plan)
  }

  /** The attempt's plan is on record from the reply on. */
  predicate Planned(es: seq<Event>, k: nat, s: State, plan: Plan) {
    Replied(es, k, s.attempt, plan) && s.mode == plan.mode && s.frame == plan.frame
  }

  /** While pins are in question, or relaunchctl has been started, in an open attempt, its engine reply named what
      is in question or what was sent. */
  ghost predicate Known(es: seq<Event>, s: State) {
    && (!s.resolved && s.confirmDrop.Some? ==>
          exists k, plan :: Planned(es, k, s, plan) && s.confirmDrop == Some(plan.dropping) && plan.dropping != [])
    && (!s.resolved && s.child.Some? && s.child.value.kind.Commit? ==> exists k, plan :: Planned(es, k, s, plan))
  }

  lemma RunNext(es: seq<Event>, n: nat)
    requires n < |es|
    ensures Run(es[..n + 1]) == Next(Run(es[..n]), es[n])
  {
    hide Next;
    assert es[..n + 1][..n] == es[..n];
  }

  lemma RepliedEarlier(es: seq<Event>, n: nat, k: nat, a: nat, plan: Plan)
    requires n <= |es| && Replied(es[..n], k, a, plan)
    ensures Replied(es, k, a, plan)
  {
    hide Run, EngineResult;
    assert es[..n][..k] == es[..k];
  }

  /** What a reply does: relaunchctl is started at once, or the pins it would drop are put in question first. */
  lemma ReplyActs(w: World, a: nat, r: Proposed)
    requires Owned(w) && (a, Propose) in w.alive && Live(w.s, a)
    ensures var t := On(w.s, ProposeEnded(a, r));
            && t.attempt == a
            && (if !r.started || EngineResult(r).None? then t.resolved && t.end == Failed
                else
                  var plan := EngineResult(r).value;
                  && !t.resolved && t.mode == plan.mode && t.frame == plan.frame
                  && if plan.dropping == [] then
                       t.fx == w.s.fx + [SpawnCommit(a, plan.mode)] && t.confirmDrop == None
                       && t.child == Some(Child(a, Commit, true))
                     else
                       t.fx == w.s.fx && t.confirmDrop == Some(plan.dropping)
                       && t.child == Some(Child(a, Propose, false)))
  {
    hide Spawned, EngineResult;
    AliveIs(w, a, Propose);
  }

  /** Any other input neither puts pins in question nor starts relaunchctl, but for the answer to the question. */
  lemma OthersAct(w: World, e: Event)
    requires Owned(w) && Possible(w, e) && !(e.ProposeEnded? && Live(w.s, e.attempt))
    ensures var (s, t) := (w.s, On(w.s, e));
            && (!t.resolved && (t.confirmDrop.Some? || (t.child.Some? && t.child.value.kind.Commit?)) ==>
                  !s.resolved && t.attempt == s.attempt && t.mode == s.mode && t.frame == s.frame)
            && (!t.resolved && t.confirmDrop.Some? ==> t.confirmDrop == s.confirmDrop)
            && (!t.resolved && t.child.Some? && t.child.value.kind.Commit? ==>
                  (s.child.Some? && s.child.value.kind.Commit?) || (e == ConfirmReplace && s.confirmDrop.Some?))
  {
    hide Spawned, EngineResult;
    if e.ProposeEnded? { AliveIs(w, e.attempt, Propose); }
    if e.CommitEnded? { AliveIs(w, e.attempt, Commit); }
  }

  lemma PlannedLater(es: seq<Event>, n: nat, k: nat, s: State, t: State, plan: Plan)
    requires n <= |es| && Planned(es[..n], k, s, plan)
    requires t.attempt == s.attempt && t.mode == s.mode && t.frame == s.frame
    ensures Planned(es, k, t, plan)
  {
    hide Replied;
    RepliedEarlier(es, n, k, s.attempt, plan);
  }

  lemma KnownStep(es: seq<Event>)
    requires es != [] && Known(es[..|es| - 1], Run(es[..|es| - 1]).s)
    ensures Known(es, Run(es).s)
  {
    hide Run, On, Replied, Next;
    var n := |es| - 1;
    var (w, e) := (Run(es[..n]), es[n]);
    RunNext(es, n);
    assert es[..n + 1] == es;
    OwnedHolds(es[..n]);
    var t := Run(es).s;
    StepIs(w, e);
    if Possible(w, e) && e.ProposeEnded? && Live(w.s, e.attempt) {
      ReplyActs(w, e.attempt, e.result);
      if e.result.started && EngineResult(e.result).Some? {
        ReplyPlanned(es, n, t, EngineResult(e.result).value);
      }
    } else {
      if Possible(w, e) { OthersAct(w, e); }
      KnownOn(es, n, w.s, t);
    }
  }

  lemma StepIs(w: World, e: Event)
    ensures Next(w, e).s == if Possible(w, e) then On(w.s, e) else w.s
  {
    hide On;
  }

  lemma ReplyPlanned(es: seq<Event>, k: nat, t: State, plan: Plan)
    requires k < |es| && es[k].ProposeEnded? && es[k].result.started && Possible(Run(es[..k]), es[k])
    requires Live(Run(es[..k]).s, es[k].attempt) && EngineResult(es[k].result) == Some(plan)
    requires t.attempt == es[k].attempt && t.mode == plan.mode && t.frame == plan.frame
    ensures Planned(es, k, t, plan)
  {
    hide Run, EngineResult;
  }

  lemma KnownOn(es: seq<Event>, n: nat, s: State, t: State)
    requires n <= |es| && Known(es[..n], s)
    requires !t.resolved && (t.confirmDrop.Some? || (t.child.Some? && t.child.value.kind.Commit?)) ==>
               !s.resolved && t.attempt == s.attempt && t.mode == s.mode && t.frame == s.frame
    requires !t.resolved && t.confirmDrop.Some? ==> t.confirmDrop == s.confirmDrop
    requires !t.resolved && t.child.Some? && t.child.value.kind.Commit? ==>
               (s.child.Some? && s.child.value.kind.Commit?) || s.confirmDrop.Some?
    ensures Known(es, t)
  {
    hide Planned;
    if !t.resolved && t.confirmDrop.Some? {
      var k, plan :| Planned(es[..n], k, s, plan) && s.confirmDrop == Some(plan.dropping) && plan.dropping != [];
      PlannedLater(es, n, k, s, t, plan);
    }
    if !t.resolved && t.child.Some? && t.child.value.kind.Commit? {
      var k, plan :| Planned(es[..n], k, s, plan);
      PlannedLater(es, n, k, s, t, plan);
    }
  }

  lemma {:induction false} KnownHolds(es: seq<Event>)
    ensures Known(es, Run(es).s)
    decreases |es|
  {
    hide Planned, Next;
    if es != [] {
      hide Run;
      KnownHolds(es[..|es| - 1]);
      KnownStep(es);
    }
  }

  // -------------------------------------------------------- when relaunchctl is started

  /** Relaunchctl is started only by a usable reply that drops nothing, or by the user's going on. */
  lemma SpawnCause(w: World, e: Event, a: nat, mode: Mode)
    requires Owned(w) && Possible(w, e) && w.s.fx <= On(w.s, e).fx
    requires SpawnCommit(a, mode) in On(w.s, e).fx[|w.s.fx|..]
    ensures a == w.s.attempt && !w.s.resolved
    ensures || (e.ProposeEnded? && e.attempt == a && e.result.started && EngineResult(e.result).Some?
                && EngineResult(e.result).value.dropping == [] && mode == EngineResult(e.result).value.mode)
            || (e == ConfirmReplace && w.s.confirmDrop.Some? && mode == w.s.mode)
  {
    hide Spawned, EngineResult;
    if e.ProposeEnded? { AliveIs(w, e.attempt, Propose); }
    if e.CommitEnded? { AliveIs(w, e.attempt, Commit); }
  }

  /** Nothing that would drop pins is sent before the user has agreed to exactly those: wherever relaunchctl is
      started, the attempt's engine reply either named no pins, and starts it at once, or named those in question
      when the user chose to go on. */
  lemma DropsAsked(es: seq<Event>, n: nat, a: nat, mode: Mode) returns (k: nat, plan: Plan)
    requires n < |es| && SpawnCommit(a, mode) in Effects(es, n)
    ensures k <= n && Replied(es, k, a, plan) && mode == plan.mode && Live(Run(es[..n]).s, a)
    ensures if plan.dropping == [] then k == n
            else es[n] == ConfirmReplace && Run(es[..n]).s.confirmDrop == Some(plan.dropping)
  {
    hide Run, On, Next, EngineResult;
    var (w, e) := (Run(es[..n]), es[n]);
    RunNext(es, n);
    StepIs(w, e);
    OwnedHolds(es[..n]);
    OwnedStep(w, e);
    SpawnCause(w, e, a, mode);
    if e.ProposeEnded? {
      k, plan := n, EngineResult(e.result).value;
    } else {
      KnownHolds(es[..n]);
      k, plan :| Planned(es[..n], k, w.s, plan) && w.s.confirmDrop == Some(plan.dropping) && plan.dropping != [];
      RepliedEarlier(es, n, k, a, plan);
    }
  }

  /** And a usable reply always leads there: relaunchctl started at once when it drops nothing, exactly its pins put
      in question otherwise, and started as soon as the user goes on. */
  lemma RepliesLead(es: seq<Event>, n: nat, a: nat, plan: Plan)
    requires Replied(es, n, a, plan)
    ensures var t := Run(es[..n + 1]).s;
            && Live(t, a) && t.mode == plan.mode && t.frame == plan.frame
            && if plan.dropping == [] then Effects(es, n) == [SpawnCommit(a, plan.mode)]
               else Effects(es, n) == [] && t.confirmDrop == Some(plan.dropping)
  {
    hide Run, On, Next, EngineResult;
    var w := Run(es[..n]);
    RunNext(es, n);
    StepIs(w, es[n]);
    OwnedHolds(es[..n]);
    ReplyActs(w, a, es[n].result);
  }

  lemma AnswersLead(es: seq<Event>, n: nat)
    requires n < |es| && (es[n] == ConfirmReplace || es[n] == KeepPins) && Run(es[..n]).s.confirmDrop.Some?
    ensures var (s, t) := (Run(es[..n]).s, Run(es[..n + 1]).s);
            && !s.resolved && t.attempt == s.attempt && t.confirmDrop == None
            && if es[n] == ConfirmReplace then Effects(es, n) == [SpawnCommit(s.attempt, s.mode)] && !t.resolved
               else Effects(es, n) == [] && t.resolved && t.end == Cancelled
  {
    hide Run, Next, EngineResult;
    var w := Run(es[..n]);
    RunNext(es, n);
    StepIs(w, es[n]);
    OwnedHolds(es[..n]);
  }

  /** Once the user keeps the pins, relaunchctl is never started in that attempt. */
  lemma KeptForGood(es: seq<Event>, k: nat, n: nat, mode: Mode)
    requires k < n < |es| && es[k] == KeepPins && Run(es[..k]).s.confirmDrop.Some?
    ensures SpawnCommit(Run(es[..k]).s.attempt, mode) !in Effects(es, n)
  {
    hide Run, On, Next, Replied, Effects;
    var a := Run(es[..k]).s.attempt;
    AnswersLead(es, k);
    if SpawnCommit(a, mode) in Effects(es, n) {
      var j, plan := DropsAsked(es, n, a, mode);
      assert es[..n][..k + 1] == es[..k + 1];
      ResolvedForGood(es[..n], k + 1);
    }
  }

  // ----------------------------------------------------------------- what is sent

  /** A JSON string's inside, up to its closing quote (section 7 of RFC 8259), and what follows it. */
  function ReadString(s: string): Option<(string, string)>
    decreases |s|
  {
    if s == [] || s[0] as int < 0x20 then None
    else if s[0] == '"' then Some(([], s[1..]))
    else if s[0] != '\\' then After(s[0], ReadString(s[1..]))
    else if |s| == 1 then None
    else if s[1] == 'u' then
      if |s| < 6 then None
      else match Value(s[2..6], 16)
           case Some(v) => if Scalar(v).Some? then After(Scalar(v).value, ReadString(s[6..])) else None
           case None => None
    else match Unescaped(s[1]) case Some(c) => After(c, ReadString(s[2..])) case None => None
  }

  function After(c: char, r: Option<(string, string)>): Option<(string, string)> {
    match r case Some(x) => Some(([c] + x.0, x.1)) case None => None
  }

  function Unescaped(c: char): Option<char> {
    if c == '"' || c == '\\' || c == '/' then Some(c)
    else if c == 'b' then Some(8 as char)
    else if c == 'f' then Some(12 as char)
    else if c == 'n' then Some('\n')
    else if c == 'r' then Some('\r')
    else if c == 't' then Some('\t')
    else None
  }

  lemma CharReads(c: char, rest: string)
    ensures ReadString(StringifyChar(c) + rest) == After(c, ReadString(rest))
  {
    var (e, s) := (StringifyChar(c), StringifyChar(c) + rest);
    if |e| == 1 {
      assert s[0] == c && s[1..] == rest;
    } else if |e| == 2 {
      assert s[0] == '\\' && s[1] == e[1] && s[2..] == rest;
    } else {
      HexReads(c as int);
      assert e == "\\u" + HexPad(c as int);
      assert s[0] == '\\' && s[1] == 'u' && s[2..6] == HexPad(c as int) && s[6..] == rest;
    }
  }

  lemma HexReads(n: nat)
    requires n < 0x20
    ensures |HexPad(n)| == 4 && Value(HexPad(n), 16) == Some(n)
  {
    NumeralValue(n, 16);
    PadValue(Numeral(n, 16), 4, 16);
    assert n / 16 < 16 && |Numeral(n, 16)| <= 2;
    PadLength(Numeral(n, 16), 4);
  }

  lemma {:induction false} PadLength(s: string, width: nat)
    requires |s| <= width
    ensures |Pad(s, width)| == width
    decreases width - |s|
  {
    if |s| < width { PadLength(['0'] + s, width); }
  }

  lemma QuoteEnds(rest: string)
    ensures ReadString(['"'] + rest) == Some(([], rest))
  {
  }

  /** Whatever the string holds, a JSON reader gets it back from the frame, and nothing in it ends it early. */
  lemma {:induction false} StringifyReads(w: string, rest: string)
    ensures ReadString(Stringify(w) + (['"'] + rest)) == Some((w, rest))
  {
    hide ReadString, StringifyChar;
    if w == [] {
      assert Stringify(w) + (['"'] + rest) == ['"'] + rest;
      QuoteEnds(rest);
    } else {
      StringifyReads(w[1..], rest);
      CharReads(w[0], Stringify(w[1..]) + (['"'] + rest));
      assert Stringify(w) + (['"'] + rest) == StringifyChar(w[0]) + (Stringify(w[1..]) + (['"'] + rest));
      assert w == [w[0]] + w[1..];
    }
  }

  lemma WrapReads(base: string, p: string)
    ensures "{\"base\":\"" <= Wrap(base, p)
    ensures ReadString(Wrap(base, p)[|"{\"base\":\""|..]) == Some((base, ",\"proposal\":" + p + "}"))
  {
    hide ReadString, Stringify;
    var rest := ",\"proposal\":" + p + "}";
    StringifyReads(base, rest);
    var (head, tail) := ("{\"base\":\"", Stringify(base) + (['"'] + rest));
    assert Wrap(base, p) == head + tail;
    assert (head + tail)[|head|..] == tail;
  }

  /** A usable reply is one that exited 0, said ok, gave a base and named a known kind: the frame sent for a commit
      holds that base as a JSON string, and then the engine's proposal as it came. */
  lemma PlanExact(r: Proposed)
    ensures EngineResult(r).Some? <==>
              r.exitCode == 0 && r.reply.Ok? && r.reply.base.Some?
              && (r.reply.change.CommitChange? || (r.reply.change.ReduceChange? && '\n' !in r.reply.change.reduceJson))
    ensures EngineResult(r).Some? && r.reply.change.CommitChange? ==>
              var (plan, change) := (EngineResult(r).value, r.reply.change);
              && plan.mode == Expanding && plan.dropping == change.dropping
              && "{\"base\":\"" <= plan.frame
              && ReadString(plan.frame[|"{\"base\":\""|..])
                 == Some((r.reply.base.value, ",\"proposal\":" + change.proposalJson + "}"))
    ensures EngineResult(r).Some? && r.reply.change.ReduceChange? ==>
              EngineResult(r).value == Plan(Reducing, r.reply.change.reduceJson, [])
  {
    hide Wrap, ReadString;
    if EngineResult(r).Some? && r.reply.change.CommitChange? {
      WrapReads(r.reply.base.value, r.reply.change.proposalJson);
    }
  }

  /** What a started relaunchctl is sent is its attempt's plan; one started too late is stopped. */
  lemma RequestSent(es: seq<Event>, n: nat) returns (k: nat, plan: Plan)
    requires n < |es| && es[n].CommitStarted?
    ensures var (s, a) := (Run(es[..n]).s, es[n].attempt);
            if !Live(s, a) then Effects(es, n) == [Terminate(a, Commit)]
            else if s.child == Some(Child(a, Commit, true)) then
              k < n && Replied(es, k, a, plan) && Effects(es, n) == [Write(a, plan.frame + "\n")]
            else true
  {
    hide Run, Next, EngineResult, Planned;
    k, plan := 0, Plan(NoMode, "", []);
    var w := Run(es[..n]);
    RunNext(es, n);
    StepIs(w, es[n]);
    if Live(w.s, es[n].attempt) && w.s.child == Some(Child(es[n].attempt, Commit, true)) {
      KnownHolds(es[..n]);
      k, plan :| Planned(es[..n], k, w.s, plan);
      PlannedIs(es, n, k, w.s, plan);
    }
  }

  lemma PlannedIs(es: seq<Event>, n: nat, k: nat, s: State, plan: Plan)
    requires n <= |es| && Planned(es[..n], k, s, plan)
    ensures k < n && Replied(es, k, s.attempt, plan) && s.frame == plan.frame && s.mode == plan.mode
  {
    RepliedEarlier(es, n, k, s.attempt, plan);
    hide Run, EngineResult;
  }

  /** The user's yes is sent exactly while a review of an open attempt is up and it has not been sent before. */
  lemma ApprovalSent(es: seq<Event>, n: nat)
    requires n < |es| && es[n] == Panel.Authorize
    ensures var s := Run(es[..n]).s;
            && Effects(es, n) == (if s.review.Some? && !s.authorizing && s.child.Some? && s.child.value.kind.Commit?
                                  then [Write(s.attempt, "{\"decision\":\"authorize\"}" + "\n")] else [])
            && Run(es[..n + 1]).s.authorizing == (s.authorizing || Effects(es, n) != [])
  {
    hide Run, Next, EngineResult;
    var w := Run(es[..n]);
    RunNext(es, n);
    StepIs(w, es[n]);
    OwnedHolds(es[..n]);
  }

  // ------------------------------------------------------------- what becomes of its answer

  /** A line of the open attempt's relaunchctl: the first review of a change that expands the list is put up; a
      document is installed, and it, a change of nothing and an error end the attempt. */
  lemma LineTaken(es: seq<Event>, n: nat)
    requires n < |es| && es[n].CommitLine? && Live(Run(es[..n]).s, es[n].attempt)
    ensures var (s, t, a) := (Run(es[..n]).s, Run(es[..n + 1]).s, es[n].attempt);
            match es[n].line
            case PreparedLine(summary, diff) =>
              !t.resolved
              && t.review == if s.mode.Expanding? && s.review.None? then Some(Shown(summary, diff)) else s.review
            case CommittedLine(config) =>
              t.end == Committed && t.resolved
              && (Install(a, config, s.mode) in Effects(es, n) <==> config != "")
            case NothingLine => t.end == Unchanged && t.resolved
            case ErrorLine => t.end == Failed && t.resolved
            case OtherLine => t == s
  {
    hide Run, Next, EngineResult;
    var (w, t) := (Run(es[..n]), Run(es[..n + 1]).s);
    RunNext(es, n);
    StepIs(w, es[n]);
    if es[n].line.CommittedLine? {
      var end := if Running(w.s) then [Terminate(w.s.child.value.attempt, w.s.child.value.kind)] else [];
      var config := es[n].line.config;
      assert t.fx == w.s.fx + (end + if config == "" then [] else [Install(es[n].attempt, config, w.s.mode)]);
      assert config != "" ==> t.fx[|t.fx| - 1] == Effects(es, n)[|Effects(es, n)| - 1];
    }
  }

  /** Ending an attempt stops its running helper first. */
  lemma ResolveStops(s: State, e: Event)
    requires s.child.Some? && s.child.value.running && !s.resolved && On(s, e).resolved
    ensures |On(s, e).fx| > |s.fx| && On(s, e).fx[|s.fx|] == Terminate(s.child.value.attempt, s.child.value.kind)
  {
    hide EngineResult;
  }

  /** However an attempt ends, its running helper is stopped with it; and once no helper is left, the panel takes
      another change. */
  lemma EndsFree(es: seq<Event>, n: nat)
    requires n < |es|
    ensures var (s, t) := (Run(es[..n]).s, Run(es[..n + 1]).s);
            && (!s.resolved && t.resolved && t.attempt == s.attempt && Run(es[..n + 1]).alive != multiset{} ==>
                  s.child.Some? && Terminate(t.attempt, s.child.value.kind) in Effects(es, n))
            && (t.resolved && Run(es[..n + 1]).alive == multiset{} ==>
                  !t.committing && StartAttempt(t).attempt == t.attempt + 1 && Live(StartAttempt(t), t.attempt + 1))
  {
    hide Run, Next, EngineResult, Spawned;
    var w := Run(es[..n]);
    RunNext(es, n);
    StepIs(w, es[n]);
    OwnedHolds(es[..n]);
    OwnedHolds(es[..n + 1]);
    OwnedStep(w, es[n]);
    if !w.s.resolved && Run(es[..n + 1]).s.resolved && Running(w.s) {
      ResolveStops(w.s, es[n]);
      assert Effects(es, n)[0] in Effects(es, n);
    }
    hide On;
    if Possible(w, es[n]) && es[n].ProposeEnded? { AliveIs(w, es[n].attempt, Propose); }
    if Possible(w, es[n]) && es[n].CommitEnded? { AliveIs(w, es[n].attempt, Commit); }
  }

  /** The user's no ends an open attempt, whatever it waits for. */
  lemma CancelEnds(es: seq<Event>, n: nat)
    requires n < |es| && es[n] == Cancel
    ensures var (s, t) := (Run(es[..n]).s, Run(es[..n + 1]).s);
            t.resolved && t.attempt == s.attempt && (!s.resolved ==> t.end == Cancelled) && (s.resolved ==> t == s)
  {
    hide Run, Next, EngineResult, Spawned;
    var w := Run(es[..n]);
    RunNext(es, n);
    StepIs(w, es[n]);
    OwnedHolds(es[..n]);
  }
}
