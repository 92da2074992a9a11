/** relaunchctl's commit and reduce transactions (driver.rs): one request, a review, a decision, and a
    credential check raced with withdrawal. */
module Driver {
  import opened Text
  import opened Model
  import opened Frame

  datatype Decision = Approve | Withdraw

  datatype Request = PrepareRequest(base: seq<byte>, proposal: seq<byte>)

  datatype Reduction = Reduction(base: seq<byte>, ops: seq<(string, string)>)

  /** The line protocol's JSON parsers. */
  datatype Wire = Wire(
    parsePrepare: seq<byte> -> Option<Request>, parseDecision: seq<byte> -> Option<Decision>,
    parseReduce: seq<byte> -> Option<Reduction>)

  const MAX_REQUEST_BYTES := 4 * 1024 * 1024 + 64 * 1024
  const MAX_REQUEST_FRAME := 3 * MAX_REQUEST_BYTES + 4096
  const MAX_REDUCE_OPS := 2 * MAX_ENTRIES
  const MAX_DECISION_FRAME := 256

  /** What the service answers: it may refuse, or be lost, or do what it was asked. */
  datatype Answer =
    | Refused
    | Prepared(txid: seq<byte>, summary: string, diff: string)
    | Signed(document: seq<byte>)

  datatype Out =
    PreparedEvent(summary: string, diff: string) | CommittedEvent(config: string) | NothingEvent | ErrorEvent

  datatype Outcome = Committed | Nothing | Cancelled | Failed

  /** What is asked of the service, from connecting on. */
  datatype Call =
    | Connect
    | Prepare(base: seq<byte>, proposal: seq<byte>)
    | Authorize(txid: seq<byte>)
    | Reduce(base: seq<byte>, ops: seq<(string, string)>)

  /** The service on the other side of the bus: whether it can be reached, how it will answer, and a record of
      what it was asked. */
  class Service {
    const reachable: bool
    const prepared: Answer
    const signed: Answer
    var calls: seq<Call>

    constructor (reachable: bool, prepared: Answer, signed: Answer)
      ensures this.reachable == reachable && this.prepared == prepared && this.signed == signed && calls == []
    {
      this.reachable, this.prepared, this.signed, calls := reachable, prepared, signed, [];
    }

    method Open() returns (ok: bool)
      modifies this
      ensures ok == reachable && calls == old(calls) + [Connect]
    {
      calls := calls + [Connect];
      ok := reachable;
    }

    method AskPrepare(base: seq<byte>, proposal: seq<byte>) returns (a: Answer)
      modifies this
      ensures a == prepared && calls == old(calls) + [Prepare(base, proposal)]
    {
      calls := calls + [Prepare(base, proposal)];
      a := prepared;
    }

    /** Sent as soon as it is waited for; the answer is `signed`, once it comes. */
    method AskAuthorize(txid: seq<byte>)
      modifies this
      ensures calls == old(calls) + [Authorize(txid)]
    {
      calls := calls + [Authorize(txid)];
    }

    method AskReduce(base: seq<byte>, ops: seq<(string, string)>) returns (a: Answer)
      modifies this
      ensures a == signed && calls == old(calls) + [Reduce(base, ops)]
    {
      calls := calls + [Reduce(base, ops)];
      a := signed;
    }
  }

  datatype Phase =
    | CommitRequest | Preparing(base: seq<byte>, proposal: seq<byte>) | Pause(txid: seq<byte>)
    | Authorizing(txid: seq<byte>)
    | ReduceRequest | Reducing(reduction: Reduction)
    | Over(outcome: Outcome)

  function Fail(): (Phase, seq<Out>) { (Over(Failed), [ErrorEvent]) }

  predicate ReduceFits(r: Reduction) {
    && |r.base| <= MAX_REQUEST_BYTES && |r.ops| <= MAX_REDUCE_OPS
    && forall op | op in r.ops :: |Utf8(op.1)| <= MAX_CLASS_LEN
  }

  /** What a frame on stdin does in each phase that reads one. */
  function OnFrame(wire: Wire, phase: Phase, f: Frame): (Phase, seq<Out>) {
    match phase
    case CommitRequest =>
      if !f.Line? || wire.parsePrepare(f.bytes).None? then Fail()
      else
        var r := wire.parsePrepare(f.bytes).value;
        if |r.base| > MAX_REQUEST_BYTES || |r.proposal| > MAX_REQUEST_BYTES then Fail()
        else (Preparing(r.base, r.proposal), [])
    case ReduceRequest =>
      if !f.Line? || wire.parseReduce(f.bytes).None? then Fail()
      else
        var r := wire.parseReduce(f.bytes).value;
        if ReduceFits(r) then (Reducing(r), []) else Fail()
    case Pause(txid) =>
      if !f.Line? then (Over(Cancelled), [])
      else
        (match wire.parseDecision(f.bytes)
         case Some(Approve) => (Authorizing(txid), [])
         case Some(Withdraw) => (Over(Cancelled), [])
         case None => Fail())
    case Authorizing(_) =>
      if f.Line? && wire.parseDecision(f.bytes) == Some(Approve) then (phase, []) else (Over(Cancelled), [])
    case _ => (phase, [])
  }

  function Config(document: seq<byte>): (Phase, seq<Out>) {
    match FromUtf8(document) case Some(config) => (Over(Committed), [CommittedEvent(config)]) case None => Fail()
  }

  /** What the service's answer does in each phase that waits for one. */
  function OnAnswer(phase: Phase, a: Answer): (Phase, seq<Out>) {
    match phase
    case Preparing(_, _) =>
      if !a.Prepared? then Fail()
      else if a.txid == [] then (Over(Nothing), [NothingEvent])
      else (Pause(a.txid), [PreparedEvent(a.summary, a.diff)])
    case Authorizing(_) => if a.Signed? then Config(a.document) else Fail()
    case Reducing(_) => if a.Signed? then Config(a.document) else Fail()
    case _ => (phase, [])
  }

  function Limit(phase: Phase): nat {
    if phase.CommitRequest? || phase.ReduceRequest? then MAX_REQUEST_FRAME else MAX_DECISION_FRAME
  }

  predicate Reads(phase: Phase) { phase.CommitRequest? || phase.ReduceRequest? || phase.Pause? || phase.Authorizing? }

  // --------------------------------------------------------------- one whole commit

  /** How stdin and the service's answer to Authorize fall together: `held` bytes come between the call
      and its answer, `late` bytes after the answer; `shut` and `closed` say that the end of input follows
      what had come by the one and by the other. */
  datatype Arrivals = Arrivals(held: nat, late: nat, shut: bool, closed: bool) {
    predicate EndedAtCall() { shut && closed && held + late == 0 }

    predicate EndedAtAnswer() { closed && late == 0 }
  }

  /** The race: every frame complete before the service answers is taken first. */
  function Race(wire: Wire, phase: Phase, seen: seq<byte>, closed: bool): Phase
    decreases |seen|
  {
    match Poll(seen, MAX_DECISION_FRAME, closed)
    case None => phase
    case Some(f) =>
      var next := OnFrame(wire, phase, f).0;
      if f.Line? && next.Authorizing? then Race(wire, next, After(seen), closed) else next
  }

  /** The first frame of all the bytes stdin will ever bring, the next one, and what is left for the race. */
  function RequestFrame(input: seq<byte>): Frame { Poll(input, MAX_REQUEST_FRAME, true).value }

  function DecisionFrame(input: seq<byte>): Frame { Poll(After(input), MAX_DECISION_FRAME, true).value }

  function Undecided(input: seq<byte>): seq<byte> { After(After(input)) }

  /** A whole commit over all the bytes stdin will ever bring. A service out of reach answers nothing. */
  function Commit(wire: Wire, input: seq<byte>, reachable: bool, prepared: Answer, when: Arrivals, signed: Answer)
    : (Phase, seq<Out>) {
    var (p1, o1) := OnFrame(wire, CommitRequest, RequestFrame(input));
    if p1.Over? then (p1, o1) else
    var (p2, o2) := OnAnswer(p1, if reachable then prepared else Refused);
    if p2.Over? then (p2, o2) else
    var (p3, o3) := OnFrame(wire, p2, DecisionFrame(input));
    if p3.Over? then (p3, o2 + o3) else
    var p4 := Race(wire, p3, Seen(Undecided(input), when.late), when.EndedAtAnswer());
    if p4.Over? then (p4, o2) else
    var (p5, o5) := OnAnswer(p4, signed);
    (p5, o2 + o5)
  }

  /** What a commit asks of the service: nothing before a good request, and Authorize only once the decision is
      taken and nothing waiting on stdin withdraws it. */
  function Asked(wire: Wire, input: seq<byte>, reachable: bool, prepared: Answer, when: Arrivals): seq<Call> {
    var p1 := OnFrame(wire, CommitRequest, RequestFrame(input)).0;
    if !p1.Preparing? then [] else
    if !reachable then [Connect] else
    var calls := [Connect, Prepare(p1.base, p1.proposal)];
    var p2 := OnAnswer(p1, prepared).0;
    if !p2.Pause? then calls else
    var p3 := OnFrame(wire, p2, DecisionFrame(input)).0;
    if !p3.Authorizing? then calls else
    var p4 := Race(wire, p3, Seen(Undecided(input), when.held + when.late), when.EndedAtCall());
    if p4.Authorizing? then calls + [Authorize(p4.txid)] else calls
  }

  predicate GoodRequest(wire: Wire, f: Frame) {
    f.Line? && match wire.parsePrepare(f.bytes)
               case Some(r) => |r.base| <= MAX_REQUEST_BYTES && |r.proposal| <= MAX_REQUEST_BYTES
               case None => false
  }

  predicate Approved(wire: Wire, f: Frame) { f.Line? && wire.parseDecision(f.bytes) == Some(Approve) }

  lemma RequestIs(wire: Wire, f: Frame)
    ensures OnFrame(wire, CommitRequest, f) ==
              if GoodRequest(wire, f) then
                var r := wire.parsePrepare(f.bytes).value; (Preparing(r.base, r.proposal), [])
              else Fail()
  {
  }

  lemma DecisionIs(wire: Wire, txid: seq<byte>, f: Frame)
    ensures if Approved(wire, f) then OnFrame(wire, Pause(txid), f).0 == Authorizing(txid)
            else OnFrame(wire, Pause(txid), f).0.Over?
  {
  }

  /** Something on stdin, complete by the time the service answers, other than another `authorize`. */
  predicate Withdrawn(wire: Wire, seen: seq<byte>, closed: bool)
    decreases |seen|
  {
    match Poll(seen, MAX_DECISION_FRAME, closed)
    case None => false
    case Some(Line(l)) => wire.parseDecision(l) != Some(Approve) || Withdrawn(wire, After(seen), closed)
    case Some(_) => true
  }

  lemma {:induction false} RaceExact(wire: Wire, phase: Phase, seen: seq<byte>, closed: bool)
    requires phase.Authorizing?
    ensures Race(wire, phase, seen, closed) == if Withdrawn(wire, seen, closed) then Over(Cancelled) else phase
    decreases |seen|
  {
    var f := Poll(seen, MAX_DECISION_FRAME, closed);
    if f.Some? && f.value.Line? { RaceExact(wire, phase, After(seen), closed); }
  }

  /** What a commit comes to and what it asks, at each place where it may end. */
  lemma CommitIs(wire: Wire, input: seq<byte>, reachable: bool, prepared: Answer, when: Arrivals, signed: Answer)
    ensures var f := RequestFrame(input);
            var over := Commit(wire, input, reachable, prepared, when, signed);
            var calls := Asked(wire, input, reachable, prepared, when);
            if !GoodRequest(wire, f) then over == Fail() && calls == []
            else if !reachable then over == Fail() && calls == [Connect]
            else
              var r := wire.parsePrepare(f.bytes).value;
              var before := [Connect, Prepare(r.base, r.proposal)];
              if !prepared.Prepared? then over == Fail() && calls == before
              else if prepared.txid == [] then over == (Over(Nothing), [NothingEvent]) && calls == before
              else ReviewedIs(wire, input, prepared, when, signed, before, over, calls)
  {
    hide Poll, After, Seen, Race, Withdrawn, OnFrame, GoodRequest, RequestFrame, DecisionFrame, Undecided, Config;
    RequestIs(wire, RequestFrame(input));
    if prepared.Prepared? {
      DecisionIs(wire, prepared.txid, DecisionFrame(input));
      RaceExact(wire, Authorizing(prepared.txid), Seen(Undecided(input), when.late), when.EndedAtAnswer());
      RaceExact(wire, Authorizing(prepared.txid), Seen(Undecided(input), when.held + when.late), when.EndedAtCall());
      var shown := [PreparedEvent(prepared.summary, prepared.diff)];
      assert shown + [] == shown && forall calls: seq<Call> :: calls + [] == calls;
    }
  }

  /** The same from the review on, the service having been asked `before`. */
  predicate ReviewedIs(wire: Wire, input: seq<byte>, prepared: Answer, when: Arrivals, signed: Answer,
                       before: seq<Call>, over: (Phase, seq<Out>), calls: seq<Call>)
    requires prepared.Prepared?
  {
    var shown := [PreparedEvent(prepared.summary, prepared.diff)];
    var (next, out) := OnFrame(wire, Pause(prepared.txid), DecisionFrame(input));
    if next.Over? then over == (next, shown + out) && calls == before
    else
      var (end, last) := Raced(wire, prepared.txid, Undecided(input), when, signed);
      && calls == before + RacedAsks(wire, prepared.txid, Undecided(input), when)
      && over == (end, shown + last)
  }

  /** How the race over what is left on stdin ends, and whether the service is asked at all. */
  function Raced(wire: Wire, txid: seq<byte>, rest: seq<byte>, when: Arrivals, signed: Answer): (Phase, seq<Out>) {
    if Withdrawn(wire, Seen(rest, when.late), when.EndedAtAnswer()) then (Over(Cancelled), [])
    else OnAnswer(Authorizing(txid), signed)
  }

  function RacedAsks(wire: Wire, txid: seq<byte>, rest: seq<byte>, when: Arrivals): seq<Call> {
    if Withdrawn(wire, Seen(rest, when.held + when.late), when.EndedAtCall()) then [] else [Authorize(txid)]
  }

  /** Takes frames until one withdraws or a read has to wait for the last `late` bytes. Of what it leaves, all
      but the last `later` bytes withdraw exactly when they did before. */
  method TakeFrames(wire: Wire, input: Reader, late: nat, closed: bool, ghost later: nat, ghost closedLater: bool)
    returns (withdrawn: bool)
    requires input.Waits(MAX_DECISION_FRAME) && later <= late && (closed ==> closedLater)
    modifies input
    ensures withdrawn <==> Withdrawn(wire, Seen(old(input.Bytes()), late), closed && late == 0)
    ensures var was := Withdrawn(wire, Seen(old(input.Bytes()), later), closedLater && later == 0);
            if withdrawn then was
            else input.Waits(MAX_DECISION_FRAME)
                 && was == Withdrawn(wire, Seen(input.Bytes(), later), closedLater && later == 0)
  {
    hide FromUtf8, Poll, After, Seen;
    ghost var (early, final) := (closed && late == 0, closedLater && later == 0);
    while true
      invariant input.Waits(MAX_DECISION_FRAME)
      invariant Withdrawn(wire, Seen(input.Bytes(), late), early)
                == Withdrawn(wire, Seen(old(input.Bytes()), late), early)
      invariant Withdrawn(wire, Seen(input.Bytes(), later), final)
                == Withdrawn(wire, Seen(old(input.Bytes()), later), final)
      decreases |input.Bytes()|
    {
      ghost var bytes := input.Bytes();
      var frame := input.PollFrame(MAX_DECISION_FRAME, late, closed);
      if frame.None? { return false; }
      SeenStable(bytes, late, later, MAX_DECISION_FRAME, closed, closedLater);
      if !(frame.value.Line? && wire.parseDecision(frame.value.bytes) == Some(Approve)) { return true; }
    }
  }

  /** The credential check raced with stdin. Input comes first: the service is asked only once a read has to
      wait, and what has come by the time it answers is taken before the answer. */
  method AwaitAnswer(wire: Wire, txid: seq<byte>, input: Reader, service: Service, when: Arrivals)
    returns (outcome: Outcome, out: seq<Out>)
    requires input.Waits(MAX_DECISION_FRAME)
    modifies input, service
    ensures (Over(outcome), out) == Raced(wire, txid, old(input.Bytes()), when, service.signed)
    ensures service.calls == old(service.calls) + RacedAsks(wire, txid, old(input.Bytes()), when)
  {
    hide FromUtf8, Seen, Withdrawn;
    var withdrawn := TakeFrames(wire, input, when.held + when.late, when.shut && when.closed, when.late, when.closed);
    if withdrawn { return Cancelled, []; }
    service.AskAuthorize(txid);
    withdrawn := TakeFrames(wire, input, when.late, when.closed, when.late, when.closed);
    if withdrawn { return Cancelled, []; }
    if !service.signed.Signed? { return Failed, [ErrorEvent]; }
    var config := FromUtf8(service.signed.document);
    if config.None? { return Failed, [ErrorEvent]; }
    return Committed, [CommittedEvent(config.value)];
  }

  /** The single request frame, read and parsed. */
  method TakeRequest(wire: Wire, input: Reader) returns (r: Option<Request>)
    requires input.partial == []
    modifies input
    ensures var f := RequestFrame(old(input.Bytes()));
            && (r.Some? <==> GoodRequest(wire, f))
            && (r.Some? ==> r == wire.parsePrepare(f.bytes)
                            && input.Bytes() == After(old(input.Bytes())) && input.partial == [])
  {
    hide Poll, After;
    var request := input.ReadFrame(MAX_REQUEST_FRAME);
    if !request.Line? { return None; }
    r := wire.parsePrepare(request.bytes);
    if r.Some? && (|r.value.base| > MAX_REQUEST_BYTES || |r.value.proposal| > MAX_REQUEST_BYTES) { r := None; }
  }

  /** The human pause: only a complete, well-formed `authorize` goes on, with no outcome yet. */
  method TakeDecision(wire: Wire, input: Reader, ghost txid: seq<byte>) returns (end: Option<Outcome>, out: seq<Out>)
    requires input.partial == []
    modifies input
    ensures var f := Poll(old(input.Bytes()), MAX_DECISION_FRAME, true).value;
            OnFrame(wire, Pause(txid), f) == (if end.Some? then Over(end.value) else Authorizing(txid), out)
    ensures end.None? ==> input.Bytes() == After(old(input.Bytes())) && input.partial == []
  {
    hide Poll, After;
    var decision := input.ReadFrame(MAX_DECISION_FRAME);
    if !decision.Line? { return Some(Cancelled), []; }
    match wire.parseDecision(decision.bytes) {
      case Some(Approve) => return None, [];
      case Some(Withdraw) => return Some(Cancelled), [];
      case None => return Some(Failed), [ErrorEvent];
    }
  }

  /** `run_commit`, on a pipe that brings its bytes in any pieces: only the bytes matter, and how many have
      come when the service is asked and when it answers. */
  method RunCommit(wire: Wire, input: Reader, service: Service, when: Arrivals)
    returns (outcome: Outcome, events: seq<Out>)
    requires input.partial == []
    modifies input, service
    ensures (Over(outcome), events)
            == Commit(wire, old(input.Bytes()), service.reachable, service.prepared, when, service.signed)
    ensures service.calls
            == old(service.calls) + Asked(wire, old(input.Bytes()), service.reachable, service.prepared, when)
  {
    hide FromUtf8, Poll, After, Seen, Commit, Asked, OnFrame, OnAnswer, GoodRequest, Withdrawn, Raced, RacedAsks;
    ghost var (bytes, start) := (input.Bytes(), service.calls);
    assert start + [] == start;
    CommitIs(wire, bytes, service.reachable, service.prepared, when, service.signed);
    var req := TakeRequest(wire, input);
    if req.None? { return Failed, [ErrorEvent]; }
    var reached := service.Open();
    if !reached { return Failed, [ErrorEvent]; }
    var prepared := service.AskPrepare(req.value.base, req.value.proposal);
    ghost var before := [Connect, Prepare(req.value.base, req.value.proposal)];
    assert service.calls == start + before;
    if !prepared.Prepared? { return Failed, [ErrorEvent]; }
    if prepared.txid == [] { return Nothing, [NothingEvent]; }
    events := [PreparedEvent(prepared.summary, prepared.diff)];
    var end, out := TakeDecision(wire, input, prepared.txid);
    if end.Some? { return end.value, events + out; }
    outcome, out := AwaitAnswer(wire, prepared.txid, input, service, when);
    assert start + (before + RacedAsks(wire, prepared.txid, Undecided(bytes), when)) == service.calls;
    events := events + out;
  }

  /** Later, with more bytes come, what was seen to withdraw still does. */
  lemma {:induction false} WithdrawnStays(wire: Wire, bytes: seq<byte>, late: nat, later: nat, closed: bool,
                                          closedLater: bool)
    requires later <= late && (closed ==> closedLater)
    requires Withdrawn(wire, Seen(bytes, late), closed && late == 0)
    ensures Withdrawn(wire, Seen(bytes, later), closedLater && later == 0)
    decreases |bytes|
  {
    hide Poll, After, Seen;
    SeenStable(bytes, late, later, MAX_DECISION_FRAME, closed, closedLater);
    var f := Poll(Seen(bytes, late), MAX_DECISION_FRAME, closed && late == 0);
    if f.value.Line? && wire.parseDecision(f.value.bytes) == Some(Approve) {
      WithdrawnStays(wire, After(bytes), late, later, closed, closedLater);
    }
  }

  /** A document is handed on exactly when a well-formed request was put up for review, the next frame
      said `authorize`, nothing withdrew by the time the service answered (a withdrawal that came
      together with the answer counts), and the answer is a document. It is handed on after the review
      was, and nothing else is ever handed on. */
  lemma CommittedExact(wire: Wire, input: seq<byte>, reachable: bool, prepared: Answer, when: Arrivals, signed: Answer)
    ensures var (over, events) := Commit(wire, input, reachable, prepared, when, signed);
            && (over == Over(Committed) <==>
                  && GoodRequest(wire, RequestFrame(input)) && reachable && prepared.Prepared? && prepared.txid != []
                  && Approved(wire, DecisionFrame(input))
                  && !Withdrawn(wire, Seen(Undecided(input), when.late), when.EndedAtAnswer())
                  && signed.Signed? && FromUtf8(signed.document).Some?)
            && (over == Over(Committed) ==>
                  events == [PreparedEvent(prepared.summary, prepared.diff),
                             CommittedEvent(FromUtf8(signed.document).value)])
            && (over != Over(Committed) ==> forall c :: CommittedEvent(c) !in events)
  {
    hide FromUtf8, Poll, After, Seen, Withdrawn, Race;
    if prepared.Prepared? {
      RaceExact(wire, Authorizing(prepared.txid), Seen(Undecided(input), when.late), when.EndedAtAnswer());
    }
  }

  /** The user withdraws a review: stdin ends or overruns where the decision should come, or brings `cancel`. */
  predicate Withdraws(wire: Wire, f: Frame) { !f.Line? || wire.parseDecision(f.bytes) == Some(Withdraw) }

  /** How a commit ends, whatever comes: with nothing to do exactly when the service says so; cancelled exactly when
      a review was put up and the user withdrew it, before or after approving it, by the time the service answered;
      and otherwise, without a document, failed. Each ending but a cancel is reported, and a review comes before it
      exactly when one was put up. */
  lemma EndsExact(wire: Wire, input: seq<byte>, reachable: bool, prepared: Answer, when: Arrivals, signed: Answer)
    ensures var (over, events) := Commit(wire, input, reachable, prepared, when, signed);
            var answered := GoodRequest(wire, RequestFrame(input)) && reachable && prepared.Prepared?;
            var shown :=
              if answered && prepared.txid != [] then [PreparedEvent(prepared.summary, prepared.diff)] else [];
            && (over == Over(Nothing) <==> answered && prepared.txid == [])
            && (over == Over(Cancelled) <==>
                  shown != []
                  && (Withdraws(wire, DecisionFrame(input))
                      || (Approved(wire, DecisionFrame(input))
                          && Withdrawn(wire, Seen(Undecided(input), when.late), when.EndedAtAnswer()))))
            && (over == Over(Nothing) ==> events == [NothingEvent])
            && (over == Over(Cancelled) ==> events == shown)
            && (over !in [Over(Nothing), Over(Cancelled), Over(Committed)] ==>
                  over == Over(Failed) && events == shown + [ErrorEvent])
  {
    hide FromUtf8, Poll, After, Seen, Withdrawn, Race, RequestFrame, DecisionFrame, Undecided;
    CommitIs(wire, input, reachable, prepared, when, signed);
    hide Commit, GoodRequest;
    if prepared.Prepared? && prepared.txid != [] {
      var shown := [PreparedEvent(prepared.summary, prepared.diff)];
      assert shown + [] == shown;
    }
    assert [] + [ErrorEvent] == [ErrorEvent];
  }

  /** A good request was put up for review, the decision was `authorize`, and nothing on stdin withdrew it
      before the service was asked. */
  predicate Asks(wire: Wire, input: seq<byte>, reachable: bool, prepared: Answer, when: Arrivals) {
    && GoodRequest(wire, RequestFrame(input)) && reachable && prepared.Prepared? && prepared.txid != []
    && Approved(wire, DecisionFrame(input))
    && !Withdrawn(wire, Seen(Undecided(input), when.held + when.late), when.EndedAtCall())
  }

  /** The service is asked to authorize in exactly those circumstances: once, for that transaction, after it
      prepared the request. And a document is handed on only if it was. */
  lemma AskedExact(wire: Wire, input: seq<byte>, reachable: bool, prepared: Answer, when: Arrivals, signed: Answer)
    ensures var calls := Asked(wire, input, reachable, prepared, when);
            if Asks(wire, input, reachable, prepared, when) then
              var r := wire.parsePrepare(RequestFrame(input).bytes).value;
              calls == [Connect, Prepare(r.base, r.proposal), Authorize(prepared.txid)]
            else forall txid :: Authorize(txid) !in calls
    ensures Commit(wire, input, reachable, prepared, when, signed).0 == Over(Committed) ==>
              Asks(wire, input, reachable, prepared, when)
  {
    hide FromUtf8, Poll, After, Seen, Withdrawn, Race, OnFrame, GoodRequest, Approved, RequestFrame, DecisionFrame,
         Undecided;
    RequestIs(wire, RequestFrame(input));
    if prepared.Prepared? {
      DecisionIs(wire, prepared.txid, DecisionFrame(input));
      RaceExact(wire, Authorizing(prepared.txid), Seen(Undecided(input), when.held + when.late), when.EndedAtCall());
    }
    hide Asked, Commit;
    if Commit(wire, input, reachable, prepared, when, signed).0 == Over(Committed) {
      CommittedExact(wire, input, reachable, prepared, when, signed);
      NotYet(wire, input, when);
    }
  }

  lemma NotYet(wire: Wire, input: seq<byte>, when: Arrivals)
    requires !Withdrawn(wire, Seen(Undecided(input), when.late), when.EndedAtAnswer())
    ensures !Withdrawn(wire, Seen(Undecided(input), when.held + when.late), when.EndedAtCall())
  {
    hide Seen, Withdrawn, Undecided;
    if Withdrawn(wire, Seen(Undecided(input), when.held + when.late), when.EndedAtCall()) {
      WithdrawnStays(wire, Undecided(input), when.held + when.late, when.late, when.shut && when.closed, when.closed);
    }
  }

  predicate GoodReduction(wire: Wire, f: Frame) {
    f.Line? && wire.parseReduce(f.bytes).Some? && ReduceFits(wire.parseReduce(f.bytes).value)
  }

  /** `run_reduce`: promptless, one request, one answer. */
  method RunReduce(wire: Wire, input: Reader, service: Service) returns (outcome: Outcome, events: seq<Out>)
    requires input.partial == []
    modifies input, service
    ensures outcome == Committed <==>
              && GoodReduction(wire, RequestFrame(old(input.Bytes()))) && service.reachable
              && service.signed.Signed? && FromUtf8(service.signed.document).Some?
    ensures outcome == Committed ==> events == [CommittedEvent(FromUtf8(service.signed.document).value)]
    ensures outcome != Committed ==> outcome == Failed && events == [ErrorEvent]
    ensures var f := RequestFrame(old(input.Bytes()));
            service.calls == old(service.calls) +
              if !GoodReduction(wire, f) then []
              else if !service.reachable then [Connect]
              else [Connect, Reduce(wire.parseReduce(f.bytes).value.base, wire.parseReduce(f.bytes).value.ops)]
  {
    hide FromUtf8, Poll, After;
    ghost var start := service.calls;
    assert start + [] == start;
    var request := input.ReadFrame(MAX_REQUEST_FRAME);
    if !request.Line? { return Failed, [ErrorEvent]; }
    var req := wire.parseReduce(request.bytes);
    if req.None? { return Failed, [ErrorEvent]; }
    if |req.value.base| > MAX_REQUEST_BYTES || |req.value.ops| > MAX_REDUCE_OPS { return Failed, [ErrorEvent]; }
    for i := 0 to |req.value.ops|
      invariant forall op | op in req.value.ops[..i] :: |Utf8(op.1)| <= MAX_CLASS_LEN
    {
      if |Utf8(req.value.ops[i].1)| > MAX_CLASS_LEN { return Failed, [ErrorEvent]; }
      assert req.value.ops[..i + 1] == req.value.ops[..i] + [req.value.ops[i]];
    }
    assert req.value.ops[..|req.value.ops|] == req.value.ops;
    var reached := service.Open();
    if !reached { return Failed, [ErrorEvent]; }
    var signed := service.AskReduce(req.value.base, req.value.ops);
    assert service.calls == start + [Connect, Reduce(req.value.base, req.value.ops)];
    if !signed.Signed? || FromUtf8(signed.document).None? { return Failed, [ErrorEvent]; }
    return Committed, [CommittedEvent(FromUtf8(signed.document).value)];
  }
}
