/** One boot (relaunch-anchor's boot.rs): rounds of launches, each followed by a watch that gives new
    windows to the launches waiting for them, against any compositor. */
module Boot {
  import opened Text
  import opened Model
  import opened Groups

  datatype Window = Window(address: string, className: string, initialClass: string, workspace: Option<int>,
                           floating: Option<bool>, pid: Option<u32>)

  datatype Verdict = Placed | Misplaced | NoShow

  datatype Placement = Placement(address: Option<string>, actualWorkspace: Option<int>, outcome: Verdict,
                                 seenClass: Option<string>)

  /** `placement` is `None` for a launch that did not start. */
  datatype Launch = Launch(entry: Entry, pid: Option<u32>, placement: Option<Placement>)

  predicate IsOf(w: Window, windowClass: string) { w.initialClass == windowClass || w.className == windowClass }

  predicate Waiting(l: Launch) { l.placement.Some? && l.placement.value.address.None? }

  function Address(l: Launch): Option<string> { if l.placement.Some? then l.placement.value.address else None }

  function Addresses(list: Option<seq<Window>>): set<string> {
    match list case Some(ws) => (set w | w in ws :: w.address) case None => {}
  }

  /** How starting an entry goes, and the process it starts. */
  datatype Start = Start(ok: bool, pid: Option<u32>)

  datatype Moved = Moved(address: string, workspace: Option<u32>, float: Option<bool>)

  /** The compositor: what its window lists will say, which placements it will refuse, and a record of
      what it was asked. `times` says how long had been slept when each launch was made. */
  class Host {
    var lists: seq<Option<seq<Window>>>
    var refusals: seq<bool>
    var history: seq<Option<seq<Window>>>
    var moves: seq<Moved>
    var slept: nat
    var times: seq<nat>
    const starts: Entry -> Start

    constructor (lists: seq<Option<seq<Window>>>, refusals: seq<bool>, starts: Entry -> Start)
      ensures history == [] && moves == [] && slept == 0 && times == []
    {
      this.lists, this.refusals, this.starts := lists, refusals, starts;
      history, moves, slept, times := [], [], 0, [];
    }

    method Windows() returns (list: Option<seq<Window>>)
      modifies this`lists, this`history
      ensures history == old(history) + [list]
    {
      list := None;
      if lists != [] { list, lists := lists[0], lists[1..]; }
      history := history + [list];
    }

    method Sleep(ms: nat)
      modifies this`slept
      ensures slept == old(slept) + ms
    {
      slept := slept + ms;
    }

    method Place(m: Moved) returns (ok: bool)
      modifies this`refusals, this`moves
      ensures moves == old(moves) + [m]
    {
      ok := true;
      if refusals != [] { ok, refusals := !refusals[0], refusals[1..]; }
      moves := moves + [m];
    }

    method Start(e: Entry) returns (s: Start)
      modifies this`times
      ensures s == starts(e) && times == old(times) + [slept]
    {
      times := times + [slept];
      s := starts(e);
    }
  }

  // -------------------------------------------------------------------- what is kept

  /** No address is given to two launches, none from the first list is given at all, and every one given
      is known. */
  predicate Claims(ls: seq<Launch>, known: set<string>, first: set<string>) {
    && first <= known
    && (forall i | 0 <= i < |ls| && Address(ls[i]).Some? ::
          Address(ls[i]).value in known && Address(ls[i]).value !in first)
    && (forall i, j | 0 <= i < j < |ls| && Address(ls[i]).Some? :: Address(ls[i]) != Address(ls[j]))
  }

  /** Only windows given to a launch are ever moved. */
  predicate MovesKnown(moves: seq<Moved>, known: set<string>, first: set<string>) {
    forall m | m in moves :: m.address in known && m.address !in first
  }

  /** Nothing changes but that launches waiting before may have been given a window. */
  predicate Claimed(before: seq<Launch>, after: seq<Launch>) {
    && |after| == |before|
    && forall i | 0 <= i < |before| ::
         && after[i].entry == before[i].entry && after[i].pid == before[i].pid
         && (after[i] == before[i] || (Waiting(before[i]) && Address(after[i]).Some?))
  }

  lemma ClaimedTrans(a: seq<Launch>, b: seq<Launch>, c: seq<Launch>)
    requires Claimed(a, b) && Claimed(b, c)
    ensures Claimed(a, c)
  {
  }

  lemma ClaimKeeps(ls: seq<Launch>, known: set<string>, first: set<string>, i: nat, l: Launch, address: string)
    requires Claims(ls, known, first) && i < |ls| && address !in known && Address(l) == Some(address)
    requires Waiting(ls[i]) && l.entry == ls[i].entry && l.pid == ls[i].pid
    ensures Claims(ls[i := l], known + {address}, first) && Claimed(ls, ls[i := l])
  {
  }

  /** What `claim` records: whether the window needed moving, and whether it was. */
  function Given(l: Launch, w: Window, moved: bool, seen: Option<string>): Launch {
    l.(placement := Some(Placement(Some(w.address), if moved then Some(l.entry.workspace) else w.workspace,
                                   if moved then Placed else Misplaced, seen)))
  }

  predicate OnTarget(l: Launch, w: Window) { w.workspace == Some(l.entry.workspace) }

  /** The float to ask for: as captured, when it is not already so. */
  function FloatOf(l: Launch, w: Window): Option<bool> {
    if l.entry.float.Some? && w.floating != l.entry.float then l.entry.float else None
  }

  function FirstOf(ws: seq<Window>, windowClass: string, known: set<string>): (k: nat)
    ensures k <= |ws| && (k < |ws| ==> IsOf(ws[k], windowClass) && ws[k].address !in known)
    ensures forall j | 0 <= j < k :: !IsOf(ws[j], windowClass) || ws[j].address in known
  {
    if ws == [] then 0
    else if ws[0].address !in known && IsOf(ws[0], windowClass) then 0
    else
      var k := FirstOf(ws[1..], windowClass, known);
      assert forall j | 0 < j < k + 1 :: ws[1..][j - 1] == ws[j];
      k + 1
  }

  function FirstWithPid(ws: seq<Window>, pid: u32, known: set<string>): (k: nat)
    ensures k <= |ws| && (k < |ws| ==> ws[k].pid == Some(pid) && ws[k].address !in known)
    ensures forall j | 0 <= j < k :: ws[j].pid != Some(pid) || ws[j].address in known
  {
    if ws == [] then 0
    else if ws[0].pid == Some(pid) && ws[0].address !in known then 0
    else
      var k := FirstWithPid(ws[1..], pid, known);
      assert forall j | 0 < j < k + 1 :: ws[1..][j - 1] == ws[j];
      k + 1
  }

  /** A launch still waiting has no new window of its class in the list. */
  predicate NoneLeft(ls: seq<Launch>, waiting: seq<nat>, known: set<string>, ws: seq<Window>) {
    forall i, w | i in waiting && i < |ls| && Waiting(ls[i]) && w in ws
                  && ls[i].entry.windowClass in [w.initialClass, w.className] ::
      w.address in known
  }

  /** What was known before, what is known since, and what the compositor has been asked by now. */
  datatype Books = Books(knew: set<string>, known: set<string>, moves: seq<Moved>)

  predicate Wider(b: Books, c: Books) { c.knew <= b.knew && b.known <= c.known && b.moves <= c.moves }

  /** A window once the compositor has done what it was asked. */
  function Applied(w: Window, m: Moved): Window {
    w.(workspace := if m.workspace.Some? then Some(m.workspace.value) else w.workspace,
       floating := if m.float.Some? then m.float else w.floating)
  }

  /** What must be asked to bring the window where its entry was signed to be: nothing if it is there, and
      otherwise its workspace exactly if it is on another, its float exactly if it differs from the one captured. */
  predicate AskedFor(e: Entry, w: Window, asked: seq<Moved>) {
    var there := w.workspace == Some(e.workspace);
    var floats := e.float.None? || w.floating == e.float;
    if there && floats then asked == []
    else
      && |asked| == 1 && asked[0].address == w.address
      && (asked[0].workspace.Some? <==> !there) && (asked[0].float.Some? <==> !floats)
      && Applied(w, asked[0]).workspace == Some(e.workspace)
      && Applied(w, asked[0]).floating == if e.float.Some? then e.float else w.floating
  }

  /** `after` is launch `l` with window `w` on record: on its workspace, or where it was if the compositor, asked to
      place it, refused. */
  predicate OnRecord(l: Launch, after: Launch, w: Window, seen: Option<string>, refused: bool) {
    && after.entry == l.entry && after.pid == l.pid && after.placement.Some?
    && var p := after.placement.value;
       && p.address == Some(w.address) && p.seenClass == seen
       && (if refused then p.outcome == Misplaced && p.actualWorkspace == w.workspace
           else p.outcome == Placed && p.actualWorkspace == Some(l.entry.workspace))
  }

  /** `after` is launch `l` given window `w`, the compositor having been asked if it had to be. */
  predicate GivenTo(l: Launch, after: Launch, w: Window, seen: Option<string>, moves: seq<Moved>) {
    if AskedFor(l.entry, w, []) then OnRecord(l, after, w, seen, false)
    else
      && (exists m | m in moves :: AskedFor(l.entry, w, [m]))
      && (OnRecord(l, after, w, seen, false) || OnRecord(l, after, w, seen, true))
  }

  /** Window `k` of the list is the first of the launch's class that was new, and went to it. */
  predicate TakesByClass(l: Launch, after: Launch, ws: seq<Window>, k: nat, b: Books) {
    && k < |ws| && l.entry.windowClass in [ws[k].initialClass, ws[k].className] && ws[k].address !in b.knew
    && GivenTo(l, after, ws[k], None, b.moves)
    && forall j | 0 <= j <= k && l.entry.windowClass in [ws[j].initialClass, ws[j].className] ::
         ws[j].address in b.known
  }

  predicate ByClass(l: Launch, after: Launch, ws: seq<Window>, b: Books) {
    exists k: nat :: k < |ws| && TakesByClass(l, after, ws, k, b)
  }

  predicate FromSome(l: Launch, after: Launch, lists: seq<Option<seq<Window>>>, b: Books) {
    exists m :: 0 <= m < |lists| && lists[m].Some? && ByClass(l, after, lists[m].value, b)
  }

  /** A launch not as it was has been given a window of its class, in one of the lists read. */
  predicate FromLists(before: seq<Launch>, after: seq<Launch>, lists: seq<Option<seq<Window>>>, b: Books) {
    && |after| == |before|
    && forall i | 0 <= i < |before| :: after[i] == before[i] || FromSome(before[i], after[i], lists, b)
  }

  /** `ceil(limit / interval) + 1`, or one read when there is no waiting between them. */
  function MostReads(limit: nat, interval: nat): nat {
    if interval == 0 then 1 else (limit + interval - 1) / interval + 1
  }

  /** How long that many reads are spaced over: there is no wait after the last one that can be made. */
  function SleptFor(n: nat, limit: nat, interval: nat): nat {
    if n == MostReads(limit, interval) then (n - 1) * interval else n * interval
  }

  class Anchor {
    const host: Host
    var launches: seq<Launch>
    var known: set<string>

    constructor (host: Host)
      ensures this.host == host && launches == [] && known == {}
    {
      this.host := host;
      launches, known := [], {};
    }

    /** `claim`: move the window and float or tile it, each only if it is not already so. */
    method Claim(i: nat, w: Window, seen: Option<string>)
      requires i < |launches|
      modifies this`launches, host`refusals, host`moves
      ensures i < |launches| && launches == old(launches)[i := launches[i]]
      ensures GivenTo(old(launches[i]), launches[i], w, seen, host.moves)
      ensures old(host.moves) <= host.moves
      ensures AskedFor(old(launches[i]).entry, w, host.moves[|old(host.moves)|..])
    {
      var l := launches[i];
      var float := FloatOf(l, w);
      var moved := true;
      if !(OnTarget(l, w) && float.None?) {
        moved := host.Place(Moved(w.address, if OnTarget(l, w) then None else Some(l.entry.workspace), float));
      }
      launches := launches[i := Given(l, w, moved, seen)];
    }

    /** Gives the first new window of its class to launch `i`, if it waits and there is one. */
    method GiveOne(i: nat, ws: seq<Window>, ghost first: set<string>)
      requires i < |launches| && Claims(launches, known, first) && MovesKnown(host.moves, known, first)
      modifies this`launches, this`known, host`refusals, host`moves
      ensures Claims(launches, known, first) && MovesKnown(host.moves, known, first)
      ensures old(known) <= known && old(host.moves) <= host.moves
      ensures Claimed(old(launches), launches)
      ensures forall j | 0 <= j < |launches| && j != i :: launches[j] == old(launches[j])
      ensures Waiting(launches[i]) ==>
        forall w | w in ws && IsOf(w, launches[i].entry.windowClass) :: w.address in known
      ensures launches[i] == old(launches[i])
              || ByClass(old(launches[i]), launches[i], ws, Books(old(known), known, host.moves))
    {
      if !Waiting(launches[i]) { return; }
      var k := FirstOf(ws, launches[i].entry.windowClass, known);
      if k == |ws| { return; }
      ghost var (l, knew) := (launches[i], known);
      var w := ws[k];
      ClaimKeeps(launches, known, first, i, Given(launches[i], w, true, None), w.address);
      ClaimKeeps(launches, known, first, i, Given(launches[i], w, false, None), w.address);
      NotFirst(known, first, w.address);
      known := known + {w.address};
      Claim(i, w, None);
      assert TakesByClass(l, launches[i], ws, k, Books(knew, known, host.moves));
    }

    /** One list of windows given out, in waiting order. */
    method GiveOut(ws: seq<Window>, waiting: seq<nat>, ghost first: set<string>)
      requires (forall i | i in waiting :: i < |launches|)
      requires Claims(launches, known, first) && MovesKnown(host.moves, known, first)
      modifies this`launches, this`known, host`refusals, host`moves
      ensures Claims(launches, known, first) && MovesKnown(host.moves, known, first)
      ensures old(known) <= known && old(host.moves) <= host.moves
      ensures Claimed(old(launches), launches)
      ensures forall j | 0 <= j < |launches| && j !in waiting :: launches[j] == old(launches[j])
      ensures NoneLeft(launches, waiting, known, ws)
      ensures FromLists(old(launches), launches, [Some(ws)], Books(old(known), known, host.moves))
    {
      hide Claims, MovesKnown, FromLists, ByClass;
      StartWatch(launches, [Some(ws)], Books(known, known, host.moves));
      for k := 0 to |waiting|
        invariant Claims(launches, known, first) && MovesKnown(host.moves, known, first)
        invariant old(known) <= known && old(host.moves) <= host.moves
        invariant Claimed(old(launches), launches)
        invariant forall j | 0 <= j < |launches| && j !in waiting :: launches[j] == old(launches[j])
        invariant NoneLeft(launches, waiting[..k], known, ws)
        invariant FromLists(old(launches), launches, [Some(ws)], Books(old(known), known, host.moves))
      {
        var i := waiting[k];
        assert i in waiting;
        ghost var (before, knew, asked) := (launches, known, host.moves);
        GiveOne(i, ws, first);
        assert waiting[..k + 1] == waiting[..k] + [i];
        ClaimedTrans(old(launches), before, launches);
        FromOne(before, launches, i, ws, Books(knew, known, host.moves));
        FromListsTrans(old(launches), before, launches, [Some(ws)], [Some(ws)], Books(old(known), knew, asked),
                       Books(knew, known, host.moves), Books(old(known), known, host.moves));
        FromListsTwice(old(launches), launches, [Some(ws)], Books(old(known), known, host.moves));
      }
      assert waiting[..|waiting|] == waiting;
    }

    /** `watch`: reads windows every `interval` for up to `limit`, giving them out, until nothing waits. */
    method Watch(waiting: seq<nat>, limit: nat, interval: nat, ghost first: set<string>)
      requires forall i | i in waiting :: i < |launches|
      requires Claims(launches, known, first) && MovesKnown(host.moves, known, first)
      modifies this`launches, this`known, host`lists, host`history, host`refusals, host`moves, host`slept
      ensures Claims(launches, known, first) && MovesKnown(host.moves, known, first)
      ensures old(known) <= known && old(host.moves) <= host.moves
      ensures Claimed(old(launches), launches) && |launches| == |old(launches)|
      ensures forall j | 0 <= j < |launches| && j !in waiting :: launches[j] == old(launches[j])
      ensures old(host.history) <= host.history && |host.history| - |old(host.history)| <= MostReads(limit, interval)
      ensures var lists := host.history[|old(host.history)|..];
              && FromLists(old(launches), launches, lists, Books(old(known), known, host.moves))
              && (lists == [] ==> forall i | i in waiting :: !Waiting(launches[i]))
              && (lists != [] && lists[|lists| - 1].Some? ==>
                  NoneLeft(launches, waiting, known, lists[|lists| - 1].value))
              && ((exists i | i in waiting :: Waiting(launches[i])) ==> |lists| == MostReads(limit, interval))
              && host.slept == old(host.slept) + SleptFor(|lists|, limit, interval)
    {
      hide Claims, MovesKnown, NoneLeft, FromLists, Claimed;
      var elapsed := 0;
      ghost var n := 0;
      ghost var start := host.history;
      StartClaimed(launches);
      StartWatch(launches, [], Books(known, known, host.moves));
      assert host.history[|start|..] == [];
      while true
        invariant Claims(launches, known, first) && MovesKnown(host.moves, known, first)
        invariant old(known) <= known && old(host.moves) <= host.moves
        invariant Claimed(old(launches), launches) && |launches| == |old(launches)|
        invariant forall j | 0 <= j < |launches| && j !in waiting :: launches[j] == old(launches[j])
        invariant start <= host.history && |host.history| == |start| + n && elapsed == n * interval
        invariant host.slept == old(host.slept) + elapsed
        invariant FromLists(old(launches), launches, host.history[|start|..], Books(old(known), known, host.moves))
        invariant n > 0 ==> interval > 0 && elapsed - interval < limit
        invariant n > 0 && host.history[|host.history| - 1].Some? ==>
                    NoneLeft(launches, waiting, known, host.history[|host.history| - 1].value)
        decreases limit - elapsed
      {
        if forall i | i in waiting :: !Waiting(launches[i]) {
          ReadsBound(n, limit, interval);
          return;
        }
        ghost var before := host.history;
        var list := host.Windows();
        assert host.history[|start|..] == before[|start|..] + [list];
        ghost var (was, knew, asked) := (launches, known, host.moves);
        if list.Some? {
          GiveOut(list.value, waiting, first);
          ClaimedTrans(old(launches), was, launches);
          FromListsTrans(old(launches), was, launches, before[|start|..], [list], Books(old(known), knew, asked),
                         Books(knew, known, host.moves), Books(old(known), known, host.moves));
        } else {
          FromListsMore(old(launches), launches, before[|start|..], list, Books(old(known), known, host.moves));
        }
        n := n + 1;
        if elapsed >= limit || interval == 0 {
          ReadsExact(n, limit, interval);
          return;
        }
        host.Sleep(interval);
        elapsed := elapsed + interval;
      }
    }

    /** `claim_by_pid`: one read; a launch still waiting takes the new window of exactly its process. */
    method ClaimByPid(ghost first: set<string>)
      requires Claims(launches, known, first) && MovesKnown(host.moves, known, first)
      modifies this`launches, this`known, host`lists, host`history, host`refusals, host`moves
      ensures Claims(launches, known, first) && MovesKnown(host.moves, known, first)
      ensures old(known) <= known && old(host.moves) <= host.moves && old(host.history) <= host.history
      ensures var lists := host.history[|old(host.history)|..];
              Matched(old(launches), launches, lists, Books(old(known), known, host.moves))
    {
      hide Claims, MovesKnown, Claimed, FromPids, NonePid;
      StartClaimed(launches);
      if forall l | l in launches :: !Waiting(l) {
        assert host.history[|old(host.history)|..] == [];
        return;
      }
      var list := host.Windows();
      assert host.history[|old(host.history)|..] == [list];
      if list.None? { return; }
      var ws := list.value;
      StartPid(launches, ws, Books(known, known, host.moves));
      for i := 0 to |launches|
        invariant Claims(launches, known, first) && MovesKnown(host.moves, known, first)
        invariant old(known) <= known && old(host.moves) <= host.moves
        invariant Claimed(old(launches), launches) && |launches| == |old(launches)|
        invariant FromPids(old(launches), launches, ws, Books(old(known), known, host.moves))
        invariant host.history == old(host.history) + [list]
        invariant NonePid(launches[..i], known, ws) && launches[i..] == old(launches[i..])
      {
        ghost var (before, knew, asked) := (launches, known, host.moves);
        assert before[i] == old(launches[i..])[0];
        GiveByPid(i, ws, first);
        ClaimedTrans(old(launches), before, launches);
        FromPidsMore(old(launches), before, launches, i, ws, Books(old(known), knew, asked),
                     Books(knew, known, host.moves), Books(old(known), known, host.moves));
        NonePidMore(before, launches, i, knew, known, ws);
      }
      assert launches[..|launches|] == launches;
    }

    method GiveByPid(i: nat, ws: seq<Window>, ghost first: set<string>)
      requires i < |launches| && Claims(launches, known, first) && MovesKnown(host.moves, known, first)
      modifies this`launches, this`known, host`refusals, host`moves
      ensures Claims(launches, known, first) && MovesKnown(host.moves, known, first)
      ensures old(known) <= known && old(host.moves) <= host.moves
      ensures Claimed(old(launches), launches) && |launches| == |old(launches)|
      ensures forall j | 0 <= j < |launches| && j != i :: launches[j] == old(launches[j])
      ensures NoPidFor(launches[i], known, ws)
      ensures launches[i] == old(launches[i])
              || ByProcess(old(launches[i]), launches[i], ws, Books(old(known), known, host.moves))
    {
      var l := launches[i];
      if !Waiting(l) || l.pid.None? || l.pid.value == 0 { return; }
      var k := FirstWithPid(ws, l.pid.value, known);
      if k == |ws| { return; }
      var w := ws[k];
      var seen := if w.initialClass == [] then w.className else w.initialClass;
      ghost var knew := known;
      ClaimKeeps(launches, known, first, i, Given(l, w, true, Some(seen)), w.address);
      ClaimKeeps(launches, known, first, i, Given(l, w, false, Some(seen)), w.address);
      NotFirst(known, first, w.address);
      known := known + {w.address};
      Claim(i, w, Some(seen));
      assert TakesByPid(l, launches[i], ws, k, Books(knew, known, host.moves));
    }

    /** `settle`: what the report says is where each window is now. */
    method Settle(ghost first: set<string>)
      requires Claims(launches, known, first)
      modifies this`launches, host`lists, host`history
      ensures Claims(launches, known, first)
      ensures |host.history| == |old(host.history)| + 1 && host.history[..|old(host.history)|] == old(host.history)
      ensures launches == Report(old(launches), host.history[|old(host.history)|])
    {
      hide Settled;
      var list := host.Windows();
      if list.None? { return; }
      var ws := list.value;
      ghost var before := launches;
      for i := 0 to |launches|
        invariant |launches| == |before| && host.history == old(host.history) + [list]
        invariant forall j | 0 <= j < i :: launches[j] == Settled(before[j], ws)
        invariant launches[i..] == before[i..]
      {
        assert launches[i] == before[i];
        launches := launches[i := Settled(launches[i], ws)];
      }
      SettleKeeps(before, launches, known, first, ws);
    }

    method StartOne(e: Entry, ghost first: set<string>) returns (started: bool)
      requires Claims(launches, known, first)
      modifies this`launches, host`times
      ensures Claims(launches, known, first) && launches == old(launches) + [Begun(e, host.starts(e))]
      ensures started <==> Waiting(Begun(e, host.starts(e)))
      ensures host.times == old(host.times) + [host.slept]
    {
      var s := host.Start(e);
      started := s.ok;
      launches := launches + [Launch(e, s.pid, if s.ok then Some(Placement(None, None, NoShow, None)) else None)];
    }

    /** Starts one round's entries, in order; those that start wait for their windows. */
    method StartRound(es: seq<Entry>, batch: seq<nat>, ghost first: set<string>) returns (waiting: seq<nat>)
      requires (forall i | i in batch :: i < |es|) && Claims(launches, known, first)
      modifies this`launches, host`times
      ensures Claims(launches, known, first) && launches == old(launches) + AllBegun(host.starts, Picked(es, batch))
      ensures forall i :: i in waiting <==> |old(launches)| <= i < |launches| && Waiting(launches[i])
      ensures host.times == old(host.times) + AllAt(host.slept, |launches| - |old(launches)|)
    {
      hide Claims, Waiting, Begun, AllBegun, Picked;
      waiting := [];
      NoneBegun(host.starts, es);
      assert launches + [] == launches && host.times + AllAt(host.slept, 0) == host.times;
      hide AllAt;
      for k := 0 to |batch|
        invariant Claims(launches, known, first)
        invariant launches == old(launches) + AllBegun(host.starts, Picked(es, batch[..k]))
        invariant forall i :: i in waiting <==> |old(launches)| <= i < |launches| && Waiting(launches[i])
        invariant |launches| == |old(launches)| + k && host.times == old(host.times) + AllAt(host.slept, k)
      {
        assert batch[k] in batch && batch[..k + 1] == batch[..k] + [batch[k]];
        ghost var before := launches;
        var started := StartOne(es[batch[k]], first);
        if started { waiting := waiting + [|launches| - 1]; }
        MoreAt(host.slept, k);
        PickedMore(es, batch[..k], batch[k]);
        BegunMore(host.starts, Picked(es, batch[..k]), es[batch[k]]);
        assert launches[..|before|] == before;
      }
      assert batch[..|batch|] == batch;
    }

    /** One round: its entries started, then the windows they wait for given out. */
    method LaunchRound(es: seq<Entry>, batch: seq<nat>, timing: Timing, ghost first: set<string>)
      requires (forall i | i in batch :: i < |es|) && Claims(launches, known, first)
        && MovesKnown(host.moves, known, first)
      modifies this`launches, this`known, host
      ensures Claims(launches, known, first) && MovesKnown(host.moves, known, first)
      ensures old(host.history) <= host.history && old(host.moves) <= host.moves
      ensures RoundDone(AllBegun(host.starts, Picked(es, batch)), 0, timing, old(Stage()), Stage(), host.history,
                        host.moves)
    {
      hide Claims, MovesKnown, Claimed, FromLists, NoneLeft, Waiting, AllBegun, Picked;
      ghost var start := launches;
      var waiting := StartRound(es, batch, first);
      ghost var before := launches;
      Watch(waiting, timing.correlate, timing.poll, first);
      WatchedTail(before, launches, |start|, waiting, host.history[|old(host.history)|..],
                  Books(old(known), known, host.moves), timing.correlate, timing.poll);
      assert before[..|start|] == start && before[|start|..] == AllBegun(host.starts, Picked(es, batch));
      assert host.history[|old(host.history)|..|host.history|] == host.history[|old(host.history)|..];
    }

    ghost function Stage(): Snap
      reads this, host
    {
      Snap(launches, known, |host.history|, host.slept, host.times)
    }

    /** Every round, with the signed delays between and before them. */
    method LaunchRounds(es: seq<Entry>, out: seq<seq<nat>>, rounds: nat, delays: Delays, timing: Timing,
                        ghost first: set<string>) returns (ghost snaps: seq<Snap>)
      requires IsPartition(es, out) && launches == []
      requires Claims(launches, known, first) && MovesKnown(host.moves, known, first)
      modifies this`launches, this`known, host
      ensures Claims(launches, known, first) && MovesKnown(host.moves, known, first)
      ensures old(host.history) <= host.history && old(host.moves) <= host.moves
      ensures snaps != [] && snaps[0] == old(Stage()) && snaps[|snaps| - 1] == Stage() && |snaps| == rounds + 1
      ensures RoundsDone(host.starts, es, out, delays, timing, snaps, host.history, host.moves)
    {
      hide Claims, MovesKnown, IsPartition, Round, RoundDone, AllBegun, Picked;
      snaps := [Stage()];
      for r := 0 to rounds
        invariant Claims(launches, known, first) && MovesKnown(host.moves, known, first)
        invariant old(host.history) <= host.history && old(host.moves) <= host.moves
        invariant |snaps| == r + 1 && snaps[0] == old(Stage()) && snaps[r] == Stage()
        invariant RoundsDone(host.starts, es, out, delays, timing, snaps, host.history, host.moves)
      {
        ghost var before := Stage();
        if r > 0 { host.Sleep(delays.post); }
        if delays.pre > 0 { host.Sleep(delays.pre); }
        var batch := RoundOf(out, r);
        RoundInside(es, out, r);
        ghost var (history, moves) := (host.history, host.moves);
        ghost var rested := Stage();
        LaunchRound(es, batch, timing, first);
        AfterDelay(AllBegun(host.starts, Picked(es, batch)), delays.Before(r), timing, before, rested, Stage(),
                   host.history, host.moves);
        RoundsGrow(host.starts, es, out, delays, timing, snaps, history, moves, host.history, host.moves);
        snaps := snaps + [Stage()];
      }
    }

    /** The final sweep for windows still missing, the match by process, and the settled report. */
    method Sweep(timing: Timing, ghost first: set<string>) returns (ghost mid: Snap, ghost named: Snap)
      requires Claims(launches, known, first) && MovesKnown(host.moves, known, first)
      modifies this`launches, this`known, host
      ensures Claims(launches, known, first) && MovesKnown(host.moves, known, first)
      ensures old(host.history) <= host.history && old(host.moves) <= host.moves
      ensures Swept(old(Stage()), mid, named, Stage(), timing, host.history, host.moves)
    {
      hide Claims, MovesKnown, Claimed, FromLists, NoneLeft, Matched, Report, Waiting;
      var missing: seq<nat> := [];
      for i := 0 to |launches|
        invariant forall j :: j in missing <==> 0 <= j < i && Waiting(launches[j])
      {
        if Waiting(launches[i]) { missing := missing + [i]; }
      }
      ghost var start := host.history;
      Watch(missing, timing.sweep, timing.sweepInterval, first);
      WatchedTail(old(launches), launches, 0, missing, host.history[|start|..], Books(old(known), known, host.moves),
                  timing.sweep, timing.sweepInterval);
      mid := Stage();
      ghost var (swept, asked) := (host.history, host.moves);
      ClaimByPid(first);
      named := Stage();
      ghost var matched := host.history;
      Settle(first);
      SweptIs(old(Stage()), mid, named, Stage(), timing, start, swept, matched, host.history, asked, host.moves);
    }

    /** `run`, from a verified document to the settled report. `snaps` are the stages before and after each round,
        `mid` the one after the sweep and `named` the one after the match by process. */
    method Run(config: SignedConfig, isRelaunch: string -> bool, timing: Timing)
      returns (out: seq<seq<nat>>, landed: bool, ghost first: set<string>, ghost snaps: seq<Snap>, ghost mid: Snap,
               ghost named: Snap)
      requires launches == [] && host.moves == []
      modifies this`launches, this`known, host
      ensures var es := LaunchOrder(config.entries, isRelaunch);
              && IsPartition(es, out) && EntriesOf(launches) == Picked(es, AllRounds(out, Rounds(out)))
              && RoundsDone(host.starts, es, out, DelaysOf(config), timing, snaps, host.history, host.moves)
      ensures old(host.history) < host.history && first == Addresses(host.history[|old(host.history)|])
      ensures Claims(launches, known, first) && MovesKnown(host.moves, known, first)
      ensures |snaps| == Rounds(out) + 1
      ensures snaps[0] == Snap([], first, |old(host.history)| + 1, old(host.slept), old(host.times))
      ensures Swept(snaps[|snaps| - 1], mid, named, Stage(), timing, host.history, host.moves)
      ensures Ended(Stage(), snaps[|snaps| - 1].upto, mid.upto, named.upto, timing, host.history)
      ensures AllSeen(launches, host.history, |old(host.history)| + 1, named.upto)
      ensures |host.history| - |old(host.history)| <= MostOf(Rounds(out), timing)
      ensures host.slept >= old(host.slept)
              && SleptWithin(host.slept - old(host.slept), Rounds(out), DelaysOf(config), timing)
      ensures Tried(host.starts, launches)
      ensures landed <==>
                launches != [] && forall l | l in launches :: l.placement.Some? && l.placement.value.outcome == Placed
    {
      hide Claims, MovesKnown, IsPartition, Rounds, RoundsDone, Swept, Ended, AllSeen, Addresses, MostOf, EntriesOf,
           Picked, AllRounds, MostReads, LaunchOrder, SleptWithin, Tried;
      var es := LaunchOrder(config.entries, isRelaunch);
      var delays := DelaysOf(config);
      out := GroupsOf(es);
      var rounds := MostRounds(out);
      var list := host.Windows();
      known := match list case Some(ws) => (set w | w in ws :: w.address) case None => {};
      first := known;
      assert first == Addresses(list) by { FirstIs(list); }
      StartClaims(known, host.moves);
      snaps := LaunchRounds(es, out, rounds, delays, timing, first);
      ghost var (history, moves) := (host.history, host.moves);
      mid, named := Sweep(timing, first);
      RoundsGrow(host.starts, es, out, delays, timing, snaps, history, moves, host.history, host.moves);
      BootFacts(host.starts, es, out, delays, timing, snaps, mid, named, Stage(), host.history, host.moves);
      BootTried(host.starts, es, out, delays, timing, snaps, mid, named, Stage(), host.history, host.moves);
      landed := launches != [] && forall l | l in launches :: WasPlaced(l);
    }
  }

  const MIN_POST_LAUNCH_MS: nat := 250

  /** The signed delays, never less than the floor between two rounds. */
  function DelaysOf(config: SignedConfig): Delays {
    Delays(config.preLaunchMs,
           if config.postLaunchMs < MIN_POST_LAUNCH_MS then MIN_POST_LAUNCH_MS else config.postLaunchMs)
  }

  /** The delays of a boot add up to the signed one before each round and, between two rounds, the other or the
      floor under it. */
  lemma {:induction false} DelaysExact(config: SignedConfig, rounds: nat)
    ensures var between := if config.postLaunchMs > 250 then config.postLaunchMs else 250;
            DelaysOf(config).Through(rounds) ==
              rounds * config.preLaunchMs + if rounds == 0 then 0 else (rounds - 1) * between
  {
    if rounds > 0 {
      DelaysExact(config, rounds - 1);
      OneMore(rounds, config.preLaunchMs);
      if rounds > 1 { OneMore(rounds - 1, DelaysOf(config).post); }
    }
  }

  predicate WasPlaced(l: Launch) { l.placement.Some? && l.placement.value.outcome == Placed }

  method MostRounds(out: seq<seq<nat>>) returns (rounds: nat)
    ensures rounds == Rounds(out)
  {
    rounds := 0;
    for k := 0 to |out|
      invariant Rounds(out) == if Rounds(out[k..]) > rounds then Rounds(out[k..]) else rounds
    {
      assert out[k..][1..] == out[k + 1..];
      if |out[k]| > rounds { rounds := |out[k]|; }
    }
    assert out[|out|..] == [];
  }

  datatype Timing = Timing(poll: nat, correlate: nat, sweep: nat, sweepInterval: nat)

  function EntriesOf(ls: seq<Launch>): (es: seq<Entry>)
    ensures |es| == |ls| && forall i | 0 <= i < |ls| :: es[i] == ls[i].entry
  {
    if ls == [] then [] else EntriesOf(ls[..|ls| - 1]) + [ls[|ls| - 1].entry]
  }

  /** The entries at the given places; a place outside the list gives none. */
  function Picked(es: seq<Entry>, at: seq<nat>): seq<Entry> {
    if at == [] then []
    else Picked(es, at[..|at| - 1]) + if at[|at| - 1] < |es| then [es[at[|at| - 1]]] else []
  }

  function AllRounds(out: seq<seq<nat>>, n: nat): seq<nat> {
    if n == 0 then [] else AllRounds(out, n - 1) + Round(out, n - 1)
  }

  lemma PickedMore(es: seq<Entry>, at: seq<nat>, i: nat)
    requires i < |es|
    ensures Picked(es, at + [i]) == Picked(es, at) + [es[i]]
  {
    assert (at + [i])[..|at|] == at;
  }

  /** A launch as it is once tried: waiting for its window if it started. */
  function Begun(e: Entry, s: Start): Launch {
    Launch(e, s.pid, if s.ok then Some(Placement(None, None, NoShow, None)) else None)
  }

  function AllBegun(starts: Entry -> Start, es: seq<Entry>): (ls: seq<Launch>)
    ensures |ls| == |es| && forall i | 0 <= i < |es| :: ls[i].entry == es[i] && Address(ls[i]).None?
  {
    if es == [] then []
    else AllBegun(starts, es[..|es| - 1]) + [Begun(es[|es| - 1], starts(es[|es| - 1]))]
  }

  lemma NoneBegun(starts: Entry -> Start, es: seq<Entry>)
    ensures AllBegun(starts, Picked(es, [])) == []
  {
  }

  lemma BegunMore(starts: Entry -> Start, es: seq<Entry>, e: Entry)
    ensures AllBegun(starts, es + [e]) == AllBegun(starts, es) + [Begun(e, starts(e))]
  {
    assert (es + [e])[..|es|] == es;
  }

  // ------------------------------------------------------------- the stages of a boot

  /** Where a boot stands: its launches, the windows it knows, how many lists it has read and how long it has
      slept, and when it made each launch. */
  datatype Snap = Snap(launches: seq<Launch>, known: set<string>, upto: nat, slept: nat, times: seq<nat>)

  /** No launch still waiting has a new window of its class in the list. */
  predicate NothingNew(ls: seq<Launch>, known: set<string>, ws: seq<Window>) {
    forall l, w | l in ls && Waiting(l) && w in ws && l.entry.windowClass in [w.initialClass, w.className] ::
      w.address in known
  }

  /** A whole watch: what it gave out came from its lists, and it left nothing it could have given. */
  predicate Watched(before: seq<Launch>, after: seq<Launch>, lists: seq<Option<seq<Window>>>, b: Books,
                    limit: nat, interval: nat)
  {
    && Claimed(before, after) && FromLists(before, after, lists, b) && |lists| <= MostReads(limit, interval)
    && (lists == [] ==> forall l | l in after :: !Waiting(l))
    && (lists != [] && lists[|lists| - 1].Some? ==> NothingNew(after, b.known, lists[|lists| - 1].value))
    && ((exists l | l in after :: Waiting(l)) ==> |lists| == MostReads(limit, interval))
  }

  /** The waits before round `r`, as signed: one between two rounds, one before every round. */
  datatype Delays = Delays(pre: nat, post: nat) {
    function Before(r: nat): nat { (if r > 0 then post else 0) + pre }

    function Through(rounds: nat): nat { if rounds == 0 then 0 else Through(rounds - 1) + Before(rounds - 1) }
  }

  function AllAt(time: nat, n: nat): seq<nat> { seq(n, _ => time) }

  lemma MoreAt(time: nat, n: nat)
    ensures AllAt(time, n + 1) == AllAt(time, n) + [time]
  {
  }

  /** One round: after its delay its entries are tried, after all others, and watched; nothing else is touched. */
  predicate RoundDone(begun: seq<Launch>, delay: nat, timing: Timing, a: Snap, b: Snap,
                      history: seq<Option<seq<Window>>>, moves: seq<Moved>)
  {
    && a.upto <= b.upto <= |history| && a.known <= b.known
    && b.times == a.times + AllAt(a.slept + delay, |begun|)
    && b.slept == a.slept + delay + SleptFor(b.upto - a.upto, timing.correlate, timing.poll)
    && |b.launches| == |a.launches| + |begun| && b.launches[..|a.launches|] == a.launches
    && Watched(begun, b.launches[|a.launches|..], history[a.upto..b.upto], Books(a.known, b.known, moves),
               timing.correlate, timing.poll)
  }

  predicate RoundsDone(starts: Entry -> Start, es: seq<Entry>, out: seq<seq<nat>>, delays: Delays, timing: Timing,
                       snaps: seq<Snap>, history: seq<Option<seq<Window>>>, moves: seq<Moved>)
  {
    forall r | 0 <= r < |snaps| - 1 ::
      RoundDone(AllBegun(starts, Picked(es, Round(out, r))), delays.Before(r), timing, snaps[r], snaps[r + 1],
                history, moves)
  }

  lemma AfterDelay(begun: seq<Launch>, delay: nat, timing: Timing, before: Snap, a: Snap, b: Snap,
                   history: seq<Option<seq<Window>>>, moves: seq<Moved>)
    requires RoundDone(begun, 0, timing, a, b, history, moves) && a == before.(slept := before.slept + delay)
    ensures RoundDone(begun, delay, timing, before, b, history, moves)
  {
    hide Watched, SleptFor;
  }

  /** The match by process: at most one list read, and only if something still waits. */
  predicate Matched(before: seq<Launch>, after: seq<Launch>, lists: seq<Option<seq<Window>>>, b: Books) {
    && |lists| <= 1 && Claimed(before, after)
    && (lists == [] ==> forall l | l in after :: !Waiting(l))
    && (lists == [] || lists[0].None? ==> after == before)
    && (lists != [] && lists[0].Some? ==>
          FromPids(before, after, lists[0].value, b) && NonePid(after, b.known, lists[0].value))
  }

  /** The launches as the last list shows them, if there is one. */
  function Report(ls: seq<Launch>, list: Option<seq<Window>>): (r: seq<Launch>)
    ensures |r| == |ls|
    ensures forall i | 0 <= i < |ls| :: r[i] == if list.Some? then Settled(ls[i], list.value) else ls[i]
  {
    if list.None? then ls else seq(|ls|, i requires 0 <= i < |ls| => Settled(ls[i], list.value))
  }

  /** The sweep, the match by process and the report, from stage `a` to stage `b`. */
  predicate Swept(a: Snap, mid: Snap, named: Snap, b: Snap, timing: Timing, history: seq<Option<seq<Window>>>,
                  moves: seq<Moved>)
  {
    && a.upto <= mid.upto <= named.upto < |history| == b.upto == named.upto + 1
    && a.known <= mid.known <= named.known == b.known
    && Watched(a.launches, mid.launches, history[a.upto..mid.upto], Books(a.known, mid.known, moves),
               timing.sweep, timing.sweepInterval)
    && Matched(mid.launches, named.launches, history[mid.upto..named.upto], Books(mid.known, named.known, moves))
    && b.launches == Report(named.launches, history[named.upto])
    && b.slept == named.slept == mid.slept == a.slept + SleptFor(mid.upto - a.upto, timing.sweep, timing.sweepInterval)
    && b.times == named.times == mid.times == a.times
  }

  /** How a boot ends. A launch still waiting was watched for to the last, has no new window of its class in
      the sweep's last list and none of its process in the list read for that; and every launch is as the
      final list shows it. */
  predicate Ended(b: Snap, from: nat, mid: nat, named: nat, timing: Timing, history: seq<Option<seq<Window>>>)
    requires from <= mid <= named < |history|
  {
    && ((exists l | l in b.launches :: Waiting(l)) ==>
          mid - from == MostReads(timing.sweep, timing.sweepInterval) && named == mid + 1)
    && (mid > from && history[mid - 1].Some? ==> NothingNew(b.launches, b.known, history[mid - 1].value))
    && (named > mid && history[mid].Some? ==> NonePid(b.launches, b.known, history[mid].value))
    && (history[named].Some? ==> forall l | l in b.launches :: l == Settled(l, history[named].value))
  }

  /** The launch's window was in one of the lists between the two places, of its class or of its process. */
  predicate SeenIn(l: Launch, history: seq<Option<seq<Window>>>, from: nat, to: nat) {
    exists m :: from <= m < to && m < |history| && history[m].Some? && Shows(history[m].value, l)
  }

  predicate Shows(ws: seq<Window>, l: Launch) {
    exists w | w in ws ::
      Some(w.address) == Address(l)
      && (l.entry.windowClass in [w.initialClass, w.className] || (w.pid == l.pid && l.pid.Some? && l.pid.value > 0))
  }

  predicate AllSeen(ls: seq<Launch>, history: seq<Option<seq<Window>>>, from: nat, to: nat) {
    forall l | l in ls && Address(l).Some? :: SeenIn(l, history, from, to)
  }

  /** The first list, those of the rounds and of the sweep, the one for processes and the last. */
  function MostOf(rounds: nat, timing: Timing): nat {
    3 + rounds * MostReads(timing.correlate, timing.poll) + MostReads(timing.sweep, timing.sweepInterval)
  }

  /** The delays, and the time every watch may take with them. */
  predicate SleptWithin(slept: nat, rounds: nat, delays: Delays, timing: Timing) {
    && delays.Through(rounds) <= slept
    && slept <= delays.Through(rounds) + rounds * (timing.correlate + timing.poll) + timing.sweep + timing.sweepInterval
  }

  lemma {:induction false} PickedAll(es: seq<Entry>, a: seq<nat>, b: seq<nat>)
    ensures Picked(es, a + b) == Picked(es, a) + Picked(es, b)
  {
    if b == [] {
      assert a + b == a;
    } else {
      var init := b[..|b| - 1];
      assert (a + b)[..|a + b| - 1] == a + init;
      PickedAll(es, a, init);
    }
  }

  lemma StartClaims(known: set<string>, moves: seq<Moved>)
    requires moves == []
    ensures Claims([], known, known) && MovesKnown(moves, known, known)
  {
  }

  lemma RoundInside(es: seq<Entry>, out: seq<seq<nat>>, r: nat)
    requires IsPartition(es, out)
    ensures forall i | i in Round(out, r) :: i < |es|
  {
    RoundExact(out, r);
  }

  function SeenClass(w: Window): string { if w.initialClass == [] then w.className else w.initialClass }

  /** Window `k` of the list is the first of the launch's own process that was new, and went to it. */
  predicate TakesByPid(l: Launch, after: Launch, ws: seq<Window>, k: nat, b: Books) {
    && k < |ws| && l.pid.Some? && l.pid.value > 0 && ws[k].pid == l.pid && ws[k].address !in b.knew
    && GivenTo(l, after, ws[k], Some(SeenClass(ws[k])), b.moves)
    && forall j | 0 <= j <= k && ws[j].pid == l.pid :: ws[j].address in b.known
  }

  predicate ByProcess(l: Launch, after: Launch, ws: seq<Window>, b: Books) {
    Waiting(l) && exists k: nat :: k < |ws| && TakesByPid(l, after, ws, k, b)
  }

  /** A launch not as it was waited, has a process of its own, and was given a new window of it. */
  predicate FromPids(before: seq<Launch>, after: seq<Launch>, ws: seq<Window>, b: Books) {
    && |after| == |before|
    && forall i | 0 <= i < |before| :: after[i] == before[i] || ByProcess(before[i], after[i], ws, b)
  }

  predicate NoPidFor(l: Launch, known: set<string>, ws: seq<Window>) {
    Waiting(l) && l.pid.Some? && l.pid.value > 0 ==> forall w | w in ws && w.pid == l.pid :: w.address in known
  }

  predicate NonePid(ls: seq<Launch>, known: set<string>, ws: seq<Window>) {
    forall l | l in ls :: NoPidFor(l, known, ws)
  }

  lemma StartPid(ls: seq<Launch>, ws: seq<Window>, b: Books)
    ensures FromPids(ls, ls, ws, b) && NonePid(ls[..0], b.known, ws)
  {
  }

  lemma ByProcessWider(l: Launch, after: Launch, ws: seq<Window>, b: Books, c: Books)
    requires ByProcess(l, after, ws, b) && Wider(b, c)
    ensures ByProcess(l, after, ws, c)
  {
    var k: nat :| k < |ws| && TakesByPid(l, after, ws, k, b);
    GivenWider(l, after, ws[k], Some(SeenClass(ws[k])), b.moves, c.moves);
    hide GivenTo;
    assert TakesByPid(l, after, ws, k, c);
  }

  lemma FromPidsMore(a: seq<Launch>, b: seq<Launch>, c: seq<Launch>, i: nat, ws: seq<Window>, x: Books, y: Books,
                     z: Books)
    requires FromPids(a, b, ws, x) && |c| == |b| && i < |b| && b[i] == a[i] && Wider(x, z) && Wider(y, z)
    requires (forall j | 0 <= j < |b| && j != i :: c[j] == b[j]) && (c[i] == b[i] || ByProcess(b[i], c[i], ws, y))
    ensures FromPids(a, c, ws, z)
  {
    hide ByProcess;
    forall j | 0 <= j < |a| ensures c[j] == a[j] || ByProcess(a[j], c[j], ws, z) {
      if c[j] != a[j] { ByProcessWider(a[j], c[j], ws, if j == i then y else x, z); }
    }
  }

  lemma NonePidMore(before: seq<Launch>, after: seq<Launch>, i: nat, knew: set<string>, known: set<string>,
                    ws: seq<Window>)
    requires i < |before| == |after| && NonePid(before[..i], knew, ws) && knew <= known
    requires (forall j | 0 <= j < |before| && j != i :: after[j] == before[j]) && NoPidFor(after[i], known, ws)
    ensures NonePid(after[..i + 1], known, ws)
  {
    assert after[..i + 1] == before[..i] + [after[i]];
  }

  function Now(ws: seq<Window>, address: string): Option<Option<int>> {
    if ws == [] then None else if ws[0].address == address then Some(ws[0].workspace) else Now(ws[1..], address)
  }

  /** A launch's window as the last list shows it: gone, on its workspace, or elsewhere. */
  function Settled(l: Launch, ws: seq<Window>): Launch {
    if Address(l).None? then l
    else
      var now := Now(ws, Address(l).value);
      var verdict := match now
        case None => NoShow
        case Some(at) => if at == Some(l.entry.workspace) then Placed else Misplaced;
      var actual := if now.Some? then now.value else None;
      l.(placement := Some(l.placement.value.(actualWorkspace := actual, outcome := verdict)))
  }

  lemma SettleKeeps(before: seq<Launch>, after: seq<Launch>, known: set<string>, first: set<string>, ws: seq<Window>)
    requires Claims(before, known, first) && |after| == |before|
    requires forall j | 0 <= j < |before| :: after[j] == Settled(before[j], ws)
    ensures Claims(after, known, first)
  {
    forall j | 0 <= j < |before| ensures Address(after[j]) == Address(before[j]) { }
    hide Settled, Address;
  }

  lemma {:induction false} NowExact(ws: seq<Window>, address: string)
    ensures Now(ws, address).None? <==> forall w | w in ws :: w.address != address
    ensures Now(ws, address).Some? ==>
      exists w | w in ws :: w.address == address && w.workspace == Now(ws, address).value
  {
    if ws != [] {
      NowExact(ws[1..], address);
      assert ws == [ws[0]] + ws[1..];
    }
  }

  /** The report's verdicts say where a launch's window is: not shown any more, on the signed workspace,
      or on another one that it names. */
  lemma SettledExact(l: Launch, ws: seq<Window>)
    requires Address(l).Some?
    ensures var p := Settled(l, ws).placement.value;
            && Address(Settled(l, ws)) == Address(l)
            && (p.outcome == NoShow <==> forall w | w in ws :: w.address != Address(l).value)
            && (p.outcome == Placed ==> exists w | w in ws :: w.address == Address(l).value && OnTarget(l, w))
            && (p.outcome == Misplaced ==>
                  p.actualWorkspace != Some(l.entry.workspace)
                  && exists w | w in ws :: w.address == Address(l).value && w.workspace == p.actualWorkspace)
  {
    NowExact(ws, Address(l).value);
  }

  lemma StartClaimed(ls: seq<Launch>)
    ensures Claimed(ls, ls)
  {
  }

  lemma StartWatch(ls: seq<Launch>, lists: seq<Option<seq<Window>>>, b: Books)
    ensures Claimed(ls, ls) && FromLists(ls, ls, lists, b)
  {
  }

  /** The reads made when the time is up: the last one no earlier than the limit. */
  lemma ReadsExact(n: nat, limit: nat, interval: nat)
    requires n >= 1 && (n == 1 || (interval > 0 && (n - 2) * interval < limit))
    requires (n - 1) * interval >= limit || interval == 0
    ensures n == MostReads(limit, interval)
  {
    if interval > 0 {
      var k := n - 1;
      assert k * interval >= limit && (k == 0 || (k - 1) * interval < limit);
      CeilIs(limit, interval, k);
    }
  }

  lemma CeilIs(limit: nat, interval: nat, k: nat)
    requires interval > 0 && k * interval >= limit && (k == 0 || (k - 1) * interval < limit)
    ensures (limit + interval - 1) / interval == k
  {
    var x := limit + interval - 1;
    assert k * interval <= x < (k + 1) * interval by {
      if k > 0 { assert (k - 1) * interval == k * interval - interval; }
      assert (k + 1) * interval == k * interval + interval;
    }
    Quotient(x, interval, k);
  }

  lemma Quotient(x: nat, d: nat, k: nat)
    requires d > 0 && k * d <= x < (k + 1) * d
    ensures x / d == k
  {
    var q := x / d;
    assert x == q * d + x % d;
    MulOrder(q + 1, k, d);
    MulOrder(k + 1, q, d);
  }

  lemma MulOrder(a: nat, b: nat, d: nat)
    ensures a <= b ==> a * d <= b * d
  {
    if a <= b { assert b * d == a * d + (b - a) * d; }
  }

  lemma ReadsBound(n: nat, limit: nat, interval: nat)
    requires n == 0 || (interval > 0 && (n - 1) * interval < limit)
    ensures n < MostReads(limit, interval)
  {
    if n > 0 {
      var c := (limit + interval - 1) / interval;
      assert limit + interval - 1 == c * interval + (limit + interval - 1) % interval;
      assert c * interval + interval > limit + interval - 1;
      MulOrder(c, n - 1, interval);
    }
  }

  /** A watch sleeps for less than one interval more than it was given. */
  lemma SleepBound(n: nat, limit: nat, interval: nat)
    requires n <= MostReads(limit, interval)
    ensures SleptFor(n, limit, interval) <= limit + interval
  {
    if interval > 0 {
      var c := (limit + interval - 1) / interval;
      assert limit + interval - 1 == c * interval + (limit + interval - 1) % interval;
      var k := if n == c + 1 then n - 1 else n;
      MulOrder(k, c, interval);
    }
  }

  lemma GivenWider(l: Launch, after: Launch, w: Window, seen: Option<string>, moves: seq<Moved>, more: seq<Moved>)
    requires GivenTo(l, after, w, seen, moves) && moves <= more
    ensures GivenTo(l, after, w, seen, more)
  {
  }

  lemma ByClassWider(l: Launch, after: Launch, ws: seq<Window>, b: Books, c: Books)
    requires ByClass(l, after, ws, b) && Wider(b, c)
    ensures ByClass(l, after, ws, c)
  {
    var k: nat :| k < |ws| && TakesByClass(l, after, ws, k, b);
    GivenWider(l, after, ws[k], None, b.moves, c.moves);
    hide GivenTo;
    assert TakesByClass(l, after, ws, k, c);
  }

  /** What came from some lists came from those lists and others around them. */
  lemma FromSomeWider(l: Launch, after: Launch, lists: seq<Option<seq<Window>>>, n: nat, more: seq<Option<seq<Window>>>,
                      b: Books, c: Books)
    requires FromSome(l, after, lists, b) && Wider(b, c)
    requires n + |lists| <= |more| && more[n..n + |lists|] == lists
    ensures FromSome(l, after, more, c)
  {
    hide ByClass;
    var m :| 0 <= m < |lists| && lists[m].Some? && ByClass(l, after, lists[m].value, b);
    ByClassWider(l, after, lists[m].value, b, c);
    assert more[n + m] == more[n..n + |lists|][m];
  }

  lemma FromOne(before: seq<Launch>, after: seq<Launch>, i: nat, ws: seq<Window>, b: Books)
    requires i < |before| == |after| && forall j | 0 <= j < |before| && j != i :: after[j] == before[j]
    requires after[i] == before[i] || ByClass(before[i], after[i], ws, b)
    ensures FromLists(before, after, [Some(ws)], b)
  {
    hide ByClass;
    assert [Some(ws)][0] == Some(ws);
  }

  lemma FromListsMore(a: seq<Launch>, b: seq<Launch>, lists: seq<Option<seq<Window>>>, list: Option<seq<Window>>,
                      x: Books)
    requires FromLists(a, b, lists, x)
    ensures FromLists(a, b, lists + [list], x)
  {
    hide FromSome;
    assert (lists + [list])[0..|lists|] == lists;
    forall i | 0 <= i < |a| && b[i] != a[i] ensures FromSome(a[i], b[i], lists + [list], x) {
      FromSomeWider(a[i], b[i], lists, 0, lists + [list], x, x);
    }
  }

  /** One watch after another; a launch is given a window in one of them only. */
  lemma FromListsTrans(a: seq<Launch>, b: seq<Launch>, c: seq<Launch>, lists: seq<Option<seq<Window>>>,
                       more: seq<Option<seq<Window>>>, x: Books, y: Books, z: Books)
    requires FromLists(a, b, lists, x) && FromLists(b, c, more, y) && Claimed(a, b) && Claimed(b, c)
    requires Wider(x, z) && Wider(y, z)
    ensures FromLists(a, c, lists + more, z)
  {
    hide FromSome;
    var all := lists + more;
    assert all[0..|lists|] == lists && all[|lists|..|lists| + |more|] == more;
    forall i | 0 <= i < |a| && c[i] != a[i] ensures FromSome(a[i], c[i], all, z) {
      if b[i] != a[i] {
        FromSomeWider(a[i], b[i], lists, 0, all, x, z);
      } else {
        FromSomeWider(b[i], c[i], more, |lists|, all, y, z);
      }
    }
  }

  lemma FromListsTwice(a: seq<Launch>, b: seq<Launch>, lists: seq<Option<seq<Window>>>, x: Books)
    requires FromLists(a, b, lists + lists, x)
    ensures FromLists(a, b, lists, x)
  {
    hide ByClass;
    forall i | 0 <= i < |a| && b[i] != a[i] ensures FromSome(a[i], b[i], lists, x) {
      var m :| 0 <= m < |lists + lists| && (lists + lists)[m].Some? && ByClass(a[i], b[i], (lists + lists)[m].value, x);
      assert (lists + lists)[m] == lists[if m < |lists| then m else m - |lists|];
    }
  }

  lemma NotFirst(known: set<string>, first: set<string>, address: string)
    requires first <= known && address !in known
    ensures address !in first
  {
  }

  lemma FirstIs(list: Option<seq<Window>>)
    ensures Addresses(list) == match list case Some(ws) => (set w | w in ws :: w.address) case None => {}
  {
  }

  /** What a watch says of its places, said of the launches from place `n` on. */
  lemma WatchedTail(before: seq<Launch>, after: seq<Launch>, n: nat, waiting: seq<nat>, lists: seq<Option<seq<Window>>>,
                    b: Books, limit: nat, interval: nat)
    requires n <= |before| == |after| && Claimed(before, after) && FromLists(before, after, lists, b)
    requires forall i :: i in waiting <==> n <= i < |before| && Waiting(before[i])
    requires |lists| <= MostReads(limit, interval)
    requires lists == [] ==> forall i | i in waiting :: !Waiting(after[i])
    requires lists != [] && lists[|lists| - 1].Some? ==> NoneLeft(after, waiting, b.known, lists[|lists| - 1].value)
    requires (exists i | i in waiting :: Waiting(after[i])) ==> |lists| == MostReads(limit, interval)
    ensures Watched(before[n..], after[n..], lists, b, limit, interval)
  {
    hide FromSome, MostReads, IsOf;
    TailWaits(before, after, n, waiting);
    forall l | l in after[n..] && Waiting(l) ensures exists i | i in waiting :: after[i] == l && Waiting(after[i]) {
      var k :| 0 <= k < |after[n..]| && after[n..][k] == l;
      assert n + k in waiting && after[n + k] == l;
    }
  }

  lemma TailWaits(before: seq<Launch>, after: seq<Launch>, n: nat, waiting: seq<nat>)
    requires n <= |before| == |after| && Claimed(before, after)
    requires forall i :: i in waiting <==> n <= i < |before| && Waiting(before[i])
    ensures forall i | n <= i < |after| && Waiting(after[i]) :: i in waiting
  {
  }

  lemma WatchedWider(a: seq<Launch>, b: seq<Launch>, lists: seq<Option<seq<Window>>>, x: Books, moves: seq<Moved>,
                     limit: nat, interval: nat)
    requires Watched(a, b, lists, x, limit, interval) && x.moves <= moves
    ensures Watched(a, b, lists, x.(moves := moves), limit, interval)
  {
    hide FromSome, NothingNew, MostReads, Claimed;
    assert lists[0..|lists|] == lists;
    forall i | 0 <= i < |a| && b[i] != a[i] ensures FromSome(a[i], b[i], lists, x.(moves := moves)) {
      FromSomeWider(a[i], b[i], lists, 0, lists, x, x.(moves := moves));
    }
  }

  lemma RoundGrows(begun: seq<Launch>, delay: nat, timing: Timing, a: Snap, b: Snap,
                   history: seq<Option<seq<Window>>>, moves: seq<Moved>, history': seq<Option<seq<Window>>>,
                   moves': seq<Moved>)
    requires RoundDone(begun, delay, timing, a, b, history, moves) && history <= history' && moves <= moves'
    ensures RoundDone(begun, delay, timing, a, b, history', moves')
  {
    hide Watched, SleptFor;
    assert history'[a.upto..b.upto] == history[a.upto..b.upto];
    WatchedWider(begun, b.launches[|a.launches|..], history[a.upto..b.upto], Books(a.known, b.known, moves), moves',
                 timing.correlate, timing.poll);
  }

  lemma RoundsGrow(starts: Entry -> Start, es: seq<Entry>, out: seq<seq<nat>>, delays: Delays, timing: Timing,
                   snaps: seq<Snap>, history: seq<Option<seq<Window>>>, moves: seq<Moved>,
                   history': seq<Option<seq<Window>>>, moves': seq<Moved>)
    requires RoundsDone(starts, es, out, delays, timing, snaps, history, moves)
    requires history <= history' && moves <= moves'
    ensures RoundsDone(starts, es, out, delays, timing, snaps, history', moves')
  {
    hide RoundDone, AllBegun, Picked, Round;
    forall r | 0 <= r < |snaps| - 1
      ensures RoundDone(AllBegun(starts, Picked(es, Round(out, r))), delays.Before(r), timing, snaps[r], snaps[r + 1],
                        history', moves')
    {
      RoundGrows(AllBegun(starts, Picked(es, Round(out, r))), delays.Before(r), timing, snaps[r], snaps[r + 1],
                 history, moves, history', moves');
    }
  }

  lemma SweptIs(a: Snap, mid: Snap, named: Snap, b: Snap, timing: Timing, start: seq<Option<seq<Window>>>,
                swept: seq<Option<seq<Window>>>, matched: seq<Option<seq<Window>>>, history: seq<Option<seq<Window>>>,
                asked: seq<Moved>, moves: seq<Moved>)
    requires |history| == |matched| + 1 && start <= swept <= matched <= history
    requires a.upto == |start| && mid.upto == |swept| && named.upto == |matched| && b.upto == |history|
    requires a.known <= mid.known <= named.known == b.known && asked <= moves
    requires Watched(a.launches, mid.launches, swept[|start|..], Books(a.known, mid.known, asked),
                     timing.sweep, timing.sweepInterval)
    requires Matched(mid.launches, named.launches, matched[|swept|..], Books(mid.known, named.known, moves))
    requires b.launches == Report(named.launches, history[|matched|])
    requires b.slept == named.slept == mid.slept
             == a.slept + SleptFor(mid.upto - a.upto, timing.sweep, timing.sweepInterval)
    requires b.times == named.times == mid.times == a.times
    ensures Swept(a, mid, named, b, timing, history, moves)
  {
    hide Watched, Matched, Report;
    assert history[a.upto..mid.upto] == swept[|start|..] && history[mid.upto..named.upto] == matched[|swept|..];
    WatchedWider(a.launches, mid.launches, swept[|start|..], Books(a.known, mid.known, asked), moves,
                 timing.sweep, timing.sweepInterval);
  }

  // ------------------------------------------------------------- the whole boot

  lemma BootFacts(starts: Entry -> Start, es: seq<Entry>, out: seq<seq<nat>>, delays: Delays, timing: Timing,
                  snaps: seq<Snap>, mid: Snap, named: Snap, b: Snap, history: seq<Option<seq<Window>>>,
                  moves: seq<Moved>)
    requires |snaps| == Rounds(out) + 1 && snaps[0].launches == [] && snaps[0].upto <= |history|
    requires RoundsDone(starts, es, out, delays, timing, snaps, history, moves)
    requires Swept(snaps[|snaps| - 1], mid, named, b, timing, history, moves)
    ensures EntriesOf(b.launches) == Picked(es, AllRounds(out, Rounds(out)))
    ensures Ended(b, snaps[|snaps| - 1].upto, mid.upto, named.upto, timing, history)
    ensures AllSeen(b.launches, history, snaps[0].upto, named.upto)
    ensures |history| - snaps[0].upto + 1 <= MostOf(Rounds(out), timing)
    ensures b.slept >= snaps[0].slept && SleptWithin(b.slept - snaps[0].slept, Rounds(out), delays, timing)
  {
    hide Rounds, Picked, AllRounds, AllSeen, RoundsDone, Ended, MostReads;
    var a := snaps[|snaps| - 1];
    StagesFacts(starts, es, out, delays, timing, snaps, |snaps| - 1, history, moves);
    SweptFacts(a, mid, named, b, timing, history, moves);
    SweptSeen(a, mid, named, b, timing, snaps[0].upto, history, moves);
    SweptSlept(a, mid, named, b, timing, history, moves);
    hide Swept;
  }

  /** The launches carry what starting them came to: only what started ever has a window, or is waited for. */
  predicate Tried(starts: Entry -> Start, ls: seq<Launch>) {
    forall l | l in ls :: l.pid == starts(l.entry).pid && (l.placement.Some? <==> starts(l.entry).ok)
  }

  lemma BegunTried(starts: Entry -> Start, es: seq<Entry>)
    ensures Tried(starts, AllBegun(starts, es))
  {
  }

  lemma ClaimedTried(starts: Entry -> Start, a: seq<Launch>, b: seq<Launch>)
    requires Claimed(a, b) && Tried(starts, a)
    ensures Tried(starts, b)
  {
    forall i | 0 <= i < |b|
      ensures b[i].pid == starts(b[i].entry).pid && (b[i].placement.Some? <==> starts(b[i].entry).ok)
    {
      assert a[i] in a;
    }
  }

  lemma {:induction false} StagesTried(starts: Entry -> Start, es: seq<Entry>, out: seq<seq<nat>>, delays: Delays,
                                       timing: Timing, snaps: seq<Snap>, r: nat, history: seq<Option<seq<Window>>>,
                                       moves: seq<Moved>)
    requires r < |snaps| && snaps[0].launches == []
    requires RoundsDone(starts, es, out, delays, timing, snaps, history, moves)
    ensures Tried(starts, snaps[r].launches)
  {
    hide RoundsDone, AllBegun, Picked, Round, MostReads, Address, Claimed, FromLists, NothingNew, SleptFor;
    if r > 0 {
      StagesTried(starts, es, out, delays, timing, snaps, r - 1, history, moves);
      RoundAt(starts, es, out, delays, timing, snaps, r - 1, history, moves);
      var begun := AllBegun(starts, Picked(es, Round(out, r - 1)));
      BegunTried(starts, Picked(es, Round(out, r - 1)));
      var (a, b) := (snaps[r - 1].launches, snaps[r].launches);
      ClaimedTried(starts, begun, b[|a|..]);
      assert b == a + b[|a|..];
    }
  }

  lemma BootTried(starts: Entry -> Start, es: seq<Entry>, out: seq<seq<nat>>, delays: Delays, timing: Timing,
                  snaps: seq<Snap>, mid: Snap, named: Snap, b: Snap, history: seq<Option<seq<Window>>>,
                  moves: seq<Moved>)
    requires snaps != [] && snaps[0].launches == []
    requires RoundsDone(starts, es, out, delays, timing, snaps, history, moves)
    requires Swept(snaps[|snaps| - 1], mid, named, b, timing, history, moves)
    ensures Tried(starts, b.launches)
  {
    hide RoundsDone, Picked, MostReads, FromLists, FromPids, NothingNew, NonePid, SleptFor, Claimed, Tried;
    StagesTried(starts, es, out, delays, timing, snaps, |snaps| - 1, history, moves);
    ClaimedTried(starts, snaps[|snaps| - 1].launches, mid.launches);
    ClaimedTried(starts, mid.launches, named.launches);
    ReportTried(starts, named.launches, history[named.upto]);
  }

  lemma ReportTried(starts: Entry -> Start, ls: seq<Launch>, list: Option<seq<Window>>)
    requires Tried(starts, ls)
    ensures Tried(starts, Report(ls, list))
  {
    hide Now;
  }

  /** After each round: whose launches there are, where their windows were seen, and how much was read. */
  lemma {:induction false} StagesFacts(starts: Entry -> Start, es: seq<Entry>, out: seq<seq<nat>>, delays: Delays,
                                       timing: Timing, snaps: seq<Snap>, r: nat, history: seq<Option<seq<Window>>>,
                                       moves: seq<Moved>)
    requires r < |snaps| && snaps[0].launches == [] && snaps[0].upto <= |history|
    requires RoundsDone(starts, es, out, delays, timing, snaps, history, moves)
    ensures EntriesOf(snaps[r].launches) == Picked(es, AllRounds(out, r))
    ensures snaps[0].upto <= snaps[r].upto <= |history|
    ensures AllSeen(snaps[r].launches, history, snaps[0].upto, snaps[r].upto)
    ensures snaps[r].upto - snaps[0].upto <= r * MostReads(timing.correlate, timing.poll)
    ensures var due := snaps[0].slept + delays.Through(r);
            due <= snaps[r].slept <= due + r * (timing.correlate + timing.poll)
  {
    hide RoundsDone, RoundDone, AllSeen, AllBegun, EntriesOf, Picked, Round, MostReads, Address;
    if r == 0 {
      NoneSeen(history, snaps[0].upto);
      NonePicked(es, out);
    } else {
      var batch := Round(out, r - 1);
      StagesFacts(starts, es, out, delays, timing, snaps, r - 1, history, moves);
      RoundAt(starts, es, out, delays, timing, snaps, r - 1, history, moves);
      BegunIdle(starts, Picked(es, batch));
      RoundFacts(AllBegun(starts, Picked(es, batch)), delays.Before(r - 1), timing, snaps[r - 1], snaps[r],
                 snaps[0].upto, history, moves);
      EntriesBegun(starts, Picked(es, batch));
      PickedAll(es, AllRounds(out, r - 1), batch);
      OneMore(r, MostReads(timing.correlate, timing.poll));
      OneMore(r, timing.correlate + timing.poll);
    }
  }

  lemma OneMore(r: nat, m: nat)
    requires r > 0
    ensures r * m == (r - 1) * m + m
  {
  }

  lemma NonePicked(es: seq<Entry>, out: seq<seq<nat>>)
    ensures Picked(es, AllRounds(out, 0)) == []
  {
  }

  lemma BegunIdle(starts: Entry -> Start, es: seq<Entry>)
    ensures forall l | l in AllBegun(starts, es) :: Address(l).None?
  {
    hide Address;
  }

  lemma RoundAt(starts: Entry -> Start, es: seq<Entry>, out: seq<seq<nat>>, delays: Delays, timing: Timing,
                snaps: seq<Snap>, r: nat, history: seq<Option<seq<Window>>>, moves: seq<Moved>)
    requires r < |snaps| - 1 && RoundsDone(starts, es, out, delays, timing, snaps, history, moves)
    ensures RoundDone(AllBegun(starts, Picked(es, Round(out, r))), delays.Before(r), timing, snaps[r], snaps[r + 1],
                      history, moves)
  {
    hide RoundDone, AllBegun, Picked, Round;
  }

  lemma NoneSeen(history: seq<Option<seq<Window>>>, from: nat)
    ensures AllSeen([], history, from, from) && EntriesOf([]) == []
  {
  }

  lemma EntriesBegun(starts: Entry -> Start, es: seq<Entry>)
    ensures EntriesOf(AllBegun(starts, es)) == es
  {
    hide Begun;
  }

  lemma RoundFacts(begun: seq<Launch>, delay: nat, timing: Timing, a: Snap, b: Snap, from: nat,
                   history: seq<Option<seq<Window>>>, moves: seq<Moved>)
    requires RoundDone(begun, delay, timing, a, b, history, moves) && from <= a.upto
    requires AllSeen(a.launches, history, from, a.upto) && forall l | l in begun :: Address(l).None?
    ensures EntriesOf(b.launches) == EntriesOf(a.launches) + EntriesOf(begun)
    ensures AllSeen(b.launches, history, from, b.upto)
    ensures a.upto <= b.upto <= |history| && b.upto - a.upto <= MostReads(timing.correlate, timing.poll)
    ensures a.slept + delay <= b.slept <= a.slept + delay + timing.correlate + timing.poll
  {
    hide AllSeen, Watched, MostReads, SleptFor, AllAt, EntriesOf;
    var tail := b.launches[|a.launches|..];
    assert b.launches == a.launches + tail;
    EntriesSplit(a.launches, tail);
    IdleSeen(begun, history, from, a.upto);
    WatchedBounds(begun, tail, history[a.upto..b.upto], Books(a.known, b.known, moves), timing.correlate, timing.poll);
    WatchedSeen(begun, tail, from, a.upto, b.upto, history, Books(a.known, b.known, moves), timing.correlate,
                timing.poll);
    SeenLater(a.launches, history, from, a.upto, b.upto);
    SeenBoth(a.launches, tail, history, from, b.upto);
  }

  lemma IdleSeen(ls: seq<Launch>, history: seq<Option<seq<Window>>>, from: nat, to: nat)
    requires forall l | l in ls :: Address(l).None?
    ensures AllSeen(ls, history, from, to)
  {
    hide SeenIn, Address;
  }

  lemma SeenBoth(a: seq<Launch>, b: seq<Launch>, history: seq<Option<seq<Window>>>, from: nat, to: nat)
    requires AllSeen(a, history, from, to) && AllSeen(b, history, from, to)
    ensures AllSeen(a + b, history, from, to)
  {
    hide SeenIn, Address;
  }

  lemma WatchedBounds(before: seq<Launch>, after: seq<Launch>, lists: seq<Option<seq<Window>>>, b: Books, limit: nat,
                      interval: nat)
    requires Watched(before, after, lists, b, limit, interval)
    ensures EntriesOf(after) == EntriesOf(before)
    ensures |lists| <= MostReads(limit, interval) && SleptFor(|lists|, limit, interval) <= limit + interval
  {
    hide FromLists, NothingNew, MostReads, SleptFor;
    SleepBound(|lists|, limit, interval);
  }

  lemma EntriesSplit(a: seq<Launch>, b: seq<Launch>)
    ensures EntriesOf(a + b) == EntriesOf(a) + EntriesOf(b)
  {
  }

  lemma SeenLater(ls: seq<Launch>, history: seq<Option<seq<Window>>>, from: nat, to: nat, later: nat)
    requires AllSeen(ls, history, from, to) && to <= later
    ensures AllSeen(ls, history, from, later)
  {
    hide Shows;
    forall l | l in ls && Address(l).Some? ensures SeenIn(l, history, from, later) {
      assert SeenIn(l, history, from, to);
    }
  }

  lemma GivenShows(l: Launch, after: Launch, ws: seq<Window>, b: Books)
    requires ByClass(l, after, ws, b) || ByProcess(l, after, ws, b)
    ensures Shows(ws, after) && Address(after).Some?
  {
    if ByClass(l, after, ws, b) {
      var k: nat :| k < |ws| && TakesByClass(l, after, ws, k, b);
      assert ws[k] in ws;
    } else {
      var k: nat :| k < |ws| && TakesByPid(l, after, ws, k, b);
      assert ws[k] in ws;
    }
  }

  lemma FromSomeSeen(l: Launch, after: Launch, history: seq<Option<seq<Window>>>, from: nat, at: nat, to: nat, b: Books)
    requires from <= at <= to <= |history| && FromSome(l, after, history[at..to], b)
    ensures SeenIn(after, history, from, to)
  {
    hide ByClass, Shows;
    var lists := history[at..to];
    var m :| 0 <= m < |lists| && lists[m].Some? && ByClass(l, after, lists[m].value, b);
    GivenShows(l, after, lists[m].value, b);
    assert history[at + m] == lists[m];
  }

  lemma WatchedSeen(before: seq<Launch>, after: seq<Launch>, from: nat, at: nat, to: nat,
                    history: seq<Option<seq<Window>>>,
                    b: Books, limit: nat, interval: nat)
    requires from <= at <= to <= |history| && AllSeen(before, history, from, at)
    requires Watched(before, after, history[at..to], b, limit, interval)
    ensures AllSeen(after, history, from, to)
  {
    hide SeenIn, FromSome, NothingNew, MostReads;
    SeenLater(before, history, from, at, to);
    forall l | l in after && Address(l).Some? ensures SeenIn(l, history, from, to) {
      var i :| 0 <= i < |after| && after[i] == l;
      if after[i] == before[i] {
        assert l in before;
      } else {
        FromSomeSeen(before[i], after[i], history, from, at, to, b);
      }
    }
  }

  lemma SweptSeen(a: Snap, mid: Snap, named: Snap, b: Snap, timing: Timing, from: nat,
                  history: seq<Option<seq<Window>>>,
                  moves: seq<Moved>)
    requires Swept(a, mid, named, b, timing, history, moves) && from <= a.upto
      && AllSeen(a.launches, history, from, a.upto)
    ensures AllSeen(b.launches, history, from, named.upto)
  {
    hide SeenIn, Watched, Matched, Settled;
    WatchedSeen(a.launches, mid.launches, from, a.upto, mid.upto, history, Books(a.known, mid.known, moves),
                timing.sweep, timing.sweepInterval);
    MatchedSeen(mid.launches, named.launches, from, mid.upto, named.upto, history,
                Books(mid.known, named.known, moves));
    ReportSeen(named.launches, history[named.upto], history, from, named.upto);
  }

  lemma MatchedSeen(before: seq<Launch>, after: seq<Launch>, from: nat, at: nat, to: nat,
                    history: seq<Option<seq<Window>>>,
                    b: Books)
    requires from <= at <= to <= |history| && AllSeen(before, history, from, at)
    requires Matched(before, after, history[at..to], b)
    ensures AllSeen(after, history, from, to)
  {
    hide SeenIn, ByProcess, NonePid;
    SeenLater(before, history, from, at, to);
    forall l | l in after && Address(l).Some? ensures SeenIn(l, history, from, to) {
      var i :| 0 <= i < |after| && after[i] == l;
      if after == before || after[i] == before[i] {
        assert l in before;
      } else {
        SeenByPid(before[i], after[i], history, from, at, to, b);
      }
    }
  }

  lemma SeenByPid(l: Launch, after: Launch, history: seq<Option<seq<Window>>>, from: nat, at: nat, to: nat, b: Books)
    requires from <= at < to <= |history| && history[at].Some? && ByProcess(l, after, history[at].value, b)
    ensures SeenIn(after, history, from, to)
  {
    GivenShows(l, after, history[at].value, b);
    hide Shows;
  }

  lemma ReportSeen(ls: seq<Launch>, list: Option<seq<Window>>, history: seq<Option<seq<Window>>>, from: nat, to: nat)
    requires AllSeen(ls, history, from, to)
    ensures AllSeen(Report(ls, list), history, from, to)
  {
    hide SeenIn, Settled;
    var r := Report(ls, list);
    forall l | l in r && Address(l).Some? ensures SeenIn(l, history, from, to) {
      var i :| 0 <= i < |r| && r[i] == l;
      assert ls[i] in ls;
      if list.Some? { SettledSeen(ls[i], list.value, history, from, to); }
    }
  }

  lemma SettledSeen(l: Launch, ws: seq<Window>, history: seq<Option<seq<Window>>>, from: nat, to: nat)
    requires Address(l).Some? ==> SeenIn(l, history, from, to)
    ensures Address(Settled(l, ws)) == Address(l) && Settled(l, ws).entry == l.entry
    ensures Address(l).Some? ==> SeenIn(Settled(l, ws), history, from, to)
  {
    SettledSame(l, ws);
    hide Settled;
    if Address(l).Some? {
      var m :| from <= m < to && m < |history| && history[m].Some? && Shows(history[m].value, l);
      assert Shows(history[m].value, Settled(l, ws));
    }
  }

  lemma SettledSame(l: Launch, ws: seq<Window>)
    ensures var s := Settled(l, ws);
            && Address(s) == Address(l) && s.entry == l.entry && s.pid == l.pid && (Waiting(s) <==> Waiting(l))
            && Settled(s, ws) == s
  {
  }

  lemma SweptSlept(a: Snap, mid: Snap, named: Snap, b: Snap, timing: Timing, history: seq<Option<seq<Window>>>,
                   moves: seq<Moved>)
    requires Swept(a, mid, named, b, timing, history, moves)
    ensures a.slept <= b.slept <= a.slept + timing.sweep + timing.sweepInterval
  {
    hide FromLists, NothingNew, Matched, Report, MostReads, SleptFor, Claimed;
    SleepBound(mid.upto - a.upto, timing.sweep, timing.sweepInterval);
  }

  /** A launch still waiting at the end waited all along. */
  lemma StillWaits(a: Snap, mid: Snap, named: Snap, b: Snap, timing: Timing, history: seq<Option<seq<Window>>>,
                   moves: seq<Moved>, l: Launch)
    requires Swept(a, mid, named, b, timing, history, moves) && l in b.launches && Waiting(l)
    ensures l in mid.launches && l in named.launches
  {
    hide FromLists, FromPids, NonePid, NothingNew, Settled, MostReads;
    var i :| 0 <= i < |b.launches| && b.launches[i] == l;
    if history[named.upto].Some? { SettledWaits(named.launches[i], history[named.upto].value); }
    assert named.launches[i] == l && mid.launches[i] == l;
  }

  lemma SettledWaits(l: Launch, ws: seq<Window>)
    ensures Waiting(Settled(l, ws)) ==> Settled(l, ws) == l
  {
  }

  lemma ReportSettled(ls: seq<Launch>, ws: seq<Window>)
    ensures forall l | l in Report(ls, Some(ws)) :: l == Settled(l, ws)
  {
    hide Settled;
    forall l | l in Report(ls, Some(ws)) ensures l == Settled(l, ws) {
      var i :| 0 <= i < |ls| && Report(ls, Some(ws))[i] == l;
      SettledSame(ls[i], ws);
    }
  }

  lemma NoPidIdle(l: Launch, known: set<string>, ws: seq<Window>)
    ensures !Waiting(l) ==> NoPidFor(l, known, ws)
  {
  }

  lemma StillNone(ls: seq<Launch>, after: seq<Launch>, known: set<string>, ws: seq<Window>)
    requires NonePid(ls, known, ws) && forall l | l in after && Waiting(l) :: l in ls
    ensures NonePid(after, known, ws)
  {
    hide NoPidFor;
    forall l | l in after ensures NoPidFor(l, known, ws) { NoPidIdle(l, known, ws); }
  }

  /** How the sweep, the match and the report leave things. */
  lemma SweptFacts(a: Snap, mid: Snap, named: Snap, b: Snap, timing: Timing, history: seq<Option<seq<Window>>>,
                   moves: seq<Moved>)
    requires Swept(a, mid, named, b, timing, history, moves)
    ensures EntriesOf(b.launches) == EntriesOf(a.launches)
    ensures Ended(b, a.upto, mid.upto, named.upto, timing, history)
    ensures |history| - a.upto <= MostReads(timing.sweep, timing.sweepInterval) + 2
  {
    hide MostReads, IsOf, FromLists, FromPids, NonePid, Settled, Claimed, SleptFor, Report;
    SweptEntries(a, mid, named, b, timing, history, moves);
    forall l | l in b.launches && Waiting(l) ensures l in mid.launches && l in named.launches {
      StillWaits(a, mid, named, b, timing, history, moves, l);
    }
    var (sweep, matched) := (history[a.upto..mid.upto], history[mid.upto..named.upto]);
    if mid.upto > a.upto { assert sweep[|sweep| - 1] == history[mid.upto - 1]; }
    if named.upto > mid.upto {
      assert matched[0] == history[mid.upto];
      if matched[0].Some? { StillNone(named.launches, b.launches, b.known, matched[0].value); }
    }
    if history[named.upto].Some? { ReportSettled(named.launches, history[named.upto].value); }
  }

  lemma SweptEntries(a: Snap, mid: Snap, named: Snap, b: Snap, timing: Timing, history: seq<Option<seq<Window>>>,
                     moves: seq<Moved>)
    requires Swept(a, mid, named, b, timing, history, moves)
    ensures EntriesOf(b.launches) == EntriesOf(a.launches)
  {
    hide MostReads, NothingNew, FromLists, FromPids, NonePid, Settled;
    forall i | 0 <= i < |b.launches| ensures b.launches[i].entry == a.launches[i].entry {
      if history[named.upto].Some? { SettledSame(named.launches[i], history[named.upto].value); }
    }
  }

  // ------------------------------------------------------------- which entries, in what order

  /** An entry boot launches: enabled, and not a command that would run Relaunch itself. */
  predicate Eligible(e: Entry, isRelaunch: string -> bool) { e.enabled && !isRelaunch(e.exec) }

  predicate Earlier(a: Entry, b: Entry) {
    a.workspace < b.workspace || (a.workspace == b.workspace && Less(a.id, b.id))
  }

  function Slot(e: Entry, es: seq<Entry>): (r: seq<Entry>)
    ensures multiset(r) == multiset(es) + multiset{e}
  {
    if es == [] || Earlier(e, es[0]) then [e] + es
    else
      assert es == [es[0]] + es[1..];
      [es[0]] + Slot(e, es[1..])
  }

  /** The eligible entries by workspace, then id. */
  function LaunchOrder(es: seq<Entry>, isRelaunch: string -> bool): seq<Entry> {
    if es == [] then []
    else
      var rest := LaunchOrder(es[..|es| - 1], isRelaunch);
      var last := es[|es| - 1];
      if Eligible(last, isRelaunch) then Slot(last, rest) else rest
  }

  /** By workspace; within one, by id. */
  predicate InLaunchOrder(es: seq<Entry>) {
    forall i, j | 0 <= i < j < |es| ::
      es[i].workspace < es[j].workspace || (es[i].workspace == es[j].workspace && !Less(es[j].id, es[i].id))
  }

  lemma EarlierTrans(a: Entry, b: Entry, c: Entry)
    ensures Earlier(a, b) && Earlier(b, c) ==> Earlier(a, c)
    ensures !(Earlier(a, b) && Earlier(b, a))
  {
    if Less(a.id, b.id) && Less(b.id, c.id) { LessTrans(a.id, b.id, c.id); }
    LessTotal(a.id, b.id);
  }

  lemma {:induction false} SlotOrdered(e: Entry, es: seq<Entry>)
    requires InLaunchOrder(es)
    ensures InLaunchOrder(Slot(e, es))
  {
    if es == [] {
    } else if Earlier(e, es[0]) {
      forall j | 0 <= j < |es| ensures !Earlier(es[j], e) {
        EarlierTrans(es[j], e, es[0]);
        EarlierTrans(es[0], e, es[0]);
      }
    } else {
      var t := Slot(e, es[1..]);
      SlotOrdered(e, es[1..]);
      forall j | 0 <= j < |t| ensures !Earlier(t[j], es[0]) {
        assert t[j] in multiset(t);
        if t[j] != e { assert t[j] in es[1..]; }
      }
    }
  }

  /** Boot's order holds exactly the eligible entries, by workspace and then id. */
  lemma {:induction false} LaunchOrderExact(es: seq<Entry>, isRelaunch: string -> bool)
    ensures InLaunchOrder(LaunchOrder(es, isRelaunch))
    ensures forall e :: multiset(LaunchOrder(es, isRelaunch))[e] ==
                        if e.enabled && !isRelaunch(e.exec) then multiset(es)[e] else 0
  {
    if es != [] {
      var (init, last) := (es[..|es| - 1], es[|es| - 1]);
      assert es == init + [last];
      LaunchOrderExact(init, isRelaunch);
      SlotOrdered(last, LaunchOrder(init, isRelaunch));
    }
  }
}
