/** Capturing the open windows as a proposal (the engine's propose.rs): which stored pin each window
    continues, and the pins proposed. */
module Propose {
  import opened Text
  import opened Model
  import L = Launcher
  import D = Desktop

  /** One window's capture. `source` is `None` when nothing verifiable names its command. */
  datatype Observed = Observed(
    windowClass: string, exec: string, source: Option<ExecSource>, provenance: Provenance, cwd: Option<string>,
    trusted: bool, workspace: int, floating: Option<bool>, labelText: string)

  datatype Env = Env(dir: string, sha: seq<byte> -> string)

  datatype Base = Base(preLaunchMs: u32, postLaunchMs: u32, entries: seq<Entry>)

  /** Where a pin's window is. */
  datatype Place = Place(windowClass: string, workspace: u32)

  datatype Want = Want(place: Place, exec: string)

  // ------------------------------------------------------------ which pin is continued

  function PlaceOf(e: Entry): Place { Place(e.windowClass, e.workspace) }

  /** The stored pins at a place, in stored order. */
  function At(stored: seq<Entry>, place: Place): seq<Entry> {
    if stored == [] then []
    else
      var rest := At(stored[..|stored| - 1], place);
      var last := stored[|stored| - 1];
      if PlaceOf(last) == place then rest + [last] else rest
  }

  function Sharing(wanted: seq<Want>, place: Place): nat {
    if wanted == [] then 0
    else Sharing(wanted[..|wanted| - 1], place) + (if wanted[|wanted| - 1].place == place then 1 else 0)
  }

  function FirstUnused(pins: seq<Entry>, exec: string, used: set<string>): Option<Entry> {
    if pins == [] then None
    else if pins[0].exec == exec && pins[0].id !in used then Some(pins[0])
    else FirstUnused(pins[1..], exec, used)
  }

  /** One stored pin and one capture at a place are the same window; otherwise only the exact command is. */
  function Match(stored: seq<Entry>, wanted: seq<Want>, w: Want, used: set<string>): Option<Entry> {
    var pins := At(stored, w.place);
    if |pins| == 1 && Sharing(wanted, w.place) == 1 then Some(pins[0]) else FirstUnused(pins, w.exec, used)
  }

  function Used(found: seq<Option<Entry>>): set<string> {
    set f | f in found && f.Some? :: f.value.id
  }

  function CorrelateFirst(stored: seq<Entry>, wanted: seq<Want>, n: nat): (found: seq<Option<Entry>>)
    requires n <= |wanted|
    ensures |found| == n
  {
    if n == 0 then []
    else
      var prev := CorrelateFirst(stored, wanted, n - 1);
      prev + [Match(stored, wanted, wanted[n - 1], Used(prev))]
  }

  function Correlate(stored: seq<Entry>, wanted: seq<Want>): (found: seq<Option<Entry>>)
    ensures |found| == |wanted|
  {
    CorrelateFirst(stored, wanted, |wanted|)
  }

  function OrNone(at: map<Place, seq<Entry>>, p: Place): seq<Entry> { if p in at then at[p] else [] }

  function OrZero(sharing: map<Place, nat>, p: Place): nat { if p in sharing then sharing[p] else 0 }

  method IndexPlaces(stored: seq<Entry>) returns (at: map<Place, seq<Entry>>)
    ensures forall p :: OrNone(at, p) == At(stored, p)
  {
    at := map[];
    for i := 0 to |stored|
      invariant forall p :: OrNone(at, p) == At(stored[..i], p)
    {
      var p := PlaceOf(stored[i]);
      assert stored[..i + 1][..i] == stored[..i];
      at := at[p := OrNone(at, p) + [stored[i]]];
    }
    assert stored[..|stored|] == stored;
  }

  method CountPlaces(wanted: seq<Want>) returns (sharing: map<Place, nat>)
    ensures forall p :: OrZero(sharing, p) == Sharing(wanted, p)
  {
    sharing := map[];
    for i := 0 to |wanted|
      invariant forall p :: OrZero(sharing, p) == Sharing(wanted[..i], p)
    {
      var p := wanted[i].place;
      assert wanted[..i + 1][..i] == wanted[..i];
      sharing := sharing[p := OrZero(sharing, p) + 1];
    }
    assert wanted[..|wanted|] == wanted;
  }

  /** `correlate`, with the places indexed and counted first. */
  method CorrelateAll(stored: seq<Entry>, wanted: seq<Want>) returns (found: seq<Option<Entry>>)
    ensures found == Correlate(stored, wanted)
  {
    var at := IndexPlaces(stored);
    var sharing := CountPlaces(wanted);
    hide At, Sharing, FirstUnused, OrNone, OrZero;
    found := [];
    var used: set<string> := {};
    for i := 0 to |wanted|
      invariant found == CorrelateFirst(stored, wanted, i) && used == Used(found)
    {
      var w := wanted[i];
      var pins := OrNone(at, w.place);
      var f :=
        if |pins| == 1 && OrZero(sharing, w.place) == 1 then Some(pins[0]) else FirstUnused(pins, w.exec, used);
      if f.Some? { used := used + {f.value.id}; }
      found := found + [f];
    }
  }

  // ---------------------------------------------------------------------- one pin

  predicate Eligible(o: Observed) { o.source.Some? && 1 <= o.workspace < 0x1_0000_0000 }

  function WantOf(o: Observed): Want
    requires Eligible(o)
  {
    Want(Place(o.windowClass, o.workspace), o.exec)
  }

  predicate TypedPin(stored: Option<Entry>) { stored.Some? && stored.value.execSource.OverridesTable? }

  /** `pin`: a continued pin keeps its id, and a typed command with its label; everything else is what
      the capture observes now. */
  function Pin(env: Env, stored: Option<Entry>, mint: string, o: Observed): L.Written<Entry>
    requires Eligible(o)
  {
    var id := if stored.Some? then stored.value.id else mint;
    var float := if o.floating.Some? then o.floating else if stored.Some? then stored.value.float else None;
    var name := if TypedPin(stored) && stored.value.labelText != [] then stored.value.labelText else o.labelText;
    var typed := TypedPin(stored);
    var exec := if typed then stored.value.exec else o.exec;
    var source := if typed then stored.value.execSource else o.source.value;
    var provenance := if typed then stored.value.provenance else o.provenance;
    var cwd := if typed then stored.value.cwd else o.cwd;
    match L.Binding(env.dir, env.sha, id, name, exec, cwd)
    case Rejected(x) => L.Rejected(x)
    case Wrote(l) =>
      L.Wrote(Entry(id, o.windowClass, o.workspace, float, name, exec, source, provenance, l, cwd, o.trusted))
  }

  /** The pin, if it can be built and is valid. */
  function Attempt(env: Env, stored: Option<Entry>, mint: string, o: Observed): (e: Option<Entry>)
    requires Eligible(o)
    ensures e.Some? ==> ValidEntry(e.value) && PlaceOf(e.value) == WantOf(o).place
    ensures e.Some? ==> e.value.id == if stored.Some? then stored.value.id else mint
  {
    hide L.Binding, EntryError;
    match Pin(env, stored, mint, o)
    case Wrote(e) => if EntryError(e).None? then Some(e) else None
    case Rejected(_) => None
  }

  // ------------------------------------------------------------------ the proposal

  /** The first window with its class, workspace and command; the others are its duplicates. */
  predicate Chosen(obs: seq<Observed>, i: nat)
    requires i < |obs|
  {
    Eligible(obs[i]) && forall j | 0 <= j < i && Eligible(obs[j]) :: WantOf(obs[j]) != WantOf(obs[i])
  }

  /** Of the windows with one class, workspace and command exactly one is chosen: none comes before it. */
  lemma {:induction false} ChosenExact(obs: seq<Observed>, i: nat)
    requires i < |obs| && Eligible(obs[i])
    ensures exists j :: 0 <= j <= i && Chosen(obs, j) && WantOf(obs[j]) == WantOf(obs[i])
    ensures forall j, k | 0 <= j < |obs| && 0 <= k < |obs| && Chosen(obs, j) && Chosen(obs, k) && j != k ::
              WantOf(obs[j]) != WantOf(obs[k])
    decreases i
  {
    if !Chosen(obs, i) {
      var j :| 0 <= j < i && Eligible(obs[j]) && WantOf(obs[j]) == WantOf(obs[i]);
      ChosenExact(obs, j);
    }
  }

  function ChosenFirst(obs: seq<Observed>, n: nat): (r: seq<nat>)
    requires n <= |obs|
    ensures forall i :: i in r <==> 0 <= i < n && Chosen(obs, i)
  {
    if n == 0 then [] else ChosenFirst(obs, n - 1) + if Chosen(obs, n - 1) then [n - 1] else []
  }

  function WantedOf(obs: seq<Observed>, at: seq<nat>): (w: seq<Want>)
    requires forall k | 0 <= k < |at| :: at[k] < |obs| && Eligible(obs[at[k]])
    ensures |w| == |at| && forall k | 0 <= k < |at| :: w[k] == WantOf(obs[at[k]])
  {
    seq(|at|, k requires 0 <= k < |at| => WantOf(obs[at[k]]))
  }

  function Wanted(obs: seq<Observed>): seq<Want> {
    var at := ChosenFirst(obs, |obs|);
    assert forall k | 0 <= k < |at| :: at[k] in at;
    WantedOf(obs, at)
  }

  /** How many windows are chosen before window `i`. */
  function Rank(obs: seq<Observed>, i: nat): nat
    requires i <= |obs|
  {
    |ChosenFirst(obs, i)|
  }

  lemma {:induction false} RankIs(obs: seq<Observed>, i: nat, n: nat)
    requires i < n <= |obs| && Chosen(obs, i)
    ensures Rank(obs, i) < |ChosenFirst(obs, n)| && ChosenFirst(obs, n)[Rank(obs, i)] == i
  {
    hide Chosen;
    if i < n - 1 { RankIs(obs, i, n - 1); }
  }

  /** The stored pin window `i` continues. */
  function Continued(stored: seq<Entry>, obs: seq<Observed>, i: nat): Option<Entry>
    requires i < |obs| && Chosen(obs, i)
  {
    RankIs(obs, i, |obs|);
    Correlate(stored, Wanted(obs))[Rank(obs, i)]
  }

  /** The pins proposed after the first `n` windows. */
  function Entries(env: Env, stored: seq<Entry>, obs: seq<Observed>, mints: seq<string>, n: nat): seq<Entry>
    requires n <= |obs| == |mints|
  {
    hide WithEntry, Attempt, Continued, Eligible, WantOf, Chosen;
    if n == 0 then []
    else
      ChosenIsEligible(obs, n - 1);
      var es := Entries(env, stored, obs, mints, n - 1);
      if Chosen(obs, n - 1) && |es| < MAX_ENTRIES then
        match Attempt(env, Continued(stored, obs, n - 1), mints[n - 1], obs[n - 1])
        case Some(e) => WithEntry(es, e)
        case None => es
      else es
  }

  datatype Built = Built(proposal: Proposal) | WouldNotValidate(e: ValidationError)

  /** `build`. `mints[i]` is the id window `i` draws if it needs a new one. */
  function Build(env: Env, base: Base, obs: seq<Observed>, mints: seq<string>): Built
    requires |obs| == |mints|
  {
    var p := Proposal(base.preLaunchMs, base.postLaunchMs, Entries(env, base.entries, obs, mints, |obs|));
    var bad := ConfigError(Document(0, [], 0, p));
    if bad.Some? then WouldNotValidate(bad.value) else Built(p)
  }

  /** The windows a pin is proposed for, in compositor order. */
  method Choose(obs: seq<Observed>) returns (order: seq<nat>)
    ensures order == ChosenFirst(obs, |obs|)
  {
    order := [];
    var seen: set<Want> := {};
    for i := 0 to |obs|
      invariant order == ChosenFirst(obs, i)
      invariant forall w :: w in seen <==> exists j :: 0 <= j < i && Eligible(obs[j]) && WantOf(obs[j]) == w
    {
      if Eligible(obs[i]) {
        if WantOf(obs[i]) !in seen { order := order + [i]; }
        seen := seen + {WantOf(obs[i])};
      }
    }
  }

  /** `build`'s loop over the windows. */
  method BuildAll(env: Env, base: Base, obs: seq<Observed>, mints: seq<string>) returns (r: Built)
    requires |obs| == |mints|
    ensures r == Build(env, base, obs, mints)
  {
    hide Correlate, WithEntry, ConfigError, Document, Pin, Attempt, Chosen, Wanted, Eligible, ChosenFirst, Entries,
         Rank;
    var order := Choose(obs);
    var found := CorrelateAll(base.entries, Wanted(obs));
    var entries: seq<Entry> := [];
    var k := 0;
    NoneYet(env, base.entries, obs, mints);
    for i := 0 to |obs|
      invariant entries == Entries(env, base.entries, obs, mints, i) && k == Rank(obs, i)
    {
      OneMore(env, base.entries, obs, mints, i);
      if i in order {
        FoundAt(base.entries, obs, i);
        if |entries| < MAX_ENTRIES {
          var e := Attempt(env, found[k], mints[i], obs[i]);
          if e.Some? { entries := WithEntry(entries, e.value); }
        }
        k := k + 1;
      }
    }
    var p := Proposal(base.preLaunchMs, base.postLaunchMs, entries);
    var bad := Validate(Document(0, [], 0, p));
    return if bad.Some? then WouldNotValidate(bad.value) else Built(p);
  }

  lemma NoneYet(env: Env, stored: seq<Entry>, obs: seq<Observed>, mints: seq<string>)
    requires |obs| == |mints|
    ensures Entries(env, stored, obs, mints, 0) == [] && Rank(obs, 0) == 0
  {
  }

  lemma OneMore(env: Env, stored: seq<Entry>, obs: seq<Observed>, mints: seq<string>, i: nat)
    requires i < |obs| == |mints|
    ensures Chosen(obs, i) ==> Eligible(obs[i])
    ensures Rank(obs, i + 1) == Rank(obs, i) + if Chosen(obs, i) then 1 else 0
    ensures var es := Entries(env, stored, obs, mints, i);
            Entries(env, stored, obs, mints, i + 1) ==
              if Chosen(obs, i) && |es| < MAX_ENTRIES then
                match Attempt(env, Continued(stored, obs, i), mints[i], obs[i]) case Some(e) => WithEntry(es, e)
                    case None => es
              else es
  {
    hide Attempt, Continued, WithEntry, Eligible, WantOf;
    ChosenIsEligible(obs, i);
  }

  lemma FoundAt(stored: seq<Entry>, obs: seq<Observed>, i: nat)
    requires i < |obs| && Chosen(obs, i)
    ensures Rank(obs, i) < |Wanted(obs)| && Continued(stored, obs, i) == Correlate(stored, Wanted(obs))[Rank(obs, i)]
  {
    hide Correlate, Chosen;
    RankIs(obs, i, |obs|);
  }

  lemma ChosenIsEligible(obs: seq<Observed>, i: nat)
    requires i < |obs|
    ensures Chosen(obs, i) ==> Eligible(obs[i])
  {
  }

  // ---------------------------------------------------------- merging and dropping

  function MergeFirst(base: seq<Entry>, captured: seq<Entry>, n: nat): seq<Entry>
    requires n <= |captured|
  {
    if n == 0 then base else WithEntry(MergeFirst(base, captured, n - 1), captured[n - 1])
  }

  /** `merge`: each captured pin in its id's place, every other pin of the base as it is. */
  function Merge(base: Base, captured: Proposal): Proposal {
    captured.(entries := MergeFirst(base.entries, captured.entries, |captured.entries|))
  }

  method MergeAll(base: Base, captured: Proposal) returns (p: Proposal)
    ensures p == Merge(base, captured)
  {
    var byId := base.entries;
    for i := 0 to |captured.entries|
      invariant byId == MergeFirst(base.entries, captured.entries, i)
    {
      byId := WithEntry(byId, captured.entries[i]);
    }
    return captured.(entries := byId);
  }

  function Gone(base: seq<Entry>, kept: set<string>): seq<Entry> {
    if base == [] then [] else (if base[0].id in kept then [] else [base[0]]) + Gone(base[1..], kept)
  }

  /** `dropping`: the pins of the base the proposal would remove. */
  function Dropping(base: seq<Entry>, p: Proposal): seq<Entry> {
    Gone(base, set e | e in p.entries :: e.id)
  }

  lemma {:induction false} GoneExact(base: seq<Entry>, kept: set<string>)
    ensures forall e :: e in Gone(base, kept) <==> e in base && e.id !in kept
  {
    if base != [] {
      assert base == [base[0]] + base[1..];
      GoneExact(base[1..], kept);
    }
  }

  lemma OtherIds(captured: seq<Entry>, n: nat)
    requires Ascending(captured) && n < |captured|
    ensures forall x | x in captured[..n] :: x.id != captured[n].id
  {
    forall i | 0 <= i < n ensures captured[i].id != captured[n].id { LessTotal(captured[i].id, captured[n].id); }
  }

  lemma {:induction false} MergeFirstExact(base: seq<Entry>, captured: seq<Entry>, n: nat)
    requires Ascending(base) && Ascending(captured) && n <= |captured|
    ensures Ascending(MergeFirst(base, captured, n))
    ensures forall x :: x in MergeFirst(base, captured, n) <==>
              x in captured[..n] || (x in base && forall c | c in captured[..n] :: c.id != x.id)
  {
    hide Ascending, WithEntry;
    if n > 0 {
      MergeFirstExact(base, captured, n - 1);
      WithEntryExact(MergeFirst(base, captured, n - 1), captured[n - 1]);
      assert captured[..n] == captured[..n - 1] + [captured[n - 1]];
      OtherIds(captured, n - 1);
    }
  }

  /** Adding the open windows drops no pin: each is captured anew or kept exactly as it was. */
  lemma MergeDropsNothing(base: Base, captured: Proposal)
    requires Ascending(base.entries) && Ascending(captured.entries)
    ensures var p := Merge(base, captured);
            && p.preLaunchMs == captured.preLaunchMs && p.postLaunchMs == captured.postLaunchMs
            && Ascending(p.entries) && Dropping(base.entries, p) == []
            && (forall e | e in captured.entries :: e in p.entries)
            && (forall e | e in base.entries && (forall c | c in captured.entries :: c.id != e.id) :: e in p.entries)
            && (forall e | e in p.entries :: e in captured.entries || e in base.entries)
  {
    hide Ascending;
    var n := |captured.entries|;
    MergeFirstExact(base.entries, captured.entries, n);
    assert captured.entries[..n] == captured.entries;
    var p := Merge(base, captured);
    var kept := set e | e in p.entries :: e.id;
    GoneExact(base.entries, kept);
    forall e | e in base.entries ensures e.id in kept {
      if c :| c in captured.entries && c.id == e.id { assert c in p.entries; } else { assert e in p.entries; }
    }
    if Dropping(base.entries, p) != [] { HasFirst(Dropping(base.entries, p)); }
  }
}
