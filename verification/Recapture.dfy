/** Capturing an unchanged set of windows again, on the pins the first capture proposed. */
module Recapture {
  import opened Text
  import opened Model
  import opened Propose
  import L = Launcher
  import D = Desktop

  // ---------------------------------------------------------- what correlation finds

  lemma {:induction false} AtExact(stored: seq<Entry>, p: Place)
    ensures forall e :: e in At(stored, p) <==> e in stored && PlaceOf(e) == p
  {
    if stored != [] {
      assert stored == stored[..|stored| - 1] + [stored[|stored| - 1]];
      AtExact(stored[..|stored| - 1], p);
    }
  }

  lemma {:induction false} FirstUnusedExact(pins: seq<Entry>, exec: string, used: set<string>)
    ensures var f := FirstUnused(pins, exec, used);
            && (f.Some? ==> f.value in pins && f.value.exec == exec && f.value.id !in used)
            && (f.None? ==> forall e | e in pins :: e.exec != exec || e.id in used)
  {
    if pins != [] {
      assert pins == [pins[0]] + pins[1..];
      FirstUnusedExact(pins[1..], exec, used);
    }
  }

  lemma {:induction false} SharingCounts(wanted: seq<Want>, p: Place, j: nat, k: nat)
    requires j < k < |wanted| && wanted[j].place == p && wanted[k].place == p
    ensures Sharing(wanted, p) >= 2
  {
    var init := wanted[..|wanted| - 1];
    if k < |wanted| - 1 {
      assert init[j].place == p && init[k].place == p;
      SharingCounts(init, p, j, k);
    } else {
      SharingHas(init, p, j);
    }
  }

  lemma {:induction false} SharingHas(wanted: seq<Want>, p: Place, j: nat)
    requires j < |wanted| && wanted[j].place == p
    ensures Sharing(wanted, p) >= 1
  {
    var init := wanted[..|wanted| - 1];
    if j < |wanted| - 1 {
      assert init[j].place == p;
      SharingHas(init, p, j);
    }
  }

  lemma {:induction false} CorrelatePrefix(stored: seq<Entry>, wanted: seq<Want>, k: nat, n: nat)
    requires k < n <= |wanted|
    ensures CorrelateFirst(stored, wanted, n)[k]
            == Match(stored, wanted, wanted[k], Used(CorrelateFirst(stored, wanted, k)))
    ensures CorrelateFirst(stored, wanted, n)[..k] == CorrelateFirst(stored, wanted, k)
  {
    hide Match;
    if k < n - 1 { CorrelatePrefix(stored, wanted, k, n - 1); }
  }

  /** What window `k` continues: a pin at its place, with its exact command unless it has that place to itself. */
  lemma MatchExact(stored: seq<Entry>, wanted: seq<Want>, k: nat)
    requires k < |wanted|
    ensures var f := Correlate(stored, wanted)[k];
            f.Some? ==>
              && f.value in stored && PlaceOf(f.value) == wanted[k].place
              && (Sharing(wanted, wanted[k].place) == 1
                  || (f.value.exec == wanted[k].exec && f.value.id !in Used(Correlate(stored, wanted)[..k])))
  {
    CorrelatePrefix(stored, wanted, k, |wanted|);
    AtExact(stored, wanted[k].place);
    FirstUnusedExact(At(stored, wanted[k].place), wanted[k].exec, Used(CorrelateFirst(stored, wanted, k)));
    hide At, FirstUnused, Sharing, Used, CorrelateFirst;
  }

  predicate UniqueIds(es: seq<Entry>) { forall e, f | e in es && f in es && e.id == f.id :: e == f }

  lemma AscendingIds(es: seq<Entry>)
    requires Ascending(es)
    ensures UniqueIds(es)
  {
    forall e, f | e in es && f in es && e.id == f.id ensures e == f {
      var i :| 0 <= i < |es| && es[i] == e;
      var j :| 0 <= j < |es| && es[j] == f;
      LessTotal(e.id, f.id);
    }
  }

  /** No stored pin is continued by two windows. */
  lemma ContinuedOnce(stored: seq<Entry>, wanted: seq<Want>, j: nat, k: nat)
    requires UniqueIds(stored) && j < k < |wanted|
    ensures var found := Correlate(stored, wanted);
            found[j].Some? && found[k].Some? ==> found[j].value.id != found[k].value.id
  {
    var found := Correlate(stored, wanted);
    MatchExact(stored, wanted, j);
    MatchExact(stored, wanted, k);
    hide Sharing, Correlate;
    if found[j].Some? && found[k].Some? {
      assert found[..k][j] == found[j] && found[j] in found[..k];
      if PlaceOf(found[j].value) == PlaceOf(found[k].value) { SharingCounts(wanted, wanted[k].place, j, k); }
    }
  }

  lemma {:induction false} AtSize(stored: seq<Entry>, p: Place)
    ensures |At(stored, p)| == 0 <==> forall i | 0 <= i < |stored| :: PlaceOf(stored[i]) != p
    ensures |At(stored, p)| <= 1 <==>
              forall i, j | 0 <= i < j < |stored| :: PlaceOf(stored[i]) != p || PlaceOf(stored[j]) != p
  {
    hide PlaceOf;
    if stored != [] {
      var init := stored[..|stored| - 1];
      AtSize(init, p);
      assert forall i | 0 <= i < |init| :: init[i] == stored[i];
    }
  }

  lemma {:induction false} SharingSize(wanted: seq<Want>, p: Place)
    ensures Sharing(wanted, p) == 0 <==> forall i | 0 <= i < |wanted| :: wanted[i].place != p
    ensures Sharing(wanted, p) <= 1 <==>
              forall i, j | 0 <= i < j < |wanted| :: wanted[i].place != p || wanted[j].place != p
  {
    if wanted != [] {
      var init := wanted[..|wanted| - 1];
      SharingSize(init, p);
      assert forall i | 0 <= i < |init| :: init[i] == wanted[i];
    }
  }

  lemma {:induction false} FirstUnusedConcat(a: seq<Entry>, b: seq<Entry>, exec: string, used: set<string>)
    ensures FirstUnused(a + b, exec, used)
            == if FirstUnused(a, exec, used).Some? then FirstUnused(a, exec, used) else FirstUnused(b, exec, used)
  {
    if a == [] {
      assert a + b == b;
    } else {
      assert (a + b)[1..] == a[1..] + b;
      FirstUnusedConcat(a[1..], b, exec, used);
    }
  }

  /** Stored pin `i` is at that place, runs that command, and is not taken. */
  predicate Fits(stored: seq<Entry>, i: nat, w: Want, used: set<string>)
    requires i < |stored|
  {
    PlaceOf(stored[i]) == w.place && stored[i].exec == w.exec && stored[i].id !in used
  }

  /** The first such pin, in stored order. */
  lemma {:induction false} FirstFits(stored: seq<Entry>, w: Want, used: set<string>)
    ensures match FirstUnused(At(stored, w.place), w.exec, used)
            case Some(e) => exists i | 0 <= i < |stored| ::
              stored[i] == e && Fits(stored, i, w, used) && forall j | 0 <= j < i :: !Fits(stored, j, w, used)
            case None => forall i | 0 <= i < |stored| :: !Fits(stored, i, w, used)
  {
    hide PlaceOf;
    if stored != [] {
      var (init, last) := (stored[..|stored| - 1], stored[|stored| - 1]);
      FirstFits(init, w, used);
      FirstUnusedConcat(At(init, w.place), [last], w.exec, used);
      assert FirstUnused([last], w.exec, used)
          == if last.exec == w.exec && last.id !in used then Some(last) else None by { assert [last][1..] == []; }
      forall i | 0 <= i < |init| ensures Fits(init, i, w, used) <==> Fits(stored, i, w, used) { }
      hide At, FirstUnused;
      var f := FirstUnused(At(init, w.place), w.exec, used);
      if f.Some? {
        var i :| 0 <= i < |init| && init[i] == f.value && Fits(init, i, w, used)
                 && forall j | 0 <= j < i :: !Fits(init, j, w, used);
        assert stored[i] == f.value && Fits(stored, i, w, used);
      } else if Fits(stored, |init|, w, used) {
        assert stored[|init|] == last;
      }
    }
  }

  /** One stored pin and one window, and no others, are at that place. */
  predicate Alone(stored: seq<Entry>, wanted: seq<Want>, k: nat, i: nat)
    requires k < |wanted| && i < |stored|
  {
    && PlaceOf(stored[i]) == wanted[k].place
    && (forall j | 0 <= j < |stored| && j != i :: PlaceOf(stored[j]) != wanted[k].place)
    && (forall j | 0 <= j < |wanted| && j != k :: wanted[j].place != wanted[k].place)
  }

  /** A stored pin that a window before `k` continues. */
  predicate Taken(found: seq<Option<Entry>>, k: nat, e: Entry)
    requires k <= |found|
  {
    exists j :: 0 <= j < k && found[j] == Some(e)
  }

  /** The pin window `k` may continue when it is not alone: at its place, of its command, and not taken. */
  predicate Open(stored: seq<Entry>, wanted: seq<Want>, found: seq<Option<Entry>>, k: nat, i: nat)
    requires k < |wanted| == |found| && i < |stored|
  {
    PlaceOf(stored[i]) == wanted[k].place && stored[i].exec == wanted[k].exec && !Taken(found, k, stored[i])
  }

  /** Which stored pin a window continues: the one at its place, if both are alone there; otherwise the first in
      stored order at its place with exactly its command that no window before it continues, and none exactly if
      there is no such pin. */
  lemma CorrelateExact(stored: seq<Entry>, wanted: seq<Want>, k: nat)
    requires UniqueIds(stored) && k < |wanted|
    ensures var found := Correlate(stored, wanted);
            if exists i :: 0 <= i < |stored| && Alone(stored, wanted, k, i) then
              exists i :: 0 <= i < |stored| && Alone(stored, wanted, k, i) && found[k] == Some(stored[i])
            else match found[k]
              case Some(e) => exists i | 0 <= i < |stored| ::
                stored[i] == e && Open(stored, wanted, found, k, i)
                && forall j | 0 <= j < i :: !Open(stored, wanted, found, k, j)
              case None => forall i | 0 <= i < |stored| :: !Open(stored, wanted, found, k, i)
  {
    var (found, w) := (Correlate(stored, wanted), wanted[k]);
    var used := Used(CorrelateFirst(stored, wanted, k));
    CorrelatePrefix(stored, wanted, k, |wanted|);
    AloneIs(stored, wanted, k);
    hide CorrelateFirst, Correlate, At, Sharing, FirstUnused, Alone;
    if !(|At(stored, w.place)| == 1 && Sharing(wanted, w.place) == 1) {
      FirstFits(stored, w, used);
      forall i | 0 <= i < |stored| ensures Fits(stored, i, w, used) <==> Open(stored, wanted, found, k, i) {
        UsedIs(stored, wanted, k, stored[i]);
      }
      hide Fits, Open;
    }
  }

  lemma AloneIs(stored: seq<Entry>, wanted: seq<Want>, k: nat)
    requires k < |wanted|
    ensures var p := wanted[k].place;
            if |At(stored, p)| == 1 && Sharing(wanted, p) == 1 then
              exists i :: 0 <= i < |stored| && Alone(stored, wanted, k, i) && At(stored, p)[0] == stored[i]
            else forall i | 0 <= i < |stored| :: !Alone(stored, wanted, k, i)
  {
    var p := wanted[k].place;
    AtSize(stored, p);
    SharingSize(wanted, p);
    AtExact(stored, p);
    hide At, Sharing, PlaceOf;
    if |At(stored, p)| == 1 && Sharing(wanted, p) == 1 {
      assert At(stored, p)[0] in At(stored, p);
      var i :| 0 <= i < |stored| && stored[i] == At(stored, p)[0];
      OthersApart(stored, wanted, k, i);
    } else {
      forall i | 0 <= i < |stored| ensures !Alone(stored, wanted, k, i) {
        if Alone(stored, wanted, k, i) { AloneSizes(stored, wanted, k, i); }
      }
    }
  }

  lemma OthersApart(stored: seq<Entry>, wanted: seq<Want>, k: nat, i: nat)
    requires k < |wanted| && i < |stored| && PlaceOf(stored[i]) == wanted[k].place
    requires forall a, b | 0 <= a < b < |stored| ::
               PlaceOf(stored[a]) != wanted[k].place || PlaceOf(stored[b]) != wanted[k].place
    requires forall a, b | 0 <= a < b < |wanted| ::
               wanted[a].place != wanted[k].place || wanted[b].place != wanted[k].place
    ensures Alone(stored, wanted, k, i)
  {
    hide PlaceOf;
    forall j | 0 <= j < |stored| && j != i ensures PlaceOf(stored[j]) != wanted[k].place {
      var (a, b) := if j < i then (j, i) else (i, j);
      assert PlaceOf(stored[a]) != wanted[k].place || PlaceOf(stored[b]) != wanted[k].place;
    }
    forall j | 0 <= j < |wanted| && j != k ensures wanted[j].place != wanted[k].place {
      var (a, b) := if j < k then (j, k) else (k, j);
      assert wanted[a].place != wanted[k].place || wanted[b].place != wanted[k].place;
    }
  }

  lemma AloneSizes(stored: seq<Entry>, wanted: seq<Want>, k: nat, i: nat)
    requires k < |wanted| && i < |stored| && Alone(stored, wanted, k, i)
    ensures |At(stored, wanted[k].place)| == 1 && Sharing(wanted, wanted[k].place) == 1
  {
    AtSize(stored, wanted[k].place);
    SharingSize(wanted, wanted[k].place);
    hide At, Sharing, PlaceOf;
  }

  lemma UsedIs(stored: seq<Entry>, wanted: seq<Want>, k: nat, e: Entry)
    requires UniqueIds(stored) && k < |wanted| && e in stored
    ensures e.id in Used(CorrelateFirst(stored, wanted, k)) <==> Taken(Correlate(stored, wanted), k, e)
  {
    var (prev, found) := (CorrelateFirst(stored, wanted, k), Correlate(stored, wanted));
    CorrelatePrefix(stored, wanted, k, |wanted|);
    assert found[..k] == prev;
    if e.id in Used(prev) {
      var f :| f in prev && f.Some? && f.value.id == e.id;
      var j :| 0 <= j < k && prev[j] == f;
      MatchExact(stored, wanted, j);
      assert found[j] == f;
    }
    if Taken(found, k, e) {
      var j :| 0 <= j < k && found[j] == Some(e);
      assert prev[j] == Some(e) && Some(e) in prev;
    }
  }

  // ------------------------------------------------------------- what is proposed

  /** The ids newly drawn are launcher ids, all different, and none is a stored pin's. */
  predicate Minted(stored: seq<Entry>, mints: seq<string>) {
    && (forall m | m in mints :: IsLauncherId(m))
    && (forall i, j | 0 <= i < j < |mints| :: mints[i] != mints[j])
    && (forall e | e in stored :: e.id !in mints)
  }

  function Tried(env: Env, stored: seq<Entry>, obs: seq<Observed>, mints: seq<string>, i: nat): Option<Entry>
    requires i < |obs| == |mints| && Chosen(obs, i)
  {
    Attempt(env, Continued(stored, obs, i), mints[i], obs[i])
  }

  predicate Proposed(env: Env, stored: seq<Entry>, obs: seq<Observed>, mints: seq<string>, i: nat)
    requires i < |obs| == |mints|
  {
    Chosen(obs, i) && |Entries(env, stored, obs, mints, i)| < MAX_ENTRIES && Tried(env, stored, obs, mints, i).Some?
  }

  lemma TriedIds(env: Env, stored: seq<Entry>, obs: seq<Observed>, mints: seq<string>, i: nat, j: nat)
    requires UniqueIds(stored) && Minted(stored, mints) && i < j < |obs| == |mints| && Chosen(obs, i) && Chosen(obs, j)
    ensures var (a, b) := (Tried(env, stored, obs, mints, i), Tried(env, stored, obs, mints, j));
            a.Some? && b.Some? ==> a.value.id != b.value.id
  {
    hide Attempt, Chosen, Correlate, Wanted, IsLauncherId, UniqueIds;
    FoundAt(stored, obs, i);
    FoundAt(stored, obs, j);
    RankIs(obs, i, j);
    ContinuedOnce(stored, Wanted(obs), Rank(obs, i), Rank(obs, j)) by { RankBefore(obs, i, j); }
    RankBefore(obs, i, j);
    MatchExact(stored, Wanted(obs), Rank(obs, i));
    MatchExact(stored, Wanted(obs), Rank(obs, j));
    TriedId(env, stored, obs, mints, i);
    TriedId(env, stored, obs, mints, j);
  }

  lemma RankBefore(obs: seq<Observed>, i: nat, j: nat)
    requires i < j <= |obs| && Chosen(obs, i)
    ensures Rank(obs, i) < Rank(obs, j)
  {
    hide Chosen;
    RankIs(obs, i, j);
  }

  lemma TriedId(env: Env, stored: seq<Entry>, obs: seq<Observed>, mints: seq<string>, i: nat)
    requires i < |obs| == |mints| && Chosen(obs, i)
    ensures var (c, e) := (Continued(stored, obs, i), Tried(env, stored, obs, mints, i));
            e.Some? ==> e.value.id == (if c.Some? then c.value.id else mints[i]) && ValidEntry(e.value)
    ensures mints[i] in mints
  {
    hide EntryError, Continued, Pin;
  }

  /** A pin's own launcher: named by its id, and hashed over the bytes it will hold. */
  predicate Bound(env: Env, e: Entry) {
    var text := L.LauncherText(e);
    text.Wrote? && e.launcher == Launcher(env.dir + LAUNCHERS_DIR_SUFFIX + e.id + ".desktop", env.sha(Utf8(text.value)))
  }

  /** A pin as window `o` gives it: where the window is, trusted or not, floating as seen or else as last
      known. */
  predicate PlacedAs(stored: Option<Entry>, o: Observed, e: Entry) {
    && e.windowClass == o.windowClass && e.workspace == o.workspace && e.enabled == o.trusted
    && (o.floating.Some? ==> e.float == o.floating)
    && (o.floating.None? && stored.Some? ==> e.float == stored.value.float)
    && (o.floating.None? && stored.None? ==> e.float.None?)
  }

  /** A command the user typed is never replaced by what was captured, nor the label describing it. */
  predicate KeepsTyped(stored: Entry, o: Observed, e: Entry) {
    && e.exec == stored.exec && e.cwd == stored.cwd && e.execSource == stored.execSource
      && e.provenance == stored.provenance
    && e.labelText == if stored.labelText != [] then stored.labelText else o.labelText
  }

  predicate AsCaptured(o: Observed, e: Entry) {
    && e.exec == o.exec && e.cwd == o.cwd && o.source == Some(e.execSource) && e.provenance == o.provenance
    && e.labelText == o.labelText
  }

  predicate Reflects(env: Env, stored: Option<Entry>, mint: string, o: Observed, e: Entry) {
    && Bound(env, e) && PlacedAs(stored, o, e)
    && (stored.Some? ==> e.id == stored.value.id) && (stored.None? ==> e.id == mint)
    && if stored.Some? && stored.value.execSource.OverridesTable? then KeepsTyped(stored.value, o, e)
      else AsCaptured(o, e)
  }

  lemma TriedReflects(env: Env, stored: seq<Entry>, obs: seq<Observed>, mints: seq<string>, i: nat)
    requires i < |obs| == |mints| && Chosen(obs, i) && Tried(env, stored, obs, mints, i).Some?
    ensures Reflects(env, Continued(stored, obs, i), mints[i], obs[i], Tried(env, stored, obs, mints, i).value)
  {
    hide EntryError, L.DesktopContents, Continued;
  }

  /** Every pin proposed is the pin of one of the windows: what it continues, what it keeps of it, and what
      it takes from the capture. */
  lemma ProposedReflects(env: Env, base: Base, obs: seq<Observed>, mints: seq<string>, e: Entry) returns (i: nat)
    requires ValidBase(base) && |obs| == |mints| && Minted(base.entries, mints)
    requires Build(env, base, obs, mints).Built? && e in Build(env, base, obs, mints).proposal.entries
    ensures i < |obs| && Chosen(obs, i) && Reflects(env, Continued(base.entries, obs, i), mints[i], obs[i], e)
  {
    hide Entries, ValidEntry, Minted, Ascending, Chosen, Tried, Reflects, Continued, ConfigError, SortEntries;
    AscendingIds(base.entries);
    EntriesExact(env, base.entries, obs, mints, |obs|);
    i :| 0 <= i < |obs| && Proposed(env, base.entries, obs, mints, i)
        && Tried(env, base.entries, obs, mints, i) == Some(e);
    TriedReflects(env, base.entries, obs, mints, i);
  }

  /** The proposal holds exactly the pins built for the windows within the limit, in class order. */
  lemma {:induction false} EntriesExact(env: Env, stored: seq<Entry>, obs: seq<Observed>, mints: seq<string>, n: nat)
    requires UniqueIds(stored) && n <= |obs| == |mints| && Minted(stored, mints)
    ensures var es := Entries(env, stored, obs, mints, n);
            && Ascending(es) && |es| <= MAX_ENTRIES && (forall x | x in es :: ValidEntry(x))
            && (forall x :: x in es <==> exists i :: 0 <= i < n && Proposed(env, stored, obs, mints, i)
                                                     && Tried(env, stored, obs, mints, i) == Some(x))
  {
    hide UniqueIds, Minted, Ascending, ValidEntry, Tried, Chosen, Entries, WithEntry;
    if n == 0 {
      NoneYet(env, stored, obs, mints);
      assert Ascending([]) by { NothingAscends(); }
    } else {
      EntriesExact(env, stored, obs, mints, n - 1);
      EntriesGrow(env, stored, obs, mints, n - 1);
    }
  }

  lemma NothingAscends()
    ensures Ascending([])
  {
  }

  lemma EntriesGrow(env: Env, stored: seq<Entry>, obs: seq<Observed>, mints: seq<string>, m: nat)
    requires UniqueIds(stored) && m < |obs| == |mints| && Minted(stored, mints)
    requires Ascending(Entries(env, stored, obs, mints, m)) && |Entries(env, stored, obs, mints, m)| <= MAX_ENTRIES
    requires forall x :: x in Entries(env, stored, obs, mints, m) <==>
               exists i :: 0 <= i < m && Proposed(env, stored, obs, mints, i)
                   && Tried(env, stored, obs, mints, i) == Some(x)
    ensures var (es, es') := (Entries(env, stored, obs, mints, m), Entries(env, stored, obs, mints, m + 1));
            && Ascending(es') && |es'| == |es| + (if Proposed(env, stored, obs, mints, m) then 1 else 0) <= MAX_ENTRIES
            && (forall x :: x in es' <==> x in es || (Proposed(env, stored, obs, mints, m)
                                                      && Tried(env, stored, obs, mints, m) == Some(x)))
    ensures Proposed(env, stored, obs, mints, m) ==> ValidEntry(Tried(env, stored, obs, mints, m).value)
  {
    hide UniqueIds, Minted, Ascending, EntryError, Chosen, Entries, WithEntry, Attempt, Continued;
    OneMore(env, stored, obs, mints, m);
    var es := Entries(env, stored, obs, mints, m);
    if Proposed(env, stored, obs, mints, m) {
      var e := Tried(env, stored, obs, mints, m).value;
      TriedId(env, stored, obs, mints, m);
      forall x | x in es ensures x.id != e.id {
        var i :| 0 <= i < m && Proposed(env, stored, obs, mints, i) && Tried(env, stored, obs, mints, i) == Some(x);
        TriedIds(env, stored, obs, mints, i, m);
      }
      WithEntryExact(es, e);
    }
  }

  // ------------------------------------------------- correlating with what was proposed

  lemma {:induction false} ChosenAt(obs: seq<Observed>, n: nat, k: nat) returns (i: nat)
    requires n <= |obs| && k < |ChosenFirst(obs, n)|
    ensures i < n && ChosenFirst(obs, n)[k] == i && Chosen(obs, i) && Rank(obs, i) == k
    decreases n
  {
    hide Chosen;
    if k < |ChosenFirst(obs, n - 1)| { i := ChosenAt(obs, n - 1, k); } else { i := n - 1; }
  }

  lemma WantedAt(obs: seq<Observed>, i: nat)
    requires i < |obs| && Chosen(obs, i)
    ensures Eligible(obs[i]) && Rank(obs, i) < |Wanted(obs)| && Wanted(obs)[Rank(obs, i)] == WantOf(obs[i])
  {
    RankIs(obs, i, |obs|);
    hide Rank;
  }

  /** Two windows proposed for share a place only if that place is shared. */
  lemma PlaceShared(obs: seq<Observed>, i: nat, j: nat)
    requires i != j && i < |obs| && j < |obs| && Chosen(obs, i) && Chosen(obs, j)
    ensures Eligible(obs[i]) && Eligible(obs[j]) && WantOf(obs[i]) != WantOf(obs[j])
    ensures WantOf(obs[i]).place == WantOf(obs[j]).place ==> Sharing(Wanted(obs), WantOf(obs[i]).place) >= 2
  {
    WantedAt(obs, i);
    WantedAt(obs, j);
    var (a, b) := if i < j then (i, j) else (j, i);
    RankBefore(obs, a, b);
    hide Rank, Sharing, Wanted;
    if WantOf(obs[i]).place == WantOf(obs[j]).place {
      SharingCounts(Wanted(obs), WantOf(obs[i]).place, Rank(obs, a), Rank(obs, b));
    }
  }

  /** In a shared place a pin's command is its window's. */
  lemma CommandKept(env: Env, stored: seq<Entry>, obs: seq<Observed>, mints: seq<string>, i: nat)
    requires i < |obs| == |mints| && Chosen(obs, i) && Eligible(obs[i]) && Tried(env, stored, obs, mints, i).Some?
    requires Sharing(Wanted(obs), WantOf(obs[i]).place) >= 2
    ensures Tried(env, stored, obs, mints, i).value.exec == obs[i].exec
  {
    WantedAt(obs, i);
    FoundAt(stored, obs, i);
    MatchExact(stored, Wanted(obs), Rank(obs, i));
    hide Sharing, Wanted, Rank, Continued, Chosen, L.Binding, EntryError, Correlate;
  }

  lemma {:induction false} AtSingle(es: seq<Entry>, p: Place, e: Entry)
    requires Ascending(es) && forall x | x in At(es, p) :: x == e
    ensures |At(es, p)| <= 1
  {
    if es != [] {
      var (init, last) := (es[..|es| - 1], es[|es| - 1]);
      assert forall x | x in At(init, p) :: x in At(es, p);
      AtSingle(init, p, e);
      AtExact(init, p);
      if PlaceOf(last) == p && At(init, p) != [] {
        assert At(init, p)[0] in init && last in At(es, p);
        var j :| 0 <= j < |init| && init[j] == At(init, p)[0];
        LessTotal(init[j].id, last.id);
        assert false;
      }
    }
  }

  /** A proposed pin that a window may be matched with is that window's own. */
  lemma OwnPin(env: Env, stored: seq<Entry>, obs: seq<Observed>, mints: seq<string>, i: nat, f: Entry)
    requires UniqueIds(stored) && i < |obs| == |mints| && Minted(stored, mints) && Chosen(obs, i) && Eligible(obs[i])
    requires f in Entries(env, stored, obs, mints, |obs|) && PlaceOf(f) == WantOf(obs[i]).place
    requires Sharing(Wanted(obs), WantOf(obs[i]).place) == 1 || f.exec == obs[i].exec
    ensures Proposed(env, stored, obs, mints, i) && Tried(env, stored, obs, mints, i) == Some(f)
  {
    hide UniqueIds, Minted, Chosen, Entries, Attempt, Continued, Sharing, Wanted, ValidEntry;
    EntriesExact(env, stored, obs, mints, |obs|);
    var j :| 0 <= j < |obs| && Proposed(env, stored, obs, mints, j) && Tried(env, stored, obs, mints, j) == Some(f);
    TriedPlace(env, stored, obs, mints, j);
    if j != i {
      PlaceShared(obs, i, j);
      CommandKept(env, stored, obs, mints, j);
    }
  }

  lemma TriedPlace(env: Env, stored: seq<Entry>, obs: seq<Observed>, mints: seq<string>, i: nat)
    requires i < |obs| == |mints| && Chosen(obs, i)
    ensures Eligible(obs[i])
    ensures var e := Tried(env, stored, obs, mints, i); e.Some? ==> PlaceOf(e.value) == WantOf(obs[i]).place
  {
    hide ValidEntry, Continued, Pin;
  }

  function Again(env: Env, stored: seq<Entry>, obs: seq<Observed>, mints: seq<string>, i: nat): Option<Entry>
    requires i < |obs| == |mints|
  {
    if Proposed(env, stored, obs, mints, i) then Tried(env, stored, obs, mints, i) else None
  }

  lemma PinsAt(env: Env, stored: seq<Entry>, obs: seq<Observed>, mints: seq<string>, i: nat)
    requires UniqueIds(stored) && i < |obs| == |mints| && Minted(stored, mints) && Proposed(env, stored, obs, mints, i)
    ensures Eligible(obs[i])
    ensures var (es, p) := (Entries(env, stored, obs, mints, |obs|), WantOf(obs[i]).place);
            var e := Tried(env, stored, obs, mints, i).value;
            && e in At(es, p)
            && (Sharing(Wanted(obs), p) == 1 ==> |At(es, p)| == 1 && At(es, p)[0] == e)
            && (Sharing(Wanted(obs), p) >= 2 ==> e.exec == obs[i].exec)
  {
    hide UniqueIds, Minted, Chosen, Entries, Attempt, Continued, Sharing, Wanted, ValidEntry, At, Ascending;
    TriedPlace(env, stored, obs, mints, i);
    EntriesExact(env, stored, obs, mints, |obs|);
    var (es, p) := (Entries(env, stored, obs, mints, |obs|), WantOf(obs[i]).place);
    var e := Tried(env, stored, obs, mints, i).value;
    AtExact(es, p);
    if Sharing(Wanted(obs), p) == 1 {
      forall x | x in At(es, p) ensures x == e { OwnPin(env, stored, obs, mints, i, x); }
      AtSingle(es, p, e);
      assert At(es, p)[0] in At(es, p);
    }
    if Sharing(Wanted(obs), p) >= 2 { CommandKept(env, stored, obs, mints, i); }
  }

  /** Each window continues the pin proposed for it, and one without a proposed pin continues none. */
  lemma {:induction false} ContinuesOwn(env: Env, stored: seq<Entry>, obs: seq<Observed>, mints: seq<string>, i: nat)
    requires UniqueIds(stored) && i < |obs| == |mints| && Minted(stored, mints) && Chosen(obs, i)
    ensures Continued(Entries(env, stored, obs, mints, |obs|), obs, i) == Again(env, stored, obs, mints, i)
  {
    hide UniqueIds, Minted, Chosen, Entries, Attempt, Sharing, Wanted, Correlate, ValidEntry, At, FirstUnused, Tried;
    var es := Entries(env, stored, obs, mints, |obs|);
    var (w, k) := (Wanted(obs), Rank(obs, i));
    WantedAt(obs, i);
    FoundAt(es, obs, i);
    MatchExact(es, w, k);
    var found := Correlate(es, w);
    if found[k].Some? {
      OwnPin(env, stored, obs, mints, i, found[k].value);
    } else if Proposed(env, stored, obs, mints, i) {
      PinsAt(env, stored, obs, mints, i);
      var e := Tried(env, stored, obs, mints, i).value;
      NotUsed(env, stored, obs, mints, i);
      NoMatch(es, w, k, e);
    }
  }

  lemma NoMatch(es: seq<Entry>, wanted: seq<Want>, k: nat, e: Entry)
    requires k < |wanted| && e in At(es, wanted[k].place) && e.id !in Used(Correlate(es, wanted)[..k])
    requires Sharing(wanted, wanted[k].place) == 1 ==> |At(es, wanted[k].place)| == 1
    requires Sharing(wanted, wanted[k].place) >= 2 ==> e.exec == wanted[k].exec
    ensures Correlate(es, wanted)[k].Some?
  {
    SharingHas(wanted, wanted[k].place, k);
    CorrelatePrefix(es, wanted, k, |wanted|);
    FirstUnusedExact(At(es, wanted[k].place), wanted[k].exec, Used(CorrelateFirst(es, wanted, k)));
    hide At, FirstUnused, Sharing, Used, CorrelateFirst;
  }

  /** No earlier window has taken it. */
  lemma {:induction false} NotUsed(env: Env, stored: seq<Entry>, obs: seq<Observed>, mints: seq<string>, i: nat)
    requires UniqueIds(stored) && i < |obs| == |mints| && Minted(stored, mints) && Proposed(env, stored, obs, mints, i)
    ensures var es := Entries(env, stored, obs, mints, |obs|);
            Rank(obs, i) < |Wanted(obs)|
            && Tried(env, stored, obs, mints, i).value.id !in Used(Correlate(es, Wanted(obs))[..Rank(obs, i)])
  {
    hide UniqueIds, Minted, Chosen, Entries, Attempt, Sharing, Wanted, Correlate, ValidEntry, Tried, Continued,
         ChosenFirst;
    var es := Entries(env, stored, obs, mints, |obs|);
    var (w, k) := (Wanted(obs), Rank(obs, i));
    FoundAt(es, obs, i);
    var found := Correlate(es, w);
    var e := Tried(env, stored, obs, mints, i).value;
    forall f | f in found[..k] && f.Some? ensures f.value.id != e.id {
      var j :| 0 <= j < k && found[..k][j] == f;
      EarlierOwn(env, stored, obs, mints, i, j);
    }
  }

  lemma EarlierOwn(env: Env, stored: seq<Entry>, obs: seq<Observed>, mints: seq<string>, i: nat, j: nat)
    requires UniqueIds(stored) && i < |obs| == |mints| && Minted(stored, mints) && Proposed(env, stored, obs, mints, i)
    requires j < Rank(obs, i) <= |Wanted(obs)|
    ensures var es := Entries(env, stored, obs, mints, |obs|);
            var f := Correlate(es, Wanted(obs))[j];
            f.Some? ==> f.value.id != Tried(env, stored, obs, mints, i).value.id
  {
    var es := Entries(env, stored, obs, mints, |obs|);
    var m := ChosenAt(obs, i, j);
    hide UniqueIds, Minted, Chosen, Entries, Attempt, Sharing, Wanted, Correlate, ValidEntry, Tried, At, ChosenFirst;
    WantedAt(obs, m);
    MatchExact(es, Wanted(obs), j);
    var f := Correlate(es, Wanted(obs))[j];
    if f.Some? {
      OwnPin(env, stored, obs, mints, m, f.value);
      TriedIds(env, stored, obs, mints, m, i);
    }
  }

  // --------------------------------------------------------- what makes a pin valid

  predicate CleanText(s: string) { !HasForbiddenControl(s, false) }

  lemma CleanConcat(a: string, b: string)
    ensures CleanText(a + b) <==> CleanText(a) && CleanText(b)
  {
    if CleanText(a + b) {
      assert forall c | c in a :: c in a + b;
      assert forall c | c in b :: c in a + b;
    }
  }

  function FileOf(id: string): string { id + ".desktop" }

  function PathOf(dir: string, id: string): string { dir + LAUNCHERS_DIR_SUFFIX + id + ".desktop" }

  /** What a config directory must be for the launchers in it to have valid paths. */
  predicate DirOk(dir: string) {
    && (dir != [] ==> dir[0] == '/') && Len(dir) + 46 <= MAX_PATH_LEN && CleanText(dir)
    && Dotless(dir)
  }

  lemma IdChars(id: string)
    requires IsLauncherId(id)
    ensures |id| == 27 && Len(id) == 27 && Len(FileOf(id)) == 35 && CleanText(FileOf(id)) && CleanText(id)
      && '/' !in FileOf(id)
  {
    var p := LAUNCHER_ID_PREFIX;
    assert id == p + id[|p|..];
    forall c | c in FileOf(id) ensures 0x20 < c as int < 0x7f && c != '/' {
      if c in id { if c !in p { assert c in id[|p|..] && IsLowerHex(c); } }
    }
    Utf8AsciiLength(FileOf(id));
    Utf8AsciiLength(id);
    assert forall c | c in id :: c in FileOf(id);
  }

  lemma PathShape(dir: string, id: string)
    ensures PathOf(dir, id) == dir + ['/'] + ("launchers" + ['/'] + FileOf(id))
    ensures PathOf(dir, id) == (dir + LAUNCHERS_DIR_SUFFIX) + FileOf(id)
  {
    assert LAUNCHERS_DIR_SUFFIX == ['/'] + "launchers" + ['/'];
  }

  lemma PathSplit(dir: string, id: string)
    requires IsLauncherId(id)
    ensures Split(PathOf(dir, id), '/') == Split(dir, '/') + ["launchers", FileOf(id)]
  {
    IdChars(id);
    PathShape(dir, id);
    hide Split, IsLauncherId, HasForbiddenControl, Utf8, FileOf, PathOf;
    SplitConcat(dir, '/', "launchers" + ['/'] + FileOf(id));
    SplitConcat("launchers", '/', FileOf(id));
    SplitNone("launchers", '/');
    SplitNone(FileOf(id), '/');
    assert ["launchers"] + [FileOf(id)] == ["launchers", FileOf(id)];
  }

  lemma PathLength(dir: string, id: string)
    requires IsLauncherId(id)
    ensures Len(PathOf(dir, id)) == Len(dir) + 46
  {
    IdChars(id);
    PathShape(dir, id);
    hide IsLauncherId, HasForbiddenControl, Utf8, FileOf, PathOf;
    Utf8Append(dir + LAUNCHERS_DIR_SUFFIX, FileOf(id));
    Utf8Append(dir, LAUNCHERS_DIR_SUFFIX);
    SuffixClean();
    Utf8AsciiLength(LAUNCHERS_DIR_SUFFIX);
  }

  lemma PathClean(dir: string, id: string)
    requires IsLauncherId(id)
    ensures CleanText(PathOf(dir, id)) <==> CleanText(dir)
  {
    IdChars(id);
    PathShape(dir, id);
    hide IsLauncherId, HasForbiddenControl, Utf8, FileOf, PathOf;
    CleanConcat(dir + LAUNCHERS_DIR_SUFFIX, FileOf(id));
    CleanConcat(dir, LAUNCHERS_DIR_SUFFIX);
    SuffixClean();
  }

  lemma SuffixClean()
    ensures CleanText(LAUNCHERS_DIR_SUFFIX) && |LAUNCHERS_DIR_SUFFIX| == 11
    ensures forall c | c in LAUNCHERS_DIR_SUFFIX :: c as int < 0x80
  {
  }

  predicate Dotless(path: string) { forall seg | seg in Split(path, '/') :: seg != ".." && seg != "." }

  lemma PathDots(dir: string, id: string)
    requires IsLauncherId(id)
    ensures Dotless(PathOf(dir, id)) <==> Dotless(dir)
  {
    PathSplit(dir, id);
    IdChars(id);
    assert "launchers" != ".." && "launchers" != ".";
    hide Split, IsLauncherId, HasForbiddenControl, Utf8, PathOf;
    var (all, own) := (Split(PathOf(dir, id), '/'), Split(dir, '/'));
    assert forall seg :: seg in all <==> seg in own || seg == "launchers" || seg == FileOf(id);
    assert |FileOf(id)| > 2;
  }

  /** Whether a launcher's path is valid depends on the directory alone, not on which id it is for. */
  lemma PathIs(dir: string, id: string)
    requires IsLauncherId(id)
    ensures ValidLauncherPath(PathOf(dir, id)) <==> DirOk(dir)
    ensures EndsWith(PathOf(dir, id), LAUNCHERS_DIR_SUFFIX + id + ".desktop")
  {
    PathLength(dir, id);
    PathClean(dir, id);
    PathDots(dir, id);
    PathShape(dir, id);
    hide Split, IsLauncherId, HasForbiddenControl, Utf8;
    var path := PathOf(dir, id);
    var suffix := LAUNCHERS_DIR_SUFFIX + id + ".desktop";
    assert path == dir + suffix && path[|path| - |suffix|..] == suffix;
    assert dir != [] ==> path[0] == dir[0];
    assert dir == [] ==> path[0] == '/';
  }

  /** Everything `Entry::validate` asks for beyond the id and the launcher's path. */
  predicate BodyOk(e: Entry) {
    && e.windowClass != [] && Len(e.windowClass) <= MAX_CLASS_LEN && CleanText(e.windowClass)
    && e.workspace >= 1
    && e.exec != [] && Len(e.exec) <= MAX_EXEC_LEN && !HasForbiddenControl(e.exec, true)
    && Len(e.labelText) <= MAX_LABEL_LEN && CleanText(e.labelText)
    && (IsArgvDerived(e.execSource) <==> e.provenance == Host)
    && ValidSha256(e.launcher.sha256)
    && (e.cwd.Some? ==> ValidCwd(e.cwd.value))
  }

  lemma ValidIs(e: Entry, dir: string)
    requires e.launcher.path == PathOf(dir, e.id) && IsLauncherId(e.id)
    ensures ValidEntry(e) <==> BodyOk(e) && DirOk(dir)
  {
    IdChars(e.id);
    PathIs(dir, e.id);
    hide IsLauncherId, Len, HasForbiddenControl, ValidLauncherPath, EndsWith, ValidSha256, ValidCwd, DirOk;
  }

  lemma ValidBody(e: Entry)
    requires ValidEntry(e)
    ensures BodyOk(e) && IsLauncherId(e.id)
  {
    hide IsLauncherId, Len, HasForbiddenControl, ValidLauncherPath, EndsWith, ValidSha256, ValidCwd;
  }

  ghost predicate Hashes(env: Env) { forall b :: ValidSha256(env.sha(b)) }

  /** Which attempts succeed. */
  lemma AttemptIs(env: Env, stored: Option<Entry>, mint: string, o: Observed)
    requires Eligible(o) && IsLauncherId(if stored.Some? then stored.value.id else mint)
    ensures var p := Pin(env, stored, mint, o);
            Attempt(env, stored, mint, o).Some? <==> p.Wrote? && BodyOk(p.value) && DirOk(env.dir)
  {
    hide L.DesktopContents, IsLauncherId, EntryError, BodyOk, DirOk;
    var p := Pin(env, stored, mint, o);
    if p.Wrote? { ValidIs(p.value, env.dir); }
  }

  lemma WritableIs(name: string, exec: string, cwd: Option<string>)
    ensures L.DesktopContents(name, D.SplitCanonical(exec), cwd).Wrote?
            <==> !L.AnyControl(name) && !L.AnyControl(exec) && (cwd.Some? ==> !L.AnyControl(cwd.value))
  {
    L.SplitClean(exec);
    hide L.AnyControl, L.Clean, L.Contents, L.Arguments;
  }

  lemma CleanNoControl(s: string)
    requires CleanText(s)
    ensures !L.AnyControl(s)
  {
  }

  lemma TabOnly(exec: string)
    requires !HasForbiddenControl(exec, true)
    ensures L.AnyControl(exec) <==> '\t' in exec
  {
  }

  /** A typed command holding a tab cannot be written again; any other stored pin is refused only where a
      new pin for the same window would be. */
  lemma StoredVsNew(env: Env, b: Entry, mint: string, mint2: string, o: Observed)
    requires Hashes(env) && ValidEntry(b) && Eligible(o) && IsLauncherId(mint2) && PlaceOf(b) == WantOf(o).place
    requires Attempt(env, None, mint2, o).Some?
    ensures Attempt(env, Some(b), mint, o).None? <==> TypedPin(Some(b)) && '\t' in b.exec
  {
    ValidBody(b);
    AttemptIs(env, None, mint2, o);
    AttemptIs(env, Some(b), mint, o);
    hide Len, HasForbiddenControl, L.DesktopContents, IsLauncherId, ValidSha256, DirOk, Attempt, EntryError,
         D.SplitCanonical;
    WritableIs(o.labelText, o.exec, o.cwd);
    if TypedPin(Some(b)) {
      var name := if b.labelText != [] then b.labelText else o.labelText;
      WritableIs(name, b.exec, b.cwd);
      CleanNoControl(name);
      if b.cwd.Some? { CleanNoControl(b.cwd.value); }
      TabOnly(b.exec);
    }
  }

  lemma NewVsNew(env: Env, m1: string, m2: string, o: Observed)
    requires Eligible(o) && IsLauncherId(m1) && IsLauncherId(m2)
    ensures Attempt(env, None, m1, o).Some? <==> Attempt(env, None, m2, o).Some?
  {
    AttemptIs(env, None, m1, o);
    AttemptIs(env, None, m2, o);
    hide Len, HasForbiddenControl, L.DesktopContents, IsLauncherId, ValidSha256, DirOk, Attempt, ValidCwd;
  }

  /** A proposed pin captured again is the same pin. */
  lemma AttemptAgain(env: Env, stored: Option<Entry>, mint: string, mint2: string, o: Observed)
    requires Eligible(o) && Attempt(env, stored, mint, o).Some?
    ensures Attempt(env, Attempt(env, stored, mint, o), mint2, o) == Attempt(env, stored, mint, o)
  {
    hide L.DesktopContents, EntryError;
  }

  // ------------------------------------------------------------------- the fixpoint

  predicate ValidBase(base: Base) {
    && base.preLaunchMs <= MAX_DELAY_MS && base.postLaunchMs <= MAX_DELAY_MS
    && |base.entries| <= MAX_ENTRIES && Ascending(base.entries) && forall e | e in base.entries :: ValidEntry(e)
  }

  /** A window, within the entry limit, that continues a typed pin whose command holds a tab, while its
      own capture would make a valid new pin. */
  predicate Blocked(env: Env, stored: seq<Entry>, obs: seq<Observed>, mints: seq<string>, mint: string, i: nat)
    requires i < |obs| == |mints|
  {
    && Chosen(obs, i) && |Entries(env, stored, obs, mints, i)| < MAX_ENTRIES
    && TypedPin(Continued(stored, obs, i)) && '\t' in Continued(stored, obs, i).value.exec
    && Attempt(env, None, mint, obs[i]).Some?
  }

  lemma BuildValid(env: Env, base: Base, obs: seq<Observed>, mints: seq<string>)
    requires ValidBase(base) && |obs| == |mints| && Minted(base.entries, mints)
    ensures Build(env, base, obs, mints)
            == Built(Proposal(base.preLaunchMs, base.postLaunchMs, Entries(env, base.entries, obs, mints, |obs|)))
  {
    hide Entries, ValidEntry, Minted, Ascending, SortEntries, ConfigError;
    AscendingIds(base.entries);
    EntriesExact(env, base.entries, obs, mints, |obs|);
    var es := Entries(env, base.entries, obs, mints, |obs|);
    SortAscending(es);
    ValidateExact(Document(0, [], 0, Proposal(base.preLaunchMs, base.postLaunchMs, es)));
  }

  lemma StoredIs(stored: seq<Entry>, obs: seq<Observed>, i: nat)
    requires i < |obs| && Chosen(obs, i)
    ensures Eligible(obs[i])
    ensures var c := Continued(stored, obs, i); c.Some? ==>
      c.value in stored && PlaceOf(c.value) == WantOf(obs[i]).place
  {
    WantedAt(obs, i);
    FoundAt(stored, obs, i);
    MatchExact(stored, Wanted(obs), Rank(obs, i));
    hide Sharing, Wanted, Rank, Continued, Chosen, Correlate;
  }

  /** A window refused the first time is refused again, unless it is blocked by a typed tab. */
  lemma RefusedAgain(env: Env, stored: seq<Entry>, obs: seq<Observed>, mints: seq<string>, mint: string, i: nat)
    requires Hashes(env) && (forall e | e in stored :: ValidEntry(e)) && Minted(stored, mints) && IsLauncherId(mint)
    requires i < |obs| == |mints| && Chosen(obs, i) && |Entries(env, stored, obs, mints, i)| < MAX_ENTRIES
    ensures Eligible(obs[i])
    ensures Blocked(env, stored, obs, mints, mint, i)
            <==> Tried(env, stored, obs, mints, i).None? && Attempt(env, None, mint, obs[i]).Some?
  {
    StoredIs(stored, obs, i);
    assert mints[i] in mints;
    hide Hashes, ValidEntry, IsLauncherId, Chosen, Entries, Attempt, Continued, TypedPin;
    var c := Continued(stored, obs, i);
    if Attempt(env, None, mint, obs[i]).Some? {
      if c.Some? { StoredVsNew(env, c.value, mints[i], mint, obs[i]); }
      else {
        NewVsNew(env, mints[i], mint, obs[i]);
        NotTyped();
      }
    }
  }

  lemma NotTyped()
    ensures !TypedPin(None)
  {
  }

  lemma StepAgain(env: Env, stored: seq<Entry>, obs: seq<Observed>, mints: seq<string>, mints2: seq<string>, i: nat)
    requires Hashes(env) && (forall e | e in stored :: ValidEntry(e)) && UniqueIds(stored) && Minted(stored, mints)
    requires i < |obs| == |mints| == |mints2| && Minted(Entries(env, stored, obs, mints, |obs|), mints2)
    requires var es := Entries(env, stored, obs, mints, |obs|);
             Entries(env, es, obs, mints2, i) == Entries(env, stored, obs, mints, i)
    ensures var es := Entries(env, stored, obs, mints, |obs|);
            if Blocked(env, stored, obs, mints, mints2[i], i)
            then Proposed(env, es, obs, mints2, i) && Tried(env, es, obs, mints2, i).value.id == mints2[i]
            else Entries(env, es, obs, mints2, i + 1) == Entries(env, stored, obs, mints, i + 1)
  {
    var es := Entries(env, stored, obs, mints, |obs|);
    OneMore(env, stored, obs, mints, i);
    OneMore(env, es, obs, mints2, i);
    hide Hashes, ValidEntry, UniqueIds, Minted, Chosen, Entries, Attempt, Continued, WithEntry, Blocked, IsLauncherId;
    if Chosen(obs, i) && |Entries(env, stored, obs, mints, i)| < MAX_ENTRIES {
      ContinuesOwn(env, stored, obs, mints, i);
      IdsOk(es, mints2, i);
      RefusedAgain(env, stored, obs, mints, mints2[i], i);
      var tried := Tried(env, stored, obs, mints, i);
      if tried.Some? {
        AttemptAgain(env, Continued(stored, obs, i), mints[i], mints2[i], obs[i]);
      } else {
        TriedId(env, es, obs, mints2, i);
      }
    } else {
      NotBlocked(env, stored, obs, mints, mints2[i], i);
    }
  }

  lemma IdsOk(stored: seq<Entry>, mints: seq<string>, i: nat)
    requires Minted(stored, mints) && i < |mints|
    ensures IsLauncherId(mints[i]) && forall e | e in stored :: e.id != mints[i]
  {
    hide IsLauncherId;
    assert mints[i] in mints;
  }

  lemma NotBlocked(env: Env, stored: seq<Entry>, obs: seq<Observed>, mints: seq<string>, mint: string, i: nat)
    requires i < |obs| == |mints| && !(Chosen(obs, i) && |Entries(env, stored, obs, mints, i)| < MAX_ENTRIES)
    ensures !Blocked(env, stored, obs, mints, mint, i)
  {
    hide Chosen, Entries;
  }

  /** Up to the first blocked window, both captures propose the same. */
  lemma {:induction false} SameUntilBlocked(env: Env, stored: seq<Entry>, obs: seq<Observed>, mints: seq<string>,
                                            mints2: seq<string>, n: nat)
    requires Hashes(env) && (forall e | e in stored :: ValidEntry(e)) && UniqueIds(stored) && Minted(stored, mints)
    requires n <= |obs| == |mints| == |mints2| && Minted(Entries(env, stored, obs, mints, |obs|), mints2)
    requires forall i | 0 <= i < n :: !Blocked(env, stored, obs, mints, mints2[i], i)
    ensures var es := Entries(env, stored, obs, mints, |obs|);
            Entries(env, es, obs, mints2, n) == Entries(env, stored, obs, mints, n)
  {
    hide Hashes, ValidEntry, UniqueIds, Minted, Entries, Blocked;
    var es := Entries(env, stored, obs, mints, |obs|);
    if n == 0 {
      NoneYet(env, stored, obs, mints);
      NoneYet(env, es, obs, mints2);
    } else {
      SameUntilBlocked(env, stored, obs, mints, mints2, n - 1);
      StepAgain(env, stored, obs, mints, mints2, n - 1);
    }
  }

  lemma {:induction false} FirstBlocked(env: Env, stored: seq<Entry>, obs: seq<Observed>, mints: seq<string>,
                                        mints2: seq<string>, n: nat) returns (i: nat)
    requires n < |obs| == |mints| == |mints2| && Blocked(env, stored, obs, mints, mints2[n], n)
    ensures i <= n && Blocked(env, stored, obs, mints, mints2[i], i)
    ensures forall j | 0 <= j < i :: !Blocked(env, stored, obs, mints, mints2[j], j)
  {
    hide Blocked;
    if j :| 0 <= j < n && Blocked(env, stored, obs, mints, mints2[j], j) {
      i := FirstBlocked(env, stored, obs, mints, mints2, j);
    } else {
      i := n;
    }
  }

  lemma NewIdDiffers(env: Env, es: seq<Entry>, obs: seq<Observed>, mints: seq<string>, i: nat)
    requires UniqueIds(es) && i < |obs| == |mints| && Minted(es, mints)
    requires Proposed(env, es, obs, mints, i) && Tried(env, es, obs, mints, i).value.id == mints[i]
    ensures Entries(env, es, obs, mints, |obs|) != es
  {
    hide ValidEntry, UniqueIds, Minted, Entries, Ascending, Tried, Chosen;
    EntriesExact(env, es, obs, mints, |obs|);
    IdsOk(es, mints, i);
    assert Tried(env, es, obs, mints, i).value in Entries(env, es, obs, mints, |obs|);
  }

  /** A blocked window is proposed as a new pin the second time, so the proposals differ. */
  lemma BlockedDiffers(env: Env, stored: seq<Entry>, obs: seq<Observed>, mints: seq<string>, mints2: seq<string>,
                       n: nat)
    requires Hashes(env) && (forall e | e in stored :: ValidEntry(e)) && UniqueIds(stored) && Minted(stored, mints)
    requires n < |obs| == |mints| == |mints2| && Minted(Entries(env, stored, obs, mints, |obs|), mints2)
    requires Blocked(env, stored, obs, mints, mints2[n], n)
    ensures var es := Entries(env, stored, obs, mints, |obs|); Entries(env, es, obs, mints2, |obs|) != es
  {
    hide Hashes, ValidEntry, UniqueIds, Minted, Entries, Blocked, Ascending, Proposed, Tried;
    var es := Entries(env, stored, obs, mints, |obs|);
    var i := FirstBlocked(env, stored, obs, mints, mints2, n);
    SameUntilBlocked(env, stored, obs, mints, mints2, i);
    StepAgain(env, stored, obs, mints, mints2, i);
    EntriesExact(env, stored, obs, mints, |obs|);
    AscendingIds(es);
    NewIdDiffers(env, es, obs, mints2, i);
  }

  /** Capturing an unchanged set of windows, on the pins the first capture just proposed, proposes those
      same pins again, with typed commands, duplicates, refused captures and the entry limit all present;
      the one exception is a window blocked by a tab in a typed command, and then it never does. */
  lemma RecaptureFixpoint(env: Env, base: Base, obs: seq<Observed>, mints: seq<string>, mints2: seq<string>)
    requires Hashes(env) && ValidBase(base) && |obs| == |mints| == |mints2|
    requires Minted(base.entries, mints) && Minted(Entries(env, base.entries, obs, mints, |obs|), mints2)
    ensures Build(env, base, obs, mints).Built?
    ensures var p := Build(env, base, obs, mints).proposal;
            Build(env, Base(p.preLaunchMs, p.postLaunchMs, p.entries), obs, mints2) == Built(p)
            <==> forall i | 0 <= i < |obs| :: !Blocked(env, base.entries, obs, mints, mints2[i], i)
  {
    hide Hashes, ValidEntry, UniqueIds, Minted, Entries, Blocked, Ascending, Build;
    BuildValid(env, base, obs, mints);
    AscendingIds(base.entries);
    var es := Entries(env, base.entries, obs, mints, |obs|);
    EntriesExact(env, base.entries, obs, mints, |obs|);
    BuildValid(env, Base(base.preLaunchMs, base.postLaunchMs, es), obs, mints2);
    if n :| 0 <= n < |obs| && Blocked(env, base.entries, obs, mints, mints2[n], n) {
      BlockedDiffers(env, base.entries, obs, mints, mints2, n);
    } else {
      SameUntilBlocked(env, base.entries, obs, mints, mints2, |obs|);
    }
  }

  /** So with no tab in any typed command of the stored list it always proposes those same pins again. */
  lemma NoTabsFixpoint(env: Env, base: Base, obs: seq<Observed>, mints: seq<string>, mints2: seq<string>)
    requires Hashes(env) && ValidBase(base) && |obs| == |mints| == |mints2|
    requires Minted(base.entries, mints) && Minted(Entries(env, base.entries, obs, mints, |obs|), mints2)
    requires forall e | e in base.entries && e.execSource.OverridesTable? :: '\t' !in e.exec
    ensures Build(env, base, obs, mints).Built?
    ensures var p := Build(env, base, obs, mints).proposal;
            Build(env, Base(p.preLaunchMs, p.postLaunchMs, p.entries), obs, mints2) == Built(p)
  {
    hide Hashes, ValidEntry, Minted, Entries, Blocked, Ascending, Build;
    RecaptureFixpoint(env, base, obs, mints, mints2);
    forall i | 0 <= i < |obs| ensures !Blocked(env, base.entries, obs, mints, mints2[i], i) {
      BlockedHasTab(env, base.entries, obs, mints, mints2[i], i);
    }
  }

  lemma BlockedHasTab(env: Env, stored: seq<Entry>, obs: seq<Observed>, mints: seq<string>, mint: string, i: nat)
    requires i < |obs| == |mints|
    ensures Blocked(env, stored, obs, mints, mint, i) ==>
              exists e :: e in stored && e.execSource.OverridesTable? && '\t' in e.exec
  {
    hide Chosen, Entries, Attempt, Continued;
    if Blocked(env, stored, obs, mints, mint, i) { StoredIs(stored, obs, i); }
  }

  // -------------------------------------------------- the exception does happen

  function Zeros(n: nat): string { seq(n, _ => '0') }

  function IdOf(last: char): string { LAUNCHER_ID_PREFIX + Zeros(15) + [last] }

  function ZeroHash(bs: seq<byte>): string { Zeros(64) }

  function TabPin(): Entry {
    Entry(IdOf('0'), "x", 1, None, "x", "a\tb", OverridesTable, NoProvenance,
          Model.Launcher(PathOf([], IdOf('0')), Zeros(64)), None, true)
  }

  function OpenWindow(): Observed { Observed("x", "x", Some(DesktopFile), NoProvenance, None, true, 1, None, "x") }

  lemma SmallText(s: string)
    requires forall c | c in s :: 0x20 <= c as int < 0x7f
    ensures CleanText(s) && Len(s) == |s|
  {
    Utf8AsciiLength(s);
  }

  lemma SmallIds()
    ensures IsLauncherId(IdOf('0')) && IsLauncherId(IdOf('1')) && IsLauncherId(IdOf('2'))
    ensures IdOf('0') != IdOf('1') && IdOf('1') != IdOf('2') && IdOf('0') != IdOf('2')
  {
    forall c | c == '0' || c == '1' || c == '2' ensures IsLauncherId(IdOf(c)) && IdOf(c)[26] == c {
      assert IdOf(c)[|LAUNCHER_ID_PREFIX|..] == Zeros(15) + [c];
    }
  }

  lemma TabPinValid()
    ensures ValidEntry(TabPin())
  {
    SmallIds();
    SmallText("x");
    Utf8AsciiLength("a\tb");
    SmallText([]);
    var e := TabPin();
    assert DirOk([]) by { EmptyDir(); }
    hide IsLauncherId, Utf8, DirOk, EntryError;
    assert BodyOk(e);
    ValidIs(e, []);
  }

  lemma EmptyDir()
    ensures DirOk([])
  {
    SmallText([]);
    assert Split<char>([], '/') == [[]];
  }

  lemma OpenBody(e: Entry)
    requires e.windowClass == "x" && e.exec == "x" && e.labelText == "x" && e.workspace == 1 && e.cwd == None
    requires e.execSource.DesktopFile? && e.provenance.NoProvenance? && ValidSha256(e.launcher.sha256)
    ensures BodyOk(e)
  {
    SmallText("x");
    hide Utf8, ValidSha256;
  }

  lemma NewPinIs(env: Env, mint: string)
    requires L.DesktopContents("x", D.SplitCanonical("x"), None).Wrote?
    ensures var p := Pin(env, None, mint, OpenWindow());
            && p.Wrote? && p.value.windowClass == "x" && p.value.exec == "x" && p.value.labelText == "x"
            && p.value.workspace == 1 && p.value.cwd == None && p.value.execSource.DesktopFile?
            && p.value.provenance.NoProvenance? && exists bs :: p.value.launcher.sha256 == env.sha(bs)
  {
    hide L.DesktopContents, D.SplitCanonical;
  }

  lemma NewPinValid(mint: string)
    requires IsLauncherId(mint)
    ensures Attempt(Env([], ZeroHash), None, mint, OpenWindow()).Some?
  {
    hide IsLauncherId, Utf8, DirOk, Attempt, EntryError, L.DesktopContents, HasForbiddenControl, Pin, BodyOk,
         ZeroHash, D.SplitCanonical;
    var (env, o) := (Env([], ZeroHash), OpenWindow());
    SmallText("x");
    EmptyDir();
    WritableIs("x", "x", None);
    CleanNoControl("x");
    AttemptIs(env, None, mint, o);
    NewPinIs(env, mint);
    ZeroHashes();
    OpenBody(Pin(env, None, mint, o).value);
  }

  lemma AloneThere(stored: Entry, w: Want)
    requires PlaceOf(stored) == w.place
    ensures At([stored], w.place) == [stored] && Sharing([w], w.place) == 1
  {
    hide PlaceOf;
    assert [stored][..0] == [] && [w][..0] == [];
    assert At([], w.place) == [] && Sharing([], w.place) == 0;
  }

  lemma OneWindow(stored: Entry, o: Observed)
    requires Eligible(o) && PlaceOf(stored) == WantOf(o).place
    ensures Chosen([o], 0) && Continued([stored], [o], 0) == Some(stored)
  {
    var (ss, ws) := ([stored], Wanted([o]));
    assert ChosenFirst([o], 1) == [0] && ws == [WantOf(o)];
    AloneThere(stored, WantOf(o));
    FoundAt(ss, [o], 0);
    CorrelatePrefix(ss, ws, 0, 1);
  }

  /** A typed command with a tab, on the one window of its place: the first capture refuses the window, the
      second proposes it as a new pin. */
  lemma TabIsNoFixpoint() returns (env: Env, base: Base, obs: seq<Observed>, mints: seq<string>, mints2: seq<string>)
    ensures ValidBase(base) && |obs| == |mints| == |mints2|
    ensures Minted(base.entries, mints) && Minted(Entries(env, base.entries, obs, mints, |obs|), mints2)
    ensures Build(env, base, obs, mints).Built?
    ensures var p := Build(env, base, obs, mints).proposal;
            Build(env, Base(p.preLaunchMs, p.postLaunchMs, p.entries), obs, mints2) != Built(p)
  {
    hide IdOf, ValidEntry, Entries, Chosen, Continued, Attempt, IsLauncherId, ZeroHash, Build, Hashes, TabPin,
         OpenWindow, Blocked;
    env, base, obs := Env([], ZeroHash), Base(0, 0, [TabPin()]), [OpenWindow()];
    mints, mints2 := [IdOf('1')], [IdOf('2')];
    SmallIds();
    TabPinValid();
    ZeroHashes();
    TabBlocked(env, mints, IdOf('2'));
    assert TabPin().id == IdOf('0') by { TabId(); }
    RecaptureFixpoint(env, base, obs, mints, mints2);
    assert Blocked(env, base.entries, obs, mints, mints2[0], 0);
  }

  lemma TabId()
    ensures TabPin().id == IdOf('0')
  {
  }

  /** The refused window leaves nothing proposed, and is blocked. */
  lemma TabBlocked(env: Env, mints: seq<string>, mint: string)
    requires env == Env([], ZeroHash) && mints == [IdOf('1')] && IsLauncherId(mint)
    ensures Blocked(env, [TabPin()], [OpenWindow()], mints, mint, 0)
    ensures Entries(env, [TabPin()], [OpenWindow()], mints, 1) == []
  {
    var (stored, obs) := ([TabPin()], [OpenWindow()]);
    assert TypedPin(Some(TabPin())) && TabPin().exec[1] == '\t' && Eligible(OpenWindow());
    OneWindow(TabPin(), OpenWindow());
    NewPinValid(mint);
    hide IdOf, ValidEntry, Entries, Chosen, Continued, Attempt, IsLauncherId, ZeroHash, TabPin, OpenWindow;
    TabRefused(env, mints[0], mint);
    NoneYet(env, stored, obs, mints);
    OneMore(env, stored, obs, mints, 0);
  }

  lemma ZeroHashes()
    ensures Hashes(Env([], ZeroHash))
  {
  }

  lemma TabRefused(env: Env, mint: string, mint2: string)
    requires env == Env([], ZeroHash) && IsLauncherId(mint2) && Attempt(env, None, mint2, OpenWindow()).Some?
    ensures Attempt(env, Some(TabPin()), mint, OpenWindow()).None?
  {
    TabPinValid();
    ZeroHashes();
    var e := TabPin();
    assert e.exec[1] == '\t' && TypedPin(Some(e));
    hide IsLauncherId, Attempt, ValidEntry, Hashes, IdOf;
    StoredVsNew(env, e, mint, mint2, OpenWindow());
  }
}
