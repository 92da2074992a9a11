/** The part of the filesystem one uid's key store lives in, as a crash may leave it.
    A directory's names and a file's contents are safe only once they have been synced: after a crash
    a directory may be as it was at any moment since its last sync, and an unsynced file torn. */
module Disk {
  import opened Text

  /** An ideal signing key: the directory it was drawn for and the draw. Its public half, and the
      enrollment id hashed from that, determine it. */
  datatype Key = Key(dir: nat, draw: nat)

  /** `public.json`: version and uid are constants of this store, and the enrollment id is the key's. */
  datatype Public = Public(user: string, gen: u64, key: Key)

  datatype File<T> = Missing | Torn | Written(data: T, synced: bool)

  /** `<uid>/`: `signing.key`, `public.json` and `public.json.tmp`. */
  datatype Dir = Dir(key: File<Key>, pub: File<Public>, tmp: File<Public>)

  /** The state root: the live directory and this uid's tombstones. */
  datatype Root = Root(live: Option<nat>, tombs: seq<nat>)

  /** `root` and `dirs` are what running code sees; `roots` and `views` what a crash may leave. */
  datatype Disk = Disk(root: Root, roots: set<Root>, dirs: map<nat, Dir>, views: map<nat, set<Dir>>,
                       nextDir: nat, nextDraw: nat)

  const EMPTY_DIR := Dir(Missing, Missing, Missing)

  function Fresh(): Disk {
    Disk(Root(None, []), {Root(None, [])}, map[], map[], 0, 0)
  }

  /** One filesystem call of the store. */
  datatype Op =
    | MkDir | SyncRoot | SyncDir
    | CreateKey | WriteKey(key: Key) | SyncKey
    | CreateTmp | WriteTmp(pub: Public) | SyncTmp | RenameTmp
    | Bury | RemoveTomb(tomb: nat)

  predicate IsLive(d: Disk) { d.root.live.Some? && d.root.live.value in d.dirs && d.root.live.value in d.views }

  function LiveDir(d: Disk): Dir
    requires IsLive(d)
  {
    d.dirs[d.root.live.value]
  }

  function SetDir(d: Disk, i: nat, dir: Dir): Disk
    requires i in d.views
  {
    d.(dirs := d.dirs[i := dir], views := d.views[i := d.views[i] + {dir}])
  }

  function SetLive(d: Disk, dir: Dir): Disk
    requires IsLive(d)
  {
    SetDir(d, d.root.live.value, dir)
  }

  function SetRoot(d: Disk, root: Root): Disk {
    d.(root := root, roots := d.roots + {root})
  }

  function Sync<T>(f: File<T>): File<T> {
    match f case Written(x, _) => Written(x, true) case _ => f
  }

  function Without(s: seq<nat>, x: nat): seq<nat> {
    if s == [] then [] else if s[0] == x then Without(s[1..], x) else [s[0]] + Without(s[1..], x)
  }

  /** What a call on one of the directory's files does to it. */
  function FileEffect(dir: Dir, op: Op): Dir {
    match op
    case CreateKey => dir.(key := Torn)
    case WriteKey(k) => dir.(key := Written(k, false))
    case SyncKey => dir.(key := Sync(dir.key))
    case CreateTmp => dir.(tmp := Torn)
    case WriteTmp(p) => dir.(tmp := Written(p, false))
    case SyncTmp => dir.(tmp := Sync(dir.tmp))
    case RenameTmp => dir.(pub := dir.tmp, tmp := Missing)
    case _ => dir
  }

  function Drawn(d: Disk, op: Op): Disk {
    if op.WriteKey? then d.(nextDraw := d.nextDraw + 1) else d
  }

  /** The call's effect when it succeeds. On a path with no live directory it has none. */
  function Effect(d: Disk, op: Op): Disk {
    match op
    case MkDir =>
      if d.root.live.Some? then d
      else
        SetRoot(d, d.root.(live := Some(d.nextDir)))
        .(dirs := d.dirs[d.nextDir := EMPTY_DIR], views := d.views[d.nextDir := {EMPTY_DIR}], nextDir := d.nextDir + 1)
    case SyncRoot => d.(roots := {d.root})
    case Bury =>
      if d.root.live.None? then d else SetRoot(d, Root(None, d.root.tombs + [d.root.live.value]))
    case RemoveTomb(t) => SetRoot(d, d.root.(tombs := Without(d.root.tombs, t)))
    case SyncDir => if IsLive(d) then d.(views := d.views[d.root.live.value := {LiveDir(d)}]) else d
    case _ => if IsLive(d) then SetLive(Drawn(d, op), FileEffect(LiveDir(d), op)) else d
  }

  /** What a failed call may have done on the way: part of a file, or of a directory's removal. */
  function Partly(d: Disk, op: Op): Disk {
    match op
    case WriteKey(k) => if IsLive(d) then d.(nextDraw := d.nextDraw + 1) else d
    case RemoveTomb(t) => if t in d.views && d.root.live != Some(t) then SetDir(d, t, EMPTY_DIR) else d
    case WriteTmp(_) => if IsLive(d) then SetLive(d, LiveDir(d).(tmp := Torn)) else d
    case _ => d
  }

  predicate Settles<T(==)>(before: File<T>, after: File<T>) {
    after == before || (before.Written? && !before.synced && (after.Torn? || after == Sync(before)))
  }

  predicate SettlesTo(before: Dir, after: Dir) {
    Settles(before.key, after.key) && Settles(before.pub, after.pub) && Settles(before.tmp, after.tmp)
  }

  /** What a reboot may find: some root and some view of each directory since its last sync. */
  predicate Leaves(d: Disk, after: Disk) {
    && after.root in d.roots && after.roots == {after.root}
    && after.dirs.Keys == d.dirs.Keys && after.views.Keys == d.views.Keys
    && (forall i | i in d.views && i in after.dirs ::
          after.views[i] == {after.dirs[i]} && exists v | v in d.views[i] :: SettlesTo(v, after.dirs[i]))
    && after.nextDir == d.nextDir && after.nextDraw == d.nextDraw
  }

  /** What the world does to one call. */
  datatype Fault = Fine | Fails(partly: bool) | Crashes(done: bool, left: Disk)

  /** The filesystem with the faults still to come; `down` once the machine has crashed. */
  datatype Io = Io(disk: Disk, script: seq<Fault>, down: bool)

  function NextFault(io: Io): Fault { if io.script == [] then Fine else io.script[0] }

  function Rest(io: Io): seq<Fault> { if io.script == [] then [] else io.script[1..] }

  /** What a reboot finds when everything was written back in time. */
  function Rebooted(d: Disk): Disk {
    d.(roots := {d.root}, views := map i | i in d.dirs :: {d.dirs[i]})
  }

  /** One call: whether it succeeded, and the filesystem after it. A crash may come before or after
      the effect, and leaves anything `Leaves` allows. */
  function Call(io: Io, op: Op): (Io, bool) {
    if io.down then (io, false)
    else
      match NextFault(io)
      case Fine => (Io(Effect(io.disk, op), Rest(io), false), true)
      case Fails(partly) => (Io(if partly then Partly(io.disk, op) else io.disk, Rest(io), false), false)
      case Crashes(done, left) =>
        var at := if done then Effect(io.disk, op) else Partly(io.disk, op);
        (Io(if Leaves(at, left) then left else Rebooted(at), [], true), false)
  }

  // --------------------------------------------------------- what always holds

  /** A directory holds one key at most, its own, and a `public.json` only with that key durably in
      place: never torn, never of another key. */
  predicate GoodView(i: nat, v: Dir, nextDraw: nat) {
    && (v.key.Written? ==> v.key.data.dir == i && v.key.data.draw < nextDraw)
    && (v.pub.Missing? || (v.pub.Written? && v.pub.synced && v.key == Written(v.pub.data.key, true)))
  }

  predicate Shape(d: Disk) {
    && d.root in d.roots
    && d.dirs.Keys == d.views.Keys
    && (forall i | i in d.dirs :: i < d.nextDir && d.dirs[i] in d.views[i])
    && (forall r | r in d.roots && r.live.Some? :: r.live.value in d.dirs)
    && (forall i, v | i in d.views && v in d.views[i] :: GoodView(i, v, d.nextDraw))
  }

  /** Some state a crash may leave has this committed in some directory. */
  ghost predicate HasPub(d: Disk, p: Public) {
    exists i, v :: i in d.views && v in d.views[i] && v.pub == Written(p, true)
  }

  /** Some state a crash may leave has this key in the live directory. */
  ghost predicate LiveKey(d: Disk, k: Key) {
    exists r, v :: r in d.roots && r.live.Some? && r.live.value in d.views && v in d.views[r.live.value]
                   && (v.key == Written(k, true) || v.key == Written(k, false))
  }

  /** What each call needs so that nothing above can break: a new key is freshly drawn into a file
      just created, and only a complete document of the directory's own key is renamed into place. */
  predicate Allowed(d: Disk, op: Op) {
    match op
    case CreateKey => IsLive(d) ==> LiveDir(d).key.Missing?
    case WriteKey(k) => IsLive(d) ==> LiveDir(d).key.Torn? && k == Key(d.root.live.value, d.nextDraw)
    case RenameTmp => IsLive(d) ==> LiveDir(d).tmp.Written? && LiveDir(d).tmp.synced
                                    && LiveDir(d).key == Written(LiveDir(d).tmp.data.key, true)
    case RemoveTomb(t) => forall r | r in d.roots :: r.live != Some(t)
    case _ => true
  }

  /** `d'` offers a reader nothing new but what `op` put there. */
  ghost predicate Adds(d: Disk, d': Disk, op: Op) {
    && (forall p | HasPub(d', p) :: HasPub(d, p) || (op.RenameTmp? && IsLive(d) && LiveDir(d).tmp == Written(p, true)))
    && (forall k | LiveKey(d', k) :: LiveKey(d, k) || (op.WriteKey? && k.draw == d.nextDraw))
    && d.nextDraw <= d'.nextDraw
  }

  lemma SetDirKeeps(d: Disk, i: nat, dir: Dir)
    requires Shape(d) && i in d.dirs && GoodView(i, dir, d.nextDraw)
    ensures Shape(SetDir(d, i, dir))
    ensures forall p | HasPub(SetDir(d, i, dir), p) :: HasPub(d, p) || dir.pub == Written(p, true)
    ensures forall k | LiveKey(SetDir(d, i, dir), k) ::
              LiveKey(d, k) || dir.key == Written(k, true) || dir.key == Written(k, false)
  {
    var d' := SetDir(d, i, dir);
    forall j, v | j in d'.views && v in d'.views[j] ensures GoodView(j, v, d.nextDraw) {
      assert v == dir || v in d.views[j];
    }
  }

  lemma LiveFacts(d: Disk)
    requires Shape(d) && IsLive(d)
    ensures GoodView(d.root.live.value, LiveDir(d), d.nextDraw)
    ensures LiveDir(d) in d.views[d.root.live.value]
    ensures LiveDir(d).pub.Written? ==> HasPub(d, LiveDir(d).pub.data)
    ensures LiveDir(d).key.Written? ==> LiveKey(d, LiveDir(d).key.data)
  {
    var i := d.root.live.value;
    assert i in d.dirs && d.dirs[i] in d.views[i];
  }

  lemma RootEffectKeeps(d: Disk, op: Op)
    requires Shape(d) && Allowed(d, op)
    requires op.MkDir? || op.SyncRoot? || op.Bury? || op.RemoveTomb?
    ensures Shape(Effect(d, op)) && Adds(d, Effect(d, op), op)
  {
    var d' := Effect(d, op);
    forall i, v | i in d'.views && v in d'.views[i] ensures GoodView(i, v, d'.nextDraw) {
      assert v == EMPTY_DIR || (i in d.views && v in d.views[i]);
    }
    forall k | LiveKey(d', k) ensures LiveKey(d, k) {
      var r, v :| r in d'.roots && r.live.Some? && r.live.value in d'.views && v in d'.views[r.live.value]
                  && (v.key == Written(k, true) || v.key == Written(k, false));
      if op.RemoveTomb? && r !in d.roots { assert d.root in d.roots && d.root.live == r.live; }
    }
  }

  lemma DrawnKeeps(d: Disk, op: Op)
    requires Shape(d)
    ensures Shape(Drawn(d, op)) && IsLive(Drawn(d, op)) == IsLive(d) && d.nextDraw <= Drawn(d, op).nextDraw
    ensures forall p | HasPub(Drawn(d, op), p) :: HasPub(d, p)
    ensures forall k | LiveKey(Drawn(d, op), k) :: LiveKey(d, k)
  {
  }

  /** What a file call leaves in the directory is a good view, with no commit or key that is not accounted for. */
  lemma FileEffectGood(d: Disk, op: Op)
    requires Shape(d) && Allowed(d, op) && IsLive(d)
    ensures var (was, dir) := (LiveDir(d), FileEffect(LiveDir(d), op));
            && GoodView(d.root.live.value, dir, Drawn(d, op).nextDraw)
            && (dir.pub.Written? && dir.pub.synced ==> dir.pub == was.pub || (op.RenameTmp? && dir.pub == was.tmp))
            && (dir.key.Written? ==>
                  (was.key.Written? && was.key.data == dir.key.data)
                      || (op.WriteKey? && dir.key.data.draw == d.nextDraw))
  {
    LiveFacts(d);
    hide Shape, HasPub, LiveKey;
  }

  lemma FileEffectKeeps(d: Disk, op: Op)
    requires Shape(d) && Allowed(d, op)
    requires !op.MkDir? && !op.SyncRoot? && !op.Bury? && !op.RemoveTomb? && !op.SyncDir?
    ensures Shape(Effect(d, op)) && Adds(d, Effect(d, op), op)
  {
    hide Shape, HasPub, LiveKey, GoodView, Allowed, FileEffect;
    if IsLive(d) {
      var (was, dir, i) := (LiveDir(d), FileEffect(LiveDir(d), op), d.root.live.value);
      LiveFacts(d);
      DrawnKeeps(d, op);
      FileEffectGood(d, op);
      SetDirKeeps(Drawn(d, op), i, dir);
    }
  }

  lemma SyncDirKeeps(d: Disk)
    requires Shape(d)
    ensures Shape(Effect(d, SyncDir)) && Adds(d, Effect(d, SyncDir), SyncDir)
  {
    if IsLive(d) { LiveFacts(d); }
  }

  lemma PartlyKeeps(d: Disk, op: Op)
    requires Shape(d) && Allowed(d, op)
    ensures Shape(Partly(d, op)) && Adds(d, Partly(d, op), op)
  {
    match op
    case WriteTmp(_) =>
      if IsLive(d) {
        LiveFacts(d);
        SetDirKeeps(d, d.root.live.value, LiveDir(d).(tmp := Torn));
      }
    case RemoveTomb(t) => if t in d.views && d.root.live != Some(t) { SetDirKeeps(d, t, EMPTY_DIR); }
    case WriteKey(k) =>
      if IsLive(d) {
        var d1 := Drawn(d, op);
        assert Shape(d1);
        assert forall p | HasPub(d1, p) :: HasPub(d, p);
        assert forall k | LiveKey(d1, k) :: LiveKey(d, k);
      }
    case _ =>
  }

  lemma LeftView(d: Disk, left: Disk, i: nat, v: Dir) returns (w: Dir)
    requires Shape(d) && Leaves(d, left) && i in left.views && v in left.views[i]
    ensures i in d.views && w in d.views[i] && SettlesTo(w, v)
    ensures GoodView(i, w, d.nextDraw) && GoodView(i, v, d.nextDraw)
  {
    hide Settles;
    assert i in d.views && i in left.dirs;
    assert v == left.dirs[i];
    w :| w in d.views[i] && SettlesTo(w, v);
    assert GoodView(i, w, d.nextDraw);
    GoodSettles(i, w, v, d.nextDraw);
  }

  lemma GoodSettles(i: nat, w: Dir, v: Dir, nextDraw: nat)
    requires GoodView(i, w, nextDraw) && SettlesTo(w, v)
    ensures GoodView(i, v, nextDraw) && (v.pub.Written? ==> w.pub == v.pub)
    ensures v.key.Written? ==> w.key == Written(v.key.data, true) || w.key == Written(v.key.data, false)
  {
  }

  /** A crash shows a reader nothing that was not already one of the states it might leave. */
  lemma LeavesKeeps(d: Disk, left: Disk)
    requires Shape(d) && Leaves(d, left)
    ensures Shape(left) && left.nextDraw == d.nextDraw
    ensures forall p | HasPub(left, p) :: HasPub(d, p)
    ensures forall k | LiveKey(left, k) :: LiveKey(d, k)
  {
    hide GoodView, SettlesTo;
    forall i, v | i in left.views && v in left.views[i] ensures GoodView(i, v, left.nextDraw) {
      var w := LeftView(d, left, i, v);
    }
    forall k | LiveKey(left, k) ensures LiveKey(d, k) {
      var i := left.root.live.value;
      var v :| v in left.views[i] && (v.key == Written(k, true) || v.key == Written(k, false));
      var w := LeftView(d, left, i, v);
      GoodSettles(i, w, v, d.nextDraw);
      assert left.root in d.roots;
    }
    forall p | HasPub(left, p) ensures HasPub(d, p) {
      var i, v :| i in left.views && v in left.views[i] && v.pub == Written(p, true);
      var w := LeftView(d, left, i, v);
      GoodSettles(i, w, v, d.nextDraw);
    }
  }

  lemma EffectKeeps(d: Disk, op: Op)
    requires Shape(d) && Allowed(d, op)
    ensures Shape(Effect(d, op)) && Adds(d, Effect(d, op), op)
  {
    hide Shape, Adds, Effect, Allowed;
    if op.SyncDir? { SyncDirKeeps(d); }
    else if op.MkDir? || op.SyncRoot? || op.Bury? || op.RemoveTomb? { RootEffectKeeps(d, op); }
    else { FileEffectKeeps(d, op); }
  }

  /** Whatever the world does to a call, the store keeps its shape and a reader sees nothing new but
      what the call put there. */
  lemma CallKeeps(io: Io, op: Op)
    requires Shape(io.disk) && Allowed(io.disk, op)
    ensures Shape(Call(io, op).0.disk) && Adds(io.disk, Call(io, op).0.disk, op)
    ensures Call(io, op).1 ==> Call(io, op).0.disk == Effect(io.disk, op) && !Call(io, op).0.down
  {
    hide Shape, Effect, Partly, Allowed, Leaves, HasPub, LiveKey;
    EffectKeeps(io.disk, op);
    PartlyKeeps(io.disk, op);
    if !io.down && NextFault(io).Crashes? {
      var at := if NextFault(io).done then Effect(io.disk, op) else Partly(io.disk, op);
      RebootedLeaves(at);
      LeavesKeeps(at, if Leaves(at, NextFault(io).left) then NextFault(io).left else Rebooted(at));
    }
  }

  lemma RebootedLeaves(d: Disk)
    requires Shape(d)
    ensures Leaves(d, Rebooted(d))
  {
    hide GoodView, SettlesTo;
    var r := Rebooted(d);
    forall i | i in d.views && i in r.dirs
      ensures r.views[i] == {r.dirs[i]} && exists v | v in d.views[i] :: SettlesTo(v, r.dirs[i])
    {
      assert d.dirs[i] in d.views[i] && SettlesTo(d.dirs[i], r.dirs[i]) by { SettlesSame(d.dirs[i]); }
    }
  }

  lemma SettlesSame(dir: Dir)
    ensures SettlesTo(dir, dir)
  {
  }

  /** Nothing is still to be written back. */
  predicate AtRest(d: Disk) {
    d.roots == {d.root} && d.views.Keys == d.dirs.Keys && forall i | i in d.views :: d.views[i] == {d.dirs[i]}
  }

  /** After a crash everything that is found is on the disk. */
  lemma DownAtRest(io: Io, op: Op)
    requires Shape(io.disk) && Allowed(io.disk, op) && !io.down && Call(io, op).0.down
    ensures AtRest(Call(io, op).0.disk)
  {
    hide Effect, Partly, Allowed, HasPub, LiveKey, SettlesTo, GoodView;
    EffectKeeps(io.disk, op);
    PartlyKeeps(io.disk, op);
  }
}
