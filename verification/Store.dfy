/** The per-uid key store and its durable generation commit, one filesystem call at a time. */
module Store {
  import opened Text
  import opened Disk

  datatype StoreError = IoError | JsonError | Corrupt | GenRegression(have: nat, asked: nat)

  datatype Result<+T> = Ok(value: T) | Err(error: StoreError)

  // ------------------------------------------------------------ what is read

  /** The committed state, or `None` when this uid is not enrolled. */
  function Current(d: Disk): Result<Option<Public>> {
    if !IsLive(d) then Ok(None)
    else match LiveDir(d).pub case Missing => Ok(None) case Torn => Err(JsonError) case Written(p, _) => Ok(Some(p))
  }

  function SigningKey(d: Disk): Result<Key> {
    if !IsLive(d) then Err(IoError)
    else match LiveDir(d).key case Missing => Err(IoError) case Torn => Err(Corrupt) case Written(k, _) => Ok(k)
  }

  // ----------------------------------------------------- what each call does

  /** `write_public_durable`: written aside, synced, renamed into place, and the directory synced. */
  function WritePublic(io: Io, p: Public): (Io, Result<Public>) {
    var (io1, ok1) := Call(io, CreateTmp); if !ok1 then (io1, Err(IoError)) else
    var (io2, ok2) := Call(io1, WriteTmp(p)); if !ok2 then (io2, Err(IoError)) else
    var (io3, ok3) := Call(io2, SyncTmp); if !ok3 then (io3, Err(IoError)) else
    var (io4, ok4) := Call(io3, RenameTmp); if !ok4 then (io4, Err(IoError)) else
    var (io5, ok5) := Call(io4, SyncDir); if !ok5 then (io5, Err(IoError)) else
    (io5, Ok(p))
  }

  /** `read_or_create_key`, on a live directory: the key drawn now, or `None` when a key file exists. */
  function CreateKeyFile(io: Io): (Io, Result<Option<Key>>)
    requires IsLive(io.disk)
  {
    if !LiveDir(io.disk).key.Missing? then (io, Ok(None)) else
    var k := Key(io.disk.root.live.value, io.disk.nextDraw);
    var (io1, ok1) := Call(io, CreateKey); if !ok1 then (io1, Err(IoError)) else
    var (io2, ok2) := Call(io1, WriteKey(k)); if !ok2 then (io2, Err(IoError)) else
    var (io3, ok3) := Call(io2, SyncKey); if !ok3 then (io3, Err(IoError)) else
    var (io4, ok4) := Call(io3, SyncDir); if !ok4 then (io4, Err(IoError)) else
    (io4, Ok(Some(k)))
  }

  /** The committed state over a key that was already there; a key with none is refused. */
  function Committed(d: Disk): Result<Public> {
    match Current(d)
    case Err(e) => Err(e)
    case Ok(None) => Err(Corrupt)
    case Ok(Some(st)) =>
      match SigningKey(d) case Err(e) => Err(e) case Ok(k) => if st.key != k then Err(Corrupt) else Ok(st)
  }

  function EnsureEnrolled(io: Io, user: string): (Io, Result<Public>) {
    var (io1, ok1) := Call(io, MkDir); if !ok1 then (io1, Err(IoError)) else
    var (io2, ok2) := Call(io1, SyncRoot); if !ok2 then (io2, Err(IoError)) else
    if !IsLive(io2.disk) then (io2, Err(IoError)) else
    var (io3, key) := CreateKeyFile(io2);
    match key
    case Err(e) => (io3, Err(e))
    case Ok(Some(k)) => WritePublic(io3, Public(user, 0, k))
    case Ok(None) => (io3, Committed(io3.disk))
  }

  function PublishGen(io: Io, user: string, newGen: u64, key: Key): (Io, Result<Public>) {
    match Current(io.disk)
    case Err(e) => (io, Err(e))
    case Ok(None) => WritePublic(io, Public(user, newGen, key))
    case Ok(Some(st)) =>
      if newGen <= st.gen then (io, Err(GenRegression(st.gen, newGen)))
      else WritePublic(io, Public(user, newGen, key))
  }

  function RemoveTombs(io: Io, tombs: seq<nat>): (Io, bool)
    decreases |tombs|
  {
    if tombs == [] then (io, true)
    else
      var (io1, ok1) := Call(io, RemoveTomb(tombs[0])); if !ok1 then (io1, false) else
      RemoveTombs(io1, tombs[1..])
  }

  function Purge(io: Io): (Io, Result<()>) {
    var (io1, ok1) := if io.disk.root.live.Some? then Call(io, Bury) else (io, true);
    if !ok1 then (io1, Err(IoError)) else
    var (io2, ok2) := Call(io1, SyncRoot); if !ok2 then (io2, Err(IoError)) else
    var (io3, ok3) := RemoveTombs(io2, io2.disk.root.tombs); if !ok3 then (io3, Err(IoError)) else
    var (io4, ok4) := Call(io3, SyncRoot); if !ok4 then (io4, Err(IoError)) else
    (io4, Ok(()))
  }

  // ------------------------------------------------------------- the store

  class KeyStore {
    var io: Io

    constructor (io: Io)
      ensures this.io == io
    {
      this.io := io;
    }

    method Do(op: Op) returns (ok: bool)
      modifies this
      ensures (io, ok) == Call(old(io), op)
    {
      var (next, done) := Call(io, op);
      io := next;
      ok := done;
    }

    method WritePublicDurable(user: string, gen: u64, key: Key) returns (r: Result<Public>)
      modifies this
      ensures (io, r) == WritePublic(old(io), Public(user, gen, key))
    {
      hide Call;
      var st := Public(user, gen, key);
      var ok := Do(CreateTmp);
      if !ok { return Err(IoError); }
      ok := Do(WriteTmp(st));
      if !ok { return Err(IoError); }
      ok := Do(SyncTmp);
      if !ok { return Err(IoError); }
      ok := Do(RenameTmp);
      if !ok { return Err(IoError); }
      ok := Do(SyncDir);
      if !ok { return Err(IoError); }
      return Ok(st);
    }

    method ReadOrCreateKey() returns (r: Result<Option<Key>>)
      requires IsLive(io.disk)
      modifies this
      ensures (io, r) == CreateKeyFile(old(io))
    {
      hide Call;
      if !LiveDir(io.disk).key.Missing? { return Ok(None); }
      var k := Key(io.disk.root.live.value, io.disk.nextDraw);
      var ok := Do(CreateKey);
      if !ok { return Err(IoError); }
      ok := Do(WriteKey(k));
      if !ok { return Err(IoError); }
      ok := Do(SyncKey);
      if !ok { return Err(IoError); }
      ok := Do(SyncDir);
      if !ok { return Err(IoError); }
      return Ok(Some(k));
    }

    method Enroll(user: string) returns (r: Result<Public>)
      modifies this
      ensures (io, r) == EnsureEnrolled(old(io), user)
    {
      hide Call, CreateKeyFile, WritePublic, IsLive;
      var ok := Do(MkDir);
      if !ok { return Err(IoError); }
      ok := Do(SyncRoot);
      if !ok { return Err(IoError); }
      if !IsLive(io.disk) { return Err(IoError); }
      var key := ReadOrCreateKey();
      match key {
        case Err(e) => r := Err(e);
        case Ok(Some(k)) => r := WritePublicDurable(user, 0, k);
        case Ok(None) => r := Committed(io.disk);
      }
    }

    method Publish(user: string, newGen: u64, key: Key) returns (r: Result<Public>)
      modifies this
      ensures (io, r) == PublishGen(old(io), user, newGen, key)
    {
      hide WritePublic;
      match Current(io.disk) {
        case Err(e) => return Err(e);
        case Ok(None) =>
        case Ok(Some(st)) => if newGen <= st.gen { return Err(GenRegression(st.gen, newGen)); }
      }
      r := WritePublicDurable(user, newGen, key);
    }

    method Revoke() returns (r: Result<()>)
      modifies this
      ensures (io, r) == Purge(old(io))
    {
      hide Call;
      var ok := true;
      if io.disk.root.live.Some? { ok := Do(Bury); }
      if !ok { return Err(IoError); }
      ok := Do(SyncRoot);
      if !ok { return Err(IoError); }
      var tombs := io.disk.root.tombs;
      ghost var start := io;
      for i := 0 to |tombs|
        invariant RemoveTombs(start, tombs) == RemoveTombs(io, tombs[i..])
      {
        assert tombs[i..][1..] == tombs[i + 1..];
        ok := Do(RemoveTomb(tombs[i]));
        if !ok { return Err(IoError); }
      }
      ok := Do(SyncRoot);
      if !ok { return Err(IoError); }
      return Ok(());
    }
  }

  // --------------------------------------------------------- what is kept

  /** Between two states of the store: the shape is kept, and a reader, now or after any crash, finds
      only what it could find before, except the commits in `pubs` and keys drawn in between. */
  ghost predicate Keeps(d: Disk, d': Disk, pubs: set<Public>) {
    && Shape(d')
    && (forall p | HasPub(d', p) :: HasPub(d, p) || p in pubs)
    && (forall k | LiveKey(d', k) :: LiveKey(d, k) || k.draw >= d.nextDraw)
    && d.nextDraw <= d'.nextDraw
  }

  lemma CallStep(io: Io, op: Op)
    requires Shape(io.disk) && Allowed(io.disk, op)
    ensures Keeps(io.disk, Call(io, op).0.disk,
                  if op.RenameTmp? && IsLive(io.disk) && LiveDir(io.disk).tmp.Written?
                  then {LiveDir(io.disk).tmp.data} else {})
    ensures Call(io, op).1 ==> Call(io, op).0.disk == Effect(io.disk, op) && !Call(io, op).0.down
  {
    hide Shape, Allowed, HasPub, LiveKey, Call, Effect;
    CallKeeps(io, op);
  }

  lemma KeepsTrans(a: Disk, b: Disk, c: Disk, x: set<Public>, y: set<Public>, z: set<Public>)
    requires Keeps(a, b, x) && Keeps(b, c, y) && x <= z && y <= z
    ensures Keeps(a, c, z)
  {
    hide Shape, HasPub, LiveKey;
  }

  /** The live directory's only view is what running code sees: synced. */
  predicate Settled(d: Disk) { IsLive(d) && d.views[d.root.live.value] == {LiveDir(d)} }

  /** A call on a file of the live directory: what it keeps, and the directory after it. */
  lemma FileStep(io: Io, op: Op)
    requires Shape(io.disk) && IsLive(io.disk) && Allowed(io.disk, op)
    requires !op.MkDir? && !op.SyncRoot? && !op.Bury? && !op.RemoveTomb?
    ensures Keeps(io.disk, Call(io, op).0.disk, if op.RenameTmp? then {LiveDir(io.disk).tmp.data} else {})
    ensures Call(io, op).1 ==>
              var d := Call(io, op).0.disk;
              !Call(io, op).0.down && IsLive(d) && d.root == io.disk.root && d.roots == io.disk.roots
              && LiveDir(d) == FileEffect(LiveDir(io.disk), op) && (op.SyncDir? ==> Settled(d))
  {
    CallStep(io, op);
    hide Shape, HasPub, LiveKey, Call;
  }

  lemma WriteTmpKeeps(io: Io, p: Public)
    requires Shape(io.disk) && IsLive(io.disk)
    ensures var (io1, ok1) := Call(io, CreateTmp);
            var (io2, ok2) := Call(io1, WriteTmp(p));
            var (io3, ok3) := Call(io2, SyncTmp);
            && Keeps(io.disk, io1.disk, {})
            && (ok1 ==> Keeps(io.disk, io2.disk, {}))
            && (ok1 && ok2 ==> Keeps(io.disk, io3.disk, {}))
            && (ok1 && ok2 && ok3 ==> !io3.down && IsLive(io3.disk) && io3.disk.root == io.disk.root
                                      && io3.disk.roots == io.disk.roots
                                      && LiveDir(io3.disk) == LiveDir(io.disk).(tmp := Written(p, true)))
  {
    hide Shape, HasPub, LiveKey, Call, IsLive, Effect, Keeps;
    var (io1, ok1) := Call(io, CreateTmp);
    FileStep(io, CreateTmp);
    if ok1 {
      var (io2, ok2) := Call(io1, WriteTmp(p));
      ShapeOf(io.disk, io1.disk, {});
      FileStep(io1, WriteTmp(p));
      KeepsTrans(io.disk, io1.disk, io2.disk, {}, {}, {});
      if ok2 {
        ShapeOf(io.disk, io2.disk, {});
        FileStep(io2, SyncTmp);
        KeepsTrans(io.disk, io2.disk, Call(io2, SyncTmp).0.disk, {}, {}, {});
      }
    }
  }

  lemma ShapeOf(d: Disk, d': Disk, pubs: set<Public>)
    requires Keeps(d, d', pubs)
    ensures Shape(d')
  {
  }

  /** A commit, whatever interrupts it: a reader finds the old state or the new one, and once it
      returns only the new one, crash or no crash. */
  lemma WritePublicKeeps(io: Io, p: Public)
    requires Shape(io.disk) && IsLive(io.disk) && LiveDir(io.disk).key == Written(p.key, true)
    ensures var (io', r) := WritePublic(io, p);
            Keeps(io.disk, io'.disk, {p})
            && (r.Ok? ==> r == Ok(p) && !io'.down && io'.disk.root == io.disk.root && io'.disk.roots == io.disk.roots
                          && Settled(io'.disk) && LiveDir(io'.disk) ==
                            Dir(Written(p.key, true), Written(p, true), Missing))
  {
    hide Shape, HasPub, LiveKey, Call, IsLive, Effect;
    WriteTmpKeeps(io, p);
    var (io1, ok1) := Call(io, CreateTmp);
    var (io2, ok2) := Call(io1, WriteTmp(p));
    var (io3, ok3) := Call(io2, SyncTmp);
    if ok1 && ok2 && ok3 {
      FileStep(io3, RenameTmp);
      var (io4, ok4) := Call(io3, RenameTmp);
      KeepsTrans(io.disk, io3.disk, io4.disk, {}, {p}, {p});
      if ok4 {
        FileStep(io4, SyncDir);
        KeepsTrans(io.disk, io4.disk, Call(io4, SyncDir).0.disk, {p}, {}, {p});
      }
    }
  }

  /** A key already there is accepted exactly with a committed state of its own: whatever else is on disk, a key
      without one, or with another's, is refused. */
  lemma CommittedExact(d: Disk, st: Public)
    ensures Committed(d) == Ok(st) <==> Current(d) == Ok(Some(st)) && SigningKey(d) == Ok(st.key)
    ensures Current(d) == Ok(None) ==> Committed(d) == Err(Corrupt)
    ensures Current(d) == Ok(Some(st)) && SigningKey(d).Ok? && SigningKey(d) != Ok(st.key) ==>
              Committed(d) == Err(Corrupt)
  {
  }

  /** A key is drawn only where there is none, and is in place for good, crash or no crash, before anything is
      committed for it. */
  lemma CreateKeyKeeps(io: Io)
    requires Shape(io.disk) && IsLive(io.disk)
    ensures var (io', r) := CreateKeyFile(io);
            && Keeps(io.disk, io'.disk, {})
            && (r == Ok(None) ==> io' == io && !LiveDir(io.disk).key.Missing?)
            && (r.Ok? && r.value.Some? ==>
                  LiveDir(io.disk).key.Missing?
                  && r.value.value.draw == io.disk.nextDraw && !io'.down && IsLive(io'.disk)
                  && io'.disk.root == io.disk.root && io'.disk.roots == io.disk.roots
                  && LiveDir(io'.disk).key == Written(r.value.value, true) && Settled(io'.disk))
  {
    hide Shape, HasPub, LiveKey, Call, Effect, Keeps;
    KeepsRefl(io.disk);
    if LiveDir(io.disk).key.Missing? {
      var k := Key(io.disk.root.live.value, io.disk.nextDraw);
      var (io1, ok1) := Call(io, CreateKey);
      FileStep(io, CreateKey);
      if ok1 {
        SameDraw(io, CreateKey);
        ShapeOf(io.disk, io1.disk, {});
        var (io2, ok2) := Call(io1, WriteKey(k));
        FileStep(io1, WriteKey(k));
        KeepsTrans(io.disk, io1.disk, io2.disk, {}, {}, {});
        if ok2 {
          ShapeOf(io.disk, io2.disk, {});
          var (io3, ok3) := Call(io2, SyncKey);
          FileStep(io2, SyncKey);
          KeepsTrans(io.disk, io2.disk, io3.disk, {}, {}, {});
          if ok3 {
            ShapeOf(io.disk, io3.disk, {});
            FileStep(io3, SyncDir);
            KeepsTrans(io.disk, io3.disk, Call(io3, SyncDir).0.disk, {}, {}, {});
          }
        }
      }
    }
  }

  lemma KeepsRefl(d: Disk)
    requires Shape(d)
    ensures Keeps(d, d, {})
  {
    hide Shape, HasPub, LiveKey;
  }

  lemma SameDraw(io: Io, op: Op)
    requires Call(io, op).1 && !op.WriteKey?
    ensures Call(io, op).0.disk.nextDraw == io.disk.nextDraw
  {
  }

  lemma MkDirStep(io: Io)
    requires Shape(io.disk)
    ensures Keeps(io.disk, Call(io, MkDir).0.disk, {})
    ensures Call(io, MkDir).1 ==> IsLive(Call(io, MkDir).0.disk) && !Call(io, MkDir).0.down
    ensures Call(io, MkDir).1 ==>
              Current(Call(io, MkDir).0.disk) == Current(io.disk)
              && Call(io, MkDir).0.disk.nextDraw == io.disk.nextDraw
  {
    CallStep(io, MkDir);
  }

  lemma SyncRootStep(io: Io)
    requires Shape(io.disk)
    ensures Keeps(io.disk, Call(io, SyncRoot).0.disk, {})
    ensures Call(io, SyncRoot).1 ==>
              !Call(io, SyncRoot).0.down && Call(io, SyncRoot).0.disk == io.disk.(roots := {io.disk.root})
  {
    CallStep(io, SyncRoot);
  }

  /** What a uid's enrollment amounts to once `EnsureEnrolled` returns it. */
  ghost predicate Enrolled(d: Disk, st: Public) {
    && Shape(d) && IsLive(d) && d.roots == {d.root}
    && LiveDir(d).key == Written(st.key, true) && LiveDir(d).pub == Written(st, true)
  }

  /** First use draws a new key and commits generation 0 for it; any other call finds the committed
      state exactly as it was. A key left without one by a crash is refused, never re-committed. */
  lemma EnsureKeeps(io: Io, user: string)
    requires Shape(io.disk)
    ensures var (io', r) := EnsureEnrolled(io, user);
            && (forall p | HasPub(io'.disk, p) :: HasPub(io.disk, p) || (p.gen == 0 && p.key.draw == io.disk.nextDraw))
            && (forall k | LiveKey(io'.disk, k) :: LiveKey(io.disk, k) || k.draw >= io.disk.nextDraw)
            && Shape(io'.disk) && io.disk.nextDraw <= io'.disk.nextDraw
            && (r.Ok? ==> !io'.down && Enrolled(io'.disk, r.value)
                          && (Current(io.disk) == Ok(Some(r.value))
                              || (Current(io.disk) == Ok(None) && r.value.gen == 0
                                  && r.value.key.draw == io.disk.nextDraw)))
  {
    hide Shape, HasPub, LiveKey, Call, Effect, CreateKeyFile, WritePublic;
    MkDirStep(io);
    var (io1, ok1) := Call(io, MkDir);
    if ok1 {
      ShapeOf(io.disk, io1.disk, {});
      SyncRootStep(io1);
      var (io2, ok2) := Call(io1, SyncRoot);
      KeepsTrans(io.disk, io1.disk, io2.disk, {}, {}, {});
      if ok2 {
        ShapeOf(io.disk, io2.disk, {});
        CreateKeyKeeps(io2);
        var (io3, key) := CreateKeyFile(io2);
        KeepsTrans(io.disk, io2.disk, io3.disk, {}, {}, {});
        match key
        case Err(_) =>
        case Ok(None) => LivePub(io3.disk);
        case Ok(Some(k)) =>
          LivePub(io2.disk);
          var p := Public(user, 0, k);
          WritePublicKeeps(io3, p);
          KeepsTrans(io.disk, io3.disk, WritePublic(io3, p).0.disk, {}, {p}, {p});
      }
    }
  }

  lemma LivePub(d: Disk)
    requires Shape(d) && IsLive(d)
    ensures GoodView(d.root.live.value, LiveDir(d), d.nextDraw)
  {
    LiveFacts(d);
  }

  lemma PublishKeeps(io: Io, user: string, newGen: u64, key: Key)
    requires Shape(io.disk) && IsLive(io.disk) && LiveDir(io.disk).key == Written(key, true)
    ensures var p := Public(user, newGen, key);
            var (io', r) := PublishGen(io, user, newGen, key);
            && Keeps(io.disk, io'.disk, {p})
            && (r.Ok? || io' != io ==> match Current(io.disk)
                          case Ok(Some(st)) => newGen > st.gen case _ => true)
            && (r.Ok? ==> r == Ok(p) && !io'.down && io'.disk.root == io.disk.root && io'.disk.roots == io.disk.roots
                          && Settled(io'.disk) && LiveDir(io'.disk) ==
                            Dir(Written(key, true), Written(p, true), Missing))
  {
    hide Shape, HasPub, LiveKey, Call, WritePublic;
    KeepsRefl(io.disk);
    WritePublicKeeps(io, Public(user, newGen, key));
  }

  // ------------------------------------------------------------ when nothing goes wrong

  /** No fault is to come. */
  predicate Calm(io: Io) { !io.down && io.script == [] }

  lemma CalmCall(io: Io, op: Op)
    requires Calm(io)
    ensures Call(io, op).1 && Calm(Call(io, op).0) && Call(io, op).0.disk == Effect(io.disk, op)
  {
    hide Effect;
  }

  lemma CalmWrite(io: Io, p: Public)
    requires Calm(io)
    ensures WritePublic(io, p).1 == Ok(p) && Calm(WritePublic(io, p).0)
  {
    hide Call, Calm;
    CalmCall(io, CreateTmp);
    var io1 := Call(io, CreateTmp).0;
    CalmCall(io1, WriteTmp(p));
    var io2 := Call(io1, WriteTmp(p)).0;
    CalmCall(io2, SyncTmp);
    var io3 := Call(io2, SyncTmp).0;
    CalmCall(io3, RenameTmp);
    CalmCall(Call(io3, RenameTmp).0, SyncDir);
  }

  lemma CalmKey(io: Io)
    requires Calm(io) && IsLive(io.disk)
    ensures CreateKeyFile(io).1.Ok? && Calm(CreateKeyFile(io).0)
    ensures CreateKeyFile(io).1.value.Some? <==> LiveDir(io.disk).key.Missing?
    ensures !LiveDir(io.disk).key.Missing? ==> CreateKeyFile(io).0 == io
  {
    hide Call, Calm, LiveDir;
    if LiveDir(io.disk).key.Missing? {
      var k := Key(io.disk.root.live.value, io.disk.nextDraw);
      CalmCall(io, CreateKey);
      var io1 := Call(io, CreateKey).0;
      CalmCall(io1, WriteKey(k));
      var io2 := Call(io1, WriteKey(k)).0;
      CalmCall(io2, SyncKey);
      CalmCall(Call(io2, SyncKey).0, SyncDir);
    }
  }

  /** What a crash in the middle of a first enrollment leaves: a key, and nothing committed over it. */
  predicate HalfEnrolled(d: Disk) { IsLive(d) && !LiveDir(d).key.Missing? && LiveDir(d).pub.Missing? }

  /** With no fault, enrolling works exactly unless a first enrollment was cut short; that needs a purge. */
  lemma EnrollWorks(io: Io, user: string)
    requires Shape(io.disk) && Calm(io)
    ensures EnsureEnrolled(io, user).1.Ok? <==> !HalfEnrolled(io.disk)
    ensures Calm(EnsureEnrolled(io, user).0)
  {
    hide Call, Calm, CreateKeyFile, WritePublic, Committed;
    CalmCall(io, MkDir);
    var io1 := Call(io, MkDir).0;
    CalmCall(io1, SyncRoot);
    var io2 := Call(io1, SyncRoot).0;
    MadeDir(io.disk);
    CalmKey(io2);
    var (io3, key) := CreateKeyFile(io2);
    match key
    case Ok(Some(k)) => CalmWrite(io3, Public(user, 0, k));
    case Ok(None) => WholeIsCommitted(io.disk, io3.disk);
    case Err(_) =>
  }

  lemma MadeDir(d: Disk)
    requires Shape(d)
    ensures var e := Effect(Effect(d, MkDir), SyncRoot);
            IsLive(e) && (IsLive(d) ==> LiveDir(e) == LiveDir(d)) && (!IsLive(d) ==> LiveDir(e).key.Missing?)
  {
    hide GoodView;
  }

  lemma WholeIsCommitted(d: Disk, e: Disk)
    requires Shape(d) && IsLive(d) && IsLive(e) && LiveDir(e) == LiveDir(d) && !LiveDir(d).key.Missing?
    ensures Committed(e).Ok? <==> !HalfEnrolled(d)
  {
    hide Shape;
    LivePub(d);
  }

  lemma {:induction false} CalmRemove(io: Io, tombs: seq<nat>)
    requires Calm(io)
    ensures RemoveTombs(io, tombs).1 && Calm(RemoveTombs(io, tombs).0)
    decreases |tombs|
  {
    hide Call, Calm;
    if tombs != [] {
      CalmCall(io, RemoveTomb(tombs[0]));
      CalmRemove(Call(io, RemoveTomb(tombs[0])).0, tombs[1..]);
    }
  }

  /** With no fault, a purge works from any state, however often it was cut short before. */
  lemma PurgeWorks(io: Io)
    requires Calm(io)
    ensures Purge(io).1.Ok?
  {
    hide Call, Calm, RemoveTombs;
    CalmCall(io, Bury);
    var io1 := if io.disk.root.live.Some? then Call(io, Bury).0 else io;
    CalmCall(io1, SyncRoot);
    var io2 := Call(io1, SyncRoot).0;
    CalmRemove(io2, io2.disk.root.tombs);
    CalmCall(RemoveTombs(io2, io2.disk.root.tombs).0, SyncRoot);
  }

  // --------------------------------------------------------------- revocation

  /** No state a crash may leave has a live directory. */
  predicate Dead(d: Disk) { forall r | r in d.roots :: r.live.None? }

  lemma {:induction false} RemoveTombsKeeps(io: Io, tombs: seq<nat>)
    requires Shape(io.disk) && Dead(io.disk)
    ensures var (io', ok) := RemoveTombs(io, tombs);
            && Keeps(io.disk, io'.disk, {}) && (ok && tombs != [] ==> !io'.down)
            && (ok ==> Dead(io'.disk)
                       && forall t :: t in io'.disk.root.tombs ==> t in io.disk.root.tombs && t !in tombs)
    decreases |tombs|
  {
    KeepsRefl(io.disk);
    if tombs != [] {
      var op := RemoveTomb(tombs[0]);
      var (io1, ok1) := Call(io, op);
      CallStep(io, op);
      if ok1 {
        WithoutExact(io.disk.root.tombs, tombs[0]);
        hide Shape, HasPub, LiveKey, Call;
        RemoveTombsKeeps(io1, tombs[1..]);
        KeepsTrans(io.disk, io1.disk, RemoveTombs(io1, tombs[1..]).0.disk, {}, {}, {});
      }
    }
  }

  lemma {:induction false} WithoutExact(s: seq<nat>, x: nat)
    ensures forall y :: y in Without(s, x) <==> y in s && y != x
  {
    if s != [] {
      WithoutExact(s[1..], x);
      assert s == [s[0]] + s[1..];
    }
  }

  lemma BuryStep(io: Io)
    requires Shape(io.disk) && io.disk.root.live.Some?
    ensures Keeps(io.disk, Call(io, Bury).0.disk, {})
    ensures Call(io, Bury).1 ==> Call(io, Bury).0.disk.root.live.None? && !Call(io, Bury).0.down
  {
    CallStep(io, Bury);
  }

  /** Purge succeeds only once the uid has nothing left, in any state a crash may leave: no live
      directory and no tombstone. */
  lemma PurgeKeeps(io: Io)
    requires Shape(io.disk)
    ensures var (io', r) := Purge(io);
            && Keeps(io.disk, io'.disk, {})
            && (r.Ok? ==> !io'.down && io'.disk.roots == {Root(None, [])} && io'.disk.root == Root(None, []))
  {
    hide Shape, HasPub, LiveKey, Call, RemoveTombs;
    KeepsRefl(io.disk);
    if io.disk.root.live.Some? { BuryStep(io); }
    var (io1, ok1) := if io.disk.root.live.Some? then Call(io, Bury) else (io, true);
    if ok1 {
      ShapeOf(io.disk, io1.disk, {});
      SyncRootStep(io1);
      var (io2, ok2) := Call(io1, SyncRoot);
      KeepsTrans(io.disk, io1.disk, io2.disk, {}, {}, {});
      if ok2 {
        ShapeOf(io.disk, io2.disk, {});
        RemoveTombsKeeps(io2, io2.disk.root.tombs);
        var (io3, ok3) := RemoveTombs(io2, io2.disk.root.tombs);
        KeepsTrans(io.disk, io2.disk, io3.disk, {}, {}, {});
        if ok3 {
          ShapeOf(io.disk, io3.disk, {});
          SyncRootStep(io3);
          KeepsTrans(io.disk, io3.disk, Call(io3, SyncRoot).0.disk, {}, {}, {});
          RootIn(io3.disk);
          NoneLeft(io3.disk.root.tombs, io2.disk.root.tombs);
        }
      }
    }
  }

  lemma RootIn(d: Disk)
    requires Shape(d)
    ensures d.root in d.roots
  {
  }

  lemma HasFirst(s: seq<nat>)
    requires s != []
    ensures exists t :: t in s
  {
    assert s[0] in s;
  }

  lemma NoneLeft(left: seq<nat>, tombs: seq<nat>)
    requires forall t :: t in left ==> t in tombs && t !in tombs
    ensures left == []
  {
    if left != [] { HasFirst(left); }
  }

  // ------------------------------------------------- what is not acknowledged may be lost

  /** The same directories in the same places, and at least the views there were. */
  predicate Grown(d: Disk, d': Disk) {
    && IsLive(d) && IsLive(d') && d'.root == d.root && d'.roots == d.roots
    && d'.nextDir == d.nextDir && d'.nextDraw == d.nextDraw
    && d'.dirs.Keys == d.dirs.Keys && d'.views.Keys == d.views.Keys
    && d.views[d.root.live.value] <= d'.views[d.root.live.value]
  }

  lemma GrownTrans(a: Disk, b: Disk, c: Disk)
    requires Grown(a, b) && Grown(b, c)
    ensures Grown(a, c)
  {
  }

  lemma GrownSame(d: Disk)
    requires IsLive(d)
    ensures Grown(d, d)
  {
  }

  /** A call on a file of the live directory: it succeeds, and what the directory was can still be found
      after a crash; or it fails, and what is committed is as it was; or the machine goes down. */
  lemma FileCases(io: Io, op: Op)
    requires Shape(io.disk) && IsLive(io.disk) && Allowed(io.disk, op) && !io.down
    requires op.CreateTmp? || op.WriteTmp? || op.SyncTmp? || op.RenameTmp?
    ensures var (io', ok) := Call(io, op);
            && Shape(io'.disk) && (ok ==> NextFault(io) == Fine && !io'.down) && (io'.down ==> AtRest(io'.disk))
            && (!io'.down ==> io'.script == Rest(io) && Grown(io.disk, io'.disk))
            && (ok ==> LiveDir(io'.disk) == FileEffect(LiveDir(io.disk), op))
            && (!ok && !io'.down ==> LiveDir(io'.disk).pub == LiveDir(io.disk).pub)
  {
    hide Shape, Allowed, HasPub, LiveKey, AtRest, Leaves;
    CallKeeps(io, op);
    if Call(io, op).0.down { DownAtRest(io, op); }
  }

  lemma SyncCases(io: Io)
    requires Shape(io.disk) && IsLive(io.disk) && !io.down
    ensures var (io', ok) := Call(io, SyncDir);
            && Shape(io'.disk) && (io'.down ==> AtRest(io'.disk))
            && (ok ==> NextFault(io) == Fine && !io'.down && IsLive(io'.disk) && Settled(io'.disk)
                       && io'.disk.roots == io.disk.roots && io'.disk.root == io.disk.root)
            && (!ok && !io'.down ==> io'.disk == io.disk && NextFault(io).Fails?)
  {
    hide Shape, Allowed, HasPub, LiveKey, AtRest, Leaves;
    assert Allowed(io.disk, SyncDir) by { AnySync(io.disk); }
    CallKeeps(io, SyncDir);
    if Call(io, SyncDir).0.down { DownAtRest(io, SyncDir); }
  }

  lemma AnySync(d: Disk)
    ensures Allowed(d, SyncDir)
  {
  }

  /** How a commit over the enrolled store `d` ends: at rest after a crash, synced after success, and otherwise with
      what was there before still to be found. */
  predicate WriteEnds(d: Disk, io': Io, r: Result<Public>) {
    && (io'.down ==> AtRest(io'.disk))
    && (!io'.down && r.Ok? ==> Settled(io'.disk) && io'.disk.roots == {io'.disk.root})
    && (!io'.down && r.Err? ==> Grown(d, io'.disk))
  }

  lemma WriteCases(io: Io, was: Public, now: Public)
    requires Enrolled(io.disk, was) && !io.down && now.key == was.key
    ensures Shape(WritePublic(io, now).0.disk) && WriteEnds(io.disk, WritePublic(io, now).0, WritePublic(io, now).1)
  {
    hide Shape, Call, AtRest, Settled, Grown, Effect;
    GrownSame(io.disk);
    var (io1, ok1) := Call(io, CreateTmp);
    FileCases(io, CreateTmp);
    if ok1 {
      var (io2, ok2) := Call(io1, WriteTmp(now));
      GrownLive(io.disk, io1.disk);
      FileCases(io1, WriteTmp(now));
      if !io2.down { GrownTrans(io.disk, io1.disk, io2.disk); GrownLive(io.disk, io2.disk); }
      if ok2 {
        var (io3, ok3) := Call(io2, SyncTmp);
        FileCases(io2, SyncTmp);
        if !io3.down { GrownTrans(io.disk, io2.disk, io3.disk); GrownLive(io.disk, io3.disk); }
        if ok3 { RenameCases(io, io3, was, now); }
      }
    }
  }

  lemma RenameCases(io: Io, io3: Io, was: Public, now: Public)
    requires Enrolled(io.disk, was) && Shape(io3.disk) && Grown(io.disk, io3.disk) && !io3.down && now.key == was.key
    requires LiveDir(io3.disk) == Dir(Written(was.key, true), Written(was, true), Written(now, true))
    ensures var (io4, ok4) := Call(io3, RenameTmp);
            if !ok4 then Shape(io4.disk) && WriteEnds(io.disk, io4, Err(IoError))
            else
              var (io5, ok5) := Call(io4, SyncDir);
              Shape(io5.disk) && WriteEnds(io.disk, io5, if ok5 then Ok(now) else Err(IoError))
  {
    hide Shape, Call, AtRest, Settled, Effect;
    var (io4, ok4) := Call(io3, RenameTmp);
    FileCases(io3, RenameTmp);
    if !io4.down { GrownTrans(io.disk, io3.disk, io4.disk); }
    if ok4 { SyncCases(io4); }
  }

  lemma GrownLive(d: Disk, d': Disk)
    requires Grown(d, d')
    ensures IsLive(d')
  {
  }

  lemma RestStays(d: Disk, left: Disk, p: Public)
    requires Shape(d) && Leaves(d, left) && Current(d) == Ok(Some(p)) && IsLive(d)
    requires d.roots == {d.root} && d.views[d.root.live.value] == {LiveDir(d)}
    ensures Current(left) == Ok(Some(p))
  {
    LiveFacts(d);
    var i := d.root.live.value;
    assert i in left.dirs;
  }

  /** What was in the live directory before can come back. */
  lemma OldViewLeft(d0: Disk, d: Disk) returns (left: Disk)
    requires Shape(d0) && Shape(d) && Grown(d0, d)
    ensures Leaves(d, left) && IsLive(left) && LiveDir(left) == LiveDir(d0)
  {
    hide SettlesTo, GoodView;
    var i := d.root.live.value;
    var dirs := d.dirs[i := LiveDir(d0)];
    left := Disk(d.root, {d.root}, dirs, map j | j in dirs :: {dirs[j]}, d.nextDir, d.nextDraw);
    assert dirs.Keys == d.dirs.Keys && LiveDir(d0) in d.views[i];
    forall j | j in d.views && j in left.dirs
      ensures left.views[j] == {left.dirs[j]} && exists v | v in d.views[j] :: SettlesTo(v, left.dirs[j])
    {
      SettlesSame(left.dirs[j]);
      assert left.dirs[j] in d.views[j];
    }
  }

  lemma CurrentIs(d: Disk, p: Public)
    ensures Current(d) == Ok(Some(p)) ==> IsLive(d) && LiveDir(d).pub.Written? && LiveDir(d).pub.data == p
    ensures IsLive(d) && LiveDir(d).pub == Written(p, true) ==> Current(d) == Ok(Some(p))
  {
  }

  /** A crash now can leave something else than what can be read now. */
  ghost predicate MayFall(d: Disk, now: Public) { exists left :: Leaves(d, left) && Current(left) != Ok(Some(now)) }

  /** The new generation's file is written and renamed into place, and then the directory's sync fails. */
  predicate OnlyDirSyncFails(script: seq<Fault>) {
    |script| >= 5 && (forall k | 0 <= k < 4 :: script[k].Fine?) && script[4].Fails?
  }

  /** A commit on any enrolled store, against any faults: what it put there can be read and yet be lost in a
      crash exactly when all its calls succeed but the directory's sync, and that fails without the machine
      going down; what was committed before can then come back. */
  lemma FallsExactly(io: Io, was: Public, now: Public)
    requires Enrolled(io.disk, was) && !io.down && now.key == was.key && now.gen > was.gen
    ensures var (io', r) := PublishGen(io, now.user, now.gen, now.key);
            && (Current(io'.disk) == Ok(Some(now)) && MayFall(io'.disk, now) <==> OnlyDirSyncFails(io.script))
            && (OnlyDirSyncFails(io.script) ==>
                  r.Err? && !io'.down && exists left :: Leaves(io'.disk, left) && Current(left) == Ok(Some(was)))
  {
    hide Shape, Call, WritePublic, AtRest, Settled, Grown, Leaves, WriteEnds, OnlyDirSyncFails, MayFall;
    assert now == Public(now.user, now.gen, now.key);
    var (io', r) := PublishGen(io, now.user, now.gen, now.key);
    WriteCases(io, was, now);
    if OnlyDirSyncFails(io.script) {
      RenamedNotSynced(io, now);
      CurrentIs(io'.disk, now);
      WriteEndsGrown(io.disk, io', r);
      var left := OldViewLeft(io.disk, io'.disk);
      CurrentIs(left, was);
      FallsTo(io'.disk, now, left);
    } else if Current(io'.disk) == Ok(Some(now)) {
      if !io'.down && r.Err? { SyncFailed(io, was, now); }
      forall left | Leaves(io'.disk, left) ensures Current(left) == Ok(Some(now)) {
        WriteEndsStay(io.disk, now, io', r, left);
      }
      NeverFalls(io'.disk, now);
    }
  }

  lemma FallsTo(d: Disk, now: Public, left: Disk)
    requires Leaves(d, left) && Current(left) != Ok(Some(now))
    ensures MayFall(d, now)
  {
  }

  lemma NeverFalls(d: Disk, now: Public)
    requires forall left | Leaves(d, left) :: Current(left) == Ok(Some(now))
    ensures !MayFall(d, now)
  {
  }

  /** A call before the directory's sync: either it succeeds, or what was committed is what can be read. */
  lemma CommitStep(io: Io, op: Op, was: Public, now: Public)
    requires Shape(io.disk) && IsLive(io.disk) && Allowed(io.disk, op) && !io.down && now != was
    requires op.CreateTmp? || op.WriteTmp? || op.SyncTmp? || op.RenameTmp?
    requires LiveDir(io.disk).pub == Written(was, true)
    ensures var (io', ok) := Call(io, op);
            && (ok ==> NextFault(io) == Fine && !io'.down && io'.script == Rest(io) && Shape(io'.disk)
                       && IsLive(io'.disk) && LiveDir(io'.disk) == FileEffect(LiveDir(io.disk), op))
            && (!ok && !io'.down ==> Current(io'.disk) != Ok(Some(now)))
  {
    hide Shape, Call, Allowed, AtRest;
    FileCases(io, op);
    var (io', ok) := Call(io, op);
    if !io'.down { CurrentIs(io'.disk, now); }
  }

  /** A commit that failed and can be read failed in its last call. */
  lemma SyncFailed(io: Io, was: Public, now: Public)
    requires Enrolled(io.disk, was) && !io.down && now.key == was.key && now != was
    requires WritePublic(io, now).1.Err? && !WritePublic(io, now).0.down
    requires Current(WritePublic(io, now).0.disk) == Ok(Some(now))
    ensures OnlyDirSyncFails(io.script)
  {
    hide Shape, Call, Effect, Grown, AtRest;
    var (io1, ok1) := Call(io, CreateTmp);
    CommitStep(io, CreateTmp, was, now);
    var (io2, ok2) := Call(io1, WriteTmp(now));
    if ok1 { CommitStep(io1, WriteTmp(now), was, now); }
    var (io3, ok3) := Call(io2, SyncTmp);
    if ok1 && ok2 { CommitStep(io2, SyncTmp, was, now); }
    var (io4, ok4) := Call(io3, RenameTmp);
    if ok1 && ok2 && ok3 {
      CommitStep(io3, RenameTmp, was, now);
      if ok4 { SyncCases(io4); }
    }
  }

  lemma WriteEndsGrown(d: Disk, io': Io, r: Result<Public>)
    requires WriteEnds(d, io', r) && !io'.down && r.Err?
    ensures Grown(d, io'.disk)
  {
  }

  lemma WriteEndsStay(d: Disk, now: Public, io': Io, r: Result<Public>, left: Disk)
    requires WriteEnds(d, io', r) && Shape(io'.disk) && Current(io'.disk) == Ok(Some(now))
    requires (io'.down || r.Ok?) && Leaves(io'.disk, left)
    ensures Current(left) == Ok(Some(now))
  {
    hide Shape, Leaves, Grown;
    CurrentIs(io'.disk, now);
    RestStays(io'.disk, left, now);
  }

  /** It does happen: a generation renamed into place whose directory sync then failed can be read, yet a
      crash may bring the one before it back. Nothing was handed out for it. */
  lemma UnacknowledgedMayFall(user: string) returns (io: Io, left: Disk, was: Public, now: Public)
    ensures Enrolled(io.disk, was) && !io.down && was.gen < now.gen && was.key == now.key
    ensures var (io', r) := PublishGen(io, user, now.gen, now.key);
            && r.Err? && !io'.down && Current(io'.disk) == Ok(Some(now))
            && Leaves(io'.disk, left) && Current(left) == Ok(Some(was))
  {
    var k := Key(0, 0);
    was, now := Public(user, 0, k), Public(user, 1, k);
    var d0 := Dir(Written(k, true), Written(was, true), Missing);
    var root := Root(Some(0), []);
    io := Io(Disk(root, {root}, map[0 := d0], map[0 := {d0}], 1, 1), [Fine, Fine, Fine, Fine, Fails(false)], false);
    OneDir(d0, was);
    hide Shape, Call, WritePublic, Leaves, MayFall;
    FallsExactly(io, was, now);
    left :| Leaves(PublishGen(io, user, now.gen, now.key).0.disk, left) && Current(left) == Ok(Some(was));
  }

  /** All but the directory sync of a commit, and that failing. */
  lemma RenamedNotSynced(io: Io, p: Public)
    requires !io.down && IsLive(io.disk) && OnlyDirSyncFails(io.script)
    ensures var (io', r) := WritePublic(io, p);
            && r == Err(IoError) && !io'.down && IsLive(io'.disk)
            && LiveDir(io'.disk) == LiveDir(io.disk).(pub := Written(p, true), tmp := Missing)
  {
    hide Call, IsLive, LiveDir, OnlyDirSyncFails;
    var r1, r2, r3, r4 := FourFine(io.script);
    var io1 := FineStep(io, CreateTmp, r1);
    var io2 := FineStep(io1, WriteTmp(p), r2);
    var io3 := FineStep(io2, SyncTmp, r3);
    var io4 := FineStep(io3, RenameTmp, r4);
    FailedSync(io4);
  }

  /** A script whose first four calls succeed and whose fifth fails, one call at a time. */
  lemma FourFine(script: seq<Fault>)
    returns (r1: seq<Fault>, r2: seq<Fault>, r3: seq<Fault>, r4: seq<Fault>)
    requires OnlyDirSyncFails(script)
    ensures script == [Fine] + r1 && r1 == [Fine] + r2 && r2 == [Fine] + r3 && r3 == [Fine] + r4
    ensures r4 != [] && r4[0].Fails?
  {
    r4 := script[4..];
    r3 := [script[3]] + r4;
    r2 := [script[2]] + r3;
    r1 := [script[1]] + r2;
    assert script == [script[0]] + r1;
  }

  lemma FailedSync(io: Io)
    requires !io.down && io.script != [] && io.script[0].Fails?
    ensures !Call(io, SyncDir).1 && Call(io, SyncDir).0.disk == io.disk && !Call(io, SyncDir).0.down
  {
  }

  lemma OneDir(d0: Dir, p: Public)
    requires p.key == Key(0, 0) && d0 == Dir(Written(p.key, true), Written(p, true), Missing)
    ensures var root := Root(Some(0), []); Shape(Disk(root, {root}, map[0 := d0], map[0 := {d0}], 1, 1))
  {
  }

  /** A call on a file of the live directory that succeeds. */
  lemma FineStep(io: Io, op: Op, rest: seq<Fault>) returns (io': Io)
    requires !io.down && io.script == [Fine] + rest && IsLive(io.disk)
    requires op.CreateTmp? || op.WriteTmp? || op.SyncTmp? || op.RenameTmp?
    ensures Call(io, op) == (io', true) && io'.script == rest && !io'.down && IsLive(io'.disk)
    ensures LiveDir(io'.disk) == FileEffect(LiveDir(io.disk), op)
  {
    assert io.script[1..] == rest;
    io' := Call(io, op).0;
  }
}
