/** What the documents handed out are worth, over whole runs and across crashes. */
module Generations {
  import opened Text
  import opened Model
  import opened Disk
  import opened Store
  import opened Crypto
  import opened Engine
  import opened Protocol
  import Canonical

  // ---------------------------------------------------------------- one commit

  /** `p` is committed, and nothing else is: now and after any crash. */
  predicate Stands(d: Disk, p: Public) {
    && Settled(d) && d.roots == {d.root}
    && LiveDir(d) == Dir(Written(p.key, true), Written(p, true), Missing)
  }

  /** A disk that offers a reader nothing new but fresh keys and generation `g` of the head's key. */
  ghost predicate Follows(d: Disk, d': Disk, head: Head, g: nat) {
    && Shape(d') && d.nextDraw <= d'.nextDraw
    && (forall p | HasPub(d', p) :: HasPub(d, p) || p.key.draw >= d.nextDraw || (head.key == Some(p.key) && p.gen == g))
    && (forall k | LiveKey(d', k) :: LiveKey(d, k) || k.draw >= d.nextDraw)
  }

  /** A document as a commit may hand it out: signed by the enrollment's key, or by one drawn for it,
      and already standing on the disk. */
  predicate SignedAndStanding(io: Io, io': Io, user: string, newGen: u64, doc: SignedConfig, head: Head,
                              file: ConfigFile) {
    && !io'.down && file.v == FILE_FORMAT_VERSION && file.signed == doc.(gen := newGen)
    && ConfigError(file.signed).None? && file.signature.By?
    && file.signature == Sign(file.signature.key, file.signed)
    && Stands(io'.disk, Public(user, newGen, file.signature.key))
    && (head.key == Some(file.signature.key)
        || (head.key == None && file.signature.key.draw == io.disk.nextDraw))
  }

  ghost predicate CommitFollows(io: Io, c: (Io, Outcome<ConfigFile>), user: string, newGen: u64, doc: SignedConfig,
                                head: Head) {
    && Follows(io.disk, c.0.disk, head, newGen)
    && (c.1.Done? ==> SignedAndStanding(io, c.0, user, newGen, doc, head, c.1.value))
  }

  /** A commit: a reader, at any moment, finds only what was there before, a newly drawn key, or this
      generation under the enrollment's own key; and the document is handed out only once it stands. */
  lemma CommitKeeps(env: Env, io: Io, user: string, newGen: u64, doc: SignedConfig, head: Head)
    requires Shape(io.disk) && HeadOf(io.disk) == Done(head) && newGen == head.gen + 1
    ensures CommitFollows(io, Commit(env, io, user, newGen, doc), user, newGen, doc, head)
  {
    hide Shape, HasPub, LiveKey, ConfigError, EnsureEnrolled, PublishGen, Canonical.CanonicalBytes;
    EnsureKeeps(io, user);
    var (io1, st) := EnsureEnrolled(io, user);
    if ConfigError(doc.(gen := newGen)).None? && st.Ok? {
      PublishKeeps(io1, user, newGen, st.value.key);
      assert SigningKey(io1.disk) == Ok(st.value.key);
      var (io2, r) := PublishGen(io1, user, newGen, st.value.key);
      if r.Ok? {
        assert !io2.down && Stands(io2.disk, Public(user, newGen, st.value.key));
      }
    }
  }

  /** A document whose size the service allows, whatever key signs it. */
  ghost predicate FitsLimit(env: Env, doc: SignedConfig) {
    forall k: Key :: env.sizeOf(ConfigFile(FILE_FORMAT_VERSION, doc, Sign(k, doc))) <= env.docLimit
  }

  /** With no fault, a commit goes through exactly unless a first enrollment was once cut short. */
  lemma CommitWorks(env: Env, io: Io, user: string, newGen: u64, doc: SignedConfig, head: Head)
    requires Shape(io.disk) && Calm(io) && HeadOf(io.disk) == Done(head) && newGen == head.gen + 1
    requires ConfigError(doc.(gen := newGen)).None? && FitsLimit(env, doc.(gen := newGen))
    ensures Commit(env, io, user, newGen, doc).1.Done? <==> !HalfEnrolled(io.disk)
  {
    hide Shape, HasPub, LiveKey, ConfigError, EnsureEnrolled, PublishGen, Calm, HalfEnrolled, Sign,
         Canonical.CanonicalBytes;
    EnsureKeeps(io, user);
    EnrollWorks(io, user);
    var (io1, st) := EnsureEnrolled(io, user);
    if st.Ok? {
      assert SigningKey(io1.disk) == Ok(st.value.key);
      assert env.sizeOf(ConfigFile(FILE_FORMAT_VERSION, doc.(gen := newGen),
                                   Sign(st.value.key, doc.(gen := newGen)))) <= env.docLimit;
      PublishWorks(io1, user, newGen, st.value);
    }
  }

  lemma PublishWorks(io: Io, user: string, newGen: u64, st: Public)
    requires Calm(io) && Current(io.disk) == Ok(Some(st)) && newGen > st.gen
    ensures PublishGen(io, user, newGen, st.key).1.Ok?
  {
    hide Calm, WritePublic, Current;
    CalmWrite(io, Public(user, newGen, st.key));
  }

  /** An approved transaction that is live and still on the generation it was frozen against commits. */
  lemma FinishWorks(env: Env, m: Machine, t: Txn)
    requires m.pending == Some(t) && t.authorizing && !Expired(t, m.now) && t.baseGen != GEN_MAX
    requires Shape(m.io.disk) && Calm(m.io) && HeadOf(m.io.disk) == Done(Head(t.baseGen, t.enrollment))
    requires ConfigError(t.proposal.(gen := t.baseGen + 1)).None? && FitsLimit(env, t.proposal.(gen := t.baseGen + 1))
    ensures Finish(env, m, t.txid).1.Done? <==> !HalfEnrolled(m.io.disk)
  {
    hide Shape, Calm, HeadOf, Commit, ConfigError, FitsLimit, HalfEnrolled;
    CommitWorks(env, m.io, t.user, t.baseGen + 1, t.proposal, Head(t.baseGen, t.enrollment));
  }

  // --------------------------------------------------------- reading the anchor

  /** `load_verified`: what the login anchor runs. */
  predicate Accepts(env: Env, d: Disk, user: string, file: ConfigFile) {
    match Current(d)
    case Ok(Some(st)) => st.user == user && ParseAndVerify(Some(file), st.key, env.uid, user, st.gen).Good?
    case _ => false
  }

  lemma CurrentIsPub(d: Disk)
    requires Shape(d) && Current(d).Ok? && Current(d).value.Some?
    ensures HasPub(d, Current(d).value.value) && LiveKey(d, Current(d).value.value.key)
  {
    LiveFacts(d);
  }

  /** A document handed out is one the anchor runs, at once and after any crash. */
  lemma CommittedVerifies(env: Env, d: Disk, left: Disk, file: ConfigFile)
    requires Shape(d) && file.v == FILE_FORMAT_VERSION && ConfigError(file.signed).None? && file.signed.uid == env.uid
    requires file.signature.By? && file.signature == Sign(file.signature.key, file.signed)
    requires Stands(d, Public(file.signed.user, file.signed.gen, file.signature.key))
    ensures Accepts(env, d, file.signed.user, file)
    ensures Leaves(d, left) ==> Accepts(env, left, file.signed.user, file)
  {
    hide Shape, ConfigError, Sign;
    if Leaves(d, left) {
      assert d.root in d.roots && left.root == d.root;
      var i := d.root.live.value;
      assert left.views[i] == {left.dirs[i]} && d.views[i] == {LiveDir(d)};
    }
  }

  // ------------------------------------------------------------- the invariant

  function KeyOf(i: Issue): Key { if i.file.signature.By? then i.file.signature.key else Key(0, 0) }

  function GenOf(i: Issue): u64 { i.file.signed.gen }

  predicate Genuine(env: Env, i: Issue) {
    && i.file.v == FILE_FORMAT_VERSION && ConfigError(i.file.signed).None? && i.file.signed.uid == env.uid
    && i.file.signature.By? && i.file.signature == Sign(KeyOf(i), i.file.signed)
  }

  /** Every document handed out is genuinely signed; keys follow one another, and under one key
      generations strictly rise. */
  predicate InOrder(env: Env, issued: seq<Issue>, nextDraw: nat) {
    && (forall j | 0 <= j < |issued| :: Genuine(env, issued[j]) && KeyOf(issued[j]).draw < nextDraw)
    && (forall i, j | 0 <= i < j < |issued| ::
          KeyOf(issued[i]).draw <= KeyOf(issued[j]).draw
          && (KeyOf(issued[i]) == KeyOf(issued[j]) ==> GenOf(issued[i]) < GenOf(issued[j])))
  }

  /** No state a crash may leave is behind a document already handed out. */
  ghost predicate NotBehind(d: Disk, issued: seq<Issue>) {
    forall j, p | 0 <= j < |issued| && HasPub(d, p) && p.key == KeyOf(issued[j]) :: p.gen >= GenOf(issued[j])
  }

  /** The live key is the last one used, or newer, and newer than the last purge. */
  ghost predicate LiveIsLast(d: Disk, issued: seq<Issue>, floor: nat) {
    && floor <= d.nextDraw
    && (forall k | LiveKey(d, k) :: k.draw >= floor)
    && (forall k | LiveKey(d, k) && issued != [] ::
          var last := KeyOf(issued[|issued| - 1]); k == last || k.draw > last.draw)
  }

  ghost predicate SoundAt(env: Env, d: Disk, issued: seq<Issue>, floor: nat) {
    Shape(d) && InOrder(env, issued, d.nextDraw) && NotBehind(d, issued) && LiveIsLast(d, issued, floor)
  }

  ghost predicate Sound(env: Env, s: System) {
    !s.m.io.down && SoundAt(env, s.m.io.disk, s.issued, s.floor)
  }

  // ----------------------------------------------------------- each event keeps it

  lemma HeadAhead(env: Env, d: Disk, issued: seq<Issue>, head: Head, j: nat)
    requires Shape(d) && InOrder(env, issued, d.nextDraw) && NotBehind(d, issued)
    requires HeadOf(d) == Done(head) && j < |issued| && head.key == Some(KeyOf(issued[j]))
    ensures GenOf(issued[j]) <= head.gen
  {
    hide Shape, InOrder, HasPub, LiveKey;
    CurrentIsPub(d);
  }

  lemma FollowNotBehind(env: Env, d: Disk, d': Disk, issued: seq<Issue>, head: Head, g: nat)
    requires Shape(d) && InOrder(env, issued, d.nextDraw) && NotBehind(d, issued)
    requires Follows(d, d', head, g) && HeadOf(d) == Done(head) && g >= head.gen
    ensures NotBehind(d', issued)
  {
    hide Shape, HasPub, LiveKey, Genuine, HeadOf;
    forall j, p | 0 <= j < |issued| && HasPub(d', p) && p.key == KeyOf(issued[j]) ensures p.gen >= GenOf(issued[j]) {
      assert KeyOf(issued[j]).draw < d.nextDraw;
      if !HasPub(d, p) { HeadAhead(env, d, issued, head, j); }
    }
  }

  lemma OrderGrows(env: Env, issued: seq<Issue>, n: nat, m: nat)
    requires InOrder(env, issued, n) && n <= m
    ensures InOrder(env, issued, m)
  {
    hide Genuine, KeyOf, GenOf;
  }

  lemma FollowLive(d: Disk, d': Disk, issued: seq<Issue>, floor: nat, head: Head, g: nat)
    requires LiveIsLast(d, issued, floor) && Follows(d, d', head, g)
    requires issued != [] ==> KeyOf(issued[|issued| - 1]).draw < d.nextDraw
    ensures LiveIsLast(d', issued, floor)
  {
    hide Shape, HasPub, LiveKey, KeyOf;
  }

  lemma FollowKeeps(env: Env, d: Disk, d': Disk, issued: seq<Issue>, floor: nat, head: Head, g: nat)
    requires SoundAt(env, d, issued, floor)
    requires Follows(d, d', head, g) && HeadOf(d) == Done(head) && g >= head.gen
    ensures SoundAt(env, d', issued, floor)
  {
    FollowNotBehind(env, d, d', issued, head, g);
    LastDrawn(env, issued, d.nextDraw);
    FollowLive(d, d', issued, floor, head, g);
    hide Shape, HasPub, LiveKey, InOrder, HeadOf, NotBehind, LiveIsLast;
    OrderGrows(env, issued, d.nextDraw, d'.nextDraw);
  }

  lemma LastDrawn(env: Env, issued: seq<Issue>, n: nat)
    requires InOrder(env, issued, n)
    ensures issued != [] ==> KeyOf(issued[|issued| - 1]).draw < n
  {
    hide Genuine, KeyOf, GenOf;
  }

  lemma StandsFacts(d: Disk, p: Public)
    requires Shape(d) && Stands(d, p)
    ensures forall q | HasPub(d, q) && q.key == p.key :: q == p
    ensures forall k | LiveKey(d, k) :: k == p.key
    ensures p.key.draw < d.nextDraw && LiveKey(d, p.key)
  {
    LiveFacts(d);
    var i := d.root.live.value;
    forall q | HasPub(d, q) && q.key == p.key ensures q == p {
      var j, v :| j in d.views && v in d.views[j] && v.pub == Written(q, true);
      assert GoodView(j, v, d.nextDraw) && GoodView(i, LiveDir(d), d.nextDraw);
    }
  }

  lemma HeadIsLive(d: Disk, head: Head)
    requires Shape(d) && HeadOf(d) == Done(head) && head.key.Some?
    ensures LiveKey(d, head.key.value)
  {
    hide Shape, HasPub, LiveKey;
    CurrentIsPub(d);
  }

  lemma LastIsLatest(env: Env, issued: seq<Issue>, n: nat, j: nat)
    requires InOrder(env, issued, n) && j < |issued|
    ensures KeyOf(issued[j]).draw <= KeyOf(issued[|issued| - 1]).draw < n
  {
    hide Genuine, KeyOf, GenOf;
  }

  /** A new document comes after every earlier one. */
  lemma IssueComesAfter(env: Env, d: Disk, issued: seq<Issue>, floor: nat, head: Head, i: Issue, j: nat)
    requires SoundAt(env, d, issued, floor)
    requires HeadOf(d) == Done(head) && GenOf(i) == head.gen + 1 && j < |issued|
    requires head.key == Some(KeyOf(i)) || (head.key == None && KeyOf(i).draw == d.nextDraw)
    ensures KeyOf(issued[j]).draw <= KeyOf(i).draw
    ensures KeyOf(issued[j]) == KeyOf(i) ==> GenOf(issued[j]) < GenOf(i)
  {
    hide Shape, InOrder, HasPub, LiveKey, HeadOf, NotBehind, GenOf, KeyOf;
    LastIsLatest(env, issued, d.nextDraw, j);
    if head.key.Some? {
      HeadIsLive(d, head);
      if KeyOf(issued[j]) == KeyOf(i) { HeadAhead(env, d, issued, head, j); }
    }
  }

  lemma StandsNotBehind(d: Disk, issued: seq<Issue>, i: Issue, user: string)
    requires Shape(d) && NotBehind(d, issued) && Stands(d, Public(user, GenOf(i), KeyOf(i)))
    ensures NotBehind(d, issued + [i])
  {
    StandsFacts(d, Public(user, GenOf(i), KeyOf(i)));
    hide Shape, HasPub, LiveKey, Stands;
  }

  lemma OrderExtends(env: Env, issued: seq<Issue>, n: nat, i: Issue)
    requires InOrder(env, issued, n) && Genuine(env, i) && KeyOf(i).draw < n
    requires forall j | 0 <= j < |issued| :: KeyOf(issued[j]).draw <= KeyOf(i).draw
    requires forall j | 0 <= j < |issued| :: KeyOf(issued[j]) == KeyOf(i) ==> GenOf(issued[j]) < GenOf(i)
    ensures InOrder(env, issued + [i], n)
  {
    hide Genuine, KeyOf, GenOf;
  }

  lemma LiveExtends(d: Disk, issued: seq<Issue>, floor: nat, i: Issue)
    requires LiveIsLast(d, issued, floor) && forall k | LiveKey(d, k) :: k == KeyOf(i)
    ensures LiveIsLast(d, issued + [i], floor)
  {
    hide LiveKey, KeyOf;
  }

  /** Handing out one more document, once it stands. */
  lemma IssueKeeps(env: Env, d: Disk, d': Disk, issued: seq<Issue>, floor: nat, head: Head, i: Issue, user: string)
    requires SoundAt(env, d, issued, floor)
    requires HeadOf(d) == Done(head) && Follows(d, d', head, head.gen + 1)
    requires Genuine(env, i) && GenOf(i) == head.gen + 1
    requires Stands(d', Public(user, GenOf(i), KeyOf(i)))
    requires head.key == Some(KeyOf(i)) || (head.key == None && KeyOf(i).draw == d.nextDraw)
    ensures SoundAt(env, d', issued + [i], floor)
  {
    hide InOrder, HasPub, LiveKey, Genuine, Stands, HeadOf, NotBehind, KeyOf, GenOf, LiveIsLast, Shape;
    FollowKeeps(env, d, d', issued, floor, head, head.gen + 1);
    StandsFacts(d', Public(user, GenOf(i), KeyOf(i)));
    StandsNotBehind(d', issued, i, user);
    forall j | 0 <= j < |issued|
      ensures KeyOf(issued[j]).draw <= KeyOf(i).draw
      ensures KeyOf(issued[j]) == KeyOf(i) ==> GenOf(issued[j]) < GenOf(i)
    {
      IssueComesAfter(env, d, issued, floor, head, i, j);
    }
    OrderExtends(env, issued, d'.nextDraw, i);
    LiveExtends(d', issued, floor, i);
  }

  lemma SoundAtShape(env: Env, d: Disk, issued: seq<Issue>, floor: nat)
    requires SoundAt(env, d, issued, floor)
    ensures Shape(d)
  {
    hide Shape, InOrder, NotBehind, LiveIsLast;
  }

  /** Sound, with the document handed out, if one was, on record. */
  ghost predicate SoundWith(env: Env, io: Io, issued: seq<Issue>, floor: nat, r: Outcome<ConfigFile>,
                            check: Option<nat>) {
    && SoundAt(env, io.disk, if r.Done? then issued + [Issue(r.value, check)] else issued, floor)
    && (r.Done? ==> !io.down)
  }

  predicate StandsAs(io: Io, r: Outcome<ConfigFile>, user: string) {
    r.Done? ==> Stands(io.disk, Public(user, GenOf(Issue(r.value, None)), KeyOf(Issue(r.value, None))))
  }

  predicate Signs(r: Outcome<ConfigFile>, doc: SignedConfig) { r.Done? ==> r.value.signed == doc }

  /** A commit, finished, failed or cut short by a crash. */
  lemma CommitSound(env: Env, io: Io, issued: seq<Issue>, floor: nat, user: string, newGen: u64, doc: SignedConfig,
                    head: Head, check: Option<nat>)
    requires SoundAt(env, io.disk, issued, floor) && HeadOf(io.disk) == Done(head) && newGen == head.gen + 1
    requires doc.uid == env.uid
    ensures var (io', r) := Commit(env, io, user, newGen, doc);
            SoundWith(env, io', issued, floor, r, check) && StandsAs(io', r, user) && Signs(r, doc.(gen := newGen))
  {
    hide SoundAt, Follows, Commit, ConfigError, Canonical.CanonicalBytes, HeadOf, Stands, Sign;
    SoundAtShape(env, io.disk, issued, floor);
    CommitKeeps(env, io, user, newGen, doc, head);
    var (io', r) := Commit(env, io, user, newGen, doc);
    if r.Done? {
      IssueKeeps(env, io.disk, io'.disk, issued, floor, head, Issue(r.value, check), user);
    } else {
      FollowKeeps(env, io.disk, io'.disk, issued, floor, head, newGen);
    }
  }

  lemma FinishSound(env: Env, m: Machine, issued: seq<Issue>, floor: nat, txid: nat, check: Option<nat>)
    requires SoundAt(env, m.io.disk, issued, floor) && !m.io.down
    requires m.pending.Some? ==> m.pending.value.proposal.uid == env.uid
    ensures var (m', r) := Finish(env, m, txid);
            SoundWith(env, m'.io, issued, floor, r, check)
            && (r.Done? ==> m.pending.Some? && StandsAs(m'.io, r, m.pending.value.user))
  {
    hide SoundAt, Commit, Stands, KeyOf, HeadOf;
    if m.pending.Some? && HeadOf(m.io.disk).Done? && m.pending.value.baseGen != GEN_MAX {
      var t := m.pending.value;
      var head := HeadOf(m.io.disk).value;
      if head.gen == t.baseGen {
        CommitSound(env, m.io, issued, floor, t.user, t.baseGen + 1, t.proposal, head, check);
      }
    }
  }

  lemma ReduceSound(env: Env, io: Io, issued: seq<Issue>, floor: nat, user: string, base: Option<ConfigFile>,
                    ops: seq<ReduceOp>)
    requires SoundAt(env, io.disk, issued, floor) && !io.down
    ensures var (io', r) := ReduceIo(env, io, user, base, ops);
            SoundWith(env, io', issued, floor, r, None) && StandsAs(io', r, user)
            && (r.Done? ==> r.value.signed.user == user)
  {
    hide SoundAt, Commit, Stands, KeyOf, HeadOf, ParseAndVerify, ApplyOps;
    if HeadOf(io.disk).Done? && HeadOf(io.disk).value.key.Some? {
      var head := HeadOf(io.disk).value;
      var v := ParseAndVerify(base, head.key.value, env.uid, user, head.gen);
      if v.Good? && ApplyOps(v.cfg.entries, ops).Done? && head.gen != GEN_MAX {
        CommitSound(env, io, issued, floor, user, head.gen + 1,
                    ReducedDoc(env, user, head.gen + 1, v.cfg, ApplyOps(v.cfg.entries, ops).value), head, None);
      }
    }
  }

  lemma PurgeSound(env: Env, io: Io, issued: seq<Issue>, floor: nat)
    requires SoundAt(env, io.disk, issued, floor) && !io.down
    ensures var (io', r) := Purge(io);
            SoundAt(env, io'.disk, issued, if r.Ok? then io'.disk.nextDraw else floor) && (r.Ok? ==> !io'.down)
  {
    hide Shape, HasPub, LiveKey, Purge, HeadOf, InOrder, NotBehind, LiveIsLast, Keeps;
    var (io', r) := Purge(io);
    PurgeKeeps(io);
    HeadDone(io.disk);
    var head := HeadOf(io.disk).value;
    KeepsFollows(io.disk, io'.disk, head);
    FollowKeeps(env, io.disk, io'.disk, issued, floor, head, head.gen);
    if r.Ok? { PurgedLive(io'.disk, issued); }
  }

  lemma KeepsFollows(d: Disk, d': Disk, head: Head)
    requires Keeps(d, d', {})
    ensures Follows(d, d', head, head.gen)
  {
    hide Shape, HasPub, LiveKey;
  }

  lemma PurgedLive(d: Disk, issued: seq<Issue>)
    requires d.roots == {Root(None, [])}
    ensures LiveIsLast(d, issued, d.nextDraw)
  {
    hide KeyOf;
  }

  lemma HeadDone(d: Disk)
    requires Shape(d)
    ensures HeadOf(d).Done?
  {
    if IsLive(d) { LiveFacts(d); }
  }

  lemma OtherFacts(env: Env, s: System, e: Event)
    requires !e.FinishReq? && !e.ReduceReq? && !(e.PurgeReq? && e.allowed)
    ensures var (m, calls, reply) := Act(env, s, e);
            m.io.disk == s.m.io.disk && m.io.down == s.m.io.down && !reply.Issued? && !reply.Purged?
  {
    hide Prepare, Claim, Finish, Reduce, PurgeAll;
    if e.PrepareReq? { PrepareFacts(env, s.m, e.user, e.sender, e.base, e.proposal, e.entropy); }
    if e.ClaimReq? { ClaimFacts(s.m, e.sender, e.txid, e.entropy); }
  }

  lemma PendingIs(env: Env, s: System)
    requires Records(env, s) && s.m.pending.Some?
    ensures s.m.pending.value.proposal.uid == env.uid && s.m.pending.value.proposal.user == s.m.pending.value.user
  {
    hide NoneKilled, SortEntries;
  }

  ghost predicate SoundAfter(env: Env, s: System, e: Event, m: Machine, reply: Reply) {
    hide SoundAt, Stands, KeyOf;
    && SoundAt(env, m.io.disk,
               if reply.Issued? then s.issued + [Issue(reply.file, if e.FinishReq? then Some(e.check) else None)]
                   else s.issued,
               if reply.Purged? then m.io.disk.nextDraw else s.floor)
    && (m.io.down ==> !reply.Issued? && !reply.Purged?)
    && (reply.Issued? ==>
          Stands(m.io.disk, Public(reply.file.signed.user, reply.file.signed.gen, KeyOf(Issue(reply.file, None)))))
  }

  /** What one event does to the documents on record, before any crash is accounted for. */
  lemma ActSound(env: Env, s: System, e: Event)
    requires Records(env, s) && Sound(env, s)
    ensures var (m, calls, reply) := Act(env, s, e);
            SoundAfter(env, s, e, m, reply)
  {
    hide SoundAt, Finish, ReduceIo, Purge, Records, Prepare, Claim, Stands;
    match e
    case FinishReq(check) =>
      if check in s.calls {
        if s.m.pending.Some? { PendingIs(env, s); }
        FinishSound(env, s.m, s.issued, s.floor, s.calls[check].txid, Some(check));
        if Finish(env, s.m, s.calls[check].txid).1.Done? { FinishUser(env, s, s.calls[check].txid); }
      }
    case ReduceReq(user, base, ops) => ReduceSound(env, s.m.io, s.issued, s.floor, user, base, ops);
    case PurgeReq(allowed) => PurgeSound(env, s.m.io, s.issued, s.floor);
    case _ => OtherFacts(env, s, e);
  }

  lemma FinishUser(env: Env, s: System, txid: nat)
    requires Records(env, s) && Finish(env, s.m, txid).1.Done?
    ensures s.m.pending.Some? && Finish(env, s.m, txid).1.value.signed.user == s.m.pending.value.user
  {
    hide Records, HeadOf, ConfigError, EnsureEnrolled, PublishGen, Sign;
    FinishFacts(env, s.m, txid);
    PendingIs(env, s);
  }

  lemma SoundStep(env: Env, s: System, e: Event)
    requires Records(env, s) && Sound(env, s)
    ensures Sound(env, Step(env, s, e))
  {
    hide SoundAt, Act, Records, Stands;
    ActSound(env, s, e);
  }

  lemma StartSound(env: Env)
    ensures Sound(env, Start())
  {
    hide SoundAt, Fresh, Shape, HasPub, LiveKey;
    FreshShape();
    NothingIssued(env, Fresh());
  }

  lemma NothingIssued(env: Env, d: Disk)
    requires Shape(d) && (forall p :: !HasPub(d, p)) && forall k :: !LiveKey(d, k)
    ensures SoundAt(env, d, [], 0)
  {
    hide Shape, HasPub, LiveKey, Genuine, KeyOf, GenOf;
  }

  lemma FreshShape()
    ensures Shape(Fresh()) && (forall p :: !HasPub(Fresh(), p)) && forall k :: !LiveKey(Fresh(), k)
  {
  }

  lemma {:induction false} SoundHolds(env: Env, es: seq<Event>)
    ensures Sound(env, Run(env, es))
    decreases |es|
  {
    hide Step, Sound, Records, Start;
    if es == [] {
      StartSound(env);
    } else {
      RecordsHold(env, es[..|es| - 1]);
      SoundHolds(env, es[..|es| - 1]);
      SoundStep(env, Run(env, es[..|es| - 1]), es[|es| - 1]);
    }
  }

  // ------------------------------------------------------------- over whole runs

  /** The disk as a reader may find it: as it is, or as a crash now would leave it. */
  predicate MayFind(d: Disk, found: Disk) { found == d || Leaves(d, found) }

  /** What every reader's check comes down to: the document is of the committed generation, under the
      enrollment's key. */
  predicate Verifies(env: Env, d: Disk, user: string, file: ConfigFile) {
    match Current(d)
    case Ok(Some(st)) => ParseAndVerify(Some(file), st.key, env.uid, user, st.gen).Good?
    case _ => false
  }

  lemma FoundFacts(env: Env, d: Disk, found: Disk, issued: seq<Issue>, floor: nat)
    requires SoundAt(env, d, issued, floor) && MayFind(d, found)
    ensures SoundAt(env, found, issued, floor)
  {
    hide Shape, HasPub, LiveKey, Genuine, KeyOf, GenOf, Leaves, InOrder;
    if Leaves(d, found) { LeavesKeeps(d, found); }
  }

  /** The disk commits this very document's generation, under the key it is signed with. */
  ghost predicate ReadAs(d: Disk, file: ConfigFile) {
    && file.v == FILE_FORMAT_VERSION && ConfigError(file.signed).None? && file.signature.By?
    && file.signature == Sign(file.signature.key, file.signed)
    && Current(d).Ok? && Current(d).value.Some?
    && var p := Current(d).value.value;
       HasPub(d, p) && p.key == file.signature.key && p.gen == file.signed.gen && LiveKey(d, p.key)
  }

  lemma VerifiesIs(env: Env, d: Disk, user: string, file: ConfigFile)
    requires Shape(d) && Verifies(env, d, user, file)
    ensures ReadAs(d, file)
  {
    hide Shape, ConfigError, HasPub, LiveKey, Canonical.CanonicalBytes;
    CurrentIsPub(d);
  }

  /** A document that verifies by a signature once handed out is the one it was handed out with. */
  lemma SameFile(a: ConfigFile, b: ConfigFile)
    requires a.v == b.v && a.signature == b.signature && a.signature.By?
    requires ConfigError(a.signed).None? && a.signature == Sign(a.signature.key, a.signed)
    requires ConfigError(b.signed).None? && b.signature == Sign(b.signature.key, b.signed)
    ensures a == b
  {
    hide ConfigError, Sign;
    ValidateExact(a.signed);
    ValidateExact(b.signed);
    SignatureBinds(a.signed, b.signed, a.signature.key, b.signature.key);
  }

  lemma OnlyLast(env: Env, d: Disk, issued: seq<Issue>, floor: nat, user: string, file: ConfigFile, j: nat)
    requires SoundAt(env, d, issued, floor) && Verifies(env, d, user, file)
    requires j < |issued| && file.signature == issued[j].file.signature
    ensures file == issued[j].file && j == |issued| - 1 && KeyOf(issued[j]).draw >= floor
  {
    hide Shape, Verifies, ConfigError, Sign, HasPub, LiveKey, InOrder;
    VerifiesIs(env, d, user, file);
    GenuineAt(env, issued, d.nextDraw, j);
    SameFile(file, issued[j].file);
    LastIsLatest(env, issued, d.nextDraw, j);
    var (p, last) := (Current(d).value.value, issued[|issued| - 1]);
    assert HasPub(d, p) && (p.key == KeyOf(last) ==> p.gen >= GenOf(last));
    if j < |issued| - 1 && KeyOf(issued[j]) == KeyOf(last) { LaterIsAhead(env, issued, d.nextDraw, j); }
  }

  lemma LaterIsAhead(env: Env, issued: seq<Issue>, n: nat, j: nat)
    requires InOrder(env, issued, n) && j < |issued| - 1 && KeyOf(issued[j]) == KeyOf(issued[|issued| - 1])
    ensures GenOf(issued[j]) < GenOf(issued[|issued| - 1])
  {
    hide Genuine, KeyOf, GenOf;
  }

  lemma GenuineAt(env: Env, issued: seq<Issue>, n: nat, j: nat)
    requires InOrder(env, issued, n) && j < |issued|
    ensures Genuine(env, issued[j])
  {
    hide Genuine, KeyOf, GenOf;
  }

  /** At any moment of any run, and after a crash at that moment, the only document handed out that
      still verifies, in whatever file its signature is presented, is the very last one. */
  lemma OnlyLastVerifies(env: Env, es: seq<Event>, found: Disk, user: string, file: ConfigFile, j: nat)
    requires var s := Run(env, es);
             MayFind(s.m.io.disk, found) && Verifies(env, found, user, file)
             && j < |s.issued| && file.signature == s.issued[j].file.signature
    ensures j == |Run(env, es).issued| - 1 && file == Run(env, es).issued[j].file
  {
    hide Run, MayFind, Verifies, SoundAt;
    var s := Run(env, es);
    SoundHolds(env, es);
    FoundFacts(env, s.m.io.disk, found, s.issued, s.floor);
    OnlyLast(env, found, s.issued, s.floor, user, file, j);
  }

  lemma IssuedStands(env: Env, es: seq<Event>, n: nat)
    requires n < |es| && ReplyTo(env, es, n).Issued?
    ensures var (d, file) := (Run(env, es[..n + 1]).m.io.disk, ReplyTo(env, es, n).file);
            Shape(d) && Genuine(env, Issue(file, None))
                && Stands(d, Public(file.signed.user, file.signed.gen, file.signature.key))
  {
    hide Run, Act, ReplyTo, Records, Stands, SoundAt;
    var s := Run(env, es[..n]);
    var s' := Run(env, es[..n + 1]);
    RecordsHold(env, es[..n]);
    SoundHolds(env, es[..n]);
    SoundHolds(env, es[..n + 1]);
    RunNext(env, es, n);
    ReplyIs(env, es, n);
    ActSound(env, s, es[n]);
    ShapeGenuine(env, s'.m.io.disk, s'.issued, s'.floor, |s.issued|);
  }

  lemma ShapeGenuine(env: Env, d: Disk, issued: seq<Issue>, floor: nat, j: nat)
    requires SoundAt(env, d, issued, floor) && j < |issued|
    ensures Shape(d) && Genuine(env, issued[j])
  {
    hide Shape, Genuine, KeyOf, GenOf;
  }

  /** A document is handed out only once the login anchor will run it, even after a crash. */
  lemma IssuedIsDurable(env: Env, es: seq<Event>, n: nat, found: Disk)
    requires n < |es| && ReplyTo(env, es, n).Issued? && MayFind(Run(env, es[..n + 1]).m.io.disk, found)
    ensures var file := ReplyTo(env, es, n).file; Accepts(env, found, file.signed.user, file)
  {
    hide Run, Accepts, ReplyTo, Stands, Shape, Leaves;
    IssuedStands(env, es, n);
    CommittedVerifies(env, Run(env, es[..n + 1]).m.io.disk, found, ReplyTo(env, es, n).file);
  }

  /** Within one enrollment the committed generation never falls below a document handed out, crash
      or no crash, at that moment or ever after. */
  lemma GenerationNeverFalls(env: Env, es: seq<Event>, n: nat, m: nat, found: Disk)
    requires n < m <= |es| && ReplyTo(env, es, n).Issued? && MayFind(Run(env, es[..m]).m.io.disk, found)
    ensures match Current(found)
            case Ok(Some(st)) =>
              var file := ReplyTo(env, es, n).file;
              file.signature == Sign(st.key, file.signed) ==> st.gen >= file.signed.gen
            case _ => true
  {
    hide Run, ReplyTo, MayFind, SoundAt, Current, Canonical.CanonicalBytes;
    var j := IssuedRecorded(env, es, n, m);
    var s := Run(env, es[..m]);
    SoundHolds(env, es[..m]);
    FoundFacts(env, s.m.io.disk, found, s.issued, s.floor);
    NotBehindAt(env, found, s.issued, s.floor, j);
    var file := ReplyTo(env, es, n).file;
    assert s.issued[j].file == file;
    match Current(found)
    case Ok(Some(st)) => assert file.signature == Sign(st.key, file.signed) ==> KeyOf(s.issued[j]) == st.key;
    case _ =>
  }

  lemma NotBehindAt(env: Env, d: Disk, issued: seq<Issue>, floor: nat, j: nat)
    requires SoundAt(env, d, issued, floor) && j < |issued|
    ensures match Current(d)
            case Ok(Some(st)) => KeyOf(issued[j]) == st.key ==> st.gen >= GenOf(issued[j])
            case _ => true
  {
    hide Shape, HasPub, LiveKey, InOrder, LiveIsLast;
    if Current(d).Ok? && Current(d).value.Some? { CurrentIsPub(d); }
  }

  lemma IssuedRecorded(env: Env, es: seq<Event>, n: nat, m: nat) returns (j: nat)
    requires n < m <= |es| && ReplyTo(env, es, n).Issued?
    ensures j < |Run(env, es[..m]).issued| && Run(env, es[..m]).issued[j].file == ReplyTo(env, es, n).file
    ensures j == |Run(env, es[..n]).issued|
  {
    hide Run, Outcome3, ReplyTo;
    RecordsGrow(env, es, n + 1, m);
    RunNext(env, es, n);
    ReplyIs(env, es, n);
    j := |Run(env, es[..n]).issued|;
    assert Run(env, es[..n + 1]).issued[j].file == ReplyTo(env, es, n).file;
  }

  lemma FloorRises(env: Env, s: System, e: Event)
    requires Sound(env, s)
    ensures s.floor <= Step(env, s, e).floor
  {
    hide Shape, InOrder, NotBehind, LiveKey, HasPub, Prepare, Claim, Finish, ReduceIo, Purge;
    if e.PurgeReq? { PurgeKeeps(s.m.io); }
  }

  lemma {:induction false} FloorGrows(env: Env, es: seq<Event>, a: nat, b: nat)
    requires a <= b <= |es|
    ensures Run(env, es[..a]).floor <= Run(env, es[..b]).floor
  {
    hide Step, Sound;
    if a < b {
      FloorGrows(env, es, a, b - 1);
      SoundHolds(env, es[..b - 1]);
      assert es[..b][..b - 1] == es[..b - 1];
      FloorRises(env, Run(env, es[..b - 1]), es[b - 1]);
    }
  }

  lemma PurgeSetsFloor(env: Env, s: System, e: Event)
    requires Outcome3(env, s, e).2.Purged?
    ensures Step(env, s, e).floor == Step(env, s, e).m.io.disk.nextDraw
    ensures Step(env, s, e).issued == s.issued
  {
    hide Act;
  }

  /** A successful Purge raises the floor above every key a document was ever signed with. */
  lemma PurgeRaises(env: Env, es: seq<Event>, n: nat, m: nat, j: nat)
    requires n < m <= |es| && ReplyTo(env, es, n).Purged? && j < |Run(env, es[..n]).issued|
    ensures var t := Run(env, es[..m]);
            j < |t.issued| && t.issued[j] == Run(env, es[..n]).issued[j] && KeyOf(t.issued[j]).draw < t.floor
  {
    hide Run, Step, Outcome3, ReplyTo, SoundAt, KeyOf;
    var p := Run(env, es[..n + 1]);
    SoundHolds(env, es[..n + 1]);
    RunNext(env, es, n);
    ReplyIs(env, es, n);
    PurgeSetsFloor(env, Run(env, es[..n]), es[n]);
    FloorGrows(env, es, n + 1, m);
    RecordsGrow(env, es, n + 1, m);
    SoundDrawn(env, p.m.io.disk, p.issued, p.floor, j);
  }

  /** Once Purge has been answered, nothing handed out before it ever verifies again, crash or no
      crash, whatever is enrolled afterwards. */
  lemma PurgedNeverVerifies(env: Env, es: seq<Event>, n: nat, m: nat, found: Disk, user: string, file: ConfigFile,
                            j: nat)
    requires n < m <= |es| && ReplyTo(env, es, n).Purged? && MayFind(Run(env, es[..m]).m.io.disk, found)
    requires j < |Run(env, es[..n]).issued| && file.signature == Run(env, es[..n]).issued[j].file.signature
    ensures !Verifies(env, found, user, file)
  {
    hide Run, ReplyTo, MayFind, Verifies, SoundAt, KeyOf;
    var t := Run(env, es[..m]);
    SoundHolds(env, es[..m]);
    PurgeRaises(env, es, n, m, j);
    if Verifies(env, found, user, file) {
      FoundFacts(env, t.m.io.disk, found, t.issued, t.floor);
      OnlyLast(env, found, t.issued, t.floor, user, file, j);
    }
  }

  lemma SoundDrawn(env: Env, d: Disk, issued: seq<Issue>, floor: nat, j: nat)
    requires SoundAt(env, d, issued, floor) && j < |issued|
    ensures KeyOf(issued[j]).draw < d.nextDraw
  {
    LastIsLatest(env, issued, d.nextDraw, j);
    hide Shape, InOrder, NotBehind, LiveIsLast, KeyOf;
  }
}
