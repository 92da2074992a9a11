/** relaunchctl's newline-framed input (frame.rs), bounded while it is read. */
module Frame {
  import opened Text

  datatype Frame = Line(bytes: seq<byte>) | Eof | TooLong

  const NL: byte := 10

  /** Where the first newline is; the length of `s` when it has none. */
  function Newline(s: seq<byte>): (i: nat)
    ensures i <= |s| && NL !in s[..i] && (i < |s| ==> s[i] == NL)
  {
    if s == [] || s[0] == NL then 0
    else
      var i := 1 + Newline(s[1..]);
      assert s[..i] == [s[0]] + s[1..][..i - 1];
      i
  }

  /** What reading one frame off `s` gives, if the bytes decide it: `closed` says no more will come. */
  function Poll(s: seq<byte>, max: nat, closed: bool): (f: Option<Frame>)
    ensures closed ==> f.Some?
    ensures f.Some? && f.value.Line? ==> |After(s)| < |s|
  {
    var i := Newline(s);
    if i < |s| then Some(if i > max then TooLong else Line(s[..i]))
    else if |s| > max then Some(TooLong)
    else if closed then Some(Eof)
    else None
  }

  /** What is left after a line has been read. */
  function After(s: seq<byte>): (rest: seq<byte>)
    ensures Newline(s) < |s| ==> |rest| < |s|
  {
    var i := Newline(s); if i < |s| then s[i + 1..] else []
  }

  function Flatten(chunks: seq<seq<byte>>): seq<byte> {
    if chunks == [] then [] else chunks[0] + Flatten(chunks[1..])
  }

  /** All but the last `late` bytes: what has arrived when those are still to come. */
  function Seen(bytes: seq<byte>, late: nat): seq<byte> {
    if late >= |bytes| then [] else bytes[..|bytes| - late]
  }

  /** A buffered pipe: the bytes in the chunks they will arrive in, up to end of input. `partial` is what the
      read in progress has taken, and nothing between reads. */
  class Reader {
    var partial: seq<byte>
    var chunks: seq<seq<byte>>

    constructor (chunks: seq<seq<byte>>)
      ensures this.chunks == chunks && partial == []
    {
      this.partial, this.chunks := [], chunks;
    }

    function Bytes(): seq<byte>
      reads this
    {
      partial + Flatten(chunks)
    }

    /** No line of up to `max` bytes is complete in what has been taken. */
    predicate Waits(max: nat)
      reads this
    {
      NL !in partial && |partial| <= max
    }

    /** `fill_buf`: what is buffered now, with the last `late` bytes still to come. */
    method FillBuf(late: nat) returns (avail: seq<byte>)
      modifies this`chunks
      ensures Flatten(chunks) == old(Flatten(chunks))
      ensures avail == [] ==> |Flatten(chunks)| <= late
      ensures avail != [] ==> chunks != [] && avail <= chunks[0] && |avail| + late <= |Flatten(chunks)|
    {
      while chunks != [] && chunks[0] == []
        invariant Flatten(chunks) == old(Flatten(chunks))
        decreases |chunks|
      {
        chunks := chunks[1..];
      }
      if chunks == [] || |Flatten(chunks)| <= late { return []; }
      var arrived := |Flatten(chunks)| - late;
      avail := if |chunks[0]| <= arrived then chunks[0] else chunks[0][..arrived];
    }

    method Consume(n: nat)
      requires chunks != [] && n <= |chunks[0]|
      modifies this`chunks
      ensures Flatten(chunks) == old(Flatten(chunks))[n..]
    {
      ghost var was := chunks;
      assert Flatten(was)[n..] == was[0][n..] + Flatten(was[1..]);
      chunks := if n == |chunks[0]| then chunks[1..] else [chunks[0][n..]] + chunks[1..];
      if n < |was[0]| { assert chunks[1..] == was[1..]; }
    }

    /** `read_frame` as far as it gets before the last `late` bytes arrive; `closed` says that after them comes
        the end of input. Only the bytes decide what it gives, never the chunks they come in: a line leaves
        exactly what follows its newline, and a read that waits loses nothing. */
    method PollFrame(max: nat, late: nat, closed: bool) returns (f: Option<Frame>)
      requires Waits(max)
      modifies this
      ensures f == Poll(Seen(old(Bytes()), late), max, closed && late == 0)
      ensures f.Some? && f.value.Line? ==> Bytes() == After(old(Bytes())) && partial == []
      ensures f.None? ==> Bytes() == old(Bytes()) && Waits(max)
    {
      hide Poll, Newline, After, Flatten, Seen;
      ghost var all := Bytes();
      while true
        invariant all == partial + Flatten(chunks) && Waits(max)
        decreases |Flatten(chunks)|
      {
        var avail := FillBuf(late);
        if avail == [] {
          AllTaken(partial, Flatten(chunks), max, late, closed);
          if closed && late == 0 {
            partial := [];
            return Some(Eof);
          }
          return None;
        }
        FirstChunk(chunks);
        var i := Newline(avail);
        ghost var rest := Flatten(chunks)[|avail|..];
        assert Flatten(chunks) == avail + rest && all == partial + avail + rest;
        Decide(partial, avail, rest, max, late, closed && late == 0);
        if i < |avail| {
          Consume(i + 1);
          if |partial| + i > max {
            partial := [];
            return Some(TooLong);
          }
          f := Some(Line(partial + avail[..i]));
          partial := [];
          assert [] + Flatten(chunks) == Flatten(chunks);
          return;
        }
        if |partial| + |avail| > max {
          Consume(|avail|);
          partial := [];
          return Some(TooLong);
        }
        partial := partial + avail;
        Consume(|avail|);
      }
    }

    /** `read_frame`, waiting for as long as it takes. */
    method ReadFrame(max: nat) returns (f: Frame)
      requires partial == []
      modifies this
      ensures Some(f) == Poll(old(Bytes()), max, true)
      ensures f.Line? ==> Bytes() == After(old(Bytes())) && partial == []
    {
      hide Poll, Newline, After, Flatten;
      assert Seen(Bytes(), 0) == Bytes();
      var frame := PollFrame(max, 0, true);
      f := frame.value;
    }
  }

  lemma FirstChunk(chunks: seq<seq<byte>>)
    requires chunks != []
    ensures Flatten(chunks) == chunks[0] + Flatten(chunks[1..])
  {
  }

  /** Everything that has arrived was taken, and no frame was in it. */
  lemma AllTaken(taken: seq<byte>, rest: seq<byte>, max: nat, late: nat, closed: bool)
    requires NL !in taken && |taken| <= max && |rest| <= late
    ensures Poll(Seen(taken + rest, late), max, closed && late == 0) == if closed && late == 0 then Some(Eof) else None
  {
    var s := Seen(taken + rest, late);
    assert |s| <= |taken| && s == taken[..|s|];
    assert s[..|s|] == s;
    NewlineIs(s, |s|);
  }

  lemma PollIs(s: seq<byte>, max: nat, closed: bool)
    ensures Newline(s) < |s| ==>
              Poll(s, max, closed) == Some(if Newline(s) > max then TooLong else Line(s[..Newline(s)]))
              && After(s) == s[Newline(s) + 1..]
    ensures Newline(s) == |s| > max ==> Poll(s, max, closed) == Some(TooLong)
  {
    hide Newline;
  }

  /** What the next chunk decides, with `buf` read and no newline in it. */
  lemma Decide(buf: seq<byte>, avail: seq<byte>, rest: seq<byte>, max: nat, late: nat, closed: bool)
    requires NL !in buf && late <= |rest|
    ensures var (all, i) := (buf + avail + rest, Newline(avail));
            && (i < |avail| ==>
                  Poll(Seen(all, late), max, closed)
                  == Some(if |buf| + i > max then TooLong else Line(buf + avail[..i]))
                  && After(all) == (avail + rest)[i + 1..])
            && (i == |avail| ==>
                  NL !in avail
                  && (|buf| + |avail| > max ==> Poll(Seen(all, late), max, closed) == Some(TooLong)))
  {
    hide Newline, Poll, After, Seen;
    var now := rest[..|rest| - late];
    SeenIs(buf + avail, rest, late);
    DecideAt(buf, avail, now, max, closed);
    DecideAt(buf, avail, rest, max, closed);
  }

  lemma SeenIs(taken: seq<byte>, rest: seq<byte>, late: nat)
    requires late <= |rest|
    ensures Seen(taken + rest, late) == taken + rest[..|rest| - late]
  {
  }

  lemma DecideIs(all: seq<byte>, buf: seq<byte>, avail: seq<byte>, rest: seq<byte>, max: nat, closed: bool)
    requires |all| == |buf| + |avail| + |rest|
    requires var i := Newline(avail);
             && (i < |avail| ==> Newline(all) == |buf| + i && all[..|buf| + i] == buf + avail[..i]
                                 && all[|buf| + i + 1..] == (avail + rest)[i + 1..])
             && (i == |avail| ==> Newline(all) >= |buf| + |avail|)
    ensures var i := Newline(avail);
            && (i < |avail| ==>
                  Poll(all, max, closed) == Some(if |buf| + i > max then TooLong else Line(buf + avail[..i]))
                  && After(all) == (avail + rest)[i + 1..])
            && (i == |avail| && |buf| + |avail| > max ==> Poll(all, max, closed) == Some(TooLong))
  {
    hide Newline, Poll, After;
    PollIs(all, max, closed);
  }

  lemma DecideAt(buf: seq<byte>, avail: seq<byte>, rest: seq<byte>, max: nat, closed: bool)
    requires NL !in buf
    ensures var (all, i) := (buf + avail + rest, Newline(avail));
            && (i < |avail| ==>
                  Poll(all, max, closed) == Some(if |buf| + i > max then TooLong else Line(buf + avail[..i]))
                  && After(all) == (avail + rest)[i + 1..])
            && (i == |avail| ==> NL !in avail && (|buf| + |avail| > max ==> Poll(all, max, closed) == Some(TooLong)))
  {
    hide Poll, After;
    NewlineAt(buf, avail, rest);
    if Newline(avail) < |avail| { Cut(buf, avail, rest, Newline(avail)); }
    DecideIs(buf + avail + rest, buf, avail, rest, max, closed);
  }

  lemma Cut(buf: seq<byte>, avail: seq<byte>, rest: seq<byte>, i: nat)
    requires i < |avail|
    ensures var all := buf + avail + rest;
            all[..|buf| + i] == buf + avail[..i] && all[|buf| + i + 1..] == (avail + rest)[i + 1..]
  {
  }

  lemma NewlineIs(s: seq<byte>, i: nat)
    requires i <= |s| && NL !in s[..i] && (i < |s| ==> s[i] == NL)
    ensures Newline(s) == i
  {
    var j := Newline(s);
    assert forall k | 0 <= k < i :: s[..i][k] != NL;
    assert forall k | 0 <= k < j :: s[..j][k] != NL;
  }

  lemma NewlineAt(buf: seq<byte>, avail: seq<byte>, rest: seq<byte>)
    requires NL !in buf
    ensures Newline(avail) < |avail| ==> Newline(buf + avail + rest) == |buf| + Newline(avail)
    ensures Newline(avail) == |avail| ==> Newline(buf + avail + rest) >= |buf| + |avail| && NL !in avail
  {
    var s := buf + avail + rest;
    var i := Newline(avail);
    assert s[..|buf| + i] == buf + avail[..i];
    if i < |avail| {
      NewlineIs(s, |buf| + i);
    } else {
      assert avail[..i] == avail;
      assert forall k | 0 <= k < |buf| + |avail| :: s[k] == (buf + avail)[k] != NL;
    }
  }

  /** Bytes that have not arrived yet never change a frame already decided. */
  lemma PollStable(s: seq<byte>, more: seq<byte>, max: nat, closed: bool)
    requires Poll(s, max, false).Some?
    ensures Poll(s + more, max, closed) == Poll(s, max, false)
    ensures Poll(s, max, false).value.Line? ==> After(s + more) == After(s) + more
  {
    NewlineAt([], s, more);
    assert [] + s + more == s + more;
    var i := Newline(s);
    if i < |s| {
      assert (s + more)[..i] == s[..i] && (s + more)[i + 1..] == s[i + 1..] + more;
    }
  }

  /** Nor do they when the first of them are let in: what is decided before the last `late` bytes come is
      decided the same before the last `later`, and leaves the same. */
  lemma SeenStable(bytes: seq<byte>, late: nat, later: nat, max: nat, closed: bool, closedLater: bool)
    requires later <= late && (closed ==> closedLater)
    requires Poll(Seen(bytes, late), max, closed && late == 0).Some?
    ensures Poll(Seen(bytes, later), max, closedLater && later == 0)
            == Poll(Seen(bytes, late), max, closed && late == 0)
    ensures Poll(Seen(bytes, late), max, closed && late == 0).value.Line? ==>
              && |After(bytes)| < |bytes|
              && Seen(After(bytes), late) == After(Seen(bytes, late))
              && Seen(After(bytes), later) == After(Seen(bytes, later))
  {
    if late == 0 {
      assert Seen(bytes, 0) == bytes;
      assert Seen(After(bytes), 0) == After(bytes);
    } else {
      var (s, t) := (Seen(bytes, late), Seen(bytes, later));
      assert t == s + t[|s|..] && bytes == s + bytes[|s|..];
      PollStable(s, t[|s|..], max, closedLater && later == 0);
      PollStable(s, bytes[|s|..], max, true);
      if Poll(s, max, false).value.Line? {
        assert After(t) == After(s) + t[|s|..] && After(bytes) == After(s) + bytes[|s|..];
        assert |After(bytes)| < |bytes|;
        assert Seen(After(bytes), late) == After(s);
        assert Seen(After(bytes), later) == After(t);
      }
    }
  }

  /** Frames written one after another are read back one after another. */
  lemma FrameRead(line: seq<byte>, rest: seq<byte>, max: nat, closed: bool)
    requires NL !in line
    ensures Poll(line + [NL] + rest, max, closed) == Some(if |line| > max then TooLong else Line(line))
    ensures After(line + [NL] + rest) == rest
  {
    var s := line + [NL] + rest;
    assert s[..|line|] == line;
    NewlineIs(s, |line|);
    assert s[|line| + 1..] == rest;
  }
}
