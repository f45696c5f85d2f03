/** The wire: length-prefixed frames, the resumable receiver, and the queue that sends them. */
module Framing {
  import opened Basics

  const MAGIC: Bytes := [0x4D, 0x41, 0x4A, 0x49]
  const MAX_MESSAGE_SIZE := 32 * 1024 * 1024

  /** What `struct.pack(">I", ...)` can announce. */
  type Sendable = b: Bytes | |b| < 0x1_0000_0000

  function Frame(payload: Sendable): Bytes {
    MAGIC + U32(|payload|) + payload
  }

  // ----- what a stream of bytes means

  /** The payloads handed over, whether an exception ended the connection, and the bytes kept for later. */
  datatype Parsed = Parsed(delivered: seq<Bytes>, failed: bool, rest: Bytes)

  /** The whole stream read at once. `accepts` says which payloads the peer handles without an exception. */
  function Parse(accepts: Bytes -> bool, s: Bytes): Parsed
    decreases |s|
  {
    if |s| < 4 then Parsed([], false, s)
    else if s[..4] != MAGIC then Parsed([], true, [])
    else if |s| < 8 then Parsed([], false, s)
    else
      var len := FromBigEndian(s[4..8]);
      if len > MAX_MESSAGE_SIZE then Parsed([], true, [])
      else if |s| < 8 + len then Parsed([], false, s)
      else if !accepts(s[8..8 + len]) then Parsed([s[8..8 + len]], true, [])
      else
        var later := Parse(accepts, s[8 + len..]);
        Parsed([s[8..8 + len]] + later.delivered, later.failed, later.rest)
  }

  /** Carrying on from what was kept: first `earlier`, then `later`, unless `earlier` ended it. */
  function Then(earlier: Parsed, later: Parsed): Parsed {
    if earlier.failed then earlier else Parsed(earlier.delivered + later.delivered, later.failed, later.rest)
  }

  /** The stream starts with a complete frame, of `n` bytes with its header. */
  ghost predicate StartsWithFrame(s: Bytes, n: nat) {
    && 8 <= n <= |s| && s[..4] == MAGIC
    && FromBigEndian(s[4..8]) == n - 8 <= MAX_MESSAGE_SIZE
  }

  lemma ParseFrame(accepts: Bytes -> bool, s: Bytes, n: nat)
    requires StartsWithFrame(s, n)
    ensures Parse(accepts, s) ==
            Then(Parsed([s[8..n]], !accepts(s[8..n]), []), Parse(accepts, s[n..]))
  {
    hide FromBigEndian;
  }

  lemma ParseNoFrame(accepts: Bytes -> bool, s: Bytes)
    requires forall n :: !StartsWithFrame(s, n)
    ensures Parse(accepts, s) == Parsed([], false, s) || Parse(accepts, s) == Parsed([], true, [])
    ensures Parse(accepts, s).failed <==>
            |s| >= 4 && (s[..4] != MAGIC || (|s| >= 8 && FromBigEndian(s[4..8]) > MAX_MESSAGE_SIZE))
  {
    hide FromBigEndian;
    if |s| >= 8 {
      assert !StartsWithFrame(s, 8 + FromBigEndian(s[4..8]));
    }
  }

  lemma FailedStays(accepts: Bytes -> bool, s: Bytes, t: Bytes)
    requires |s| >= 4 && (s[..4] != MAGIC || (|s| >= 8 && FromBigEndian(s[4..8]) > MAX_MESSAGE_SIZE))
    ensures Parse(accepts, s + t) == Parsed([], true, [])
  {
    hide FromBigEndian;
    assert (s + t)[..4] == s[..4];
    if |s| >= 8 {
      assert (s + t)[4..8] == s[4..8];
    }
  }

  lemma FrameStays(s: Bytes, n: nat, t: Bytes)
    requires StartsWithFrame(s, n)
    ensures StartsWithFrame(s + t, n) && (s + t)[8..n] == s[8..n] && (s + t)[n..] == s[n..] + t
  {
    hide FromBigEndian;
    assert (s + t)[..4] == s[..4] && (s + t)[4..8] == s[4..8];
  }

  /** Reading a stream in two pieces is reading it whole: same payloads, same failure, same bytes kept. */
  lemma {:induction false} ParseInPieces(accepts: Bytes -> bool, s: Bytes, t: Bytes)
    ensures Parse(accepts, s + t) == Then(Parse(accepts, s), Parse(accepts, Parse(accepts, s).rest + t))
    decreases |s|
  {
    hide Parse, FromBigEndian;
    if n: nat :| StartsWithFrame(s, n) {
      FrameStays(s, n, t);
      ParseFrame(accepts, s, n);
      ParseFrame(accepts, s + t, n);
      ParseInPieces(accepts, s[n..], t);
      FramesAssociate(s[8..n], Parse(accepts, s[n..]), Parse(accepts, Parse(accepts, s[n..]).rest + t));
    } else {
      ParseNoFrame(accepts, s);
      if Parse(accepts, s).failed {
        FailedStays(accepts, s, t);
      } else {
        ThenNothing(Parse(accepts, s + t), s);
      }
    }
  }

  lemma ThenNothing(p: Parsed, rest: Bytes)
    ensures Then(Parsed([], false, rest), p) == p
  {
    assert [] + p.delivered == p.delivered;
  }

  lemma FramesAssociate(payload: Bytes, a: Parsed, b: Parsed)
    ensures Then(Parsed([payload], false, []), Then(a, b)) == Then(Then(Parsed([payload], false, []), a), b)
  {
    assert [payload] + (a.delivered + b.delivered) == ([payload] + a.delivered) + b.delivered;
  }

  // ----- the receiver

  /** The bytes since the last frame boundary, from what the receiver remembers of them. */
  ghost function Spelled(magicRead: bool, len: Option<u32>, buffer: Bytes): Bytes {
    (if magicRead then MAGIC else []) + (if len.Some? then U32(len.value) else []) + buffer
  }

  lemma SpelledMore(magicRead: bool, len: Option<u32>, buffer: Bytes, data: Bytes)
    ensures Spelled(magicRead, len, buffer + data) == Spelled(magicRead, len, buffer) + data
  {
  }

  lemma SpelledPlain(buffer: Bytes)
    ensures Spelled(false, None, buffer) == buffer
  {
  }

  lemma SpelledMagic(buffer: Bytes)
    requires |buffer| >= 4 && buffer[..4] == MAGIC
    ensures Spelled(true, None, buffer[4..]) == Spelled(false, None, buffer)
  {
    assert buffer == MAGIC + buffer[4..];
  }

  lemma BadMagicFails(accepts: Bytes -> bool, buffer: Bytes)
    requires |buffer| >= 4 && buffer[..4] != MAGIC
    ensures Parse(accepts, Spelled(false, None, buffer)) == Parsed([], true, [])
  {
    SpelledPlain(buffer);
  }

  lemma SpelledLength(accepts: Bytes -> bool, buffer: Bytes)
    requires |buffer| >= 4
    ensures Spelled(true, Some(FromU32(buffer[..4])), buffer[4..]) == Spelled(true, None, buffer)
    ensures FromU32(buffer[..4]) > MAX_MESSAGE_SIZE ==>
              Parse(accepts, Spelled(true, None, buffer)) == Parsed([], true, [])
  {
    hide FromBigEndian;
    var s := Spelled(true, None, buffer);
    FromBigEndianRoundTrip(buffer[..4]);
    assert buffer == buffer[..4] + buffer[4..];
    assert s[..4] == MAGIC && s[4..8] == buffer[..4];
  }

  /** A complete payload: the first of the stream, with the rest of the stream after it. */
  lemma FrameComplete(accepts: Bytes -> bool, len: u32, buffer: Bytes)
    requires len <= |buffer| && len <= MAX_MESSAGE_SIZE
    ensures Parse(accepts, Spelled(true, Some(len), buffer)) ==
            Then(Parsed([buffer[..len]], !accepts(buffer[..len]), []), Parse(accepts, buffer[len..]))
    ensures |buffer[len..]| < |Spelled(true, Some(len), buffer)|
  {
    hide Parse, FromBigEndian;
    var s, n := Spelled(true, Some(len), buffer), 8 + len;
    SpelledFrame(len, buffer);
    assert s[8..n] == buffer[..len] && s[n..] == buffer[len..];
    ParseFrame(accepts, s, n);
  }

  lemma HandedOver(before: seq<Bytes>, payload: Bytes, later: Parsed)
    ensures Then(Parsed([payload], true, []), later) == Parsed([payload], true, [])
    ensures var p := Then(Parsed([payload], false, []), later);
            && before + p.delivered == (before + [payload]) + later.delivered
            && p.failed == later.failed && p.rest == later.rest
  {
  }

  lemma StillWaiting(magicRead: bool, len: Option<u32>, buffer: Bytes)
    requires len == None ==> |buffer| < 4
    requires len.Some? ==> magicRead && |buffer| < len.value <= MAX_MESSAGE_SIZE
    ensures Waiting(magicRead, len, buffer)
  {
  }

  lemma SpelledFrame(len: u32, buffer: Bytes)
    ensures var s := Spelled(true, Some(len), buffer);
            && |s| == 8 + |buffer| && s[..4] == MAGIC && FromBigEndian(s[4..8]) == len && s[8..] == buffer
  {
    var s := Spelled(true, Some(len), buffer);
    assert s[4..8] == U32(len);
  }

  /** The receiver waits for more: the header is incomplete, or the payload is. */
  ghost predicate Waiting(magicRead: bool, len: Option<u32>, buffer: Bytes) {
    && (len == None ==> |buffer| < 4)
    && (len.Some? ==> magicRead && |buffer| < len.value <= MAX_MESSAGE_SIZE)
  }

  lemma WaitingParses(accepts: Bytes -> bool, magicRead: bool, len: Option<u32>, buffer: Bytes)
    requires Waiting(magicRead, len, buffer)
    ensures var s := Spelled(magicRead, len, buffer); Parse(accepts, s) == Parsed([], false, s)
  {
    hide FromBigEndian;
    if len.Some? {
      SpelledFrame(len.value, buffer);
    }
  }

  class MessageReceiver {
    const accepts: Bytes -> bool
    var buffer: Bytes
    var magicRead: bool
    var len: Option<u32>
    /** The payloads passed to `handle_message_data`, in order. */
    var delivered: seq<Bytes>

    ghost predicate Consistent()
      reads this
    {
      len.Some? ==> magicRead && len.value <= MAX_MESSAGE_SIZE
    }

    ghost function Pending(): Bytes
      reads this
    {
      Spelled(magicRead, len, buffer)
    }

    constructor (accepts: Bytes -> bool)
      ensures this.accepts == accepts && delivered == [] && Pending() == [] && Waiting(magicRead, len, buffer)
    {
      this.accepts := accepts;
      buffer := [];
      magicRead := false;
      len := None;
      delivered := [];
    }

    /** An exception ends the connection, so nothing is promised of the fields after one. */
    method Receive(data: Bytes) returns (r: Result<()>)
      requires Consistent()
      modifies this
      ensures var p := Parse(accepts, old(Pending()) + data);
              && delivered == old(delivered) + p.delivered
              && (r.Err? <==> p.failed)
              && (r.Ok? ==> Pending() == p.rest && Waiting(magicRead, len, buffer))
      decreases |Pending()| + |data|
    {
      hide Parse, Spelled, FromBigEndian, Waiting, Then;
      ghost var stream := Pending() + data;
      SpelledMore(magicRead, len, buffer, data);
      buffer := buffer + data;
      if !magicRead && |buffer| >= 4 {
        if buffer[..4] != MAGIC {
          BadMagicFails(accepts, buffer);
          return Err(PlainException);
        }
        SpelledMagic(buffer);
        magicRead := true;
        buffer := buffer[4..];
      }
      if len == None && |buffer| >= 4 {
        SpelledLength(accepts, buffer);
        len := Some(FromU32(buffer[..4]));
        if len.value > MAX_MESSAGE_SIZE {
          return Err(PlainException);
        }
        buffer := buffer[4..];
      }
      assert Pending() == stream;
      if len.Some? && len.value <= |buffer| {
        var payload := buffer[..len.value];
        ghost var left := buffer[len.value..];
        FrameComplete(accepts, len.value, buffer);
        SpelledPlain(left);
        HandedOver(delivered, payload, Parse(accepts, left));
        delivered := delivered + [payload];
        if !accepts(payload) {
          return Err(PlainException);
        }
        buffer := buffer[len.value..];
        magicRead := false;
        len := None;
        assert left + [] == left;
        r := Receive([]);
      } else {
        StillWaiting(magicRead, len, buffer);
        WaitingParses(accepts, magicRead, len, buffer);
        r := Ok(());
      }
    }

    /** Chunk after chunk until one raises. */
    method ReceiveAll(chunks: seq<Bytes>) returns (r: Result<()>)
      requires Waiting(magicRead, len, buffer)
      modifies this
      ensures var p := Parse(accepts, old(Pending()) + Joined(chunks));
              && delivered == old(delivered) + p.delivered
              && (r.Err? <==> p.failed)
              && (r.Ok? ==> Pending() == p.rest && Waiting(magicRead, len, buffer))
    {
      hide Parse, Spelled;
      ghost var start, done := Pending(), [];
      WaitingParses(accepts, magicRead, len, buffer);
      assert start + Joined([]) == start;
      for i := 0 to |chunks|
        invariant Waiting(magicRead, len, buffer)
        invariant Parse(accepts, start + Joined(chunks[..i])) == Parsed(done, false, Pending())
        invariant delivered == old(delivered) + done
      {
        ghost var before := start + Joined(chunks[..i]);
        ParseInPieces(accepts, before, chunks[i]);
        JoinedNext(chunks, i);
        assert before + chunks[i] == start + Joined(chunks[..i + 1]);
        ghost var step := Parse(accepts, Pending() + chunks[i]);
        assert old(delivered) + (done + step.delivered) == (old(delivered) + done) + step.delivered;
        r := Receive(chunks[i]);
        if r.Err? {
          JoinedSplit(chunks, i + 1);
          ParseInPieces(accepts, start + Joined(chunks[..i + 1]), Joined(chunks[i + 1..]));
          assert start + Joined(chunks) == (start + Joined(chunks[..i + 1])) + Joined(chunks[i + 1..]);
          return;
        }
        done := done + step.delivered;
      }
      assert chunks[..|chunks|] == chunks;
      r := Ok(());
    }
  }

  ghost function Joined(chunks: seq<Bytes>): Bytes {
    if chunks == [] then [] else chunks[0] + Joined(chunks[1..])
  }

  lemma {:induction false} JoinedSplit(chunks: seq<Bytes>, i: nat)
    requires i <= |chunks|
    ensures Joined(chunks) == Joined(chunks[..i]) + Joined(chunks[i..])
  {
    if i > 0 {
      JoinedSplit(chunks[1..], i - 1);
      assert chunks[..i][1..] == chunks[1..][..i - 1] && chunks[1..][i - 1..] == chunks[i..];
    } else {
      assert chunks[..0] == [] && chunks[0..] == chunks;
    }
  }

  lemma JoinedNext(chunks: seq<Bytes>, i: nat)
    requires i < |chunks|
    ensures Joined(chunks[..i + 1]) == Joined(chunks[..i]) + chunks[i]
  {
    JoinedSplit(chunks[..i + 1], i);
    assert chunks[..i + 1][..i] == chunks[..i] && chunks[..i + 1][i..] == [chunks[i]];
    assert Joined([chunks[i]]) == chunks[i] + [];
  }

  // ----- what a stream of frames means

  ghost function Frames(ps: seq<Sendable>): Bytes {
    if ps == [] then [] else Frame(ps[0]) + Frames(ps[1..])
  }

  lemma {:induction false} FramesSplit(ps: seq<Sendable>, qs: seq<Sendable>)
    ensures Frames(ps + qs) == Frames(ps) + Frames(qs)
    decreases |ps|
  {
    hide Frame;
    if ps == [] {
      assert ps + qs == qs;
    } else {
      FramesSplit(ps[1..], qs);
      assert (ps + qs)[1..] == ps[1..] + qs;
    }
  }

  /** The receiver can handle this payload. */
  ghost predicate Handled(accepts: Bytes -> bool, p: Bytes) {
    |p| <= MAX_MESSAGE_SIZE && accepts(p)
  }

  ghost predicate AllHandled(accepts: Bytes -> bool, ps: seq<Bytes>) {
    forall p | p in ps :: Handled(accepts, p)
  }

  lemma AllHandledStep(accepts: Bytes -> bool, ps: seq<Bytes>)
    requires ps != []
    ensures AllHandled(accepts, ps) <==> Handled(accepts, ps[0]) && AllHandled(accepts, ps[1..])
  {
    hide Handled;
    assert ps == [ps[0]] + ps[1..];
  }

  lemma FrameStarts(p: Sendable, more: Bytes)
    requires |p| <= MAX_MESSAGE_SIZE
    ensures var s := Frame(p) + more; StartsWithFrame(s, 8 + |p|) && s[8..8 + |p|] == p && s[8 + |p|..] == more
  {
    var s := Frame(p) + more;
    assert s[..4] == MAGIC && s[4..8] == U32(|p|);
  }

  lemma OversizeFails(accepts: Bytes -> bool, p: Sendable, more: Bytes)
    requires |p| > MAX_MESSAGE_SIZE
    ensures Parse(accepts, Frame(p) + more) == Parsed([], true, [])
  {
    hide FromBigEndian;
    var s := Frame(p) + more;
    assert s[..4] == MAGIC && s[4..8] == U32(|p|);
  }

  /** A stream of frames is read back as the payloads framed, and ends the connection exactly when one of them is
      too long or not accepted. */
  lemma {:induction false} FramesParse(accepts: Bytes -> bool, ps: seq<Sendable>)
    ensures Parse(accepts, Frames(ps)).failed <==> !AllHandled(accepts, ps)
    ensures !Parse(accepts, Frames(ps)).failed ==> Parse(accepts, Frames(ps)) == Parsed(ps, false, [])
    decreases |ps|
  {
    hide Parse, Frame, StartsWithFrame;
    if ps == [] {
      ParseNothing(accepts);
    } else {
      var p, rest := ps[0], Frames(ps[1..]);
      FramesParse(accepts, ps[1..]);
      assert ps == [p] + ps[1..];
      AllHandledStep(accepts, ps);
      if |p| > MAX_MESSAGE_SIZE {
        OversizeFails(accepts, p, rest);
      } else {
        FrameStarts(p, rest);
        ParseFrame(accepts, Frame(p) + rest, 8 + |p|);
      }
    }
  }

  lemma ParseNothing(accepts: Bytes -> bool)
    ensures Parse(accepts, []) == Parsed([], false, [])
  {
  }

  /** Cut the stream anywhere: what was delivered is a beginning of what was framed. */
  lemma PartialFrames(accepts: Bytes -> bool, ps: seq<Sendable>, s: Bytes, t: Bytes)
    requires Frames(ps) == s + t
    requires AllHandled(accepts, ps)
    ensures !Parse(accepts, s).failed && Parse(accepts, s).delivered <= ps
    ensures t == [] ==> Parse(accepts, s).delivered == ps
  {
    hide Parse, Frame;
    FramesParse(accepts, ps);
    ParseInPieces(accepts, s, t);
    if t == [] {
      assert s + t == s;
    }
  }
}
