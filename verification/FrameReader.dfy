// Cutting frames out of a byte stream that arrives in pieces of any size.
module FrameReader {
  import opened Prelude
  import opened LittleEndian
  import opened Wire
  import opened Frame

  datatype Framed = Framed(header: Header, payload: seq<byte>)
  {
    predicate Valid() { header.Fits() && |payload| == header.len }
  }

  // ---- the stream ---------------------------------------------------------------------

  function KeyAfter(mix: u32 -> u32, key: u32, n: nat): u32
    decreases n
  {
    if n == 0 then key else KeyAfter(mix, mix(key), n - 1)
  }

  function WriteFrames(mix: u32 -> u32, key: u32, frames: seq<Framed>): seq<byte>
    decreases |frames|
  {
    if frames == [] then []
    else EncodeHeader(frames[0].header, key) + (frames[0].payload + WriteFrames(mix, mix(key), frames[1..]))
  }

  // ---- the reader's state -------------------------------------------------------------

  // Bytes not yet used, a header still waiting for its payload, the key, and the frames
  // handed on so far.
  datatype State = State(unread: seq<byte>, pending: Option<Header>, key: u32, handled: seq<Framed>)

  // Everything that can be cut from the unread bytes, one header or payload at a time.
  function Drain(mix: u32 -> u32, st: State): State
    decreases |st.unread|, if st.pending.Some? then 1 else 0
  {
    match st.pending
    case None =>
      if |st.unread| < HEADER_SIZE then st
      else
        NeverTooLong(st.unread[..HEADER_SIZE], st.key);
        var h := DecodeHeader(st.unread[..HEADER_SIZE], st.key).value;
        Drain(mix, State(st.unread[HEADER_SIZE..], Some(h), mix(st.key), st.handled))
    case Some(h) =>
      if |st.unread| < h.len then st
      else
        Drain(mix, State(st.unread[h.len..], None, st.key, st.handled + [Framed(h, st.unread[..h.len])]))
  }

  function Arrives(mix: u32 -> u32, st: State, chunk: seq<byte>): State {
    Drain(mix, st.(unread := st.unread + chunk))
  }

  function FeedAll(mix: u32 -> u32, st: State, chunks: seq<seq<byte>>): State {
    if chunks == [] then st else Arrives(mix, FeedAll(mix, st, chunks[..|chunks| - 1]), chunks[|chunks| - 1])
  }

  function Concat(chunks: seq<seq<byte>>): seq<byte> {
    if chunks == [] then [] else Concat(chunks[..|chunks| - 1]) + chunks[|chunks| - 1]
  }

  // ---- chunking does not matter -------------------------------------------------------

  // Draining early and then receiving more is receiving it all and draining once.
  lemma {:induction false} DrainThenMore(mix: u32 -> u32, st: State, more: seq<byte>)
    ensures Arrives(mix, Drain(mix, st), more) == Arrives(mix, st, more)
    decreases |st.unread|, if st.pending.Some? then 1 else 0
  {
    var all := st.unread + more;
    match st.pending {
      case None =>
        if |st.unread| >= HEADER_SIZE {
          NeverTooLong(st.unread[..HEADER_SIZE], st.key);
          var h := DecodeHeader(st.unread[..HEADER_SIZE], st.key).value;
          assert all[..HEADER_SIZE] == st.unread[..HEADER_SIZE];
          assert all[HEADER_SIZE..] == st.unread[HEADER_SIZE..] + more;
          DrainThenMore(mix, State(st.unread[HEADER_SIZE..], Some(h), mix(st.key), st.handled), more);
        }
      case Some(h) =>
        if |st.unread| >= h.len {
          assert all[..h.len] == st.unread[..h.len];
          assert all[h.len..] == st.unread[h.len..] + more;
          DrainThenMore(mix, State(st.unread[h.len..], None, st.key, st.handled + [Framed(h, st.unread[..h.len])]), more);
        }
    }
  }

  lemma {:induction false} ChunksAreOneRead(mix: u32 -> u32, st: State, chunks: seq<seq<byte>>)
    requires Drain(mix, st) == st
    ensures FeedAll(mix, st, chunks) == Arrives(mix, st, Concat(chunks))
  {
    if chunks == [] {
      assert st.unread + [] == st.unread;
    } else {
      var init, last := chunks[..|chunks| - 1], chunks[|chunks| - 1];
      ChunksAreOneRead(mix, st, init);
      DrainThenMore(mix, st.(unread := st.unread + Concat(init)), last);
      assert (st.unread + Concat(init)) + last == st.unread + (Concat(init) + last);
    }
  }

  // ---- what was sent is what is handed on ---------------------------------------------

  lemma FrameCut(mix: u32 -> u32, f: Framed, key: u32, rest: seq<byte>, done: seq<Framed>)
    requires f.Valid()
    ensures Drain(mix, State(EncodeHeader(f.header, key) + (f.payload + rest), None, key, done))
            == Drain(mix, State(rest, None, mix(key), done + [f]))
  {
    var head := EncodeHeader(f.header, key);
    var b := head + (f.payload + rest);
    HeaderRoundTrip(f.header, key);
    assert b[..HEADER_SIZE] == head && b[HEADER_SIZE..] == f.payload + rest;
    assert (f.payload + rest)[..f.header.len] == f.payload && (f.payload + rest)[f.header.len..] == rest;
  }

  lemma {:induction false} StreamIsRead(mix: u32 -> u32, frames: seq<Framed>, key: u32, done: seq<Framed>)
    requires forall k :: 0 <= k < |frames| ==> frames[k].Valid()
    ensures Drain(mix, State(WriteFrames(mix, key, frames), None, key, done))
            == State([], None, KeyAfter(mix, key, |frames|), done + frames)
    decreases |frames|
  {
    if frames == [] {
      assert done + frames == done;
    } else {
      var f, rest := frames[0], frames[1..];
      FrameCut(mix, f, key, WriteFrames(mix, mix(key), rest), done);
      StreamIsRead(mix, rest, mix(key), done + [f]);
      FirstMoved(done, frames);
    }
  }

  // Any list of frames, cut into any reads, is handed on as exactly that list, nothing is
  // left over, and the reader's key is where the writer's is.
  lemma ChunkingIndependent(mix: u32 -> u32, frames: seq<Framed>, key: u32, chunks: seq<seq<byte>>)
    requires forall k :: 0 <= k < |frames| ==> frames[k].Valid()
    requires Concat(chunks) == WriteFrames(mix, key, frames)
    ensures FeedAll(mix, State([], None, key, []), chunks) == State([], None, KeyAfter(mix, key, |frames|), frames)
  {
    ChunksAreOneRead(mix, State([], None, key, []), chunks);
    StreamIsRead(mix, frames, key, []);
    assert [] + Concat(chunks) == Concat(chunks);
    assert [] + frames == frames;
  }

  lemma {:induction false} HandledGrows(mix: u32 -> u32, st: State)
    ensures st.handled <= Drain(mix, st).handled
    decreases |st.unread|, if st.pending.Some? then 1 else 0
  {
    match st.pending {
      case None =>
        if |st.unread| >= HEADER_SIZE {
          NeverTooLong(st.unread[..HEADER_SIZE], st.key);
          var h := DecodeHeader(st.unread[..HEADER_SIZE], st.key).value;
          HandledGrows(mix, State(st.unread[HEADER_SIZE..], Some(h), mix(st.key), st.handled));
        }
      case Some(h) =>
        if |st.unread| >= h.len {
          HandledGrows(mix, State(st.unread[h.len..], None, st.key, st.handled + [Framed(h, st.unread[..h.len])]));
        }
    }
  }

  lemma {:induction false} ConcatSplit(a: seq<seq<byte>>, b: seq<seq<byte>>)
    ensures Concat(a + b) == Concat(a) + Concat(b)
    decreases |b|
  {
    if b == [] {
      assert a + b == a;
    } else {
      assert (a + b)[..|a + b| - 1] == a + b[..|b| - 1];
      ConcatSplit(a, b[..|b| - 1]);
    }
  }

  // After only part of the stream, what has been handed on is a prefix of what was sent.
  lemma PartialStream(mix: u32 -> u32, frames: seq<Framed>, key: u32, chunks: seq<seq<byte>>, k: nat)
    requires forall k :: 0 <= k < |frames| ==> frames[k].Valid()
    requires Concat(chunks) == WriteFrames(mix, key, frames) && k <= |chunks|
    ensures FeedAll(mix, State([], None, key, []), chunks[..k]).handled <= frames
  {
    ChunksSplit(chunks, k);
    ChunksAreOneRead(mix, State([], None, key, []), chunks[..k]);
    PartOfFrames(mix, frames, key, Concat(chunks[..k]), Concat(chunks[k..]));
  }

  lemma ChunksSplit(chunks: seq<seq<byte>>, k: nat)
    requires k <= |chunks|
    ensures Concat(chunks) == Concat(chunks[..k]) + Concat(chunks[k..])
  {
    ConcatSplit(chunks[..k], chunks[k..]);
    assert chunks[..k] + chunks[k..] == chunks;
  }

  lemma PartOfFrames(mix: u32 -> u32, frames: seq<Framed>, key: u32, early: seq<byte>, late: seq<byte>)
    requires forall k :: 0 <= k < |frames| ==> frames[k].Valid()
    requires early + late == WriteFrames(mix, key, frames)
    ensures Arrives(mix, State([], None, key, []), early).handled <= frames
  {
    PartOfStream(mix, State([], None, key, []), early, late);
    StreamIsRead(mix, frames, key, []);
    assert [] + (early + late) == early + late;
    assert [] + frames == frames;
  }

  // Whatever comes later, what has been handed on stays at the front.
  lemma PartOfStream(mix: u32 -> u32, st: State, early: seq<byte>, late: seq<byte>)
    ensures Arrives(mix, st, early).handled <= Arrives(mix, st, early + late).handled
  {
    var mid := Arrives(mix, st, early);
    DrainThenMore(mix, st.(unread := st.unread + early), late);
    assert (st.unread + early) + late == st.unread + (early + late);
    HandledGrows(mix, mid.(unread := mid.unread + late));
  }

  // ---- the program --------------------------------------------------------------------

  class InBuf {
    var data: seq<byte>
    var pos: nat

    ghost predicate Valid()
      reads this
    {
      pos <= |data|
    }

    ghost function Unread(): seq<byte>
      requires Valid()
      reads this
    {
      data[pos..]
    }

    constructor ()
      ensures Valid() && Unread() == []
    {
      data, pos := [], 0;
    }

    method Take(n: nat) returns (s: Option<seq<byte>>)
      requires Valid()
      modifies this
      ensures Valid()
      ensures if |old(Unread())| < n then s.None? && Unread() == old(Unread())
              else s == Some(old(Unread())[..n]) && Unread() == old(Unread())[n..]
    {
      if |data| - pos < n {
        return None;
      }
      s := Some(data[pos..pos + n]);
      assert data[pos..][..n] == data[pos..pos + n] && data[pos..][n..] == data[pos + n..];
      pos := pos + n;
    }

    // Drop used bytes once they are half the buffer: the unread bytes stay the same.
    method MakeRoom()
      requires Valid()
      modifies this
      ensures Valid() && Unread() == old(Unread())
    {
      if pos > 0 && pos >= |data| / 2 {
        data := data[pos..];
        pos := 0;
      }
    }

    method Receive(chunk: seq<byte>)
      requires Valid()
      modifies this
      ensures Valid() && Unread() == old(Unread()) + chunk
    {
      data := data + chunk;
    }
  }

  class Reader {
    const buf: InBuf
    const keys: KeyStream
    var pending: Option<Header>
    var handled: seq<Framed>

    ghost function Value(): State
      requires buf.Valid()
      reads this, buf, keys
    {
      State(buf.Unread(), pending, keys.key, handled)
    }

    constructor (keys: KeyStream)
      ensures fresh(buf) && this.keys == keys && buf.Valid()
      ensures Value() == State([], None, keys.key, [])
    {
      buf := new InBuf();
      this.keys := keys;
      pending, handled := None, [];
    }

    // The header in hand, or the next one if four bytes of it are there.
    method NextHeader() returns (h: Option<Header>)
      requires buf.Valid()
      modifies this`pending, buf, keys
      ensures buf.Valid() && h == pending
      ensures Drain(keys.mix, Value()) == Drain(keys.mix, old(Value()))
      ensures h.None? ==> Drain(keys.mix, old(Value())) == Value() == old(Value())
      ensures if old(pending).Some? then Value() == old(Value())
              else h.Some? ==> |buf.Unread()| + HEADER_SIZE == |old(buf.Unread())|
    {
      if pending.Some? {
        return pending;
      }
      var hb := buf.Take(HEADER_SIZE);
      if hb.None? {
        return None;
      }
      NeverTooLong(hb.value, keys.key);
      var decoded := keys.Decode(hb.value);
      pending := Some(decoded.value);
      return pending;
    }

    // One read from the socket: room, bytes, then every frame that is complete.
    method OnRead(chunk: seq<byte>)
      requires buf.Valid()
      modifies this, buf, keys
      ensures buf.Valid() && Value() == Arrives(keys.mix, old(Value()), chunk)
    {
      buf.MakeRoom();
      buf.Receive(chunk);
      ghost var start := Value();
      while true
        invariant buf.Valid() && Drain(keys.mix, Value()) == Drain(keys.mix, start)
        decreases |buf.Unread()|, if pending.Some? then 1 else 0
      {
        var h := NextHeader();
        if h.None? {
          break;
        }
        var payload := buf.Take(h.value.len);
        if payload.None? {
          break;
        }
        pending := None;
        handled := handled + [Framed(h.value, payload.value)];
      }
    }
  }

  // A session after its hello: whatever frames the client writes under the seed both sides
  // derive their keys from, and however the network cuts them, are handed on as they are.
  method ReadSession(seed: u32, chunks: seq<seq<byte>>, ghost frames: seq<Framed>) returns (handled: seq<Framed>)
    requires forall k :: 0 <= k < |frames| ==> frames[k].Valid()
    requires Concat(chunks) == WriteFrames(Feedback, Feedback(seed), frames)
    ensures handled == frames
  {
    var recv, send := FromSeed(seed);
    var reader := new Reader(recv);
    for i := 0 to |chunks|
      invariant reader.buf.Valid() && fresh(reader.buf) && fresh(reader.keys) && reader.keys.mix == Feedback
      invariant reader.Value() == FeedAll(Feedback, State([], None, Feedback(seed), []), chunks[..i])
    {
      assert chunks[..i + 1][..i] == chunks[..i];
      reader.OnRead(chunks[i]);
    }
    assert chunks[..|chunks|] == chunks;
    ChunkingIndependent(Feedback, frames, Feedback(seed), chunks);
    handled := reader.handled;
  }
}
