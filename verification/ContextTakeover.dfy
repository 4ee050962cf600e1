/**
 Compression with context takeover (transport/websocket/transport.go:240-274, 302-332). Both ends
 keep the plaintexts so far, cut to a window, as the dictionary of the next message; DEFLATE is an
 abstract codec.
 */
module ContextTakeover {
  import opened ByteStrings
  import opened Prelude

  /** A decompressor yields some plaintext before it succeeds or fails. */
  datatype Inflated = Inflated(plain: Bytes, ok: bool)

  datatype Codec = Codec(deflate: (Bytes, Bytes) -> Bytes, inflate: (Bytes, Bytes) -> Inflated)

  ghost predicate Lossless(c: Codec) {
    forall dict, msg :: c.inflate(dict, c.deflate(dict, msg)) == Inflated(msg, true)
  }

  /** Config.WindowSize: 1 << WindowBits. */
  function WindowSize(bits: nat): nat {
    if bits == 0 then 1 else 2 * WindowSize(bits - 1)
  }

  /** The last `size` bytes. */
  function Last(size: nat, bs: Bytes): Bytes {
    if |bs| <= size then bs else bs[|bs| - size..]
  }

  /** The window size is 2 to the number of bits. */
  lemma {:induction false} WindowSizeIsPower(a: nat, b: nat)
    ensures WindowSize(0) == 1 && WindowSize(1) == 2
    ensures WindowSize(a + b) == WindowSize(a) * WindowSize(b)
  {
    if a > 0 { WindowSizeIsPower(a - 1, b); }
  }

  /** Never more than `size` bytes are kept, all of a short history, and always the end of it. */
  lemma LastIsEnd(size: nat, bs: Bytes)
    ensures |Last(size, bs)| == (if |bs| <= size then |bs| else size)
    ensures Last(size, bs) == bs[|bs| - |Last(size, bs)|..]
  {}

  /** Trimming after every message is trimming the whole history once. */
  lemma TrimAsYouGo(size: nat, history: Bytes, msg: Bytes)
    ensures Last(size, Last(size, history) + msg) == Last(size, history + msg)
  {}

  /** A window object: both buffers of a transport. */
  class Peer {
    const codec: Codec
    const bits: nat
    var writeWindowBuf: Bytes
    var readWindowBuf: Bytes

    constructor (codec: Codec, bits: nat)
      ensures this.codec == codec && this.bits == bits && writeWindowBuf == [] && readWindowBuf == []
    {
      this.codec, this.bits, writeWindowBuf, readWindowBuf := codec, bits, [], [];
    }

    /** The window moves on even when handing the result to the connection fails (`wireOk`). */
    method Encode(bs: Bytes, wireOk: bool) returns (out: Option<Bytes>)
      modifies this`writeWindowBuf
      ensures writeWindowBuf == Last(WindowSize(bits), old(writeWindowBuf) + bs)
      ensures out == if wireOk then Some(codec.deflate(old(writeWindowBuf), bs)) else None
    {
      var buf := codec.deflate(writeWindowBuf, bs);
      writeWindowBuf := writeWindowBuf + bs;
      if WindowSize(bits) < |writeWindowBuf| {
        writeWindowBuf := writeWindowBuf[|writeWindowBuf| - WindowSize(bits)..];
      }
      out := if wireOk then Some(buf) else None;
    }

    /** A failed decompression leaves what came out before the failure in the window, untrimmed. */
    method Decode(raw: Bytes) returns (out: Option<Bytes>)
      modifies this`readWindowBuf
      ensures var r := codec.inflate(old(readWindowBuf), raw);
        && out == (if r.ok then Some(r.plain) else None)
        && readWindowBuf == if r.ok then Last(WindowSize(bits), old(readWindowBuf) + r.plain)
                            else old(readWindowBuf) + r.plain
    {
      var r := codec.inflate(readWindowBuf, raw);
      readWindowBuf := readWindowBuf + r.plain;
      if !r.ok { return None; }
      if WindowSize(bits) < |readWindowBuf| {
        readWindowBuf := readWindowBuf[|readWindowBuf| - WindowSize(bits)..];
      }
      out := Some(r.plain);
    }
  }

  // ---- one direction of a connection ----

  datatype Link = Link(
    writeWindow: Bytes,
    readWindow: Bytes,
    inFlight: seq<Bytes>,              // compressed, in order
    sent: seq<Bytes>,                  // given to Encode and written
    received: seq<Option<Bytes>>)      // returned by Decode

  /** A failed write loses its message. */
  datatype Event = Write(msg: Bytes) | FailedWrite(msg: Bytes) | Read

  const NEW_LINK := Link([], [], [], [], [])

  predicate CanHappen(l: Link, e: Event) { e.Read? ==> l.inFlight != [] }

  function Happen(l: Link, e: Event, c: Codec, size: nat): Link
    requires CanHappen(l, e)
  {
    match e
    case Write(msg) =>
      l.(writeWindow := Last(size, l.writeWindow + msg), sent := l.sent + [msg],
         inFlight := l.inFlight + [c.deflate(l.writeWindow, msg)])
    case FailedWrite(msg) => l.(writeWindow := Last(size, l.writeWindow + msg))
    case Read =>
      var r := c.inflate(l.readWindow, l.inFlight[0]);
      l.(inFlight := l.inFlight[1..], received := l.received + [if r.ok then Some(r.plain) else None],
         readWindow := if r.ok then Last(size, l.readWindow + r.plain) else l.readWindow + r.plain)
  }

  ghost predicate Possible(l: Link, es: seq<Event>, c: Codec, size: nat)
    decreases |es|
  {
    es != [] ==> CanHappen(l, es[0]) && Possible(Happen(l, es[0], c, size), es[1..], c, size)
  }

  ghost function After(l: Link, es: seq<Event>, c: Codec, size: nat): Link
    requires Possible(l, es, c, size)
    decreases |es|
  {
    if es == [] then l else After(Happen(l, es[0], c, size), es[1..], c, size)
  }

  /** What is in flight was compressed against the window the reader will have. */
  ghost predicate Compressed(inFlight: seq<Bytes>, sent: seq<Bytes>, done: nat, c: Codec, size: nat) {
    && done + |inFlight| == |sent|
    && (forall k :: done <= k < |sent| ==> inFlight[k - done] == CompressedAt(sent, k, c, size))
  }

  function CompressedAt(sent: seq<Bytes>, k: nat, c: Codec, size: nat): Bytes
    requires k < |sent|
  {
    c.deflate(Last(size, Concat(sent[..k])), sent[k])
  }

  /** While no write has failed: both windows are suffixes of their histories, and what was received
      is what was sent. */
  ghost predicate InStep(l: Link, c: Codec, size: nat) {
    && Compressed(l.inFlight, l.sent, |l.received|, c, size)
    && (forall i :: 0 <= i < |l.received| ==> l.received[i] == Some(l.sent[i]))
    && l.writeWindow == Last(size, Concat(l.sent))
    && l.readWindow == Last(size, Concat(l.sent[..|l.received|]))
  }

  lemma CompressedSnoc(inFlight: seq<Bytes>, sent: seq<Bytes>, done: nat, msg: Bytes, c: Codec, size: nat)
    requires Compressed(inFlight, sent, done, c, size)
    ensures Compressed(inFlight + [c.deflate(Last(size, Concat(sent)), msg)], sent + [msg], done, c, size)
  {
    var sent' := sent + [msg];
    forall k | done <= k < |sent'|
      ensures (inFlight + [c.deflate(Last(size, Concat(sent)), msg)])[k - done] == CompressedAt(sent', k, c, size)
    {
      assert sent'[..k] == sent[..k];
      if k == |sent| { assert sent[..k] == sent; } else { assert inFlight[k - done] == CompressedAt(sent, k, c, size); }
    }
  }

  lemma WriteInStep(l: Link, msg: Bytes, c: Codec, size: nat)
    requires InStep(l, c, size)
    ensures InStep(Happen(l, Write(msg), c, size), c, size)
  {
    ConcatSnoc(l.sent, msg);
    TrimAsYouGo(size, Concat(l.sent), msg);
    CompressedSnoc(l.inFlight, l.sent, |l.received|, msg, c, size);
    assert (l.sent + [msg])[..|l.received|] == l.sent[..|l.received|];
  }

  lemma NextDecodes(l: Link, c: Codec, size: nat)
    requires Lossless(c) && InStep(l, c, size) && l.inFlight != []
    ensures c.inflate(l.readWindow, l.inFlight[0]) == Inflated(l.sent[|l.received|], true)
  {
    var k := |l.received|;
    assert l.inFlight[k - |l.received|] == CompressedAt(l.sent, k, c, size);
  }

  lemma WindowAdvances(sent: seq<Bytes>, k: nat, size: nat)
    requires k < |sent|
    ensures Last(size, Last(size, Concat(sent[..k])) + sent[k]) == Last(size, Concat(sent[..k + 1]))
  {
    assert sent[..k + 1] == sent[..k] + [sent[k]];
    ConcatSnoc(sent[..k], sent[k]);
    TrimAsYouGo(size, Concat(sent[..k]), sent[k]);
  }

  lemma CompressedTail(inFlight: seq<Bytes>, sent: seq<Bytes>, done: nat, c: Codec, size: nat)
    requires Compressed(inFlight, sent, done, c, size) && inFlight != []
    ensures Compressed(inFlight[1..], sent, done + 1, c, size)
  {
    forall k | done + 1 <= k < |sent| ensures inFlight[1..][k - (done + 1)] == CompressedAt(sent, k, c, size) {
      assert inFlight[k - done] == CompressedAt(sent, k, c, size);
    }
  }

  lemma ReadInStep(l: Link, c: Codec, size: nat)
    requires Lossless(c) && InStep(l, c, size) && l.inFlight != []
    ensures InStep(Happen(l, Read, c, size), c, size)
  {
    var k := |l.received|;
    NextDecodes(l, c, size);
    CompressedTail(l.inFlight, l.sent, k, c, size);
    WindowAdvances(l.sent, k, size);
  }

  ghost predicate NoFailure(es: seq<Event>) { forall i :: 0 <= i < |es| ==> !es[i].FailedWrite? }

  lemma {:induction false} StaysInStep(l: Link, es: seq<Event>, c: Codec, size: nat)
    requires Lossless(c) && InStep(l, c, size) && Possible(l, es, c, size) && NoFailure(es)
    ensures InStep(After(l, es, c, size), c, size)
    decreases |es|
  {
    if es != [] {
      match es[0] {
      case Write(msg) => WriteInStep(l, msg, c, size);
      case Read => ReadInStep(l, c, size);
      }
      StaysInStep(Happen(l, es[0], c, size), es[1..], c, size);
    }
  }

  /** However writes and reads interleave, messages are read as they were sent, in order; and the
      windows are the last bytes of what was written and of what was read. */
  lemma MessagesArriveIntact(es: seq<Event>, c: Codec, bits: nat)
    requires Lossless(c) && Possible(NEW_LINK, es, c, WindowSize(bits)) && NoFailure(es)
    ensures var l := After(NEW_LINK, es, c, WindowSize(bits));
      && |l.received| <= |l.sent|
      && (forall i :: 0 <= i < |l.received| ==> l.received[i] == Some(l.sent[i]))
      && l.writeWindow == Last(WindowSize(bits), Concat(l.sent))
      && l.readWindow == Last(WindowSize(bits), Concat(l.sent[..|l.received|]))
      && (l.inFlight == [] ==> l.writeWindow == l.readWindow)
  {
    StaysInStep(NEW_LINK, es, c, WindowSize(bits));
    var l := After(NEW_LINK, es, c, WindowSize(bits));
    assert l.sent[..|l.sent|] == l.sent;
  }

  // ---- after a failed write ----

  /** bs repeats itself every `period` bytes. */
  ghost predicate Periodic(bs: Bytes, period: nat) {
    forall i :: 0 <= i < |bs| - period ==> bs[i + period] == bs[i]
  }

  /** The lost message does not show in the window: it is empty, or the window is full and the message
      goes on repeating it. */
  ghost predicate Harmless(window: Bytes, msg: Bytes, size: nat) {
    msg == [] || (|window| == size && Periodic(window + msg, |msg|))
  }

  /** Losing a message leaves a window as it was exactly in these cases. */
  lemma WindowUnchangedIff(window: Bytes, msg: Bytes, size: nat)
    requires |window| <= size
    ensures Last(size, window + msg) == window <==> Harmless(window, msg, size)
  {
    var all, n := window + msg, |msg|;
    if |window| == size {
      assert Last(size, all) == all[n..];
      if all[n..] == window {
        forall i | 0 <= i < |all| - n ensures all[i + n] == all[i] { assert all[n..][i] == window[i]; }
      }
      if Periodic(all, n) {
        forall i | 0 <= i < size ensures all[n..][i] == window[i] { assert all[i + n] == all[i]; }
      }
    }
  }

  /** After a write that failed once everything before it was read, the two windows are still equal
      exactly when the lost message was harmless. */
  lemma FailedWriteKeepsWindowsIff(l: Link, msg: Bytes, c: Codec, size: nat)
    requires InStep(l, c, size) && l.inFlight == []
    ensures var l' := Happen(l, FailedWrite(msg), c, size);
      l'.writeWindow == l'.readWindow <==> Harmless(l.writeWindow, msg, size)
  {
    WindowUnchangedIff(l.writeWindow, msg, size);
    assert l.sent[..|l.sent|] == l.sent;
  }

  lemma {:induction false} WindowPositive(bits: nat)
    ensures WindowSize(bits) >= 1
  {
    if bits > 0 { WindowPositive(bits - 1); }
  }

  /** For instance, the first message of a link, unless it is empty. */
  lemma FirstMessageLost(msg: Bytes, c: Codec, bits: nat)
    requires msg != []
    ensures var l := Happen(NEW_LINK, FailedWrite(msg), c, WindowSize(bits)); l.writeWindow != l.readWindow
  {
    WindowPositive(bits);
    FailedWriteKeepsWindowsIff(NEW_LINK, msg, c, WindowSize(bits));
  }

  /** Whenever the lost message was harmless, every other message still arrives intact. */
  lemma HarmlessFailureIsForgotten(l: Link, msg: Bytes, es: seq<Event>, c: Codec, size: nat)
    requires Lossless(c) && InStep(l, c, size) && Harmless(l.writeWindow, msg, size)
    requires Possible(Happen(l, FailedWrite(msg), c, size), es, c, size) && NoFailure(es)
    ensures var l' := After(Happen(l, FailedWrite(msg), c, size), es, c, size);
      |l'.received| <= |l'.sent| && forall i :: 0 <= i < |l'.received| ==> l'.received[i] == Some(l'.sent[i])
  {
    WindowUnchangedIff(l.writeWindow, msg, size);
    StaysInStep(Happen(l, FailedWrite(msg), c, size), es, c, size);
  }

  /** A message compressed against `mine` and decompressed against `theirs`, by a codec c. */
  ghost predicate Survives(c: Codec, mine: Bytes, theirs: Bytes, msg: Bytes) {
    c.inflate(theirs, c.deflate(mine, msg)) == Inflated(msg, true)
  }

  function AfterPrefix(dict: Bytes, bs: Bytes): Inflated {
    if |dict| <= |bs| && bs[..|dict|] == dict then Inflated(bs[|dict|..], true) else Inflated([], false)
  }

  /** A codec that sends its dictionary along and insists on it. */
  function StrictCodec(): Codec {
    Codec((dict, msg) => dict + msg, (dict, bs) => AfterPrefix(dict, bs))
  }

  lemma StrictIsLossless()
    ensures Lossless(StrictCodec())
  {
    forall dict, msg ensures AfterPrefix(dict, dict + msg) == Inflated(msg, true) {
      assert (dict + msg)[..|dict|] == dict && (dict + msg)[|dict|..] == msg;
    }
  }

  lemma StrictNoticesEverything(mine: Bytes, theirs: Bytes, msg: Bytes)
    requires mine != theirs
    ensures !Survives(StrictCodec(), mine, theirs, msg)
  {
    var bs := mine + msg;
    if |theirs| == |mine| { assert bs[..|mine|] == mine; }
  }

  /** With different windows no message is safe: all codecs get a message across exactly when the windows
      are equal, whatever the message. So after a failed write the next message is safe with every
      codec exactly when the lost one was harmless. */
  lemma NextMessageSafeIff(window: Bytes, lost: Bytes, msg: Bytes, size: nat)
    requires |window| <= size
    ensures (forall c :: Lossless(c) ==> Survives(c, Last(size, window + lost), window, msg))
      <==> Harmless(window, lost, size)
  {
    WindowUnchangedIff(window, lost, size);
    StrictIsLossless();
    if Last(size, window + lost) != window {
      StrictNoticesEverything(Last(size, window + lost), window, msg);
    }
  }
}
