/** From a typed line to what the receiver shows: chunk, encrypt, print, parse, decrypt, decode. */
module Delivery {
  import opened Basics
  import opened CryptoSuite
  import opened Keyring
  import opened Wire
  import Chunker
  import Utf8

  const TS_TOLERANCE := 300

  predicate IsChannel(target: string) {
    target != "" && (target[0] == '#' || target[0] == '&' || target[0] == '!' || target[0] == '+')
  }

  /** `context_key` */
  function ContextKey(target: string, handle: Handle): string {
    if IsChannel(target) then target else "@" + handle
  }

  // ---------------------------------------------------------------- sending

  /** One chunk encrypted and printed; nothing where the associated data cannot be packed. */
  function ChunkLine(c: Suite, key: Bytes, channel: Channel, msgid: Bytes, ts: int, part: int, total: int, chunk: Bytes,
                     nonce: Bytes): Option<string>
  {
    match BuildAad(channel, msgid, ts, part, total)
    case None => None
    case Some(aad) => Some(EncodeWire(Line(msgid, ts, part, total, nonce, c.seal(key, nonce, aad, chunk))))
  }

  /** The lines of a message, as far as they come. */
  predicate LinesOf(c: Suite, key: Bytes, channel: Channel, msgid: Bytes, ts: int, chunks: seq<Bytes>,
                    nonces: seq<Bytes>, lines: seq<string>)
  {
    && |lines| <= |chunks| <= |nonces|
    && forall i | 0 <= i < |lines| ::
         ChunkLine(c, key, channel, msgid, ts, i + 1, |chunks|, chunks[i], nonces[i]) == Some(lines[i])
  }

  /** The loop of `hook_input_text_for_buffer` over the chunks, and whether it ran to the end. */
  method SendChunks(c: Suite, key: Bytes, channel: Channel, msgid: Bytes, ts: int, chunks: seq<Bytes>,
                    nonces: seq<Bytes>) returns (lines: seq<string>, ok: bool)
    requires |nonces| >= |chunks|
    ensures LinesOf(c, key, channel, msgid, ts, chunks, nonces, lines)
    ensures ok <==> |lines| == |chunks|
    ensures !ok ==> ChunkLine(c, key, channel, msgid, ts, |lines| + 1, |chunks|, chunks[|lines|], nonces[|lines|]).None?
  {
    lines := [];
    for i := 0 to |chunks|
      invariant |lines| == i
      invariant LinesOf(c, key, channel, msgid, ts, chunks, nonces, lines)
    {
      var line := ChunkLine(c, key, channel, msgid, ts, i + 1, |chunks|, chunks[i], nonces[i]);
      if line.None? {
        return lines, false;
      }
      OneMoreLine(c, key, channel, msgid, ts, chunks, nonces, lines, line.value);
      lines := lines + [line.value];
    }
    return lines, true;
  }

  lemma OneMoreLine(c: Suite, key: Bytes, channel: Channel, msgid: Bytes, ts: int, chunks: seq<Bytes>,
                    nonces: seq<Bytes>, lines: seq<string>, line: string)
    requires LinesOf(c, key, channel, msgid, ts, chunks, nonces, lines) && |lines| < |chunks|
    requires ChunkLine(c, key, channel, msgid, ts, |lines| + 1, |chunks|, chunks[|lines|], nonces[|lines|])
             == Some(line)
    ensures LinesOf(c, key, channel, msgid, ts, chunks, nonces, lines + [line])
  {
    var more := lines + [line];
    forall i | 0 <= i < |more|
      ensures ChunkLine(c, key, channel, msgid, ts, i + 1, |chunks|, chunks[i], nonces[i]) == Some(more[i])
    {
      assert i < |lines| ==> more[i] == lines[i];
    }
  }

  predicate Packable(channel: Channel, ts: int) {
    |Utf8.Encode(channel)| < 0x1_0000 && -TWO_64 / 2 <= ts < TWO_64 / 2
  }

  /** All lines of a text, if it can be cut up and packed: one for every piece. */
  function MessageOf(c: Suite, key: Bytes, channel: Channel, text: string, msgid: Bytes, ts: int, nonces: seq<Bytes>)
    : (lines: Option<seq<string>>)
    requires |nonces| >= Chunker.MAX_CHUNKS
    ensures lines.Some? <==> Chunker.SplitOutcome(text).Ok? && Packable(channel, ts)
    ensures lines.Some? ==> |lines.value| == |Chunker.Greedy(text)|
  {
    if Chunker.SplitOutcome(text).Err? || !Packable(channel, ts) then None
    else
      var chunks := Chunker.SplitOutcome(text).value;
      Some(seq(|chunks|, i requires 0 <= i < |chunks| =>
        PackedLine(c, key, channel, msgid, ts, i + 1, |chunks|, chunks[i], nonces[i])))
  }

  /** The line of a chunk that can be packed. */
  function PackedLine(c: Suite, key: Bytes, channel: Channel, msgid: Bytes, ts: int, part: int, total: int,
                      chunk: Bytes, nonce: Bytes): (line: string)
    requires Packable(channel, ts) && 1 <= part <= total <= Wire.MAX_CHUNKS
    ensures ChunkLine(c, key, channel, msgid, ts, part, total, chunk, nonce) == Some(line)
  {
    ChunkLine(c, key, channel, msgid, ts, part, total, chunk, nonce).value
  }

  /** The loop that runs to the end has sent them all. */
  lemma LoopSendsMessage(c: Suite, key: Bytes, channel: Channel, text: string, msgid: Bytes, ts: int,
                         nonces: seq<Bytes>, lines: seq<string>)
    requires |nonces| >= Chunker.MAX_CHUNKS && Chunker.SplitOutcome(text).Ok? && Packable(channel, ts)
    requires LinesOf(c, key, channel, msgid, ts, Chunker.SplitOutcome(text).value, nonces, lines)
    requires |lines| == |Chunker.SplitOutcome(text).value|
    ensures MessageOf(c, key, channel, text, msgid, ts, nonces) == Some(lines)
  {
    var all := MessageOf(c, key, channel, text, msgid, ts, nonces).value;
    forall i | 0 <= i < |lines|
      ensures all[i] == lines[i]
    {
      var chunks := Chunker.SplitOutcome(text).value;
      assert Some(lines[i]) == ChunkLine(c, key, channel, msgid, ts, i + 1, |chunks|, chunks[i], nonces[i]);
    }
    assert all == lines;
  }

  // ---------------------------------------------------------------- receiving

  datatype Received =
    | PassedThrough
    | Swallowed
    | KeyMissing
    | Shown(text: string)
    /** Bytes that are not UTF-8, shown with replacement characters. */
    | Garbled(bytes: Bytes)

  function Distance(a: int, b: int): nat {
    if a < b then b - a else a - b
  }

  function Decrypt(c: Suite, key: Bytes, channel: string, m: Line): Received {
    match BuildAad(channel, m.msgid, m.ts, m.part, m.total)
    case None => PassedThrough
    case Some(aad) =>
      match c.open(key, m.nonce, aad, m.ct)
      case None => Swallowed
      case Some(p) =>
        match Utf8.Decode(p)
        case None => Garbled(p)
        case Some(text) => Shown(text)
  }

  /** What `hook_irc_in_privmsg` makes of the text of a PRIVMSG. */
  function Receive(c: Suite, r: Ring, handle: Handle, target: string, text: string, now: real): Received {
    match ParseWire(text)
    case None => PassedThrough
    case Some(m) =>
      var channel := ContextKey(target, handle);
      if Distance(Seconds(now), m.ts) > TS_TOLERANCE then Swallowed
      else if !IsTrusted(r, handle, channel) then KeyMissing
      else Decrypt(c, r.incoming[(handle, channel)].sk, channel, m)
  }

  // ---------------------------------------------------------------- delivery

  /** One chunk that encodes `piece` arrives as `piece`. */
  lemma ChunkArrives(c: Suite, key: Bytes, channel: Channel, msgid: Bytes, ts: int, part: int, total: int,
                     piece: string, nonce: Bytes)
    requires c.SealsRight() && Packable(channel, ts) && 1 <= part <= total <= Wire.MAX_CHUNKS
    requires |msgid| == MSGID_LEN && |nonce| == NONCE_LEN
    ensures var line := ChunkLine(c, key, channel, msgid, ts, part, total, Utf8.Encode(piece), nonce);
            && line.Some? && ParseWire(line.value).Some?
            && ParseWire(line.value).value.ts == ts
            && Decrypt(c, key, channel, ParseWire(line.value).value) == Shown(piece)
  {
    var aad := BuildAad(channel, msgid, ts, part, total).value;
    var p := Utf8.Encode(piece);
    var ct := c.seal(key, nonce, aad, p);
    WireRoundTrip(Line(msgid, ts, part, total, nonce, ct));
    assert c.Sealed(key, nonce, aad, ct, p);
    Utf8.DecodeEncode(piece);
  }

  /** What the receiver makes of the lines one after the other. */
  function ReceiveAll(c: Suite, r: Ring, handle: Handle, target: string, lines: seq<string>, now: real): seq<Received> {
    seq(|lines|, i requires 0 <= i < |lines| => Receive(c, r, handle, target, lines[i], now))
  }

  /** What the user reads, if every line is shown. */
  function Reads(received: seq<Received>): Option<string> {
    if received == [] then Some("")
    else if !received[0].Shown? || Reads(received[1..]).None? then None
    else Some(received[0].text + Reads(received[1..]).value)
  }

  lemma {:induction false} ReadsPieces(received: seq<Received>, pieces: seq<string>)
    requires |received| == |pieces| && forall i | 0 <= i < |pieces| :: received[i] == Shown(pieces[i])
    ensures Reads(received) == Some(Chunker.Concat(pieces))
  {
    if pieces != [] {
      ReadsPieces(received[1..], pieces[1..]);
    }
  }

  /** A receiver that holds the sender's key, within the tolerance, reads the text that was typed. */
  lemma MessageArrives(c: Suite, r: Ring, handle: Handle, channel: Channel, text: string, msgid: Bytes, ts: int,
                       nonces: seq<Bytes>, now: real)
    requires c.SealsRight() && IsChannel(channel) && Packable(channel, ts) && IsTrusted(r, handle, channel)
    requires |msgid| == MSGID_LEN && |nonces| >= Chunker.MAX_CHUNKS
    requires forall i | 0 <= i < |nonces| :: |nonces[i]| == NONCE_LEN
    requires Distance(Seconds(now), ts) <= TS_TOLERANCE
    requires Chunker.SplitOutcome(text).Ok?
    ensures var key := r.incoming[(handle, channel)].sk;
            var lines := MessageOf(c, key, channel, text, msgid, ts, nonces).value;
            Reads(ReceiveAll(c, r, handle, channel, lines, now)) == Some(text)
  {
    var pieces := Chunker.Greedy(text);
    Chunker.GreedyIsLegal(text);
    var key := r.incoming[(handle, channel)].sk;
    var lines := MessageOf(c, key, channel, text, msgid, ts, nonces).value;
    forall i | 0 <= i < |pieces|
      ensures Receive(c, r, handle, channel, lines[i], now) == Shown(pieces[i])
    {
      assert Chunker.EncodeAll(pieces)[i] == Utf8.Encode(pieces[i]);
      LineArrives(c, r, handle, channel, msgid, ts, i + 1, |pieces|, pieces[i], nonces[i], lines[i], now);
    }
    ReadsPieces(ReceiveAll(c, r, handle, channel, lines, now), pieces);
  }

  lemma LineArrives(c: Suite, r: Ring, handle: Handle, channel: Channel, msgid: Bytes, ts: int, part: int, total: int,
                    piece: string, nonce: Bytes, line: string, now: real)
    requires c.SealsRight() && IsChannel(channel) && Packable(channel, ts) && IsTrusted(r, handle, channel)
    requires |msgid| == MSGID_LEN && |nonce| == NONCE_LEN && 1 <= part <= total <= Wire.MAX_CHUNKS
    requires Distance(Seconds(now), ts) <= TS_TOLERANCE
    requires ChunkLine(c, r.incoming[(handle, channel)].sk, channel, msgid, ts, part, total, Utf8.Encode(piece), nonce)
             == Some(line)
    ensures Receive(c, r, handle, channel, line, now) == Shown(piece)
  {
    ChunkArrives(c, r.incoming[(handle, channel)].sk, channel, msgid, ts, part, total, piece, nonce);
  }

  /** The sending loop never stops short on a channel whose name and time can be packed, so the whole
      text is shown. */
  lemma AllChunksGo(c: Suite, key: Bytes, channel: Channel, msgid: Bytes, ts: int, part: int, total: int, chunk: Bytes,
                    nonce: Bytes)
    requires 1 <= part <= total <= Wire.MAX_CHUNKS
    ensures ChunkLine(c, key, channel, msgid, ts, part, total, chunk, nonce).Some? <==> Packable(channel, ts)
  {
  }

  /** No line is longer than 340 bytes while timestamps have ten digits. */
  lemma LinesAreShort(c: Suite, key: Bytes, channel: Channel, msgid: Bytes, ts: int, text: string, nonces: seq<Bytes>,
                      lines: seq<string>, i: nat)
    requires c.Sized() && |msgid| == MSGID_LEN && forall j | 0 <= j < |nonces| :: |nonces[j]| == NONCE_LEN
    requires Chunker.SplitOutcome(text).Ok? && 0 <= ts < 10_000_000_000
    requires LinesOf(c, key, channel, msgid, ts, Chunker.SplitOutcome(text).value, nonces, lines) && i < |lines|
    ensures Utf8.Size(lines[i]) <= 340
  {
    var pieces := Chunker.Greedy(text);
    Chunker.GreedyIsLegal(text);
    var chunk := Chunker.EncodeAll(pieces)[i];
    var aad := BuildAad(channel, msgid, ts, i + 1, |pieces|).value;
    WireLength(Line(msgid, ts, i + 1, |pieces|, nonces[i], c.seal(key, nonces[i], aad, chunk)));
  }

  /** Whatever is shown was sealed under the key trusted for its sender, for this very place: the channel,
      message, time, and part the receiver read off the line. */
  lemma ShownWasSealed(c: Suite, r: Ring, handle: Handle, target: string, text: string, now: real, shown: string)
    requires c.SealsRight() && Receive(c, r, handle, target, text, now) == Shown(shown)
    ensures var channel := ContextKey(target, handle);
            && ParseWire(text).Some? && IsTrusted(r, handle, channel)
            && var m := ParseWire(text).value; var aad := BuildAad(channel, m.msgid, m.ts, m.part, m.total);
               && Distance(Seconds(now), m.ts) <= TS_TOLERANCE && aad.Some?
               && exists p :: Utf8.Decode(p) == Some(shown)
                    && m.ct == c.seal(r.incoming[(handle, channel)].sk, m.nonce, aad.value, p)
  {
    var channel := ContextKey(target, handle);
    var m := ParseWire(text).value;
    var aad := BuildAad(channel, m.msgid, m.ts, m.part, m.total).value;
    var key := r.incoming[(handle, channel)].sk;
    var p := c.open(key, m.nonce, aad, m.ct).value;
    assert c.Sealed(key, m.nonce, aad, m.ct, p);
  }

  // ---------------------------------------------------------------- when what is shown

  /** What a conversation is called: a channel by its name, which starts with one of four signs, and a query by the
      handle of the other side. */
  function Conversation(target: string, handle: Handle): string {
    if target != "" && target[0] in "#&!+" then target else "@" + handle
  }

  /** The clocks agree to five minutes. */
  predicate InTime(now: real, ts: int) {
    -300 <= now.Floor - ts <= 300
  }

  predicate KeyHeld(r: Ring, handle: Handle, channel: string) {
    (handle, channel) in r.incoming && r.incoming[(handle, channel)].status == Trusted
  }

  /** The line opens, with the sender's key and for this very place, to these bytes. */
  predicate OpensTo(c: Suite, r: Ring, handle: Handle, channel: string, m: Line, p: Bytes)
    requires KeyHeld(r, handle, channel)
  {
    var aad := BuildAad(channel, m.msgid, m.ts, m.part, m.total);
    aad.Some? && c.open(r.incoming[(handle, channel)].sk, m.nonce, aad.value, m.ct) == Some(p)
  }

  /** What becomes of a line that is no line of ours, comes at the wrong time, has no key, or opens to a text: it is
      left alone, dropped, answered by asking for the key, or shown; each in no other case, but that a channel name
      too long to be packed is left alone as well. */
  lemma ReceiveMeans(c: Suite, r: Ring, handle: Handle, target: string, text: string, now: real)
    ensures var (out, channel) := (Receive(c, r, handle, target, text, now), Conversation(target, handle));
            match ParseWire(text)
            case None => out == PassedThrough
            case Some(m) =>
              && (!InTime(now, m.ts) ==> out == Swallowed)
              && (out == KeyMissing <==> InTime(now, m.ts) && !KeyHeld(r, handle, channel))
              && (out == PassedThrough <==>
                    InTime(now, m.ts) && KeyHeld(r, handle, channel) && !Packable(channel, m.ts))
              && (forall shown :: out == Shown(shown) <==>
                    InTime(now, m.ts) && KeyHeld(r, handle, channel)
                    && OpensTo(c, r, handle, channel, m, Utf8.Encode(shown)))
              && (forall p :: out == Garbled(p) <==>
                    InTime(now, m.ts) && KeyHeld(r, handle, channel) && OpensTo(c, r, handle, channel, m, p)
                    && Utf8.Decode(p) == None)
  {
    var channel := Conversation(target, handle);
    assert ContextKey(target, handle) == channel;
    if ParseWire(text).Some? {
      var m := ParseWire(text).value;
      ReceiveIs(c, r, handle, target, text, m, now);
      if KeyHeld(r, handle, channel) {
        DecryptMeans(c, r, handle, channel, m);
      }
    }
  }

  lemma ReceiveIs(c: Suite, r: Ring, handle: Handle, target: string, text: string, m: Line, now: real)
    requires ParseWire(text) == Some(m)
    ensures var channel := ContextKey(target, handle);
            Receive(c, r, handle, target, text, now)
            == if !InTime(now, m.ts) then Swallowed
               else if KeyHeld(r, handle, channel) then Decrypt(c, r.incoming[(handle, channel)].sk, channel, m)
               else KeyMissing
  {
  }

  lemma DecryptMeans(c: Suite, r: Ring, handle: Handle, channel: string, m: Line)
    requires KeyHeld(r, handle, channel) && 1 <= m.part <= m.total <= Wire.MAX_CHUNKS
    ensures var out := Decrypt(c, r.incoming[(handle, channel)].sk, channel, m);
            && out != KeyMissing && (out == PassedThrough <==> !Packable(channel, m.ts))
            && (forall shown :: out == Shown(shown) <==> OpensTo(c, r, handle, channel, m, Utf8.Encode(shown)))
            && (forall p :: out == Garbled(p) <==> OpensTo(c, r, handle, channel, m, p) && Utf8.Decode(p) == None)
  {
    forall shown
      ensures Decrypt(c, r.incoming[(handle, channel)].sk, channel, m) == Shown(shown)
              <==> OpensTo(c, r, handle, channel, m, Utf8.Encode(shown))
    {
      DecryptShows(c, r, handle, channel, m, shown);
    }
  }

  lemma DecryptShows(c: Suite, r: Ring, handle: Handle, channel: string, m: Line, shown: string)
    requires KeyHeld(r, handle, channel)
    ensures Decrypt(c, r.incoming[(handle, channel)].sk, channel, m) == Shown(shown)
            <==> OpensTo(c, r, handle, channel, m, Utf8.Encode(shown))
  {
    Utf8.DecodeEncode(shown);
    var aad := BuildAad(channel, m.msgid, m.ts, m.part, m.total);
    if aad.Some? && c.open(r.incoming[(handle, channel)].sk, m.nonce, aad.value, m.ct).Some? {
      Utf8.DecodeStrict(c.open(r.incoming[(handle, channel)].sk, m.nonce, aad.value, m.ct).value, shown);
    }
  }
}
