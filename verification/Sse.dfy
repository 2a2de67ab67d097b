/**
 Rewriting responses for buyers and operators (apps/api/src/return_agent/auth.py, the projected
 send of DemoAuthMiddleware): event streams frame by frame, JSON bodies as a whole, anything else
 unchanged, however the body is cut into chunks.
 */
module Sse {
  import opened Common
  import PublicProjection

  newtype byte = x: int | 0 <= x < 256

  type Bytes = seq<byte>

  const LF: byte := 10

  /** "data: " */
  const DATA: Bytes := [100, 97, 116, 97, 58, 32]

  const BREAK: Bytes := [LF, LF]

  datatype Kind = EventStream | JsonBody | Opaque

  /** json.loads, json.dumps and the risky-text search. */
  datatype Codec = Codec(parse: Bytes -> Option<PublicProjection.Json>, show: PublicProjection.Json -> Bytes, risky: string -> bool)

  /** Decode, project, encode; None when a step raises. */
  function Rewritten(codec: Codec, text: Bytes): Option<Bytes> {
    var value := codec.parse(text);
    if value.None? then None
    else
      var shown := PublicProjection.Project(codec.risky, value.value);
      if shown.None? then None else Some(codec.show(shown.value))
  }

  // ------------------------------------------------------------------ lines

  function FirstLine(s: Bytes): nat
    ensures FirstLine(s) <= |s| && LF !in s[..FirstLine(s)] && (FirstLine(s) < |s| ==> s[FirstLine(s)] == LF)
  {
    if s == [] || s[0] == LF then 0
    else
      assert s[..1 + FirstLine(s[1..])] == [s[0]] + s[1..][..FirstLine(s[1..])];
      1 + FirstLine(s[1..])
  }

  /** split at single line feeds */
  function Lines(s: Bytes): seq<Bytes>
    decreases |s|
  {
    var n := FirstLine(s);
    if n == |s| then [s] else [s[..n]] + Lines(s[n + 1..])
  }

  function JoinLines(lines: seq<Bytes>): Bytes
    requires lines != []
  {
    if |lines| == 1 then lines[0] else lines[0] + [LF] + JoinLines(lines[1..])
  }

  predicate IsData(line: Bytes) { DATA <= line }

  function RenderLine(codec: Codec, line: Bytes): Option<Bytes> {
    if IsData(line) then
      var text := Rewritten(codec, line[|DATA|..]);
      if text.None? then None else Some(DATA + text.value)
    else Some(line)
  }

  function RenderLines(codec: Codec, lines: seq<Bytes>): (shown: Option<seq<Bytes>>)
    ensures shown.Some? ==> |shown.value| == |lines|
  {
    if lines == [] then Some([])
    else
      var first, rest := RenderLine(codec, lines[0]), RenderLines(codec, lines[1..]);
      if first.None? || rest.None? then None else Some([first.value] + rest.value)
  }

  /** One frame with its terminator; None when a data line does not decode or project. */
  function RenderFrame(codec: Codec, frame: Bytes): Option<Bytes> {
    LinesAreSome(frame);
    var lines := RenderLines(codec, Lines(frame));
    if lines.None? then None else Some(JoinLines(lines.value) + BREAK)
  }

  lemma LinesAreSome(s: Bytes)
    ensures Lines(s) != []
  {
  }

  // ------------------------------------------------------------------ frames

  predicate BreakAt(s: Bytes, k: nat) { k + 1 < |s| && s[k] == LF && s[k + 1] == LF }

  /** The position of the first empty line, or the length. */
  function FirstBreak(s: Bytes): (n: nat)
    ensures n <= |s| && (n < |s| ==> BreakAt(s, n))
    ensures forall k :: 0 <= k < n ==> !BreakAt(s, k)
  {
    if |s| < 2 then |s|
    else if BreakAt(s, 0) then 0
    else
      var n := FirstBreak(s[1..]);
      assert forall k :: 0 < k < |s| ==> (BreakAt(s, k) <==> BreakAt(s[1..], k - 1));
      1 + n
  }

  /** split at empty lines, left to right: all but the last piece. */
  function Frames(s: Bytes): seq<Bytes>
    decreases |s|
  {
    var n := FirstBreak(s);
    if n == |s| then [] else [s[..n]] + Frames(s[n + 2..])
  }

  /** The last piece of the split: the unfinished frame. */
  function Tail(s: Bytes): Bytes
    decreases |s|
  {
    var n := FirstBreak(s);
    if n == |s| then s else Tail(s[n + 2..])
  }

  function RenderFrames(codec: Codec, frames: seq<Bytes>): Option<Bytes> {
    if frames == [] then Some([])
    else
      Both(RenderFrame(codec, frames[0]), RenderFrames(codec, frames[1..]))
  }

  function Both(a: Option<Bytes>, b: Option<Bytes>): Option<Bytes> { if a.None? || b.None? then None else Some(a.value + b.value) }

  lemma BothIsAssociative(a: Option<Bytes>, b: Option<Bytes>, c: Option<Bytes>)
    ensures Both(Both(a, b), c) == Both(a, Both(b, c)) && Both(Some([]), c) == c
  {
    if a.Some? && b.Some? && c.Some? { assert a.value + b.value + c.value == a.value + (b.value + c.value); }
    if c.Some? { assert [] + c.value == c.value; }
  }

  lemma {:induction false} RenderConcat(codec: Codec, some: seq<Bytes>, others: seq<Bytes>)
    ensures RenderFrames(codec, some + others) == Both(RenderFrames(codec, some), RenderFrames(codec, others))
  {
    if some == [] {
      assert some + others == others;
      BothIsAssociative(None, None, RenderFrames(codec, others));
    } else {
      RenderConcat(codec, some[1..], others);
      assert (some + others)[1..] == some[1..] + others && (some + others)[0] == some[0];
      BothIsAssociative(RenderFrame(codec, some[0]), RenderFrames(codec, some[1..]), RenderFrames(codec, others));
    }
  }

  lemma BreakIsUnique(s: Bytes, n: nat)
    requires BreakAt(s, n) && forall k :: 0 <= k < n ==> !BreakAt(s, k)
    ensures FirstBreak(s) == n
  {
  }

  lemma SplitAtBreak(s: Bytes, n: nat)
    requires n == FirstBreak(s) < |s|
    ensures Frames(s) == [s[..n]] + Frames(s[n + 2..]) && Tail(s) == Tail(s[n + 2..])
  {
  }

  /** Splitting what has arrived, and later the unfinished rest with what follows, is splitting all at once. */
  lemma {:induction false} SplitInParts(s: Bytes, more: Bytes)
    ensures Frames(s + more) == Frames(s) + Frames(Tail(s) + more)
    ensures Tail(s + more) == Tail(Tail(s) + more)
    decreases |s|
  {
    var n := FirstBreak(s);
    if n < |s| {
      var all, rest := s + more, s[n + 2..];
      assert forall k :: 0 <= k <= n ==> (BreakAt(all, k) <==> BreakAt(s, k));
      BreakIsUnique(all, n);
      assert all[n + 2..] == rest + more && all[..n] == s[..n];
      SplitInParts(rest, more);
      SplitAtBreak(s, n);
      SplitAtBreak(all, n);
      PrependFrame(s[..n], Frames(rest), Frames(Tail(rest) + more));
    } else {
      assert Frames(s) == [];
    }
  }

  lemma PrependFrame(frame: Bytes, some: seq<Bytes>, others: seq<Bytes>)
    ensures [frame] + (some + others) == [frame] + some + others
  {
  }

  lemma {:induction false} TailHasNoBreak(s: Bytes)
    ensures Frames(Tail(s)) == [] && Tail(Tail(s)) == Tail(s)
    decreases |s|
  {
    if FirstBreak(s) < |s| { TailHasNoBreak(s[FirstBreak(s) + 2..]); }
  }

  // ------------------------------------------------------------------ the rewriter

  /** What one body message sends on; `Raised` ends the response. */
  datatype Sent = Raised | Nothing | Body(body: Bytes)

  function BodyTx(codec: Codec, kind: Kind, pending: Bytes, body: Bytes, more: bool): (Sent, Bytes) {
    var all := pending + body;
    match kind
    case EventStream =>
      var shown := RenderFrames(codec, Frames(all));
      if shown.None? then (Raised, Tail(all))
      else if more then (Body(shown.value), Tail(all)) else (Body(shown.value + Tail(all)), [])
    case JsonBody =>
      if more then (Nothing, all)
      else
        var shown := Rewritten(codec, all);
        if shown.None? then (Raised, all) else (Body(shown.value), [])
    case Opaque => (Body(all), [])
  }

  /** The output after some chunks that are not the last, or None once a message raised. */
  datatype Progress = Failed | Going(output: Bytes, pending: Bytes)

  function Send(codec: Codec, kind: Kind, progress: Progress, body: Bytes, more: bool): Progress {
    if progress.Failed? then Failed
    else
      var (sent, pending) := BodyTx(codec, kind, progress.pending, body, more);
      match sent
      case Raised => Failed
      case Nothing => Going(progress.output, pending)
      case Body(shown) => Going(progress.output + shown, pending)
  }

  function SendAll(codec: Codec, kind: Kind, chunks: seq<Bytes>): Progress {
    if chunks == [] then Going([], []) else Send(codec, kind, SendAll(codec, kind, chunks[..|chunks| - 1]), chunks[|chunks| - 1], true)
  }

  /** A whole response: some chunks, and a last one. */
  function Response(codec: Codec, kind: Kind, chunks: seq<Bytes>, last: Bytes): Progress {
    Send(codec, kind, SendAll(codec, kind, chunks), last, false)
  }

  function Concat(chunks: seq<Bytes>): Bytes {
    if chunks == [] then [] else Concat(chunks[..|chunks| - 1]) + chunks[|chunks| - 1]
  }

  /** What the response should be, as a function of the whole body. */
  function Whole(codec: Codec, kind: Kind, body: Bytes): Progress {
    match kind
    case EventStream =>
      var shown := RenderFrames(codec, Frames(body));
      if shown.None? then Failed else Going(shown.value + Tail(body), [])
    case JsonBody =>
      var shown := Rewritten(codec, body);
      if shown.None? then Failed else Going(shown.value, [])
    case Opaque => Going(body, [])
  }

  /** Half way: what was sent and what is held back determine each other from the bytes received. */
  function Partial(codec: Codec, kind: Kind, body: Bytes): Progress {
    match kind
    case EventStream =>
      var shown := RenderFrames(codec, Frames(body));
      if shown.None? then Failed else Going(shown.value, Tail(body))
    case JsonBody => Going([], body)
    case Opaque => Going(body, [])
  }

  lemma StreamStep(codec: Codec, received: Bytes, chunk: Bytes)
    ensures RenderFrames(codec, Frames(received + chunk))
         == Both(RenderFrames(codec, Frames(received)), RenderFrames(codec, Frames(Tail(received) + chunk)))
    ensures Tail(received + chunk) == Tail(Tail(received) + chunk)
  {
    SplitInParts(received, chunk);
    RenderConcat(codec, Frames(received), Frames(Tail(received) + chunk));
  }

  /** What one message of an event stream leaves, given what its complete frames render to. */
  function AfterFrames(progress: Progress, shown: Option<Bytes>, tail: Bytes, more: bool): Progress {
    if progress.Failed? || shown.None? then Failed
    else if more then Going(progress.output + shown.value, tail) else Going(progress.output + (shown.value + tail), [])
  }

  lemma SendRenders(codec: Codec, progress: Progress, chunk: Bytes, more: bool)
    requires progress.Going?
    ensures var all := progress.pending + chunk;
      Send(codec, EventStream, progress, chunk, more) == AfterFrames(progress, RenderFrames(codec, Frames(all)), Tail(all), more)
  {
  }

  /** One more chunk of an event stream. */
  lemma StreamSend(codec: Codec, received: Bytes, chunk: Bytes, more: bool)
    ensures Send(codec, EventStream, Partial(codec, EventStream, received), chunk, more)
         == if more then Partial(codec, EventStream, received + chunk) else Whole(codec, EventStream, received + chunk)
  {
    StreamStep(codec, received, chunk);
    var before := Partial(codec, EventStream, received);
    if before.Going? {
      SendRenders(codec, before, chunk, more);
      AppendTail(before, RenderFrames(codec, Frames(Tail(received) + chunk)), Tail(received + chunk), more);
    }
  }

  lemma AppendTail(progress: Progress, shown: Option<Bytes>, tail: Bytes, more: bool)
    requires progress.Going?
    ensures AfterFrames(progress, shown, tail, more)
         == if shown.None? then Failed else if more then Going(progress.output + shown.value, tail) else Going(progress.output + shown.value + tail, [])
  {
    if shown.Some? { assert progress.output + (shown.value + tail) == progress.output + shown.value + tail; }
  }

  lemma OneMoreChunk(codec: Codec, kind: Kind, received: Bytes, chunk: Bytes, more: bool)
    ensures Send(codec, kind, Partial(codec, kind, received), chunk, more)
         == if more then Partial(codec, kind, received + chunk) else Whole(codec, kind, received + chunk)
  {
    match kind
    case EventStream => StreamSend(codec, received, chunk, more);
    case JsonBody =>
      var shown := Rewritten(codec, received + chunk);
      if !more && shown.Some? { assert [] + shown.value == shown.value; }
    case Opaque => assert [] + chunk == chunk;
  }

  lemma {:induction false} ChunksAccumulate(codec: Codec, kind: Kind, chunks: seq<Bytes>)
    ensures SendAll(codec, kind, chunks) == Partial(codec, kind, Concat(chunks))
  {
    if chunks == [] {
      assert Frames([]) == [] && Tail([]) == [];
    } else {
      ChunksAccumulate(codec, kind, chunks[..|chunks| - 1]);
      OneMoreChunk(codec, kind, Concat(chunks[..|chunks| - 1]), chunks[|chunks| - 1], true);
    }
  }

  /** However a body is cut into chunks, the response is the same function of the whole body: it raises or sends the same bytes. */
  lemma ChunkingIsInvisible(codec: Codec, kind: Kind, chunks: seq<Bytes>, last: Bytes)
    ensures Response(codec, kind, chunks, last) == Whole(codec, kind, Concat(chunks) + last)
  {
    ChunksAccumulate(codec, kind, chunks);
    OneMoreChunk(codec, kind, Concat(chunks), last, false);
  }

  function SentBy(sent: Sent): Bytes { if sent.Body? then sent.body else [] }

  /** The bytes that the messages have sent on, up to one that raised. */
  function SentSoFar(codec: Codec, kind: Kind, chunks: seq<Bytes>): Bytes {
    if chunks == [] then []
    else
      var init := chunks[..|chunks| - 1];
      var before := SendAll(codec, kind, init);
      SentSoFar(codec, kind, init)
        + if before.Going? then SentBy(BodyTx(codec, kind, before.pending, chunks[|chunks| - 1], true).0) else []
  }

  /** What the frames complete in these messages render to. */
  function Shown(codec: Codec, chunks: seq<Bytes>): Option<Bytes> { RenderFrames(codec, Frames(Concat(chunks))) }

  /** Message `n` is the first one with a frame that does not render; before it, the complete frames render to `sent`. */
  predicate CutAt(codec: Codec, chunks: seq<Bytes>, n: nat, sent: Bytes) {
    n < |chunks| && Shown(codec, chunks[..n]) == Some(sent) && Shown(codec, chunks[..n + 1]).None?
  }

  lemma SendAllShows(codec: Codec, chunks: seq<Bytes>)
    ensures SendAll(codec, EventStream, chunks).Failed? <==> Shown(codec, chunks).None?
    ensures SendAll(codec, EventStream, chunks).Going? ==> Shown(codec, chunks) == Some(SendAll(codec, EventStream, chunks).output)
  {
    ChunksAccumulate(codec, EventStream, chunks);
  }

  lemma {:induction false} GoingHasSent(codec: Codec, chunks: seq<Bytes>)
    requires SendAll(codec, EventStream, chunks).Going?
    ensures SentSoFar(codec, EventStream, chunks) == SendAll(codec, EventStream, chunks).output
  {
    if chunks != [] { GoingHasSent(codec, chunks[..|chunks| - 1]); }
  }

  lemma CutStays(codec: Codec, init: seq<Bytes>, last: Bytes, n: nat, sent: Bytes)
    requires CutAt(codec, init, n, sent)
    ensures CutAt(codec, init + [last], n, sent)
  {
    assert (init + [last])[..n] == init[..n] && (init + [last])[..n + 1] == init[..n + 1];
  }

  lemma CutAtLast(codec: Codec, init: seq<Bytes>, last: Bytes, sent: Bytes)
    requires Shown(codec, init) == Some(sent) && Shown(codec, init + [last]).None?
    ensures CutAt(codec, init + [last], |init|, sent)
  {
    assert (init + [last])[..|init|] == init && (init + [last])[..|init| + 1] == init + [last];
  }

  /** A failing message sends nothing, and nor does any after it. */
  lemma FailureSendsNothing(codec: Codec, init: seq<Bytes>, last: Bytes)
    requires SendAll(codec, EventStream, init + [last]).Failed?
    ensures SentSoFar(codec, EventStream, init + [last]) == SentSoFar(codec, EventStream, init)
  {
    assert (init + [last])[..|init|] == init;
  }

  /**
   An event stream that raises is cut off before the message that completed the bad frame: what
   was sent until then is the rendering of the frames complete before it, and nothing of that
   message.  A bad frame in the last message is the same case, with that message as one more.
   */
  lemma {:induction false} FailureSendsEarlierMessages(codec: Codec, chunks: seq<Bytes>)
    requires SendAll(codec, EventStream, chunks).Failed?
    ensures exists n: nat :: CutAt(codec, chunks, n, SentSoFar(codec, EventStream, chunks))
  {
    if chunks != [] {
      var init, last := chunks[..|chunks| - 1], chunks[|chunks| - 1];
      assert chunks == init + [last];
      var sent := SentSoFar(codec, EventStream, init);
      FailureSendsNothing(codec, init, last);
      if SendAll(codec, EventStream, init).Failed? {
        FailureSendsEarlierMessages(codec, init);
        var n: nat :| CutAt(codec, init, n, sent);
        CutStays(codec, init, last, n, sent);
      } else {
        SendAllShows(codec, init);
        SendAllShows(codec, init + [last]);
        GoingHasSent(codec, init);
        CutAtLast(codec, init, last, sent);
      }
    }
  }

  /** Whether the last message raises does not depend on its being the last. */
  lemma LastFailsAlike(codec: Codec, chunks: seq<Bytes>, last: Bytes)
    ensures Response(codec, EventStream, chunks, last).Failed? <==> SendAll(codec, EventStream, chunks + [last]).Failed?
  {
    ChunkingIsInvisible(codec, EventStream, chunks, last);
    ChunksAccumulate(codec, EventStream, chunks + [last]);
    assert (chunks + [last])[..|chunks|] == chunks;
  }

  lemma JoinCons(first: Bytes, rest: seq<Bytes>)
    requires rest != []
    ensures JoinLines([first] + rest) == first + [LF] + JoinLines(rest)
  {
    assert ([first] + rest)[1..] == rest;
  }

  /** Joining what was split gives the frame back, so a frame without data lines is sent unchanged. */
  lemma {:induction false} JoinUndoesSplit(s: Bytes)
    ensures Lines(s) != [] && JoinLines(Lines(s)) == s
    decreases |s|
  {
    var n := FirstLine(s);
    if n < |s| {
      var rest := s[n + 1..];
      JoinUndoesSplit(rest);
      JoinCons(s[..n], Lines(rest));
      assert s == s[..n] + [LF] + rest;
    }
  }

  lemma {:induction false} PlainLinesStay(codec: Codec, lines: seq<Bytes>)
    requires forall k :: 0 <= k < |lines| ==> !IsData(lines[k])
    ensures RenderLines(codec, lines) == Some(lines)
  {
    if lines != [] {
      PlainLinesStay(codec, lines[1..]);
      assert [lines[0]] + lines[1..] == lines;
    }
  }

  lemma PlainFrameIsUnchanged(codec: Codec, frame: Bytes)
    requires forall k :: 0 <= k < |Lines(frame)| ==> !IsData(Lines(frame)[k])
    ensures RenderFrame(codec, frame) == Some(frame + BREAK)
  {
    JoinUndoesSplit(frame);
    PlainLinesStay(codec, Lines(frame));
  }

  /** Rewriting a JSON body twice is rewriting it once, if the codec reads back the value it wrote for this body. */
  lemma JsonRewriteIsIdempotent(codec: Codec, body: Bytes)
    requires !codec.risky(PublicProjection.NEUTRAL)
    requires Rewritten(codec, body).Some?
    requires var shown := PublicProjection.Project(codec.risky, codec.parse(body).value).value;
      codec.parse(codec.show(shown)) == Some(shown)
    ensures Rewritten(codec, Rewritten(codec, body).value) == Rewritten(codec, body)
  {
    PublicProjection.ProjectionIsIdempotent(codec.risky, codec.parse(body).value);
  }

  // ------------------------------------------------------------------ what the reader sees

  /** A line without line feeds, whatever the text. */
  lemma {:induction false} LinesAreLines(s: Bytes)
    ensures forall k :: 0 <= k < |Lines(s)| ==> LF !in Lines(s)[k]
    decreases |s|
  {
    var n := FirstLine(s);
    if n < |s| { LinesAreLines(s[n + 1..]); }
  }

  /** Frames with their empty lines. */
  function JoinFrames(frames: seq<Bytes>): Bytes { if frames == [] then [] else frames[0] + BREAK + JoinFrames(frames[1..]) }

  /** The first empty line after the start of the frame is the one that ends it. */
  predicate EndsFirst(frame: Bytes) { forall k :: 0 <= k < |frame| ==> !BreakAt(frame + BREAK, k) }

  lemma FirstFrame(s: Bytes, n: nat)
    requires BreakAt(s, n) && forall k :: 0 <= k < n ==> !BreakAt(s, k)
    ensures s == s[..n] + BREAK + s[n + 2..] && EndsFirst(s[..n])
  {
    var whole := s[..n] + BREAK;
    assert whole == s[..n + 2];
    BreaksEarlier(s, n, whole);
  }

  /** The empty lines within a prefix are those of the whole. */
  lemma BreaksEarlier(s: Bytes, n: nat, part: Bytes)
    requires n + 2 <= |s| && part == s[..n + 2] && forall k :: 0 <= k < n ==> !BreakAt(s, k)
    ensures forall k :: 0 <= k < n ==> !BreakAt(part, k)
  {
    forall k | 0 <= k < n ensures !BreakAt(part, k) {
      assert !BreakAt(s, k) && part[k] == s[k] && part[k + 1] == s[k + 1];
    }
  }

  lemma JoinsAgain(frame: Bytes, rest: seq<Bytes>, tail: Bytes)
    ensures JoinFrames([frame] + rest) + tail == frame + BREAK + (JoinFrames(rest) + tail)
  {
    assert ([frame] + rest)[1..] == rest;
  }

  /** The frames and the tail are the body, cut at each empty line from the left. */
  lemma {:induction false} FramesAreFrames(s: Bytes)
    ensures s == JoinFrames(Frames(s)) + Tail(s)
    ensures forall i :: 0 <= i < |Frames(s)| ==> EndsFirst(Frames(s)[i])
    ensures forall k :: 0 <= k < |Tail(s)| ==> !BreakAt(Tail(s), k)
    decreases |s|
  {
    var n := FirstBreak(s);
    if n < |s| {
      var rest := s[n + 2..];
      FramesAreFrames(rest);
      SplitAtBreak(s, n);
      FirstFrame(s, n);
      JoinsAgain(s[..n], Frames(rest), Tail(rest));
    }
  }

  /** What a data line carries: the projection of the value it parses to, if it does and the projection does not raise. */
  function Carried(codec: Codec, line: Bytes): Option<PublicProjection.Json>
    requires IsData(line)
  {
    var read := codec.parse(line[|DATA|..]);
    if read.None? then None else PublicProjection.Project(codec.risky, read.value)
  }

  /** Other lines are as they were; a data line is the encoding of a clean value, the projection of what it carried. */
  predicate LineShown(codec: Codec, line: Bytes, shown: Bytes) {
    if !IsData(line) then shown == line
    else
      var value := Carried(codec, line);
      value.Some? && PublicProjection.Clean(codec.risky, value.value) && shown == DATA + codec.show(value.value)
  }

  predicate FrameShown(codec: Codec, frame: Bytes, shown: seq<Bytes>) {
    |shown| == |Lines(frame)| && forall k :: 0 <= k < |shown| ==> LineShown(codec, Lines(frame)[k], shown[k])
  }

  /** Some data line of the frame does not decode or project. */
  predicate FrameRaises(codec: Codec, frame: Bytes) {
    exists k :: 0 <= k < |Lines(frame)| && IsData(Lines(frame)[k]) && Carried(codec, Lines(frame)[k]).None?
  }

  lemma {:induction false} LinesAreShown(codec: Codec, lines: seq<Bytes>)
    requires !codec.risky(PublicProjection.NEUTRAL)
    ensures RenderLines(codec, lines).None? <==> exists k :: 0 <= k < |lines| && IsData(lines[k]) && Carried(codec, lines[k]).None?
    ensures RenderLines(codec, lines).Some? ==> forall k :: 0 <= k < |lines| ==> LineShown(codec, lines[k], RenderLines(codec, lines).value[k])
  {
    if lines != [] {
      LinesAreShown(codec, lines[1..]);
      assert forall k :: 0 < k < |lines| ==> lines[k] == lines[1..][k - 1];
      if IsData(lines[0]) && Carried(codec, lines[0]).Some? {
        PublicProjection.ProjectionIsClean(codec.risky, codec.parse(lines[0][|DATA|..]).value);
      }
    }
  }

  /** A rendered frame has the lines of the frame, in number and order, each shown as above. */
  lemma FrameIsShown(codec: Codec, frame: Bytes)
    requires !codec.risky(PublicProjection.NEUTRAL)
    ensures RenderFrame(codec, frame).None? <==> FrameRaises(codec, frame)
    ensures RenderFrame(codec, frame).Some? ==>
      exists shown :: shown != [] && FrameShown(codec, frame, shown) && RenderFrame(codec, frame).value == JoinLines(shown) + BREAK
  {
    LinesAreSome(frame);
    LinesAreShown(codec, Lines(frame));
    if RenderLines(codec, Lines(frame)).Some? {
      assert FrameShown(codec, frame, RenderLines(codec, Lines(frame)).value);
    }
  }

  /** What some frames look like when sent: their shown lines, frame by frame. */
  predicate FramesShown(codec: Codec, frames: seq<Bytes>, shown: seq<seq<Bytes>>) {
    |shown| == |frames| && forall i :: 0 <= i < |frames| ==> shown[i] != [] && FrameShown(codec, frames[i], shown[i])
  }

  function JoinShown(shown: seq<seq<Bytes>>): Bytes
    requires forall i :: 0 <= i < |shown| ==> shown[i] != []
  {
    if shown == [] then [] else JoinLines(shown[0]) + BREAK + JoinShown(shown[1..])
  }

  lemma {:induction false} FramesAreShown(codec: Codec, frames: seq<Bytes>)
    requires !codec.risky(PublicProjection.NEUTRAL)
    ensures RenderFrames(codec, frames).None? <==> exists i :: 0 <= i < |frames| && FrameRaises(codec, frames[i])
    ensures RenderFrames(codec, frames).Some? ==>
      exists shown :: FramesShown(codec, frames, shown) && RenderFrames(codec, frames).value == JoinShown(shown)
  {
    if frames == [] {
      assert FramesShown(codec, frames, []);
    } else {
      FrameIsShown(codec, frames[0]);
      FramesAreShown(codec, frames[1..]);
      assert forall i :: 0 < i < |frames| ==> frames[i] == frames[1..][i - 1];
      if RenderFrames(codec, frames).Some? {
        var first :| first != [] && FrameShown(codec, frames[0], first) && RenderFrame(codec, frames[0]).value == JoinLines(first) + BREAK;
        var rest :| FramesShown(codec, frames[1..], rest) && RenderFrames(codec, frames[1..]).value == JoinShown(rest);
        assert ([first] + rest)[1..] == rest;
        assert FramesShown(codec, frames, [first] + rest);
      }
    }
  }

  /**
   What a buyer or operator receives of an event stream, however it is chunked: every complete
   frame with its lines in number and order, other lines as they are, each data line a clean
   value; then the tail.  It raises exactly when a data line of a complete frame cannot be shown.
   */
  lemma StreamIsClean(codec: Codec, chunks: seq<Bytes>, last: Bytes)
    requires !codec.risky(PublicProjection.NEUTRAL)
    ensures var body, sent := Concat(chunks) + last, Response(codec, EventStream, chunks, last);
      && (sent.Failed? <==> exists i :: 0 <= i < |Frames(body)| && FrameRaises(codec, Frames(body)[i]))
      && (sent.Going? ==> exists shown :: FramesShown(codec, Frames(body), shown) && sent.output == JoinShown(shown) + Tail(body))
  {
    var body := Concat(chunks) + last;
    ChunkingIsInvisible(codec, EventStream, chunks, last);
    FramesAreShown(codec, Frames(body));
    if RenderFrames(codec, Frames(body)).Some? {
      var shown :| FramesShown(codec, Frames(body), shown) && RenderFrames(codec, Frames(body)).value == JoinShown(shown);
      assert Response(codec, EventStream, chunks, last) == Going(JoinShown(shown) + Tail(body), []);
      assert FramesShown(codec, Frames(body), shown) && Response(codec, EventStream, chunks, last).output == JoinShown(shown) + Tail(body);
    }
  }

  /** And of a JSON body: the encoding of a clean value, the projection of what the whole body parses to. */
  lemma JsonIsClean(codec: Codec, chunks: seq<Bytes>, last: Bytes)
    requires !codec.risky(PublicProjection.NEUTRAL)
    ensures var body, sent := Concat(chunks) + last, Response(codec, JsonBody, chunks, last);
      var read := codec.parse(body);
      var value := if read.None? then None else PublicProjection.Project(codec.risky, read.value);
      && (sent.Failed? <==> value.None?)
      && (sent.Going? ==> PublicProjection.Clean(codec.risky, value.value) && sent.output == codec.show(value.value))
  {
    ChunkingIsInvisible(codec, JsonBody, chunks, last);
    var read := codec.parse(Concat(chunks) + last);
    if read.Some? && PublicProjection.Project(codec.risky, read.value).Some? { PublicProjection.ProjectionIsClean(codec.risky, read.value); }
  }

  // ------------------------------------------------------------------ the closure's variables

  class Rewriter {
    var pending: Bytes
    var kind: Kind
    const codec: Codec

    constructor (c: Codec)
      ensures pending == [] && kind == Opaque && codec == c
    {
      pending := [];
      kind := Opaque;
      codec := c;
    }

    /** http.response.start: `announced` is what the content type says. */
    method Start(announced: Kind)
      modifies this`kind
      ensures kind == announced
    {
      kind := announced;
    }

    /** The loop over the complete frames. */
    method Render(frames: seq<Bytes>) returns (shown: Option<Bytes>)
      ensures shown == RenderFrames(codec, frames)
    {
      var rendered: Bytes := [];
      var i := 0;
      while i < |frames|
        invariant 0 <= i <= |frames|
        invariant RenderFrames(codec, frames[..i]) == Some(rendered)
      {
        var frame := RenderFrame(codec, frames[i]);
        assert frames[..i + 1] == frames[..i] + [frames[i]] && frames == frames[..i + 1] + frames[i + 1..];
        RenderConcat(codec, frames[..i], [frames[i]]);
        RenderConcat(codec, frames[..i + 1], frames[i + 1..]);
        if frame.None? {
          return None;
        }
        assert RenderFrames(codec, [frames[i]]) == Some(frame.value + []);
        assert frame.value + [] == frame.value;
        rendered := rendered + frame.value;
        i := i + 1;
      }
      assert frames[..i] == frames;
      return Some(rendered);
    }

    /** http.response.body */
    method Receive(body: Bytes, more: bool) returns (sent: Sent)
      modifies this`pending
      ensures (sent, pending) == BodyTx(codec, kind, old(pending), body, more)
    {
      pending := pending + body;
      if kind.EventStream? {
        var frames := Frames(pending);
        pending := Tail(pending);
        var rendered := Render(frames);
        if rendered.None? {
          return Raised;
        }
        var shown := rendered.value;
        if !more {
          shown := shown + pending;
          pending := [];
        }
        return Body(shown);
      } else if kind.JsonBody? {
        if more {
          return Nothing;
        }
        var shown := Rewritten(codec, pending);
        if shown.None? {
          return Raised;
        }
        pending := [];
        return Body(shown.value);
      }
      var shown := pending;
      pending := [];
      return Body(shown);
    }
  }
}
