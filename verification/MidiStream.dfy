/**
 The streaming MIDI parser of the native agent, proved against a decoder that
 looks at the byte stream as a whole (MIDI 1.0 Detailed Specification, "Running
 Status" and "System Real Time Messages").
*/
module MidiStream {
  newtype byte = x: int | 0 <= x < 256

  datatype Msg = Msg(status: int, data1: int, data2: int)

  predicate IsRealTime(b: byte) { b >= 0xF8 }
  predicate IsStatus(b: byte) { 0x80 <= b < 0xF8 }
  predicate IsVoice(b: byte) { 0x80 <= b < 0xF0 }
  predicate IsData(b: byte) { b < 0x80 }

  /** Data bytes of a channel-voice status: 0xC0 and 0xD0 take one, the rest two. */
  function VoiceDataLen(status: int): int {
    var hi := status / 16 * 16;
    if hi == 0xC0 || hi == 0xD0 then 1 else 2
  }

  // ---------------------------------------------------------------------
  // The parser
  // ---------------------------------------------------------------------

  datatype ParserState = ParserState(runningStatus: int, expected: int, data0: int, haveData0: bool, inSysex: bool)

  const FRESH := ParserState(0, 0, 0, false, false)

  function StatusByte(p: ParserState, b: byte): ParserState
    requires IsStatus(b)
  {
    if b == 0xF0 then p.(inSysex := true, runningStatus := 0, haveData0 := false)
    else if b == 0xF7 then p.(inSysex := false, runningStatus := 0, haveData0 := false)
    else if b >= 0xF1 then
      p.(inSysex := false, runningStatus := b as int, haveData0 := false,
         expected := if b == 0xF2 then 2 else if b == 0xF1 || b == 0xF3 then 1 else 0)
    else
      p.(inSysex := false, runningStatus := b as int, haveData0 := false, expected := VoiceDataLen(b as int))
  }

  function DataByte(p: ParserState, b: byte): (ParserState, seq<Msg>)
    requires IsData(b)
  {
    if p.inSysex || p.runningStatus == 0 then (p, [])
    else if 0xF1 <= p.runningStatus <= 0xF6 then
      (p.(haveData0 := p.expected > 1 && !p.haveData0), [])
    else if p.expected == 1 then (p, [Msg(p.runningStatus, b as int, 0)])
    else if !p.haveData0 then (p.(data0 := b as int, haveData0 := true), [])
    else (p.(haveData0 := false), [Msg(p.runningStatus, p.data0, b as int)])
  }

  function Push(p: ParserState, b: byte): (ParserState, seq<Msg>) {
    if IsRealTime(b) then (p, [Msg(b as int, 0, 0)])
    else if IsStatus(b) then (StatusByte(p, b), [])
    else DataByte(p, b)
  }

  class Parser {
    var runningStatus: int
    var expected: int
    var data0: int
    var haveData0: bool
    var inSysex: bool

    ghost function State(): ParserState
      reads this
    {
      ParserState(runningStatus, expected, data0, haveData0, inSysex)
    }

    constructor ()
      ensures State() == FRESH
    {
      runningStatus, expected, data0, haveData0, inSysex := 0, 0, 0, false, false;
    }

    /** One byte in; `ready` says whether `msg` is a complete message. */
    method PushByte(b: byte) returns (ready: bool, msg: Msg)
      modifies this
      ensures (State(), if ready then [msg] else []) == Push(old(State()), b)
    {
      ready, msg := false, Msg(0, 0, 0);
      if b >= 0xF8 {
        return true, Msg(b as int, 0, 0);
      }
      if inSysex {
        if b == 0xF7 { inSysex := false; }
        if b < 0x80 { return; }
        inSysex := false;
      }
      if b >= 0x80 {
        if b == 0xF0 {
          inSysex, runningStatus, haveData0 := true, 0, false;
          return;
        }
        if b == 0xF7 {
          runningStatus, haveData0 := 0, false;
          return;
        }
        if b >= 0xF1 && b <= 0xF6 {
          runningStatus := b as int;
          expected := if b == 0xF2 then 2 else if b == 0xF1 || b == 0xF3 then 1 else 0;
          haveData0 := false;
          return;
        }
        runningStatus := b as int;
        expected := VoiceDataLen(b as int);
        haveData0 := false;
        return;
      }
      if runningStatus == 0 { return; }
      if runningStatus >= 0xF1 && runningStatus <= 0xF6 {
        if expected <= 1 { haveData0 := false; return; }
        if !haveData0 { haveData0 := true; return; }
        haveData0 := false;
        return;
      }
      if expected == 1 {
        return true, Msg(runningStatus, b as int, 0);
      }
      if !haveData0 {
        data0, haveData0 := b as int, true;
        return;
      }
      haveData0 := false;
      return true, Msg(runningStatus, data0, b as int);
    }
  }

  /** The state and the messages after a whole stream. */
  function Feed(p: ParserState, bytes: seq<byte>): (ParserState, seq<Msg>)
    decreases |bytes|
  {
    if bytes == [] then (p, []) else
    var (q, before) := Feed(p, bytes[..|bytes| - 1]);
    var (r, last) := Push(q, bytes[|bytes| - 1]);
    (r, before + last)
  }

  /**
   One device read: a failed one changes nothing and is passed on; of the others at most as many bytes as the read
   buffer holds are pushed, stopping early when the output batch is full.  With a batch no smaller than the read,
   nothing is left behind.
  */
  method AlsaRead(parser: Parser, raw: array<byte>, got: int, out: array<Msg>) returns (n: int)
    requires got <= raw.Length
    modifies parser, out
    ensures got < 0 ==> n == -1 && parser.State() == old(parser.State()) && out[..] == old(out[..])
    ensures got >= 0 ==> 0 <= n <= out.Length
    ensures got >= 0 ==> exists used: nat | used <= got ::
              && (parser.State(), out[..n]) == Feed(old(parser.State()), raw[..used])
              && (used < got ==> n == out.Length)
              && (got <= out.Length ==> used == got)
  {
    if got < 0 { return -1; }
    n := 0;
    var i := 0;
    while i < got && n < out.Length
      invariant 0 <= n <= i <= got && n <= out.Length
      invariant (parser.State(), out[..n]) == Feed(old(parser.State()), raw[..i])
    {
      var ready, msg := parser.PushByte(raw[i]);
      assert raw[..i + 1][..i] == raw[..i];
      ghost var before := out[..n];
      if ready {
        out[n] := msg;
        n := n + 1;
      }
      assert out[..n] == before + if ready then [msg] else [];
      i := i + 1;
    }
    assert i <= got && (parser.State(), out[..n]) == Feed(old(parser.State()), raw[..i]);
  }

  // ---------------------------------------------------------------------
  // The decoder: what each byte of a finished stream means
  // ---------------------------------------------------------------------

  /** Position of the last status byte, or none; real-time bytes are not looked at. */
  function LastStatus(bytes: seq<byte>): int
    ensures -1 <= LastStatus(bytes) < |bytes|
    ensures LastStatus(bytes) >= 0 ==> IsStatus(bytes[LastStatus(bytes)])
    decreases |bytes|
  {
    if bytes == [] then -1
    else if IsStatus(bytes[|bytes| - 1]) then |bytes| - 1
    else LastStatus(bytes[..|bytes| - 1])
  }

  /** The data bytes of a stretch, real-time bytes set aside. */
  function DataBytes(bytes: seq<byte>): (data: seq<byte>)
    ensures forall d :: d in data ==> IsData(d)
    decreases |bytes|
  {
    if bytes == [] then []
    else DataBytes(bytes[..|bytes| - 1]) + if IsData(bytes[|bytes| - 1]) then [bytes[|bytes| - 1]] else []
  }

  /** The message the last of `data` completes under status `st`: the last of a full group of its data bytes. */
  function Group(st: byte, data: seq<byte>): seq<Msg> {
    if data == [] then []
    else if 0xC0 <= st < 0xE0 then [Msg(st as int, data[|data| - 1] as int, 0)]
    else if (0x80 <= st < 0xC0 || 0xE0 <= st < 0xF0) && |data| % 2 == 0 then
      [Msg(st as int, data[|data| - 2] as int, data[|data| - 1] as int)]
    else []
  }

  /**
   What byte `i` completes: a real-time byte is a message of its own; a data byte may complete a group of data
   bytes under the status governing it; a status byte completes nothing.
  */
  function Completes(bytes: seq<byte>, i: nat): seq<Msg>
    requires i < |bytes|
  {
    var b := bytes[i];
    var s := LastStatus(bytes[..i]);
    if IsRealTime(b) then [Msg(b as int, 0, 0)]
    else if IsStatus(b) || s < 0 then []
    else Group(bytes[s], DataBytes(bytes[s + 1..i + 1]))
  }

  function Decode(bytes: seq<byte>): seq<Msg>
    decreases |bytes|
  {
    if bytes == [] then []
    else Decode(bytes[..|bytes| - 1]) + Completes(bytes, |bytes| - 1)
  }

  /** What the parser remembers of a status byte and the data bytes behind it. */
  predicate RemembersGroup(p: ParserState, st: byte, data: seq<byte>) {
    && p.inSysex == (st == 0xF0)
    && p.runningStatus == (if st == 0xF0 || st == 0xF7 then 0 else st as int)
    && (IsVoice(st) ==>
          && p.expected == VoiceDataLen(st as int)
          && (p.expected == 2 ==> p.haveData0 == (|data| % 2 == 1))
          && (p.expected == 2 && |data| % 2 == 1 ==> p.data0 == data[|data| - 1] as int))
  }

  /** What the parser remembers of a stream, said in terms of the stream. */
  predicate Remembers(p: ParserState, bytes: seq<byte>) {
    var s := LastStatus(bytes);
    if s < 0 then p.runningStatus == 0 && !p.inSysex
    else RemembersGroup(p, bytes[s], DataBytes(bytes[s + 1..]))
  }

  lemma GroupStep(p: ParserState, st: byte, data: seq<byte>, b: byte)
    requires IsStatus(st) && IsData(b) && RemembersGroup(p, st, data)
    ensures RemembersGroup(Push(p, b).0, st, data + [b])
    ensures Push(p, b).1 == Group(st, data + [b])
  {
    assert |data + [b]| % 2 == 1 - |data| % 2;
  }

  lemma RememberStatus(p: ParserState, bytes: seq<byte>, b: byte)
    requires IsStatus(b)
    ensures Remembers(Push(p, b).0, bytes + [b])
  {
    var longer := bytes + [b];
    assert LastStatus(longer) == |bytes|;
    assert longer[|bytes| + 1..] == [];
  }

  lemma RememberRealTime(p: ParserState, bytes: seq<byte>, b: byte)
    requires Remembers(p, bytes) && IsRealTime(b)
    ensures Remembers(p, bytes + [b])
  {
    var longer := bytes + [b];
    assert longer[..|bytes|] == bytes;
    var s := LastStatus(bytes);
    assert LastStatus(longer) == s;
    if s >= 0 {
      var data := longer[s + 1..];
      assert data[..|data| - 1] == bytes[s + 1..];
      assert DataBytes(data) == DataBytes(bytes[s + 1..]) + [];
      assert longer[s] == bytes[s];
    }
  }

  /** One more data byte: the last status stays, the data since then grows by one. */
  lemma {:induction false} OneMoreData(bytes: seq<byte>, b: byte)
    requires IsData(b)
    ensures var longer := bytes + [b];
            var s := LastStatus(bytes);
            && LastStatus(longer) == s && longer[..|bytes|] == bytes
            && (s >= 0 ==> longer[s] == bytes[s] && longer[s + 1..|bytes| + 1] == longer[s + 1..]
                           && DataBytes(longer[s + 1..]) == DataBytes(bytes[s + 1..]) + [b])
  {
    var longer := bytes + [b];
    assert longer[..|bytes|] == bytes;
    var s := LastStatus(bytes);
    if s >= 0 {
      var data := longer[s + 1..];
      assert data[..|data| - 1] == bytes[s + 1..];
      assert longer[s + 1..|bytes| + 1] == data;
    }
  }

  lemma RememberData(p: ParserState, bytes: seq<byte>, b: byte)
    requires Remembers(p, bytes) && IsData(b)
    ensures Remembers(Push(p, b).0, bytes + [b])
    ensures Push(p, b).1 == Completes(bytes + [b], |bytes|)
  {
    OneMoreData(bytes, b);
    var s := LastStatus(bytes);
    if s >= 0 {
      GroupStep(p, bytes[s], DataBytes(bytes[s + 1..]), b);
    }
  }

  lemma RememberStep(p: ParserState, bytes: seq<byte>, b: byte)
    requires Remembers(p, bytes)
    ensures Remembers(Push(p, b).0, bytes + [b])
    ensures Push(p, b).1 == Completes(bytes + [b], |bytes|)
  {
    if IsStatus(b) {
      RememberStatus(p, bytes, b);
    } else if IsRealTime(b) {
      RememberRealTime(p, bytes, b);
    } else {
      RememberData(p, bytes, b);
    }
  }

  /** The streaming parser emits exactly the declared messages, byte by byte. */
  lemma {:induction false} ParserDecodes(bytes: seq<byte>)
    ensures Remembers(Feed(FRESH, bytes).0, bytes)
    ensures Feed(FRESH, bytes).1 == Decode(bytes)
    decreases |bytes|
  {
    if bytes != [] {
      var front, last := bytes[..|bytes| - 1], bytes[|bytes| - 1];
      ParserDecodes(front);
      assert front + [last] == bytes;
      RememberStep(Feed(FRESH, front).0, front, last);
    }
  }

  // ---------------------------------------------------------------------
  // Cutting the stream into reads
  // ---------------------------------------------------------------------

  function Concat(chunks: seq<seq<byte>>): seq<byte>
    decreases |chunks|
  {
    if chunks == [] then [] else Concat(chunks[..|chunks| - 1]) + chunks[|chunks| - 1]
  }

  /** The state and the messages after one device read per chunk. */
  function FeedChunks(p: ParserState, chunks: seq<seq<byte>>): (ParserState, seq<Msg>)
    decreases |chunks|
  {
    if chunks == [] then (p, []) else
    var (q, before) := FeedChunks(p, chunks[..|chunks| - 1]);
    var (r, last) := Feed(q, chunks[|chunks| - 1]);
    (r, before + last)
  }

  lemma {:induction false} FeedAppend(p: ParserState, a: seq<byte>, b: seq<byte>)
    ensures var (q, before) := Feed(p, a);
            var (r, after) := Feed(q, b);
            Feed(p, a + b) == (r, before + after)
    decreases |b|
  {
    if b == [] {
      assert a + b == a;
      assert Feed(p, a).1 + [] == Feed(p, a).1;
    } else {
      var front := b[..|b| - 1];
      FeedAppend(p, a, front);
      assert (a + b)[..|a + b| - 1] == a + front;
      var q := Feed(p, a);
      assert q.1 + Feed(q.0, b).1 == (q.1 + Feed(q.0, front).1) + Push(Feed(q.0, front).0, b[|b| - 1]).1;
    }
  }

  /** However the stream is cut into reads, the messages are those of the stream. */
  lemma {:induction false} ChunkingIsInvisible(chunks: seq<seq<byte>>)
    ensures FeedChunks(FRESH, chunks) == Feed(FRESH, Concat(chunks))
    ensures FeedChunks(FRESH, chunks).1 == Decode(Concat(chunks))
    decreases |chunks|
  {
    if chunks != [] {
      var front, last := chunks[..|chunks| - 1], chunks[|chunks| - 1];
      ChunkingIsInvisible(front);
      FeedAppend(FRESH, Concat(front), last);
    }
    ParserDecodes(Concat(chunks));
  }

  // ---------------------------------------------------------------------
  // Real-time bytes may stand anywhere
  // ---------------------------------------------------------------------

  function WithoutRealTime(bytes: seq<byte>): seq<byte>
    decreases |bytes|
  {
    if bytes == [] then []
    else WithoutRealTime(bytes[..|bytes| - 1]) + if IsRealTime(bytes[|bytes| - 1]) then [] else [bytes[|bytes| - 1]]
  }

  function RealTimeMsgs(bytes: seq<byte>): seq<Msg>
    decreases |bytes|
  {
    if bytes == [] then []
    else RealTimeMsgs(bytes[..|bytes| - 1])
         + if IsRealTime(bytes[|bytes| - 1]) then [Msg(bytes[|bytes| - 1] as int, 0, 0)] else []
  }

  /** The messages of `msgs` that are (`rt`) or are not real-time messages. */
  function Only(msgs: seq<Msg>, rt: bool): seq<Msg>
    decreases |msgs|
  {
    if msgs == [] then []
    else Only(msgs[..|msgs| - 1], rt)
         + if (msgs[|msgs| - 1].status >= 0xF8) == rt then [msgs[|msgs| - 1]] else []
  }

  lemma OnlyAppend(msgs: seq<Msg>, tail: seq<Msg>, rt: bool)
    requires |tail| <= 1
    ensures Only(msgs + tail, rt) ==
            Only(msgs, rt) + if tail != [] && (tail[0].status >= 0xF8) == rt then tail else []
  {
    if tail != [] {
      assert (msgs + tail)[..|msgs + tail| - 1] == msgs;
      assert tail == [tail[0]];
    } else {
      assert msgs + tail == msgs;
    }
  }

  ghost predicate Transparent(bytes: seq<byte>) {
    var core := WithoutRealTime(bytes);
    && Only(Feed(FRESH, bytes).1, true) == RealTimeMsgs(bytes)
    && Only(Feed(FRESH, bytes).1, false) == Feed(FRESH, core).1
    && Feed(FRESH, bytes).0 == Feed(FRESH, core).0 && Feed(FRESH, bytes).0.runningStatus < 0xF8
  }

  lemma {:induction false} FeedSnoc(p: ParserState, bytes: seq<byte>, b: byte)
    ensures Feed(p, bytes + [b]).0 == Push(Feed(p, bytes).0, b).0
    ensures Feed(p, bytes + [b]).1 == Feed(p, bytes).1 + Push(Feed(p, bytes).0, b).1
  {
    assert (bytes + [b])[..|bytes|] == bytes;
  }

  lemma SetAsideSnoc(bytes: seq<byte>, b: byte)
    ensures WithoutRealTime(bytes + [b]) == WithoutRealTime(bytes) + (if IsRealTime(b) then [] else [b])
    ensures RealTimeMsgs(bytes + [b]) == RealTimeMsgs(bytes) + (if IsRealTime(b) then [Msg(b as int, 0, 0)] else [])
  {
    assert (bytes + [b])[..|bytes|] == bytes;
  }

  lemma {:induction false} TransparentRealTime(bytes: seq<byte>, b: byte)
    requires Transparent(bytes) && IsRealTime(b)
    ensures Transparent(bytes + [b])
  {
    FeedSnoc(FRESH, bytes, b);
    SetAsideSnoc(bytes, b);
    assert WithoutRealTime(bytes) + [] == WithoutRealTime(bytes);
    OnlyAppend(Feed(FRESH, bytes).1, [Msg(b as int, 0, 0)], true);
    OnlyAppend(Feed(FRESH, bytes).1, [Msg(b as int, 0, 0)], false);
  }

  lemma PushKeepsStatus(p: ParserState, b: byte)
    requires p.runningStatus < 0xF8 && !IsRealTime(b)
    ensures Push(p, b).0.runningStatus < 0xF8 && |Push(p, b).1| <= 1
    ensures Push(p, b).1 != [] ==> Push(p, b).1[0].status < 0xF8
  {}

  lemma {:induction false} TransparentOther(bytes: seq<byte>, b: byte)
    requires Transparent(bytes) && !IsRealTime(b)
    ensures Transparent(bytes + [b])
  {
    var out := Push(Feed(FRESH, bytes).0, b).1;
    FeedSnoc(FRESH, bytes, b);
    FeedSnoc(FRESH, WithoutRealTime(bytes), b);
    SetAsideSnoc(bytes, b);
    PushKeepsStatus(Feed(FRESH, bytes).0, b);
    OnlyAppend(Feed(FRESH, bytes).1, out, true);
    OnlyAppend(Feed(FRESH, bytes).1, out, false);
    assert out != [] ==> out == [out[0]];
    assert RealTimeMsgs(bytes) + [] == RealTimeMsgs(bytes);
  }

  lemma {:induction false} AllTransparent(bytes: seq<byte>)
    ensures Transparent(bytes)
    decreases |bytes|
  {
    if bytes != [] {
      AllTransparent(bytes[..|bytes| - 1]);
      if IsRealTime(bytes[|bytes| - 1]) {
        TransparentRealTime(bytes[..|bytes| - 1], bytes[|bytes| - 1]);
      } else {
        TransparentOther(bytes[..|bytes| - 1], bytes[|bytes| - 1]);
      }
      assert bytes == bytes[..|bytes| - 1] + [bytes[|bytes| - 1]];
    }
  }

  /** Real-time bytes come out in order, and taking them out of the stream leaves the other messages as they were. */
  lemma RealTimeIsTransparent(bytes: seq<byte>)
    ensures Only(Decode(bytes), true) == RealTimeMsgs(bytes)
    ensures Only(Decode(bytes), false) == Decode(WithoutRealTime(bytes))
    ensures Feed(FRESH, bytes).0 == Feed(FRESH, WithoutRealTime(bytes)).0
  {
    AllTransparent(bytes);
    ParserDecodes(bytes);
    ParserDecodes(WithoutRealTime(bytes));
  }

  lemma {:induction false} WithoutRealTimePrefix(bytes: seq<byte>, k: nat)
    requires k <= |bytes|
    ensures WithoutRealTime(bytes[..k]) <= WithoutRealTime(bytes)
    decreases |bytes|
  {
    if k < |bytes| {
      WithoutRealTimePrefix(bytes[..|bytes| - 1], k);
      assert bytes[..|bytes| - 1][..k] == bytes[..k];
    } else {
      assert bytes[..k] == bytes;
    }
  }

  /**
   A real-time byte's message comes out right behind those of the bytes in front of it, and the others among them are
   the ones the stream without real-time bytes has completed at that point.
  */
  ghost predicate KeepsItsPlace(bytes: seq<byte>, k: nat)
    requires k < |bytes|
  {
    var before, core := Decode(bytes[..k]), WithoutRealTime(bytes[..k]);
    && before + [Msg(bytes[k] as int, 0, 0)] <= Decode(bytes)
    && core <= WithoutRealTime(bytes) && Only(before, false) == Decode(core)
  }

  lemma {:induction false} RealTimeKeepsItsPlace(bytes: seq<byte>, k: nat)
    requires k < |bytes| && bytes[k] >= 0xF8
    ensures KeepsItsPlace(bytes, k)
  {
    var front := bytes[..k];
    assert bytes == front + [bytes[k]] + bytes[k + 1..];
    ParserDecodes(front);
    ParserDecodes(bytes);
    FeedSnoc(FRESH, front, bytes[k]);
    FeedAppend(FRESH, front + [bytes[k]], bytes[k + 1..]);
    RealTimeIsTransparent(front);
    WithoutRealTimePrefix(bytes, k);
  }

  // ---------------------------------------------------------------------
  // Encoding with any legal use of running status
  // ---------------------------------------------------------------------

  /** Program change and channel aftertouch carry one data byte, the other channel messages two. */
  datatype Item =
    | OneData(status: byte, data: byte, omitStatus: bool)
    | TwoData(status: byte, data1: byte, data2: byte, omitStatus: bool)
    | Sysex(payload: seq<byte>)
    | SystemCommon(code: byte, payload: seq<byte>)

  predicate WellFormed(item: Item) {
    match item
    case OneData(st, d, _) => 0xC0 <= st < 0xE0 && d < 0x80
    case TwoData(st, d1, d2, _) => (0x80 <= st < 0xC0 || 0xE0 <= st < 0xF0) && d1 < 0x80 && d2 < 0x80
    case Sysex(payload) => forall d :: d in payload ==> d < 0x80
    case SystemCommon(code, payload) => 0xF1 <= code <= 0xF6 && forall d :: d in payload ==> d < 0x80
  }

  /** The running status a receiver holds after an item: system messages clear it. */
  function RunningAfter(item: Item): int {
    match item
    case OneData(st, _, _) => st as int
    case TwoData(st, _, _, _) => st as int
    case _ => 0
  }

  function Running(items: seq<Item>): int {
    if items == [] then 0 else RunningAfter(items[|items| - 1])
  }

  /** The status byte may be left out only when the previous message set the same one. */
  predicate Legal(items: seq<Item>)
    decreases |items|
  {
    items == [] ||
    var front, last := items[..|items| - 1], items[|items| - 1];
    && Legal(front)
    && WellFormed(last)
    && ((last.OneData? || last.TwoData?) && last.omitStatus ==> Running(front) == last.status as int)
  }

  function EncodeItem(item: Item): seq<byte> {
    match item
    case OneData(st, d, omit) => if omit then [d] else [st, d]
    case TwoData(st, d1, d2, omit) => if omit then [d1, d2] else [st, d1, d2]
    case Sysex(payload) => [0xF0] + payload + [0xF7]
    case SystemCommon(code, data) => [code] + data
  }

  function Encode(items: seq<Item>): seq<byte>
    decreases |items|
  {
    if items == [] then [] else Encode(items[..|items| - 1]) + EncodeItem(items[|items| - 1])
  }

  /** The messages an item list stands for: system messages are not routed. */
  function Meaning(items: seq<Item>): seq<Msg>
    decreases |items|
  {
    if items == [] then []
    else Meaning(items[..|items| - 1]) + match items[|items| - 1]
                                         case OneData(st, d, _) => [Msg(st as int, d as int, 0)]
                                         case TwoData(st, d1, d2, _) => [Msg(st as int, d1 as int, d2 as int)]
                                         case _ => []
  }

  /** Between items the parser holds no half message, and its running status is the legal one. */
  predicate AtRest(p: ParserState, running: int) {
    && (running != 0 ==>
          && p.runningStatus == running && !p.inSysex && p.expected == VoiceDataLen(running)
          && (p.expected == 2 ==> !p.haveData0))
  }

  /** Data bytes under a system status are swallowed. */
  lemma {:induction false} SwallowsData(p: ParserState, data: seq<byte>)
    requires forall d :: d in data ==> IsData(d)
    requires p.inSysex || 0xF1 <= p.runningStatus <= 0xF6
    ensures Feed(p, data).1 == []
    ensures Feed(p, data).0.inSysex == p.inSysex && Feed(p, data).0.runningStatus == p.runningStatus
    decreases |data|
  {
    if data != [] {
      SwallowsData(p, data[..|data| - 1]);
      assert data[|data| - 1] in data;
    }
  }

  lemma FeedOne(p: ParserState, b: byte)
    ensures Feed(p, [b]) == Push(p, b)
  {
    assert [b][..0] == [];
    assert [] + Push(p, b).1 == Push(p, b).1;
  }

  /** With its status in force, a message's data bytes complete it. */
  lemma {:induction false} FeedData(p: ParserState, item: Item)
    requires WellFormed(item) && (item.OneData? || item.TwoData?) && AtRest(p, item.status as int)
    ensures var (q, out) := Feed(p, if item.OneData? then [item.data] else [item.data1, item.data2]);
            AtRest(q, item.status as int) && out == Meaning([item])
  {
    assert [item][..0] == [];
    if item.OneData? {
      FeedOne(p, item.data);
    } else {
      FeedOne(p, item.data1);
      FeedAppend(p, [item.data1], [item.data2]);
      FeedOne(Push(p, item.data1).0, item.data2);
      assert [item.data1] + [item.data2] == [item.data1, item.data2];
    }
  }

  lemma {:induction false} FeedVoice(p: ParserState, item: Item, running: int)
    requires (item.OneData? || item.TwoData?) && WellFormed(item) && AtRest(p, running)
    requires item.omitStatus ==> running == item.status as int
    ensures var (q, out) := Feed(p, EncodeItem(item));
            AtRest(q, item.status as int) && out == Meaning([item])
  {
    if item.omitStatus {
      FeedData(p, item);
    } else {
      var data := if item.OneData? then [item.data] else [item.data1, item.data2];
      FeedOne(p, item.status);
      FeedData(Push(p, item.status).0, item);
      FeedAppend(p, [item.status], data);
      assert [item.status] + data == EncodeItem(item);
    }
  }

  lemma FeedSystem(p: ParserState, item: Item)
    requires (item.Sysex? || item.SystemCommon?) && WellFormed(item)
    ensures Feed(p, EncodeItem(item)).1 == []
  {
    match item
    case Sysex(payload) =>
      FeedOne(p, 0xF0);
      var q := Push(p, 0xF0).0;
      SwallowsData(q, payload);
      FeedAppend(p, [0xF0], payload);
      FeedAppend(p, [0xF0] + payload, [0xF7]);
      FeedOne(Feed(p, [0xF0] + payload).0, 0xF7);
    case SystemCommon(code, data) =>
      FeedOne(p, code);
      SwallowsData(Push(p, code).0, data);
      FeedAppend(p, [code], data);
  }

  lemma {:induction false} EncodedFeeds(items: seq<Item>)
    requires Legal(items)
    ensures AtRest(Feed(FRESH, Encode(items)).0, Running(items))
    ensures Feed(FRESH, Encode(items)).1 == Meaning(items)
    decreases |items|
  {
    if items != [] {
      var front, last := items[..|items| - 1], items[|items| - 1];
      EncodedFeeds(front);
      var p := Feed(FRESH, Encode(front)).0;
      FeedAppend(FRESH, Encode(front), EncodeItem(last));
      assert [last][..0] == [];
      if last.OneData? || last.TwoData? {
        FeedVoice(p, last, Running(front));
      } else {
        FeedSystem(p, last);
      }
    }
  }

  /**
   Round trip: take any message list with sysex and system-common messages between, encode it with any legal
   omission of status bytes, and let real-time bytes be inserted anywhere; the decoder gives back exactly the
   messages, and exactly the inserted real-time bytes, each where it was inserted.
  */
  lemma RoundTrip(items: seq<Item>, bytes: seq<byte>)
    requires Legal(items) && WithoutRealTime(bytes) == Encode(items)
    ensures Only(Decode(bytes), false) == Meaning(items)
    ensures Only(Decode(bytes), true) == RealTimeMsgs(bytes)
    ensures forall k :: 0 <= k < |bytes| && bytes[k] >= 0xF8 ==> KeepsItsPlace(bytes, k)
  {
    RealTimeIsTransparent(bytes);
    forall k | 0 <= k < |bytes| && bytes[k] >= 0xF8 ensures KeepsItsPlace(bytes, k) {
      RealTimeKeepsItsPlace(bytes, k);
    }
    EncodedFeeds(items);
    ParserDecodes(Encode(items));
  }
}
