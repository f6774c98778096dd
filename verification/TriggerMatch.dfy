/**
 The trigger matcher of the native agent.  It pairs the two halves of 14-bit
 controllers in a table of 32 slots; the specification pairs them in a map
 without a bound, as the browser does.
*/
module TriggerMatch {
  import opened Wrappers
  import opened TriggerTable
  import opened MidiStream

  const CC14_MAX := 32

  type Mapping = seq<Macro>

  datatype Action =
    | Knob(macroIndex: nat, value: real)
    | Fire(macroIndex: nat, value: real)

  // ---------------------------------------------------------------------
  // One action per macro, for its first matching trigger
  // ---------------------------------------------------------------------

  datatype Key = Number(n: int) | Note(n: int) | AnyKey

  /** What a trigger must be to answer a message. */
  datatype Wanted = Wanted(kind: TrigType, key: Key, channel: int)

  predicate Answers(t: Trigger, w: Wanted) {
    && t.kind == w.kind && t.channel == w.channel
    && match w.key
       case Number(n) => t.number == n
       case Note(n) => t.note == n
       case AnyKey => true
  }

  function FirstAnswer(ts: seq<Trigger>, w: Wanted): (r: Option<Trigger>)
    ensures r.Some? ==> exists j :: 0 <= j < |ts| && ts[j] == r.value && Answers(ts[j], w)
                                    && (forall i :: 0 <= i < j ==> !Answers(ts[i], w))
    ensures r.None? ==> forall i :: 0 <= i < |ts| ==> !Answers(ts[i], w)
    decreases |ts|
  {
    if ts == [] then None
    else
      var earlier := FirstAnswer(ts[..|ts| - 1], w);
      if earlier.Some? then earlier
      else if Answers(ts[|ts| - 1], w) then Some(ts[|ts| - 1])
      else None
  }

  function ActionOf(mac: Macro, i: nat, w: Wanted, value: real): seq<Action> {
    match FirstAnswer(mac.triggers, w)
    case None => []
    case Some(t) =>
      if mac.isKnob != 0 && t.useValue != 0 then [Knob(i, value)]
      else [Fire(i, if t.useValue != 0 then value else 1.0)]
  }

  function Actions(m: Mapping, w: Wanted, value: real): seq<Action>
    decreases |m|
  {
    if m == [] then []
    else Actions(m[..|m| - 1], w, value) + ActionOf(m[|m| - 1], |m| - 1, w, value)
  }

  function AtMost(actions: seq<Action>, cap: nat): seq<Action> {
    if |actions| <= cap then actions else actions[..cap]
  }

  /** As many as fit, from the front. */
  lemma AtMostIsAPrefix(actions: seq<Action>, cap: nat)
    ensures AtMost(actions, cap) <= actions
    ensures |AtMost(actions, cap)| == if |actions| < cap then |actions| else cap
  {}

  /** The search for a macro's first matching trigger. */
  method FindAnswer(ts: seq<Trigger>, w: Wanted) returns (r: Option<Trigger>)
    ensures r == FirstAnswer(ts, w)
  {
    for j := 0 to |ts|
      invariant FirstAnswer(ts[..j], w) == None
    {
      assert ts[..j + 1][..j] == ts[..j];
      if Answers(ts[j], w) {
        FirstAnswerStays(ts, j + 1, w);
        return Some(ts[j]);
      }
    }
    assert ts[..|ts|] == ts;
    r := None;
  }

  lemma {:induction false} FirstAnswerStays(ts: seq<Trigger>, j: nat, w: Wanted)
    requires j <= |ts| && FirstAnswer(ts[..j], w).Some?
    ensures FirstAnswer(ts, w) == FirstAnswer(ts[..j], w)
    decreases |ts| - j
  {
    if j < |ts| {
      assert ts[..j + 1][..j] == ts[..j];
      FirstAnswerStays(ts, j + 1, w);
    } else {
      assert ts[..j] == ts;
    }
  }

  lemma ActionsStep(m: Mapping, i: nat, w: Wanted, value: real)
    requires i < |m|
    ensures Actions(m[..i + 1], w, value) == Actions(m[..i], w, value) + ActionOf(m[i], i, w, value)
  {
    assert m[..i + 1][..i] == m[..i];
  }

  /** What the loop below has when `done` are the actions found so far. */
  ghost predicate Filled(out: array<Action>, cap: nat, done: seq<Action>, count: nat, n: nat)
    reads out
  {
    cap <= out.Length && count == |done| && n == |AtMost(done, cap)| && out[..n] == AtMost(done, cap)
  }

  /** One macro of the loop below. */
  method EmitOne(mac: Macro, i: nat, w: Wanted, value: real, out: array<Action>, cap: nat, count: nat, n: nat,
                 ghost done: seq<Action>)
    returns (count': nat, n': nat)
    requires Filled(out, cap, done, count, n)
    modifies out
    ensures Filled(out, cap, done + ActionOf(mac, i, w, value), count', n')
  {
    count', n' := count, n;
    var t := FindAnswer(mac.triggers, w);
    if t.Some? {
      if count < cap {
        out[count] := if mac.isKnob != 0 && t.value.useValue != 0 then Knob(i, value)
                      else Fire(i, if t.value.useValue != 0 then value else 1.0);
        n' := n + 1;
        assert out[..n'] == out[..count] + [out[count]];
      }
      count' := count + 1;
    } else {
      assert done + [] == done;
    }
  }

  /** `emit_for`: fill `out` with the actions, as many as fit. */
  method EmitFor(m: Mapping, w: Wanted, value: real, out: array<Action>, cap: nat) returns (n: nat)
    requires cap <= out.Length
    modifies out
    ensures n <= cap && out[..n] == AtMost(Actions(m, w, value), cap)
  {
    var count := 0;
    n := 0;
    for i := 0 to |m|
      invariant Filled(out, cap, Actions(m[..i], w, value), count, n)
    {
      ActionsStep(m, i, w, value);
      count, n := EmitOne(m[i], i, w, value, out, cap, count, n, Actions(m[..i], w, value));
    }
    assert m[..|m|] == m;
  }

  // ---------------------------------------------------------------------
  // Pairing the halves of a 14-bit controller
  // ---------------------------------------------------------------------

  /** The controller number whose 14-bit triggers `cc` would feed. */
  function MsbOf(cc: int): int { if cc < 32 then cc else cc - 32 }

  predicate Claimed(m: Mapping, cc: int, channel: int) {
    exists i, j :: 0 <= i < |m| && 0 <= j < |m[i].triggers|
                   && Answers(m[i].triggers[j], Wanted(CC14, Number(MsbOf(cc)), channel))
  }

  type PairKey = (int, int)

  datatype Halves = Halves(msb: int, lsb: int)

  function HalvesIn(pairs: map<PairKey, Halves>, key: PairKey): Halves {
    if key in pairs then pairs[key] else Halves(0, 0)
  }

  function Received(h: Halves, cc: int, d2: int): Halves {
    if cc < 32 then h.(msb := d2) else h.(lsb := d2)
  }

  function Value14(h: Halves): real { (h.msb * 128 + h.lsb) as real / 16383.0 }

  predicate SevenBit(msg: Msg) { 0 <= msg.status < 256 && 0 <= msg.data1 < 128 && 0 <= msg.data2 < 128 }

  function Channel(msg: Msg): int { msg.status % 16 + 1 }

  function Kind(msg: Msg): int { msg.status / 16 * 16 }

  predicate Pairs14(m: Mapping, msg: Msg) { Kind(msg) == 0xB0 && Claimed(m, msg.data1, Channel(msg)) }

  function KeyOf(msg: Msg): PairKey { (Channel(msg), MsbOf(msg.data1)) }

  /** The specification of the pairing state. */
  function PairsAfter(pairs: map<PairKey, Halves>, m: Mapping, msg: Msg): map<PairKey, Halves> {
    if Pairs14(m, msg) then
      pairs[KeyOf(msg) := Received(HalvesIn(pairs, KeyOf(msg)), msg.data1, msg.data2)]
    else pairs
  }

  /** What a message asks for when it is not half of a claimed pair. */
  function PlainWanted(msg: Msg): Option<(Wanted, real)> {
    var ch, d1, d2 := Channel(msg), msg.data1, msg.data2;
    match Kind(msg)
    case 0xB0 => Some((Wanted(CC, Number(d1), ch), d2 as real / 127.0))
    case 0x90 => Some((Wanted(if d2 > 0 then NoteOn else NoteOff, Note(d1), ch), d2 as real / 127.0))
    case 0x80 => Some((Wanted(NoteOff, Note(d1), ch), d2 as real / 127.0))
    case 0xC0 => Some((Wanted(ProgramChange, Number(d1), ch), 1.0))
    case 0xE0 => Some((Wanted(PitchBend, AnyKey, ch), (d1 + d2 * 128) as real / 16383.0))
    case 0xD0 => Some((Wanted(Aftertouch, AnyKey, ch), d1 as real / 127.0))
    case _ => None
  }

  /** The specification of a match, against an unbounded map of pairs. */
  function ActionsFor(pairs: map<PairKey, Halves>, m: Mapping, msg: Msg): seq<Action> {
    if Pairs14(m, msg) then
      Actions(m, Wanted(CC14, Number(MsbOf(msg.data1)), Channel(msg)), Value14(PairsAfter(pairs, m, msg)[KeyOf(msg)]))
    else
      match PlainWanted(msg)
      case None => []
      case Some((w, value)) => Actions(m, w, value)
  }

  // ---------------------------------------------------------------------
  // The table of 32 slots
  // ---------------------------------------------------------------------

  datatype Slot = Slot(used: bool, key: PairKey, halves: Halves)

  const FREE_SLOT := Slot(false, (0, 0), Halves(0, 0))

  function Lookup(slots: seq<Slot>, key: PairKey): int
    ensures -1 <= Lookup(slots, key) < |slots|
    ensures Lookup(slots, key) >= 0 ==> slots[Lookup(slots, key)].used && slots[Lookup(slots, key)].key == key
    ensures Lookup(slots, key) == -1 ==> forall i :: 0 <= i < |slots| && slots[i].used ==> slots[i].key != key
    decreases |slots|
  {
    if slots == [] then -1
    else if slots[0].used && slots[0].key == key then 0
    else var r := Lookup(slots[1..], key); if r < 0 then -1 else r + 1
  }

  function FirstFree(slots: seq<Slot>): nat
    ensures FirstFree(slots) <= |slots|
    ensures FirstFree(slots) < |slots| ==> !slots[FirstFree(slots)].used
    ensures forall i :: 0 <= i < FirstFree(slots) ==> slots[i].used
    decreases |slots|
  {
    if slots == [] || !slots[0].used then 0 else 1 + FirstFree(slots[1..])
  }

  /** Which slot serves a key: its own, else the first free one, else slot 0. */
  function SlotFor(slots: seq<Slot>, key: PairKey): nat
    requires slots != []
    ensures SlotFor(slots, key) < |slots|
  {
    if Lookup(slots, key) >= 0 then Lookup(slots, key)
    else if FirstFree(slots) < |slots| then FirstFree(slots)
    else 0
  }

  /** The table with a slot in hand for `key`. */
  function Claim(slots: seq<Slot>, key: PairKey): seq<Slot>
    requires slots != []
  {
    if Lookup(slots, key) >= 0 then slots else slots[SlotFor(slots, key) := Slot(true, key, Halves(0, 0))]
  }

  function Receive(slots: seq<Slot>, key: PairKey, cc: int, d2: int): seq<Slot>
    requires slots != []
  {
    var i := SlotFor(slots, key);
    var claimed := Claim(slots, key);
    claimed[i := claimed[i].(halves := Received(claimed[i].halves, cc, d2))]
  }

  class MatchState {
    const pairs: array<Slot>

    ghost predicate Valid()
    {
      pairs.Length == CC14_MAX
    }

    constructor ()
      ensures Valid() && fresh(pairs) && pairs[..] == seq(CC14_MAX, i => FREE_SLOT)
    {
      pairs := new Slot[CC14_MAX](i => FREE_SLOT);
    }

    /** `cc14_msb_for` */
    method MsbFor(m: Mapping, cc: int, channel: int) returns (msb: int)
      ensures msb == if Claimed(m, cc, channel) then MsbOf(cc) else -1
    {
      var w := Wanted(CC14, Number(MsbOf(cc)), channel);
      for i := 0 to |m|
        invariant forall a, b :: 0 <= a < i && 0 <= b < |m[a].triggers| ==> !Answers(m[a].triggers[b], w)
      {
        for j := 0 to |m[i].triggers|
          invariant forall b :: 0 <= b < j ==> !Answers(m[i].triggers[b], w)
        {
          if Answers(m[i].triggers[j], w) { return MsbOf(cc); }
        }
      }
      msb := -1;
    }

    /** `cc14_slot` */
    method TakeSlot(key: PairKey) returns (i: nat)
      requires Valid()
      modifies pairs
      ensures i == SlotFor(old(pairs[..]), key) && i < pairs.Length
      ensures pairs[..] == Claim(old(pairs[..]), key)
    {
      var free, k := -1, 0;
      ghost var slots := pairs[..];
      while k < CC14_MAX
        invariant 0 <= k <= CC14_MAX
        invariant Lookup(slots, key) == if Lookup(slots[k..], key) < 0 then -1 else k + Lookup(slots[k..], key)
        invariant free == -1 || free == FirstFree(slots) < k
        invariant free == -1 ==> FirstFree(slots) == k + FirstFree(slots[k..])
      {
        if pairs[k].used && pairs[k].key == key { return k; }
        if !pairs[k].used && free < 0 { free := k; }
        k := k + 1;
      }
      if free < 0 { free := 0; }
      pairs[free] := Slot(true, key, Halves(0, 0));
      i := free;
    }

    /** `tm_match`: the actions of one message, as many as fit `cap`. */
    method Match(m: Mapping, msg: Msg, out: array<Action>, cap: nat) returns (n: nat)
      requires Valid() && cap <= out.Length
      modifies pairs, out
      ensures pairs[..] == if Pairs14(m, msg) then Receive(old(pairs[..]), KeyOf(msg), msg.data1, msg.data2)
                           else old(pairs[..])
      ensures n <= cap
      ensures out[..n] == AtMost(TableActions(pairs[..], m, msg), cap)
    {
      var ch, d1, d2 := Channel(msg), msg.data1, msg.data2;
      if Kind(msg) == 0xB0 {
        var msb14 := MsbFor(m, d1, ch);
        if Claimed(m, d1, ch) {
          var i := TakeSlot((ch, msb14));
          pairs[i] := pairs[i].(halves := Received(pairs[i].halves, d1, d2));
          ReceivedIsFound(old(pairs[..]), (ch, msb14), d1, d2);
          n := EmitFor(m, Wanted(CC14, Number(msb14), ch), Value14(pairs[i].halves), out, cap);
          return;
        }
      }
      if Kind(msg) == 0xB0 {
        n := EmitFor(m, Wanted(CC, Number(d1), ch), d2 as real / 127.0, out, cap);
      } else if Kind(msg) == 0x90 || Kind(msg) == 0x80 {
        var isOn := Kind(msg) == 0x90 && d2 > 0;
        n := EmitFor(m, Wanted(if isOn then NoteOn else NoteOff, Note(d1), ch), d2 as real / 127.0, out, cap);
      } else if Kind(msg) == 0xC0 {
        n := EmitFor(m, Wanted(ProgramChange, Number(d1), ch), 1.0, out, cap);
      } else if Kind(msg) == 0xE0 {
        n := EmitFor(m, Wanted(PitchBend, AnyKey, ch), (d1 + d2 * 128) as real / 16383.0, out, cap);
      } else if Kind(msg) == 0xD0 {
        n := EmitFor(m, Wanted(Aftertouch, AnyKey, ch), d1 as real / 127.0, out, cap);
      } else {
        n := 0;
      }
    }
  }

  /** What the table-based matcher emits, read off the table after the message. */
  function TableActions(after: seq<Slot>, m: Mapping, msg: Msg): seq<Action> {
    if Pairs14(m, msg) then
      var i := Lookup(after, KeyOf(msg));
      if i < 0 then []
      else Actions(m, Wanted(CC14, Number(MsbOf(msg.data1)), Channel(msg)), Value14(after[i].halves))
    else
      match PlainWanted(msg)
      case None => []
      case Some((w, value)) => Actions(m, w, value)
  }

  lemma {:induction false} LookupFirst(slots: seq<Slot>, key: PairKey, i: nat)
    requires i < |slots| && slots[i].used && slots[i].key == key
    requires forall j :: 0 <= j < i ==> !(slots[j].used && slots[j].key == key)
    ensures Lookup(slots, key) == i
    decreases |slots|
  {
    if i > 0 { LookupFirst(slots[1..], key, i - 1); }
  }

  lemma {:induction false} LookupIsFirst(slots: seq<Slot>, key: PairKey)
    ensures forall j :: 0 <= j < Lookup(slots, key) ==> !(slots[j].used && slots[j].key == key)
    decreases |slots|
  {
    if slots != [] { LookupIsFirst(slots[1..], key); }
  }

  lemma ReceivedIsFound(slots: seq<Slot>, key: PairKey, cc: int, d2: int)
    requires slots != []
    ensures Lookup(Receive(slots, key, cc, d2), key) == SlotFor(slots, key)
  {
    LookupIsFirst(slots, key);
    LookupFirst(Receive(slots, key, cc, d2), key, SlotFor(slots, key));
  }

  // ---------------------------------------------------------------------
  // The table refines the map, exactly as long as its 32 slots suffice
  // ---------------------------------------------------------------------

  /** Slots are taken in order and no key has two. */
  predicate Tidy(slots: seq<Slot>) {
    && |slots| == CC14_MAX
    && (forall i, j :: 0 <= i < j < |slots| && slots[j].used ==> slots[i].used)
    && (forall i, j :: 0 <= i < j < |slots| && slots[i].used && slots[j].used ==> slots[i].key != slots[j].key)
  }

  function KeysUpTo(slots: seq<Slot>, n: nat): set<PairKey>
    requires n <= |slots|
  {
    set i | 0 <= i < n && slots[i].used :: slots[i].key
  }

  function Keys(slots: seq<Slot>): set<PairKey> { KeysUpTo(slots, |slots|) }

  /** The pairs a table holds. */
  function Held(slots: seq<Slot>): map<PairKey, Halves> {
    map k | k in Keys(slots) :: var i := Lookup(slots, k); if i < 0 then Halves(0, 0) else slots[i].halves
  }

  lemma TidyReceive(slots: seq<Slot>, key: PairKey, cc: int, d2: int)
    requires Tidy(slots)
    ensures Tidy(Receive(slots, key, cc, d2))
  {}

  lemma KeysReceive(slots: seq<Slot>, key: PairKey, cc: int, d2: int)
    requires Tidy(slots) && (Lookup(slots, key) >= 0 || FirstFree(slots) < |slots|)
    ensures Keys(Receive(slots, key, cc, d2)) == Keys(slots) + {key}
  {
    var after, i := Receive(slots, key, cc, d2), SlotFor(slots, key);
    assert after[i].used && after[i].key == key;
    forall k | k in Keys(slots) ensures k in Keys(after) {
      var j :| 0 <= j < |slots| && slots[j].used && slots[j].key == k;
      assert after[j].used && after[j].key == k;
    }
    forall k | k in Keys(after) ensures k in Keys(slots) + {key} {
      var j :| 0 <= j < |after| && after[j].used && after[j].key == k;
      if j != i { assert slots[j].used && slots[j].key == k; }
    }
  }

  /** The slots of the other keys stay where they are. */
  lemma LookupElsewhere(slots: seq<Slot>, key: PairKey, cc: int, d2: int, k: PairKey)
    requires slots != [] && k != key && Lookup(slots, k) >= 0
    requires Lookup(slots, key) >= 0 || FirstFree(slots) < |slots|
    ensures Lookup(Receive(slots, key, cc, d2), k) == Lookup(slots, k)
    ensures Receive(slots, key, cc, d2)[Lookup(slots, k)] == slots[Lookup(slots, k)]
  {
    LookupIsFirst(slots, k);
    LookupFirst(Receive(slots, key, cc, d2), k, Lookup(slots, k));
  }

  lemma HeldKeys(slots: seq<Slot>, k: PairKey)
    ensures k in Held(slots) <==> Lookup(slots, k) >= 0
    ensures k in Held(slots) ==> Held(slots)[k] == slots[Lookup(slots, k)].halves
  {
    if Lookup(slots, k) >= 0 {
      assert slots[Lookup(slots, k)].key in Keys(slots);
    }
  }

  lemma {:induction false} ReceivedHalves(slots: seq<Slot>, key: PairKey, cc: int, d2: int)
    requires slots != []
    ensures var after, i := Receive(slots, key, cc, d2), SlotFor(slots, key);
            && Lookup(after, key) == i
            && after[i].halves == Received(HalvesIn(Held(slots), key), cc, d2)
  {
    ReceivedIsFound(slots, key, cc, d2);
    HeldKeys(slots, key);
  }

  lemma HeldAfter(slots: seq<Slot>, key: PairKey, cc: int, d2: int, k: PairKey)
    requires Tidy(slots) && k != key && (Lookup(slots, key) >= 0 || FirstFree(slots) < |slots|)
    ensures k in Held(Receive(slots, key, cc, d2)) <==> k in Held(slots)
    ensures k in Held(slots) ==> Held(Receive(slots, key, cc, d2))[k] == Held(slots)[k]
  {
    KeysReceive(slots, key, cc, d2);
    if k in Held(slots) {
      HeldKeys(slots, k);
      HeldKeys(Receive(slots, key, cc, d2), k);
      LookupElsewhere(slots, key, cc, d2, k);
    }
  }

  /** With a slot to give, one message does to the table what it does to the map. */
  lemma ReceiveRefines(slots: seq<Slot>, key: PairKey, cc: int, d2: int)
    requires Tidy(slots) && (Lookup(slots, key) >= 0 || FirstFree(slots) < |slots|)
    ensures Held(Receive(slots, key, cc, d2)) == Held(slots)[key := Received(HalvesIn(Held(slots), key), cc, d2)]
  {
    var before, after := Held(slots), Held(Receive(slots, key, cc, d2));
    var halves := Received(HalvesIn(before, key), cc, d2);
    ReceivedHalves(slots, key, cc, d2);
    HeldKeys(Receive(slots, key, cc, d2), key);
    assert key in after && after[key] == halves;
    forall k | k != key ensures (k in after <==> k in before) && (k in before ==> after[k] == before[k]) {
      HeldAfter(slots, key, cc, d2, k);
    }
    MapsAgree(before, after, key, halves);
  }

  lemma MapsAgree(before: map<PairKey, Halves>, after: map<PairKey, Halves>, key: PairKey, halves: Halves)
    requires key in after && after[key] == halves
    requires forall k :: k != key ==> (k in after <==> k in before) && (k in before ==> after[k] == before[k])
    ensures after == before[key := halves]
  {}

  /** Without one, slot 0 is taken over and what it held is forgotten. */
  lemma FullTableForgets(slots: seq<Slot>, key: PairKey, cc: int, d2: int)
    requires Tidy(slots) && Lookup(slots, key) < 0 && FirstFree(slots) == |slots|
    ensures slots[0].key in Held(slots)
    ensures slots[0].key !in Held(Receive(slots, key, cc, d2))
  {
    var after := Receive(slots, key, cc, d2);
    assert slots[0].used;
    assert slots[0].key in Keys(slots);
    forall j | 0 <= j < |after| ensures after[j].key != slots[0].key {
      assert slots[j].used;
    }
  }

  lemma {:induction false} CountKeys(slots: seq<Slot>, n: nat)
    requires Tidy(slots) && n <= FirstFree(slots)
    ensures |KeysUpTo(slots, n)| == n
  {
    if n > 0 {
      CountKeys(slots, n - 1);
      assert slots[n - 1].key !in KeysUpTo(slots, n - 1);
      assert KeysUpTo(slots, n) == KeysUpTo(slots, n - 1) + {slots[n - 1].key};
    }
  }

  lemma RoomByCount(slots: seq<Slot>)
    requires Tidy(slots)
    ensures FirstFree(slots) < |slots| <==> |Held(slots)| < CC14_MAX
  {
    var f := FirstFree(slots);
    CountKeys(slots, f);
    assert Keys(slots) == KeysUpTo(slots, f) by {
      assert forall i :: f < i < |slots| && slots[i].used ==> slots[f].used;
    }
    assert Held(slots).Keys == Keys(slots);
  }

  /** One message is faithful exactly when its key has a slot or there are fewer than 32 pairs. */
  lemma FaithfulExactlyWithRoom(slots: seq<Slot>, key: PairKey, cc: int, d2: int)
    requires Tidy(slots)
    ensures Held(Receive(slots, key, cc, d2)) == Held(slots)[key := Received(HalvesIn(Held(slots), key), cc, d2)]
            <==> key in Held(slots) || |Held(slots)| < CC14_MAX
  {
    RoomByCount(slots);
    if Lookup(slots, key) >= 0 {
      assert slots[Lookup(slots, key)].key in Keys(slots);
    }
    if Lookup(slots, key) >= 0 || FirstFree(slots) < |slots| {
      ReceiveRefines(slots, key, cc, d2);
    } else {
      FullTableForgets(slots, key, cc, d2);
    }
  }

  datatype Arrival = Arrival(mapping: Mapping, msg: Msg)

  /** The specification over a run; the mapping may change from message to message. */
  function PairsRun(events: seq<Arrival>): map<PairKey, Halves>
    decreases |events|
  {
    if events == [] then map[] else
    var last := events[|events| - 1];
    PairsAfter(PairsRun(events[..|events| - 1]), last.mapping, last.msg)
  }

  function SlotsRun(events: seq<Arrival>): (slots: seq<Slot>)
    ensures |slots| == CC14_MAX
    decreases |events|
  {
    if events == [] then seq(CC14_MAX, i => FREE_SLOT) else
    var last := events[|events| - 1];
    var before := SlotsRun(events[..|events| - 1]);
    if Pairs14(last.mapping, last.msg) then Receive(before, KeyOf(last.msg), last.msg.data1, last.msg.data2) else before
  }

  lemma PairsGrow(pairs: map<PairKey, Halves>, m: Mapping, msg: Msg)
    ensures |pairs| <= |PairsAfter(pairs, m, msg)|
    ensures Pairs14(m, msg) && KeyOf(msg) !in pairs ==> |pairs| < |PairsAfter(pairs, m, msg)|
  {
    if Pairs14(m, msg) && KeyOf(msg) !in pairs {
      assert PairsAfter(pairs, m, msg).Keys == pairs.Keys + {KeyOf(msg)};
    } else {
      assert PairsAfter(pairs, m, msg).Keys == pairs.Keys;
    }
  }

  /** Over any run that has claimed at most 32 pairs so far, the table holds what the map holds. */
  lemma {:induction false} TableFollowsMap(events: seq<Arrival>)
    requires |PairsRun(events)| <= CC14_MAX
    ensures Tidy(SlotsRun(events)) && Held(SlotsRun(events)) == PairsRun(events)
    decreases |events|
  {
    if events == [] {
      assert Keys(SlotsRun([])) == {};
    } else {
      var front, last := events[..|events| - 1], events[|events| - 1];
      PairsGrow(PairsRun(front), last.mapping, last.msg);
      TableFollowsMap(front);
      if Pairs14(last.mapping, last.msg) {
        TidyReceive(SlotsRun(front), KeyOf(last.msg), last.msg.data1, last.msg.data2);
        FaithfulExactlyWithRoom(SlotsRun(front), KeyOf(last.msg), last.msg.data1, last.msg.data2);
      }
    }
  }

  /** Every match of such a run gives the specification's actions. */
  lemma {:induction false} MatchesFollowSpecification(events: seq<Arrival>)
    requires events != [] && |PairsRun(events)| <= CC14_MAX
    ensures var last := events[|events| - 1];
            TableActions(SlotsRun(events), last.mapping, last.msg)
            == ActionsFor(PairsRun(events[..|events| - 1]), last.mapping, last.msg)
  {
    var last := events[|events| - 1];
    TableFollowsMap(events);
    if Pairs14(last.mapping, last.msg) {
      var slots, key := SlotsRun(events), KeyOf(last.msg);
      assert key in Held(slots);
      assert Lookup(slots, key) >= 0;
      assert Held(slots)[key] == slots[Lookup(slots, key)].halves;
    }
  }

  // ---------------------------------------------------------------------
  // What comes out
  // ---------------------------------------------------------------------

  /** `a` is what macro `a.macroIndex` does, for its first answering trigger. */
  predicate IsFirstAnswer(m: Mapping, w: Wanted, value: real, a: Action) {
    && a.macroIndex < |m|
    && FirstAnswer(m[a.macroIndex].triggers, w).Some?
    && [a] == ActionOf(m[a.macroIndex], a.macroIndex, w, value)
  }

  /** One action per macro at most, in macro order, each for that macro's first answering trigger. */
  lemma {:induction false} ActionsAreFirstAnswers(m: Mapping, w: Wanted, value: real)
    ensures forall k :: 0 <= k < |Actions(m, w, value)| ==> IsFirstAnswer(m, w, value, Actions(m, w, value)[k])
    ensures forall j, k :: 0 <= j < k < |Actions(m, w, value)| ==>
              Actions(m, w, value)[j].macroIndex < Actions(m, w, value)[k].macroIndex
    decreases |m|
  {
    if m != [] {
      var front, i := m[..|m| - 1], |m| - 1;
      ActionsAreFirstAnswers(front, w, value);
      var earlier, last := Actions(front, w, value), ActionOf(m[i], i, w, value);
      forall k | 0 <= k < |earlier + last| ensures IsFirstAnswer(m, w, value, (earlier + last)[k]) {
        if k < |earlier| {
          assert IsFirstAnswer(front, w, value, earlier[k]);
        }
      }
    }
  }

  /** And no macro that answers is passed over. */
  lemma {:induction false} NoAnswerIsSkipped(m: Mapping, w: Wanted, value: real, i: nat)
    requires i < |m| && FirstAnswer(m[i].triggers, w).Some?
    ensures ActionOf(m[i], i, w, value)[0] in Actions(m, w, value)
    decreases |m|
  {
    if i < |m| - 1 {
      NoAnswerIsSkipped(m[..|m| - 1], w, value, i);
    }
  }

  /** A claimed controller reaches 14-bit triggers only. */
  lemma {:induction false} ClaimedNeverReachesPlain(pairs: map<PairKey, Halves>, m: Mapping, msg: Msg, k: nat)
    requires Pairs14(m, msg) && k < |ActionsFor(pairs, m, msg)|
    ensures var a := ActionsFor(pairs, m, msg)[k];
            && a.macroIndex < |m|
            && exists t :: t in m[a.macroIndex].triggers && t.kind == CC14 && t.number == MsbOf(msg.data1)
                           && t.channel == Channel(msg)
  {
    var w := Wanted(CC14, Number(MsbOf(msg.data1)), Channel(msg));
    var value := Value14(PairsAfter(pairs, m, msg)[KeyOf(msg)]);
    ActionsAreFirstAnswers(m, w, value);
    var a := Actions(m, w, value)[k];
    assert a == ActionsFor(pairs, m, msg)[k] && IsFirstAnswer(m, w, value, a);
    assert FirstAnswer(m[a.macroIndex].triggers, w).value in m[a.macroIndex].triggers;
  }

  // ---------------------------------------------------------------------
  // Which triggers a message means, trigger by trigger
  // ---------------------------------------------------------------------

  /** A controller message on the trigger's channel carries a half of its 14-bit pair. */
  predicate CarriesHalf(msg: Msg, t: Trigger) {
    && 0xB0 <= msg.status < 0xC0 && t.kind == CC14 && t.channel == msg.status % 16 + 1
    && (if msg.data1 < 32 then t.number == msg.data1 else t.number == msg.data1 - 32)
  }

  /** No trigger of the mapping takes the message for half of a pair. */
  predicate Unpaired(m: Mapping, msg: Msg) {
    forall i, j :: 0 <= i < |m| && 0 <= j < |m[i].triggers| ==> !CarriesHalf(msg, m[i].triggers[j])
  }

  predicate Meant(m: Mapping, msg: Msg, t: Trigger) {
    var st, d1, d2 := msg.status, msg.data1, msg.data2;
    t.channel == st % 16 + 1 &&
    match t.kind
    case NoteOn => 0x90 <= st < 0xA0 && d2 > 0 && t.note == d1
    case NoteOff => (0x80 <= st < 0x90 || (0x90 <= st < 0xA0 && d2 == 0)) && t.note == d1
    case CC => 0xB0 <= st < 0xC0 && t.number == d1 && Unpaired(m, msg)
    case CC14 => CarriesHalf(msg, t)
    case ProgramChange => 0xC0 <= st < 0xD0 && t.number == d1
    case Aftertouch => 0xD0 <= st < 0xE0
    case PitchBend => 0xE0 <= st < 0xF0
  }

  /** The value a message carries to a trigger of this kind, with the halves its pair held before. */
  function Carried(msg: Msg, kind: TrigType, held: Halves): real {
    match kind
    case NoteOn => msg.data2 as real / 127.0
    case NoteOff => msg.data2 as real / 127.0
    case CC => msg.data2 as real / 127.0
    case CC14 => (if msg.data1 < 32 then msg.data2 * 128 + held.lsb else held.msb * 128 + msg.data2) as real / 16383.0
    case ProgramChange => 1.0
    case Aftertouch => msg.data1 as real / 127.0
    case PitchBend => (msg.data2 * 128 + msg.data1) as real / 16383.0
  }

  /** A knob takes the value; a macro fires, with the value where its trigger says so and full on where not. */
  function Reply(mac: Macro, i: nat, t: Trigger, value: real): Action {
    if t.useValue == 0 then Fire(i, 1.0) else if mac.isKnob != 0 then Knob(i, value) else Fire(i, value)
  }

  /** What a message asks for, half of a pair or not. */
  function Asked(pairs: map<PairKey, Halves>, m: Mapping, msg: Msg): Option<(Wanted, real)> {
    if Pairs14(m, msg) then
      Some((Wanted(CC14, Number(MsbOf(msg.data1)), Channel(msg)), Value14(PairsAfter(pairs, m, msg)[KeyOf(msg)])))
    else PlainWanted(msg)
  }

  lemma ClaimedExactly(m: Mapping, msg: Msg)
    requires SevenBit(msg)
    ensures Pairs14(m, msg) <==> !Unpaired(m, msg)
  {
    if i, j :| 0 <= i < |m| && 0 <= j < |m[i].triggers| && CarriesHalf(msg, m[i].triggers[j]) {
      assert Answers(m[i].triggers[j], Wanted(CC14, Number(MsbOf(msg.data1)), Channel(msg)));
    } else if Pairs14(m, msg) {
      var i, j :| 0 <= i < |m| && 0 <= j < |m[i].triggers|
                  && Answers(m[i].triggers[j], Wanted(CC14, Number(MsbOf(msg.data1)), Channel(msg)));
      assert CarriesHalf(msg, m[i].triggers[j]);
    }
  }

  lemma AskedExactly(pairs: map<PairKey, Halves>, m: Mapping, msg: Msg, i: nat, j: nat)
    requires SevenBit(msg) && i < |m| && j < |m[i].triggers|
    ensures var t, held := m[i].triggers[j], HalvesIn(pairs, KeyOf(msg));
      match Asked(pairs, m, msg)
      case None => !Meant(m, msg, t)
      case Some((w, value)) =>
        (Answers(t, w) <==> Meant(m, msg, t)) && (Meant(m, msg, t) ==> value == Carried(msg, t.kind, held))
  {
    ClaimedExactly(m, msg);
  }

  lemma FirstMeantAnswers(pairs: map<PairKey, Halves>, m: Mapping, msg: Msg, i: nat, j: nat)
    requires SevenBit(msg) && i < |m| && j < |m[i].triggers|
    requires Meant(m, msg, m[i].triggers[j]) && forall k :: 0 <= k < j ==> !Meant(m, msg, m[i].triggers[k])
    ensures Asked(pairs, m, msg).Some? && FirstAnswer(m[i].triggers, Asked(pairs, m, msg).value.0)
                                          == Some(m[i].triggers[j])
  {
    AskedExactly(pairs, m, msg, i, j);
    var w := Asked(pairs, m, msg).value.0;
    forall k | 0 <= k < j ensures !Answers(m[i].triggers[k], w) { AskedExactly(pairs, m, msg, i, k); }
  }

  /**
   What a message does, from the side of the triggers: a macro whose first meant trigger is `j` answers with that
   trigger's reply to the value the message carries, the two bytes of a bend and the two halves of a pair in order.
  */
  lemma {:induction false} MeantTriggersAnswer(pairs: map<PairKey, Halves>, m: Mapping, msg: Msg, i: nat, j: nat)
    requires SevenBit(msg) && i < |m| && j < |m[i].triggers|
    requires Meant(m, msg, m[i].triggers[j]) && forall k :: 0 <= k < j ==> !Meant(m, msg, m[i].triggers[k])
    ensures var t, held := m[i].triggers[j], HalvesIn(pairs, KeyOf(msg));
      Reply(m[i], i, t, Carried(msg, t.kind, held)) in ActionsFor(pairs, m, msg)
  {
    FirstMeantAnswers(pairs, m, msg, i, j);
    AskedExactly(pairs, m, msg, i, j);
    var (w, value) := Asked(pairs, m, msg).value;
    NoAnswerIsSkipped(m, w, value, i);
  }

  /** And no other macro answers. */
  lemma {:induction false} OnlyMeantTriggersAnswer(pairs: map<PairKey, Halves>, m: Mapping, msg: Msg, a: Action)
    requires SevenBit(msg) && a in ActionsFor(pairs, m, msg)
    ensures a.macroIndex < |m|
    ensures exists j :: 0 <= j < |m[a.macroIndex].triggers| && Meant(m, msg, m[a.macroIndex].triggers[j])
  {
    var (w, value) := Asked(pairs, m, msg).value;
    ActionsAreFirstAnswers(m, w, value);
    var k :| 0 <= k < |Actions(m, w, value)| && Actions(m, w, value)[k] == a;
    assert IsFirstAnswer(m, w, value, a);
    var j :| 0 <= j < |m[a.macroIndex].triggers| && Answers(m[a.macroIndex].triggers[j], w);
    AskedExactly(pairs, m, msg, a.macroIndex, j);
  }

  /** The coarse half, then the fine one: a claimed pair reads as the 14-bit number of the two, whatever came before. */
  lemma {:induction false} PairReadsInOrder(events: seq<Arrival>, m: Mapping, ch: int, n: int, high: int, low: int)
    requires 1 <= ch <= 16 && 0 <= n < 32 && !Unpaired(m, Msg(0xB0 + ch - 1, n, high))
    requires 0 <= high < 128 && 0 <= low < 128
    ensures var coarse, fine := Msg(0xB0 + ch - 1, n, high), Msg(0xB0 + ch - 1, n + 32, low);
      var held := HalvesIn(PairsRun(events + [Arrival(m, coarse)]), KeyOf(fine));
      Carried(fine, CC14, held) == (high * 128 + low) as real / 16383.0
  {
    var coarse := Msg(0xB0 + ch - 1, n, high);
    assert (events + [Arrival(m, coarse)])[..|events|] == events;
    ClaimedExactly(m, coarse);
  }

  predicate SevenBitHalves(pairs: map<PairKey, Halves>) {
    forall k :: k in pairs ==> 0 <= pairs[k].msb < 128 && 0 <= pairs[k].lsb < 128
  }

  lemma {:induction false} RunStaysSevenBit(events: seq<Arrival>)
    requires forall e :: e in events ==> SevenBit(e.msg)
    ensures SevenBitHalves(PairsRun(events))
    decreases |events|
  {
    if events != [] {
      var front := events[..|events| - 1];
      assert forall e :: e in front ==> e in events;
      RunStaysSevenBit(front);
      assert events[|events| - 1] in events;
    }
  }

  lemma {:induction false} ActionValues(m: Mapping, w: Wanted, value: real)
    requires 0.0 <= value <= 1.0
    ensures forall a :: a in Actions(m, w, value) ==> 0.0 <= a.value <= 1.0
    decreases |m|
  {
    if m != [] { ActionValues(m[..|m| - 1], w, value); }
  }

  /** From seven-bit messages every value is between 0 and 1. */
  lemma {:induction false} ValuesAreNormalised(events: seq<Arrival>)
    requires events != [] && forall e :: e in events ==> SevenBit(e.msg)
    ensures var last := events[|events| - 1];
            forall a :: a in ActionsFor(PairsRun(events[..|events| - 1]), last.mapping, last.msg) ==>
              0.0 <= a.value <= 1.0
  {
    var front, last := events[..|events| - 1], events[|events| - 1];
    assert last in events;
    RunStaysSevenBit(events);
    if Pairs14(last.mapping, last.msg) {
      var h := PairsRun(events)[KeyOf(last.msg)];
      assert 0 <= h.msb * 128 + h.lsb <= 16383;
      ActionValues(last.mapping, Wanted(CC14, Number(MsbOf(last.msg.data1)), Channel(last.msg)), Value14(h));
    } else {
      match PlainWanted(last.msg)
      case None =>
      case Some((w, value)) => ActionValues(last.mapping, w, value);
    }
  }
}
