/**
 The bindings feed: the bridge prints its MIDI triggers as tab-separated lines
 (`get_midi_bindings`), the native agent parses them into fixed-capacity arrays
 (`tm_bindings_parse`).
*/
module Bindings {
  import opened Characters
  import opened Wrappers
  import opened TriggerTable

  const MAX_MACROS := 128
  const MAX_TRIGGERS := 512
  const NAME_LEN := 80

  // ---------------------------------------------------------------------
  // Reading text
  // ---------------------------------------------------------------------

  function Digit(c: char): int
    requires IsDigit(c)
  {
    c as int - '0' as int
  }

  function Digits(s: string, acc: int): int
    decreases |s|
  {
    if s == "" || !IsDigit(s[0]) then acc else Digits(s[1..], acc * 10 + Digit(s[0]))
  }

  /** An optional minus sign and a run of digits; what follows is not looked at. */
  function IntOf(s: string): int {
    if s != "" && s[0] == '-' then -Digits(s[1..], 0) else Digits(s, 0)
  }

  function IndexOf(s: string, c: char): nat
    ensures IndexOf(s, c) <= |s|
    ensures IndexOf(s, c) < |s| ==> s[IndexOf(s, c)] == c
    ensures forall i :: 0 <= i < IndexOf(s, c) ==> s[i] != c
    decreases |s|
  {
    if s == "" || s[0] == c then 0 else 1 + IndexOf(s[1..], c)
  }

  function Lines(s: string): seq<string>
    decreases |s|
  {
    if s == "" then [] else
    var e := IndexOf(s, '\n');
    if e == |s| then [s] else [s[..e]] + Lines(s[e + 1..])
  }

  function Chomp(line: string): string {
    if line != "" && line[|line| - 1] == '\r' then line[..|line| - 1] else line
  }

  /** At most `n` tab-separated fields; what follows the last one is dropped. */
  function Fields(s: string, n: nat): seq<string>
    decreases |s|
  {
    if n == 0 then [] else
    var e := IndexOf(s, '\t');
    if e == |s| then [s] else [s[..e]] + Fields(s[e + 1..], n - 1)
  }

  lemma LinesStep(s: string, head: string, rest: string)
    requires |head| == IndexOf(s, '\n') < |s|
    requires head == s[..|head|] && rest == s[|head| + 1..]
    ensures Lines(s) == [head] + Lines(rest)
  {}

  lemma FieldsStep(s: string, n: nat, head: string, rest: string)
    requires n > 0 && |head| == IndexOf(s, '\t') < |s|
    requires head == s[..|head|] && rest == s[|head| + 1..]
    ensures Fields(s, n) == [head] + Fields(rest, n - 1)
  {}

  lemma LastLine(s: string)
    requires s != "" && IndexOf(s, '\n') == |s|
    ensures Lines(s) == [s]
  {}

  lemma LastField(s: string, n: nat)
    requires n > 0 && IndexOf(s, '\t') == |s|
    ensures Fields(s, n) == [s]
  {}

  function TypeName(kind: TrigType): string {
    match kind
    case CC => "control_change"
    case CC14 => "control_change_14"
    case NoteOn => "note_on"
    case NoteOff => "note_off"
    case ProgramChange => "program_change"
    case PitchBend => "pitch_bend"
    case Aftertouch => "aftertouch"
  }

  function TypeOf(s: string): Option<TrigType> {
    if s == TypeName(CC) then Some(CC)
    else if s == TypeName(CC14) then Some(CC14)
    else if s == TypeName(NoteOn) then Some(NoteOn)
    else if s == TypeName(NoteOff) then Some(NoteOff)
    else if s == TypeName(ProgramChange) then Some(ProgramChange)
    else if s == TypeName(PitchBend) then Some(PitchBend)
    else if s == TypeName(Aftertouch) then Some(Aftertouch)
    else None
  }

  // ---------------------------------------------------------------------
  // The table
  // ---------------------------------------------------------------------

  /** A macro owns the block of `count` triggers from `start`. */
  datatype Entry = Entry(name: string, isKnob: int, start: nat, count: nat)

  datatype Table = Table(macros: seq<Entry>, triggers: seq<Trigger>, overflow: bool)

  const EMPTY := Table([], [], false)

  function Stored(name: string): string {
    if |name| >= NAME_LEN then name[..NAME_LEN - 1] else name
  }

  /** A name as C reads it back: up to its first NUL. */
  function Terminated(s: string): string { s[..IndexOf(s, '\0')] }

  function FindFrom(macros: seq<Entry>, name: string, i: nat): int
    requires i <= |macros|
    ensures -1 <= FindFrom(macros, name, i) < |macros|
    ensures FindFrom(macros, name, i) == -1 ==> forall j :: i <= j < |macros| ==> macros[j].name != name
    ensures FindFrom(macros, name, i) >= 0 ==> macros[FindFrom(macros, name, i)].name == name
    decreases |macros| - i
  {
    if i == |macros| then -1
    else if macros[i].name == name then i
    else FindFrom(macros, name, i + 1)
  }

  function AddTrigger(t: Table, name: string, isKnob: int, trig: Trigger): Table {
    var found := FindFrom(t.macros, Stored(name), 0);
    if found < 0 && |t.macros| >= MAX_MACROS then t.(overflow := true) else
    var macros := if found < 0 then t.macros + [Entry(Terminated(Stored(name)), isKnob, |t.triggers|, 0)] else t.macros;
    var mi := if found < 0 then |t.macros| else found;
    if |t.triggers| >= MAX_TRIGGERS || macros[mi].start + macros[mi].count != |t.triggers| then
      Table(macros, t.triggers, true)
    else
      Table(macros[mi := macros[mi].(count := macros[mi].count + 1)], t.triggers + [trig], t.overflow)
  }

  function AddLine(t: Table, rawLine: string): Table {
    var line := Chomp(rawLine);
    var f := Fields(line, 7);
    if line == "" || |f| < 7 then t else
    match TypeOf(f[2])
    case None => t
    case Some(kind) =>
      AddTrigger(t, f[0], IntOf(f[1]), Trigger(kind, IntOf(f[3]), IntOf(f[4]), IntOf(f[5]), IntOf(f[6])))
  }

  function AddLines(t: Table, lines: seq<string>): Table
    decreases |lines|
  {
    if lines == [] then t else AddLines(AddLine(t, lines[0]), lines[1..])
  }

  function Parsed(tsv: string): Table { AddLines(EMPTY, Lines(tsv)) }

  lemma AddLinesStep(t: Table, line: string, rest: seq<string>)
    ensures AddLines(t, [line] + rest) == AddLines(AddLine(t, line), rest)
  {
    assert ([line] + rest)[1..] == rest;
  }

  // ---------------------------------------------------------------------
  // For any input: the blocks tile the trigger array, the names differ
  // ---------------------------------------------------------------------

  predicate Tiles(t: Table) {
    && (t.macros == [] ==> t.triggers == [])
    && (forall i :: 0 <= i < |t.macros| ==>
          t.macros[i].start == if i == 0 then 0 else t.macros[i - 1].start + t.macros[i - 1].count)
    && (t.macros != [] ==> var last := t.macros[|t.macros| - 1]; last.start + last.count == |t.triggers|)
  }

  predicate DistinctNames(t: Table) {
    forall i, j :: 0 <= i < j < |t.macros| ==> t.macros[i].name != t.macros[j].name
  }

  predicate WithinCapacity(t: Table) {
    && |t.macros| <= MAX_MACROS && |t.triggers| <= MAX_TRIGGERS
    && forall i :: 0 <= i < |t.macros| ==> |t.macros[i].name| < NAME_LEN
  }

  predicate WellBuilt(t: Table) { Tiles(t) && WithinCapacity(t) }

  /** In a tiling every block ends inside the array, and a block ending at the tail has nothing after it. */
  lemma {:induction false} BlocksFit(t: Table, i: nat)
    requires Tiles(t) && i < |t.macros|
    ensures t.macros[i].start + t.macros[i].count <= |t.triggers|
    ensures t.macros[i].start + t.macros[i].count == |t.triggers| ==>
              forall j :: i < j < |t.macros| ==> t.macros[j].start == |t.triggers| && t.macros[j].count == 0
    decreases |t.macros| - i
  {
    if i + 1 < |t.macros| {
      BlocksFit(t, i + 1);
      assert t.macros[i + 1].start == t.macros[i].start + t.macros[i].count;
    }
  }

  /** No input leaves an empty block behind unless the trigger array is full. */
  predicate EmptyOnlyWhenFull(t: Table) {
    forall i :: 0 <= i < |t.macros| && t.macros[i].count == 0 ==> |t.triggers| == MAX_TRIGGERS
  }

  lemma {:induction false} ExtendKeeps(t: Table, mi: nat, trig: Trigger)
    requires WellBuilt(t) && mi < |t.macros| && |t.triggers| < MAX_TRIGGERS
    requires t.macros[mi].start + t.macros[mi].count == |t.triggers|
    requires forall i :: 0 <= i < |t.macros| && t.macros[i].count == 0 ==> i == mi == |t.macros| - 1
    ensures var macros := t.macros[mi := t.macros[mi].(count := t.macros[mi].count + 1)];
            var grown := Table(macros, t.triggers + [trig], t.overflow);
            WellBuilt(grown) && EmptyOnlyWhenFull(grown)
  {
    BlocksFit(t, mi);
  }

  lemma CreateKeeps(t: Table, entry: Entry)
    requires WellBuilt(t) && |t.macros| < MAX_MACROS && |entry.name| < NAME_LEN
    requires entry.start == |t.triggers| && entry.count == 0
    ensures WellBuilt(t.(macros := t.macros + [entry]))
  {}

  lemma AddTriggerKeeps(t: Table, name: string, isKnob: int, trig: Trigger)
    requires WellBuilt(t) && EmptyOnlyWhenFull(t)
    ensures WellBuilt(AddTrigger(t, name, isKnob, trig)) && EmptyOnlyWhenFull(AddTrigger(t, name, isKnob, trig))
  {
    var found := FindFrom(t.macros, Stored(name), 0);
    var entry := Entry(Terminated(Stored(name)), isKnob, |t.triggers|, 0);
    var grown := if found < 0 && |t.macros| < MAX_MACROS then t.(macros := t.macros + [entry]) else t;
    if found < 0 && |t.macros| < MAX_MACROS {
      CreateKeeps(t, entry);
    }
    var mi := if found < 0 then |t.macros| else found;
    if mi < |grown.macros| && |t.triggers| < MAX_TRIGGERS
       && grown.macros[mi].start + grown.macros[mi].count == |t.triggers|
    {
      ExtendKeeps(grown, mi, trig);
    }
  }

  lemma {:induction false} AddLinesKeeps(t: Table, lines: seq<string>)
    requires WellBuilt(t) && EmptyOnlyWhenFull(t)
    ensures WellBuilt(AddLines(t, lines)) && EmptyOnlyWhenFull(AddLines(t, lines))
    decreases |lines|
  {
    if lines != [] {
      var f := Fields(Chomp(lines[0]), 7);
      if |f| >= 7 && TypeOf(f[2]).Some? {
        AddTriggerKeeps(t, f[0], IntOf(f[1]),
                        Trigger(TypeOf(f[2]).value, IntOf(f[3]), IntOf(f[4]), IntOf(f[5]), IntOf(f[6])));
      }
      AddLinesKeeps(AddLine(t, lines[0]), lines[1..]);
    }
  }

  predicate Without(s: string, c: char) { forall i :: 0 <= i < |s| ==> s[i] != c }

  predicate NulFree(s: string) { Without(s, '\0') }

  lemma {:induction false} IndexOfNone(a: string, c: char)
    requires Without(a, c)
    ensures IndexOf(a, c) == |a|
    decreases |a|
  {
    if a != "" { IndexOfNone(a[1..], c); }
  }

  lemma TerminatedStored(name: string)
    requires NulFree(name)
    ensures Terminated(Stored(name)) == Stored(name)
  {
    IndexOfNone(Stored(name), '\0');
  }

  lemma DistinctAfter(t: Table, name: string, isKnob: int, trig: Trigger)
    requires DistinctNames(t) && NulFree(name)
    ensures DistinctNames(AddTrigger(t, name, isKnob, trig))
  {
    TerminatedStored(name);
  }

  lemma {:induction false} FieldsWithout(s: string, n: nat, c: char)
    requires Without(s, c)
    ensures forall i :: 0 <= i < |Fields(s, n)| ==> Without(Fields(s, n)[i], c)
    decreases |s|
  {
    var e := IndexOf(s, '\t');
    if n > 0 && e < |s| { FieldsWithout(s[e + 1..], n - 1, c); }
  }

  lemma {:induction false} LinesWithout(s: string, c: char)
    requires Without(s, c)
    ensures forall i :: 0 <= i < |Lines(s)| ==> Without(Lines(s)[i], c)
    decreases |s|
  {
    var e := IndexOf(s, '\n');
    if s != "" && e < |s| { LinesWithout(s[e + 1..], c); }
  }

  lemma {:induction false} DistinctLines(t: Table, lines: seq<string>)
    requires DistinctNames(t) && forall i :: 0 <= i < |lines| ==> NulFree(lines[i])
    ensures DistinctNames(AddLines(t, lines))
    decreases |lines|
  {
    if lines != [] {
      var f := Fields(Chomp(lines[0]), 7);
      FieldsWithout(Chomp(lines[0]), 7, '\0');
      if |f| >= 7 && TypeOf(f[2]).Some? {
        DistinctAfter(t, f[0], IntOf(f[1]),
                      Trigger(TypeOf(f[2]).value, IntOf(f[3]), IntOf(f[4]), IntOf(f[5]), IntOf(f[6])));
      }
      DistinctLines(AddLine(t, lines[0]), lines[1..]);
    }
  }

  /**
   Whatever the feed says, the blocks are consecutive, disjoint and tile the used triggers, and without NUL bytes no two
   macros have the same name.
  */
  lemma AnyFeedIsWellBuilt(tsv: string)
    ensures WellBuilt(Parsed(tsv)) && EmptyOnlyWhenFull(Parsed(tsv))
    ensures NulFree(tsv) ==> DistinctNames(Parsed(tsv))
  {
    AddLinesKeeps(EMPTY, Lines(tsv));
    if NulFree(tsv) {
      LinesWithout(tsv, '\0');
      DistinctLines(EMPTY, Lines(tsv));
    }
  }

  /** Comparing such a field with a type's name reads on past the name's own end, which C leaves undefined. */
  predicate Overreads(field: string) { exists k: TrigType :: TypeName(k) + "\0" <= field }

  predicate LineDefined(line: string) {
    var f := Fields(Chomp(line), 7);
    |f| >= 7 ==> !Overreads(f[2])
  }

  /** The feeds on which the C parser's behaviour is defined. */
  predicate Defined(tsv: string) { forall i :: 0 <= i < |Lines(tsv)| ==> LineDefined(Lines(tsv)[i]) }

  lemma OverreadsOnNul(field: string)
    ensures Overreads(field) ==> !NulFree(field)
  {
    if k: TrigType :| TypeName(k) + "\0" <= field {
      assert field[|TypeName(k)|] == (TypeName(k) + "\0")[|TypeName(k)|];
    }
  }

  lemma NulFreeIsDefined(tsv: string)
    requires NulFree(tsv)
    ensures Defined(tsv)
  {
    LinesWithout(tsv, '\0');
    forall i | 0 <= i < |Lines(tsv)| ensures LineDefined(Lines(tsv)[i]) {
      var line := Lines(tsv)[i];
      FieldsWithout(Chomp(line), 7, '\0');
      var f := Fields(Chomp(line), 7);
      if |f| >= 7 { OverreadsOnNul(f[2]); }
    }
  }

  // ---------------------------------------------------------------------
  // The parser
  // ---------------------------------------------------------------------

  class Store {
    const macros: array<Entry>
    const triggers: array<Trigger>
    var macroCount: nat
    var trigUsed: nat

    ghost predicate Valid()
      reads this, macros, triggers
    {
      && macros.Length == MAX_MACROS && triggers.Length == MAX_TRIGGERS
      && macroCount <= MAX_MACROS && trigUsed <= MAX_TRIGGERS
    }

    ghost function Contents(overflow: bool): Table
      requires Valid()
      reads this, macros, triggers
    {
      Table(macros[..macroCount], triggers[..trigUsed], overflow)
    }

    constructor ()
      ensures Valid() && fresh(macros) && fresh(triggers) && Contents(false) == EMPTY
    {
      macros := new Entry[MAX_MACROS](i => Entry("", 0, 0, 0));
      triggers := new Trigger[MAX_TRIGGERS](i => Trigger(CC, 0, 0, 0, 0));
      macroCount, trigUsed := 0, 0;
    }

    method ParseInt(s: string) returns (v: int)
      ensures v == IntOf(s)
    {
      var i, sign := 0, 1;
      if s != "" && s[0] == '-' {
        sign, i := -1, 1;
      }
      var val := 0;
      ghost var start := i;
      while i < |s| && IsDigit(s[i])
        invariant start <= i <= |s|
        invariant Digits(s[i..], val) == Digits(s[start..], 0)
      {
        val := val * 10 + Digit(s[i]);
        i := i + 1;
      }
      assert s[0..] == s;
      v := sign * val;
    }

    method Find(s: string, c: char) returns (e: nat)
      ensures e == IndexOf(s, c)
    {
      e := 0;
      while e < |s| && s[e] != c
        invariant e <= |s|
        invariant IndexOf(s, c) == e + IndexOf(s[e..], c)
      {
        e := e + 1;
      }
    }

    /** The field at the front of `s`, and what follows its tab if there is one. */
    method TakeField(s: string, ghost n: nat) returns (head: string, more: bool, rest: string)
      requires n > 0
      ensures Fields(s, n) == [head] + if more then Fields(rest, n - 1) else []
    {
      var e := Find(s, '\t');
      if e == |s| {
        LastField(s, n);
        return s, false, "";
      }
      FieldsStep(s, n, s[..e], s[e + 1..]);
      return s[..e], true, s[e + 1..];
    }

    /** The split of one line into at most `n` fields. */
    method Split(line: string, n: nat) returns (f: seq<string>)
      ensures f == Fields(line, n)
    {
      f := [];
      var s, left, more := line, n, true;
      ghost var todo := Fields(line, n);
      ghost var goal := todo;
      while left > 0 && more
        invariant todo == if more then Fields(s, left) else []
        invariant f + todo == goal
        decreases left
      {
        var head;
        head, more, s := TakeField(s, left);
        f, todo, left := f + [head], todo[1..], left - 1;
      }
    }

    /** Index of the macro of this name, creating it when there is room; -1 when there is none. */
    method MacroSlot(name: string, isKnob: int) returns (mi: int)
      requires Valid()
      modifies this`macroCount, macros
      ensures Valid()
      ensures var before := old(macros[..macroCount]);
              var found := FindFrom(before, Stored(name), 0);
              var entry := Entry(Terminated(Stored(name)), isKnob, trigUsed, 0);
              if found >= 0 then mi == found && macros[..macroCount] == before
              else if |before| >= MAX_MACROS then mi == -1 && macros[..macroCount] == before
              else mi == |before| && macros[..macroCount] == before + [entry]
    {
      var key := if |name| >= NAME_LEN then name[..NAME_LEN - 1] else name;
      var i := 0;
      while i < macroCount
        invariant 0 <= i <= macroCount
        invariant FindFrom(macros[..macroCount], key, 0) == FindFrom(macros[..macroCount], key, i)
      {
        if macros[i].name == key { return i; }
        i := i + 1;
      }
      if macroCount >= MAX_MACROS { return -1; }
      mi := macroCount;
      macros[mi] := Entry(Terminated(key), isKnob, trigUsed, 0);
      macroCount := macroCount + 1;
    }

    /** One trigger line, fields already split; `ok` is false when it did not fit. */
    method Append(name: string, isKnob: int, trig: Trigger, ghost overflow: bool) returns (ok: bool)
      requires Valid()
      modifies this, macros, triggers
      ensures Valid()
      ensures Contents(overflow || !ok) == AddTrigger(old(Contents(overflow)), name, isKnob, trig)
    {
      var mi := MacroSlot(name, isKnob);
      if mi < 0 { return false; }
      if trigUsed >= MAX_TRIGGERS { return false; }
      if macros[mi].start + macros[mi].count != trigUsed { return false; }
      triggers[trigUsed] := trig;
      macros[mi] := macros[mi].(count := macros[mi].count + 1);
      trigUsed := trigUsed + 1;
      ok := true;
    }

    /** One line of the feed; blank and malformed lines change nothing. */
    method ParseLine(rawLine: string, ghost overflow: bool) returns (ok: bool)
      requires Valid()
      modifies this, macros, triggers
      ensures Valid()
      ensures Contents(overflow || !ok) == AddLine(old(Contents(overflow)), rawLine)
    {
      ok := true;
      var line := Chomp(rawLine);
      if line == "" { return; }
      var f := Split(line, 7);
      if |f| < 7 { return; }
      var kind := TypeOf(f[2]);
      if kind == None { return; }
      var isKnob := ParseInt(f[1]);
      var number := ParseInt(f[3]);
      var note := ParseInt(f[4]);
      var channel := ParseInt(f[5]);
      var useValue := ParseInt(f[6]);
      ok := Append(f[0], isKnob, Trigger(kind.value, number, note, channel, useValue), overflow);
    }

    /** `tm_bindings_parse`: refill the table from a feed; false when something did not fit. */
    method Parse(tsv: string) returns (ok: bool)
      requires Valid() && Defined(tsv)
      modifies this, macros, triggers
      ensures Valid() && Contents(!ok) == Parsed(tsv)
    {
      macroCount, trigUsed := 0, 0;
      var overflow := false;
      var s := tsv;
      while s != ""
        invariant Valid()
        invariant AddLines(Contents(overflow), Lines(s)) == Parsed(tsv)
        decreases |s|
      {
        var e := Find(s, '\n');
        var line, rest := s, "";
        if e < |s| {
          line, rest := s[..e], s[e + 1..];
          LinesStep(s, line, rest);
        } else {
          LastLine(s);
          assert Lines(rest) == [];
        }
        AddLinesStep(Contents(overflow), line, Lines(rest));
        var fits := ParseLine(line, overflow);
        overflow, s := overflow || !fits, rest;
      }
      ok := !overflow;
    }
  }

  // ---------------------------------------------------------------------
  // The printer
  // ---------------------------------------------------------------------

  datatype SourceTrigger =
    SourceTrigger(kind: TrigType, number: Option<int>, note: Option<int>, channel: int, useValue: bool)

  datatype SourceMacro = SourceMacro(name: string, isKnob: bool, triggers: seq<SourceTrigger>)

  function PrintNat(n: nat): (s: string)
    ensures s != "" && forall i :: 0 <= i < |s| ==> IsDigit(s[i])
  {
    (if n < 10 then "" else PrintNat(n / 10)) + [('0' as int + n % 10) as char]
  }

  function PrintInt(v: int): (s: string)
    ensures s != "" && forall i :: 0 <= i < |s| ==> IsDigit(s[i]) || s[i] == '-'
  {
    if v < 0 then "-" + PrintNat(-v) else PrintNat(v)
  }

  function Bit(b: bool): int { if b then 1 else 0 }

  function OrMinusOne(v: Option<int>): int { if v.Some? then v.value else -1 }

  function JoinTabs(fields: seq<string>): string
    decreases |fields|
  {
    if fields == [] then ""
    else if |fields| == 1 then fields[0]
    else fields[0] + "\t" + JoinTabs(fields[1..])
  }

  function LineParts(m: SourceMacro, t: SourceTrigger): seq<string> {
    [m.name, PrintInt(Bit(m.isKnob)), TypeName(t.kind), PrintInt(OrMinusOne(t.number)),
     PrintInt(OrMinusOne(t.note)), PrintInt(t.channel), PrintInt(Bit(t.useValue))]
  }

  function Line(m: SourceMacro, t: SourceTrigger): string { JoinTabs(LineParts(m, t)) }

  function LinesOf(m: SourceMacro, k: nat): seq<string>
    requires k <= |m.triggers|
  {
    if k == 0 then [] else LinesOf(m, k - 1) + [Line(m, m.triggers[k - 1])]
  }

  function AllLines(ms: seq<SourceMacro>): seq<string>
    decreases |ms|
  {
    if ms == [] then []
    else AllLines(ms[..|ms| - 1]) + LinesOf(ms[|ms| - 1], |ms[|ms| - 1].triggers|)
  }

  /** Every line followed by a newline. */
  function Text(lines: seq<string>): string
    decreases |lines|
  {
    if lines == [] then "" else lines[0] + "\n" + Text(lines[1..])
  }

  function Printed(ms: seq<SourceMacro>): string { Text(AllLines(ms)) }

  method JoinLines(lines: seq<string>) returns (s: string)
    ensures s == Text(lines)
  {
    s := "";
    var i: nat := |lines|;
    while i > 0
      invariant i <= |lines| && s == Text(lines[i..])
    {
      i := i - 1;
      assert lines[i..][1..] == lines[i + 1..];
      s := lines[i] + "\n" + s;
    }
  }

  /** The inner loop of `get_midi_bindings`: a macro's lines go behind those printed so far. */
  method AppendLines(m: SourceMacro, before: seq<string>) returns (lines: seq<string>)
    ensures lines == before + LinesOf(m, |m.triggers|)
  {
    lines := before;
    for k := 0 to |m.triggers|
      invariant lines == before + LinesOf(m, k)
    {
      lines := lines + [Line(m, m.triggers[k])];
    }
  }

  /** `get_midi_bindings`: one line per trigger, grouped by macro. */
  method Print(ms: seq<SourceMacro>) returns (s: string)
    ensures s == Printed(ms)
  {
    var lines := [];
    for i := 0 to |ms|
      invariant lines == AllLines(ms[..i])
    {
      lines := AppendLines(ms[i], lines);
      AllLinesStep(ms, i);
    }
    assert ms[..|ms|] == ms;
    s := JoinLines(lines);
  }

  lemma AllLinesStep(ms: seq<SourceMacro>, i: nat)
    requires i < |ms|
    ensures AllLines(ms[..i + 1]) == AllLines(ms[..i]) + LinesOf(ms[i], |ms[i].triggers|)
  {
    assert ms[..i + 1][..i] == ms[..i];
  }

  // ---------------------------------------------------------------------
  // Round trip
  // ---------------------------------------------------------------------

  lemma {:induction false} DigitsSplit(a: string, b: string, acc: int)
    requires forall i :: 0 <= i < |a| ==> IsDigit(a[i])
    ensures Digits(a + b, acc) == Digits(b, Digits(a, acc))
    decreases |a|
  {
    if a == "" {
      assert a + b == b;
    } else {
      assert (a + b)[1..] == a[1..] + b;
      DigitsSplit(a[1..], b, acc * 10 + Digit(a[0]));
    }
  }

  lemma {:induction false} DigitsOfPrinted(n: nat)
    ensures Digits(PrintNat(n), 0) == n
  {
    var last := [('0' as int + n % 10) as char];
    var front := if n < 10 then "" else PrintNat(n / 10);
    if n >= 10 { DigitsOfPrinted(n / 10); }
    DigitsSplit(front, last, 0);
    assert last[1..] == "";
    assert Digits(last, n / 10) == n / 10 * 10 + n % 10;
  }

  lemma IntOfPrinted(v: int)
    ensures IntOf(PrintInt(v)) == v
  {
    if v < 0 {
      assert PrintInt(v)[1..] == PrintNat(-v);
      DigitsOfPrinted(-v);
    } else {
      DigitsOfPrinted(v);
    }
  }

  /** Reading a number never passes through a value larger than the number itself. */
  lemma {:induction false} NoIntermediateOverflow(s: string, acc: int, k: nat)
    requires acc >= 0 && k <= |s| && (forall i :: 0 <= i < |s| ==> IsDigit(s[i]))
    ensures 0 <= Digits(s[..k], acc) <= Digits(s, acc)
    decreases |s|
  {
    assert s[..k] + s[k..] == s;
    DigitsSplit(s[..k], s[k..], acc);
    DigitsGrow(s[..k], acc);
    DigitsGrow(s[k..], Digits(s[..k], acc));
  }

  lemma {:induction false} DigitsGrow(s: string, acc: int)
    requires acc >= 0
    ensures Digits(s, acc) >= acc
    decreases |s|
  {
    if s != "" && IsDigit(s[0]) {
      DigitsGrow(s[1..], acc * 10 + Digit(s[0]));
    }
  }

  lemma {:induction false} IndexOfFirst(a: string, b: string, c: char)
    requires Without(a, c) && b != "" && b[0] == c
    ensures IndexOf(a + b, c) == |a|
    decreases |a|
  {
    if a == "" {
      assert a + b == b;
    } else {
      assert (a + b)[1..] == a[1..] + b;
      IndexOfFirst(a[1..], b, c);
    }
  }

  lemma FieldThenRest(head: string, rest: string, n: nat)
    requires Without(head, '\t') && n > 0
    ensures Fields(head + "\t" + rest, n) == [head] + Fields(rest, n - 1)
  {
    var s := head + "\t" + rest;
    assert s == head + ("\t" + rest);
    IndexOfFirst(head, "\t" + rest, '\t');
    FieldsStep(s, n, head, rest);
  }

  function FirstOf(fields: seq<string>, n: nat): seq<string> { if |fields| <= n then fields else fields[..n] }

  lemma FieldsOfJoinedNext(head: string, rest: seq<string>, n: nat)
    requires rest != [] && Without(head, '\t') && n > 0 && Fields(JoinTabs(rest), n - 1) == FirstOf(rest, n - 1)
    ensures Fields(JoinTabs([head] + rest), n) == FirstOf([head] + rest, n)
  {
    JoinOne(head, rest);
    FieldThenRest(head, JoinTabs(rest), n);
    assert [head] + FirstOf(rest, n - 1) == FirstOf([head] + rest, n);
  }

  lemma JoinOne(head: string, rest: seq<string>)
    requires rest != []
    ensures JoinTabs([head] + rest) == head + "\t" + JoinTabs(rest)
  {
    assert ([head] + rest)[1..] == rest;
  }

  /** Splitting gives back what was joined, up to the limit. */
  lemma {:induction false} FieldsOfJoined(fields: seq<string>, n: nat)
    requires fields != [] && n > 0 && forall i :: 0 <= i < |fields| ==> Without(fields[i], '\t')
    ensures Fields(JoinTabs(fields), n) == FirstOf(fields, n)
    decreases |fields|
  {
    if |fields| == 1 {
      IndexOfNone(fields[0], '\t');
      LastField(fields[0], n);
    } else {
      var rest := fields[1..];
      if n > 1 { FieldsOfJoined(rest, n - 1); } else { assert Fields(JoinTabs(rest), 0) == FirstOf(rest, 0); }
      FieldsOfJoinedNext(fields[0], rest, n);
      assert fields == [fields[0]] + rest;
    }
  }

  lemma {:induction false} JoinedWithout(fields: seq<string>, c: char)
    requires c != '\t' && forall i :: 0 <= i < |fields| ==> Without(fields[i], c)
    ensures Without(JoinTabs(fields), c)
    decreases |fields|
  {
    if |fields| > 1 { JoinedWithout(fields[1..], c); }
  }

  lemma {:induction false} JoinedEnds(fields: seq<string>)
    requires fields != [] && fields[|fields| - 1] != ""
    ensures JoinTabs(fields) != ""
    ensures JoinTabs(fields)[|JoinTabs(fields)| - 1] == fields[|fields| - 1][|fields[|fields| - 1]| - 1]
    decreases |fields|
  {
    if |fields| > 1 { JoinedEnds(fields[1..]); }
  }

  predicate GoodName(name: string) {
    |name| < NAME_LEN && Without(name, '\t') && Without(name, '\n') && NulFree(name)
  }

  lemma TypeNamesRead(kind: TrigType)
    ensures TypeOf(TypeName(kind)) == Some(kind)
    ensures Without(TypeName(kind), '\t') && Without(TypeName(kind), '\n') && NulFree(TypeName(kind))
  {}

  /** The trigger a source trigger stands for in the agent's table. */
  function Standing(t: SourceTrigger): Trigger {
    Trigger(t.kind, OrMinusOne(t.number), OrMinusOne(t.note), t.channel, Bit(t.useValue))
  }

  lemma NumberChars(v: int, c: char)
    requires c == '\t' || c == '\n' || c == '\0'
    ensures Without(PrintInt(v), c)
  {}

  lemma PartsWithout(m: SourceMacro, t: SourceTrigger, c: char)
    requires GoodName(m.name) && (c == '\t' || c == '\n' || c == '\0')
    ensures forall i :: 0 <= i < 7 ==> Without(LineParts(m, t)[i], c)
  {
    TypeNamesRead(t.kind);
    NumberChars(Bit(m.isKnob), c);
    NumberChars(OrMinusOne(t.number), c);
    NumberChars(OrMinusOne(t.note), c);
    NumberChars(t.channel, c);
    NumberChars(Bit(t.useValue), c);
  }

  /** A printed line is one line of the feed and ends in a digit. */
  lemma LineShape(m: SourceMacro, t: SourceTrigger)
    requires GoodName(m.name)
    ensures Without(Line(m, t), '\n') && NulFree(Line(m, t)) && Line(m, t) != "" && Chomp(Line(m, t)) == Line(m, t)
  {
    PartsWithout(m, t, '\n');
    PartsWithout(m, t, '\0');
    JoinedWithout(LineParts(m, t), '\n');
    JoinedWithout(LineParts(m, t), '\0');
    JoinedEnds(LineParts(m, t));
  }

  lemma LineAdds(table: Table, m: SourceMacro, t: SourceTrigger)
    requires GoodName(m.name)
    ensures AddLine(table, Line(m, t)) == AddTrigger(table, m.name, Bit(m.isKnob), Standing(t))
  {
    LineShape(m, t);
    PartsWithout(m, t, '\t');
    FieldsOfJoined(LineParts(m, t), 7);
    TypeNamesRead(t.kind);
    IntOfPrinted(Bit(m.isKnob));
    IntOfPrinted(OrMinusOne(t.number));
    IntOfPrinted(OrMinusOne(t.note));
    IntOfPrinted(t.channel);
    IntOfPrinted(Bit(t.useValue));
  }

  predicate Printable(ms: seq<SourceMacro>) {
    && (forall i :: 0 <= i < |ms| ==> GoodName(ms[i].name))
    && (forall i, j :: 0 <= i < j < |ms| ==> ms[i].name != ms[j].name)
  }

  function StandingAll(ts: seq<SourceTrigger>): (r: seq<Trigger>)
    ensures |r| == |ts|
  {
    seq(|ts|, i requires 0 <= i < |ts| => Standing(ts[i]))
  }

  /** What is read back of one macro: its name, knob flag and triggers. */
  datatype View = View(name: string, isKnob: int, triggers: seq<Trigger>)

  predicate Bounded(t: Table) {
    forall i :: 0 <= i < |t.macros| ==> t.macros[i].start + t.macros[i].count <= |t.triggers|
  }

  function Views(t: Table): seq<View>
    requires Bounded(t)
  {
    seq(|t.macros|, i requires 0 <= i < |t.macros| =>
      View(t.macros[i].name, t.macros[i].isKnob,
           t.triggers[t.macros[i].start..t.macros[i].start + t.macros[i].count]))
  }

  /** The macros that have triggers, in order. */
  function Carried(ms: seq<SourceMacro>): seq<View>
    decreases |ms|
  {
    if ms == [] then [] else
    var m := ms[|ms| - 1];
    Carried(ms[..|ms| - 1])
    + if m.triggers == [] then [] else [View(m.name, Bit(m.isKnob), StandingAll(m.triggers))]
  }

  function TriggerTotal(ms: seq<SourceMacro>): nat
    decreases |ms|
  {
    if ms == [] then 0 else TriggerTotal(ms[..|ms| - 1]) + |ms[|ms| - 1].triggers|
  }

  predicate Fits(ms: seq<SourceMacro>) { |Carried(ms)| <= MAX_MACROS && TriggerTotal(ms) <= MAX_TRIGGERS }

  lemma {:induction false} AddLinesAppend(t: Table, a: seq<string>, b: seq<string>)
    ensures AddLines(t, a + b) == AddLines(AddLines(t, a), b)
    decreases |a|
  {
    if a == [] {
      assert a + b == b;
    } else {
      assert (a + b)[1..] == a[1..] + b;
      AddLinesAppend(AddLine(t, a[0]), a[1..], b);
    }
  }

  lemma OneLine(t: Table, lines: seq<string>, line: string)
    ensures AddLines(t, lines + [line]) == AddLine(AddLines(t, lines), line)
  {
    AddLinesAppend(t, lines, [line]);
    assert [line][1..] == [];
  }

  /** A table read back in full: `t` with `m`'s first `k` triggers appended as one block. */
  function WithBlock(t: Table, m: SourceMacro, k: nat): Table
    requires k <= |m.triggers|
  {
    if k == 0 then t else
    t.(macros := t.macros + [Entry(m.name, Bit(m.isKnob), |t.triggers|, k)],
       triggers := t.triggers + StandingAll(m.triggers[..k]))
  }

  lemma OverflowStays(t: Table, line: string)
    ensures t.overflow ==> AddLine(t, line).overflow
  {}

  lemma StandingPrefix(m: SourceMacro, k: nat)
    requires k < |m.triggers|
    ensures StandingAll(m.triggers[..k + 1]) == StandingAll(m.triggers[..k]) + [Standing(m.triggers[k])]
  {}

  lemma {:induction false} OpenBlock(t: Table, m: SourceMacro)
    requires m.triggers != [] && GoodName(m.name) && !t.overflow
    requires forall i :: 0 <= i < |t.macros| ==> t.macros[i].name != m.name
    ensures var t' := AddLine(t, Line(m, m.triggers[0]));
            if |t.macros| < MAX_MACROS && |t.triggers| < MAX_TRIGGERS then t' == WithBlock(t, m, 1) else t'.overflow
  {
    var entry := Entry(m.name, Bit(m.isKnob), |t.triggers|, 0);
    LineAdds(t, m, m.triggers[0]);
    StandingPrefix(m, 0);
    FindLast(t.macros, m.name, 0);
    assert Stored(m.name) == m.name;
    TerminatedStored(m.name);
    LastEntryGrows(t.macros, entry, entry.(count := 1));
  }

  lemma {:induction false} GrowAdds(t: Table, m: SourceMacro, k: nat)
    requires 0 < k < |m.triggers| && GoodName(m.name)
    requires forall i :: 0 <= i < |t.macros| ==> t.macros[i].name != m.name
    ensures var t' := AddTrigger(WithBlock(t, m, k), m.name, Bit(m.isKnob), Standing(m.triggers[k]));
            if |t.triggers| + k < MAX_TRIGGERS then t' == WithBlock(t, m, k + 1) else t'.overflow
  {
    var entry := Entry(m.name, Bit(m.isKnob), |t.triggers|, k);
    StandingPrefix(m, k);
    FindPast(t.macros, entry, 0);
    assert Stored(m.name) == m.name;
    TerminatedStored(m.name);
    LastEntryGrows(t.macros, entry, entry.(count := k + 1));
  }

  lemma {:induction false} GrowBlock(t: Table, m: SourceMacro, k: nat)
    requires 0 < k < |m.triggers| && GoodName(m.name) && !t.overflow
    requires forall i :: 0 <= i < |t.macros| ==> t.macros[i].name != m.name
    ensures var t' := AddLine(WithBlock(t, m, k), Line(m, m.triggers[k]));
            if |t.triggers| + k < MAX_TRIGGERS then t' == WithBlock(t, m, k + 1) else t'.overflow
  {
    LineAdds(WithBlock(t, m, k), m, m.triggers[k]);
    GrowAdds(t, m, k);
  }

  lemma LastEntryGrows(macros: seq<Entry>, last: Entry, grown: Entry)
    ensures (macros + [last])[|macros| := grown] == macros + [grown]
  {}

  lemma {:induction false} FindLast(macros: seq<Entry>, name: string, i: nat)
    requires i <= |macros| && forall j :: 0 <= j < |macros| ==> macros[j].name != name
    ensures FindFrom(macros, name, i) == -1
  {}

  lemma {:induction false} FindPast(macros: seq<Entry>, last: Entry, i: nat)
    requires i <= |macros| && forall j :: 0 <= j < |macros| ==> macros[j].name != last.name
    ensures FindFrom(macros + [last], last.name, i) == |macros|
    decreases |macros| - i
  {
    if i < |macros| {
      FindPast(macros, last, i + 1);
    }
  }

  predicate HasRoom(t: Table, k: nat) { k == 0 || (|t.macros| < MAX_MACROS && |t.triggers| + k <= MAX_TRIGGERS) }

  lemma {:induction false} ReadOne(t: Table, m: SourceMacro, k: nat)
    requires k < |m.triggers| && GoodName(m.name) && !t.overflow && HasRoom(t, k)
    requires |t.macros| <= MAX_MACROS && |t.triggers| <= MAX_TRIGGERS
    requires forall i :: 0 <= i < |t.macros| ==> t.macros[i].name != m.name
    ensures var t' := AddLine(WithBlock(t, m, k), Line(m, m.triggers[k]));
            if HasRoom(t, k + 1) then t' == WithBlock(t, m, k + 1) else t'.overflow
  {
    if k == 0 {
      OpenBlock(t, m);
    } else {
      GrowBlock(t, m, k);
    }
  }

  /** `t'` is `t` with `m`'s first `k` triggers read, or has overflowed for want of room. */
  predicate BlockRead(t: Table, m: SourceMacro, k: nat, t': Table)
    requires k <= |m.triggers|
  {
    if HasRoom(t, k) then t' == WithBlock(t, m, k) else t'.overflow
  }

  lemma ReadNext(t: Table, m: SourceMacro, k: nat, t': Table)
    requires k < |m.triggers| && GoodName(m.name) && !t.overflow && BlockRead(t, m, k, t')
    requires |t.macros| <= MAX_MACROS && |t.triggers| <= MAX_TRIGGERS
    requires forall i :: 0 <= i < |t.macros| ==> t.macros[i].name != m.name
    ensures BlockRead(t, m, k + 1, AddLine(t', Line(m, m.triggers[k])))
  {
    if HasRoom(t, k) {
      ReadOne(t, m, k);
    } else {
      OverflowStays(t', Line(m, m.triggers[k]));
    }
  }

  /** Reading back one macro's lines: its whole block, or an overflow when there is no room for it. */
  lemma {:induction false} ReadBlock(t: Table, m: SourceMacro, k: nat)
    requires k <= |m.triggers| && GoodName(m.name) && !t.overflow
    requires |t.macros| <= MAX_MACROS && |t.triggers| <= MAX_TRIGGERS
    requires forall i :: 0 <= i < |t.macros| ==> t.macros[i].name != m.name
    ensures BlockRead(t, m, k, AddLines(t, LinesOf(m, k)))
  {
    if k > 0 {
      ReadBlock(t, m, k - 1);
      OneLine(t, LinesOf(m, k - 1), Line(m, m.triggers[k - 1]));
      ReadNext(t, m, k - 1, AddLines(t, LinesOf(m, k - 1)));
    }
  }

  lemma {:induction false} OverflowStaysAll(t: Table, lines: seq<string>)
    requires t.overflow
    ensures AddLines(t, lines).overflow
    decreases |lines|
  {
    if lines != [] {
      OverflowStays(t, lines[0]);
      OverflowStaysAll(AddLine(t, lines[0]), lines[1..]);
    }
  }

  /** What reading back the lines of `ms` leaves in the table. */
  ghost predicate ReadsBack(t: Table, ms: seq<SourceMacro>) {
    && !t.overflow && Bounded(t) && Views(t) == Carried(ms)
    && |t.macros| == |Carried(ms)| && |t.triggers| == TriggerTotal(ms)
  }

  lemma {:induction false} CarriedNames(ms: seq<SourceMacro>, name: string)
    requires forall i :: 0 <= i < |ms| ==> ms[i].name != name
    ensures forall i :: 0 <= i < |Carried(ms)| ==> Carried(ms)[i].name != name
    decreases |ms|
  {
    if ms != [] { CarriedNames(ms[..|ms| - 1], name); }
  }

  lemma Behind(a: seq<Trigger>, b: seq<Trigger>)
    ensures (a + b)[|a|..|a| + |b|] == b
  {}

  lemma {:induction false} BlockViews(t: Table, m: SourceMacro)
    requires Bounded(t) && m.triggers != []
    ensures var t' := WithBlock(t, m, |m.triggers|);
            Bounded(t') && Views(t') == Views(t) + [View(m.name, Bit(m.isKnob), StandingAll(m.triggers))]
  {
    var t' := WithBlock(t, m, |m.triggers|);
    assert m.triggers[..|m.triggers|] == m.triggers;
    assert t'.triggers == t.triggers + StandingAll(m.triggers);
    Behind(t.triggers, StandingAll(m.triggers));
    forall i | 0 <= i < |t.macros| ensures Views(t')[i] == Views(t)[i] {
      var e := t.macros[i];
      assert t'.macros[i] == e;
      assert t'.triggers[e.start..e.start + e.count] == t.triggers[e.start..e.start + e.count];
    }
  }

  lemma {:induction false} ReadAll(ms: seq<SourceMacro>)
    requires Printable(ms)
    ensures var t := AddLines(EMPTY, AllLines(ms));
            if Fits(ms) then ReadsBack(t, ms) else t.overflow
    decreases |ms|
  {
    if ms != [] {
      var front, m := ms[..|ms| - 1], ms[|ms| - 1];
      ReadAll(front);
      var t := AddLines(EMPTY, AllLines(front));
      AddLinesAppend(EMPTY, AllLines(front), LinesOf(m, |m.triggers|));
      if Fits(front) {
        CarriedNames(front, m.name);
        forall i | 0 <= i < |t.macros| ensures t.macros[i].name != m.name {
          assert Views(t)[i].name == t.macros[i].name;
        }
        ReadBlock(t, m, |m.triggers|);
        if m.triggers != [] {
          BlockViews(t, m);
        }
      } else {
        OverflowStaysAll(t, LinesOf(m, |m.triggers|));
      }
    }
  }

  lemma {:induction false} LinesOfText(lines: seq<string>)
    requires forall i :: 0 <= i < |lines| ==> Without(lines[i], '\n')
    ensures Lines(Text(lines)) == lines
    decreases |lines|
  {
    if lines != [] {
      var rest := Text(lines[1..]);
      LinesOfText(lines[1..]);
      assert lines[0] + "\n" + rest == lines[0] + ("\n" + rest);
      IndexOfFirst(lines[0], "\n" + rest, '\n');
      LinesStep(Text(lines), lines[0], rest);
    }
  }

  lemma {:induction false} TextIsNulFree(lines: seq<string>)
    requires forall i :: 0 <= i < |lines| ==> NulFree(lines[i])
    ensures NulFree(Text(lines))
    decreases |lines|
  {
    if lines != [] { TextIsNulFree(lines[1..]); }
  }

  lemma {:induction false} LinesOfShape(m: SourceMacro, k: nat)
    requires k <= |m.triggers| && GoodName(m.name)
    ensures forall i :: 0 <= i < |LinesOf(m, k)| ==> Without(LinesOf(m, k)[i], '\n') && NulFree(LinesOf(m, k)[i])
  {
    if k > 0 {
      LinesOfShape(m, k - 1);
      LineShape(m, m.triggers[k - 1]);
    }
  }

  lemma {:induction false} AllLinesShape(ms: seq<SourceMacro>)
    requires Printable(ms)
    ensures forall i :: 0 <= i < |AllLines(ms)| ==> Without(AllLines(ms)[i], '\n') && NulFree(AllLines(ms)[i])
    decreases |ms|
  {
    if ms != [] {
      AllLinesShape(ms[..|ms| - 1]);
      LinesOfShape(ms[|ms| - 1], |ms[|ms| - 1].triggers|);
    }
  }

  /**
   Round trip: reading the printed feed succeeds exactly when the macros with triggers and their triggers fit the
   arrays, and then it gives back exactly those macros, in order, each with its knob flag and its own triggers.
  */
  lemma FeedRoundTrip(ms: seq<SourceMacro>)
    requires Printable(ms)
    ensures Defined(Printed(ms))
    ensures Parsed(Printed(ms)).overflow <==> !Fits(ms)
    ensures Fits(ms) ==> Bounded(Parsed(Printed(ms))) && Views(Parsed(Printed(ms))) == Carried(ms)
  {
    AllLinesShape(ms);
    TextIsNulFree(AllLines(ms));
    NulFreeIsDefined(Printed(ms));
    LinesOfText(AllLines(ms));
    ReadAll(ms);
  }

  /** Names are kept to 79 characters. */
  lemma NamesAreCut(name: string)
    ensures Stored(name) <= name && |Stored(name)| == if |name| < 80 then |name| else 79
  {}

  /** Where a trigger of a known name would go: right behind the block its name opened. */
  predicate AtTheTail(t: Table, name: string) {
    exists i :: 0 <= i < |t.macros| && t.macros[i].name == name
                && (forall j :: 0 <= j < i ==> t.macros[j].name != name)
                && t.macros[i].start + t.macros[i].count == |t.triggers|
  }

  predicate Known(t: Table, name: string) { exists i :: 0 <= i < |t.macros| && t.macros[i].name == name }

  /**
   A trigger is taken if and only if there is a slot for it and its macro is the last one begun, or a new one that there
   is room for; else the overflow is on record and the triggers stay as they are.
  */
  lemma TakenExactlyInPlace(t: Table, name: string, isKnob: int, trig: Trigger)
    ensures var r := AddTrigger(t, name, isKnob, trig);
      if |t.triggers| < 512 && (if Known(t, Stored(name)) then AtTheTail(t, Stored(name)) else |t.macros| < 128)
      then r.triggers == t.triggers + [trig] && r.overflow == t.overflow
      else r.triggers == t.triggers && r.overflow
  {
    var found := FindFrom(t.macros, Stored(name), 0);
    FindIsFirst(t.macros, Stored(name), 0);
    if found >= 0 { assert t.macros[found].name == Stored(name); }
  }

  lemma {:induction false} FindIsFirst(macros: seq<Entry>, name: string, i: nat)
    requires i <= |macros|
    ensures forall j :: i <= j < FindFrom(macros, name, i) ==> macros[j].name != name
    decreases |macros| - i
  {
    if i < |macros| && macros[i].name != name { FindIsFirst(macros, name, i + 1); }
  }

  // ---------------------------------------------------------------------
  // The text of the feed
  // ---------------------------------------------------------------------

  function Flag(b: bool): string { if b then "1" else "0" }

  function NumberText(v: Option<int>): string { if v.Some? then PrintInt(v.value) else "-1" }

  lemma SmallNumbers()
    ensures PrintInt(0) == "0" && PrintInt(1) == "1" && PrintInt(-1) == "-1"
  {
    assert PrintNat(1) == "1" && PrintNat(0) == "0";
  }

  /** A line of the feed holds name, knob flag, type, number, note, channel and value flag, -1 where none applies. */
  lemma FeedLineText(m: SourceMacro, t: SourceTrigger)
    ensures Line(m, t) ==
      m.name + "\t" + (Flag(m.isKnob) + "\t" + (TypeName(t.kind) + "\t" + (NumberText(t.number) + "\t"
      + (NumberText(t.note) + "\t" + (PrintInt(t.channel) + "\t" + Flag(t.useValue))))))
  {
    SmallNumbers();
    var p := LineParts(m, t);
    assert p[6..] == [p[6]] && p[5..] == [p[5]] + p[6..] && p[4..] == [p[4]] + p[5..] && p[3..] == [p[3]] + p[4..];
    assert p[2..] == [p[2]] + p[3..] && p[1..] == [p[1]] + p[2..] && p == [p[0]] + p[1..];
    JoinOne(p[5], p[6..]);
    JoinOne(p[4], p[5..]);
    JoinOne(p[3], p[4..]);
    JoinOne(p[2], p[3..]);
    JoinOne(p[1], p[2..]);
    JoinOne(p[0], p[1..]);
  }

  /** The words the agent knows, each for its type; it knows no others. */
  lemma TypeWords(s: string)
    ensures TypeOf(s) == Some(CC) <==> s == "control_change"
    ensures TypeOf(s) == Some(CC14) <==> s == "control_change_14"
    ensures TypeOf(s) == Some(NoteOn) <==> s == "note_on"
    ensures TypeOf(s) == Some(NoteOff) <==> s == "note_off"
    ensures TypeOf(s) == Some(ProgramChange) <==> s == "program_change"
    ensures TypeOf(s) == Some(PitchBend) <==> s == "pitch_bend"
    ensures TypeOf(s) == Some(Aftertouch) <==> s == "aftertouch"
  {
    assert |"control_change"| == 14 && |"control_change_14"| == 17 && |"note_on"| == 7 && |"note_off"| == 8;
    assert |"program_change"| == 14 && |"pitch_bend"| == 10 && |"aftertouch"| == 10;
    assert "control_change"[0] != "program_change"[0] && "pitch_bend"[0] != "aftertouch"[0];
  }

  lemma {:induction false} DigitsStop(s: string, rest: string, acc: int)
    requires (forall i :: 0 <= i < |s| ==> IsDigit(s[i])) && (rest != "" ==> !IsDigit(rest[0]))
    ensures Digits(s + rest, acc) == Digits(s, acc)
  {
    DigitsSplit(s, rest, acc);
  }

  /** A number is read off the front of its field; what follows makes no difference, and a field without one reads 0. */
  lemma {:induction false} NumbersAreReadOffTheFront(v: int, rest: string)
    requires rest != "" ==> !IsDigit(rest[0])
    ensures IntOf(PrintInt(v) + rest) == v
    ensures (rest == "" || rest[0] != '-') ==> IntOf(rest) == 0
    ensures IntOf("-" + rest) == 0
  {
    IntOfPrinted(v);
    if v < 0 {
      assert (PrintInt(v) + rest)[1..] == PrintInt(v)[1..] + rest;
      assert PrintInt(v)[1..] == PrintNat(-v);
      DigitsStop(PrintInt(v)[1..], rest, 0);
    } else {
      DigitsStop(PrintInt(v), rest, 0);
      assert PrintInt(v)[0] != '-';
    }
    assert ("-" + rest)[1..] == rest;
  }

  predicate Tabless(fields: seq<string>) {
    forall i :: 0 <= i < |fields| ==> Without(fields[i], '\t') && Without(fields[i], '\r')
  }

  lemma JoinedIsNotChomped(fields: seq<string>)
    requires fields != [] && Tabless(fields)
    ensures Chomp(JoinTabs(fields)) == JoinTabs(fields)
  {
    JoinedWithout(fields, '\r');
  }

  /** A line of fewer than seven fields, or of a type that is no word of the agent's, leaves the table alone. */
  lemma MalformedLinesAreSkipped(t: Table, fields: seq<string>)
    requires fields != [] && Tabless(fields) && (|fields| < 7 || TypeOf(fields[2]).None?)
    ensures AddLine(t, JoinTabs(fields)) == t
  {
    JoinedIsNotChomped(fields);
    FieldsOfJoined(fields, 7);
  }

  lemma SameFieldsSameLine(t: Table, a: string, b: string)
    requires Chomp(a) != "" && Chomp(b) != "" && Fields(Chomp(a), 7) == Fields(Chomp(b), 7)
    ensures AddLine(t, a) == AddLine(t, b)
  {}

  lemma ReturnIsChomped(line: string)
    ensures Chomp(line + "\r") == line
  {
    assert (line + "\r")[..|line|] == line;
  }

  /** Fields behind the seventh, and a carriage return at the end of a line, make no difference. */
  lemma SurplusIsIgnored(t: Table, fields: seq<string>)
    requires Tabless(fields) && |fields| >= 7
    ensures AddLine(t, JoinTabs(fields)) == AddLine(t, JoinTabs(fields[..7]))
    ensures AddLine(t, JoinTabs(fields)) == AddLine(t, JoinTabs(fields) + "\r")
  {
    JoinedNotEmpty(fields);
    JoinedNotEmpty(fields[..7]);
    JoinedIsNotChomped(fields);
    JoinedIsNotChomped(fields[..7]);
    FieldsOfJoined(fields, 7);
    FieldsOfJoined(fields[..7], 7);
    ReturnIsChomped(JoinTabs(fields));
    SameFieldsSameLine(t, JoinTabs(fields), JoinTabs(fields[..7]));
    SameFieldsSameLine(t, JoinTabs(fields), JoinTabs(fields) + "\r");
  }

  lemma JoinedNotEmpty(fields: seq<string>)
    requires |fields| >= 2
    ensures JoinTabs(fields) != ""
  {
    assert |JoinTabs(fields)| >= |fields[0] + "\t"|;
  }
}
