/**
 Resolving a macro step's target on the classic protocol: look the names up in the measured table, aim the device, and
 let what the device answers confirm or refuse the aim.  What the device answers is a parameter; what is sent on each
 answer is not.
*/
module TargetResolver {
  import opened ChannelNames
  import opened ClassicDevice
  import opened PhysicalTable
  import opened Wrappers

  /** The row a target names: 1, 2, 3 or anything else, which counts as the input row wherever a row is selected. */
  datatype TargetRow = InputRow | PlaybackRow | OutputRow | OtherRow

  /** The parameter's family; buttons are the ones that toggle when pressed. */
  datatype Kind =
    | Fx(path: string, button: bool)
    | Detail(path: string, button: bool)
    | Mute
    | Level(prefix: string)

  /**
   `kind` is what the resolver makes of the parameter's stored name, which it strips and lower-cases.  The step loop
   only lower-cases it: of a `padded` name, one with space around it, it recognises neither channel detail nor button.
  */
  datatype Target = Target(kind: Kind, padded: bool, row: TargetRow, channel: string, submix: string)

  datatype Tables = Tables(inputs: RowMap, outputs: RowMap)

  /**
   The surroundings of one step: whether the global transport is up, the table of the moment, whether a listener runs
   when the resolver looks, whether something raises while it (or a step elsewhere) waits, and what the device shows:
   the reply of page 2 once aimed, the submix label that follows the switch (absent when none does), whether a matching
   strip is visible without provoking a dump, which strip it is in the end, how the button stands; and the values a
   modulating operation emits.
  */
  datatype Answers = Answers(global: bool, table: Option<Tables>, listening: bool, raises: bool, page2: Reply,
                             submixLabel: Option<string>, matchVisible: bool, strip: Option<string>,
                             button: ButtonReply, emitted: seq<real>)

  /** What a button read gets: nobody listens, nothing readable follows, an exception while it waits, or the state. */
  datatype ButtonReply = Unheard | Unknown | Interrupted | Stands(on: bool)

  datatype Resolution = Resolved(addr: Addr) | NoFeedback | NotInBank | Raised

  function RowFor(row: TargetRow): Row {
    match row
    case PlaybackRow => Playbacks
    case OutputRow => Outputs
    case _ => Inputs
  }

  function DetailRow(tables: Tables, row: TargetRow): RowMap {
    if row == OutputRow then tables.outputs else tables.inputs
  }

  function StripPath(kind: Kind, strip: string): string
    requires kind.Mute? || kind.Level?
  {
    if kind.Mute? then "/1/mute/1/" + strip else kind.prefix + strip
  }

  // ---------------------------------------------------------------------
  // What each answer leads to
  // ---------------------------------------------------------------------

  /** The hardware channel a target is aimed by: its own for channel detail, its submix's output for levels. */
  ghost function Channel(t: Target, a: Answers): Option<Hw> {
    if a.table.None? then None
    else if t.kind.Detail? then Start(DetailRow(a.table.value, t.row), Strip(t.channel))
    else Start(a.table.value.outputs, Strip(t.submix))
  }

  ghost predicate Aimable(t: Target, a: Answers) {
    match t.kind
    case Fx(_, _) => false
    case Detail(_, _) => t.row != PlaybackRow && Channel(t, a).Some? && a.listening
    case Mute => true
    case Level(_) => Channel(t, a).Some?
  }

  /** The name shown is the wanted one, its stereo pair or half, or a known alias of the very channel aimed at. */
  predicate Vouches(row: RowMap, k: Hw, wanted: string, shown: string, aliases: bool) {
    NamesCover(shown, wanted) || (aliases && Covers(row, k, wanted, shown))
  }

  ghost predicate AimConfirmed(t: Target, a: Answers)
    requires t.kind.Detail? && Channel(t, a).Some?
  {
    && a.page2.Shows?
    && Vouches(DetailRow(a.table.value, t.row), Channel(t, a).value, Strip(t.channel), Strip(a.page2.name),
               t.row != OtherRow)
  }

  predicate LabelVouches(outputs: RowMap, k: Hw, submix: string, shown: string) {
    Strip(shown) != "" && Vouches(outputs, k, Strip(submix), Strip(shown), true)
  }

  ghost predicate LabelConfirmed(t: Target, a: Answers)
    requires t.kind.Level? && Channel(t, a).Some?
  {
    a.submixLabel.Some? && LabelVouches(a.table.value.outputs, Channel(t, a).value, t.submix, a.submixLabel.value)
  }

  function DetailAim(row: Row, offset: int, reply: Reply): seq<Msg> {
    [Msg(SelectRow(1, row), 1.0), Msg(BankStart, offset as real)]
    + (if reply.NoListener? then [] else [Msg(SelectRow(2, row), 1.0)])
  }

  function PageAim(row: Row, submix: Option<Hw>): seq<Msg> {
    [Msg(BankStart, 0.0), Msg(SelectRow(1, row), 1.0)]
    + (if submix.Some? then [Msg(SetSubmix, submix.value.n as real)] else [])
  }

  function Other(row: Row): Row { if row == Inputs then Playbacks else Inputs }

  function Provocation(row: Row): seq<Msg> { [Msg(SelectRow(1, Other(row)), 1.0), Msg(SelectRow(1, row), 1.0)] }

  ghost function Outcome(t: Target, a: Answers): Resolution {
    match t.kind
    case Fx(path, _) => Resolved(Param(path))
    case Detail(path, _) =>
      if !Aimable(t, a) then NotInBank
      else if a.raises then Raised
      else if AimConfirmed(t, a) then Resolved(Param(path)) else NotInBank
    case Mute =>
      if !a.listening then NoFeedback
      else if a.raises then Raised
      else StripOutcome(t.kind, a)
    case Level(_) =>
      if !Aimable(t, a) then NotInBank
      else if !a.listening then NoFeedback
      else if a.raises then Raised
      else if a.submixLabel.None? then NoFeedback
      else if !LabelConfirmed(t, a) then NotInBank
      else StripOutcome(t.kind, a)
  }

  function StripOutcome(kind: Kind, a: Answers): Resolution
    requires kind.Mute? || kind.Level?
  {
    if a.strip.None? then NotInBank else Resolved(Param(StripPath(kind, a.strip.value)))
  }

  /** Whether a page-1 resolution gets as far as looking for the strip. */
  ghost predicate Searches(t: Target, a: Answers)
    requires Aimable(t, a)
  {
    a.listening && !a.raises && (t.kind.Level? ==> LabelConfirmed(t, a))
  }

  ghost function AimSends(t: Target, a: Answers): seq<Msg> {
    if !Aimable(t, a) then []
    else if t.kind.Detail? then
      DetailAim(RowFor(t.row), Channel(t, a).value.n, a.page2)
      + (if a.raises || AimConfirmed(t, a) then [] else RESTORE)
    else
      PageAim(RowFor(t.row), if t.kind.Mute? then None else Channel(t, a))
      + (if Searches(t, a) && !a.matchVisible then Provocation(RowFor(t.row)) else [])
  }

  // ---------------------------------------------------------------------
  // The resolver
  // ---------------------------------------------------------------------

  method LookUp(table: Option<Tables>, outputs: bool, name: string) returns (start: Option<Hw>)
    ensures start == if table.None? then None
      else Start(if outputs then table.value.outputs else table.value.inputs, Strip(name))
  {
    if table.None? { return None; }
    var row := if outputs then table.value.outputs else table.value.inputs;
    start := ResolveStart(row, Strip(name));
    StartIsUnique(row, Strip(name), start, Start(row, Strip(name)));
  }

  /** The comparisons of `_confirm_page2_aim`. */
  method ConfirmAim(t: Target, a: Answers, offset: Hw) returns (ok: bool)
    requires t.kind.Detail? && Channel(t, a) == Some(offset)
    ensures ok == AimConfirmed(t, a)
  {
    if !a.page2.Shows? { return false; }
    var shown, wanted := Strip(a.page2.name), Strip(t.channel);
    if shown == wanted || NamesCover(shown, wanted) { return true; }
    ok := t.row != OtherRow && Covers(DetailRow(a.table.value, t.row), offset, wanted, shown);
  }

  /** Row and bank, and the nudge of `_read_page2_trackname`. */
  method AimDetail(device: Device, row: Row, offset: int, reply: Reply)
    requires device.Valid()
    modifies device
    ensures device.Valid() && device.start == old(device.start)
    ensures device.sent == old(device.sent) + DetailAim(row, offset, reply)
  {
    device.Send(SelectRow(1, row), 1.0);
    device.Send(BankStart, offset as real);
    if !reply.NoListener? { device.Send(SelectRow(2, row), 1.0); }
  }

  /** The channel-detail branch of `_resolve_target`, with `_confirm_page2_aim`. */
  method ResolveDetail(device: Device, t: Target, a: Answers) returns (r: Resolution)
    requires device.Valid() && t.kind.Detail?
    modifies device
    ensures device.Valid() && device.start == old(device.start)
    ensures r == Outcome(t, a) && device.sent == old(device.sent) + AimSends(t, a)
  {
    if t.row == PlaybackRow { return NotInBank; }
    var offset := LookUp(a.table, t.row == OutputRow, t.channel);
    if offset.None? { return NotInBank; }
    if !a.listening { return NotInBank; }
    ghost var before := device.sent;
    AimDetail(device, RowFor(t.row), offset.value.n, a.page2);
    assert device.sent == before + DetailAim(RowFor(t.row), offset.value.n, a.page2);
    if a.raises { return Raised; }
    var confirmed := ConfirmAim(t, a, offset.value);
    if !confirmed {
      device.Send(BankStart, 0.0);
      device.Send(SelectRow(1, Inputs), 1.0);
      assert device.sent == before + (DetailAim(RowFor(t.row), offset.value.n, a.page2) + RESTORE);
      return NotInBank;
    }
    r := Resolved(Param(t.kind.path));
  }

  method AimPage(device: Device, row: Row, submix: Option<Hw>)
    requires device.Valid()
    modifies device
    ensures device.Valid() && device.start == old(device.start)
    ensures device.sent == old(device.sent) + PageAim(row, submix)
  {
    device.Send(BankStart, 0.0);
    device.Send(SelectRow(1, row), 1.0);
    if submix.Some? { device.Send(SetSubmix, submix.value.n as real); }
  }

  method Provoke(device: Device, row: Row)
    requires device.Valid()
    modifies device
    ensures device.Valid() && device.start == old(device.start)
    ensures device.sent == old(device.sent) + Provocation(row)
  {
    device.Send(SelectRow(1, Other(row)), 1.0);
    device.Send(SelectRow(1, row), 1.0);
  }

  /** The page-1 branch of `_resolve_target`. */
  method ResolvePage(device: Device, t: Target, a: Answers) returns (r: Resolution)
    requires device.Valid() && (t.kind.Mute? || t.kind.Level?)
    modifies device
    ensures device.Valid() && device.start == old(device.start)
    ensures r == Outcome(t, a) && device.sent == old(device.sent) + AimSends(t, a)
  {
    var index := None;
    if t.kind.Level? {
      index := LookUp(a.table, true, t.submix);
      if index.None? { return NotInBank; }
    }
    ghost var before, aim := device.sent, PageAim(RowFor(t.row), index);
    AimPage(device, RowFor(t.row), index);
    assert aim + [] == aim;
    if !a.listening { return NoFeedback; }
    if a.raises { return Raised; }
    if t.kind.Level? {
      if a.submixLabel.None? { return NoFeedback; }
      if !LabelVouches(a.table.value.outputs, index.value, t.submix, a.submixLabel.value) { return NotInBank; }
    }
    if !a.matchVisible {
      Provoke(device, RowFor(t.row));
      assert device.sent == before + (aim + Provocation(RowFor(t.row)));
    }
    if a.strip.None? { return NotInBank; }
    r := Resolved(Param(StripPath(t.kind, a.strip.value)));
  }

  /** `_resolve_target` */
  method ResolveTarget(device: Device, t: Target, a: Answers) returns (r: Resolution)
    requires device.Valid()
    modifies device
    ensures device.Valid() && device.start == old(device.start)
    ensures r == Outcome(t, a) && device.sent == old(device.sent) + AimSends(t, a)
  {
    match t.kind
    case Fx(path, _) => r := Resolved(Param(path));
    case Detail(_, _) => r := ResolveDetail(device, t, a);
    case _ => r := ResolvePage(device, t, a);
  }

  // ---------------------------------------------------------------------
  // Where the resolver leaves the device
  // ---------------------------------------------------------------------

  /** The aim after a resolution's sends, from any aim before. */
  ghost function AimFor(t: Target, a: Answers, aim: Aim): Aim {
    if !Aimable(t, a) then aim
    else if t.kind.Detail? then
      if a.raises || AimConfirmed(t, a) then Aim(Channel(t, a).value.n as real, RowFor(t.row), aim.submix)
      else Aim(0.0, Inputs, aim.submix)
    else Aim(0.0, RowFor(t.row), if t.kind.Level? then Some(Channel(t, a).value.n as real) else aim.submix)
  }

  lemma DetailAimAims(row: Row, offset: int, reply: Reply, aim: Aim)
    ensures AimAfter(aim, DetailAim(row, offset, reply)) == Aim(offset as real, row, aim.submix)
  {
    var first := [Msg(SelectRow(1, row), 1.0), Msg(BankStart, offset as real)];
    AimAfterTwo(aim, first[0], first[1]);
    if reply.NoListener? {
      assert first + [] == first;
    } else {
      AimAfterBoth(aim, first, [Msg(SelectRow(2, row), 1.0)]);
      AimAfterOne(AimAfter(aim, first), Msg(SelectRow(2, row), 1.0));
    }
  }

  lemma PageAimAims(row: Row, submix: Option<Hw>, aim: Aim)
    ensures AimAfter(aim, PageAim(row, submix))
         == Aim(0.0, row, if submix.Some? then Some(submix.value.n as real) else aim.submix)
  {
    var first := [Msg(BankStart, 0.0), Msg(SelectRow(1, row), 1.0)];
    AimAfterTwo(aim, first[0], first[1]);
    if submix.Some? {
      var last := Msg(SetSubmix, submix.value.n as real);
      AimAfterBoth(aim, first, [last]);
      AimAfterOne(AimAfter(aim, first), last);
    } else {
      assert first + [] == first;
    }
  }

  /**
   On every outcome the device is left where the outcome says: aimed at the target's own channel, row and submix, back
   on bank 0 and the input row after a refused page-2 aim, or not touched at all.
  */
  lemma ResolutionAims(t: Target, a: Answers, aim: Aim)
    ensures AimAfter(aim, AimSends(t, a)) == AimFor(t, a, aim)
  {
    if Aimable(t, a) {
      var row := RowFor(t.row);
      if t.kind.Detail? {
        var first := DetailAim(row, Channel(t, a).value.n, a.page2);
        DetailAimAims(row, Channel(t, a).value.n, a.page2, aim);
        if a.raises || AimConfirmed(t, a) {
          assert first + [] == first;
        } else {
          AimAfterBoth(aim, first, RESTORE);
          AimAfterTwo(AimAfter(aim, first), RESTORE[0], RESTORE[1]);
        }
      } else {
        PageResolutionAims(t, a, aim);
      }
    }
  }

  lemma PageResolutionAims(t: Target, a: Answers, aim: Aim)
    requires Aimable(t, a) && (t.kind.Mute? || t.kind.Level?)
    ensures AimAfter(aim, AimSends(t, a)) == AimFor(t, a, aim)
  {
    var row := RowFor(t.row);
    var submix := if t.kind.Mute? then None else Channel(t, a);
    var first := PageAim(row, submix);
    PageAimAims(row, submix, aim);
    if Searches(t, a) && !a.matchVisible {
      AimAfterBoth(aim, first, Provocation(row));
      AimAfterTwo(AimAfter(aim, first), Provocation(row)[0], Provocation(row)[1]);
    } else {
      assert first + [] == first;
    }
  }

  /**
   Confirm, then act: a channel-detail address is handed out only when page 2, scrolled to the start measured for the
   wanted name, shows that name, its pair or half, or an alias of that start; a level address only when the submix label
   vouches for the submix in the same way.
  */
  lemma ResolvedMeansConfirmed(t: Target, a: Answers, aim: Aim)
    requires Outcome(t, a).Resolved?
    ensures t.kind.Detail? ==>
      && Channel(t, a).Some? && AimConfirmed(t, a)
      && AimAfter(aim, AimSends(t, a)) == Aim(Channel(t, a).value.n as real, RowFor(t.row), aim.submix)
    ensures t.kind.Level? ==>
      && Channel(t, a).Some? && LabelConfirmed(t, a)
      && AimAfter(aim, AimSends(t, a)) == Aim(0.0, RowFor(t.row), Some(Channel(t, a).value.n as real))
    ensures t.kind.Mute? ==> AimAfter(aim, AimSends(t, a)) == Aim(0.0, RowFor(t.row), aim.submix)
    ensures t.kind.Fx? ==> AimSends(t, a) == []
  {
    ResolutionAims(t, a, aim);
  }

  /** Two names for what may be one channel: the same but for case and space, or a stereo pair and one of its halves. */
  ghost predicate Akin(x: string, y: string) {
    Fold(x) == Fold(y) || IsHalf(Fold(x), Fold(y)) || IsHalf(Fold(y), Fold(x))
  }

  /** The list holds both names, but for case and space. */
  predicate ListsBoth(names: seq<string>, x: string, y: string) {
    && (exists i :: 0 <= i < |names| && Fold(names[i]) == Fold(x))
    && (exists i :: 0 <= i < |names| && Fold(names[i]) == Fold(y))
  }

  lemma VouchesExactly(row: RowMap, k: Hw, wanted: string, shown: string, aliases: bool)
    requires k in row
    ensures Vouches(row, k, Strip(wanted), Strip(shown), aliases)
       <==> Akin(shown, wanted) || (aliases && ListsBoth(row[k], wanted, shown))
  {
    StripTwice(wanted);
    StripTwice(shown);
    CoversExactly(Strip(shown), Strip(wanted));
  }

  /** A known start lists its name, and no lower one spells it the same way. */
  lemma StartIsListed(row: RowMap, name: string, k: Hw)
    requires IsStart(row, name, Some(k))
    ensures Start(row, name) == Some(k) && k in row
  {
    StartIsUnique(row, name, Start(row, name), Some(k));
  }

  /**
   What a page-2 aim at the wanted channel's start answers to every name shown: the address, with the device left
   aimed, when the name shown is akin to the wanted one or (on a row that keeps aliases) listed with it at that start; a
   refusal with bank and row restored on every other name, and on none.
  */
  lemma {:induction false} DetailResolvesExactly(t: Target, a: Answers, tables: Tables, k: Hw, aim: Aim)
    requires t.kind.Detail? && t.row != PlaybackRow && a.table == Some(tables) && a.listening && !a.raises
    requires IsStart(if t.row == OutputRow then tables.outputs else tables.inputs, Strip(t.channel), Some(k))
    ensures k in (if t.row == OutputRow then tables.outputs else tables.inputs)
    ensures var names := (if t.row == OutputRow then tables.outputs else tables.inputs)[k];
      if a.page2.Shows? && (Akin(a.page2.name, t.channel)
                            || (t.row != OtherRow && ListsBoth(names, t.channel, a.page2.name)))
      then Outcome(t, a) == Resolved(Param(t.kind.path))
           && AimAfter(aim, AimSends(t, a)) == Aim(k.n as real, RowFor(t.row), aim.submix)
      else Outcome(t, a) == NotInBank && AimAfter(aim, AimSends(t, a)) == Aim(0.0, Inputs, aim.submix)
  {
    var row := if t.row == OutputRow then tables.outputs else tables.inputs;
    StartIsListed(row, Strip(t.channel), k);
    if a.page2.Shows? { VouchesExactly(row, k, t.channel, a.page2.name, t.row != OtherRow); }
    ResolutionAims(t, a, aim);
  }

  /**
   The same of a level: its strip's address, under the prefix of its kind, when the submix label shown is akin to the
   wanted submix or listed with it at that output, and never on another label.
  */
  lemma {:induction false} LevelResolvesExactly(t: Target, a: Answers, tables: Tables, k: Hw)
    requires t.kind.Level? && a.table == Some(tables) && a.listening && !a.raises
    requires IsStart(tables.outputs, Strip(t.submix), Some(k))
    ensures k in tables.outputs
    ensures Outcome(t, a) ==
      if a.submixLabel.None? then NoFeedback
      else if Strip(a.submixLabel.value) != "" && a.strip.Some?
              && (Akin(a.submixLabel.value, t.submix) || ListsBoth(tables.outputs[k], t.submix, a.submixLabel.value))
      then Resolved(Param(t.kind.prefix + a.strip.value))
      else NotInBank
  {
    StartIsListed(tables.outputs, Strip(t.submix), k);
    if a.submixLabel.Some? { VouchesExactly(tables.outputs, k, t.submix, a.submixLabel.value, true); }
  }

  /** A mute resolves to the mute of the strip found, without any submix. */
  lemma MuteResolvesExactly(t: Target, a: Answers)
    requires t.kind.Mute?
    ensures Outcome(t, a) ==
      if !a.listening then NoFeedback else if a.raises then Raised
      else if a.strip.None? then NotInBank else Resolved(Param("/1/mute/1/" + a.strip.value))
    ensures NoSubmix(AimSends(t, a))
  {}

  /** The resolver waits on a listener, and so can raise, once it has a start to aim at; a mute needs none. */
  lemma RaisesExactlyInAWait(t: Target, a: Answers)
    ensures Outcome(t, a) == Raised <==>
      a.raises && a.listening && match t.kind
        case Fx(_, _) => false
        case Mute => true
        case Detail(_, _) =>
          && t.row != PlaybackRow && a.table.Some?
          && Start(if t.row == OutputRow then a.table.value.outputs else a.table.value.inputs, Strip(t.channel)).Some?
        case Level(_) => a.table.Some? && Start(a.table.value.outputs, Strip(t.submix)).Some?
  {}

  /** Channel detail is refused without anything sent on the playback row, or when nobody listens. */
  lemma UnheardDetailIsRefused(t: Target, a: Answers)
    requires t.kind.Detail? && (t.row == PlaybackRow || !a.listening)
    ensures Outcome(t, a) == NotInBank && AimSends(t, a) == []
  {}

  /** An effect resolves at once, and nothing is aimed. */
  lemma EffectsResolveAtOnce(t: Target, a: Answers)
    requires t.kind.Fx?
    ensures Outcome(t, a) == Resolved(Param(t.kind.path)) && AimSends(t, a) == []
  {}

  /** A dump is provoked, by a step to another row and back, exactly when no matching strip was visible. */
  lemma ProvokedExactlyWhenUnseen(t: Target, a: Answers, aim: Aim)
    requires (t.kind.Mute? || t.kind.Level?) && Outcome(t, a).Resolved?
    ensures (exists i :: 0 <= i < |AimSends(t, a)| && LeavesRow(AimSends(t, a)[i], RowFor(t.row))) <==> !a.matchVisible
    ensures AimAfter(aim, AimSends(t, a)).row == RowFor(t.row)
  {
    ResolutionAims(t, a, aim);
    var submix := if t.kind.Mute? then None else Channel(t, a);
    var first := PageAim(RowFor(t.row), submix);
    if !a.matchVisible {
      assert AimSends(t, a)[|first|] == Provocation(RowFor(t.row))[0];
      assert LeavesRow(AimSends(t, a)[|first|], RowFor(t.row));
    } else {
      assert AimSends(t, a) == first;
    }
  }

  predicate LeavesRow(m: Msg, row: Row) { m.addr.SelectRow? && m.addr.page == 1 && m.addr.row != row && m.value == 1.0 }

  /** A name the table does not know is refused before anything is sent. */
  lemma UnknownNamesAreRefused(t: Target, a: Answers)
    requires t.kind.Detail? || t.kind.Level?
    requires a.table.Some? ==>
      if t.kind.Level? then IsStart(a.table.value.outputs, Strip(t.submix), None)
      else IsStart(if t.row == OutputRow then a.table.value.outputs else a.table.value.inputs, Strip(t.channel), None)
    ensures Outcome(t, a) == NotInBank && AimSends(t, a) == []
  {
    if a.table.Some? {
      if t.kind.Level? {
        StartIsUnique(a.table.value.outputs, Strip(t.submix), Start(a.table.value.outputs, Strip(t.submix)), None);
      } else {
        var row := if t.row == OutputRow then a.table.value.outputs else a.table.value.inputs;
        StartIsUnique(row, Strip(t.channel), Start(row, Strip(t.channel)), None);
      }
    }
  }

  /** A submix selection carries the number of a measured output. */
  predicate Measured(m: Msg, table: Option<Tables>) {
    table.Some? && m.value == m.value.Floor as real && Hw(m.value.Floor) in table.value.outputs
  }

  ghost predicate SubmixesMeasured(ms: seq<Msg>, table: Option<Tables>) {
    forall i :: 0 <= i < |ms| && ms[i].addr == SetSubmix ==> Measured(ms[i], table)
  }

  /** The resolver never selects a submix but the start of a measured output. */
  lemma ResolverSubmixesAreMeasured(t: Target, a: Answers)
    ensures SubmixesMeasured(AimSends(t, a), a.table)
  {
    if Aimable(t, a) && t.kind.Level? {
      var k := Channel(t, a).value;
      assert k in a.table.value.outputs && Hw(k.n) == k;
      assert (k.n as real).Floor == k.n;
    }
  }

  // ---------------------------------------------------------------------
  // Buttons
  // ---------------------------------------------------------------------

  /** The refresh a button read sends: the matching row mirror on page 2, a no-op fader group on page 3. */
  function Refresh(t: Target): Msg {
    if t.kind.Detail? then Msg(SelectRow(2, RowFor(t.row)), 1.0) else Msg(Param("/3/faderGroups/1/1"), 0.0)
  }

  function ReadSends(t: Target, a: Answers): seq<Msg> { if a.button.Unheard? then [] else [Refresh(t)] }

  function ButtonSeen(a: Answers): Option<bool> { if a.button.Stands? then Some(a.button.on) else None }

  /** `_read_button_state`; when the wait raises there is no state either, and the caller has the exception. */
  method ReadButton(device: Device, t: Target, a: Answers) returns (state: Option<bool>)
    requires device.Valid()
    modifies device
    ensures device.Valid() && device.start == old(device.start)
    ensures device.sent == old(device.sent) + ReadSends(t, a) && state == ButtonSeen(a)
  {
    if a.button.Unheard? { return None; }
    device.Send(Refresh(t).addr, Refresh(t).value);
    state := if a.button.Stands? then Some(a.button.on) else None;
  }

  /** What sets a button: a press exactly when its known state differs. */
  function PressSends(addr: Addr, seen: Option<bool>, desired: bool): seq<Msg> {
    if seen.Some? && seen.value != desired then [Msg(addr, 1.0)] else []
  }

  /** `_set_button_state`; an exception in the read leaves the button alone like a state that is not known. */
  method SetButton(device: Device, addr: Addr, t: Target, desired: bool, a: Answers) returns (ok: bool)
    requires device.Valid()
    modifies device
    ensures device.Valid() && device.start == old(device.start)
    ensures device.sent == old(device.sent) + (ReadSends(t, a) + PressSends(addr, ButtonSeen(a), desired))
    ensures ok <==> ButtonSeen(a).Some?
  {
    ghost var before := device.sent;
    var current := ReadButton(device, t, a);
    if current.None? {
      assert ReadSends(t, a) + [] == ReadSends(t, a);
      return false;
    }
    if current.value != desired {
      device.Send(addr, 1.0);
      assert device.sent == before + (ReadSends(t, a) + [Msg(addr, 1.0)]);
    } else {
      assert ReadSends(t, a) + [] == ReadSends(t, a);
    }
    ok := true;
  }

  /** The device's own button: it flips on 1.0 and ignores everything else. */
  function Toggled(on: bool, presses: seq<Msg>): bool
    decreases |presses|
  {
    if presses == [] then on
    else
      var before := Toggled(on, presses[..|presses| - 1]);
      if presses[|presses| - 1].value == 1.0 then !before else before
  }

  /** A read button ends as desired, whichever way it stood, and an unread one is left alone. */
  lemma SetButtonSets(addr: Addr, on: bool, desired: bool)
    ensures Toggled(on, PressSends(addr, Some(on), desired)) == desired
    ensures Toggled(on, PressSends(addr, None, desired)) == on
  {
    assert [Msg(addr, 1.0)][..0] == [];
  }

  function Wants(v: real): bool { v >= 0.5 }

  /** The presses an absolute stream turns into. */
  function EdgePresses(addr: Addr, on: bool, values: seq<real>): seq<Msg>
    decreases |values|
  {
    if values == [] then []
    else
      var init := values[..|values| - 1];
      EdgePresses(addr, on, init)
      + (if Wants(values[|values| - 1]) != LastWanted(on, init) then [Msg(addr, 1.0)] else [])
  }

  function LastWanted(on: bool, values: seq<real>): bool {
    if values == [] then on else Wants(values[|values| - 1])
  }

  /** `_EdgeToggleClient` */
  class EdgeToggle {
    const device: Device
    const addr: Addr
    var on: bool

    constructor (device: Device, addr: Addr, initial: bool)
      ensures this.device == device && this.addr == addr && on == initial
    {
      this.device, this.addr, on := device, addr, initial;
    }

    method Send(a: Addr, value: real)
      requires device.Valid()
      modifies device, `on
      ensures device.Valid() && device.start == old(device.start)
      ensures on == if a == addr then Wants(value) else old(on)
      ensures device.sent == old(device.sent)
        + (if a != addr then [Msg(a, value)] else if Wants(value) != old(on) then [Msg(addr, 1.0)] else [])
    {
      if a != addr {
        device.Send(a, value);
        return;
      }
      var want := Wants(value);
      if want != on {
        device.Send(addr, 1.0);
        on := want;
      }
    }
  }

  lemma {:induction false} TogglesJoin(on: bool, a: seq<Msg>, b: seq<Msg>)
    ensures Toggled(on, a + b) == Toggled(Toggled(on, a), b)
    decreases |b|
  {
    if b == [] {
      assert a + b == a;
    } else {
      assert (a + b)[..|a + b| - 1] == a + b[..|b| - 1];
      TogglesJoin(on, a, b[..|b| - 1]);
    }
  }

  /** A button under modulation stands, after every value of the stream, as that value says. */
  lemma {:induction false} ButtonFollowsTheStream(addr: Addr, on: bool, values: seq<real>)
    ensures Toggled(on, EdgePresses(addr, on, values)) == LastWanted(on, values)
    decreases |values|
  {
    if values != [] {
      var init := values[..|values| - 1];
      ButtonFollowsTheStream(addr, on, init);
      var presses := EdgePresses(addr, on, init);
      if Wants(values[|values| - 1]) != LastWanted(on, init) {
        TogglesJoin(on, presses, [Msg(addr, 1.0)]);
        assert [Msg(addr, 1.0)][..0] == [];
      } else {
        assert presses + [] == presses;
      }
    }
  }

  /** How often the stream changes sides, counted from the initial state. */
  function Edges(on: bool, values: seq<real>): nat
    decreases |values|
  {
    if values == [] then 0
    else Edges(Wants(values[0]), values[1..]) + (if Wants(values[0]) != on then 1 else 0)
  }

  lemma {:induction false} EdgesSnoc(on: bool, values: seq<real>, v: real)
    ensures Edges(on, values + [v]) == Edges(on, values) + (if Wants(v) != LastWanted(on, values) then 1 else 0)
    decreases |values|
  {
    if values == [] {
      assert ([v])[1..] == [];
      assert values + [v] == [v];
    } else {
      assert (values + [v])[1..] == values[1..] + [v];
      EdgesSnoc(Wants(values[0]), values[1..], v);
    }
  }

  /** And it is pressed once for each change of side, no more. */
  lemma {:induction false} PressesAreEdges(addr: Addr, on: bool, values: seq<real>)
    ensures |EdgePresses(addr, on, values)| == Edges(on, values)
    decreases |values|
  {
    if values != [] {
      var init := values[..|values| - 1];
      PressesAreEdges(addr, on, init);
      EdgesSnoc(on, init, values[|values| - 1]);
      assert values == init + [values[|values| - 1]];
    }
  }
}
