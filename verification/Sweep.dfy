/**
 The sweep that measures the physical table from the device's own mouth: for each offset, scroll the bank there, nudge
 the row's page-2 mirror and read the name shown.
*/
module Sweep {
  import opened ClassicDevice
  import opened PhysicalTable
  import opened Wrappers

  const EXTRA := 4

  /** What page 2 replies with a row selected and the bank at an offset. */
  type Display = (Row, real) -> Reply

  predicate Answers(d: Display, row: Row, k: nat) { d(row, k as real).Shows? }

  function Shown(d: Display, row: Row, k: nat): string {
    if d(row, k as real).Shows? then Strip(d(row, k as real).name) else ""
  }

  predicate Responsive(d: Display, row: Row, n: nat) {
    forall k: nat :: k < n + EXTRA ==> Answers(d, row, k)
  }

  /** Past the assumed end the device shows the last channel or nothing. */
  predicate Saturates(d: Display, row: Row, n: nat) {
    forall b: nat :: n <= b < n + EXTRA ==>
      Shown(d, row, b) == "" || (n > 0 && Shown(d, row, b) == Shown(d, row, n - 1))
  }

  predicate Measurable(d: Display, row: Row, n: nat) { Responsive(d, row, n) && Saturates(d, row, n) }

  function Observed(d: Display, row: Row, count: nat): seq<string> { seq(count, k requires 0 <= k => Shown(d, row, k)) }

  // ---------------------------------------------------------------------
  // What is sent
  // ---------------------------------------------------------------------

  /** The nudge of the row's mirror; a listener that has stopped meanwhile leaves it out. */
  function Nudge(reply: Reply, row: Row): seq<Msg> {
    if reply.NoListener? then [] else [Msg(SelectRow(2, row), 1.0)]
  }

  function Probe(d: Display, row: Row, k: nat): seq<Msg> {
    [Msg(BankStart, k as real)] + Nudge(d(row, k as real), row)
  }

  /** The probes of a row from offset `k` on, up to the first the device does not answer. */
  function ProbeSends(d: Display, row: Row, k: nat, end: nat): seq<Msg>
    requires k <= end
    decreases end - k
  {
    if k == end then []
    else Probe(d, row, k) + (if Answers(d, row, k) then ProbeSends(d, row, k + 1, end) else [])
  }

  function RowSends(d: Display, row: Row, n: nat): seq<Msg> {
    [Msg(SelectRow(1, row), 1.0)] + ProbeSends(d, row, 0, n + EXTRA)
  }

  /** The rows in turn, up to the first that cannot be measured. */
  function RowsSends(d: Display, rows: seq<Row>, n: nat): seq<Msg> {
    if rows == [] then []
    else RowSends(d, rows[0], n) + (if Measurable(d, rows[0], n) then RowsSends(d, rows[1..], n) else [])
  }

  // ---------------------------------------------------------------------
  // What is stored
  // ---------------------------------------------------------------------

  function MergedAll(row: RowMap, channels: int, names: seq<string>): RowMap
    decreases |names|
  {
    if names == [] then row
    else Merged(MergedAll(row, channels, names[..|names| - 1]), channels, Hw(|names| - 1), names[|names| - 1])
  }

  /** A row of the table after a sweep that merged its measurement. */
  function Swept(before: RowMap, channels: int, reset: bool, names: seq<string>): RowMap {
    MergedAll(if reset then map[] else before, channels, names)
  }

  function RowAfter(d: Display, merged: seq<Row>, n: nat, reset: bool, channels: int, row: Row, before: RowMap): RowMap
  {
    if row in merged then Swept(before, channels, reset, Observed(d, row, n)) else before
  }

  datatype Status = Done | Failed

  // ---------------------------------------------------------------------
  // The sweep
  // ---------------------------------------------------------------------

  /** `_read_page2_trackname`, with the row just commanded */
  method ReadTrackname(device: Device, d: Display, row: Row) returns (name: Option<string>)
    requires device.Valid() && device.aim.row == row
    modifies device
    ensures device.Valid() && device.start == old(device.start) && device.aim == old(device.aim)
    ensures var reply := d(row, old(device.aim.bank));
      && device.sent == old(device.sent) + Nudge(reply, row)
      && name == if reply.Shows? then Some(Strip(reply.name)) else None
  {
    var reply := d(device.aim.row, device.aim.bank);
    if reply.NoListener? { return None; }
    device.Send(SelectRow(2, row), 1.0);
    name := if reply.Shows? then Some(Strip(reply.name)) else None;
  }

  method ProbeOne(device: Device, d: Display, row: Row, k: nat) returns (name: Option<string>)
    requires device.Valid() && device.aim.row == row
    modifies device
    ensures device.Valid() && device.start == old(device.start) && device.aim.row == row
    ensures device.sent == old(device.sent) + Probe(d, row, k)
    ensures if Answers(d, row, k) then name == Some(Shown(d, row, k)) else name == None
  {
    device.Send(BankStart, k as real);
    name := ReadTrackname(device, d, row);
  }

  /** With offset `k` next, what is sent and what is left to send make up the row's probes behind `before`. */
  ghost predicate OnCourse(d: Display, row: Row, end: nat, before: seq<Msg>, sent: seq<Msg>, k: nat)
    requires k <= end
  {
    sent + ProbeSends(d, row, k, end) == before + ProbeSends(d, row, 0, end)
  }

  lemma StaysOnCourse(d: Display, row: Row, end: nat, before: seq<Msg>, sent: seq<Msg>, k: nat)
    requires k < end && OnCourse(d, row, end, before, sent, k)
    ensures if Answers(d, row, k) then OnCourse(d, row, end, before, sent + Probe(d, row, k), k + 1)
            else sent + Probe(d, row, k) == before + ProbeSends(d, row, 0, end)
  {
    Regroup(sent, Probe(d, row, k), if Answers(d, row, k) then ProbeSends(d, row, k + 1, end) else []);
  }

  lemma CourseDone(d: Display, row: Row, end: nat, before: seq<Msg>, sent: seq<Msg>)
    requires OnCourse(d, row, end, before, sent, end)
    ensures sent == before + ProbeSends(d, row, 0, end)
  {
    assert sent + [] == sent;
  }

  method ProbeRow(device: Device, d: Display, row: Row, end: nat) returns (silent: bool, observed: seq<string>)
    requires device.Valid() && device.aim.row == row
    modifies device
    ensures device.Valid() && device.start == old(device.start)
    ensures device.sent == old(device.sent) + ProbeSends(d, row, 0, end)
    ensures silent <==> exists k: nat :: k < end && !Answers(d, row, k)
    ensures !silent ==> observed == Observed(d, row, end)
  {
    silent, observed := false, [];
    ghost var before := device.sent;
    var k := 0;
    while k < end
      invariant k <= end && device.Valid() && device.start == old(device.start) && device.aim.row == row
      invariant OnCourse(d, row, end, before, device.sent, k)
      invariant forall j: nat :: j < k ==> Answers(d, row, j)
      invariant observed == Observed(d, row, k)
    {
      StaysOnCourse(d, row, end, before, device.sent, k);
      var name := ProbeOne(device, d, row, k);
      if name.None? {
        silent := true;
        return;
      }
      ObservedNext(d, row, k);
      observed := observed + [name.value];
      k := k + 1;
    }
    CourseDone(d, row, end, before, device.sent);
  }

  lemma ObservedNext(d: Display, row: Row, k: nat)
    ensures Observed(d, row, k + 1) == Observed(d, row, k) + [Shown(d, row, k)]
  {}

  /** The saturation check. */
  method CheckBoundary(d: Display, row: Row, n: nat, observed: seq<string>) returns (ok: bool)
    requires observed == Observed(d, row, n + EXTRA)
    ensures ok <==> Saturates(d, row, n)
  {
    var b := n;
    while b < n + EXTRA
      invariant n <= b <= n + EXTRA
      invariant forall j: nat :: n <= j < b ==>
        Shown(d, row, j) == "" || (n > 0 && Shown(d, row, j) == Shown(d, row, n - 1))
    {
      assert observed[b] == Shown(d, row, b) && (n > 0 ==> observed[n - 1] == Shown(d, row, n - 1));
      if observed[b] != "" && (n == 0 || observed[b] != observed[n - 1]) { return false; }
      b := b + 1;
    }
    ok := true;
  }

  lemma RowSendsJoin(before: seq<Msg>, d: Display, row: Row, n: nat)
    ensures before + [Msg(SelectRow(1, row), 1.0)] + ProbeSends(d, row, 0, n + EXTRA) == before + RowSends(d, row, n)
  {
    Regroup(before, [Msg(SelectRow(1, row), 1.0)], ProbeSends(d, row, 0, n + EXTRA));
  }

  method SweepRow(device: Device, d: Display, row: Row, n: nat) returns (ok: bool, observed: seq<string>)
    requires device.Valid()
    modifies device
    ensures device.Valid() && device.start == old(device.start)
    ensures device.sent == old(device.sent) + RowSends(d, row, n)
    ensures ok <==> Measurable(d, row, n)
    ensures ok ==> observed == Observed(d, row, n + EXTRA)
  {
    ghost var before := device.sent;
    device.Send(SelectRow(1, row), 1.0);
    var silent;
    silent, observed := ProbeRow(device, d, row, n + EXTRA);
    RowSendsJoin(before, d, row, n);
    if silent { return false, observed; }
    ok := CheckBoundary(d, row, n, observed);
  }

  method Merge(table: Table, row: Row, reset: bool, observed: seq<string>, n: nat)
    requires n <= |observed|
    modifies table`rows
    ensures table.RowOf(row) == Swept(old(table.RowOf(row)), table.channels, reset, observed[..n])
    ensures forall other :: other != row ==> table.RowOf(other) == old(table.RowOf(other))
  {
    if reset { table.rows := table.rows[row := map[]]; }
    ghost var base := table.RowOf(row);
    var k := 0;
    while k < n
      invariant k <= n
      invariant table.RowOf(row) == MergedAll(base, table.channels, observed[..k])
      invariant forall other :: other != row ==> table.RowOf(other) == old(table.RowOf(other))
    {
      assert observed[..k + 1][..k] == observed[..k];
      if observed[k] != "" {
        var changed := table.MergeObservation(row, Hw(k), observed[k]);
      }
      k := k + 1;
    }
  }

  ghost predicate AllMeasurable(d: Display, rows: seq<Row>, n: nat) { forall r :: r in rows ==> Measurable(d, r, n) }

  lemma RowsStep(d: Display, rows: seq<Row>, i: nat, n: nat)
    requires i < |rows|
    ensures RowsSends(d, rows[i..], n)
         == RowSends(d, rows[i], n) + (if Measurable(d, rows[i], n) then RowsSends(d, rows[i + 1..], n) else [])
  {
    assert rows[i..][1..] == rows[i + 1..] && rows[i..][0] == rows[i];
  }

  /** Of each row measured, what it showed. */
  ghost predicate Holds(d: Display, rows: seq<Row>, n: nat, observed: map<Row, seq<string>>) {
    forall r :: (r in observed <==> r in rows) && (r in observed ==> observed[r] == Observed(d, r, n + EXTRA))
  }

  lemma HoldsStep(d: Display, rows: seq<Row>, i: nat, n: nat, observed: map<Row, seq<string>>)
    requires i < |rows| && Holds(d, rows[..i], n, observed) && AllMeasurable(d, rows[..i], n)
    requires Measurable(d, rows[i], n)
    ensures Holds(d, rows[..i + 1], n, observed[rows[i] := Observed(d, rows[i], n + EXTRA)])
    ensures AllMeasurable(d, rows[..i + 1], n)
  {
    assert rows[..i + 1] == rows[..i] + [rows[i]];
  }

  /** The part under the device lock, up to its `finally`. */
  method MeasureRows(device: Device, d: Display, rows: seq<Row>, n: nat)
    returns (ok: bool, observed: map<Row, seq<string>>)
    requires device.Valid()
    modifies device
    ensures device.Valid() && device.start == old(device.start)
    ensures device.sent == old(device.sent) + RowsSends(d, rows, n)
    ensures ok <==> AllMeasurable(d, rows, n)
    ensures ok ==> Holds(d, rows, n, observed)
  {
    ok, observed := true, map[];
    ghost var before, done := device.sent, [];
    var i := 0;
    while i < |rows|
      invariant i <= |rows| && device.Valid() && device.start == old(device.start)
      invariant device.sent == before + done && RowsSends(d, rows, n) == done + RowsSends(d, rows[i..], n)
      invariant AllMeasurable(d, rows[..i], n) && Holds(d, rows[..i], n, observed)
    {
      ghost var mine, more := RowSends(d, rows[i], n), RowsSends(d, rows[i + 1..], n);
      RowsStep(d, rows, i, n);
      Regroup(before, done, mine);
      var seen;
      ok, seen := SweepRow(device, d, rows[i], n);
      if !ok {
        assert rows[i] in rows;
        return;
      }
      HoldsStep(d, rows, i, n, observed);
      Regroup(done, mine, more);
      done := done + mine;
      observed := observed[rows[i] := seen];
      i := i + 1;
    }
    ok := true;
    assert rows[..i] == rows && rows[i..] == [];
  }

  /** `MeasureRows` with the restores its `finally` guarantees. */
  method MeasureAndRestore(device: Device, d: Display, rows: seq<Row>, n: nat)
    returns (ok: bool, observed: map<Row, seq<string>>)
    requires device.Valid()
    modifies device
    ensures device.Valid() && device.start == old(device.start)
    ensures device.sent == old(device.sent) + SweepSends(d, rows, n)
    ensures ok <==> AllMeasurable(d, rows, n)
    ensures ok ==> Holds(d, rows, n, observed)
  {
    ok, observed := MeasureRows(device, d, rows, n);
    device.Send(BankStart, 0.0);
    device.Send(SelectRow(1, Inputs), 1.0);
  }

  function SweepSends(d: Display, rows: seq<Row>, n: nat): seq<Msg> { RowsSends(d, rows, n) + RESTORE }

  /**
   `run_sweep`: `n` is the row length of the table at the start, `later` the table in place when the merge begins, which
   may be another one.
  */
  method RunSweep(device: Device, listening: bool, d: Display, rows: seq<Row>, n: nat, later: Table, reset: bool,
                  persistFails: bool)
    returns (status: Status)
    requires device.Valid() && Playbacks !in rows
    modifies device, later`rows
    ensures device.Valid() && device.start == old(device.start)
    ensures device.sent == old(device.sent) + (if listening then SweepSends(d, rows, n) else [])
    ensures status.Done? <==> listening && !persistFails && AllMeasurable(d, rows, n)
    ensures var merged := if listening && AllMeasurable(d, rows, n) then rows else [];
      forall r :: later.RowOf(r) == RowAfter(d, merged, n, reset, later.channels, r, old(later.RowOf(r)))
  {
    if !listening { return Failed; }
    var ok, observed := MeasureAndRestore(device, d, rows, n);
    if !ok { return Failed; }
    MergeRows(later, d, rows, reset, observed, n);
    status := if persistFails then Failed else Done;
  }

  method MergeRows(table: Table, d: Display, rows: seq<Row>, reset: bool, observed: map<Row, seq<string>>, n: nat)
    requires Playbacks !in rows && Holds(d, rows, n, observed)
    modifies table`rows
    ensures forall r :: table.RowOf(r) == RowAfter(d, rows, n, reset, table.channels, r, old(table.RowOf(r)))
  {
    if Inputs in observed { MergeObserved(table, d, Inputs, reset, observed[Inputs], n); }
    if Outputs in observed { MergeObserved(table, d, Outputs, reset, observed[Outputs], n); }
    forall r ensures table.RowOf(r) == RowAfter(d, rows, n, reset, table.channels, r, old(table.RowOf(r))) {
      match r
      case Inputs =>
      case Playbacks =>
      case Outputs =>
    }
  }

  method MergeObserved(table: Table, d: Display, row: Row, reset: bool, observed: seq<string>, n: nat)
    requires observed == Observed(d, row, n + EXTRA)
    modifies table`rows
    ensures table.RowOf(row) == Swept(old(table.RowOf(row)), table.channels, reset, Observed(d, row, n))
    ensures forall other :: other != row ==> table.RowOf(other) == old(table.RowOf(other))
  {
    assert observed[..n] == Observed(d, row, n);
    Merge(table, row, reset, observed, n);
  }

  // ---------------------------------------------------------------------
  // What a sweep does to the device
  // ---------------------------------------------------------------------

  lemma {:induction false} ProbesKeepSubmix(d: Display, row: Row, k: nat, end: nat)
    requires k <= end
    ensures NoSubmix(ProbeSends(d, row, k, end))
    decreases end - k
  {
    if k < end { ProbesKeepSubmix(d, row, k + 1, end); }
  }

  lemma {:induction false} RowsKeepSubmix(d: Display, rows: seq<Row>, n: nat)
    ensures NoSubmix(RowsSends(d, rows, n))
  {
    if rows != [] {
      ProbesKeepSubmix(d, rows[0], 0, n + EXTRA);
      RowsKeepSubmix(d, rows[1..], n);
    }
  }

  lemma {:induction false} SubmixUntouched(aim: Aim, ms: seq<Msg>)
    requires NoSubmix(ms)
    ensures AimAfter(aim, ms).submix == aim.submix
    decreases |ms|
  {
    if ms != [] { SubmixUntouched(aim, ms[..|ms| - 1]); }
  }

  /**
   Whatever the device shows and wherever the sweep gives up, it never sends a submix selection, and it leaves the
   device on bank 0 and the input row with the submix it found.
  */
  lemma SweepLeavesTheDeviceHome(d: Display, rows: seq<Row>, n: nat, aim: Aim)
    ensures NoSubmix(SweepSends(d, rows, n))
    ensures AimAfter(aim, SweepSends(d, rows, n)) == Aim(0.0, Inputs, aim.submix)
  {
    RowsKeepSubmix(d, rows, n);
    SubmixUntouched(aim, RowsSends(d, rows, n));
    AimAfterBoth(aim, RowsSends(d, rows, n), RESTORE);
    AimAfterTwo(AimAfter(aim, RowsSends(d, rows, n)), RESTORE[0], RESTORE[1]);
  }

  // ---------------------------------------------------------------------
  // What a sweep measures
  // ---------------------------------------------------------------------

  function ReplyAt(d: Display, row: Row, k: nat): Reply { d(row, k as real) }

  /** The display answers from offset 0 to the fourth past the end, and past the end shows blanks or the last name. */
  predicate EndsAt(d: Display, row: Row, n: nat) {
    && (forall k: nat :: k < n + 4 ==> ReplyAt(d, row, k).Shows?)
    && forall b: nat :: n <= b < n + 4 ==>
         var past := Strip(ReplyAt(d, row, b).name);
         past == "" || (n > 0 && past == Strip(ReplyAt(d, row, n - 1).name))
  }

  lemma {:induction false} MeasuredRow(d: Display, row: Row, n: nat)
    ensures Measurable(d, row, n) <==> EndsAt(d, row, n)
  {
    assert forall k: nat :: Answers(d, row, k) <==> ReplyAt(d, row, k).Shows?;
    assert forall k: nat :: ReplyAt(d, row, k).Shows? ==> Shown(d, row, k) == Strip(ReplyAt(d, row, k).name);
  }

  /** The measurement stands, and is merged, exactly when every row asked for ends where the table says it does. */
  lemma {:induction false} MeasuredExactly(d: Display, rows: seq<Row>, n: nat)
    ensures AllMeasurable(d, rows, n) <==> forall row :: row in rows ==> EndsAt(d, row, n)
  {
    forall row ensures Measurable(d, row, n) <==> EndsAt(d, row, n) { MeasuredRow(d, row, n); }
  }

  lemma SortedOne(name: string)
    ensures Sorted([name]) == [name]
  {
    assert [name][..0] == [];
  }

  predicate Stored(channels: int, names: seq<string>, k: Hw) {
    0 <= k.n < channels && k.n < |names| && PhysicalTable.Real(names[k.n])
  }

  /** A swept row holds one name at each offset that showed a real one, and nothing else. */
  lemma {:induction false} SweptFresh(channels: int, names: seq<string>, k: Hw)
    ensures var row := MergedAll(map[], channels, names);
      if Stored(channels, names, k) then k in row && row[k] == [Strip(names[k.n])] else k !in row
    decreases |names|
  {
    if names != [] {
      var init, last := names[..|names| - 1], Hw(|names| - 1);
      SweptFresh(channels, init, k);
      SweptFresh(channels, init, last);
      SortedOne(Strip(names[|names| - 1]));
      assert [] + [Strip(names[|names| - 1])] == [Strip(names[|names| - 1])];
    }
  }

  predicate ShowsExactly(channels: int, names: seq<string>, name: string, k: Hw) {
    Stored(channels, names, k) && Strip(names[k.n]) == name
  }

  predicate ShowsFolded(channels: int, names: seq<string>, name: string, k: Hw) {
    Stored(channels, names, k) && Fold(Strip(names[k.n])) == Fold(name)
  }

  lemma LookupsAgree(channels: int, names: seq<string>, name: string, k: Hw)
    ensures Exact(MergedAll(map[], channels, names), name, k) <==> ShowsExactly(channels, names, name, k)
    ensures Folded(MergedAll(map[], channels, names), name, k) <==> ShowsFolded(channels, names, name, k)
  {
    SweptFresh(channels, names, k);
    var row := MergedAll(map[], channels, names);
    if k in row { assert Fold(row[k][0]) == Fold(Strip(names[k.n])); }
  }

  /** The lowest offset that showed the name, in its own spelling if any did, else in any. */
  ghost predicate IsFirstShown(channels: int, names: seq<string>, name: string, start: Option<Hw>) {
    IsFirst(k => ShowsExactly(channels, names, name, k), k => ShowsFolded(channels, names, name, k), start)
  }

  /** After a reset sweep, looking a name up inverts the device: for every name, shown or not. */
  lemma SweepInvertsTheDevice(channels: int, names: seq<string>, before: RowMap, name: string, start: Option<Hw>)
    ensures IsStart(Swept(before, channels, true, names), name, start) <==> IsFirstShown(channels, names, name, start)
  {
    var row := Swept(before, channels, true, names);
    forall k
      ensures Exact(row, name, k) <==> ShowsExactly(channels, names, name, k)
      ensures Folded(row, name, k) <==> ShowsFolded(channels, names, name, k)
    {
      LookupsAgree(channels, names, name, k);
    }
    FirstsAgree(k => Exact(row, name, k), k => Folded(row, name, k),
                k => ShowsExactly(channels, names, name, k), k => ShowsFolded(channels, names, name, k), start);
  }

  /** The device displayed the name at offset `k`, within the stored row. */
  predicate Displays(d: Display, row: Row, n: nat, channels: int, name: string, k: Hw) {
    0 <= k.n < n && k.n < channels && PhysicalTable.Real(Shown(d, row, k.n)) && Shown(d, row, k.n) == name
  }

  predicate DisplaysFolded(d: Display, row: Row, n: nat, channels: int, name: string, k: Hw) {
    0 <= k.n < n && k.n < channels && PhysicalTable.Real(Shown(d, row, k.n)) && Fold(Shown(d, row, k.n)) == Fold(name)
  }

  ghost predicate IsFirstDisplayed(d: Display, row: Row, n: nat, channels: int, name: string, start: Option<Hw>) {
    IsFirst(k => Displays(d, row, n, channels, name, k), k => DisplaysFolded(d, row, n, channels, name, k), start)
  }

  lemma ShownIsStripped(d: Display, row: Row, k: nat)
    ensures Strip(Shown(d, row, k)) == Shown(d, row, k)
  {
    if Answers(d, row, k) { StripTwice(d(row, k as real).name); }
  }

  lemma DisplayedIsShown(d: Display, row: Row, n: nat, channels: int, name: string, k: Hw)
    ensures Displays(d, row, n, channels, name, k) <==> ShowsExactly(channels, Observed(d, row, n), name, k)
    ensures DisplaysFolded(d, row, n, channels, name, k) <==> ShowsFolded(channels, Observed(d, row, n), name, k)
  {
    if 0 <= k.n < n {
      ShownIsStripped(d, row, k.n);
      assert Observed(d, row, n)[k.n] == Shown(d, row, k.n);
    }
  }

  /**
   From device to lookup: in the row a finished reset sweep leaves behind (`RowAfter`, as `RunSweep` states it) a name
   starts at the lowest offset at which the device displayed it, and nowhere if it was not displayed.
  */
  lemma LookupInvertsTheDisplay(d: Display, rows: seq<Row>, n: nat, channels: int, row: Row, before: RowMap,
                                name: string, start: Option<Hw>)
    requires row in rows
    ensures IsStart(RowAfter(d, rows, n, true, channels, row, before), name, start)
       <==> IsFirstDisplayed(d, row, n, channels, name, start)
  {
    var names := Observed(d, row, n);
    SweepInvertsTheDevice(channels, names, before, name, start);
    forall k
      ensures Displays(d, row, n, channels, name, k) <==> ShowsExactly(channels, names, name, k)
      ensures DisplaysFolded(d, row, n, channels, name, k) <==> ShowsFolded(channels, names, name, k)
    {
      DisplayedIsShown(d, row, n, channels, name, k);
    }
    FirstsAgree(k => Displays(d, row, n, channels, name, k), k => DisplaysFolded(d, row, n, channels, name, k),
                k => ShowsExactly(channels, names, name, k), k => ShowsFolded(channels, names, name, k), start);
  }

  /** Without a reset, nothing learned before is lost. */
  lemma {:induction false} SweepKeepsAliases(before: RowMap, channels: int, names: seq<string>, k: Hw, alias: string)
    requires alias in AliasesAt(before, k)
    ensures alias in AliasesAt(Swept(before, channels, false, names), k)
    decreases |names|
  {
    if names != [] {
      var init := names[..|names| - 1];
      SweepKeepsAliases(before, channels, init, k, alias);
      MergeAccumulates(MergedAll(before, channels, init), channels, Hw(|names| - 1), names[|names| - 1], k, alias);
    }
  }
}
