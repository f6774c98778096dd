/**
 The measured table of hardware channels: for every row and offset the names ever shown there.  A name's channel is the
 lowest offset that lists it.
*/
module PhysicalTable {
  import opened Wrappers

  /** A hardware offset; the stored table keys its rows by these, written as strings. */
  datatype Hw = Hw(n: int)

  datatype Row = Inputs | Playbacks | Outputs

  type RowMap = map<Hw, seq<string>>

  // ---------------------------------------------------------------------
  // Names
  // ---------------------------------------------------------------------

  predicate Space(c: char) { c == ' ' || '\t' <= c <= '\r' }

  function StripLeft(s: string): string
    decreases |s|
  {
    if s != "" && Space(s[0]) then StripLeft(s[1..]) else s
  }

  function StripRight(s: string): string
    decreases |s|
  {
    if s != "" && Space(s[|s| - 1]) then StripRight(s[..|s| - 1]) else s
  }

  function Strip(s: string): string { StripRight(StripLeft(s)) }

  function LowerChar(c: char): char {
    if 'A' <= c <= 'Z' then (c as int + 32) as char else c
  }

  function Lower(s: string): string { seq(|s|, i requires 0 <= i < |s| => LowerChar(s[i])) }

  /** What two names are compared by when case and surrounding space do not count. */
  function Fold(s: string): string { Lower(Strip(s)) }

  predicate Real(name: string) { Strip(name) != "" && Lower(Strip(name)) != "n.a." }

  // ---------------------------------------------------------------------
  // Alias lists
  // ---------------------------------------------------------------------

  /** `_alias_has` */
  predicate AliasHas(aliases: seq<string>, name: string) {
    exists i :: 0 <= i < |aliases| && Fold(aliases[i]) == Fold(name)
  }

  /** Strings in the order of their characters. */
  predicate Leq(a: string, b: string)
    decreases |a|
  {
    a == "" || (b != "" && (a[0] < b[0] || (a[0] == b[0] && Leq(a[1..], b[1..]))))
  }

  predicate InOrder(s: seq<string>) { forall i, j :: 0 <= i < j < |s| ==> Leq(s[i], s[j]) }

  lemma {:induction false} LeqTotal(a: string, b: string)
    ensures Leq(a, b) || Leq(b, a)
    decreases |a|
  {
    if a != "" && b != "" && a[0] == b[0] { LeqTotal(a[1..], b[1..]); }
  }

  lemma {:induction false} LeqTransitive(a: string, b: string, c: string)
    requires Leq(a, b) && Leq(b, c)
    ensures Leq(a, c)
    decreases |a|
  {
    if a != "" && a[0] == b[0] == c[0] { LeqTransitive(a[1..], b[1..], c[1..]); }
  }

  /** The list sorted: insertion, one element at a time. */
  function Sorted(s: seq<string>): seq<string>
    decreases |s|
  {
    if s == [] then [] else Inserted(Sorted(s[..|s| - 1]), s[|s| - 1])
  }

  function Inserted(s: seq<string>, x: string): seq<string>
    decreases |s|
  {
    if s == [] || Leq(s[|s| - 1], x) then s + [x] else Inserted(s[..|s| - 1], x) + [s[|s| - 1]]
  }

  lemma {:induction false} InsertedKeepsElements(s: seq<string>, x: string)
    ensures multiset(Inserted(s, x)) == multiset(s) + multiset{x}
    decreases |s|
  {
    if s != [] && !Leq(s[|s| - 1], x) {
      InsertedKeepsElements(s[..|s| - 1], x);
      assert s == s[..|s| - 1] + [s[|s| - 1]];
    }
  }

  lemma {:induction false} InsertedInOrder(s: seq<string>, x: string)
    requires InOrder(s)
    ensures InOrder(Inserted(s, x)) && |Inserted(s, x)| == |s| + 1
    ensures forall i :: 0 <= i <= |s| ==> Inserted(s, x)[i] == x || Inserted(s, x)[i] in s
    decreases |s|
  {
    if s == [] {
    } else if Leq(s[|s| - 1], x) {
      forall i | 0 <= i < |s| ensures Leq(s[i], x) {
        if i < |s| - 1 { LeqTransitive(s[i], s[|s| - 1], x); }
      }
    } else {
      LeqTotal(s[|s| - 1], x);
      InsertedInOrder(s[..|s| - 1], x);
    }
  }

  /** Sorting keeps every alias, with its multiplicity, and puts the list in order. */
  lemma {:induction false} SortedIsAPermutation(s: seq<string>)
    ensures multiset(Sorted(s)) == multiset(s) && InOrder(Sorted(s))
    decreases |s|
  {
    if s != [] {
      var init := s[..|s| - 1];
      SortedIsAPermutation(init);
      InsertedKeepsElements(Sorted(init), s[|s| - 1]);
      InsertedInOrder(Sorted(init), s[|s| - 1]);
      assert s == init + [s[|s| - 1]];
    }
  }

  lemma SortedHas(s: seq<string>, name: string)
    ensures name in Sorted(s) <==> name in s
    ensures AliasHas(Sorted(s), name) <==> AliasHas(s, name)
  {
    SortedIsAPermutation(s);
    forall x ensures x in Sorted(s) <==> x in s {
      assert x in multiset(Sorted(s)) <==> x in multiset(s);
    }
    if AliasHas(s, name) {
      var i :| 0 <= i < |s| && Fold(s[i]) == Fold(name);
      assert s[i] in Sorted(s);
    }
    if AliasHas(Sorted(s), name) {
      var i :| 0 <= i < |Sorted(s)| && Fold(Sorted(s)[i]) == Fold(name);
      assert Sorted(s)[i] in s;
    }
  }

  // ---------------------------------------------------------------------
  // Merging and looking up
  // ---------------------------------------------------------------------

  function AliasesAt(row: RowMap, k: Hw): seq<string> { if k in row then row[k] else [] }

  /** A row after one observation; offsets out of range and placeholder names leave it alone. */
  function Merged(row: RowMap, channels: int, k: Hw, name: string): RowMap {
    if !Real(name) || k.n < 0 || k.n >= channels || AliasHas(AliasesAt(row, k), Strip(name)) then row
    else row[k := Sorted(AliasesAt(row, k) + [Strip(name)])]
  }

  predicate Exact(row: RowMap, name: string, k: Hw) { k in row && name in row[k] }

  predicate Folded(row: RowMap, name: string, k: Hw) { k in row && AliasHas(row[k], name) }

  ghost predicate Least(p: Hw -> bool, k: Hw) { p(k) && forall j :: p(j) ==> k.n <= j.n }

  /** The lowest offset with the one property if any has it, else the lowest with the other, else none. */
  ghost predicate IsFirst(exact: Hw -> bool, folded: Hw -> bool, start: Option<Hw>) {
    if exists k :: exact(k) then start.Some? && Least(exact, start.value)
    else if exists k :: folded(k) then start.Some? && Least(folded, start.value)
    else start.None?
  }

  lemma FirstsAgree(exact: Hw -> bool, folded: Hw -> bool, exact': Hw -> bool, folded': Hw -> bool, start: Option<Hw>)
    requires forall k :: (exact(k) <==> exact'(k)) && (folded(k) <==> folded'(k))
    ensures IsFirst(exact, folded, start) <==> IsFirst(exact', folded', start)
  {}

  ghost predicate IsStart(row: RowMap, name: string, start: Option<Hw>) {
    IsFirst(k => Exact(row, name, k), k => Folded(row, name, k), start)
  }

  /** There is exactly one answer. */
  lemma StartIsUnique(row: RowMap, name: string, a: Option<Hw>, b: Option<Hw>)
    requires IsStart(row, name, a) && IsStart(row, name, b)
    ensures a == b
  {}

  lemma {:induction false} LeastExists(p: Hw -> bool, s: set<Hw>, k: Hw) returns (least: Hw)
    requires p(k) && forall j :: p(j) ==> j in s
    ensures Least(p, least)
    decreases |s|
  {
    if j :| p(j) && j.n < k.n {
      var below := set h | h in s && h.n < k.n;
      assert k in s && k !in below && below < s;
      SmallerSet(below, s);
      var q := (h: Hw) => p(h) && h.n < k.n;
      least := LeastExists(q, below, j);
      forall h | p(h) ensures least.n <= h.n { if h.n < k.n { assert q(h); } }
    } else {
      least := k;
    }
  }

  lemma SmallerSet(a: set<Hw>, b: set<Hw>)
    requires a < b
    ensures |a| < |b|
  {
    assert b == a + (b - a);
    assert b - a != {};
  }

  /** The channel a name stands for. */
  ghost function Start(row: RowMap, name: string): (start: Option<Hw>)
    ensures IsStart(row, name, start)
  {
    StartExists(row, name);
    var start :| IsStart(row, name, start);
    start
  }

  lemma StartExists(row: RowMap, name: string)
    ensures exists start :: IsStart(row, name, start)
  {
    if k :| Exact(row, name, k) {
      var least := LeastExists(j => Exact(row, name, j), row.Keys, k);
      assert IsStart(row, name, Some(least));
    } else if k :| Folded(row, name, k) {
      var least := LeastExists(j => Folded(row, name, j), row.Keys, k);
      assert IsStart(row, name, Some(least));
    } else {
      assert IsStart(row, name, None);
    }
  }

  lemma FirstIsLeast(exact: Hw -> bool, folded: Hw -> bool, k: Hw)
    requires Least(exact, k)
    ensures IsFirst(exact, folded, Some(k))
  {
    assert exact(k);
  }

  lemma OneEntryRow(k: Hw, name: string)
    ensures Start(map[k := [name]], name) == Some(k)
  {
    var row: RowMap := map[k := [name]];
    assert Exact(row, name, k);
    FirstIsLeast(j => Exact(row, name, j), j => Folded(row, name, j), k);
    StartIsUnique(row, name, Start(row, name), Some(k));
  }

  /** Both names are known at one and the same offset. */
  predicate Covers(row: RowMap, k: Hw, wanted: string, shown: string) {
    AliasHas(AliasesAt(row, k), wanted) && AliasHas(AliasesAt(row, k), shown)
  }

  lemma AliasesDiffer(row: RowMap, k: Hw, name: string)
    ensures row[k := Sorted(AliasesAt(row, k) + [name])] != row
  {
    var aliases := AliasesAt(row, k) + [name];
    SortedIsAPermutation(aliases);
    assert |multiset(Sorted(aliases))| == |multiset(aliases)|;
    assert row[k := Sorted(aliases)][k] == Sorted(aliases);
  }

  class Table {
    var channels: int
    var rows: map<Row, RowMap>

    function RowOf(row: Row): RowMap
      reads this
    {
      if row in rows then rows[row] else map[]
    }

    constructor (channels: int)
      ensures this.channels == channels && rows == map[]
    {
      this.channels, rows := channels, map[];
    }

    /** `merge_observation` */
    method MergeObservation(row: Row, k: Hw, name: string) returns (changed: bool)
      modifies `rows
      ensures RowOf(row) == Merged(old(RowOf(row)), channels, k, name)
      ensures changed <==> RowOf(row) != old(RowOf(row))
      ensures forall other :: other != row ==> RowOf(other) == old(RowOf(other))
    {
      var name' := Strip(name);
      if name' == "" || Lower(name') == "n.a." { return false; }
      if k.n < 0 || k.n >= channels { return false; }
      var aliases := AliasesAt(RowOf(row), k);
      if AliasHas(aliases, name') { return false; }
      aliases := Sorted(aliases + [name']);
      AliasesDiffer(RowOf(row), k, name');
      rows := rows[row := RowOf(row)[k := aliases]];
      changed := true;
    }
  }

  predicate Hit(row: RowMap, name: string, exact: bool, k: Hw) {
    if exact then Exact(row, name, k) else Folded(row, name, k)
  }

  method Lowest(row: RowMap, name: string, exact: bool) returns (start: Option<Hw>)
    ensures start.None? ==> forall k :: !Hit(row, name, exact, k)
    ensures start.Some? ==>
      Hit(row, name, exact, start.value) && forall k :: Hit(row, name, exact, k) ==> start.value.n <= k.n
  {
    start := None;
    var todo := row.Keys;
    while todo != {}
      invariant todo <= row.Keys
      invariant start.Some? ==> Hit(row, name, exact, start.value)
      invariant forall k :: k !in todo && Hit(row, name, exact, k) ==> start.Some? && start.value.n <= k.n
      decreases |todo|
    {
      var k :| k in todo;
      todo := todo - {k};
      var hit := if exact then name in row[k] else AliasHas(row[k], name);
      if hit && (start.None? || k.n < start.value.n) { start := Some(k); }
    }
  }

  /** `resolve_start` */
  method ResolveStart(row: RowMap, name: string) returns (start: Option<Hw>)
    ensures IsStart(row, name, start)
  {
    start := Lowest(row, name, true);
    assert forall k :: Hit(row, name, true, k) <==> Exact(row, name, k);
    assert forall k :: Hit(row, name, false, k) <==> Folded(row, name, k);
    if start.None? { start := Lowest(row, name, false); }
  }

  // ---------------------------------------------------------------------
  // What observation does to the table
  // ---------------------------------------------------------------------

  lemma {:induction false} StripLeftEnds(s: string)
    ensures StripLeft(s) != "" ==> !Space(StripLeft(s)[0])
    decreases |s|
  {
    if s != "" && Space(s[0]) { StripLeftEnds(s[1..]); }
  }

  lemma {:induction false} StripRightEnds(s: string)
    ensures StripRight(s) != "" ==> !Space(StripRight(s)[|StripRight(s)| - 1])
    ensures StripRight(s) <= s
    decreases |s|
  {
    if s != "" && Space(s[|s| - 1]) { StripRightEnds(s[..|s| - 1]); }
  }

  lemma StripTwice(s: string)
    ensures Strip(Strip(s)) == Strip(s)
  {
    StripLeftEnds(s);
    StripRightEnds(StripLeft(s));
    var t := Strip(s);
    if t != "" {
      assert t[0] == StripLeft(s)[0];
      assert StripLeft(t) == t;
    }
  }

  /** Observations only ever add: every alias stays, and a real name in range is known afterwards. */
  lemma MergeAccumulates(row: RowMap, channels: int, k: Hw, name: string, j: Hw, alias: string)
    ensures alias in AliasesAt(row, j) ==> alias in AliasesAt(Merged(row, channels, k, name), j)
    ensures Real(name) && 0 <= k.n < channels ==> AliasHas(AliasesAt(Merged(row, channels, k, name), k), name)
  {
    StripTwice(name);
    var aliases := AliasesAt(row, k) + [Strip(name)];
    SortedHas(aliases, alias);
    SortedHas(aliases, name);
    assert Fold(aliases[|aliases| - 1]) == Fold(name);
    if AliasHas(AliasesAt(row, k), Strip(name)) {
      var i :| 0 <= i < |AliasesAt(row, k)| && Fold(AliasesAt(row, k)[i]) == Fold(Strip(name));
    }
  }

  lemma KnownAliasMergesAway(row: RowMap, channels: int, k: Hw, again: string)
    requires AliasHas(AliasesAt(row, k), again)
    ensures Merged(row, channels, k, again) == row
  {
    StripTwice(again);
    var aliases := AliasesAt(row, k);
    var i :| 0 <= i < |aliases| && Fold(aliases[i]) == Fold(again);
    assert Fold(again) == Fold(Strip(again));
    assert AliasHas(aliases, Strip(again));
  }

  lemma FoldedAlias(aliases: seq<string>, name: string, again: string)
    requires AliasHas(aliases, name) && Fold(again) == Fold(name)
    ensures AliasHas(aliases, again)
  {
    var i :| 0 <= i < |aliases| && Fold(aliases[i]) == Fold(name);
    assert Fold(aliases[i]) == Fold(again);
  }

  /** Seeing a name again, in any case, changes nothing. */
  lemma MergeIsIdempotent(row: RowMap, channels: int, k: Hw, name: string, again: string)
    requires Fold(again) == Fold(name)
    ensures Merged(Merged(row, channels, k, name), channels, k, again) == Merged(row, channels, k, name)
  {
    if Real(name) && 0 <= k.n < channels {
      var merged := Merged(row, channels, k, name);
      MergeAccumulates(row, channels, k, name, k, "");
      FoldedAlias(AliasesAt(merged, k), name, again);
      KnownAliasMergesAway(merged, channels, k, again);
    } else {
      assert |Fold(name)| == |Strip(name)| && |Fold(again)| == |Strip(again)|;
    }
  }

  /**
   An observation changes the table if and only if it is a name (neither blank nor the placeholder `n.a.`), of an offset
   in range, that no alias there equals but for case and space.
  */
  lemma MergeChangesExactly(row: RowMap, channels: int, k: Hw, name: string)
    ensures Merged(row, channels, k, name) != row
       <==> && Strip(name) != "" && Lower(Strip(name)) != "n.a." && 0 <= k.n < channels
            && forall i :: 0 <= i < |AliasesAt(row, k)| ==> Fold(AliasesAt(row, k)[i]) != Fold(name)
  {
    StripTwice(name);
    AliasesDiffer(row, k, Strip(name));
  }

  /** A name's start is the lowest offset that lists it as spelled or, where none does, the lowest listing it at all. */
  lemma StartIsLowest(row: RowMap, name: string, k: Hw)
    ensures IsStart(row, name, Some(k)) <==>
      if exists j :: j in row && name in row[j]
      then k in row && name in row[k] && forall j :: j in row && name in row[j] ==> k.n <= j.n
      else k in row && AliasHas(row[k], name) && forall j :: j in row && AliasHas(row[j], name) ==> k.n <= j.n
  {
    var exact, folded := (j: Hw) => Exact(row, name, j), (j: Hw) => Folded(row, name, j);
    assert IsStart(row, name, Some(k)) <==> IsFirst(exact, folded, Some(k));
    assert forall j :: exact(j) <==> j in row && name in row[j];
    assert forall j :: folded(j) <==> j in row && AliasHas(row[j], name);
    assert Least(exact, k) <==> exact(k) && forall j :: j in row && name in row[j] ==> k.n <= j.n;
    assert Least(folded, k) <==> folded(k) && forall j :: j in row && AliasHas(row[j], name) ==> k.n <= j.n;
  }
}
