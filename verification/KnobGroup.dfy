/**
 Send groups: a knob's other members follow it the way a VCA does, each at a stored distance in decibels.
*/
module KnobGroup {
  import opened FaderLaw
  import opened Reals
  import opened Wrappers

  /**
   An entry of the stored list.  `Junk` is an entry that is no record or names no channel; `offset` is absent when it
   cannot be read as a number; `address` is what the resolver answered, absent when it refused or raised.
  */
  datatype Member = Junk | Member(offset: Option<real>, address: Option<string>)

  datatype Write = Write(address: string, value: real)

  function Offset(m: Member): real {
    if m.Member? && m.offset.Some? then m.offset.value else 0.0
  }

  /** Where a member goes: to silence with the primary at the bottom, else along the fader law, never over unity. */
  function Value(sqrt: real -> real, primary: real, off: real): real {
    if primary <= 0.0005 then 0.0
    else Max(0.0, Min(FaderLin(sqrt, 0.0), FaderLin(sqrt, FaderDb(primary) + off)))
  }

  // ---------------------------------------------------------------------
  // Specification
  // ---------------------------------------------------------------------

  predicate Reaches(m: Member, address: string) { m.Member? && m.address == Some(address) }

  /** Entry `i` resolves to an address that is not the primary's and that no earlier entry resolved to. */
  predicate Leads(group: seq<Member>, own: Option<string>, i: nat)
    requires i < |group|
  {
    && group[i].Member? && group[i].address.Some? && group[i].address != own
    && forall j :: 0 <= j < i ==> !Reaches(group[j], group[i].address.value)
  }

  function Writes(sqrt: real -> real, primary: real, own: Option<string>, group: seq<Member>, n: nat): seq<Write>
    requires n <= |group|
  {
    if n == 0 then [] else
    var before := Writes(sqrt, primary, own, group, n - 1);
    if Leads(group, own, n - 1)
    then before + [Write(group[n - 1].address.value, Value(sqrt, primary, Offset(group[n - 1])))]
    else before
  }

  // ---------------------------------------------------------------------
  // The loop
  // ---------------------------------------------------------------------

  /** `_write_group_members` */
  method WriteMembers(sqrt: real -> real, primary: real, own: Option<string>, group: seq<Member>)
    returns (writes: seq<Write>)
    ensures writes == Writes(sqrt, primary, own, group, |group|)
  {
    var base, ceil := FaderDb(primary), FaderLin(sqrt, 0.0);
    var seen := if own.Some? then {own.value} else {};
    writes := [];
    var i := 0;
    while i < |group|
      invariant i <= |group|
      invariant writes == Writes(sqrt, primary, own, group, i)
      invariant forall a :: a in seen <==> own == Some(a) || exists j :: 0 <= j < i && Reaches(group[j], a)
    {
      var m := group[i];
      i := i + 1;
      if m.Junk? { continue; }
      var off := if m.offset.Some? then m.offset.value else 0.0;
      if m.address.None? { continue; }
      if m.address.value in seen { continue; }
      seen := seen + {m.address.value};
      var v := if primary <= 0.0005 then 0.0 else Max(0.0, Min(ceil, FaderLin(sqrt, base + off)));
      writes := writes + [Write(m.address.value, v)];
    }
  }

  // ---------------------------------------------------------------------
  // What the writes amount to
  // ---------------------------------------------------------------------

  /** Every write is some leading entry's, at that entry's offset. */
  lemma {:induction false} WriteSource(sqrt: real -> real, primary: real, own: Option<string>, group: seq<Member>,
                                       n: nat, k: nat) returns (i: nat)
    requires n <= |group| && k < |Writes(sqrt, primary, own, group, n)|
    ensures i < n && Leads(group, own, i)
    ensures Writes(sqrt, primary, own, group, n)[k]
         == Write(group[i].address.value, Value(sqrt, primary, Offset(group[i])))
  {
    if k < |Writes(sqrt, primary, own, group, n - 1)| {
      i := WriteSource(sqrt, primary, own, group, n - 1, k);
    } else {
      i := n - 1;
    }
  }

  /** No write goes to the primary's own address, and no two go to the same one. */
  lemma {:induction false} AddressesAreDistinct(sqrt: real -> real, primary: real, own: Option<string>,
                                                group: seq<Member>, n: nat, j: nat, k: nat)
    requires n <= |group| && j < k < |Writes(sqrt, primary, own, group, n)|
    ensures var w := Writes(sqrt, primary, own, group, n);
      w[j].address != w[k].address && own != Some(w[j].address) && own != Some(w[k].address)
  {
    var a := WriteSource(sqrt, primary, own, group, n, j);
    if k < |Writes(sqrt, primary, own, group, n - 1)| {
      AddressesAreDistinct(sqrt, primary, own, group, n - 1, j, k);
    } else {
      var b := WriteSource(sqrt, primary, own, group, n - 1, j);
      assert Reaches(group[b], Writes(sqrt, primary, own, group, n)[j].address);
    }
  }

  predicate Written(writes: seq<Write>, address: string) {
    exists k :: 0 <= k < |writes| && writes[k].address == address
  }

  lemma {:induction false} LeaderIsWritten(sqrt: real -> real, primary: real, own: Option<string>, group: seq<Member>,
                                           n: nat, i: nat)
    requires i < n <= |group| && Leads(group, own, i)
    ensures Written(Writes(sqrt, primary, own, group, n), group[i].address.value)
  {
    var w := Writes(sqrt, primary, own, group, n);
    if i == n - 1 {
      assert w[|w| - 1].address == group[i].address.value;
    } else {
      LeaderIsWritten(sqrt, primary, own, group, n - 1, i);
      var v := Writes(sqrt, primary, own, group, n - 1);
      var k :| 0 <= k < |v| && v[k].address == group[i].address.value;
      assert w[k] == v[k];
    }
  }

  lemma {:induction false} FirstLeads(own: Option<string>, group: seq<Member>, i: nat, address: string)
    returns (first: nat)
    requires i < |group| && Reaches(group[i], address) && own != Some(address)
    ensures first <= i && Leads(group, own, first) && Reaches(group[first], address)
  {
    first := i;
    if j :| 0 <= j < i && Reaches(group[j], address) {
      first := FirstLeads(own, group, j, address);
    }
  }

  /** Written are exactly the addresses some member resolves to, the primary's own excepted. */
  lemma WrittenExactlyOnceEach(sqrt: real -> real, primary: real, own: Option<string>, group: seq<Member>,
                               address: string)
    ensures Written(Writes(sqrt, primary, own, group, |group|), address)
       <==> own != Some(address) && exists i :: 0 <= i < |group| && Reaches(group[i], address)
  {
    var w := Writes(sqrt, primary, own, group, |group|);
    if k :| 0 <= k < |w| && w[k].address == address {
      var i := WriteSource(sqrt, primary, own, group, |group|, k);
      assert Reaches(group[i], address);
    } else if i :| own != Some(address) && 0 <= i < |group| && Reaches(group[i], address) {
      var first := FirstLeads(own, group, i, address);
      LeaderIsWritten(sqrt, primary, own, group, |group|, first);
    }
  }

  // ---------------------------------------------------------------------
  // Levels
  // ---------------------------------------------------------------------

  /** No offset, however large, drives a member over 0 dB. */
  lemma NeverOverUnity(sqrt: real -> real, primary: real, off: real)
    ensures 0.0 <= Value(sqrt, primary, off) <= FaderLin(sqrt, 0.0)
    ensures FaderDb(Value(sqrt, primary, off)) <= 0.0
  {
    UnityPosition(sqrt);
    LinInRange(sqrt, FaderDb(primary) + off);
    var v := Value(sqrt, primary, off);
    if v < FaderLin(sqrt, 0.0) { FaderDbRises(v, FaderLin(sqrt, 0.0)); }
  }

  /** With the primary out of the bottom, a member reads the primary's level plus its offset, capped at 0 dB. */
  lemma {:induction false} KeepsItsDistance(sqrt: real -> real, primary: real, off: real)
    requires IsSqrt(sqrt) && primary > 0.0005
    ensures var want, v := FaderDb(primary) + off, Value(sqrt, primary, off);
      && (want <= SNAP_DB ==> v == 0.0)
      && (AUDIBLE_DB <= want <= 0.0 ==> Abs(FaderDb(v) - want) <= 0.0000001)
      && (want >= 0.0 ==> FaderDb(v) == 0.0)
  {
    var want := FaderDb(primary) + off;
    UnityPosition(sqrt);
    LinInRange(sqrt, want);
    SeamOrder();
    if AUDIBLE_DB <= want <= 0.0 {
      ReverseTrip(sqrt, want);
      if want < 0.0 { LinRises(sqrt, want, 0.0); }
    } else if want > 0.0 {
      LinRises(sqrt, 0.0, want);
    }
  }

  predicate InRange(primary: real, off: real) { AUDIBLE_DB <= FaderDb(primary) + off <= 0.0 }

  /** Moving the primary keeps the balance between two members that stay in range. */
  lemma {:induction false} BalanceSurvivesMoves(sqrt: real -> real, here: real, there: real, a: real, b: real)
    requires IsSqrt(sqrt) && here > 0.0005 && there > 0.0005
    requires InRange(here, a) && InRange(here, b) && InRange(there, a) && InRange(there, b)
    ensures var before := FaderDb(Value(sqrt, here, a)) - FaderDb(Value(sqrt, here, b));
      var after := FaderDb(Value(sqrt, there, a)) - FaderDb(Value(sqrt, there, b));
      Abs(before - after) <= 0.0000004
  {
    KeepsItsDistance(sqrt, here, a);
    KeepsItsDistance(sqrt, here, b);
    KeepsItsDistance(sqrt, there, a);
    KeepsItsDistance(sqrt, there, b);
  }

  /** At the bottom the whole group mutes, whatever the offsets. */
  lemma BottomMutesAll(sqrt: real -> real, primary: real, own: Option<string>, group: seq<Member>, k: nat)
    requires primary <= 0.0005 && k < |Writes(sqrt, primary, own, group, |group|)|
    ensures Writes(sqrt, primary, own, group, |group|)[k].value == 0.0
  {
    var i := WriteSource(sqrt, primary, own, group, |group|, k);
  }

  /** Two leading entries never share an address. */
  lemma LeadersDiffer(own: Option<string>, group: seq<Member>, i: nat, j: nat)
    requires i < |group| && j < |group| && Leads(group, own, i) && Leads(group, own, j)
    requires group[i].address == group[j].address
    ensures i == j
  {
    assert Reaches(group[i], group[j].address.value) && Reaches(group[j], group[i].address.value);
  }

  /**
   On the group itself: the entry an address is written for is written at the primary's level plus the offset stored in
   it, an offset that is absent or no number counting as 0 dB; capped at 0 dB, and silent at or below the snap.
  */
  lemma {:induction false} EntryKeepsItsDistance(sqrt: real -> real, primary: real, own: Option<string>,
                                                 group: seq<Member>, i: nat, address: string) returns (k: nat)
    requires IsSqrt(sqrt) && primary > 0.0005 && i < |group|
    requires Leads(group, own, i) && group[i].address == Some(address)
    ensures k < |Writes(sqrt, primary, own, group, |group|)|
    ensures var w := Writes(sqrt, primary, own, group, |group|)[k];
      var want := FaderDb(primary) + (match group[i].offset case Some(o) => o case None => 0.0);
      && w.address == address
      && (want <= -64.9 ==> w.value == 0.0)
      && (-64.8999999 <= want <= 0.0 ==> Abs(FaderDb(w.value) - want) <= 0.0000001)
      && (want >= 0.0 ==> FaderDb(w.value) == 0.0)
  {
    LeaderIsWritten(sqrt, primary, own, group, |group|, i);
    var writes := Writes(sqrt, primary, own, group, |group|);
    k :| 0 <= k < |writes| && writes[k].address == address;
    var j := WriteSource(sqrt, primary, own, group, |group|, k);
    LeadersDiffer(own, group, i, j);
    KeepsItsDistance(sqrt, primary, Offset(group[i]));
  }
}
