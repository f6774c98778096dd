/**
 The mixer as the classic protocol sees it.  Every message lands relative to hidden state: the bank start, the selected
 row and the selected submix, which persist until another message moves them.
*/
module ClassicDevice {
  import opened PhysicalTable
  import opened Wrappers

  /** The addresses that move hidden state (a row has a selector on page 1 and one on page 2), and all the others. */
  datatype Addr = BankStart | SetSubmix | SelectRow(page: int, row: Row) | Param(path: string)

  datatype Msg = Msg(addr: Addr, value: real)

  /** What a bank-0, input-row home takes. */
  const RESTORE := [Msg(BankStart, 0.0), Msg(SelectRow(1, Inputs), 1.0)]

  ghost predicate NoSubmix(ms: seq<Msg>) { forall i :: 0 <= i < |ms| ==> ms[i].addr != SetSubmix }

  /** What follows when page 2 is asked for its name: nobody listens, no dump comes, or a name is shown. */
  datatype Reply = NoListener | NoDump | Shows(name: string)

  datatype Aim = Aim(bank: real, row: Row, submix: Option<real>)

  function Applied(aim: Aim, m: Msg): Aim {
    match m.addr
    case BankStart => aim.(bank := m.value)
    case SetSubmix => aim.(submix := Some(m.value))
    case SelectRow(_, row) => if m.value >= 0.5 then aim.(row := row) else aim
    case Param(_) => aim
  }

  lemma Regroup(a: seq<Msg>, b: seq<Msg>, c: seq<Msg>)
    ensures a + b + c == a + (b + c)
  {}

  function AimAfter(aim: Aim, ms: seq<Msg>): Aim
    decreases |ms|
  {
    if ms == [] then aim else Applied(AimAfter(aim, ms[..|ms| - 1]), ms[|ms| - 1])
  }

  lemma {:induction false} AimAfterBoth(aim: Aim, a: seq<Msg>, b: seq<Msg>)
    ensures AimAfter(aim, a + b) == AimAfter(AimAfter(aim, a), b)
    decreases |b|
  {
    if b == [] {
      assert a + b == a;
    } else {
      assert (a + b)[..|a + b| - 1] == a + b[..|b| - 1];
      AimAfterBoth(aim, a, b[..|b| - 1]);
    }
  }

  lemma AimAfterOne(aim: Aim, m: Msg)
    ensures AimAfter(aim, [m]) == Applied(aim, m)
  {
    assert [m][..0] == [];
  }

  lemma AimAfterTwo(aim: Aim, a: Msg, b: Msg)
    ensures AimAfter(aim, [a, b]) == Applied(Applied(aim, a), b)
  {
    assert [a, b] == [a] + [b];
    AimAfterBoth(aim, [a], [b]);
    AimAfterOne(aim, a);
    AimAfterOne(Applied(aim, a), b);
  }

  class Device {
    var aim: Aim
    ghost var start: Aim
    ghost var sent: seq<Msg>

    ghost predicate Valid()
      reads this
    {
      aim == AimAfter(start, sent)
    }

    constructor (aim: Aim)
      ensures Valid() && this.aim == start == aim && sent == []
    {
      this.aim, start, sent := aim, aim, [];
    }

    method Send(addr: Addr, value: real)
      requires Valid()
      modifies this
      ensures Valid() && start == old(start)
      ensures sent == old(sent) + [Msg(addr, value)] && aim == Applied(old(aim), Msg(addr, value))
    {
      AimAfterBoth(start, sent, [Msg(addr, value)]);
      AimAfterOne(aim, Msg(addr, value));
      aim := Applied(aim, Msg(addr, value));
      sent := sent + [Msg(addr, value)];
    }
  }
}
