/**
 The agent's knob buffer: the newest value per macro waits in arrays indexed by
 macro POSITION until it is flushed, while refreshes of the bindings may rename,
 reorder, add or remove the macros those positions stand for.
*/
module KnobBuffer {
  import opened Sequences
  import opened Wrappers

  const MAX_MACROS := 128

  type Name = string

  /** As many names as the bindings hold at most. */
  predicate Sized(names: seq<Name>) { |names| <= MAX_MACROS }

  /** What the bindings parser leaves behind of every feed without NUL bytes. */
  predicate Distinct(names: seq<Name>) { forall i, j :: 0 <= i < j < |names| ==> names[i] != names[j] }

  datatype Buffer = Buffer(names: seq<Name>, pending: seq<real>, dirty: seq<bool>)

  predicate Shaped(b: Buffer) { Sized(b.names) && |b.pending| == |b.dirty| == MAX_MACROS }

  datatype Post = Post(name: Name, value: real)

  function AfterKnob(b: Buffer, i: int, value: real): Buffer
    requires Shaped(b)
  {
    if 0 <= i < MAX_MACROS then b.(pending := b.pending[i := value], dirty := b.dirty[i := true]) else b
  }

  predicate SameName(before: seq<Name>, names: seq<Name>, i: nat) {
    i < |before| && i < |names| && before[i] == names[i]
  }

  function AfterRefresh(b: Buffer, names: seq<Name>): Buffer
    requires Shaped(b)
  {
    b.(names := names,
       dirty := seq(MAX_MACROS, i requires 0 <= i < MAX_MACROS => b.dirty[i] && SameName(b.names, names, i)))
  }

  /** What a flush posts from the first `k` positions. */
  function Posts(b: Buffer, k: nat): seq<Post>
    requires Shaped(b) && k <= |b.names|
  {
    if k == 0 then []
    else Posts(b, k - 1) + if b.dirty[k - 1] then [Post(b.names[k - 1], b.pending[k - 1])] else []
  }

  function AfterFlush(b: Buffer): Buffer
    requires Shaped(b)
  {
    b.(dirty := seq(MAX_MACROS, i requires 0 <= i < MAX_MACROS => b.dirty[i] && i >= |b.names|))
  }

  class Runner {
    var names: seq<Name>
    const pending: array<real>
    const dirty: array<bool>

    ghost predicate Valid()
      reads this, pending, dirty
    {
      pending.Length == MAX_MACROS && dirty.Length == MAX_MACROS && Sized(names)
    }

    ghost function State(): Buffer
      reads this, pending, dirty
    {
      Buffer(names, pending[..], dirty[..])
    }

    constructor ()
      ensures Valid() && fresh(pending) && fresh(dirty)
      ensures names == [] && forall i :: 0 <= i < MAX_MACROS ==> !dirty[i]
    {
      names := [];
      pending := new real[MAX_MACROS](i => 0.0);
      dirty := new bool[MAX_MACROS](i => false);
    }

    /** A knob action of the matcher. */
    method OnKnob(i: int, value: real)
      requires Valid()
      modifies pending, dirty
      ensures Valid() && State() == AfterKnob(old(State()), i, value)
    {
      if 0 <= i < MAX_MACROS {
        pending[i] := value;
        dirty[i] := true;
      }
    }

    /** `load_bindings`: a failed fetch changes nothing; a new table drops every value whose position moved. */
    method LoadBindings(fetched: Option<seq<Name>>) returns (ok: bool)
      requires Valid() && (fetched.Some? ==> Sized(fetched.value))
      modifies this, dirty
      ensures Valid() && ok == fetched.Some?
      ensures State() == if fetched.Some? then AfterRefresh(old(State()), fetched.value) else old(State())
    {
      if fetched.None? { return false; }
      var oldNames := names;
      names := fetched.value;
      var i := 0;
      while i < MAX_MACROS
        invariant 0 <= i <= MAX_MACROS && dirty.Length == MAX_MACROS
        invariant names == fetched.value && oldNames == old(names)
        invariant forall k :: 0 <= k < i ==> dirty[k] == (old(dirty[k]) && SameName(oldNames, names, k))
        invariant forall k :: i <= k < MAX_MACROS ==> dirty[k] == old(dirty[k])
      {
        if dirty[i] && (i >= |oldNames| || i >= |names| || oldNames[i] != names[i]) {
          dirty[i] := false;
        }
        i := i + 1;
      }
      ok := true;
    }

    /** `flush_knobs`: the values are cleared before they are posted, whatever becomes of the post. */
    method FlushKnobs() returns (posts: seq<Post>)
      requires Valid()
      modifies dirty
      ensures Valid() && State() == AfterFlush(old(State()))
      ensures posts == Posts(old(State()), |names|)
    {
      posts := [];
      var i := 0;
      while i < |names|
        invariant 0 <= i <= |names| && dirty.Length == MAX_MACROS
        invariant posts == Posts(old(State()), i)
        invariant forall k :: 0 <= k < i ==> !dirty[k]
        invariant forall k :: i <= k < MAX_MACROS ==> dirty[k] == old(dirty[k])
      {
        if dirty[i] {
          dirty[i] := false;
          posts := posts + [Post(names[i], pending[i])];
        }
        i := i + 1;
      }
    }
  }

  // ---------------------------------------------------------------------
  // Runs
  // ---------------------------------------------------------------------

  datatype Event =
    | Matched(i: nat, value: real)
    | Flushed
    | Refreshed(names: seq<Name>)
    | FetchFailed

  /** The buffer with what has been received and posted so far. */
  datatype Sys = Sys(buffer: Buffer, received: seq<Post>, posted: seq<Post>)

  function Initial(): Sys {
    Sys(Buffer([], seq(MAX_MACROS, i => 0.0), seq(MAX_MACROS, i => false)), [], [])
  }

  /** The matcher names macros of the current table; the parser delivers no more names than fit. */
  predicate Enabled(s: Sys, e: Event) {
    match e
    case Matched(i, _) => i < |s.buffer.names|
    case Refreshed(names) => Sized(names)
    case _ => true
  }

  function Apply(s: Sys, e: Event): (s': Sys)
    requires Shaped(s.buffer) && Enabled(s, e)
    ensures Shaped(s'.buffer)
  {
    match e
    case Matched(i, v) =>
      s.(buffer := AfterKnob(s.buffer, i, v), received := s.received + [Post(s.buffer.names[i], v)])
    case Flushed =>
      s.(buffer := AfterFlush(s.buffer), posted := s.posted + Posts(s.buffer, |s.buffer.names|))
    case Refreshed(names) => s.(buffer := AfterRefresh(s.buffer, names))
    case FetchFailed => s
  }

  predicate ValidRun(s: Sys, events: seq<Event>)
    requires Shaped(s.buffer)
    decreases |events|
  {
    events == [] || (Enabled(s, events[0]) && ValidRun(Apply(s, events[0]), events[1..]))
  }

  function Final(s: Sys, events: seq<Event>): (r: Sys)
    requires Shaped(s.buffer) && ValidRun(s, events)
    ensures Shaped(r.buffer)
    decreases |events|
  {
    if events == [] then s else Final(Apply(s, events[0]), events[1..])
  }

  /** The values filed under one name, in order. */
  function ValuesOf(posts: seq<Post>, n: Name): seq<real>
    decreases |posts|
  {
    if posts == [] then []
    else ValuesOf(posts[..|posts| - 1], n) + if posts[|posts| - 1].name == n then [posts[|posts| - 1].value] else []
  }

  /** A waiting value is the newest one received for the name at its position, and has not been posted. */
  ghost predicate Waiting(s: Sys, i: nat)
    requires Shaped(s.buffer) && i < |s.buffer.names|
  {
    var n := s.buffer.names[i];
    var got := ValuesOf(s.received, n);
    && got != [] && got[|got| - 1] == s.buffer.pending[i]
    && Subsequence(ValuesOf(s.posted, n) + [s.buffer.pending[i]], got)
  }

  ghost predicate Faithful(s: Sys) {
    && Shaped(s.buffer) && Distinct(s.buffer.names)
    && (forall n: Name :: Subsequence(ValuesOf(s.posted, n), ValuesOf(s.received, n)))
    && (forall i :: 0 <= i < MAX_MACROS && s.buffer.dirty[i] ==> i < |s.buffer.names| && Waiting(s, i))
  }

  lemma ValuesOfAppend(posts: seq<Post>, p: Post, n: Name)
    ensures p.name == n ==> ValuesOf(posts + [p], n) == ValuesOf(posts, n) + [p.value]
    ensures p.name != n ==> ValuesOf(posts + [p], n) == ValuesOf(posts, n)
  {
    assert (posts + [p])[..|posts|] == posts;
    assert ValuesOf(posts, n) + [] == ValuesOf(posts, n);
  }

  lemma Regroup(a: seq<real>, b: seq<real>, v: real)
    ensures a + b + [v] == a + (b + [v])
  {}

  lemma {:induction false} ValuesOfConcatNext(a: seq<Post>, front: seq<Post>, last: Post, n: Name)
    requires ValuesOf(a + front, n) == ValuesOf(a, n) + ValuesOf(front, n)
    ensures ValuesOf(a + (front + [last]), n) == ValuesOf(a, n) + ValuesOf(front + [last], n)
  {
    ValuesOfAppend(front, last, n);
    ValuesOfAppend(a + front, last, n);
    assert a + (front + [last]) == a + front + [last];
    if last.name == n { Regroup(ValuesOf(a, n), ValuesOf(front, n), last.value); }
  }

  lemma {:induction false} ValuesOfConcat(a: seq<Post>, b: seq<Post>, n: Name)
    ensures ValuesOf(a + b, n) == ValuesOf(a, n) + ValuesOf(b, n)
    decreases |b|
  {
    if b == [] {
      assert a + b == a && ValuesOf(b, n) == [];
    } else {
      var front, last := b[..|b| - 1], b[|b| - 1];
      ValuesOfConcat(a, front, n);
      ValuesOfConcatNext(a, front, last, n);
      assert front + [last] == b;
    }
  }

  lemma FaithfulKnob(s: Sys, i: nat, v: real)
    requires Faithful(s) && Enabled(s, Matched(i, v))
    ensures Faithful(Apply(s, Matched(i, v)))
  {
    var s' := Apply(s, Matched(i, v));
    var p := Post(s.buffer.names[i], v);
    forall n: Name
      ensures Subsequence(ValuesOf(s'.posted, n), ValuesOf(s'.received, n))
      ensures n == p.name ==> Subsequence(ValuesOf(s'.posted, n) + [v], ValuesOf(s'.received, n))
      ensures n != p.name ==> ValuesOf(s'.received, n) == ValuesOf(s.received, n)
    {
      assert Subsequence(ValuesOf(s.posted, n), ValuesOf(s.received, n));
      ValuesOfAppend(s.received, p, n);
      if n == p.name {
        SubsequenceSkips(ValuesOf(s.posted, n), ValuesOf(s.received, n), v);
        SubsequenceTakes(ValuesOf(s.posted, n), ValuesOf(s.received, n), v);
      }
    }
    ValuesOfAppend(s.received, p, p.name);
    forall k | 0 <= k < MAX_MACROS && s'.buffer.dirty[k] ensures k < |s'.buffer.names| && Waiting(s', k) {
      if k != i {
        assert Waiting(s, k) && s.buffer.names[k] != p.name;
      }
    }
  }

  /** A flush posts at most one value per name. */
  lemma {:induction false} PostsOf(b: Buffer, k: nat, n: Name)
    requires Shaped(b) && Distinct(b.names) && k <= |b.names|
    ensures forall i :: 0 <= i < k && b.names[i] == n ==>
              ValuesOf(Posts(b, k), n) == if b.dirty[i] then [b.pending[i]] else []
    ensures (forall i :: 0 <= i < k ==> b.names[i] != n) ==> ValuesOf(Posts(b, k), n) == []
  {
    if k > 0 {
      PostsOf(b, k - 1, n);
      if b.dirty[k - 1] {
        ValuesOfAppend(Posts(b, k - 1), Post(b.names[k - 1], b.pending[k - 1]), n);
        assert [] + [b.pending[k - 1]] == [b.pending[k - 1]];
      } else {
        assert Posts(b, k) == Posts(b, k - 1);
      }
    }
  }

  lemma FaithfulFlush(s: Sys)
    requires Faithful(s)
    ensures Faithful(Apply(s, Flushed))
  {
    var s' := Apply(s, Flushed);
    var b := s.buffer;
    forall n: Name ensures Subsequence(ValuesOf(s'.posted, n), ValuesOf(s'.received, n)) {
      assert Subsequence(ValuesOf(s.posted, n), ValuesOf(s.received, n));
      ValuesOfConcat(s.posted, Posts(b, |b.names|), n);
      PostsOf(b, |b.names|, n);
      if i :| 0 <= i < |b.names| && b.names[i] == n && b.dirty[i] {
        assert Waiting(s, i);
      } else {
        assert ValuesOf(Posts(b, |b.names|), n) == [];
        assert ValuesOf(s.posted, n) + [] == ValuesOf(s.posted, n);
      }
    }
  }

  lemma FaithfulRefresh(s: Sys, names: seq<Name>)
    requires Faithful(s) && Sized(names) && Distinct(names)
    ensures Faithful(Apply(s, Refreshed(names)))
  {
    var s' := Apply(s, Refreshed(names));
    forall n: Name ensures Subsequence(ValuesOf(s'.posted, n), ValuesOf(s'.received, n)) {
      assert Subsequence(ValuesOf(s.posted, n), ValuesOf(s.received, n));
    }
    forall k | 0 <= k < MAX_MACROS && s'.buffer.dirty[k] ensures k < |names| && Waiting(s', k) {
      assert s.buffer.dirty[k] && Waiting(s, k);
    }
  }

  predicate AllDistinct(events: seq<Event>) {
    forall k :: 0 <= k < |events| && events[k].Refreshed? ==> Distinct(events[k].names)
  }

  lemma {:induction false} FaithfulRun(s: Sys, events: seq<Event>)
    requires Faithful(s) && ValidRun(s, events) && AllDistinct(events)
    ensures Faithful(Final(s, events))
    decreases |events|
  {
    if events != [] {
      match events[0] {
        case Matched(i, v) => FaithfulKnob(s, i, v);
        case Flushed => FaithfulFlush(s);
        case Refreshed(names) => FaithfulRefresh(s, names);
        case FetchFailed =>
      }
      FaithfulRun(Apply(s, events[0]), events[1..]);
    }
  }

  /**
   Over every run whose tables name each macro once: a waiting position holds the newest value received for the macro
   it now stands for, and per name the posted values are a subsequence of the received ones.
  */
  lemma {:induction false} PostsPairNamesWithTheirValues(events: seq<Event>)
    requires ValidRun(Initial(), events) && AllDistinct(events)
    ensures var s := Final(Initial(), events);
            && (forall n: Name :: Subsequence(ValuesOf(s.posted, n), ValuesOf(s.received, n)))
            && (forall i :: 0 <= i < MAX_MACROS && s.buffer.dirty[i] ==>
                  && i < |s.buffer.names|
                  && var got := ValuesOf(s.received, s.buffer.names[i]);
                     got != [] && got[|got| - 1] == s.buffer.pending[i])
  {
    var s := Initial();
    forall n: Name ensures Subsequence(ValuesOf(s.posted, n), ValuesOf(s.received, n)) {}
    FaithfulRun(s, events);
    var s' := Final(s, events);
    forall i | 0 <= i < MAX_MACROS && s'.buffer.dirty[i]
      ensures i < |s'.buffer.names|
      ensures var got := ValuesOf(s'.received, s'.buffer.names[i]);
              got != [] && got[|got| - 1] == s'.buffer.pending[i]
    {
      assert Waiting(s', i);
    }
  }

  /** The event neither flushes, nor touches position `i`, nor puts another name there than `n`. */
  predicate Spares(e: Event, i: nat, n: Name) {
    match e
    case Matched(j, _) => j != i
    case Flushed => false
    case Refreshed(names) => i < |names| && names[i] == n
    case FetchFailed => true
  }

  predicate AllSpare(events: seq<Event>, i: nat, n: Name) {
    forall k :: 0 <= k < |events| ==> Spares(events[k], i, n)
  }

  predicate Waits(b: Buffer, i: nat, p: Post)
    requires Shaped(b)
  {
    i < |b.names| && b.dirty[i] && Post(b.names[i], b.pending[i]) == p
  }

  /** A matched value waits at its position, under the name there, whatever waited before. */
  lemma MatchedValueWaits(s: Sys, i: nat, v: real)
    requires Shaped(s.buffer) && i < |s.buffer.names|
    ensures Waits(Apply(s, Matched(i, v)).buffer, i, Post(s.buffer.names[i], v))
  {}

  lemma {:induction false} WaitsOn(s: Sys, events: seq<Event>, i: nat, p: Post)
    requires Shaped(s.buffer) && ValidRun(s, events) && Waits(s.buffer, i, p) && AllSpare(events, i, p.name)
    ensures Waits(Final(s, events).buffer, i, p)
    decreases |events|
  {
    if events != [] {
      assert Spares(events[0], i, p.name);
      forall k | 0 <= k < |events[1..]| ensures Spares(events[1..][k], i, p.name) {
        assert Spares(events[k + 1], i, p.name);
      }
      WaitsOn(Apply(s, events[0]), events[1..], i, p);
    }
  }

  lemma {:induction false} FlushPosts(b: Buffer, k: nat, i: nat)
    requires Shaped(b) && i < k <= |b.names| && b.dirty[i]
    ensures Post(b.names[i], b.pending[i]) in Posts(b, k)
    decreases k
  {
    if i < k - 1 { FlushPosts(b, k - 1, i); }
  }

  /**
   Nothing is dropped needlessly: a waiting value whose position keeps its name through any number of refreshes, failed
   fetches and other knobs' values is posted, under that name, by the next flush.
  */
  lemma {:induction false} KeptValueIsPosted(s: Sys, events: seq<Event>, i: nat, p: Post)
    requires Shaped(s.buffer) && ValidRun(s, events) && Waits(s.buffer, i, p) && AllSpare(events, i, p.name)
    ensures var s' := Apply(Final(s, events), Flushed);
            |Final(s, events).posted| <= |s'.posted| && p in s'.posted[|Final(s, events).posted|..]
  {
    WaitsOn(s, events, i, p);
    var b := Final(s, events).buffer;
    FlushPosts(b, |b.names|, i);
    var before, posts := Final(s, events).posted, Posts(b, |b.names|);
    assert (before + posts)[|before|..] == posts;
  }

  // ---------------------------------------------------------------------
  // Tables with equal names
  // ---------------------------------------------------------------------

  /** The agent with a table just fetched and nothing waiting. */
  function Loaded(names: seq<Name>): (s: Sys)
    requires Sized(names)
    ensures Shaped(s.buffer)
  {
    Initial().(buffer := Initial().buffer.(names := names))
  }

  ghost predicate InOrder(s: Sys) { forall n: Name :: Subsequence(ValuesOf(s.posted, n), ValuesOf(s.received, n)) }

  /** What a flush posts when only `i` and `j` wait. */
  lemma {:induction false} PairPosts(b: Buffer, i: nat, j: nat, k: nat)
    requires Shaped(b) && i < j < |b.names| && k <= |b.names|
    requires forall m :: 0 <= m < MAX_MACROS ==> (b.dirty[m] <==> m == i || m == j)
    ensures Posts(b, k) == (if i < k then [Post(b.names[i], b.pending[i])] else [])
                         + (if j < k then [Post(b.names[j], b.pending[j])] else [])
  {
    if k > 0 { PairPosts(b, i, j, k - 1); }
  }

  /** Two positions of one name are flushed in the order of their positions, not of their values. */
  function SwappingRun(i: nat, j: nat): seq<Event> { [Matched(j, 1.0), Matched(i, 2.0), Flushed] }

  lemma {:induction false} TwoValues(n: Name, v: real, w: real)
    ensures ValuesOf([Post(n, v), Post(n, w)], n) == [v, w]
  {
    var posts := [Post(n, v), Post(n, w)];
    assert posts == [] + [posts[0]] + [posts[1]];
    ValuesOfAppend([], posts[0], n);
    ValuesOfAppend([] + [posts[0]], posts[1], n);
  }

  lemma {:induction false} SwappedState(names: seq<Name>, i: nat, j: nat)
    requires Sized(names) && i < j < |names| && names[i] == names[j]
    ensures ValidRun(Loaded(names), SwappingRun(i, j))
    ensures var s := Final(Loaded(names), SwappingRun(i, j));
            && s.received == [Post(names[i], 1.0), Post(names[i], 2.0)]
            && s.posted == [Post(names[i], 2.0), Post(names[i], 1.0)]
  {
    var es, s0 := SwappingRun(i, j), Loaded(names);
    var s1 := Apply(s0, es[0]);
    var s2 := Apply(s1, es[1]);
    PairPosts(s2.buffer, i, j, |names|);
    assert es[1..] == [es[1], es[2]] && es[1..][1..] == [es[2]] && [es[2]][1..] == [];
    assert ValidRun(s2, [es[2]]);
    assert ValidRun(s1, es[1..]);
    assert Final(s2, [es[2]]) == Apply(s2, es[2]);
    assert Final(s1, es[1..]) == Final(s2, [es[2]]);
  }

  lemma EqualNamesSwap(names: seq<Name>, i: nat, j: nat)
    requires Sized(names) && i < j < |names| && names[i] == names[j]
    ensures ValidRun(Loaded(names), SwappingRun(i, j)) && !InOrder(Final(Loaded(names), SwappingRun(i, j)))
  {
    SwappedState(names, i, j);
    TwoValues(names[i], 1.0, 2.0);
    TwoValues(names[i], 2.0, 1.0);
    var s := Final(Loaded(names), SwappingRun(i, j));
    if Subsequence(ValuesOf(s.posted, names[i]), ValuesOf(s.received, names[i])) {
      SubsequenceIsShorter(ValuesOf(s.posted, names[i]), ValuesOf(s.received, names[i]));
    }
  }

  ghost predicate KeepsOrder(names: seq<Name>, events: seq<Event>)
    requires Sized(names)
  {
    ValidRun(Loaded(names), events) && AllDistinct(events) ==> InOrder(Final(Loaded(names), events))
  }

  /** From a table on every name's posts keep the order of its values, over all runs, exactly when no name is double. */
  lemma OrderExactlyForDistinctNames(names: seq<Name>)
    requires Sized(names)
    ensures (forall events :: KeepsOrder(names, events)) <==> Distinct(names)
  {
    if Distinct(names) {
      forall events ensures KeepsOrder(names, events) {
        if ValidRun(Loaded(names), events) && AllDistinct(events) { FaithfulRun(Loaded(names), events); }
      }
    } else {
      var i, j :| 0 <= i < j < |names| && names[i] == names[j];
      EqualNamesSwap(names, i, j);
      assert !KeepsOrder(names, SwappingRun(i, j));
    }
  }
}
