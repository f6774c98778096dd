/**
 Names across stereo links.  Linking two channels collapses their strips into one whose name ends in both numbers, as in
 `AN 1/2`; a name covers another when one is the pair the other is a half of.
*/
module ChannelNames {
  import opened Characters
  import opened PhysicalTable
  import opened Wrappers

  predicate Number(s: string) { s != "" && forall i :: 0 <= i < |s| ==> IsDigit(s[i]) }

  /** Where the digits at the end of a text begin. */
  function DigitsFrom(s: string): (i: nat)
    ensures i <= |s|
    decreases |s|
  {
    if s != "" && IsDigit(s[|s| - 1]) then DigitsFrom(s[..|s| - 1]) else |s|
  }

  datatype Pair = Pair(prefix: string, left: string, right: string)

  /** A name of the form `prefix a/b`, with or without the space. */
  function PairOf(s: string): Option<Pair> {
    var i := DigitsFrom(s);
    if i == |s| || i == 0 || s[i - 1] != '/' then None else
    var j := DigitsFrom(s[..i - 1]);
    if j == i - 1 then None else Some(Pair(Strip(s[..j]), s[j..i - 1], s[i..]))
  }

  /** `half` is one of the channels the pair name `s` stands for. */
  predicate Half(s: string, half: string) {
    var p := PairOf(s);
    p.Some? && (half == p.value.prefix + " " + p.value.left || half == p.value.prefix + " " + p.value.right)
  }

  /** `_names_cover` */
  predicate NamesCover(shown: string, wanted: string) {
    Fold(shown) == Fold(wanted) || Half(Fold(shown), Fold(wanted)) || Half(Fold(wanted), Fold(shown))
  }

  lemma {:induction false} DigitsBehind(x: string, digits: string)
    requires (x != "" ==> !IsDigit(x[|x| - 1])) && forall i :: 0 <= i < |digits| ==> IsDigit(digits[i])
    ensures DigitsFrom(x + digits) == |x|
    decreases |digits|
  {
    if digits == "" {
      assert x + digits == x;
    } else {
      var init := digits[..|digits| - 1];
      assert (x + digits)[..|x + digits| - 1] == x + init;
      DigitsBehind(x, init);
    }
  }

  lemma StripSpace(p: string)
    requires p != "" && Strip(p) == p
    ensures Strip(p + " ") == p
  {
    StripLeftEnds(p);
    StripRightEnds(StripLeft(p));
    StripLeftKeeps(p);
    assert (p + " ")[..|p|] == p;
  }

  lemma {:induction false} StripLeftShrinks(s: string)
    ensures |StripLeft(s)| <= |s|
    decreases |s|
  {
    if s != "" && Space(s[0]) { StripLeftShrinks(s[1..]); }
  }

  lemma StripLeftKeeps(p: string)
    requires p != "" && Strip(p) == p
    ensures !Space(p[0]) && StripLeft(p + " ") == p + " " && StripRight(p) == p
  {
    StripRightEnds(StripLeft(p));
    if Space(p[0]) { StripLeftShrinks(p[1..]); }
  }

  /** Both numbers and the prefix of a pair name are read off it, however many digits they have. */
  lemma PairReads(prefix: string, a: string, b: string)
    requires prefix != "" && Strip(prefix) == prefix && Number(a) && Number(b)
    ensures PairOf(prefix + " " + a + "/" + b) == Some(Pair(prefix, a, b))
  {
    var head := prefix + " ";
    var front := head + a + "/";
    DigitsBehind(front, b);
    var s := front + b;
    assert s[..|front| - 1] == head + a && s[|front|..] == b;
    DigitsBehind(head, a);
    assert s[..|head|] == head && s[|head|..|front| - 1] == a && s[|front| - 1] == '/';
    StripSpace(prefix);
  }

  /** So a pair's name covers both halves, and each half the pair, but for case and surrounding space. */
  lemma PairCoversItsHalves(pair: string, half: string, prefix: string, a: string, b: string)
    requires prefix != "" && Strip(prefix) == prefix && Number(a) && Number(b)
    requires Fold(pair) == prefix + " " + a + "/" + b
    requires Fold(half) == prefix + " " + a || Fold(half) == prefix + " " + b
    ensures NamesCover(pair, half) && NamesCover(half, pair)
  {
    PairReads(prefix, a, b);
  }

  /** A text that ends in two numbers with a slash between, and what stands before them. */
  predicate PairText(pair: string, head: string, a: string, b: string) {
    pair == head + a + "/" + b && Number(a) && Number(b) && (head != "" ==> !IsDigit(head[|head| - 1]))
  }

  /** `half` is the pair's head, without the space around it, and one of its two numbers behind a space. */
  ghost predicate IsHalf(pair: string, half: string) {
    exists head, a, b ::
      PairText(pair, head, a, b) && (half == Strip(head) + " " + a || half == Strip(head) + " " + b)
  }

  lemma {:induction false} DigitsEnd(s: string)
    ensures forall i :: DigitsFrom(s) <= i < |s| ==> IsDigit(s[i])
    ensures DigitsFrom(s) > 0 ==> !IsDigit(s[DigitsFrom(s) - 1])
    decreases |s|
  {
    if s != "" && IsDigit(s[|s| - 1]) { DigitsEnd(s[..|s| - 1]); }
  }

  lemma PairTextReads(pair: string, head: string, a: string, b: string)
    requires PairText(pair, head, a, b)
    ensures PairOf(pair) == Some(Pair(Strip(head), a, b))
  {
    var front := head + a + "/";
    DigitsBehind(front, b);
    DigitsBehind(head, a);
    assert pair[..|front| - 1] == head + a && pair[|front|..] == b;
    assert pair[..|head|] == head && pair[|head|..|front| - 1] == a;
  }

  lemma {:induction false} PairOfText(s: string)
    requires PairOf(s).Some?
    ensures exists head :: PairText(s, head, PairOf(s).value.left, PairOf(s).value.right)
                           && PairOf(s).value.prefix == Strip(head)
  {
    var i := DigitsFrom(s);
    var j := DigitsFrom(s[..i - 1]);
    DigitsEnd(s);
    DigitsEnd(s[..i - 1]);
    assert s == s[..j] + s[j..i - 1] + "/" + s[i..];
    assert PairText(s, s[..j], s[j..i - 1], s[i..]);
  }

  /** Covering in full, refusals included: one name but for case and space, or a pair's name and one of its halves. */
  lemma CoversExactly(shown: string, wanted: string)
    ensures NamesCover(shown, wanted)
       <==> Fold(shown) == Fold(wanted) || IsHalf(Fold(shown), Fold(wanted)) || IsHalf(Fold(wanted), Fold(shown))
  {
    HalfExactly(Fold(shown), Fold(wanted));
    HalfExactly(Fold(wanted), Fold(shown));
  }

  lemma HalfExactly(pair: string, half: string)
    ensures Half(pair, half) <==> IsHalf(pair, half)
  {
    if Half(pair, half) {
      PairOfText(pair);
    } else if IsHalf(pair, half) {
      var head, a, b :| PairText(pair, head, a, b)
                        && (half == Strip(head) + " " + a || half == Strip(head) + " " + b);
      PairTextReads(pair, head, a, b);
    }
  }
}
