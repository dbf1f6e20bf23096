/** First-index argmin and argmax. Every search in the scanner keeps the
    earliest candidate on a tie: the loops replace the best so far only on a
    strict improvement, and numpy's argmin/argmax return the first index. */
module Select {

  /** `i` is the first index at which `s` takes its minimum. */
  ghost predicate IsFirstMin(s: seq<int>, i: int)
  {
    0 <= i < |s| &&
    (forall j :: 0 <= j < |s| ==> s[i] <= s[j]) &&
    (forall j :: 0 <= j < i ==> s[i] < s[j])
  }

  /** The index kept by a left-to-right scan that replaces the best so far
      only when the next value is strictly smaller. */
  function FirstMin(s: seq<int>): (i: nat)
    requires |s| > 0
    ensures i < |s|
    decreases |s|
  {
    if |s| == 1 then 0
    else
      var j := FirstMin(s[..|s| - 1]);
      if s[|s| - 1] < s[j] then |s| - 1 else j
  }

  lemma {:induction false} FirstMinIsFirstMin(s: seq<int>)
    requires |s| > 0
    ensures IsFirstMin(s, FirstMin(s))
    decreases |s|
  {
    if |s| > 1 {
      var p := s[..|s| - 1];
      FirstMinIsFirstMin(p);
      assert forall j :: 0 <= j < |p| ==> p[j] == s[j];
    }
  }

  /** The declarative description pins the scan's index down: both
      directions of "is the first minimum". */
  lemma FirstMinCharacterized(s: seq<int>, i: int)
    requires |s| > 0
    ensures IsFirstMin(s, i) <==> i == FirstMin(s)
  {
    FirstMinIsFirstMin(s);
  }

  function Negated(s: seq<int>): (r: seq<int>)
    ensures |r| == |s| && forall i :: 0 <= i < |s| ==> r[i] == -s[i]
  {
    seq(|s|, i requires 0 <= i < |s| => -s[i])
  }

  /** `i` is the first index at which `s` takes its maximum. */
  ghost predicate IsFirstMax(s: seq<int>, i: int)
  {
    0 <= i < |s| &&
    (forall j :: 0 <= j < |s| ==> s[j] <= s[i]) &&
    (forall j :: 0 <= j < i ==> s[j] < s[i])
  }

  /** numpy's argmax: the first index of the maximum, i.e. the first index
      of the minimum of the negated values. */
  function FirstMax(s: seq<int>): (i: nat)
    requires |s| > 0
    ensures i < |s|
  {
    FirstMin(Negated(s))
  }

  lemma FirstMaxIsFirstMax(s: seq<int>)
    requires |s| > 0
    ensures IsFirstMax(s, FirstMax(s))
  {
    FirstMinIsFirstMin(Negated(s));
  }

  lemma FirstMaxCharacterized(s: seq<int>, i: int)
    requires |s| > 0
    ensures IsFirstMax(s, i) <==> i == FirstMax(s)
  {
    FirstMinCharacterized(Negated(s), i);
    assert IsFirstMax(s, i) <==> IsFirstMin(Negated(s), i);
  }
}
