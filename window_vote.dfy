/**
 * The access point that served the client most often in a window of samples,
 * as `collections.Counter(samples).most_common(1)` picks it: the highest
 * count wins, and among equally frequent ids the one seen first wins, because
 * a `Counter` keeps its keys in first-seen order and the maximum it takes
 * keeps the first of equal elements.
 */
module WindowVote {

  /** How often `x` occurs in the window. */
  function Count(w: seq<string>, x: string): nat
  {
    multiset(w)[x]
  }

  /** Where `x` occurs first in the window. */
  function FirstIndex(w: seq<string>, x: string): (i: nat)
    requires x in w
    ensures i < |w| && w[i] == x && x !in w[..i]
  {
    var p := w[..|w| - 1];
    if x in p then
      var i := FirstIndex(p, x);
      assert w[..i] == p[..i];
      i
    else
      |w| - 1
  }

  /**
   * `x` is what `most_common(1)` reports for the window: it occurs in it, no
   * id occurs more often, and every id that occurs as often was seen later.
   */
  ghost predicate IsMostCommon(w: seq<string>, x: string)
  {
    && x in w
    && forall y :: y in w ==>
         && Count(w, y) <= Count(w, x)
         && (Count(w, y) == Count(w, x) ==> FirstIndex(w, x) <= FirstIndex(w, y))
  }

  /** At most one id of a window is its most common one. */
  lemma MostCommonUnique(w: seq<string>, x: string, y: string)
    requires IsMostCommon(w, x) && IsMostCommon(w, y)
    ensures x == y
  {
    assert FirstIndex(w, x) == FirstIndex(w, y);
  }

  /** The distinct ids of the window in first-seen order: the keys of its `Counter`. */
  function Distinct(w: seq<string>): (d: seq<string>)
    ensures forall x :: x in d <==> x in w
  {
    if w == [] then []
    else
      var p, x := w[..|w| - 1], w[|w| - 1];
      assert w == p + [x];
      var d := Distinct(p);
      if x in d then d else d + [x]
  }

  /** The keys come in the order of their first occurrence in the window. */
  lemma {:induction false} DistinctInFirstSeenOrder(w: seq<string>, i: nat, j: nat)
    requires i < j < |Distinct(w)|
    ensures FirstIndex(w, Distinct(w)[i]) < FirstIndex(w, Distinct(w)[j])
  {
    var p, x := w[..|w| - 1], w[|w| - 1];
    var d := Distinct(p);
    if x in d {
      DistinctInFirstSeenOrder(p, i, j);
    } else if j < |d| {
      DistinctInFirstSeenOrder(p, i, j);
    } else {
      assert Distinct(w)[i] in p;
    }
  }

  /** The first candidate with the highest count: the maximum over the `Counter`'s items. */
  function Leader(w: seq<string>, candidates: seq<string>): string
    requires candidates != []
  {
    if |candidates| == 1 then candidates[0]
    else
      var best := Leader(w, candidates[..|candidates| - 1]);
      var last := candidates[|candidates| - 1];
      if Count(w, last) > Count(w, best) then last else best
  }

  /** The leader stands at some position `k`: nothing counts more, nothing before it counts as much. */
  lemma {:induction false} LeaderIsFirstMaximum(w: seq<string>, candidates: seq<string>) returns (k: nat)
    requires candidates != []
    ensures k < |candidates| && candidates[k] == Leader(w, candidates)
    ensures forall j :: 0 <= j < |candidates| ==> Count(w, candidates[j]) <= Count(w, candidates[k])
    ensures forall j :: 0 <= j < k ==> Count(w, candidates[j]) < Count(w, candidates[k])
  {
    if |candidates| == 1 {
      k := 0;
    } else {
      var p := candidates[..|candidates| - 1];
      k := LeaderIsFirstMaximum(w, p);
      if Count(w, candidates[|candidates| - 1]) > Count(w, Leader(w, p)) {
        k := |candidates| - 1;
      }
    }
  }

  /** Taking one more candidate into account. */
  lemma LeaderStep(w: seq<string>, candidates: seq<string>, j: nat)
    requires 1 <= j < |candidates|
    ensures Leader(w, candidates[..j + 1]) ==
      if Count(w, candidates[j]) > Count(w, Leader(w, candidates[..j])) then candidates[j]
      else Leader(w, candidates[..j])
  {
    assert candidates[..j + 1][..j] == candidates[..j];
  }

  /** The id `most_common(1)` reports for a non-empty window. */
  function Majority(w: seq<string>): (r: string)
    requires w != []
    ensures IsMostCommon(w, r)
  {
    MajorityIsMostCommon(w);
    Leader(w, Distinct(w))
  }

  lemma MajorityIsMostCommon(w: seq<string>)
    requires w != []
    ensures IsMostCommon(w, Leader(w, Distinct(w)))
  {
    var d := Distinct(w);
    assert w[0] in d;
    var k := LeaderIsFirstMaximum(w, d);
    var x := d[k];
    forall y | y in w
      ensures Count(w, y) <= Count(w, x)
      ensures Count(w, y) == Count(w, x) ==> FirstIndex(w, x) <= FirstIndex(w, y)
    {
      var j :| 0 <= j < |d| && d[j] == y;
      if k < j {
        DistinctInFirstSeenOrder(w, k, j);
      }
    }
  }

  /** The `Counter` of a window as a value: each id that occurs, mapped to how often. */
  function Tally(w: seq<string>): map<string, nat>
  {
    if w == [] then map[]
    else
      var m, x := Tally(w[..|w| - 1]), w[|w| - 1];
      m[x := if x in m then m[x] + 1 else 1]
  }

  /** The tally has a key for each id of the window, and its value is that id's count. */
  lemma {:induction false} TallyCounts(w: seq<string>)
    ensures forall x :: x in Tally(w) <==> x in w
    ensures forall x :: x in Tally(w) ==> Tally(w)[x] == Count(w, x)
  {
    if w != [] {
      var p := w[..|w| - 1];
      assert w == p + [w[|w| - 1]];
      TallyCounts(p);
    }
  }

  /**
   * Counts the window into a map in one pass, as building a `Counter` does,
   * and lists its keys in first-seen order.
   */
  method CountWindow(w: seq<string>) returns (counts: map<string, nat>, keys: seq<string>)
    ensures counts == Tally(w) && keys == Distinct(w)
    ensures forall x :: x in counts <==> x in w
    ensures forall x :: x in counts ==> counts[x] == Count(w, x)
  {
    counts, keys := map[], [];
    var i := 0;
    while i < |w|
      invariant 0 <= i <= |w|
      invariant counts == Tally(w[..i]) && keys == Distinct(w[..i])
    {
      var x := w[i];
      assert w[..i + 1][..i] == w[..i];
      TallyCounts(w[..i]);
      if x in counts {
        counts := counts[x := counts[x] + 1];
      } else {
        counts := counts[x := 1];
        keys := keys + [x];
      }
      i := i + 1;
    }
    assert w[..i] == w;
    TallyCounts(w);
  }

  /** Counts the window, then takes the first key with the highest count, as `most_common(1)` does. */
  method MostCommon(w: seq<string>) returns (r: string)
    requires w != []
    ensures IsMostCommon(w, r)
    ensures r == Majority(w)
  {
    var counts, keys := CountWindow(w);
    assert w[0] in keys;
    r := keys[0];
    var best := counts[r];
    var j := 1;
    while j < |keys|
      invariant 1 <= j <= |keys|
      invariant r == Leader(w, keys[..j]) && r in counts && best == counts[r]
    {
      LeaderStep(w, keys, j);
      assert keys[j] in counts;
      if counts[keys[j]] > best {
        r := keys[j];
        best := counts[r];
      }
      j := j + 1;
    }
    assert keys[..j] == keys;
    assert IsMostCommon(w, r) by { assert r == Majority(w); }
  }

  /** A window of A, A, B, A resolves to A; a tied window A, B resolves to A, the one seen first. */
  lemma MajorityExamples()
    ensures Majority(["A", "A", "B", "A"]) == "A"
    ensures Majority(["A", "B"]) == "A"
  {
    var w1 := ["A", "A", "B", "A"];
    assert Count(w1, "A") == 3 && Count(w1, "B") == 1;
    assert IsMostCommon(w1, "A");
    MostCommonUnique(w1, "A", Majority(w1));
    var w2 := ["A", "B"];
    assert w2[..1] == ["A"];
    assert FirstIndex(w2, "A") == 0;
    assert Count(w2, "A") == 1 && Count(w2, "B") == 1;
    assert IsMostCommon(w2, "A");
    MostCommonUnique(w2, "A", Majority(w2));
  }
}
