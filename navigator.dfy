/**
 * `PancreasCancerReportNavigator` (src/PancreasCancerReport.js): the list of
 * case records handed down by the app and a `currentIndex` state cell that the
 * Previous and Next buttons move cyclically. The navigator is only mounted
 * while the list is non-empty (src/App.js:124-128). When a new file is loaded
 * the list is replaced but the state cell keeps its value.
 */
module ReportNavigator {
  import opened JsValues
  import opened Normalizer

  /** JavaScript's `a % n` on integers: the remainder truncates toward zero,
      so it takes the sign of `a` (Dafny's `%` is never negative). */
  function JsRem(a: int, n: int): (r: int)
    requires n > 0
    ensures a >= 0 ==> 0 <= r < n
    ensures a < 0 ==> -n < r <= 0
  {
    if a >= 0 then a % n else -((-a) % n)
  }

  /** The quotient and remainder are determined by the division equation. */
  lemma ModUnique(a: int, n: int, q: int, r: int)
    requires n > 0 && 0 <= r < n && a == q * n + r
    ensures a % n == r && a / n == q
  {
    var q0, r0 := a / n, a % n;
    assert a == q0 * n + r0;
    var d := q - q0;
    assert d * n == r0 - r;
  }

  lemma ModSmall(a: int, n: int)
    requires 0 <= a < n
    ensures a % n == a
  {
    ModUnique(a, n, 0, a);
  }

  lemma ModShift(a: int, n: int)
    requires n > 0
    ensures (a + n) % n == a % n
  {
    ModUnique(a + n, n, a / n + 1, a % n);
  }

  lemma ModAddLeft(a: int, b: int, n: int)
    requires n > 0
    ensures (a % n + b) % n == (a + b) % n
  {
    var q, r := a / n, a % n;
    var q2, r2 := (r + b) / n, (r + b) % n;
    assert r + b == q2 * n + r2;
    assert a + b == (q + q2) * n + r2;
    ModUnique(a + b, n, q + q2, r2);
  }

  /** On a non-negative left operand the JavaScript remainder is the modulus;
      below zero they differ, which is why Previous adds the length before
      taking the remainder: `(0 - 1) % n` would be `-1`. */
  lemma JsRemAgainstModulus(a: int, n: int)
    requires n > 0
    ensures a >= 0 ==> JsRem(a, n) == a % n
    ensures n > 1 ==> JsRem(-1, n) == -1
  {
    if n > 1 {
      ModSmall(1, n);
    }
  }

  /** `(prevIndex + 1) % jsonData.length` */
  function NextIndex(i: nat, n: nat): int
    requires n > 0
  {
    JsRem(i + 1, n)
  }

  /** `(prevIndex - 1 + jsonData.length) % jsonData.length` */
  function PrevIndex(i: nat, n: nat): int
    requires n > 0
  {
    JsRem(i - 1 + n, n)
  }

  /** Both steps land on a valid index, from any non-negative index, including
      one left out of range by a shorter list; they move it by one, cyclically. */
  lemma StepsStayInRange(i: nat, n: nat)
    requires n > 0
    ensures 0 <= NextIndex(i, n) < n && NextIndex(i, n) == (i + 1) % n
    ensures 0 <= PrevIndex(i, n) < n && PrevIndex(i, n) == (i - 1) % n
  {
    ModShift(i - 1, n);
  }

  /** From a valid index, Previous undoes Next and Next undoes Previous. */
  lemma StepsAreInverse(i: nat, n: nat)
    requires i < n
    ensures PrevIndex(NextIndex(i, n) as nat, n) == i
    ensures NextIndex(PrevIndex(i, n) as nat, n) == i
  {
    StepsStayInRange(i, n);
    var j := NextIndex(i, n);
    if i + 1 == n {
      ModUnique(i + 1, n, 1, 0);
      ModUnique(n - 1, n, 0, n - 1);
    } else {
      ModSmall(i + 1, n);
      ModSmall(i, n);
    }
    StepsStayInRange(j as nat, n);
    var k := PrevIndex(i, n);
    if i == 0 {
      ModUnique(-1, n, -1, n - 1);
      ModUnique(n, n, 1, 0);
    } else {
      ModSmall(i - 1, n);
      ModSmall(i, n);
    }
    StepsStayInRange(k as nat, n);
  }

  /** The index after `k` presses of Next. */
  function NextTimes(i: nat, n: nat, k: nat): nat
    requires n > 0
    decreases k
  {
    if k == 0 then i
    else
      StepsStayInRange(i, n);
      NextTimes(NextIndex(i, n) as nat, n, k - 1)
  }

  /** `k` presses of Next from a valid index advance it by `k`, cyclically; in
      particular `n` presses come back to the start. */
  lemma {:induction false} NextTimesIsShift(i: nat, n: nat, k: nat)
    requires i < n
    ensures NextTimes(i, n, k) == (i + k) % n
    decreases k
  {
    if k == 0 {
      ModSmall(i, n);
    } else {
      StepsStayInRange(i, n);
      var j := NextIndex(i, n) as nat;
      assert NextTimes(i, n, k) == NextTimes(j, n, k - 1);
      NextTimesIsShift(j, n, k - 1);
      assert NextTimes(j, n, k - 1) == (j + (k - 1)) % n;
      assert j == (i + 1) % n;
      ModAddLeft(i + 1, k - 1, n);
      assert ((i + 1) % n + (k - 1)) % n == (i + k) % n;
    }
  }

  /** `Object.keys(v).length` */
  function KeyCount(v: Value): nat {
    match v
    case Obj(m) => |m|
    case Arr(items) => |items|
    case Str(s) => |s|
    case _ => 0
  }

  class Navigator {
    /** `jsonData`, the records the app handed down. */
    var cases: seq<Value>
    /** `currentIndex` */
    var currentIndex: nat

    /** `useState(0)` */
    constructor(data: seq<Value>)
      requires |data| > 0
      ensures cases == data && currentIndex == 0
    {
      cases := data;
      currentIndex := 0;
    }

    /** `handleNext` */
    method HandleNext()
      requires |cases| > 0
      modifies this
      ensures cases == old(cases)
      ensures currentIndex == (old(currentIndex) + 1) % |cases|
      ensures currentIndex < |cases|
    {
      StepsStayInRange(currentIndex, |cases|);
      currentIndex := NextIndex(currentIndex, |cases|);
    }

    /** `handlePrevious` */
    method HandlePrevious()
      requires |cases| > 0
      modifies this
      ensures cases == old(cases)
      ensures currentIndex == (old(currentIndex) - 1) % |cases|
      ensures currentIndex < |cases|
    {
      StepsStayInRange(currentIndex, |cases|);
      currentIndex := PrevIndex(currentIndex, |cases|);
    }

    /** A new upload replaces the records; the index state is kept. */
    method SetData(data: seq<Value>)
      requires |data| > 0
      modifies this
      ensures cases == data && currentIndex == old(currentIndex)
    {
      cases := data;
    }

    /** `isCurrentDataValid`: `jsonData[currentIndex]` is truthy and has at
        least one key. */
    predicate IsCurrentDataValid()
      reads this
    {
      currentIndex < |cases| && Truthy(cases[currentIndex]) && KeyCount(cases[currentIndex]) > 0
    }
  }

  /** Every normalised record has keys, so with a list of normalised records
      the current case is shown exactly when the index is in range. */
  lemma NormalisedCasesAreShown(nav: Navigator)
    requires IsTemplate(CaseTemplate())
    requires forall i :: 0 <= i < |nav.cases| ==> HasShape(nav.cases[i], CaseTemplate())
    ensures nav.IsCurrentDataValid() <==> nav.currentIndex < |nav.cases|
  {
    TextKeyDefault("model");
    if nav.currentIndex < |nav.cases| {
      var r := nav.cases[nav.currentIndex];
      assert "model" in r.fields;
    }
  }
}
