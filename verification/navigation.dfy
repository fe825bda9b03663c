/**
 * `goToNextProblem`: the step to the next problem of the shown list, wrapping
 * around at its end.
 */
module Navigation {
  import opened Wrappers
  import opened Catalog

  /** `view.findIndex(item => item.id === selected)`: the first match, or -1. */
  function IndexOf(view: seq<Problem>, selected: Option<string>): (i: int)
    ensures -1 <= i < |view|
    ensures i == -1 <==> forall k :: 0 <= k < |view| ==> Some(view[k].id) != selected
    ensures 0 <= i ==> Some(view[i].id) == selected && forall k :: 0 <= k < i ==> Some(view[k].id) != selected
  {
    if view == [] then -1
    else if Some(view[0].id) == selected then 0
    else
      var j := IndexOf(view[1..], selected);
      assert forall k :: 1 <= k < |view| ==> view[k] == view[1..][k - 1];
      if j == -1 then -1 else j + 1
  }

  /**
   * The index of the problem to open: none for an empty list, the first when
   * the selected problem is not shown, else the one after it, wrapping around.
   */
  function NextIndex(view: seq<Problem>, selected: Option<string>): (n: Option<nat>)
    ensures n.None? <==> view == []
    ensures n.Some? ==> n.value < |view|
    ensures n.Some? && IndexOf(view, selected) == -1 ==> n.value == 0
    ensures n.Some? && IndexOf(view, selected) == |view| - 1 ==> n.value == 0
    ensures n.Some? && 0 <= IndexOf(view, selected) < |view| - 1 ==> n.value == IndexOf(view, selected) + 1
  {
    if view == [] then None
    else
      var i := IndexOf(view, selected);
      var next := if i == -1 then 0 else (i + 1) % |view|;
      assert 0 <= i < |view| - 1 ==> next == i + 1 by {
        if 0 <= i < |view| - 1 {
          ModUnique(i + 1, |view|, 0, i + 1);
        }
      }
      assert i == |view| - 1 ==> next == 0 by {
        if i == |view| - 1 {
          ModUnique(i + 1, |view|, 1, 0);
        }
      }
      Some(next)
  }

  /**
   * The selection after one step: unchanged for an empty list, the first
   * problem when the selected one is not shown, else the one after the first
   * shown problem with the selected id, wrapping around at the end.
   */
  function NextSelection(view: seq<Problem>, selected: Option<string>): (r: Option<string>)
    ensures view == [] ==> r == selected
    ensures view != [] ==> exists k :: 0 <= k < |view| && r == Some(view[k].id)
    ensures view != [] && IndexOf(view, selected) == -1 ==> r == Some(view[0].id)
    ensures 0 <= IndexOf(view, selected) < |view| - 1 ==> r == Some(view[IndexOf(view, selected) + 1].id)
    ensures view != [] && IndexOf(view, selected) == |view| - 1 ==> r == Some(view[0].id)
  {
    match NextIndex(view, selected)
    case None => selected
    case Some(n) => Some(view[n].id)
  }

  /** The id of the problem after position `j`, wrapping around at the end. */
  function Following(view: seq<Problem>, j: nat): Option<string>
    requires j < |view|
  {
    Some(view[(j + 1) % |view|].id)
  }

  /** In a list without repeated ids, a shown problem is found where it is. */
  lemma IndexOfShown(view: seq<Problem>, j: nat)
    requires UniqueIds(view) && j < |view|
    ensures IndexOf(view, Some(view[j].id)) == j
  {
  }

  /** From the problem at `j` the step goes to the one at `(j + 1) mod |view|`. */
  lemma NextOfShown(view: seq<Problem>, j: nat)
    requires UniqueIds(view) && j < |view|
    ensures NextSelection(view, Some(view[j].id)) == Some(view[(j + 1) % |view|].id)
  {
    IndexOfShown(view, j);
  }

  /** A one-problem list opens that problem again, whatever was selected. */
  lemma SingleProblemReopens(p: Problem, selected: Option<string>)
    ensures NextSelection([p], selected) == Some(p.id)
  {
  }

  lemma MulNonneg(x: int, y: int)
    requires x >= 0 && y >= 0
    ensures x * y >= 0
  {
  }

  /** Euclidean division is unique: a quotient and remainder in range are `/` and `%`. */
  lemma ModUnique(a: int, n: int, q: int, r: int)
    requires n > 0 && 0 <= r < n && a == q * n + r
    ensures a % n == r
  {
    var q0, r0 := a / n, a % n;
    if q0 < q {
      MulNonneg(q - q0 - 1, n);
      assert false;
    } else if q < q0 {
      MulNonneg(q0 - q - 1, n);
      assert false;
    }
  }

  /**
   * `a mod n`, by repeated subtraction. It stands for the `%` of the
   * wrap-around step (`WrapIsMod` proves the two equal) and is used only in
   * proofs, where it is cheaper for the verifier than `%`.
   */
  function Wrap(a: nat, n: nat): (r: nat)
    requires n > 0
    ensures r < n
  {
    if a < n then a else Wrap(a - n, n)
  }

  lemma {:induction false} WrapIsMod(a: nat, n: nat)
    requires n > 0
    ensures Wrap(a, n) == a % n
  {
    if a < n {
      ModUnique(a, n, 0, a);
    } else {
      WrapIsMod(a - n, n);
      ModUnique(a, n, (a - n) / n + 1, (a - n) % n);
    }
  }

  lemma {:induction false} WrapSucc(a: nat, n: nat)
    requires n > 0
    ensures Wrap(Wrap(a, n) + 1, n) == Wrap(a + 1, n)
  {
    if a >= n {
      WrapSucc(a - n, n);
    }
  }

  /** `k` applications of `step`, starting from `x`. */
  function Iterate<T>(step: T -> T, x: T, k: nat): T {
    if k == 0 then x else step(Iterate(step, x, k - 1))
  }

  /** A step that moves each element of `cycle` to the next one, wrapping around, walks the cycle. */
  lemma {:induction false} IterateCycle<T>(step: T -> T, cycle: seq<T>, j: nat, k: nat)
    requires j < |cycle|
    requires forall i :: 0 <= i < |cycle| ==> step(cycle[i]) == cycle[Wrap(i + 1, |cycle|)]
    ensures Iterate(step, cycle[j], k) == cycle[Wrap(j + k, |cycle|)]
  {
    if k == 0 {
    } else {
      IterateCycle(step, cycle, j, k - 1);
      WrapSucc(j + k - 1, |cycle|);
    }
  }

  /** The selection after `k` presses of "next problem" over an unchanged list. */
  function Walk(view: seq<Problem>, selected: Option<string>, k: nat): (r: Option<string>)
    ensures k == 0 ==> r == selected
    ensures view != [] && k > 0 ==> exists i :: 0 <= i < |view| && r == Some(view[i].id)
  {
    Iterate((s: Option<string>) => NextSelection(view, s), selected, k)
  }

  /** `k` steps from the problem at `j` reach the one at `(j + k) mod |view|`. */
  lemma WalkSteps(view: seq<Problem>, j: nat, k: nat)
    requires UniqueIds(view) && j < |view|
    ensures Walk(view, Some(view[j].id), k) == Some(view[Wrap(j + k, |view|)].id)
  {
    var n := |view|;
    var step := (s: Option<string>) => NextSelection(view, s);
    var ids := seq(n, i requires 0 <= i < n => Some(view[i].id));
    forall i | 0 <= i < n ensures step(ids[i]) == ids[Wrap(i + 1, n)] {
      NextOfShown(view, i);
      WrapIsMod(i + 1, n);
    }
    IterateCycle(step, ids, j, k);
  }

  /** Stepping from any shown problem reaches every problem of the list within one round. */
  lemma WalkReachesEach(view: seq<Problem>, j: nat, m: nat)
    requires UniqueIds(view) && j < |view| && m < |view|
    ensures Walk(view, Some(view[j].id), if j <= m then m - j else m + |view| - j) == Some(view[m].id)
  {
    var n := |view|;
    var k := if j <= m then m - j else m + n - j;
    WalkSteps(view, j, k);
    if j <= m {
      assert j + k == m;
    } else {
      assert j + k == m + n;
      assert Wrap(m + n, n) == Wrap(m, n);
    }
  }

  /** After `|view|` steps from a shown problem the selection is back where it started. */
  lemma WalkRoundTrip(view: seq<Problem>, j: nat)
    requires UniqueIds(view) && j < |view|
    ensures Walk(view, Some(view[j].id), |view|) == Some(view[j].id)
  {
    WalkSteps(view, j, |view|);
    assert Wrap(j + |view|, |view|) == Wrap(j, |view|);
  }
}
