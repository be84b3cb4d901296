// The vertical layout of the plots panel, seen as the sequence of plot types
// whose rows it holds, top to bottom.

module RowLayout {

  /** The indices i with lo <= i < hi and flags[i] set, in increasing order. */
  function Selected(flags: seq<bool>, lo: nat, hi: nat): (r: seq<nat>)
    requires hi <= |flags|
    ensures |r| <= if lo <= hi then hi - lo else 0
    decreases hi - lo
  {
    if lo >= hi then [] else (if flags[lo] then [lo] else []) + Selected(flags, lo + 1, hi)
  }

  /** The selection is exactly the flagged indices of the range, each once, in
      increasing order. */
  lemma {:induction false} SelectedExactly(flags: seq<bool>, lo: nat, hi: nat)
    requires hi <= |flags|
    ensures forall k :: 0 <= k < |Selected(flags, lo, hi)| ==>
              lo <= Selected(flags, lo, hi)[k] < hi && flags[Selected(flags, lo, hi)[k]]
    ensures forall j, k :: 0 <= j < k < |Selected(flags, lo, hi)| ==>
              Selected(flags, lo, hi)[j] < Selected(flags, lo, hi)[k]
    ensures forall i :: lo <= i < hi && flags[i] ==> i in Selected(flags, lo, hi)
    decreases hi - lo
  {
    if lo < hi {
      SelectedExactly(flags, lo + 1, hi);
    }
  }

  /** Every index a selection holds lies below its upper end. */
  lemma {:induction false} SelectedBelow(flags: seq<bool>, lo: nat, hi: nat)
    requires hi <= |flags|
    ensures hi !in Selected(flags, lo, hi)
    decreases hi - lo
  {
    if lo < hi {
      SelectedBelow(flags, lo + 1, hi);
    }
  }

  /** No index below a selection's lower end is in it. */
  lemma {:induction false} SelectedAbove(flags: seq<bool>, lo: nat, hi: nat, x: nat)
    requires hi <= |flags| && x < lo
    ensures x !in Selected(flags, lo, hi)
    decreases hi - lo
  {
    if lo < hi {
      SelectedAbove(flags, lo + 1, hi, x);
    }
  }

  /** Cutting the range at mid cuts the selection there. */
  lemma {:induction false} SelectedSplit(flags: seq<bool>, lo: nat, mid: nat, hi: nat)
    requires lo <= mid <= hi <= |flags|
    ensures Selected(flags, lo, hi) == Selected(flags, lo, mid) + Selected(flags, mid, hi)
    decreases mid - lo
  {
    if lo < mid {
      SelectedSplit(flags, lo + 1, mid, hi);
    }
  }

  /** Growing the range by one index appends that index when it is flagged. */
  lemma SelectedSnoc(flags: seq<bool>, lo: nat, hi: nat)
    requires lo <= hi < |flags|
    ensures Selected(flags, lo, hi + 1) == Selected(flags, lo, hi) + (if flags[hi] then [hi] else [])
  {
    SelectedSplit(flags, lo, hi, hi + 1);
  }

  /** A flagged index sits in the whole selection at the position given by the
      number of flagged indices before it. */
  lemma ShownPosition(flags: seq<bool>, t: nat)
    requires t < |flags| && flags[t]
    ensures |Selected(flags, 0, t)| < |Selected(flags, 0, |flags|)|
    ensures Selected(flags, 0, |flags|)[|Selected(flags, 0, t)|] == t
  {
    SelectedSplit(flags, 0, t, |flags|);
  }

  /** Layout->insertLayout(Pos, item): the item goes in front of the item now
      at Pos, and every item from Pos on moves down one place. */
  function InsertAt(s: seq<nat>, i: nat, x: nat): (r: seq<nat>)
    requires i <= |s|
    ensures |r| == |s| + 1 && r[i] == x
    ensures forall k :: 0 <= k < i ==> r[k] == s[k]
    ensures forall k :: i <= k < |s| ==> r[k + 1] == s[k]
  {
    s[..i] + [x] + s[i..]
  }

  /** Layout->removeItem(item): every occurrence of the item leaves the layout,
      the other items keep their order. */
  function RemoveItem(s: seq<nat>, x: nat): (r: seq<nat>)
    ensures |r| <= |s|
    ensures forall y :: y in r <==> y in s && y != x
  {
    if s == [] then []
    else (if s[0] == x then [] else [s[0]]) + RemoveItem(s[1..], x)
  }

  /** Removing an item a layout does not hold changes nothing. */
  lemma {:induction false} RemoveAbsent(s: seq<nat>, x: nat)
    requires x !in s
    ensures RemoveItem(s, x) == s
  {
    if s != [] {
      assert s[0] in s;
      assert forall y :: y in s[1..] ==> y in s;
      RemoveAbsent(s[1..], x);
      assert [s[0]] + s[1..] == s;
    }
  }

  /** Removing the one occurrence of an item splices it out of the layout. */
  lemma {:induction false} RemoveItemAfter(a: seq<nat>, x: nat, b: seq<nat>)
    requires x !in a && x !in b
    ensures RemoveItem(a + [x] + b, x) == a + b
  {
    if a == [] {
      assert a + [x] + b == [x] + b;
      assert ([x] + b)[1..] == b;
      RemoveAbsent(b, x);
    } else {
      assert (a + [x] + b)[1..] == a[1..] + [x] + b;
      assert a[0] in a;
      assert forall y :: y in a[1..] ==> y in a;
      RemoveItemAfter(a[1..], x, b);
      assert [a[0]] + (a[1..] + b) == a + b;
    }
  }

  /** One step of refreshDisplay's walk on the rows of the vertical layout:
      row t, wanted or not (`show`), with or without a layout already. Only
      row t can come or go; a row that gets a layout goes in at `pos`. */
  function RowsAfterStep(rows: seq<nat>, pos: nat, t: nat, show: bool, hasLayout: bool): (r: seq<nat>)
    requires pos <= |rows|
    ensures forall y :: y != t ==> (y in r <==> y in rows)
    ensures show && !hasLayout ==> |r| == |rows| + 1 && r[pos] == t
    ensures !show && hasLayout ==> t !in r
    ensures show == hasLayout ==> r == rows
  {
    if show then (if hasLayout then rows else InsertAt(rows, pos, t))
    else if hasLayout then RemoveItem(rows, t)
    else rows
  }

  /** The walk's invariant: after the first t types the layout holds the
      wanted ones among them, followed by the rows laid out before among the
      rest, and `pos` counts the wanted ones; one more step keeps it. */
  lemma WalkStep(shown: seq<bool>, had: seq<bool>, t: nat, rows: seq<nat>, pos: nat)
    requires |shown| == |had| && t < |shown|
    requires pos == |Selected(shown, 0, t)|
    requires rows == Selected(shown, 0, t) + Selected(had, t, |had|)
    ensures pos <= |rows|
    ensures var next := RowsAfterStep(rows, pos, t, shown[t], had[t]);
            var nextPos := if shown[t] then pos + 1 else pos;
            nextPos == |Selected(shown, 0, t + 1)| &&
            next == Selected(shown, 0, t + 1) + Selected(had, t + 1, |had|)
  {
    var before := Selected(shown, 0, t);
    var after := Selected(had, t + 1, |had|);
    SelectedSnoc(shown, 0, t);
    assert Selected(had, t, |had|) == (if had[t] then [t] else []) + after;
    if shown[t] && !had[t] {
      assert rows[..pos] == before && rows[pos..] == after;
      assert InsertAt(rows, pos, t) == before + [t] + after;
    } else if !shown[t] && had[t] {
      assert rows == before + [t] + after;
      SelectedBelow(shown, 0, t);
      SelectedAbove(had, t + 1, |had|, t);
      RemoveItemAfter(before, t, after);
    }
  }
}
