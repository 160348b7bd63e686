/** Questions about selected parts that are answered by one pass over sorted lists. */
module PartQueries {
  import opened PartSelections
  import opened LayoutMessages

  predicate Overlaps(a: Part, b: Part) {
    (a.end > b.begin && a.end <= b.end) || (b.end > a.begin && b.end <= a.end)
  }

  /** Parts overlap exactly when they have a cell in common. */
  lemma OverlapsIff(a: Part, b: Part)
    ensures Overlaps(a, b) <==> Range(a) * Range(b) != {}
  {
    var k := if a.begin < b.begin then b.begin else a.begin;
    if Overlaps(a, b) {
      assert k in Range(a) * Range(b);
    }
  }

  predicate IsBefore(a: Part, b: Part) {
    a.begin < b.begin || (a.begin == b.begin && a.end < b.end)
  }

  /** Some parts from a[i..] and b[j..] overlap. */
  ghost predicate AnyOverlaps(a: seq<Part>, b: seq<Part>, i: nat, j: nat) {
    exists x, y :: i <= x < |a| && j <= y < |b| && Overlaps(a[x], b[y])
  }

  /** A part that lies before another one and does not overlap it overlaps none of the following ones. */
  lemma FirstCanBeLeft(a: seq<Part>, b: seq<Part>, i: nat, j: nat)
    requires Canonical(a) && Canonical(b) && i < |a| && j < |b| && !Overlaps(a[i], b[j])
    ensures IsBefore(a[i], b[j]) ==> (AnyOverlaps(a, b, i, j) <==> AnyOverlaps(a, b, i + 1, j))
    ensures !IsBefore(a[i], b[j]) ==> (AnyOverlaps(a, b, i, j) <==> AnyOverlaps(a, b, i, j + 1))
  {
    if IsBefore(a[i], b[j]) {
      forall y | j <= y < |b| ensures !Overlaps(a[i], b[y]) {
        assert y == j || b[j].end < b[y].begin;
      }
    } else {
      forall x | i <= x < |a| ensures !Overlaps(a[x], b[j]) {
        assert x == i || a[i].end < a[x].begin;
      }
    }
  }

  /** Walks through both lists at once. */
  method MergedAnyOf(a: seq<Part>, b: seq<Part>) returns (any: bool)
    requires Canonical(a) && Canonical(b)
    ensures any <==> AnyOverlaps(a, b, 0, 0)
  {
    hide Overlaps, IsBefore, Canonical;
    var i, j := 0, 0;
    while i < |a| && j < |b|
      invariant i <= |a| && j <= |b|
      invariant AnyOverlaps(a, b, 0, 0) <==> AnyOverlaps(a, b, i, j)
      decreases |a| - i + |b| - j
    {
      if Overlaps(a[i], b[j]) {
        return true;
      }
      FirstCanBeLeft(a, b, i, j);
      if IsBefore(a[i], b[j]) {
        i := i + 1;
      } else {
        j := j + 1;
      }
    }
    return false;
  }

  lemma AnyOverlapsIff(a: seq<Part>, b: seq<Part>)
    ensures AnyOverlaps(a, b, 0, 0) <==> Cells(a) * Cells(b) != {}
  {
    hide Overlaps;
    if x, y :| 0 <= x < |a| && 0 <= y < |b| && Overlaps(a[x], b[y]) {
      OverlapsIff(a[x], b[y]);
      var k :| k in Range(a[x]) && k in Range(b[y]);
      CellsAre(a, k);
      CellsAre(b, k);
      assert k in Cells(a) * Cells(b);
    }
    if k :| k in Cells(a) && k in Cells(b) {
      CellsAre(a, k);
      CellsAre(b, k);
      var x :| 0 <= x < |a| && a[x].begin <= k < a[x].end;
      var y :| 0 <= y < |b| && b[y].begin <= k < b[y].end;
      assert k in Range(a[x]) * Range(b[y]);
      OverlapsIff(a[x], b[y]);
    }
  }

  /** Two selections are disjoint when they have no cell in common. */
  method SelectionsAreDisjoint(a: seq<Part>, b: seq<Part>) returns (disjoint: bool)
    requires Canonical(a) && Canonical(b)
    ensures disjoint <==> Cells(a) * Cells(b) == {}
  {
    hide Cells;
    AnyOverlapsIff(a, b);
    var any := MergedAnyOf(a, b);
    return !any;
  }

  //
  // Display states
  //

  datatype DisplayState = Normal | Colliding | Temporary | ValidState

  /** What is shown of a part: all of it is valid, some of it is, or nothing is. */
  ghost function StatesOfCells(part: Part, valid: set<int>): (DisplayState, DisplayState) {
    if Range(part) <= valid then (ValidState, ValidState)
    else if Range(part) * valid != {} then (ValidState, Normal)
    else (Normal, Normal)
  }

  /** Valid parts do not touch, so a part within the valid cells is within one of the valid parts. */
  lemma FirstOverlapDecides(part: Part, valid: seq<Part>, i: nat)
    requires Canonical(valid) && i < |valid| && Overlaps(part, valid[i])
    ensures StatesOfCells(part, Cells(valid)) ==
      if Inside(part, valid[i]) then (ValidState, ValidState) else (ValidState, Normal)
  {
    OverlapsIff(part, valid[i]);
    var k :| k in Range(part) && k in Range(valid[i]);
    CellsAre(valid, k);
    if Inside(part, valid[i]) {
      forall x | x in Range(part) ensures x in Cells(valid) {
        CellsAre(valid, x);
      }
    } else {
      var x := if part.begin < valid[i].begin then valid[i].begin - 1 else valid[i].end;
      CellsAre(valid, x);
      assert x in Range(part) && x !in Cells(valid);
    }
    assert k in Range(part) * Cells(valid);
  }

  lemma NoOverlapDecides(part: Part, valid: seq<Part>)
    requires forall i :: 0 <= i < |valid| ==> !Overlaps(part, valid[i])
    ensures StatesOfCells(part, Cells(valid)) == (Normal, Normal)
  {
    hide Overlaps;
    forall k | k in Range(part) ensures k !in Cells(valid) {
      CellsAre(valid, k);
      forall i | 0 <= i < |valid| ensures !(valid[i].begin <= k < valid[i].end) {
        OverlapsIff(part, valid[i]);
        assert HasCell(valid[i], k) <==> k in Range(valid[i]);
        assert k in Range(valid[i]) <==> k in Range(part) * Range(valid[i]);
      }
    }
    assert part.begin in Range(part);
  }

  /** The states of a segment part of a wire; returns as soon as one valid part overlaps. */
  method GetDisplayStates(wire: nat, part: Part, valid: seq<Part>) returns (states: (DisplayState, DisplayState))
    requires Canonical(valid)
    ensures states == if wire == TEMPORARY_WIRE then (Temporary, Temporary)
                      else if wire == COLLIDING_WIRE then (Colliding, Colliding)
                      else StatesOfCells(part, Cells(valid))
  {
    hide Cells, StatesOfCells;
    if wire == TEMPORARY_WIRE {
      return (Temporary, Temporary);
    }
    if wire == COLLIDING_WIRE {
      return (Colliding, Colliding);
    }
    for i := 0 to |valid|
      invariant forall j :: 0 <= j < i ==> !Overlaps(part, valid[j])
    {
      if Inside(part, valid[i]) {
        FirstOverlapDecides(part, valid, i);
        return (ValidState, ValidState);
      }
      if Overlaps(part, valid[i]) {
        FirstOverlapDecides(part, valid, i);
        return (ValidState, Normal);
      }
    }
    NoOverlapDecides(part, valid);
    return (Normal, Normal);
  }
}
