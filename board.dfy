/**
  The occupancy model of the battlefield, on values.

  An `Occupancy` says which unit each on-grid cell refers to (the tiles'
  occupant fields); `Positions` gives each unit of the battle its own
  coordinates.  `Consistent` is the tile<->unit invariant: occupants are units
  of the battle, every unit still present stands on a tile that names it, and
  every tile naming a present unit is the one at that unit's coordinates.
  Move's and Undo's effects on occupancy are functions here, and the
  properties of moving are lemmas about them.
*/
module Board {
  import opened Units
  import opened Grid

  type Occupancy = map<Cell, Character?>
  type Positions = map<Character, Cell>

  function Abs(n: int): int {
    if n < 0 then -n else n
  }

  /** |dx| + |dz|, the range test of attacks and the adjacency test of the planner. */
  function Manhattan(a: Cell, b: Cell): int {
    Abs(a.0 - b.0) + Abs(a.1 - b.1)
  }

  /** The cell does not hold a unit that is still on the battlefield. */
  predicate Free(occ: Occupancy, present: set<Character>, c: Cell)
    requires c in occ
  {
    occ[c] == null || occ[c] !in present
  }

  predicate Consistent(occ: Occupancy, at: Positions, present: set<Character>)
  {
    && present <= at.Keys
    && (forall c | c in occ && occ[c] != null :: occ[c] in at.Keys)
    && (forall c | c in occ && occ[c] != null && occ[c] in present :: at[occ[c]] == c)
    && (forall u | u in present :: at[u] in occ && occ[at[u]] == u)
  }

  /** A successful Move: the owner's old cell (if on the grid) is cleared, then the target names the owner. */
  function MoveOccupancy(occ: Occupancy, owner: Character, from: Cell, to: Cell): Occupancy
  {
    (if from in occ then occ[from := null] else occ)[to := owner]
  }

  /** Undo of a Move: the target (if on the grid) is cleared, then the previous cell (if on the grid) names the owner. */
  function UndoOccupancy(occ: Occupancy, owner: Character, target: Cell, previous: Cell): Occupancy
  {
    var cleared := if target in occ then occ[target := null] else occ;
    if previous in cleared then cleared[previous := owner] else cleared
  }

  /** A map that agrees with `m` on all keys but `c`, where it holds `x`, is `m[c := x]`. */
  lemma MapPointUpdate<K, V>(keys: set<K>, m: map<K, V>, m': map<K, V>, c: K, x: V)
    requires m.Keys == keys && m'.Keys == keys && c in keys
    requires forall k | k in keys && k != c :: m'[k] == m[k]
    requires m'[c] == x
    ensures m' == m[c := x]
  {
  }

  /** Consistency means no two present units share a cell: a tile has at most one occupant. */
  lemma ConsistentPositionsDistinct(occ: Occupancy, at: Positions, present: set<Character>, u: Character, v: Character)
    requires Consistent(occ, at, present)
    requires u in present && v in present && u != v
    ensures at[u] != at[v]
  {
  }

  /** A successful Move preserves the tile<->unit invariant. */
  lemma MovePreservesConsistency(occ: Occupancy, at: Positions, present: set<Character>, owner: Character, to: Cell)
    requires Consistent(occ, at, present)
    requires owner in present && to in occ && Free(occ, present, to)
    ensures Consistent(MoveOccupancy(occ, owner, at[owner], to), at[owner := to], present)
  {
    var from := at[owner];
    var occ' := MoveOccupancy(occ, owner, from, to);
    var at' := at[owner := to];
    forall u | u in present
      ensures at'[u] in occ' && occ'[at'[u]] == u
    {
      if u != owner {
        assert at[u] != to;
        assert at[u] != from;
      }
    }
    forall c | c in occ' && occ'[c] != null && occ'[c] in present
      ensures at'[occ'[c]] == c
    {
      if c != to {
        assert c != from;
        assert occ'[c] == occ[c];
        assert occ[c] != owner;
      }
    }
  }

  /** A unit leaving the battlefield (destroyed) keeps the invariant for the others. */
  lemma RemovalPreservesConsistency(occ: Occupancy, at: Positions, present: set<Character>, remaining: set<Character>)
    requires Consistent(occ, at, present) && remaining <= present
    ensures Consistent(occ, at, remaining)
  {
  }

  /**
    Execute then Undo of a Move built while its owner stood at `previous` restores both
    tiles and the coordinates exactly, provided the target tile was empty.
  */
  lemma MoveUndoRoundTrip(occ: Occupancy, at: Positions, owner: Character, previous: Cell, to: Cell)
    requires owner in at && at[owner] == previous
    requires to in occ && occ[to] == null
    requires previous in occ ==> occ[previous] == owner
    ensures UndoOccupancy(MoveOccupancy(occ, owner, previous, to), owner, to, previous) == occ
    ensures at[owner := to][owner := previous] == at
  {
    assert previous != to;
    var back := UndoOccupancy(MoveOccupancy(occ, owner, previous, to), owner, to, previous);
    assert back.Keys == occ.Keys;
    forall c | c in occ
      ensures back[c] == occ[c]
    {
    }
  }

  /**
    Undo returns the owner to where it stood when the command was built, not to where it
    stood when it executed: after an earlier move to `mid`, Execute (mid -> to) and Undo
    leave `mid` empty and put the owner back on `previous`.
  */
  lemma UndoReturnsToConstructionPosition(occ: Occupancy, at: Positions, owner: Character, previous: Cell, mid: Cell, to: Cell)
    requires owner in at && at[owner] == mid
    requires mid in occ && to in occ && mid != to && mid != previous
    requires previous in occ
    ensures var back := UndoOccupancy(MoveOccupancy(occ, owner, mid, to), owner, to, previous);
            back[mid] == null && back[previous] == owner && back[to] == (if to == previous then owner else null)
    ensures at[owner := to][owner := previous][owner] == previous
  {
  }

  /**
    Undo does not check that its Execute succeeded: when the target was held by another
    present unit (so Execute failed), Undo still clears it, and that unit loses its tile.
  */
  lemma UndoAfterFailedMoveBreaksConsistency(occ: Occupancy, at: Positions, present: set<Character>,
                                             owner: Character, previous: Cell, other: Character)
    requires Consistent(occ, at, present)
    requires other in present && other != owner
    ensures !Consistent(UndoOccupancy(occ, owner, at[other], previous), at[owner := previous], present)
  {
    var to := at[other];
    var back := UndoOccupancy(occ, owner, to, previous);
    assert back[to] != other;
  }

  /** Start-of-battle placements in the order they happen: each unit is put on one cell. */
  type Placement = (Character, Cell)

  /** The tiles after the placements: each names its unit, a later placement on the same cell replacing it. */
  function Place(occ: Occupancy, ps: seq<Placement>): (r: Occupancy)
    ensures r.Keys == occ.Keys + PlacedCells(ps)
  {
    if ps == [] then occ
    else
      var pre := ps[..|ps| - 1];
      assert PlacedCells(ps) == PlacedCells(pre) + {ps[|ps| - 1].1} by {
        assert forall i :: 0 <= i < |pre| ==> pre[i] == ps[i];
      }
      Place(occ, pre)[ps[|ps| - 1].1 := ps[|ps| - 1].0]
  }

  /** Placing units of a set on tiles that name units of that set or nobody keeps it so. */
  lemma {:induction false} PlaceNamesUnits(occ: Occupancy, ps: seq<Placement>, units: set<Character>)
    requires forall c | c in occ && occ[c] != null :: occ[c] in units
    requires PlacedUnits(ps) <= units
    ensures forall c | c in Place(occ, ps) && Place(occ, ps)[c] != null :: Place(occ, ps)[c] in units
    decreases |ps|
  {
    if ps != [] {
      var pre := ps[..|ps| - 1];
      assert ps[|ps| - 1].0 in PlacedUnits(ps);
      assert PlacedUnits(pre) <= PlacedUnits(ps) by {
        forall i | 0 <= i < |pre|
          ensures pre[i].0 in PlacedUnits(ps)
        {
          assert pre[i] == ps[i];
        }
      }
      PlaceNamesUnits(occ, pre, units);
    }
  }

  /** The cells the placements use. */
  function PlacedCells(ps: seq<Placement>): set<Cell>
  {
    set i | 0 <= i < |ps| :: ps[i].1
  }

  /** The coordinates after the placements: each unit's last placement. */
  function PlacedAt(ps: seq<Placement>): (at: Positions)
    ensures at.Keys == PlacedUnits(ps)
  {
    if ps == [] then map[]
    else
      var pre := ps[..|ps| - 1];
      assert PlacedUnits(ps) == PlacedUnits(pre) + {ps[|ps| - 1].0} by {
        assert forall i :: 0 <= i < |pre| ==> pre[i] == ps[i];
      }
      PlacedAt(pre)[ps[|ps| - 1].0 := ps[|ps| - 1].1]
  }

  /** The units the placements name. */
  function PlacedUnits(ps: seq<Placement>): set<Character>
  {
    set i | 0 <= i < |ps| :: ps[i].0
  }

  /** No unit is placed twice. */
  predicate DistinctUnits(ps: seq<Placement>)
  {
    forall i, j :: 0 <= i < j < |ps| ==> ps[i].0 != ps[j].0
  }

  /** Placement i lands on a cell that is Free just before it is made. */
  predicate LandsFreeAt(occ: Occupancy, ps: seq<Placement>, present: set<Character>, i: nat)
    requires i < |ps|
  {
    var before := Place(occ, ps[..i]);
    ps[i].1 in before ==> Free(before, present, ps[i].1)
  }

  predicate LandsFree(occ: Occupancy, ps: seq<Placement>, present: set<Character>)
  {
    forall i | 0 <= i < |ps| :: LandsFreeAt(occ, ps, present, i)
  }

  /**
    On an empty grid, a cell is empty after the placements exactly when none used it, and
    otherwise names the unit of the last placement that used it.
  */
  lemma {:induction false} LastPlacement(occ: Occupancy, ps: seq<Placement>, c: Cell)
    requires c in occ && occ[c] == null
    ensures c in Place(occ, ps)
    ensures Place(occ, ps)[c] == null <==> forall i :: 0 <= i < |ps| ==> ps[i].1 != c
    ensures Place(occ, ps)[c] != null ==>
              exists i :: 0 <= i < |ps| && ps[i] == (Place(occ, ps)[c], c) &&
                forall k :: i < k < |ps| ==> ps[k].1 != c
  {
    if ps != [] {
      var n := |ps|;
      var pre := ps[..n - 1];
      LastPlacement(occ, pre, c);
      var before, r := Place(occ, pre), Place(occ, ps);
      assert r == before[ps[n - 1].1 := ps[n - 1].0];
      if ps[n - 1].1 == c {
        assert ps[n - 1] == (r[c], c);
      } else if before[c] == null {
        forall i | 0 <= i < n
          ensures ps[i].1 != c
        {
          if i < n - 1 {
            assert pre[i] == ps[i];
          }
        }
      } else {
        var i :| 0 <= i < n - 1 && pre[i] == (before[c], c) && forall k :: i < k < n - 1 ==> pre[k].1 != c;
        assert ps[i] == pre[i];
        forall k | i < k < n
          ensures ps[k].1 != c
        {
          if k < n - 1 {
            assert pre[k] == ps[k];
          }
        }
      }
    }
  }

  /** One more placement, of a unit not yet placed, seen on the tiles, the coordinates and the landings. */
  lemma PlaceStep(occ: Occupancy, ps: seq<Placement>, present: set<Character>, u: Character, c: Cell)
    requires DistinctUnits(ps) && u !in PlacedUnits(ps)
    ensures DistinctUnits(ps + [(u, c)])
    ensures Place(occ, ps + [(u, c)]) == Place(occ, ps)[c := u]
    ensures PlacedAt(ps + [(u, c)]) == PlacedAt(ps)[u := c]
    ensures forall i | 0 <= i < |ps| :: LandsFreeAt(occ, ps + [(u, c)], present, i) == LandsFreeAt(occ, ps, present, i)
    ensures LandsFreeAt(occ, ps + [(u, c)], present, |ps|) <==> (c in Place(occ, ps) ==> Free(Place(occ, ps), present, c))
  {
    var ps' := ps + [(u, c)];
    assert ps'[..|ps|] == ps;
    forall i | 0 <= i < |ps|
      ensures LandsFreeAt(occ, ps', present, i) == LandsFreeAt(occ, ps, present, i)
    {
      assert ps'[..i] == ps[..i] && ps'[i] == ps[i];
    }
    forall i, j | 0 <= i < j < |ps'|
      ensures ps'[i].0 != ps'[j].0
    {
      if j == |ps| {
        assert ps[i].0 in PlacedUnits(ps);
      }
    }
  }

  /** The coordinates `at0` with the placed units moved to their placements. */
  function Relocated(at0: Positions, placedAt: Positions): (at: Positions)
    ensures at.Keys == at0.Keys
  {
    map u | u in at0 :: if u in placedAt then placedAt[u] else at0[u]
  }

  /** Once every unit has a placement, the coordinates are exactly the placements. */
  lemma RelocatedAll(at0: Positions, placedAt: Positions)
    requires placedAt.Keys == at0.Keys
    ensures Relocated(at0, placedAt) == placedAt
  {
  }

  /** Placing one more unit moves it and no other. */
  lemma RelocatedStep(at0: Positions, placedAt: Positions, u: Character, c: Cell)
    requires u in at0
    ensures Relocated(at0, placedAt[u := c]) == Relocated(at0, placedAt)[u := c]
  {
    var l, r := Relocated(at0, placedAt[u := c]), Relocated(at0, placedAt)[u := c];
    forall v | v in at0
      ensures l[v] == r[v]
    {
    }
  }

  /**
    The placements `placed` made so far from the empty tiles `occ0` and the coordinates `at0`,
    `tries[i]` being the redraws placement i needed: the tiles `occ` and coordinates `at` are
    their effect, and each placement kept after fewer than ten redraws landed on a free cell.
  */
  predicate Placements(occ0: Occupancy, at0: Positions, present: set<Character>,
                       placed: seq<Placement>, tries: seq<nat>, occ: Occupancy, at: Positions)
  {
    && |tries| == |placed|
    && DistinctUnits(placed)
    && (forall i | 0 <= i < |placed| :: placed[i].0 in at0 && placed[i].1 in occ0 && tries[i] <= 10)
    && (forall i | 0 <= i < |placed| && tries[i] < 10 :: LandsFreeAt(occ0, placed, present, i))
    && occ == Place(occ0, placed)
    && at == Relocated(at0, PlacedAt(placed))
  }

  /** One more placement keeps `Placements`: the unit moves to the cell and the cell names it. */
  lemma PlacementsStep(occ0: Occupancy, at0: Positions, present: set<Character>, placed: seq<Placement>,
                       tries: seq<nat>, occ: Occupancy, at: Positions, u: Character, c: Cell, retries: nat)
    requires Placements(occ0, at0, present, placed, tries, occ, at)
    requires forall d | d in occ0 :: occ0[d] == null
    requires u in at0 && u !in PlacedUnits(placed) && c in occ0 && retries <= 10
    requires retries < 10 ==> occ[c] == null || occ[c] !in present
    ensures Placements(occ0, at0, present, placed + [(u, c)], tries + [retries], occ[c := u], at[u := c])
  {
    PlaceStep(occ0, placed, present, u, c);
    RelocatedStep(at0, PlacedAt(placed), u, c);
    var placed', tries' := placed + [(u, c)], tries + [retries];
    var n := |placed|;
    forall i | 0 <= i < n + 1
      ensures placed'[i].0 in at0 && placed'[i].1 in occ0 && tries'[i] <= 10
      ensures tries'[i] < 10 ==> LandsFreeAt(occ0, placed', present, i)
    {
      if i < n {
        assert placed'[i] == placed[i] && tries'[i] == tries[i];
        if tries[i] < 10 {
          assert LandsFreeAt(occ0, placed, present, i);
        }
      }
    }
  }

  /**
    When every unit has been placed and every placement was kept after fewer than ten redraws,
    the tiles and coordinates satisfy the tile<->unit invariant.
  */
  lemma PlacementsComplete(occ0: Occupancy, at0: Positions, present: set<Character>,
                           placed: seq<Placement>, tries: seq<nat>, occ: Occupancy, at: Positions)
    requires Placements(occ0, at0, present, placed, tries, occ, at)
    requires forall c | c in occ0 :: occ0[c] == null
    requires PlacedUnits(placed) == at0.Keys && present <= at0.Keys
    requires forall i | 0 <= i < |tries| :: tries[i] < 10
    ensures Consistent(occ, at, present)
  {
    forall i | 0 <= i < |placed|
      ensures LandsFreeAt(occ0, placed, present, i)
    {
      assert tries[i] < 10;
    }
    assert LandsFree(occ0, placed, present);
    PlacementsConsistent(occ0, placed, present);
    assert present * PlacedUnits(placed) == present;
    RelocatedAll(at0, PlacedAt(placed));
  }

  /** A unit placed once stands where that placement put it. */
  lemma {:induction false} PlacedAtOf(ps: seq<Placement>, j: nat)
    requires DistinctUnits(ps) && j < |ps|
    ensures PlacedAt(ps)[ps[j].0] == ps[j].1
  {
    var n := |ps|;
    if j < n - 1 {
      var pre := ps[..n - 1];
      assert pre[j] == ps[j];
      PlacedAtOf(pre, j);
    }
  }

  /**
    Placing distinct units one after another on an empty grid establishes the tile<->unit
    invariant, for whichever of them are present, exactly when no placement lands on a cell
    that still holds a present unit.
  */
  lemma PlacementsConsistent(occ: Occupancy, ps: seq<Placement>, present: set<Character>)
    requires forall c | c in occ :: occ[c] == null
    requires forall i :: 0 <= i < |ps| ==> ps[i].1 in occ
    requires DistinctUnits(ps)
    ensures Consistent(Place(occ, ps), PlacedAt(ps), present * PlacedUnits(ps)) <==> LandsFree(occ, ps, present)
  {
    if LandsFree(occ, ps, present) {
      FreeLandingsConsistent(occ, ps, present);
    } else {
      var i :| 0 <= i < |ps| && !LandsFreeAt(occ, ps, present, i);
      var c := ps[i].1;
      var pre := ps[..i];
      assert forall k :: 0 <= k < i ==> pre[k] == ps[k];
      LastPlacement(occ, pre, c);
      var v := Place(occ, pre)[c];
      var j :| 0 <= j < i && pre[j] == (v, c);
      PlacedAtOf(ps, j);
      LastPlacement(occ, ps, c);
      var last :| 0 <= last < |ps| && ps[last] == (Place(occ, ps)[c], c) && forall k :: last < k < |ps| ==> ps[k].1 != c;
      assert ps[j].0 in PlacedUnits(ps);
      assert Place(occ, ps)[PlacedAt(ps)[v]] != v;
    }
  }

  lemma {:induction false} FreeLandingsConsistent(occ: Occupancy, ps: seq<Placement>, present: set<Character>)
    requires forall c | c in occ :: occ[c] == null
    requires forall i :: 0 <= i < |ps| ==> ps[i].1 in occ
    requires DistinctUnits(ps)
    requires LandsFree(occ, ps, present)
    ensures Consistent(Place(occ, ps), PlacedAt(ps), present * PlacedUnits(ps))
  {
    if ps != [] {
      var n := |ps|;
      var pre := ps[..n - 1];
      var (u, c) := ps[n - 1];
      assert forall i :: 0 <= i < n - 1 ==> pre[i] == ps[i];
      forall i | 0 <= i < n - 1
        ensures LandsFreeAt(occ, pre, present, i)
      {
        assert pre[..i] == ps[..i];
        assert LandsFreeAt(occ, ps, present, i);
      }
      assert LandsFreeAt(occ, ps, present, n - 1) && ps[..n - 1] == pre;
      FreeLandingsConsistent(occ, pre, present);
      var occ', at' := Place(occ, pre), PlacedAt(pre);
      assert u !in at'.Keys;
      forall d | d in occ' && occ'[d] != null
        ensures occ'[d] in PlacedUnits(pre)
      {
        LastPlacement(occ, pre, d);
      }
      assert PlacedUnits(ps) == PlacedUnits(pre) + {u};
      ConsistentPlaceStep(occ', at', present * PlacedUnits(pre), present, u, c);
      assert present * PlacedUnits(ps) == present * PlacedUnits(pre) + ({u} * present);
    }
  }

  /** Placing a unit not yet placed on a free cell keeps the invariant, with the unit present if it is. */
  lemma ConsistentPlaceStep(occ: Occupancy, at: Positions, p: set<Character>, present: set<Character>, u: Character, c: Cell)
    requires Consistent(occ, at, p) && p <= present && u !in at && c in occ && Free(occ, present, c)
    ensures Consistent(occ[c := u], at[u := c], p + ({u} * present))
  {
  }
}
