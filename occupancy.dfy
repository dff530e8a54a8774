/** The occupancy set `gridOccupied` and the footprints of grid-bound
    entities. The world-grid invariant: every footprint of a live entity is
    inside the occupancy set and no two footprints share a cell. The set may
    hold more cells than the live footprints (cells the source never frees). */
module Occupancy {
  import opened Geometry
  import opened Entities

  predicate InRect(c: Cell, g: Cell, w: int, h: int) {
    g.0 <= c.0 < g.0 + w && g.1 <= c.1 < g.1 + h
  }

  /** The w x h rectangle of cells whose top-left cell is g. */
  function Area(g: Cell, w: nat, h: nat): (s: set<Cell>)
    ensures forall c :: c in s <==> InRect(c, g, w, h)
  {
    var s := set x, y | g.0 <= x < g.0 + w && g.1 <= y < g.1 + h :: (x, y);
    assert forall c :: InRect(c, g, w, h) ==> c in s by {
      forall c | InRect(c, g, w, h) ensures c in s {
        assert c == (c.0, c.1);
      }
    }
    s
  }

  /** Top-left cell of an entity's footprint, found from its position: its
      position is the centre of the footprint, which lies in the footprint's
      bottom-right cell. */
  function Origin(e: Entity): Cell {
    var a := WorldToGrid(e.x, e.y);
    (a.0 - (Size(e.kind) - 1), a.1 - (Size(e.kind) - 1))
  }

  function Footprint(e: Entity): set<Cell> {
    if NeedsGrid(e.kind) then Area(Origin(e), Size(e.kind), Size(e.kind)) else {}
  }

  /** An entity placed at the centre of the footprint with top-left cell g has
      exactly that footprint. */
  lemma PlacedFootprint(k: Kind, g: Cell, e: Entity)
    requires NeedsGrid(k)
    requires e.kind == k
    requires (e.x, e.y) == FootprintCentre(g, Size(k))
    ensures Origin(e) == g
    ensures Footprint(e) == Area(g, Size(k), Size(k))
  {
    CentreCell(g, Size(k));
  }

  /** The cell `worldToGrid(e.x, e.y)` that the source frees when it removes
      a grid-bound entity lies in that entity's own footprint. */
  lemma AnchorInFootprint(e: Entity)
    requires NeedsGrid(e.kind)
    ensures WorldToGrid(e.x, e.y) in Footprint(e)
  {
  }

  ghost predicate GridOk(es: seq<Entity>, occ: set<Cell>) {
    && (forall i :: 0 <= i < |es| ==> Footprint(es[i]) <= occ)
    && (forall i, j :: 0 <= i < j < |es| ==> Footprint(es[i]) !! Footprint(es[j]))
  }

  /** Spawning onto free cells keeps the invariant. */
  lemma SpawnKeepsGridOk(es: seq<Entity>, occ: set<Cell>, e: Entity)
    requires GridOk(es, occ)
    requires Footprint(e) !! occ
    ensures GridOk(es + [e], occ + Footprint(e))
  {
    var es' := es + [e];
    forall i, j | 0 <= i < j < |es'| ensures Footprint(es'[i]) !! Footprint(es'[j]) {
      if j == |es| {
        assert Footprint(es'[i]) <= occ;
      }
    }
  }

  /** Removing an entity, and freeing at most one cell of its own footprint,
      keeps the invariant: no other live footprint holds that cell. */
  lemma RemoveKeepsGridOk(es: seq<Entity>, occ: set<Cell>, k: nat, freed: set<Cell>)
    requires GridOk(es, occ)
    requires k < |es| && freed <= Footprint(es[k])
    ensures GridOk(RemoveAt(es, k), occ - freed)
  {
    var es' := RemoveAt(es, k);
    forall i | 0 <= i < |es'| ensures Footprint(es'[i]) <= occ - freed {
      var j := if i < k then i else i + 1;
      assert es'[i] == es[j];
      assert Footprint(es[j]) !! Footprint(es[k]) by {
        if j < k { } else { }
      }
    }
    forall i, j | 0 <= i < j < |es'| ensures Footprint(es'[i]) !! Footprint(es'[j]) {
      var i0 := if i < k then i else i + 1;
      var j0 := if j < k then j else j + 1;
      assert es'[i] == es[i0] && es'[j] == es[j0] && i0 < j0;
    }
  }

  /** Removing an entity without freeing anything keeps the invariant. */
  lemma DropKeepsGridOk(es: seq<Entity>, occ: set<Cell>, k: nat)
    requires GridOk(es, occ)
    ensures GridOk(RemoveAt(es, k), occ)
  {
    if k < |es| {
      RemoveKeepsGridOk(es, occ, k, {});
      assert occ - {} == occ;
    }
  }

  /** Replacing an entity by one with the same footprint keeps the invariant. */
  lemma ReplaceKeepsGridOk(es: seq<Entity>, occ: set<Cell>, k: nat, e: Entity)
    requires GridOk(es, occ)
    requires k < |es| && Footprint(e) == Footprint(es[k])
    ensures GridOk(es[k := e], occ)
  {
  }

  /** A larger occupancy set keeps the invariant. */
  lemma GrowKeepsGridOk(es: seq<Entity>, occ: set<Cell>, more: set<Cell>)
    requires GridOk(es, occ)
    ensures GridOk(es, occ + more)
  {
  }

  /** A creature that is not grid-bound may be appended anywhere. */
  lemma AppendFreeKeepsGridOk(es: seq<Entity>, occ: set<Cell>, e: Entity)
    requires GridOk(es, occ)
    requires !NeedsGrid(e.kind)
    ensures GridOk(es + [e], occ)
  {
    SpawnKeepsGridOk(es, occ, e);
    assert occ + Footprint(e) == occ;
  }

  /** A rectangle grows by one column at a time ... */
  lemma AreaAddColumn(g: Cell, dx: nat, h: nat)
    ensures Area(g, dx, h) + Area((g.0 + dx, g.1), 1, h) == Area(g, dx + 1, h)
  {
    var a := Area(g, dx, h) + Area((g.0 + dx, g.1), 1, h);
    assert forall c :: c in a <==> c in Area(g, dx + 1, h);
  }

  /** ... and a column by one cell at a time. */
  lemma AreaAddCell(g: Cell, dy: nat)
    ensures Area(g, 1, dy) + {(g.0, g.1 + dy)} == Area(g, 1, dy + 1)
  {
    var a := Area(g, 1, dy) + {(g.0, g.1 + dy)};
    assert forall c :: c in a <==> c in Area(g, 1, dy + 1);
  }

  /** The result of `spawnEntity(k, x, y)` with an explicit position, as
      (entity array, occupancy set); SpawnedSpec states what it does. */
  function Spawned(es: seq<Entity>, occ: set<Cell>, k: Kind, x: int, y: int): (r: (seq<Entity>, set<Cell>))
  {
    if NeedsGrid(k) then
      var g := WorldToGrid(x, y);
      var size := Size(k);
      if !(Area(g, size, size) !! occ) then (es, occ)
      else
        var p := FootprintCentre(g, size);
        (es + [NewEntity(k, p.0, p.1)], occ + Area(g, size, size))
    else (es + [NewEntity(k, x, y)], occ)
  }

  /** An explicit spawn either changes nothing, or appends exactly one
      entity of kind k, with the life of the hp table, and claims its whole
      footprint, which was free. A grid-bound kind is placed exactly when
      the size x size square whose top-left cell holds (x, y) is free, and
      that square is then its footprint; other kinds are always placed,
      exactly at (x, y), and claim nothing. */
  lemma SpawnedSpec(es: seq<Entity>, occ: set<Cell>, k: Kind, x: int, y: int)
    ensures var r := Spawned(es, occ, k, x, y);
      || r == (es, occ)
      || (&& |r.0| == |es| + 1 && r.0[..|es|] == es
          && r.0[|es|].kind == k && r.0[|es|].life == r.0[|es|].maxLife == InitialLife(k)
          && Footprint(r.0[|es|]) !! occ && r.1 == occ + Footprint(r.0[|es|]))
    ensures var r := Spawned(es, occ, k, x, y);
      NeedsGrid(k) ==>
        var g := WorldToGrid(x, y);
        && (|r.0| > |es| <==> Area(g, Size(k), Size(k)) !! occ)
        && (|r.0| > |es| ==> Footprint(r.0[|es|]) == Area(g, Size(k), Size(k)))
    ensures var r := Spawned(es, occ, k, x, y);
      !NeedsGrid(k) ==> r.0 == es + [NewEntity(k, x, y)] && r.1 == occ
  {
    if NeedsGrid(k) {
      var g := WorldToGrid(x, y);
      var size := Size(k);
      if Area(g, size, size) !! occ {
        var p := FootprintCentre(g, size);
        PlacedFootprint(k, g, NewEntity(k, p.0, p.1));
      }
    }
  }

  /** An explicit spawn keeps the world-grid invariant. */
  lemma SpawnedKeepsGridOk(es: seq<Entity>, occ: set<Cell>, k: Kind, x: int, y: int)
    requires GridOk(es, occ)
    ensures var r := Spawned(es, occ, k, x, y); GridOk(r.0, r.1)
  {
    var r := Spawned(es, occ, k, x, y);
    SpawnedSpec(es, occ, k, x, y);
    if r != (es, occ) {
      SpawnKeepsGridOk(es, occ, r.0[|es|]);
      assert r.0 == es + [r.0[|es|]];
    }
  }
}
