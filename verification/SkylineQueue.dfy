/** The skyline queues of the body pass (gear_optimizer/frontier/producer_kernels.py): one per packet family, holding what
    the activations of its sliding window can still contribute. */
module SkylineQueue {

  /** A packet row: body fever, normal Greats shifted by the state, fever Greats. */
  datatype Point = Point(fever: int, normal: int, great: int)

  datatype Queued = Queued(point: Point, activation: int)

  predicate Dominates(x: Point, y: Point) { x.fever >= y.fever && x.normal <= y.normal && x.great <= y.great }

  // ---- A packet's own skyline, in place.

  ghost predicate CoversPoints(kept: seq<Point>, points: seq<Point>) {
    forall p :: p in points ==> exists k :: 0 <= k < |kept| && Dominates(kept[k], p)
  }

  ghost predicate Antichain(kept: seq<Point>) {
    forall i, j :: 0 <= i < |kept| && 0 <= j < |kept| && i != j ==> !Dominates(kept[i], kept[j])
  }

  ghost predicate AllFrom(kept: seq<Point>, points: seq<Point>) { forall p :: p in kept ==> p in points }

  function Undominated(kept: seq<Point>, x: Point): (r: seq<Point>)
    ensures |r| <= |kept| && forall p :: p in r <==> p in kept && !Dominates(x, p)
  {
    if kept == [] then []
    else
      var last := kept[|kept| - 1];
      Undominated(kept[..|kept| - 1], x) + (if Dominates(x, last) then [] else [last])
  }

  ghost predicate Beaten(kept: seq<Point>, x: Point) { exists i :: 0 <= i < |kept| && Dominates(kept[i], x) }

  ghost function Inserted(kept: seq<Point>, x: Point): seq<Point> {
    if Beaten(kept, x) then kept else Undominated(kept, x) + [x]
  }

  /** Inserts a point into the skyline buf[..write]; the rows after `write` stay as they are. */
  method Append(buf: array<Point>, write: nat, x: Point) returns (end: nat)
    requires write < buf.Length
    modifies buf
    ensures end <= write + 1 && buf[..end] == Inserted(old(buf[..write]), x)
    ensures forall j :: write < j < buf.Length ==> buf[j] == old(buf[j])
  {
    hide Dominates, Undominated;
    for i := 0 to write
      invariant forall j :: 0 <= j < i ==> !Dominates(buf[j], x)
    {
      if Dominates(buf[i], x) {
        assert buf[..write][i] == buf[i];
        return write;
      }
    }
    assert !Beaten(buf[..write], x);
    end := DropDominated(buf, write, x);
    ghost var kept := buf[..end];
    buf[end] := x;
    assert buf[..end] == kept;
    end := end + 1;
  }

  /** Compacts out the rows a point dominates. */
  method DropDominated(buf: array<Point>, write: nat, x: Point) returns (out: nat)
    requires write < buf.Length
    modifies buf
    ensures out <= write && buf[..out] == Undominated(old(buf[..write]), x)
    ensures forall j :: write <= j < buf.Length ==> buf[j] == old(buf[j])
  {
    hide Dominates, Undominated;
    ghost var points := buf[..write];
    NoneUndominated(x);
    out := 0;
    for i := 0 to write
      invariant out <= i && buf[..out] == Undominated(points[..i], x)
      invariant forall j :: i <= j < buf.Length ==> buf[j] == old(buf[j])
    {
      UndominatedMore(points, i, x);
      var row := buf[i];
      if !Dominates(x, row) {
        ghost var kept := buf[..out];
        buf[out] := row;
        assert buf[..out] == kept;
        out := out + 1;
      }
    }
    assert points[..write] == points;
  }

  lemma NoneUndominated(x: Point)
    ensures Undominated([], x) == []
  {
  }

  lemma UndominatedMore(points: seq<Point>, k: nat, x: Point)
    requires k < |points|
    ensures Undominated(points[..k + 1], x) == Undominated(points[..k], x) + (if Dominates(x, points[k]) then [] else [points[k]])
  {
    hide Dominates;
    assert points[..k + 1][..k] == points[..k];
  }

  lemma {:induction false} UndominatedAntichain(kept: seq<Point>, x: Point)
    requires Antichain(kept)
    ensures Antichain(Undominated(kept, x))
  {
    if kept != [] {
      var front := kept[..|kept| - 1];
      UndominatedAntichain(front, x);
      var last := kept[|kept| - 1];
      forall p | p in Undominated(front, x) ensures !Dominates(p, last) && !Dominates(last, p) {
        var i :| 0 <= i < |front| && front[i] == p;
        assert !Dominates(kept[i], kept[|kept| - 1]) && !Dominates(kept[|kept| - 1], kept[i]);
      }
    }
  }

  /** One insertion keeps the skyline of the points so far. */
  lemma AppendKeeps(kept: seq<Point>, points: seq<Point>, x: Point)
    requires Antichain(kept) && AllFrom(kept, points) && CoversPoints(kept, points)
    ensures var next := Inserted(kept, x);
            Antichain(next) && AllFrom(next, points + [x]) && CoversPoints(next, points + [x])
  {
    if !Beaten(kept, x) {
      var rest := Undominated(kept, x);
      UndominatedAntichain(kept, x);
      forall p | p in rest ensures !Dominates(p, x) && !Dominates(x, p) {
        var i :| 0 <= i < |kept| && kept[i] == p;
      }
      forall p | p in points + [x] ensures exists k :: 0 <= k < |rest + [x]| && Dominates((rest + [x])[k], p) {
        assert (rest + [x])[|rest|] == x;
        if p in points {
          var i :| 0 <= i < |kept| && Dominates(kept[i], p);
          if !Dominates(x, kept[i]) {
            assert kept[i] in rest;
            var k :| 0 <= k < |rest| && rest[k] == kept[i];
            assert (rest + [x])[k] == kept[i];
          }
        }
      }
    }
  }

  /** Reduces a packet's rows to their Pareto skyline, one row of equal ones. */
  method PacketSkyline(buf: array<Point>, end: nat) returns (kept: nat)
    requires end <= buf.Length
    modifies buf
    ensures kept <= end && Antichain(buf[..kept]) && AllFrom(buf[..kept], old(buf[..end])) && CoversPoints(buf[..kept], old(buf[..end]))
    ensures forall j :: end <= j < buf.Length ==> buf[j] == old(buf[j])
  {
    hide Antichain, AllFrom, CoversPoints, Inserted, Dominates;
    ghost var points := buf[..end];
    kept := 0;
    NoPoints();
    for i := 0 to end
      invariant kept <= i
      invariant Antichain(buf[..kept]) && AllFrom(buf[..kept], points[..i]) && CoversPoints(buf[..kept], points[..i])
      invariant forall j :: i <= j < buf.Length ==> buf[j] == old(buf[j])
    {
      AppendKeeps(buf[..kept], points[..i], buf[i]);
      assert points[..i + 1] == points[..i] + [buf[i]];
      kept := Append(buf, kept, buf[i]);
    }
    assert points[..end] == points;
  }

  lemma NoPoints()
    ensures Antichain([]) && AllFrom([], []) && CoversPoints([], [])
  {
  }
}
