/** Parallel edges of the flow diagram: `pairKey`, `laneBends` and `edgeCurve` of ui/src/diagram/geometry.ts. */
module Lanes {
  import opened Sequences

  datatype Edge = Edge(id: string, from: string, to: string)
  datatype Point = Point(x: real, y: real)

  const LANE_PX := 60.0

  // `a <= b` on strings: by the first differing character, else the shorter first.
  predicate StringLeq(a: string, b: string) {
    if a == [] then true
    else if b == [] then false
    else if a[0] == b[0] then StringLeq(a[1..], b[1..])
    else a[0] < b[0]
  }

  // The order is that of the first character in which the strings differ, or of their lengths.
  lemma {:induction false} StringLeqIsLexicographic(a: string, b: string)
    ensures StringLeq(a, b) <==>
            a <= b || exists i :: 0 <= i < |a| && i < |b| && a[..i] == b[..i] && a[i] < b[i]
  {
    if a != [] && b != [] {
      if a[0] == b[0] {
        StringLeqIsLexicographic(a[1..], b[1..]);
        assert a == [a[0]] + a[1..] && b == [b[0]] + b[1..];
        if i :| 0 <= i < |a[1..]| && i < |b[1..]| && a[1..][..i] == b[1..][..i] && a[1..][i] < b[1..][i] {
          assert a[..i + 1] == [a[0]] + a[1..][..i] && b[..i + 1] == [b[0]] + b[1..][..i];
          assert a[i + 1] < b[i + 1];
        }
        if i :| 0 <= i < |a| && i < |b| && a[..i] == b[..i] && a[i] < b[i] {
          assert i > 0;
          assert a[1..][..i - 1] == a[..i][1..] && b[1..][..i - 1] == b[..i][1..];
          assert a[1..][i - 1] < b[1..][i - 1];
        }
      } else if a[0] < b[0] {
        assert a[..0] == b[..0];
      } else {
        assert forall i :: 0 < i < |a| && i < |b| ==> a[..i][0] != b[..i][0];
      }
    }
  }

  lemma {:induction false} StringOrder(a: string, b: string)
    ensures StringLeq(a, b) || StringLeq(b, a)
    ensures StringLeq(a, b) && StringLeq(b, a) ==> a == b
  {
    if a != [] && b != [] && a[0] == b[0] {
      StringOrder(a[1..], b[1..]);
      assert a == [a[0]] + a[1..] && b == [b[0]] + b[1..];
    }
  }

  // [from, to].sort(); joined with NUL, which no node id contains, it names the unordered pair.
  function PairKey(e: Edge): (string, string) {
    if StringLeq(e.from, e.to) then (e.from, e.to) else (e.to, e.from)
  }

  // Edges share a group exactly when they join the same two nodes, in either direction.
  lemma PairKeyIgnoresDirection(d: Edge, e: Edge)
    ensures PairKey(d) == PairKey(e) <==>
            (d.from == e.from && d.to == e.to) || (d.from == e.to && d.to == e.from)
  {
    StringOrder(d.from, d.to);
    StringOrder(e.from, e.to);
  }

  function Group(edges: seq<Edge>, key: (string, string)): seq<Edge> {
    if edges == [] then []
    else
      var rest, e := Group(edges[..|edges| - 1], key), edges[|edges| - 1];
      if PairKey(e) == key then rest + [e] else rest
  }

  ghost function OfPair(key: (string, string)): Edge -> bool { (e: Edge) => PairKey(e) == key }

  // The edges of a pair stand in the order of the list, so the first has the first lane.
  lemma {:induction false} GroupIsInOrder(edges: seq<Edge>, key: (string, string))
    ensures Group(edges, key) == Filter(edges, OfPair(key))
  {
    if edges != [] {
      GroupIsInOrder(edges[..|edges| - 1], key);
    }
  }

  function Lane(index: nat, size: nat): real {
    (index as real - (size as real - 1.0) / 2.0) * LANE_PX
  }

  // The bend of the edge at an index of its group.
  function Bend(group: seq<Edge>, index: nat): real
    requires index < |group|
  {
    var bend := Lane(index, |group|);
    if StringLeq(group[index].from, group[index].to) || bend == 0.0 then bend else -bend
  }

  // The groups' entries in turn; a later entry of the same id would win.
  function GroupBends(group: seq<Edge>, upTo: nat): map<string, real>
    requires upTo <= |group|
  {
    if upTo == 0 then map[] else GroupBends(group, upTo - 1)[group[upTo - 1].id := Bend(group, upTo - 1)]
  }

  function BendsOf(edges: seq<Edge>, keys: seq<(string, string)>): map<string, real> {
    if keys == [] then map[]
    else
      var group := Group(edges, keys[|keys| - 1]);
      BendsOf(edges, keys[..|keys| - 1]) + GroupBends(group, |group|)
  }

  // The keys in the order their first edges come in.
  function KeysOf(edges: seq<Edge>): seq<(string, string)> {
    if edges == [] then []
    else
      var rest, key := KeysOf(edges[..|edges| - 1]), PairKey(edges[|edges| - 1]);
      if key in rest then rest else rest + [key]
  }

  function LaneBends(edges: seq<Edge>): map<string, real> {
    BendsOf(edges, KeysOf(edges))
  }

  // A cubic curve: M start C first, second, end.
  datatype Curve = Curve(start: Point, first: Point, second: Point, end: Point)

  // `Math.hypot(...) || 1`
  ghost predicate IsLength(from: Point, to: Point, length: real) {
    && 0.0 < length
    && (if from == to then length == 1.0
        else length * length == (to.x - from.x) * (to.x - from.x) + (to.y - from.y) * (to.y - from.y))
  }

  function Normal(from: Point, to: Point, length: real): Point
    requires length != 0.0
  {
    Point(-(to.y - from.y) / length, (to.x - from.x) / length)
  }

  function EdgeCurve(from: Point, to: Point, bend: real, length: real): Curve
    requires length != 0.0
  {
    var normal, dx := Normal(from, to, length), (to.x - from.x) / 2.0;
    Curve(from,
          Point(from.x + dx + normal.x * bend, from.y + normal.y * bend),
          Point(to.x - dx + normal.x * bend, to.y + normal.y * bend),
          to)
  }

  // `mid`, where the edge's label goes.
  function Mid(c: Curve): Point {
    Point((c.start.x + 3.0 * c.first.x + 3.0 * c.second.x + c.end.x) / 8.0,
          (c.start.y + 3.0 * c.first.y + 3.0 * c.second.y + c.end.y) / 8.0)
  }

  // The curve of an edge that has no lane: `edgePath`.
  function EdgePath(from: Point, to: Point): Curve {
    var dx := (to.x - from.x) / 2.0;
    Curve(from, Point(from.x + dx, from.y), Point(to.x - dx, to.y), to)
  }

  // The points a renderer draws for 0 <= t <= 1.
  function Bezier(a: real, b: real, c: real, d: real, t: real): real {
    var u := 1.0 - t;
    u * u * u * a + 3.0 * (u * u * t) * b + 3.0 * (u * t * t) * c + t * t * t * d
  }

  function At(c: Curve, t: real): Point {
    Point(Bezier(c.start.x, c.first.x, c.second.x, c.end.x, t), Bezier(c.start.y, c.first.y, c.second.y, c.end.y, t))
  }

  ghost predicate UniqueIds(edges: seq<Edge>) {
    forall i, j :: 0 <= i < j < |edges| ==> edges[i].id != edges[j].id
  }

  lemma SameIdSameEdge(edges: seq<Edge>, d: Edge, e: Edge)
    requires UniqueIds(edges) && d in edges && e in edges && d.id == e.id
    ensures d == e
  {
    var i :| 0 <= i < |edges| && edges[i] == d;
    var j :| 0 <= j < |edges| && edges[j] == e;
    assert !(i < j) && !(j < i);
  }

  lemma {:induction false} GroupMembers(edges: seq<Edge>, key: (string, string), e: Edge)
    ensures e in Group(edges, key) <==> e in edges && PairKey(e) == key
  {
    if edges != [] {
      GroupMembers(edges[..|edges| - 1], key, e);
      assert edges == edges[..|edges| - 1] + [edges[|edges| - 1]];
    }
  }

  lemma {:induction false} GroupIdsUnique(edges: seq<Edge>, key: (string, string))
    requires UniqueIds(edges)
    ensures UniqueIds(Group(edges, key))
  {
    if edges != [] {
      var front, last := edges[..|edges| - 1], edges[|edges| - 1];
      GroupIdsUnique(front, key);
      var rest := Group(front, key);
      forall i | 0 <= i < |rest| ensures rest[i].id != last.id {
        GroupMembers(front, key, rest[i]);
      }
    }
  }

  lemma {:induction false} KeysMembers(edges: seq<Edge>, e: Edge)
    requires e in edges
    ensures PairKey(e) in KeysOf(edges)
  {
    assert edges == edges[..|edges| - 1] + [edges[|edges| - 1]];
    if e != edges[|edges| - 1] {
      KeysMembers(edges[..|edges| - 1], e);
    }
  }

  lemma {:induction false} GroupBendsAt(group: seq<Edge>, upTo: nat, index: nat)
    requires UniqueIds(group) && index < |group| && upTo <= |group|
    ensures index < upTo ==> group[index].id in GroupBends(group, upTo)
    ensures index < upTo ==> GroupBends(group, upTo)[group[index].id] == Bend(group, index)
  {
    if index < upTo {
      if index < upTo - 1 {
        GroupBendsAt(group, upTo - 1, index);
      }
    }
  }

  lemma {:induction false} GroupBendsIds(group: seq<Edge>, upTo: nat, id: string)
    requires upTo <= |group|
    ensures id in GroupBends(group, upTo) ==> exists e :: e in group && e.id == id
  {
    if upTo != 0 {
      GroupBendsIds(group, upTo - 1, id);
      assert group[upTo - 1] in group;
    }
  }

  lemma {:induction false} BendsOfAt(edges: seq<Edge>, keys: seq<(string, string)>, key: (string, string), index: nat)
    requires UniqueIds(edges) && key in keys && index < |Group(edges, key)|
    ensures var e := Group(edges, key)[index];
            e.id in BendsOf(edges, keys) && BendsOf(edges, keys)[e.id] == Bend(Group(edges, key), index)
  {
    var front, last := keys[..|keys| - 1], keys[|keys| - 1];
    assert keys == front + [last];
    var e, group := Group(edges, key)[index], Group(edges, last);
    GroupIdsUnique(edges, last);
    GroupMembers(edges, key, e);
    if last == key {
      GroupBendsAt(group, |group|, index);
    } else {
      BendsOfAt(edges, front, key, index);
      GroupBendsIds(group, |group|, e.id);
      if e.id in GroupBends(group, |group|) {
        var d :| d in group && d.id == e.id;
        GroupMembers(edges, last, d);
        SameIdSameEdge(edges, d, e);
      }
    }
  }

  // The bend of every edge is its lane, turned round for an edge drawn against the pair's order.
  lemma EveryEdgeHasItsLane(edges: seq<Edge>, key: (string, string), index: nat)
    requires UniqueIds(edges) && index < |Group(edges, key)|
    ensures var e := Group(edges, key)[index];
            e.id in LaneBends(edges) && LaneBends(edges)[e.id] == Bend(Group(edges, key), index)
  {
    var e := Group(edges, key)[index];
    GroupMembers(edges, key, e);
    KeysMembers(edges, e);
    BendsOfAt(edges, KeysOf(edges), key, index);
  }

  lemma OppositeQuotients(x: real, y: real, bend: real, length: real)
    requires length != 0.0 && x == -y
    ensures (x / length) * -bend == (y / length) * bend
  {
    var q := y / length;
    assert x / length == -q;
    assert -q * -bend == q * bend;
  }

  lemma BezierReversed(a: real, b: real, c: real, d: real, t: real)
    ensures Bezier(d, c, b, a, 1.0 - t) == Bezier(a, b, c, d, t)
  {
  }

  function Reversed(c: Curve): Curve { Curve(c.end, c.second, c.first, c.start) }

  lemma ReversedIsTheSameLine(c: Curve, t: real)
    ensures At(Reversed(c), 1.0 - t) == At(c, t)
  {
    BezierReversed(c.start.x, c.first.x, c.second.x, c.end.x, t);
    BezierReversed(c.start.y, c.first.y, c.second.y, c.end.y, t);
  }

  // Turning an edge round turns its normal, so the opposite bend draws the same line backwards.
  lemma ReversedEdgeSameLane(from: Point, to: Point, bend: real, length: real)
    requires length != 0.0
    ensures EdgeCurve(to, from, -bend, length) == Reversed(EdgeCurve(from, to, bend, length))
  {
    OppositeQuotients(-(from.y - to.y), -(to.y - from.y), bend, length);
    OppositeQuotients(from.x - to.x, to.x - from.x, bend, length);
  }

  // The line an edge is drawn on, with positions given for its nodes.
  function Drawn(e: Edge, bend: real, at: string -> Point, length: real): Curve
    requires length != 0.0
  {
    EdgeCurve(at(e.from), at(e.to), bend, length)
  }

  // The curve is another one with both control points moved by the bend along n.
  ghost predicate Bent(plain: Curve, n: Point, bend: real, c: Curve) {
    && c.start == plain.start && c.end == plain.end
    && c.first == Point(plain.first.x + n.x * bend, plain.first.y + n.y * bend)
    && c.second == Point(plain.second.x + n.x * bend, plain.second.y + n.y * bend)
  }

  // Every edge of a pair is drawn along its own lane as seen from the pair's direction, forwards
  // or backwards as it points; between different places the lanes are bent along a unit normal.
  lemma EdgesKeepTheirLanes(edges: seq<Edge>, key: (string, string), index: nat, at: string -> Point, length: real)
    returns (lane: Curve, n: Point)
    requires UniqueIds(edges) && index < |Group(edges, key)| && IsLength(at(key.0), at(key.1), length)
    ensures var e := Group(edges, key)[index];
            && e.id in LaneBends(edges)
            && Drawn(e, LaneBends(edges)[e.id], at, length) == if e.from == key.0 then lane else Reversed(lane)
    ensures var e := Group(edges, key)[index];
            var drawn := Drawn(e, LaneBends(edges)[e.id], at, length);
            forall t :: At(drawn, if e.from == key.0 then t else 1.0 - t) == At(lane, t)
    ensures n == Normal(at(key.0), at(key.1), length)
    ensures Bent(EdgePath(at(key.0), at(key.1)), n, Lane(index, |Group(edges, key)|), lane)
    ensures at(key.0) != at(key.1) ==> IsUnit(n)
  {
    hide Drawn, Bent, At, Reversed, IsUnit, Normal, EdgePath, LaneBends, Group;
    var group := Group(edges, key);
    var e := group[index];
    EveryEdgeHasItsLane(edges, key, index);
    GroupMembers(edges, key, e);
    n := Normal(at(key.0), at(key.1), length);
    lane := DrawnEitherWay(e, Lane(index, |group|), LaneBends(edges)[e.id], at, length);
    var drawn := Drawn(e, LaneBends(edges)[e.id], at, length);
    forall t ensures At(drawn, if e.from == key.0 then t else 1.0 - t) == At(lane, t) {
      ReversedIsTheSameLine(lane, t);
    }
    if at(key.0) != at(key.1) {
      NormalIsUnit(at(key.0), at(key.1), length);
    }
  }

  lemma DrawnEitherWay(e: Edge, bend: real, stored: real, at: string -> Point, length: real) returns (lane: Curve)
    requires length != 0.0 && stored == if StringLeq(e.from, e.to) || bend == 0.0 then bend else -bend
    ensures Drawn(e, stored, at, length) == if e.from == PairKey(e).0 then lane else Reversed(lane)
    ensures var (from, to) := (at(PairKey(e).0), at(PairKey(e).1));
            Bent(EdgePath(from, to), Normal(from, to, length), bend, lane)
  {
    StringOrder(e.from, e.to);
    lane := EdgeCurve(at(PairKey(e).0), at(PairKey(e).1), bend, length);
    if !StringLeq(e.from, e.to) {
      assert bend == 0.0 ==> -bend == bend;
      ReversedEdgeSameLane(at(e.to), at(e.from), bend, length);
    }
  }

  // How far along n a bent curve is from the plain one at t.
  function Shift(t: real, bend: real): real { 3.0 * t * (1.0 - t) * bend }

  lemma BentCoordinate(a: real, b: real, c: real, d: real, n: real, bend: real, t: real)
    ensures Bezier(a, b + n * bend, c + n * bend, d, t) == Bezier(a, b, c, d, t) + Shift(t, bend) * n
  {
  }

  // So the whole line moves along n, by 3t(1-t) of the bend at t.
  lemma BentPoint(plain: Curve, n: Point, bend: real, c: Curve, t: real)
    requires Bent(plain, n, bend, c)
    ensures At(c, t) == Point(At(plain, t).x + Shift(t, bend) * n.x, At(plain, t).y + Shift(t, bend) * n.y)
  {
    BentCoordinate(plain.start.x, plain.first.x, plain.second.x, plain.end.x, n.x, bend, t);
    BentCoordinate(plain.start.y, plain.first.y, plain.second.y, plain.end.y, n.y, bend, t);
  }

  ghost predicate IsUnit(n: Point) { n.x * n.x + n.y * n.y == 1.0 }

  lemma NormalIsUnit(from: Point, to: Point, length: real)
    requires IsLength(from, to, length) && from != to
    ensures IsUnit(Normal(from, to, length))
  {
    var n := Normal(from, to, length);
    TimesLength(-(to.y - from.y), length);
    TimesLength(to.x - from.x, length);
    UnitOf(n.x, n.y, -(to.y - from.y), to.x - from.x, length, length * length);
  }

  // The normal is a quarter turn of the edge, to the side the y axis points to for an edge to the right.
  lemma NormalIsAQuarterTurn(from: Point, to: Point, length: real)
    requires IsLength(from, to, length) && from != to
    ensures var (n, dx, dy) := (Normal(from, to, length), to.x - from.x, to.y - from.y);
            && n.x * dx + n.y * dy == 0.0
            && n.x * length == -dy && n.y * length == dx
  {
    var n, dx, dy := Normal(from, to, length), to.x - from.x, to.y - from.y;
    TimesLength(-dy, length);
    TimesLength(dx, length);
    Perpendicular(n.x, n.y, dx, dy, length);
  }

  lemma Perpendicular(p: real, q: real, x: real, y: real, length: real)
    requires p * length == -y && q * length == x
    ensures p * x + q * y == 0.0
  {
    assert p * x == p * (q * length) && q * y == -(q * (p * length));
  }

  // A plain curve turns half way across: both its control points stand there, level with their ends.
  lemma PathTurnsHalfWay(from: Point, to: Point)
    ensures var c := EdgePath(from, to);
            && c.start == from && c.end == to
            && c.first == Point((from.x + to.x) / 2.0, from.y) && c.second == Point((from.x + to.x) / 2.0, to.y)
  {
  }

  lemma TimesLength(x: real, length: real)
    requires 0.0 < length
    ensures (x / length) * length == x
  {
  }

  lemma UnitOf(p: real, q: real, x: real, y: real, length: real, l: real)
    requires 0.0 < length && p * length == x && q * length == y && l == length * length && l == x * x + y * y
    ensures p * p + q * q == 1.0
  {
    PositiveProduct(length, length, l);
    SquareOfProduct(x, p, length, l);
    SquareOfProduct(y, q, length, l);
    Cancelled(p * p, q * q, x * x, y * y, l);
  }

  lemma PositiveProduct(a: real, b: real, l: real)
    requires 0.0 < a && 0.0 < b && l == a * b
    ensures 0.0 < l
  {
  }

  lemma SquareOfProduct(x: real, q: real, length: real, l: real)
    requires q * length == x && l == length * length
    ensures x * x == (q * q) * l
  {
  }

  lemma Cancelled(p: real, q: real, x: real, y: real, l: real)
    requires 0.0 < l && x == p * l && y == q * l && l == x + y
    ensures p + q == 1.0
  {
    assert (p + q - 1.0) * l == 0.0;
  }

  function DistanceSquared(p: Point, q: Point): real {
    (p.x - q.x) * (p.x - q.x) + (p.y - q.y) * (p.y - q.y)
  }

  lemma AlongUnit(n: Point, p: Point, q: Point, d: real)
    requires IsUnit(n) && p.x - q.x == d * n.x && p.y - q.y == d * n.y
    ensures DistanceSquared(p, q) == d * d
    ensures d != 0.0 ==> p != q
  {
    assert (d * n.x) * (d * n.x) + (d * n.y) * (d * n.y) == (d * d) * (n.x * n.x + n.y * n.y);
    if d != 0.0 {
      SquareIsNotZero(d);
    }
  }

  lemma SquareIsNotZero(d: real)
    requires d != 0.0
    ensures d * d != 0.0
  {
  }

  // How far lane i is from lane j.
  function Apart(i: nat, j: nat): real { (i as real - j as real) * 60.0 }

  lemma BendsDiffer(i: nat, j: nat, size: nat, n: real)
    ensures n * Lane(i, size) - n * Lane(j, size) == Apart(i, j) * n
  {
    var a, b := i as real - (size as real - 1.0) / 2.0, j as real - (size as real - 1.0) / 2.0;
    assert a - b == i as real - j as real;
  }

  lemma BentDifference(plain: Curve, n: Point, p: Curve, q: Curve, i: nat, j: nat, size: nat)
    requires Bent(plain, n, Lane(i, size), p) && Bent(plain, n, Lane(j, size), q)
    ensures p.first.x - q.first.x == p.second.x - q.second.x == Apart(i, j) * n.x
    ensures p.first.y - q.first.y == p.second.y - q.second.y == Apart(i, j) * n.y
  {
    BendsDiffer(i, j, size, n.x);
    BendsDiffer(i, j, size, n.y);
  }

  // A middle moves three quarters of what the control points move.
  lemma MidDifference(p: Curve, q: Curve, x: real, y: real)
    requires p.start == q.start && p.end == q.end
    requires p.first.x - q.first.x == p.second.x - q.second.x == x
    requires p.first.y - q.first.y == p.second.y - q.second.y == y
    ensures Mid(p).x - Mid(q).x == 0.75 * x && Mid(p).y - Mid(q).y == 0.75 * y
  {
  }

  // Two lanes between different places: the control points are 60 apart for every lane from one to
  // the other, the middles 45, so the edges of a pair are drawn at different places.
  lemma LanesAreApart(plain: Curve, n: Point, p: Curve, q: Curve, i: nat, j: nat, size: nat)
    requires Bent(plain, n, Lane(i, size), p) && Bent(plain, n, Lane(j, size), q) && IsUnit(n)
    ensures DistanceSquared(p.first, q.first) == Apart(i, j) * Apart(i, j)
    ensures DistanceSquared(p.second, q.second) == Apart(i, j) * Apart(i, j)
    ensures DistanceSquared(Mid(p), Mid(q)) == (0.75 * Apart(i, j)) * (0.75 * Apart(i, j))
    ensures i != j ==> p.first != q.first && p.second != q.second && Mid(p) != Mid(q)
  {
    var d := Apart(i, j);
    BentDifference(plain, n, p, q, i, j, size);
    MidDifference(p, q, d * n.x, d * n.y);
    Scaled(d, n);
    AlongUnit(n, p.first, q.first, d);
    AlongUnit(n, p.second, q.second, d);
    AlongUnit(n, Mid(p), Mid(q), 0.75 * d);
  }

  // Any two edges of a pair between different places are drawn apart: their middles, where the
  // labels go, are 45 from each other for every lane from one to the other.
  lemma EdgesAreDrawnApart(edges: seq<Edge>, key: (string, string), i: nat, j: nat, at: string -> Point, length: real)
    requires UniqueIds(edges) && i < |Group(edges, key)| && j < |Group(edges, key)|
    requires at(key.0) != at(key.1) && IsLength(at(key.0), at(key.1), length)
    ensures var (d, e) := (Group(edges, key)[i], Group(edges, key)[j]);
            && d.id in LaneBends(edges) && e.id in LaneBends(edges)
            && var (p, q) := (Mid(Drawn(d, LaneBends(edges)[d.id], at, length)),
                              Mid(Drawn(e, LaneBends(edges)[e.id], at, length)));
            && DistanceSquared(p, q) == (45.0 * (i as real - j as real)) * (45.0 * (i as real - j as real))
            && (i != j ==> p != q)
  {
    hide Drawn, Bent, At, Reversed, IsUnit, Normal, EdgePath, LaneBends, Group, Mid, DistanceSquared, Apart;
    var p, n := EdgesKeepTheirLanes(edges, key, i, at, length);
    var q, n' := EdgesKeepTheirLanes(edges, key, j, at, length);
    LanesAreApart(EdgePath(at(key.0), at(key.1)), n, p, q, i, j, |Group(edges, key)|);
    MidReversed(p);
    MidReversed(q);
    FortyFive(i, j);
  }

  lemma FortyFive(i: nat, j: nat)
    ensures 0.75 * Apart(i, j) == 45.0 * (i as real - j as real)
  {
  }

  lemma MidReversed(c: Curve)
    ensures Mid(Reversed(c)) == Mid(c)
  {
  }

  lemma Scaled(d: real, n: Point)
    ensures 0.75 * (d * n.x) == (0.75 * d) * n.x && 0.75 * (d * n.y) == (0.75 * d) * n.y
  {
  }

  function Halfway(p: Point, q: Point): Point { Point((p.x + q.x) / 2.0, (p.y + q.y) / 2.0) }

  // The lanes of a pair lie opposite each other about the plain curve, which is what a lone edge gets.
  lemma LanesAreSymmetric(plain: Curve, n: Point, p: Curve, q: Curve, i: nat, size: nat)
    requires i < size && Bent(plain, n, Lane(i, size), p) && Bent(plain, n, Lane(size - 1 - i, size), q)
    ensures Halfway(p.first, q.first) == plain.first && Halfway(p.second, q.second) == plain.second
    ensures Halfway(Mid(p), Mid(q)) == Mid(plain)
    ensures size == 1 ==> p == plain
  {
    OppositeLanes(i, size);
    OppositeBends(Lane(i, size), Lane(size - 1 - i, size), n.x);
    OppositeBends(Lane(i, size), Lane(size - 1 - i, size), n.y);
    if size == 1 {
      NoBend(plain, n, p);
    }
  }

  lemma OppositeLanes(i: nat, size: nat)
    requires i < size
    ensures Lane(size - 1 - i, size) == -Lane(i, size)
    ensures size == 1 ==> Lane(i, size) == 0.0
  {
  }

  lemma NoBend(plain: Curve, n: Point, c: Curve)
    requires Bent(plain, n, 0.0, c)
    ensures c == plain
  {
  }

  lemma OppositeBends(bend: real, opposite: real, n: real)
    requires opposite == -bend
    ensures n * opposite == -(n * bend)
  {
  }

  // The label's place is on the curve, half way.
  lemma LabelIsOnTheCurve(c: Curve)
    ensures Mid(c) == At(c, 0.5)
  {
  }
}
