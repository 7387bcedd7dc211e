/** Position updates and the "nearby" filter shared by the map view
    (MapView.jsx) and the camera view (CameraView.jsx); both files contain the
    same code, modelled once here. */
module Proximity {
  import opened Common

  /** Distance units moved by one press of a direction button. */
  const MoveAmount: real := 5.0
  /** A station is nearby when strictly closer than this many units. */
  const Threshold: real := 15.0
  /** Acceleration magnitude a motion event must exceed to move the player. */
  const MotionThreshold: real := 15.0
  const MotionSensitivity: real := 2.0
  const OrientationSensitivity: real := 0.8
  const AlphaFactor: real := 0.3

  function Max(a: real, b: real): real { if a >= b then a else b }
  function Min(a: real, b: real): real { if a <= b then a else b }

  /** `Math.max(0, Math.min(100, v))`: the nearest value of [0, 100]. */
  function Clamp(v: real): (r: real)
    ensures 0.0 <= r <= 100.0
    ensures 0.0 <= v <= 100.0 ==> r == v
    ensures v < 0.0 ==> r == 0.0
    ensures v > 100.0 ==> r == 100.0
  {
    Max(0.0, Min(100.0, v))
  }

  /** `handleManualMove`: a 5-unit step on one axis, clamped at the edge it
      moves towards; any other direction leaves the position as it is. */
  function ManualMove(p: Point, direction: string): (r: Point)
    ensures direction != "up" && direction != "down" && direction != "left" && direction != "right" ==> r == p
    ensures direction == "up" || direction == "down" ==> r.x == p.x
    ensures direction == "left" || direction == "right" ==> r.y == p.y
    ensures direction == "up" ==> r.y == (if p.y - MoveAmount >= 0.0 then p.y - MoveAmount else 0.0)
    ensures direction == "down" ==> r.y == (if p.y + MoveAmount <= 100.0 then p.y + MoveAmount else 100.0)
    ensures direction == "left" ==> r.x == (if p.x - MoveAmount >= 0.0 then p.x - MoveAmount else 0.0)
    ensures direction == "right" ==> r.x == (if p.x + MoveAmount <= 100.0 then p.x + MoveAmount else 100.0)
    ensures InBounds(p) ==> InBounds(r)
  {
    if direction == "up" then p.(y := Max(0.0, p.y - MoveAmount))
    else if direction == "down" then p.(y := Min(100.0, p.y + MoveAmount))
    else if direction == "left" then p.(x := Max(0.0, p.x - MoveAmount))
    else if direction == "right" then p.(x := Min(100.0, p.x + MoveAmount))
    else p
  }

  /** A move towards an edge the position already sits on changes nothing. */
  lemma MoveAtEdgeIsNoOp(p: Point)
    requires InBounds(p)
    ensures p.y == 0.0 ==> ManualMove(p, "up") == p
    ensures p.y == 100.0 ==> ManualMove(p, "down") == p
    ensures p.x == 0.0 ==> ManualMove(p, "left") == p
    ensures p.x == 100.0 ==> ManualMove(p, "right") == p
  {
  }

  /** Opposite moves cancel while the position stays a full step from the
      edges they approach. */
  lemma OppositeMovesCancel(p: Point)
    requires 5.0 <= p.x <= 95.0 && 5.0 <= p.y <= 95.0
    ensures ManualMove(ManualMove(p, "up"), "down") == p
    ensures ManualMove(ManualMove(p, "down"), "up") == p
    ensures ManualMove(ManualMove(p, "left"), "right") == p
    ensures ManualMove(ManualMove(p, "right"), "left") == p
  {
  }

  /** `accelerationIncludingGravity`; a missing component reads as 0 (`x || 0`). */
  datatype Accel = Accel(x: Option<real>, y: Option<real>, z: Option<real>)

  function OrZero(v: Option<real>): real {
    match v
    case Some(a) => a
    case None => 0.0
  }

  /** Squared magnitude of the acceleration. */
  function Magnitude2(a: Accel): real {
    OrZero(a.x) * OrZero(a.x) + OrZero(a.y) * OrZero(a.y) + OrZero(a.z) * OrZero(a.z)
  }

  /** The motion handler fires when the acceleration is present and its
      magnitude exceeds 15, i.e. its square exceeds 225. */
  predicate MotionFires(acc: Option<Accel>) {
    acc.Some? && Magnitude2(acc.value) > MotionThreshold * MotionThreshold
  }

  /** Motion handler: a strong enough acceleration moves the position by twice
      the x/y components, clamping both coordinates into the map. */
  function MotionUpdate(p: Point, acc: Option<Accel>): (r: Point)
    ensures !MotionFires(acc) ==> r == p
    ensures MotionFires(acc) ==> InBounds(r)
    ensures MotionFires(acc) ==> r.x == Clamp(p.x + MotionSensitivity * OrZero(acc.value.x))
    ensures MotionFires(acc) ==> r.y == Clamp(p.y + MotionSensitivity * OrZero(acc.value.y))
    ensures MotionFires(acc) && 0.0 <= p.x + MotionSensitivity * OrZero(acc.value.x) <= 100.0 ==>
              r.x == p.x + MotionSensitivity * OrZero(acc.value.x)
    ensures MotionFires(acc) && 0.0 <= p.y + MotionSensitivity * OrZero(acc.value.y) <= 100.0 ==>
              r.y == p.y + MotionSensitivity * OrZero(acc.value.y)
  {
    if MotionFires(acc) then
      Point(Clamp(p.x + OrZero(acc.value.x) * MotionSensitivity),
            Clamp(p.y + OrZero(acc.value.y) * MotionSensitivity))
    else p
  }

  /** Orientation handler: tilt moves the position by 0.8 per degree with
      clamping, and then 0.3 * alpha is added to x after the clamp. */
  function OrientationUpdate(p: Point, alpha: Option<real>, beta: Option<real>, gamma: Option<real>): (r: Point)
    ensures 0.0 <= r.y <= 100.0
    ensures r.y == Clamp(p.y + OrientationSensitivity * OrZero(beta))
    ensures r.x - AlphaFactor * OrZero(alpha) == Clamp(p.x + OrZero(gamma) * OrientationSensitivity)
  {
    Point(Clamp(p.x + OrZero(gamma) * OrientationSensitivity) + OrZero(alpha) * AlphaFactor,
          Clamp(p.y + OrZero(beta) * OrientationSensitivity))
  }

  /** The orientation handler alone can carry x out of the map: from the
      centre, a compass heading of 180 degrees lands at x = 104. */
  lemma OrientationLeavesMap()
    ensures InBounds(Point(50.0, 50.0))
    ensures !InBounds(OrientationUpdate(Point(50.0, 50.0), Some(180.0), None, None))
  {
  }

  // ---------------------------------------------------------------------
  // Nearby filter

  /** Squared Euclidean distance. */
  function SquaredDistance(a: Point, b: Point): real {
    (a.x - b.x) * (a.x - b.x) + (a.y - b.y) * (a.y - b.y)
  }

  /** `distance < 15`, stated on squares so that no square root is needed: a
      station at the position is near, and a near one lies strictly inside
      the 30-by-30 square centred on the position. */
  predicate IsNear(s: Station, p: Point): (r: bool)
    ensures s.position == p ==> r
    ensures r ==> -Threshold < s.position.x - p.x < Threshold && -Threshold < s.position.y - p.y < Threshold
  {
    var dx := s.position.x - p.x;
    var dy := s.position.y - p.y;
    assert dx <= -Threshold || dx >= Threshold ==> dx * dx >= Threshold * Threshold;
    assert dy <= -Threshold || dy >= Threshold ==> dy * dy >= Threshold * Threshold;
    SquaredDistance(s.position, p) < Threshold * Threshold
  }

  /** `a` is an order-preserving subsequence of `b`. */
  predicate IsSubsequence<T(==)>(a: seq<T>, b: seq<T>)
    decreases |b|
  {
    if |a| == 0 then true
    else if |b| == 0 then false
    else if a[0] == b[0] then IsSubsequence(a[1..], b[1..])
    else IsSubsequence(a, b[1..])
  }

  /** `stations.filter(station => distance < 15)`. */
  function Nearby(stations: seq<Station>, p: Point): (r: seq<Station>)
    ensures IsSubsequence(r, stations)
    ensures forall i :: 0 <= i < |r| ==> IsNear(r[i], p)
    ensures forall s :: s in stations && IsNear(s, p) ==> s in r
    ensures forall s :: s in r ==> s in stations
  {
    if |stations| == 0 then []
    else
      var rest := Nearby(stations[1..], p);
      assert forall s :: s in stations ==> s == stations[0] || s in stations[1..];
      if IsNear(stations[0], p) then [stations[0]] + rest else rest
  }

  /** Threshold boundary: a single station is reported iff it is strictly
      closer than 15; one at exactly 15 is left out. */
  lemma NearbySingleton(s: Station, p: Point)
    ensures Nearby([s], p) == [s] <==> SquaredDistance(s.position, p) < 225.0
    ensures Nearby([s], p) == [] <==> SquaredDistance(s.position, p) >= 225.0
    ensures SquaredDistance(s.position, p) == 225.0 ==> Nearby([s], p) == []
  {
    assert [s][1..] == [];
  }

  /** When every station is near, the filter keeps them all; when none is, it
      keeps nothing. */
  lemma {:induction false} NearbyAllOrNone(stations: seq<Station>, p: Point)
    ensures (forall i :: 0 <= i < |stations| ==> IsNear(stations[i], p)) ==> Nearby(stations, p) == stations
    ensures (forall i :: 0 <= i < |stations| ==> !IsNear(stations[i], p)) ==> Nearby(stations, p) == []
  {
    if |stations| > 0 {
      NearbyAllOrNone(stations[1..], p);
      assert forall i :: 1 <= i < |stations| ==> stations[1..][i - 1] == stations[i];
      assert [stations[0]] + stations[1..] == stations;
    }
  }

  /** Filtering a concatenation filters each part. */
  lemma {:induction false} NearbyAppend(a: seq<Station>, b: seq<Station>, p: Point)
    ensures Nearby(a + b, p) == Nearby(a, p) + Nearby(b, p)
  {
    if |a| > 0 {
      assert (a + b)[1..] == a[1..] + b;
      NearbyAppend(a[1..], b, p);
    } else {
      assert a + b == b;
    }
  }
}
