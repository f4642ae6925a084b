/** The per-frame update of the moving instances (main.cpp, render loop):
    every bubble rises and is respawned once it passes the bubble ceiling;
    every fish swims along its velocity, is held under the swim ceiling and
    is respawned ahead of the camera once it passes the despawn plane.
    Respawns read rand() through the stream and cursor of the frame. */
module Simulation {
  import opened Vectors
  import opened Random
  import opened SceneConfig
  import opened Instances

  /** rand() calls per respawned bubble: x, y, z, speed, scale. */
  const BubbleRespawnDraws: nat := 5
  /** rand() calls per respawned fish: x, y, z. */
  const FishRespawnDraws: nat := 3

  // -----------------------------------------------------------------------
  // Bubbles

  /** The bubble after rising for one frame of length dt. */
  function Risen(b: Bubble, dt: real): (r: Bubble)
    ensures r.position.x == b.position.x && r.position.z == b.position.z
    ensures r.speed == b.speed && r.scale == b.scale
    ensures b.speed >= 0.0 && dt >= 0.0 ==> r.position.y >= b.position.y
  {
    var rise := b.speed * dt * FrameRate;
    assert b.speed >= 0.0 && dt >= 0.0 ==> rise >= 0.0;
    b.(position := b.position.(y := b.position.y + rise))
  }

  /** Where and how a respawned bubble is placed: deeper and faster than
      the initial ones, and with a much wider range of scales. */
  predicate RespawnedBubble(b: Bubble) {
    && -FieldSpan / 2.0 <= b.position.x <= FieldSpan / 2.0
    && -FieldSpan / 2.0 <= b.position.z <= FieldSpan / 2.0
    && -20.0 <= b.position.y <= -10.0
    && 0.1 <= b.speed <= 0.2
    && 0.0001 <= b.scale <= 0.1001
  }

  /** A fresh bubble; the three coordinates are drawn in the order x, y, z. */
  function RespawnBubble(s: Stream, at: nat): (b: Bubble)
    ensures RespawnedBubble(b)
  {
    var x := Centered(s, at, FieldSpan);
    var y := FloorY - Above(s, at + 1, 0.0, 10.0);
    var z := Centered(s, at + 2, FieldSpan);
    var speed := Above(s, at + 3, 0.1, 0.1);
    var scale := Above(s, at + 4, 0.0001, 0.1);
    Bubble(Vec3(x, y, z), speed, scale)
  }

  /** One bubble for one frame: it rises, and is replaced by a fresh one
      exactly when it ends up above the bubble ceiling. */
  function TickBubble(b: Bubble, dt: real, s: Stream, at: nat): (r: (Bubble, nat))
    ensures r.0.position.y <= MaxBubbleHeight
    ensures Risen(b, dt).position.y <= MaxBubbleHeight ==> r.0 == Risen(b, dt) && r.1 == at
    ensures Risen(b, dt).position.y > MaxBubbleHeight ==> RespawnedBubble(r.0) && r.1 == at + BubbleRespawnDraws
  {
    var risen := Risen(b, dt);
    if risen.position.y > MaxBubbleHeight then (RespawnBubble(s, at), at + BubbleRespawnDraws)
    else (risen, at)
  }

  /** What TickBubble may turn b into: b risen, or a respawned bubble. */
  predicate BubbleSuccessor(b: Bubble, b': Bubble, dt: real) {
    && b'.position.y <= MaxBubbleHeight
    && (b' == Risen(b, dt) || RespawnedBubble(b'))
  }

  /** The bubble pool for one frame, bubbles in pool order. */
  function TickBubbles(bs: seq<Bubble>, dt: real, s: Stream, at: nat): (r: (seq<Bubble>, nat))
    ensures |r.0| == |bs|
    ensures forall i :: 0 <= i < |bs| ==> BubbleSuccessor(bs[i], r.0[i], dt)
    ensures at <= r.1 <= at + BubbleRespawnDraws * |bs|
    decreases |bs|
  {
    if |bs| == 0 then ([], at)
    else
      var first := TickBubble(bs[0], dt, s, at);
      var rest := TickBubbles(bs[1..], dt, s, first.1);
      BubbleSuccessorsCons(bs, first.0, rest.0, dt);
      ([first.0] + rest.0, rest.1)
  }

  lemma BubbleSuccessorsCons(bs: seq<Bubble>, first: Bubble, rest: seq<Bubble>, dt: real)
    requires |bs| == |rest| + 1
    requires BubbleSuccessor(bs[0], first, dt)
    requires forall i :: 0 <= i < |rest| ==> BubbleSuccessor(bs[1..][i], rest[i], dt)
    ensures forall i :: 0 <= i < |bs| ==> BubbleSuccessor(bs[i], ([first] + rest)[i], dt)
  {
    forall i | 0 <= i < |bs|
      ensures BubbleSuccessor(bs[i], ([first] + rest)[i], dt)
    {
      if i > 0 {
        assert bs[i] == bs[1..][i - 1];
      }
    }
  }

  /** A bubble that stays below the ceiling keeps rising: with a positive
      speed and frame time it is strictly higher after the frame. */
  lemma BubbleKeepsRising(b: Bubble, dt: real, s: Stream, at: nat)
    requires b.speed > 0.0 && dt > 0.0
    requires Risen(b, dt).position.y <= MaxBubbleHeight
    ensures TickBubble(b, dt, s, at).0.position.y > b.position.y
  {
    assert b.speed * dt > 0.0;
  }

  /** A bubble that passes the ceiling is respawned well below it. */
  lemma SurfacedBubbleSinks(b: Bubble, dt: real, s: Stream, at: nat)
    requires Risen(b, dt).position.y > MaxBubbleHeight
    ensures TickBubble(b, dt, s, at).0.position.y <= FloorY
  {
  }

  // -----------------------------------------------------------------------
  // Fish

  /** How far along its velocity a fish of type t swims in a frame of
      length dt: `fishGlobalSpeed * type.speed * deltaTime * 60`. */
  function Stride(t: FishType, dt: real): real {
    FishGlobalSpeed * t.speed * dt * FrameRate
  }

  /** The position a fish reaches before the ceiling and despawn checks. */
  function Swum(f: FishInstance, t: FishType, dt: real): Vec3 {
    f.position.Plus(f.velocity.Times(Stride(t, dt)))
  }

  /** Where a respawned fish reappears: in a 30-wide band around x = 0,
      between heights -9 and -3, and between 5 and 15 units in front of
      (at smaller z than) the camera. */
  predicate RespawnedNear(p: Vec3, camZ: real) {
    && -SpawnRadiusXZ <= p.x <= SpawnRadiusXZ
    && -9.0 <= p.y <= -3.0
    && camZ - SpawnZOffset - 10.0 <= p.z <= camZ - SpawnZOffset
  }

  /** The swim-ceiling check: a fish above the ceiling is put back on it
      and its vertical velocity is capped at zero, so it stops climbing. */
  function UnderCeiling(p: Vec3, v: Vec3): (r: (Vec3, Vec3))
    ensures r.0.x == p.x && r.0.z == p.z && r.1.x == v.x && r.1.z == v.z
    ensures r.0.y <= MaxFishHeight && r.1.y <= v.y
    ensures p.y <= MaxFishHeight ==> r == (p, v)
    ensures p.y > MaxFishHeight ==> r.0.y == MaxFishHeight && r.1.y <= 0.0
    ensures p.y > MaxFishHeight && v.y >= 0.0 ==> r.1.y == 0.0
  {
    if p.y > MaxFishHeight then
      (p.(y := MaxFishHeight), v.(y := if v.y < 0.0 then v.y else 0.0))
    else (p, v)
  }

  /** The position a despawned fish is redrawn at, coordinates drawn in
      the order x, y, z. */
  function RespawnPosition(camZ: real, s: Stream, at: nat): (p: Vec3)
    ensures RespawnedNear(p, camZ)
  {
    var x := Centered(s, at, 2.0 * SpawnRadiusXZ);
    var y := Above(s, at + 1, -9.0, 6.0);
    var z := camZ - SpawnZOffset - Above(s, at + 2, 0.0, 10.0);
    Vec3(x, y, z)
  }

  /** One fish for one frame. It swims; if it ends up above the swim
      ceiling it is put back on the ceiling and stops climbing; if it ends
      up beyond the despawn plane its position is redrawn in front of the
      camera, keeping its velocity and yaw. */
  function TickFish(f: FishInstance, t: FishType, dt: real, camZ: real, s: Stream, at: nat)
    : (r: (FishInstance, nat))
    ensures r.0.yaw == f.yaw
    ensures r.0.velocity == UnderCeiling(Swum(f, t, dt), f.velocity).1
    ensures r.0.position.y <= MaxFishHeight
    ensures Swum(f, t, dt).z < DespawnZ ==> RespawnedNear(r.0.position, camZ) && r.1 == at + FishRespawnDraws
    ensures Swum(f, t, dt).z >= DespawnZ ==> r.0.position == UnderCeiling(Swum(f, t, dt), f.velocity).0 && r.1 == at
  {
    var settled := UnderCeiling(Swum(f, t, dt), f.velocity);
    if settled.0.z < DespawnZ then
      (FishInstance(RespawnPosition(camZ, s, at), settled.1, f.yaw), at + FishRespawnDraws)
    else
      (FishInstance(settled.0, settled.1, f.yaw), at)
  }

  /** What TickFish may turn f into. */
  predicate FishSuccessor(f: FishInstance, f': FishInstance) {
    && f'.yaw == f.yaw
    && f'.velocity.x == f.velocity.x && f'.velocity.z == f.velocity.z
    && f'.velocity.y <= f.velocity.y
    && f'.position.y <= MaxFishHeight
  }

  /** The fish list of one species for one frame, fish in list order. */
  function TickFishList(list: seq<FishInstance>, t: FishType, dt: real, camZ: real, s: Stream, at: nat)
    : (r: (seq<FishInstance>, nat))
    ensures |r.0| == |list|
    ensures forall i :: 0 <= i < |list| ==> FishSuccessor(list[i], r.0[i])
    ensures at <= r.1 <= at + FishRespawnDraws * |list|
    decreases |list|
  {
    if |list| == 0 then ([], at)
    else
      var first := TickFish(list[0], t, dt, camZ, s, at);
      var rest := TickFishList(list[1..], t, dt, camZ, s, first.1);
      FishSuccessorsCons(list, first.0, rest.0);
      ([first.0] + rest.0, rest.1)
  }

  lemma FishSuccessorsCons(list: seq<FishInstance>, first: FishInstance, rest: seq<FishInstance>)
    requires |list| == |rest| + 1
    requires FishSuccessor(list[0], first)
    requires forall i :: 0 <= i < |rest| ==> FishSuccessor(list[1..][i], rest[i])
    ensures forall i :: 0 <= i < |list| ==> FishSuccessor(list[i], ([first] + rest)[i])
  {
    forall i | 0 <= i < |list|
      ensures FishSuccessor(list[i], ([first] + rest)[i])
    {
      if i > 0 {
        assert list[i] == list[1..][i - 1];
      }
    }
  }

  /** A fish at y = -0.3 climbing with vertical speed 0.2. */
  const ClimbingFish: FishInstance := FishInstance(Vec3(0.0, -0.3, 0.0), Vec3(0.0, 0.2, 0.0), 0.0)
  /** A species of swim speed 1. */
  const UnitSpeedType: FishType := FishType(1.0, 1.0)

  /** In a one-second frame ClimbingFish swims 6 units along its
      velocity, up to y = 0.9. */
  lemma ClimbingFishSwims()
    ensures Swum(ClimbingFish, UnitSpeedType, 1.0) == Vec3(0.0, 0.9, 0.0)
  {
    assert Stride(UnitSpeedType, 1.0) == 6.0;
  }

  /** A fish climbing through the ceiling: ClimbingFish would rise to 0.9
      in a one-second frame; it is put back at -0.5 and its vertical
      velocity is zeroed. */
  lemma CeilingStopsClimb(s: Stream, at: nat)
    ensures var r := TickFish(ClimbingFish, UnitSpeedType, 1.0, 15.0, s, at);
      r.0.position == Vec3(0.0, MaxFishHeight, 0.0) && r.0.velocity == Vec3(0.0, 0.0, 0.0) && r.1 == at
  {
    ClimbingFishSwims();
  }

  /** While the camera is no further than 105 units down the z axis, a
      respawned fish reappears on the near side of the despawn plane. */
  lemma RespawnBeforeDespawnPlane(f: FishInstance, t: FishType, dt: real, camZ: real, s: Stream, at: nat)
    requires camZ >= DespawnZ + SpawnZOffset + 10.0
    requires Swum(f, t, dt).z < DespawnZ
    ensures TickFish(f, t, dt, camZ, s, at).0.position.z >= DespawnZ
  {
  }

  /** Past that point the respawn can land beyond the plane: with the
      camera at z = -110 and rand() returning RAND_MAX, the fish reappears
      at z = -125 and is respawned again on the next frame. */
  lemma RespawnBeyondDespawnPlane(f: FishInstance, t: FishType, dt: real, at: nat)
    requires Swum(f, t, dt).z < DespawnZ
    ensures TickFish(f, t, dt, -110.0, i => RandMax, at).0.position.z == -125.0
  {
    var s: Stream := i => RandMax;
    assert Unit(s, at + 2) == 1.0;
  }
}
