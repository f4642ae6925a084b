/** Initial instance populations (main.cpp, the generation loops in main):
    the bubble pool, the plants of every plant type and the fish schools of
    every species. Every generator reads rand() through an explicit stream
    and cursor and returns the advanced cursor. */
module Population {
  import opened Vectors
  import opened Random
  import opened SceneConfig
  import opened Instances

  /** rand() calls per initial bubble: x, z, y, speed, scale. */
  const BubbleDraws: nat := 5
  /** rand() calls per plant: x, z, scale, yaw. */
  const PlantDraws: nat := 4
  /** rand() calls per school before its fish: size, centre x, z, y, heading x, y, z. */
  const GroupHeaderDraws: nat := 7
  /** rand() calls per fish: the x, y, z offsets from the school centre. */
  const FishDraws: nat := 3

  // -----------------------------------------------------------------------
  // Bubbles

  /** Where and how the initial bubbles are placed. */
  predicate InitialBubble(b: Bubble) {
    && -FieldSpan / 2.0 <= b.position.x <= FieldSpan / 2.0
    && -FieldSpan / 2.0 <= b.position.z <= FieldSpan / 2.0
    && -14.0 <= b.position.y <= -10.0
    && 0.01 <= b.speed <= 0.11
    && 0.0001 <= b.scale <= 0.0011
  }

  /** One bubble of the initial pool. */
  function SpawnBubble(s: Stream, at: nat): (b: Bubble)
    ensures InitialBubble(b)
  {
    var x := Centered(s, at, FieldSpan);
    var z := Centered(s, at + 1, FieldSpan);
    var y := FloorY - Above(s, at + 2, 0.0, 4.0);
    var speed := Above(s, at + 3, 0.01, 0.1);
    var scale := Above(s, at + 4, 0.0001, 0.001);
    Bubble(Vec3(x, y, z), speed, scale)
  }

  /** The bubble pool: exactly BubbleCount bubbles, five draws each. */
  function GenerateBubbles(s: Stream, at: nat): (r: (seq<Bubble>, nat))
    ensures |r.0| == BubbleCount
    ensures forall b :: b in r.0 ==> InitialBubble(b)
    ensures r.1 == at + BubbleDraws * BubbleCount
  {
    (seq(BubbleCount, i requires 0 <= i < BubbleCount => SpawnBubble(s, at + BubbleDraws * i)),
     at + BubbleDraws * BubbleCount)
  }

  // -----------------------------------------------------------------------
  // Plants

  /** Where a plant of type t stands and how it is scaled and turned. */
  predicate PlantOf(p: PlantInstance, t: PlantType) {
    && -FieldSpan / 2.0 <= p.position.x <= FieldSpan / 2.0
    && -FieldSpan / 2.0 <= p.position.z <= FieldSpan / 2.0
    && p.position.y == FloorY
    && Between(p.scale, t.scaleMin, t.scaleMax)
    && 0.0 <= p.yaw <= PlantYawSpan
  }

  function SpawnPlant(t: PlantType, s: Stream, at: nat): (p: PlantInstance)
    ensures PlantOf(p, t)
  {
    var x := Centered(s, at, FieldSpan);
    var z := Centered(s, at + 1, FieldSpan);
    var scale := Lerp(s, at + 2, t.scaleMin, t.scaleMax);
    var yaw := Above(s, at + 3, 0.0, PlantYawSpan);
    PlantInstance(Vec3(x, FloorY, z), scale, yaw)
  }

  /** The plants of one type: exactly PlantsPerType of them. */
  function GeneratePlantsOfType(t: PlantType, s: Stream, at: nat): (r: (seq<PlantInstance>, nat))
    ensures |r.0| == PlantsPerType
    ensures forall p :: p in r.0 ==> PlantOf(p, t)
    ensures r.1 == at + PlantDraws * PlantsPerType
  {
    (seq(PlantsPerType, i requires 0 <= i < PlantsPerType => SpawnPlant(t, s, at + PlantDraws * i)),
     at + PlantDraws * PlantsPerType)
  }

  /** One list per plant type, PlantsPerType plants each, every plant
      placed as its type prescribes. */
  predicate PlantLists(lists: seq<seq<PlantInstance>>, types: seq<PlantType>) {
    && |lists| == |types|
    && forall k :: 0 <= k < |types| ==>
         |lists[k]| == PlantsPerType && forall p :: p in lists[k] ==> PlantOf(p, types[k])
  }

  /** One list of plants per plant type, types in order. */
  function GeneratePlants(types: seq<PlantType>, s: Stream, at: nat): (r: (seq<seq<PlantInstance>>, nat))
    ensures PlantLists(r.0, types)
    ensures r.1 == at + PlantDraws * PlantsPerType * |types|
    decreases |types|
  {
    if |types| == 0 then ([], at)
    else
      var first := GeneratePlantsOfType(types[0], s, at);
      var rest := GeneratePlants(types[1..], s, first.1);
      ([first.0] + rest.0, rest.1)
  }

  // -----------------------------------------------------------------------
  // Fish

  /** glm::normalize and std::atan2, which the model treats as opaque. */
  datatype Trig = Trig(normalize: Vec3 -> Vec3, atan2: (real, real) -> real)

  /** The heading a school draws before normalisation. */
  function RawHeading(s: Stream, at: nat): (h: Vec3)
    ensures -0.2 <= h.x <= 0.2 && -0.1 <= h.y <= 0.1 && -0.6 <= h.z <= 0.6
  {
    Vec3(Centered(s, at, 0.4), Centered(s, at + 1, 0.2), Above(s, at + 2, -0.6, 1.2))
  }

  /** Number of fish in the school whose size is drawn at `at`. */
  function GroupSize(s: Stream, at: nat): (n: nat)
    ensures GroupMin <= n <= GroupMax
  {
    GroupMin + s(at) % (GroupMax - GroupMin + 1)
  }

  /** Where a fish of a school spawned near the camera may be: within the
      horizontal spawn square around the camera (half-width 50, plus a
      jitter of 3) and at a height between -10 and -2. */
  predicate SpawnedNear(f: FishInstance, cam: Vec3) {
    && cam.x - 53.0 <= f.position.x <= cam.x + 53.0
    && cam.z - 53.0 <= f.position.z <= cam.z + 53.0
    && -10.0 <= f.position.y <= -2.0
  }

  /** All fish of a school share one velocity and one yaw. */
  predicate SharedHeading(g: seq<FishInstance>) {
    forall i, j :: 0 <= i < |g| && 0 <= j < |g| ==>
      g[i].velocity == g[j].velocity && g[i].yaw == g[j].yaw
  }

  /** What every generated school satisfies. */
  predicate School(g: seq<FishInstance>, cam: Vec3) {
    && GroupMin <= |g| <= GroupMax
    && SharedHeading(g)
    && forall f :: f in g ==> SpawnedNear(f, cam) && f.position.y <= MaxFishHeight
  }

  /** One fish: the school centre plus a small jitter, height clamped to
      the swim ceiling, sharing the school's heading and yaw. */
  function SpawnFish(center: Vec3, dir: Vec3, yaw: real, s: Stream, at: nat): (f: FishInstance)
    ensures f.velocity == dir && f.yaw == yaw
    ensures center.x - 3.0 <= f.position.x <= center.x + 3.0
    ensures center.z - 3.0 <= f.position.z <= center.z + 3.0
    ensures f.position.y <= MaxFishHeight
    ensures center.y + 1.0 <= MaxFishHeight ==> center.y - 1.0 <= f.position.y <= center.y + 1.0
  {
    var offset := Vec3(Centered(s, at, 6.0), Centered(s, at + 1, 2.0), Centered(s, at + 2, 6.0));
    var pos := center.Plus(offset);
    var clamped := pos.(y := if pos.y < MaxFishHeight then pos.y else MaxFishHeight);
    FishInstance(clamped, dir, yaw)
  }

  /** One school: its size, centre near the camera and heading are drawn
      first, then every fish's jitter. */
  function SpawnGroup(cam: Vec3, trig: Trig, s: Stream, at: nat): (r: (seq<FishInstance>, nat))
    ensures School(r.0, cam)
    ensures var dir := trig.normalize(RawHeading(s, at + 4));
      forall f :: f in r.0 ==> f.velocity == dir && f.yaw == trig.atan2(dir.x, dir.z)
    ensures r.1 == at + GroupHeaderDraws + FishDraws * |r.0|
  {
    var size := GroupSize(s, at);
    var spawnX := cam.x + Centered(s, at + 1, 100.0);
    var spawnZ := cam.z + Centered(s, at + 2, 100.0);
    var spawnY := Above(s, at + 3, -9.0, 6.0);
    var center := Vec3(spawnX, spawnY, spawnZ);
    var dir := trig.normalize(RawHeading(s, at + 4));
    var yawBase := trig.atan2(dir.x, dir.z);
    var g := seq(size, i requires 0 <= i < size =>
      SpawnFish(center, dir, yawBase, s, at + GroupHeaderDraws + FishDraws * i));
    SchoolAround(g, center, dir, yawBase, cam, s, at + GroupHeaderDraws);
    (g, at + GroupHeaderDraws + FishDraws * size)
  }

  /** Fish jittered around a centre drawn near the camera form a school. */
  lemma SchoolAround(g: seq<FishInstance>, center: Vec3, dir: Vec3, yaw: real, cam: Vec3, s: Stream, base: nat)
    requires GroupMin <= |g| <= GroupMax
    requires cam.x - 50.0 <= center.x <= cam.x + 50.0 && cam.z - 50.0 <= center.z <= cam.z + 50.0
    requires -9.0 <= center.y <= -3.0
    requires forall i :: 0 <= i < |g| ==> g[i] == SpawnFish(center, dir, yaw, s, base + FishDraws * i)
    ensures School(g, cam)
    ensures forall f :: f in g ==> f.velocity == dir && f.yaw == yaw
  {
    forall f | f in g
      ensures SpawnedNear(f, cam) && f.position.y <= MaxFishHeight && f.velocity == dir && f.yaw == yaw
    {
      var i :| 0 <= i < |g| && g[i] == f;
      assert f == SpawnFish(center, dir, yaw, s, base + FishDraws * i);
    }
  }

  /** What the fish list of every species satisfies after generation:
      between 60 * 8 = 480 and 60 * 14 = 840 fish, all spawned near the
      camera and below the swim ceiling. */
  predicate SpeciesList(list: seq<FishInstance>, cam: Vec3) {
    && GroupMin * GroupsPerType <= |list| <= GroupMax * GroupsPerType
    && forall f :: f in list ==> SpawnedNear(f, cam) && f.position.y <= MaxFishHeight
  }

  /** The list is n schools laid end to end: empty when n is 0, otherwise a
      school followed by n - 1 further schools. */
  predicate Schools(list: seq<FishInstance>, n: nat, cam: Vec3)
    decreases |list|
  {
    if list == [] then n == 0
    else n > 0 && exists j :: GroupMin <= j <= |list| && School(list[..j], cam) && Schools(list[j..], n - 1, cam)
  }

  /** The flat fish list of one species after `groups` schools have been
      appended to it, school after school, as the generation loop does. */
  function SpawnGroups(cam: Vec3, trig: Trig, s: Stream, at: nat, groups: nat): (r: (seq<FishInstance>, nat))
    ensures GroupMin * groups <= |r.0| <= GroupMax * groups
    ensures forall f :: f in r.0 ==> SpawnedNear(f, cam) && f.position.y <= MaxFishHeight
    decreases groups
  {
    if groups == 0 then ([], at)
    else
      var first := SpawnGroup(cam, trig, s, at);
      var rest := SpawnGroups(cam, trig, s, first.1, groups - 1);
      Distribute(GroupMin, groups - 1);
      Distribute(GroupMax, groups - 1);
      (first.0 + rest.0, rest.1)
  }

  /** The list `groups` schools make is `groups` schools laid end to end,
      each sharing one velocity and one yaw. */
  lemma {:induction false} GroupsAreSchools(cam: Vec3, trig: Trig, s: Stream, at: nat, groups: nat)
    ensures Schools(SpawnGroups(cam, trig, s, at, groups).0, groups, cam)
    decreases groups
  {
    if groups > 0 {
      var first := SpawnGroup(cam, trig, s, at);
      GroupsAreSchools(cam, trig, s, first.1, groups - 1);
      SchoolsCons(first.0, SpawnGroups(cam, trig, s, first.1, groups - 1).0, groups - 1, cam);
    }
  }

  /** A school in front of n schools makes n + 1 schools. */
  lemma SchoolsCons(first: seq<FishInstance>, rest: seq<FishInstance>, n: nat, cam: Vec3)
    requires School(first, cam) && Schools(rest, n, cam)
    ensures Schools(first + rest, n + 1, cam)
  {
    var l := first + rest;
    assert l[..|first|] == first && l[|first|..] == rest;
  }

  lemma Distribute(k: nat, n: nat)
    ensures k * (n + 1) == k * n + k
  {
  }

  /** The fish list of one species: GroupsPerType schools. */
  function GenerateSpecies(cam: Vec3, trig: Trig, s: Stream, at: nat): (r: (seq<FishInstance>, nat))
    ensures SpeciesList(r.0, cam)
    ensures 480 <= |r.0| <= 840
  {
    SpawnGroups(cam, trig, s, at, GroupsPerType)
  }

  /** One fish list per species, species in order. */
  function GenerateFish(types: seq<FishType>, cam: Vec3, trig: Trig, s: Stream, at: nat)
    : (r: (seq<seq<FishInstance>>, nat))
    ensures |r.0| == |types|
    ensures forall k :: 0 <= k < |types| ==> SpeciesList(r.0[k], cam)
    decreases |types|
  {
    if |types| == 0 then ([], at)
    else
      var first := GenerateSpecies(cam, trig, s, at);
      var rest := GenerateFish(types[1..], cam, trig, s, first.1);
      SpeciesListsCons(first.0, rest.0, cam);
      ([first.0] + rest.0, rest.1)
  }

  lemma SpeciesListsCons(first: seq<FishInstance>, rest: seq<seq<FishInstance>>, cam: Vec3)
    requires SpeciesList(first, cam)
    requires forall k :: 0 <= k < |rest| ==> SpeciesList(rest[k], cam)
    ensures forall k :: 0 <= k < |rest| + 1 ==> SpeciesList(([first] + rest)[k], cam)
  {
    forall k | 0 < k < |rest| + 1
      ensures ([first] + rest)[k] == rest[k - 1]
    {
    }
  }

  /** Every species' list is GroupsPerType schools laid end to end, each
      school sharing one velocity and one yaw. */
  lemma {:induction false} FishListsAreSchools(types: seq<FishType>, cam: Vec3, trig: Trig, s: Stream, at: nat)
    ensures forall k :: 0 <= k < |types| ==> Schools(GenerateFish(types, cam, trig, s, at).0[k], GroupsPerType, cam)
    decreases |types|
  {
    if |types| > 0 {
      var first := GenerateSpecies(cam, trig, s, at);
      var rest := GenerateFish(types[1..], cam, trig, s, first.1).0;
      SpeciesAreSchools(cam, trig, s, at);
      FishListsAreSchools(types[1..], cam, trig, s, first.1);
      SchoolListsCons(first.0, rest, GroupsPerType, cam);
      assert GenerateFish(types, cam, trig, s, at).0 == [first.0] + rest;
    }
  }

  lemma SpeciesAreSchools(cam: Vec3, trig: Trig, s: Stream, at: nat)
    ensures Schools(GenerateSpecies(cam, trig, s, at).0, GroupsPerType, cam)
  {
    GroupsAreSchools(cam, trig, s, at, GroupsPerType);
  }

  lemma SchoolListsCons(first: seq<FishInstance>, rest: seq<seq<FishInstance>>, n: nat, cam: Vec3)
    requires Schools(first, n, cam)
    requires forall k :: 0 <= k < |rest| ==> Schools(rest[k], n, cam)
    ensures forall k :: 0 <= k < |rest| + 1 ==> Schools(([first] + rest)[k], n, cam)
  {
    forall k | 0 < k < |rest| + 1
      ensures ([first] + rest)[k] == rest[k - 1]
    {
    }
  }
}
