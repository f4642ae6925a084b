/** The whole simulated scene (main.cpp, main): start-up generation of the
    instance populations and the camera, the frame tick that advances them,
    and the invariant every frame preserves. Rendering is not modelled; what
    is left is the state the render loop reads and writes. */
module Scene {
  import opened Vectors
  import opened Random
  import opened SceneConfig
  import opened Instances
  import opened Population
  import opened Simulation
  import opened Camera

  /** Window size the camera is created with. */
  const ScreenWidth: int := 1280
  const ScreenHeight: int := 720
  /** Where the camera starts. */
  const CameraStart: Vec3 := Vec3(0.0, 8.0, 15.0)

  /** The instance populations: the bubble pool, one plant list per plant
      type and one fish list per species. */
  datatype Populations = Populations(
    bubbles: seq<Bubble>,
    plants: seq<seq<PlantInstance>>,
    fish: seq<seq<FishInstance>>)

  /** Everything a frame reads and writes, including how many rand() values
      of the running stream have been consumed. */
  datatype World = World(scene: Populations, camera: CameraState, cursor: nat)

  /** The opaque math the scene depends on: normalisation and atan2 for
      school headings, the right vector of the camera, and the view
      direction computed from yaw and pitch. */
  datatype Maths = Maths(trig: Trig, strafe: (Vec3, Vec3) -> Vec3, front: (real, real) -> Vec3)

  /** The invariant of the running scene: population sizes are those of
      start-up, no bubble is above the bubble ceiling, no fish is above the
      swim ceiling and the camera pitch is within its limits. */
  predicate Valid(w: World) {
    && |w.scene.bubbles| == BubbleCount
    && (forall b :: b in w.scene.bubbles ==> b.position.y <= MaxBubbleHeight)
    && |w.scene.plants| == |PlantTypes|
    && (forall k :: 0 <= k < |PlantTypes| ==> |w.scene.plants[k]| == PlantsPerType)
    && |w.scene.fish| == |FishTypes|
    && (forall k :: 0 <= k < |FishTypes| ==> FishCeiling(w.scene.fish[k]))
    && PitchInRange(w.camera)
  }

  predicate FishCeiling(list: seq<FishInstance>) {
    forall f :: f in list ==> f.position.y <= MaxFishHeight
  }

  // -----------------------------------------------------------------------
  // Start-up

  /** The state before the first frame. The bubbles are drawn before any
      srand call; the plants and the fish are drawn after their own srand
      calls; the frames keep reading the stream of the fish pass. */
  function Startup(bubbleStream: Stream, plantStream: Stream, fishStream: Stream, maths: Maths): (w: World)
    ensures Valid(w)
    ensures forall b :: b in w.scene.bubbles ==> InitialBubble(b)
    ensures PlantLists(w.scene.plants, PlantTypes)
    ensures forall k :: 0 <= k < |FishTypes| ==> SpeciesList(w.scene.fish[k], CameraStart)
    ensures w.camera == NewCamera(ScreenWidth, ScreenHeight, CameraStart)
  {
    var camera := NewCamera(ScreenWidth, ScreenHeight, CameraStart);
    var bubbles := GenerateBubbles(bubbleStream, 0);
    var plants := GeneratePlants(PlantTypes, plantStream, 0);
    var fish := GenerateFish(FishTypes, camera.position, maths.trig, fishStream, 0);
    var w := World(Populations(bubbles.0, plants.0, fish.0), camera, fish.1);
    GeneratedStateValid(w);
    w
  }

  /** At start-up every species' list is GroupsPerType schools around the
      starting camera, each sharing one velocity and one yaw. */
  lemma StartupSchools(bubbleStream: Stream, plantStream: Stream, fishStream: Stream, maths: Maths)
    ensures var w := Startup(bubbleStream, plantStream, fishStream, maths);
      forall k :: 0 <= k < |FishTypes| ==> Schools(w.scene.fish[k], GroupsPerType, CameraStart)
  {
    var w := Startup(bubbleStream, plantStream, fishStream, maths);
    assert NewCamera(ScreenWidth, ScreenHeight, CameraStart).position == CameraStart;
    assert w.scene.fish == GenerateFish(FishTypes, CameraStart, maths.trig, fishStream, 0).0;
    FishListsAreSchools(FishTypes, CameraStart, maths.trig, fishStream, 0);
  }

  /** Freshly generated populations under a fresh camera form a valid
      state. */
  lemma GeneratedStateValid(w: World)
    requires |w.scene.bubbles| == BubbleCount && forall b :: b in w.scene.bubbles ==> InitialBubble(b)
    requires PlantLists(w.scene.plants, PlantTypes)
    requires |w.scene.fish| == |FishTypes|
    requires forall k :: 0 <= k < |FishTypes| ==> SpeciesList(w.scene.fish[k], CameraStart)
    requires PitchInRange(w.camera)
    ensures Valid(w)
  {
    forall k | 0 <= k < |FishTypes|
      ensures FishCeiling(w.scene.fish[k])
    {
      assert SpeciesList(w.scene.fish[k], CameraStart);
    }
  }

  // -----------------------------------------------------------------------
  // Frames

  /** What the window reports for one frame: the frame time, the keys held
      when the camera polls them, and the cursor positions delivered while
      events are polled at the end of the frame. */
  datatype FrameInput = FrameInput(dt: real, keys: Keys, cursor: seq<(real, real)>)

  /** The fish list of species k, or the empty list std::map::operator[]
      would insert when there is none. */
  function ListAt(lists: seq<seq<FishInstance>>, k: nat): seq<FishInstance> {
    if k < |lists| then lists[k] else []
  }

  function Max(a: int, b: int): int {
    if a < b then b else a
  }

  /** Every species' list for one frame, species in order; lists beyond the
      last species are kept as they are. */
  function TickSpecies(lists: seq<seq<FishInstance>>, types: seq<FishType>, dt: real, camZ: real,
                       s: Stream, at: nat): (r: (seq<seq<FishInstance>>, nat))
    ensures |r.0| == Max(|lists|, |types|)
    ensures forall k :: 0 <= k < |types| ==> |r.0[k]| == |ListAt(lists, k)| && FishCeiling(r.0[k])
    ensures forall k, i :: 0 <= k < |types| && 0 <= i < |ListAt(lists, k)| ==>
      FishSuccessor(ListAt(lists, k)[i], r.0[k][i])
    ensures forall k :: |types| <= k < |lists| ==> r.0[k] == lists[k]
    ensures r.1 >= at
    decreases |types|
  {
    if |types| == 0 then (lists, at)
    else
      var first := TickFishList(ListAt(lists, 0), types[0], dt, camZ, s, at);
      assert FishCeiling(first.0) by {
        forall f | f in first.0 ensures f.position.y <= MaxFishHeight {
          var i :| 0 <= i < |first.0| && first.0[i] == f;
          assert FishSuccessor(ListAt(lists, 0)[i], first.0[i]);
        }
      }
      var tail := if |lists| > 0 then lists[1..] else [];
      var rest := TickSpecies(tail, types[1..], dt, camZ, s, first.1);
      SpeciesTickCons(lists, tail, types, first.0, rest.0);
      ([first.0] + rest.0, rest.1)
  }

  lemma SpeciesTickCons(lists: seq<seq<FishInstance>>, tail: seq<seq<FishInstance>>, types: seq<FishType>,
                        first: seq<FishInstance>, rest: seq<seq<FishInstance>>)
    requires |types| > 0
    requires tail == if |lists| > 0 then lists[1..] else []
    requires |first| == |ListAt(lists, 0)| && FishCeiling(first)
    requires forall i :: 0 <= i < |first| ==> FishSuccessor(ListAt(lists, 0)[i], first[i])
    requires |rest| == Max(|tail|, |types| - 1)
    requires forall k :: 0 <= k < |types| - 1 ==> |rest[k]| == |ListAt(tail, k)| && FishCeiling(rest[k])
    requires forall k, i :: 0 <= k < |types| - 1 && 0 <= i < |ListAt(tail, k)| ==>
      FishSuccessor(ListAt(tail, k)[i], rest[k][i])
    requires forall k :: |types| - 1 <= k < |tail| ==> rest[k] == tail[k]
    ensures |[first] + rest| == Max(|lists|, |types|)
    ensures forall k :: 0 <= k < |types| ==>
      |([first] + rest)[k]| == |ListAt(lists, k)| && FishCeiling(([first] + rest)[k])
    ensures forall k, i :: 0 <= k < |types| && 0 <= i < |ListAt(lists, k)| ==>
      FishSuccessor(ListAt(lists, k)[i], ([first] + rest)[k][i])
    ensures forall k :: |types| <= k < |lists| ==> ([first] + rest)[k] == lists[k]
  {
    forall k | 0 < k < |types|
      ensures |([first] + rest)[k]| == |ListAt(lists, k)| && FishCeiling(([first] + rest)[k])
      ensures forall i :: 0 <= i < |ListAt(lists, k)| ==> FishSuccessor(ListAt(lists, k)[i], ([first] + rest)[k][i])
    {
      assert ([first] + rest)[k] == rest[k - 1];
      assert ListAt(tail, k - 1) == ListAt(lists, k);
    }
    forall k | |types| <= k < |lists|
      ensures ([first] + rest)[k] == lists[k]
    {
      assert ([first] + rest)[k] == rest[k - 1];
      assert tail[k - 1] == lists[k];
    }
  }

  /** One iteration of the render loop, in program order: the camera polls
      the keys, every bubble rises, every fish swims (respawning relative to
      the camera position after its move), and the cursor events queued
      during the frame are delivered. Plants never change. */
  function Frame(w: World, input: FrameInput, s: Stream, maths: Maths): (w': World)
    ensures w'.scene.plants == w.scene.plants
    ensures |w'.scene.bubbles| == |w.scene.bubbles|
    ensures w'.cursor >= w.cursor
    ensures forall i :: 0 <= i < |w.scene.bubbles| ==>
      BubbleSuccessor(w.scene.bubbles[i], w'.scene.bubbles[i], input.dt)
    ensures |w'.scene.fish| == Max(|w.scene.fish|, |FishTypes|)
    ensures forall k :: 0 <= k < |FishTypes| ==> |w'.scene.fish[k]| == |ListAt(w.scene.fish, k)|
    ensures forall k, i :: 0 <= k < |FishTypes| && 0 <= i < |ListAt(w.scene.fish, k)| ==>
      FishSuccessor(ListAt(w.scene.fish, k)[i], w'.scene.fish[k][i])
    ensures Valid(w) ==> Valid(w')
  {
    var camera := Inputs(w.camera, input.dt, input.keys, maths.strafe);
    var bubbles := TickBubbles(w.scene.bubbles, input.dt, s, w.cursor);
    var fish := TickSpecies(w.scene.fish, FishTypes, input.dt, camera.position.z, s, bubbles.1);
    var looked := MouseEvents(camera, input.cursor, maths.front);
    assert forall b :: b in bubbles.0 ==> b.position.y <= MaxBubbleHeight by {
      forall b | b in bubbles.0 ensures b.position.y <= MaxBubbleHeight {
        var i :| 0 <= i < |bubbles.0| && bubbles.0[i] == b;
        assert BubbleSuccessor(w.scene.bubbles[i], bubbles.0[i], input.dt);
      }
    }
    World(Populations(bubbles.0, w.scene.plants, fish.0), looked, fish.1)
  }

  /** The state after a sequence of frames. */
  function Run(w: World, inputs: seq<FrameInput>, s: Stream, maths: Maths): (w': World)
    decreases |inputs|
  {
    if |inputs| == 0 then w
    else Run(Frame(w, inputs[0], s, maths), inputs[1..], s, maths)
  }

  /** Every reachable state is valid, the plants never change, and the
      population sizes of start-up are kept: the scene runs forever with
      the same number of bubbles, plants and fish. */
  lemma {:induction false} RunPreservesValid(w: World, inputs: seq<FrameInput>, s: Stream, maths: Maths)
    requires Valid(w)
    ensures Valid(Run(w, inputs, s, maths))
    ensures Run(w, inputs, s, maths).scene.plants == w.scene.plants
    ensures forall k :: 0 <= k < |FishTypes| ==>
      |Run(w, inputs, s, maths).scene.fish[k]| == |w.scene.fish[k]|
    decreases |inputs|
  {
    if |inputs| > 0 {
      var w1 := Frame(w, inputs[0], s, maths);
      FrameKeepsFishCounts(w, inputs[0], s, maths);
      RunPreservesValid(w1, inputs[1..], s, maths);
    }
  }

  /** A frame keeps the length of every species' list. */
  lemma FrameKeepsFishCounts(w: World, input: FrameInput, s: Stream, maths: Maths)
    requires Valid(w)
    ensures forall k :: 0 <= k < |FishTypes| ==>
      |Frame(w, input, s, maths).scene.fish[k]| == |w.scene.fish[k]|
  {
  }

  /** Every state reachable from start-up is valid and still holds the
      plants generated at start-up. */
  lemma ReachableStatesValid(bubbleStream: Stream, plantStream: Stream, fishStream: Stream,
                             inputs: seq<FrameInput>, maths: Maths)
    ensures var w0 := Startup(bubbleStream, plantStream, fishStream, maths);
      Valid(Run(w0, inputs, fishStream, maths)) && Run(w0, inputs, fishStream, maths).scene.plants == w0.scene.plants
  {
    var w0 := Startup(bubbleStream, plantStream, fishStream, maths);
    RunPreservesValid(w0, inputs, fishStream, maths);
  }
}
