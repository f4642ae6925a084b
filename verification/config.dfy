/** Compile-time constants of the scene (main.cpp, top of file). */
module SceneConfig {

  /** Height of the water surface. */
  const WaterSurfaceY: real := 0.0
  /** Fish never swim above this height. */
  const MaxFishHeight: real := -0.5
  /** A bubble that rises above this height is respawned. */
  const MaxBubbleHeight: real := WaterSurfaceY - 0.1

  /** Global swim-speed factor (a mutable global in the program, never written). */
  const FishGlobalSpeed: real := 0.1
  /** The frame tick scales every displacement by `deltaTime * 60`. */
  const FrameRate: real := 60.0

  /** Number of schools generated per fish species. */
  const GroupsPerType: nat := 60
  /** Smallest and largest school size. */
  const GroupMin: nat := 8
  const GroupMax: nat := 14
  /** Half-width of the X range a despawned fish reappears in. */
  const SpawnRadiusXZ: real := 15.0
  /** A respawned fish reappears at least this far ahead of the camera. */
  const SpawnZOffset: real := 5.0
  /** A fish whose z falls below this value is respawned. */
  const DespawnZ: real := -120.0

  /** Size of the bubble pool. */
  const BubbleCount: nat := 10
  /** Number of plants generated per plant type. */
  const PlantsPerType: nat := 400
  /** Height of the sea floor, where every plant stands. */
  const FloorY: real := -10.0
  /** `6.28318f`, the upper bound of a plant's random yaw. */
  const PlantYawSpan: real := 6.28318

  /** Side of the square the bubbles and plants are scattered over. */
  const FieldSpan: real := 300.0
}
