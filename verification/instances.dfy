/** The records the scene keeps per instance and per type (main.cpp,
    BubbleInstance, PlantInstance, PlantType, FishInstance, FishType).
    GPU handles, vertex counts, colours and texture atlas offsets are
    rendering data and are not part of the model. */
module Instances {
  import opened Vectors

  /** A rising bubble of the fixed pool. */
  datatype Bubble = Bubble(position: Vec3, speed: real, scale: real)

  /** A static plant, placed once. */
  datatype PlantInstance = PlantInstance(position: Vec3, scale: real, yaw: real)

  /** Per-type plant parameters: the range random scales are drawn from. */
  datatype PlantType = PlantType(scaleMin: real, scaleMax: real)

  /** One fish: position, velocity (its school's heading) and body yaw. */
  datatype FishInstance = FishInstance(position: Vec3, velocity: Vec3, yaw: real)

  /** Per-species fish parameters: swim speed multiplier and draw scale. */
  datatype FishType = FishType(speed: real, scale: real)

  /** The four plant types of the scene: coral, pink coral, red coral, starfish. */
  const PlantTypes: seq<PlantType> := [
    PlantType(0.03, 0.05),
    PlantType(0.1, 0.4),
    PlantType(0.03, 0.06),
    PlantType(0.2, 0.4)
  ]

  /** The three fish species of the scene. */
  const FishTypes: seq<FishType> := [
    FishType(0.33, 0.30),
    FishType(0.76, 0.85),
    FishType(0.20, 0.20)
  ]
}
