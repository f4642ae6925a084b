# OceanGL core in Dafny

OceanGL is an OpenGL underwater scene. This project models the logic behind
the rendering:

- **Grid meshes.** `createOceanMesh` and `createGroundMesh` lay out a
  row-major grid of vertices and two triangles per cell (`grid_mesh.dfy`).
- **Start-up populations.** `main` generates the bubble pool, 400 plants per
  plant type and 60 fish schools per species (`population.dfy`).
- **Frame tick.** Each frame makes bubbles rise and respawn, and makes fish
  swim, stop at the swim ceiling and respawn ahead of the camera
  (`simulation.dfy`).
- **The whole scene.** `scene.dfy` covers start-up, one frame in program
  order, and the invariant every frame preserves.
- **OBJ flattening.** The serialiser inside `loadObj` writes eight
  interleaved floats per face corner (`obj_loader.dfy`).
- **The camera.** This covers the constructor and member defaults, the
  keyboard step `Inputs`, and the mouse-look update `MouseCallback`
  (`camera.dfy`).

Shared pieces are three-component vectors (`vectors.dfy`), the scene's
constants (`config.dfy`), the instance records (`instances.dfy`) and the
`rand()` stream (`random.dfy`).

Floats are idealised as reals. `rand()` is a caller-supplied stream: a total
function from call number to a sample in `[0, RAND_MAX]`. Every generator
takes a cursor into the stream and returns the advanced cursor, so the
number of draws each step consumes is part of its contract. Each `srand`
pass of the program gets its own stream:

- the bubbles, drawn before any `srand`;
- the plants;
- the fish, whose stream the frame loop keeps reading.

Several functions are opaque parameters: `glm::normalize`, `std::atan2`,
the camera's strafe vector `normalize(cross(Orientation, Up))`, and the
view direction `MouseCallback` computes with cos and sin.

The model follows the code where its behaviour differs from what a reader
might expect:

- The grid builders do not reject widths or depths below 2. Their loops
  accept such sizes: zero or negative sizes give empty buffers, and a grid
  one point wide gives vertices but no indices. The upload step that
  follows the loops does not accept them. It takes `&vertices[0]` and
  `&indices[0]`, and indexing an empty `std::vector` is undefined
  behaviour. The model covers the loops only, generalised to every size.
  Of the loops, only the ground builder's uv division by `width - 1` and
  `depth - 1` needs both sizes at least 2 when a vertex is emitted
  (`GridMesh.UVDefined`).
- A grid three points wide and two deep has two cells and twelve indices
  (`GridMesh.GridIndicesExample`), not one cell.
- A respawned fish reappears between `cam.z - 15` and `cam.z - 5`. That is
  on the near side of the despawn plane only while `cam.z >= -105`
  (`Simulation.RespawnBeforeDespawnPlane`, `Simulation.RespawnBeyondDespawnPlane`).
- The plants and the fish are generated after separate `srand(time(nullptr))`
  calls, so each pass reads its own stream.
- The `std::min(pos.y, MAX_FISH_HEIGHT)` clamp at start-up never changes a
  fish. A school centre is at most at y = -3 and a fish's offset at most 1,
  so every fish starts at y <= -2 (`Population.SpawnFish`,
  `Population.SchoolAround`).

## Model

| member | source | states |
|---|---|---|
| Random.Unit | main.cpp:217 | `rand() / (float)RAND_MAX` lies in [0, 1] |
| Random.Centered | main.cpp:217-218 | `(rand()/RAND_MAX - 0.5) * span` lies in [-span/2, span/2] |
| Random.Above | main.cpp:219-221 | `base + (rand()/RAND_MAX) * span` lies in [base, base + span] |
| Random.Lerp | main.cpp:240 | `lo + (rand()/RAND_MAX) * (hi - lo)` lies between lo and hi, in either order of the bounds |
| Population.SpawnBubble | main.cpp:217-222 | an initial bubble has x, z in [-150, 150], y in [-14, -10], speed in [0.01, 0.11] and scale in [0.0001, 0.0011] |
| Population.GenerateBubbles | main.cpp:216-223 | the pool holds exactly 10 bubbles, all placed as initial bubbles, after 50 draws |
| Population.SpawnPlant | main.cpp:237-242 | a plant stands on the floor (y = -10) with x, z in [-150, 150], scale between its type's bounds and yaw in [0, 6.28318] |
| Population.GeneratePlantsOfType | main.cpp:236-243 | exactly 400 plants of the type, each placed as the type prescribes, after 1600 draws |
| Population.GeneratePlants | main.cpp:235-244 | one list per plant type, 400 plants each, each plant placed as its own type prescribes |
| Population.RawHeading | main.cpp:263 | the unnormalised school heading has x in [-0.2, 0.2], y in [-0.1, 0.1] and z in [-0.6, 0.6] |
| Population.GroupSize | main.cpp:258 | `8 + rand() % 7` is a school size between 8 and 14 |
| Population.SpawnFish | main.cpp:267-270 | a fish is within 3 of the school centre horizontally and below the swim ceiling; it takes the school's velocity and yaw; the height clamp leaves it within 1 of the centre whenever the centre is at least 1 below the ceiling |
| Population.SpawnGroup | main.cpp:258-271 | a school has 8 to 14 fish, all within 53 of the camera horizontally at heights in [-10, -2]; all share the normalised heading and its atan2 yaw; 7 + 3 * size draws are consumed |
| Population.SchoolAround | main.cpp:259-270 | fish jittered around a centre drawn near the camera form a school with one shared velocity and yaw |
| Population.SpawnGroups | main.cpp:257-272 | n schools give between 8n and 14n fish, all spawned near the camera and below the ceiling |
| Population.SchoolsCons | main.cpp:257-272 | a school placed before n schools laid end to end makes n + 1 schools |
| Population.GroupsAreSchools | main.cpp:257-272 | the list n school spawns build is n schools laid end to end, each with 8 to 14 fish near the camera sharing one velocity and one yaw |
| Population.GenerateSpecies | main.cpp:256-273 | each species' list has between 480 and 840 fish, all spawned near the camera and below the ceiling |
| Population.SpeciesAreSchools | main.cpp:256-273 | a species' list is 60 schools laid end to end, each sharing one velocity and one yaw |
| Population.GenerateFish | main.cpp:255-274 | one list per species, each a valid species list |
| Population.FishListsAreSchools | main.cpp:255-274 | every species' list is 60 schools laid end to end, each sharing one velocity and one yaw |
| Simulation.Risen | main.cpp:392 | rising moves only the height; with non-negative speed and frame time the bubble does not sink |
| Simulation.RespawnBubble | main.cpp:394-396 | a respawned bubble has x, z in [-150, 150], y in [-20, -10], speed in [0.1, 0.2] and scale in [0.0001, 0.1001] |
| Simulation.TickBubble | main.cpp:392-397 | after the tick the bubble is at most at -0.1. It is the risen bubble, with no draw, exactly when rising keeps it at or under the ceiling; otherwise it is respawned with five draws |
| Simulation.TickBubbles | main.cpp:391-397 | the pool keeps its size and every bubble becomes a successor of itself |
| Simulation.BubbleKeepsRising | main.cpp:392-393 | a bubble with positive speed that stays under the ceiling is strictly higher after a frame of positive length |
| Simulation.SurfacedBubbleSinks | main.cpp:393-394 | a bubble that passes the ceiling reappears at or below the sea floor |
| Simulation.UnderCeiling | main.cpp:447-450 | the ceiling check never raises a fish or its vertical velocity and never touches x or z. A fish above the ceiling is put on it with vertical velocity at most 0; a fish at or below it is unchanged |
| Simulation.RespawnPosition | main.cpp:452-454 | a respawned fish reappears with x in [-15, 15], y in [-9, -3] and z between cam.z - 15 and cam.z - 5 |
| Simulation.TickFish | main.cpp:446-455 | yaw never changes and velocity changes only by the ceiling check; the fish ends at or under -0.5. It is respawned near the camera with three draws exactly when its swum z is below -120; otherwise it keeps the checked position with no draw |
| Simulation.TickFishList | main.cpp:445-455 | the list keeps its length and every fish becomes a successor of itself |
| Simulation.ClimbingFishSwims | main.cpp:446 | a fish at y = -0.3 climbing at 0.2, of speed 1, reaches y = 0.9 in a one-second frame |
| Simulation.CeilingStopsClimb | main.cpp:446-450 | that fish is put back at y = -0.5 with zero vertical velocity, and no draw is consumed |
| Simulation.RespawnBeforeDespawnPlane | main.cpp:451-454 | while cam.z >= -105 a respawned fish reappears at z >= -120 |
| Simulation.RespawnBeyondDespawnPlane | main.cpp:451-454 | with the camera at z = -110 and rand() returning RAND_MAX, a respawned fish reappears at z = -125, beyond the plane |
| Camera.NewCamera | Camera.cpp:4-11 | the camera is at the given position with lastX = width/2, lastY = height/2, first click pending and pitch within limits |
| Camera.PlusThenMinus | Camera.cpp:35-36 | the W-then-S (or Space-then-Ctrl) pair moves by k times (held(plus) - held(minus)) along the axis |
| Camera.MinusThenPlus | Camera.cpp:37-38 | the A-then-D pair moves by k times (held(D) - held(A)) along the strafe axis |
| Camera.KeyMoves | Camera.cpp:35-40 | the six key checks add up to one move along front, right and up, each by the held-key difference |
| Camera.Inputs | Camera.cpp:23-41 | only the position changes; it moves by the shift-dependent step along each axis per held key |
| Camera.OpposingKeysCancel | Camera.cpp:35-40 | holding W with S, A with D, or Space with Ctrl moves the camera exactly as holding neither |
| Camera.NoKeysNoMove | Camera.cpp:35-40 | with no direction key held the camera is unchanged, shift or not |
| Camera.ShiftMovesFourTimesFarther | Camera.cpp:25-33 | holding Shift makes the displacement exactly four times the displacement without it |
| Camera.ClampPitch | Camera.cpp:63-64 | the clamped pitch is within ±89; it equals the input inside the range and the nearer limit outside |
| Camera.MouseCallback | Camera.cpp:43-71 | the cursor is recorded and the first click is consumed; pitch stays within ±89; yaw moves by the scaled x offset; pitch moves by the scaled inverted y offset, then is clamped; orientation is recomputed; nothing else changes |
| Camera.FirstEventKeepsView | Camera.cpp:45-49 | the first mouse event leaves yaw and pitch unchanged wherever the cursor is |
| Camera.RepeatedEventIsIdempotent | Camera.cpp:51-61 | a second event at the same cursor position leaves the whole camera unchanged |
| Camera.CursorUpLooksUp | Camera.cpp:52-61 | moving the cursor up the screen raises the pitch unless it is at the upper limit |
| Camera.MouseEvents | Camera.cpp:43-71 | after a sequence of events the last x is recorded, the first click is consumed, the pitch range is kept and the sensitivity is unchanged |
| Camera.YawTelescopes | Camera.cpp:51-60 | yaw is never clamped: over any sequence of events it moves by the total horizontal travel, from the first reference position to the last cursor x, times sensitivity/1000 |
| GridMesh.OceanVertexLoops | main.cpp:636-643 | the vertex loops emit the closed-form ocean buffer, six floats per grid point |
| GridMesh.GroundVertexLoops | main.cpp:666-688 | the vertex loops emit the closed-form ground buffer, eight floats per grid point |
| GridMesh.IndexLoops | main.cpp:644-650 | the index loops emit the closed-form index buffer, six indices per cell |
| GridMesh.BuildIndices | main.cpp:690-705 | the index buffer has 6 * (width - 1) * (depth - 1) entries, equals the closed form and refers only to vertices of the grid |
| GridMesh.CreateOceanMesh | main.cpp:634-661 | 6 * width * depth floats equal to the closed-form ocean buffer; the shared index buffer, all entries below width * depth |
| GridMesh.CreateGroundMesh | main.cpp:662-734 | 8 * width * depth floats equal to the closed-form ground buffer; the same index buffer as the ocean grid of equal size |
| GridMesh.OceanVertexAt | main.cpp:638-641 | vertex z * width + x of the ocean buffer is ((x - width/2) * 2, 0, (z - depth/2) * 2) with normal (0, 1, 0) |
| GridMesh.GroundVertexAt | main.cpp:668-686 | vertex z * width + x of the ground buffer is the ocean vertex followed by (x/(width-1), z/(depth-1)), both in [0, 1] |
| GridMesh.UVInUnitRange | main.cpp:671-672 | a texture coordinate lies in [0, 1], is 0 on the first grid line and 1 on the last |
| GridMesh.GroundUVCorners | main.cpp:671-672 | the first ground vertex has uv (0, 0) and the last has uv (1, 1) |
| GridMesh.CellIndicesAt | main.cpp:645-648 | cell (x, z) emits tl, tl + width, tl + 1, tl + 1, tl + width, tl + width + 1 with tl = z * width + x |
| GridMesh.GridIndicesInRange | main.cpp:644-649 | every index is a vertex of the grid: 0 <= index < width * depth |
| GridMesh.GridIndicesExample | main.cpp:644-649 | the grid three wide and two deep yields [0, 3, 1, 1, 3, 4, 1, 4, 2, 2, 4, 5] |
| ObjLoader.Corner | main.cpp:598-613 | every corner is written as exactly eight floats |
| ObjLoader.FlattenLength | main.cpp:596-615 | flattening writes eight floats per corner |
| ObjLoader.FlattenRecord | main.cpp:596-615 | record k of the output is exactly the record of corner k, so the buffer can be cut back into corners |
| ObjLoader.FlattenShapes | main.cpp:594-615 | the nested loops write the records of all corners of all shapes, in order, eight floats each |
| ObjLoader.AppendShape | main.cpp:597-614 | the inner loop appends one shape's records after those already written |
| ObjLoader.LoadObj | main.cpp:583-618 | a parse error leaves buffer and count untouched and fails. Otherwise the count is the number of corners, the buffer holds eight floats per corner with record k that corner's record, and the call succeeds exactly when the count is positive |
| ObjLoader.RecordRecoversAttributes | main.cpp:598-613 | a record holds the corner's position and its normal, or (0, 1, 0) without one; then its uv with v flipped back, or (0, 0) without one |
| Scene.Startup | main.cpp:214-274 | the start-up state is valid, every bubble is an initial bubble, every plant list is one of its type and every species' list a valid species list, and the camera is the fresh camera at (0, 8, 15) |
| Scene.StartupSchools | main.cpp:255-274 | at start-up every species' list is 60 schools around the starting camera, each sharing one velocity and one yaw |
| Scene.GeneratedStateValid | main.cpp:216-274 | freshly generated populations under a fresh camera satisfy the scene invariant |
| Scene.TickSpecies | main.cpp:438-455 | every species' list keeps its length (an absent species gets the empty list the map inserts) and ends below the swim ceiling; every fish keeps its yaw and horizontal velocity and never raises its vertical velocity; lists past the last species are untouched |
| Scene.Frame | main.cpp:311-488 | a frame never changes the plants or the pool size, never rewinds the rand() stream, and preserves the scene invariant. Every bubble becomes a successor of itself: risen, or respawned in the respawn ranges, and under the ceiling. Every species' list keeps its length, and every fish keeps its yaw and horizontal velocity, never raises its vertical velocity and ends under the ceiling |
| Scene.RunPreservesValid | main.cpp:311-488 | any number of frames preserve the invariant, the plants and every species' list length |
| Scene.FrameKeepsFishCounts | main.cpp:444-455 | a frame keeps the length of every species' list |
| Scene.ReachableStatesValid | main.cpp:214-488 | every state reachable from start-up satisfies the invariant and still holds the start-up plants |

## Left out

- OpenGL, GLFW and stb_image calls are foreign GPU and file I/O and are not modelled. This covers buffer and VAO upload, draw calls, the framebuffer and post-processing pass, `loadTexture`, `loadCubemap`, shaders and `framebuffer_size_callback`.
- The tinyobj parse of `loadObj` is foreign. Its output is the `ParseResult` input. `ObjLoader.IndexValid` states the in-bounds indices the model assumes of it. `loadObj` itself does not check these bounds, so an out-of-range face index would be an out-of-bounds read there; the model does not cover that case.
- Model-matrix composition, `getViewMatrix` and `getProjectionMatrix` are pure rendering math and are not modelled.
- `glm::normalize`, `std::atan2`, cos and sin, and the strafe vector are function parameters: floating-point transcendental maths.
- Floats are reals: rounding, the `float` casts of the mouse offsets and the reading of `RAND_MAX` as `float` are not modelled.
- `srand(time(nullptr))`, `glfwGetTime` and the frame clock become parameters: the streams and each frame's `dt`. `dt` is not constrained, as the program does not clamp it.
- The order in which C++ evaluates the `rand()` calls inside one `glm::vec3(...)` constructor is unspecified. The model draws left to right. The ranges and draw counts it states do not depend on the order. `Population.SpawnGroup`'s exact heading does: it ties the heading's x, y and z to the draws at `at + 4`, `at + 5` and `at + 6`. A compiler that evaluates the arguments right to left would take them from `at + 6`, `at + 5` and `at + 4`.
- The Escape key and the window-close check only end the loop, so they are not modelled.
- `int` overflow of the grid index arithmetic and of `vertex_count` is not modelled; the program only builds 150 x 150 grids.
- Simulation.TickBubbles: states that each bubble becomes a successor (risen, or respawned in the respawn ranges) and bounds the draws consumed; the exact per-bubble result is the contract of `Simulation.TickBubble`.
- Simulation.TickFishList: states that each fish becomes a successor (same yaw and horizontal velocity, vertical velocity not raised, under the ceiling) and bounds the draws consumed; the exact per-fish result is the contract of `Simulation.TickFish`.
- Scene.Frame: states the invariant, the unchanged plants and the successor relation of every bubble and fish, not the exact next state; the exact per-instance results are the contracts of `Simulation.TickBubble` and `Simulation.TickFish`.
- Camera.MouseEvents: states the recorded last x, the pitch range and the unchanged sensitivity; yaw over a sequence is `Camera.YawTelescopes`.
- Population.GenerateSpecies: states the list length and placement. The school structure, with its shared heading per school, is stated about it by `Population.SpeciesAreSchools`.
- Population.SpawnGroups: states the length bounds and placement. That the list is n schools, each sharing one velocity and yaw, is `Population.GroupsAreSchools`.
- Population.GenerateFish: states one valid species list per species. That each list is 60 schools is `Population.FishListsAreSchools`.
