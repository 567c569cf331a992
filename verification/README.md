# CrossBreed engine core in Dafny

This project models the logic of the CrossBreed game engine, a Rust engine
built on SDL and OpenGL, and proves properties of it. The model covers these parts:

- **Voxel world.** `CbChunkManager` holds 4×4×4 chunks of 4×4×4 voxels. It has `get_voxel_mut` addressing and the `randomize` pattern.
- **Meshing.** The greedy mesher turns one chunk into quads: face extraction, the per-slice mask, rectangle growth and quad emission. `Mesh::merge` concatenates meshes and shifts their indices. `CbVoxelMesher` caches one mesh per chunk and level of detail. The voxel renderer refreshes GPU buffers only when a mesh's frame changes.
- **Input.** Key and mouse events are folded into the fighting and shooter contexts. The context manager stores one slot per context type.
- **Simulation.** The voxel editor system moves cameras, edits the voxel under the cursor and reads the console's "x,y,z" coordinate. The editor components build their menus, handle menu events and sync presentable ranges. The actor input system filters inputs per player.
- **Menu toolkit.** `GuiEnvironment` routes hover, click and release. The widget tree covers forms, rows, columns, toggles, buttons, labels and horizontal sliders: layout, event queues, data rebinding and draw calls. The slider presenter is also modelled.
- **Smaller pieces.** The command-line menu, the macro command, the one-link list, the application context manager, integer power and 1D/3D index conversion.

Panics are modelled as `Base.Result` failures. `usize` is an unbounded
natural number except where a cast wraps or a parse is bounded. Helpers
whose bodies are not part of this model are passed in as parameters. These
are `index_3d_to_1d` and the `CbNormalizedRange` operations. Lemmas that
need them to behave state that as a requirement.

Where the code and its documentation disagree, the model follows the code.
The most visible cases are listed under "## Findings". In each, the operations
that use the defect keep the code's behaviour. The corrected definition sits
next to it with the intended property proved. The affected operations are
the voxel addressing used by the editor and the quad colours used by the
mesher. The console step is modelled both ways.

## Model

| member | source | states |
|---|---|---|
| CbMath.Pow | src/cb_math/mod.rs:2-10 | `pow(num, p)` is `num` raised to the power `p` (including p = 0 giving 1) |
| CbMath.PowTestValues | src/cb_math/mod.rs:64-86 | the unit-test values: 0^3 = 0, 1^3 = 1, 3^0 = 1, 2^2 = 4, 3^3 = 27 |
| CbMath.Index1dTo3d | src/cb_math/mod.rs:12-21 | panics exactly when x_max·y_max is 0; otherwise x < x_max, y < y_max, z = index / (x_max·y_max), and x + x_max·y + x_max·y_max·z reconstructs the index |
| CbMath.Index2dRoundTrip | src/cb_math/mod.rs:23-25 | for x < n, `index_2d_to_1d(x, y, n)` is undone by remainder (x) and quotient (y) |
| CbMath.NoiseNew | src/cb_math/mod.rs:34-51 | `Noise::new` keeps `max_value` and leaves the value table empty |
| CbMath.NoiseAt | src/cb_math/mod.rs:53-55 | `at` succeeds exactly when `index_2d_to_1d(x, y, len)` is inside the table, and then returns one of its values |
| CbMath.NewNoiseIsUnreadable | src/cb_math/mod.rs:34-55 | every `at` on a freshly made noise object panics |
| CbVoxels.NewChunk | src/cb_voxels/mod.rs:142-156 | a new chunk holds CHUNK_SIZE_CUBED = 64 voxels, each inactive, visible, grass, misc 0, and was last updated at frame 0 |
| CbVoxels.NewManager | src/cb_voxels/mod.rs:38-55 | a new manager holds CHUNKS_CUBED = 64 fresh chunks, is dirty, and its randomizer index is 0 |
| CbVoxels.VoxelWidth | src/cb_voxels/mod.rs:57-59 | the voxel width is always CHUNKS·CHUNK_SIZE = 16 |
| CbVoxels.Locate | src/cb_voxels/mod.rs:61-108 | the chunk is addressed by (x%CHUNKS, y%CHUNKS, z%CHUNKS), the voxel by the per-axis saturating subtraction of chunk·CHUNK_SIZE; a success addresses an existing chunk and voxel; the only failure is an index past the end |
| CbVoxels.ChunkCoordinatesInRange | src/cb_voxels/mod.rs:65-67 | each chunk coordinate picked by `get_voxel_mut` is below CHUNKS |
| CbVoxels.LocateSucceedsInChunk | src/cb_voxels/mod.rs:71-108 | the in-bounds precondition the NOTE leaves open, made explicit: when each axis lands inside its chunk and `index_3d_to_1d` stays inside its cube, the lookup succeeds |
| CbVoxels.InChunkCoordinates | src/cb_voxels/mod.rs:65-102 | of the coordinates 0..15 the as-written mapping keeps inside a chunk exactly 0, 1, 2, 3, 5, 6, 7, 10, 11, 15 |
| CbVoxels.UpdateVoxel | src/cb_voxels/mod.rs:61-108 | writing through `get_voxel_mut` fails exactly when the lookup does; otherwise only the addressed voxel changes, the addressed chunk gets `frame_updated_at = frame`, and every other chunk is unchanged |
| CbVoxels.GetVoxel | src/cb_voxels/mod.rs:61-108 | reading succeeds exactly when the lookup does and returns a voxel of the addressed chunk |
| CbVoxels.ReadAfterUpdate | src/cb_voxels/mod.rs:61-108 | a read after a write to the same coordinates returns the written value |
| CbVoxels.LocateAliases | src/cb_voxels/mod.rs:65-102 | as written, world x = 2 and x = 6 address the same voxel, and x = 4 falls outside its chunk |
| CbVoxels.IntendedAxis | src/cb_voxels/mod.rs:65-102 | the intended per-axis mapping: chunk·CHUNK_SIZE + voxel = coordinate, voxel < CHUNK_SIZE |
| CbVoxels.LocateIntended | src/cb_voxels/mod.rs:61-108 | the corrected lookup addresses an existing chunk and voxel or fails with an index error |
| CbVoxels.IntendedAxisInjective | src/cb_voxels/mod.rs:65-102 | under the intended mapping, different coordinates never share a (chunk, voxel) pair |
| CbVoxels.LocateIntendedSucceeds | src/cb_voxels/mod.rs:57-108 | under the intended mapping every coordinate below the voxel width addresses a voxel |
| CbVoxels.FlipsByCoordinates | src/cb_voxels/mod.rs:119-124 | the voxel at flat index i flips exactly when (i%4 + (i/4)%4 + i/16 + tick) is a multiple of 7 |
| CbVoxels.RandomizeChunk | src/cb_voxels/mod.rs:115-126 | one chunk: stamped with `tick`; a voxel's active flag flips exactly when its coordinates plus tick are a multiple of 7; visibility, type and misc are untouched |
| CbVoxels.Randomize | src/cb_voxels/mod.rs:111-128 | every chunk is stamped with `tick`, exactly the selected voxels flip their active flag, nothing else changes |
| CbVoxels.RandomizeTwiceRestores | src/cb_voxels/mod.rs:111-128 | randomizing twice with the same tick restores every voxel |
| GreedyFaces.FaceEqualsIsEquivalence | src/cb_voxels/greedy_mesher.rs:421-425 | `VoxelFace::equals` is reflexive, symmetric and transitive, and ignores the side |
| GreedyFaces.GetVoxelFace | src/cb_voxels/greedy_mesher.rs:9-41 | the face keeps the voxel's kind and the given side; an inactive voxel is transparent; a boundary voxel is transparent exactly when inactive; an active voxel is culled only when it is interior and all six neighbours are active |
| GreedyFaces.SidesDistinct | src/cb_voxels/greedy_mesher.rs:97-118 | the 2×3 passes mesh six different sides, each below 6 |
| GreedyFaces.AxesArePermutation | src/cb_voxels/greedy_mesher.rs:84-85 | for every sweep axis d, {d, (d+1)%3, (d+2)%3} is {0, 1, 2} |
| GreedyFaces.PointByAxis | src/cb_voxels/greedy_mesher.rs:127-151 | the voxel the sweep visits puts the slice on axis d, the column on axis u and the row on axis v |
| GreedyFaces.MaskCellCases | src/cb_voxels/greedy_mesher.rs:132-165 | a mask cell is empty exactly when both neighbouring faces exist and are equal; otherwise it holds the far face on the backface pass and the near face on the front pass, and is empty when that face lies outside the chunk |
| GreedyFaces.ComputeMask | src/cb_voxels/greedy_mesher.rs:124-173 | the mask loop overwrites every cell (i, j) with the cell the rule above prescribes |
| GreedyFaces.MaskOfCells | src/cb_voxels/greedy_mesher.rs:124-173 | the slice's mask, as a whole, holds at every cell (i, j) the cell the rule above prescribes |
| GreedyRects.RectWidth | src/cb_voxels/greedy_mesher.rs:185-191 | the width is at least 1, stays inside the row, covers only faces equal to the seed, and stops at the first cell that is empty or different |
| GreedyRects.RectHeight | src/cb_voxels/greedy_mesher.rs:193-215 | the height is at least 1, stays inside the mask, covers only rows of faces equal to the seed, and stops at the first row that breaks the match |
| GreedyRects.EraseRect | src/cb_voxels/greedy_mesher.rs:261-272 | every cell of the rectangle becomes empty and every other cell is unchanged |
| GreedyRects.TakeRect | src/cb_voxels/greedy_mesher.rs:183-276 | taking the rectangle seeded at a non-empty cell and clearing it keeps the sweep's invariant: rectangles are in bounds, hold only faces equal to their seed, are pairwise disjoint, and exactly the covered cells are cleared |
| GreedyRects.GreedySlice | src/cb_voxels/greedy_mesher.rs:177-283 | every rectangle has w ≥ 1, h ≥ 1 and lies inside the mask; all its cells held faces equal to its seed; the rectangles are disjoint and cover exactly the non-empty cells; afterwards the whole mask is empty |
| GreedyRects.TakeAt | src/cb_voxels/greedy_mesher.rs:183-272 | at a non-empty cell the loop takes the rectangle grown from that seed and empties exactly its cells |
| GreedyRects.SweepRow | src/cb_voxels/greedy_mesher.rs:180-283 | scanning one row of the mask, taking a rectangle at each non-empty cell and skipping past it, is the reference sweep's step over that row |
| GreedyRects.SweepSound | src/cb_voxels/greedy_mesher.rs:177-283 | the reference sweep over a mask ends with every cell empty; its rectangles are in bounds, disjoint, hold faces equal to their seeds, and cover exactly the non-empty cells |
| GreedyRects.SweepCoversOnce | src/cb_voxels/greedy_mesher.rs:177-283 | every non-empty cell of a mask lies in exactly one rectangle of the sweep, and that rectangle's face equals the cell's face |
| GreedyMesher.QuadCornersSpanRect | src/cb_voxels/greedy_mesher.rs:220-250 | the four corners handed to `get_quad` are the rectangle's corners on the slice plane: (i, j), (i+w, j), (i+w, j+h), (i, j+h) along u and v |
| GreedyMesher.KindColor | src/cb_voxels/greedy_mesher.rs:355-396 | every voxel kind has one RGB triple |
| GreedyMesher.FrontWindingIsReversed | src/cb_voxels/greedy_mesher.rs:331-341 | both index lists have six entries, and the front list is the backface list with corners 0 and 3 exchanged |
| GreedyMesher.GetQuad | src/cb_voxels/greedy_mesher.rs:298-411 | 12 vertex values in the order bottom-left, bottom-right, top-left, top-right; indices (2,0,1,1,3,2) on the backface pass and (2,3,1,1,0,2) otherwise; 9 colour values repeating the kind's colour; the given frame |
| GreedyMesher.SliceQuads | src/cb_voxels/greedy_mesher.rs:217-259 | a slice yields at most one quad per rectangle, each with the shape of a quad |
| GreedyMesher.SliceQuadsFromOpaqueRects | src/cb_voxels/greedy_mesher.rs:217-259 | every quad of a slice is the quad of one of its non-transparent rectangles |
| GreedyMesher.TransparentRectsGiveNoQuads | src/cb_voxels/greedy_mesher.rs:217-218 | transparent rectangles produce no quads |
| GreedyMesher.IndexTotalOfQuads | src/cb_voxels/greedy_mesher.rs:331-341 | n quads carry 6n indices |
| GreedyMesher.CalculateGreedyMesh | src/cb_voxels/greedy_mesher.rs:43-289 | the mesh is the merge of the quads of the backface pass then the front pass, each over axes 0, 1, 2 and slices -1 to CHUNK_SIZE - 1 in order; it has sizes 3/3/3 and the given frame, two vertex values per index, and every index names one of its vertices |
| GreedyMesher.QuadsOfSlice | src/cb_voxels/greedy_mesher.rs:122-283 | the quads of one slice are those of the sweep over its mask, each with the shape of a quad |
| GreedyMesher.QuadsOfAxis | src/cb_voxels/greedy_mesher.rs:121-176 | the quads of one axis are those of its slices -1, 0, … in order, each with the shape of a quad |
| GreedyMesher.QuadsOfPass | src/cb_voxels/greedy_mesher.rs:81-285 | the quads of one pass are those of axes 0, 1, 2 in order, each with the shape of a quad |
| GreedyMesher.QuadsOfPasses | src/cb_voxels/greedy_mesher.rs:77-286 | the first pass meshes backfaces and the second front faces, and their quads are concatenated in that order |
| GreedyMesher.SliceStep | src/cb_voxels/greedy_mesher.rs:122-283 | computing one slice's mask and growing its rectangles gives exactly that slice's reference quads |
| GreedyMesher.AxisStep | src/cb_voxels/greedy_mesher.rs:121-122 | appending the next slice's quads to the quads so far gives the quads of one more slice of the axis |
| GreedyMesher.AppendSlice | src/cb_voxels/greedy_mesher.rs:122-283 | one more turn of the slice loop extends the axis's quads by exactly the next slice's |
| GreedyMesher.AxisQuads | src/cb_voxels/greedy_mesher.rs:121-283 | the slice loop from -1 to CHUNK_SIZE - 1 yields exactly the reference quads of the axis |
| GreedyMesher.PassQuads | src/cb_voxels/greedy_mesher.rs:81-285 | the axis loop yields exactly the reference quads of the pass |
| GreedyMesher.GreedyMeshShape | src/cb_voxels/greedy_mesher.rs:288 | merging well-shaped quads gives sizes 3/3/3, the given frame, two vertex values per index, and indices that name vertices |
| GreedyMesher.OpaqueRectsGiveQuads | src/cb_voxels/greedy_mesher.rs:217-259 | every non-transparent rectangle of a slice contributes its quad |
| GreedyMesher.OpaqueFacesMeshedOnce | src/cb_voxels/greedy_mesher.rs:124-283 | every visible (non-transparent) face in a slice's mask lies in exactly one rectangle, whose face equals it and whose quad is among the slice's quads |
| GreedyMesher.QuadColorsMisaligned | src/cb_voxels/greedy_mesher.rs:346-400 | as written, in a merge of two quads the colour array is 18 values for 8 vertices, and the first quad's fourth vertex reads the second quad's colour |
| GreedyMesher.GrassAndDirtDiffer | src/cb_voxels/greedy_mesher.rs:361-370 | grass and dirt colours differ, so the misplaced colour shows |
| GreedyMesher.GetQuadIntended | src/cb_voxels/greedy_mesher.rs:346-400 | the corrected quad carries 12 colour values, and each of its four vertices reads the kind's colour |
| GreedyMesher.IntendedColorsAligned | src/cb_voxels/greedy_mesher.rs:346-400 | with 12 colour values per quad, vertex v of a merge reads the colour of vertex v%4 of quad v/4 |
| Meshes.EmptyMesh | src/cb_graphics/mesh/mod.rs:51 | the mesh a merge starts from has no data, sizes 3/3/3 and the given frame |
| Meshes.Shifted | src/cb_graphics/mesh/mod.rs:81 | every index is moved up by the offset, in place |
| Meshes.Merge | src/cb_graphics/mesh/mod.rs:49-100 | panics exactly when some mesh's vertex, normal or colour size differs from the first mesh's; otherwise vertices, colours and normals are the in-order concatenations, each mesh's indices are shifted by the vertices before it, the sizes are the first mesh's (3/3/3 with no meshes), and the frame is the latest input frame, or `frame` when the result is empty |
| Meshes.MergeNothing | src/cb_graphics/mesh/mod.rs:95-97 | merging no meshes gives an empty 3/3/3 mesh stamped with `frame` |
| Meshes.MergedIndicesLength | src/cb_graphics/mesh/mod.rs:81-83 | the merged index count is the sum of the input index counts |
| Meshes.MergedIndicesLayout | src/cb_graphics/mesh/mod.rs:80-87 | index j of mesh k lands at position (indices before mesh k) + j, raised by the vertex count of the meshes before k |
| Meshes.MergedIndexStaysInOwnMesh | src/cb_graphics/mesh/mod.rs:80-87 | an index naming a vertex of its own mesh names, after the merge, a vertex inside that mesh's block of the merged vertices |
| Meshes.MaxFrameBounds | src/cb_graphics/mesh/mod.rs:89-91 | the merged frame is at least every input's frame |
| Meshes.MergedIndicesInRange | src/cb_graphics/mesh/mod.rs:76-87 | when every input index names a vertex of its own mesh, every merged index names a merged vertex |
| Meshes.IndexTotalMonotone | src/cb_graphics/mesh/mod.rs:81-83 | the indices of a prefix of the meshes are no more than those of all of them |
| Meshes.ConcatLength | src/cb_graphics/mesh/mod.rs:76-78 | concatenating arrays of n values each gives n values per mesh |
| Meshes.VertexTotalUniform | src/cb_graphics/mesh/mod.rs:85-87 | meshes of n three-value vertices hold n vertices per mesh together |
| Meshes.MaxFrameUniform | src/cb_graphics/mesh/mod.rs:89-91 | meshes that all carry one frame merge to that frame |
| VoxelMesher.NewMesher | src/cb_graphics/mesh/voxel_mesher.rs:44-58 | CHUNK_SIZE_CUBED slots, each with level of detail 1 and an empty 3/3/3 mesh at frame 0; the first frame is pending |
| VoxelMesher.AvailableLods | src/cb_graphics/mesh/voxel_mesher.rs:78-88 | the list starts at 1 and continues with the powers of two below CHUNKS, and the next power is not below CHUNKS; for CHUNKS = 4 it is [1, 2] |
| VoxelMesher.MeshIndexBijective | src/cb_graphics/mesh/voxel_mesher.rs:96-125 | the x-major, then y, then z enumeration gives each of the 64 chunks its own slot below 64, and every slot is reached |
| VoxelMesher.MeshChunks | src/cb_graphics/mesh/voxel_mesher.rs:60-130 | slot (x, y, z) is rebuilt (level of detail 1 and the greedy mesh of chunk (x, y, z) at `frame`, whose indices name its vertices) exactly when its chunk changed at or after the slot's mesh frame or on the first frame; other slots keep their mesh; afterwards the first frame is over |
| VoxelMesher.MeshSlot | src/cb_graphics/mesh/voxel_mesher.rs:101-121 | one slot is replaced by its chunk's greedy mesh at level of detail 1 exactly when the chunk changed at or after its mesh frame or on the first frame; every other slot is untouched |
| VoxelMesher.MeshColumn | src/cb_graphics/mesh/voxel_mesher.rs:100-124 | the z loop handles the four slots of column (x, y), at consecutive indices, and leaves every other slot untouched |
| VoxelMesher.MeshedSlotsAreCurrent | src/cb_graphics/mesh/voxel_mesher.rs:105-121 | on the first frame every slot is rebuilt at `frame` with level of detail 1 and holds the greedy mesh of its chunk |
| VoxelRender.InitVoxelMeshBuffers | src/cb_graphics/open_gl_backend/r_voxel_render.rs:14-44 | CHUNKS_CUBED buffers, each last calculated at frame 0 with no indices |
| VoxelRender.RefreshBuffer | src/cb_graphics/open_gl_backend/r_voxel_render.rs:100-120 | when the mesh is newer than the buffer or the frame is 0, the buffer takes the mesh's frame and index count; otherwise it is unchanged; the draw uses the stored index count |
| VoxelRender.RefreshAdvancesFrame | src/cb_graphics/open_gl_backend/r_voxel_render.rs:108-113 | a refresh on a frame other than 0 strictly raises the buffer's last calculated frame |
| VoxelRender.RefreshIsIdempotent | src/cb_graphics/open_gl_backend/r_voxel_render.rs:108-114 | once refreshed, the same mesh is not copied again on a later non-zero frame |
| VoxelRender.DrawMeshes | src/cb_graphics/open_gl_backend/r_voxel_render.rs:96-223 | buffer i is stepped against mesh slot i, each draw uses that buffer's stored index count, and buffers that need no refresh are unchanged and draw their previous count |
| InputContexts.ContextIdsIdentifyVariants | src/cb_input/contexts/mod.rs:93-158 | no context maps to EMPTY_CONTENTS, and two contexts share an id exactly when they are the same variant (Fighting 1, Rts 2, Shooter 3, VoxelEditor 4) |
| InputContexts.NewManager | src/cb_input/contexts/mod.rs:160-172 | all NUM_ACTIVE_CONTEXTS = 10 slots are empty |
| InputContexts.FirstWithId | src/cb_input/contexts/mod.rs:179-192 | the scan returns the context of the first occupied slot from `from` on whose id matches, and nothing exactly when no such slot exists |
| InputContexts.GetContext | src/cb_input/contexts/mod.rs:178-193 | a found context has the requested id and sits in some slot, no earlier slot holds one with that id, and nothing is found exactly when no slot holds that id |
| InputContexts.AddContext | src/cb_input/contexts/mod.rs:195-197 | slot 0 gets the context and slots 1..9 are unchanged |
| InputContexts.AddThenGet | src/cb_input/contexts/mod.rs:178-197 | after `add_context(c)`, `get_context` of c's id returns c |
| InputContexts.NewManagerFindsNothing | src/cb_input/contexts/mod.rs:168-193 | a new manager finds no context under any id |
| FightingContexts.NewFightingContext | src/cb_input/contexts/fighting_context.rs:25-40 | every direction and the parry are Off, every press is NotPressed |
| FightingContexts.KeyUpNeverPresses | src/cb_input/contexts/fighting_context.rs:133-162 | a key-up changes no press |
| FightingContexts.QuitAndEscapeChangeNothing | src/cb_input/contexts/fighting_context.rs:78-179 | Quit and Escape events change nothing |
| FightingContexts.FoldMatchesReference | src/cb_input/contexts/fighting_context.rs:59-166 | after the mapping loop each held input (Space up, S down, A left, D right, O parry) is in the state of its key's last down/up, else its previous state, and each button (U, I, J, K, L) is pressed iff its key went down or it already was |
| FightingContexts.GetFightingContext | src/cb_input/contexts/fighting_context.rs:43-195 | a press is Pressed iff its key went down this tick; parry follows its key's last transition; left and right follow theirs but both become Off when both are On; up follows its key, and down is dropped when both are On; so left = right = On and up = down = On never come out |
| FightingContexts.CleanedStatePersists | src/cb_input/contexts/fighting_context.rs:181-194 | the cleaned context is the next tick's previous one: after A then D go down, releasing A leaves right Off although D is still held |
| ShooterContexts.NewShooterContext | src/cb_input/contexts/shooter_context.rs:8-22 | a networked shooter context with nothing held or pressed, looking at (0, 0) |
| ShooterContexts.QuitAndEscapeChangeNothing | src/cb_input/contexts/shooter_context.rs:72-79 | Quit and Escape key-down change no local |
| ShooterContexts.StepByField | src/cb_input/contexts/shooter_context.rs:80-173 | one event: a Space key-down presses jump, and each held input follows a key-down (On) or key-up (Off) of its own key only |
| ShooterContexts.FoldMatchesReference | src/cb_input/contexts/shooter_context.rs:71-175 | after the loop jump is pressed iff Space went down, and W/A/S/D, C, LCtrl, LShift leave forward/left/backward/right, crouching, prone and running in the state of their last transition |
| ShooterContexts.GetShooterContextFromKeys | src/cb_input/contexts/shooter_context.rs:24-199 | always a networked shooter context whose look values are the cursor's; the events are read only when the previous context (or a new one when there is none) is a shooter context; the held inputs start Off whatever they were before |
| ShooterContexts.NoEventsReleaseEverything | src/cb_input/contexts/shooter_context.rs:186-198 | with no events every held input is released and jump is not pressed |
| ShooterContexts.GetRmercuryInputs | src/cb_input/mod.rs:48-69 | player 1's input: a new manager holding the tick's shooter context in slot 0 and nothing else, so it is what `get_context` finds under the shooter id |
| ActorInput.ForPlayer | src/cb_simulation/systems/actor_input_system.rs:22-25 | the filter keeps only world inputs of the given player, each taken from the world |
| ActorInput.ForPlayerAppend | src/cb_simulation/systems/actor_input_system.rs:22-25 | filtering distributes over concatenation, so the world order is kept |
| ActorInput.ForPlayerMembers | src/cb_simulation/systems/actor_input_system.rs:22-25 | an input is kept exactly when it is in the world and belongs to the player |
| ActorInput.ForPlayerExtremes | src/cb_simulation/systems/actor_input_system.rs:22-25 | a world of only the player's inputs is kept whole; a world with none of them gives nothing |
| ActorInput.CollectForPlayer | src/cb_simulation/systems/actor_input_system.rs:22-25 | the one-pass collecting loop yields exactly the reference filter: the player's world inputs in world order |
| ActorInput.PushAll | src/cb_simulation/systems/actor_input_system.rs:27-30 | the pushes keep the held inputs as a prefix and put the collected ones after them, in order |
| ActorInput.Run | src/cb_simulation/systems/actor_input_system.rs:18-32 | every actor's inputs become its old inputs followed by exactly the world inputs with its player id, in world order; the actors' number and ids are kept |
| Components.NewEditableComponent | src/cb_simulation/components/mod.rs:24-26 | the component stores the editing flag it is given |
| Components.NewRangePresentable | src/cb_simulation/components/mod.rs:56-63 | starts with the default range, a new slider presenter, and the component not editing |
| Components.Sync | src/cb_simulation/components/mod.rs:40-54 | when the component is editing, the range takes the presenter's model; otherwise, when the presenter is not editing, the presenter's model takes the range; when only the presenter is editing nothing changes; the flags and the view position are never touched |
| Components.SyncAgrees | src/cb_simulation/components/mod.rs:40-54 | after a sync in which either side acts, range and model agree, with the value coming from the side the flags name |
| Components.SyncIdempotent | src/cb_simulation/components/mod.rs:48-54 | syncing twice is syncing once |
| Components.NewIsInSync | src/cb_simulation/components/mod.rs:48-63 | a new component is already in sync |
| VoxelComponents.NewVoxelEditor | src/cb_simulation/components/voxel_components.rs:34-42 | a new editor is editing, has created no menu, shows slice 0 and has no callbacks |
| VoxelComponents.ResetEditor | src/cb_simulation/components/voxel_components.rs:44-50 | after a reset the editor is not editing, has no menu, shows slice 0 and has no callbacks |
| VoxelComponents.NewVoxelComponent | src/cb_simulation/components/voxel_components.rs:71-76 | a new component holds a new chunk manager and a new editor |
| VoxelComponents.StopEditing | src/cb_simulation/components/voxel_components.rs:187-189 | stopping resets the editor and keeps the voxels |
| VoxelComponents.ToggleMatching | src/cb_simulation/components/voxel_components.rs:86-97 | when no callback has the event's id the voxels are unchanged; a failure is an index error; the manager keeps its shape |
| VoxelComponents.SliceBindings | src/cb_simulation/components/voxel_components.rs:109-124 | succeeds exactly when every callback's voxel in the slice can be read, and then gives, for every callback in order, its id with its voxel's active flag |
| VoxelComponents.HandleEvent | src/cb_simulation/components/voxel_components.rs:85-129 | one event: a slice change on the slider's id moves the slice to the mapped value and reports one value per toggle; any other event reports nothing and keeps the editor |
| VoxelComponents.HandleEvents | src/cb_simulation/components/voxel_components.rs:78-132 | the editor's flags and callbacks are kept, and exactly (number of toggles) × (number of slice changes) values are reported |
| VoxelComponents.SameSliderSameCount | src/cb_simulation/components/voxel_components.rs:99-102 | how many events move the slice depends only on the slider's id |
| VoxelComponents.ToggleMatchingSingle | src/cb_simulation/components/voxel_components.rs:86-97 | when only callback k has its id, the toggle loop does exactly that callback's write |
| VoxelComponents.ToggleEventFlipsItsVoxel | src/cb_simulation/components/voxel_components.rs:85-97 | a toggle's event (its id shared by no other toggle nor the slider) flips exactly its voxel in the current slice and reports nothing; it fails exactly when that voxel cannot be addressed |
| VoxelComponents.SliceChangeReportsNewSlice | src/cb_simulation/components/voxel_components.rs:99-126 | a slider event moves the slice to the mapped value and reports, for every toggle in order, its voxel's active flag in the new slice |
| VoxelComponents.BuildRow | src/cb_simulation/components/voxel_components.rs:150-164 | one grid row: sixteen toggles, and sixteen callbacks appended in creation order (x = 15..0 on row y) after those already recorded; an unreadable voxel of the row is the only failure |
| VoxelComponents.StartEditing | src/cb_simulation/components/voxel_components.rs:134-185 | fails if a menu was already created; otherwise marks it created, keeps the voxels, records (CHUNK_SIZE·CHUNKS)² = 256 toggle callbacks in creation order (rows y = 15..0, in each x = 15..0) and the slider's id, and returns a column of 16 rows followed by the slider set to the current slice of 0..16; the only other failure is a voxel of the slice that cannot be read |
| VoxelComponents.StopEditingAllowsRestart | src/cb_simulation/components/voxel_components.rs:134-189 | after stopping, no menu is recorded as created and no callbacks remain, so the menu can be started again; the voxels are kept |
| VoxelEditorSystem.NewCamera | src/cb_simulation/components/gfx_components.rs:24-38 | a new camera is in perspective with every position, target and angle at 0 |
| VoxelEditorSystem.CameraStep | src/cb_simulation/systems/voxel_editor_system.rs:54-108 | pitch, yaw and roll are kept; a view preset (front, then left, right, top, in that precedence) places the camera at its position, (1250,1250,-2500), (2500,1250,1250), (-2500,1250,1250) or (1250,1250,2500), and looks at (1250,1250,1250), leaving the projection alone; without a preset only the target's y moves (+100 for rotate-up, else -100 for rotate-down), and the projection flips exactly when the toggle is pressed |
| VoxelEditorSystem.PresetIsIdempotent | src/cb_simulation/systems/voxel_editor_system.rs:67-100 | applying a preset twice is the same as once: a preset forgets where the camera was |
| VoxelEditorSystem.ToggleAndRotationUndo | src/cb_simulation/systems/voxel_editor_system.rs:56-106 | without presets, rotate-up then rotate-down with the toggle pressed both times restores the camera |
| VoxelEditorSystem.EditVoxel | src/cb_simulation/systems/voxel_editor_system.rs:181-223 | with neither add nor remove pressed nothing changes; otherwise the edit fails exactly when the voxel at (cursor x, cursor y, 0) cannot be addressed |
| VoxelEditorSystem.EditSetsVoxelUnderCursor | src/cb_simulation/systems/voxel_editor_system.rs:183-222 | after an edit the voxel under the cursor at z = 0 is active exactly when add was pressed (add wins over remove), and its other fields are unchanged |
| VoxelEditorSystem.StepCameras | src/cb_simulation/systems/voxel_editor_system.rs:54-108 | every camera takes the step |
| VoxelEditorSystem.EditAll | src/cb_simulation/systems/voxel_editor_system.rs:183-222 | the edit succeeds exactly when every voxel component's edit does, and then each component holds its own edit |
| VoxelEditorSystem.ApplySlot | src/cb_simulation/systems/voxel_editor_system.rs:26-49 | empty slots and other contexts leave the world unchanged |
| VoxelEditorSystem.SlotsWithoutEditorChangeNothing | src/cb_simulation/systems/voxel_editor_system.rs:26-31 | slots holding no voxel-editor context change nothing |
| VoxelEditorSystem.OnlyEditorContextsAct | src/cb_simulation/systems/voxel_editor_system.rs:21-229 | inputs with no voxel-editor context leave every camera and voxel as it was |
| VoxelEditorSystem.SingleEditorContextSteps | src/cb_simulation/systems/voxel_editor_system.rs:25-228 | an input whose manager holds one voxel-editor context steps every camera and edits every voxel component once |
| VoxelEditorSystem.ConsoleMode | src/cb_simulation/systems/voxel_editor_system.rs:114-177 | the mode choice "1" adds, "2" removes, and anything else is refused |
| VoxelEditorSystem.ParsedParts | src/cb_simulation/systems/voxel_editor_system.rs:143-155 | at most one value per part; when every part parses, one value per part, in order |
| VoxelEditorSystem.ConsoleCoordinates | src/cb_simulation/systems/voxel_editor_system.rs:133-171 | as written, a line is refused and read again exactly when it does not split on ',' into three parts |
| VoxelEditorSystem.ConsoleCoordinatesPanics | src/cb_simulation/systems/voxel_editor_system.rs:143-159 | as written, "1,x,3" splits into three parts, one fails to parse, and indexing the values panics |
| VoxelEditorSystem.ConsoleCoordinatesIntended | src/cb_simulation/systems/voxel_editor_system.rs:136-159 | the corrected step never panics, and yields coordinates exactly when the line has three parts that all parse, namely the parsed values |
| VoxelEditorSystem.ConsoleCoordinatesRoundTrip | src/cb_simulation/systems/voxel_editor_system.rs:136-159 | any coordinates below the usize limit, printed as "x,y,z", are read back exactly by both steps |
| VoxelEditorSystem.ConsoleIntendedAgrees | src/cb_simulation/systems/voxel_editor_system.rs:136-159 | whenever the as-written step does not panic, it agrees with the corrected one |
| VoxelEditorSystem.ConsoleAdd | src/cb_simulation/systems/voxel_editor_system.rs:161-167 | the add mode succeeds exactly when the coordinates locate a voxel in every component, and then reading that voxel back gives it unchanged except now active |
| VoxelEditorSystem.ParsedAllOrFewer | src/cb_simulation/systems/voxel_editor_system.rs:145-155 | when some part fails to parse, fewer values than parts are collected |
| Presenters.GetViewObjects | src/cb_patterns/presenter.rs:52-82 | exactly one rectangle: x kept, half the view's width, the mapped model value as height, and y moved down by the view height minus that value when it is positive, else not at all |
| Presenters.SliderSitsOnViewBottom | src/cb_patterns/presenter.rs:63-75 | when the mapped value lies inside 0..height, the slider's bottom edge is the view's bottom edge |
| Presenters.NewSliderPresenter | src/cb_patterns/presenter.rs:92-104 | not editing, the default model, view position (0, 0, 100, 100) |
| Presenters.SetViewPosition | src/cb_patterns/presenter.rs:110-112 | the position is replaced and nothing else changes |
| Presenters.SetModel | src/cb_patterns/presenter.rs:116-118 | the model is replaced and nothing else changes |
| Presenters.GetView | src/cb_patterns/presenter.rs:124-129 | the view carries the presenter's position and model |
| Presenters.SettersRoundTrip | src/cb_patterns/presenter.rs:106-129 | setting the model and the position, in either order, is what the view then shows; setting a field to its current value changes nothing |
| MenuGfx.NewColor | src/cb_menu/gfx.rs:12-14 | each channel lands in its own field, whatever the order they are written in |
| MenuGfx.Black | src/cb_menu/gfx.rs:16-18 | black is zero on every channel |
| MenuGfx.NewPalette | src/cb_menu/gfx.rs:33-42 | the six palette colours and their channel values |
| MenuGfx.PaletteColoursDistinct | src/cb_menu/gfx.rs:33-42 | the colours widgets switch between (toggle on/off, hover/normal) differ, and the quaternary colour is black |
| GuiEnvironment.NewRootForm | src/cb_menu/mod.rs:167-186 | the root form is 100×100 at the origin, outlined in black, and filled with its default grey |
| GuiEnvironment.NewGui | src/cb_menu/mod.rs:12-22 | the mouse starts in the middle of the window and no click is pending |
| GuiEnvironment.AsUsize | src/cb_menu/mod.rs:54 | an `i32` cast to `usize` keeps non-negative values and wraps negative ones around 2^64 |
| GuiEnvironment.Hover | src/cb_menu/mod.rs:204-212 | a form with a default colour takes the hover fill; one without is unchanged |
| GuiEnvironment.Unhover | src/cb_menu/mod.rs:213-217 | a form with a default colour returns to it; one without is unchanged |
| GuiEnvironment.HoverThenUnhoverRestores | src/cb_menu/mod.rs:204-217 | hovering then unhovering a form that showed its default colour restores it |
| GuiEnvironment.Step | src/cb_menu/mod.rs:24-98 | motion hovers the root under the mouse and unhovers it otherwise; a press records its place and clicks a root there; a release acts only after a press, at the press's place, and forgets it; other events do nothing |
| GuiEnvironment.Update | src/cb_menu/mod.rs:38-105 | events never move or resize the root or the window, and each runs at most one handler |
| GuiEnvironment.PressThenReleaseUsesPressPosition | src/cb_menu/mod.rs:61-96 | a press then a release click and release the root exactly when the press was on it, wherever the release is, and no press is left pending |
| GuiEnvironment.ReleaseWithoutPressIsIgnored | src/cb_menu/mod.rs:87-95 | a release with no pending press changes nothing |
| GuiEnvironment.Draw | src/cb_menu/mod.rs:225-254 | a filled rectangle, then an outline drawn in the fill colour; an outline with no fill panics |
| GuiEnvironment.DrawNeverFailsAfterUpdate | src/cb_menu/mod.rs:12-109 | a new environment can be drawn after any events |
| GuiEnvironment.UpdateKeepsColours | src/cb_menu/mod.rs:38-105 | events never change the default or outline colour, and never remove the fill of a form that has a default colour |
| MenuForms.NewPlainForm | src/cb_menu/cb_form.rs:16-29 | a plain form is 640×480 at the origin, outlined in quaternary, filled in secondary, with no children |
| MenuForms.NewRow | src/cb_menu/cb_form_row.rs:11-17 | a row starts as a plain form does |
| MenuForms.NewColumn | src/cb_menu/cb_form_column.rs:11-17 | a column starts as a plain form does |
| MenuForms.NewToggle | src/cb_menu/cb_button_toggle.rs:19-33 | a toggle starts on, filled in primary, outlined in quaternary, 100×100 at the origin |
| MenuForms.NewButton | src/cb_menu/forms/cb_button.rs:21-34 | a button is filled in primary, outlined in quaternary, 100×100 at the origin |
| MenuForms.NewLabel | src/cb_menu/forms/cb_label.rs:20-33 | a label holds its text in quaternary, 100×100 at the origin |
| MenuForms.NewSlider | src/cb_menu/forms/cb_slider_horizontal.rs:29-46 | a slider has its own event id, nothing queued, the default range, primary fill and quaternary outline |
| MenuForms.SubscribeToEvent | src/cb_menu/forms/cb_slider_horizontal.rs:48-50 | a slider's subscription id is the id its events carry |
| MenuForms.AddChildDefault | src/cb_menu/form.rs:35-49 | the child is appended after the existing children, moved to the parent's corner, with the parent's height as its width and its own height kept |
| MenuForms.GetChild | src/cb_menu/form.rs:53-68 | no hit outside the form; otherwise the first child containing the point answers with its own deepest hit or itself; a hit always contains the point, and a child containing the point guarantees a hit |
| MenuForms.FirstHit | src/cb_menu/form.rs:55-64 | the scan over the children from a given one: the first child containing the point decides the answer |
| MenuForms.UpdateAt | src/cb_menu/cb_form.rs:45-54 | update keeps every widget's colours and child count, empties slider queues, places row and column children, and returns a slider's queued events first; a toggle and a column return none |
| MenuForms.UpdateChildren | src/cb_menu/cb_form_row.rs:38-60 | children are updated in order, each placed by its parent's layout, and each keeps its kind apart from a drained queue |
| MenuForms.AddChildRelayout | src/cb_menu/cb_form_row.rs:20-23 | a row or column appends the child and lays its children out again, keeping its own kind and position |
| MenuForms.AddChild | src/cb_menu/form.rs:35-49 | adding a child always adds exactly one |
| MenuForms.OnHover | src/cb_menu/cb_button_toggle.rs:63-65 | toggles and buttons take the accent fill; every other widget is unchanged |
| MenuForms.OnUnhover | src/cb_menu/cb_form.rs:62-66 | every widget unhovers all its children; a toggle refills from its value and a button returns to primary; nothing else changes |
| MenuForms.Clamp | src/cb_menu/forms/cb_slider_horizontal.rs:123-127 | the horizontal offset is limited to 0..width and kept when it already lies there |
| MenuForms.OnRelease | src/cb_menu/forms/cb_slider_horizontal.rs:113-147 | a toggle flips and refills; a slider takes the clamped offset over its width as its value and queues one range change under its own id; other widgets are unchanged |
| MenuForms.Rebind | src/cb_menu/forms/cb_slider_horizontal.rs:54-75 | a slider applies the events addressed to it; every widget passes the whole list to all of its children; nothing but a slider's value changes |
| MenuForms.Draw | src/cb_menu/forms/cb_slider_horizontal.rs:149-199 | a widget's own calls come before its children's, and a widget whose own calls fail cannot be drawn |
| MenuForms.Reset | src/cb_menu/cb_form.rs:31-33 | a reset form has no children and keeps its kind and position |
| MenuForms.SetPosition | src/cb_menu/cb_form.rs:37-39 | only the position changes |
| MenuWidgets.RowLayout | src/cb_menu/cb_form_row.rs:33-63 | child j of a row gets x offset j·(width/k), the row's y and height, and width/k; neighbours touch and the children fill the row's width up to less than k pixels |
| MenuWidgets.ColumnLayout | src/cb_menu/cb_form_column.rs:33-58 | child j of a column gets y offset j·(height/k), the column's x and width, and height/k; neighbours touch and the children fill the column's height up to less than k pixels |
| MenuWidgets.UpdateQuiets | src/cb_menu/forms/cb_slider_horizontal.rs:85-98 | after update no slider anywhere in the tree has a queued event |
| MenuWidgets.UpdateChildrenQuiet | src/cb_menu/cb_form.rs:45-54 | updating the children leaves every one of them with nothing queued |
| MenuWidgets.QuietUpdateIsSilent | src/cb_menu/cb_form.rs:45-54 | a tree with nothing queued returns no events |
| MenuWidgets.QuietChildrenAreSilent | src/cb_menu/cb_form.rs:45-54 | children with nothing queued return no events |
| MenuWidgets.UpdateTwiceIsSilent | src/cb_menu/forms/cb_slider_horizontal.rs:85-98 | every queued event is handed out once: a second update returns nothing |
| MenuWidgets.RebindIgnoresOtherIds | src/cb_menu/forms/cb_slider_horizontal.rs:55-56 | events addressed to other widgets leave a slider's value alone |
| MenuWidgets.RebindAppend | src/cb_menu/forms/cb_slider_horizontal.rs:55-70 | rebinding with two lists in turn is rebinding with their concatenation |
| MenuWidgets.LastRangeChangeWins | src/cb_menu/forms/cb_slider_horizontal.rs:65-67 | the last range change addressed to the slider decides its value |
| MenuWidgets.ReleaseUpdateRebindRoundTrip | src/cb_menu/forms/cb_slider_horizontal.rs:54-147 | a released slider's update hands out events that, rebound, give it back the value it took on release |
| MenuWidgets.ToggleReleaseTwice | src/cb_menu/cb_button_toggle.rs:35-79 | two releases give a toggle back its value and the fill that value calls for |
| MenuWidgets.ToggleStatesDistinguishable | src/cb_menu/cb_button_toggle.rs:35-41 | with the engine palette, a toggle's on and off fills differ |
| MenuWidgets.ButtonHoverUnhover | src/cb_menu/forms/cb_button.rs:61-71 | hovering then unhovering a new button gives back its primary fill |
| MenuWidgets.UnhoverIdempotent | src/cb_menu/cb_form.rs:62-66 | unhovering twice is unhovering once, anywhere in the tree |
| MenuWidgets.DrawSucceeds | src/cb_menu/forms/cb_slider_horizontal.rs:164-181 | drawing never panics on a tree whose sliders all have outlines |
| MenuWidgets.DrawChildrenSucceed | src/cb_menu/cb_form.rs:75-83 | children whose sliders all have outlines are drawn without a panic |
| MenuWidgets.SliderWithoutOutlineFails | src/cb_menu/forms/cb_slider_horizontal.rs:175-178 | a slider without an outline colour panics when drawn |
| MenuWidgets.ButtonsDrawFillThenOutline | src/cb_menu/forms/cb_button.rs:80-109 | toggles and buttons draw their fill and then their outline before their children |
| MenuWidgets.LabelDrawsTextFirst | src/cb_menu/forms/cb_label.rs:71-96 | a label first draws its text, in its text colour or in black when it has none |
| MenuWidgets.SliderDrawOrder | src/cb_menu/forms/cb_slider_horizontal.rs:149-192 | a slider draws its background, a bar as wide as its mapped value, the bar's outline, then its own outline |
| MenuWidgets.ContainersDrawOnlyChildren | src/cb_menu/cb_form.rs:75-83 | plain forms, rows and columns draw only their children, so an empty one draws nothing |
| Commands.NewMacro | src/cb_patterns/command.rs:10-12 | a new macro holds no commands |
| Commands.Append | src/cb_patterns/command.rs:14-16 | the command goes on top; the commands below are kept in order |
| Commands.Undo | src/cb_patterns/command.rs:18-20 | the top command is dropped; undoing an empty macro leaves it empty |
| Commands.Clear | src/cb_patterns/command.rs:22-24 | no commands remain |
| Commands.UndoAfterAppend | src/cb_patterns/command.rs:14-20 | undo takes back exactly the last append |
| Commands.Execute | src/cb_patterns/command.rs:28-32 | every held command runs once, oldest first |
| FmSynthComponents.NewFmSynthEditor | src/cb_simulation/components/audio/fmsynth_component.rs:81-89 | not editing, no menu created, slice 0, no callbacks |
| FmSynthComponents.ResetFmSynthEditor | src/cb_simulation/components/audio/fmsynth_component.rs:91-97 | any editor is reset to the state of a new one |
| FmSynthComponents.NewFmSynthComponent | src/cb_simulation/components/audio/fmsynth_component.rs:16-21 | a new component is not editing and has created no menu |
| FmSynthComponents.HandleEvents | src/cb_simulation/components/audio/fmsynth_component.rs:38-52 | the handler changes nothing and reports no data-binding changes |
| FmSynthComponents.InitEditor | src/cb_simulation/components/audio/fmsynth_component.rs:54-73 | fails with "already created menu" exactly when a menu exists; otherwise marks the menu created and returns a plain form with one "Some String" label |
| FmSynthComponents.CloseEditor | src/cb_simulation/components/audio/fmsynth_component.rs:75-77 | a closed component equals a new one |
| FmSynthComponents.InitEditorOnceUntilClosed | src/cb_simulation/components/audio/fmsynth_component.rs:54-77 | a second init fails until the editor is closed; after closing, init succeeds again |
| LinkedLists.NewList | src/cb_data_structures/mod.rs:10-15 | a new node has the given value and no next node |
| LinkedLists.AddNext | src/cb_data_structures/mod.rs:23-25 | the next node is set; the value is kept |
| LinkedLists.RemoveNext | src/cb_data_structures/mod.rs:28-30 | the next node is gone; the value is kept |
| LinkedLists.AddRemoveRestores | src/cb_data_structures/mod.rs:10-30 | removing right after adding gives the same node as removing alone; a new node comes back unchanged |
| AppContexts.NewAppManager | clients/application/src/contexts/mod.rs:29-44 | a new manager holds exactly the main-menu context and so has an active context |
| AppContexts.InitMainMenu | clients/application/src/contexts/mod.rs:39-44 | one run-when-active context is pushed on top of the stack |
| AppContexts.Tick | clients/application/src/contexts/mod.rs:46-49 | whatever the inputs, a tick returns a fresh manager |
| AppContexts.TicksKeepAContext | clients/application/src/contexts/mod.rs:46-53 | after any number of ticks there is an active context, and after at least one the manager is a fresh one |
| Text.DigitChar | src/cb_cmd_line/mod.rs:48-53 | a digit below ten prints as the character that denotes it |
| Text.Decimal | src/cb_cmd_line/mod.rs:48-53 | a printed number is a non-empty run of decimal digits with no leading zero |
| Text.DecimalRoundTrip | src/cb_cmd_line/mod.rs:48-53 | the digits printed for a number denote that number |
| Text.DecimalInjective | src/cb_cmd_line/mod.rs:48-53 | different numbers print differently |
| Text.ParseUsize | src/cb_simulation/systems/voxel_editor_system.rs:146 | parsing a usize accepts digit strings whose value fits in 64 bits, never yields a larger value, and rejects the empty string |
| Text.ParsePrinted | src/cb_simulation/systems/voxel_editor_system.rs:146 | every usize, printed, parses back to itself |
| Text.Split | src/cb_simulation/systems/voxel_editor_system.rs:136 | splitting on a separator yields at least one piece and no piece contains the separator |
| Text.JoinSplit | src/cb_simulation/systems/voxel_editor_system.rs:136 | splitting loses nothing: the pieces joined with the separator give the line back |
| Text.SplitCount | src/cb_simulation/systems/voxel_editor_system.rs:136-138 | there is one more piece than there are separators, so the length check asks for exactly two commas |
| Text.SplitJoin | src/cb_simulation/systems/voxel_editor_system.rs:136 | pieces free of the separator, joined and split again, come back unchanged |
| Text.SplitThree | src/cb_simulation/systems/voxel_editor_system.rs:136-138 | "a,b,c" with comma-free parts splits into exactly those three parts |
| CmdLine.Numbered | src/cb_cmd_line/mod.rs:26-34 | the options carry the given texts in order, numbered consecutively |
| CmdLine.NewCmdMenu | src/cb_cmd_line/mod.rs:23-42 | a menu at the given level with the header, no child, and the options numbered from 1 in the order given |
| CmdLine.Root | src/cb_cmd_line/mod.rs:17-21 | a root menu is a menu at level 0 |
| CmdLine.MenuKeepsTexts | src/cb_cmd_line/mod.rs:23-42 | a menu shows exactly the texts it was given, with strictly increasing ids |
| CmdLine.PrintLines | src/cb_cmd_line/mod.rs:44-55 | print writes the header, then one "# id: text" line per option, in order |
| CmdLine.OptionLinesDistinct | src/cb_cmd_line/mod.rs:44-55 | no two option lines of a menu are the same |
| CmdLine.TrimLine | src/cb_cmd_line/mod.rs:57-71 | reading a choice drops a trailing newline and then a trailing carriage return, and nothing else |
| CmdLine.TrimLineEndings | src/cb_cmd_line/mod.rs:64-69 | a line typed with either line ending reads back as typed |
| CmdLine.TypedIdSelects | src/cb_cmd_line/mod.rs:44-71 | typing the number printed before an option reads back as that number |

## Left out

- SDL and OpenGL plumbing (window creation, buffer uploads, shader and draw calls) is out because these are foreign calls. The voxel renderer keeps only the choice of which buffers to refresh and which meshes to draw.
- Floating-point work is out: projection and view matrices, camera scaling, and FM synthesis. Vertex positions are exact reals; the f32 scaling by the voxel size (1.0) is dropped.
- The C window wrapper and the main menu loop are out because they are pure I/O. The console's standard-input reads are parameters.
- Inverse kinematics is out because its helpers are `unimplemented!()` and the rest is float-based and commented out.
- Networking and serialisation are out because they are `unimplemented!()` stubs: the `rmercury` integration, `to_bits`/`from_bits`, and the navigation server.
- The ECS wiring is out because it only registers components and systems: world building, assemblages, dispatchers, the sprite, IK and audio systems, and the data-only component files.
- `src/cb_graphics/open_gl_backend/r_voxel_meshes.rs` is out because it is a stale duplicate of the voxel renderer that does not build its struct.
- The RTS and voxel-editor input contexts are out because they ignore their inputs and always return their `new()` value. The editor system takes the voxel-editor context as given.
- `index_3d_to_1d` and the bodies of `CbNormalizedRange`'s `map_to_range_usize`, `min`, `max` and `default` are not part of this model. They are parameters, and lemmas that need them in range say so.
- `CbNormalizedRange::new`'s body is not part of this model either. It is modelled as the `NormalizedRange` constructor, which stores its three arguments unchanged; any clamping or normalising `new` might do is not modelled.
- UUID generation for menu event ids and the mouse-state reads are inputs of the operations that use them.
- `rayon`'s parallel iteration in chunk creation and `randomize` runs sequentially, because the chunks are independent.
- Where files disagree on signatures (`Mesh::merge`/`Mesh::new` arities, the `Form` trait's `update`, `on_click` and `on_release`, the older `Pallate` button in `src/cb_menu/cb_button.rs`), each file's own logic is modelled. Widgets whose `update` returns nothing (toggle, column) return no events.
- `on_click` of every widget only prints, so it is not modelled. The root form's click and release are recorded as handler names.
- The `GuiEnvironment` root form can never receive children, so it is modelled without them.
- `CbButtonToggle` has no `subscribe_to_event`, so the voxel editor's toggle event ids are caller-supplied.
- The slider's `on_release` also computes a y range that it never uses; that computation is dropped.
- The macro command's `execute` is modelled as the trace of commands it runs, in order, because the commands' own effects are not known.
- The FM-synth editor never registers toggle callbacks, so `handle_events` always returns nothing.
- `get_voxel` (non-mut) is not part of this model. Reads use `get_voxel_mut`'s addressing without the frame stamp.
- The console's "remove voxel" mode only prints a message, so it is not modelled beyond choosing the mode.
- `VoxelEditorSystem.Run` does not open the console when `open_console` is pressed, because the console blocks on standard input. Its steps are modelled separately: `ConsoleMode` picks the mode, `ConsoleCoordinates` reads the line, and `ConsoleAdd` makes the voxel at those coordinates active in every component.
- `VoxelEditorSystem.CameraStep`: camera fields are unbounded integers. The `i32` arithmetic of the ±100 rotation step is not wrapped, because only about 2^31/100 presses in one direction would overflow.
- `Presenters.GetViewObjects`: the `i32` casts of the view height and mapped height are not modelled. The difference is taken on naturals, which agrees with the code whenever both values are below 2^31.
- `MenuForms.OnRelease`: the release coordinates and the slider's position are not truncated to `i32` before subtracting, which agrees with the code for on-screen coordinates below 2^31.
- `CbVoxels.Locate`: the failure is stated only as a panic, not as a condition on the coordinates, because it depends on the unseen `index_3d_to_1d`. `CbVoxels.LocateSucceedsInChunk` gives the condition under which it succeeds.
- `MenuForms.AddChild`: states only that one child is added. `MenuForms.AddChildDefault` and `MenuForms.AddChildRelayout` state the placement for each kind of parent.
- `GuiEnvironment.Update`: states only what the whole sequence preserves. The per-event effect is stated by `GuiEnvironment.Step`.

## Findings

| source | as written | input that shows it | evidently intended | confidence | as-written member | corrected member |
|---|---|---|---|---|---|---|
| src/cb_voxels/mod.rs:65-102 | the chunk is chosen by `x % CHUNKS` but the voxel inside it by `x - chunk·CHUNK_SIZE`, saturating at 0 | x = 2 and x = 6 address the same voxel; x = 4 falls outside its chunk | chunk `x / CHUNK_SIZE`, voxel `x % CHUNK_SIZE`, so every coordinate below the voxel width has its own voxel | not executed | CbVoxels.LocateAliases | CbVoxels.LocateIntendedSucceeds |
| src/cb_voxels/greedy_mesher.rs:346-400 | each quad gets three colour triples (nine values) for its four vertices | two quads merged: the first quad's fourth vertex takes the second quad's colour, e.g. grass followed by dirt | one colour triple per vertex, twelve values per quad | not executed | GreedyMesher.QuadColorsMisaligned | GreedyMesher.IntendedColorsAligned |
| src/cb_simulation/systems/voxel_editor_system.rs:143-159 | a part that fails to parse only skips that part (`continue` in the inner loop), then `values[2]` is indexed | the line "1,x,3" panics | print "invalid format!" and read the line again | not executed | VoxelEditorSystem.ConsoleCoordinatesPanics | VoxelEditorSystem.ConsoleCoordinatesIntended |
