# RyRef reference-image overlay — a Dafny model

RyRef is a Blender addon that draws user-positioned reference images over the
3D viewport in screen space. This project models its core:

- **the per-frame draw callback** (`draw_overlay`): with overlays switched on,
  walk the scene's records in store order; skip hidden records; resolve each
  remaining record's texture through the texture cache; skip records whose
  load fails or whose image has no data or a zero side; otherwise emit one
  textured quad (four corners from position × image size × scale, four
  texture coordinates from the unit square with independent X and Y flips,
  the two triangles `(0,1,2)` and `(2,3,0)`, the record's opacity as alpha);
- **the texture cache** (`_image_cache`): a dictionary from file path to the
  (image, GPU texture) pair, filled on a miss only when the load succeeds,
  popped when a record is removed and cleared on unregister;
- **the list operators**: add a record with the fixed defaults and select it,
  remove the selected record (popping its path from the cache) and select
  index `max(0, idx - 1)` — the record before it, or the new first record
  when the first was removed — and move the selected record up or down by
  one place.

Modules, one per component:

| file | module | content |
|---|---|---|
| geometry.dfy | Geometry | quad corners, texture coordinates and flips, triangles (pure) |
| texture_cache.dfy | TextureCache | cache entries, the loader oracle, `ImageCache` class over a `map` |
| scene.dfy | Scene | the overlay record and the `SceneState` class (records, selected index, on/off toggle) |
| compositor.dfy | Compositor | `DrawOverlay`, a loop over the records, proved against `Commands` and `Grown` |
| operators.dfy | Operators | `AddImage`, `RemoveImage`, `MoveImage`, proved against `AddStep`, `RemoveStep`, `MoveStep` |

`DrawOverlay` is specified by two functions of the cache as it stood when
the frame began: `Commands` (what is drawn) and `Grown` (what the cache
becomes). Within one frame, every record resolves to the same entry it
would get against the starting cache (`LookupGrown`). The reason is that the
only entries the frame adds are ones the loader produced.

Geometry uses exact `real` arithmetic; image sizes are `nat`.

Image loading (`bpy.data.images.load`, `gl_load`, `gpu.texture.from_image`)
is the parameter `load: Path -> Option<CacheEntry>`. It returns `None` when
any of the three steps raises. A new `load` is passed to each frame, so a
path that failed in one frame can succeed in the next.

The GPU calls are not modelled. Each `batch.draw` becomes one `DrawCommand`
value holding the corners, texture coordinates, index buffer, alpha and
texture.

Two behaviours of the code worth knowing:

- Removal pops the removed record's path unconditionally (`__init__.py:175`).
  Another record may still use the same path. A reference-counted policy
  would keep the entry while another record still uses the path; the code
  does not. `RemoveEvictsSharedPath` states what the code does: the
  remaining record loses its cached texture, and the next frame loads it
  again.
- A successful load is cached before the degenerate-size check
  (`__init__.py:97` runs before `__init__.py:103`). So an image with no data
  or a zero side stays in the cache and is skipped on every frame while the
  host image still reports no data or a zero side.

The move operator calls the host collection's `move(from, to)` and then
shifts the selected index, with no handler around the call
(`__init__.py:195-200`). What the host does with an index outside the
collection is not visible in this source, so it is the parameter
`host: HostBehaviour` of `MoveStep`, `MoveImage` and `HostMove`:

- `Raises`: the call raises, the operator ends before the index update, and
  `finished` is false with nothing changed;
- `Ignores`: the collection stays as it is, the call returns normally, and
  the index is still shifted by one.

Either way no record moves. The case arises only for a selected index at or
past the end (Up) or below zero (Down), which the add-on's own operators
never produce. Every lemma about moves holds for both behaviours.

## Model

| member | source | states |
|---|---|---|
| Geometry.Corners | __init__.py:106-117 | the four corners are the unit square carried to the position and stretched to (image width × scale x, image height × scale y): bottom-left, right, up-right, up |
| Geometry.FlipU | __init__.py:120-121 | the horizontal flip keeps the length and maps every (u, v) to (1 - u, v) |
| Geometry.FlipV | __init__.py:122-123 | the vertical flip keeps the length and maps every (u, v) to (u, 1 - v) |
| Geometry.QuadUVs | __init__.py:119-123 | four texture coordinates; undoing the requested flips on coordinate i gives corner i of the unit square (0,0),(1,0),(1,1),(0,1) |
| Geometry.Triangles | __init__.py:125 | the index buffer is two triangles, (0,1,2) and (2,3,0), whose indices all name one of the four corners |
| Geometry.CornersExample | __init__.py:106-117 | position (100,100), scale (0.2,0.2) and a 500×300 image give corners (100,100), (200,100), (200,160), (100,160) |
| Geometry.FlipsAreInvolutions | __init__.py:119-123 | flipping u twice, or v twice, gives back the coordinates |
| Geometry.FlipsCommute | __init__.py:119-123 | the u flip and the v flip may be applied in either order |
| Geometry.QuadUVsTable | __init__.py:119-123 | the texture coordinates for all four flag combinations; both flips give (1,1),(0,1),(0,0),(1,0) |
| Geometry.QuadUVsInUnitSquare | __init__.py:119-123 | every texture coordinate component is 0 or 1 |
| Geometry.TextureMapping | __init__.py:106-123 | undoing the flips on corner i's texture coordinate gives that corner's place in the quad, so the texture is mirrored exactly along the flipped axes |
| Geometry.TrianglesShareDiagonal | __init__.py:125 | both triangles index corners 0..3, both contain corners 0 and 2, and together they use all four corners |
| Geometry.TrianglesCoverQuad | __init__.py:112-125 | each triangle's doubled signed area is width × height, so with a positive extent both are counter-clockwise and each has half the quad's area |
| TextureCache.Lookup | __init__.py:92-101 | a cached path yields its cached entry; the result is None exactly when the path is not cached and its load fails |
| TextureCache.AfterResolve | __init__.py:92-101 | resolving keeps every old entry; it adds exactly the resolved path when that path missed and loaded, and nothing otherwise; a stored entry is the one the resolution returned |
| TextureCache.ResolveTwice | __init__.py:92-101 | once a path has resolved, resolving it again is a hit that returns the same entry and leaves the cache alone, whatever the loader would now say |
| TextureCache.ImageCache.Resolve | __init__.py:92-101 | hit: returns the cached entry, cache unchanged; miss with a successful load: returns the loaded entry and stores it under the path; miss with a failed load: returns None, cache unchanged |
| TextureCache.ImageCache.Pop | __init__.py:175 | removes the path if present and is a no-op otherwise |
| TextureCache.ImageCache.Clear | __init__.py:286 | empties the cache |
| TextureCache.ImageCache.constructor | __init__.py:21 | the cache starts empty |
| Scene.SceneState.constructor | __init__.py:265-271 | a scene starts with no records, index 0 and overlays on |
| Compositor.Degenerate | __init__.py:103-104 | an image is skipped exactly when it has no data or its area (width × height) is zero |
| Compositor.Quad | __init__.py:106-136 | four corners, four texture coordinates and the fixed index buffer, drawn with the record's opacity as alpha and the resolved texture; corner i shows the texture point that, with the flips undone, lands on it |
| Compositor.Emitted | __init__.py:87-136 | one record adds at most one command, and adds one exactly when it is visible, its path resolves and the image is not degenerate; that command is the record's quad over the resolved entry |
| Compositor.Commands | __init__.py:87-138 | a frame draws at most one command per record |
| Compositor.Grown | __init__.py:87-101 | the cache after a frame keeps every entry it had; each new entry is under a visible record's path and is what the loader produced for it |
| Compositor.DrawOverlay | __init__.py:82-138 | overlays off: no commands and the cache unchanged; overlays on: exactly `Commands` of the starting cache, and the cache becomes `Grown` |
| Compositor.DrawRecord | __init__.py:87-136 | one loop iteration: a hidden record emits nothing and leaves the cache alone; a visible one resolves its path through the cache and emits its quad unless the load failed or the image is degenerate |
| Compositor.FrameStep | __init__.py:87-138 | one more record appends that record's own commands to the frame and grows the cache as resolving its path does |
| Compositor.EmittedGrown | __init__.py:92-101 | what a record emits against the cache grown earlier in the frame is what it emits against the starting cache |
| Compositor.GrowByInsert | __init__.py:92-101 | resolving one more path against the grown cache is the same as growing the starting cache by that path as well |
| Compositor.GrowByFailed | __init__.py:92-99 | a path that misses and fails to load adds nothing to the cache |
| Compositor.CommandsDropSilent | __init__.py:87-138 | dropping a record that emits nothing leaves the frame's commands unchanged |
| Compositor.VisiblePathsDrop | __init__.py:87-92 | dropping a record changes the set of paths the frame resolves by at most that record's own path, and not at all when it is hidden |
| Compositor.CommandsAppend | __init__.py:87-138 | the commands for two record lists placed one after the other are the first list's commands followed by the second's |
| Compositor.CommandsSplitAt | __init__.py:87-138 | paint order is store order: the frame is the commands of the records before k, then at most one command for record k, then those after k |
| Compositor.LookupGrown | __init__.py:92-101 | every record of a frame resolves to the entry it would get against the cache as the frame began |
| Compositor.GrownSnoc | __init__.py:87-101 | one more record grows the cache exactly as resolving its path does, and not at all when it is hidden |
| Compositor.GrownIgnoresOrder | __init__.py:87-101 | the cache after a frame does not depend on the order of the records |
| Compositor.HiddenRecordIgnored | __init__.py:87-89 | removing a hidden record from the list changes neither the frame's commands nor the cache after it |
| Compositor.FailedLoadContained | __init__.py:92-99 | a visible record whose path misses and fails to load emits nothing and adds no entry; the other records draw as if it were absent |
| Compositor.CommandsWellFormed | __init__.py:103-136 | every command has four corners, the fixed two triangles, and the texture coordinates and opacity of a visible record; its alpha is in [0,1] when every record's opacity is |
| Compositor.CommandsAgree | __init__.py:92-101 | two caches that resolve every visible path alike give the same frame |
| Compositor.SecondFrameHits | __init__.py:92-101 | when every visible record resolved in one frame, the next frame hits on every record: same commands, cache unchanged, whatever the loader does (with the cached image's data flag and size as loaded) |
| Operators.NewRecord | __init__.py:148-156 | the appended record has the chosen path and name, is visible and unflipped, at position (100,100), scale (0.2,0.2) and opacity 1.0 |
| Operators.AddStep | __init__.py:148-158 | add grows the list by one and selects the new last record, which is the new record |
| Operators.RemoveStep | __init__.py:172-177 | out of range nothing changes; in range the list shrinks by one and the new index is valid in the old list and not past the old one |
| Operators.MoveStep | __init__.py:191-200 | the list keeps its length; the operator fails exactly when the host raises on an index outside the collection the guard let through, and then nothing changes; otherwise a move the guard allows shifts the index by one, and a move it refuses changes nothing |
| Operators.MoveOutOfRange | __init__.py:191-200 | from an index outside the collection no record moves; a raising host stops the operator with nothing changed, an ignoring one still shifts the index by one |
| Operators.Removed | __init__.py:176 | deleting index i keeps the elements before i in place and shifts those after it down by one |
| Operators.RemovedIsDeletion | __init__.py:176 | deleting index i loses exactly that element: the multiset of elements shrinks by one copy of it |
| Operators.MoveElement | __init__.py:196-199 | the host's move keeps the length and puts the moved element at the target index |
| Operators.MoveAdjacentIsSwap | __init__.py:195-200 | moving an element to a neighbouring index swaps the two |
| Operators.SwapNeighbours | __init__.py:195-200 | exchanging two neighbours, named in either order, keeps everything before and after them |
| Operators.SwapPermutes | __init__.py:195-200 | exchanging two elements keeps the multiset of elements |
| Operators.AddSelectsNewRecord | __init__.py:147-158 | add keeps the earlier records, appends one record at position (100,100) with scale (0.2,0.2) and opacity 1.0, and selects it |
| Operators.RemoveKeepsSelection | __init__.py:171-177 | out of range nothing changes; in range one record goes, and when records remain the selection is valid and names the record before the removed one (the new first when the first went) |
| Operators.AddThenRemove | __init__.py:147-177 | adding a record and then removing it gives back the same records |
| Operators.MoveIsAdjacentSwap | __init__.py:191-200 | from a valid selection, a move that changes anything swaps the selected record with its neighbour and moves the index by one, following it |
| Operators.MovePermutes | __init__.py:191-200 | every move, in range or not, leaves the multiset of records unchanged |
| Operators.MoveKeepsSelection | __init__.py:191-200 | from a valid selection, a move finishes, the selection stays valid and still names the same record |
| Operators.MoveUpIsSwap | __init__.py:195-197 | moving up from an index above 0 swaps the record with the one before it and decrements the index |
| Operators.MoveDownIsSwap | __init__.py:198-200 | moving down from an index below the last swaps the record with the one after it and increments the index |
| Operators.MoveRoundTrip | __init__.py:191-200 | from a valid selection, moving up and then down (or down and then up) restores the records and the index |
| Operators.SwapTwice | __init__.py:195-200 | exchanging the same two places twice gives back the sequence |
| Operators.OpacitiesOfPermutation | __init__.py:64 | a permutation of records whose opacities are in [0,1] has its opacities in [0,1] |
| Operators.SwapReordersFrame | __init__.py:195-200 | swapping two neighbouring records exchanges their quads in the frame and changes nothing else in it |
| Operators.MoveUpReordersFrame | __init__.py:195-197 | moving record i up changes paint order only: the next frame draws the same quads, with record i's quad now before that of record i - 1 |
| Operators.MoveDownReordersFrame | __init__.py:198-200 | moving record i down changes paint order only: the next frame draws the same quads, with record i's quad now after that of record i + 1 |
| Operators.MoveKeepsFrameCache | __init__.py:191-200 | a move does not change what the next frame leaves in the cache |
| Operators.RemoveEvictsSharedPath | __init__.py:172-176 | a record that shares the removed record's path stays in the list, but the next frame starts without its path cached: when it is visible, that frame stores whatever a fresh load produces, and nothing if the load fails |
| Operators.StepsKeepOpacities | __init__.py:64 | add, remove and move keep every opacity in [0,1] |
| Operators.AddImage | __init__.py:147-158 | the records and index become `AddStep` of the old ones; the toggle is untouched |
| Operators.RemoveImage | __init__.py:171-179 | the records and index become `RemoveStep` of the old ones; the selected record's path is popped from the cache when the index is in range, and otherwise the cache is unchanged |
| Operators.MoveImage | __init__.py:191-203 | the records, index and finished flag are `MoveStep` of the old ones, for either host behaviour |
| Operators.HostMove | __init__.py:196-199 | with both indices inside the collection the element is moved; otherwise the collection is unchanged and the call fails only for a raising host; the index is untouched |

## Left out

- GPU and shader calls (`batch_for_shader`, shader bind, uniforms, `batch.draw`, blend state): represented by the emitted `DrawCommand` values.
- Image decoding and texture upload: replaced by the loader parameter. `check_existing=True` reuse of a host image datablock happens inside the loader and is not modelled.
- Compositor.DrawOverlay: the loader gives the same answer for the same path throughout one frame. If a path fails for two records in one frame, the model fails both; the host could in principle succeed on the second attempt.
- Registration, scene property installation and draw-handler add/remove: host plumbing. Only the cache clear on unregister is modelled (`ImageCache.Clear`).
- The redraw requests (`tag_redraw`, the property update callbacks): host event plumbing with no effect on the modelled state.
- The list widget, the panel and the file-dialog `invoke`: UI only.
- Operators.AddImage: the display name is a parameter. Deriving it from the path (basename without extension) is a thin use of the host's path library.
- The host collection's response to a move index outside the collection: left open as the `HostBehaviour` parameter, since the source does not show it.
- Compositor.Emitted / TextureCache.CacheEntry: the cached image's data flag and size are fixed at load time. The code re-reads them from the live host image on every hit (`__init__.py:103`, `__init__.py:109-110`), and an exception raised there is not caught, so it ends the whole frame; neither a change of those properties between frames nor that exception is modelled.
- IEEE float behaviour of positions, scales and opacity: modelled with exact reals.
- The opacity bound [0,1]: enforced by the host property, so `OpacitiesInRange` is a hypothesis of the lemmas that use it.
