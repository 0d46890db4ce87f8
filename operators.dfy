/**
  The three list operators: add a reference image, remove the selected one
  (popping its path from the texture cache), and move the selected one up or
  down by one place. Each works on the scene's record collection and its
  selected index; the redraw request they end with is host plumbing.

  Every operator is specified by a step function on the pair (records,
  selected index); the lemmas below are about those step functions.
 */
module Operators {
  import opened Geometry
  import opened TextureCache
  import opened Scene
  import opened Compositor

  /** The record collection together with the selected index. */
  datatype ImageList = ImageList(images: seq<Record>, index: int)

  /** The selected index names a record. */
  predicate Selected(st: ImageList) {
    0 <= st.index < |st.images|
  }

  datatype Direction = Up | Down

  /** The record the add operator appends: the collection item defaults
      (visible, not flipped) with the path, the name and the fixed position,
      scale and opacity the operator assigns. */
  function NewRecord(filepath: Path, name: string): (r: Record)
    ensures r.filepath == filepath && r.name == name && r.visible && !r.flipX && !r.flipY
    ensures r.position == Vec2(100.0, 100.0) && r.scale == Vec2(0.2, 0.2) && r.opacity == 1.0
  {
    Record(name, filepath, true, Vec2(100.0, 100.0), Vec2(0.2, 0.2), 1.0, false, false)
  }

  /** s without its element at i. */
  function Removed<T>(s: seq<T>, i: nat): (r: seq<T>)
    requires i < |s|
    ensures |r| == |s| - 1
    ensures forall k :: 0 <= k < i ==> r[k] == s[k]
    ensures forall k :: i <= k < |r| ==> r[k] == s[k + 1]
  {
    s[..i] + s[i + 1..]
  }

  /** s with the elements at i and j exchanged. */
  function Swapped<T>(s: seq<T>, i: nat, j: nat): seq<T>
    requires i < |s| && j < |s|
  {
    s[i := s[j]][j := s[i]]
  }

  /** The host's collection move: take the element at `from` out and insert
      it so that it ends up at `to`; both must be valid indices. */
  function MoveElement<T>(s: seq<T>, from: nat, to: nat): (r: seq<T>)
    requires from < |s| && to < |s|
    ensures |r| == |s| && r[to] == s[from]
  {
    var rest := Removed(s, from);
    rest[..to] + [s[from]] + rest[to..]
  }

  /** Add: append the new record and select it. */
  function AddStep(st: ImageList, filepath: Path, name: string): (r: ImageList)
    ensures |r.images| == |st.images| + 1 && r.index == |st.images|
    ensures r.images[r.index] == NewRecord(filepath, name)
  {
    ImageList(st.images + [NewRecord(filepath, name)], |st.images + [NewRecord(filepath, name)]| - 1)
  }

  /** Remove: when the selection names a record, delete it and select the one
      before it (or the first); otherwise nothing changes. */
  function RemoveStep(st: ImageList): (r: ImageList)
    ensures !Selected(st) ==> r == st
    ensures Selected(st) ==> |r.images| == |st.images| - 1 && 0 <= r.index < |st.images| && r.index <= st.index
  {
    if Selected(st) then
      ImageList(Removed(st.images, st.index), if st.index - 1 > 0 then st.index - 1 else 0)
    else st
  }

  /** What the host's collection move does with an index outside the
      collection: raise, which ends the operator before it touches the
      selection, or leave the collection as it is and return normally. */
  datatype HostBehaviour = Raises | Ignores

  /** The operator's own guard: Up applies when the index is above 0, Down
      when it is below the last position. */
  predicate Applies(st: ImageList, dir: Direction) {
    (dir == Up && st.index > 0) || (dir == Down && st.index < |st.images| - 1)
  }

  /** Move: when the guard holds, the host moves the record to its
      neighbour's place and the selection follows it. With an index outside
      the collection the host either raises (second component false,
      nothing changed) or leaves the records alone, and the selection is
      shifted all the same. */
  function MoveStep(st: ImageList, dir: Direction, host: HostBehaviour): (r: (ImageList, bool))
    ensures |r.0.images| == |st.images|
    ensures !r.1 <==> host == Raises && Applies(st, dir) && !Selected(st)
    ensures !r.1 ==> r.0 == st
    ensures Applies(st, dir) && r.1 ==> r.0.index == if dir == Up then st.index - 1 else st.index + 1
    ensures !Applies(st, dir) ==> r == (st, true)
  {
    if dir == Up && st.index > 0 then
      if st.index < |st.images| then
        (ImageList(MoveElement(st.images, st.index, st.index - 1), st.index - 1), true)
      else if host == Raises then (st, false)
      else (ImageList(st.images, st.index - 1), true)
    else if dir == Down && st.index < |st.images| - 1 then
      if 0 <= st.index then
        (ImageList(MoveElement(st.images, st.index, st.index + 1), st.index + 1), true)
      else if host == Raises then (st, false)
      else (ImageList(st.images, st.index + 1), true)
    else (st, true)
  }

  /** Moving an element to a neighbouring place is a swap. */
  lemma MoveAdjacentIsSwap<T>(s: seq<T>, i: nat, j: nat)
    requires i < |s| && j < |s| && (j == i + 1 || i == j + 1)
    ensures MoveElement(s, i, j) == Swapped(s, i, j)
  {
    var r := MoveElement(s, i, j);
    var rest := Removed(s, i);
    forall k | 0 <= k < |s| ensures r[k] == Swapped(s, i, j)[k] {
      if k < j {
        assert r[k] == rest[k];
      } else if k > j {
        assert r[k] == rest[k - 1];
      }
    }
  }

  /** Removal deletes exactly the one element: the others keep their
      relative order and nothing else is lost or gained. */
  lemma {:induction false} RemovedIsDeletion<T>(s: seq<T>, i: nat)
    requires i < |s|
    ensures multiset(Removed(s, i)) + multiset{s[i]} == multiset(s)
  {
    assert s == s[..i] + [s[i]] + s[i + 1..];
  }

  /** Add selects the record it appended, and the earlier records stay as
      they were. */
  lemma AddSelectsNewRecord(st: ImageList, filepath: Path, name: string)
    ensures var st' := AddStep(st, filepath, name);
      Selected(st') && st'.images[..|st.images|] == st.images &&
      st'.images[st'.index] == NewRecord(filepath, name) &&
      st'.images[st'.index].position == Vec2(100.0, 100.0) &&
      st'.images[st'.index].scale == Vec2(0.2, 0.2) &&
      st'.images[st'.index].opacity == 1.0
  {
  }

  /** Removing the selected record keeps a valid selection whenever records
      remain, selecting the record that came just before the removed one
      (the new first record when the first was removed). Out of range,
      nothing changes. */
  lemma RemoveKeepsSelection(st: ImageList)
    ensures !Selected(st) ==> RemoveStep(st) == st
    ensures Selected(st) ==> |RemoveStep(st).images| == |st.images| - 1
    ensures Selected(st) && |st.images| > 1 ==>
      Selected(RemoveStep(st)) &&
      RemoveStep(st).images[RemoveStep(st).index] == st.images[if st.index > 0 then st.index - 1 else 1]
  {
  }

  /** Adding a record and removing it again gives back the records; the
      selection ends on what was the last record. */
  lemma AddThenRemove(st: ImageList, filepath: Path, name: string)
    ensures RemoveStep(AddStep(st, filepath, name)).images == st.images
    ensures RemoveStep(AddStep(st, filepath, name)).index == if |st.images| > 1 then |st.images| - 1 else 0
  {
    var st' := AddStep(st, filepath, name);
    assert Removed(st'.images, st'.index) == st.images;
  }

  /** Exchanging two neighbours, in either order, keeps everything around
      them. */
  lemma SwapNeighbours<T>(s: seq<T>, lo: nat)
    requires lo + 1 < |s|
    ensures Swapped(s, lo, lo + 1) == Swapped(s, lo + 1, lo) == s[..lo] + [s[lo + 1], s[lo]] + s[lo + 2..]
  {
    assert s == s[..lo] + [s[lo], s[lo + 1]] + s[lo + 2..];
  }

  /** From a valid selection, a move that changes anything swaps the
      selected record with a neighbour and moves the selection with it. */
  lemma MoveIsAdjacentSwap(st: ImageList, dir: Direction, host: HostBehaviour)
    requires Selected(st)
    ensures var st' := MoveStep(st, dir, host).0;
      st' != st ==>
        Selected(st') &&
        (st'.index == st.index + 1 || st'.index == st.index - 1) &&
        st'.images == Swapped(st.images, st.index, st'.index)
  {
    var s, i := st.images, st.index;
    if dir == Up && 0 < i {
      MoveAdjacentIsSwap(s, i, i - 1);
    } else if dir == Down && i < |s| - 1 {
      MoveAdjacentIsSwap(s, i, i + 1);
    }
  }

  /** From an index outside the collection no record moves. When the guard
      holds, a raising host stops the operator with the selection
      unchanged, and an ignoring one lets the selection shift by one; when
      the guard fails nothing happens and the operator finishes. */
  lemma MoveOutOfRange(st: ImageList, dir: Direction, host: HostBehaviour)
    requires !Selected(st)
    ensures MoveStep(st, dir, host).0.images == st.images
    ensures !MoveStep(st, dir, host).1 <==> host == Raises && Applies(st, dir)
    ensures host == Raises || !Applies(st, dir) ==> MoveStep(st, dir, host).0 == st
    ensures host == Ignores && Applies(st, dir) ==>
      MoveStep(st, dir, host).0.index == if dir == Up then st.index - 1 else st.index + 1
  {
  }

  /** Moving up from a valid index above 0 swaps with the record before. */
  lemma MoveUpIsSwap(st: ImageList, host: HostBehaviour)
    requires 0 < st.index < |st.images|
    ensures MoveStep(st, Up, host) == (ImageList(Swapped(st.images, st.index - 1, st.index), st.index - 1), true)
  {
    MoveAdjacentIsSwap(st.images, st.index, st.index - 1);
    SwapNeighbours(st.images, st.index - 1);
  }

  /** Moving down from a valid index below the last swaps with the record after. */
  lemma MoveDownIsSwap(st: ImageList, host: HostBehaviour)
    requires 0 <= st.index < |st.images| - 1
    ensures MoveStep(st, Down, host) == (ImageList(Swapped(st.images, st.index, st.index + 1), st.index + 1), true)
  {
    MoveAdjacentIsSwap(st.images, st.index, st.index + 1);
  }

  /** A move only reorders: the records are a permutation of the old ones. */
  lemma MovePermutes(st: ImageList, dir: Direction, host: HostBehaviour)
    ensures multiset(MoveStep(st, dir, host).0.images) == multiset(st.images)
  {
    var s, i := st.images, st.index;
    var st' := MoveStep(st, dir, host).0;
    if dir == Up && 0 < i < |s| {
      MoveUpIsSwap(st, host);
      assert st'.images == Swapped(s, i - 1, i);
      SwapPermutes(s, i - 1, i);
    } else if dir == Down && 0 <= i < |s| - 1 {
      MoveDownIsSwap(st, host);
      assert st'.images == Swapped(s, i, i + 1);
      SwapPermutes(s, i, i + 1);
    } else {
      assert st'.images == s;
    }
  }

  /** Exchanging two elements keeps the multiset of elements. */
  lemma SwapPermutes<T>(s: seq<T>, i: nat, j: nat)
    requires i < |s| && j < |s|
    ensures multiset(Swapped(s, i, j)) == multiset(s)
  {
    var t := s[i := s[j]];
    assert multiset(t) == multiset(s) - multiset{s[i]} + multiset{s[j]};
    assert multiset(t[j := s[i]]) == multiset(t) - multiset{t[j]} + multiset{s[i]};
  }

  /** A valid selection stays valid across a move, the move finishes, and
      the selection stays on the same record. */
  lemma MoveKeepsSelection(st: ImageList, dir: Direction, host: HostBehaviour)
    requires Selected(st)
    ensures MoveStep(st, dir, host).1 && Selected(MoveStep(st, dir, host).0)
    ensures MoveStep(st, dir, host).0.images[MoveStep(st, dir, host).0.index] == st.images[st.index]
  {
    var s, i := st.images, st.index;
    if dir == Up && 0 < i {
      MoveUpIsSwap(st, host);
    } else if dir == Down && i < |s| - 1 {
      MoveDownIsSwap(st, host);
    } else {
      assert MoveStep(st, dir, host).0 == st;
    }
  }

  /** From a valid selection, moving up and then down (or down and then up)
      restores the records and the selection. */
  lemma MoveRoundTrip(st: ImageList, dir: Direction, host: HostBehaviour)
    requires Selected(st) && MoveStep(st, dir, host).0 != st
    ensures MoveStep(MoveStep(st, dir, host).0, if dir == Up then Down else Up, host) == (st, true)
  {
    var st' := MoveStep(st, dir, host).0;
    MoveIsAdjacentSwap(st, dir, host);
    assert st'.index == if dir == Up then st.index - 1 else st.index + 1;
    MoveAdjacentIsSwap(st'.images, st'.index, st.index);
    SwapTwice(st.images, st.index, st'.index);
  }

  /** Swapping the same two places twice restores the sequence. */
  lemma SwapTwice<T>(s: seq<T>, i: nat, j: nat)
    requires i < |s| && j < |s|
    ensures Swapped(Swapped(s, i, j), j, i) == s
  {
  }

  /** Exchanging two neighbouring records exchanges their quads in the
      frame. */
  lemma SwapReordersFrame(c0: map<Path, CacheEntry>, s: seq<Record>, lo: nat, load: Loader)
    requires lo + 1 < |s|
    ensures Commands(c0, Swapped(s, lo, lo + 1), load)
         == Commands(c0, s[..lo], load) + Emitted(c0, s[lo + 1], load)
            + Emitted(c0, s[lo], load) + Commands(c0, s[lo + 2..], load)
  {
    SwapNeighbours(s, lo);
    var pre, pair, post := s[..lo], [s[lo + 1], s[lo]], s[lo + 2..];
    var ea, eb := Emitted(c0, s[lo], load), Emitted(c0, s[lo + 1], load);
    assert Commands(c0, pair, load) == eb + ea by {
      assert pair == [s[lo + 1]] + [s[lo]];
      CommandsAppend(c0, [s[lo + 1]], [s[lo]], load);
      CommandsSingle(c0, s[lo + 1], load);
      CommandsSingle(c0, s[lo], load);
    }
    CommandsAppend(c0, pre + pair, post, load);
    CommandsAppend(c0, pre, pair, load);
    ConcatAssoc(Commands(c0, pre, load), eb, ea);
  }

  /** Moving record i up changes paint order only: the next frame draws the
      same quads, with record i's quad now before that of record i - 1. */
  lemma MoveUpReordersFrame(st: ImageList, host: HostBehaviour, c0: map<Path, CacheEntry>, load: Loader)
    requires 0 < st.index < |st.images|
    ensures var s, i := st.images, st.index;
      Commands(c0, MoveStep(st, Up, host).0.images, load)
        == Commands(c0, s[..i - 1], load) + Emitted(c0, s[i], load)
           + Emitted(c0, s[i - 1], load) + Commands(c0, s[i + 1..], load)
  {
    var s, i := st.images, st.index;
    MoveAdjacentIsSwap(s, i, i - 1);
    SwapNeighbours(s, i - 1);
    assert MoveStep(st, Up, host).0.images == Swapped(s, i - 1, i);
    SwapReordersFrame(c0, s, i - 1, load);
  }

  /** Moving record i down changes paint order only: the next frame draws
      the same quads, with record i's quad now after that of record i + 1. */
  lemma MoveDownReordersFrame(st: ImageList, host: HostBehaviour, c0: map<Path, CacheEntry>, load: Loader)
    requires 0 <= st.index < |st.images| - 1
    ensures var s, i := st.images, st.index;
      Commands(c0, MoveStep(st, Down, host).0.images, load)
        == Commands(c0, s[..i], load) + Emitted(c0, s[i + 1], load)
           + Emitted(c0, s[i], load) + Commands(c0, s[i + 2..], load)
  {
    var s, i := st.images, st.index;
    MoveAdjacentIsSwap(s, i, i + 1);
    assert MoveStep(st, Down, host).0.images == Swapped(s, i, i + 1);
    SwapReordersFrame(c0, s, i, load);
  }

  /** A move leaves the cache after the next frame exactly as it would have
      been without the move. */
  lemma MoveKeepsFrameCache(st: ImageList, dir: Direction, host: HostBehaviour, c0: map<Path, CacheEntry>, load: Loader)
    ensures Grown(c0, MoveStep(st, dir, host).0.images, load) == Grown(c0, st.images, load)
  {
    MovePermutes(st, dir, host);
    GrownIgnoresOrder(c0, st.images, MoveStep(st, dir, host).0.images, load);
  }

  /** Removal pops the path unconditionally: when another record shares the
      removed record's path, that record is still in the list but its
      texture is no longer cached, so the next frame loads it again. When
      the record is visible, what that frame leaves in the cache under the
      path is whatever the new load produced, and nothing when it failed. */
  lemma RemoveEvictsSharedPath(st: ImageList, j: nat, c: map<Path, CacheEntry>, load: Loader)
    requires Selected(st) && j < |st.images| && j != st.index
    requires st.images[j].filepath == st.images[st.index].filepath
    ensures var p, rest := st.images[st.index].filepath, RemoveStep(st).images;
      exists k :: 0 <= k < |rest| && rest[k] == st.images[j]
    ensures var p, rest := st.images[st.index].filepath, RemoveStep(st).images;
      st.images[j].visible && load(p).Some? ==>
        p in Grown(c - {p}, rest, load) && Grown(c - {p}, rest, load)[p] == load(p).value
    ensures var p, rest := st.images[st.index].filepath, RemoveStep(st).images;
      load(p).None? ==> p !in Grown(c - {p}, rest, load)
  {
    var i, p, rest := st.index, st.images[st.index].filepath, RemoveStep(st).images;
    var k := if j < i then j else j - 1;
    assert rest[k] == st.images[j];
    if st.images[j].visible {
      assert p in VisiblePaths(rest);
    }
  }

  /** The operators keep every opacity in [0, 1]. */
  lemma StepsKeepOpacities(st: ImageList, filepath: Path, name: string, dir: Direction, host: HostBehaviour)
    requires OpacitiesInRange(st.images)
    ensures OpacitiesInRange(AddStep(st, filepath, name).images)
    ensures OpacitiesInRange(RemoveStep(st).images)
    ensures OpacitiesInRange(MoveStep(st, dir, host).0.images)
  {
    var added := AddStep(st, filepath, name).images;
    assert added == st.images + [NewRecord(filepath, name)];
    assert forall k :: 0 <= k < |st.images| ==> added[k] == st.images[k];
    MovePermutes(st, dir, host);
    OpacitiesOfPermutation(st.images, MoveStep(st, dir, host).0.images);
  }

  /** Reordering keeps every opacity in [0, 1]. */
  lemma OpacitiesOfPermutation(a: seq<Record>, b: seq<Record>)
    requires multiset(a) == multiset(b) && OpacitiesInRange(a)
    ensures OpacitiesInRange(b)
  {
    forall k | 0 <= k < |b| ensures 0.0 <= b[k].opacity <= 1.0 {
      assert b[k] in multiset(a);
      var j :| 0 <= j < |a| && a[j] == b[k];
    }
  }

  /** The list part of the scene state. */
  function Listing(scene: SceneState): ImageList
    reads scene
  {
    ImageList(scene.images, scene.index)
  }

  /** The add operator, once the file dialog has chosen a path; `name` is
      the file name without directory and extension. */
  method AddImage(scene: SceneState, filepath: Path, name: string)
    modifies scene
    ensures Listing(scene) == AddStep(old(Listing(scene)), filepath, name)
    ensures scene.referencesOn == old(scene.referencesOn)
  {
    scene.images := scene.images + [NewRecord(filepath, name)];
    scene.index := |scene.images| - 1;
  }

  /** The remove operator: pop the selected record's path from the cache,
      delete the record and move the selection back by one. */
  method RemoveImage(scene: SceneState, cache: ImageCache)
    modifies scene, cache
    ensures Listing(scene) == RemoveStep(old(Listing(scene)))
    ensures cache.entries == if Selected(old(Listing(scene)))
      then old(cache.entries) - {old(scene.images[scene.index]).filepath}
      else old(cache.entries)
    ensures scene.referencesOn == old(scene.referencesOn)
  {
    var idx := scene.index;
    if 0 <= idx < |scene.images| {
      var img := scene.images[idx];
      cache.Pop(img.filepath);
      scene.images := Removed(scene.images, idx);
      scene.index := if idx - 1 > 0 then idx - 1 else 0;
    }
  }

  /** The move operator. `finished` is false when the host's collection move
      raised, which stops the operator before it changes the selection. */
  method MoveImage(scene: SceneState, dir: Direction, host: HostBehaviour) returns (finished: bool)
    modifies scene
    ensures (Listing(scene), finished) == MoveStep(old(Listing(scene)), dir, host)
    ensures scene.referencesOn == old(scene.referencesOn)
  {
    ghost var st := Listing(scene);
    var index := scene.index;
    finished := true;
    if dir == Up && index > 0 {
      finished := HostMove(scene, index, index - 1, host);
      if finished {
        scene.index := scene.index - 1;
        assert Listing(scene) == MoveStep(st, dir, host).0;
      } else {
        assert Listing(scene) == st;
      }
    } else if dir == Down && index < |scene.images| - 1 {
      finished := HostMove(scene, index, index + 1, host);
      if finished {
        scene.index := scene.index + 1;
        assert Listing(scene) == MoveStep(st, dir, host).0;
      } else {
        assert Listing(scene) == st;
      }
    } else {
      assert MoveStep(st, dir, host) == (st, true);
    }
  }

  /** The host collection's move(from, to): with both indices inside the
      collection it moves the element; otherwise it leaves the collection
      as it is and either raises (ok false) or returns normally. */
  method HostMove(scene: SceneState, from: int, to: int, host: HostBehaviour) returns (ok: bool)
    modifies scene
    ensures ok == ((0 <= from < |old(scene.images)| && 0 <= to < |old(scene.images)|) || host == Ignores)
    ensures scene.images
         == if 0 <= from < |old(scene.images)| && 0 <= to < |old(scene.images)|
            then MoveElement(old(scene.images), from, to) else old(scene.images)
    ensures scene.index == old(scene.index) && scene.referencesOn == old(scene.referencesOn)
  {
    if 0 <= from < |scene.images| && 0 <= to < |scene.images| {
      scene.images := MoveElement(scene.images, from, to);
      ok := true;
    } else {
      ok := host == Ignores;
    }
  }
}
