/**
  The per-frame draw routine. When overlays are on it walks the records in
  store order and, for each visible record whose texture resolves and whose
  image is not degenerate, emits one textured quad drawn with the record's
  opacity as alpha. The GPU calls are represented by the emitted DrawCommand
  values; the only state the routine changes is the texture cache.

  The routine is specified by two functions of the cache as it was at the
  start of the frame: Commands (what is drawn) and Grown (what the cache
  becomes). Within one frame every record sees the entry Lookup gives against
  that starting cache, because the cache only gains entries the loader itself
  produced.
 */
module Compositor {
  import opened Geometry
  import opened TextureCache
  import opened Scene

  /** One batch draw: quad corners, texture coordinates, index buffer, the
      alpha of the white tint colour, and the texture bound to the sampler. */
  datatype DrawCommand = DrawCommand(
    coords: seq<Vec2>,
    uvs: seq<Vec2>,
    indices: seq<Tri>,
    alpha: real,
    texture: Texture)

  /** No pixel data, or a zero width or height: nothing to draw. */
  predicate Degenerate(img: Image): (d: bool)
    ensures d <==> !img.hasData || img.width * img.height == 0
  {
    !img.hasData || img.width == 0 || img.height == 0
  }

  /** The draw command for a record whose texture resolved to `entry`. */
  function Quad(rec: Record, entry: CacheEntry): (r: DrawCommand)
    ensures |r.coords| == 4 && |r.uvs| == 4 && r.indices == Triangles()
    ensures r.alpha == rec.opacity && r.texture == entry.texture
    // corner i shows the texture point that, unflipped, lands on it
    ensures forall i :: 0 <= i < 4 ==>
      r.coords[i] == Place(rec.position, Extent(rec.scale, entry.image.width, entry.image.height).x,
                           Extent(rec.scale, entry.image.width, entry.image.height).y,
                           Unflip(rec.flipX, rec.flipY, r.uvs[i]))
  {
    DrawCommand(
      Corners(rec.position, rec.scale, entry.image.width, entry.image.height),
      QuadUVs(rec.flipX, rec.flipY),
      Triangles(),
      rec.opacity,
      entry.texture)
  }

  /** What one record contributes to a frame that started with cache `c0`:
      nothing when hidden, when its texture fails to load or when its image
      is degenerate; otherwise its quad. */
  function Emitted(c0: map<Path, CacheEntry>, rec: Record, load: Loader): (r: seq<DrawCommand>)
    ensures |r| <= 1
    ensures r != [] <==>
      rec.visible && Lookup(c0, rec.filepath, load).Some? && !Degenerate(Lookup(c0, rec.filepath, load).value.image)
    ensures r != [] ==> r[0] == Quad(rec, Lookup(c0, rec.filepath, load).value)
  {
    if !rec.visible then []
    else match Lookup(c0, rec.filepath, load)
      case None => []
      case Some(e) => if Degenerate(e.image) then [] else [Quad(rec, e)]
  }

  /** The commands of a whole frame, in store order. */
  function Commands(c0: map<Path, CacheEntry>, rs: seq<Record>, load: Loader): (r: seq<DrawCommand>)
    ensures |r| <= |rs|
    decreases |rs|
  {
    if rs == [] then [] else Emitted(c0, rs[0], load) + Commands(c0, rs[1..], load)
  }

  /** The paths of the visible records: the only ones the frame resolves. */
  function VisiblePaths(rs: seq<Record>): set<Path> {
    set i | 0 <= i < |rs| && rs[i].visible :: rs[i].filepath
  }

  /** The cache after a frame: the old entries, plus one entry for every
      visible path that missed and loaded. */
  function Grown(c0: map<Path, CacheEntry>, rs: seq<Record>, load: Loader): (r: map<Path, CacheEntry>)
    ensures forall p :: p in c0 ==> p in r && r[p] == c0[p]
    ensures forall p :: p in r && p !in c0 ==> p in VisiblePaths(rs) && load(p) == Some(r[p])
  {
    GrowBy(c0, VisiblePaths(rs), load)
  }

  /** The cache `c0` after resolving every path of `paths` once. */
  function GrowBy(c0: map<Path, CacheEntry>, paths: set<Path>, load: Loader): map<Path, CacheEntry> {
    c0 + map p | p in paths && p !in c0 && load(p).Some? :: load(p).value
  }

  /** Resolving one more path grows the cache as AfterResolve does. */
  lemma GrowByInsert(c0: map<Path, CacheEntry>, paths: set<Path>, p: Path, load: Loader)
    ensures GrowBy(c0, paths + {p}, load) == AfterResolve(GrowBy(c0, paths, load), p, load)
  {
    var a := GrowBy(c0, paths + {p}, load);
    var b := AfterResolve(GrowBy(c0, paths, load), p, load);
    assert a.Keys == b.Keys;
    forall q | q in a ensures a[q] == b[q] {
    }
  }

  /** A path whose load fails on a miss adds nothing to the cache. */
  lemma GrowByFailed(c0: map<Path, CacheEntry>, paths: set<Path>, p: Path, load: Loader)
    requires p !in c0 && load(p).None?
    ensures GrowBy(c0, paths - {p}, load) == GrowBy(c0, paths, load)
  {
    var a := GrowBy(c0, paths - {p}, load);
    var b := GrowBy(c0, paths, load);
    assert a.Keys == b.Keys;
  }

  /** Commands of a concatenation is the concatenation of the commands. */
  lemma {:induction false} CommandsAppend(c0: map<Path, CacheEntry>, a: seq<Record>, b: seq<Record>, load: Loader)
    ensures Commands(c0, a + b, load) == Commands(c0, a, load) + Commands(c0, b, load)
    decreases |a|
  {
    if a == [] {
      assert a + b == b;
    } else {
      var ab := a + b;
      assert ab[0] == a[0] && ab[1..] == a[1..] + b;
      CommandsAppend(c0, a[1..], b, load);
      var e, rest, cb := Emitted(c0, a[0], load), Commands(c0, a[1..], load), Commands(c0, b, load);
      assert Commands(c0, ab, load) == e + (rest + cb);
      assert Commands(c0, a, load) == e + rest;
      ConcatAssoc(e, rest, cb);
    }
  }

  /** Commands of a single record is what it emits. */
  lemma CommandsSingle(c0: map<Path, CacheEntry>, r: Record, load: Loader)
    ensures Commands(c0, [r], load) == Emitted(c0, r, load)
  {
    assert [r][1..] == [];
  }

  /** Paint order is store order: the frame is the commands of the records
      before k, then record k's own (at most one), then those after k. */
  lemma CommandsSplitAt(c0: map<Path, CacheEntry>, rs: seq<Record>, k: nat, load: Loader)
    requires k < |rs|
    ensures |Emitted(c0, rs[k], load)| <= 1
    ensures Commands(c0, rs, load)
         == Commands(c0, rs[..k], load) + Emitted(c0, rs[k], load) + Commands(c0, rs[k+1..], load)
  {
    var pre, r, post := rs[..k], rs[k], rs[k+1..];
    assert rs == pre + ([r] + post);
    CommandsAppend(c0, pre, [r] + post, load);
    assert ([r] + post)[0] == r && ([r] + post)[1..] == post;
    ConcatAssoc(Commands(c0, pre, load), Emitted(c0, r, load), Commands(c0, post, load));
  }

  /** Regrouping a concatenation. */
  lemma ConcatAssoc<T>(x: seq<T>, y: seq<T>, z: seq<T>)
    ensures x + (y + z) == x + y + z
  {
  }

  /** Resolving against the grown cache gives what resolving against the
      starting cache gives: every entry added in the frame came from `load`. */
  lemma LookupGrown(c0: map<Path, CacheEntry>, rs: seq<Record>, p: Path, load: Loader)
    ensures Lookup(Grown(c0, rs, load), p, load) == Lookup(c0, p, load)
  {
  }

  /** So a record emits against the grown cache what it emits against the
      starting one. */
  lemma EmittedGrown(c0: map<Path, CacheEntry>, rs: seq<Record>, r: Record, load: Loader)
    ensures Emitted(Grown(c0, rs, load), r, load) == Emitted(c0, r, load)
  {
    LookupGrown(c0, rs, r.filepath, load);
  }

  /** Adding one record at the end grows the cache exactly as resolving its
      path would, and not at all when it is hidden. */
  lemma GrownSnoc(c0: map<Path, CacheEntry>, rs: seq<Record>, r: Record, load: Loader)
    ensures Grown(c0, rs + [r], load)
         == if r.visible then AfterResolve(Grown(c0, rs, load), r.filepath, load) else Grown(c0, rs, load)
  {
    var rs' := rs + [r];
    assert VisiblePaths(rs') == VisiblePaths(rs) + (if r.visible then {r.filepath} else {}) by {
      forall p | p in VisiblePaths(rs')
        ensures p in VisiblePaths(rs) + (if r.visible then {r.filepath} else {})
      {
        var i :| 0 <= i < |rs'| && rs'[i].visible && rs'[i].filepath == p;
        if i < |rs| { assert rs'[i] == rs[i]; }
      }
      forall p | p in VisiblePaths(rs)
        ensures p in VisiblePaths(rs')
      {
        var i :| 0 <= i < |rs| && rs[i].visible && rs[i].filepath == p;
        assert rs'[i] == rs[i];
      }
      if r.visible {
        assert rs'[|rs|] == r;
      }
    }
    if r.visible {
      GrowByInsert(c0, VisiblePaths(rs), r.filepath, load);
    }
  }

  /** The cache after a frame does not depend on paint order: any
      reordering of the records grows it the same way. */
  lemma GrownIgnoresOrder(c0: map<Path, CacheEntry>, rs: seq<Record>, rs': seq<Record>, load: Loader)
    requires multiset(rs) == multiset(rs')
    ensures Grown(c0, rs, load) == Grown(c0, rs', load)
  {
    forall p | p in VisiblePaths(rs) ensures p in VisiblePaths(rs') {
      var i :| 0 <= i < |rs| && rs[i].visible && rs[i].filepath == p;
      assert rs[i] in multiset(rs');
      var j :| 0 <= j < |rs'| && rs'[j] == rs[i];
    }
    forall p | p in VisiblePaths(rs') ensures p in VisiblePaths(rs) {
      var i :| 0 <= i < |rs'| && rs'[i].visible && rs'[i].filepath == p;
      assert rs'[i] in multiset(rs);
      var j :| 0 <= j < |rs| && rs[j] == rs'[i];
    }
  }

  /** The visible paths of a concatenation are those of its parts. */
  lemma VisiblePathsAppend(a: seq<Record>, b: seq<Record>)
    ensures VisiblePaths(a + b) == VisiblePaths(a) + VisiblePaths(b)
  {
    var ab := a + b;
    forall p | p in VisiblePaths(ab) ensures p in VisiblePaths(a) + VisiblePaths(b) {
      var i :| 0 <= i < |ab| && ab[i].visible && ab[i].filepath == p;
      if i < |a| { assert ab[i] == a[i]; } else { assert ab[i] == b[i - |a|]; }
    }
    forall p | p in VisiblePaths(a) ensures p in VisiblePaths(ab) {
      var i :| 0 <= i < |a| && a[i].visible && a[i].filepath == p;
      assert ab[i] == a[i];
    }
    forall p | p in VisiblePaths(b) ensures p in VisiblePaths(ab) {
      var i :| 0 <= i < |b| && b[i].visible && b[i].filepath == p;
      assert ab[i + |a|] == b[i];
    }
  }

  /** Dropping record k changes the visible paths by at most its own path. */
  lemma VisiblePathsDrop(rs: seq<Record>, k: nat)
    requires k < |rs|
    ensures VisiblePaths(rs) == VisiblePaths(rs[..k] + rs[k+1..]) + (if rs[k].visible then {rs[k].filepath} else {})
  {
    var pre, r, post := rs[..k], rs[k], rs[k+1..];
    assert rs == pre + ([r] + post);
    VisiblePathsAppend(pre, [r] + post);
    VisiblePathsAppend([r], post);
    VisiblePathsAppend(pre, post);
    assert VisiblePaths([r]) == if r.visible then {r.filepath} else {} by {
      assert [r][0] == r;
    }
  }

  /** Dropping a record that emits nothing leaves the frame's commands unchanged. */
  lemma CommandsDropSilent(c0: map<Path, CacheEntry>, rs: seq<Record>, k: nat, load: Loader)
    requires k < |rs| && Emitted(c0, rs[k], load) == []
    ensures Commands(c0, rs[..k] + rs[k+1..], load) == Commands(c0, rs, load)
  {
    CommandsSplitAt(c0, rs, k, load);
    CommandsAppend(c0, rs[..k], rs[k+1..], load);
    assert Commands(c0, rs[..k], load) + [] == Commands(c0, rs[..k], load);
  }

  /** Hidden records do not matter: dropping record k when it is hidden
      leaves both the frame's commands and the cache after it unchanged. */
  lemma HiddenRecordIgnored(c0: map<Path, CacheEntry>, rs: seq<Record>, k: nat, load: Loader)
    requires k < |rs| && !rs[k].visible
    ensures Commands(c0, rs[..k] + rs[k+1..], load) == Commands(c0, rs, load)
    ensures Grown(c0, rs[..k] + rs[k+1..], load) == Grown(c0, rs, load)
  {
    CommandsDropSilent(c0, rs, k, load);
    VisiblePathsDrop(rs, k);
    assert VisiblePaths(rs[..k] + rs[k+1..]) == VisiblePaths(rs);
  }

  /** A failed load is contained: a visible record whose path misses and
      fails to load adds no command and no cache entry, and every other
      record draws as if it were not there. */
  lemma FailedLoadContained(c0: map<Path, CacheEntry>, rs: seq<Record>, k: nat, load: Loader)
    requires k < |rs| && rs[k].filepath !in c0 && load(rs[k].filepath).None?
    ensures Emitted(c0, rs[k], load) == []
    ensures rs[k].filepath !in Grown(c0, rs, load)
    ensures Commands(c0, rs[..k] + rs[k+1..], load) == Commands(c0, rs, load)
    ensures Grown(c0, rs[..k] + rs[k+1..], load) == Grown(c0, rs, load)
  {
    var rest := rs[..k] + rs[k+1..];
    var p := rs[k].filepath;
    CommandsDropSilent(c0, rs, k, load);
    VisiblePathsDrop(rs, k);
    assert VisiblePaths(rest) - {p} == VisiblePaths(rs) - {p};
    GrowByFailed(c0, VisiblePaths(rest), p, load);
    GrowByFailed(c0, VisiblePaths(rs), p, load);
  }

  /** Every emitted command is a well-formed textured quad: four corners, the
      record's flipped unit-square UVs, the fixed two triangles, and an alpha
      in [0, 1] when the host keeps opacities there. */
  lemma {:induction false} CommandsWellFormed(c0: map<Path, CacheEntry>, rs: seq<Record>, load: Loader)
    ensures forall c :: c in Commands(c0, rs, load) ==>
      |c.coords| == 4 && |c.uvs| == 4 && c.indices == Triangles() &&
      exists i :: 0 <= i < |rs| && rs[i].visible && c.alpha == rs[i].opacity &&
                  c.uvs == QuadUVs(rs[i].flipX, rs[i].flipY)
    ensures OpacitiesInRange(rs) ==> forall c :: c in Commands(c0, rs, load) ==> 0.0 <= c.alpha <= 1.0
    decreases |rs|
  {
    if rs != [] {
      CommandsWellFormed(c0, rs[1..], load);
      forall c | c in Commands(c0, rs, load)
        ensures exists i :: 0 <= i < |rs| && rs[i].visible && c.alpha == rs[i].opacity &&
                            c.uvs == QuadUVs(rs[i].flipX, rs[i].flipY)
      {
        if c in Commands(c0, rs[1..], load) {
          var j :| 0 <= j < |rs[1..]| && rs[1..][j].visible && c.alpha == rs[1..][j].opacity &&
                   c.uvs == QuadUVs(rs[1..][j].flipX, rs[1..][j].flipY);
          assert rs[j + 1] == rs[1..][j];
        } else {
          assert c in Emitted(c0, rs[0], load);
        }
      }
    }
  }

  /** Two caches that resolve every visible path of `rs` alike give the same
      frame. */
  lemma {:induction false} CommandsAgree(c: map<Path, CacheEntry>, c': map<Path, CacheEntry>, rs: seq<Record>,
                                         load: Loader, load': Loader)
    requires forall i :: 0 <= i < |rs| && rs[i].visible ==>
      Lookup(c, rs[i].filepath, load) == Lookup(c', rs[i].filepath, load')
    ensures Commands(c, rs, load) == Commands(c', rs, load')
    decreases |rs|
  {
    if rs != [] {
      assert forall i :: 0 <= i < |rs[1..]| ==> rs[1..][i] == rs[i + 1];
      CommandsAgree(c, c', rs[1..], load, load');
    }
  }

  /** The cache is loaded at most once per path: when every visible record's
      texture resolves in one frame, the next frame hits on every record, so
      it draws the same commands and leaves the cache as it is, whatever the
      loader would now do. */
  lemma SecondFrameHits(c0: map<Path, CacheEntry>, rs: seq<Record>, load: Loader, load': Loader)
    requires forall i :: 0 <= i < |rs| && rs[i].visible ==> Lookup(c0, rs[i].filepath, load).Some?
    ensures Commands(Grown(c0, rs, load), rs, load') == Commands(c0, rs, load)
    ensures Grown(Grown(c0, rs, load), rs, load') == Grown(c0, rs, load)
  {
    var c1 := Grown(c0, rs, load);
    forall i | 0 <= i < |rs| && rs[i].visible
      ensures Lookup(c1, rs[i].filepath, load') == Lookup(c0, rs[i].filepath, load)
    {
      assert rs[i].filepath in VisiblePaths(rs);
      LookupGrown(c0, rs, rs[i].filepath, load);
    }
    CommandsAgree(c1, c0, rs, load', load);
    forall p | p in VisiblePaths(rs) ensures p in c1 {
      var i :| 0 <= i < |rs| && rs[i].visible && rs[i].filepath == p;
    }
  }

  /** One more iteration of the frame loop: record i's commands are appended
      and its path is resolved against the cache grown so far. */
  lemma FrameStep(c0: map<Path, CacheEntry>, rs: seq<Record>, i: nat, load: Loader)
    requires i < |rs|
    ensures Commands(c0, rs[..i + 1], load) == Commands(c0, rs[..i], load) + Emitted(c0, rs[i], load)
    ensures Grown(c0, rs[..i + 1], load)
         == if rs[i].visible then AfterResolve(Grown(c0, rs[..i], load), rs[i].filepath, load)
            else Grown(c0, rs[..i], load)
  {
    assert rs[..i + 1] == rs[..i] + [rs[i]];
    CommandsAppend(c0, rs[..i], [rs[i]], load);
    CommandsSingle(c0, rs[i], load);
    GrownSnoc(c0, rs[..i], rs[i], load);
  }

  /** The per-frame draw callback: nothing at all when overlays are off;
      otherwise the commands of every drawable record in store order, with
      the cache grown by the textures loaded on the way. */
  method DrawOverlay(scene: SceneState, cache: ImageCache, load: Loader) returns (cmds: seq<DrawCommand>)
    modifies cache
    ensures !scene.referencesOn ==> cmds == [] && cache.entries == old(cache.entries)
    ensures scene.referencesOn ==> cmds == Commands(old(cache.entries), scene.images, load)
    ensures scene.referencesOn ==> cache.entries == Grown(old(cache.entries), scene.images, load)
  {
    cmds := [];
    if !scene.referencesOn {
      return;
    }
    ghost var c0 := cache.entries;
    var images := scene.images;
    var i := 0;
    while i < |images|
      invariant 0 <= i <= |images|
      invariant cmds == Commands(c0, images[..i], load)
      invariant cache.entries == Grown(c0, images[..i], load)
    {
      var rec := images[i];
      FrameStep(c0, images, i, load);
      EmittedGrown(c0, images[..i], rec, load);
      var drawn := DrawRecord(rec, cache, load);
      cmds := cmds + drawn;
      i := i + 1;
    }
    assert images[..i] == images;
  }

  /** One iteration of the callback's loop: skip a hidden record, resolve
      the texture of a visible one, and emit its quad unless the load failed
      or the image is degenerate. */
  method DrawRecord(rec: Record, cache: ImageCache, load: Loader) returns (drawn: seq<DrawCommand>)
    modifies cache
    ensures drawn == Emitted(old(cache.entries), rec, load)
    ensures cache.entries
         == if rec.visible then AfterResolve(old(cache.entries), rec.filepath, load) else old(cache.entries)
  {
    if !rec.visible {
      return [];
    }
    var resolved := cache.Resolve(rec.filepath, load);
    if resolved.None? || Degenerate(resolved.value.image) {
      return [];
    }
    drawn := [Quad(rec, resolved.value)];
  }
}
