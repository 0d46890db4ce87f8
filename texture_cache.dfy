/**
  The process-wide texture cache: a dictionary from an image file path to the
  decoded image and the GPU texture made from it. It is filled lazily by the
  per-frame draw routine, popped when an overlay record is removed and
  cleared when the addon is unregistered.

  Decoding and uploading an image belong to the host. They are modelled as a
  loader oracle: a function from a path to either nothing (the load raised)
  or the entry that the load produced.
 */
module TextureCache {

  datatype Option<T> = None | Some(value: T)

  type Path = string

  /** What the draw routine reads of a decoded host image, as it stood when
      the image was loaded. */
  datatype Image = Image(hasData: bool, width: nat, height: nat)

  /** An opaque GPU texture handle. */
  datatype Texture = Texture(id: nat)

  /** The cached pair (image, gpu_tex). */
  datatype CacheEntry = CacheEntry(image: Image, texture: Texture)

  /** Load, upload and make a texture from the file at a path; None when any
      of these steps raised. */
  type Loader = Path -> Option<CacheEntry>

  /** The entry the draw routine ends up with for `path`: the cached one on a
      hit, otherwise whatever the loader produces. */
  function Lookup(entries: map<Path, CacheEntry>, path: Path, load: Loader): (r: Option<CacheEntry>)
    ensures path in entries ==> r == Some(entries[path])
    ensures r.None? <==> path !in entries && load(path).None?
  {
    if path in entries then Some(entries[path]) else load(path)
  }

  /** The cache after resolving `path`: a hit or a failed load leaves it as
      it was, a successful load on a miss adds exactly that one entry. */
  function AfterResolve(entries: map<Path, CacheEntry>, path: Path, load: Loader): (r: map<Path, CacheEntry>)
    ensures entries.Keys <= r.Keys
    ensures forall p :: p in entries ==> r[p] == entries[p]
    ensures r.Keys - entries.Keys == if path !in entries && load(path).Some? then {path} else {}
    ensures path in r ==> Lookup(entries, path, load) == Some(r[path])
  {
    if path !in entries && load(path).Some? then entries[path := load(path).value] else entries
  }

  /** Resolving the same path a second time is a hit that returns the same
      entry and changes nothing, whatever the loader would now say. */
  lemma ResolveTwice(entries: map<Path, CacheEntry>, path: Path, load: Loader, load': Loader)
    requires Lookup(entries, path, load).Some?
    ensures Lookup(AfterResolve(entries, path, load), path, load') == Lookup(entries, path, load)
    ensures AfterResolve(AfterResolve(entries, path, load), path, load') == AfterResolve(entries, path, load)
  {
  }

  class ImageCache {
    var entries: map<Path, CacheEntry>

    /** The module starts with an empty dictionary. */
    constructor ()
      ensures entries == map[]
    {
      entries := map[];
    }

    /** Resolve the texture of `path`: reuse the cached entry, or load it and
        store it only when the load succeeds. */
    method Resolve(path: Path, load: Loader) returns (r: Option<CacheEntry>)
      modifies this
      ensures r == Lookup(old(entries), path, load)
      ensures entries == AfterResolve(old(entries), path, load)
      ensures path in old(entries) ==> entries == old(entries)
      ensures r.None? ==> entries == old(entries)
    {
      if path !in entries {
        var loaded := load(path);
        if loaded.None? {
          return None;
        }
        entries := entries[path := loaded.value];
        r := loaded;
      } else {
        r := Some(entries[path]);
      }
    }

    /** Pop `path` if present; a missing path is not an error. */
    method Pop(path: Path)
      modifies this
      ensures entries == old(entries) - {path}
      ensures path !in entries
    {
      entries := entries - {path};
    }

    /** Drop every entry. */
    method Clear()
      modifies this
      ensures entries == map[]
    {
      entries := map[];
    }
  }
}
