/**
  The host document state the addon installs on every scene: the ordered
  collection of reference-image records, the selected index into it and the
  global on/off toggle.
 */
module Scene {
  import opened Geometry
  import opened TextureCache

  /** One reference image overlay. */
  datatype Record = Record(
    name: string,
    filepath: Path,
    visible: bool,
    position: Vec2,  // bottom-left corner, in pixels
    scale: Vec2,
    opacity: real,
    flipX: bool,
    flipY: bool)

  /** The host keeps every opacity in [0, 1] (the property's min and max). */
  predicate OpacitiesInRange(images: seq<Record>) {
    forall i :: 0 <= i < |images| ==> 0.0 <= images[i].opacity <= 1.0
  }

  class SceneState {
    var images: seq<Record>
    var index: int
    var referencesOn: bool

    /** The defaults of the installed scene properties: no records, index 0,
        overlays on. */
    constructor ()
      ensures images == [] && index == 0 && referencesOn
    {
      images := [];
      index := 0;
      referencesOn := true;
    }
  }
}
