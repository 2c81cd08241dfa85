/** The `CarlaneDataset` adapter: the base dataset's `class_info` and
    `image_info` lists and the adapter's own `class_map`, as fields that the
    loader updates in place, the on-demand mask assembly and the image
    reference lookup. */
module Carlane {
  import opened Py
  import opened CarlaneData

  /** The polygon fill of the imaging library: whether pixel (row, col) of a
      blank `width` x `height` canvas is set after the polygon was drawn with
      fill and outline 1. It is a parameter because its pixel coverage is not
      part of this model. */
  type Rasterizer = (Polygon, nat, nat, nat, nat) -> bool

  /** `mask` is the `[height, width, N]` instance mask of `info`: channel `i`
      holds exactly the canvas of polygon `i`, drawn at the record's size. */
  ghost predicate IsMaskOf(mask: array3<bool>, info: ImageInfo, rasterize: Rasterizer)
    reads mask
  {
    && mask.Length0 == info.height
    && mask.Length1 == info.width
    && mask.Length2 == |info.polygons|
    && forall y, x, i | 0 <= y < info.height && 0 <= x < info.width && 0 <= i < |info.polygons| ::
         mask[y, x, i] == rasterize(info.polygons[i], info.width, info.height, y, x)
  }

  class CarlaneDataset {
    /** The base dataset's `class_info`: one entry per `add_class` call. */
    var classInfo: seq<ClassInfo>
    /** The base dataset's `image_info`: one entry per `add_image` call. */
    var imageInfo: seq<ImageInfo>
    /** `self.class_map`, rebuilt by every `load_carlane`. */
    var classMap: map<string, int>

    constructor ()
      ensures classInfo == [] && imageInfo == [] && classMap == map[]
    {
      classInfo := [];
      imageInfo := [];
      classMap := map[];
    }

    /** `add_class(source, class_id, class_name)`. */
    method AddClass(source: string, id: int, name: string)
      modifies this`classInfo
      ensures classInfo == old(classInfo) + [ClassInfo(source, id, name)]
    {
      classInfo := classInfo + [ClassInfo(source, id, name)];
    }

    /** `add_image(source, image_id, path, width, height, polygons, polygon_types)`. */
    method AddImage(source: string, id: string, path: string, width: nat, height: nat,
                    polygons: seq<Polygon>, polygonTypes: seq<string>)
      modifies this`imageInfo
      ensures imageInfo == old(imageInfo) + [ImageInfo(id, source, path, width, height, polygons, polygonTypes)]
    {
      imageInfo := imageInfo + [ImageInfo(id, source, path, width, height, polygons, polygonTypes)];
    }

    /** `load_carlane(dataset_dir, subset)`, with the parsed manifest and the
        readable files per image name given as values. A subset other than
        "train" or "val" changes nothing. Otherwise every manifest class is
        registered, `class_map` is rebuilt, and the split's images are
        appended in order until the first one whose files cannot be read;
        what was appended before that failure stays. */
    method LoadCarlane(datasetDir: string, subset: string, manifest: Manifest,
                       files: map<string, ImageFile>) returns (r: Result<()>)
      modifies this
      ensures SplitNames(manifest, subset).None? ==>
        r == Err(SubsetNotAllowed(subset)) && unchanged(this)
      ensures SplitNames(manifest, subset).Some? ==>
        var names := SplitNames(manifest, subset).value;
        var k := FirstUnreadable(names, files);
        && classInfo == old(classInfo) + ClassRegistrations(manifest.classes)
        && classMap == ClassMapOf(manifest.classes)
        && imageInfo == old(imageInfo) + Records(datasetDir, names[..k], files)
        && r == (if k == |names| then Ok(()) else Err(Unreadable(names[k])))
    {
      if subset != "train" && subset != "val" {
        return Err(SubsetNotAllowed(subset));
      }
      RegisterClasses(manifest.classes);
      BuildClassMap(manifest.classes);
      var names := if subset == "train" then manifest.train else manifest.val;
      r := AddSplit(datasetDir, names, files);
    }

    /** The first loop of `load_carlane`: `add_class("carlane", c[1], c[0])`
        for every manifest entry, in order. */
    method RegisterClasses(classes: seq<ClassEntry>)
      modifies this`classInfo
      ensures classInfo == old(classInfo) + ClassRegistrations(classes)
    {
      for i := 0 to |classes|
        invariant classInfo == old(classInfo) + ClassRegistrations(classes[..i])
      {
        AddClass(Source, classes[i].id, classes[i].name);
        ClassRegistrationsSnoc(classes, i);
      }
      assert classes[..|classes|] == classes;
    }

    /** The second loop of `load_carlane`: `class_map` is reset and then
        assigned `class_map[c[0]] = c[1]` for every manifest entry, in order. */
    method BuildClassMap(classes: seq<ClassEntry>)
      modifies this`classMap
      ensures classMap == ClassMapOf(classes)
    {
      classMap := map[];
      for i := 0 to |classes|
        invariant classMap == ClassMapOf(classes[..i])
      {
        classMap := classMap[classes[i].name := classes[i].id];
        ClassMapSnoc(classes, i);
      }
      assert classes[..|classes|] == classes;
    }

    /** The image loop of `load_carlane`: one `add_image` per name, in order,
        stopping at the first name whose files cannot be read. */
    method AddSplit(datasetDir: string, names: seq<string>, files: map<string, ImageFile>)
      returns (r: Result<()>)
      modifies this`imageInfo
      ensures var k := FirstUnreadable(names, files);
        && imageInfo == old(imageInfo) + Records(datasetDir, names[..k], files)
        && r == (if k == |names| then Ok(()) else Err(Unreadable(names[k])))
    {
      for i := 0 to |names|
        invariant forall j | 0 <= j < i :: names[j] in files
        invariant imageInfo == old(imageInfo) + Records(datasetDir, names[..i], files)
      {
        if names[i] !in files {
          FirstUnreadableAt(names, files, i);
          return Err(Unreadable(names[i]));
        }
        var info := RecordFor(datasetDir, names[i], files[names[i]]);
        AddImage(info.source, info.id, info.path, info.width, info.height, info.polygons, info.polygonTypes);
        RecordsSnoc(old(imageInfo), datasetDir, names, i, files, info);
      }
      assert names[..|names|] == names;
      FirstUnreadableAt(names, files, |names|);
      r := Ok(());
    }

    /** `load_mask(image_id)`: the image is looked up by its position in
        `image_info` (Python list indexing), a zeroed `[height, width, N]`
        mask is filled channel by channel from the record's polygons, and the
        polygons' type labels are resolved to 32-bit class ids. */
    method LoadMask(imageId: int, rasterize: Rasterizer) returns (r: Result<(array3<bool>, seq<int>)>)
      ensures Index(imageInfo, imageId).None? ==> r == Err(IndexOutOfRange(imageId))
      ensures Index(imageInfo, imageId).Some? ==>
        var info := Index(imageInfo, imageId).value;
        var ids := PolygonIds(classMap, info.polygonTypes);
        && (ids.Err? ==> r == Err(ids.error))
        && (ids.Ok? ==> r.Ok? && r.value.1 == ids.value && fresh(r.value.0) && IsMaskOf(r.value.0, info, rasterize))
    {
      var found := Index(imageInfo, imageId);
      if found.None? {
        return Err(IndexOutOfRange(imageId));
      }
      var info := found.value;
      var polygons := info.polygons;
      var mask := new bool[info.height, info.width, |polygons|]((_, _, _) => false);
      for i := 0 to |polygons|
        invariant forall y, x, j | 0 <= y < info.height && 0 <= x < info.width && 0 <= j < |polygons| ::
          mask[y, x, j] == (j < i && rasterize(polygons[j], info.width, info.height, y, x))
      {
        DrawChannel(mask, i, polygons[i], rasterize);
      }
      var ids := PolygonIds(classMap, info.polygonTypes);
      if ids.Err? {
        return Err(ids.error);
      }
      r := Ok((mask, ids.value));
    }

    /** `mask[:, :, i] = np.array(m)`, where `m` is a blank canvas of the
        mask's width and height with `polygon` drawn on it; the other
        channels are untouched. */
    static method DrawChannel(mask: array3<bool>, i: nat, polygon: Polygon, rasterize: Rasterizer)
      requires i < mask.Length2
      modifies mask
      ensures forall y, x, j | 0 <= y < mask.Length0 && 0 <= x < mask.Length1 && 0 <= j < mask.Length2 ::
        mask[y, x, j] == if j == i then rasterize(polygon, mask.Length1, mask.Length0, y, x) else old(mask[y, x, j])
    {
      forall y, x | 0 <= y < mask.Length0 && 0 <= x < mask.Length1 {
        mask[y, x, i] := rasterize(polygon, mask.Length1, mask.Length0, y, x);
      }
    }

    /** `image_reference(image_id)`: the stored path of a "carlane" record;
        for any other source the base method's result is discarded, so the
        call yields nothing. */
    function ImageReference(imageId: int): (r: Result<Option<string>>)
      reads this
      ensures Index(imageInfo, imageId).None? <==> r == Err(IndexOutOfRange(imageId))
      ensures r.Ok? ==> (r.value.Some? <==> Index(imageInfo, imageId).value.source == Source)
      ensures r.Ok? && r.value.Some? ==> r.value.value == Index(imageInfo, imageId).value.path
    {
      match Index(imageInfo, imageId)
      case None => Err(IndexOutOfRange(imageId))
      case Some(info) => if info.source == Source then Ok(Some(info.path)) else Ok(None)
    }
  }

  /** `image_reference` as evidently intended: a record of another source
      gets whatever the base dataset's `image_reference` gives for it. Every
      position that exists yields a reference. */
  function IntendedImageReference(d: CarlaneDataset, imageId: int, baseReference: ImageInfo -> string)
    : (r: Result<string>)
    reads d
    ensures r.Ok? <==> Index(d.imageInfo, imageId).Some?
    ensures r.Err? ==> r.error == IndexOutOfRange(imageId)
  {
    match Index(d.imageInfo, imageId)
    case None => Err(IndexOutOfRange(imageId))
    case Some(info) => Ok(if info.source == Source then info.path else baseReference(info))
  }

  /** The intended reference extends the as-written one: both fail on the
      same positions, agree wherever the as-written call yields a path, and
      the intended one is the base result exactly where the as-written call
      yields nothing. */
  lemma IntendedReferenceAgrees(d: CarlaneDataset, imageId: int, baseReference: ImageInfo -> string)
    ensures d.ImageReference(imageId).Err? <==> IntendedImageReference(d, imageId, baseReference).Err?
    ensures d.ImageReference(imageId).Ok? && d.ImageReference(imageId).value.Some? ==>
      IntendedImageReference(d, imageId, baseReference) == Ok(d.ImageReference(imageId).value.value)
    ensures d.ImageReference(imageId) == Ok(None) ==>
      IntendedImageReference(d, imageId, baseReference) == Ok(baseReference(Index(d.imageInfo, imageId).value))
  {
  }

  /** As written, a record of another source gets no reference at all, even
      when the base dataset has one for it. */
  method DiscardedBaseReference()
  {
    var d := new CarlaneDataset();
    var info := ImageInfo("coco1", "coco", "/coco/1.jpg", 4, 4, [], []);
    d.AddImage(info.source, info.id, info.path, info.width, info.height, [], []);
    var base := (i: ImageInfo) => i.path;
    assert d.ImageReference(0) == Ok(None);
    assert IntendedImageReference(d, 0, base) == Ok("/coco/1.jpg");
  }

  /** After a load, the reference of each appended image is the path
      `<dataset_dir>/<name>.jpg` it was registered with. */
  lemma LoadedReference(d: CarlaneDataset, earlier: seq<ImageInfo>, datasetDir: string,
                        names: seq<string>, files: map<string, ImageFile>, i: nat)
    requires forall j | 0 <= j < |names| :: names[j] in files
    requires d.imageInfo == earlier + Records(datasetDir, names, files)
    requires i < |names|
    ensures d.ImageReference(|earlier| + i) == Ok(Some(Join(datasetDir, names[i] + ".jpg")))
  {
    RecordsAt(datasetDir, names, files);
    RecordForFields(datasetDir, names[i], files[names[i]]);
    assert d.imageInfo[|earlier| + i] == RecordFor(datasetDir, names[i], files[names[i]]);
  }

  /** What a caller learns from the contracts alone, for the manifest
      `train: ["img1"], val: [], classes: [["lane", 1], ["marker", 2]]`:
      loading "train" gives one record for "img1", loading "val" none, and
      any other subset is refused. */
  method SplitExample()
  {
    var lane := Entry([Point(2, 2), Point(8, 2), Point(8, 6), Point(2, 6)], "lane");
    var manifest := Manifest(["img1"], [], [ClassEntry("lane", 1), ClassEntry("marker", 2)]);
    var files := map["img1" := ImageFile([lane], 10, 10)];

    var train := new CarlaneDataset();
    var r := train.LoadCarlane("data", "train", manifest, files);
    assert ["img1"][..1] == ["img1"];
    assert r == Ok(());
    RecordsAt("data", ["img1"], files);
    assert |train.imageInfo| == 1 && train.imageInfo[0].id == "img1";
    assert train.classMap == map["lane" := 1, "marker" := 2];

    var val := new CarlaneDataset();
    r := val.LoadCarlane("data", "val", manifest, files);
    assert r == Ok(()) && val.imageInfo == [];

    r := val.LoadCarlane("data", "test", manifest, files);
    assert r == Err(SubsetNotAllowed("test"));
  }

  /** Two mask calls for the same loaded image agree on the mask and on the
      class ids. */
  method RepeatedMaskExample(rasterize: Rasterizer)
  {
    var lane := Entry([Point(2, 2), Point(8, 2), Point(8, 6), Point(2, 6)], "lane");
    var manifest := Manifest(["img1"], [], [ClassEntry("lane", 1), ClassEntry("marker", 2)]);
    var d := new CarlaneDataset();
    var r := d.LoadCarlane("data", "train", manifest, map["img1" := ImageFile([lane], 10, 10)]);
    assert ["img1"][..1] == ["img1"];
    var m1 := d.LoadMask(0, rasterize);
    var m2 := d.LoadMask(0, rasterize);
    assert m1.Ok? && m2.Ok? && m1.value.1 == m2.value.1;
    assert forall y, x | 0 <= y < 10 && 0 <= x < 10 :: m1.value.0[y, x, 0] == m2.value.0[y, x, 0];
  }

  /** A polygon label outside the class map fails the mask call with that label. */
  method UnknownClassExample(rasterize: Rasterizer)
  {
    var lane := Entry([Point(2, 2), Point(8, 2), Point(8, 6), Point(2, 6)], "lane");
    var curb := Entry([Point(0, 0), Point(1, 0), Point(1, 1)], "curb");
    var manifest := Manifest(["img1"], [], [ClassEntry("lane", 1), ClassEntry("marker", 2)]);
    var d := new CarlaneDataset();
    var r := d.LoadCarlane("data", "train", manifest, map["img1" := ImageFile([lane, curb], 10, 10)]);
    assert ["img1"][..1] == ["img1"];
    var m := d.LoadMask(0, rasterize);
    assert m == Err(UnknownClass("curb"));
  }
}
