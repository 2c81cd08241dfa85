/** The values the Carlane dataset adapter reads and stores: the parsed
    manifest `train_val.json`, the parsed per-image annotation `<name>.json`,
    the class and image records it registers with the base dataset, and the
    pure computations between them (polygon extraction, the name-to-id class
    map, class-id resolution for the instance masks). */
module CarlaneData {
  import opened Py

  /** Source tag under which every class and image of this dataset is registered. */
  const Source: string := "carlane"

  /** One `[class_name, class_id]` pair of the manifest's `classes` list. */
  datatype ClassEntry = ClassEntry(name: string, id: int)

  /** The parsed `train_val.json`. */
  datatype Manifest = Manifest(train: seq<string>, val: seq<string>, classes: seq<ClassEntry>)

  /** One `{x, y}` vertex object of an annotation's `arr` list. */
  datatype Point = Point(x: int, y: int)

  /** One item of an annotation's `datalist`: its `arr` and its `type` label. */
  datatype Entry = Entry(arr: seq<Point>, kind: string)

  /** What the adapter reads for one image name: the `datalist` of
      `<name>.json` and the pixel size of `<name>.jpg`. */
  datatype ImageFile = ImageFile(datalist: seq<Entry>, width: nat, height: nat)

  /** A polygon as handed to the rasteriser: its vertices as `(x, y)` pairs. */
  type Polygon = seq<(int, int)>

  /** An entry of the base dataset's `class_info` list. */
  datatype ClassInfo = ClassInfo(source: string, id: int, name: string)

  /** An entry of the base dataset's `image_info` list, with the extra
      fields this adapter passes to `add_image`. */
  datatype ImageInfo = ImageInfo(
    id: string, source: string, path: string, width: nat, height: nat,
    polygons: seq<Polygon>, polygonTypes: seq<string>)

  datatype Error =
    | SubsetNotAllowed(subset: string)  // the `assert subset in ["train", "val"]`
    | Unreadable(imageName: string)     // `<name>.json` or `<name>.jpg` cannot be read
    | IndexOutOfRange(imageId: int)     // `image_info[image_id]` raises IndexError
    | UnknownClass(kind: string)       // `class_map[t]` raises KeyError

  datatype Result<T> = Ok(value: T) | Err(error: Error)

  // ---------------------------------------------------------------------------
  // Splits

  /** `data[subset]`, for the only two subsets the loader admits. */
  function SplitNames(m: Manifest, subset: string): (r: Option<seq<string>>)
    ensures r.Some? <==> subset == "train" || subset == "val"
    ensures subset == "train" ==> r == Some(m.train)
    ensures subset == "val" ==> r == Some(m.val)
  {
    if subset == "train" then Some(m.train)
    else if subset == "val" then Some(m.val)
    else None
  }

  // ---------------------------------------------------------------------------
  // Annotation extraction

  /** `[(xy['x'], xy['y']) for xy in p]` */
  function Vertices(arr: seq<Point>): Polygon
  {
    seq(|arr|, j requires 0 <= j < |arr| => (arr[j].x, arr[j].y))
  }

  /** `polygons` of an annotation: each entry's `arr`, as vertex pairs. */
  function Polygons(datalist: seq<Entry>): seq<Polygon>
  {
    seq(|datalist|, i requires 0 <= i < |datalist| => Vertices(datalist[i].arr))
  }

  /** `polygon_types` of an annotation: each entry's `type`. */
  function PolygonTypes(datalist: seq<Entry>): seq<string>
  {
    seq(|datalist|, i requires 0 <= i < |datalist| => datalist[i].kind)
  }

  /** The annotation entries that a polygon list and a parallel label list
      describe: the inverse of the extraction. */
  function Datalist(polygons: seq<Polygon>, types: seq<string>): (d: seq<Entry>)
    requires |polygons| == |types|
    ensures |d| == |polygons|
  {
    seq(|polygons|, i requires 0 <= i < |polygons| =>
      Entry(seq(|polygons[i]|, j requires 0 <= j < |polygons[i]| => Point(polygons[i][j].0, polygons[i][j].1)),
            types[i]))
  }

  /** The extracted polygon and type lists are parallel to the datalist, and
      together they give back every entry, in order: nothing is dropped,
      reordered or mixed between entries. */
  lemma ExtractionRoundTrip(datalist: seq<Entry>)
    ensures |Polygons(datalist)| == |PolygonTypes(datalist)| == |datalist|
    ensures Datalist(Polygons(datalist), PolygonTypes(datalist)) == datalist
  {
    var d := Datalist(Polygons(datalist), PolygonTypes(datalist));
    forall i | 0 <= i < |datalist|
      ensures d[i] == datalist[i]
    {
      var arr := datalist[i].arr;
      assert d[i].arr == arr;
    }
  }

  // ---------------------------------------------------------------------------
  // Classes

  /** The `add_class("carlane", c[1], c[0])` calls of the first loop, in order. */
  function ClassRegistrations(classes: seq<ClassEntry>): seq<ClassInfo>
  {
    if classes == [] then []
    else
      var last := classes[|classes| - 1];
      ClassRegistrations(classes[..|classes| - 1]) + [ClassInfo(Source, last.id, last.name)]
  }

  /** Registering one more manifest entry appends one registration. */
  lemma ClassRegistrationsSnoc(classes: seq<ClassEntry>, i: nat)
    requires i < |classes|
    ensures ClassRegistrations(classes[..i + 1]) ==
      ClassRegistrations(classes[..i]) + [ClassInfo(Source, classes[i].id, classes[i].name)]
  {
    assert classes[..i + 1][..i] == classes[..i];
  }

  /** One registration per manifest entry, at the entry's own position, with
      source "carlane", id `c[1]` and name `c[0]`. */
  lemma {:induction false} ClassRegistrationsAt(classes: seq<ClassEntry>)
    ensures |ClassRegistrations(classes)| == |classes|
    ensures forall i | 0 <= i < |classes| ::
      ClassRegistrations(classes)[i] == ClassInfo(Source, classes[i].id, classes[i].name)
  {
    if classes != [] {
      ClassRegistrationsAt(classes[..|classes| - 1]);
    }
  }

  /** `class_map` after the second loop: each assignment overwrites an
      earlier one for the same name. */
  function ClassMapOf(classes: seq<ClassEntry>): map<string, int>
  {
    if classes == [] then map[]
    else
      var last := classes[|classes| - 1];
      ClassMapOf(classes[..|classes| - 1])[last.name := last.id]
  }

  /** Processing one more manifest entry assigns its name to its id. */
  lemma ClassMapSnoc(classes: seq<ClassEntry>, i: nat)
    requires i < |classes|
    ensures ClassMapOf(classes[..i + 1]) == ClassMapOf(classes[..i])[classes[i].name := classes[i].id]
  {
    assert classes[..i + 1][..i] == classes[..i];
  }

  /** The class names occurring in the manifest. */
  function Names(classes: seq<ClassEntry>): set<string>
  {
    set i | 0 <= i < |classes| :: classes[i].name
  }

  /** The keys of the class map are exactly the manifest's class names. */
  lemma {:induction false} ClassMapKeys(classes: seq<ClassEntry>)
    ensures ClassMapOf(classes).Keys == Names(classes)
  {
    if classes != [] {
      var init := classes[..|classes| - 1];
      ClassMapKeys(init);
      assert Names(classes) == Names(init) + {classes[|classes| - 1].name} by {
        forall n | n in Names(classes) ensures n in Names(init) + {classes[|classes| - 1].name} {
          var i :| 0 <= i < |classes| && classes[i].name == n;
          if i < |classes| - 1 { assert init[i].name == n; }
        }
        forall n | n in Names(init) ensures n in Names(classes) {
          var i :| 0 <= i < |init| && init[i].name == n;
          assert classes[i].name == n;
        }
      }
    }
  }

  /** A name maps to the id of its last occurrence in the manifest. */
  lemma {:induction false} ClassMapLastWins(classes: seq<ClassEntry>, j: nat)
    requires j < |classes|
    requires forall k | j < k < |classes| :: classes[k].name != classes[j].name
    ensures classes[j].name in ClassMapOf(classes)
    ensures ClassMapOf(classes)[classes[j].name] == classes[j].id
  {
    if j < |classes| - 1 {
      var init := classes[..|classes| - 1];
      ClassMapLastWins(init, j);
    }
  }

  /** Every key of the class map comes from some manifest entry whose id it
      holds and after which that name does not occur again. */
  lemma ClassMapValues(classes: seq<ClassEntry>, n: string)
    requires n in ClassMapOf(classes)
    ensures exists j | 0 <= j < |classes| ::
      classes[j].name == n && ClassMapOf(classes)[n] == classes[j].id &&
      forall k | j < k < |classes| :: classes[k].name != n
  {
    ClassMapKeys(classes);
    var i :| 0 <= i < |classes| && classes[i].name == n;
    var j := LastOccurrence(classes, n, i);
    ClassMapLastWins(classes, j);
  }

  /** The last position holding name `n`, given one position `i` that does. */
  function LastOccurrence(classes: seq<ClassEntry>, n: string, i: nat): (j: nat)
    requires i < |classes| && classes[i].name == n
    ensures i <= j < |classes| && classes[j].name == n
    ensures forall k | j < k < |classes| :: classes[k].name != n
    decreases |classes| - i
  {
    if forall k | i < k < |classes| :: classes[k].name != n then i
    else
      var k :| i < k < |classes| && classes[k].name == n;
      LastOccurrence(classes, n, k)
  }

  /** With distinct names, the class map holds exactly one key per manifest
      entry, mapped to that entry's id. */
  lemma ClassMapDistinct(classes: seq<ClassEntry>)
    requires forall i, k | 0 <= i < k < |classes| :: classes[i].name != classes[k].name
    ensures |ClassMapOf(classes)| == |classes|
    ensures forall i | 0 <= i < |classes| ::
      classes[i].name in ClassMapOf(classes) && ClassMapOf(classes)[classes[i].name] == classes[i].id
  {
    forall i | 0 <= i < |classes|
      ensures classes[i].name in ClassMapOf(classes) && ClassMapOf(classes)[classes[i].name] == classes[i].id
    {
      ClassMapLastWins(classes, i);
    }
    ClassMapKeys(classes);
    DistinctNamesCount(classes);
  }

  lemma {:induction false} DistinctNamesCount(classes: seq<ClassEntry>)
    requires forall i, k | 0 <= i < k < |classes| :: classes[i].name != classes[k].name
    ensures |Names(classes)| == |classes|
  {
    if classes != [] {
      var init := classes[..|classes| - 1];
      var last := classes[|classes| - 1].name;
      DistinctNamesCount(init);
      assert Names(classes) == Names(init) + {last} by {
        forall n | n in Names(classes) ensures n in Names(init) + {last} {
          var i :| 0 <= i < |classes| && classes[i].name == n;
          if i < |classes| - 1 { assert init[i].name == n; }
        }
        forall n | n in Names(init) ensures n in Names(classes) {
          var i :| 0 <= i < |init| && init[i].name == n;
          assert classes[i].name == n;
        }
      }
      assert last !in Names(init);
    }
  }

  // ---------------------------------------------------------------------------
  // Class ids of the instance masks

  /** `np.array([class_map[t] for t in polygon_types]).astype(np.int32)`:
      the labels are looked up in order and the first unknown one raises. */
  function PolygonIds(classMap: map<string, int>, types: seq<string>): (r: Result<seq<int>>)
    ensures r.Ok? <==> forall i | 0 <= i < |types| :: types[i] in classMap
    ensures r.Ok? ==> |r.value| == |types|
    ensures r.Ok? ==> forall i | 0 <= i < |types| :: r.value[i] == WrapInt32(classMap[types[i]])
    ensures r.Err? ==> exists k | 0 <= k < |types| ::
      types[k] !in classMap && r.error == UnknownClass(types[k]) &&
      forall j | 0 <= j < k :: types[j] in classMap
  {
    if types == [] then Ok([])
    else if types[0] !in classMap then Err(UnknownClass(types[0]))
    else
      var rest := PolygonIds(classMap, types[1..]);
      if rest.Err? then
        assert exists k | 0 <= k < |types[1..]| ::
          types[1..][k] !in classMap && rest.error == UnknownClass(types[1..][k]) &&
          (forall j | 0 <= j < k :: types[1..][j] in classMap);
        Err(rest.error)
      else Ok([WrapInt32(classMap[types[0]])] + rest.value)
  }

  /** Ids that fit in 32 bits come through the cast unchanged: each polygon
      gets exactly the id its label maps to. */
  lemma PolygonIdsInRange(classMap: map<string, int>, types: seq<string>)
    requires forall i | 0 <= i < |types| :: types[i] in classMap
    requires forall t | t in classMap :: -Two31 <= classMap[t] < Two31
    ensures PolygonIds(classMap, types).Ok?
    ensures forall i | 0 <= i < |types| :: PolygonIds(classMap, types).value[i] == classMap[types[i]]
  {
  }

  // ---------------------------------------------------------------------------
  // Image records

  /** The record `add_image` receives for image `name`. */
  function RecordFor(datasetDir: string, name: string, file: ImageFile): ImageInfo
  {
    ImageInfo(name, Source, Join(datasetDir, name + ".jpg"), file.width, file.height,
              Polygons(file.datalist), PolygonTypes(file.datalist))
  }

  /** The records appended, in order, for a list of image names. */
  function Records(datasetDir: string, names: seq<string>, files: map<string, ImageFile>): seq<ImageInfo>
    requires forall j | 0 <= j < |names| :: names[j] in files
  {
    if names == [] then []
    else
      var last := names[|names| - 1];
      Records(datasetDir, names[..|names| - 1], files) + [RecordFor(datasetDir, last, files[last])]
  }

  /** What `add_image` receives for one image: its id is the name, its
      source "carlane", its path `<dataset_dir>/<name>.jpg`, its size that of
      the image file, and its polygon and type lists parallel to the image's
      datalist and together giving it back entry by entry. */
  lemma RecordForFields(datasetDir: string, name: string, file: ImageFile)
    ensures var r := RecordFor(datasetDir, name, file);
      && r.id == name && r.source == Source
      && r.path == Join(datasetDir, name + ".jpg")
      && r.width == file.width && r.height == file.height
      && |r.polygons| == |r.polygonTypes| == |file.datalist|
      && Datalist(r.polygons, r.polygonTypes) == file.datalist
  {
    ExtractionRoundTrip(file.datalist);
  }

  /** For a loaded image, the id vector of its mask resolves one label per
      polygon, in the datalist's order, and fails exactly when some entry's
      `type` is not a known class. */
  lemma LoadedIdsParallel(datasetDir: string, name: string, file: ImageFile, classMap: map<string, int>)
    ensures var info := RecordFor(datasetDir, name, file);
      var ids := PolygonIds(classMap, info.polygonTypes);
      && (ids.Ok? <==> forall i | 0 <= i < |file.datalist| :: file.datalist[i].kind in classMap)
      && (ids.Ok? ==> |ids.value| == |info.polygons|)
      && (ids.Ok? ==> forall i | 0 <= i < |file.datalist| :: ids.value[i] == WrapInt32(classMap[file.datalist[i].kind]))
  {
    var info := RecordFor(datasetDir, name, file);
    assert |info.polygonTypes| == |info.polygons| == |file.datalist|;
    forall i | 0 <= i < |file.datalist| ensures info.polygonTypes[i] == file.datalist[i].kind { }
  }

  /** One record per name, in the order of the names. */
  lemma {:induction false} RecordsAt(datasetDir: string, names: seq<string>, files: map<string, ImageFile>)
    requires forall j | 0 <= j < |names| :: names[j] in files
    ensures |Records(datasetDir, names, files)| == |names|
    ensures forall i | 0 <= i < |names| ::
      Records(datasetDir, names, files)[i] == RecordFor(datasetDir, names[i], files[names[i]])
  {
    if names != [] {
      var init := names[..|names| - 1];
      var last := names[|names| - 1];
      RecordsAt(datasetDir, init, files);
      var rs := Records(datasetDir, names, files);
      var rsInit := Records(datasetDir, init, files);
      var rec := RecordFor(datasetDir, last, files[last]);
      assert rs == rsInit + [rec];
      forall i | 0 <= i < |names|
        ensures rs[i] == RecordFor(datasetDir, names[i], files[names[i]])
      {
        if i < |init| {
          assert init[i] == names[i];
          assert rs[i] == rsInit[i];
        } else {
          assert rs[i] == rec;
        }
      }
    }
  }

  /** Records are only ever made for the names asked for: an image name that
      is not in the loaded split never appears among its records. */
  lemma OnlyListedNames(datasetDir: string, names: seq<string>, files: map<string, ImageFile>, other: string)
    requires forall j | 0 <= j < |names| :: names[j] in files
    requires other !in names
    ensures forall r | r in Records(datasetDir, names, files) :: r.id != other
  {
    RecordsAt(datasetDir, names, files);
    forall r | r in Records(datasetDir, names, files) ensures r.id != other {
      var i :| 0 <= i < |names| && Records(datasetDir, names, files)[i] == r;
      RecordForFields(datasetDir, names[i], files[names[i]]);
    }
  }

  /** Appending what `add_image` receives for one more readable name to the
      records of a prefix gives the records of the longer prefix. */
  lemma RecordsSnoc(earlier: seq<ImageInfo>, datasetDir: string, names: seq<string>, i: nat,
                    files: map<string, ImageFile>, added: ImageInfo)
    requires i < |names|
    requires forall j | 0 <= j <= i :: names[j] in files
    requires added == RecordFor(datasetDir, names[i], files[names[i]])
    ensures earlier + Records(datasetDir, names[..i], files) + [added] ==
      earlier + Records(datasetDir, names[..i + 1], files)
  {
    assert names[..i + 1][..i] == names[..i];
  }

  /** The first name without readable files, found by scanning in order. */
  lemma FirstUnreadableAt(names: seq<string>, files: map<string, ImageFile>, i: nat)
    requires i <= |names|
    requires forall j | 0 <= j < i :: names[j] in files
    requires i < |names| ==> names[i] !in files
    ensures FirstUnreadable(names, files) == i
  {
  }

  /** Position of the first image name whose files cannot be read, or the
      number of names when all can. */
  function FirstUnreadable(names: seq<string>, files: map<string, ImageFile>): (k: nat)
    ensures k <= |names|
    ensures forall j | 0 <= j < k :: names[j] in files
    ensures k < |names| ==> names[k] !in files
  {
    if names == [] || names[0] !in files then 0
    else 1 + FirstUnreadable(names[1..], files)
  }
}
