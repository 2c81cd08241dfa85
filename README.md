# Carlane dataset adapter — a Dafny model

This project models `CarlaneDataset` from `code/carlane.py`. It is the adapter that feeds a
lane and road-marking dataset to an instance-segmentation framework (Mask R-CNN's
`utils.Dataset`). The adapter has three operations:

- **`load_carlane(dataset_dir, subset)`** admits only the subsets `"train"` and `"val"`.
  It registers every class of the manifest `train_val.json` with `add_class`, rebuilds the
  name-to-id dictionary `class_map`, and then appends one image record per name of the chosen
  split with `add_image`. Each record holds the image's path, its pixel size, its polygons
  and the parallel list of polygon type labels.
- **`load_mask(image_id)`** looks up a record by its position in `image_info`. It allocates a
  zeroed `[height, width, N]` mask and fills channel `i` with the rasterised polygon `i`.
  It then resolves every polygon's type label through `class_map` into a 32-bit class id.
- **`image_reference(image_id)`** returns the stored path of a `"carlane"` record.

Layout:

- `py.dfy` (module `Py`) writes out the Python behaviour the adapter depends on: list
  indexing with negative positions, `posixpath.join` for two components, and numpy's cast
  to `int32`.
- `carlane_data.dfy` (module `CarlaneData`) holds the parsed inputs, the records and the
  pure parts:
  - polygon and type extraction, and its inverse;
  - the class-map fold and the registration sequence;
  - class-id resolution;
  - the records appended for a split;
  - the lemmas about all of these.
- `carlane.dfy` (module `Carlane`) holds the class `CarlaneDataset`. Its fields are
  `classInfo`, `imageInfo` and `classMap`, and its methods update them in place, as the
  Python object does. `LoadCarlane` runs the source's three loops through `RegisterClasses`,
  `BuildClassMap` and `AddSplit`. `LoadMask` fills a fresh `array3<bool>` channel by channel.
  The module also holds the corrected `image_reference` and its witness method
  `DiscardedBaseReference` (see Findings), and three client methods (`SplitExample`,
  `RepeatedMaskExample` and `UnknownClassExample`). The client methods derive the behaviour of small concrete manifests from the
  contracts alone.

Inputs that the source obtains by I/O or from foreign code are parameters:

- the parsed manifest is a `Manifest` value;
- the parsed annotation and the image's width and height are an `ImageFile` value per image
  name, in a map. A name missing from the map stands for a file that cannot be opened or parsed;
- the imaging library's polygon fill is a `Rasterizer` function value
  `(polygon, width, height, row, col) -> bool`.

Behaviour of the code that the model keeps as written:

- For a record of another source, `image_reference` calls the base method but does not return
  its result (code/carlane.py:136), so the call yields nothing (`Ok(None)` here), although the
  method's docstring says it returns the path of the image. See "## Findings".
- `add_class` is called once per manifest entry, duplicates included. A duplicated name in
  `class_map` takes the id of its last occurrence.
- A failed image read stops the load. The classes and the earlier images of the split stay
  registered.

## Model

| member | source | states |
|---|---|---|
| `Py.Index` | code/carlane.py:118 | `image_info[image_id]` exists exactly for positions `-len..len-1`, and a negative position addresses the element `len` places later |
| `Py.Join` | code/carlane.py:94 | an absolute name replaces `dataset_dir`; otherwise the path is `dataset_dir` followed by the name, with exactly one `/` between them unless `dataset_dir` is empty or already ends in one, so it starts with `dataset_dir` and ends with `<name>.jpg` |
| `Py.WrapInt32` | code/carlane.py:128 | `astype(np.int32)` gives a value in the 32-bit range that is congruent to the id modulo 2^32, and ids already in range are unchanged |
| `CarlaneData.SplitNames` | code/carlane.py:62-83 | a split exists exactly for `"train"` and `"val"`, and each of them selects its own name list |
| `CarlaneData.ExtractionRoundTrip` | code/carlane.py:89-92 | of the extraction functions `Vertices`, `Polygons` and `PolygonTypes`: `polygons` and `polygon_types` are as long as `datalist`, and zipped back together they give every entry's `arr` and `type` in order |
| `CarlaneData.ClassRegistrationsAt` | code/carlane.py:75-77 | of `ClassRegistrations`, the sequence of `add_class` calls: one `add_class` per manifest entry at that entry's position, with source `"carlane"`, id `c[1]` and name `c[0]` |
| `CarlaneData.ClassMapKeys` | code/carlane.py:79-81 | of `ClassMapOf`, the fold that builds `class_map`: the keys of `class_map` are exactly the class names of the manifest |
| `CarlaneData.ClassMapLastWins` | code/carlane.py:79-81 | a name maps to the id of its last occurrence, because later assignments overwrite earlier ones |
| `CarlaneData.ClassMapValues` | code/carlane.py:79-81 | every value of `class_map` is the id of the last manifest entry with that name |
| `CarlaneData.ClassMapDistinct` | code/carlane.py:79-81 | with distinct names, `class_map` has one key per class and every name maps to its own id |
| `CarlaneData.PolygonIds` | code/carlane.py:127-128 | the ids exist exactly when every type label is in `class_map`; then there is one id per label, in order, equal to the cast of the mapped id; otherwise the first unknown label is the error |
| `CarlaneData.PolygonIdsInRange` | code/carlane.py:127-128 | class ids within 32 bits reach the id vector unchanged |
| `CarlaneData.RecordForFields` | code/carlane.py:86-105 | of `RecordFor`, the record `add_image` receives: an image record's id is its name, its source is `"carlane"`, its path is `dataset_dir/<name>.jpg`, its size is the image's size, and its polygon and type lists are parallel to `datalist` and rebuild it |
| `CarlaneData.RecordsAt` | code/carlane.py:86-105 | of `Records`, the records appended for a split: one record per image name of the split, in the split's order |
| `CarlaneData.OnlyListedNames` | code/carlane.py:83-86 | no record is made for a name outside the loaded split, so the other split's names are never added |
| `CarlaneData.LoadedIdsParallel` | code/carlane.py:89-92 | for a loaded image the id vector has one entry per polygon, entry `i` from the type of datalist entry `i`, and it fails exactly when some type is unknown |
| `CarlaneData.FirstUnreadable` | code/carlane.py:86-96 | the position where the image loop stops: all earlier names are readable and the name at that position is not |
| `Carlane.CarlaneDataset.AddClass` | code/carlane.py:77 | `add_class` appends one class entry and changes nothing else |
| `Carlane.CarlaneDataset.AddImage` | code/carlane.py:98-105 | `add_image` appends one image record with the given fields and changes nothing else |
| `Carlane.CarlaneDataset.LoadCarlane` | code/carlane.py:56-105 | any other subset fails with nothing changed; otherwise all classes are registered, `class_map` is rebuilt from the manifest, and the split's records are appended up to the first unreadable image, which is the error |
| `Carlane.CarlaneDataset.RegisterClasses` | code/carlane.py:75-77 | `class_info` grows by the manifest's registrations, in order |
| `Carlane.CarlaneDataset.BuildClassMap` | code/carlane.py:79-81 | `class_map` is reset and ends as the fold of the manifest entries |
| `Carlane.CarlaneDataset.AddSplit` | code/carlane.py:83-105 | `image_info` grows by the records of the names before the first unreadable one; the result is that name's error, or success when all are readable |
| `Carlane.CarlaneDataset.LoadMask` | code/carlane.py:107-128 | an out-of-range position fails; otherwise an unknown label fails with that label; otherwise the mask has shape `[height, width, len(polygons)]` of the stored record, channel `i` is polygon `i` rasterised at the record's size, and the ids are the resolved labels; the mask part is the predicate `IsMaskOf` |
| `Carlane.CarlaneDataset.DrawChannel` | code/carlane.py:122-126 | writing one polygon's canvas sets exactly channel `i` and leaves the other channels as they were |
| `Carlane.CarlaneDataset.ImageReference` | code/carlane.py:130-136 | an out-of-range position fails; a `"carlane"` record gives its stored path; any other source gives nothing |
| `Carlane.LoadedReference` | code/carlane.py:94-134 | after a load, the reference of each appended image is `dataset_dir/<name>.jpg` |
| `Carlane.IntendedImageReference` | code/carlane.py:130-136 | corrected `image_reference`: every existing position yields a reference |
| `Carlane.IntendedReferenceAgrees` | code/carlane.py:130-136 | the corrected reference fails where the as-written one fails, agrees wherever that one gives a path, and gives the base result where that one gives nothing |

## Findings

| source | as written | input that shows it | evidently intended | confidence | as-written member | corrected member |
|---|---|---|---|---|---|---|
| code/carlane.py:135-136 | the `else` branch calls `super().image_reference(image_id)` without `return`, so the call yields `None` | a record with source `"coco"` and path `/coco/1.jpg`, and a base reference that returns the path: as written the call gives nothing, intended it gives `/coco/1.jpg` (`Carlane.DiscardedBaseReference`) | return the base dataset's reference for records of other sources | high (not executed) | `Carlane.CarlaneDataset.ImageReference` | `Carlane.IntendedImageReference` |

## Left out

- Reading and parsing `train_val.json` and `<name>.json` and opening `<name>.jpg` are I/O. They are replaced by the `Manifest` value and the per-name `ImageFile` map. Malformed JSON, a missing `datalist`, `arr`, `x`, `y` or `type` key, and a `classes` item with fewer than two elements are not modelled separately. An unreadable image counts as a name missing from the map.
- The pixels that the imaging library's polygon fill sets (with fill and outline 1) are not modelled. The fill is the `Rasterizer` parameter, and the model states only the mask's shape and that each channel comes from its own polygon. Vertex coordinates are integers, although JSON numbers may be floats.
- Carlane.CarlaneDataset.AddClass: the base dataset's `add_class` is not part of this model. Its skipping of an already registered `(source, id)` pair and the background class it registers first are not modelled; every call appends.
- Carlane.CarlaneDataset.constructor: the base dataset's constructor is not part of this model. The model starts with empty lists and an empty `class_map`. In Python, `class_map` does not exist before the first `load_carlane`, so a mask call on a record with at least one type label fails with AttributeError instead of the model's `UnknownClass`, on exactly the same inputs.
- Carlane.CarlaneDataset.ImageReference: the base dataset's `image_reference`, called in the `else` branch, is not part of this model. Its own side effects and exceptions are not modelled, and its result is discarded as in the source.
- Carlane.CarlaneDataset.LoadMask: the `uint8` buffer and the final cast to a boolean array are modelled as a boolean array. The cast uses the `np.bool` alias, so the model assumes a numpy that still provides it; on numpy 1.24 to 1.26, which lack the alias, every `load_mask` call raises AttributeError. Class ids that do not fit in 64 bits, which numpy would not store as `int64`, are not modelled.
- Records that another source added through `add_image` without `polygons` or `polygon_types` are not modelled: every record carries both lists.
- `CarlaneConfig` (code/carlane.py:16-46) holds only literal hyperparameters, floating-point ones among them, and has no behaviour to model.
- Running Python with assertions disabled, which would skip the subset check, is not modelled.
