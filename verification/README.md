# CobotImport3D core in Dafny

This project models the behavioural core of CobotImport3D, a desktop tool that
plans robot tool paths over an imported 3D model. It exports the paths as a robot
program and plays them back as an animation. The model covers five parts:

- **The planning domain** (`core/project.py`), module `Domain`:
  - IO events, waypoints, path segments and the project aggregate;
  - their mapping to and from a JSON document, with every default `from_dict` fills in;
  - the index-based operations on a project's ordered list of paths: `ensure_path`,
    `add_path`, `remove_path` and `clone_path`, with Python's negative indices.
- **Project files** (`core/serialization.py`), module `Serializer`:
  - `save` and `load` as the mapping between a project and its document;
  - the file name `suggest_path` derives from a project's name.
- **The built-in URScript exporter** (`plugins/builtin.py`, with `ExportResult`
  from `plugins/base.py`), modules `URScript` and `Exporters`:
  - the translation of a project into a structured instruction sequence;
  - the suffix normalisation of the destination;
  - the empty-project failure.
- **Plugin discovery** (`plugins/loader.py`), module `Plugins`. The registry is keyed
  by exporter id. Every discovery empties it, then refills it from the candidate
  files in scan order.
- **Path playback** (`simulation/player.py`), module `Playback`. The player computes
  its frames once, at construction, by linear interpolation between consecutive
  waypoints of every enabled segment.

Supporting modules:

- `Wrappers` has `Option` and `Result`.
- `Json` is the parsed document value, with Python truthiness.
- `Text` has ASCII lower-casing, character replacement and decimal rendering.
- `FilePaths` has the part of `pathlib` the core relies on: name, parent, join,
  `suffix` and `with_suffix`.

Python exceptions become `Err` values:

- `ValueError` for a bad index becomes `Domain.OutOfRange`.
- `ValueError` for an unknown `io_type` becomes `Domain.UnknownIoType`.
- `ValueError` from `with_suffix` becomes `FilePaths.PathError`.

Three behaviours of the code are easy to misread:

- A saved and reloaded project is not always equal to the original. An empty
  `model_transform` is falsy, so it comes back as the identity
  (`Domain.ProjectRoundTripExact`).
- Negative path indices from `-len` to `-1` are accepted and count from the end.
  They are not rejected as out of range.
- `clone_path(-1)` puts the copy at the front instead of after its source. This
  is recorded under "## Findings".

Mutating methods become functions that return the new project, or the new loader.
Playback's frame generation is also written as the three nested loops of
`_prepare_frames`, proved equal to its functional definition. `iter_frames` is a
pure read of the precomputed frames, so every call yields the same sequence.

## Model

| member | source | states |
|---|---|---|
| `Domain.ParseIOType` | src/cobot_importer/core/project.py:10-16 | `IOType(s)` succeeds only on one of the four enumeration values, and yields the member carrying that value |
| `Domain.ParseIOTypeIsInverse` | src/cobot_importer/core/project.py:10-16 | a string names a member exactly when it is that member's value (both directions) |
| `Domain.ReadIOType` | src/cobot_importer/core/project.py:36 | a missing `io_type` reads as `digital_output`; a present value is read as the member whose value it is; a value that names no member is an error carrying that value, and only such values fail |
| `Domain.EventFromDoc` | src/cobot_importer/core/project.py:33-40 | a non-mapping is rejected; a mapping decodes exactly when its `io_type` names a member and its other present fields have their kinds; the event holds the member named, the stored identifier, value and payload, and `digital_output`, `""`, no value, no payload for missing fields |
| `Domain.PointFromDoc` | src/cobot_importer/core/project.py:66-76 | a non-mapping is rejected; a mapping decodes exactly when its present coordinates and angles are numbers and every element its `io_events` iterates to decodes; the waypoint holds the stored numbers (0.0 when missing) and one event per element, in order |
| `Domain.SegmentFromDoc` | src/cobot_importer/core/project.py:104-115 | a non-mapping is rejected; a mapping decodes exactly when its present fields have their kinds and every element its `points` iterate to decodes; the segment holds the stored values, one waypoint per element in order, and name "Path", speed 100.0, density 1.0, blend 0.0, retract 10.0, approach 10.0, enabled for missing fields |
| `Domain.ProjectFromDoc` | src/cobot_importer/core/project.py:144-158 | a non-mapping is rejected; a mapping decodes exactly when its present fields have their kinds, its transform reads and every element its `paths` iterate to decodes; the project holds the stored name, model path, transform and metadata, one segment per element in order, and "New Project", no model path, the identity, no paths, empty metadata for missing fields |
| `Domain.TransformFromDoc` | src/cobot_importer/core/project.py:149-155 | any falsy stored transform (`null`, `[]`, `0`, `false`, `""`, `{}`) is replaced by the 4×4 identity; a truthy one reads exactly when it is a list of rows of numbers, giving those rows in order |
| `Domain.ReadTransform` | src/cobot_importer/core/project.py:149-155 | a missing or falsy `model_transform` reads as the identity; a present one reads as the stored transform |
| `Domain.DecodeAll` | src/cobot_importer/core/project.py:75 | a list comprehension over `from_dict` succeeds exactly when every element decodes; the result has the same length, element by element in order |
| `Domain.DecodeEncodeAll` | src/cobot_importer/core/project.py:92-115 | a list of children survives `to_dict`/`from_dict` in order whenever each child does |
| `Domain.EventRoundTrip` | src/cobot_importer/core/project.py:28-40 | `IOEvent.from_dict(e.to_dict()) == e` for every event |
| `Domain.PointRoundTrip` | src/cobot_importer/core/project.py:55-76 | `PathPoint.from_dict(p.to_dict()) == p`, events kept in order |
| `Domain.SegmentRoundTrip` | src/cobot_importer/core/project.py:92-115 | `PathSegment.from_dict(s.to_dict()) == s`, waypoints kept in order |
| `Domain.TransformRoundTrip` | src/cobot_importer/core/project.py:149-155 | a non-empty transform is read back row by row unchanged |
| `Domain.ProjectRoundTrip` | src/cobot_importer/core/project.py:135-158 | `Project.from_dict(p.to_dict())` equals `p`, except that an empty transform comes back as the identity |
| `Domain.ProjectRoundTripExact` | src/cobot_importer/core/project.py:135-158 | a project survives the round trip unchanged if and only if its transform is non-empty |
| `Domain.EmptyDocumentDefaults` | src/cobot_importer/core/project.py:33-158 | an empty mapping decodes to the declared defaults of event, waypoint, segment and project |
| `Domain.EventDocKeys` | src/cobot_importer/core/project.py:28-31 | `IOEvent.to_dict` is a mapping of exactly `io_type`, `identifier`, `value` and `payload`, with the type written as its enumeration value |
| `Domain.PointDocKeys` | src/cobot_importer/core/project.py:55-64 | `PathPoint.to_dict` is a mapping of exactly the three coordinates, the three angles and `io_events`, one event document per event in order |
| `Domain.SegmentDocKeys` | src/cobot_importer/core/project.py:92-102 | `PathSegment.to_dict` is a mapping of exactly the eight segment fields, one waypoint document per waypoint in order |
| `Domain.PyIndex` | src/cobot_importer/core/project.py:160-164 | `paths[i]` denotes an element exactly when `-len <= i < len`; that element is `i`, or `i` counted back from the end |
| `Domain.EnsurePath` | src/cobot_importer/core/project.py:160-164 | returns `paths[i]` (negative `i` counted from the end) for `-len <= i < len` and fails with the index otherwise |
| `Domain.AddPath` | src/cobot_importer/core/project.py:166-169 | appends the given segment, or one named "Path {n+1}" with default fields, and returns it; earlier paths and other fields are unchanged |
| `Domain.DefaultNamesDistinct` | src/cobot_importer/core/project.py:167 | two successive default `add_path()` calls give different names |
| `Domain.RemovePath` | src/cobot_importer/core/project.py:171-173 | fails with the index when it is out of range; otherwise deletes exactly the element at that position and changes nothing else |
| `Domain.DeleteAt` | src/cobot_importer/core/project.py:173 | `del xs[k]` keeps the elements before `k` and shifts the later ones down by one |
| `Domain.InsertAt` | src/cobot_importer/core/project.py:179 | `insert` at `k` puts the element at `k`, keeps the elements before it and shifts the later ones up by one |
| `Domain.PyInsertPosition` | src/cobot_importer/core/project.py:179 | `list.insert(j, x)` counts a negative `j` from the end and clamps `j` to the list |
| `Domain.CloneCopiesThroughDocument` | src/cobot_importer/core/project.py:176-178 | the `from_dict(to_dict())` deep copy followed by the rename equals the source with the name " Copy"-suffixed |
| `Domain.CloneOf` | src/cobot_importer/core/project.py:177-178 | the clone is named "<name> Copy" and equals its source in every other field |
| `Domain.ClonePath` | src/cobot_importer/core/project.py:175-180 | fails with the index when it is out of range; otherwise inserts the source renamed "<name> Copy" at `list.insert(index + 1)`: after the source, and at the front for `index == -1` |
| `Domain.CloneThenRemove` | src/cobot_importer/core/project.py:171-180 | removing position `i + 1` right after `clone_path(i)` restores the project |
| `Domain.AddThenRemove` | src/cobot_importer/core/project.py:166-173 | `remove_path(-1)` right after `add_path` restores the project |
| `Domain.ClonePathLastGoesToFront` | src/cobot_importer/core/project.py:179 | `clone_path(-1)` puts the copy at position 0 and, with two or more paths, not after the last path |
| `Domain.ClonePathAfterSource` | src/cobot_importer/core/project.py:175-180 | the corrected clone: the copy sits directly after its source for every valid index, `-1` included |
| `Domain.CloneAfterSourceThenRemove` | src/cobot_importer/core/project.py:171-180 | removing the position after the source right after a corrected clone restores the project, for every valid index |
| `Text.Lower` | src/cobot_importer/core/serialization.py:33 | `str.lower()` keeps the length and lower-cases each character |
| `Text.ReplaceChar` | src/cobot_importer/core/serialization.py:33 | `str.replace(' ', '_')` keeps the length and replaces exactly the matching characters |
| `Text.NatToString` | src/cobot_importer/core/project.py:167 | the decimal rendering of `n` is a non-empty digit string without a leading zero |
| `Text.ParseNatToString` | src/cobot_importer/core/project.py:167 | reading the decimal rendering back gives the number |
| `Text.NatToStringInjective` | src/cobot_importer/core/project.py:167 | distinct numbers render as distinct strings |
| `FilePaths.Join` | src/cobot_importer/core/serialization.py:34 | `directory / name` has that parent and that name |
| `FilePaths.Suffix` | src/cobot_importer/plugins/builtin.py:26 | `Path.suffix` is empty or a dot followed by at least one dot-free character, and it ends the name |
| `FilePaths.Stem` | src/cobot_importer/plugins/builtin.py:27 | `Path.stem` followed by `Path.suffix` is the whole name |
| `FilePaths.SuffixOfStemAndExtension` | src/cobot_importer/plugins/builtin.py:26 | a non-empty stem plus a dotted extension has exactly that extension as its suffix |
| `FilePaths.SuffixOfBareExtension` | src/cobot_importer/core/serialization.py:33 | a name that is only a dotted extension has no suffix |
| `FilePaths.WithSuffix` | src/cobot_importer/plugins/builtin.py:27 | `with_suffix` rejects an invalid suffix and an empty name; otherwise it succeeds, keeps the parent and names the file by the old stem followed by the new suffix |
| `FilePaths.WithSuffixSetsSuffix` | src/cobot_importer/plugins/builtin.py:27 | after `with_suffix(ext)` the name's suffix is `ext` and its stem is the old stem |
| `Serializer.Save` | src/cobot_importer/core/serialization.py:23-27 | the saved document has exactly the five project keys and holds the name, one entry per path and the metadata |
| `Serializer.Load` | src/cobot_importer/core/serialization.py:17-21 | loading is `Project.from_dict` of the document, with all of `Domain.ProjectFromDoc`'s contract: a non-mapping is rejected, a loaded project has one path per stored path record |
| `Serializer.LoadAfterSave` | tests/test_serialization.py:6-21 | load after save gives the project back, except that an empty transform becomes the identity; the name, the path count and each path's point count are kept |
| `Serializer.SuggestedFileName` | src/cobot_importer/core/serialization.py:33 | the file name is the project name with spaces turned to `_` and ASCII-lower-cased, followed by ".cobot3d"; it has no space and no ASCII capital |
| `Serializer.SuggestPath` | src/cobot_importer/core/serialization.py:29-34 | the suggested path lies in the given directory and is named by the suggested file name |
| `Serializer.SuggestedSuffix` | src/cobot_importer/core/serialization.py:33-34 | the suggested path has suffix ".cobot3d" exactly when the project name is non-empty |
| `Serializer.SuggestedStemIsStable` | src/cobot_importer/core/serialization.py:33 | deriving a file name from an already derived stem changes nothing |
| `URScript.Velocity` | src/cobot_importer/plugins/builtin.py:50 | `max(speed / 1000, 0.05)` is at least 0.05 and at least the converted speed, and is one of the two |
| `URScript.EmitSegment` | src/cobot_importer/plugins/builtin.py:40-64 | a segment's block starts with its name comment; without waypoints it is that comment and the skip comment; with `n` waypoints it has `n + 3` lines |
| `URScript.EmitSegmentShape` | src/cobot_importer/plugins/builtin.py:40-64 | with `n` waypoints: header, one `movej` per waypoint in order at the floored velocity, "# retract", and the retract `movej` at v = 0.1 |
| `URScript.WaypointMoves` | src/cobot_importer/plugins/builtin.py:46-52 | one `movej` per waypoint, in waypoint order, whose position scaled by 1000 is the waypoint's millimetres, with the angles unchanged, a = 1.2 and the given velocity |
| `URScript.Program` | src/cobot_importer/plugins/builtin.py:29-35 | the program is "def cobot_program():", then `set_digital_out(0, False)`, then the segment blocks, then "end" |
| `URScript.ScriptExtension` | src/cobot_importer/plugins/builtin.py:18-19 | example: ".script" is a valid suffix and is already lower case |
| `URScript.NormaliseDestination` | src/cobot_importer/plugins/builtin.py:25-27 | a destination whose lower-cased suffix is supported is returned unchanged; any other named destination becomes its old stem plus ".script" in the same directory; the result always has a supported suffix |
| `URScript.SuffixScriptSupported` | src/cobot_importer/plugins/builtin.py:26-27 | re-suffixing a named destination with ".script" always yields a supported suffix |
| `URScript.Export` | src/cobot_importer/plugins/builtin.py:21-38 | no paths: failure with the fixed message, no output path, nothing written; otherwise success reporting the normalised path, with the program written there |
| `URScript.BodyAppend` | src/cobot_importer/plugins/builtin.py:31-34 | the blocks of two runs of segments are the blocks of each, in order |
| `URScript.DisabledSegmentsEmitNothing` | src/cobot_importer/plugins/builtin.py:31-33 | the body equals the body of the enabled segments alone |
| `URScript.BodyIsBlocksInOrder` | src/cobot_importer/plugins/builtin.py:31-34 | each segment's block sits between the blocks of the segments before and after it |
| `URScript.BodyEmptyIffNoneEnabled` | src/cobot_importer/plugins/builtin.py:31-34 | the segment part of the program is empty exactly when no segment is enabled |
| `URScript.EveryMoveAboveFloor` | src/cobot_importer/plugins/builtin.py:46-63 | every `movej` in a program is commanded at v >= 0.05 |
| `URScript.BodyMovesAboveFloor` | src/cobot_importer/plugins/builtin.py:31-63 | every `movej` in the segment blocks is commanded at v >= 0.05 |
| `URScript.BlockMovesAboveFloor` | src/cobot_importer/plugins/builtin.py:46-63 | every `movej` in one segment's block is commanded at v >= 0.05 |
| `URScript.BlockMoveCount` | src/cobot_importer/plugins/builtin.py:40-64 | an enabled segment with `n > 0` waypoints commands `n + 1` moves; any other segment commands none |
| `URScript.BodyMoveCount` | src/cobot_importer/plugins/builtin.py:31-34 | the blocks command one move per waypoint plus one retract per enabled non-empty segment |
| `URScript.ProgramMoveCount` | src/cobot_importer/plugins/builtin.py:29-35 | the whole program commands exactly that many moves |
| `URScript.WaypointsRecoverable` | src/cobot_importer/plugins/builtin.py:46-63 | each waypoint move, scaled by 1000, gives back the waypoint's millimetres and angles; the retract sits `retract_height` above the last waypoint |
| `URScript.MillimetresToMetres` | src/cobot_importer/plugins/builtin.py:47 | example: a waypoint at x = 1000 mm is commanded at x = 1.0 m |
| `Plugins.NewLoader` | src/cobot_importer/plugins/loader.py:18-20 | a new loader has an empty registry; a missing or empty directory argument selects `plugins` under the working directory |
| `Plugins.Lookup` | src/cobot_importer/plugins/loader.py:40-41 | `dict.get(id)` returns a registered exporter with that id, and `None` exactly when no exporter has it |
| `Plugins.RegisterLookup` | src/cobot_importer/plugins/loader.py:35 | after `registry[e.id] = e`, `e.id` maps to `e` and every other id keeps its entry |
| `Plugins.RegisterIds` | src/cobot_importer/plugins/loader.py:35 | registering adds `e.id` to the keys and nothing else |
| `Plugins.RegisterUnique` | src/cobot_importer/plugins/loader.py:35 | registering keeps one entry per id |
| `Plugins.Register` | src/cobot_importer/plugins/loader.py:35 | `registry[e.id] = e` holds `e`, keeps every entry with another id, and adds nothing else |
| `Plugins.LoadAll` | src/cobot_importer/plugins/loader.py:28-35 | every entry after the scan was there before or is a candidate that loaded |
| `Plugins.LastLoaded` | src/cobot_importer/plugins/loader.py:32-35 | the candidate that loaded with a given id at a position after which no candidate loads with that id, or none when no loaded candidate has the id |
| `Plugins.LastLoadedIsLast` | src/cobot_importer/plugins/loader.py:32-35 | the exporter chosen for an id occurs at or after every candidate that loaded with that id, so it is not the first match when a later one exists |
| `Plugins.LoadAllLookup` | src/cobot_importer/plugins/loader.py:32-35 | after the scan, each id maps to its last loaded candidate, or keeps its earlier entry when none loaded |
| `Plugins.LoadAllUnique` | src/cobot_importer/plugins/loader.py:32-35 | the scan keeps one entry per id |
| `Plugins.Discover` | src/cobot_importer/plugins/loader.py:26-35 | `discover` keeps the directory; a missing directory leaves the registry empty; otherwise each id maps to its last loaded candidate, whatever an earlier discovery registered |
| `Plugins.Get` | src/cobot_importer/plugins/loader.py:40-41 | `get(id)` returns a registered exporter with that id, or `None` exactly when none is registered |
| `Plugins.GetExporters` | src/cobot_importer/plugins/loader.py:37-38 | every listed exporter's id is found by `get`, and every exporter `get` finds is listed; in a registry with distinct ids each entry is listed once and is exactly what `get` returns for its id |
| `Plugins.DiscoverGet` | src/cobot_importer/plugins/loader.py:26-41 | after a discovery, `get(id)` is the last candidate loaded under `id`, or `None` when the directory is missing |
| `Plugins.DiscoverForgetsEarlierRuns` | src/cobot_importer/plugins/loader.py:27 | discovering twice equals discovering once with the second run's candidates |
| `Plugins.FailuresAreSkipped` | src/cobot_importer/plugins/loader.py:32-35 | a candidate that failed to load changes nothing; the scan continues as if it were absent |
| `Plugins.DiscoveredExporters` | src/cobot_importer/plugins/loader.py:37-38 | `get_exporters()` lists one exporter per distinct loaded id, each the last one loaded under its id, and misses no loaded id |
| `Plugins.UniqueLookup` | src/cobot_importer/plugins/loader.py:40-41 | in a registry with distinct ids, looking up an entry's id finds that entry |
| `Plugins.OneValidOneInvalid` | src/cobot_importer/plugins/loader.py:26-35 | one valid and one failing candidate give exactly the valid exporter; a rediscovery without it gives none |
| `Playback.EffectiveResolution` | src/cobot_importer/simulation/player.py:25 | `max(resolution, 0.1)` is at least 0.1, at least the requested resolution, and one of the two |
| `Playback.Trunc` | src/cobot_importer/simulation/player.py:37 | `int(x)` truncates toward zero: within one below a non-negative `x`, within one above a negative `x` |
| `Playback.Steps` | src/cobot_importer/simulation/player.py:37 | a waypoint pair gets `max(int(distance / resolution), 1) >= 1` steps |
| `Playback.AppendPair` | src/cobot_importer/simulation/player.py:38-41 | the inner loop appends one frame per step, in step order, to the frames so far |
| `Playback.AppendSegment` | src/cobot_importer/simulation/player.py:32-41 | the loop over one segment's pairs appends that segment's frames, or none for a disabled or short segment |
| `Playback.PrepareFrames` | src/cobot_importer/simulation/player.py:29-42 | `_prepare_frames` computes the frames of all segments in list order |
| `Playback.NewPlayer` | src/cobot_importer/simulation/player.py:23-27 | construction keeps the segments, floors the resolution at 0.1 (keeping any larger one) and computes every frame once |
| `Playback.NewDefaultPlayer` | src/cobot_importer/simulation/player.py:23-27 | without a resolution argument the player uses 1.0 and computes every frame at that resolution |
| `Playback.IterFrames` | src/cobot_importer/simulation/player.py:44-45 | for a player as `PathPlayer(...)` built it (`Built`, which `NewPlayer` and `NewDefaultPlayer` ensure), `iter_frames()` yields the frames of its segments at its resolution, with no recomputation |
| `Playback.PlayFrames` | src/cobot_importer/simulation/player.py:23-45 | iterating a newly built player gives the frames of its segments at the resolution floored at 0.1 |
| `Playback.ParamRange` | src/cobot_importer/simulation/player.py:38-39 | the parameter `t = step / steps` lies in [0, 1) and increases strictly with the step |
| `Playback.LerpBetween` | src/cobot_importer/simulation/player.py:40 | for 0 <= t <= 1, `start * (1 - t) + end * t` lies coordinate-wise between start and end |
| `Playback.PairFramesShape` | src/cobot_importer/simulation/player.py:37-41 | a pair gives exactly `steps` frames tagged with the pair; the first is the start waypoint; each lies between the endpoints with t in [0, 1), so the end is never emitted |
| `Playback.PairsUpToFacts` | src/cobot_importer/simulation/player.py:34-41 | the first `n` pairs give at least `n` frames, all tagged with the segment, on their own pair, in order |
| `Playback.SegmentFramesFacts` | src/cobot_importer/simulation/player.py:32-41 | a disabled or short segment gives no frame; an enabled `k`-point segment gives at least `k - 1`, each with point index in [0, k - 2], on its pair, in order |
| `Playback.FramesWellFormed` | src/cobot_importer/simulation/player.py:31-41 | every frame names, by list position, an enabled segment with two or more waypoints and lies between the waypoints of its pair; frames are ordered by (segment index, point index) |
| `Playback.SkippedSegmentsHaveNoFrames` | src/cobot_importer/simulation/player.py:31-33 | no frame carries the index of a disabled or short segment, and such segments still occupy their index |
| `Playback.TwoWaypointExample` | src/cobot_importer/simulation/player.py:34-41 | waypoints 10 apart at resolution 5 play as the frames (0,0,0) and (5,0,0) |

## Left out

- JSON text, file I/O and directory creation:
  - the text form of the document and `json.load`/`json.dump` are not modelled;
  - `open` in `save`, `load` and the exporter, and `directory.mkdir` in
    `suggest_path`, are not modelled either;
  - a saved file is represented by its document value, and a written program by
    its instruction sequence.
- Float formatting: the exporter's lines are structured `Instruction` values. The
  text Python prints for floats (`str(pose)`, `{speed}`) is not modelled. Floats are
  exact reals, so rounding is not modelled.
- `Domain.EventFromDoc`: a present scalar field (`identifier`, `value`, `payload`)
  holding a JSON value of the wrong kind is an error (`TypeMismatch`). Python's
  dataclasses would store such a value unchecked.
- `Domain.PointFromDoc`: the same strict reading of the present coordinates and
  angles. `io_events` is iterated as Python iterates it: a list gives its items,
  a string its characters, an empty mapping nothing, a non-empty mapping fails,
  and `null`, a number or a bool fails.
- `Domain.SegmentFromDoc`: the same strict reading of the present scalar fields;
  `points` is iterated like `io_events`.
- `Domain.ProjectFromDoc`: the same strict reading of `name`, `model_path` and
  `metadata`; `paths` is iterated like `io_events`. JSON integers and floats are
  one kind of number.
- `Domain.TransformFromDoc`: a truthy transform that is not a list of lists of
  numbers is an error. Python would store it as it is.
- `Domain.ParseIOType`: `IOType(x)` also accepts an `IOType` member itself. No
  `IOType` member can occur in a parsed document, so `ParseIOType` takes
  strings; any other kind of value (null, a number, a list, …) fails in
  `Domain.ReadIOType` as `UnknownIoType`, as `IOType(x)` raises `ValueError`.
- `Serializer.SuggestedFileName`: inherits the ASCII-only lower-casing of
  `Text.Lower`. For a name like "Ärger" Python gives "ärger.cobot3d", while the
  model keeps the capital "Ä".
- `Text.Lower`: lower-cases the ASCII letters only. Python's full Unicode case
  mapping is not modelled.
- `FilePaths.Suffix`: follows the `pathlib` rules of Python 3.8–3.12. The suffix
  starts at the last dot, provided that dot is neither the first nor the last
  character of the name. A path is a sequence of name components, so the string
  parsing of `pathlib` (separators, drive letters, `.` and `..`) is not modelled.
- `FilePaths.Join`: appends the file name as one component. `pathlib` parses a
  name containing `/` into several components, and one starting with `/` replaces
  the directory; such names are not modelled.
- `Serializer.SuggestPath`: inherits the `FilePaths.Join` restriction. For a project
  name containing `/`, Python's suggested path does not lie directly in the
  directory, while the model's does.
- `Serializer.SuggestedSuffix`: inherits the same restriction. A project name
  ending in `/` gives the name ".cobot3d" in Python, whose suffix is empty.
- `Plugins.NewLoader`: the empty component sequence `Some([])` stands for the
  string argument `""`, which is falsy and selects `cwd/plugins`. A `Path("")` or
  `Path(".")` argument is truthy, and Python then uses the working directory
  itself; the model, which does not tell a string from a `Path`, selects
  `cwd/plugins` for it too. `Path.cwd()` is a parameter.
- Plugin loading: finding a spec, `exec_module`, reading `EXPORTER`, the
  `isinstance` protocol check and logging are not modelled. Each candidate file
  arrives as its outcome, an exporter or `None`. The order of `glob` and whether
  the directory exists are inputs. Outcomes the model leaves out:
  - an exception that escapes `_load_from_file`: a `BaseException` such as
    `SystemExit` from `exec_module` (only `Exception` is caught), or anything
    raised by `module_from_spec` or by reading `display_name`;
  - an exception raised by reading `exporter.id` during registration;
  - a conforming exporter object that is falsy, which `if exporter:` skips.
- `Plugins.Discover`: holds only for scans in which every candidate ends in an
  exporter or `None`. An escaping exception (the first two outcomes above)
  aborts `discover()` with the registry cleared and only partly refilled, and a
  falsy exporter is skipped where the model registers it.
- `Plugins.DiscoverGet`, `Plugins.FailuresAreSkipped`: carry the same
  restriction as `Plugins.Discover`.
- `Exporters.ExportResult`: `output_path` is the path as components, not its string.
- Playback geometry:
  - the Euclidean norm (`np.linalg.norm`, `sqrt`) is the `Distance` parameter;
  - numpy arrays are `Vec3`;
  - only the model's structure (counts, tags, ordering, `t` range, positions
    between endpoints) is proved, for any distance function.
- `Playback.IterFrames`: `iter_frames` returns an iterator in the program. The
  model returns the frame sequence it iterates.
- Opaque and unused fields: `payload` and `metadata` are carried through unread.
  `blend_radius`, `approach_height` and `point_density` are stored and
  round-tripped; nothing in the core uses them.
- Mutation and aliasing: the deep independence of a clone from its source is
  automatic with immutable values, so it is not a separate property. The objects
  returned by `add_path` and `clone_path` are values, not references into the list.
- Outside the core: the Qt user interface, `app.py`, `start.py`, `core/model_loader.py`
  (a trimesh wrapper) and the C# prototype. They hold no logic of the core.
- Negative indices: out-of-range indices are rejected, but Python's negative
  indices `-len <= i < 0` are valid and count from the end. The model follows the
  code here; a reading of "in range" as `0 <= i < len` would differ.

## Findings

| source | as written | input that shows it | evidently intended | confidence | as-written member | corrected member |
|---|---|---|---|---|---|---|
| src/cobot_importer/core/project.py:179 | `clone_path(index)` inserts the copy with `list.insert(index + 1, copy)` | `clone_path(-1)` on a project with paths [A, B] copies B and calls `insert(0, …)`, giving [B Copy, A, B] | the copy lands directly after its source: [A, B, B Copy] | not executed | `Domain.ClonePathLastGoesToFront` | `Domain.ClonePathAfterSource` |

`Domain.ClonePath` models the code as written. The corrected operation,
`Domain.ClonePathAfterSource`, inserts at one past the resolved position for
every valid index. `Domain.CloneAfterSourceThenRemove` proves its partner
property for every index, `-1` included. For `Domain.ClonePath`, the matching
property `Domain.CloneThenRemove` holds only for non-negative indices.
