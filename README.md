# Voxel structure core

A Dafny model of the headless logic of a voxel-structure builder. The user places unit cubes as drafts, confirms them into a permanent structure, and undoes steps. A stability check then flags confirmed cubes that have no chain of adjacent cubes to the ground, and those cubes are removed by a collapse unless it is cancelled.

The model has six modules:

- StructuralEngine (`structural_engine.dfy`) — the stability engine.
  - Cubes are records with an id, a centre, a material and a status.
  - The adjacency predicate accepts face and edge neighbours.
  - `Validate` is the specification of the breadth-first search: the cubes whose id lies in the least set of ids that contains the ground cubes and is closed under the adjacency map.
  - `ValidateStructure` is the search itself, as written: an adjacency map built in a loop, a queue consumed with shift and push, and a set of supported ids. It is proved equal to `Validate`.
- Reducer (`reducer.dfy`) — the reducer.
  - A pure transition function over a `State` datatype (drafts, confirmed cubes, selected material, undo log, collapse state and id counter).
  - Lemmas state what each action does, what it leaves alone, and what undo restores. They also cover the cases where undo restores something other than what it undid.
- ActionRouter (`action_router.dfy`) — the action controller, modelled on untyped JavaScript values.
  - The outcome of routing is one dispatched action, nothing, or a `TypeError` raised by reading a property of a missing payload.
  - `Decode` reads a dispatched action as a reducer action.
- Materials (`materials.dfy`) — the material presets, lookups and the colour brightness helper. The helper covers:
  - `parseInt` of the longest hexadecimal prefix;
  - `ToInt32` for the bit operators;
  - the clamp as written;
  - `toString(16).slice(1)`.
- CubeManagement (`cube_manager.dfy`) — the list-based cube manager, as a class with a `seq` field. It refuses to place a cube on an occupied cell.
- Basics (`basics.dfy`) — `Option` and an order-preserving `Filter` with its lemmas.

Coordinates are Dafny `real`s, so they are exact. The ground centre height is `0.5`. The source compares coordinates with `===` and `Math.abs`, and on grid values these are exact.

Behaviour of the code that the model reproduces as written:

- Adjacency accepts edge neighbours as well as face neighbours (`src/simulation/structuralEngine.js:16-21`).
- Confirming an empty draft list still re-runs the stability check and replaces the collapse state, including a pending countdown (`ConfirmNothingRecomputes`).
- Undo of a draft deletion appends the logged payload. After routing, that payload is a record holding only the id (`UndoDeleteDraftAppendsId`, `UndoPlaceKeepsPlacedCube`).
- The reducer does not refuse placement on an occupied cell; only the list-based cube manager does.

## Model

| member | source | states |
|---|---|---|
| StructuralEngine.AreFaceAdjacent | src/simulation/structuralEngine.js:6-22 | two cubes are adjacent exactly when each axis offset is 0 or 1 and one or two offsets are 1, so a cube is never adjacent to its own cell or to a corner neighbour |
| StructuralEngine.AdjacencySymmetric | src/simulation/structuralEngine.js:6-22 | adjacency is symmetric |
| StructuralEngine.NotSelfAdjacent | src/simulation/structuralEngine.js:6-22 | no cube is adjacent to itself |
| StructuralEngine.DiagonalCubeSupported | src/simulation/structuralEngine.js:16-19 | a cube one unit over and one unit up from a ground cube is supported by it through edge adjacency |
| StructuralEngine.Neighbors | src/simulation/structuralEngine.js:25-29 | the neighbour list holds exactly the cubes with another id that are adjacent to the cube |
| StructuralEngine.LastWithId | src/simulation/structuralEngine.js:46-51 | the map entry for an id comes from the last cube carrying that id (one at some position with no later cube of that id), and there is none when no cube carries it |
| StructuralEngine.AdjacencyOf | src/simulation/structuralEngine.js:70 | every cube the adjacency lookup yields is an input cube |
| StructuralEngine.BuildAdjacencyMap | src/simulation/structuralEngine.js:46-51 | the map built by the loop answers every id with the neighbours of the last cube carrying it, and with an empty list for an unknown id |
| StructuralEngine.LastWithIdUnique | src/simulation/structuralEngine.js:46-51 | with distinct ids, the map entry of a cube's id is built from that cube |
| StructuralEngine.AdjacencyOfUnique | src/simulation/structuralEngine.js:46-51 | with distinct ids, the map entry of a cube lists exactly the input cubes adjacent to it |
| StructuralEngine.Grow | src/simulation/structuralEngine.js:66-78 | growing the seed ids gives a superset of the seeds, made of input ids and closed under the adjacency map |
| StructuralEngine.GrowLeast | src/simulation/structuralEngine.js:66-78 | the grown set lies inside every closed set containing the seeds, so it is the least one |
| StructuralEngine.Keep | src/simulation/structuralEngine.js:81 | the kept cubes are exactly the input cubes whose id is in the set |
| StructuralEngine.Drop | src/simulation/structuralEngine.js:82 | the remaining cubes are exactly the input cubes whose id is not in the set |
| StructuralEngine.Validate | src/simulation/structuralEngine.js:37-88 | a cube is listed as supported exactly when its id is reached from the ground, and as unstable exactly when it is not |
| StructuralEngine.ValidatePartitions | src/simulation/structuralEngine.js:38-82 | the two lists together hold every input cube exactly once (as multisets, hence in total length), and an empty input gives two empty lists |
| StructuralEngine.GroundCubesSupported | src/simulation/structuralEngine.js:54-62 | every input cube at height 0.5 is supported |
| StructuralEngine.FloatingCubeUnstable | src/simulation/structuralEngine.js:31-34 | a lone cube above the ground is unstable and the structure is not stable |
| StructuralEngine.SupportSpreads | src/simulation/structuralEngine.js:71-77 | with distinct ids, a cube adjacent to a supported cube is supported, so no unstable cube touches a supported one |
| StructuralEngine.PathsAreSupported | src/simulation/structuralEngine.js:66-78 | the last cube of every chain from a ground cube through adjacency-map entries is supported |
| StructuralEngine.GrowKeepsPaths | src/simulation/structuralEngine.js:66-78 | every id the search adds from seeds with chains also has a chain |
| StructuralEngine.ExtendPath | src/simulation/structuralEngine.js:71-77 | a chain to an id, extended by a cube in that id's map entry, is a chain to the new cube |
| StructuralEngine.SupportedIffPath | src/simulation/structuralEngine.js:54-78 | an id is supported exactly when a chain from a ground cube reaches it |
| StructuralEngine.SupportPathIsAdjacent | src/simulation/structuralEngine.js:66-78 | with distinct ids, a chain through map entries is a chain of input cubes each adjacent to the next |
| StructuralEngine.SupportedIffAdjacentPath | src/simulation/structuralEngine.js:37-88 | with distinct ids, a cube is supported exactly when a chain of adjacent input cubes leads to it from a ground cube |
| StructuralEngine.IsStructureStable | src/simulation/structuralEngine.js:91-94 | the structure is stable exactly when every input cube is in the supported list |
| StructuralEngine.IdList | src/simulation/structuralEngine.js:99 | the id list has one entry per cube, the cube's id, in order |
| StructuralEngine.IdListMembers | src/simulation/structuralEngine.js:99 | an id is in the id list exactly when some listed cube carries it |
| StructuralEngine.UnstableCubeIds | src/simulation/structuralEngine.js:97-100 | the unstable ids are exactly the input ids not reached from the ground, and there are none exactly when the structure is stable |
| StructuralEngine.DropUnstableKeepsSupported | src/simulation/structuralEngine.js:81-82 | dropping the cubes whose id is listed as unstable leaves exactly the supported list |
| StructuralEngine.EnqueueNeighbors | src/simulation/structuralEngine.js:71-77 | a visit marks every neighbour's id as supported; each new id comes from a neighbour and is queued once, so the queue grows by the number of new ids |
| StructuralEngine.SeedsKeepInvariant | src/simulation/structuralEngine.js:54-62 | the ground cubes as the queue and their ids as the supported set satisfy the search invariant |
| StructuralEngine.VisitKeepsInvariant | src/simulation/structuralEngine.js:66-78 | visiting the head of the queue keeps the search invariant, and the unsupported ids or the queue shrink |
| StructuralEngine.Visit | src/simulation/structuralEngine.js:67-77 | one loop iteration reads the head's map entry through `Lookup`, which gives an empty list for an id the map lacks (line 70), keeps the search invariant and makes progress on the termination measure |
| StructuralEngine.SearchEnds | src/simulation/structuralEngine.js:66-78 | when the queue is empty, the supported ids are exactly the ids reached from the ground |
| StructuralEngine.ValidateStructure | src/simulation/structuralEngine.js:37-88 | the search returns exactly the supported and unstable lists of the specification |
| Reducer.SetStatus | src/simulation/reducer.js:55-58 | the copied cube is the cube with only its status replaced: it keeps its id and, for a placed cube, its position and material |
| Reducer.WithStatus | src/simulation/reducer.js:55-58 | the mapped list has the same length, and each entry is the cube at that position with only its status replaced |
| Reducer.StatusKeepsIds | src/simulation/reducer.js:109 | re-marking the cubes' status keeps their set of ids |
| Reducer.DropLast | src/simulation/reducer.js:85 | `slice(0, -1)` leaves an empty list empty, and otherwise removes exactly the last element |
| Reducer.PlaceAppendsDraft | src/simulation/reducer.js:22-35 | a placement appends one draft with id `nextId` at the given position and material, logs the action, advances `nextId` by 1 and leaves the confirmed cubes, collapse state and material alone |
| Reducer.PlaceThenUndo | src/simulation/reducer.js:82-89 | a placement followed by undo gives back the original state exactly |
| Reducer.UndoPlaceDropsLastDraft | src/simulation/reducer.js:82-89 | undoing a logged placement removes the last draft whatever its id, pops the log, decrements `nextId` and changes no other field |
| Reducer.UndoPlaceKeepsPlacedCube | src/simulation/reducer.js:82-97 | after placing cubes 1 and 2, deleting draft 1 and undoing twice, cube 2 is still a draft and the next placement reuses id 2 |
| Reducer.PlaceTwiceDeleteFirst | src/simulation/reducer.js:22-45 | two placements and the deletion of draft 1 leave draft 2, a log of three entries and `nextId` 3 |
| Reducer.UndoTwiceThenPlace | src/simulation/reducer.js:82-97 | from that state, two undos and a placement leave two drafts carrying id 2 |
| Reducer.DeleteDraftRemovesId | src/simulation/reducer.js:37-45 | a draft deletion removes every draft with that id, keeps the others in order, is logged even when nothing matched, and changes no other field |
| Reducer.UndoDeleteDraftAppendsId | src/simulation/reducer.js:91-97 | undoing a draft deletion appends a record holding only the deleted id, pops the log and changes no other field |
| Reducer.DeleteConfirmedRemovesId | src/simulation/reducer.js:122-130 | a confirmed deletion removes every confirmed cube with that id, keeps the others in order, is logged, and changes no other field, the collapse state included |
| Reducer.DeleteConfirmedLeavesStaleId | src/simulation/reducer.js:122-130 | deleting a cube listed as unstable leaves its id in the unstable list although no confirmed cube carries it |
| Reducer.UndoEmptyHistory | src/simulation/reducer.js:77 | undo with an empty log changes nothing |
| Reducer.UndoStuck | src/simulation/reducer.js:119 | when the last log entry is a confirmed deletion or a collapse, any number of undos leaves the state, log included, unchanged |
| Reducer.ConfirmMovesDrafts | src/simulation/reducer.js:54-74 | confirmation appends the drafts, marked confirmed and in order, to the confirmed cubes, empties the drafts, logs the old draft list and sets the collapse state from the new confirmed list |
| Reducer.Warning | src/simulation/reducer.js:61-72 | the collapse state set on confirmation lists exactly the confirmed ids not reached from the ground, is active exactly when the structure is unstable, and has countdown 3 |
| Reducer.ConfirmNothingRecomputes | src/simulation/reducer.js:54-74 | confirming with no drafts keeps the confirmed cubes, but still recomputes the collapse state and logs an empty confirmation |
| Reducer.UndoConfirmEntry | src/simulation/reducer.js:99-117 | undo whose last entry is a logged confirmation, whatever happened since, makes the logged drafts the drafts again marked draft, keeps exactly the confirmed cubes whose id is not among theirs, pops the entry, clears the collapse state and keeps `nextId` and the material |
| Reducer.ConfirmThenUndo | src/simulation/reducer.js:99-117 | confirm then undo restores the drafts marked as drafts, removes their ids from the confirmed cubes, restores the log and clears the collapse state |
| Reducer.ConfirmUndoRoundTrip | src/simulation/reducer.js:99-117 | when the drafts are marked draft and share no id with a confirmed cube, confirm then undo gives back the state with a cleared collapse state |
| Reducer.CollapseRemovesUnstable | src/simulation/reducer.js:132-148 | a collapse removes exactly the confirmed cubes whose id is listed as unstable, keeps the rest in order, clears the collapse state, is logged and changes no other field |
| Reducer.ConfirmThenCollapseKeepsSupported | src/simulation/reducer.js:132-148 | a collapse right after a confirmation keeps exactly the cubes the stability check found supported |
| Reducer.CancelCollapseQuiets | src/simulation/reducer.js:150-159 | cancelling clears the collapse state, changes nothing else and is not logged |
| Reducer.SetMaterialOnlySelects | src/simulation/reducer.js:47-52 | choosing a material changes only the current material and is not logged |
| Reducer.UpdateCountdownOnlyCounts | src/simulation/reducer.js:161-169 | a countdown update changes only the countdown and is not logged |
| Reducer.UnknownActionIgnored | src/simulation/reducer.js:171-172 | an action of unknown type leaves the state unchanged |
| Reducer.Reduce | src/simulation/reducer.js:19-174 | only an undo shortens the log, and then it either pops the last entry or changes nothing; every other action keeps the log as a prefix and adds at most one entry; only a material choice changes the material; outside undo the counter moves only on a placement, by one |
| Reducer.UndoLast | src/simulation/reducer.js:76-120 | undo either pops exactly the last log entry or leaves the whole state as it is; it never changes the material; only popping a placement moves the counter, back by one |
| Reducer.ReduceKeepsCounter | src/simulation/reducer.js:19-174 | every action keeps `nextId` equal to one more than the number of placements in the log |
| Reducer.RunKeepsCounter | src/simulation/reducer.js:19-174 | a run of actions keeps that relation, so `nextId` stays at least 1 |
| Reducer.ReachableCounter | src/simulation/reducer.js:5-16 | in every state reached from the initial state, `nextId` is one more than the placements in the log |
| ActionRouter.Get | src/controllers/actionController.js:13-16 | reading a property throws exactly when the payload is `undefined` or `null` |
| ActionRouter.Route | src/controllers/actionController.js:5-69 | each of the eight known types dispatches one action of the same type unless it reads a property of a missing payload; an unknown type dispatches nothing |
| ActionRouter.CountdownNotRouted | src/controllers/actionController.js:66-68 | the countdown update type is not routed |
| ActionRouter.PlacePayloadShape | src/controllers/actionController.js:9-19 | a placement dispatches a payload with exactly the keys `x`, `y`, `z` and `material`, copied from the input payload |
| ActionRouter.DeletePayloadShape | src/controllers/actionController.js:21-33 | both deletions dispatch a payload holding only the input's `id` |
| ActionRouter.BareTypesDropPayload | src/controllers/actionController.js:42-64 | confirm, undo, collapse and cancel dispatch without a payload whatever was passed, and the reducer reads them |
| ActionRouter.MaterialActionRoundTrip | src/controllers/actionController.js:93-98 | routing the payload built by `createMaterialAction(m)` dispatches `m` unwrapped, which the reducer reads as selecting `m` |
| ActionRouter.CreateDeleteAction | src/controllers/actionController.js:85-90 | `createDeleteAction` builds a draft deletion exactly when the status is `"draft"` and a confirmed deletion otherwise, and the router passes its payload on unchanged |
| ActionRouter.CreatePlaceAction | src/controllers/actionController.js:72-82 | `createPlaceAction` builds a placement whose payload the router passes on unchanged, whatever the position and material |
| ActionRouter.CreateMaterialAction | src/controllers/actionController.js:93-98 | `createMaterialAction` builds a material choice whose wrapping object the router strips: it dispatches the bare material |
| ActionRouter.PlaceActionRoundTrip | src/controllers/actionController.js:72-82 | a placement built from a position and a material routes to itself, and the reducer reads it as placing at that position with that material |
| ActionRouter.DeleteActionRoundTrip | src/controllers/actionController.js:85-90 | a deletion built for a cube id routes to itself, and the reducer reads it as deleting that id from the list its status names |
| Materials.PresetKeys | src/simulation/materials.js:2-35 | the preset table's keys are the upper-cased preset names |
| Materials.MaterialByName | src/simulation/materials.js:72-74 | the lookup always yields a preset: the one whose upper-cased name matches, or the default (Steel) when none does |
| Materials.MaterialByNameIgnoresCase | src/simulation/materials.js:72-74 | names that differ only in letter case select the same preset |
| Materials.MaterialByOwnName | src/simulation/materials.js:72-74 | every preset is found under its own name in any letter case |
| Materials.MaterialColor | src/simulation/materials.js:76-78 | the colour is the material's own when present and non-empty, otherwise Steel's, and never empty |
| Materials.MaterialEmissive | src/simulation/materials.js:80-82 | the emissive colour is the material's own when present and non-empty, otherwise Steel's, and never empty |
| Materials.CreateCustomMaterial | src/simulation/materials.js:85-94 | a custom material has name "Custom", the given colour, density 1000, strength 50 and weight factor 1, and its emissive colour is `#rrggbb`. For a hex colour each emissive channel is the input channel shifted by -76 and clamped; for a colour without hex digits every channel is 0 |
| Materials.FirstIndex | src/simulation/materials.js:98 | the first occurrence of a character is at a position holding it with no earlier occurrence |
| Materials.RemoveFirst | src/simulation/materials.js:98 | replacing `"#"` removes exactly the first `#` and keeps the rest in order, and removes nothing when there is none |
| Materials.HexPrefix | src/simulation/materials.js:98 | `parseInt(_, 16)` reads the longest prefix made of hex digits |
| Materials.HexValue | src/simulation/materials.js:98 | a run of k hexadecimal digits has a value below 16^k |
| Materials.ShortHexFits | src/simulation/materials.js:98 | seven hexadecimal digits or fewer have a value below 2^28 |
| Materials.ParseColor | src/simulation/materials.js:98 | the parsed colour the bit operators see is a signed 32-bit value, and for at most seven leading hex digits it is their exact value |
| Materials.ColorDigits | src/simulation/materials.js:98 | the digits read from a `#rrggbb` colour are the six after the `#` |
| Materials.PackedChannels | src/simulation/materials.js:98 | a `#rrggbb` colour parses to its three channels packed into one number |
| Materials.ToInt32 | src/simulation/materials.js:100-102 | the bit operators see a 32-bit signed value congruent to the number modulo 2^32, equal to it when it is already in that range |
| Materials.SmallInt32 | src/simulation/materials.js:100-102 | a packed 24-bit colour is unchanged by the 32-bit conversion |
| Materials.ShiftedChannel | src/simulation/materials.js:100-102 | the middle and low channels before clamping lie between the shift and the shift plus 255; the high channel of a 32-bit value lies within 2^15 of the shift |
| Materials.Unpack | src/simulation/materials.js:100-102 | the shifts and masks recover each channel of a packed colour, plus the shift amount |
| Materials.ClampByte | src/simulation/materials.js:103-105 | the clamp lies in 0..255, keeps in-range values, and sends negative values to 0 and values above 255 to 255 |
| Materials.HexOfOffset | src/simulation/materials.js:106 | printing 16^k plus a smaller number in hex gives a `1` followed by that number in exactly k digits |
| Materials.Serialize | src/simulation/materials.js:103-106 | serialising three bytes gives `#` and six lower-case hex digits |
| Materials.SerializeDigits | src/simulation/materials.js:103-106 | each byte is written as exactly two digits, high digit first |
| Materials.ReadChannels | src/simulation/materials.js:103-106 | the channels read back from a serialised colour are the bytes it was built from |
| Materials.AdjustParsed | src/simulation/materials.js:100-106 | shifting, clamping and serialising any parsed number gives a lower-case `#rrggbb` |
| Materials.AdjustColorBrightness | src/simulation/materials.js:97-107 | the result is always `#` and six lower-case hex digits, whatever the input |
| Materials.AdjustPacked | src/simulation/materials.js:100-106 | adjusting a packed colour serialises each channel shifted and clamped |
| Materials.AdjustParsedColor | src/simulation/materials.js:97-107 | a colour that parses to packed channels is re-emitted with each channel shifted and clamped |
| Materials.ShiftPackedChannels | src/simulation/materials.js:97-107 | each output channel of such a colour is its channel plus the shift, clamped |
| Materials.AdjustChannels | src/simulation/materials.js:97-107 | for a `#rrggbb` input, each output channel equals the input channel plus the shift, clamped to 0..255 |
| Materials.AdjustByZero | src/simulation/materials.js:97-107 | with no shift, a `#rrggbb` colour comes back in lower case |
| Materials.ReprintLowers | src/simulation/materials.js:103-106 | re-serialising the channels of a `#rrggbb` colour gives the colour in lower case |
| Materials.AdjustUnparsable | src/simulation/materials.js:98-102 | a colour without hex digits after the `#` parses to NaN, which the bit operators read as 0, so every output channel is the clamped shift |
| Materials.ZeroShifted | src/simulation/materials.js:100-106 | adjusting the number 0 gives the clamped shift in every channel |
| CubeManagement.PlaceOccupies | src/components/CubeManager.jsx:19-27 | after a placement the position is occupied and the other cubes are those already there |
| CubeManagement.PlaceIdempotent | src/components/CubeManager.jsx:19-27 | placing twice at one position is the same as placing once |
| CubeManagement.DeleteRemovesAll | src/components/CubeManager.jsx:29-38 | a deletion removes every cube at the position and keeps all the others |
| CubeManagement.OperationsKeepDistinct | src/components/CubeManager.jsx:10-38 | placing and deleting keep a list with no two cubes at one position free of duplicates |
| CubeManagement.PlaceThenDelete | src/components/CubeManager.jsx:19-38 | placing at a free position and then deleting there gives back the original list |
| CubeManagement.CubeManager.constructor | src/components/CubeManager.jsx:7-8 | the manager starts with no cubes and no hover position |
| CubeManagement.CubeManager.PositionExists | src/components/CubeManager.jsx:10-17 | a position exists exactly when a cube at those coordinates is in the list |
| CubeManagement.CubeManager.PlaceCube | src/components/CubeManager.jsx:19-27 | placing on an occupied cell leaves the list unchanged; otherwise exactly the position is appended at the end |
| CubeManagement.CubeManager.DeleteCube | src/components/CubeManager.jsx:29-38 | the list becomes the old list without the cubes at the position, in order |
| CubeManagement.CubeManager.HoverAt | src/components/CubeManager.jsx:43-52 | moving over the ground sets the hover position and leaves the cubes alone |
| CubeManagement.CubeManager.GroundClick | src/components/CubeManager.jsx:53-57 | a click with a button other than 0, or with no hover position, places nothing; otherwise it places at the hover position |

## Left out

- Rendering and input capture are not part of this model. This covers React, three.js, the JSX of the cube manager, the gesture controller (camera input, floating-point cursor smoothing, distance thresholds and timers) and the other display components.
- console.log and `console.warn` are left out; they have no effect on results. The router's `Ignored` outcome stands for the warning it logs.
- The `dispatch` callback is not called. `Route` returns the object it would be called with.
- The collapse countdown timer is not in these files. `UpdateCountdown` and `Collapse` are modelled only as reducer transitions, with no notion of time.
- Materials.AdjustColorBrightness takes `amt`, the already rounded `Math.round(2.55 * percent)`, as an integer, because the product is floating point. The one call site, `createCustomMaterial`, passes `-76`, the value of `Math.round(-76.5)`.
- Materials.HexPrefix and `Materials.ParseColor` do not model leading white space, a sign or a `0x` prefix accepted by `parseInt`. They also ignore the loss of precision `parseInt` suffers for hex runs longer than 13 digits.
- Materials.ToUpper and `Materials.ToLower` map only ASCII letters. Unicode case mapping, for example the expansion of `ß`, is not modelled.
- Materials.MaterialColor and `Materials.MaterialEmissive` take an optional material record. A missing property is modelled as the empty string, and a non-string property value is not modelled.
- The colour palette constant `COLOR_PALETTE` (`src/simulation/materials.js:38-66`) is left out: it is display data that no logic of these files reads.
- The numeric density, strength and weight-factor fields of a material are carried as data. Only `ActionRouter.Get` reads them, as properties of a material payload.
- CubeManagement.CubeManager.HoverAt takes the snapped position as input. The `Math.round` snapping of the pointer in `onMove` is floating point.
- Coordinates are exact reals rather than IEEE doubles. On grid values (integers, and half-integers on y) the two agree.
- ActionRouter.CreatePlaceAction takes the position as a list of values, so a `position` that is not an array, or is `undefined`, is not modelled; in the source, `position[0]` then throws.
- ActionRouter.Decode reads only payloads of the shape the reducer expects (numbers for coordinates, a material record, an integer id); any other shape decodes to `None`. Material payloads are material records, so only their six fields can be read from them.
- The router's action type is a string, and `Reducer.Action.Unknown` stands for any type the reducer does not know. The reducer's `PLACE_DRAFT` case spreads the whole payload into the new cube; the model keeps only the four fields the router passes on.
- The lemmas about chains, closure and adjacency lists (`StructuralEngine.AdjacencyOfUnique`, `StructuralEngine.SupportSpreads`, `StructuralEngine.SupportedIffAdjacentPath`) assume distinct ids within the list. The search itself and `StructuralEngine.Validate` are modelled for any input, duplicate ids included: the adjacency map keeps the last cube with an id, as `Map.set` does.
