# OSCQuery address space: a Dafny model

This project models the address-space engine of the Unity OSCQuery
component (`Runtime/OSCQuery.cs`). The model covers four parts.

- **The rebuild.** `rebuildDataTree` walks either the configured root object
  or the admitted scene roots. `getObjectData` descends through child objects
  and components. `getPropObject` describes each public field and writable
  property.
- **The two outputs of the rebuild.**
  - The OSCQuery description `queryData`: containers `{ACCESS 0, CONTENTS}`
    and parameter leaves `{ACCESS 3, VALUE, TYPE, RANGE, FULL_PATH}`.
  - `compInfoMap`: one entry per full OSC address, pointing at the member it
    controls.
- **The helpers.** `SanitizeName`, `checkFilteredObject` and
  `checkFilteredComp`.
- **The inbound dispatcher.** `ProcessIncomingMessages` drains the OSC
  receiver's queue. For each message it looks up the address in
  `compInfoMap`. It then converts the arguments through the type switch and
  either writes the member or logs a warning.

## How the model is built

The scene graph is a value: `Scene.Obj` and `Scene.Comp`. Each reflected
member is a `Scene.Member`, which carries its declared `Kind`, writability,
optional `[Range]` attribute and current boxed `Value`.

The address builder is specified by pure functions in `AddressSpace`:

- `ObjectEvents` lists the `compInfoMap.Add` calls (and raised exceptions) of
  a walk, in order.
- `ObjectTree` is the description the walk returns.
- `Apply` runs `Dictionary.Add` over a list of events. It stops at the first
  exception, which is either a raise or a duplicate key.

The component itself is the class `Server.OSCQuery`. Its fields are the ones
the source updates: `compInfoMap`, `queryData`, the receiver queue, the
member values written by `SetValue`, and the warning log.

- Every loop of the source is a method with its loop invariants.
  `getObjectData`'s three loops are split into `AddChildren`,
  `AddComponents` and `AddMembers`, with single-iteration methods for the
  loop bodies.
- Every method is proved to leave `compInfoMap` and return exactly what the
  specification functions say.
- The properties of those functions are proved as lemmas in `AddressSpace`,
  `Correspondence`, `Structure` and `Coercion`.

Exceptions are values of `Basics.Exn`: `NullReference`, `InvalidCast`,
`ArgumentOutOfRange` and `DuplicateKey`. A method that meets one returns it
at once. The `compInfoMap` entries added before the exception stay.

### Where the code is followed rather than the design description

- A bool member is set to `true` only when the first argument is the int 1
  (`(int)msg.Data[0] == 1`). Other non-zero values give `false`.
- Every numeric cast in the switch is an unboxing cast. A float member given
  an int argument, or an int member given a float argument, raises
  `InvalidCastException`. A Color member always raises, because no OSC 1.0
  core argument is a boxed `Color`.
- The enum loop keeps the raw value of the **last** field whose name equals
  the first argument's text. With no arguments it throws at the first
  declared name.
- `rootObject` itself is never filtered. Only children and scene roots go
  through `checkFilteredObject`. `checkFilteredComp` admits every component.
- The container ACCESS is always 0 and the leaf ACCESS is always 3, whatever
  the member's readability or writability. The bool type tag is `"b"`.
- `RANGE` always has exactly one entry, `ro0`. It is `[min, max]` when a
  `[Range]` attribute is present, an object holding `VALS` for an enum, and
  empty otherwise.
- The component's OSC address uses the raw short type name (line 164). Its
  CONTENTS key uses the sanitised name (line 213).
- A repeated address makes `compInfoMap.Add` throw. This aborts the rebuild.
  A later SetField on a CONTENTS key that is already present silently
  replaces the earlier node. A component whose key equals a child's name
  therefore hides the child's parameters from the description, while their
  addresses stay in `compInfoMap`. `Correspondence.ShadowedChildLosesPaths`
  proves this for an object with one admitted child and one component
  without fields or properties.

## Model

| member | source | states |
|---|---|---|
| Names.SanitizeNameClean | Runtime/OSCQuery.cs:344-347 | a sanitised name contains no space, no '(' and no ')' |
| Names.SanitizeNameLength | Runtime/OSCQuery.cs:344-347 | the length drops by exactly the number of parentheses (each space becomes one '-') |
| Names.SanitizeNameFixesClean | Runtime/OSCQuery.cs:344-347 | a name with no space or parenthesis is left unchanged |
| Names.SanitizeNameIdempotent | Runtime/OSCQuery.cs:344-347 | sanitising twice gives the same name as sanitising once |
| Names.ReplaceRemoves | Runtime/OSCQuery.cs:346 | `Replace(c, rep)` with a replacement text that does not hold c leaves no c |
| Names.ReplaceKeeps | Runtime/OSCQuery.cs:346 | a character other than c and absent from rep is present after Replace iff it was before |
| Names.ReplaceLength | Runtime/OSCQuery.cs:346 | each occurrence of c changes the length by \|rep\| - 1 |
| Names.ReplaceCountOther | Runtime/OSCQuery.cs:346 | Replace keeps the count of every character that is neither c nor in rep |
| Names.ReplaceAbsent | Runtime/OSCQuery.cs:346 | replacing a character that does not occur changes nothing |
| Names.LastIndexOf | Runtime/OSCQuery.cs:161 | the result is -1 or an index holding c, and no later index holds c |
| Names.SanitizeName | Runtime/OSCQuery.cs:344-347 | no ensures of its own: its properties are stated by SanitizeNameClean, SanitizeNameLength, SanitizeNameFixesClean and SanitizeNameIdempotent |
| Names.Replace | Runtime/OSCQuery.cs:346 | String.Replace of one character by a text; no ensures of its own: its facts are stated by ReplaceRemoves, ReplaceKeeps, ReplaceLength, ReplaceCountOther and ReplaceAbsent |
| Names.ShortTypeName | Runtime/OSCQuery.cs:161-162 | the type name after its last '.'; no ensures of its own: its facts are stated by ShortTypeNameSuffix |
| Names.ShortTypeNameSuffix | Runtime/OSCQuery.cs:161-162 | the short type name is the longest suffix of the full name without '.': it starts at the beginning or right after a '.', and a name without '.' is kept whole |
| ObjectFilter.CheckFilteredObject | Runtime/OSCQuery.cs:351-356 | All admits every object; Include admits exactly the listed objects; Exclude admits exactly the unlisted ones |
| ObjectFilter.CheckFilteredComp | Runtime/OSCQuery.cs:358-362 | admits every component type; no ensures of its own: its facts are stated by Correspondence.CompsEventsSingle (an admitted component performs its own Adds) |
| ObjectFilter.IncludeExcludeComplementary | Runtime/OSCQuery.cs:351-356 | for one list, Include and Exclude disagree on every object |
| Leaves.DeclaredNames | Runtime/OSCQuery.cs:316-322 | the VALS list of an enum; no ensures of its own: its facts are stated by DeclaredNamesMembers and DeclaredNamesConcat |
| Leaves.DeclaredNamesMembers | Runtime/OSCQuery.cs:316-322 | the VALS list holds every declared enum field name except value__, holds nothing else, and is no longer than the field list |
| Leaves.DeclaredNamesConcat | Runtime/OSCQuery.cs:318-322 | VALS keeps declaration order: the names of a concatenation are the names of each part in turn |
| Leaves.PropObject | Runtime/OSCQuery.cs:221-342 | the CORRECTED getPropObject, whose casts convert every listed integer and float width; no ensures of its own: its facts are PropObjectSupport, PropObjectLeaf, PropObjectEnum and IntegerWidthsDescribed, and PropObjectAsWritten relates it to the code as written |
| Leaves.PropObjectSupport | Runtime/OSCQuery.cs:238-335 | for the corrected getPropObject (as written, well-typed wide numbers throw too: WideNumbersThrowAsWritten): it returns null exactly for the types its switch does not list (UInt32, Component, GameObject, Matrix4x4, Transform, other non-enum types); it throws exactly when a listed type's boxed value is null or of another type |
| Leaves.PropObjectLeaf | Runtime/OSCQuery.cs:223-341 | every description has ACCESS 3, exactly one RANGE entry holding [min, max] iff a range attribute is present, the TYPE tag of its kind, one VALUE per tag letter of the matching atom kind, and VALS iff the type is an enum |
| Leaves.PropObjectEnum | Runtime/OSCQuery.cs:311-327 | an enum leaf has tag "s", VALS equal to the declared names without value__, and VALUE the current value's name |
| Leaves.UnboxIntAsWritten | Runtime/OSCQuery.cs:259 | the `(int)value` unboxing succeeds iff the member is an Int32 holding an integer |
| Leaves.UnboxFloatAsWritten | Runtime/OSCQuery.cs:268 | the `(float)value` unboxing succeeds iff the member is a Single holding a float |
| Leaves.PropObjectAsWritten | Runtime/OSCQuery.cs:238-335 | getPropObject with its casts as written agrees with the corrected description on every type except Int64, Int16, UInt16, Byte, SByte and Double |
| Leaves.WideNumbersThrowAsWritten | Runtime/OSCQuery.cs:251-271 | as written, a well-typed Int64/Int16/UInt16/Byte/SByte/Double member throws InvalidCast, though the corrected description exists |
| Leaves.IntegerWidthsDescribed | Runtime/OSCQuery.cs:251-271 | corrected: every integer width is an "i" leaf holding the integer, every float width an "f" leaf holding the float |
| AddressSpace.MemberOutcome | Runtime/OSCQuery.cs:172-208 | the property filter, then the corrected getPropObject; no ensures of its own: its facts are MembersRegistrations and MembersParamsAt |
| AddressSpace.Apply | Runtime/OSCQuery.cs:184 | Dictionary.Add over a run of events, stopping at the first exception; no ensures of its own: its facts are ApplyConcat, ApplySucceedsIff, ApplyEntries and ApplyFaultPersists |
| AddressSpace.ObjectEvents | Runtime/OSCQuery.cs:142-219 | the compInfoMap.Add calls and exceptions of getObjectData, in order; no ensures of its own: its facts are stated by Correspondence.ObjectPaths, Structure.ObjectRegistrations, Structure.PruneSame, Correspondence.ShadowedChildEvents and ChildrenFaultAborts |
| AddressSpace.ObjectTree | Runtime/OSCQuery.cs:142-219 | the description getObjectData returns; no ensures of its own: its facts are stated by Correspondence.ObjectPaths, Structure.ObjectShaped, Structure.PruneSame and Correspondence.ShadowedChildTree |
| AddressSpace.SnapshotEvents | Runtime/OSCQuery.cs:119-140 | the Add calls of rebuildDataTree over the root object or the admitted scene roots; no ensures of its own: its facts are stated by Correspondence.SnapshotCorrespondence and Structure.SnapshotEntriesGood |
| AddressSpace.SnapshotTree | Runtime/OSCQuery.cs:119-140 | the queryData rebuildDataTree builds; no ensures of its own: its facts are stated by Correspondence.SnapshotCorrespondence and Structure.SnapshotShaped |
| AddressSpace.ApplyConcat | Runtime/OSCQuery.cs:184 | Add calls in sequence: the second run starts from the map the first left, unless the first threw |
| AddressSpace.ApplySucceedsIff | Runtime/OSCQuery.cs:184-208 | a run of Add calls completes iff it raises nothing and its keys are pairwise distinct and new to the map |
| AddressSpace.ApplyEntries | Runtime/OSCQuery.cs:184-208 | after a completed run the keys are the old keys plus the run's paths; old entries are kept and each path maps to its CompInfo |
| AddressSpace.DuplicatePathFails | Runtime/OSCQuery.cs:184-208 | a walk that reaches the same full path twice always throws |
| AddressSpace.ApplyFaultPersists | Runtime/OSCQuery.cs:184 | once an Add throws, what follows is never run |
| AddressSpace.MembersEventsConcat | Runtime/OSCQuery.cs:173-186 | the member loop over a concatenation performs the Adds of each part in turn |
| AddressSpace.CompsEventsConcat | Runtime/OSCQuery.cs:157-214 | the component loop over a concatenation performs the Adds of each part in turn |
| AddressSpace.ChildrenEventsConcat | Runtime/OSCQuery.cs:147-153 | the child loop over a concatenation performs the Adds of each part in turn |
| AddressSpace.ChildrenIntoConcat | Runtime/OSCQuery.cs:147-153 | the child loop over a concatenation fills CONTENTS with each part in turn |
| AddressSpace.MembersFaultAborts | Runtime/OSCQuery.cs:173-186 | an exception at the k-th member is the whole loop's outcome |
| AddressSpace.CompsFaultAborts | Runtime/OSCQuery.cs:157-214 | an exception at the k-th component is the whole loop's outcome |
| AddressSpace.ChildrenFaultAborts | Runtime/OSCQuery.cs:147-153 | an exception at the k-th child is the whole loop's outcome |
| Correspondence.ContentsPathsUpdate | Runtime/OSCQuery.cs:152 | SetField under a new key adds exactly the node's FULL_PATHs; under a reused key, at most those |
| Correspondence.MembersPaths | Runtime/OSCQuery.cs:173-210 | every FULL_PATH the member loops put in CONTENTS is a path they Add, and all of them when no key is reused |
| Correspondence.CompPaths | Runtime/OSCQuery.cs:164-212 | a component's FULL_PATHs are included in its Added paths, and equal to them when no key is reused |
| Correspondence.CompsPaths | Runtime/OSCQuery.cs:157-214 | the component loop's FULL_PATHs are included in its Added paths, and equal to them when no key is reused |
| Correspondence.ObjectPaths | Runtime/OSCQuery.cs:142-219 | an object's FULL_PATHs are included in the paths its walk Adds, and equal to them when no CONTENTS key is reused |
| Correspondence.ChildrenPaths | Runtime/OSCQuery.cs:147-153 | the child loop's FULL_PATHs are included in its Added paths, and equal to them when no key is reused |
| Correspondence.SnapshotCorrespondence | Runtime/OSCQuery.cs:119-140 | after a rebuild that threw nothing, every FULL_PATH in queryData is a compInfoMap key; without a reused CONTENTS key they are exactly the keys |
| Correspondence.CompsEventsSingle | Runtime/OSCQuery.cs:157-214 | the component loop over one admitted component performs that component's Adds |
| Correspondence.ShadowedChildLosesPaths | Runtime/OSCQuery.cs:152-213 | for an object with exactly one child, admitted, and exactly one component, without fields or properties, whose key equals the child's sanitised name: the description holds no FULL_PATH, while the child's paths are still Added |
| Correspondence.ShadowedChildTree | Runtime/OSCQuery.cs:152-213 | in that case the object's CONTENTS holds only the component's empty node |
| Correspondence.ShadowedChildEvents | Runtime/OSCQuery.cs:147-214 | in that case the object's Adds are exactly the child's |
| Correspondence.EmptyCompNoEvents | Runtime/OSCQuery.cs:171-210 | a component without fields or properties Adds nothing |
| Structure.MembersParamsAt | Runtime/OSCQuery.cs:173-210 | every CONTENTS entry of a component is a parameter whose FULL_PATH is compAddress + "/" + its key, with ACCESS 3, one RANGE entry and one VALUE per tag letter |
| Structure.CompContentsParamsAt | Runtime/OSCQuery.cs:164-212 | a component's node is a container with ACCESS 0 holding only such parameters |
| Structure.CompsShaped | Runtime/OSCQuery.cs:157-214 | the component loop keeps every CONTENTS entry well-shaped |
| Structure.ObjectShaped | Runtime/OSCQuery.cs:142-219 | every container getObjectData builds has ACCESS 0 at every depth, and every leaf is a well-formed description |
| Structure.ChildrenShaped | Runtime/OSCQuery.cs:147-153 | the child loop keeps every CONTENTS entry well-shaped |
| Structure.SnapshotShaped | Runtime/OSCQuery.cs:119-140 | queryData after a rebuild is well-shaped at every depth |
| Structure.MembersRegistrations | Runtime/OSCQuery.cs:173-210 | each Add is for a declared member of a supported type, at compAddress + "/" + its sanitised name, with its component and field/property flag; a property only when writable, not Component/GameObject/Matrix4x4/Transform and not named name or tag |
| Structure.CompRegistrations | Runtime/OSCQuery.cs:164-208 | every path a component Adds lies under baseAddress + "/" and ends in "/" + the member's sanitised name |
| Structure.CompsRegistrations | Runtime/OSCQuery.cs:157-214 | the same for every component of the loop |
| Structure.ObjectRegistrations | Runtime/OSCQuery.cs:142-219 | the same for every path an object's walk Adds, at any depth |
| Structure.ChildrenRegistrations | Runtime/OSCQuery.cs:147-153 | the same for the child loop: a child's paths lie under the parent's address |
| Structure.SnapshotEntriesGood | Runtime/OSCQuery.cs:119-140 | after a rebuild that threw nothing, every compInfoMap key starts with "/", ends in its member's sanitised name, and points at an eligible member of a supported type |
| Structure.PruneSame | Runtime/OSCQuery.cs:147-153 | a rejected object contributes nothing at any depth: cutting every rejected subtree changes neither the Adds nor the description |
| Structure.PruneChildrenSame | Runtime/OSCQuery.cs:147-153 | the same for a child list |
| Structure.PruneStepEvents | Runtime/OSCQuery.cs:147-153 | one child step of that argument, for the Adds |
| Structure.PruneStepInto | Runtime/OSCQuery.cs:147-153 | one child step of that argument, for CONTENTS |
| Structure.PruneAdmitted | Runtime/OSCQuery.cs:351-356 | after pruning, every object below the root is admitted |
| Structure.PruneChildrenAdmitted | Runtime/OSCQuery.cs:351-356 | after pruning a child list, every object in it and below is admitted |
| Structure.PruneKeepsAdmitted | Runtime/OSCQuery.cs:351-356 | a tree with no rejected object is its own pruning |
| Structure.PruneChildrenKeepsAdmitted | Runtime/OSCQuery.cs:351-356 | a child list with no rejected object is its own pruning |
| Coercion.ArgName | Runtime/OSCQuery.cs:436 | msg.Data[0].ToString() where it can be an enum field name; no ensures of its own: its facts are stated by NaNText and InfinityText |
| Coercion.EnumScan | Runtime/OSCQuery.cs:426-441 | the enum loop fails only with ArgumentOutOfRange, and then exactly when there are no arguments and a declared name exists; with arguments it finds a value iff the first argument's ToString text (a string's own text, "NaN" or "Infinity" for those floats) names a declared value, and the value found is that field's raw constant |
| Coercion.Coerce | Runtime/OSCQuery.cs:380-444 | data stays null exactly for unswitched non-enum types and for unmatched enum names; a switched type converts iff enough arguments of the cast's boxed type are present; no arguments give ArgumentOutOfRange; only ArgumentOutOfRange or InvalidCast is thrown; a bool becomes (first argument == 1); an enum becomes a declared field's raw value |
| Coercion.CoerceWrites | Runtime/OSCQuery.cs:380-424 | the datum written for each converted kind: the first argument as text for String and Char, its int for every integer kind, its float for Double and Single, the first two floats for Vector2, the first three for Vector3 and for Quaternion's Euler angles; Color is never converted |
| Coercion.EnumTextSelects | Runtime/OSCQuery.cs:426-441 | whenever the first argument's ToString text is a declared name, the enum branch converts to the raw value of a field with that name |
| Coercion.NaNText | Runtime/OSCQuery.cs:436 | the ToString text of every float NaN is "NaN" |
| Coercion.InfinityText | Runtime/OSCQuery.cs:436 | the ToString text of positive infinity is "Infinity" |
| Coercion.NaNNamesEnumValue | Runtime/OSCQuery.cs:433-437 | for every NaN payload, every following argument list and every enum declaring NaN, the first argument selects the raw value of a field named NaN |
| Coercion.InfinityNamesEnumValue | Runtime/OSCQuery.cs:433-437 | for every following argument list and every enum declaring Infinity, a positive-infinity first argument selects the raw value of a field named Infinity |
| Coercion.Dispatch | Runtime/OSCQuery.cs:373-459 | one message: look up the address, coerce, then write or warn; no ensures of its own: its facts are UnknownAddressOnlyWarns, EnumMismatchUnchanged, EnumMatchWrites, BoolSetIffOne and CoerceWrites |
| Coercion.Drain | Runtime/OSCQuery.cs:366-460 | the loop over the queue, leaving it at the first exception; no ensures of its own: its facts are DrainEmptiesQueue, DrainUnknownAddresses and DrainFrame |
| Coercion.DrainEmptiesQueue | Runtime/OSCQuery.cs:366-368 | the loop ends with an empty queue; an exception leaves the messages after the failing one queued |
| Coercion.UnknownAddressOnlyWarns | Runtime/OSCQuery.cs:373-459 | an address missing from compInfoMap writes nothing and logs one "Property not found" warning |
| Coercion.DrainUnknownAddresses | Runtime/OSCQuery.cs:366-459 | a queue of unknown addresses leaves every member unchanged, throws nothing and logs one warning per message, in order |
| Coercion.DrainFrame | Runtime/OSCQuery.cs:446-450 | only members named by a message's address can change |
| Coercion.EnumMismatchUnchanged | Runtime/OSCQuery.cs:426-454 | an enum argument that names no declared value leaves the member unchanged and logs "Type not handled" |
| Coercion.EnumMatchWrites | Runtime/OSCQuery.cs:433-449 | an enum argument naming a declared value writes that field's raw constant |
| Coercion.BoolSetIffOne | Runtime/OSCQuery.cs:387-389 | a bool member is set to true iff the first argument is the int 1 |
| Coercion.SupportedKindsHandled | Runtime/OSCQuery.cs:380-444 | every registered non-enum type is named by the switch, so "Type not handled" arises only from an unmatched enum name |
| Server.OSCQuery.constructor | Runtime/OSCQuery.cs:44-57 | the settings are stored; the map, queue, members and log start empty |
| Server.OSCQuery.GetPropObject | Runtime/OSCQuery.cs:221-342 | the loop-built description (VALS collected in a loop) is exactly the corrected getPropObject outcome, Leaves.PropObject |
| Server.OSCQuery.AddMember | Runtime/OSCQuery.cs:173-209 | one member step leaves compInfoMap and CONTENTS as the specified events and entries say, or returns their exception |
| Server.OSCQuery.AddMembers | Runtime/OSCQuery.cs:173-210 | the field or property loop leaves compInfoMap as its Adds applied in order, and returns the CONTENTS or the first exception |
| Server.OSCQuery.GetComponentData | Runtime/OSCQuery.cs:164-212 | a component's fields then properties: compInfoMap and the component node are as specified |
| Server.OSCQuery.AddComponents | Runtime/OSCQuery.cs:155-214 | the component loop (address from the raw short type name, key from the sanitised one) is as specified |
| Server.OSCQuery.GetObjectData | Runtime/OSCQuery.cs:142-219 | getObjectData leaves compInfoMap as its walk's Adds applied in order and returns the specified tree, or the first exception |
| Server.OSCQuery.AddChildren | Runtime/OSCQuery.cs:130-153 | the child and scene-root loop skips rejected objects and sets each admitted one under its sanitised name, as specified |
| Server.OSCQuery.AddChild | Runtime/OSCQuery.cs:149-152 | one child step: skip it if rejected, or describe it under baseAddress + "/" + its sanitised name |
| Server.OSCQuery.RebuildDataTree | Runtime/OSCQuery.cs:119-140 | compInfoMap starts empty and ends as the whole walk's Adds; queryData is the specified tree, or on an exception is kept (root object) or left with no CONTENTS (scene roots) |
| Server.OSCQuery.CoerceEnum | Runtime/OSCQuery.cs:426-443 | the enum loop's result is exactly the switch's enum outcome |
| Server.OSCQuery.ProcessIncomingMessages | Runtime/OSCQuery.cs:364-461 | queue, members, log and exception end as the specified drain of the queue says |

## Left out

- The HTTP listener and its thread (`RunThread`, lines 100-117), the Unity lifecycle (`Awake`, `OnEnable`, `OnDisable` and `Update`, lines 59-98; `Awake` calls rebuildDataTree once and `Update` calls ProcessIncomingMessages once per frame), the OSC receiver's socket, WSQuery and Zeroconf. These are I/O and concurrency. The receiver is a queue field of the class.
- The null `compInfoMap` before the first rebuild: the class starts with an empty map. In the code the field is null until `rebuildDataTree` (line 121) runs, and `Awake` returns before that rebuild when HttpListener is unsupported (lines 61-64). A message arriving then throws NullReferenceException at line 373, where the model logs "Property not found".
- The order of CONTENTS keys: CONTENTS is a map, so the order in which the served JSON lists a container's children is not modelled. The VALS list of an enum is a sequence and keeps declaration order.
- JSON text: queryData is a tree of nodes, and the JSON library is not part of this model. Debug.Log info lines and the `args` string built at line 371 are not modelled, because they affect only the log.
- Reflection is not modelled: the scene graph, members and values are given as data. Member order is the order reflection reports.
- Floating-point values are opaque 32-bit payloads. Quaternion Euler angles and `ColorUtility.ToHtmlStringRGBA` are precomputed in the value. No float arithmetic or `Vector3`/`Quaternion.Euler` maths is modelled.
- `SetValue`'s own conversions and exceptions are not modelled. Writing stores the converted datum in the member map, keyed by component, field/property flag and member name.
- Coercion.ArgName gives the `msg.Data[0].ToString()` text the enum loop compares only where that text can be a C# identifier: a string's own text, and "NaN" and "Infinity" for those float values (Mono's invariant symbols; a culture with other symbols is not modelled). An int's numeral, any other float's number or "-Infinity", and a blob's "System.Byte[]" are not identifiers and so equal no enum field name. That field names are identifiers is assumed, not enforced by Scene.EnumField.
- AddressSpace.MemberOutcome: follows the corrected casts (Leaves.PropObject), so a well-typed Int64, Int16, UInt16, Byte, SByte or Double member is described where the code as written throws InvalidCastException; Leaves.PropObjectAsWritten and Leaves.WideNumbersThrowAsWritten model the code as written.
- Server.OSCQuery.GetPropObject: ensures the corrected description (Leaves.PropObject), not the InvalidCastException the code as written throws for a well-typed wide number.
- Server.OSCQuery.AddMember: a wide-number member is added with the corrected description, where the code as written throws.
- Server.OSCQuery.AddMembers: a wide-number member is added with the corrected description, where the code as written throws and ends the loop.
- Server.OSCQuery.GetComponentData: a component with a wide-number member is described in full, where the code as written throws.
- Server.OSCQuery.AddComponents: the same corrected casts, so a wide-number member does not end the component loop.
- Server.OSCQuery.GetObjectData: the same corrected casts, so a wide-number member does not abort the walk.
- Server.OSCQuery.AddChildren: the same corrected casts, so a wide-number member does not end the child loop.
- Server.OSCQuery.AddChild: the same corrected casts, so a wide-number member does not abort the child's description.
- Server.OSCQuery.RebuildDataTree: the same corrected casts, so a scene with a wide-number member is rebuilt in full, where the code as written throws InvalidCastException and leaves compInfoMap partial.
- Coercion.Arg covers only the OSC 1.0 core argument types (int32, float32, string, blob). Other argument types the receiver might box are not modelled.
- Concurrency between the HTTP thread reading queryData and the main thread rebuilding it is not modelled.

## Findings

| source | as written | input that shows it | evidently intended | confidence | as-written member | corrected member |
|---|---|---|---|---|---|---|
| Runtime/OSCQuery.cs:251-271 | `(int)value` and `(float)value` are unboxing casts, which succeed only on a box of exactly Int32 or Single | a public `long`, `short`, `ushort`, `byte`, `sbyte` or `double` field: getPropObject throws InvalidCastException, which aborts the whole rebuild | these types, listed in the switch, are described as "i" or "f" leaves holding their value; the rest of the model (AddressSpace.MemberOutcome and the builder methods) uses this corrected getPropObject | not executed | Leaves.WideNumbersThrowAsWritten | Leaves.IntegerWidthsDescribed |
