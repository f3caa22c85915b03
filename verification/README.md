# Tags import/export, PLC mirroring and digital alarms — a Dafny model

This project models the three NetLogic scripts of the FactoryTalk Optix
"tags import/export" sample. It proves properties of the model.

- **FromPLCToModel** mirrors an imported PLC tag tree into the project's
  Model folder:
  - a tag structure becomes an object;
  - a structure array is flattened into its parent, its children's names
    prefixed with the array's name;
  - a tag or variable becomes a model variable, optionally linked back to
    the PLC tag by a dynamic link.
  A node of an unexpected kind (a folder or a plain object among the PLC
  nodes) makes a cast throw: the run stops there, and the nodes it added
  before stay. After a run that completed, running it again adds nothing,
  as long as no PLC name holds "/" and no variable lies directly in a
  structure array; such names are looked up under one name and added under
  another, so every run adds them again.
- **GenerateAlarms** walks the nodes below a starting node:
  - every variable gets digital alarms, one per bit of a 16- or 32-bit
    integer, one per element of a boolean array, one for a scalar
    boolean;
  - the alarms go into the Alarms folder, or into a per-variable folder
    inside it;
  - an alarm whose name is already taken is not created again.
- **ImportExportTags** writes the driver tags and tag structures below a
  starting node to a ";"-separated table, and reads such a table back:
  - missing structures and tags are added, existing tags are updated;
  - the script counts created tags, updated tags and created structures.

The project has these parts:

- **Writable store.** The host's address space is the class
  `Nodes.AddressSpace`, with a map of nodes and the next fresh node id.
  Its abstract value is `Nodes.Space`.
- **Read-only inputs.** The PLC tree, the tree the alarms are generated
  from and the tree that is exported are value trees (`Nodes.Tree`).
- **Specification functions.** For each script, pure functions say what
  one run does to the store: `FromPlcToModel.Mirror`,
  `DigitalAlarms.Fetch`, `TagImport.Import` and `TagExport.Export`.
- **The scripts.** Each script is a class whose methods update the store
  step by step. Each method is proved to end in exactly the state the
  specification function gives.
- **Property modules.** The properties are lemmas about the
  specification functions: `MirrorProperties`, `AlarmProperties`,
  `TagProperties` and `TagImportProperties`.

## Model

| member | source | states |
|---|---|---|
| Nodes.FirstNamed | ProjectFiles/NetSolution/ImportExportTags.cs:245 | `FirstOrDefault` by browse name: the result is a child with that name, and it is missing exactly when no child has that name |
| Nodes.FindChild | ProjectFiles/NetSolution/GenerateAlarms.cs:157-162 | the child lookup by browse name: it finds a child with the name, and finds none exactly when no child has it |
| Nodes.AddNew | ProjectFiles/NetSolution/ImportExportTags.cs:110 | `owner.Add`: one fresh node with the given name and kind is appended to the parent's children; every other node stays as it was and the store stays well-formed |
| Nodes.SetKind | ProjectFiles/NetSolution/ImportExportTags.cs:451-452 | setting a node's value or properties changes that node's kind only; the ids and every other node are kept |
| Nodes.ClearChildren | ProjectFiles/NetSolution/GenerateAlarms.cs:27-31 | `Children.Clear()`: the node loses its children and nothing else changes |
| Nodes.GrowsTrans | ProjectFiles/NetSolution/ImportExportTags.cs:54-58 | "the store only grew" composes over successive steps |
| Nodes.SetKindTwice | ProjectFiles/NetSolution/ImportExportTags.cs:236-240 | two successive property sets on one node amount to the last one |
| Nodes.AddNewGrows | ProjectFiles/NetSolution/ImportExportTags.cs:110 | adding a node only grows the store: existing nodes keep their names and children lists extend |
| Nodes.FirstNamedAppend | ProjectFiles/NetSolution/ImportExportTags.cs:245 | appending children never changes which child a successful name lookup finds |
| Nodes.FindChildStable | ProjectFiles/NetSolution/GenerateAlarms.cs:157-162 | a child found by name stays the one found after the store grows |
| Nodes.FirstNamedLast | ProjectFiles/NetSolution/ImportExportTags.cs:245 | a lookup finds the last child when it is the only one with the name |
| Nodes.FindAfterAdd | ProjectFiles/NetSolution/GenerateAlarms.cs:157-162 | after adding a child with a name no child had, the lookup finds the new node |
| Nodes.AddressSpace.constructor | ProjectFiles/NetSolution/ImportExportTags.cs:23 | the store starts with its root node only |
| Nodes.AddressSpace.Get | ProjectFiles/NetSolution/ImportExportTags.cs:245 | the method lookup returns exactly `FindChild` of the current store |
| Nodes.AddressSpace.Add | ProjectFiles/NetSolution/ImportExportTags.cs:110 | the store becomes `AddNew` of the old store, and the new id is the old next id |
| Nodes.AddressSpace.Update | ProjectFiles/NetSolution/ImportExportTags.cs:451-452 | the store becomes `SetKind` of the old store |
| Nodes.AddressSpace.Clear | ProjectFiles/NetSolution/GenerateAlarms.cs:30 | the store becomes `ClearChildren` of the old store |
| FromPlcToModel.Sanitize | ProjectFiles/NetSolution/FromPLCToModel.cs:61 | `Replace("/", "_")`: the result never holds "/" and a name without "/" is kept as it is |
| FromPlcToModel.WithLink | ProjectFiles/NetSolution/FromPLCToModel.cs:89 | `SetDynamicLink` on a variable (a driver tag, a tag structure or a model variable): the result is the same node with only its link replaced |
| FromPlcToModel.OnlyAddsTrans | ProjectFiles/NetSolution/FromPLCToModel.cs:26-44 | `OnlyAddsAndRelinks` (nodes are only added, and an existing node changes only by a variable's link, only when links are on) composes across successive steps |
| FromPlcToModel.Mirror | ProjectFiles/NetSolution/FromPLCToModel.cs:26-44 | `CreateModelTag`, with `IsTagStructureArray` choosing between an object and flattening: whether the run completes or throws, the store stays valid and `OnlyAddsAndRelinks` holds, so the changes made before an exception stay |
| FromPlcToModel.MirrorObject | ProjectFiles/NetSolution/FromPLCToModel.cs:57-73 | `CreateOrUpdateObject`: adds or reuses the object, then mirrors the children into it; only adds and relinks, whether or not the run completes |
| FromPlcToModel.MirrorChildren | ProjectFiles/NetSolution/FromPLCToModel.cs:69-72 | the children loop, which skips the `ArrayDimensions` variable and stops at the first child whose run throws: only adds and relinks |
| FromPlcToModel.MirrorChildrenStep | ProjectFiles/NetSolution/FromPLCToModel.cs:69-72 | one loop iteration: a dimensions variable is skipped, any other child is mirrored, and the rest follow only when that child's run completed |
| FromPlcToModel.MirrorVariable | ProjectFiles/NetSolution/FromPLCToModel.cs:75-90 | `CreateOrUpdateVariable`: only adds and relinks, and a run that throws at one of the two casts leaves the store as it was |
| FromPlcToModel.BindLink | ProjectFiles/NetSolution/FromPLCToModel.cs:88-89 | with links off nothing changes; with links on the run completes exactly when both the existing node and the PLC node pass the casts to a variable class (a tag, a tag structure or a plain variable), and then only the existing node's link changes, to the PLC node; otherwise nothing changes |
| FromPlcToModel.FromPLCToModel.constructor | ProjectFiles/NetSolution/FromPLCToModel.cs:13-14 | the script starts on the given store, with links off |
| FromPlcToModel.FromPLCToModel.GenerateNodesIntoModel | ProjectFiles/NetSolution/FromPLCToModel.cs:17-24 | a starting node that is not a tag structure (the typed lookup yields null, and the first use of it throws) ends the run with nothing changed; otherwise the store and the completion flag end as `Mirror` of it with an empty prefix |
| FromPlcToModel.FromPLCToModel.CreateModelTag | ProjectFiles/NetSolution/FromPLCToModel.cs:26-44 | the store and the completion flag end as `Mirror` of the old store |
| FromPlcToModel.FromPLCToModel.CreateOrUpdateObjectArray | ProjectFiles/NetSolution/FromPLCToModel.cs:48-55 | the array's children are mirrored into the parent, each prefixed with "<array name>_", stopping at the first that throws |
| FromPlcToModel.FromPLCToModel.CreateOrUpdateObject | ProjectFiles/NetSolution/FromPLCToModel.cs:57-73 | the store and the completion flag end as `MirrorObject` of the old store |
| FromPlcToModel.FromPLCToModel.CreateEachChild | ProjectFiles/NetSolution/FromPLCToModel.cs:69-72 | the store and the completion flag end as `MirrorChildren` of the old store |
| FromPlcToModel.FromPLCToModel.CreateOrUpdateVariable | ProjectFiles/NetSolution/FromPLCToModel.cs:75-90 | the store and the completion flag end as `MirrorVariable` of the old store; each failing cast ends the run |
| MirrorProperties.SameShapeGrows | ProjectFiles/NetSolution/FromPLCToModel.cs:17-24 | two stores that differ only in links have grown from each other both ways |
| MirrorProperties.LeafCoveredGrows | ProjectFiles/NetSolution/FromPLCToModel.cs:94 | once a PLC variable's counterpart is found by `GetChild` (and, with links on, both are variables), later adds and relinks keep it so |
| MirrorProperties.CoveredGrows | ProjectFiles/NetSolution/FromPLCToModel.cs:94 | once a PLC node has its model counterpart, later adds and relinks keep it there |
| MirrorProperties.CoveredAllGrows | ProjectFiles/NetSolution/FromPLCToModel.cs:94 | the same for all children of a node |
| MirrorProperties.MirrorCovers | ProjectFiles/NetSolution/FromPLCToModel.cs:26-44 | after a mirror run that completes, every node of a re-runnable tree is found by the name `GetChild` looks for |
| MirrorProperties.ObjectCovers | ProjectFiles/NetSolution/FromPLCToModel.cs:57-73 | the same for one tag structure and its subtree |
| MirrorProperties.VariableCovers | ProjectFiles/NetSolution/FromPLCToModel.cs:75-90 | the same for one variable |
| MirrorProperties.MirrorAllCovers | ProjectFiles/NetSolution/FromPLCToModel.cs:66-72 | the same for a list of children |
| MirrorProperties.CoveredAllCons | ProjectFiles/NetSolution/FromPLCToModel.cs:66-72 | coverage of the first child and of the rest gives coverage of all children |
| MirrorProperties.CoveredMirrorKeepsShape | ProjectFiles/NetSolution/FromPLCToModel.cs:26-44 | mirroring a covered tree adds nothing: only links may change, and with links off the store is unchanged |
| MirrorProperties.CoveredAllMirrorKeepsShape | ProjectFiles/NetSolution/FromPLCToModel.cs:66-72 | the same for a list of covered children |
| MirrorProperties.CoveredAllTail | ProjectFiles/NetSolution/FromPLCToModel.cs:66-72 | coverage of all children implies coverage of all but the first |
| MirrorProperties.MirrorIdempotent | ProjectFiles/NetSolution/FromPLCToModel.cs:17-24 | for a re-runnable tree (no name holds "/", and no variable lies directly in a structure array), a run that completed is followed by a second run that completes too, adds no node and changes at most links; with links off, the second run changes nothing |
| MirrorProperties.MirrorVariableEffect | ProjectFiles/NetSolution/FromPLCToModel.cs:75-92 | the cases of `CreateOrUpdateVariable`, with `IsArrayDimensionsVar` as the skip test: a dimensions variable is skipped; an existing node is reused and, with links on, relinked when it and the PLC node pass the variable casts (tag structures included), or else the run throws with nothing changed; a missing node whose PLC node is no variable throws at the cast with nothing changed; a missing variable is added under its sanitized name, without the prefix, with the tag's data type and dimensions, and linked when links are on |
| MirrorProperties.ExistingStructureRelinked | ProjectFiles/NetSolution/FromPLCToModel.cs:78-89 | an existing same-named tag structure passes the cast at line 89: with links on, a PLC variable relinks it and the run completes |
| MirrorProperties.DimensionsChildSkipped | ProjectFiles/NetSolution/FromPLCToModel.cs:69-72 | a child that `IsArrayDimensionsVar` flags, whatever its kind, is skipped: the loop mirrors the rest as if it were absent |
| MirrorProperties.DimensionsNames | ProjectFiles/NetSolution/FromPLCToModel.cs:92 | the test lower-cases the name: "ArrayDimensions" is a dimensions variable and "Speed" is not |
| MirrorProperties.PlainRunCompletes | ProjectFiles/NetSolution/FromPLCToModel.cs:26-90 | with links off, a tree made only of tag structures and variables (`PlcTree`) is always mirrored to completion |
| MirrorProperties.PlainChildrenComplete | ProjectFiles/NetSolution/FromPLCToModel.cs:69-72 | the same for a list of children, dimensions variables allowed |
| MirrorProperties.FolderEndsRun | ProjectFiles/NetSolution/FromPLCToModel.cs:80-82 | a structure whose first child is a folder: the structure's object is added, the cast of the folder throws, and the run ends with that object added and the following variable not mirrored |
| MirrorProperties.MirrorObjectCreates | ProjectFiles/NetSolution/FromPLCToModel.cs:63-65 | a missing object is created under its prefixed and sanitized name and appended to the parent |
| MirrorProperties.MirrorObjectReuses | ProjectFiles/NetSolution/FromPLCToModel.cs:59-67 | an existing object with the prefixed name is reused and is still the one found afterwards |
| MirrorProperties.MirrorArray | ProjectFiles/NetSolution/FromPLCToModel.cs:31-38 | `IsTagStructureArray` holds and the structure array is flattened: its children are mirrored straight into the parent with the prefix "<array name>_" |
| MirrorProperties.MissingVariableAdded | ProjectFiles/NetSolution/FromPLCToModel.cs:80-87 | a missing variable is added under `Sanitize(name)` |
| MirrorProperties.StillMissing | ProjectFiles/NetSolution/FromPLCToModel.cs:94 | adding a node under another name does not make a missing name appear |
| MirrorProperties.SlashNameAddedEveryRun | ProjectFiles/NetSolution/FromPLCToModel.cs:77-86 | a variable whose name holds "/" is looked up unsanitized but added sanitized, so every run adds it again |
| MirrorProperties.TemplateVariableAddedEveryRun | ProjectFiles/NetSolution/FromPLCToModel.cs:48-55 | a variable inside a structure array is looked up with the array prefix but added without it, so every run adds it again |
| MirrorProperties.TemplateStep | ProjectFiles/NetSolution/FromPLCToModel.cs:84-86 | a variable inside an array is added with no prefix |
| MirrorProperties.ArrayTemplateFlattened | ProjectFiles/NetSolution/FromPLCToModel.cs:48-73 | a worked array of one empty structure and one variable: the run completes, and the parent gets the object "<array>_<structure>" and the unprefixed variable, in that order |
| MirrorProperties.FlattenSteps | ProjectFiles/NetSolution/FromPLCToModel.cs:48-73 | the same run written as two successive adds |
| MirrorProperties.TwoAdds | ProjectFiles/NetSolution/ImportExportTags.cs:110 | two successive adds to a childless parent give it exactly the two new nodes, in order |
| MirrorProperties.EmptyStructureAdded | ProjectFiles/NetSolution/FromPLCToModel.cs:63-65 | a missing empty structure becomes one new object under its prefixed name |
| MirrorProperties.MirrorArrayOfTwo | ProjectFiles/NetSolution/FromPLCToModel.cs:48-55 | mirroring a two-child array is mirroring its two children one after the other with the array prefix |
| DigitalAlarms.BitWidth | ProjectFiles/NetSolution/GenerateAlarms.cs:70-74 | 16 alarms exactly for the 16-bit integers, 32 exactly for the 32-bit ones, 1 for every other type |
| DigitalAlarms.Candidates | ProjectFiles/NetSolution/GenerateAlarms.cs:81-123 | a variable that is not a one-dimensional array gets exactly one alarm per bit of its type |
| DigitalAlarms.ElementBitAlarms | ProjectFiles/NetSolution/GenerateAlarms.cs:94-101 | the inner bit loop gives exactly one alarm per bit |
| DigitalAlarms.ElementWidth | ProjectFiles/NetSolution/GenerateAlarms.cs:86-102 | each array element gets 1, 16 or 32 alarms, and exactly 1 when it is a boolean |
| DigitalAlarms.ElementAlarms | ProjectFiles/NetSolution/GenerateAlarms.cs:86-102 | one element's alarms number exactly `ElementWidth` |
| DigitalAlarms.OnlyAddsTrans | ProjectFiles/NetSolution/GenerateAlarms.cs:34-40 | `OnlyAdds` (the store only grew and no existing node changed its kind) composes across steps |
| DigitalAlarms.PrepareContainer | ProjectFiles/NetSolution/GenerateAlarms.cs:164-171 | `GetVariableAlmsFolder`: the container exists in the resulting store, which grew from the old one without changing any node's kind |
| DigitalAlarms.InsertAlarm | ProjectFiles/NetSolution/GenerateAlarms.cs:131-136 | after the insertion an alarm of the candidate's name is in the container, and the store only grew |
| DigitalAlarms.InsertAlarms | ProjectFiles/NetSolution/GenerateAlarms.cs:81-123 | inserting the candidates in turn only grows the store |
| DigitalAlarms.GenerateFor | ProjectFiles/NetSolution/GenerateAlarms.cs:62-129 | `GenerateDigitalAlarm` only adds nodes |
| DigitalAlarms.Fetch | ProjectFiles/NetSolution/GenerateAlarms.cs:42-60 | `FetchNode` only adds nodes |
| DigitalAlarms.FetchAll | ProjectFiles/NetSolution/GenerateAlarms.cs:50-57 | the children loop only adds nodes |
| DigitalAlarms.InsertAlarmsStep | ProjectFiles/NetSolution/GenerateAlarms.cs:94-101 | inserting from candidate k on is inserting candidate k and then the rest |
| DigitalAlarms.FetchAllStep | ProjectFiles/NetSolution/GenerateAlarms.cs:50-57 | fetching from child i on is fetching child i and then the rest |
| DigitalAlarms.ArrayAlarmsLength | ProjectFiles/NetSolution/GenerateAlarms.cs:84-103 | `ArrayAlarms` of a one-dimensional array of n elements has n times `ElementWidth` alarms |
| DigitalAlarms.ArrayAlarmsSucc | ProjectFiles/NetSolution/GenerateAlarms.cs:84-103 | one more element appends exactly that element's alarms |
| DigitalAlarms.ArrayCandidateAt | ProjectFiles/NetSolution/GenerateAlarms.cs:84-103 | alarm k of an array: for booleans it names element k and links to that element; otherwise it names element k / w and bit k % w and links to that bit, where w is the bit width |
| DigitalAlarms.ArrayElementAt | ProjectFiles/NetSolution/GenerateAlarms.cs:84-103 | position q·width + j of the array's alarms is alarm j of element q |
| DigitalAlarms.InsertAlarmsSingle | ProjectFiles/NetSolution/GenerateAlarms.cs:99-100 | inserting one candidate is `InsertAlarm` |
| DigitalAlarms.InsertAlarmsAppend | ProjectFiles/NetSolution/GenerateAlarms.cs:84-103 | inserting two lists of candidates is inserting the first list and then the second |
| DigitalAlarms.GenerateAlarms.constructor | ProjectFiles/NetSolution/GenerateAlarms.cs:24 | the script starts on the given store |
| DigitalAlarms.GenerateAlarms.ClearAlarmsFolder | ProjectFiles/NetSolution/GenerateAlarms.cs:27-31 | the Alarms folder is remembered and left with no children |
| DigitalAlarms.GenerateAlarms.GenerateDigitalAlarms | ProjectFiles/NetSolution/GenerateAlarms.cs:34-40 | the store ends as `Fetch` of the starting node |
| DigitalAlarms.GenerateAlarms.FetchNode | ProjectFiles/NetSolution/GenerateAlarms.cs:42-60 | the store ends as `Fetch` of the node |
| DigitalAlarms.GenerateAlarms.GenerateDigitalAlarm | ProjectFiles/NetSolution/GenerateAlarms.cs:62-129 | the store ends as `GenerateFor` of the variable |
| DigitalAlarms.GenerateAlarms.AddArrayAlarms | ProjectFiles/NetSolution/GenerateAlarms.cs:81-104 | the array branch inserts exactly the variable's candidates, element by element |
| DigitalAlarms.GenerateAlarms.AddElementBits | ProjectFiles/NetSolution/GenerateAlarms.cs:94-101 | the bit loop inserts exactly one element's bit alarms |
| DigitalAlarms.GenerateAlarms.AddScalarAlarms | ProjectFiles/NetSolution/GenerateAlarms.cs:105-123 | the scalar branch inserts exactly the variable's candidates |
| DigitalAlarms.GenerateAlarms.GetVariableAlmsFolder | ProjectFiles/NetSolution/GenerateAlarms.cs:164-171 | returns the container `PrepareContainer` chooses and leaves its store; when no folder can be used, returns none and changes nothing |
| DigitalAlarms.GenerateAlarms.AddAlarm | ProjectFiles/NetSolution/GenerateAlarms.cs:131-136 | the store ends as `InsertAlarm` |
| AlarmProperties.CandidateCount | ProjectFiles/NetSolution/GenerateAlarms.cs:66-123 | a variable gets n·1 alarms for a boolean array and n·bits for an integer array of n elements, and bits alarms for every other shape |
| AlarmProperties.CandidateCountExamples | ProjectFiles/NetSolution/GenerateAlarms.cs:66-123 | a UInt16 scalar gets 16 alarms, a Boolean 1, an Int32[4] 128; a Double gets a single "_0" alarm linked to bit 0 |
| AlarmProperties.CandidateMessages | ProjectFiles/NetSolution/GenerateAlarms.cs:138-148 | every alarm's message equals its name, except a scalar boolean's, which adds "_0" |
| AlarmProperties.MessageIsName | ProjectFiles/NetSolution/GenerateAlarms.cs:131-148 | `AlarmMessage` with an index is `AlarmName` with the same index |
| AlarmProperties.CandidateLinks | ProjectFiles/NetSolution/GenerateAlarms.cs:88-120 | a boolean alarm links to the variable, or to element k; an integer alarm links (`BitLink`) to bit k % w of the variable, or of element k / w (an element that exists) |
| AlarmProperties.CandidateNamesDistinct | ProjectFiles/NetSolution/GenerateAlarms.cs:81-123 | the names of one variable's alarms are pairwise distinct |
| AlarmProperties.NameInjective | ProjectFiles/NetSolution/GenerateAlarms.cs:131-136 | two `AlarmName`s with the same shape of index are equal only for equal indices |
| AlarmProperties.SameSuffix | ProjectFiles/NetSolution/GenerateAlarms.cs:131-136 | equal names of the same shape have equal indices |
| AlarmProperties.NoUnderscore | ProjectFiles/NetSolution/GenerateAlarms.cs:131-136 | a written-out index never holds "_" |
| AlarmProperties.CutAtUnderscore | ProjectFiles/NetSolution/GenerateAlarms.cs:131-136 | "a_b" and "c_d" with underscore-free a and c are equal only when a = c and b = d |
| AlarmProperties.ContainerChoice | ProjectFiles/NetSolution/GenerateAlarms.cs:164-171 | a scalar boolean uses the Alarms folder; any other variable uses the existing folder `FolderName` ("<owner>_<variable>_alarms"), or gets a new empty folder of that name appended; an existing non-folder of that name means no container |
| AlarmProperties.AllPresentStable | ProjectFiles/NetSolution/GenerateAlarms.cs:157-162 | alarms present in a container stay present as the store grows |
| AlarmProperties.InsertAlarmsPresent | ProjectFiles/NetSolution/GenerateAlarms.cs:81-123 | after insertion every candidate's name is present in the container |
| AlarmProperties.InsertAlarmsSettled | ProjectFiles/NetSolution/GenerateAlarms.cs:157-162 | inserting candidates that are all present already changes nothing |
| AlarmProperties.InsertAlarmsFrame | ProjectFiles/NetSolution/GenerateAlarms.cs:81-123 | insertion adds at most one node per candidate and changes no node except the container |
| AlarmProperties.InsertAlarmsAdds | ProjectFiles/NetSolution/GenerateAlarms.cs:131-136 | every new node is a childless digital alarm under the container, and its name, message and link are those of one of the candidates |
| AlarmProperties.NewAlarmKept | ProjectFiles/NetSolution/GenerateAlarms.cs:131-136 | when the first candidate is new, it becomes the node with the next fresh id, under the container, and stays so |
| AlarmProperties.SettledStable | ProjectFiles/NetSolution/GenerateAlarms.cs:62-129 | a variable whose alarms are all in place stays so as the store grows |
| AlarmProperties.GenerateSettles | ProjectFiles/NetSolution/GenerateAlarms.cs:62-129 | after `GenerateDigitalAlarm`, the variable's alarms are all in place |
| AlarmProperties.SettledNoChange | ProjectFiles/NetSolution/GenerateAlarms.cs:62-129 | when they are all in place, `GenerateDigitalAlarm` changes nothing |
| AlarmProperties.CoveredStable | ProjectFiles/NetSolution/GenerateAlarms.cs:42-60 | "every variable below the node has its alarms" survives further additions |
| AlarmProperties.CoveredAllStable | ProjectFiles/NetSolution/GenerateAlarms.cs:50-57 | the same for a list of nodes |
| AlarmProperties.FetchCovers | ProjectFiles/NetSolution/GenerateAlarms.cs:42-60 | after `FetchNode`, every variable below the node has all its alarms |
| AlarmProperties.FetchAllCovers | ProjectFiles/NetSolution/GenerateAlarms.cs:50-57 | the same for a list of nodes |
| AlarmProperties.CoveredFetchNoChange | ProjectFiles/NetSolution/GenerateAlarms.cs:42-60 | when every variable below the node has its alarms, `FetchNode` changes nothing |
| AlarmProperties.CoveredAllFetchNoChange | ProjectFiles/NetSolution/GenerateAlarms.cs:50-57 | the same for a list of nodes |
| AlarmProperties.FetchIdempotent | ProjectFiles/NetSolution/GenerateAlarms.cs:34-40 | running the generation twice without clearing is the same as running it once |
| AlarmProperties.ClearEmpties | ProjectFiles/NetSolution/GenerateAlarms.cs:27-31 | after clearing, no name is found in the Alarms folder |
| Text.Split | ProjectFiles/NetSolution/ImportExportTags.cs:52 | `String.Split(";")` always yields at least one field |
| Text.SplitPieces | ProjectFiles/NetSolution/ImportExportTags.cs:56 | no field holds the separator |
| Text.SplitNoSep | ProjectFiles/NetSolution/ImportExportTags.cs:56 | a line without a separator is one field |
| Text.SplitAt | ProjectFiles/NetSolution/ImportExportTags.cs:56 | a separator after a separator-free prefix splits off that prefix |
| Text.SplitJoin | ProjectFiles/NetSolution/ImportExportTags.cs:305 | splitting the joined cells gives the cells back, when no cell holds the separator |
| Text.JoinSplit | ProjectFiles/NetSolution/ImportExportTags.cs:56 | joining the split fields gives the line back |
| Text.SplitNonEmpty | ProjectFiles/NetSolution/ImportExportTags.cs:249 | splitting with `RemoveEmptyEntries` gives non-empty pieces without a separator |
| Text.DropEmpty | ProjectFiles/NetSolution/ImportExportTags.cs:249 | the kept pieces are non-empty pieces of the input |
| Text.DropEmptyKeeps | ProjectFiles/NetSolution/ImportExportTags.cs:249 | when no piece is empty, nothing is dropped |
| Text.SplitNonEmptyJoin | ProjectFiles/NetSolution/ImportExportTags.cs:436-444 | a path of plain non-empty names splits back into those names |
| Text.NatToString | ProjectFiles/NetSolution/ImportExportTags.cs:371 | `uint.ToString()` is never empty |
| Text.NatToStringDigits | ProjectFiles/NetSolution/ImportExportTags.cs:371 | `uint.ToString()` is all decimal digits |
| Text.ParseNat | ProjectFiles/NetSolution/ImportExportTags.cs:81 | a number parses exactly when it is a non-empty string of digits |
| Text.DigitsValueOfNat | ProjectFiles/NetSolution/ImportExportTags.cs:371 | the digits written for n are digits and have the value n |
| Text.ParseNatToString | ProjectFiles/NetSolution/ImportExportTags.cs:371 | parsing a written number gives it back |
| Text.NatToStringInjective | ProjectFiles/NetSolution/GenerateAlarms.cs:131-136 | distinct numbers are written differently |
| Text.ParseInt | ProjectFiles/NetSolution/ImportExportTags.cs:154-157 | `Int32.Parse` on the forms it models: the text parses exactly when it is an optional "-" followed by at least one digit; a "-" value is never positive and any other never negative |
| Text.ParseIntToString | ProjectFiles/NetSolution/ImportExportTags.cs:378 | a written integer parses back to itself |
| Text.ParseInRange | ProjectFiles/NetSolution/ImportExportTags.cs:153-170 | `Int16.Parse` and the others accept only values within the type's range |
| Text.ParseUInt32 | ProjectFiles/NetSolution/ImportExportTags.cs:162-163 | `UInt32.Parse` accepts only values up to 4294967295 |
| Text.ReplaceChar | ProjectFiles/NetSolution/FromPLCToModel.cs:61 | the result replaces every occurrence of the character and keeps every other character |
| Text.ToLower | ProjectFiles/NetSolution/FromPLCToModel.cs:92 | lower-casing keeps the length, maps each ASCII capital to its small letter and keeps every other character |
| TagTable.DriverOfTypeName | ProjectFiles/NetSolution/ImportExportTags.cs:125-129 | a type name yields the driver whose tag class has that name (`DriverTypeName`), and none exactly when no driver's does |
| TagTable.Distinct | ProjectFiles/NetSolution/ImportExportTags.cs:358 | `Distinct()` keeps the same names without duplicates |
| TagTable.PropertyNames | ProjectFiles/NetSolution/ImportExportTags.cs:319-327 | the names are those of the declared properties that are not `IUAVariable`s, each once |
| TagTable.Filter | ProjectFiles/NetSolution/ImportExportTags.cs:322-325 | the names kept are exactly those of the properties that are not IUAVariables, and no more than were declared |
| TagTable.HeaderColumns | ProjectFiles/NetSolution/ImportExportTags.cs:343-349 | the header is the five fixed columns followed by the sample tag class's property names |
| TagTable.IndexOf | ProjectFiles/NetSolution/ImportExportTags.cs:259 | `Array.IndexOf`: -1 exactly when the key is missing, else the first position holding it |
| TagTable.Field | ProjectFiles/NetSolution/ImportExportTags.cs:446-449 | a cell is read exactly when the column is in the header and the row is long enough, and it is the cell at the column's position |
| TagTable.NetTypeOf | ProjectFiles/NetSolution/ImportExportTags.cs:493-498 | a name no data type carries has no .NET type |
| TagTable.GetOpcUaDataType | ProjectFiles/NetSolution/ImportExportTags.cs:456-491 | a data type is found exactly when the name has a .NET type |
| TagTable.ParseArrayDimensions | ProjectFiles/NetSolution/ImportExportTags.cs:203-218 | `SetTagArrayDimensions`: one or two 32-bit dimensions, and exactly one when the text has no "," |
| TagTable.OwnerSegments | ProjectFiles/NetSolution/ImportExportTags.cs:247-251 | the owner path is the non-empty path pieces without the first and the last |
| TagTable.ParseBool | ProjectFiles/NetSolution/ImportExportTags.cs:171-172 | `Boolean.Parse` accepts "true" and "false" in any case, and its value matches the text |
| TagTable.ParseProp | ProjectFiles/NetSolution/ImportExportTags.cs:143-179 | a cell is left unset exactly for an `IUAVariable`, an unhandled type or a `ValueRank` enumeration |
| TagTable.ImportProperty | ProjectFiles/NetSolution/ImportExportTags.cs:136-181 | one property step fails exactly when the property is writable, its column is in the header, and the cell is past the end of the row or does not parse; otherwise the property takes the value of its non-empty parsed cell, and every other property is kept |
| TagTable.Defaults | ProjectFiles/NetSolution/ImportExportTags.cs:125-128 | a fresh tag holds exactly the declared properties, each at its default |
| TagTable.Declared | ProjectFiles/NetSolution/ImportExportTags.cs:451 | `GetProperty(name)` finds a declared property of that name, and none exactly when none is declared |
| TagTable.PropOf | ProjectFiles/NetSolution/ImportExportTags.cs:454 | `GetPropertyValue`: a property the tag holds reads as its value, any other as null |
| TagExport.SampleTag | ProjectFiles/NetSolution/ImportExportTags.cs:308-317 | `GetOneOfTheTags` as written: whatever it returns is a tag |
| TagExport.FirstTag | ProjectFiles/NetSolution/ImportExportTags.cs:308-317 | the pre-order search for a tag: whatever it returns is a tag |
| TagExport.FirstTagIn | ProjectFiles/NetSolution/ImportExportTags.cs:311-315 | the same search over a list of children |
| TagExport.StructuresWhere | ProjectFiles/NetSolution/ImportExportTags.cs:279-280 | the `Where` filters: an item is kept exactly when it is in the input and is not a structure with (or, for the plain filter, without) array dimensions |
| TagExport.StructureRow | ProjectFiles/NetSolution/ImportExportTags.cs:381-397 | a structure's row is empty exactly when the header has fewer than five distinct columns; otherwise it has five cells, starting with the structure type and the name, with an empty data type |
| TagExport.TagRow | ProjectFiles/NetSolution/ImportExportTags.cs:362-380 | a tag's row is empty exactly when the header has fewer than five distinct columns or a property column its class does not declare (`AllDeclared` fails); otherwise it has one cell per distinct column, starting with the driver's tag class and the name |
| TagExport.PropertyInfo | ProjectFiles/NetSolution/ImportExportTags.cs:353-409 | `GetPropertyInfoFromTag`: a node that is neither a tag nor a structure gets an empty row; a non-empty row has between five and the number of distinct columns cells, the second being the node's name |
| TagExport.AllDeclaredStep | ProjectFiles/NetSolution/ImportExportTags.cs:374-379 | a declared column extends the declared prefix (`AllDeclared`); an undeclared one makes the row's reflection fail |
| TagExport.PropCells | ProjectFiles/NetSolution/ImportExportTags.cs:374-379 | one cell per property column |
| TagExport.PropCellsStep | ProjectFiles/NetSolution/ImportExportTags.cs:374-379 | column i's cell is the text of that property, after the cells of the columns before it |
| TagExport.RowLines | ProjectFiles/NetSolution/ImportExportTags.cs:287-289 | one line per item |
| TagExport.ExportFrom | ProjectFiles/NetSolution/ImportExportTags.cs:268-300 | the file is empty exactly when there is no sample tag; otherwise it is the header built from the sample's class, then one line per structure array, plain structure and tag |
| TagExport.Export | ProjectFiles/NetSolution/ImportExportTags.cs:268-300 | `WriteTagsToCsv` as written: the file is empty exactly when `GetOneOfTheTags` finds no tag, and otherwise starts with the header of that tag's class |
| TagExport.IntendedExport | ProjectFiles/NetSolution/ImportExportTags.cs:268-300 | the export with the corrected sample search: empty exactly when the search finds no tag, otherwise headed by that tag's class |
| TagProperties.RowRoundTrip | ProjectFiles/NetSolution/ImportExportTags.cs:302-306 | a written row splits back into its cells, when no cell holds ";" |
| TagProperties.BrowsePathJoin | ProjectFiles/NetSolution/ImportExportTags.cs:436-444 | `BrowsePath` is the names from the starting node down, joined by "/" |
| TagProperties.PathRoundTrip | ProjectFiles/NetSolution/ImportExportTags.cs:247-251 | the owner path read back from a written browse path is the names between the starting node and the node |
| TagProperties.OwnerOfPath | ProjectFiles/NetSolution/ImportExportTags.cs:247-257 | importing a written path walks down exactly those inner names from the starting node |
| TagProperties.ParseUInt32ToString | ProjectFiles/NetSolution/ImportExportTags.cs:81 | a written 32-bit count parses back to itself |
| TagProperties.NoSeparatorInNumber | ProjectFiles/NetSolution/ImportExportTags.cs:368-372 | a written number holds no character that is not a digit, so never ";", "," or "/" |
| TagProperties.ArrayLengthRoundTrip | ProjectFiles/NetSolution/ImportExportTags.cs:368-372 | `ArrayLengthText` of a tag reads back as its dimensions (only the first two are written) |
| TagProperties.StructureLengthRoundTrip | ProjectFiles/NetSolution/ImportExportTags.cs:388-396 | `StructureLengthText` reads back as the first dimension; a zero length or no dimension reads back as no dimension |
| TagProperties.DataTypeRoundTrip | ProjectFiles/NetSolution/ImportExportTags.cs:367 | a data type name written by `DataTypeName` reads back (through `OpcUaDataTypeOf`) as the same type, except Structure, which becomes BaseDataType |
| TagProperties.PropRoundTrip | ProjectFiles/NetSolution/ImportExportTags.cs:378 | a value written by `PropText` parses back to itself for every handled type except `ValueRank` |
| TagProperties.BoolTextsParse | ProjectFiles/NetSolution/ImportExportTags.cs:171-172 | the texts a boolean is written as, "True" and "False", are accepted by `Boolean.Parse` as true and false |
| TagProperties.DistinctOfDistinct | ProjectFiles/NetSolution/ImportExportTags.cs:358 | `Distinct` keeps a list that has no duplicates |
| TagProperties.DistinctKeepsPrefix | ProjectFiles/NetSolution/ImportExportTags.cs:358 | `Distinct` keeps a duplicate-free prefix in place |
| TagProperties.HeaderDistinct | ProjectFiles/NetSolution/ImportExportTags.cs:343-358 | the five fixed columns keep their places after `Distinct` |
| TagProperties.StructureRowCells | ProjectFiles/NetSolution/ImportExportTags.cs:381-397 | a structure's row is its type, name, path, an empty data type and its length |
| TagProperties.PropCellsAt | ProjectFiles/NetSolution/ImportExportTags.cs:374-379 | cell i is the text of property i |
| TagProperties.TagRowCells | ProjectFiles/NetSolution/ImportExportTags.cs:362-380 | a tag's row under its own header has one cell per column: the five fixed cells, then each property's text in header order |
| TagProperties.HeaderDeclared | ProjectFiles/NetSolution/ImportExportTags.cs:337-358 | every property column of a tag's own header is declared by its class |
| TagProperties.FoundKinds | ProjectFiles/NetSolution/ImportExportTags.cs:411-432 | the first list holds only tags and the second only structures, each with the names down to it |
| TagProperties.ChildrenFoundKinds | ProjectFiles/NetSolution/ImportExportTags.cs:415-430 | the same for the loop over the children |
| TagProperties.ChildFoundKinds | ProjectFiles/NetSolution/ImportExportTags.cs:417-429 | the same for one child |
| TagProperties.StructuresSplit | ProjectFiles/NetSolution/ImportExportTags.cs:279-280 | the arrays written first all have dimensions and the plain structures have none, and together they are every structure found, each written exactly once |
| TagProperties.WhereAppend | ProjectFiles/NetSolution/ImportExportTags.cs:279-280 | the filters keep the walk's order: filtering a concatenation filters each part in turn |
| TagProperties.WhereSplits | ProjectFiles/NetSolution/ImportExportTags.cs:279-280 | filtering structures into arrays and plain ones loses and duplicates none |
| TagProperties.FirstTagFinds | ProjectFiles/NetSolution/ImportExportTags.cs:308-317 | the corrected search finds a tag exactly when the tree holds one |
| TagProperties.FirstTagInFinds | ProjectFiles/NetSolution/ImportExportTags.cs:311-315 | the same for a list of children |
| TagProperties.FirstTagAgrees | ProjectFiles/NetSolution/ImportExportTags.cs:308-317 | whenever the code as written finds a tag, the corrected search finds the same one |
| TagProperties.TagsHaveSample | ProjectFiles/NetSolution/ImportExportTags.cs:273-276 | whenever the walk collects a tag, the corrected search finds a sample, so the intended export has its header; the search as written may miss it (`SampleTagMissesTag`) |
| TagProperties.TagsInChildren | ProjectFiles/NetSolution/ImportExportTags.cs:415-430 | the same for the children loop |
| TagProperties.HasTagInPrefix | ProjectFiles/NetSolution/ImportExportTags.cs:311-315 | a tag among the first children is a tag among all of them |
| TagProperties.HasTagInMember | ProjectFiles/NetSolution/ImportExportTags.cs:311-315 | a child holding a tag makes the children hold one |
| TagProperties.SampleTagMissesTag | ProjectFiles/NetSolution/ImportExportTags.cs:308-317 | a folder whose first child is an empty folder and whose second is a tag: `GetOneOfTheTags` as written finds no tag, so the program's export is empty although the walk lists the tag; the corrected search finds it and the intended export has a header and one row |
| TagProperties.ExportsAgree | ProjectFiles/NetSolution/ImportExportTags.cs:268-317 | whenever the code as written finds a sample tag, its export is the intended export |
| TagProperties.IntendedExportEmpty | ProjectFiles/NetSolution/ImportExportTags.cs:268-317 | the intended export is empty exactly when the tree holds no tag |
| TagProperties.Visit | ProjectFiles/NetSolution/ImportExportTags.cs:415-430 | the pre-order visit starting at a child begins with that child and its path |
| TagProperties.Select | ProjectFiles/NetSolution/ImportExportTags.cs:419-425 | the selection keeps exactly the tags, or exactly the structures, of a list |
| TagProperties.WalkIsPreOrder | ProjectFiles/NetSolution/ImportExportTags.cs:411-434 | `TagsAndStructures` (with `ChildrenFound`, `ChildFound` and `MergeTuples`) is exactly the pre-order visit below the node split by kind: every tag not below another tag and every structure, each with its path, in visiting order; tags are not descended into, everything else is |
| TagProperties.ChildrenPreOrder | ProjectFiles/NetSolution/ImportExportTags.cs:415-430 | the same for the loop over the children |
| TagProperties.ChildPreOrder | ProjectFiles/NetSolution/ImportExportTags.cs:417-429 | the same for one child |
| TagImport.StructureDims | ProjectFiles/NetSolution/ImportExportTags.cs:75-88 | a structure row has no dimension exactly when its length cell is empty, else one |
| TagImport.TagDims | ProjectFiles/NetSolution/ImportExportTags.cs:133 | a tag row has no dimension exactly when its length cell is empty, else one or two |
| TagImport.ParseRow | ProjectFiles/NetSolution/ImportExportTags.cs:68-99 | a parsed tag row always carries a driver tag |
| TagImport.ParseStructureRow | ProjectFiles/NetSolution/ImportExportTags.cs:73-88 | the structure branch yields a structure row |
| TagImport.ParseTagRow | ProjectFiles/NetSolution/ImportExportTags.cs:115-181 | the tag branch yields a driver tag row |
| TagImport.Walk | ProjectFiles/NetSolution/ImportExportTags.cs:254 | the owner walk ends at a node of the store |
| TagImport.ResolveOwner | ProjectFiles/NetSolution/ImportExportTags.cs:247-257 | `GetOwnerNode` ends at a node of the store |
| TagImport.ImportLine | ProjectFiles/NetSolution/ImportExportTags.cs:68-99 | a row keeps the store well-formed and the starting node in it |
| TagImport.ApplyRow | ProjectFiles/NetSolution/ImportExportTags.cs:101-113 | the same once the row is parsed |
| TagImport.PlaceRow | ProjectFiles/NetSolution/ImportExportTags.cs:183-195 | placing a row keeps every node there was |
| TagImport.ImportLines | ProjectFiles/NetSolution/ImportExportTags.cs:54-58 | the row loop keeps the store well-formed |
| TagImport.ImportLinesSnoc | ProjectFiles/NetSolution/ImportExportTags.cs:54-58 | one more line is imported after the lines before it |
| TagImport.ImportLinesStep | ProjectFiles/NetSolution/ImportExportTags.cs:54-58 | line i is imported after lines 1 to i - 1 |
| TagImport.Import | ProjectFiles/NetSolution/ImportExportTags.cs:44-66 | the import keeps the store well-formed |
| TagImportProperties.MissingTypeColumn | ProjectFiles/NetSolution/ImportExportTags.cs:72 | a header without "Type" makes every row change nothing |
| TagImportProperties.UnknownType | ProjectFiles/NetSolution/ImportExportTags.cs:125-129 | a type that is neither the structure type nor a driver's tag changes nothing |
| TagImportProperties.ShortPath | ProjectFiles/NetSolution/ImportExportTags.cs:249-250 | a browse path of fewer than two names changes nothing |
| TagImportProperties.BadArrayLength | ProjectFiles/NetSolution/ImportExportTags.cs:81 | a length cell that does not parse changes nothing |
| TagImportProperties.MissingCell | ProjectFiles/NetSolution/ImportExportTags.cs:446-449 | a row without a Name, BrowsePath, DataType (for a tag) or ArrayLength cell, whether the column is missing from the header or lies past the end of the row, changes nothing |
| TagImportProperties.BadPropertyCell | ProjectFiles/NetSolution/ImportExportTags.cs:136-172 | a tag row one of whose writable property cells lies past the end of the row or does not parse changes nothing |
| TagImportProperties.ImportPropertiesFails | ProjectFiles/NetSolution/ImportExportTags.cs:136-181 | `ImportProperties` fails exactly when one of the declared properties' cells fails |
| TagImportProperties.ImportedValues | ProjectFiles/NetSolution/ImportExportTags.cs:136-181 | after the property loop, the same properties exist; each declared one holds its parsed cell's value, or else its old value; undeclared ones are kept |
| TagImportProperties.ImportedFromDefaults | ProjectFiles/NetSolution/ImportExportTags.cs:125-181 | a fresh tag's properties: the loop fails exactly when one cell fails; otherwise the tag holds exactly the declared properties, each at its parsed cell's value or else its default |
| TagImportProperties.DeclaredFirst | ProjectFiles/NetSolution/ImportExportTags.cs:451-454 | `GetProperty(name)` finds the declaration bearing the name when names are distinct |
| TagImportProperties.RejectedUpdateCounted | ProjectFiles/NetSolution/ImportExportTags.cs:187-189 | an update that `TagsUpdate` rejects (the destination has another value type, or is no tag) changes no node but still counts as updated |
| TagImportProperties.CopyPropsSources | ProjectFiles/NetSolution/ImportExportTags.cs:232-238 | `CopyProps` loses no property, and every changed one holds the source's non-null value of a `Settable` property it looked at |
| TagImportProperties.UpdateChangesOnlyProperties | ProjectFiles/NetSolution/ImportExportTags.cs:220-243 | `TagsUpdate` (`UpdatedKind`) changes only the destination's properties, only when the value types match, and only to the source's settable non-null values |
| TagImportProperties.CopyPropsKeeps | ProjectFiles/NetSolution/ImportExportTags.cs:232-238 | a property already equal to the source's stays so |
| TagImportProperties.CopyPropsTwice | ProjectFiles/NetSolution/ImportExportTags.cs:232-238 | copying twice is copying once |
| TagImportProperties.CopyPropsSelf | ProjectFiles/NetSolution/ImportExportTags.cs:232-238 | copying a tag's own properties onto it changes nothing |
| TagImportProperties.UpdateIdempotent | ProjectFiles/NetSolution/ImportExportTags.cs:220-243 | updating twice from the same source is updating once |
| TagImportProperties.UpdateWithItself | ProjectFiles/NetSolution/ImportExportTags.cs:220-243 | updating a tag from itself changes nothing |
| TagImportProperties.AccountedTrans | ProjectFiles/NetSolution/ImportExportTags.cs:27-29 | "the store only grew, and the creation counters grew by exactly the nodes added" composes over rows |
| TagImportProperties.SetKindGrows | ProjectFiles/NetSolution/ImportExportTags.cs:236-240 | an update adds no node and keeps every name and child list |
| TagImportProperties.UpdateAccounted | ProjectFiles/NetSolution/ImportExportTags.cs:187-189 | an update adds no node and counts one update |
| TagImportProperties.AddAccounted | ProjectFiles/NetSolution/ImportExportTags.cs:110-111 | an add adds one node and counts one creation |
| TagImportProperties.ImportLineAccounted | ProjectFiles/NetSolution/ImportExportTags.cs:68-99 | a row changes existing nodes only in tag properties, adds exactly as many nodes as it counts creations, and counts at most one action |
| TagImportProperties.ImportLinesAccounted | ProjectFiles/NetSolution/ImportExportTags.cs:54-58 | the same over many rows: at most one counted action per row |
| TagImportProperties.ImportAccounted | ProjectFiles/NetSolution/ImportExportTags.cs:44-66 | over a whole file, the created and structure counters grow by exactly the number of nodes added, no counter goes down, existing nodes change only in tag properties, and at most one action is counted per data row |
| TagImportProperties.AddNewUnique | ProjectFiles/NetSolution/ImportExportTags.cs:106-111 | adding a name that is missing keeps sibling names unique |
| TagImportProperties.SetKindUnique | ProjectFiles/NetSolution/ImportExportTags.cs:187-189 | an update keeps sibling names unique |
| TagImportProperties.ImportLineUnique | ProjectFiles/NetSolution/ImportExportTags.cs:68-99 | a row keeps sibling names unique |
| TagImportProperties.PlaceRowUnique | ProjectFiles/NetSolution/ImportExportTags.cs:183-195 | placing a row keeps sibling names unique |
| TagImportProperties.ImportLinesUnique | ProjectFiles/NetSolution/ImportExportTags.cs:54-58 | the import never creates two siblings of the same name |
| TagImportProperties.WalkStable | ProjectFiles/NetSolution/ImportExportTags.cs:254 | an owner found by the walk is still the one found after the store grows |
| TagImportProperties.OwnerAgain | ProjectFiles/NetSolution/ImportExportTags.cs:247-257 | after importing a row, its owner resolves to the same node |
| TagImportProperties.UpdateAgain | ProjectFiles/NetSolution/ImportExportTags.cs:187-189 | an updated tag is found again and updating it again changes nothing |
| TagImportProperties.AddAgain | ProjectFiles/NetSolution/ImportExportTags.cs:106-111 | an added node is found again and, if it is a tag, updating it with itself changes nothing |
| TagImportProperties.ImportLineTwice | ProjectFiles/NetSolution/ImportExportTags.cs:68-99 | importing the same row twice leaves the store as after once, with no more creations |
| ImportExportTagsScript.ImportExportTags.constructor | ProjectFiles/NetSolution/ImportExportTags.cs:23-29 | the script starts with all three counters at zero |
| ImportExportTagsScript.ImportExportTags.ImportOrUpdateFromCsv | ProjectFiles/NetSolution/ImportExportTags.cs:44-66 | the store and counters end as `Import` of the file's lines |
| ImportExportTagsScript.ImportExportTags.CreateOrUpdateTagFromCsvLine | ProjectFiles/NetSolution/ImportExportTags.cs:68-99 | the store and counters end as `ImportLine` of the row |
| ImportExportTagsScript.ImportExportTags.GenerateTagStructure | ProjectFiles/NetSolution/ImportExportTags.cs:101-113 | without a path nothing changes; otherwise the structure row is applied |
| ImportExportTagsScript.ImportExportTags.GenerateTag | ProjectFiles/NetSolution/ImportExportTags.cs:115-201 | a row that fails to parse changes nothing; otherwise the tag row is applied |
| ImportExportTagsScript.ImportExportTags.AddOrUpdateTag | ProjectFiles/NetSolution/ImportExportTags.cs:183-195 | the owner is looked up and the tag row applied |
| ImportExportTagsScript.ImportExportTags.PlaceTag | ProjectFiles/NetSolution/ImportExportTags.cs:186-195 | the tag is added and counted as created, or the same-named child is updated and counted as updated |
| ImportExportTagsScript.ImportExportTags.ImportTagProperties | ProjectFiles/NetSolution/ImportExportTags.cs:135-181 | the properties loop yields exactly `ImportProperties` from the defaults |
| ImportExportTagsScript.ImportExportTags.TagsUpdate | ProjectFiles/NetSolution/ImportExportTags.cs:220-243 | the destination's kind ends as `UpdatedKind`, and nothing else changes |
| ImportExportTagsScript.ImportExportTags.GetOwnerNode | ProjectFiles/NetSolution/ImportExportTags.cs:247-257 | the result is `ResolveOwner` of the path |
| ImportExportTagsScript.ImportExportTags.WriteTagsToCsv | ProjectFiles/NetSolution/ImportExportTags.cs:268-300 | the lines written are `Export` of the starting node |
| ImportExportTagsScript.ImportExportTags.WriteTagsOnCsv | ProjectFiles/NetSolution/ImportExportTags.cs:287-289 | the loop appends exactly one joined row per item |
| ImportExportTagsScript.ImportExportTags.GetPropertyInfoFromTag | ProjectFiles/NetSolution/ImportExportTags.cs:353-409 | the row is exactly `PropertyInfo` of the item |
| ImportExportTagsScript.ImportExportTags.GetTagsAndStructures | ProjectFiles/NetSolution/ImportExportTags.cs:411-432 | the recursive walk returns exactly `TagsAndStructures` |

## Left out

- File I/O is not modelled. The import reads the file as a list of lines, and the export returns its lines. The UTF-16 encoding and the file creation (ImportExportTags.cs:272, 282-284) are not modelled.
- `RetrieveParameters` (ImportExportTags.cs:261-266) is not modelled. The starting node and the CSV location are parameters instead.
- Logging is not modelled. This covers every `Log.*` call and `CheckDatabinds` (FromPLCToModel.cs:96-104), which only logs.
- Exceptions are modelled as their effect, never as messages. In the import, a row that fails changes nothing: its tag is built completely before it is added, or before its properties are copied. In the alarm generation, the variable whose folder cannot be used is skipped. In the export, a failing row is written empty, and a missing sample tag leaves the file empty. In the mirror, the run stops at the exception and keeps every node it added before; the model returns that store together with a flag saying whether the run completed.
- FromPlcToModel.FromPLCToModel.GenerateNodesIntoModel: requires the Model folder to exist. The case where `Project.Current.Get<Folder>("Model")` yields null (FromPLCToModel.cs:20) is not modelled.
- The host's path syntax for dynamic links is abstracted. A link is written "@<node id>", with "[i]" for an array element. Only the ".<bit>" suffix added by `AddBitDynamicLink` is modelled as the code writes it.
- Driver tag classes are known only through reflection, so they are replaced by a schema parameter. For each driver it gives the declared properties, with type, writability and default. Inherited properties are not distinguished from declared ones.
- The names that `DataTypesHelper.GetNetTypeByDataTypeName` knows are assumed to be the standard OPC UA built-in type names. The helper itself is not part of this model.
- `GetPropertiesNamesFromTagType` builds a `HashSet`, and its iteration order is taken to be declaration order.
- Double and Single properties are treated as "other". Floating point is out of scope, so these cells are not parsed on import.
- `Enum.Parse` is modelled on enumeration member names only. .NET number parsing is modelled without its leniencies: surrounding whitespace, a leading "+" and numeric enumeration values are not accepted.
- Text.ParseInt: accepts only an optional "-" followed by decimal digits, with no range check of its own (the callers check the range). This is narrower than `Int32.Parse`.
- Text.ToLower: folds only the ASCII capitals, not the rest of Unicode, and ignores culture. `Boolean.Parse` (case-insensitive "true"/"false") and `IsArrayDimentionsVar` (FromPLCToModel.cs:92, which looks for "arraydimen") are modelled on that folding, so a name whose non-ASCII or culture-specific letters would lower-case to one of the letters compared is not modelled.
- TagProperties.PropRoundTrip: stated only for non-empty written text and not for `ValueRank`. Empty cells are skipped on import, and `ValueRank` is skipped by the code.
- The `int` counters (ImportExportTags.cs:27-29) are unbounded naturals. 32-bit overflow is not modelled.
- The re-`Add` at GenerateAlarms.cs:169 of a folder that is already a child is modelled as no change.
- A child under the alarm folder name that is not a folder: the typed `Get<Folder>` yields nothing, and the variable is then skipped. This is the effect of the exception caught at GenerateAlarms.cs:125-128.
- The code counts a rejected update, and the model follows the code. `TagsUpdate` returns early on a type mismatch, but `tagsUpdated++` (ImportExportTags.cs:188-189) still runs, so the row counts as updated.
- The export's starting node is a value tree: the store is read, not written. The import's starting node is a node of the store.
- The generic overloads `GetTagPropertiesNames<T>` and `GenerateCsvHeader<T>` (ImportExportTags.cs:331-335, 351) are not modelled. They are not called by the scripts.

## Findings

| source | as written | input that shows it | evidently intended | confidence | as-written member | corrected member |
|---|---|---|---|---|---|---|
| ProjectFiles/NetSolution/ImportExportTags.cs:308-317 | `GetOneOfTheTags` returns from inside its loop after looking only at the first child, at every level | a starting folder whose first child is an empty folder and whose second child is a tag: no tag is found, so the header cannot be built and the file stays empty, yet the export's walk lists the tag | a pre-order search for the first tag below the starting node | not executed | TagExport.Export, TagProperties.SampleTagMissesTag | TagExport.IntendedExport, TagProperties.IntendedExportEmpty |
