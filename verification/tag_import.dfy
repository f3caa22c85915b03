/**
 * What `ImportOrUpdateFromCsv` does to the project: each row after the
 * header either adds a tag structure, adds a tag, updates an existing tag,
 * or (when anything about it fails) changes nothing.
 */
module TagImport {
  import opened Wrappers
  import opened Text
  import opened Nodes
  import opened TagTable

  /** A row as `CreateOrUpdateTagFromCsvLine` reads it, before the owner is looked up. */
  datatype Row =
    | StructureRow(name: string, path: string, dims: seq<nat>)
    | TagRow(name: string, path: string, tag: Kind)

  /** The counters `tagsCreated`, `tagsUpdated` and `tagStructuresCreated`. */
  datatype Counters = Counters(created: nat, updated: nat, structures: nat)

  /** The project and the counters, as the row loop carries them. */
  datatype Progress = Progress(space: Space, counters: Counters)

  /** The dimensions of a tag structure row: none for an empty cell, else the one parsed. */
  function StructureDims(cell: string): (r: Option<seq<nat>>)
    ensures r.Some? ==> |r.value| <= 1 && (|r.value| == 0 <==> cell == "")
  {
    if cell == "" then Some([])
    else
      var d :- ParseUInt32(cell);
      Some([d])
  }

  /** The dimensions of a tag row: none for an empty cell, else `SetTagArrayDimensions`. */
  function TagDims(cell: string): (r: Option<seq<nat>>)
    ensures r.Some? ==> |r.value| <= 2 && (|r.value| == 0 <==> cell == "")
  {
    if cell == "" then Some([]) else ParseArrayDimensions(cell)
  }

  /**
   * The cells of a row read into a structure or a tag; `None` for every
   * failure before the owner lookup: a missing column, an unknown type, data
   * type or driver, a malformed number.
   */
  function ParseRow(schema: Schema, header: seq<string>, values: seq<string>): (r: Option<Row>)
    ensures r.Some? && r.value.TagRow? ==> r.value.tag.Tag?
  {
    var typeName :- Field(values, header, FixedColumns[0]);
    if typeName == TagStructureTypeName then ParseStructureRow(header, values)
    else ParseTagRow(schema, header, values, typeName)
  }

  /** The structure branch: the array length, the name, the dimensions, the path. */
  function ParseStructureRow(header: seq<string>, values: seq<string>): (r: Option<Row>)
    ensures r.Some? ==> r.value.StructureRow?
  {
    var arrayDim :- Field(values, header, FixedColumns[4]);
    var name :- Field(values, header, FixedColumns[1]);
    var dims :- StructureDims(arrayDim);
    var path :- Field(values, header, FixedColumns[2]);
    Some(StructureRow(name, path, dims))
  }

  /** `GenerateTag` up to the owner lookup: the cells, the driver, the data type, the dimensions, the properties. */
  function ParseTagRow(schema: Schema, header: seq<string>, values: seq<string>, typeName: string): (r: Option<Row>)
    ensures r.Some? ==> r.value.TagRow? && r.value.tag.Tag?
  {
    var name :- Field(values, header, FixedColumns[1]);
    var path :- Field(values, header, FixedColumns[2]);
    var dataTypeName :- Field(values, header, FixedColumns[3]);
    var arrayLength :- Field(values, header, FixedColumns[4]);
    var driver :- DriverOfTypeName(typeName);
    var dataType :- GetOpcUaDataType(dataTypeName);
    var dims :- TagDims(arrayLength);
    var props :- ImportProperties(Defaults(schema(driver)), schema(driver), header, values);
    Some(TagRow(name, path, Tag(driver, dataType, dims, ValueType(dataType, |dims|), props, "")))
  }

  /** The `foreach` of `GetOwnerNode`: from `from`, one child lookup per name; a missing child ends the walk. */
  function Walk(s: Space, from: NodeId, names: seq<string>): (r: Option<NodeId>)
    requires Valid(s) && from in s.nodes
    ensures r.Some? ==> r.value in s.nodes
    decreases |names|
  {
    if |names| == 0 then Some(from)
    else
      match FindChild(s, from, names[0])
      case None => None
      case Some(c) => Walk(s, c, names[1..])
  }

  /** `GetOwnerNode(start, path)`: the owner the path names, or `None` when the walk throws. */
  function ResolveOwner(s: Space, start: NodeId, path: string): (r: Option<NodeId>)
    requires Valid(s) && start in s.nodes
    ensures r.Some? ==> r.value in s.nodes
  {
    var names :- OwnerSegments(path);
    Walk(s, start, names)
  }

  /**
   * Whether `SetPropertyValue(destination, name, v)` succeeds: the
   * destination's class declares a writable property of that name and of the
   * type the value has in the source tag's class.
   */
  predicate Settable(destDecls: seq<PropertyDecl>, srcDecls: seq<PropertyDecl>, name: string)
  {
    match Declared(destDecls, name)
    case None => false
    case Some(d) => d.canWrite && Declared(srcDecls, name).Some? && Declared(srcDecls, name).value.ptype == d.ptype
  }

  /**
   * The `foreach` of `TagsUpdate`: each non-null property of the source,
   * by name, is set on the destination; the first one that cannot be set
   * throws and ends the copy, keeping what was set before it.
   */
  function CopyProps(srcDecls: seq<PropertyDecl>, destDecls: seq<PropertyDecl>, props: map<string, PropValue>,
                     srcProps: map<string, PropValue>, names: seq<string>): map<string, PropValue>
    decreases |names|
  {
    if |names| == 0 then props
    else
      var v := PropOf(srcProps, names[0]);
      if v == Null then CopyProps(srcDecls, destDecls, props, srcProps, names[1..])
      else if Settable(destDecls, srcDecls, names[0]) then CopyProps(srcDecls, destDecls, props[names[0] := v], srcProps, names[1..])
      else props
  }

  /**
   * `TagsUpdate(destination, source)` on the destination's kind: only a
   * driver tag whose value has the source's runtime type takes properties;
   * any other node is left as it is (a mismatch is rejected, a non-variable
   * fails the cast, a plain variable fails on the first property set).
   */
  function UpdatedKind(schema: Schema, dest: Kind, src: Kind): Kind
    requires src.Tag?
  {
    if dest.Tag? && dest.valueType == src.valueType then
      dest.(props := CopyProps(schema(src.driver), schema(dest.driver), dest.props, src.props, PropertyNames(schema(src.driver))))
    else dest
  }

  /**
   * `CreateOrUpdateTagFromCsvLine`: a row that fails leaves everything as it
   * was; a structure is added when its owner has no child of that name; a
   * tag is added, or else the same-named child is updated and counted as
   * updated whatever `TagsUpdate` made of it.
   */
  function ImportLine(schema: Schema, p: Progress, start: NodeId, header: seq<string>, values: seq<string>): (r: Progress)
    requires Valid(p.space) && start in p.space.nodes
    ensures Valid(r.space) && start in r.space.nodes
  {
    match ParseRow(schema, header, values)
    case None => p
    case Some(row) => ApplyRow(schema, p, start, row)
  }

  /** A parsed row: the owner lookup, then an add or an update. */
  function ApplyRow(schema: Schema, p: Progress, start: NodeId, row: Row): (r: Progress)
    requires Valid(p.space) && start in p.space.nodes
    requires row.TagRow? ==> row.tag.Tag?
    ensures Valid(r.space) && start in r.space.nodes
  {
    match ResolveOwner(p.space, start, row.path)
    case None => p
    case Some(owner) => PlaceRow(schema, p, owner, row)
  }

  /** A parsed row under its owner: a structure or a tag added, or the same-named child updated. */
  function PlaceRow(schema: Schema, p: Progress, owner: NodeId, row: Row): (r: Progress)
    requires Valid(p.space) && owner in p.space.nodes
    requires row.TagRow? ==> row.tag.Tag?
    ensures Valid(r.space) && p.space.nodes.Keys <= r.space.nodes.Keys
  {
    var s := p.space;
    var c := p.counters;
    match FindChild(s, owner, row.name)
    case Some(dest) =>
      if row.StructureRow? then p
      else Progress(SetKind(s, dest, UpdatedKind(schema, s.nodes[dest].kind, row.tag)), c.(updated := c.updated + 1))
    case None =>
      if row.StructureRow? then Progress(AddNew(s, owner, row.name, TagStructure(row.dims, "")), c.(structures := c.structures + 1))
      else Progress(AddNew(s, owner, row.name, row.tag), c.(created := c.created + 1))
  }

  /** The `while` over the rows after the header, each split on ";". */
  function ImportLines(schema: Schema, p: Progress, start: NodeId, header: seq<string>, lines: seq<string>): (r: Progress)
    requires Valid(p.space) && start in p.space.nodes
    ensures Valid(r.space) && start in r.space.nodes
    decreases |lines|
  {
    if |lines| == 0 then p
    else
      var before := ImportLines(schema, p, start, header, lines[..|lines| - 1]);
      ImportLine(schema, before, start, header, Split(lines[|lines| - 1], Separator))
  }

  /** One more line is one more row after those before it. */
  lemma ImportLinesSnoc(schema: Schema, p: Progress, start: NodeId, header: seq<string>, lines: seq<string>, line: string)
    requires Valid(p.space) && start in p.space.nodes
    ensures ImportLines(schema, p, start, header, lines + [line])
         == ImportLine(schema, ImportLines(schema, p, start, header, lines), start, header, Split(line, Separator))
  {
    assert (lines + [line])[..|lines|] == lines;
  }

  /** Row `i` of the file is imported after rows `1` to `i - 1`. */
  lemma ImportLinesStep(schema: Schema, p: Progress, start: NodeId, header: seq<string>, lines: seq<string>, i: nat)
    requires Valid(p.space) && start in p.space.nodes && 1 <= i < |lines|
    ensures ImportLines(schema, p, start, header, lines[1..i + 1])
         == ImportLine(schema, ImportLines(schema, p, start, header, lines[1..i]), start, header, Split(lines[i], Separator))
  {
    assert lines[1..i + 1] == lines[1..i] + [lines[i]];
    ImportLinesSnoc(schema, p, start, header, lines[1..i], lines[i]);
  }

  /** `ImportOrUpdateFromCsv` over the lines of the file: nothing for an empty file, else the first line is the header. */
  function Import(schema: Schema, p: Progress, start: NodeId, lines: seq<string>): (r: Progress)
    requires Valid(p.space) && start in p.space.nodes
    ensures Valid(r.space) && start in r.space.nodes
  {
    if |lines| == 0 then p
    else ImportLines(schema, p, start, Split(lines[0], Separator), lines[1..])
  }
}
