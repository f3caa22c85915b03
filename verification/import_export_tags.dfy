/**
 * The `ImportExportTags` script: it exports the tags and tag structures
 * below a starting node as a ";"-separated table, and imports such a table
 * back, adding missing structures and tags and updating existing tags, while
 * counting what it did.
 */
module ImportExportTagsScript {
  import opened Wrappers
  import opened Text
  import opened Nodes
  import opened TagTable
  import opened TagImport
  import opened TagExport

  class ImportExportTags {
    /** The project the table is imported into. */
    const space: AddressSpace
    /** The driver tag classes' properties. */
    const schema: Schema
    /** `startingNode`, as far as import goes: the node every browse path starts at. */
    const startingNode: NodeId
    var tagsCreated: nat
    var tagsUpdated: nat
    var tagStructuresCreated: nat

    ghost function Now(): Progress
      reads this, space
    {
      Progress(space.State(), Counters(tagsCreated, tagsUpdated, tagStructuresCreated))
    }

    ghost predicate Ready()
      reads this, space
    {
      Valid(space.State()) && startingNode in space.nodes
    }

    constructor (space: AddressSpace, schema: Schema, startingNode: NodeId)
      requires Valid(space.State()) && startingNode in space.nodes
      ensures this.space == space && this.schema == schema && this.startingNode == startingNode
      ensures Ready() && Now() == Progress(space.State(), Counters(0, 0, 0))
    {
      this.space := space;
      this.schema := schema;
      this.startingNode := startingNode;
      tagsCreated := 0;
      tagsUpdated := 0;
      tagStructuresCreated := 0;
    }

    // -------------------------------------------------------------------------
    // Import
    // -------------------------------------------------------------------------

    /** `ImportOrUpdateFromCsv`, the file given as its lines. */
    method ImportOrUpdateFromCsv(lines: seq<string>)
      requires Ready()
      modifies this, space
      ensures Ready()
      ensures Now() == Import(schema, old(Now()), startingNode, lines)
    {
      if |lines| == 0 {
        return;
      }
      ghost var p := Now();
      var header := Split(lines[0], Separator);
      var i := 1;
      while i < |lines|
        invariant 1 <= i <= |lines|
        invariant Ready()
        invariant Now() == ImportLines(schema, p, startingNode, header, lines[1..i])
      {
        ImportLinesStep(schema, p, startingNode, header, lines, i);
        var values := Split(lines[i], Separator);
        CreateOrUpdateTagFromCsvLine(values, header);
        i := i + 1;
      }
      assert lines[1..i] == lines[1..];
    }

    /** `CreateOrUpdateTagFromCsvLine`: a structure row or a tag row; a failure anywhere leaves everything unchanged. */
    method CreateOrUpdateTagFromCsvLine(values: seq<string>, header: seq<string>)
      requires Ready()
      modifies this, space
      ensures Ready()
      ensures Now() == ImportLine(schema, old(Now()), startingNode, header, values)
    {
      var tagType := Field(values, header, FixedColumns[0]);
      if tagType.None? {
        return;
      }
      if tagType.value == TagStructureTypeName {
        var arrayDim := Field(values, header, FixedColumns[4]);
        if arrayDim.None? {
          return;
        }
        var name := Field(values, header, FixedColumns[1]);
        if name.None? {
          return;
        }
        var dims := StructureDims(arrayDim.value);
        if dims.None? {
          return;
        }
        GenerateTagStructure(values, header, name.value, dims.value);
      } else {
        GenerateTag(values, header, tagType.value);
      }
    }

    /** `GenerateTagStructure`: the structure is added under its owner unless a child of that name is there already. */
    method GenerateTagStructure(values: seq<string>, header: seq<string>, name: string, dims: seq<nat>)
      requires Ready()
      modifies this, space
      ensures Ready()
      ensures Now() == match Field(values, header, FixedColumns[2])
                       case None => old(Now())
                       case Some(path) => ApplyRow(schema, old(Now()), startingNode, StructureRow(name, path, dims))
    {
      var path := Field(values, header, FixedColumns[2]);
      if path.None? {
        return;
      }
      var owner := GetOwnerNode(path.value);
      if owner.None? {
        return;
      }
      var existing := space.Get(owner.value, name);
      if existing.None? {
        var _ := space.Add(owner.value, name, TagStructure(dims, ""));
        tagStructuresCreated := tagStructuresCreated + 1;
      }
    }

    /**
     * `GenerateTag`: the tag is made from the row's cells and properties,
     * then added under its owner, or else used to update the same-named
     * child, which counts as updated in every case.
     */
    method GenerateTag(values: seq<string>, header: seq<string>, typeName: string)
      requires Ready()
      modifies this, space
      ensures Ready()
      ensures Now() == match ParseTagRow(schema, header, values, typeName)
                       case None => old(Now())
                       case Some(row) => ApplyRow(schema, old(Now()), startingNode, row)
    {
      var name := Field(values, header, FixedColumns[1]);
      var path := Field(values, header, FixedColumns[2]);
      var dataTypeName := Field(values, header, FixedColumns[3]);
      var arrayLength := Field(values, header, FixedColumns[4]);
      if name.None? || path.None? || dataTypeName.None? || arrayLength.None? {
        return;
      }
      var driver := DriverOfTypeName(typeName);
      if driver.None? {
        return;
      }
      var dataType := GetOpcUaDataType(dataTypeName.value);
      if dataType.None? {
        return;
      }
      var dims := TagDims(arrayLength.value);
      if dims.None? {
        return;
      }
      var props := ImportTagProperties(schema(driver.value), header, values);
      if props.None? {
        return;
      }
      var tag := Tag(driver.value, dataType.value, dims.value, ValueType(dataType.value, |dims.value|), props.value, "");
      AddOrUpdateTag(name.value, path.value, tag);
    }

    /** The end of `GenerateTag`: the owner lookup, then the tag is placed under the owner. */
    method AddOrUpdateTag(name: string, path: string, tag: Kind)
      requires Ready() && tag.Tag?
      modifies this, space
      ensures Ready()
      ensures Now() == ApplyRow(schema, old(Now()), startingNode, TagRow(name, path, tag))
    {
      var owner := GetOwnerNode(path);
      if owner.None? {
        return;
      }
      PlaceTag(owner.value, name, path, tag);
    }

    /** The tag is added under its owner, or else the same-named child is updated, which counts as updated in every case. */
    method PlaceTag(owner: NodeId, name: string, path: string, tag: Kind)
      requires Ready() && owner in space.nodes && tag.Tag?
      modifies this, space
      ensures Ready()
      ensures Now() == PlaceRow(schema, old(Now()), owner, TagRow(name, path, tag))
    {
      var existing := space.Get(owner, name);
      if existing.Some? {
        TagsUpdate(existing.value, tag);
        tagsUpdated := tagsUpdated + 1;
      } else {
        var _ := space.Add(owner, name, tag);
        tagsCreated := tagsCreated + 1;
      }
    }

    /**
     * The property loop of `GenerateTag`: each declared property in turn is
     * skipped or set from its cell, starting from the defaults; a cell that
     * does not parse ends the row.
     */
    method ImportTagProperties(decls: seq<PropertyDecl>, header: seq<string>, values: seq<string>)
      returns (props: Option<map<string, PropValue>>)
      ensures props == ImportProperties(Defaults(decls), decls, header, values)
    {
      var current := Defaults(decls);
      var i := 0;
      while i < |decls|
        invariant 0 <= i <= |decls|
        invariant ImportProperties(Defaults(decls), decls, header, values) == ImportProperties(current, decls[i..], header, values)
      {
        assert decls[i..][1..] == decls[i + 1..];
        var next := ImportProperty(current, decls[i], header, values);
        if next.None? {
          return None;
        }
        current := next.value;
        i := i + 1;
      }
      return Some(current);
    }

    /**
     * `TagsUpdate(destination, source)`: when the destination is a driver
     * tag whose value has the source's type, the source's non-null
     * properties are set on it one by one until one cannot be set.
     */
    method TagsUpdate(dest: NodeId, src: Kind)
      requires Valid(space.State()) && dest in space.nodes && src.Tag?
      modifies space
      ensures space.State() == SetKind(old(space.State()), dest, UpdatedKind(schema, old(space.nodes[dest].kind), src))
    {
      ghost var s0 := space.State();
      var d := space.nodes[dest].kind;
      assert SetKind(s0, dest, d) == s0;
      if !d.Tag? || d.valueType != src.valueType {
        return;
      }
      var srcDecls := schema(src.driver);
      var destDecls := schema(d.driver);
      var names := PropertyNames(srcDecls);
      var props := d.props;
      var i := 0;
      while i < |names|
        invariant 0 <= i <= |names|
        invariant space.State() == SetKind(s0, dest, d.(props := props))
        invariant CopyProps(srcDecls, destDecls, d.props, src.props, names) == CopyProps(srcDecls, destDecls, props, src.props, names[i..])
      {
        assert names[i..][1..] == names[i + 1..];
        var v := PropOf(src.props, names[i]);
        if v != Null {
          if !Settable(destDecls, srcDecls, names[i]) {
            return;
          }
          SetKindTwice(s0, dest, d.(props := props), d.(props := props[names[i] := v]));
          props := props[names[i] := v];
          space.Update(dest, d.(props := props));
        }
        i := i + 1;
      }
    }

    /** `GetOwnerNode`: the path's inner names looked up one after the other from the starting node. */
    method GetOwnerNode(path: string) returns (owner: Option<NodeId>)
      requires Ready()
      ensures owner == ResolveOwner(space.State(), startingNode, path)
    {
      var names := OwnerSegments(path);
      if names.None? {
        return None;
      }
      var segments := names.value;
      var current := startingNode;
      var i := 0;
      while i < |segments|
        invariant 0 <= i <= |segments| && current in space.nodes
        invariant Walk(space.State(), startingNode, segments) == Walk(space.State(), current, segments[i..])
      {
        assert segments[i..][1..] == segments[i + 1..];
        var next := space.Get(current, segments[i]);
        if next.None? {
          return None;
        }
        current := next.value;
        i := i + 1;
      }
      return Some(current);
    }

    // -------------------------------------------------------------------------
    // Export
    // -------------------------------------------------------------------------

    /** `WriteTagsToCsv(start)`, the file given back as its lines. */
    method WriteTagsToCsv(start: Tree) returns (lines: seq<string>)
      ensures lines == Export(schema, start)
    {
      var sample := SampleTag(start);
      if sample.None? {
        return [];
      }
      var columns := HeaderColumns(schema, sample.value.kind.driver);
      var found := GetTagsAndStructures(start, [start.name]);
      var arrays := StructuresWhere(found.structures, true);
      var plain := StructuresWhere(found.structures, false);
      lines := [Join(columns, Separator)];
      lines := WriteTagsOnCsv(lines, arrays, columns);
      lines := WriteTagsOnCsv(lines, plain, columns);
      lines := WriteTagsOnCsv(lines, found.tags, columns);
    }

    /** One of the `foreach` loops of `WriteTagsToCsv`: a line per item, after the lines written so far. */
    method WriteTagsOnCsv(written: seq<string>, items: seq<Item>, columns: seq<string>) returns (lines: seq<string>)
      ensures lines == written + RowLines(schema, items, columns)
    {
      lines := written;
      var i := 0;
      while i < |items|
        invariant 0 <= i <= |items|
        invariant lines == written + RowLines(schema, items[..i], columns)
      {
        assert items[..i + 1][..i] == items[..i];
        var row := GetPropertyInfoFromTag(items[i], columns);
        lines := lines + [Join(row, Separator)];
        i := i + 1;
      }
      assert items[..i] == items;
    }

    /** `GetPropertyInfoFromTag`: the cells of an item's row, in column order. */
    method GetPropertyInfoFromTag(x: Item, columns: seq<string>) returns (row: seq<string>)
      ensures row == PropertyInfo(schema, x, columns)
    {
      var props := Distinct(columns);
      var k := x.node.kind;
      if !(k.Tag? || k.TagStructure?) || |props| < 5 {
        return [];
      }
      if k.TagStructure? {
        return [TagStructureTypeName, x.node.name, BrowsePath(x.names), "", StructureLengthText(k.dims)];
      }
      var fixed := [DriverTypeName(k.driver), x.node.name, BrowsePath(x.names), DataTypeName(k.dataType), ArrayLengthText(k.dims)];
      row := fixed;
      var i := 5;
      while i < |props|
        invariant 5 <= i <= |props|
        invariant AllDeclared(schema(k.driver), props[5..i])
        invariant row == fixed + PropCells(k.props, props[5..i])
      {
        AllDeclaredStep(schema(k.driver), props, i);
        if Declared(schema(k.driver), props[i]).None? {
          return [];
        }
        PropCellsStep(k.props, props, i);
        row := row + [PropText(PropOf(k.props, props[i]))];
        i := i + 1;
      }
      assert props[5..i] == props[5..];
    }

    /** `GetTagsAndStructures(node)`, `names` being the names from the starting node down to `node`. */
    method GetTagsAndStructures(node: Tree, names: seq<string>) returns (found: Found)
      ensures found == TagsAndStructures(node, names)
      decreases node
    {
      var children := node.children;
      found := Found([], []);
      var i := 0;
      while i < |children|
        invariant 0 <= i <= |children|
        invariant found == ChildrenFound(children[..i], names)
      {
        assert children[..i + 1][..i] == children[..i];
        var t := children[i];
        var item := Item(t, names + [t.name]);
        if t.kind.Tag? {
          found := found.(tags := found.tags + [item]);
        } else if t.kind.TagStructure? {
          found := found.(structures := found.structures + [item]);
          var sub := GetTagsAndStructures(t, names + [t.name]);
          found := MergeTuples(found, sub);
        } else {
          var sub := GetTagsAndStructures(t, names + [t.name]);
          found := MergeTuples(found, sub);
        }
        i := i + 1;
      }
      assert children[..i] == children;
    }
  }
}
