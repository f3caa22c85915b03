/**
 * What `WriteTagsToCsv` writes for a starting node: a header built from one
 * sample tag, then one row per structure array, per plain structure and per
 * tag found below the starting node, in that order.
 */
module TagExport {
  import opened Wrappers
  import opened Text
  import opened Nodes
  import opened TagTable

  /** A node the export walk found, with the names from the starting node down to it. */
  datatype Item = Item(node: Tree, names: seq<string>)

  /** The pair of lists `GetTagsAndStructures` returns. */
  datatype Found = Found(tags: seq<Item>, structures: seq<Item>)

  /** `MergeTuples`: both lists concatenated. */
  function MergeTuples(a: Found, b: Found): Found
  {
    Found(a.tags + b.tags, a.structures + b.structures)
  }

  /**
   * `GetTagsAndStructures(t)`, `names` being the names down to `t`: the
   * tags and structures below `t` (not `t` itself), in pre-order.
   */
  function TagsAndStructures(t: Tree, names: seq<string>): Found
    decreases t, 1
  {
    ChildrenFound(t.children, names)
  }

  /** The `foreach` over the children, one child after the other. */
  function ChildrenFound(cs: seq<Tree>, names: seq<string>): Found
    decreases cs, 0
  {
    if |cs| == 0 then Found([], [])
    else MergeTuples(ChildrenFound(cs[..|cs| - 1], names), ChildFound(cs[|cs| - 1], names))
  }

  /** The `switch` on one child: a tag is collected, a structure collected and descended into, anything else descended into. */
  function ChildFound(c: Tree, names: seq<string>): Found
    decreases c, 2
  {
    var item := Item(c, names + [c.name]);
    if c.kind.Tag? then Found([item], [])
    else if c.kind.TagStructure? then MergeTuples(Found([], [item]), TagsAndStructures(c, names + [c.name]))
    else TagsAndStructures(c, names + [c.name])
  }

  /** `GetOneOfTheTags`: the node itself when it is a tag, else only the first child is looked at, at every level. */
  function SampleTag(t: Tree): (r: Option<Tree>)
    ensures r.Some? ==> r.value.kind.Tag?
    decreases t
  {
    if t.kind.Tag? then Some(t)
    else if |t.children| == 0 then None
    else if t.children[0].kind.Tag? then Some(t.children[0])
    else SampleTag(t.children[0])
  }

  /**
   * The first tag of `t` in pre-order: `t` itself, or the first tag below its
   * first child that has one.  This is the search `GetOneOfTheTags` evidently
   * means; `SampleTag` is what it does.
   */
  function FirstTag(t: Tree): (r: Option<Tree>)
    ensures r.Some? ==> r.value.kind.Tag?
    decreases t, 1
  {
    if t.kind.Tag? then Some(t) else FirstTagIn(t.children)
  }

  function FirstTagIn(cs: seq<Tree>): (r: Option<Tree>)
    ensures r.Some? ==> r.value.kind.Tag?
    decreases cs, 0
  {
    if |cs| == 0 then None
    else
      match FirstTag(cs[0])
      case Some(x) => Some(x)
      case None => FirstTagIn(cs[1..])
  }

  /** The structures with (`arrays`) or without array dimensions, in the order found. */
  function StructuresWhere(items: seq<Item>, arrays: bool): (r: seq<Item>)
    ensures forall x :: x in r <==> x in items && (x.node.kind.TagStructure? ==> (|x.node.kind.dims| != 0) == arrays)
    ensures |r| <= |items|
    decreases |items|
  {
    if |items| == 0 then []
    else
      var x := items[0];
      var rest := StructuresWhere(items[1..], arrays);
      if x.node.kind.TagStructure? && (|x.node.kind.dims| != 0) != arrays then rest else [x] + rest
  }

  /**
   * `GetPropertyInfoFromTag` on a structure: type, name, path, an empty data
   * type, the array length.  Fewer than five distinct columns make the
   * indexing throw, and the row is then empty.
   */
  function StructureRow(x: Item, columns: seq<string>): (r: seq<string>)
    requires x.node.kind.TagStructure?
    ensures r != [] <==> |Distinct(columns)| >= 5
    ensures r != [] ==> |r| == 5 && r[0] == TagStructureTypeName && r[1] == x.node.name && r[3] == ""
  {
    if |Distinct(columns)| < 5 then []
    else [TagStructureTypeName, x.node.name, BrowsePath(x.names), "", StructureLengthText(x.node.kind.dims)]
  }

  /**
   * `GetPropertyInfoFromTag` on a tag: the five fixed cells, then the text of
   * each further column's property.  Fewer than five distinct columns, or a
   * column the tag's class does not declare (the reflection call throws),
   * make the row empty.
   */
  function TagRow(schema: Schema, x: Item, columns: seq<string>): (r: seq<string>)
    requires x.node.kind.Tag?
    ensures r != [] <==> |Distinct(columns)| >= 5 && AllDeclared(schema(x.node.kind.driver), Distinct(columns)[5..])
    ensures r != [] ==> |r| == |Distinct(columns)| && r[0] == DriverTypeName(x.node.kind.driver) && r[1] == x.node.name
  {
    var k := x.node.kind;
    var props := Distinct(columns);
    if |props| < 5 || !AllDeclared(schema(k.driver), props[5..]) then []
    else
      [DriverTypeName(k.driver), x.node.name, BrowsePath(x.names), DataTypeName(k.dataType), ArrayLengthText(k.dims)]
      + PropCells(k.props, props[5..])
  }

  /** Every name is a property the class declares. */
  predicate AllDeclared(decls: seq<PropertyDecl>, names: seq<string>)
  {
    forall i | 0 <= i < |names| :: Declared(decls, names[i]).Some?
  }

  lemma AllDeclaredSnoc(decls: seq<PropertyDecl>, names: seq<string>, n: string)
    requires AllDeclared(decls, names) && Declared(decls, n).Some?
    ensures AllDeclared(decls, names + [n])
  {
    var r := names + [n];
    forall i | 0 <= i < |r| ensures Declared(decls, r[i]).Some? {
      if i < |names| {
        assert r[i] == names[i];
      }
    }
  }

  /** Column `i` is declared or not; an undeclared one makes all columns from the sixth on not declared. */
  lemma AllDeclaredStep(decls: seq<PropertyDecl>, columns: seq<string>, i: nat)
    requires 5 <= i < |columns| && AllDeclared(decls, columns[5..i])
    ensures Declared(decls, columns[i]).Some? ==> AllDeclared(decls, columns[5..i + 1])
    ensures Declared(decls, columns[i]).None? ==> !AllDeclared(decls, columns[5..])
  {
    assert columns[5..i + 1] == columns[5..i] + [columns[i]];
    assert columns[5..][i - 5] == columns[i];
    if Declared(decls, columns[i]).Some? {
      AllDeclaredSnoc(decls, columns[5..i], columns[i]);
    }
  }

  /** The text of each named property, "" for a null one. */
  function PropCells(props: map<string, PropValue>, names: seq<string>): (r: seq<string>)
    ensures |r| == |names|
    decreases |names|
  {
    if |names| == 0 then []
    else PropCells(props, names[..|names| - 1]) + [PropText(PropOf(props, names[|names| - 1]))]
  }

  /** The cell of column `i` follows those of the columns before it. */
  lemma PropCellsStep(props: map<string, PropValue>, columns: seq<string>, i: nat)
    requires 5 <= i < |columns|
    ensures PropCells(props, columns[5..i + 1]) == PropCells(props, columns[5..i]) + [PropText(PropOf(props, columns[i]))]
  {
    assert columns[5..i + 1][..i - 5] == columns[5..i];
  }

  /** `GetPropertyInfoFromTag`'s switch: a tag, a structure, or (any other node) an empty row. */
  function PropertyInfo(schema: Schema, x: Item, columns: seq<string>): (r: seq<string>)
    ensures !x.node.kind.Tag? && !x.node.kind.TagStructure? ==> r == []
    ensures r != [] ==> 5 <= |r| <= |Distinct(columns)| && r[1] == x.node.name
  {
    if x.node.kind.Tag? then TagRow(schema, x, columns)
    else if x.node.kind.TagStructure? then StructureRow(x, columns)
    else []
  }

  /** `WriteTagOnCsv` for each item in turn: its row joined by ";". */
  function RowLines(schema: Schema, items: seq<Item>, columns: seq<string>): (r: seq<string>)
    ensures |r| == |items|
    decreases |items|
  {
    if |items| == 0 then []
    else RowLines(schema, items[..|items| - 1], columns) + [Join(PropertyInfo(schema, items[|items| - 1], columns), Separator)]
  }

  /**
   * The lines `WriteTagsToCsv` writes once it has a sample tag: nothing
   * without one (building the header throws, and the file stays empty);
   * otherwise the header line, built from the sample, then the structure
   * arrays, the plain structures and the tags.
   */
  function ExportFrom(schema: Schema, sample: Option<Tree>, start: Tree): (r: seq<string>)
    requires sample.Some? ==> sample.value.kind.Tag?
    ensures sample.None? <==> r == []
    ensures sample.Some? ==>
              var found := TagsAndStructures(start, [start.name]);
              && |r| == 1 + |StructuresWhere(found.structures, true)| + |StructuresWhere(found.structures, false)| + |found.tags|
              && r[0] == Join(HeaderColumns(schema, sample.value.kind.driver), Separator)
  {
    match sample
    case None => []
    case Some(tag) =>
      var columns := HeaderColumns(schema, tag.kind.driver);
      var found := TagsAndStructures(start, [start.name]);
      [Join(columns, Separator)]
      + RowLines(schema, StructuresWhere(found.structures, true), columns)
      + RowLines(schema, StructuresWhere(found.structures, false), columns)
      + RowLines(schema, found.tags, columns)
  }

  /** `WriteTagsToCsv(start)` as written: the header sample is the one `GetOneOfTheTags` picks. */
  function Export(schema: Schema, start: Tree): (r: seq<string>)
    ensures r == [] <==> SampleTag(start).None?
    ensures r != [] ==> r[0] == Join(HeaderColumns(schema, SampleTag(start).value.kind.driver), Separator)
  {
    ExportFrom(schema, SampleTag(start), start)
  }

  /** The export as evidently intended: the header sample is the first tag of the tree in pre-order. */
  function IntendedExport(schema: Schema, start: Tree): (r: seq<string>)
    ensures r == [] <==> FirstTag(start).None?
    ensures r != [] ==> r[0] == Join(HeaderColumns(schema, FirstTag(start).value.kind.driver), Separator)
  {
    ExportFrom(schema, FirstTag(start), start)
  }
}
