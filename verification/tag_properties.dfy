/**
 * What the tag table promises: exported rows, paths, array lengths and
 * property cells read back as they were written; the export walk collects
 * the right nodes with the right paths; import only ever adds nodes and
 * updates tag properties, never makes two siblings of one name, and its
 * counters account for every node it adds.
 */
module TagProperties {
  import opened Wrappers
  import opened Text
  import opened Nodes
  import opened TagTable
  import opened TagImport
  import opened TagExport

  // ---------------------------------------------------------------------------
  // Rows and paths
  // ---------------------------------------------------------------------------

  /** An exported row splits back into its cells, as long as no cell holds ";". */
  lemma RowRoundTrip(schema: Schema, x: Item, columns: seq<string>)
    requires PropertyInfo(schema, x, columns) != []
    requires forall i | 0 <= i < |PropertyInfo(schema, x, columns)| :: Separator !in PropertyInfo(schema, x, columns)[i]
    ensures Split(Join(PropertyInfo(schema, x, columns), Separator), Separator) == PropertyInfo(schema, x, columns)
  {
    SplitJoin(PropertyInfo(schema, x, columns), Separator);
  }

  lemma {:induction false} JoinSnoc(a: seq<string>, x: string, sep: char)
    requires |a| >= 1
    ensures Join(a + [x], sep) == Join(a, sep) + [sep] + x
    decreases |a|
  {
    if |a| == 1 {
      assert a + [x] == [a[0], x];
    } else {
      assert (a + [x])[1..] == a[1..] + [x];
      JoinSnoc(a[1..], x, sep);
    }
  }

  /** `GetBrowsePath`'s recursion writes the names from the starting node down, joined by "/". */
  lemma {:induction false} BrowsePathJoin(names: seq<string>)
    ensures BrowsePath(names) == Join(names, PathSeparator)
    decreases |names|
  {
    if |names| >= 2 {
      var init := names[..|names| - 1];
      BrowsePathJoin(init);
      JoinSnoc(init, names[|names| - 1], PathSeparator);
      assert init + [names[|names| - 1]] == names;
    }
  }

  /** A name that survives a path: not empty and without "/". */
  predicate PlainName(n: string)
  {
    n != "" && PathSeparator !in n
  }

  /**
   * `GetOwnerNode` reads back what `GetBrowsePath` wrote: it drops the
   * starting node's name and the node's own name and walks the names in
   * between.
   */
  lemma PathRoundTrip(names: seq<string>)
    requires |names| >= 2 && forall i | 0 <= i < |names| :: PlainName(names[i])
    ensures OwnerSegments(BrowsePath(names)) == Some(names[1..|names| - 1])
  {
    var path := BrowsePath(names);
    BrowsePathJoin(names);
    forall i | 0 <= i < |names| ensures names[i] != [] && PathSeparator !in names[i] {
      assert PlainName(names[i]);
    }
    SplitNonEmptyJoin(names, PathSeparator);
    assert SplitNonEmpty(path, PathSeparator) == names;
  }

  /** The owner a written path resolves to is the one the inner names lead to from the starting node. */
  lemma OwnerOfPath(s: Space, start: NodeId, names: seq<string>)
    requires Valid(s) && start in s.nodes
    requires |names| >= 2 && forall i | 0 <= i < |names| :: PlainName(names[i])
    ensures ResolveOwner(s, start, BrowsePath(names)) == Walk(s, start, names[1..|names| - 1])
  {
    PathRoundTrip(names);
  }

  // ---------------------------------------------------------------------------
  // Array lengths, data types, property cells
  // ---------------------------------------------------------------------------

  lemma ParseUInt32ToString(n: nat)
    requires n <= UInt32Max
    ensures ParseUInt32(NatToString(n)) == Some(n)
  {
    ParseNatToString(n);
  }

  lemma NoSeparatorInNumber(n: nat, c: char)
    requires !IsDigit(c)
    ensures c !in NatToString(n)
  {
    var s := NatToString(n);
    NatToStringDigits(n);
    forall i | 0 <= i < |s| ensures s[i] != c {
      assert IsDigit(s[i]);
    }
  }

  /**
   * A tag's array length reads back as written: no dimensions, one, or two;
   * a tag with more dimensions comes back with its first two.
   */
  lemma ArrayLengthRoundTrip(dims: seq<nat>)
    requires forall i | 0 <= i < |dims| :: dims[i] <= UInt32Max
    ensures TagDims(ArrayLengthText(dims)) == Some(if |dims| <= 2 then dims else dims[..2])
  {
    if |dims| == 1 {
      NoSeparatorInNumber(dims[0], ArrayLengthSeparator);
      ParseUInt32ToString(dims[0]);
      assert [dims[0]] == dims;
    } else if |dims| >= 2 {
      var a := NatToString(dims[0]);
      var b := NatToString(dims[1]);
      var text := ArrayLengthText(dims);
      assert text == Join([a, b], ArrayLengthSeparator);
      NoSeparatorInNumber(dims[0], ArrayLengthSeparator);
      NoSeparatorInNumber(dims[1], ArrayLengthSeparator);
      SplitJoin([a, b], ArrayLengthSeparator);
      assert text[|a|] == ArrayLengthSeparator;
      assert ArrayLengthSeparator in text;
      ParseUInt32ToString(dims[0]);
      ParseUInt32ToString(dims[1]);
      assert ParseArrayDimensions(text) == Some([dims[0], dims[1]]);
      assert [dims[0], dims[1]] == dims[..2];
      if |dims| == 2 {
        assert dims[..2] == dims;
      }
    }
  }

  /**
   * A structure's array length reads back as one dimension, or none when it
   * had none or a zero first one (the import then makes a plain structure).
   */
  lemma StructureLengthRoundTrip(dims: seq<nat>)
    requires |dims| > 0 ==> dims[0] <= UInt32Max
    ensures StructureDims(StructureLengthText(dims)) == Some(if |dims| == 0 || dims[0] == 0 then [] else [dims[0]])
  {
    if |dims| > 0 && dims[0] != 0 {
      ParseUInt32ToString(dims[0]);
    }
  }

  /**
   * A data type's name reads back as the type itself, except that Structure
   * comes back as BaseDataType.  There are finitely many data types, and the
   * verifier checks each one by evaluating both functions, so no proof steps
   * are needed.
   */
  lemma DataTypeRoundTrip(dt: DataType)
    ensures GetOpcUaDataType(DataTypeName(dt)) == Some(if dt == Structure then BaseDataType else dt)
  {
  }

  /** A value a property of type `t` can hold. */
  predicate Fits(t: PropType, v: PropValue)
  {
    match t
    case PEnum(_, symbols) => v.EnumVal? && v.symbol in symbols
    case PBoolean => v.BoolVal?
    case PString => v.TextVal?
    case PVariable => false
    case POther => false
    case _ => v.IntVal? && InRange(t, v.i)
  }

  /**
   * A property cell reads back as the value written, for every property the
   * import sets (all but ValueRank); an empty cell is skipped instead.
   */
  lemma PropRoundTrip(t: PropType, v: PropValue)
    requires Fits(t, v) && !(t.PEnum? && t.enumName == "ValueRank")
    requires PropText(v) != ""
    ensures ParseProp(t, PropText(v)) == Some(Some(v))
  {
    match v
    case IntVal(i) =>
      ParseIntToString(i);
    case BoolVal(b) =>
      BoolTextsParse();
    case _ =>
  }

  /** The texts a boolean is written as, "True" and "False", parse back. */
  lemma BoolTextsParse()
    ensures ParseBool("True") == Some(true) && ParseBool("False") == Some(false)
  {
    var t := ToLower("True");
    assert t[0] == 't' && t[1] == 'r' && t[2] == 'u' && t[3] == 'e';
    assert t == "true";
    var f := ToLower("False");
    assert f[0] == 'f' && f[1] == 'a' && f[2] == 'l' && f[3] == 's' && f[4] == 'e';
    assert f == "false";
  }

  // ---------------------------------------------------------------------------
  // Header and row shapes
  // ---------------------------------------------------------------------------

  lemma {:induction false} DistinctOfDistinct(a: seq<string>)
    requires NoDuplicates(a)
    ensures Distinct(a) == a
    decreases |a|
  {
    if |a| > 0 {
      var init := a[..|a| - 1];
      DistinctOfDistinct(init);
      assert a[|a| - 1] !in init;
      assert init + [a[|a| - 1]] == a;
    }
  }

  /** Repetitions after a prefix without repetitions leave the prefix in front. */
  lemma {:induction false} DistinctKeepsPrefix(a: seq<string>, b: seq<string>)
    requires NoDuplicates(a)
    ensures |Distinct(a + b)| >= |a| && Distinct(a + b)[..|a|] == a
    decreases |b|
  {
    if |b| == 0 {
      assert a + b == a;
      DistinctOfDistinct(a);
    } else {
      var ab := a + b;
      assert ab[..|ab| - 1] == a + b[..|b| - 1];
      DistinctKeepsPrefix(a, b[..|b| - 1]);
    }
  }

  /** The distinct header columns start with the five fixed ones. */
  lemma HeaderDistinct(schema: Schema, d: Driver)
    ensures var cols := Distinct(HeaderColumns(schema, d));
            |cols| >= 5 && cols[..5] == FixedColumns
  {
    assert NoDuplicates(FixedColumns);
    DistinctKeepsPrefix(FixedColumns, PropertyNames(schema(d)));
  }

  /** Under a header the export builds, a structure row has exactly its five cells. */
  lemma StructureRowCells(schema: Schema, x: Item, d: Driver)
    requires x.node.kind.TagStructure?
    ensures var r := PropertyInfo(schema, x, HeaderColumns(schema, d));
            |r| == 5 && r[0] == TagStructureTypeName && r[1] == x.node.name && r[2] == BrowsePath(x.names)
            && r[3] == "" && r[4] == StructureLengthText(x.node.kind.dims)
  {
    HeaderDistinct(schema, d);
  }

  lemma {:induction false} PropCellsAt(props: map<string, PropValue>, names: seq<string>, i: nat)
    requires i < |names|
    ensures PropCells(props, names)[i] == PropText(PropOf(props, names[i]))
    decreases |names|
  {
    if i < |names| - 1 {
      PropCellsAt(props, names[..|names| - 1], i);
    }
  }

  /**
   * Under a header built from a tag of the same driver, a tag row has one
   * cell per distinct column: the five fixed cells, then each property's
   * text in column order.
   */
  lemma TagRowCells(schema: Schema, x: Item)
    requires x.node.kind.Tag?
    ensures var k := x.node.kind;
            var cols := Distinct(HeaderColumns(schema, k.driver));
            var r := PropertyInfo(schema, x, HeaderColumns(schema, k.driver));
            && |r| == |cols|
            && r[..5] == [DriverTypeName(k.driver), x.node.name, BrowsePath(x.names), DataTypeName(k.dataType), ArrayLengthText(k.dims)]
            && forall i | 5 <= i < |r| :: r[i] == PropText(PropOf(k.props, cols[i]))
  {
    var k := x.node.kind;
    var header := HeaderColumns(schema, k.driver);
    var cols := Distinct(header);
    HeaderDistinct(schema, k.driver);
    HeaderDeclared(schema, k.driver);
    var r := PropertyInfo(schema, x, header);
    assert r == TagExport.TagRow(schema, x, header);
    forall i | 5 <= i < |r| ensures r[i] == PropText(PropOf(k.props, cols[i])) {
      PropCellsAt(k.props, cols[5..], i - 5);
    }
  }

  /** Every column of a header after the fixed five is a property the driver's tag class declares. */
  lemma HeaderDeclared(schema: Schema, d: Driver)
    ensures var cols := Distinct(HeaderColumns(schema, d));
            |cols| >= 5 && AllDeclared(schema(d), cols[5..])
  {
    var decls := schema(d);
    var header := HeaderColumns(schema, d);
    var cols := Distinct(header);
    HeaderDistinct(schema, d);
    forall i | 0 <= i < |cols[5..]| ensures Declared(decls, cols[5..][i]).Some? {
      var n := cols[5 + i];
      assert cols[5..][i] == n;
      assert n in header;
      assert n !in FixedColumns by {
        assert forall j | 0 <= j < 5 :: cols[j] == FixedColumns[j];
      }
      assert n in header[5..] by {
        assert header == FixedColumns + header[5..];
      }
    }
  }

  // ---------------------------------------------------------------------------
  // The export walk
  // ---------------------------------------------------------------------------

  /** `x`'s names extend `names` by at least its own name, which comes last. */
  predicate WellNamed(x: Item, names: seq<string>)
  {
    |x.names| > |names| && x.names[..|names|] == names && x.names[|x.names| - 1] == x.node.name
  }

  /**
   * Every tag found is a tag and every structure a structure, each with the
   * names from the start down to it, so its row's path ends in its own name.
   */
  lemma {:induction false} FoundKinds(t: Tree, names: seq<string>)
    ensures var f := TagsAndStructures(t, names);
            && (forall x | x in f.tags :: x.node.kind.Tag? && WellNamed(x, names))
            && (forall x | x in f.structures :: x.node.kind.TagStructure? && WellNamed(x, names))
    decreases t, 1
  {
    ChildrenFoundKinds(t.children, names);
  }

  lemma {:induction false} ChildrenFoundKinds(cs: seq<Tree>, names: seq<string>)
    ensures var f := ChildrenFound(cs, names);
            && (forall x | x in f.tags :: x.node.kind.Tag? && WellNamed(x, names))
            && (forall x | x in f.structures :: x.node.kind.TagStructure? && WellNamed(x, names))
    decreases cs, 0
  {
    if |cs| > 0 {
      ChildrenFoundKinds(cs[..|cs| - 1], names);
      ChildFoundKinds(cs[|cs| - 1], names);
    }
  }

  lemma {:induction false} ChildFoundKinds(c: Tree, names: seq<string>)
    ensures var f := ChildFound(c, names);
            && (forall x | x in f.tags :: x.node.kind.Tag? && WellNamed(x, names))
            && (forall x | x in f.structures :: x.node.kind.TagStructure? && WellNamed(x, names))
    decreases c, 2
  {
    var sub := names + [c.name];
    if !c.kind.Tag? {
      FoundKinds(c, sub);
      var f := TagsAndStructures(c, sub);
      forall x | x in f.tags + f.structures && WellNamed(x, sub) ensures WellNamed(x, names) {
        assert x.names[..|names|] == x.names[..|sub|][..|names|];
      }
    }
  }

  /**
   * The structure arrays are the structures with dimensions, the plain
   * structures those without, and together they are every structure found,
   * each written exactly once.
   */
  lemma StructuresSplit(start: Tree)
    ensures var f := TagsAndStructures(start, [start.name]);
            && (forall x | x in StructuresWhere(f.structures, true) :: x.node.kind.TagStructure? && |x.node.kind.dims| != 0)
            && (forall x | x in StructuresWhere(f.structures, false) :: x.node.kind.TagStructure? && |x.node.kind.dims| == 0)
            && multiset(StructuresWhere(f.structures, true)) + multiset(StructuresWhere(f.structures, false)) == multiset(f.structures)
  {
    FoundKinds(start, [start.name]);
    WhereSplits(TagsAndStructures(start, [start.name]).structures);
  }

  /** Filtering a list of structures both ways loses and duplicates none of them. */
  lemma {:induction false} WhereSplits(items: seq<Item>)
    requires forall x | x in items :: x.node.kind.TagStructure?
    ensures multiset(StructuresWhere(items, true)) + multiset(StructuresWhere(items, false)) == multiset(items)
    decreases |items|
  {
    if |items| > 0 {
      WhereSplits(items[1..]);
      assert items == [items[0]] + items[1..];
    }
  }

  /** The filters keep the order: filtering a concatenation filters each part in turn. */
  lemma {:induction false} WhereAppend(a: seq<Item>, b: seq<Item>, arrays: bool)
    ensures StructuresWhere(a + b, arrays) == StructuresWhere(a, arrays) + StructuresWhere(b, arrays)
    decreases |a|
  {
    if |a| == 0 {
      assert a + b == b;
    } else {
      assert (a + b)[0] == a[0] && (a + b)[1..] == a[1..] + b;
      WhereAppend(a[1..], b, arrays);
    }
  }

  // ---------------------------------------------------------------------------
  // The export walk is a pre-order visit, split by kind
  // ---------------------------------------------------------------------------

  /**
   * The nodes visited from child `c` on, in pre-order, each with its path:
   * `c` itself, then, unless `c` is a tag, everything below it.
   */
  function Visit(c: Tree, names: seq<string>): (r: seq<Item>)
    ensures |r| >= 1 && r[0] == Item(c, names + [c.name])
    decreases c, 1
  {
    [Item(c, names + [c.name])] + (if c.kind.Tag? then [] else VisitAll(c.children, names + [c.name]))
  }

  /** The children one after the other, each visited completely before the next. */
  function VisitAll(cs: seq<Tree>, names: seq<string>): seq<Item>
    decreases cs, 0
  {
    if |cs| == 0 then [] else Visit(cs[0], names) + VisitAll(cs[1..], names)
  }

  /** The tags (`structures == false`) or the tag structures among `items`, in order. */
  function Select(items: seq<Item>, structures: bool): (r: seq<Item>)
    ensures forall x :: x in r <==> x in items && if structures then x.node.kind.TagStructure? else x.node.kind.Tag?
    decreases |items|
  {
    if |items| == 0 then []
    else
      var x := items[0];
      (if (if structures then x.node.kind.TagStructure? else x.node.kind.Tag?) then [x] else []) + Select(items[1..], structures)
  }

  lemma {:induction false} SelectAppend(a: seq<Item>, b: seq<Item>, structures: bool)
    ensures Select(a + b, structures) == Select(a, structures) + Select(b, structures)
    decreases |a|
  {
    if |a| == 0 {
      assert a + b == b;
    } else {
      assert (a + b)[0] == a[0] && (a + b)[1..] == a[1..] + b;
      SelectAppend(a[1..], b, structures);
    }
  }

  lemma {:induction false} VisitAllSnoc(cs: seq<Tree>, names: seq<string>)
    requires |cs| > 0
    ensures VisitAll(cs, names) == VisitAll(cs[..|cs| - 1], names) + Visit(cs[|cs| - 1], names)
    decreases |cs|
  {
    if |cs| == 1 {
      assert cs[..0] == [] && cs[1..] == [];
    } else {
      assert cs[1..][..|cs| - 2] == cs[..|cs| - 1][1..];
      assert cs[1..][|cs| - 2] == cs[|cs| - 1];
      assert cs[..|cs| - 1][0] == cs[0];
      VisitAllSnoc(cs[1..], names);
    }
  }

  /**
   * `GetTagsAndStructures` splits the pre-order visit below `t` by kind: its
   * tags are exactly the visited tags and its structures exactly the visited
   * structures, each in the order visited.  So it collects every tag that is
   * not below another tag, collects and descends into every structure, and
   * only descends into every other node.
   */
  lemma {:induction false} WalkIsPreOrder(t: Tree, names: seq<string>)
    ensures var v := VisitAll(t.children, names);
            TagsAndStructures(t, names) == Found(Select(v, false), Select(v, true))
    decreases t, 1
  {
    ChildrenPreOrder(t.children, names);
  }

  lemma {:induction false} ChildrenPreOrder(cs: seq<Tree>, names: seq<string>)
    ensures var v := VisitAll(cs, names);
            ChildrenFound(cs, names) == Found(Select(v, false), Select(v, true))
    decreases cs, 0
  {
    if |cs| > 0 {
      var init := cs[..|cs| - 1];
      var last := cs[|cs| - 1];
      ChildrenPreOrder(init, names);
      ChildPreOrder(last, names);
      VisitAllSnoc(cs, names);
      SelectAppend(VisitAll(init, names), Visit(last, names), false);
      SelectAppend(VisitAll(init, names), Visit(last, names), true);
    }
  }

  lemma {:induction false} ChildPreOrder(c: Tree, names: seq<string>)
    ensures var v := Visit(c, names);
            ChildFound(c, names) == Found(Select(v, false), Select(v, true))
    decreases c, 2
  {
    var sub := names + [c.name];
    var item := Item(c, sub);
    var below := if c.kind.Tag? then [] else VisitAll(c.children, sub);
    assert Visit(c, names) == [item] + below;
    SelectAppend([item], below, false);
    SelectAppend([item], below, true);
    assert [item][1..] == [];
    if !c.kind.Tag? {
      WalkIsPreOrder(c, sub);
    }
  }

  // ---------------------------------------------------------------------------
  // The sample tag (see Findings)
  // ---------------------------------------------------------------------------

  /** The subtree holds a tag: itself or somewhere below. */
  predicate HasTag(t: Tree)
    decreases t, 1
  {
    t.kind.Tag? || HasTagIn(t.children)
  }

  predicate HasTagIn(cs: seq<Tree>)
    decreases cs, 0
  {
    |cs| > 0 && (HasTag(cs[0]) || HasTagIn(cs[1..]))
  }

  /** The corrected search finds a tag exactly when the subtree has one. */
  lemma {:induction false} FirstTagFinds(t: Tree)
    ensures FirstTag(t).Some? <==> HasTag(t)
    decreases t, 1
  {
    if !t.kind.Tag? {
      FirstTagInFinds(t.children);
    }
  }

  lemma {:induction false} FirstTagInFinds(cs: seq<Tree>)
    ensures FirstTagIn(cs).Some? <==> HasTagIn(cs)
    decreases cs, 0
  {
    if |cs| > 0 {
      FirstTagFinds(cs[0]);
      FirstTagInFinds(cs[1..]);
    }
  }

  /** Wherever the search as written finds a tag, the corrected one finds the same tag. */
  lemma {:induction false} FirstTagAgrees(t: Tree)
    requires SampleTag(t).Some?
    ensures FirstTag(t) == SampleTag(t)
    decreases t
  {
    if !t.kind.Tag? {
      var c := t.children[0];
      if !c.kind.Tag? {
        FirstTagAgrees(c);
      }
      assert FirstTag(t) == FirstTagIn(t.children);
      assert FirstTagIn(t.children) == FirstTag(c);
    }
  }

  /** Wherever the program's search finds a sample, the file it writes is the intended one. */
  lemma ExportsAgree(schema: Schema, start: Tree)
    requires SampleTag(start).Some?
    ensures Export(schema, start) == IntendedExport(schema, start)
  {
    FirstTagAgrees(start);
  }

  /** The intended export is empty exactly when the tree holds no tag at all. */
  lemma IntendedExportEmpty(schema: Schema, start: Tree)
    ensures IntendedExport(schema, start) == [] <==> !HasTag(start)
  {
    FirstTagFinds(start);
  }

  /** Whenever the walk collects a tag, the corrected search finds one, so the intended export writes a header and every row. */
  lemma {:induction false} TagsHaveSample(t: Tree, names: seq<string>)
    requires TagsAndStructures(t, names).tags != []
    ensures FirstTag(t).Some?
    decreases t, 1
  {
    if !t.kind.Tag? {
      TagsInChildren(t.children, names);
    }
  }

  lemma {:induction false} TagsInChildren(cs: seq<Tree>, names: seq<string>)
    requires ChildrenFound(cs, names).tags != []
    ensures FirstTagIn(cs).Some?
    decreases cs, 0
  {
    var last := cs[|cs| - 1];
    var init := cs[..|cs| - 1];
    if ChildrenFound(init, names).tags != [] {
      TagsInChildren(init, names);
      FirstTagInFinds(init);
      FirstTagInFinds(cs);
      HasTagInPrefix(cs, |cs| - 1);
    } else {
      var sub := names + [last.name];
      if !last.kind.Tag? {
        TagsHaveSample(last, sub);
      }
      FirstTagFinds(last);
      FirstTagInFinds(cs);
      HasTagInMember(cs, |cs| - 1);
    }
  }

  lemma {:induction false} HasTagInPrefix(cs: seq<Tree>, n: nat)
    requires n <= |cs| && HasTagIn(cs[..n])
    ensures HasTagIn(cs)
    decreases n
  {
    if !HasTag(cs[0]) {
      assert cs[..n][1..] == cs[1..][..n - 1];
      HasTagInPrefix(cs[1..], n - 1);
    }
  }

  lemma {:induction false} HasTagInMember(cs: seq<Tree>, i: nat)
    requires i < |cs| && HasTag(cs[i])
    ensures HasTagIn(cs)
    decreases i
  {
    if i > 0 {
      HasTagInMember(cs[1..], i - 1);
    }
  }

  /**
   * The search as written misses a tag that is not on the first-child
   * chain: below a folder whose first child is an empty folder, it finds
   * nothing although the walk collects a tag, so the program writes an
   * empty file where the intended export has a header and the tag's row.
   */
  lemma SampleTagMissesTag(schema: Schema)
    ensures var tag := Tree(2, "T", Tag(S7Tcp, Int32, [], ValueType(Int32, 0), map[], ""), []);
            var start := Tree(0, "Start", Folder, [Tree(1, "Empty", Folder, []), tag]);
            && SampleTag(start).None?
            && TagsAndStructures(start, ["Start"]).tags == [Item(tag, ["Start", "T"])]
            && FirstTag(start) == Some(tag)
            && Export(schema, start) == []
            && |IntendedExport(schema, start)| == 2
  {
    var tag := Tree(2, "T", Tag(S7Tcp, Int32, [], ValueType(Int32, 0), map[], ""), []);
    var empty := Tree(1, "Empty", Folder, []);
    var start := Tree(0, "Start", Folder, [empty, tag]);
    assert start.children[..1] == [empty];
    assert [empty][..0] == [];
    assert ChildFound(empty, ["Start"]) == Found([], []);
    assert ChildrenFound([empty], ["Start"]) == Found([], []);
    assert ["Start"] + [tag.name] == ["Start", "T"];
    assert ChildFound(tag, ["Start"]).tags == [Item(tag, ["Start", "T"])];
    assert [empty, tag][..1] == [empty];
    assert ChildrenFound([empty, tag], ["Start"]) == MergeTuples(ChildrenFound([empty], ["Start"]), ChildFound(tag, ["Start"]));
    assert start.children[1..] == [tag];
    assert FirstTag(empty).None?;
    assert FirstTagIn([tag]) == Some(tag);
    assert TagsAndStructures(start, ["Start"]).structures == [];
  }
}
