/**
 * What importing a tag table does and does not do to the project: the rows
 * that change nothing, the update that is counted although it is rejected,
 * the counters that account for every node added, siblings that keep
 * distinct names, and a row that changes nothing more when imported again.
 */
module TagImportProperties {
  import opened Wrappers
  import opened Text
  import opened Nodes
  import opened TagTable
  import opened TagImport

  // ---------------------------------------------------------------------------
  // Rows that change nothing
  // ---------------------------------------------------------------------------

  /** A header without a Type column makes every row fail. */
  lemma MissingTypeColumn(schema: Schema, p: Progress, start: NodeId, header: seq<string>, values: seq<string>)
    requires Valid(p.space) && start in p.space.nodes
    requires FixedColumns[0] !in header
    ensures ImportLine(schema, p, start, header, values) == p
  {
    assert IndexOf(header, FixedColumns[0]) == -1;
  }

  /** A row whose type is neither a tag structure nor one of the four driver tags changes nothing. */
  lemma UnknownType(schema: Schema, p: Progress, start: NodeId, header: seq<string>, values: seq<string>)
    requires Valid(p.space) && start in p.space.nodes
    requires Field(values, header, FixedColumns[0]).Some?
    requires var t := Field(values, header, FixedColumns[0]).value;
             t != TagStructureTypeName && forall d: Driver :: DriverTypeName(d) != t
    ensures ImportLine(schema, p, start, header, values) == p
  {
    var t := Field(values, header, FixedColumns[0]).value;
    assert DriverOfTypeName(t).None?;
    assert ParseTagRow(schema, header, values, t).None?;
  }

  /** A path with fewer than two non-empty segments makes the owner lookup throw, and the row changes nothing. */
  lemma ShortPath(schema: Schema, p: Progress, start: NodeId, header: seq<string>, values: seq<string>)
    requires Valid(p.space) && start in p.space.nodes
    requires Field(values, header, FixedColumns[2]).Some?
    requires |SplitNonEmpty(Field(values, header, FixedColumns[2]).value, PathSeparator)| < 2
    ensures ImportLine(schema, p, start, header, values) == p
  {
    match ParseRow(schema, header, values)
    case None =>
    case Some(row) =>
      assert row.path == Field(values, header, FixedColumns[2]).value;
      assert ResolveOwner(p.space, start, row.path).None?;
  }

  /** A non-empty array length that does not parse (one number for a structure, one or two for a tag) changes nothing. */
  lemma BadArrayLength(schema: Schema, p: Progress, start: NodeId, header: seq<string>, values: seq<string>)
    requires Valid(p.space) && start in p.space.nodes
    requires Field(values, header, FixedColumns[0]).Some? && Field(values, header, FixedColumns[4]).Some?
    requires var cell := Field(values, header, FixedColumns[4]).value;
             cell != "" &&
             if Field(values, header, FixedColumns[0]).value == TagStructureTypeName then ParseUInt32(cell).None?
             else ParseArrayDimensions(cell).None?
    ensures ImportLine(schema, p, start, header, values) == p
  {
    var cell := Field(values, header, FixedColumns[4]).value;
    if Field(values, header, FixedColumns[0]).value == TagStructureTypeName {
      assert StructureDims(cell).None?;
      assert ParseStructureRow(header, values).None?;
    } else {
      assert TagDims(cell).None?;
      assert ParseTagRow(schema, header, values, Field(values, header, FixedColumns[0]).value).None?;
    }
  }

  /**
   * A row without a cell for the name, the path, the array length or (for a
   * driver tag) the data type changes nothing, whether the column is missing
   * from the header or lies past the end of the row.
   */
  lemma MissingCell(schema: Schema, p: Progress, start: NodeId, header: seq<string>, values: seq<string>, k: nat)
    requires Valid(p.space) && start in p.space.nodes
    requires 1 <= k <= 4 && Field(values, header, FixedColumns[k]).None?
    requires k == 3 ==> Field(values, header, FixedColumns[0]) != Some(TagStructureTypeName)
    ensures ImportLine(schema, p, start, header, values) == p
  {
    if Field(values, header, FixedColumns[0]).Some? {
      var t := Field(values, header, FixedColumns[0]).value;
      if t == TagStructureTypeName {
        assert ParseStructureRow(header, values).None?;
      } else {
        assert ParseTagRow(schema, header, values, t).None?;
      }
    }
  }

  /**
   * A driver tag row one of whose properties ends the property loop (a cell
   * its type cannot parse, or a column past the end of the row) changes
   * nothing.
   */
  lemma BadPropertyCell(schema: Schema, p: Progress, start: NodeId, header: seq<string>, values: seq<string>, d: Driver, i: nat)
    requires Valid(p.space) && start in p.space.nodes
    requires Field(values, header, FixedColumns[0]) == Some(DriverTypeName(d))
    requires i < |schema(d)| && CellFails(schema(d)[i], header, values)
    ensures ImportLine(schema, p, start, header, values) == p
  {
    ImportPropertiesFails(Defaults(schema(d)), schema(d), header, values);
    assert DriverOfTypeName(DriverTypeName(d)) == Some(d);
    assert ParseTagRow(schema, header, values, DriverTypeName(d)).None?;
  }

  // ---------------------------------------------------------------------------
  // The property loop
  // ---------------------------------------------------------------------------

  /** The property loop fails exactly when one of the declared properties ends the row. */
  lemma {:induction false} ImportPropertiesFails(props: map<string, PropValue>, decls: seq<PropertyDecl>, header: seq<string>, values: seq<string>)
    ensures ImportProperties(props, decls, header, values).None?
        <==> exists i | 0 <= i < |decls| :: CellFails(decls[i], header, values)
    decreases |decls|
  {
    if |decls| > 0 {
      var next := ImportProperty(props, decls[0], header, values);
      var fails := exists i | 0 <= i < |decls| :: CellFails(decls[i], header, values);
      var restFails := exists j | 0 <= j < |decls| - 1 :: CellFails(decls[1..][j], header, values);
      if next.None? {
        assert CellFails(decls[0], header, values);
        assert fails;
      } else {
        assert ImportProperties(props, decls, header, values) == ImportProperties(next.value, decls[1..], header, values);
        ImportPropertiesFails(next.value, decls[1..], header, values);
        assert !CellFails(decls[0], header, values);
        if fails {
          var i :| 0 <= i < |decls| && CellFails(decls[i], header, values);
          assert i > 0 && decls[1..][i - 1] == decls[i];
          assert restFails;
        }
        if restFails {
          var j :| 0 <= j < |decls| - 1 && CellFails(decls[1..][j], header, values);
          assert decls[j + 1] == decls[1..][j];
          assert fails;
        }
      }
    }
  }

  /** No property name is declared twice (a class declares each property once). */
  predicate DistinctNames(decls: seq<PropertyDecl>)
  {
    forall i, j | 0 <= i < j < |decls| :: decls[i].name != decls[j].name
  }

  /**
   * After the property loop, every declared property holds the value its
   * cell gives it, or else the value it had before; a property nobody
   * declares keeps its value, and no property is added.
   */
  lemma {:induction false} ImportedValues(props: map<string, PropValue>, decls: seq<PropertyDecl>, header: seq<string>, values: seq<string>)
    requires DistinctNames(decls)
    requires forall i | 0 <= i < |decls| :: decls[i].name in props
    ensures var r := ImportProperties(props, decls, header, values);
            r.Some? ==>
              && r.value.Keys == props.Keys
              && (forall i | 0 <= i < |decls| ::
                    r.value[decls[i].name]
                    == if CellValue(decls[i], header, values).Some? then CellValue(decls[i], header, values).value
                       else props[decls[i].name])
              && (forall n | n in props && Declared(decls, n).None? :: r.value[n] == props[n])
    decreases |decls|
  {
    var r := ImportProperties(props, decls, header, values);
    if |decls| > 0 && r.Some? {
      var d := decls[0];
      var next := ImportProperty(props, d, header, values).value;
      var rest := decls[1..];
      assert r == ImportProperties(next, rest, header, values);
      assert next.Keys == props.Keys;
      assert forall i | 0 <= i < |rest| :: rest[i] == decls[i + 1];
      ImportedValues(next, rest, header, values);
      assert Declared(rest, d.name).None?;
      forall i | 0 < i < |decls|
        ensures next[decls[i].name] == props[decls[i].name]
      {
        assert decls[i].name != d.name;
      }
    }
  }

  /**
   * A freshly made tag's properties after the loop: each declared property
   * is the value its cell gives it, or else its default, and the loop fails
   * exactly when one of the properties ends the row.
   */
  lemma ImportedFromDefaults(decls: seq<PropertyDecl>, header: seq<string>, values: seq<string>)
    requires DistinctNames(decls)
    ensures var r := ImportProperties(Defaults(decls), decls, header, values);
            && (r.None? <==> exists i | 0 <= i < |decls| :: CellFails(decls[i], header, values))
            && (r.Some? ==>
                  && (forall n :: n in r.value <==> exists i | 0 <= i < |decls| :: decls[i].name == n)
                  && forall i | 0 <= i < |decls| ::
                       r.value[decls[i].name]
                       == if CellValue(decls[i], header, values).Some? then CellValue(decls[i], header, values).value
                          else decls[i].default)
  {
    var props := Defaults(decls);
    forall i | 0 <= i < |decls|
      ensures decls[i].name in props && props[decls[i].name] == decls[i].default
    {
      DeclaredFirst(decls, i);
    }
    ImportPropertiesFails(props, decls, header, values);
    ImportedValues(props, decls, header, values);
  }

  /** With distinct names, the declaration found for a name is the one that bears it. */
  lemma {:induction false} DeclaredFirst(decls: seq<PropertyDecl>, i: nat)
    requires DistinctNames(decls) && i < |decls|
    ensures Declared(decls, decls[i].name) == Some(decls[i])
    decreases i
  {
    if i > 0 {
      assert decls[0].name != decls[i].name;
      assert decls[1..][i - 1] == decls[i];
      DeclaredFirst(decls[1..], i - 1);
    }
  }

  // ---------------------------------------------------------------------------
  // The update that is counted although it is rejected
  // ---------------------------------------------------------------------------

  /**
   * When the same-named child is not a driver tag whose value has the
   * imported tag's type, `TagsUpdate` leaves the project as it is, yet the
   * row still counts as an update.
   */
  lemma RejectedUpdateCounted(schema: Schema, p: Progress, start: NodeId, header: seq<string>, values: seq<string>)
    requires Valid(p.space) && start in p.space.nodes
    requires ParseRow(schema, header, values).Some? && ParseRow(schema, header, values).value.TagRow?
    requires var row := ParseRow(schema, header, values).value;
             var owner := ResolveOwner(p.space, start, row.path);
             && owner.Some?
             && FindChild(p.space, owner.value, row.name).Some?
             && var dest := p.space.nodes[FindChild(p.space, owner.value, row.name).value].kind;
                !(dest.Tag? && dest.valueType == row.tag.valueType)
    ensures ImportLine(schema, p, start, header, values) == Progress(p.space, p.counters.(updated := p.counters.updated + 1))
  {
    var row := ParseRow(schema, header, values).value;
    var owner := ResolveOwner(p.space, start, row.path).value;
    var dest := FindChild(p.space, owner, row.name).value;
    assert SetKind(p.space, dest, p.space.nodes[dest].kind) == p.space;
  }

  // ---------------------------------------------------------------------------
  // What an update may change
  // ---------------------------------------------------------------------------

  /** Only the properties of a kind changed, and only if it is a driver tag. */
  predicate SameBut(a: Kind, b: Kind)
  {
    a == b || (a.Tag? && b.Tag? && b == a.(props := b.props))
  }

  /**
   * Every property the copy changes or adds takes the source tag's value,
   * which is not null, for a property the destination declares writable
   * with the source's type.
   */
  lemma {:induction false} CopyPropsSources(srcDecls: seq<PropertyDecl>, destDecls: seq<PropertyDecl>, props: map<string, PropValue>,
                                           srcProps: map<string, PropValue>, names: seq<string>)
    ensures var r := CopyProps(srcDecls, destDecls, props, srcProps, names);
            && r.Keys >= props.Keys
            && forall n | n in r && (n !in props || r[n] != props[n]) ::
                 r[n] == PropOf(srcProps, n) && r[n] != Null && Settable(destDecls, srcDecls, n) && n in names
    decreases |names|
  {
    if |names| > 0 {
      var n0 := names[0];
      var v := PropOf(srcProps, n0);
      if v == Null {
        CopyPropsSources(srcDecls, destDecls, props, srcProps, names[1..]);
      } else if Settable(destDecls, srcDecls, n0) {
        CopyPropsSources(srcDecls, destDecls, props[n0 := v], srcProps, names[1..]);
      }
    }
  }

  /**
   * `TagsUpdate` changes nothing but a driver tag's properties, and each
   * property it changes gets the imported tag's non-null value.
   */
  lemma UpdateChangesOnlyProperties(schema: Schema, dest: Kind, src: Kind)
    requires src.Tag?
    ensures var r := UpdatedKind(schema, dest, src);
            && SameBut(dest, r)
            && (r != dest ==> dest.Tag? && dest.valueType == src.valueType)
            && (r.Tag? && dest.Tag? ==> forall n | n in r.props && (n !in dest.props || r.props[n] != dest.props[n]) ::
                  r.props[n] == PropOf(src.props, n) && r.props[n] != Null && Settable(schema(dest.driver), schema(src.driver), n))
  {
    if dest.Tag? && dest.valueType == src.valueType {
      CopyPropsSources(schema(src.driver), schema(dest.driver), dest.props, src.props, PropertyNames(schema(src.driver)));
    }
  }

  /** A property already holding the source's value keeps it through the copy. */
  lemma {:induction false} CopyPropsKeeps(srcDecls: seq<PropertyDecl>, destDecls: seq<PropertyDecl>, props: map<string, PropValue>,
                                         srcProps: map<string, PropValue>, names: seq<string>, n: string)
    requires n in props && props[n] == PropOf(srcProps, n)
    ensures var r := CopyProps(srcDecls, destDecls, props, srcProps, names);
            n in r && r[n] == PropOf(srcProps, n)
    decreases |names|
  {
    if |names| > 0 {
      var n0 := names[0];
      var v := PropOf(srcProps, n0);
      if v == Null {
        CopyPropsKeeps(srcDecls, destDecls, props, srcProps, names[1..], n);
      } else if Settable(destDecls, srcDecls, n0) {
        CopyPropsKeeps(srcDecls, destDecls, props[n0 := v], srcProps, names[1..], n);
      }
    }
  }

  /** Copying the same properties twice is copying them once. */
  lemma {:induction false} CopyPropsTwice(srcDecls: seq<PropertyDecl>, destDecls: seq<PropertyDecl>, props: map<string, PropValue>,
                                         srcProps: map<string, PropValue>, names: seq<string>)
    ensures var once := CopyProps(srcDecls, destDecls, props, srcProps, names);
            CopyProps(srcDecls, destDecls, once, srcProps, names) == once
    decreases |names|
  {
    if |names| > 0 {
      var n0 := names[0];
      var v := PropOf(srcProps, n0);
      if v == Null {
        CopyPropsTwice(srcDecls, destDecls, props, srcProps, names[1..]);
      } else if Settable(destDecls, srcDecls, n0) {
        var p1 := props[n0 := v];
        var once := CopyProps(srcDecls, destDecls, p1, srcProps, names[1..]);
        CopyPropsKeeps(srcDecls, destDecls, p1, srcProps, names[1..], n0);
        assert once[n0 := v] == once;
        CopyPropsTwice(srcDecls, destDecls, p1, srcProps, names[1..]);
      }
    }
  }

  /** Copying a map's properties into itself changes nothing. */
  lemma {:induction false} CopyPropsSelf(srcDecls: seq<PropertyDecl>, destDecls: seq<PropertyDecl>, props: map<string, PropValue>, names: seq<string>)
    ensures CopyProps(srcDecls, destDecls, props, props, names) == props
    decreases |names|
  {
    if |names| > 0 {
      var n0 := names[0];
      var v := PropOf(props, n0);
      if v != Null {
        assert n0 in props && props[n0 := v] == props;
      }
      CopyPropsSelf(srcDecls, destDecls, props, names[1..]);
    }
  }

  /** Updating a tag from the same imported tag a second time changes nothing more. */
  lemma UpdateIdempotent(schema: Schema, dest: Kind, src: Kind)
    requires src.Tag?
    ensures UpdatedKind(schema, UpdatedKind(schema, dest, src), src) == UpdatedKind(schema, dest, src)
  {
    if dest.Tag? && dest.valueType == src.valueType {
      CopyPropsTwice(schema(src.driver), schema(dest.driver), dest.props, src.props, PropertyNames(schema(src.driver)));
    }
  }

  /** Updating a tag from a tag equal to it changes nothing. */
  lemma UpdateWithItself(schema: Schema, k: Kind)
    requires k.Tag?
    ensures UpdatedKind(schema, k, k) == k
  {
    CopyPropsSelf(schema(k.driver), schema(k.driver), k.props, PropertyNames(schema(k.driver)));
  }

  // ---------------------------------------------------------------------------
  // Accounting
  // ---------------------------------------------------------------------------

  /** Every node keeps its kind, or (a driver tag) only its properties changed. */
  ghost predicate KindsKept(s: Space, t: Space)
  {
    forall id | id in s.nodes :: id in t.nodes && SameBut(s.nodes[id].kind, t.nodes[id].kind)
  }

  /**
   * From `p` to `r` the project only grew, kinds only changed in tag
   * properties, no counter went down, and the new nodes are exactly the
   * tags and structures counted as created.
   */
  ghost predicate Accounted(p: Progress, r: Progress)
  {
    && Grows(p.space, r.space)
    && KindsKept(p.space, r.space)
    && p.counters.created <= r.counters.created
    && p.counters.updated <= r.counters.updated
    && p.counters.structures <= r.counters.structures
    && r.space.nextId - p.space.nextId
       == (r.counters.created - p.counters.created) + (r.counters.structures - p.counters.structures)
  }

  /** How many rows the counters say were handled between `p` and `r`. */
  function Handled(p: Progress, r: Progress): int
  {
    (r.counters.created - p.counters.created) + (r.counters.updated - p.counters.updated)
    + (r.counters.structures - p.counters.structures)
  }

  lemma AccountedTrans(p: Progress, q: Progress, r: Progress)
    requires Accounted(p, q) && Accounted(q, r)
    ensures Accounted(p, r)
  {
    GrowsTrans(p.space, q.space, r.space);
    forall id | id in p.space.nodes ensures id in r.space.nodes && SameBut(p.space.nodes[id].kind, r.space.nodes[id].kind) {
      var a := p.space.nodes[id].kind;
      var b := q.space.nodes[id].kind;
      var c := r.space.nodes[id].kind;
      assert SameBut(a, b) && SameBut(b, c);
    }
  }

  lemma SetKindGrows(s: Space, id: NodeId, kind: Kind)
    requires Valid(s) && id in s.nodes
    ensures Grows(s, SetKind(s, id, kind))
  {
    var r := SetKind(s, id, kind);
    assert s.nodes[id].children <= r.nodes[id].children;
  }

  /** Updating an existing node counts one update and changes at most that node's tag properties. */
  lemma UpdateAccounted(schema: Schema, p: Progress, dest: NodeId, src: Kind)
    requires Valid(p.space) && dest in p.space.nodes && src.Tag?
    ensures var k := UpdatedKind(schema, p.space.nodes[dest].kind, src);
            var r := Progress(SetKind(p.space, dest, k), p.counters.(updated := p.counters.updated + 1));
            Accounted(p, r) && Handled(p, r) == 1
  {
    var k := UpdatedKind(schema, p.space.nodes[dest].kind, src);
    UpdateChangesOnlyProperties(schema, p.space.nodes[dest].kind, src);
    SetKindGrows(p.space, dest, k);
  }

  /** Adding a node counts one creation, of a tag or of a structure. */
  lemma AddAccounted(p: Progress, owner: NodeId, name: string, kind: Kind, c: Counters)
    requires Valid(p.space) && owner in p.space.nodes
    requires c == p.counters.(created := p.counters.created + 1) || c == p.counters.(structures := p.counters.structures + 1)
    ensures var r := Progress(AddNew(p.space, owner, name, kind), c);
            Accounted(p, r) && Handled(p, r) == 1
  {
    AddNewGrows(p.space, owner, name, kind);
  }

  /** One row handles at most one node: it adds one, updates one, or changes nothing. */
  lemma ImportLineAccounted(schema: Schema, p: Progress, start: NodeId, header: seq<string>, values: seq<string>)
    requires Valid(p.space) && start in p.space.nodes
    ensures var r := ImportLine(schema, p, start, header, values);
            Accounted(p, r) && Handled(p, r) <= 1
  {
    GrowsRefl(p.space);
    match ParseRow(schema, header, values)
    case None =>
    case Some(row) =>
      match ResolveOwner(p.space, start, row.path)
      case None =>
      case Some(owner) =>
        match FindChild(p.space, owner, row.name)
        case Some(dest) =>
          if row.TagRow? {
            UpdateAccounted(schema, p, dest, row.tag);
          }
        case None =>
          if row.StructureRow? {
            AddAccounted(p, owner, row.name, TagStructure(row.dims, ""), p.counters.(structures := p.counters.structures + 1));
          } else {
            AddAccounted(p, owner, row.name, row.tag, p.counters.(created := p.counters.created + 1));
          }
  }

  /** Over a whole file: the project only grows, and the rows handled are at most the rows after the header. */
  lemma {:induction false} ImportLinesAccounted(schema: Schema, p: Progress, start: NodeId, header: seq<string>, lines: seq<string>)
    requires Valid(p.space) && start in p.space.nodes
    ensures var r := ImportLines(schema, p, start, header, lines);
            Accounted(p, r) && Handled(p, r) <= |lines|
    decreases |lines|
  {
    if |lines| == 0 {
      GrowsRefl(p.space);
    } else {
      var init := lines[..|lines| - 1];
      var q := ImportLines(schema, p, start, header, init);
      ImportLinesAccounted(schema, p, start, header, init);
      ImportLineAccounted(schema, q, start, header, Split(lines[|lines| - 1], Separator));
      AccountedTrans(p, q, ImportLines(schema, p, start, header, lines));
    }
  }

  /** `ImportOrUpdateFromCsv` only grows the project, and counts each row after the header at most once. */
  lemma ImportAccounted(schema: Schema, p: Progress, start: NodeId, lines: seq<string>)
    requires Valid(p.space) && start in p.space.nodes
    ensures var r := Import(schema, p, start, lines);
            Accounted(p, r) && Handled(p, r) <= if |lines| == 0 then 0 else |lines| - 1
  {
    if |lines| == 0 {
      GrowsRefl(p.space);
    } else {
      ImportLinesAccounted(schema, p, start, Split(lines[0], Separator), lines[1..]);
    }
  }

  // ---------------------------------------------------------------------------
  // Siblings keep distinct names
  // ---------------------------------------------------------------------------

  /** No two children of a node share a name. */
  ghost predicate UniqueChildren(s: Space)
    requires Valid(s)
  {
    forall id | id in s.nodes ::
      forall i, j | 0 <= i < j < |s.nodes[id].children| ::
        s.nodes[s.nodes[id].children[i]].name != s.nodes[s.nodes[id].children[j]].name
  }

  lemma AddNewUnique(s: Space, parent: NodeId, name: string, kind: Kind)
    requires Valid(s) && parent in s.nodes && UniqueChildren(s)
    requires FindChild(s, parent, name).None?
    ensures UniqueChildren(AddNew(s, parent, name, kind))
  {
    var r := AddNew(s, parent, name, kind);
    forall id | id in r.nodes
      ensures forall i, j | 0 <= i < j < |r.nodes[id].children| ::
                r.nodes[r.nodes[id].children[i]].name != r.nodes[r.nodes[id].children[j]].name
    {
      if id == parent {
        var cs := r.nodes[id].children;
        forall i, j | 0 <= i < j < |cs| ensures r.nodes[cs[i]].name != r.nodes[cs[j]].name {
          assert cs[i] in s.nodes[parent].children;
          assert cs[i] != s.nextId;
          if j == |cs| - 1 {
            assert cs[j] == s.nextId;
          } else {
            assert cs[j] in s.nodes[parent].children && cs[j] != s.nextId;
          }
        }
      } else if id != s.nextId {
        var cs := r.nodes[id].children;
        forall i, j | 0 <= i < j < |cs| ensures r.nodes[cs[i]].name != r.nodes[cs[j]].name {
          assert cs[i] in s.nodes && cs[j] in s.nodes;
          assert cs[i] != s.nextId && cs[j] != s.nextId;
        }
      }
    }
  }

  /** Changing a node's kind leaves every name where it was. */
  lemma SetKindUnique(s: Space, id: NodeId, kind: Kind)
    requires Valid(s) && id in s.nodes && UniqueChildren(s)
    ensures UniqueChildren(SetKind(s, id, kind))
  {
    var r := SetKind(s, id, kind);
    forall o | o in r.nodes
      ensures forall i, j | 0 <= i < j < |r.nodes[o].children| ::
                r.nodes[r.nodes[o].children[i]].name != r.nodes[r.nodes[o].children[j]].name
    {
      var cs := r.nodes[o].children;
      assert cs == s.nodes[o].children;
      forall i, j | 0 <= i < j < |cs| ensures r.nodes[cs[i]].name != r.nodes[cs[j]].name {
        assert r.nodes[cs[i]].name == s.nodes[cs[i]].name;
        assert r.nodes[cs[j]].name == s.nodes[cs[j]].name;
      }
    }
  }

  /** A row never gives a node two children of one name. */
  lemma ImportLineUnique(schema: Schema, p: Progress, start: NodeId, header: seq<string>, values: seq<string>)
    requires Valid(p.space) && start in p.space.nodes && UniqueChildren(p.space)
    ensures UniqueChildren(ImportLine(schema, p, start, header, values).space)
  {
    match ParseRow(schema, header, values)
    case None =>
    case Some(row) =>
      match ResolveOwner(p.space, start, row.path)
      case None =>
      case Some(owner) => PlaceRowUnique(schema, p, owner, row);
  }

  lemma PlaceRowUnique(schema: Schema, p: Progress, owner: NodeId, row: Row)
    requires Valid(p.space) && owner in p.space.nodes && UniqueChildren(p.space)
    requires row.TagRow? ==> row.tag.Tag?
    ensures UniqueChildren(PlaceRow(schema, p, owner, row).space)
  {
    match FindChild(p.space, owner, row.name)
    case Some(dest) =>
      if row.TagRow? {
        SetKindUnique(p.space, dest, UpdatedKind(schema, p.space.nodes[dest].kind, row.tag));
      }
    case None =>
      var kind := if row.StructureRow? then TagStructure(row.dims, "") else row.tag;
      AddNewUnique(p.space, owner, row.name, kind);
  }

  /** Importing a file never gives a node two children of one name. */
  lemma {:induction false} ImportLinesUnique(schema: Schema, p: Progress, start: NodeId, header: seq<string>, lines: seq<string>)
    requires Valid(p.space) && start in p.space.nodes && UniqueChildren(p.space)
    ensures UniqueChildren(ImportLines(schema, p, start, header, lines).space)
    decreases |lines|
  {
    if |lines| > 0 {
      var init := lines[..|lines| - 1];
      ImportLinesUnique(schema, p, start, header, init);
      ImportLineUnique(schema, ImportLines(schema, p, start, header, init), start, header, Split(lines[|lines| - 1], Separator));
    }
  }

  // ---------------------------------------------------------------------------
  // Importing a row again
  // ---------------------------------------------------------------------------

  /** A walk that succeeded keeps leading to the same node while the project only grows. */
  lemma {:induction false} WalkStable(s: Space, t: Space, from: NodeId, names: seq<string>)
    requires Valid(s) && Valid(t) && from in s.nodes && Grows(s, t)
    requires Walk(s, from, names).Some?
    ensures Walk(t, from, names) == Walk(s, from, names)
    decreases |names|
  {
    if |names| > 0 {
      FindChildStable(s, t, from, names[0]);
      var c := FindChild(s, from, names[0]).value;
      WalkStable(s, t, c, names[1..]);
    }
  }

  /** After a row found its owner, the same path leads to the same owner in the project that row left. */
  lemma OwnerAgain(schema: Schema, p: Progress, start: NodeId, header: seq<string>, values: seq<string>, row: Row, owner: NodeId)
    requires Valid(p.space) && start in p.space.nodes
    requires ParseRow(schema, header, values) == Some(row)
    requires ResolveOwner(p.space, start, row.path) == Some(owner)
    ensures var once := ImportLine(schema, p, start, header, values);
            ResolveOwner(once.space, start, row.path) == Some(owner)
  {
    var once := ImportLine(schema, p, start, header, values);
    ImportLineAccounted(schema, p, start, header, values);
    WalkStable(p.space, once.space, start, OwnerSegments(row.path).value);
  }

  /** A second update from the same tag leaves the project as the first one did. */
  lemma UpdateAgain(schema: Schema, s: Space, owner: NodeId, name: string, dest: NodeId, src: Kind)
    requires Valid(s) && owner in s.nodes && src.Tag?
    requires FindChild(s, owner, name) == Some(dest)
    ensures var once := SetKind(s, dest, UpdatedKind(schema, s.nodes[dest].kind, src));
            && FindChild(once, owner, name) == Some(dest)
            && SetKind(once, dest, UpdatedKind(schema, once.nodes[dest].kind, src)) == once
  {
    var k := UpdatedKind(schema, s.nodes[dest].kind, src);
    var once := SetKind(s, dest, k);
    SetKindGrows(s, dest, k);
    FindChildStable(s, once, owner, name);
    UpdateIdempotent(schema, s.nodes[dest].kind, src);
    assert SetKind(once, dest, k) == once;
  }

  /** A tag just added is found again, and updating it from itself changes nothing. */
  lemma AddAgain(schema: Schema, s: Space, owner: NodeId, name: string, kind: Kind)
    requires Valid(s) && owner in s.nodes && FindChild(s, owner, name).None?
    ensures var once := AddNew(s, owner, name, kind);
            && FindChild(once, owner, name) == Some(s.nextId)
            && (kind.Tag? ==> SetKind(once, s.nextId, UpdatedKind(schema, once.nodes[s.nextId].kind, kind)) == once)
  {
    var once := AddNew(s, owner, name, kind);
    FindAfterAdd(s, owner, name, kind);
    if kind.Tag? {
      UpdateWithItself(schema, kind);
      assert SetKind(once, s.nextId, kind) == once;
    }
  }

  /**
   * Importing the same row a second time leaves the project as the first
   * time did and creates nothing; it only counts one more update when the
   * row names a tag.
   */
  lemma ImportLineTwice(schema: Schema, p: Progress, start: NodeId, header: seq<string>, values: seq<string>)
    requires Valid(p.space) && start in p.space.nodes
    ensures var once := ImportLine(schema, p, start, header, values);
            var twice := ImportLine(schema, once, start, header, values);
            && twice.space == once.space
            && twice.counters.created == once.counters.created
            && twice.counters.structures == once.counters.structures
  {
    match ParseRow(schema, header, values)
    case None =>
    case Some(row) =>
      match ResolveOwner(p.space, start, row.path)
      case None =>
      case Some(owner) =>
        OwnerAgain(schema, p, start, header, values, row, owner);
        match FindChild(p.space, owner, row.name)
        case Some(dest) =>
          if row.TagRow? {
            UpdateAgain(schema, p.space, owner, row.name, dest, row.tag);
          }
        case None =>
          var kind := if row.StructureRow? then TagStructure(row.dims, "") else row.tag;
          AddAgain(schema, p.space, owner, row.name, kind);
  }
}
