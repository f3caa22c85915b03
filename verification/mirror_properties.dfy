/**
 * What mirroring promises across runs: a second run over the same source
 * changes the shape of the Model folder no further, as long as no source name
 * holds "/" and no variable sits directly under an array-of-structures
 * template; and concrete trees showing that each of the two conditions is
 * needed, because a variable is looked up under `prefix + name` but created
 * as `Sanitize(name)`.  A run that ends in an exception promises nothing for
 * the next one; without links a PLC tag tree never makes it fail.
 */
module MirrorProperties {
  import opened Wrappers
  import opened Text
  import opened Nodes
  import opened FromPlcToModel

  /** Same nodes, same names, same child lists: at most links differ. */
  ghost predicate SameShape(a: Space, b: Space)
  {
    && a.nextId == b.nextId
    && a.nodes.Keys == b.nodes.Keys
    && forall id | id in a.nodes :: b.nodes[id].name == a.nodes[id].name && b.nodes[id].children == a.nodes[id].children
  }

  lemma SameShapeGrows(a: Space, b: Space)
    requires SameShape(a, b)
    ensures Grows(a, b) && Grows(b, a)
  {
  }

  /**
   * Every lookup the walk makes on `t` already succeeds in `s`, and, with
   * links on, every cast it then makes succeeds (the walk would add nothing
   * and throw nothing).
   */
  ghost predicate Covered(s: Space, t: Tree, parent: NodeId, prefix: string, links: bool)
    requires Valid(s) && parent in s.nodes
    decreases t, 1
  {
    if t.kind.TagStructure? && |t.kind.dims| == 0 then
      match FindChild(s, parent, prefix + t.name)
      case Some(c) => CoveredAll(s, t.children, c, "", links)
      case None => false
    else if t.kind.TagStructure? then CoveredAll(s, t.children, parent, t.name + "_", links)
    else IsArrayDimensionsVar(t) || LeafCovered(s, t, parent, prefix, links)
  }

  ghost predicate LeafCovered(s: Space, t: Tree, parent: NodeId, prefix: string, links: bool)
    requires Valid(s) && parent in s.nodes
  {
    match FindChild(s, parent, prefix + t.name)
    case Some(v) => !links || (IsUAVariable(t.kind) && IsUAVariable(s.nodes[v].kind))
    case None => false
  }

  ghost predicate CoveredAll(s: Space, ts: seq<Tree>, parent: NodeId, prefix: string, links: bool)
    requires Valid(s) && parent in s.nodes
    decreases ts, 2
  {
    forall i | 0 <= i < |ts| :: IsArrayDimensionsVar(ts[i]) || Covered(s, ts[i], parent, prefix, links)
  }

  /**
   * The conditions under which the name a node is created with is the name it
   * is later looked up by: no name holds "/", and every variable the walk
   * reaches is reached with an empty prefix.
   */
  ghost predicate Rerunnable(t: Tree, prefix: string)
    decreases t
  {
    && '/' !in t.name
    && if t.kind.TagStructure? then
         forall i | 0 <= i < |t.children| ::
           IsArrayDimensionsVar(t.children[i])
           || Rerunnable(t.children[i], if |t.kind.dims| == 0 then "" else t.name + "_")
       else IsArrayDimensionsVar(t) || prefix == ""
  }

  // ---------------------------------------------------------------------------
  // Coverage survives growth
  // ---------------------------------------------------------------------------

  lemma LeafCoveredGrows(s: Space, u: Space, t: Tree, parent: NodeId, prefix: string, links: bool)
    requires Valid(s) && Valid(u) && OnlyAddsAndRelinks(s, u, links) && parent in s.nodes
    requires LeafCovered(s, t, parent, prefix, links)
    ensures LeafCovered(u, t, parent, prefix, links)
  {
    FindChildStable(s, u, parent, prefix + t.name);
  }

  lemma {:induction false} CoveredGrows(s: Space, u: Space, t: Tree, parent: NodeId, prefix: string, links: bool)
    requires Valid(s) && Valid(u) && OnlyAddsAndRelinks(s, u, links) && parent in s.nodes
    requires Covered(s, t, parent, prefix, links)
    ensures Covered(u, t, parent, prefix, links)
    decreases t, 1
  {
    if t.kind.TagStructure? && |t.kind.dims| == 0 {
      FindChildStable(s, u, parent, prefix + t.name);
      var c := FindChild(s, parent, prefix + t.name).value;
      CoveredAllGrows(s, u, t.children, c, "", links);
    } else if t.kind.TagStructure? {
      CoveredAllGrows(s, u, t.children, parent, t.name + "_", links);
    } else if !IsArrayDimensionsVar(t) {
      LeafCoveredGrows(s, u, t, parent, prefix, links);
    }
  }

  lemma {:induction false} CoveredAllGrows(s: Space, u: Space, ts: seq<Tree>, parent: NodeId, prefix: string, links: bool)
    requires Valid(s) && Valid(u) && OnlyAddsAndRelinks(s, u, links) && parent in s.nodes
    requires CoveredAll(s, ts, parent, prefix, links)
    ensures CoveredAll(u, ts, parent, prefix, links)
    decreases ts, 2
  {
    forall i | 0 <= i < |ts| && !IsArrayDimensionsVar(ts[i])
      ensures Covered(u, ts[i], parent, prefix, links)
    {
      CoveredGrows(s, u, ts[i], parent, prefix, links);
    }
  }

  // ---------------------------------------------------------------------------
  // One run covers the source
  // ---------------------------------------------------------------------------

  /** After one run of the walk that went to the end, every lookup and every cast it makes succeeds. */
  lemma {:induction false} MirrorCovers(s: Space, t: Tree, parent: NodeId, prefix: string, links: bool)
    requires Valid(s) && parent in s.nodes && Rerunnable(t, prefix)
    ensures var r := Mirror(s, t, parent, prefix, links);
            r.completed ==> Covered(r.space, t, parent, prefix, links)
    decreases t, 1
  {
    if t.kind.TagStructure? && |t.kind.dims| == 0 {
      ObjectCovers(s, t, parent, prefix, links);
    } else if t.kind.TagStructure? {
      MirrorAllCovers(s, t.children, parent, t.name + "_", links);
    } else {
      VariableCovers(s, t, parent, prefix, links);
    }
  }

  lemma {:induction false} ObjectCovers(s: Space, t: Tree, parent: NodeId, prefix: string, links: bool)
    requires Valid(s) && parent in s.nodes && Rerunnable(t, prefix)
    requires t.kind.TagStructure? && |t.kind.dims| == 0
    ensures var r := MirrorObject(s, t, parent, prefix, links);
            r.completed ==> Covered(r.space, t, parent, prefix, links)
    decreases t, 0
  {
    var r := MirrorObject(s, t, parent, prefix, links);
    var name := prefix + t.name;
    var c: NodeId;
    if FindChild(s, parent, name).Some? {
      c := FindChild(s, parent, name).value;
      assert r == MirrorChildren(s, t.children, c, "", links);
      MirrorAllCovers(s, t.children, c, "", links);
      FindChildStable(s, r.space, parent, name);
    } else {
      c := s.nextId;
      var s1 := AddNew(s, parent, name, Object);
      assert r == MirrorChildren(s1, t.children, c, "", links);
      FindAfterAdd(s, parent, name, Object);
      AddNewGrows(s, parent, name, Object);
      MirrorAllCovers(s1, t.children, c, "", links);
      FindChildStable(s1, r.space, parent, name);
    }
    assert FindChild(r.space, parent, name) == Some(c);
    assert r.completed ==> CoveredAll(r.space, t.children, c, "", links);
  }

  lemma VariableCovers(s: Space, t: Tree, parent: NodeId, prefix: string, links: bool)
    requires Valid(s) && parent in s.nodes && !t.kind.TagStructure? && Rerunnable(t, prefix)
    ensures var r := MirrorVariable(s, t, parent, prefix, links);
            r.completed ==> Covered(r.space, t, parent, prefix, links)
  {
    var r := MirrorVariable(s, t, parent, prefix, links);
    if !IsArrayDimensionsVar(t) && r.completed {
      var name := prefix + t.name;
      assert name == Sanitize(t.name);
      var v: NodeId;
      if FindChild(s, parent, name).None? {
        v := s.nextId;
        var kind := Variable(t.kind.dataType, t.kind.dims, "");
        var s1 := AddNew(s, parent, name, kind);
        FindAfterAdd(s, parent, name, kind);
        FindChildStable(s1, r.space, parent, name);
      } else {
        v := FindChild(s, parent, name).value;
        FindChildStable(s, r.space, parent, name);
      }
      assert FindChild(r.space, parent, name) == Some(v);
      assert links ==> IsUAVariable(t.kind) && IsUAVariable(r.space.nodes[v].kind);
    }
  }

  lemma {:induction false} MirrorAllCovers(s: Space, ts: seq<Tree>, parent: NodeId, prefix: string, links: bool)
    requires Valid(s) && parent in s.nodes
    requires forall i | 0 <= i < |ts| :: IsArrayDimensionsVar(ts[i]) || Rerunnable(ts[i], prefix)
    ensures var r := MirrorChildren(s, ts, parent, prefix, links);
            r.completed ==> CoveredAll(r.space, ts, parent, prefix, links)
    decreases ts, 2
  {
    if |ts| > 0 {
      var r1 := if IsArrayDimensionsVar(ts[0]) then Run(s, true) else Mirror(s, ts[0], parent, prefix, links);
      if r1.completed {
        var r := MirrorChildren(r1.space, ts[1..], parent, prefix, links);
        assert r == MirrorChildren(s, ts, parent, prefix, links);
        assert forall i | 0 <= i < |ts| - 1 :: ts[1..][i] == ts[i + 1];
        MirrorAllCovers(r1.space, ts[1..], parent, prefix, links);
        if r.completed {
          if !IsArrayDimensionsVar(ts[0]) {
            MirrorCovers(s, ts[0], parent, prefix, links);
            CoveredGrows(r1.space, r.space, ts[0], parent, prefix, links);
          }
          CoveredAllCons(r.space, ts, parent, prefix, links);
        }
      }
    }
  }

  lemma CoveredAllCons(s: Space, ts: seq<Tree>, parent: NodeId, prefix: string, links: bool)
    requires Valid(s) && parent in s.nodes && |ts| > 0
    requires IsArrayDimensionsVar(ts[0]) || Covered(s, ts[0], parent, prefix, links)
    requires CoveredAll(s, ts[1..], parent, prefix, links)
    ensures CoveredAll(s, ts, parent, prefix, links)
  {
    forall i | 0 < i < |ts| && !IsArrayDimensionsVar(ts[i])
      ensures Covered(s, ts[i], parent, prefix, links)
    {
      assert ts[i] == ts[1..][i - 1];
    }
  }

  // ---------------------------------------------------------------------------
  // A covered source is mirrored without any change of shape
  // ---------------------------------------------------------------------------

  /**
   * When every lookup and cast succeeds, the walk goes to the end, adds
   * nothing and renames nothing; without links it changes nothing at all.
   */
  lemma {:induction false} CoveredMirrorKeepsShape(s: Space, t: Tree, parent: NodeId, prefix: string, links: bool)
    requires Valid(s) && parent in s.nodes && Covered(s, t, parent, prefix, links)
    ensures var r := Mirror(s, t, parent, prefix, links);
            r.completed && SameShape(s, r.space) && (!links ==> r.space == s)
    decreases t, 1
  {
    if t.kind.TagStructure? && |t.kind.dims| == 0 {
      var c := FindChild(s, parent, prefix + t.name).value;
      CoveredAllMirrorKeepsShape(s, t.children, c, "", links);
    } else if t.kind.TagStructure? {
      CoveredAllMirrorKeepsShape(s, t.children, parent, t.name + "_", links);
    }
  }

  lemma {:induction false} CoveredAllMirrorKeepsShape(s: Space, ts: seq<Tree>, parent: NodeId, prefix: string, links: bool)
    requires Valid(s) && parent in s.nodes
    requires CoveredAll(s, ts, parent, prefix, links)
    ensures var r := MirrorChildren(s, ts, parent, prefix, links);
            r.completed && SameShape(s, r.space) && (!links ==> r.space == s)
    decreases ts, 2
  {
    if |ts| > 0 {
      var r1 := if IsArrayDimensionsVar(ts[0]) then Run(s, true) else Mirror(s, ts[0], parent, prefix, links);
      if !IsArrayDimensionsVar(ts[0]) {
        CoveredMirrorKeepsShape(s, ts[0], parent, prefix, links);
      }
      SameShapeGrows(s, r1.space);
      CoveredAllGrows(s, r1.space, ts, parent, prefix, links);
      CoveredAllTail(r1.space, ts, parent, prefix, links);
      CoveredAllMirrorKeepsShape(r1.space, ts[1..], parent, prefix, links);
    }
  }

  lemma CoveredAllTail(s: Space, ts: seq<Tree>, parent: NodeId, prefix: string, links: bool)
    requires Valid(s) && parent in s.nodes && |ts| > 0 && CoveredAll(s, ts, parent, prefix, links)
    ensures CoveredAll(s, ts[1..], parent, prefix, links)
  {
    forall i | 0 <= i < |ts| - 1 && !IsArrayDimensionsVar(ts[1..][i])
      ensures Covered(s, ts[1..][i], parent, prefix, links)
    {
      assert ts[1..][i] == ts[i + 1];
    }
  }

  /**
   * Idempotence: after a run that went to the end, running the mirror a
   * second time over the same source goes to the end too, adds no node and
   * changes no child list (only links may be rebound), and with links off it
   * changes nothing.
   */
  lemma MirrorIdempotent(s: Space, t: Tree, parent: NodeId, links: bool)
    requires Valid(s) && parent in s.nodes && Rerunnable(t, "")
    ensures var once := Mirror(s, t, parent, "", links);
            var twice := Mirror(once.space, t, parent, "", links);
            once.completed ==>
              twice.completed && SameShape(once.space, twice.space) && (!links ==> twice.space == once.space)
  {
    var once := Mirror(s, t, parent, "", links);
    MirrorCovers(s, t, parent, "", links);
    if once.completed {
      CoveredMirrorKeepsShape(once.space, t, parent, "", links);
    }
  }

  // ---------------------------------------------------------------------------
  // When a run ends in an exception
  // ---------------------------------------------------------------------------

  /** Without links, every cast the walk makes on a PLC tag tree succeeds: the run goes to the end. */
  lemma {:induction false} PlainRunCompletes(s: Space, t: Tree, parent: NodeId, prefix: string)
    requires Valid(s) && parent in s.nodes && PlcTree(t)
    ensures Mirror(s, t, parent, prefix, false).completed
    decreases t, 1
  {
    if t.kind.TagStructure? {
      assert forall i | 0 <= i < |t.children| :: IsArrayDimensionsVar(t.children[i]) || PlcTree(t.children[i]);
      if |t.kind.dims| != 0 {
        PlainChildrenComplete(s, t.children, parent, t.name + "_");
      } else {
        match FindChild(s, parent, prefix + t.name)
        case Some(c) =>
          PlainChildrenComplete(s, t.children, c, "");
        case None =>
          var s1 := AddNew(s, parent, prefix + Sanitize(t.name), Object);
          PlainChildrenComplete(s1, t.children, s.nextId, "");
      }
    }
  }

  lemma {:induction false} PlainChildrenComplete(s: Space, ts: seq<Tree>, parent: NodeId, prefix: string)
    requires Valid(s) && parent in s.nodes
    requires forall i | 0 <= i < |ts| :: IsArrayDimensionsVar(ts[i]) || PlcTree(ts[i])
    ensures MirrorChildren(s, ts, parent, prefix, false).completed
    decreases ts, 2
  {
    if |ts| > 0 {
      var r1 := if IsArrayDimensionsVar(ts[0]) then Run(s, true) else Mirror(s, ts[0], parent, prefix, false);
      if !IsArrayDimensionsVar(ts[0]) {
        PlainRunCompletes(s, ts[0], parent, prefix);
      }
      assert forall i | 0 <= i < |ts| - 1 :: ts[1..][i] == ts[i + 1];
      PlainChildrenComplete(r1.space, ts[1..], parent, prefix);
    }
  }

  /**
   * A folder inside the source tree, with no node of its name in the
   * model yet, cannot be cast to a variable: the run ends there, keeping the
   * object already created for the enclosing structure, and the variable
   * after the folder is never mirrored.
   */
  lemma FolderEndsRun(s: Space, t: Tree, parent: NodeId)
    requires Valid(s) && parent in s.nodes && s.nodes[parent].children == []
    requires t.kind == TagStructure([], "") && |t.children| == 2
    requires t.children[0].kind == Folder && t.children[1].kind.Variable?
    requires !IsArrayDimensionsVar(t.children[0])
    ensures Mirror(s, t, parent, "", false) == Run(AddNew(s, parent, Sanitize(t.name), Object), false)
  {
    assert "" + t.name == t.name && "" + Sanitize(t.name) == Sanitize(t.name);
    assert FindChild(s, parent, t.name).None?;
    var s1 := AddNew(s, parent, Sanitize(t.name), Object);
    assert Mirror(s, t, parent, "", false) == MirrorChildren(s1, t.children, s.nextId, "", false);
    var f := t.children[0];
    assert "" + f.name == f.name;
    assert s1.nodes[s.nextId].children == [];
    assert FindChild(s1, s.nextId, f.name).None?;
    assert MirrorVariable(s1, f, s.nextId, "", false) == Run(s1, false);
    assert Mirror(s1, f, s.nextId, "", false) == Run(s1, false);
  }

  // ---------------------------------------------------------------------------
  // What a single step creates
  // ---------------------------------------------------------------------------

  /**
   * An existing node of the looked-up name that is a tag structure passes the
   * cast: with links on, a plain PLC variable relinks it and the run goes on.
   */
  lemma ExistingStructureRelinked(s: Space, t: Tree, parent: NodeId, v: NodeId)
    requires Valid(s) && parent in s.nodes && t.kind.Variable? && !IsArrayDimensionsVar(t)
    requires FindChild(s, parent, t.name) == Some(v) && s.nodes[v].kind.TagStructure?
    ensures var r := MirrorVariable(s, t, parent, "", true);
            && r.completed
            && r.space == SetKind(s, v, TagStructure(s.nodes[v].kind.dims, LinkText(t.id, None)))
  {
    assert "" + t.name == t.name;
  }

  /**
   * `CreateOrUpdateVariable` case by case.  A bookkeeping node changes
   * nothing.  An existing node only has its link rebound, which with links on
   * needs it and the source to be variables (a driver tag or a tag structure
   * as much as a plain variable), and otherwise ends the run.  A missing node is created under
   * its sanitized name, without the prefix it was looked up by, with the
   * source's data type and dimensions, and bound to the source when links are
   * on; a missing node whose source is no variable ends the run.
   */
  lemma MirrorVariableEffect(s: Space, t: Tree, parent: NodeId, prefix: string, links: bool)
    requires Valid(s) && parent in s.nodes
    ensures var r := MirrorVariable(s, t, parent, prefix, links);
            && (IsArrayDimensionsVar(t) ==> r == Run(s, true))
            && (!IsArrayDimensionsVar(t) && FindChild(s, parent, prefix + t.name).Some? ==>
                  var v := FindChild(s, parent, prefix + t.name).value;
                  && r.completed == (!links || (IsUAVariable(s.nodes[v].kind) && IsUAVariable(t.kind)))
                  && r.space.nodes.Keys == s.nodes.Keys
                  && r.space.nodes[v].kind
                     == (if links && r.completed then WithLink(s.nodes[v].kind, LinkText(t.id, None)) else s.nodes[v].kind))
            && (!IsArrayDimensionsVar(t) && FindChild(s, parent, prefix + t.name).None? && !IsVariable(t.kind) ==>
                  r == Run(s, false))
            && (!IsArrayDimensionsVar(t) && FindChild(s, parent, prefix + t.name).None? && IsVariable(t.kind) ==>
                  && r.completed
                  && r.space.nextId == s.nextId + 1
                  && r.space.nodes[parent].children == s.nodes[parent].children + [s.nextId]
                  && r.space.nodes[s.nextId]
                     == Node(Sanitize(t.name), Variable(t.kind.dataType, t.kind.dims, if links then LinkText(t.id, None) else ""), []))
  {
  }

  /**
   * A child whose lower-cased name holds "arraydimen", whatever its kind, is
   * skipped by the children loop: the rest are mirrored as if it were absent.
   */
  lemma DimensionsChildSkipped(s: Space, t: Tree, rest: seq<Tree>, parent: NodeId, prefix: string, links: bool)
    requires Valid(s) && parent in s.nodes && IsArrayDimensionsVar(t)
    ensures MirrorChildren(s, [t] + rest, parent, prefix, links) == MirrorChildren(s, rest, parent, prefix, links)
  {
    assert ([t] + rest)[0] == t && ([t] + rest)[1..] == rest;
  }

  /** The test ignores case: "ArrayDimensions" is a dimensions variable, "Speed" is not. */
  lemma DimensionsNames(t: Tree, u: Tree)
    requires t.name == "ArrayDimensions" && u.name == "Speed"
    ensures IsArrayDimensionsVar(t) && !IsArrayDimensionsVar(u)
  {
    var low := ToLower(t.name);
    assert low[..10] == "arraydimen" by {
      assert low[0] == 'a' && low[1] == 'r' && low[2] == 'r' && low[3] == 'a' && low[4] == 'y';
      assert low[5] == 'd' && low[6] == 'i' && low[7] == 'm' && low[8] == 'e' && low[9] == 'n';
    }
    assert |ToLower(u.name)| == 5;
    ContainsLength(ToLower(u.name), "arraydimen");
  }

  /**
   * A missing structure is created as an object named `prefix + Sanitize(name)`,
   * appended to the parent's children.
   */
  lemma MirrorObjectCreates(s: Space, t: Tree, parent: NodeId, prefix: string, links: bool)
    requires Valid(s) && parent in s.nodes && t.kind.TagStructure?
    requires FindChild(s, parent, prefix + t.name).None?
    ensures var r := MirrorObject(s, t, parent, prefix, links).space;
            && s.nextId in r.nodes
            && r.nodes[s.nextId].name == prefix + Sanitize(t.name)
            && r.nodes[s.nextId].kind == Object
            && s.nodes[parent].children + [s.nextId] <= r.nodes[parent].children
  {
    var r := MirrorObject(s, t, parent, prefix, links);
    var s1 := AddNew(s, parent, prefix + Sanitize(t.name), Object);
    assert r == MirrorChildren(s1, t.children, s.nextId, "", links);
    assert s1.nodes[parent].children <= r.space.nodes[parent].children;
  }

  /** An existing object is reused: it keeps its name and nothing is added before it. */
  lemma MirrorObjectReuses(s: Space, t: Tree, parent: NodeId, prefix: string, links: bool)
    requires Valid(s) && parent in s.nodes && t.kind.TagStructure?
    requires FindChild(s, parent, prefix + t.name).Some?
    ensures var r := MirrorObject(s, t, parent, prefix, links).space;
            var c := FindChild(s, parent, prefix + t.name).value;
            && r.nextId >= s.nextId
            && FindChild(r, parent, prefix + t.name) == Some(c)
  {
    var r := MirrorObject(s, t, parent, prefix, links);
    FindChildStable(s, r.space, parent, prefix + t.name);
  }

  // ---------------------------------------------------------------------------
  // Flattening, and why the two conditions of idempotence are needed
  // ---------------------------------------------------------------------------

  lemma MirrorArray(s: Space, t: Tree, parent: NodeId, prefix: string, links: bool)
    requires Valid(s) && parent in s.nodes && t.kind.TagStructure? && |t.kind.dims| != 0
    ensures Mirror(s, t, parent, prefix, links) == MirrorChildren(s, t.children, parent, t.name + "_", links)
  {
  }

  /** Without links, a variable whose lookup fails is added under its sanitized name and nothing else happens. */
  lemma MissingVariableAdded(s: Space, t: Tree, parent: NodeId, prefix: string) returns (r: Space)
    requires Valid(s) && parent in s.nodes && t.kind.Variable? && !IsArrayDimensionsVar(t)
    requires FindChild(s, parent, prefix + t.name).None?
    ensures Mirror(s, t, parent, prefix, false) == Run(r, true)
    ensures r == AddNew(s, parent, Sanitize(t.name), Variable(t.kind.dataType, t.kind.dims, ""))
  {
    r := AddNew(s, parent, Sanitize(t.name), Variable(t.kind.dataType, t.kind.dims, ""));
    assert Mirror(s, t, parent, prefix, false) == MirrorVariable(s, t, parent, prefix, false);
  }

  /** A lookup by a name other than the one just added still fails. */
  lemma StillMissing(s: Space, parent: NodeId, added: string, kind: Kind, name: string)
    requires Valid(s) && parent in s.nodes && FindChild(s, parent, name).None? && added != name
    ensures FindChild(AddNew(s, parent, added, kind), parent, name).None?
  {
    var r := AddNew(s, parent, added, kind);
    forall c | c in r.nodes[parent].children ensures r.nodes[c].name != name {
      if c != s.nextId {
        assert c in s.nodes[parent].children;
      }
    }
  }

  /**
   * Without the "/" condition the mirror is not idempotent: a variable whose
   * name holds "/" is created under the sanitized name, so the next lookup
   * fails again and every run adds another node.
   */
  lemma SlashNameAddedEveryRun(s: Space, t: Tree, parent: NodeId)
    requires Valid(s) && parent in s.nodes && t.kind.Variable? && !IsArrayDimensionsVar(t) && '/' in t.name
    requires FindChild(s, parent, t.name).None?
    ensures var once := Mirror(s, t, parent, "", false).space;
            && once.nextId == s.nextId + 1
            && FindChild(once, parent, t.name).None?
            && Mirror(once, t, parent, "", false).space.nextId == once.nextId + 1
  {
    var once := MissingVariableAdded(s, t, parent, "");
    assert Sanitize(t.name) != t.name;
    StillMissing(s, parent, Sanitize(t.name), Variable(t.kind.dataType, t.kind.dims, ""), t.name);
    var twice := MissingVariableAdded(once, t, parent, "");
  }

  /**
   * Without the prefix condition the mirror is not idempotent: the variable
   * of an array template is looked up as "<template>_<name>" but created as
   * "<name>", so every run adds another node.
   */
  lemma TemplateVariableAddedEveryRun(s: Space, t: Tree, parent: NodeId)
    requires Valid(s) && parent in s.nodes && t.kind.TagStructure? && |t.kind.dims| != 0
    requires |t.children| == 1 && t.children[0].kind.Variable? && !IsArrayDimensionsVar(t.children[0])
    requires FindChild(s, parent, t.name + "_" + t.children[0].name).None?
    ensures var once := Mirror(s, t, parent, "", false).space;
            && once.nextId == s.nextId + 1
            && FindChild(once, parent, t.name + "_" + t.children[0].name).None?
            && Mirror(once, t, parent, "", false).space.nextId == once.nextId + 1
  {
    var x := t.children[0];
    var once := TemplateStep(s, t, parent);
    assert |Sanitize(x.name)| < |t.name + "_" + x.name|;
    StillMissing(s, parent, Sanitize(x.name), Variable(x.kind.dataType, x.kind.dims, ""), t.name + "_" + x.name);
    var twice := TemplateStep(once, t, parent);
  }

  /** One run over a template holding a single variable whose lookup fails. */
  lemma TemplateStep(s: Space, t: Tree, parent: NodeId) returns (r: Space)
    requires Valid(s) && parent in s.nodes && t.kind.TagStructure? && |t.kind.dims| != 0
    requires |t.children| == 1 && t.children[0].kind.Variable? && !IsArrayDimensionsVar(t.children[0])
    requires FindChild(s, parent, t.name + "_" + t.children[0].name).None?
    ensures Mirror(s, t, parent, "", false) == Run(r, true)
    ensures r == AddNew(s, parent, Sanitize(t.children[0].name), Variable(t.children[0].kind.dataType, t.children[0].kind.dims, ""))
  {
    var ts := t.children;
    var prefix := t.name + "_";
    MirrorArray(s, t, parent, "", false);
    r := MissingVariableAdded(s, ts[0], parent, prefix);
    MirrorChildrenStep(s, ts, 0, parent, prefix, false, Run(r, true));
    assert ts[0..] == ts && ts[1..] == [];
    assert MirrorChildren(r, [], parent, prefix, false) == Run(r, true);
  }

  /**
   * An array of tag structures is flattened into the parent: a nested
   * structure becomes an object named "<template>_<field>", a variable keeps
   * its own name, and no object stands for the template itself.
   */
  lemma ArrayTemplateFlattened(s: Space, t: Tree, parent: NodeId)
    requires Valid(s) && parent in s.nodes && s.nodes[parent].children == []
    requires t.kind.TagStructure? && |t.kind.dims| != 0 && |t.children| == 2
    requires t.children[0].kind == TagStructure([], "") && t.children[0].children == []
    requires t.children[1].kind.Variable?
    requires !IsArrayDimensionsVar(t.children[0]) && !IsArrayDimensionsVar(t.children[1])
    requires '/' !in t.children[0].name && '/' !in t.children[1].name
    requires t.children[0].name != t.children[1].name
    ensures var r := Mirror(s, t, parent, "", false);
            && r.completed
            && r.space.nodes[parent].children == [s.nextId, s.nextId + 1]
            && r.space.nodes[s.nextId] == Node(t.name + "_" + t.children[0].name, Object, [])
            && r.space.nodes[s.nextId + 1] == Node(t.children[1].name, Variable(t.children[1].kind.dataType, t.children[1].kind.dims, ""), [])
  {
    var x := t.children[0];
    var y := t.children[1];
    FlattenSteps(s, t, parent);
    TwoAdds(s, parent, t.name + "_" + x.name, Object, y.name, Variable(y.kind.dataType, y.kind.dims, ""));
  }

  lemma FlattenSteps(s: Space, t: Tree, parent: NodeId)
    requires Valid(s) && parent in s.nodes && s.nodes[parent].children == []
    requires t.kind.TagStructure? && |t.kind.dims| != 0 && |t.children| == 2
    requires t.children[0].kind == TagStructure([], "") && t.children[0].children == []
    requires t.children[1].kind.Variable?
    requires !IsArrayDimensionsVar(t.children[0]) && !IsArrayDimensionsVar(t.children[1])
    requires '/' !in t.children[0].name && '/' !in t.children[1].name
    requires t.children[0].name != t.children[1].name
    ensures Mirror(s, t, parent, "", false)
         == Run(AddNew(AddNew(s, parent, t.name + "_" + t.children[0].name, Object), parent, t.children[1].name,
                       Variable(t.children[1].kind.dataType, t.children[1].kind.dims, "")), true)
  {
    var x := t.children[0];
    var y := t.children[1];
    var prefix := t.name + "_";
    var s1 := EmptyStructureAdded(s, x, parent, prefix);
    assert FindChild(s1, parent, prefix + y.name).None? by {
      assert s1.nodes[parent].children == [s.nextId];
      assert (prefix + x.name)[|prefix|..] == x.name && (prefix + y.name)[|prefix|..] == y.name;
    }
    var s2 := MissingVariableAdded(s1, y, parent, prefix);
    assert Sanitize(y.name) == y.name;
    MirrorArrayOfTwo(s, t, parent, s1, s2);
  }

  lemma TwoAdds(s: Space, parent: NodeId, n1: string, k1: Kind, n2: string, k2: Kind)
    requires Valid(s) && parent in s.nodes && s.nodes[parent].children == []
    ensures var r := AddNew(AddNew(s, parent, n1, k1), parent, n2, k2);
            && r.nodes[parent].children == [s.nextId, s.nextId + 1]
            && r.nodes[s.nextId] == Node(n1, k1, [])
            && r.nodes[s.nextId + 1] == Node(n2, k2, [])
  {
    var s1 := AddNew(s, parent, n1, k1);
    var r := AddNew(s1, parent, n2, k2);
    assert s1.nodes[parent].children == [s.nextId];
    assert r.nodes[parent].children == [s.nextId] + [s.nextId + 1];
  }

  /** Without links, a childless structure whose lookup fails is added as an object and nothing else happens. */
  lemma EmptyStructureAdded(s: Space, x: Tree, parent: NodeId, prefix: string) returns (r: Space)
    requires Valid(s) && parent in s.nodes && x.kind == TagStructure([], "") && x.children == [] && '/' !in x.name
    requires FindChild(s, parent, prefix + x.name).None?
    ensures Mirror(s, x, parent, prefix, false) == Run(r, true)
    ensures r == AddNew(s, parent, prefix + x.name, Object)
  {
    r := AddNew(s, parent, prefix + x.name, Object);
    assert Sanitize(x.name) == x.name;
    assert MirrorChildren(r, [], s.nextId, "", false) == Run(r, true);
  }

  /** An array template with two fields is mirrored field by field under the parent. */
  lemma MirrorArrayOfTwo(s0: Space, t: Tree, parent: NodeId, s1: Space, s2: Space)
    requires Valid(s0) && parent in s0.nodes && t.kind.TagStructure? && |t.kind.dims| != 0
    requires |t.children| == 2 && !IsArrayDimensionsVar(t.children[0]) && !IsArrayDimensionsVar(t.children[1])
    requires Mirror(s0, t.children[0], parent, t.name + "_", false) == Run(s1, true)
    requires Valid(s1) && parent in s1.nodes
    requires Mirror(s1, t.children[1], parent, t.name + "_", false) == Run(s2, true)
    ensures Mirror(s0, t, parent, "", false) == Run(s2, true)
  {
    var ts := t.children;
    var prefix := t.name + "_";
    MirrorArray(s0, t, parent, "", false);
    MirrorChildrenStep(s0, ts, 0, parent, prefix, false, Run(s1, true));
    MirrorChildrenStep(s1, ts, 1, parent, prefix, false, Run(s2, true));
    assert ts[0..] == ts && ts[2..] == [];
    assert MirrorChildren(s2, [], parent, prefix, false) == Run(s2, true);
  }
}
