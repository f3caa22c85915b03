/**
 * Mirroring a PLC tag tree into the Model folder (FromPLCToModel.cs).
 *
 * The walk is a find-or-create by browse name at every level: a tag
 * structure becomes an object, an array of tag structures is flattened into
 * its parent under a name prefix, a variable becomes a variable of the same
 * data type and array dimensions, and with dynamic links switched on every
 * mirrored variable is (re)bound to its source.  A node the walk cannot
 * cast ends the run with an exception the script does not catch.  `Mirror`
 * and its companions are the walk as functions of the address space; the
 * class at the end is the script itself, whose methods are proved to
 * produce exactly that space and outcome.
 */
module FromPlcToModel {
  import opened Wrappers
  import opened Text
  import opened Nodes

  // ---------------------------------------------------------------------------
  // Classification of source nodes
  // ---------------------------------------------------------------------------

  /** `IsArrayDimentionsVar`: the bookkeeping node holding an array's length, never mirrored. */
  predicate IsArrayDimensionsVar(t: Tree)
  {
    Contains(ToLower(t.name), "arraydimen")
  }

  /** `IsTagStructureArray`: a tag structure declaring at least one array dimension. */
  predicate IsTagStructureArray(t: Tree)
    requires t.kind.TagStructure?
  {
    |t.kind.dims| != 0
  }

  /** Browse names may not hold "/": the mirror replaces it with "_". */
  function Sanitize(name: string): (r: string)
    ensures '/' !in r
    ensures '/' !in name ==> r == name
  {
    ReplaceChar(name, '/', '_')
  }

  /**
   * A source tree every node of which the walk can cast: tag structures, and
   * variables below them.  Only the lemmas need this; the walk itself takes
   * any tree and ends the run when a cast fails.
   */
  predicate PlcTree(t: Tree)
  {
    && (t.kind.TagStructure? || IsVariable(t.kind))
    && (t.kind.TagStructure? ==>
          forall i | 0 <= i < |t.children| :: IsArrayDimensionsVar(t.children[i]) || PlcTree(t.children[i]))
  }

  /** `SetDynamicLink`: a variable (a driver tag, a tag structure or a plain variable) bound to another link; nothing else of it changes. */
  function WithLink(k: Kind, link: string): (r: Kind)
    requires IsUAVariable(k)
    ensures Relinked(k, r) && r.link == link
  {
    k.(link := link)
  }

  // ---------------------------------------------------------------------------
  // What one run does to the address space
  // ---------------------------------------------------------------------------

  /**
   * The outcome of (part of) a run: the address space it leaves, and whether
   * it went on to the end.  `completed == false` is an exception the script
   * does not catch (a failed cast): the run ends there, and what it changed
   * before stays changed.
   */
  datatype Run = Run(space: Space, completed: bool)

  /**
   * `t` changed `s` only by adding nodes and, when `links` is set, by
   * rebinding the dynamic links of variables.
   */
  ghost predicate OnlyAddsAndRelinks(s: Space, t: Space, links: bool)
  {
    && Grows(s, t)
    && forall id | id in s.nodes ::
         t.nodes[id].kind == s.nodes[id].kind || (links && Relinked(s.nodes[id].kind, t.nodes[id].kind))
  }

  /** `b` is the variable `a` with, at most, another dynamic link. */
  predicate Relinked(a: Kind, b: Kind)
  {
    IsUAVariable(a) && IsUAVariable(b) && b == a.(link := b.link)
  }

  lemma OnlyAddsTrans(s: Space, t: Space, u: Space, links: bool)
    requires OnlyAddsAndRelinks(s, t, links) && OnlyAddsAndRelinks(t, u, links)
    ensures OnlyAddsAndRelinks(s, u, links)
  {
    GrowsTrans(s, t, u);
  }

  /**
   * `CreateModelTag(fieldNode, parentNode, browseNamePrefix)`: a tag
   * structure is an object or, with array dimensions, a template flattened
   * into the parent; every other node goes to `MirrorVariable`.
   */
  function Mirror(s: Space, t: Tree, parent: NodeId, prefix: string, links: bool): (r: Run)
    requires Valid(s) && parent in s.nodes
    ensures Valid(r.space) && OnlyAddsAndRelinks(s, r.space, links)
    decreases t, 2
  {
    if t.kind.TagStructure? then
      if !IsTagStructureArray(t) then MirrorObject(s, t, parent, prefix, links)
      else MirrorChildren(s, t.children, parent, t.name + "_", links)
    else MirrorVariable(s, t, parent, prefix, links)
  }

  /**
   * `CreateOrUpdateObject`: look the structure up as `prefix + name`; when it
   * is missing, add an object named `prefix + Sanitize(name)`; then mirror
   * its children into it with no prefix.
   */
  function MirrorObject(s: Space, t: Tree, parent: NodeId, prefix: string, links: bool): (r: Run)
    requires Valid(s) && parent in s.nodes && t.kind.TagStructure?
    ensures Valid(r.space) && OnlyAddsAndRelinks(s, r.space, links)
    decreases t, 1
  {
    match FindChild(s, parent, prefix + t.name)
    case Some(c) => MirrorChildren(s, t.children, c, "", links)
    case None =>
      var s1 := AddNew(s, parent, prefix + Sanitize(t.name), Object);
      AddNewGrows(s, parent, prefix + Sanitize(t.name), Object);
      var r := MirrorChildren(s1, t.children, s.nextId, "", links);
      OnlyAddsTrans(s, s1, r.space, links);
      r
  }

  /**
   * The `foreach` over the children that are not bookkeeping nodes; a child
   * whose run ends in an exception ends the whole loop.
   */
  function MirrorChildren(s: Space, ts: seq<Tree>, parent: NodeId, prefix: string, links: bool): (r: Run)
    requires Valid(s) && parent in s.nodes
    ensures Valid(r.space) && OnlyAddsAndRelinks(s, r.space, links)
    decreases ts, 3
  {
    if |ts| == 0 then Run(s, true)
    else
      var r1 := if IsArrayDimensionsVar(ts[0]) then Run(s, true) else Mirror(s, ts[0], parent, prefix, links);
      if !r1.completed then r1
      else
        var r := MirrorChildren(r1.space, ts[1..], parent, prefix, links);
        OnlyAddsTrans(s, r1.space, r.space, links);
        r
  }

  /** One turn of the `foreach`: the child at `i`, then, unless it failed, the ones after it. */
  lemma MirrorChildrenStep(s: Space, ts: seq<Tree>, i: nat, parent: NodeId, prefix: string, links: bool, r1: Run)
    requires Valid(s) && parent in s.nodes && i < |ts|
    requires r1 == if IsArrayDimensionsVar(ts[i]) then Run(s, true) else Mirror(s, ts[i], parent, prefix, links)
    ensures Valid(r1.space) && parent in r1.space.nodes
    ensures MirrorChildren(s, ts[i..], parent, prefix, links)
         == if r1.completed then MirrorChildren(r1.space, ts[i + 1..], parent, prefix, links) else r1
  {
    assert ts[i..][0] == ts[i] && ts[i..][1..] == ts[i + 1..];
  }

  /**
   * `CreateOrUpdateVariable`: skip a bookkeeping node; look the node up as
   * `prefix + name`; when it is missing, cast the source to a variable (a
   * node that is no variable ends the run) and add a variable named
   * `Sanitize(name)`, without the prefix, with the source's data type and
   * array dimensions; then, with links on, bind it to the source.
   */
  function MirrorVariable(s: Space, t: Tree, parent: NodeId, prefix: string, links: bool): (r: Run)
    requires Valid(s) && parent in s.nodes
    ensures Valid(r.space) && OnlyAddsAndRelinks(s, r.space, links)
    ensures !r.completed ==> r.space == s
    decreases t, 0
  {
    if IsArrayDimensionsVar(t) then Run(s, true)
    else
      match FindChild(s, parent, prefix + t.name)
      case Some(v) => BindLink(s, v, t, links)
      case None =>
        if !IsVariable(t.kind) then Run(s, false)
        else
          var kind := Variable(t.kind.dataType, t.kind.dims, "");
          var s1 := AddNew(s, parent, Sanitize(t.name), kind);
          AddNewGrows(s, parent, Sanitize(t.name), kind);
          var r := BindLink(s1, s.nextId, t, links);
          OnlyAddsTrans(s, s1, r.space, links);
          r
  }

  /**
   * `if (!setDynamicLinks) return; ((IUAVariable)existingNode).SetDynamicLink((UAVariable)fieldNode)`:
   * both casts must succeed, or the run ends with nothing changed.
   */
  function BindLink(s: Space, v: NodeId, t: Tree, links: bool): (r: Run)
    requires Valid(s) && v in s.nodes
    ensures Valid(r.space) && OnlyAddsAndRelinks(s, r.space, links)
    ensures r.completed <==> !links || (IsUAVariable(s.nodes[v].kind) && IsUAVariable(t.kind))
    ensures !r.completed ==> r.space == s
    ensures r.completed && links ==> r.space == SetKind(s, v, s.nodes[v].kind.(link := LinkText(t.id, None)))
  {
    if !links then Run(s, true)
    else if !IsUAVariable(s.nodes[v].kind) || !IsUAVariable(t.kind) then Run(s, false)
    else Run(SetKind(s, v, WithLink(s.nodes[v].kind, LinkText(t.id, None))), true)
  }

  // ---------------------------------------------------------------------------
  // The script
  // ---------------------------------------------------------------------------

  /** The FromPLCToModel logic object; its fields are set by its exported method. */
  class FromPLCToModel {
    const space: AddressSpace
    var setDynamicLinks: bool
    var modelFolder: NodeId

    constructor (space: AddressSpace)
      ensures this.space == space && !setDynamicLinks
    {
      this.space := space;
      setDynamicLinks := false;
      modelFolder := 0;
    }

    /**
     * `GenerateNodesIntoModel`: read the two parameters and mirror the input
     * node into the Model folder with no prefix.  An input node that is not a
     * tag structure is read as null, and the walk's first use of it throws.
     */
    method GenerateNodesIntoModel(setLinks: bool, model: NodeId, startingNode: Tree) returns (completed: bool)
      requires Valid(space.State()) && model in space.nodes
      modifies this, space
      ensures setDynamicLinks == setLinks && modelFolder == model
      ensures !startingNode.kind.TagStructure? ==> !completed && space.State() == old(space.State())
      ensures startingNode.kind.TagStructure? ==>
                Run(space.State(), completed) == Mirror(old(space.State()), startingNode, model, "", setLinks)
    {
      setDynamicLinks := setLinks;
      modelFolder := model;
      if !startingNode.kind.TagStructure? {
        return false;
      }
      completed := CreateModelTag(startingNode, modelFolder, "");
    }

    /** `CreateModelTag`: dispatch on the kind of the source node. */
    method CreateModelTag(fieldNode: Tree, parentNode: NodeId, browseNamePrefix: string) returns (completed: bool)
      requires Valid(space.State()) && parentNode in space.nodes
      modifies space
      ensures Run(space.State(), completed) == Mirror(old(space.State()), fieldNode, parentNode, browseNamePrefix, setDynamicLinks)
      decreases fieldNode, 2
    {
      if fieldNode.kind.TagStructure? {
        if !IsTagStructureArray(fieldNode) {
          completed := CreateOrUpdateObject(fieldNode, parentNode, browseNamePrefix);
        } else {
          completed := CreateOrUpdateObjectArray(fieldNode, parentNode);
        }
      } else {
        completed := CreateOrUpdateVariable(fieldNode, parentNode, browseNamePrefix);
      }
    }

    /** `CreateOrUpdateObjectArray`: the template's fields go straight under `parentNode`, prefixed with the template's name. */
    method CreateOrUpdateObjectArray(fieldNode: Tree, parentNode: NodeId) returns (completed: bool)
      requires Valid(space.State()) && parentNode in space.nodes
      requires fieldNode.kind.TagStructure? && IsTagStructureArray(fieldNode)
      modifies space
      ensures Run(space.State(), completed)
           == MirrorChildren(old(space.State()), fieldNode.children, parentNode, fieldNode.name + "_", setDynamicLinks)
      decreases fieldNode, 1
    {
      completed := CreateEachChild(fieldNode.children, parentNode, fieldNode.name + "_");
    }

    /** `CreateOrUpdateObject`: find or create the object, then mirror the children into it. */
    method CreateOrUpdateObject(fieldNode: Tree, parentNode: NodeId, browseNamePrefix: string) returns (completed: bool)
      requires Valid(space.State()) && parentNode in space.nodes
      requires fieldNode.kind.TagStructure?
      modifies space
      ensures Run(space.State(), completed)
           == MirrorObject(old(space.State()), fieldNode, parentNode, browseNamePrefix, setDynamicLinks)
      decreases fieldNode, 1
    {
      var existingNode := space.Get(parentNode, browseNamePrefix + fieldNode.name);
      if existingNode.None? {
        var created := space.Add(parentNode, browseNamePrefix + Sanitize(fieldNode.name), Object);
        completed := CreateEachChild(fieldNode.children, created, "");
      } else {
        completed := CreateEachChild(fieldNode.children, existingNode.value, "");
      }
    }

    /**
     * The `foreach` over the children that are not bookkeeping nodes, shared
     * by the two methods above; an exception from a child leaves the loop.
     */
    method CreateEachChild(cs: seq<Tree>, parentNode: NodeId, browseNamePrefix: string) returns (completed: bool)
      requires Valid(space.State()) && parentNode in space.nodes
      modifies space
      ensures Run(space.State(), completed)
           == MirrorChildren(old(space.State()), cs, parentNode, browseNamePrefix, setDynamicLinks)
      decreases cs, 3
    {
      ghost var goal := MirrorChildren(space.State(), cs, parentNode, browseNamePrefix, setDynamicLinks);
      var i := 0;
      while i < |cs|
        invariant 0 <= i <= |cs|
        invariant Valid(space.State()) && parentNode in space.nodes
        invariant goal == MirrorChildren(space.State(), cs[i..], parentNode, browseNamePrefix, setDynamicLinks)
      {
        ghost var before := space.State();
        var ok := true;
        if !IsArrayDimensionsVar(cs[i]) {
          ok := CreateModelTag(cs[i], parentNode, browseNamePrefix);
        }
        MirrorChildrenStep(before, cs, i, parentNode, browseNamePrefix, setDynamicLinks, Run(space.State(), ok));
        if !ok {
          return false;
        }
        i := i + 1;
      }
      assert cs[i..] == [];
      return true;
    }

    /**
     * `CreateOrUpdateVariable`: find or create the variable, then bind its
     * link when asked to; each failed cast ends the run where it happens.
     */
    method CreateOrUpdateVariable(fieldNode: Tree, parentNode: NodeId, browseNamePrefix: string) returns (completed: bool)
      requires Valid(space.State()) && parentNode in space.nodes
      modifies space
      ensures Run(space.State(), completed)
           == MirrorVariable(old(space.State()), fieldNode, parentNode, browseNamePrefix, setDynamicLinks)
    {
      if IsArrayDimensionsVar(fieldNode) {
        return true;
      }
      var existingNode := space.Get(parentNode, browseNamePrefix + fieldNode.name);
      var v: NodeId;
      if existingNode.None? {
        if !IsVariable(fieldNode.kind) {
          return false;
        }
        v := space.Add(parentNode, Sanitize(fieldNode.name), Variable(fieldNode.kind.dataType, fieldNode.kind.dims, ""));
      } else {
        v := existingNode.value;
      }
      if !setDynamicLinks {
        return true;
      }
      if !IsUAVariable(space.nodes[v].kind) || !IsUAVariable(fieldNode.kind) {
        return false;
      }
      space.Update(v, WithLink(space.nodes[v].kind, LinkText(fieldNode.id, None)));
      return true;
    }
  }
}
