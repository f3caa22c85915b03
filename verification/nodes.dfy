/**
 * The host's information model as the three scripts see it: named nodes of a
 * few kinds, each with an ordered list of children, addressed by node id.
 *
 * Read-only inputs (the PLC tag tree that is mirrored, the tree alarms are
 * derived from, the tree that is exported) are value trees, `Tree`.  The part
 * of the project the scripts write to is the address space, a class whose
 * fields are updated in place; its abstract value is a `Space`, and every
 * pure operation on a `Space` below is what one host call does.
 */
module Nodes {
  import opened Wrappers
  import opened Text

  type NodeId = nat

  /** The OPC UA built-in data types the scripts name. */
  datatype DataType =
    | Boolean | SByte | Byte | Int16 | UInt16 | Int32 | UInt32 | Int64 | UInt64
    | Float | Double | String | DateTime | Structure | BaseDataType

  /** The four communication-driver tag classes the tag table knows. */
  datatype Driver = S7Tcp | Codesys | Modbus | RAEtherNetIP

  /** A value of a driver tag property; `Null` is a reference-typed property that is not set. */
  datatype PropValue = Null | IntVal(i: int) | BoolVal(b: bool) | TextVal(s: string) | EnumVal(symbol: string)

  /** The runtime type of a variable's current value: element type and array rank. */
  datatype ValueType = ValueType(element: DataType, rank: nat)

  /**
   * What a node is.  `Tag` is a communication-driver tag (a variable with
   * driver-specific properties); `Variable` is a plain variable; a
   * `TagStructure` is a variable too, holding its members as children.  A
   * variable's dynamic link is kept as text ("" when it has none).
   */
  datatype Kind =
    | Folder
    | Object
    | TagStructure(dims: seq<nat>, link: string)
    | Tag(driver: Driver, dataType: DataType, dims: seq<nat>, valueType: ValueType, props: map<string, PropValue>, link: string)
    | Variable(dataType: DataType, dims: seq<nat>, link: string)
    | DigitalAlarm(message: string, inputLink: string)

  /** Tags and plain variables: the nodes that carry a data type and array dimensions. */
  predicate IsVariable(k: Kind) { k.Tag? || k.Variable? }

  /**
   * The kinds a cast to the host's variable class accepts: a tag structure is
   * a variable as well, one without a data type of its own here.
   */
  predicate IsUAVariable(k: Kind) { IsVariable(k) || k.TagStructure? }

  /**
   * The text a dynamic link to node `target` (narrowed to one array element
   * when `element` is given) holds.  The host's own path syntax is not part
   * of this model; a link is written "@<node id>" and "[<element>]".
   */
  function LinkText(target: NodeId, element: Option<nat>): string
  {
    "@" + NatToString(target) + (if element.Some? then "[" + NatToString(element.value) + "]" else "")
  }

  /** A read-only node tree; `id` is the node's identity in the project (the target of a dynamic link). */
  datatype Tree = Tree(id: NodeId, name: string, kind: Kind, children: seq<Tree>)

  // ---------------------------------------------------------------------------
  // The address space as a value
  // ---------------------------------------------------------------------------

  datatype Node = Node(name: string, kind: Kind, children: seq<NodeId>)

  datatype Space = Space(nodes: map<NodeId, Node>, nextId: NodeId)

  /**
   * Every child is a node of the space, and a child is always newer than its
   * parent: nodes are only ever added under an existing parent, with a fresh id.
   */
  ghost predicate Valid(s: Space)
  {
    forall id | id in s.nodes ::
      id < s.nextId && forall c | c in s.nodes[id].children :: c in s.nodes && id < c
  }

  /** The first of `ids` whose node is named `name`. */
  function FirstNamed(nodes: map<NodeId, Node>, ids: seq<NodeId>, name: string): (r: Option<NodeId>)
    requires forall c | c in ids :: c in nodes
    ensures r.Some? ==> r.value in ids && nodes[r.value].name == name
    ensures r.None? <==> forall c | c in ids :: nodes[c].name != name
  {
    if |ids| == 0 then None
    else if nodes[ids[0]].name == name then Some(ids[0])
    else FirstNamed(nodes, ids[1..], name)
  }

  /** `parent.Children.FirstOrDefault(c => c.BrowseName == name)`. */
  function FindChild(s: Space, parent: NodeId, name: string): (r: Option<NodeId>)
    requires Valid(s) && parent in s.nodes
    ensures r.Some? ==> r.value in s.nodes[parent].children && r.value in s.nodes && s.nodes[r.value].name == name
    ensures r.None? <==> forall c | c in s.nodes[parent].children :: s.nodes[c].name != name
  {
    FirstNamed(s.nodes, s.nodes[parent].children, name)
  }

  /** `InformationModel.Make*(name)` followed by `parent.Add(node)`: a fresh childless node appended under `parent`. */
  function AddNew(s: Space, parent: NodeId, name: string, kind: Kind): (r: Space)
    requires Valid(s) && parent in s.nodes
    ensures Valid(r)
    ensures r.nextId == s.nextId + 1
    ensures r.nodes.Keys == s.nodes.Keys + {s.nextId}
    ensures r.nodes[s.nextId] == Node(name, kind, [])
    ensures r.nodes[parent] == s.nodes[parent].(children := s.nodes[parent].children + [s.nextId])
    ensures forall id | id in s.nodes && id != parent :: r.nodes[id] == s.nodes[id]
  {
    var p := s.nodes[parent];
    Space(s.nodes[parent := p.(children := p.children + [s.nextId])][s.nextId := Node(name, kind, [])], s.nextId + 1)
  }

  /** The node `id` with a new kind (a rebound link, updated properties); nothing else changes. */
  function SetKind(s: Space, id: NodeId, kind: Kind): (r: Space)
    requires Valid(s) && id in s.nodes
    ensures Valid(r)
    ensures r.nextId == s.nextId && r.nodes.Keys == s.nodes.Keys
    ensures r.nodes[id] == s.nodes[id].(kind := kind)
    ensures forall o | o in s.nodes && o != id :: r.nodes[o] == s.nodes[o]
  {
    s.(nodes := s.nodes[id := s.nodes[id].(kind := kind)])
  }

  /** `node.Children.Clear()`. */
  function ClearChildren(s: Space, id: NodeId): (r: Space)
    requires Valid(s) && id in s.nodes
    ensures Valid(r)
    ensures r.nextId == s.nextId && r.nodes.Keys == s.nodes.Keys
    ensures r.nodes[id] == s.nodes[id].(children := [])
    ensures forall o | o in s.nodes && o != id :: r.nodes[o] == s.nodes[o]
  {
    s.(nodes := s.nodes[id := s.nodes[id].(children := [])])
  }

  // ---------------------------------------------------------------------------
  // Growth: what "only ever adds" means
  // ---------------------------------------------------------------------------

  /**
   * `t` grew from `s`: no node disappeared or was renamed, every child list
   * only had children appended, and every new node has a fresh id.
   */
  ghost predicate Grows(s: Space, t: Space)
  {
    && s.nextId <= t.nextId
    && (forall id | id in s.nodes ::
          id in t.nodes && t.nodes[id].name == s.nodes[id].name
          && s.nodes[id].children <= t.nodes[id].children)
    && (forall id | id in t.nodes && id !in s.nodes :: s.nextId <= id)
  }

  lemma GrowsRefl(s: Space)
    ensures Grows(s, s)
  {
  }

  lemma GrowsTrans(s: Space, t: Space, u: Space)
    requires Grows(s, t) && Grows(t, u)
    ensures Grows(s, u)
  {
    forall id | id in s.nodes
      ensures s.nodes[id].children <= u.nodes[id].children
    {
      assert s.nodes[id].children <= t.nodes[id].children <= u.nodes[id].children;
    }
  }

  /** A second kind set on the same node replaces the first. */
  lemma SetKindTwice(s: Space, id: NodeId, a: Kind, b: Kind)
    requires Valid(s) && id in s.nodes
    ensures SetKind(SetKind(s, id, a), id, b) == SetKind(s, id, b)
  {
  }

  lemma AddNewGrows(s: Space, parent: NodeId, name: string, kind: Kind)
    requires Valid(s) && parent in s.nodes
    ensures Grows(s, AddNew(s, parent, name, kind))
  {
    var r := AddNew(s, parent, name, kind);
    assert s.nodes[parent].children <= r.nodes[parent].children;
  }

  lemma {:induction false} FirstNamedAppend(m: map<NodeId, Node>, m': map<NodeId, Node>, ids: seq<NodeId>, more: seq<NodeId>, name: string)
    requires forall c | c in ids + more :: c in m'
    requires forall c | c in ids :: c in m && m'[c].name == m[c].name
    requires FirstNamed(m, ids, name).Some?
    ensures FirstNamed(m', ids + more, name) == FirstNamed(m, ids, name)
    decreases |ids|
  {
    assert (ids + more)[0] == ids[0];
    if m[ids[0]].name != name {
      assert (ids + more)[1..] == ids[1..] + more;
      FirstNamedAppend(m, m', ids[1..], more, name);
    }
  }

  /** A lookup that succeeded keeps finding the same child while the space only grows. */
  lemma FindChildStable(s: Space, t: Space, parent: NodeId, name: string)
    requires Valid(s) && Valid(t) && parent in s.nodes && Grows(s, t)
    requires FindChild(s, parent, name).Some?
    ensures FindChild(t, parent, name) == FindChild(s, parent, name)
  {
    var ids := s.nodes[parent].children;
    var all := t.nodes[parent].children;
    assert all == ids + all[|ids|..];
    FirstNamedAppend(s.nodes, t.nodes, ids, all[|ids|..], name);
  }

  lemma {:induction false} FirstNamedLast(m: map<NodeId, Node>, ids: seq<NodeId>, id: NodeId, name: string)
    requires forall c | c in ids + [id] :: c in m
    requires forall c | c in ids :: m[c].name != name
    requires m[id].name == name
    ensures FirstNamed(m, ids + [id], name) == Some(id)
    decreases |ids|
  {
    if |ids| > 0 {
      assert (ids + [id])[1..] == ids[1..] + [id];
      FirstNamedLast(m, ids[1..], id, name);
    }
  }

  /** After a failed lookup, the node just added under that name is what the next lookup finds. */
  lemma FindAfterAdd(s: Space, parent: NodeId, name: string, kind: Kind)
    requires Valid(s) && parent in s.nodes && FindChild(s, parent, name).None?
    ensures FindChild(AddNew(s, parent, name, kind), parent, name) == Some(s.nextId)
  {
    var r := AddNew(s, parent, name, kind);
    var ids := s.nodes[parent].children;
    forall c | c in ids ensures r.nodes[c].name != name {
      assert c != s.nextId && r.nodes[c] == s.nodes[c];
    }
    FirstNamedLast(r.nodes, ids, s.nextId, name);
  }

  // ---------------------------------------------------------------------------
  // The address space as an object
  // ---------------------------------------------------------------------------

  /** The project's node store; the scripts add nodes to it and change nodes in place. */
  class AddressSpace {
    var nodes: map<NodeId, Node>
    var nextId: NodeId

    ghost function State(): Space
      reads this
    {
      Space(nodes, nextId)
    }

    /** A space holding one childless node, id 0. */
    constructor (rootName: string, rootKind: Kind)
      ensures State() == Space(map[0 := Node(rootName, rootKind, [])], 1)
      ensures Valid(State())
    {
      nodes := map[0 := Node(rootName, rootKind, [])];
      nextId := 1;
    }

    /** `parent.Children.FirstOrDefault(c => c.BrowseName == name)`, as a scan of the child list. */
    method Get(parent: NodeId, name: string) returns (r: Option<NodeId>)
      requires Valid(State()) && parent in nodes
      ensures r == FindChild(State(), parent, name)
    {
      var ids := nodes[parent].children;
      var i := 0;
      while i < |ids|
        invariant 0 <= i <= |ids|
        invariant forall c | c in ids[i..] :: c in nodes
        invariant FirstNamed(nodes, ids, name) == FirstNamed(nodes, ids[i..], name)
      {
        if nodes[ids[i]].name == name {
          return Some(ids[i]);
        }
        assert ids[i..][1..] == ids[i + 1..];
        i := i + 1;
      }
      return None;
    }

    /** `InformationModel.Make*(name)` then `parent.Add(node)`; returns the new node's id. */
    method Add(parent: NodeId, name: string, kind: Kind) returns (id: NodeId)
      requires Valid(State()) && parent in nodes
      modifies this
      ensures id == old(nextId)
      ensures State() == AddNew(old(State()), parent, name, kind)
    {
      id := nextId;
      var p := nodes[parent];
      nodes := nodes[parent := p.(children := p.children + [id])][id := Node(name, kind, [])];
      nextId := nextId + 1;
    }

    /** Replaces the kind of node `id` (a link rebound, properties copied in). */
    method Update(id: NodeId, kind: Kind)
      requires Valid(State()) && id in nodes
      modifies this
      ensures State() == SetKind(old(State()), id, kind)
    {
      nodes := nodes[id := nodes[id].(kind := kind)];
    }

    /** `node.Children.Clear()`. */
    method Clear(id: NodeId)
      requires Valid(State()) && id in nodes
      modifies this
      ensures State() == ClearChildren(old(State()), id)
    {
      nodes := nodes[id := nodes[id].(children := [])];
    }
  }
}
