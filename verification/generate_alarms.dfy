/**
 * Deriving digital alarms from variables (GenerateAlarms.cs).
 *
 * For every variable reached from the starting node, the script works out a
 * list of alarm candidates from the variable's data type and array shape (one
 * per bit of an integer, one per element of a boolean array), and inserts
 * each candidate whose name is not yet taken into a container: the Alarms
 * folder itself for a scalar boolean, a per-variable subfolder otherwise.
 * `Candidates`, `InsertAlarms`, `GenerateFor` and `Fetch` are that work as
 * functions of the address space; the class at the end is the script, proved
 * to produce exactly that space.
 */
module DigitalAlarms {
  import opened Wrappers
  import opened Text
  import opened Nodes

  // ---------------------------------------------------------------------------
  // Naming and fan-out
  // ---------------------------------------------------------------------------

  /** `numberOfAlarmsToGenerate`: one alarm per bit of a 16- or 32-bit integer, one otherwise. */
  function BitWidth(dt: DataType): (w: nat)
    ensures w == 16 <==> dt == Int16 || dt == UInt16
    ensures w == 32 <==> dt == Int32 || dt == UInt32
    ensures w == 1 <==> !(dt == Int16 || dt == UInt16 || dt == Int32 || dt == UInt32)
  {
    match dt
    case Int16 | UInt16 => 16
    case Int32 | UInt32 => 32
    case _ => 1
  }

  /** The stem every alarm name and message of a variable starts with. */
  function AlarmStem(owner: string, variable: string): string
  {
    "DAlm_" + owner + "_" + variable
  }

  /** The index part of an alarm name: "", "_i" or "_i_j"; `j` counts only with `i`. */
  function IndexSuffix(i: Option<nat>, j: Option<nat>): string
  {
    if i.None? then ""
    else if j.None? then "_" + NatToString(i.value)
    else "_" + NatToString(i.value) + "_" + NatToString(j.value)
  }

  /** `GenerateDAl`: the browse name of a new alarm. */
  function AlarmName(owner: string, variable: string, i: Option<nat>, j: Option<nat>): string
  {
    AlarmStem(owner, variable) + IndexSuffix(i, j)
  }

  /** `GenerateAlMessage`: the message always carries the index `i`. */
  function AlarmMessage(owner: string, variable: string, i: nat, j: Option<nat>): string
  {
    AlarmStem(owner, variable) + "_" + NatToString(i) + (if j.Some? then "_" + NatToString(j.value) else "")
  }

  /** `AddBitDynamicLink`: narrows a link to one bit of the linked value. */
  function BitLink(link: string, bit: nat): string
  {
    link + "." + NatToString(bit)
  }

  /** One alarm the script would create: its browse name, message and input link. */
  datatype Candidate = Candidate(name: string, message: string, link: string)

  /**
   * The alarms of one variable in the order the loops of
   * `GenerateDigitalAlarm` produce them.  A variable with exactly one array
   * dimension of length n gives, element after element, one alarm per
   * element (boolean) or per bit of each element; every other shape, a
   * scalar or a matrix, takes the scalar branch and gives one alarm per bit
   * of the whole variable.
   */
  function Candidates(owner: string, variable: string, varId: NodeId, dt: DataType, dims: seq<nat>): (r: seq<Candidate>)
    ensures |dims| != 1 ==> |r| == BitWidth(dt)
  {
    var w := BitWidth(dt);
    if |dims| == 1 then ArrayAlarms(owner, variable, varId, dt, dims[0])
    else if dt == Boolean then
      seq(w, i requires 0 <= i =>
        Candidate(AlarmName(owner, variable, None, None), AlarmMessage(owner, variable, i, None), LinkText(varId, None)))
    else
      seq(w, i requires 0 <= i =>
        Candidate(AlarmName(owner, variable, Some(i), None), AlarmMessage(owner, variable, i, None),
                  BitLink(LinkText(varId, None), i)))
  }

  /** The alarms of element `i` of a one-dimensional array, one per bit, in the order of the inner loop. */
  function ElementBitAlarms(owner: string, v: string, id: NodeId, i: nat, w: nat): (r: seq<Candidate>)
    ensures |r| == w
  {
    seq(w, j requires 0 <= j =>
      Candidate(AlarmName(owner, v, Some(i), Some(j)), AlarmMessage(owner, v, i, Some(j)), BitLink(LinkText(id, Some(i)), j)))
  }

  /** How many alarms each element of a one-dimensional array gets: one for a boolean, one per bit otherwise. */
  function ElementWidth(dt: DataType): (m: nat)
    ensures m == 1 || m == 16 || m == 32
    ensures dt == Boolean ==> m == 1
  {
    if dt == Boolean then 1 else BitWidth(dt)
  }

  /** The alarms of element `i` of a one-dimensional array: the body of the outer loop. */
  function ElementAlarms(owner: string, v: string, id: NodeId, dt: DataType, i: nat): (r: seq<Candidate>)
    ensures |r| == ElementWidth(dt)
  {
    if dt == Boolean then
      [Candidate(AlarmName(owner, v, Some(i), None), AlarmMessage(owner, v, i, None), LinkText(id, Some(i)))]
    else ElementBitAlarms(owner, v, id, i, BitWidth(dt))
  }

  /** The alarms of the first `n` elements of a one-dimensional array, element after element. */
  function ArrayAlarms(owner: string, v: string, id: NodeId, dt: DataType, n: nat): seq<Candidate>
  {
    Blocks((i: nat) => ElementAlarms(owner, v, id, dt, i), n)
  }

  /** The blocks `f(0)`, ..., `f(n - 1)`, one after the other. */
  function Blocks<T>(f: nat -> seq<T>, n: nat): seq<T>
  {
    if n == 0 then [] else Blocks(f, n - 1) + f(n - 1)
  }

  /** The name of the per-variable alarm folder. */
  function FolderName(owner: string, variable: string): string
  {
    owner + "_" + variable + "_alarms"
  }

  // ---------------------------------------------------------------------------
  // What one run does to the address space
  // ---------------------------------------------------------------------------

  /** `t` grew from `s` and no node that was there changed its kind: alarms are only ever added. */
  ghost predicate OnlyAdds(s: Space, t: Space)
  {
    && Grows(s, t)
    && forall id | id in s.nodes :: t.nodes[id].kind == s.nodes[id].kind
  }

  lemma OnlyAddsTrans(s: Space, t: Space, u: Space)
    requires OnlyAdds(s, t) && OnlyAdds(t, u)
    ensures OnlyAdds(s, u)
  {
    GrowsTrans(s, t, u);
  }

  /** The container alarms go to, and the space once it is in place. */
  datatype Target = Target(container: NodeId, space: Space)

  /**
   * `GetVariableAlmsFolder`: the Alarms folder itself for a boolean without
   * array dimensions; otherwise the folder "<owner>_<variable>_alarms" under
   * it, the first child of that name when there is one, a new folder when
   * there is none.  A child of that name that is not a folder cannot be used
   * (the host's typed lookup yields nothing and the `Add` fails); the
   * variable is then skipped.
   */
  function PrepareContainer(s: Space, root: NodeId, owner: string, variable: string, isArray: bool, isBool: bool): (r: Option<Target>)
    requires Valid(s) && root in s.nodes
    ensures r.Some? ==> Valid(r.value.space) && r.value.container in r.value.space.nodes && OnlyAdds(s, r.value.space)
  {
    if !isArray && isBool then Some(Target(root, s))
    else
      match FindChild(s, root, FolderName(owner, variable))
      case Some(f) => if s.nodes[f].kind == Folder then Some(Target(f, s)) else None
      case None =>
        AddNewGrows(s, root, FolderName(owner, variable), Folder);
        Some(Target(s.nextId, AddNew(s, root, FolderName(owner, variable), Folder)))
  }

  /** `if (!NodeAlreadyExists(container, alm)) container.Add(alm)`. */
  function InsertAlarm(s: Space, c: NodeId, cand: Candidate): (r: Space)
    requires Valid(s) && c in s.nodes
    ensures Valid(r) && OnlyAdds(s, r) && c in r.nodes
    ensures FindChild(r, c, cand.name).Some?
  {
    if FindChild(s, c, cand.name).Some? then s
    else
      AddNewGrows(s, c, cand.name, DigitalAlarm(cand.message, cand.link));
      var r := AddNew(s, c, cand.name, DigitalAlarm(cand.message, cand.link));
      FindAfterAdd(s, c, cand.name, DigitalAlarm(cand.message, cand.link));
      r
  }

  /** The candidates inserted one after the other. */
  function InsertAlarms(s: Space, c: NodeId, cands: seq<Candidate>): (r: Space)
    requires Valid(s) && c in s.nodes
    ensures Valid(r) && OnlyAdds(s, r) && c in r.nodes
    decreases |cands|
  {
    if |cands| == 0 then s
    else
      var s1 := InsertAlarm(s, c, cands[0]);
      var r := InsertAlarms(s1, c, cands[1..]);
      OnlyAddsTrans(s, s1, r);
      r
  }

  /** `GenerateDigitalAlarm`: find or make the container, then insert the candidates. */
  function GenerateFor(s: Space, t: Tree, owner: string, root: NodeId): (r: Space)
    requires Valid(s) && root in s.nodes && IsVariable(t.kind)
    ensures Valid(r) && OnlyAdds(s, r)
  {
    var dims := t.kind.dims;
    match PrepareContainer(s, root, owner, t.name, |dims| > 0, t.kind.dataType == Boolean)
    case None => GrowsRefl(s); s
    case Some(target) =>
      var r := InsertAlarms(target.space, target.container, Candidates(owner, t.name, t.id, t.kind.dataType, dims));
      OnlyAddsTrans(s, target.space, r);
      r
  }

  /**
   * `FetchNode`: tag structures and folders are descended into (their
   * children's owner is the node itself), tags and variables get their
   * alarms, every other kind of node is passed over.
   */
  function Fetch(s: Space, t: Tree, owner: string, root: NodeId): (r: Space)
    requires Valid(s) && root in s.nodes
    ensures Valid(r) && OnlyAdds(s, r)
    decreases t, 1
  {
    if t.kind.TagStructure? || t.kind.Folder? then FetchAll(s, t.children, t.name, root)
    else if IsVariable(t.kind) then GenerateFor(s, t, owner, root)
    else GrowsRefl(s); s
  }

  /** The `foreach` over a node's children. */
  function FetchAll(s: Space, ts: seq<Tree>, owner: string, root: NodeId): (r: Space)
    requires Valid(s) && root in s.nodes
    ensures Valid(r) && OnlyAdds(s, r)
    decreases ts, 2
  {
    if |ts| == 0 then GrowsRefl(s); s
    else
      var s1 := Fetch(s, ts[0], owner, root);
      var r := FetchAll(s1, ts[1..], owner, root);
      OnlyAddsTrans(s, s1, r);
      r
  }

  /** One step of the insertion fold. */
  lemma InsertAlarmsStep(s: Space, c: NodeId, cands: seq<Candidate>, k: nat)
    requires Valid(s) && c in s.nodes && k < |cands|
    ensures InsertAlarms(s, c, cands[k..]) == InsertAlarms(InsertAlarm(s, c, cands[k]), c, cands[k + 1..])
  {
    assert cands[k..][0] == cands[k];
    assert cands[k..][1..] == cands[k + 1..];
  }

  /** One step of the walk over a node's children. */
  lemma FetchAllStep(s: Space, ts: seq<Tree>, i: nat, owner: string, root: NodeId)
    requires Valid(s) && root in s.nodes && i < |ts|
    ensures FetchAll(s, ts[i..], owner, root) == FetchAll(Fetch(s, ts[i], owner, root), ts[i + 1..], owner, root)
  {
    assert ts[i..][0] == ts[i];
    assert ts[i..][1..] == ts[i + 1..];
  }

  lemma MulSucc(i: nat, m: nat)
    ensures (i + 1) * m == i * m + m
  {
  }

  /** Blocks of width `m` make `n * m` elements. */
  lemma {:induction false} BlocksLength<T>(f: nat -> seq<T>, m: nat, n: nat)
    requires forall i: nat :: |f(i)| == m
    ensures |Blocks(f, n)| == n * m
  {
    if n > 0 {
      BlocksLength(f, m, n - 1);
      MulSucc(n - 1, m);
    }
  }

  /** The first `i` blocks come first among the first `n`. */
  lemma {:induction false} BlocksPrefix<T>(f: nat -> seq<T>, i: nat, n: nat)
    requires i <= n
    ensures |Blocks(f, i)| <= |Blocks(f, n)| && Blocks(f, n)[..|Blocks(f, i)|] == Blocks(f, i)
    decreases n
  {
    if i < n {
      BlocksPrefix(f, i, n - 1);
      var a, front := Blocks(f, i), Blocks(f, n - 1);
      assert Blocks(f, n)[..|front|] == front;
      assert front[..|a|] == a;
    }
  }

  /** Element `j` of block `q` sits at `q * m + j`. */
  lemma BlockAt<T>(f: nat -> seq<T>, m: nat, n: nat, q: nat, j: nat)
    requires forall i: nat :: |f(i)| == m
    requires q < n && j < m
    ensures q * m + j < |Blocks(f, n)| && Blocks(f, n)[q * m + j] == f(q)[j]
  {
    BlocksLength(f, m, q);
    BlocksPrefix(f, q + 1, n);
    var b := Blocks(f, q + 1);
    assert b == Blocks(f, q) + f(q);
    assert Blocks(f, n)[q * m + j] == b[q * m + j];
  }

  /** Each element adds its width to the count. */
  lemma ArrayAlarmsLength(owner: string, v: string, id: NodeId, dt: DataType, n: nat)
    ensures |ArrayAlarms(owner, v, id, dt, n)| == n * ElementWidth(dt)
  {
    BlocksLength((i: nat) => ElementAlarms(owner, v, id, dt, i), ElementWidth(dt), n);
  }

  /** The alarms of one more element follow those of the elements before it. */
  lemma ArrayAlarmsSucc(owner: string, v: string, id: NodeId, dt: DataType, i: nat)
    ensures ArrayAlarms(owner, v, id, dt, i + 1) == ArrayAlarms(owner, v, id, dt, i) + ElementAlarms(owner, v, id, dt, i)
  {
  }

  /** Division by a width: the quotient and remainder of an index below `n * m`. */
  lemma DivModWidth(k: nat, m: nat, n: nat)
    requires m == 1 || m == 16 || m == 32
    requires k < n * m
    ensures k / m < n && k % m < m && (k / m) * m + k % m == k
  {
    if m == 1 {
    } else if m == 16 {
      assert k == (k / 16) * 16 + k % 16;
    } else {
      assert k == (k / 32) * 32 + k % 32;
    }
  }

  /**
   * Alarm `k` of a one-dimensional array of `n` elements: element `k` for a
   * boolean, bit `k % W` of element `k / W` otherwise.
   */
  lemma ArrayCandidateAt(owner: string, v: string, id: NodeId, dt: DataType, n: nat, k: nat)
    requires k < |ArrayAlarms(owner, v, id, dt, n)|
    ensures var r := ArrayAlarms(owner, v, id, dt, n);
            var w := BitWidth(dt);
            && (dt == Boolean ==>
                  r[k] == Candidate(AlarmName(owner, v, Some(k), None), AlarmMessage(owner, v, k, None), LinkText(id, Some(k))))
            && (dt != Boolean ==>
                  && k / w < n
                  && r[k] == Candidate(AlarmName(owner, v, Some(k / w), Some(k % w)), AlarmMessage(owner, v, k / w, Some(k % w)),
                                       BitLink(LinkText(id, Some(k / w)), k % w)))
  {
    ArrayAlarmsLength(owner, v, id, dt, n);
    DivModWidth(k, ElementWidth(dt), n);
    ArrayElementAt(owner, v, id, dt, n, k / ElementWidth(dt), k % ElementWidth(dt));
  }

  /** Alarm `j` of element `q` sits at `q * W + j`. */
  lemma ArrayElementAt(owner: string, v: string, id: NodeId, dt: DataType, n: nat, q: nat, j: nat)
    requires q < n && j < ElementWidth(dt)
    ensures var r := ArrayAlarms(owner, v, id, dt, n);
            q * ElementWidth(dt) + j < |r| && r[q * ElementWidth(dt) + j] == ElementAlarms(owner, v, id, dt, q)[j]
  {
    BlockAt((i: nat) => ElementAlarms(owner, v, id, dt, i), ElementWidth(dt), n, q, j);
  }

  lemma InsertAlarmsSingle(s: Space, c: NodeId, x: Candidate)
    requires Valid(s) && c in s.nodes
    ensures InsertAlarms(s, c, [x]) == InsertAlarm(s, c, x)
  {
    assert [x][0] == x && [x][1..] == [];
  }

  /** Inserting a concatenation is inserting one part after the other. */
  lemma {:induction false} InsertAlarmsAppend(s: Space, c: NodeId, a: seq<Candidate>, b: seq<Candidate>)
    requires Valid(s) && c in s.nodes
    ensures InsertAlarms(s, c, a + b) == InsertAlarms(InsertAlarms(s, c, a), c, b)
    decreases |a|
  {
    if |a| > 0 {
      assert (a + b)[0] == a[0] && (a + b)[1..] == a[1..] + b;
      InsertAlarmsAppend(InsertAlarm(s, c, a[0]), c, a[1..], b);
    } else {
      assert a + b == b;
    }
  }

  // ---------------------------------------------------------------------------
  // The script
  // ---------------------------------------------------------------------------

  /** The `GenerateAlarms` NetLogic: the Alarms folder it works on is kept in `alarmsFolder`. */
  class GenerateAlarms {
    const space: AddressSpace
    var alarmsFolder: NodeId

    constructor (space: AddressSpace)
      ensures this.space == space
    {
      this.space := space;
      alarmsFolder := 0;
    }

    /** `ClearAlarmsFolder`: every child of the Alarms folder is removed. */
    method ClearAlarmsFolder(alarms: NodeId)
      requires Valid(space.State()) && alarms in space.nodes
      modifies this, space
      ensures alarmsFolder == alarms
      ensures space.State() == ClearChildren(old(space.State()), alarms)
    {
      alarmsFolder := alarms;
      space.Clear(alarmsFolder);
    }

    /**
     * `GenerateDigitalAlarms`: walk from the starting node.  The starting
     * node's owner, read from the host in the source, is a parameter.
     */
    method GenerateDigitalAlarms(startingNode: Tree, startingOwner: string, alarms: NodeId)
      requires Valid(space.State()) && alarms in space.nodes
      modifies this, space
      ensures alarmsFolder == alarms
      ensures space.State() == Fetch(old(space.State()), startingNode, startingOwner, alarms)
    {
      alarmsFolder := alarms;
      FetchNode(startingNode, startingOwner);
    }

    /** `FetchNode`. */
    method FetchNode(node: Tree, owner: string)
      requires Valid(space.State()) && alarmsFolder in space.nodes
      modifies space
      ensures space.State() == Fetch(old(space.State()), node, owner, alarmsFolder)
      decreases node
    {
      if node.kind.TagStructure? || node.kind.Folder? {
        var i := 0;
        while i < |node.children|
          invariant 0 <= i <= |node.children|
          invariant Valid(space.State()) && alarmsFolder in space.nodes
          invariant FetchAll(old(space.State()), node.children, node.name, alarmsFolder)
                 == FetchAll(space.State(), node.children[i..], node.name, alarmsFolder)
        {
          FetchAllStep(space.State(), node.children, i, node.name, alarmsFolder);
          FetchNode(node.children[i], node.name);
          i := i + 1;
        }
      } else if IsVariable(node.kind) {
        GenerateDigitalAlarm(node, owner);
      }
    }

    /**
     * `GenerateDigitalAlarm`: the flags of the source, then the container,
     * then the loops.  A failure to prepare the container ends the method
     * with nothing changed, as the source's `catch` does.
     */
    method GenerateDigitalAlarm(variable: Tree, owner: string)
      requires Valid(space.State()) && alarmsFolder in space.nodes && IsVariable(variable.kind)
      modifies space
      ensures space.State() == GenerateFor(old(space.State()), variable, owner, alarmsFolder)
    {
      var tagDataType := variable.kind.dataType;
      var numberOfAlarmsToGenerate := 1;
      var variableIsArray := |variable.kind.dims| == 1;
      var isBoolVariable := false;
      var isArrayVariable := |variable.kind.dims| > 0;
      if tagDataType == Boolean { isBoolVariable := true; }
      if tagDataType == Int16 { numberOfAlarmsToGenerate := 16; }
      if tagDataType == Int32 { numberOfAlarmsToGenerate := 32; }
      if tagDataType == UInt16 { numberOfAlarmsToGenerate := 16; }
      if tagDataType == UInt32 { numberOfAlarmsToGenerate := 32; }

      var container := GetVariableAlmsFolder(variable, owner, isArrayVariable, isBoolVariable);
      if container.None? {
        return;
      }
      if variableIsArray {
        AddArrayAlarms(container.value, variable, owner, isBoolVariable, numberOfAlarmsToGenerate);
      } else {
        AddScalarAlarms(container.value, variable, owner, isBoolVariable, numberOfAlarmsToGenerate);
      }
    }

    /** The `if (variableIsArray)` branch: one pass per element of the single dimension. */
    method AddArrayAlarms(c: NodeId, variable: Tree, owner: string, isBoolVariable: bool, numberOfAlarmsToGenerate: nat)
      requires Valid(space.State()) && c in space.nodes && IsVariable(variable.kind) && |variable.kind.dims| == 1
      requires isBoolVariable == (variable.kind.dataType == Boolean)
      requires numberOfAlarmsToGenerate == BitWidth(variable.kind.dataType)
      modifies space
      ensures space.State()
           == InsertAlarms(old(space.State()), c, Candidates(owner, variable.name, variable.id, variable.kind.dataType, variable.kind.dims))
    {
      ghost var start := space.State();
      var length := variable.kind.dims[0];
      var i := 0;
      while i < length
        invariant 0 <= i <= length
        invariant Valid(space.State()) && c in space.nodes
        invariant space.State() == InsertAlarms(start, c, ArrayAlarms(owner, variable.name, variable.id, variable.kind.dataType, i))
      {
        ghost var elem := ElementAlarms(owner, variable.name, variable.id, variable.kind.dataType, i);
        ArrayAlarmsSucc(owner, variable.name, variable.id, variable.kind.dataType, i);
        InsertAlarmsAppend(start, c, ArrayAlarms(owner, variable.name, variable.id, variable.kind.dataType, i), elem);
        if isBoolVariable {
          InsertAlarmsSingle(space.State(), c, elem[0]);
          AddAlarm(c, Candidate(AlarmName(owner, variable.name, Some(i), None), AlarmMessage(owner, variable.name, i, None),
                                LinkText(variable.id, Some(i))));
        } else {
          AddElementBits(c, variable, owner, i, numberOfAlarmsToGenerate);
        }
        i := i + 1;
      }
    }

    /** The inner `for (j …)` loop over the bits of element `i`. */
    method AddElementBits(c: NodeId, variable: Tree, owner: string, i: nat, numberOfAlarmsToGenerate: nat)
      requires Valid(space.State()) && c in space.nodes
      modifies space
      ensures space.State()
           == InsertAlarms(old(space.State()), c, ElementBitAlarms(owner, variable.name, variable.id, i, numberOfAlarmsToGenerate))
    {
      ghost var start := space.State();
      ghost var alarms := ElementBitAlarms(owner, variable.name, variable.id, i, numberOfAlarmsToGenerate);
      var j := 0;
      while j < numberOfAlarmsToGenerate
        invariant 0 <= j <= numberOfAlarmsToGenerate
        invariant Valid(space.State()) && c in space.nodes
        invariant InsertAlarms(start, c, alarms) == InsertAlarms(space.State(), c, alarms[j..])
      {
        InsertAlarmsStep(space.State(), c, alarms, j);
        AddAlarm(c, Candidate(AlarmName(owner, variable.name, Some(i), Some(j)), AlarmMessage(owner, variable.name, i, Some(j)),
                              BitLink(LinkText(variable.id, Some(i)), j)));
        j := j + 1;
      }
      assert alarms[j..] == [];
    }

    /** The `else` branch: a scalar or a matrix, one pass per bit of the whole variable. */
    method AddScalarAlarms(c: NodeId, variable: Tree, owner: string, isBoolVariable: bool, numberOfAlarmsToGenerate: nat)
      requires Valid(space.State()) && c in space.nodes && IsVariable(variable.kind) && |variable.kind.dims| != 1
      requires isBoolVariable == (variable.kind.dataType == Boolean)
      requires numberOfAlarmsToGenerate == BitWidth(variable.kind.dataType)
      modifies space
      ensures space.State()
           == InsertAlarms(old(space.State()), c, Candidates(owner, variable.name, variable.id, variable.kind.dataType, variable.kind.dims))
    {
      ghost var start := space.State();
      ghost var cands := Candidates(owner, variable.name, variable.id, variable.kind.dataType, variable.kind.dims);
      var i := 0;
      while i < numberOfAlarmsToGenerate
        invariant 0 <= i <= numberOfAlarmsToGenerate
        invariant Valid(space.State()) && c in space.nodes
        invariant InsertAlarms(start, c, cands) == InsertAlarms(space.State(), c, cands[i..])
      {
        var name, link;
        if isBoolVariable {
          name := AlarmName(owner, variable.name, None, None);
          link := LinkText(variable.id, None);
        } else {
          name := AlarmName(owner, variable.name, Some(i), None);
          link := BitLink(LinkText(variable.id, None), i);
        }
        InsertAlarmsStep(space.State(), c, cands, i);
        AddAlarm(c, Candidate(name, AlarmMessage(owner, variable.name, i, None), link));
        i := i + 1;
      }
      assert cands[i..] == [];
    }

    /**
     * `GetVariableAlmsFolder`: the container for the variable's alarms, or
     * nothing when the name of its folder is taken by a node that is not a
     * folder.
     */
    method GetVariableAlmsFolder(variable: Tree, owner: string, isArrayVariable: bool, isBoolVariable: bool)
      returns (r: Option<NodeId>)
      requires Valid(space.State()) && alarmsFolder in space.nodes
      modifies space
      ensures match PrepareContainer(old(space.State()), alarmsFolder, owner, variable.name, isArrayVariable, isBoolVariable)
              case None => r.None? && space.State() == old(space.State())
              case Some(target) => r == Some(target.container) && space.State() == target.space
    {
      if !isArrayVariable && isBoolVariable {
        return Some(alarmsFolder);
      }
      var existing := space.Get(alarmsFolder, FolderName(owner, variable.name));
      if existing.Some? {
        if space.nodes[existing.value].kind == Folder {
          return existing;
        }
        return None;
      }
      var created := space.Add(alarmsFolder, FolderName(owner, variable.name), Folder);
      return Some(created);
    }

    /** `if (!NodeAlreadyExists(container, alm)) container.Add(alm)`. */
    method AddAlarm(container: NodeId, alarm: Candidate)
      requires Valid(space.State()) && container in space.nodes
      modifies space
      ensures space.State() == InsertAlarm(old(space.State()), container, alarm)
    {
      var existing := space.Get(container, alarm.name);
      if existing.None? {
        var _ := space.Add(container, alarm.name, DigitalAlarm(alarm.message, alarm.link));
      }
    }
  }
}
