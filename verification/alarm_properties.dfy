/**
 * What alarm generation promises: how many candidates a variable gets and
 * what they are called, that their names never clash, that insertion never
 * touches an existing node, and that a second run without clearing the
 * Alarms folder adds nothing.
 */
module AlarmProperties {
  import opened Wrappers
  import opened Text
  import opened Nodes
  import opened DigitalAlarms

  // ---------------------------------------------------------------------------
  // Candidates
  // ---------------------------------------------------------------------------

  /**
   * How many alarms a variable gets: per element (one, or one per bit) of a
   * one-dimensional array, else one per bit of the whole variable.
   */
  lemma CandidateCount(owner: string, v: string, id: NodeId, dt: DataType, dims: seq<nat>)
    ensures |Candidates(owner, v, id, dt, dims)|
         == if |dims| == 1 then dims[0] * (if dt == Boolean then 1 else BitWidth(dt)) else BitWidth(dt)
  {
    if |dims| == 1 {
      ArrayAlarmsLength(owner, v, id, dt, dims[0]);
    }
  }

  /** The fan-out of a few shapes: a scalar UInt16, a scalar boolean, an Int32[4], an unsupported scalar. */
  lemma CandidateCountExamples(owner: string, v: string, id: NodeId)
    ensures |Candidates(owner, v, id, UInt16, [])| == 16
    ensures |Candidates(owner, v, id, Boolean, [])| == 1
    ensures |Candidates(owner, v, id, Int32, [4])| == 128
    ensures Candidates(owner, v, id, Double, [])
         == [Candidate(AlarmStem(owner, v) + "_0", AlarmStem(owner, v) + "_0", LinkText(id, None) + ".0")]
  {
    CandidateCount(owner, v, id, Int32, [4]);
    var r := Candidates(owner, v, id, Double, []);
    var stem, link := AlarmStem(owner, v), LinkText(id, None);
    assert NatToString(0) == "0";
    assert "_" + "0" == "_0" && "." + "0" == ".0";
    assert r[0].name == stem + ("_" + "0") == stem + "_0";
    assert r[0].message == stem + "_" + "0" + "" == stem + "_0";
    assert r[0].link == link + "." + "0" == link + ".0";
    assert r == [r[0]];
  }

  /**
   * A message is the alarm's own name, except for a boolean that takes the
   * scalar branch: its name has no index but its message ends in "_0".
   */
  lemma CandidateMessages(owner: string, v: string, id: NodeId, dt: DataType, dims: seq<nat>)
    ensures var r := Candidates(owner, v, id, dt, dims);
            forall k | 0 <= k < |r| ::
              r[k].message == if |dims| != 1 && dt == Boolean then r[k].name + "_0" else r[k].name
  {
    var r := Candidates(owner, v, id, dt, dims);
    var w := BitWidth(dt);
    forall k | 0 <= k < |r|
      ensures r[k].message == if |dims| != 1 && dt == Boolean then r[k].name + "_0" else r[k].name
    {
      if |dims| == 1 {
        ArrayCandidateAt(owner, v, id, dt, dims[0], k);
      }
      if |dims| == 1 && dt != Boolean {
        MessageIsName(owner, v, k / w, Some(k % w));
      } else if |dims| == 1 || dt != Boolean {
        MessageIsName(owner, v, k, None);
      } else {
        assert k == 0 && NatToString(0) == "0";
        assert r[k].message == AlarmStem(owner, v) + "_0" + "";
      }
    }
  }

  /** The message of an indexed alarm is its name. */
  lemma MessageIsName(owner: string, v: string, i: nat, j: Option<nat>)
    ensures AlarmMessage(owner, v, i, j) == AlarmName(owner, v, Some(i), j)
  {
    var stem, a := AlarmStem(owner, v), NatToString(i);
    if j.Some? {
      var b := NatToString(j.value);
      assert stem + "_" + a + ("_" + b) == stem + ("_" + a + "_" + b);
    } else {
      assert stem + "_" + a + "" == stem + ("_" + a);
    }
  }

  /**
   * A boolean alarm reads the variable (or its element) as it is; any other
   * alarm reads one bit of it: alarm k of a one-dimensional array reads bit
   * k % W of element k / W, alarm k of anything else reads bit k.
   */
  lemma CandidateLinks(owner: string, v: string, id: NodeId, dt: DataType, dims: seq<nat>)
    ensures var r := Candidates(owner, v, id, dt, dims);
            var w := BitWidth(dt);
            forall k | 0 <= k < |r| ::
              if dt == Boolean then r[k].link == LinkText(id, if |dims| == 1 then Some(k) else None)
              else
                && r[k].link == BitLink(LinkText(id, if |dims| == 1 then Some(k / w) else None), k % w)
                && (|dims| == 1 ==> k / w < dims[0])
  {
    var r := Candidates(owner, v, id, dt, dims);
    var w := BitWidth(dt);
    forall k | 0 <= k < |r| && |dims| == 1
      ensures if dt == Boolean then r[k].link == LinkText(id, Some(k))
              else r[k].link == BitLink(LinkText(id, Some(k / w)), k % w) && k / w < dims[0]
    {
      ArrayCandidateAt(owner, v, id, dt, dims[0], k);
    }
    forall k | 0 <= k < |r| && dt != Boolean && |dims| != 1
      ensures r[k].link == BitLink(LinkText(id, None), k % w)
    {
      assert k % w == k;
    }
  }

  /** No two alarms of one variable share a name. */
  lemma CandidateNamesDistinct(owner: string, v: string, id: NodeId, dt: DataType, dims: seq<nat>)
    ensures var r := Candidates(owner, v, id, dt, dims);
            forall a, b | 0 <= a < b < |r| :: r[a].name != r[b].name
  {
    var r := Candidates(owner, v, id, dt, dims);
    var w := BitWidth(dt);
    forall a, b | 0 <= a < b < |r| ensures r[a].name != r[b].name {
      if |dims| == 1 {
        ArrayCandidateAt(owner, v, id, dt, dims[0], a);
        ArrayCandidateAt(owner, v, id, dt, dims[0], b);
      }
      if |dims| == 1 && dt != Boolean {
        NameInjective(owner, v, Some(a / w), Some(a % w), Some(b / w), Some(b % w));
        DivModSame(a, b, w);
      } else if |dims| == 1 || dt != Boolean {
        NameInjective(owner, v, Some(a), None, Some(b), None);
      }
    }
  }

  lemma DivModSame(a: nat, b: nat, w: nat)
    requires w == 1 || w == 16 || w == 32
    ensures a / w == b / w && a % w == b % w ==> a == b
  {
  }

  /** Two indexed alarm names are equal only when their indices are. */
  lemma NameInjective(owner: string, v: string, i1: Option<nat>, j1: Option<nat>, i2: Option<nat>, j2: Option<nat>)
    requires i1.Some? && i2.Some? && j1.Some? == j2.Some?
    ensures AlarmName(owner, v, i1, j1) == AlarmName(owner, v, i2, j2) ==> i1 == i2 && j1 == j2
  {
    if AlarmName(owner, v, i1, j1) == AlarmName(owner, v, i2, j2) {
      SameSuffix(owner, v, i1, j1, i2, j2);
    }
  }

  lemma SameSuffix(owner: string, v: string, i1: Option<nat>, j1: Option<nat>, i2: Option<nat>, j2: Option<nat>)
    requires i1.Some? && i2.Some? && j1.Some? == j2.Some?
    requires AlarmName(owner, v, i1, j1) == AlarmName(owner, v, i2, j2)
    ensures i1 == i2 && j1 == j2
  {
    var stem := AlarmStem(owner, v);
    AppendCancel(stem, IndexSuffix(i1, j1), IndexSuffix(i2, j2));
    var a, c := NatToString(i1.value), NatToString(i2.value);
    NoUnderscore(i1.value);
    NoUnderscore(i2.value);
    if j1.None? {
      AppendCancel("_", a, c);
    } else {
      var b, d := NatToString(j1.value), NatToString(j2.value);
      assert "_" + a + "_" + b == "_" + (a + "_" + b);
      assert "_" + c + "_" + d == "_" + (c + "_" + d);
      AppendCancel("_", a + "_" + b, c + "_" + d);
      CutAtUnderscore(a, b, c, d);
      NatToStringInjective(j1.value, j2.value);
    }
    NatToStringInjective(i1.value, i2.value);
  }

  lemma AppendCancel(p: string, a: string, b: string)
    requires p + a == p + b
    ensures a == b
  {
    assert a == (p + a)[|p|..];
    assert b == (p + b)[|p|..];
  }

  lemma NoUnderscore(n: nat)
    ensures '_' !in NatToString(n)
  {
    var s := NatToString(n);
    NatToStringDigits(n);
    forall k | 0 <= k < |s| ensures s[k] != '_' {
      assert IsDigit(s[k]);
    }
  }

  /** In `a + "_" + b` with no "_" in `a`, the first "_" is the one after `a`. */
  lemma FirstUnderscore(a: string, b: string)
    requires '_' !in a
    ensures (a + "_" + b)[|a|] == '_'
    ensures forall k | 0 <= k < |a| :: (a + "_" + b)[k] != '_'
  {
    forall k | 0 <= k < |a| ensures (a + "_" + b)[k] != '_' {
      assert (a + "_" + b)[k] == a[k];
    }
  }

  /** A text cut at its first "_" determines both sides. */
  lemma CutAtUnderscore(a: string, b: string, c: string, d: string)
    requires '_' !in a && '_' !in c
    requires a + "_" + b == c + "_" + d
    ensures a == c && b == d
  {
    var x := a + "_" + b;
    FirstUnderscore(a, b);
    FirstUnderscore(c, d);
    assert |a| == |c|;
    assert a == x[..|a|] == c;
    assert b == x[|a| + 1..] == d;
  }

  // ---------------------------------------------------------------------------
  // The container
  // ---------------------------------------------------------------------------

  /**
   * A scalar boolean's alarms go to the Alarms folder itself; any other
   * variable's go to a folder named "<owner>_<variable>_alarms" directly
   * under it, an existing one when there is one.  Nothing is prepared only
   * when the first child of that name is not a folder.
   */
  lemma ContainerChoice(s: Space, root: NodeId, owner: string, v: string, isArray: bool, isBool: bool)
    requires Valid(s) && root in s.nodes
    ensures var r := PrepareContainer(s, root, owner, v, isArray, isBool);
            && (!isArray && isBool ==> r == Some(Target(root, s)))
            && (!(!isArray && isBool) ==>
                  match FindChild(s, root, FolderName(owner, v))
                  case Some(f) => r == (if s.nodes[f].kind == Folder then Some(Target(f, s)) else None)
                  case None =>
                    && r.Some?
                    && r.value.container == s.nextId
                    && r.value.space.nodes[s.nextId] == Node(FolderName(owner, v), Folder, [])
                    && r.value.space.nodes[root].children == s.nodes[root].children + [s.nextId])
  {
  }

  // ---------------------------------------------------------------------------
  // Insertion
  // ---------------------------------------------------------------------------

  ghost predicate AllPresent(s: Space, c: NodeId, cands: seq<Candidate>)
    requires Valid(s) && c in s.nodes
  {
    forall k | 0 <= k < |cands| :: FindChild(s, c, cands[k].name).Some?
  }

  lemma AllPresentStable(s: Space, u: Space, c: NodeId, cands: seq<Candidate>)
    requires Valid(s) && Valid(u) && Grows(s, u) && c in s.nodes && AllPresent(s, c, cands)
    ensures AllPresent(u, c, cands)
  {
    forall k | 0 <= k < |cands| ensures FindChild(u, c, cands[k].name).Some? {
      FindChildStable(s, u, c, cands[k].name);
    }
  }

  /** After insertion every candidate's name is a child of the container. */
  lemma {:induction false} InsertAlarmsPresent(s: Space, c: NodeId, cands: seq<Candidate>)
    requires Valid(s) && c in s.nodes
    ensures AllPresent(InsertAlarms(s, c, cands), c, cands)
    decreases |cands|
  {
    if |cands| > 0 {
      var s1 := InsertAlarm(s, c, cands[0]);
      var r := InsertAlarms(s1, c, cands[1..]);
      InsertAlarmsPresent(s1, c, cands[1..]);
      FindChildStable(s1, r, c, cands[0].name);
      forall k | 1 <= k < |cands| ensures FindChild(r, c, cands[k].name).Some? {
        assert cands[k] == cands[1..][k - 1];
      }
    }
  }

  /** When every name is taken already, insertion changes nothing: an existing alarm is never replaced. */
  lemma {:induction false} InsertAlarmsSettled(s: Space, c: NodeId, cands: seq<Candidate>)
    requires Valid(s) && c in s.nodes && AllPresent(s, c, cands)
    ensures InsertAlarms(s, c, cands) == s
    decreases |cands|
  {
    if |cands| > 0 {
      assert InsertAlarm(s, c, cands[0]) == s;
      forall k | 0 <= k < |cands| - 1 ensures FindChild(s, c, cands[1..][k].name).Some? {
        assert cands[1..][k] == cands[k + 1];
      }
      InsertAlarmsSettled(s, c, cands[1..]);
    }
  }

  /** Insertion adds at most one node per candidate and leaves every node but the container as it was. */
  lemma {:induction false} InsertAlarmsFrame(s: Space, c: NodeId, cands: seq<Candidate>)
    requires Valid(s) && c in s.nodes
    ensures var r := InsertAlarms(s, c, cands);
            && r.nextId <= s.nextId + |cands|
            && forall id | id in s.nodes && id != c :: r.nodes[id] == s.nodes[id]
    decreases |cands|
  {
    if |cands| > 0 {
      InsertAlarmsFrame(InsertAlarm(s, c, cands[0]), c, cands[1..]);
    }
  }

  /** Every node insertion adds is a childless digital alarm under the container, made from one of the candidates. */
  lemma {:induction false} InsertAlarmsAdds(s: Space, c: NodeId, cands: seq<Candidate>)
    requires Valid(s) && c in s.nodes
    ensures var r := InsertAlarms(s, c, cands);
            forall id | id in r.nodes && id !in s.nodes ::
              && id in r.nodes[c].children
              && r.nodes[id].children == []
              && r.nodes[id].kind.DigitalAlarm?
              && Candidate(r.nodes[id].name, r.nodes[id].kind.message, r.nodes[id].kind.inputLink) in cands
    decreases |cands|
  {
    if |cands| > 0 {
      var s1 := InsertAlarm(s, c, cands[0]);
      var r := InsertAlarms(s1, c, cands[1..]);
      InsertAlarmsAdds(s1, c, cands[1..]);
      forall id | id in r.nodes && id !in s.nodes
        ensures && id in r.nodes[c].children
                && r.nodes[id].children == []
                && r.nodes[id].kind.DigitalAlarm?
                && Candidate(r.nodes[id].name, r.nodes[id].kind.message, r.nodes[id].kind.inputLink) in cands
      {
        if id in s1.nodes {
          assert s1 != s && id == s.nextId;
          NewAlarmKept(s, c, cands);
        } else {
          var x := Candidate(r.nodes[id].name, r.nodes[id].kind.message, r.nodes[id].kind.inputLink);
          assert x in cands[1..];
        }
      }
    }
  }

  /** The alarm the first insertion adds survives the rest unchanged. */
  lemma NewAlarmKept(s: Space, c: NodeId, cands: seq<Candidate>)
    requires Valid(s) && c in s.nodes && |cands| > 0 && InsertAlarm(s, c, cands[0]) != s
    ensures var r := InsertAlarms(s, c, cands);
            && r.nodes[s.nextId] == Node(cands[0].name, DigitalAlarm(cands[0].message, cands[0].link), [])
            && s.nextId in r.nodes[c].children
  {
    var s1 := InsertAlarm(s, c, cands[0]);
    var r := InsertAlarms(s1, c, cands[1..]);
    var n := s.nextId;
    assert s1.nodes[n] == Node(cands[0].name, DigitalAlarm(cands[0].message, cands[0].link), []);
    InsertAlarmsFrame(s1, c, cands[1..]);
    assert s1.nodes[c].children <= r.nodes[c].children;
    assert n in s1.nodes[c].children;
  }

  // ---------------------------------------------------------------------------
  // A second run adds nothing
  // ---------------------------------------------------------------------------

  /**
   * The variable's alarms are all in place: the container its alarms go to
   * exists and holds every candidate name, or the name of its folder is taken
   * by something that is not a folder (so the variable is skipped).
   */
  ghost predicate Settled(s: Space, t: Tree, owner: string, root: NodeId)
    requires Valid(s) && root in s.nodes && IsVariable(t.kind)
  {
    var cands := Candidates(owner, t.name, t.id, t.kind.dataType, t.kind.dims);
    if |t.kind.dims| == 0 && t.kind.dataType == Boolean then AllPresent(s, root, cands)
    else
      match FindChild(s, root, FolderName(owner, t.name))
      case None => false
      case Some(f) => s.nodes[f].kind != Folder || AllPresent(s, f, cands)
  }

  lemma SettledStable(s: Space, u: Space, t: Tree, owner: string, root: NodeId)
    requires Valid(s) && Valid(u) && OnlyAdds(s, u) && root in s.nodes && IsVariable(t.kind)
    requires Settled(s, t, owner, root)
    ensures Settled(u, t, owner, root)
  {
    var cands := Candidates(owner, t.name, t.id, t.kind.dataType, t.kind.dims);
    if |t.kind.dims| == 0 && t.kind.dataType == Boolean {
      AllPresentStable(s, u, root, cands);
    } else {
      var f := FindChild(s, root, FolderName(owner, t.name)).value;
      FindChildStable(s, u, root, FolderName(owner, t.name));
      if s.nodes[f].kind == Folder {
        AllPresentStable(s, u, f, cands);
      }
    }
  }

  /** One run over a variable leaves it settled. */
  lemma GenerateSettles(s: Space, t: Tree, owner: string, root: NodeId)
    requires Valid(s) && root in s.nodes && IsVariable(t.kind)
    ensures Settled(GenerateFor(s, t, owner, root), t, owner, root)
  {
    var r := GenerateFor(s, t, owner, root);
    var cands := Candidates(owner, t.name, t.id, t.kind.dataType, t.kind.dims);
    var name := FolderName(owner, t.name);
    if |t.kind.dims| == 0 && t.kind.dataType == Boolean {
      InsertAlarmsPresent(s, root, cands);
    } else if FindChild(s, root, name).Some? {
      var f := FindChild(s, root, name).value;
      if s.nodes[f].kind == Folder {
        InsertAlarmsPresent(s, f, cands);
        FindChildStable(s, r, root, name);
      }
    } else {
      var s1 := AddNew(s, root, name, Folder);
      FindAfterAdd(s, root, name, Folder);
      InsertAlarmsPresent(s1, s.nextId, cands);
      FindChildStable(s1, r, root, name);
    }
  }

  /** Over a settled variable, a run changes nothing. */
  lemma SettledNoChange(s: Space, t: Tree, owner: string, root: NodeId)
    requires Valid(s) && root in s.nodes && IsVariable(t.kind) && Settled(s, t, owner, root)
    ensures GenerateFor(s, t, owner, root) == s
  {
    var cands := Candidates(owner, t.name, t.id, t.kind.dataType, t.kind.dims);
    if |t.kind.dims| == 0 && t.kind.dataType == Boolean {
      InsertAlarmsSettled(s, root, cands);
    } else {
      var f := FindChild(s, root, FolderName(owner, t.name)).value;
      if s.nodes[f].kind == Folder {
        InsertAlarmsSettled(s, f, cands);
      }
    }
  }

  /** Every variable the walk reaches from `t` is settled. */
  ghost predicate Covered(s: Space, t: Tree, owner: string, root: NodeId)
    requires Valid(s) && root in s.nodes
    decreases t, 1
  {
    if t.kind.TagStructure? || t.kind.Folder? then CoveredAll(s, t.children, t.name, root)
    else IsVariable(t.kind) ==> Settled(s, t, owner, root)
  }

  ghost predicate CoveredAll(s: Space, ts: seq<Tree>, owner: string, root: NodeId)
    requires Valid(s) && root in s.nodes
    decreases ts, 2
  {
    forall i | 0 <= i < |ts| :: Covered(s, ts[i], owner, root)
  }

  lemma {:induction false} CoveredStable(s: Space, u: Space, t: Tree, owner: string, root: NodeId)
    requires Valid(s) && Valid(u) && OnlyAdds(s, u) && root in s.nodes && Covered(s, t, owner, root)
    ensures Covered(u, t, owner, root)
    decreases t, 1
  {
    if t.kind.TagStructure? || t.kind.Folder? {
      CoveredAllStable(s, u, t.children, t.name, root);
    } else if IsVariable(t.kind) {
      SettledStable(s, u, t, owner, root);
    }
  }

  lemma {:induction false} CoveredAllStable(s: Space, u: Space, ts: seq<Tree>, owner: string, root: NodeId)
    requires Valid(s) && Valid(u) && OnlyAdds(s, u) && root in s.nodes && CoveredAll(s, ts, owner, root)
    ensures CoveredAll(u, ts, owner, root)
    decreases ts, 2
  {
    forall i | 0 <= i < |ts| ensures Covered(u, ts[i], owner, root) {
      CoveredStable(s, u, ts[i], owner, root);
    }
  }

  /** After one run of the walk every variable it reaches is settled. */
  lemma {:induction false} FetchCovers(s: Space, t: Tree, owner: string, root: NodeId)
    requires Valid(s) && root in s.nodes
    ensures Covered(Fetch(s, t, owner, root), t, owner, root)
    decreases t, 1
  {
    if t.kind.TagStructure? || t.kind.Folder? {
      FetchAllCovers(s, t.children, t.name, root);
    } else if IsVariable(t.kind) {
      GenerateSettles(s, t, owner, root);
    }
  }

  lemma {:induction false} FetchAllCovers(s: Space, ts: seq<Tree>, owner: string, root: NodeId)
    requires Valid(s) && root in s.nodes
    ensures CoveredAll(FetchAll(s, ts, owner, root), ts, owner, root)
    decreases ts, 2
  {
    if |ts| > 0 {
      var s1 := Fetch(s, ts[0], owner, root);
      var r := FetchAll(s1, ts[1..], owner, root);
      FetchCovers(s, ts[0], owner, root);
      FetchAllCovers(s1, ts[1..], owner, root);
      CoveredStable(s1, r, ts[0], owner, root);
      forall i | 1 <= i < |ts| ensures Covered(r, ts[i], owner, root) {
        assert ts[i] == ts[1..][i - 1];
      }
    }
  }

  /** Over a covered tree the walk changes nothing. */
  lemma {:induction false} CoveredFetchNoChange(s: Space, t: Tree, owner: string, root: NodeId)
    requires Valid(s) && root in s.nodes && Covered(s, t, owner, root)
    ensures Fetch(s, t, owner, root) == s
    decreases t, 1
  {
    if t.kind.TagStructure? || t.kind.Folder? {
      CoveredAllFetchNoChange(s, t.children, t.name, root);
    } else if IsVariable(t.kind) {
      SettledNoChange(s, t, owner, root);
    }
  }

  lemma {:induction false} CoveredAllFetchNoChange(s: Space, ts: seq<Tree>, owner: string, root: NodeId)
    requires Valid(s) && root in s.nodes && CoveredAll(s, ts, owner, root)
    ensures FetchAll(s, ts, owner, root) == s
    decreases ts, 2
  {
    if |ts| > 0 {
      CoveredFetchNoChange(s, ts[0], owner, root);
      assert CoveredAll(s, ts[1..], owner, root) by {
        forall i | 0 <= i < |ts| - 1 ensures Covered(s, ts[1..][i], owner, root) {
          assert ts[1..][i] == ts[i + 1];
        }
      }
      CoveredAllFetchNoChange(s, ts[1..], owner, root);
    }
  }

  /** Rerunning the generator without clearing the Alarms folder adds no alarm and changes nothing. */
  lemma FetchIdempotent(s: Space, t: Tree, owner: string, root: NodeId)
    requires Valid(s) && root in s.nodes
    ensures var once := Fetch(s, t, owner, root);
            Fetch(once, t, owner, root) == once
  {
    FetchCovers(s, t, owner, root);
    CoveredFetchNoChange(Fetch(s, t, owner, root), t, owner, root);
  }

  /** `ClearAlarmsFolder`: the folder keeps its place and loses every child. */
  lemma ClearEmpties(s: Space, root: NodeId)
    requires Valid(s) && root in s.nodes
    ensures var r := ClearChildren(s, root);
            && r.nodes[root].children == []
            && FindChild(r, root, "").None?
            && forall name :: FindChild(r, root, name).None?
  {
  }
}
