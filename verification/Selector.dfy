/**
 Choosing and starting cores (core/selector.go). The registry maps a core type to the node types
 it supports; whether creating, starting or using a core works is a parameter of the call.
 */
module Selectors {
  import opened Wrappers

  type Registry = map<string, seq<string>>

  // The key is the configured name of the core, or its type when it has none.
  datatype Entry = Entry(key: string, typ: string)

  datatype Options = Options(coreName: string, core: string, nodeType: string)

  type CoreId = nat

  ghost predicate Known(reg: Registry, entries: seq<Entry>) {
    forall i :: 0 <= i < |entries| ==> entries[i].typ in reg
  }

  // --- The choice ---------------------------------------------------------------------------------

  // The first position that holds, if any.
  ghost predicate IsFirst(p: seq<bool>, r: Option<nat>) {
    match r
    case Some(i) => i < |p| && p[i] && forall j :: 0 <= j < i ==> !p[j]
    case None => forall i :: 0 <= i < |p| ==> !p[i]
  }

  // Whether a node may be put on the entry at all.
  predicate Eligible(reg: Registry, e: Entry, o: Options) {
    if o.coreName != "" then e.key == o.coreName
    else if o.core == "" then e.typ in reg && o.nodeType in reg[e.typ]
    else e.typ == o.core
  }

  function Eligibles(reg: Registry, entries: seq<Entry>, o: Options): (p: seq<bool>)
    ensures |p| == |entries|
  {
    seq(|entries|, i requires 0 <= i < |entries| => Eligible(reg, entries[i], o))
  }

  function Both(p: seq<bool>, q: seq<bool>): (r: seq<bool>)
    requires |p| == |q|
    ensures |r| == |p|
  {
    seq(|p|, i requires 0 <= i < |p| => p[i] && q[i])
  }

  // A name takes the first core that has it; otherwise the first running eligible core is taken,
  // and the first eligible one when none of them runs.
  ghost predicate IsPick(reg: Registry, entries: seq<Entry>, running: seq<bool>, o: Options, r: Option<nat>)
    requires |running| == |entries|
  {
    var p := Eligibles(reg, entries, o);
    if o.coreName != "" || IsFirst(Both(p, running), None) then IsFirst(p, r) else IsFirst(Both(p, running), r)
  }

  function First(p: seq<bool>): (r: Option<nat>)
    ensures IsFirst(p, r)
  {
    if p == [] then None
    else if First(p[..|p| - 1]).Some? then First(p[..|p| - 1])
    else if p[|p| - 1] then Some(|p| - 1)
    else None
  }

  lemma FirstUnique(p: seq<bool>, a: Option<nat>, b: Option<nat>)
    requires IsFirst(p, a) && IsFirst(p, b)
    ensures a == b
  {
  }

  function Pick(reg: Registry, entries: seq<Entry>, running: seq<bool>, o: Options): (r: Option<nat>)
    requires |running| == |entries|
    ensures IsPick(reg, entries, running, o, r)
  {
    var p := Eligibles(reg, entries, o);
    var first := First(Both(p, running));
    if o.coreName != "" || first.None? then First(p) else first
  }

  /** The choice is determined. */
  lemma PickUnique(reg: Registry, entries: seq<Entry>, running: seq<bool>, o: Options, r: Option<nat>)
    requires |running| == |entries| && IsPick(reg, entries, running, o, r)
    ensures r == Pick(reg, entries, running, o)
  {
    var p := Eligibles(reg, entries, o);
    if o.coreName != "" || IsFirst(Both(p, running), None) {
      FirstUnique(p, r, Pick(reg, entries, running, o));
    } else {
      FirstUnique(Both(p, running), r, Pick(reg, entries, running, o));
    }
  }

  // The core suits a node that does not name one: it has the asked type, or supports the node if no
  // type is asked for.
  predicate Suits(reg: Registry, e: Entry, core: string, nodeType: string) {
    if core != "" then e.typ == core else e.typ in reg && nodeType in reg[e.typ]
  }

  /** A node that names its core gets the first core of that name. Another one gets the first running
      core that suits it, or the first that suits it when none of those runs, or none. */
  lemma PickIs(reg: Registry, entries: seq<Entry>, running: seq<bool>, o: Options, r: Option<nat>)
    requires |running| == |entries| && IsPick(reg, entries, running, o, r)
    ensures r.Some? ==> r.value < |entries|
    ensures o.coreName != "" ==>
      if r.Some? then entries[r.value].key == o.coreName && forall j :: 0 <= j < r.value ==> entries[j].key != o.coreName
      else forall j :: 0 <= j < |entries| ==> entries[j].key != o.coreName
    ensures o.coreName == "" && r.Some? ==>
      && Suits(reg, entries[r.value], o.core, o.nodeType)
      && (forall j :: 0 <= j < r.value && running[j] ==> !Suits(reg, entries[j], o.core, o.nodeType))
      && (!running[r.value] ==> forall j :: 0 <= j < r.value ==> !Suits(reg, entries[j], o.core, o.nodeType))
      && (!running[r.value] ==> forall j :: 0 <= j < |entries| && running[j] ==>
            !Suits(reg, entries[j], o.core, o.nodeType))
    ensures o.coreName == "" && r.None? ==>
      forall j :: 0 <= j < |entries| ==> !Suits(reg, entries[j], o.core, o.nodeType)
  {
    var p := Eligibles(reg, entries, o);
    var q := Both(p, running);
    forall j | 0 <= j < |entries|
      ensures p[j] == if o.coreName != "" then entries[j].key == o.coreName
                      else Suits(reg, entries[j], o.core, o.nodeType)
      ensures q[j] == (p[j] && running[j])
    {
    }
  }

  /** A node that does not name its core never starts one while another core could take it. */
  lemma NoSecondCoreIsStarted(reg: Registry, entries: seq<Entry>, running: seq<bool>, o: Options, i: nat, j: nat)
    requires |running| == |entries| && o.coreName == "" && IsPick(reg, entries, running, o, Some(i))
    requires !running[i] && j < |entries| && running[j]
    ensures !Eligible(reg, entries[j], o)
  {
    var p := Eligibles(reg, entries, o);
    assert IsFirst(Both(p, running), None);
    assert !Both(p, running)[j];
  }

  method IsSupported(protocol: string, protocols: seq<string>) returns (r: bool)
    ensures r == (protocol in protocols)
  {
    for i := 0 to |protocols|
      invariant protocol !in protocols[..i]
    {
      if protocol == protocols[i] {
        return true;
      }
    }
    return false;
  }

  // --- The selector -----------------------------------------------------------------------------------

  /** The configured cores, those that run, and the core of every node. */
  class Selector {
    const reg: Registry
    const entries: seq<Entry>
    var cores: seq<Option<CoreId>>
    var nodes: map<string, CoreId>
    var nextCore: CoreId

    ghost predicate Valid()
      reads this
    {
      && |cores| == |entries| && Known(reg, entries)
      && (forall i :: 0 <= i < |cores| && cores[i].Some? ==> cores[i].value < nextCore)
      && (forall i, j :: 0 <= i < j < |cores| && cores[i].Some? ==> cores[i] != cores[j])
    }

    ghost function Running(): (p: seq<bool>)
      reads this
      ensures |p| == |cores|
    {
      seq(|cores|, i requires 0 <= i < |cores| reads this => cores[i].Some?)
    }

    constructor (reg: Registry, entries: seq<Entry>)
      requires Known(reg, entries)
      ensures Valid() && this.reg == reg && this.entries == entries && nodes == map[]
      ensures forall i :: 0 <= i < |cores| ==> cores[i].None?
    {
      this.reg, this.entries := reg, entries;
      cores, nodes, nextCore := seq(|entries|, _ => None), map[], 0;
    }

    method PickLocked(o: Options) returns (r: Option<nat>)
      requires Valid()
      ensures IsPick(reg, entries, Running(), o, r)
    {
      ghost var p := Eligibles(reg, entries, o);
      ghost var q := Both(p, Running());
      if |o.coreName| > 0 {
        for i := 0 to |entries|
          invariant forall j :: 0 <= j < i ==> !p[j]
        {
          if entries[i].key == o.coreName {
            return Some(i);
          }
        }
        return None;
      }
      var first: Option<nat> := None;
      for i := 0 to |entries|
        invariant IsFirst(p[..i], first)
        invariant forall j :: 0 <= j < i ==> !q[j]
      {
        var eligible;
        if |o.core| == 0 {
          eligible := IsSupported(o.nodeType, reg[entries[i].typ]);
        } else {
          eligible := o.core == entries[i].typ;
        }
        assert eligible == p[i];
        if eligible {
          if cores[i].Some? {
            assert q[i];
            return Some(i);
          }
          if first.None? {
            first := Some(i);
          }
        }
      }
      assert p[..|entries|] == p;
      return first;
    }

    // The second result says whether the core runs now.
    method StartLocked(i: nat, works: bool) returns (ok: bool)
      requires Valid() && i < |entries|
      modifies this`cores, this`nextCore
      ensures Valid() && ok == (old(cores)[i].Some? || works)
      ensures cores == if old(cores)[i].None? && works then old(cores)[i := Some(old(nextCore))] else old(cores)
    {
      if cores[i].Some? {
        return true;
      }
      if !works {
        return false;
      }
      cores, nextCore := cores[i := Some(nextCore)], nextCore + 1;
      return true;
    }

    /** The node ends up on the core the choice names, which runs then; no other core is touched, and
        a refused node leaves the node table as it was. */
    method AddNode(tag: string, o: Options, starts: bool, accepts: bool) returns (ok: bool, e: Option<nat>)
      requires Valid()
      modifies this
      ensures Valid()
      ensures IsPick(reg, entries, old(Running()), o, e)
      ensures match e
        case None => !ok && cores == old(cores) && nodes == old(nodes)
        case Some(i) =>
          && ok == ((old(cores)[i].Some? || starts) && accepts)
          && (forall j :: 0 <= j < |cores| && j != i ==> cores[j] == old(cores)[j])
          && (old(cores)[i].Some? ==> cores[i] == old(cores)[i])
          && (cores[i].Some? <==> old(cores)[i].Some? || starts)
          && (nodes == if ok then old(nodes)[tag := cores[i].value] else old(nodes))
    {
      e := PickLocked(o);
      if e.None? {
        return false, e;
      }
      var i := e.value;
      var started := StartLocked(i, starts);
      if !started {
        return false, e;
      }
      if !accepts {
        return false, e;
      }
      nodes := nodes[tag := cores[i].value];
      return true, e;
    }

    method DelNode(tag: string, removes: bool) returns (ok: bool)
      modifies this`nodes
      ensures ok == (tag in old(nodes) && removes)
      ensures nodes == if ok then old(nodes) - {tag} else old(nodes)
    {
      if tag in nodes {
        if !removes {
          return false;
        }
        nodes := nodes - {tag};
        return true;
      }
      return false;
    }

    method Close()
      requires Valid()
      modifies this`cores
      ensures Valid() && forall i :: 0 <= i < |cores| ==> cores[i].None?
    {
      for i := 0 to |entries|
        invariant Valid()
        invariant forall j :: 0 <= j < i ==> cores[j].None?
      {
        if cores[i].Some? {
          cores := cores[i := None];
        }
      }
    }
  }
}
