/**
 Splitting a config with several nodes into one config per node (cmd/split.go:177-228, 305-336):
 which cores a node keeps, and the names of the generated files. Field names and text are taken
 as written with ASCII letters.
 */
module Splitting {
  import opened Wrappers
  import opened Selectors
  import opened Decimal
  import opened Sorting
  import T = Texts

  // --- The cores a node keeps ------------------------------------------------------------------

  // The name is empty when the core has none.
  datatype CoreConfig = CoreConfig(name: string, typ: string)

  // An absent text field reads as the empty text.
  datatype Fields = Fields(coreName: string, core: string)

  datatype NodeConfig = NodeConfig(hasInclude: bool, options: Option<Fields>, flat: Fields)

  function KeyOf(c: CoreConfig): string { if c.name == "" then c.typ else c.name }

  function EntryOf(c: CoreConfig): Entry { Entry(KeyOf(c), T.Lower(c.typ)) }

  function EntriesOf(cores: seq<CoreConfig>): (e: seq<Entry>)
    ensures |e| == |cores|
  {
    seq(|cores|, i requires 0 <= i < |cores| => EntryOf(cores[i]))
  }

  function FieldsOf(node: NodeConfig): Fields { if node.options.Some? then node.options.value else node.flat }

  predicate Keeps(f: Fields, c: CoreConfig) {
    if f.coreName != "" then KeyOf(c) == f.coreName
    else f.core != "" && T.Lower(c.typ) == T.Lower(f.core)
  }

  ghost predicate Ascending(kept: seq<nat>, n: nat) {
    && (forall k :: 0 <= k < |kept| ==> kept[k] < n)
    && (forall k, m :: 0 <= k < m < |kept| ==> kept[k] < kept[m])
  }

  // The cores the node's own fields name, or all of them when they name none.
  ghost predicate IsKept(node: NodeConfig, cores: seq<CoreConfig>, kept: seq<nat>) {
    var all := node.hasInclude || forall i :: 0 <= i < |cores| ==> !Keeps(FieldsOf(node), cores[i]);
    && Ascending(kept, |cores|)
    && forall i: nat :: i in kept <==> i < |cores| && (all || Keeps(FieldsOf(node), cores[i]))
  }

  function AllIndexes(n: nat): (all: seq<nat>)
    ensures Ascending(all, n) && |all| == n
    ensures forall i: nat :: i in all <==> i < n
  {
    if n == 0 then [] else AllIndexes(n - 1) + [n - 1]
  }

  method SplitNodeCores(node: NodeConfig, cores: seq<CoreConfig>) returns (kept: seq<nat>)
    ensures IsKept(node, cores, kept)
  {
    var all := AllIndexes(|cores|);
    if node.hasInclude {
      return all;
    }
    var fields := node.flat;
    if node.options.Some? {
      fields := node.options.value;
    }
    var picked: seq<nat> := [];
    for i := 0 to |cores|
      invariant Ascending(picked, i)
      invariant forall k: nat :: k in picked <==> k < i && Keeps(fields, cores[k])
    {
      if fields.coreName != "" {
        var key := cores[i].name;
        if key == "" {
          key := cores[i].typ;
        }
        if key == fields.coreName {
          picked := picked + [i];
        }
      } else if fields.core != "" {
        if T.Lower(cores[i].typ) == T.Lower(fields.core) {
          picked := picked + [i];
        }
      }
    }
    if picked == [] {
      forall i | 0 <= i < |cores| ensures !Keeps(FieldsOf(node), cores[i]) {
        assert i as nat !in picked;
      }
      return all;
    }
    assert picked[0] in picked;
    return picked;
  }

  // The fields name the core: by its name, which for an unnamed core is its type, or else by its type.
  predicate NamedBy(coreName: string, core: string, c: CoreConfig) {
    if coreName != "" then c.name == coreName || (c.name == "" && c.typ == coreName)
    else core != "" && T.Lower(c.typ) == T.Lower(core)
  }

  // An options object hides the fields written beside it.
  predicate NamesCore(node: NodeConfig, c: CoreConfig) {
    match node.options
    case Some(f) => NamedBy(f.coreName, f.core, c)
    case None => NamedBy(node.flat.coreName, node.flat.core, c)
  }

  /** The split keeps, in their order, the cores the node names in its options, or beside them when it
      has no options; all of them when it names none that is there or has an include file. */
  lemma KeptAreTheNamed(node: NodeConfig, cores: seq<CoreConfig>, kept: seq<nat>)
    ensures IsKept(node, cores, kept) <==>
      && (forall k :: 0 <= k < |kept| ==> kept[k] < |cores|)
      && (forall k, m :: 0 <= k < m < |kept| ==> kept[k] < kept[m])
      && (node.hasInclude || (forall i :: 0 <= i < |cores| ==> !NamesCore(node, cores[i])) ==>
            forall i: nat :: i < |cores| ==> i in kept)
      && (!node.hasInclude && (exists i :: 0 <= i < |cores| && NamesCore(node, cores[i])) ==>
            forall i: nat :: i < |cores| ==> (i in kept <==> NamesCore(node, cores[i])))
  {
    forall c ensures Keeps(FieldsOf(node), c) <==> NamesCore(node, c) {
    }
    assert Ascending(kept, |cores|) ==> forall i: nat :: i in kept ==> i < |cores|;
  }

  /** What the instance goes by: a core under its name, its type if it has none, with the type in lower
      case; a node under the names in its options, or beside them when it has no options, with a core
      that is not one of the three types left out. */
  lemma InstanceReads(node: NodeConfig, c: CoreConfig, nodeType: string)
    ensures EntryOf(c).key == (if c.name != "" then c.name else c.typ) && EntryOf(c).typ == T.Lower(c.typ)
    ensures var o := OptionsOf(FieldsOf(node), nodeType);
            var core := if node.options.Some? then node.options.value.core else node.flat.core;
      && o.nodeType == nodeType
      && o.coreName == (if node.options.Some? then node.options.value.coreName else node.flat.coreName)
      && o.core == if core == "xray" || core == "sing" || core == "hysteria2" then core else ""
  {
  }

  // --- What the selector then chooses ------------------------------------------------------------

  const CANONICAL := {"xray", "sing", "hysteria2"}

  // The node's settings as the instance reads them: a core that is not spelled as one of the three
  // types counts as not given.
  function OptionsOf(f: Fields, nodeType: string): Options {
    Options(f.coreName, if f.core in CANONICAL then f.core else "", nodeType)
  }

  function Selected<T>(s: seq<T>, kept: seq<nat>): (r: seq<T>)
    requires Ascending(kept, |s|)
    ensures |r| == |kept|
  {
    seq(|kept|, k requires 0 <= k < |kept| => s[kept[k]])
  }

  // The choice among the kept entries stands for the same entry of the full list.
  predicate SameChoice(kept: seq<nat>, full: Option<nat>, split: Option<nat>) {
    match split
    case None => full.None?
    case Some(k) => k < |kept| && full == Some(kept[k])
  }

  lemma FirstAmongKept(p: seq<bool>, kept: seq<nat>, full: Option<nat>, split: Option<nat>)
    requires Ascending(kept, |p|) && IsFirst(p, full) && IsFirst(Selected(p, kept), split)
    requires forall i :: 0 <= i < |p| && p[i] ==> i in kept
    ensures SameChoice(kept, full, split)
  {
    var q := Selected(p, kept);
    if full.Some? {
      var k :| 0 <= k < |kept| && kept[k] == full.value;
      assert q[k];
      forall m | 0 <= m < k ensures !q[m] {
        assert kept[m] < kept[k];
      }
      FirstUnique(q, split, Some(k));
    } else {
      assert forall k :: 0 <= k < |q| ==> !q[k];
    }
  }

  // The choice from the split config is the choice from the full one.
  ghost predicate SameFor(reg: Registry, entries: seq<Entry>, running: seq<bool>, o: Options, kept: seq<nat>)
    requires |running| == |entries| && Ascending(kept, |entries|)
  {
    SameChoice(kept, Pick(reg, entries, running, o), Pick(reg, Selected(entries, kept), Selected(running, kept), o))
  }

  lemma SplitKeepsTheChoice(reg: Registry, entries: seq<Entry>, running: seq<bool>, o: Options, kept: seq<nat>)
    requires |running| == |entries| && Ascending(kept, |entries|)
    requires forall i :: 0 <= i < |entries| && Eligible(reg, entries[i], o) ==> i in kept
    ensures SameFor(reg, entries, running, o, kept)
  {
    var full := Pick(reg, entries, running, o);
    var split := Pick(reg, Selected(entries, kept), Selected(running, kept), o);
    var p := Eligibles(reg, entries, o);
    var sub := Selected(entries, kept);
    assert Eligibles(reg, sub, o) == Selected(p, kept);
    assert Both(Eligibles(reg, sub, o), Selected(running, kept)) == Selected(Both(p, running), kept);
    var q := Both(p, running);
    if o.coreName != "" {
      FirstAmongKept(p, kept, full, split);
    } else if IsFirst(q, None) {
      assert IsFirst(Selected(q, kept), None);
      FirstAmongKept(p, kept, full, split);
    } else {
      var i :| 0 <= i < |q| && q[i];
      assert p[i];
      var k :| 0 <= k < |kept| && kept[k] == i;
      assert Selected(q, kept)[k];
      FirstAmongKept(q, kept, full, split);
    }
  }

  function OnlyAt(n: nat, i: nat): (r: seq<bool>)
    ensures |r| == n
  {
    seq(n, j => j == i)
  }

  // A core that is not kept would be chosen from the full config while it is the only one running.
  lemma DroppedCoreIsMissed(reg: Registry, entries: seq<Entry>, o: Options, kept: seq<nat>, i: nat)
    requires Ascending(kept, |entries|) && o.coreName == ""
    requires i < |entries| && Eligible(reg, entries[i], o) && i !in kept
    ensures !SameFor(reg, entries, OnlyAt(|entries|, i), o, kept)
  {
    var p := Eligibles(reg, entries, o);
    var q := Both(p, OnlyAt(|entries|, i));
    assert q[i];
    assert forall j :: 0 <= j < |q| && j != i ==> !q[j];
    assert IsFirst(q, Some(i)) && !IsFirst(q, None);
    PickUnique(reg, entries, OnlyAt(|entries|, i), o, Some(i));
  }

  /** For a node that does not name its core, the split config gives the same choice for every set of
      running cores if and only if every core the node may be put on is kept. */
  lemma ChoiceKeptIff(reg: Registry, entries: seq<Entry>, o: Options, kept: seq<nat>)
    requires Ascending(kept, |entries|) && o.coreName == ""
    ensures (forall running: seq<bool> :: |running| == |entries| ==> SameFor(reg, entries, running, o, kept)) <==>
            (forall i :: 0 <= i < |entries| && Eligible(reg, entries[i], o) ==> i in kept)
  {
    forall i | 0 <= i < |entries| && Eligible(reg, entries[i], o) && i !in kept
      ensures !SameFor(reg, entries, OnlyAt(|entries|, i), o, kept)
    {
      DroppedCoreIsMissed(reg, entries, o, kept, i);
    }
    if forall i :: 0 <= i < |entries| && Eligible(reg, entries[i], o) ==> i in kept {
      forall running: seq<bool> | |running| == |entries| ensures SameFor(reg, entries, running, o, kept) {
        SplitKeepsTheChoice(reg, entries, running, o, kept);
      }
    }
  }

  // The spelling the instance understands: no core, or one of the three types in lower case.
  predicate Canonical(f: Fields) { f.coreName != "" || f.core == "" || f.core in CANONICAL }

  lemma LowerOfCanonical(core: string)
    requires core in CANONICAL
    ensures T.Lower(core) == core
  {
  }

  /** For every list of cores and every node that names its core canonically, the split keeps all
      cores the selector might choose. */
  lemma EligibleCoresAreKept(
      reg: Registry, node: NodeConfig, cores: seq<CoreConfig>, kept: seq<nat>, nodeType: string, i: nat)
    requires IsKept(node, cores, kept) && i < |cores| && Canonical(FieldsOf(node))
    requires Eligible(reg, EntryOf(cores[i]), OptionsOf(FieldsOf(node), nodeType))
    ensures i in kept
  {
    var f := FieldsOf(node);
    if f.coreName != "" {
      assert node.hasInclude || Keeps(f, cores[i]);
    } else if f.core in CANONICAL {
      LowerOfCanonical(f.core);
      assert node.hasInclude || Keeps(f, cores[i]);
    } else {
      assert forall j :: 0 <= j < |cores| ==> !Keeps(f, cores[j]);
    }
  }

  /** Splitting preserves core selection: for every core list, every canonically written node and
      every set of running cores, the same core, or none, is chosen from the cores kept. */
  lemma SplitPreservesSelection(
      reg: Registry, node: NodeConfig, cores: seq<CoreConfig>, kept: seq<nat>, nodeType: string, running: seq<bool>)
    requires IsKept(node, cores, kept) && |running| == |cores| && Canonical(FieldsOf(node))
    ensures SameFor(reg, EntriesOf(cores), running, OptionsOf(FieldsOf(node), nodeType), kept)
  {
    var o := OptionsOf(FieldsOf(node), nodeType);
    forall i | 0 <= i < |cores| && Eligible(reg, EntriesOf(cores)[i], o) ensures i in kept {
      EligibleCoresAreKept(reg, node, cores, kept, nodeType, i);
    }
    SplitKeepsTheChoice(reg, EntriesOf(cores), running, o, kept);
  }

  /** A node with an include file keeps its choice whatever options the file turns out to hold. */
  lemma IncludePreservesSelection(
      reg: Registry, node: NodeConfig, cores: seq<CoreConfig>, kept: seq<nat>, o: Options, running: seq<bool>)
    requires IsKept(node, cores, kept) && |running| == |cores| && node.hasInclude
    ensures SameFor(reg, EntriesOf(cores), running, o, kept)
  {
    SplitKeepsTheChoice(reg, EntriesOf(cores), running, o, kept);
  }

  // Whether the type of the core supports the node.
  predicate Supports(reg: Registry, c: CoreConfig, nodeType: string) {
    T.Lower(c.typ) in reg && nodeType in reg[T.Lower(c.typ)]
  }

  predicate SpellsType(c: CoreConfig, core: string) { T.Lower(c.typ) == T.Lower(core) }

  // Nothing is dropped that the instance, which reads the core as not given, might choose.
  ghost predicate NothingMissed(reg: Registry, cores: seq<CoreConfig>, core: string, nodeType: string) {
    || (forall i :: 0 <= i < |cores| ==> !SpellsType(cores[i], core))
    || (forall i :: 0 <= i < |cores| && Supports(reg, cores[i], nodeType) ==> SpellsType(cores[i], core))
  }

  lemma KeptOfMisspelt(
      reg: Registry, node: NodeConfig, cores: seq<CoreConfig>, kept: seq<nat>, nodeType: string)
    requires IsKept(node, cores, kept) && !node.hasInclude && !Canonical(FieldsOf(node))
    ensures var o := OptionsOf(FieldsOf(node), nodeType);
      (forall i :: 0 <= i < |cores| && Eligible(reg, EntriesOf(cores)[i], o) ==> i in kept) <==>
      NothingMissed(reg, cores, FieldsOf(node).core, nodeType)
  {
    var f := FieldsOf(node);
    var o := OptionsOf(f, nodeType);
    forall i | 0 <= i < |cores|
      ensures Eligible(reg, EntriesOf(cores)[i], o) == Supports(reg, cores[i], nodeType)
      ensures Keeps(f, cores[i]) == SpellsType(cores[i], f.core)
    {
    }
    if forall i :: 0 <= i < |cores| ==> !SpellsType(cores[i], f.core) {
      assert forall i :: 0 <= i < |cores| ==> !Keeps(f, cores[i]);
    } else {
      var k :| 0 <= k < |cores| && SpellsType(cores[k], f.core);
      assert Keeps(f, cores[k]);
      forall i | 0 <= i < |cores| ensures i in kept <==> SpellsType(cores[i], f.core) {
      }
    }
  }

  /** Exactly which nodes keep their choice for every set of running cores: those with a core name, a
      canonically written core or none, and those whose misspelt core either is no core's type or is
      the type of all the cores that support the node. */
  lemma SelectionPreservedIff(
      reg: Registry, node: NodeConfig, cores: seq<CoreConfig>, kept: seq<nat>, nodeType: string)
    requires IsKept(node, cores, kept) && !node.hasInclude
    ensures var f := FieldsOf(node); var o := OptionsOf(f, nodeType);
      (forall running: seq<bool> :: |running| == |cores| ==> SameFor(reg, EntriesOf(cores), running, o, kept)) <==>
      Canonical(f) || NothingMissed(reg, cores, f.core, nodeType)
  {
    var f := FieldsOf(node);
    var o := OptionsOf(f, nodeType);
    if Canonical(f) {
      forall running: seq<bool> | |running| == |cores| ensures SameFor(reg, EntriesOf(cores), running, o, kept) {
        SplitPreservesSelection(reg, node, cores, kept, nodeType, running);
      }
    } else {
      ChoiceKeptIff(reg, EntriesOf(cores), o, kept);
      KeptOfMisspelt(reg, node, cores, kept, nodeType);
    }
  }

  const XRAY_AND_SING: seq<CoreConfig> := [CoreConfig("", "sing"), CoreConfig("", "xray")]

  const CAPITALISED := NodeConfig(false, None, Fields("", "Xray"))

  lemma OnlyXrayIsKept()
    ensures IsKept(CAPITALISED, XRAY_AND_SING, [1])
    ensures T.Lower("sing") == "sing"
  {
    assert T.Lower("Xray") == "xray" == T.Lower("xray");
    assert T.Lower("sing") == "sing" && "sing"[0] == 's';
    assert !Keeps(Fields("", "Xray"), XRAY_AND_SING[0]) && Keeps(Fields("", "Xray"), XRAY_AND_SING[1]);
  }

  /** Written "Xray", the core is ignored by the instance but not by the split, and the choice
      changes: the full config takes the first core that supports the node, which is not kept. */
  lemma CapitalisedCoreChangesTheChoice(reg: Registry)
    requires reg == map["sing" := ["vless"], "xray" := ["vless"]]
    ensures IsKept(CAPITALISED, XRAY_AND_SING, [1])
    ensures var o := OptionsOf(FieldsOf(CAPITALISED), "vless");
      !SameFor(reg, EntriesOf(XRAY_AND_SING), OnlyAt(2, 0), o, [1])
  {
    OnlyXrayIsKept();
    assert EntriesOf(XRAY_AND_SING)[0] == Entry("sing", "sing");
    DroppedCoreIsMissed(reg, EntriesOf(XRAY_AND_SING), Options("", "", "vless"), [1], 0);
  }

  // --- The names of the generated files -------------------------------------------------------------

  predicate Plain(c: char) {
    'a' <= c <= 'z' || 'A' <= c <= 'Z' || '0' <= c <= '9' || c == '.' || c == '_' || c == '-'
  }

  predicate Trimmable(c: char) { c == '.' || c == '_' || c == '-' }

  function Replaced(name: string): (r: string)
    ensures |r| == |name| && forall i :: 0 <= i < |r| ==> Plain(r[i])
  {
    seq(|name|, i requires 0 <= i < |name| => if Plain(name[i]) then name[i] else '_')
  }

  function TrimLeft(s: string): string { if s != [] && Trimmable(s[0]) then TrimLeft(s[1..]) else s }

  function TrimRight(s: string): string {
    if s != [] && Trimmable(s[|s| - 1]) then TrimRight(s[..|s| - 1]) else s
  }

  function SanitizeSplitName(name: string): string {
    var out := TrimRight(TrimLeft(Replaced(name)));
    if out == "" then "node" else out
  }

  // What a file and a systemd instance can be named.
  ghost predicate Clean(s: string) {
    && s != "" && (forall i :: 0 <= i < |s| ==> Plain(s[i]))
    && !Trimmable(s[0]) && !Trimmable(s[|s| - 1])
  }

  lemma {:induction false} TrimLeftTrims(s: string)
    ensures var r := TrimLeft(s); |r| <= |s| && r == s[|s| - |r|..] && (r != "" ==> !Trimmable(r[0]))
  {
    if s != [] && Trimmable(s[0]) {
      TrimLeftTrims(s[1..]);
    }
  }

  lemma {:induction false} TrimRightTrims(s: string)
    ensures var r := TrimRight(s); |r| <= |s| && r == s[..|r|] && (r != "" ==> !Trimmable(r[|r| - 1]))
  {
    if s != [] && Trimmable(s[|s| - 1]) {
      TrimRightTrims(s[..|s| - 1]);
    }
  }

  lemma ReplacedKeepsPlain(s: string)
    requires forall i :: 0 <= i < |s| ==> Plain(s[i])
    ensures Replaced(s) == s
  {
  }

  /** A sanitised name is always clean, and exactly the clean names are left alone. */
  lemma SanitizedIsClean(name: string)
    ensures Clean(SanitizeSplitName(name))
    ensures SanitizeSplitName(name) == name <==> Clean(name)
    ensures SanitizeSplitName(SanitizeSplitName(name)) == SanitizeSplitName(name)
  {
    CleanOutput(name);
    CleanIsKept(SanitizeSplitName(name));
    if Clean(name) {
      CleanIsKept(name);
    }
  }

  lemma CleanOutput(name: string)
    ensures Clean(SanitizeSplitName(name))
  {
    var r := Replaced(name);
    TrimLeftTrims(r);
    TrimRightTrims(TrimLeft(r));
    assert Plain('n') && Plain('o') && Plain('d') && Plain('e');
  }

  lemma CleanIsKept(s: string)
    requires Clean(s)
    ensures SanitizeSplitName(s) == s
  {
    ReplacedKeepsPlain(s);
  }

  // What is trimmed off the ends: everything but letters and digits.
  predicate Dropped(c: char) { !('a' <= c <= 'z' || 'A' <= c <= 'Z' || '0' <= c <= '9') }

  // The name without its first `lo` and behind its first `hi` characters, written with plain ones.
  ghost predicate CutOut(name: string, lo: nat, hi: nat, out: string) {
    && lo <= hi <= |name| && |out| == hi - lo
    && (forall i :: 0 <= i < lo || hi <= i < |name| ==> Dropped(name[i]))
    && (lo < hi ==> !Dropped(name[lo]) && !Dropped(name[hi - 1]))
    && forall i :: 0 <= i < |out| ==>
         out[i] == if Dropped(name[lo + i]) && name[lo + i] !in {'.', '_', '-'} then '_' else name[lo + i]
  }

  /** The sanitised name is the name from its first to its last letter or digit, with an underscore for
      every character that is not plain; "node" if there is neither letter nor digit. */
  lemma SanitizedIs(name: string)
    ensures exists lo, hi, out ::
              CutOut(name, lo, hi, out) && SanitizeSplitName(name) == if out == "" then "node" else out
  {
    var r := Replaced(name);
    var lo := TrimLeftDrops(r);
    var len := TrimRightDrops(TrimLeft(r));
    CutOutOfReplaced(name, r, lo, len, TrimRight(TrimLeft(r)));
    assert CutOut(name, lo, lo + len, TrimRight(TrimLeft(r)));
  }

  lemma CutOutOfReplaced(name: string, r: string, lo: nat, len: nat, out: string)
    requires r == Replaced(name) && lo + len <= |r| && out == r[lo..][..len]
    requires forall i :: 0 <= i < lo ==> Trimmable(r[i])
    requires forall i :: len <= i < |r[lo..]| ==> Trimmable(r[lo..][i])
    requires lo < |r| ==> !Trimmable(r[lo])
    requires 0 < len ==> !Trimmable(r[lo..][len - 1])
    ensures CutOut(name, lo, lo + len, out)
  {
    forall i | 0 <= i < |name| ensures Trimmable(r[i]) <==> Dropped(name[i]) {
    }
    forall i | lo + len <= i < |name| ensures Trimmable(r[i]) {
      assert r[i] == r[lo..][i - lo];
    }
  }

  lemma {:induction false} TrimLeftDrops(s: string) returns (lo: nat)
    ensures lo <= |s| && TrimLeft(s) == s[lo..] && forall i :: 0 <= i < lo ==> Trimmable(s[i])
    ensures lo < |s| ==> !Trimmable(s[lo])
  {
    lo := 0;
    if s != [] && Trimmable(s[0]) {
      var rest := TrimLeftDrops(s[1..]);
      lo := rest + 1;
    }
  }

  lemma {:induction false} TrimRightDrops(s: string) returns (hi: nat)
    ensures hi <= |s| && TrimRight(s) == s[..hi] && forall i :: hi <= i < |s| ==> Trimmable(s[i])
    ensures 0 < hi ==> !Trimmable(s[hi - 1])
  {
    hi := |s|;
    if s != [] && Trimmable(s[|s| - 1]) {
      hi := TrimRightDrops(s[..|s| - 1]);
    }
  }

  // How often the name at position i came up to there.
  function Occurrence(names: seq<string>, i: nat): (k: nat)
    requires i < |names|
    ensures k >= 1
  {
    assert names[i] in names[..i + 1] by { assert names[..i + 1][i] == names[i]; }
    multiset(names[..i + 1])[names[i]]
  }

  function Numbered(name: string, k: int): string { name + "-" + Dec(k) }

  function UniqueName(name: string, k: int): string { if k > 1 then Numbered(name, k) else name }

  class UsedNames {
    var used: map<string, int>

    constructor ()
      ensures used == map[]
    {
      used := map[];
    }

    method UniqueSplitName(name: string) returns (r: string)
      modifies this
      ensures used == old(used)[name := (if name in old(used) then old(used)[name] else 0) + 1]
      ensures r == UniqueName(name, used[name])
    {
      used := used[name := (if name in used then used[name] else 0) + 1];
      var n := used[name];
      if n > 1 {
        return Numbered(name, n);
      }
      return name;
    }
  }

  ghost predicate Counts(used: map<string, int>, names: seq<string>) {
    forall n :: (if n in used then used[n] else 0) == multiset(names)[n]
  }

  lemma CountOneMore(used: map<string, int>, names: seq<string>, i: nat)
    requires i < |names| && Counts(used, names[..i])
    ensures var used' := used[names[i] := (if names[i] in used then used[names[i]] else 0) + 1];
      Counts(used', names[..i + 1]) && used'[names[i]] == Occurrence(names, i)
  {
    assert names[..i + 1] == names[..i] + [names[i]];
  }

  // The names generated for the first n nodes.
  function Generated(names: seq<string>, n: nat): (out: seq<string>)
    requires n <= |names|
    ensures |out| == n
  {
    if n == 0 then [] else Generated(names, n - 1) + [UniqueName(names[n - 1], Occurrence(names, n - 1))]
  }

  method UniqueSplitNames(names: seq<string>) returns (out: seq<string>)
    ensures out == Generated(names, |names|)
  {
    var used := new UsedNames();
    out := [];
    for i := 0 to |names|
      invariant fresh(used) && Counts(used.used, names[..i])
      invariant out == Generated(names, i)
    {
      CountOneMore(used.used, names, i);
      var r := used.UniqueSplitName(names[i]);
      out := out + [r];
    }
  }

  lemma {:induction false} GeneratedAt(names: seq<string>, n: nat, i: nat)
    requires i < n <= |names|
    ensures Generated(names, n)[i] == UniqueName(names[i], Occurrence(names, i))
  {
    if i < n - 1 {
      GeneratedAt(names, n - 1, i);
    }
  }

  // A configured name reads like the numbered form of another one that is used often enough.
  ghost predicate Clashes(names: seq<string>) {
    exists i, j :: 0 <= i < |names| && 0 <= j < |names| && Occurrence(names, j) > 1 &&
                   names[i] == Numbered(names[j], Occurrence(names, j))
  }

  lemma NumberedInjective(a: string, k: int, b: string, m: int)
    requires k >= 0 && m >= 0 && Numbered(a, k) == Numbered(b, m)
    ensures a == b && k == m
  {
    DigitsOnly(k);
    DigitsOnly(m);
    assert "-" == ['-'];
    SplitAtLast('-', a, Dec(k), b, Dec(m));
    DecInjective(k, m);
  }

  lemma UniqueNamesMeet(a: string, k: nat, b: string, m: nat)
    ensures UniqueName(a, k) == UniqueName(b, m) ==>
              (a == b && (k == m || (k <= 1 && m <= 1))) || (m > 1 && a == Numbered(b, m)) || (k > 1 && b == Numbered(a, k))
  {
    if k > 1 && m > 1 && UniqueName(a, k) == UniqueName(b, m) {
      NumberedInjective(a, k, b, m);
    }
  }

  lemma OccurrenceGrows(names: seq<string>, i: nat, j: nat)
    requires i < j < |names| && names[i] == names[j]
    ensures Occurrence(names, i) < Occurrence(names, j)
  {
    assert names[..j] == names[..i + 1] + names[i + 1..j];
    assert names[..j + 1] == names[..j] + [names[j]];
  }

  lemma {:induction false} FirstOccurrence(names: seq<string>, i: nat) returns (f: nat)
    requires i < |names|
    ensures f <= i && names[f] == names[i] && Occurrence(names, f) == 1
  {
    if names[i] in names[..i] {
      var k :| 0 <= k < i && names[k] == names[i];
      f := FirstOccurrence(names, k);
    } else {
      assert names[..i + 1] == names[..i] + [names[i]];
      f := i;
    }
  }

  lemma ClashRepeatsAName(names: seq<string>, i: nat, j: nat) returns (f: nat)
    requires i < |names| && j < |names| && Occurrence(names, j) > 1
    requires names[i] == Numbered(names[j], Occurrence(names, j))
    ensures f < |names| && f != j
    ensures UniqueName(names[f], Occurrence(names, f)) == UniqueName(names[j], Occurrence(names, j))
  {
    f := FirstOccurrence(names, i);
  }

  lemma NamesApart(names: seq<string>, i: nat, j: nat)
    requires i < j < |names| && !Clashes(names)
    ensures UniqueName(names[i], Occurrence(names, i)) != UniqueName(names[j], Occurrence(names, j))
  {
    UniqueNamesMeet(names[i], Occurrence(names, i), names[j], Occurrence(names, j));
    if names[i] == names[j] {
      OccurrenceGrows(names, i, j);
    }
  }

  /** The generated names are pairwise different exactly when no configured name is another one with
      "-k" appended where that one occurs at least k times: "a", "a", "a-2" are not kept apart. */
  lemma GeneratedNamesAreUniqueIff(names: seq<string>)
    ensures Distinct(Generated(names, |names|)) <==> !Clashes(names)
  {
    var out := Generated(names, |names|);
    if Clashes(names) {
      var i, j :| 0 <= i < |names| && 0 <= j < |names| && Occurrence(names, j) > 1 &&
                  names[i] == Numbered(names[j], Occurrence(names, j));
      var f := ClashRepeatsAName(names, i, j);
      GeneratedAt(names, |names|, f);
      GeneratedAt(names, |names|, j);
    } else {
      forall i, j | 0 <= i < j < |out| ensures out[i] != out[j] {
        GeneratedAt(names, |names|, i);
        GeneratedAt(names, |names|, j);
        NamesApart(names, i, j);
      }
    }
  }

  lemma Occurrences()
    ensures var names := ["a", "a", "a-2"]; Occurrence(names, 1) == 2 && Occurrence(names, 2) == 1
  {
    var names := ["a", "a", "a-2"];
    assert names[..2] == ["a", "a"] && names[..3] == names;
    assert |"a"| != |"a-2"|;
  }

  /** Of the nodes "a", "a" and "a-2" the last two get the same name. */
  lemma TwoSameNamesAndANumberedOne()
    ensures var out := Generated(["a", "a", "a-2"], 3); out[1] == out[2] == "a-2" && !Distinct(out)
  {
    var names := ["a", "a", "a-2"];
    Occurrences();
    assert Dec(2) == "2" && Numbered("a", 2) == "a-2";
    GeneratedAt(names, 3, 1);
    GeneratedAt(names, 3, 2);
  }
}
