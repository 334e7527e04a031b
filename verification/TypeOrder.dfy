/** The declaration order of one file's generated types (`orderTypes` in `codegen.mjs`). */
module TypeOrder {
  import opened Js
  import opened Digraph
  import opened Schema

  datatype Item = StructItem(name: string) | EnumItem(name: string)

  // ---------------------------------------------------------------- the reference graph

  ghost function Referenced(structs: map<string, Schema>): set<string> {
    set n, m | n in structs && m in RefsOf(structs[n]) :: m
  }

  /** A file's type names with the same-file types each one refers to. */
  ghost function RefGraph(structs: map<string, Schema>, enums: seq<string>): Adjacency {
    map n | n in structs.Keys + (set e | e in enums) + Referenced(structs) :: if n in structs then RefsOf(structs[n]) else []
  }

  ghost predicate Cyclic(g: Adjacency) {
    exists c :: ReachesProperly(g, c, c)
  }

  lemma RefGraphIsClosed(structs: map<string, Schema>, enums: seq<string>)
    ensures forall u, v :: Edge(RefGraph(structs, enums), u, v) ==> v in RefGraph(structs, enums)
  {
    forall u, v | Edge(RefGraph(structs, enums), u, v) ensures v in Referenced(structs) {
    }
  }

  // ---------------------------------------------------------------- what an order means

  ghost predicate Declared(structs: map<string, Schema>, enums: seq<string>, n: string) {
    n in structs || n in enums
  }

  ghost predicate Listed(ordered: seq<Item>, n: string) {
    exists i :: 0 <= i < |ordered| && ordered[i].name == n
  }

  /** n is listed before position i. */
  ghost predicate ListedBefore(ordered: seq<Item>, n: string, i: int) {
    exists j :: 0 <= j < i && j < |ordered| && ordered[j].name == n
  }

  /** Each type once, under its kind, and after every declared type that it refers to. */
  ghost predicate DependenciesFirst(structs: map<string, Schema>, enums: seq<string>, ordered: seq<Item>) {
    && (forall i, j :: 0 <= i < j < |ordered| ==> ordered[i].name != ordered[j].name)
    && (forall i :: 0 <= i < |ordered| ==>
          if ordered[i].StructItem? then ordered[i].name in structs else ordered[i].name in enums && ordered[i].name !in structs)
    && (forall i, m ::
          (0 <= i < |ordered| && ordered[i].name in structs && m in RefsOf(structs[ordered[i].name]) && Declared(structs, enums, m))
          ==> ListedBefore(ordered, m, i))
  }

  /** What a run of visits maintains: the listed types are the declared ones among the emitted names. */
  ghost predicate Progress(structs: map<string, Schema>, enums: seq<string>, ordered: seq<Item>, emitted: set<string>) {
    && DependenciesFirst(structs, enums, ordered)
    && (forall n :: Listed(ordered, n) <==> n in emitted && Declared(structs, enums, n))
    && (forall n, m :: n in emitted && n in structs && m in RefsOf(structs[n]) ==> m in emitted)
  }

  lemma AppendProgress(structs: map<string, Schema>, enums: seq<string>, ordered: seq<Item>, emitted: set<string>, n: string)
    requires Progress(structs, enums, ordered, emitted) && n !in emitted
    requires n in structs ==> forall m :: m in RefsOf(structs[n]) ==> m in emitted
    ensures n in structs ==> Progress(structs, enums, ordered + [StructItem(n)], emitted + {n})
    ensures n !in structs && n in enums ==> Progress(structs, enums, ordered + [EnumItem(n)], emitted + {n})
    ensures !Declared(structs, enums, n) ==> Progress(structs, enums, ordered, emitted + {n})
  {
    if Declared(structs, enums, n) {
      AppendListed(structs, enums, ordered, emitted, if n in structs then StructItem(n) else EnumItem(n));
    }
  }

  lemma AppendListed(structs: map<string, Schema>, enums: seq<string>, ordered: seq<Item>, emitted: set<string>, item: Item)
    requires Progress(structs, enums, ordered, emitted) && item.name !in emitted
    requires if item.StructItem? then item.name in structs else item.name in enums && item.name !in structs
    requires item.name in structs ==> forall m :: m in RefsOf(structs[item.name]) ==> m in emitted
    ensures Progress(structs, enums, ordered + [item], emitted + {item.name})
  {
    var longer := ordered + [item];
    forall m ensures Listed(longer, m) <==> Listed(ordered, m) || m == item.name {
      if Listed(ordered, m) {
        var i :| 0 <= i < |ordered| && ordered[i].name == m;
        assert longer[i].name == m;
      }
      assert longer[|ordered|] == item;
    }
    forall i, m | 0 <= i < |longer| && longer[i].name in structs && m in RefsOf(structs[longer[i].name]) && Declared(structs, enums, m)
      ensures ListedBefore(longer, m, i)
    {
      if i < |ordered| {
        assert ListedBefore(ordered, m, i);
        var j :| 0 <= j < i && ordered[j].name == m;
        assert longer[j].name == m;
      } else {
        assert Listed(ordered, m);
        var j :| 0 <= j < |ordered| && ordered[j].name == m;
        assert longer[j].name == m;
      }
    }
    forall i, j | 0 <= i < j < |longer| ensures longer[i].name != longer[j].name {
      if j == |ordered| { assert Listed(ordered, longer[i].name); }
    }
  }

  // ---------------------------------------------------------------- the traversal

  class TypeOrder {
    const structs: map<string, Schema>
    const structNames: seq<string>
    const enums: seq<string>
    var emitted: set<string>
    var inProgress: set<string>
    var ordered: seq<Item>

    ghost predicate Valid()
      reads this
    {
      && (forall n :: n in structNames <==> n in structs)
      && inProgress !! emitted && inProgress <= Graph().Keys && emitted <= Graph().Keys
      && Progress(structs, enums, ordered, emitted)
    }

    ghost function Graph(): Adjacency {
      RefGraph(structs, enums)
    }

    constructor (structNames: seq<string>, structs: map<string, Schema>, enums: seq<string>)
      requires forall n :: n in structNames <==> n in structs
      ensures Valid() && emitted == {} && inProgress == {} && ordered == []
      ensures this.structNames == structNames && this.structs == structs && this.enums == enums
    {
      this.structNames, this.structs, this.enums := structNames, structs, enums;
      emitted, inProgress, ordered := {}, {}, [];
    }

    /** Emit a name after everything it refers to; false means the compiler stops on a cyclic dependency. */
    method Visit(name: string) returns (ok: bool)
      requires Valid() && name in Graph()
      requires OnPath(Graph(), inProgress, name)
      modifies this
      ensures !ok ==> Cyclic(Graph())
      ensures ok ==> Valid() && inProgress == old(inProgress) && old(emitted) <= emitted && name in emitted
      ensures ok ==> Appended(Graph(), old(ordered), ordered, old(emitted), name)
      decreases Graph().Keys - inProgress
    {
      hide Progress, RefGraph, Appended, OnPath, ReachesProperly, Reaches;
      RefGraphIsClosed(structs, enums);
      AppendNothing(Graph(), ordered, emitted, name);
      if name in emitted {
        return true;
      }
      if name in inProgress {
        PathIsCycle(Graph(), inProgress, name);
        return false;
      }
      inProgress := inProgress + {name};
      if name in structs {
        var refs := RefsOf(structs[name]);
        RefEdges(structs, enums, name);
        for i := 0 to |refs|
          invariant Valid() && inProgress == old(inProgress) + {name} && old(emitted) <= emitted
          invariant forall j :: 0 <= j < i ==> refs[j] in emitted
          invariant Appended(Graph(), old(ordered), ordered, old(emitted), name)
        {
          PathGrows(Graph(), old(inProgress), name, refs[i]);
          ghost var ordered0, emitted0 := ordered, emitted;
          ok := Visit(refs[i]);
          if !ok {
            return false;
          }
          AppendThrough(Graph(), old(ordered), ordered0, ordered, old(emitted), emitted0, name, refs[i]);
        }
        AppendProgress(structs, enums, ordered, emitted, name);
        AppendOwn(Graph(), old(ordered), ordered, old(emitted), name, StructItem(name));
        ordered := ordered + [StructItem(name)];
      } else if name in enums {
        AppendProgress(structs, enums, ordered, emitted, name);
        AppendOwn(Graph(), old(ordered), ordered, old(emitted), name, EnumItem(name));
        ordered := ordered + [EnumItem(name)];
      } else {
        AppendProgress(structs, enums, ordered, emitted, name);
      }
      inProgress := inProgress - {name};
      emitted := emitted + {name};
      return true;
    }

    /** Every enum, then every struct, each with what it depends on. */
    method Order() returns (ok: bool)
      requires Valid() && emitted == {} && inProgress == {} && ordered == []
      modifies this
      ensures ok <==> !Cyclic(Graph())
      ensures ok ==> DependenciesFirst(structs, enums, ordered) && forall n :: Listed(ordered, n) <==> Declared(structs, enums, n)
      ensures ok && (forall e :: e in enums ==> e !in structs) ==> EnumsFirst(ordered)
    {
      hide Progress, RefGraph, Appended, OnPath, ReachesProperly, Reaches, DependenciesFirst, Listed, Cyclic, EnumsFirst;
      GraphNames(structs, enums);
      for i := 0 to |enums|
        invariant Valid() && inProgress == {}
        invariant forall j :: 0 <= j < i ==> enums[j] in emitted
        invariant (forall e :: e in enums ==> e !in structs) ==> OnlyEnums(ordered)
      {
        EmptyPath(Graph(), enums[i]);
        ghost var ordered0, emitted0 := ordered, emitted;
        assert enums[i] in enums;
        ok := Visit(enums[i]);
        if !ok {
          return false;
        }
        if enums[i] !in structs {
          LeafAppends(structs, enums, ordered0, ordered, emitted0, emitted, enums[i]);
        }
      }
      OnlyEnumsFirst(ordered);
      for i := 0 to |structNames|
        invariant Valid() && inProgress == {}
        invariant forall e :: e in enums ==> e in emitted
        invariant forall j :: 0 <= j < i ==> structNames[j] in emitted
        invariant (forall e :: e in enums ==> e !in structs) ==> EnumsFirst(ordered)
      {
        EmptyPath(Graph(), structNames[i]);
        ghost var ordered0, emitted0 := ordered, emitted;
        assert structNames[i] in structNames;
        ok := Visit(structNames[i]);
        if !ok {
          return false;
        }
        StructsAppend(structs, enums, ordered0, ordered, emitted0, emitted, structNames[i]);
      }
      assert forall n :: n in structs ==> n in structNames;
      AllListed(structs, enums, ordered, emitted);
      OrderedIsAcyclic(structs, enums, ordered, emitted);
      return true;
    }
  }

  // ---------------------------------------------------------------- the path of open visits

  /** Every name whose visit is open reaches the name about to be visited. */
  ghost predicate OnPath(g: Adjacency, inProgress: set<string>, name: string) {
    forall p :: p in inProgress ==> ReachesProperly(g, p, name)
  }

  lemma EmptyPath(g: Adjacency, name: string)
    ensures OnPath(g, {}, name)
  {
  }

  lemma PathIsCycle(g: Adjacency, inProgress: set<string>, name: string)
    requires OnPath(g, inProgress, name) && name in inProgress
    ensures Cyclic(g)
  {
    assert ReachesProperly(g, name, name);
  }

  lemma PathGrows(g: Adjacency, inProgress: set<string>, name: string, dep: string)
    requires OnPath(g, inProgress, name) && Edge(g, name, dep)
    ensures OnPath(g, inProgress + {name}, dep)
  {
    Reflexive(g, dep);
    EdgeReaches(g, name, dep);
    forall p | p in inProgress ensures ReachesProperly(g, p, dep) {
      var w :| Edge(g, p, w) && Reaches(g, w, name);
      Transitive(g, w, name, dep);
    }
  }

  lemma RefEdges(structs: map<string, Schema>, enums: seq<string>, name: string)
    requires name in structs
    ensures forall i :: 0 <= i < |RefsOf(structs[name])| ==>
      Edge(RefGraph(structs, enums), name, RefsOf(structs[name])[i]) && RefsOf(structs[name])[i] in RefGraph(structs, enums)
  {
    RefGraphIsClosed(structs, enums);
    forall i | 0 <= i < |RefsOf(structs[name])| ensures Edge(RefGraph(structs, enums), name, RefsOf(structs[name])[i]) {
    }
  }

  lemma GraphNames(structs: map<string, Schema>, enums: seq<string>)
    ensures forall n :: Declared(structs, enums, n) ==> n in RefGraph(structs, enums)
  {
  }

  // ---------------------------------------------------------------- what a visit appends

  /** A visit only appends: names new to the list, each one that the visited name reaches. */
  ghost predicate Appended(g: Adjacency, before: seq<Item>, after: seq<Item>, known: set<string>, name: string) {
    && before <= after
    && forall i :: |before| <= i < |after| ==> after[i].name !in known && Reaches(g, name, after[i].name)
  }

  lemma AppendNothing(g: Adjacency, ordered: seq<Item>, known: set<string>, name: string)
    ensures Appended(g, ordered, ordered, known, name)
  {
  }

  lemma AppendThrough(g: Adjacency, before: seq<Item>, middle: seq<Item>, after: seq<Item>, known: set<string>, known': set<string>,
      name: string, dep: string)
    requires Appended(g, before, middle, known, name) && Appended(g, middle, after, known', dep)
    requires known <= known' && Edge(g, name, dep)
    ensures Appended(g, before, after, known, name)
  {
    EdgeReaches(g, name, dep);
    forall i | |before| <= i < |after| ensures after[i].name !in known && Reaches(g, name, after[i].name) {
      if i < |middle| {
        assert after[i] == middle[i];
      } else {
        Transitive(g, name, dep, after[i].name);
      }
    }
  }

  lemma AppendOwn(g: Adjacency, before: seq<Item>, after: seq<Item>, known: set<string>, name: string, item: Item)
    requires Appended(g, before, after, known, name) && item.name == name && name !in known
    ensures Appended(g, before, after + [item], known, name)
  {
    Reflexive(g, name);
    var longer := after + [item];
    forall i | |before| <= i < |longer| ensures longer[i].name !in known && Reaches(g, name, longer[i].name) {
      if i < |after| { assert longer[i] == after[i]; }
    }
  }

  // ---------------------------------------------------------------- enums before structs

  ghost predicate OnlyEnums(ordered: seq<Item>) {
    forall i :: 0 <= i < |ordered| ==> ordered[i].EnumItem?
  }

  ghost predicate EnumsFirst(ordered: seq<Item>) {
    forall i, j :: 0 <= i < j < |ordered| && ordered[j].EnumItem? ==> ordered[i].EnumItem?
  }

  lemma OnlyEnumsFirst(ordered: seq<Item>)
    ensures OnlyEnums(ordered) ==> EnumsFirst(ordered)
  {
  }

  /** A name without references appends at most itself. */
  lemma LeafAppends(structs: map<string, Schema>, enums: seq<string>, before: seq<Item>, after: seq<Item>, known: set<string>,
      emitted: set<string>, name: string)
    requires Appended(RefGraph(structs, enums), before, after, known, name) && Progress(structs, enums, after, emitted)
    requires name !in structs
    ensures OnlyEnums(before) ==> OnlyEnums(after)
  {
    var g := RefGraph(structs, enums);
    forall i | |before| <= i < |after| ensures after[i].EnumItem? {
      assert Closed(g, {name});
      ClosedReaches(g, {name}, name, after[i].name);
    }
    assert forall i :: 0 <= i < |before| ==> after[i] == before[i];
  }

  /** Once every enum is emitted, only structs are appended. */
  lemma StructsAppend(structs: map<string, Schema>, enums: seq<string>, before: seq<Item>, after: seq<Item>, known: set<string>,
      emitted: set<string>, name: string)
    requires Appended(RefGraph(structs, enums), before, after, known, name) && Progress(structs, enums, after, emitted)
    requires forall e :: e in enums ==> e in known
    ensures EnumsFirst(before) ==> EnumsFirst(after)
  {
    assert forall i :: |before| <= i < |after| ==> after[i].StructItem?;
    assert forall i :: 0 <= i < |before| ==> after[i] == before[i];
  }

  lemma AllListed(structs: map<string, Schema>, enums: seq<string>, ordered: seq<Item>, emitted: set<string>)
    requires Progress(structs, enums, ordered, emitted) && forall n :: Declared(structs, enums, n) ==> n in emitted
    ensures DependenciesFirst(structs, enums, ordered) && forall n :: Listed(ordered, n) <==> Declared(structs, enums, n)
  {
  }

  // ---------------------------------------------------------------- an order leaves no cycle

  /** Paths only lead backwards in the list, until they leave the declared types. */
  lemma {:induction false} PathGoesBack(structs: map<string, Schema>, enums: seq<string>, ordered: seq<Item>, emitted: set<string>,
      i: nat, v: string, n: nat)
    requires Progress(structs, enums, ordered, emitted) && i < |ordered|
    requires ReachesIn(RefGraph(structs, enums), ordered[i].name, v, n)
    ensures Declared(structs, enums, v) ==> ListedBefore(ordered, v, i + 1)
    ensures Declared(structs, enums, v) && n > 0 ==> ListedBefore(ordered, v, i)
    decreases n
  {
    var g, u := RefGraph(structs, enums), ordered[i].name;
    if n > 0 {
      var w :| Edge(g, u, w) && ReachesIn(g, w, v, n - 1);
      if Declared(structs, enums, w) {
        assert ListedBefore(ordered, w, i);
        var j :| 0 <= j < i && ordered[j].name == w;
        PathGoesBack(structs, enums, ordered, emitted, j, v, n - 1);
      } else {
        assert g[w] == [];
        assert v == w;
      }
    }
  }

  lemma OrderedIsAcyclic(structs: map<string, Schema>, enums: seq<string>, ordered: seq<Item>, emitted: set<string>)
    requires Progress(structs, enums, ordered, emitted) && forall n :: Declared(structs, enums, n) ==> n in emitted
    ensures !Cyclic(RefGraph(structs, enums))
  {
    var g := RefGraph(structs, enums);
    forall c | ReachesProperly(g, c, c) ensures false {
      var w :| Edge(g, c, w) && Reaches(g, w, c);
      var n: nat :| ReachesIn(g, w, c, n);
      assert ReachesIn(g, c, c, n + 1);
      assert Listed(ordered, c);
      var i :| 0 <= i < |ordered| && ordered[i].name == c;
      PathGoesBack(structs, enums, ordered, emitted, i, c, n + 1);
    }
  }
}
