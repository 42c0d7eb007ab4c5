/** `validateDag`: the active/done depth-first search over declared dependencies. */
module Dag {
  import opened Texts
  import opened ReleaseModel

  // ---- What a valid plan graph is ----

  ghost predicate UniqueIds(operations: seq<Operation>) {
    forall i, j :: 0 <= i < j < |operations| ==> operations[i].operationId != operations[j].operationId
  }

  predicate StrictlySorted(ids: seq<Text>) {
    forall i, j :: 0 <= i < j < |ids| ==> Before(ids[i], ids[j])
  }

  ghost predicate Present(operations: seq<Operation>, id: Text) {
    exists i :: 0 <= i < |operations| && operations[i].operationId == id
  }

  /** Every dependency has a strictly smaller rank than its dependent. */
  ghost predicate Ranks(operations: seq<Operation>, rank: map<Text, nat>) {
    forall i, d :: 0 <= i < |operations| && d in operations[i].dependsOn ==>
      operations[i].operationId in rank && d in rank && rank[d] < rank[operations[i].operationId]
  }

  ghost predicate ValidDag(operations: seq<Operation>) {
    && UniqueIds(operations)
    && (forall i :: 0 <= i < |operations| ==> StrictlySorted(operations[i].dependsOn))
    && (forall i, d :: 0 <= i < |operations| && d in operations[i].dependsOn ==> Present(operations, d))
    && (exists rank :: Ranks(operations, rank))
  }

  /** A list without duplicates is strictly sorted exactly when it equals its sorted copy. */
  lemma SortedWithoutDuplicates(ids: seq<Text>)
    ensures StrictlySorted(ids) <==> (forall i, j :: 0 <= i < j < |ids| ==> ids[i] != ids[j]) && Sort(ids) == ids
  {
    if StrictlySorted(ids) {
      forall i, j | 0 <= i < j < |ids| ensures ids[i] != ids[j] && !Before(ids[j], ids[i]) {
        BeforeIrreflexive(ids[i]);
        if Before(ids[j], ids[i]) {
          BeforeTransitive(ids[i], ids[j], ids[i]);
        }
      }
      SortOrdered(ids);
      OrderedUnique(Sort(ids), ids);
    } else if (forall i, j :: 0 <= i < j < |ids| ==> ids[i] != ids[j]) && Sort(ids) == ids {
      SortOrdered(ids);
      forall i, j | 0 <= i < j < |ids| ensures Before(ids[i], ids[j]) {
        BeforeTotal(ids[i], ids[j]);
      }
    }
  }

  method HasDuplicates(ids: seq<Text>) returns (duplicated: bool)
    ensures duplicated <==> exists i, j :: 0 <= i < j < |ids| && ids[i] == ids[j]
  {
    var seen: set<Text> := {};
    for k := 0 to |ids|
      invariant forall t :: t in seen <==> t in ids[..k]
      invariant forall i, j :: 0 <= i < j < k ==> ids[i] != ids[j]
    {
      if ids[k] in seen {
        return true;
      }
      seen := seen + {ids[k]};
    }
    duplicated := false;
  }

  // ---- The search ----

  class DagVisitor {
    const index: map<Text, Operation>
    var active: set<Text>
    var done: set<Text>
    ghost var order: seq<Text>  // done, in the order the visits finished
    ghost var stack: seq<Text>  // active, outermost visit first

    constructor (index: map<Text, Operation>)
      ensures this.index == index && active == {} && stack == [] && done == {} && Valid()
    {
      this.index := index;
      active, done, order, stack := {}, {}, [], [];
    }

    ghost predicate Valid()
      reads this
    {
      && Mirrors(active, stack)
      && Mirrors(done, order)
      && active !! done && active <= index.Keys && done <= index.Keys
      && Distinct(stack) && Chain(index, stack)
      && Topological(index, order)
    }

    /** Visit one id. Afterwards it and all it depends on are done, or the graph is refused. */
    method Visit(id: Text) returns (r: Result<()>)
      requires Valid()
      requires stack != [] ==> id in index[stack[|stack| - 1]].dependsOn
      modifies this
      decreases index.Keys - active, 0
      ensures r.Ok? ==> Valid() && stack == old(stack) && active == old(active)
      ensures r.Ok? ==> id in done && old(done) <= done
      ensures r.Fail? ==> r.refusal in {CyclicPlan, MissingDependency}
      ensures r == Fail(CyclicPlan) ==> Cyclic(index)
      ensures r == Fail(MissingDependency) ==> Dangling(index, id)
    {
      hide Topological, Chain, Mirrors, Cyclic;
      if id in active {
        MirrorsIn(active, stack, id);
        ChainCloses(index, stack, id);
        return Fail(CyclicPlan);
      }
      if id in done {
        return Ok(());
      }
      if id !in index {
        return Fail(MissingDependency);
      }
      Enter(id);
      r := VisitAll(id);
      if r.Ok? {
        Leave(id);
      }
    }

    method Enter(id: Text)
      requires Valid() && id in index && id !in active && id !in done
      requires stack != [] ==> id in index[stack[|stack| - 1]].dependsOn
      modifies this`active, this`stack
      ensures Valid() && stack == old(stack) + [id]
      ensures active == old(active) + {id} && index.Keys - active < old(index.Keys - active)
    {
      hide Topological;
      assert id in index.Keys - active;
      active := active + {id};
      stack := stack + [id];
    }

    method Leave(id: Text)
      requires Valid() && stack != [] && stack[|stack| - 1] == id && id in index
      requires forall d :: d in index[id].dependsOn ==> d in done
      modifies this
      ensures Valid() && stack == old(stack)[..|old(stack)| - 1]
      ensures active == old(active) - {id} && done == old(done) + {id}
    {
      hide Topological;
      TopologicalSnoc(index, order, id);
      active := active - {id};
      done := done + {id};
      order := order + [id];
      stack := stack[..|stack| - 1];
    }

    /** Visit everything the innermost active operation depends on. */
    method VisitAll(id: Text) returns (r: Result<()>)
      requires Valid() && stack != [] && stack[|stack| - 1] == id && id in index
      modifies this
      decreases index.Keys - active, 1
      ensures r.Ok? ==> Valid() && stack == old(stack) && active == old(active)
      ensures r.Ok? ==> old(done) <= done && forall d :: d in index[id].dependsOn ==> d in done
      ensures r.Fail? ==> r.refusal in {CyclicPlan, MissingDependency}
      ensures r == Fail(CyclicPlan) ==> Cyclic(index)
      ensures r == Fail(MissingDependency) ==> Dangling(index, id)
    {
      hide Topological, Chain;
      var dependsOn := index[id].dependsOn;
      for k := 0 to |dependsOn|
        invariant Valid() && stack == old(stack) && active == old(active)
        invariant old(done) <= done
        invariant forall i :: 0 <= i < k ==> dependsOn[i] in done
      {
        r := Visit(dependsOn[k]);
        if r.Fail? {
          return r;
        }
      }
      r := Ok(());
    }
  }

  /** The set holds exactly the ids in the list. */
  ghost predicate Mirrors(ids: set<Text>, list: seq<Text>) {
    forall t :: t in ids <==> t in list
  }

  lemma MirrorsIn(ids: set<Text>, list: seq<Text>, id: Text)
    requires Mirrors(ids, list)
    ensures id in ids <==> id in list
  {
  }

  ghost predicate Distinct(list: seq<Text>) {
    forall i, j :: 0 <= i < j < |list| ==> list[i] != list[j]
  }

  /** Consecutive members of the stack are dependent and dependency. */
  ghost predicate Chain(index: map<Text, Operation>, stack: seq<Text>) {
    && (forall i :: 0 <= i < |stack| ==> stack[i] in index)
    && (forall i :: 0 < i < |stack| ==> stack[i] in index[stack[i - 1]].dependsOn)
  }

  /** Each finished id comes after everything it depends on. */
  ghost predicate Topological(index: map<Text, Operation>, order: seq<Text>) {
    && Distinct(order)
    && (forall i, d :: 0 <= i < |order| && order[i] in index && d in index[order[i]].dependsOn ==> d in order[..i])
  }

  lemma TopologicalSnoc(index: map<Text, Operation>, order: seq<Text>, id: Text)
    requires Topological(index, order) && id in index && id !in order
    requires forall d :: d in index[id].dependsOn ==> d in order
    ensures Topological(index, order + [id])
  {
    var longer := order + [id];
    forall i, d | 0 <= i < |longer| && longer[i] in index && d in index[longer[i]].dependsOn
      ensures d in longer[..i]
    {
      if i < |order| {
        assert longer[..i] == order[..i];
      } else {
        assert longer[..i] == order;
      }
    }
  }

  ghost predicate RanksIndex(index: map<Text, Operation>, rank: map<Text, nat>) {
    forall id, d :: id in index && d in index[id].dependsOn ==> id in rank && d in rank && rank[d] < rank[id]
  }

  ghost predicate Cyclic(index: map<Text, Operation>) {
    forall rank :: !RanksIndex(index, rank)
  }

  ghost predicate Dangling(index: map<Text, Operation>, from: Text) {
    from !in index || exists id, d :: id in index && d in index[id].dependsOn && d !in index
  }

  lemma {:induction false} RankFallsAlong(index: map<Text, Operation>, stack: seq<Text>, k: nat, rank: map<Text, nat>)
    requires Chain(index, stack) && RanksIndex(index, rank)
    requires k < |stack| - 1
    ensures stack[k] in rank && stack[|stack| - 1] in rank
    ensures rank[stack[|stack| - 1]] < rank[stack[k]]
    decreases |stack| - k
  {
    assert stack[k + 1] in index[stack[k]].dependsOn;
    if k + 1 < |stack| - 1 {
      RankFallsAlong(index, stack, k + 1, rank);
    }
  }

  /** Meeting an active id again closes a dependency cycle, which no rank survives. */
  lemma ChainCloses(index: map<Text, Operation>, stack: seq<Text>, id: Text)
    requires Chain(index, stack) && id in stack
    requires id in index[stack[|stack| - 1]].dependsOn
    ensures Cyclic(index)
  {
    forall rank | RanksIndex(index, rank) ensures false {
      var k :| 0 <= k < |stack| && stack[k] == id;
      if k < |stack| - 1 {
        RankFallsAlong(index, stack, k, rank);
      }
    }
  }

  ghost predicate Indexes(index: map<Text, Operation>, operations: seq<Operation>) {
    && (forall i :: 0 <= i < |operations| ==>
          operations[i].operationId in index && index[operations[i].operationId] == operations[i])
    && (forall id :: id in index ==> Present(operations, id))
  }

  lemma RankFalls(index: map<Text, Operation>, rank: map<Text, nat>, id: Text, d: Text)
    requires RanksIndex(index, rank) && id in index && d in index[id].dependsOn
    ensures id in rank && d in rank && rank[d] < rank[id]
  {
  }

  lemma IndexRanks(index: map<Text, Operation>, operations: seq<Operation>, rank: map<Text, nat>)
    requires Indexes(index, operations)
    ensures Ranks(operations, rank) <==> RanksIndex(index, rank)
  {
    if Ranks(operations, rank) {
      forall id, d | id in index && d in index[id].dependsOn ensures id in rank && d in rank && rank[d] < rank[id] {
        var i :| 0 <= i < |operations| && operations[i].operationId == id;
        assert operations[i].operationId in index;
        assert d in operations[i].dependsOn;
      }
    }
    if RanksIndex(index, rank) {
      forall i, d | 0 <= i < |operations| && d in operations[i].dependsOn
        ensures operations[i].operationId in rank && d in rank && rank[d] < rank[operations[i].operationId]
      {
        var id := operations[i].operationId;
        assert id in index && index[id] == operations[i];
        RankFalls(index, rank, id, d);
      }
    }
  }

  lemma OrderRanks(index: map<Text, Operation>, operations: seq<Operation>, order: seq<Text>)
    requires Indexes(index, operations) && Topological(index, order)
    requires forall id :: id in index ==> id in order
    ensures exists rank :: Ranks(operations, rank)
    ensures forall i, d :: 0 <= i < |operations| && d in operations[i].dependsOn ==> d in order
  {
    var rank: map<Text, nat> := map i | 0 <= i < |order| :: order[i] := i;
    assert RanksIndex(index, rank) by {
      forall id, d | id in index && d in index[id].dependsOn ensures id in rank && d in rank && rank[d] < rank[id] {
        var i :| 0 <= i < |order| && order[i] == id;
        assert d in order[..i];
        var j :| 0 <= j < i && order[..i][j] == d;
        assert order[j] == d;
      }
    }
    IndexRanks(index, operations, rank);
    forall i, d | 0 <= i < |operations| && d in operations[i].dependsOn ensures d in order {
      assert operations[i].operationId in order;
    }
  }

  lemma NothingIndexed()
    ensures Indexes(map[], []) && UniqueIds([])
  {
  }

  lemma IndexedTwice(index: map<Text, Operation>, operations: seq<Operation>, k: nat)
    requires k < |operations| && Indexes(index, operations[..k]) && operations[k].operationId in index
    ensures !UniqueIds(operations)
  {
    var i :| 0 <= i < k && operations[..k][i].operationId == operations[k].operationId;
    assert operations[i].operationId == operations[k].operationId;
  }

  lemma IndexSnoc(index: map<Text, Operation>, operations: seq<Operation>, operation: Operation)
    requires Indexes(index, operations) && UniqueIds(operations) && operation.operationId !in index
    ensures Indexes(index[operation.operationId := operation], operations + [operation])
    ensures UniqueIds(operations + [operation])
  {
    var after := operations + [operation];
    forall id | id in index ensures Present(after, id) {
      var i :| 0 <= i < |operations| && operations[i].operationId == id;
      assert after[i] == operations[i];
    }
    assert after[|operations|] == operation;
    forall i | 0 <= i < |operations| ensures operations[i].operationId in index {
    }
  }

  /** The two checks on one dependency list: no duplicates, and equal to its sorted copy. */
  method CheckDependencies(dependsOn: seq<Text>) returns (r: Result<()>)
    ensures r.Ok? <==> StrictlySorted(dependsOn)
    ensures r.Fail? ==> r.refusal in {DuplicateDependency, DependencyOrder}
  {
    SortedWithoutDuplicates(dependsOn);
    var duplicated := HasDuplicates(dependsOn);
    r := if duplicated then Fail(DuplicateDependency)
         else if Sort(dependsOn) != dependsOn then Fail(DependencyOrder)
         else Ok(());
  }

  /** The checking loop that fills the index. */
  method IndexOperations(operations: seq<Operation>) returns (r: Result<map<Text, Operation>>)
    ensures r.Ok? <==> UniqueIds(operations) && forall i :: 0 <= i < |operations| ==> StrictlySorted(operations[i].dependsOn)
    ensures r.Ok? ==> Indexes(r.value, operations)
    ensures r.Fail? ==> r.refusal in {DuplicateOperation, DuplicateDependency, DependencyOrder}
    ensures r == Fail(DuplicateOperation) ==> !UniqueIds(operations)
  {
    hide StrictlySorted, Indexes, UniqueIds;
    var index: map<Text, Operation> := map[];
    NothingIndexed();
    for k := 0 to |operations|
      invariant Indexes(index, operations[..k]) && UniqueIds(operations[..k])
      invariant forall i :: 0 <= i < k ==> StrictlySorted(operations[i].dependsOn)
    {
      var operation := operations[k];
      if operation.operationId in index {
        IndexedTwice(index, operations, k);
        return Fail(DuplicateOperation);
      }
      var sorted := CheckDependencies(operation.dependsOn);
      if sorted.Fail? {
        return Fail(sorted.refusal);
      }
      IndexSnoc(index, operations[..k], operation);
      assert operations[..k + 1] == operations[..k] + [operation];
      index := index[operation.operationId := operation];
    }
    assert operations[..|operations|] == operations;
    r := Ok(index);
  }

  /** Accepts exactly the valid graphs, and terminates on every input, cyclic ones included. */
  method ValidateDag(operations: seq<Operation>) returns (r: Result<()>)
    ensures r.Ok? <==> ValidDag(operations)
    ensures r == Fail(DuplicateOperation) ==> !UniqueIds(operations)
    ensures r == Fail(CyclicPlan) ==> !exists rank :: Ranks(operations, rank)
    ensures r == Fail(MissingDependency)
        ==> exists i, d :: 0 <= i < |operations| && d in operations[i].dependsOn && !Present(operations, d)
    ensures r.Fail? ==>
      r.refusal in {DuplicateOperation, DuplicateDependency, DependencyOrder, CyclicPlan, MissingDependency}
  {
    var indexed := IndexOperations(operations);
    if indexed.Fail? {
      return Fail(indexed.refusal);
    }
    var visitor := new DagVisitor(indexed.value);
    for k := 0 to |operations|
      invariant visitor.Valid() && visitor.stack == []
      invariant forall i :: 0 <= i < k ==> operations[i].operationId in visitor.done
    {
      r := visitor.Visit(operations[k].operationId);
      if r.Fail? {
        RefusedGraph(visitor.index, operations, r.refusal, operations[k].operationId);
        return r;
      }
    }
    SearchedGraph(visitor.index, operations, visitor.order);
    r := Ok(());
  }

  lemma SearchedGraph(index: map<Text, Operation>, operations: seq<Operation>, order: seq<Text>)
    requires Indexes(index, operations) && Topological(index, order)
    requires UniqueIds(operations) && forall i :: 0 <= i < |operations| ==> StrictlySorted(operations[i].dependsOn)
    requires forall i :: 0 <= i < |operations| ==> operations[i].operationId in order
    requires forall id :: id in order ==> id in index
    ensures ValidDag(operations)
  {
    forall id | id in index ensures id in order {
      var i :| 0 <= i < |operations| && operations[i].operationId == id;
    }
    OrderRanks(index, operations, order);
  }

  lemma RefusedGraph(index: map<Text, Operation>, operations: seq<Operation>, refusal: Refusal, id: Text)
    requires Indexes(index, operations) && id in index
    requires (refusal == CyclicPlan && Cyclic(index)) || (refusal == MissingDependency && Dangling(index, id))
    ensures refusal == CyclicPlan ==> !exists rank :: Ranks(operations, rank)
    ensures refusal == MissingDependency
        ==> exists i, d :: 0 <= i < |operations| && d in operations[i].dependsOn && !Present(operations, d)
  {
    if refusal == CyclicPlan {
      forall rank | Ranks(operations, rank) ensures false {
        IndexRanks(index, operations, rank);
      }
    } else {
      var from, d :| from in index && d in index[from].dependsOn && d !in index;
      var i :| 0 <= i < |operations| && operations[i].operationId == from;
      assert operations[i].operationId in index;
      forall j | 0 <= j < |operations| ensures operations[j].operationId != d {
        assert operations[j].operationId in index;
      }
      assert d in operations[i].dependsOn && !Present(operations, d);
    }
  }
}
