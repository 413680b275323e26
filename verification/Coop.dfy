/** The cooperative runner (coop: runner.cpp, runner.hpp, single-event.hpp, multi-event.hpp):
    a tree of tasks, suspend reasons linked both ways to events, timed wakeups, joining and
    cancellation. Tasks are records kept by identity; identities are never used twice. */
module Coop {
  import opened Words

  type Id = nat
  type Time = u64

  const ROOT: Id := 0
  const INFINITE: Time := 0xffff_ffff_ffff_ffff

  datatype Reason =
    | Runnable
    | ByTimer(deadline: Time)
    | ByExt(ext: nat, deadline: Time)
    | BySingle(event: nat, deadline: Time)
    | ByMulti(event: nat, deadline: Time)
    | Destroyed

  /** What the last wait of a task ended with. */
  datatype Result = Nothing | Ok | TimedOut

  datatype Task = Task(parent: Id, children: seq<Id>, reason: Reason, result: Result)

  /** The waiter field of a single event: null, the early-notify sentinel, or a task. */
  datatype Waiter = Nobody | Early | Waiting(task: Id)

  type Tasks = map<Id, Task>
  type Rank = map<Id, nat>
  type Queue = seq<Option<Id>>

  // ----- the task tree

  predicate Distinct(q: seq<Id>) {
    forall i, j :: 0 <= i < j < |q| ==> q[i] != q[j]
  }

  /** A task sits under its parent, which ranks above it. */
  ghost predicate ParentOk(tasks: Tasks, rank: Rank, t: Id)
    requires t in tasks
  {
    && t in rank && ROOT in rank && rank[t] <= rank[ROOT]
    && (t != ROOT ==>
          var p := tasks[t].parent; p in tasks && p in rank && t in tasks[p].children && rank[t] < rank[p])
  }

  predicate ChildrenOk(tasks: Tasks, t: Id)
    requires t in tasks
  {
    && Distinct(tasks[t].children)
    && forall c :: c in tasks[t].children ==> c in tasks && c != ROOT && tasks[c].parent == t
  }

  ghost predicate Tree(tasks: Tasks, rank: Rank) {
    && ROOT in tasks
    && (forall t :: t in tasks ==> ParentOk(tasks, rank, t))
    && (forall t :: t in tasks ==> ChildrenOk(tasks, t))
  }

  lemma TreeAt(tasks: Tasks, rank: Rank, t: Id)
    requires Tree(tasks, rank) && t in tasks
    ensures ParentOk(tasks, rank, t) && ChildrenOk(tasks, t) && ROOT in tasks
  {}

  /** Same tasks under the same parents; only reasons and results may differ. */
  ghost predicate SameTree(tasks: Tasks, tasks': Tasks) {
    && tasks'.Keys == tasks.Keys
    && forall t :: t in tasks ==> tasks'[t].parent == tasks[t].parent && tasks'[t].children == tasks[t].children
  }

  lemma SameTreeOk(tasks: Tasks, tasks': Tasks, rank: Rank)
    requires Tree(tasks, rank) && SameTree(tasks, tasks')
    ensures Tree(tasks', rank)
  {
    forall t | t in tasks'
      ensures ParentOk(tasks', rank, t) && ChildrenOk(tasks', t)
    {
      TreeAt(tasks, rank, t);
    }
  }

  /** Task x is t or sits, at any depth, under it. */
  ghost predicate Under(tasks: Tasks, rank: Rank, x: Id, t: Id)
    requires Tree(tasks, rank) && x in tasks
    decreases rank[ROOT] - rank[x]
  {
    x == t || (x != ROOT && Under(tasks, rank, tasks[x].parent, t))
  }

  /** D is the subtree of t: closed downwards, and upwards as far as t. */
  ghost predicate IsSubtree(tasks: Tasks, t: Id, D: set<Id>) {
    && t in D && D <= tasks.Keys
    && (forall x :: x in D ==> Inside(tasks[x].children, D))
    && (forall x :: x in D && x != t ==> x != ROOT && tasks[x].parent in D)
  }

  predicate Inside(q: seq<Id>, D: set<Id>) {
    forall c :: c in q ==> c in D
  }

  lemma {:induction false} SubtreeIsUnder(tasks: Tasks, rank: Rank, t: Id, D: set<Id>, x: Id)
    requires Tree(tasks, rank) && IsSubtree(tasks, t, D) && x in tasks
    ensures x in D <==> Under(tasks, rank, x, t)
    decreases rank[ROOT] - rank[x]
  {
    TreeAt(tasks, rank, x);
    if x != t && x != ROOT {
      SubtreeIsUnder(tasks, rank, t, D, tasks[x].parent);
      assert tasks[x].parent in D ==> Inside(tasks[tasks[x].parent].children, D);
    }
  }

  /** Every task has a subtree. */
  lemma SubtreeExists(tasks: Tasks, rank: Rank, t: Id) returns (D: set<Id>)
    requires Tree(tasks, rank) && t in tasks
    ensures IsSubtree(tasks, t, D)
    ensures forall x :: x in tasks ==> (x in D <==> Under(tasks, rank, x, t))
  {
    D := set x | x in tasks && Under(tasks, rank, x, t);
    forall x | x in D
      ensures Inside(tasks[x].children, D)
    {
      TreeAt(tasks, rank, x);
    }
  }

  /** The subtree of the root is everything. */
  lemma {:induction false} RootSubtree(tasks: Tasks, rank: Rank, D: set<Id>, x: Id)
    requires Tree(tasks, rank) && IsSubtree(tasks, ROOT, D) && x in tasks
    ensures x in D
    decreases rank[ROOT] - rank[x]
  {
    TreeAt(tasks, rank, x);
    if x != ROOT {
      RootSubtree(tasks, rank, D, tasks[x].parent);
      assert Inside(tasks[tasks[x].parent].children, D);
    }
  }

  /** Nothing in a subtree ranks above its top. */
  lemma {:induction false} SubtreeRank(tasks: Tasks, rank: Rank, t: Id, D: set<Id>, x: Id)
    requires Tree(tasks, rank) && IsSubtree(tasks, t, D) && x in D
    ensures x == t || rank[x] < rank[t]
    decreases rank[ROOT] - rank[x]
  {
    TreeAt(tasks, rank, x);
    if x != t {
      SubtreeRank(tasks, rank, t, D, tasks[x].parent);
    }
  }

  /** Subtrees of different children of one task share nothing. */
  lemma {:induction false} SubtreesApart(tasks: Tasks, rank: Rank, c: Id, C: set<Id>, d: Id, D: set<Id>, x: Id)
    requires Tree(tasks, rank) && IsSubtree(tasks, c, C) && IsSubtree(tasks, d, D)
    requires c != d && c != ROOT && d != ROOT && tasks[c].parent == tasks[d].parent && x in C
    ensures x !in D
    decreases rank[ROOT] - rank[x]
  {
    TreeAt(tasks, rank, x);
    if x in D {
      if x != c && x != d {
        SubtreesApart(tasks, rank, c, C, d, D, tasks[x].parent);
      } else {
        var p := tasks[c].parent;
        TreeAt(tasks, rank, c);
        TreeAt(tasks, rank, d);
        if x == c {
          SubtreeRank(tasks, rank, d, D, p);
        } else {
          SubtreeRank(tasks, rank, c, C, p);
        }
      }
    }
  }

  /** Adding a new leaf under p; every other rank goes up by one. */
  function Pushed(tasks: Tasks, p: Id, t: Id): Tasks
    requires p in tasks
  {
    tasks[p := tasks[p].(children := tasks[p].children + [t])][t := Task(p, [], Runnable, Nothing)]
  }

  lemma PushedIs(tasks: Tasks, p: Id, t: Id)
    requires p in tasks && t !in tasks
    ensures var a := tasks[p := tasks[p].(children := tasks[p].children + [t])];
            Pushed(tasks, p, t) == a[t := Task(p, [], Runnable, Nothing)]
  {}

  ghost function PushedRank(rank: Rank, t: Id): Rank {
    map x | x in rank.Keys + {t} :: if x == t then 0 else rank[x] + 1
  }

  lemma PushedTree(tasks: Tasks, rank: Rank, p: Id, t: Id)
    requires Tree(tasks, rank) && p in tasks && t !in tasks
    ensures Tree(Pushed(tasks, p, t), PushedRank(rank, t))
  {
    PushedRanks(tasks, rank, t);
    var rank' := PushedRank(rank, t);
    hide ParentOk, ChildrenOk, Pushed, PushedRank;
    var tasks' := Pushed(tasks, p, t);
    PushedKeys(tasks, p, t);
    forall x | x in tasks'
      ensures ParentOk(tasks', rank', x) && ChildrenOk(tasks', x)
    {
      PushedParent(tasks, rank, p, t, x, rank');
      PushedChildren(tasks, rank, p, t, x);
    }
  }

  lemma PushedRanks(tasks: Tasks, rank: Rank, t: Id)
    requires Tree(tasks, rank) && t !in tasks
    ensures var r := PushedRank(rank, t);
            t in r && r[t] == 0 && forall y :: y in tasks ==> y in rank && y in r && r[y] == rank[y] + 1
  {
    forall y | y in tasks
      ensures y in rank
    {
      TreeAt(tasks, rank, y);
    }
  }

  lemma PushedKeys(tasks: Tasks, p: Id, t: Id)
    requires p in tasks && t !in tasks
    ensures Pushed(tasks, p, t).Keys == tasks.Keys + {t}
    ensures forall x :: x in Pushed(tasks, p, t) ==>
      var y := Pushed(tasks, p, t)[x];
      y.parent == (if x == t then p else tasks[x].parent) &&
      y.children == if x == t then [] else if x == p then tasks[p].children + [t] else tasks[x].children
  {}

  lemma PushedParent(tasks: Tasks, rank: Rank, p: Id, t: Id, x: Id, rank': Rank)
    requires Tree(tasks, rank) && p in tasks && t !in tasks && x in Pushed(tasks, p, t)
    requires t in rank' && rank'[t] == 0 && forall y :: y in tasks ==> y in rank && y in rank' && rank'[y] == rank[y] + 1
    ensures ParentOk(Pushed(tasks, p, t), rank', x)
  {
    TreeAt(tasks, rank, p);
    PushedKeys(tasks, p, t);
    hide Tree, ChildrenOk, Pushed;
    if x != t {
      TreeAt(tasks, rank, x);
    }
  }

  lemma PushedChildren(tasks: Tasks, rank: Rank, p: Id, t: Id, x: Id)
    requires Tree(tasks, rank) && p in tasks && t !in tasks && x in Pushed(tasks, p, t)
    ensures ChildrenOk(Pushed(tasks, p, t), x)
  {
    hide Tree, ParentOk;
    TreeAt(tasks, rank, p);
    if x != t {
      TreeAt(tasks, rank, x);
    }
  }

  /** Moving child c of the root under task p. */
  function Moved(tasks: Tasks, c: Id, p: Id): Tasks
    requires c in tasks && p in tasks && ROOT in tasks
  {
    var t1 := tasks[p := tasks[p].(children := tasks[p].children + [c])];
    var t2 := t1[ROOT := t1[ROOT].(children := Without(t1[ROOT].children, {c}))];
    t2[c := t2[c].(parent := p)]
  }

  /** The child comes last under p and leaves the others under the root in their order. */
  lemma MovedIs(tasks: Tasks, rank: Rank, c: Id, p: Id)
    requires Tree(tasks, rank) && c in tasks && p in tasks && c != p && c != ROOT && p != ROOT
    ensures ROOT in tasks
    ensures var m, q := Moved(tasks, c, p), tasks[ROOT].children;
            && m.Keys == tasks.Keys && m[c] == tasks[c].(parent := p)
            && m[p] == tasks[p].(children := tasks[p].children + [c])
            && (forall i :: 0 <= i < |q| && q[i] == c ==> m[ROOT] == tasks[ROOT].(children := EraseAt(q, i)))
            && forall x :: x in tasks && x != c && x != p && x != ROOT ==> m[x] == tasks[x]
  {
    hide Tree, Without, EraseAt;
    RootChildren(tasks, rank);
    RootErased(tasks[ROOT].children, c);
    MovedFields(tasks, c, p);
    hide Moved;
  }

  lemma MovedFields(tasks: Tasks, c: Id, p: Id)
    requires ROOT in tasks && c in tasks && p in tasks && c != p && c != ROOT && p != ROOT
    ensures var m := Moved(tasks, c, p);
            && m.Keys == tasks.Keys && m[c] == tasks[c].(parent := p)
            && m[p] == tasks[p].(children := tasks[p].children + [c])
            && m[ROOT] == tasks[ROOT].(children := Without(tasks[ROOT].children, {c}))
            && forall x :: x in tasks && x != c && x != p && x != ROOT ==> m[x] == tasks[x]
  {
    hide Without;
  }

  lemma RootErased(q: seq<Id>, c: Id)
    requires Distinct(q)
    ensures forall i :: 0 <= i < |q| && q[i] == c ==> EraseAt(q, i) == Without(q, {c})
  {
    hide Without, EraseAt, Distinct;
    forall i | 0 <= i < |q| && q[i] == c
      ensures EraseAt(q, i) == Without(q, {c})
    {
      EraseIsWithout(q, i);
    }
  }

  lemma SelfUnder(tasks: Tasks, rank: Rank, t: Id)
    requires Tree(tasks, rank) && t in tasks
    ensures Under(tasks, rank, t, t)
  {
    hide Tree;
  }

  lemma RootChildren(tasks: Tasks, rank: Rank)
    requires Tree(tasks, rank)
    ensures ROOT in tasks && Distinct(tasks[ROOT].children)
  {}

  /** Everything outside the subtree of c rises above it. */
  ghost function MovedRank(tasks: Tasks, rank: Rank, c: Id, D: set<Id>): Rank
    requires c in rank
  {
    map x | x in tasks && x in rank :: if x in D then rank[x] else rank[x] + rank[c] + 1
  }

  lemma MovedTree(tasks: Tasks, rank: Rank, c: Id, p: Id, D: set<Id>)
    requires Tree(tasks, rank) && c in tasks && p in tasks && c != ROOT && p != ROOT && tasks[c].parent == ROOT
    requires IsSubtree(tasks, c, D) && p !in D
    ensures c in rank && Tree(Moved(tasks, c, p), MovedRank(tasks, rank, c, D))
  {
    TreeAt(tasks, rank, c);
    hide ParentOk, ChildrenOk, Moved, IsSubtree, MovedRank;
    var tasks' := Moved(tasks, c, p);
    MovedKeys(tasks, c, p);
    forall x | x in tasks'
      ensures ParentOk(tasks', MovedRank(tasks, rank, c, D), x) && ChildrenOk(tasks', x)
    {
      MovedParent(tasks, rank, c, p, D, x);
      MovedChildren(tasks, rank, c, p, x);
    }
  }

  lemma MovedKeys(tasks: Tasks, c: Id, p: Id)
    requires c in tasks && p in tasks && ROOT in tasks && c != ROOT && p != ROOT && c != p
    ensures Moved(tasks, c, p).Keys == tasks.Keys
    ensures forall x :: x in tasks ==> Moved(tasks, c, p)[x].parent == if x == c then p else tasks[x].parent
    ensures forall x :: x in tasks ==>
      Moved(tasks, c, p)[x].children == (if x == p then tasks[p].children + [c]
                                         else if x == ROOT then Without(tasks[ROOT].children, {c}) else tasks[x].children)
  {}

  lemma MovedParent(tasks: Tasks, rank: Rank, c: Id, p: Id, D: set<Id>, x: Id)
    requires Tree(tasks, rank) && c in tasks && p in tasks && c != ROOT && p != ROOT && tasks[c].parent == ROOT
    requires IsSubtree(tasks, c, D) && p !in D && x in tasks && c in rank && c != p
    ensures x in Moved(tasks, c, p) && ParentOk(Moved(tasks, c, p), MovedRank(tasks, rank, c, D), x)
  {
    hide Tree, Moved, MovedRank, IsSubtree, Without;
    TreeAt(tasks, rank, c);
    TreeAt(tasks, rank, ROOT);
    TreeAt(tasks, rank, x);
    WithoutItems(tasks[ROOT].children, {c});
    MovedKeys(tasks, c, p);
    MovedRanks(tasks, rank, c, D);
    MovedAbove(tasks, rank, c, p, D, x);
  }

  lemma MovedAbove(tasks: Tasks, rank: Rank, c: Id, p: Id, D: set<Id>, x: Id)
    requires Tree(tasks, rank) && c in tasks && p in tasks && c != ROOT && p != ROOT && tasks[c].parent == ROOT
    requires IsSubtree(tasks, c, D) && p !in D && x in tasks && c in rank
    ensures var r, q := MovedRank(tasks, rank, c, D), if x == c then p else tasks[x].parent;
            x in r && ROOT in r && r[x] <= r[ROOT] && (x != ROOT ==> q in r && r[x] < r[q])
  {
    hide Tree, MovedRank;
    TreeAt(tasks, rank, c);
    TreeAt(tasks, rank, x);
    TreeAt(tasks, rank, ROOT);
    MovedRanks(tasks, rank, c, D);
    if ROOT in D { SubtreeRank(tasks, rank, c, D, ROOT); }
    if x in D { SubtreeRank(tasks, rank, c, D, x); }
    if x != ROOT && x != c && tasks[x].parent in D {
      assert Inside(tasks[tasks[x].parent].children, D);
    }
  }

  lemma MovedRanks(tasks: Tasks, rank: Rank, c: Id, D: set<Id>)
    requires Tree(tasks, rank) && c in rank
    ensures var r := MovedRank(tasks, rank, c, D);
            forall x :: x in tasks ==> x in rank && x in r && r[x] == if x in D then rank[x] else rank[x] + rank[c] + 1
  {
    forall x | x in tasks
      ensures x in rank
    {
      TreeAt(tasks, rank, x);
    }
  }

  lemma MovedChildren(tasks: Tasks, rank: Rank, c: Id, p: Id, x: Id)
    requires Tree(tasks, rank) && c in tasks && p in tasks && c != ROOT && p != ROOT && tasks[c].parent == ROOT && c != p
    requires x in tasks
    ensures x in Moved(tasks, c, p) && ChildrenOk(Moved(tasks, c, p), x)
  {
    hide Moved, Tree, ParentOk, Without;
    TreeAt(tasks, rank, c);
    TreeAt(tasks, rank, p);
    TreeAt(tasks, rank, ROOT);
    TreeAt(tasks, rank, x);
    WithoutItems(tasks[ROOT].children, {c});
    MovedKeys(tasks, c, p);
  }

  /** Removing a childless task from under its parent. */
  function Deleted(tasks: Tasks, t: Id): Tasks
    requires t in tasks && tasks[t].parent in tasks
  {
    var p := tasks[t].parent;
    tasks[p := tasks[p].(children := Without(tasks[p].children, {t}))] - {t}
  }

  lemma DeletedTree(tasks: Tasks, rank: Rank, t: Id)
    requires Tree(tasks, rank) && t in tasks && t != ROOT && tasks[t].children == []
    ensures tasks[t].parent in tasks && Tree(Deleted(tasks, t), rank)
  {
    TreeAt(tasks, rank, t);
    hide ParentOk, ChildrenOk, Deleted;
    DeletedKeys(tasks, t);
    forall x | x in Deleted(tasks, t)
      ensures ParentOk(Deleted(tasks, t), rank, x) && ChildrenOk(Deleted(tasks, t), x)
    {
      DeletedAt(tasks, rank, t, x);
    }
  }

  lemma DeletedKeys(tasks: Tasks, t: Id)
    requires t in tasks && tasks[t].parent in tasks
    ensures Deleted(tasks, t).Keys == tasks.Keys - {t}
    ensures forall x :: x in Deleted(tasks, t) ==>
      Deleted(tasks, t)[x] == if x == tasks[t].parent then tasks[x].(children := Without(tasks[x].children, {t})) else tasks[x]
  {}

  lemma DeletedAt(tasks: Tasks, rank: Rank, t: Id, x: Id)
    requires Tree(tasks, rank) && t in tasks && t != ROOT && tasks[t].children == [] && x in tasks && x != t
    requires tasks[t].parent in tasks && x in Deleted(tasks, t)
    ensures ParentOk(Deleted(tasks, t), rank, x) && ChildrenOk(Deleted(tasks, t), x)
  {
    hide Tree, Deleted, Without;
    WithoutItems(tasks[tasks[t].parent].children, {t});
    TreeAt(tasks, rank, t);
    TreeAt(tasks, rank, x);
    DeletedKeys(tasks, t);
  }

  // ----- lists without some tasks


  /** q without the members of D, in order. */
  function Without(q: seq<Id>, D: set<Id>): seq<Id> {
    if q == [] then []
    else
      var r := Without(q[..|q| - 1], D);
      var x := q[|q| - 1];
      if x in D then r else r + [x]
  }

  lemma {:induction false} WithoutItems(q: seq<Id>, D: set<Id>)
    ensures forall x :: x in Without(q, D) <==> x in q && x !in D
    ensures Distinct(q) ==> Distinct(Without(q, D))
  {
    if q != [] {
      WithoutItems(q[..|q| - 1], D);
      assert q == q[..|q| - 1] + [q[|q| - 1]];
    }
  }

  lemma {:induction false} WithoutTwice(q: seq<Id>, C: set<Id>, D: set<Id>)
    ensures Without(Without(q, C), D) == Without(q, C + D)
  {
    if q != [] {
      var r, x := Without(q[..|q| - 1], C), q[|q| - 1];
      WithoutTwice(q[..|q| - 1], C, D);
      if x !in C {
        assert (r + [x])[..|r|] == r;
      }
    }
  }

  lemma {:induction false} WithoutNone(q: seq<Id>, D: set<Id>)
    requires forall x :: x in q ==> x !in D
    ensures Without(q, D) == q
  {
    if q != [] {
      WithoutNone(q[..|q| - 1], D);
    }
  }

  function EraseAt(q: seq<Id>, i: nat): seq<Id>
    requires i < |q|
  {
    q[..i] + q[i + 1..]
  }

  lemma {:induction false} EraseIsWithout(q: seq<Id>, i: nat)
    requires Distinct(q) && i < |q|
    ensures EraseAt(q, i) == Without(q, {q[i]})
  {
    hide Without;
    WithoutNone(q[..i], {q[i]});
    WithoutNone(q[i + 1..], {q[i]});
    WithoutOne(q[i]);
    assert q == q[..i] + ([q[i]] + q[i + 1..]);
    WithoutConcat(q[..i], [q[i]] + q[i + 1..], {q[i]});
    WithoutConcat([q[i]], q[i + 1..], {q[i]});
    assert [] + q[i + 1..] == q[i + 1..];
  }

  lemma WithoutOne(t: Id)
    ensures Without([t], {t}) == []
  {}

  lemma {:induction false} WithoutConcat(p: seq<Id>, q: seq<Id>, D: set<Id>)
    ensures Without(p + q, D) == Without(p, D) + Without(q, D)
  {
    if q == [] {
      assert p + q == p;
    } else {
      var n := |q| - 1;
      WithoutConcat(p, q[..n], D);
      assert (p + q)[..|p + q| - 1] == p + q[..n];
    }
  }

  // ----- suspend reasons and events

  function SingleAt(single: map<nat, Waiter>, e: nat): Waiter {
    if e in single then single[e] else Nobody
  }

  function MultiAt(multi: map<nat, seq<Id>>, e: nat): seq<Id> {
    if e in multi then multi[e] else []
  }

  predicate Recorded(r: Reason, t: Id, single: map<nat, Waiter>, multi: map<nat, seq<Id>>) {
    && (r.BySingle? ==> SingleAt(single, r.event) == Waiting(t))
    && (r.ByMulti? ==> t in MultiAt(multi, r.event))
  }

  predicate SingleOk(tasks: Tasks, single: map<nat, Waiter>, e: nat) {
    var w := SingleAt(single, e);
    w.Waiting? ==> w.task in tasks && tasks[w.task].reason.BySingle? && tasks[w.task].reason.event == e
  }

  predicate MultiOk(tasks: Tasks, multi: map<nat, seq<Id>>, e: nat) {
    && Distinct(MultiAt(multi, e))
    && forall t :: t in MultiAt(multi, e) ==> t in tasks && tasks[t].reason.ByMulti? && tasks[t].reason.event == e
  }

  /** A task is suspended on an event exactly when the event records it, exactly once. */
  ghost predicate Links(tasks: Tasks, single: map<nat, Waiter>, multi: map<nat, seq<Id>>) {
    && (forall t :: t in tasks ==> Recorded(tasks[t].reason, t, single, multi))
    && (forall e :: SingleOk(tasks, single, e))
    && (forall e :: MultiOk(tasks, multi, e))
  }

  /** The events after task t, suspended for reason r, was taken off its event. */
  function ClearSingle(single: map<nat, Waiter>, r: Reason): map<nat, Waiter> {
    if r.BySingle? then single[r.event := Nobody] else single
  }

  function ClearMulti(multi: map<nat, seq<Id>>, r: Reason, t: Id): map<nat, seq<Id>> {
    if r.ByMulti? then multi[r.event := Without(MultiAt(multi, r.event), {t})] else multi
  }

  lemma Unlinked(tasks: Tasks, single: map<nat, Waiter>, multi: map<nat, seq<Id>>, t: Id, task: Task)
    requires Links(tasks, single, multi) && t in tasks && !task.reason.BySingle? && !task.reason.ByMulti?
    ensures Links(tasks[t := task], ClearSingle(single, tasks[t].reason), ClearMulti(multi, tasks[t].reason, t))
  {
    var r := tasks[t].reason;
    if r.ByMulti? { WithoutItems(MultiAt(multi, r.event), {t}); }
    hide Without;
    var tasks', single', multi' := tasks[t := task], ClearSingle(single, r), ClearMulti(multi, r, t);
    forall x | x in tasks'
      ensures Recorded(tasks'[x].reason, x, single', multi')
    {
      if x != t {
        assert Recorded(tasks[x].reason, x, single, multi);
        assert Recorded(r, t, single, multi);
      }
    }
    forall e
      ensures SingleOk(tasks', single', e)
    {
      assert SingleOk(tasks, single, e);
    }
    forall e
      ensures MultiOk(tasks', multi', e)
    {
      assert MultiOk(tasks, multi, e);
    }
  }

  /** A task that waits for nothing starts to wait. */
  lemma Linked(tasks: Tasks, single: map<nat, Waiter>, multi: map<nat, seq<Id>>, t: Id, r: Reason,
               single': map<nat, Waiter>, multi': map<nat, seq<Id>>)
    requires Links(tasks, single, multi) && t in tasks && tasks[t].reason == Runnable
    requires r.BySingle? ==> !SingleAt(single, r.event).Waiting?
    requires single' == if r.BySingle? then single[r.event := Waiting(t)] else single
    requires multi' == if r.ByMulti? then multi[r.event := MultiAt(multi, r.event) + [t]] else multi
    ensures Links(tasks[t := tasks[t].(reason := r)], single', multi')
  {
    var tasks' := tasks[t := tasks[t].(reason := r)];
    forall x | x in tasks'
      ensures Recorded(tasks'[x].reason, x, single', multi')
    {
      if x != t {
        assert Recorded(tasks[x].reason, x, single, multi);
      }
    }
    forall e
      ensures SingleOk(tasks', single', e)
    {
      assert SingleOk(tasks, single, e);
    }
    forall e
      ensures MultiOk(tasks', multi', e)
    {
      assert MultiOk(tasks, multi, e);
    }
  }

  // ----- the resume queue

  /** Task t can be resumed: alive, not suspended, without children, and not the root. */
  predicate Resumable(tasks: Tasks, t: Id) {
    t in tasks && t != ROOT && tasks[t].reason == Runnable && tasks[t].children == []
  }

  ghost predicate QueueOk(tasks: Tasks, queue: Queue) {
    && (forall i :: 0 <= i < |queue| && queue[i].Some? ==> Resumable(tasks, queue[i].value))
    && (forall i, j :: 0 <= i < j < |queue| && queue[i].Some? ==> queue[i] != queue[j])
  }

  /** The queue with the members of D struck out. */
  ghost predicate StruckOut(queue: Queue, queue': Queue, D: set<Id>) {
    && |queue'| == |queue|
    && forall i :: 0 <= i < |queue| ==>
         queue'[i] == if queue[i].Some? && queue[i].value in D then None else queue[i]
  }

  /** The events with the members of D taken off, in order; early notifications stay. */
  ghost predicate EventsWithout(single: map<nat, Waiter>, multi: map<nat, seq<Id>>,
                                single': map<nat, Waiter>, multi': map<nat, seq<Id>>, D: set<Id>) {
    && (forall e :: SingleAt(single', e) ==
          var w := SingleAt(single, e); if w.Waiting? && w.task in D then Nobody else w)
    && (forall e :: MultiAt(multi', e) == Without(MultiAt(multi, e), D))
  }

  lemma NoneOff(single: map<nat, Waiter>, multi: map<nat, seq<Id>>)
    ensures EventsWithout(single, multi, single, multi, {})
  {
    forall e
      ensures MultiAt(multi, e) == Without(MultiAt(multi, e), {})
    {
      WithoutNone(MultiAt(multi, e), {});
    }
  }

  lemma OffTwice(s0: map<nat, Waiter>, m0: map<nat, seq<Id>>, s1: map<nat, Waiter>, m1: map<nat, seq<Id>>,
                 s2: map<nat, Waiter>, m2: map<nat, seq<Id>>, C: set<Id>, D: set<Id>)
    requires EventsWithout(s0, m0, s1, m1, C) && EventsWithout(s1, m1, s2, m2, D)
    ensures EventsWithout(s0, m0, s2, m2, C + D)
  {
    hide MultiAt, Without;
    forall e
      ensures MultiAt(m2, e) == Without(MultiAt(m0, e), C + D)
    {
      WithoutTwice(MultiAt(m0, e), C, D);
    }
    forall e
      ensures SingleAt(s2, e) ==
              var w := SingleAt(s0, e); if w.Waiting? && w.task in C + D then Nobody else w
    {
      assert SingleAt(s1, e) == var w := SingleAt(s0, e); if w.Waiting? && w.task in C then Nobody else w;
    }
  }

  lemma OneOff(tasks: Tasks, single: map<nat, Waiter>, multi: map<nat, seq<Id>>, t: Id)
    requires Links(tasks, single, multi) && t in tasks
    ensures EventsWithout(single, multi, ClearSingle(single, tasks[t].reason), ClearMulti(multi, tasks[t].reason, t), {t})
  {
    var r := tasks[t].reason;
    forall e
      ensures MultiAt(ClearMulti(multi, r, t), e) == Without(MultiAt(multi, e), {t})
    {
      assert MultiOk(tasks, multi, e);
      if !(r.ByMulti? && r.event == e) {
        WithoutNone(MultiAt(multi, e), {t});
      }
    }
    forall e
      ensures SingleAt(ClearSingle(single, r), e) ==
              var w := SingleAt(single, e); if w.Waiting? && w.task in {t} then Nobody else w
    {
      assert SingleOk(tasks, single, e);
      assert Recorded(r, t, single, multi);
    }
  }

  /** Changes that leave every suspended task as it was keep the links. */
  lemma LinksFrame(tasks: Tasks, tasks': Tasks, single: map<nat, Waiter>, multi: map<nat, seq<Id>>)
    requires Links(tasks, single, multi)
    requires forall x :: x in tasks' && (tasks'[x].reason.BySingle? || tasks'[x].reason.ByMulti?) ==>
      x in tasks && tasks'[x].reason == tasks[x].reason
    requires forall x :: x in tasks && (tasks[x].reason.BySingle? || tasks[x].reason.ByMulti?) ==>
      x in tasks' && tasks'[x].reason == tasks[x].reason
    ensures Links(tasks', single, multi)
  {
    forall x | x in tasks'
      ensures Recorded(tasks'[x].reason, x, single, multi)
    {
      if x in tasks {
        assert Recorded(tasks[x].reason, x, single, multi);
      }
    }
    forall e
      ensures SingleOk(tasks', single, e)
    {
      assert SingleOk(tasks, single, e);
    }
    forall e
      ensures MultiOk(tasks', multi, e)
    {
      assert MultiOk(tasks, multi, e);
    }
  }

  /** Setting the reason and result of one task does not change the tree. */
  lemma ReasonOnly(tasks: Tasks, rank: Rank, t: Id, task: Task)
    requires Tree(tasks, rank) && t in tasks && task.parent == tasks[t].parent && task.children == tasks[t].children
    ensures Tree(tasks[t := task], rank)
  {
    SameTreeOk(tasks, tasks[t := task], rank);
  }

  predicate InQueue(queue: Queue, t: Id) {
    Some(t) in queue
  }

  /** The current task starts to wait. */
  lemma SuspendOk(tasks: Tasks, rank: Rank, single: map<nat, Waiter>, multi: map<nat, seq<Id>>, queue: Queue,
                  t: Id, r: Reason, single': map<nat, Waiter>, multi': map<nat, seq<Id>>)
    requires Tree(tasks, rank) && Links(tasks, single, multi) && QueueOk(tasks, queue)
    requires t in tasks && tasks[t].reason == Runnable && !InQueue(queue, t)
    requires r.BySingle? ==> !SingleAt(single, r.event).Waiting?
    requires single' == if r.BySingle? then single[r.event := Waiting(t)] else single
    requires multi' == if r.ByMulti? then multi[r.event := MultiAt(multi, r.event) + [t]] else multi
    ensures var tasks' := tasks[t := tasks[t].(reason := r)];
            Tree(tasks', rank) && Links(tasks', single', multi') && QueueOk(tasks', queue)
  {
    hide Tree, Links, QueueOk;
    ReasonOnly(tasks, rank, t, tasks[t].(reason := r));
    Linked(tasks, single, multi, t, r, single', multi');
    forall x | InQueue(queue, x)
      ensures Resumable(tasks[t := tasks[t].(reason := r)], x)
    {
      QueueAt(tasks, queue, x);
    }
    QueueFrame(tasks, tasks[t := tasks[t].(reason := r)], queue);
  }

  /** A task outside the queue stops waiting. */
  lemma WakeOk(tasks: Tasks, rank: Rank, single: map<nat, Waiter>, multi: map<nat, seq<Id>>, queue: Queue, t: Id, task: Task)
    requires Tree(tasks, rank) && Links(tasks, single, multi) && QueueOk(tasks, queue)
    requires t in tasks && task.parent == tasks[t].parent && task.children == tasks[t].children
    requires !InQueue(queue, t) && !task.reason.BySingle? && !task.reason.ByMulti?
    ensures var tasks' := tasks[t := task];
            && Tree(tasks', rank) && QueueOk(tasks', queue)
            && Links(tasks', ClearSingle(single, tasks[t].reason), ClearMulti(multi, tasks[t].reason, t))
  {
    hide Tree, Links, QueueOk, ClearSingle, ClearMulti;
    ReasonOnly(tasks, rank, t, task);
    Unlinked(tasks, single, multi, t, task);
    forall x | InQueue(queue, x)
      ensures Resumable(tasks[t := task], x)
    {
      QueueAt(tasks, queue, x);
    }
    QueueFrame(tasks, tasks[t := task], queue);
  }

  lemma NotQueued(tasks: Tasks, queue: Queue, t: Id)
    requires QueueOk(tasks, queue) && t in tasks && tasks[t].reason != Runnable
    ensures !InQueue(queue, t)
  {
    if InQueue(queue, t) {
      QueueAt(tasks, queue, t);
    }
  }

  /** Replacing an event nobody waits for before or after. */
  lemma SingleFrame(tasks: Tasks, single: map<nat, Waiter>, multi: map<nat, seq<Id>>, e: nat, w: Waiter)
    requires Links(tasks, single, multi) && !SingleAt(single, e).Waiting? && !w.Waiting?
    ensures Links(tasks, single[e := w], multi)
  {
    var single' := single[e := w];
    forall x | x in tasks
      ensures Recorded(tasks[x].reason, x, single', multi)
    {
      assert Recorded(tasks[x].reason, x, single, multi);
    }
    forall d
      ensures SingleOk(tasks, single', d)
    {
      assert SingleOk(tasks, single, d);
    }
  }

  lemma WaiterIs(tasks: Tasks, single: map<nat, Waiter>, multi: map<nat, seq<Id>>, e: nat)
    requires Links(tasks, single, multi) && SingleAt(single, e).Waiting?
    ensures var t := SingleAt(single, e).task; t in tasks && tasks[t].reason.BySingle? && tasks[t].reason.event == e
  {
    assert SingleOk(tasks, single, e);
  }

  /** The first n waiters of an event are woken together. */
  ghost predicate WokenFirst(tasks: Tasks, tasks': Tasks, q: seq<Id>) {
    && tasks'.Keys == tasks.Keys
    && forall x :: x in tasks ==>
         tasks'[x] == if x in q then tasks[x].(reason := Runnable, result := Ok) else tasks[x]
  }

  lemma WokenFirstLinks(tasks: Tasks, single: map<nat, Waiter>, multi: map<nat, seq<Id>>, e: nat, n: nat, tasks': Tasks)
    requires Links(tasks, single, multi) && n <= |MultiAt(multi, e)| && WokenFirst(tasks, tasks', MultiAt(multi, e)[..n])
    ensures Links(tasks', single, multi[e := MultiAt(multi, e)[n..]])
  {
    var q := MultiAt(multi, e);
    var multi' := multi[e := q[n..]];
    assert MultiOk(tasks, multi, e);
    forall x | x in tasks'
      ensures Recorded(tasks'[x].reason, x, single, multi')
    {
      assert Recorded(tasks[x].reason, x, single, multi);
      assert q == q[..n] + q[n..];
    }
    forall d
      ensures SingleOk(tasks', single, d)
    {
      assert SingleOk(tasks, single, d);
    }
    forall d
      ensures MultiOk(tasks', multi', d)
    {
      assert MultiOk(tasks, multi, d);
      if d == e {
        FirstApart(q, n);
      }
    }
  }

  lemma FirstApart(q: seq<Id>, n: nat)
    requires Distinct(q) && n <= |q|
    ensures Distinct(q[n..]) && forall x :: x in q[n..] ==> x in q && x !in q[..n]
  {}

  lemma WokenFirstRest(tasks: Tasks, rank: Rank, queue: Queue, q: seq<Id>, tasks': Tasks)
    requires Tree(tasks, rank) && QueueOk(tasks, queue) && WokenFirst(tasks, tasks', q)
    ensures Tree(tasks', rank) && QueueOk(tasks', queue)
  {
    hide Tree, QueueOk;
    SameTreeOk(tasks, tasks', rank);
    forall x | InQueue(queue, x)
      ensures Resumable(tasks', x)
    {
      QueueAt(tasks, queue, x);
    }
    QueueFrame(tasks, tasks', queue);
  }

  lemma MovedOk(tasks: Tasks, rank: Rank, single: map<nat, Waiter>, multi: map<nat, seq<Id>>, queue: Queue, c: Id, p: Id)
    returns (rank': Rank)
    requires Tree(tasks, rank) && Links(tasks, single, multi) && QueueOk(tasks, queue)
    requires c in tasks && p in tasks && c != ROOT && p != ROOT && tasks[c].parent == ROOT
    requires !Under(tasks, rank, p, c) && !InQueue(queue, p)
    ensures ROOT in tasks
    ensures var tasks' := Moved(tasks, c, p);
            && Tree(tasks', rank') && Links(tasks', single, multi) && QueueOk(tasks', queue)
            && tasks'.Keys == tasks.Keys && tasks'[p].reason == tasks[p].reason
            && (NoneDestroyed(tasks) ==> NoneDestroyed(tasks'))
  {
    RootIn(tasks, rank);
    var D := SubtreeExists(tasks, rank, c);
    hide Links, Tree, QueueOk, Moved, Resumable, IsSubtree, Under;
    MovedTree(tasks, rank, c, p, D);
    rank' := MovedRank(tasks, rank, c, D);
    var tasks' := Moved(tasks, c, p);
    MovedTasks(tasks, c, p);
    LinksFrame(tasks, tasks', single, multi);
    forall x | InQueue(queue, x)
      ensures Resumable(tasks', x)
    {
      QueueAt(tasks, queue, x);
      StillResumable(tasks, tasks', x);
    }
    QueueFrame(tasks, tasks', queue);
  }

  lemma MovedTasks(tasks: Tasks, c: Id, p: Id)
    requires c in tasks && p in tasks && ROOT in tasks && c != ROOT && p != ROOT && c != p
    ensures Moved(tasks, c, p).Keys == tasks.Keys
    ensures forall x :: x in tasks ==> Moved(tasks, c, p)[x].reason == tasks[x].reason
    ensures forall x :: x in tasks && x != ROOT && x != p ==> Moved(tasks, c, p)[x].children == tasks[x].children
  {}

  lemma StillResumable(tasks: Tasks, tasks': Tasks, x: Id)
    requires Resumable(tasks, x) && x in tasks'
    requires tasks'[x].reason == tasks[x].reason && tasks'[x].children == tasks[x].children
    ensures Resumable(tasks', x)
  {}

  // ----- destruction

  /** The identities in use are those given out so far. */
  ghost predicate AllBelow(tasks: Tasks, next: Id) {
    forall t :: t in tasks ==> t < next
  }

  /** Between calls no task is half destroyed. */
  ghost predicate NoneDestroyed(tasks: Tasks) {
    forall t :: t in tasks ==> tasks[t].reason != Destroyed
  }

  /** The strict descendants of t are gone from the tasks, the events and the queue; all
      other tasks but t are as they were. */
  ghost predicate Pruned(tasks: Tasks, tasks': Tasks, t: Id, gone: set<Id>) {
    && t in tasks && t !in gone && gone <= tasks.Keys && ROOT !in gone
    && tasks'.Keys == tasks.Keys - gone
    && (forall x :: x in tasks' && x != t ==> tasks'[x] == tasks[x])
    && (forall x :: x in gone ==> Inside(tasks[x].children, gone) && tasks[x].parent in gone + {t})
  }

  lemma StruckTwice(q0: Queue, q1: Queue, q2: Queue, C: set<Id>, D: set<Id>)
    requires StruckOut(q0, q1, C) && StruckOut(q1, q2, D)
    ensures StruckOut(q0, q2, C + D)
  {}

  lemma StruckOk(tasks: Tasks, queue: Queue, queue': Queue, D: set<Id>)
    requires QueueOk(tasks, queue) && StruckOut(queue, queue', D)
    ensures QueueOk(tasks, queue') && forall x :: x in D ==> !InQueue(queue', x)
    ensures forall x :: InQueue(queue', x) ==> InQueue(queue, x)
  {}

  /** Deleting an unlinked, childless task keeps everything valid. */
  lemma DeletedOk(tasks: Tasks, rank: Rank, single: map<nat, Waiter>, multi: map<nat, seq<Id>>, queue: Queue, t: Id)
    requires Tree(tasks, rank) && Links(tasks, single, multi) && QueueOk(tasks, queue)
    requires t in tasks && t != ROOT && tasks[t].children == [] && tasks[t].reason == Destroyed
    ensures tasks[t].parent in tasks
    ensures var tasks' := Deleted(tasks, t); Tree(tasks', rank) && Links(tasks', single, multi) && QueueOk(tasks', queue)
  {
    hide Links, Tree, QueueOk, Deleted, Resumable;
    DeletedTree(tasks, rank, t);
    DeletedKeys(tasks, t);
    var tasks' := Deleted(tasks, t);
    LinksFrame(tasks, tasks', single, multi);
    forall x | InQueue(queue, x)
      ensures Resumable(tasks', x)
    {
      QueueAt(tasks, queue, x);
      NotQueued(tasks, queue, t);
      if x == tasks[t].parent {
        DeletedParent(tasks, rank, t);
      }
      StillInTasks(tasks, x);
      StillResumable(tasks, tasks', x);
    }
    QueueFrame(tasks, tasks', queue);
  }

  lemma StillInTasks(tasks: Tasks, x: Id)
    requires Resumable(tasks, x)
    ensures x in tasks
  {}

  lemma DeletedParent(tasks: Tasks, rank: Rank, t: Id)
    requires Tree(tasks, rank) && t in tasks && t != ROOT && tasks[t].parent in tasks
    ensures !Resumable(tasks, tasks[t].parent)
  {
    TreeAt(tasks, rank, t);
  }

  /** The children of t before number i are gone with all their descendants. */
  ghost predicate Destroying(tasks: Tasks, tasks': Tasks, rank: Rank, t: Id, i: nat, gone: set<Id>) {
    && Pruned(tasks, tasks', t, gone) && Below(rank, gone, t)
    && i <= |tasks[t].children| && tasks'[t] == tasks[t].(children := tasks[t].children[i..])
    && Inside(tasks[t].children[..i], gone)
  }

  ghost predicate Below(rank: Rank, gone: set<Id>, t: Id) {
    t in rank && forall x :: x in gone ==> x in rank && rank[x] < rank[t]
  }

  lemma DestroyedChild(tasks: Tasks, was: Tasks, mid: Tasks, rank: Rank, t: Id, i: nat, gone: set<Id>, c: Id, g: set<Id>)
    requires Tree(was, rank) && Destroying(tasks, was, rank, t, i, gone) && i < |tasks[t].children| && c == tasks[t].children[i]
    requires c in was && Pruned(was, mid, c, g) && Below(rank, g, c) && Inside(was[c].children, g)
    requires was[c].parent == t && c != t && c != ROOT && c in rank && t in rank && rank[c] < rank[t]
    requires t in was && Distinct(was[t].children) && c in mid && mid[c].parent == was[c].parent
    ensures t in mid && mid[c].parent == t && t in Deleted(mid, c)
    ensures Destroying(tasks, Deleted(mid, c), rank, t, i + 1, gone + g + {c})
  {
    hide Tree, Pruned, Inside, Distinct, Below, Deleted;
    PrunedFacts(was, mid, rank, c, g, t);
    DestroyedPruned(tasks, was, mid, rank, t, gone, c, g);
    DestroyedKids(tasks, was, mid, t, i, gone, c, g);
    BelowMore(rank, gone, t, c, g);
  }

  lemma PrunedFacts(was: Tasks, mid: Tasks, rank: Rank, c: Id, g: set<Id>, t: Id)
    requires Pruned(was, mid, c, g) && Below(rank, g, c) && t in was && t != c && t in rank && c in rank && rank[c] < rank[t]
    requires c in mid && mid[c].parent == was[c].parent
    ensures t !in g && t in mid && mid[t] == was[t]
  {}

  lemma BelowMore(rank: Rank, gone: set<Id>, t: Id, c: Id, g: set<Id>)
    requires Below(rank, gone, t) && Below(rank, g, c) && rank[c] < rank[t]
    ensures Below(rank, gone + g + {c}, t)
  {}

  lemma DestroyedKids(tasks: Tasks, was: Tasks, mid: Tasks, t: Id, i: nat, gone: set<Id>, c: Id, g: set<Id>)
    requires t in tasks && t in was && t in mid && c in mid && mid[c].parent == t && c != t && mid[t] == was[t]
    requires i < |tasks[t].children| && c == tasks[t].children[i] && Distinct(was[t].children)
    requires was[t] == tasks[t].(children := tasks[t].children[i..]) && Inside(tasks[t].children[..i], gone)
    ensures t in Deleted(mid, c) && Deleted(mid, c)[t] == tasks[t].(children := tasks[t].children[i + 1..])
    ensures Inside(tasks[t].children[..i + 1], gone + g + {c})
  {
    DeletedKeys(mid, c);
    EraseIsWithout(was[t].children, 0);
    hide Deleted, Distinct;
    var kids := tasks[t].children;
    assert kids[..i + 1] == kids[..i] + [c];
    assert EraseAt(was[t].children, 0) == kids[i + 1..];
  }

  lemma DestroyedPruned(tasks: Tasks, was: Tasks, mid: Tasks, rank: Rank, t: Id, gone: set<Id>, c: Id, g: set<Id>)
    requires Pruned(tasks, was, t, gone) && Pruned(was, mid, c, g) && Inside(was[c].children, g) && c != ROOT
    requires c != t && t in was && t !in g && was[c].parent == t && t in mid && mid[c].parent == t
    ensures Pruned(tasks, Deleted(mid, c), t, gone + g + {c})
  {
    DeletedKeys(mid, c);
    var all := gone + g + {c};
    forall x | x in all
      ensures Inside(tasks[x].children, all) && tasks[x].parent in all + {t}
    {
      if x in gone {
        assert Inside(tasks[x].children, gone);
      } else {
        assert tasks[x] == was[x];
        assert x in g ==> Inside(was[x].children, g) && was[x].parent in g + {c};
      }
    }
  }

  lemma NotStruck(queue: Queue, t: Id)
    requires !InQueue(queue, t)
    ensures StruckOut(queue, queue, {t})
  {}

  lemma NoneStruck(queue: Queue)
    ensures StruckOut(queue, queue, {})
  {}

  lemma DestroyStart(tasks: Tasks, rank: Rank, t: Id)
    requires Tree(tasks, rank) && t in tasks && t != ROOT
    ensures Destroying(tasks, tasks, rank, t, 0, {})
  {
    TreeAt(tasks, rank, t);
  }

  lemma DestroyNext(tasks: Tasks, was: Tasks, rank: Rank, t: Id, i: nat, gone: set<Id>)
    requires Tree(was, rank) && Destroying(tasks, was, rank, t, i, gone) && |was[t].children| > 0
    ensures i < |tasks[t].children| && was[t].children[0] == tasks[t].children[i] && Distinct(was[t].children)
    ensures var c := was[t].children[0];
            c in was && c != ROOT && c != t && was[c].parent == t && c in rank && t in rank && rank[c] < rank[t]
  {
    TreeAt(was, rank, t);
    TreeAt(was, rank, was[t].children[0]);
  }

  lemma DestroyEnd(tasks: Tasks, tasks': Tasks, rank: Rank, t: Id, i: nat, gone: set<Id>)
    requires Destroying(tasks, tasks', rank, t, i, gone) && tasks'[t].children == []
    ensures Pruned(tasks, tasks', t, gone) && Below(rank, gone, t) && Inside(tasks[t].children, gone)
    ensures tasks'[t] == tasks[t].(children := [])
  {
    var kids := tasks[t].children;
    assert i == |kids| by {
      assert |kids[i..]| == 0;
    }
    assert kids[..i] == kids;
  }

  lemma PrunedReason(tasks: Tasks, was: Tasks, t: Id, gone: set<Id>, tasks': Tasks)
    requires Pruned(tasks, was, t, gone) && t in was && tasks' == was[t := was[t].(reason := Destroyed)]
    ensures Pruned(tasks, tasks', t, gone)
  {}

  lemma DeletedClean(was: Tasks, mid: Tasks, c: Id, g: set<Id>)
    requires NoneDestroyed(was) && Pruned(was, mid, c, g) && c in mid && mid[c].parent in mid
    ensures NoneDestroyed(Deleted(mid, c))
  {
    DeletedKeys(mid, c);
  }

  /** Task t left with its whole subtree D, and its parent's children are one fewer. */
  ghost predicate Removed(tasks: Tasks, tasks': Tasks, t: Id, D: set<Id>) {
    && IsSubtree(tasks, t, D) && tasks[t].parent in tasks && tasks[t].parent !in D
    && tasks'.Keys == tasks.Keys - D
    && forall x :: x in tasks' ==>
         tasks'[x] == if x == tasks[t].parent then tasks[x].(children := Without(tasks[x].children, {t})) else tasks[x]
  }

  lemma RemovedIs(tasks: Tasks, mid: Tasks, rank: Rank, t: Id, gone: set<Id>)
    requires Tree(tasks, rank) && t in tasks && t != ROOT && Pruned(tasks, mid, t, gone) && Below(rank, gone, t)
    requires Inside(tasks[t].children, gone) && t in mid && mid[t].parent == tasks[t].parent
    ensures mid[t].parent in mid && Removed(tasks, Deleted(mid, t), t, gone + {t})
  {
    hide Tree, IsSubtree, Without, Deleted, Inside;
    TreeAt(tasks, rank, t);
    PrunedSubtree(tasks, mid, t, gone);
    DeletedKeys(mid, t);
    RemovedParent(rank, gone, t, tasks[t].parent);
  }

  lemma RemovedParent(rank: Rank, gone: set<Id>, t: Id, p: Id)
    requires Below(rank, gone, t) && p in rank && rank[t] < rank[p]
    ensures p !in gone + {t}
  {}

  lemma PrunedSubtree(tasks: Tasks, mid: Tasks, t: Id, gone: set<Id>)
    requires Pruned(tasks, mid, t, gone) && Inside(tasks[t].children, gone)
    ensures IsSubtree(tasks, t, gone + {t})
  {
    forall x | x in gone + {t}
      ensures Inside(tasks[x].children, gone + {t})
    {
      assert x in gone ==> Inside(tasks[x].children, gone);
    }
  }

  /** Queue slots are emptied only by the death of their task, and the dead stay dead. */
  ghost predicate Progress(tasks: Tasks, queue: Queue, next: Id, tasks': Tasks, queue': Queue, next': Id) {
    && next <= next' && |queue'| == |queue|
    && (forall x :: x < next && x in tasks' ==> x in tasks)
    && (forall i :: 0 <= i < |queue| ==>
          queue'[i] == queue[i] || (queue[i].Some? && queue'[i].None? && queue[i].value !in tasks'))
  }

  lemma ProgressTwice(t0: Tasks, q0: Queue, n0: Id, t1: Tasks, q1: Queue, n1: Id, t2: Tasks, q2: Queue, n2: Id)
    requires Progress(t0, q0, n0, t1, q1, n1) && Progress(t1, q1, n1, t2, q2, n2)
    requires forall i :: 0 <= i < |q0| && q0[i].Some? ==> q0[i].value < n0
    ensures Progress(t0, q0, n0, t2, q2, n2)
  {}

  lemma RemovedProgress(tasks: Tasks, queue: Queue, next: Id, tasks': Tasks, queue': Queue, t: Id, D: set<Id>)
    requires Removed(tasks, tasks', t, D) && StruckOut(queue, queue', D)
    ensures Progress(tasks, queue, next, tasks', queue', next)
  {}

  lemma SameProgress(tasks: Tasks, tasks': Tasks, queue: Queue, next: Id)
    requires tasks'.Keys == tasks.Keys
    ensures Progress(tasks, queue, next, tasks', queue, next)
  {}

  lemma PushProgress(tasks: Tasks, p: Id, queue: Queue, next: Id)
    requires p in tasks && AllBelow(tasks, next)
    ensures Progress(tasks, queue, next, Pushed(tasks, p, next), queue, next + 1)
  {}

  /** What a resumed task does before it suspends or finishes. */
  datatype Action =
    | Push(independent: bool, granted: bool)
    | Join(child: Id)
    | Cancel(task: Id)
    | Sleep(until: Time)
    | AwaitExt(ext: nat, deadline: Time)
    | AwaitSingle(single: nat, deadline: Time)
    | AwaitMulti(multi: nat, deadline: Time)
    | WakeSingle(event: nat)
    | WakeMulti(event: nat, n: nat)
    | Yield

  /** Everything the runner's operations change. */
  datatype World = World(tasks: Tasks, single: map<nat, Waiter>, multi: map<nat, seq<Id>>, queue: Queue, next: Id)

  ghost predicate Above(tasks: Tasks, t: Id, x: Id) {
    exists D :: IsSubtree(tasks, t, D) && x in D
  }

  lemma AboveIsUnder(tasks: Tasks, rank: Rank, t: Id, x: Id)
    requires Tree(tasks, rank) && t in tasks && x in tasks
    ensures Above(tasks, t, x) <==> Under(tasks, rank, x, t)
  {
    var D := SubtreeExists(tasks, rank, t);
    hide Tree, IsSubtree, Under;
    if Above(tasks, t, x) {
      var E :| IsSubtree(tasks, t, E) && x in E;
      SubtreeIsUnder(tasks, rank, t, E, x);
    }
  }

  ghost predicate RemovedFrom(w: World, v: World, t: Id) {
    v.next == w.next
    && exists D :: (Removed(w.tasks, v.tasks, t, D) && EventsWithout(w.single, w.multi, v.single, v.multi, D)
                    && StruckOut(w.queue, v.queue, D))
  }

  /** The task x waits for r. */
  function Suspended(tasks: Tasks, x: Id, r: Reason): Tasks
    requires x in tasks
  {
    tasks[x := tasks[x].(reason := r)]
  }

  function Notified(tasks: Tasks, w: Waiter): Tasks {
    if w.Waiting? && w.task in tasks then tasks[w.task := tasks[w.task].(reason := Runnable, result := Ok)] else tasks
  }

  ghost predicate SingleSet(single: map<nat, Waiter>, single': map<nat, Waiter>, e: nat, w: Waiter) {
    SingleAt(single', e) == w && forall d :: d != e ==> SingleAt(single', d) == SingleAt(single, d)
  }

  ghost predicate MultiSet(multi: map<nat, seq<Id>>, multi': map<nat, seq<Id>>, e: nat, q: seq<Id>) {
    MultiAt(multi', e) == q && forall d :: d != e ==> MultiAt(multi', d) == MultiAt(multi, d)
  }

  /** What action a of task x makes of the world, and whether it suspends the task. */
  ghost predicate Did(a: Action, w: World, v: World, x: Id, suspended: bool)
    requires x in w.tasks && ROOT in w.tasks
  {
    match a
    case Push(independent, granted) =>
      !suspended
      && v == if granted then w.(tasks := Pushed(w.tasks, if independent then ROOT else x, w.next), next := w.next + 1) else w
    case Join(c) =>
      if c == ROOT || c !in w.tasks || Above(w.tasks, c, x) then !suspended && v == w
      else suspended && v == if w.tasks[c].parent == ROOT then w.(tasks := Moved(w.tasks, c, x)) else w
    case Cancel(t) =>
      !suspended && if t == ROOT || t !in w.tasks || Above(w.tasks, t, x) then v == w else RemovedFrom(w, v, t)
    case Sleep(until) => suspended && v == w.(tasks := Suspended(w.tasks, x, ByTimer(until)))
    case AwaitExt(e, d) => suspended && v == w.(tasks := Suspended(w.tasks, x, ByExt(e, d)))
    case AwaitSingle(e, d) =>
      if SingleAt(w.single, e).Waiting? then !suspended && v == w
      else
        && v == w.(tasks := v.tasks, single := v.single) && (suspended <==> SingleAt(w.single, e) == Nobody)
        && v.tasks == (if suspended then Suspended(w.tasks, x, BySingle(e, d)) else w.tasks[x := w.tasks[x].(result := Ok)])
        && SingleSet(w.single, v.single, e, if suspended then Waiting(x) else Nobody)
    case AwaitMulti(e, d) =>
      && suspended && v == w.(tasks := Suspended(w.tasks, x, ByMulti(e, d)), multi := v.multi)
      && MultiSet(w.multi, v.multi, e, MultiAt(w.multi, e) + [x])
    case WakeSingle(e) =>
      && !suspended && v == w.(tasks := Notified(w.tasks, SingleAt(w.single, e)), single := v.single)
      && SingleSet(w.single, v.single, e, if SingleAt(w.single, e).Waiting? then Nobody else Early)
    case WakeMulti(e, n) =>
      var q := MultiAt(w.multi, e);
      var k := if n == 0 || n > |q| then |q| else n;
      && !suspended && v == w.(tasks := v.tasks, multi := v.multi)
      && WokenFirst(w.tasks, v.tasks, q[..k]) && MultiSet(w.multi, v.multi, e, q[k..])
    case Yield => suspended && v == w
  }

  /** A resumed task x acts through the states of `trace`, one action of its script after the
      other, up to the first that suspends it (`blocked`) or to the end. */
  ghost predicate Acts(script: seq<Action>, trace: seq<World>, x: Id, blocked: bool) {
    && 1 <= |trace| <= |script| + 1 && (blocked ==> |trace| >= 2)
    && forall k :: 0 <= k < |trace| - 1 ==>
         x in trace[k].tasks && ROOT in trace[k].tasks
         && Did(script[k], trace[k], trace[k + 1], x, blocked && k == |trace| - 2)
  }

  /** From w to v task x acts; it is removed unless an action suspended it before. */
  ghost predicate TaskRan(w: World, v: World, x: Id, script: seq<Action>) {
    exists trace, blocked ::
      (Acts(script, trace, x, blocked) && trace[0] == w
       && if blocked then trace[|trace| - 1] == v
          else |trace| == |script| + 1 && RemovedFrom(trace[|trace| - 1], v, x))
  }

  function ScriptAt(scripts: seq<seq<Action>>, i: nat): seq<Action> { if i < |scripts| then scripts[i] else [] }

  /** Slot i of the queue is served: the task in it acts, unless it was struck out. */
  ghost predicate SlotRan(w: World, v: World, i: nat, script: seq<Action>)
    requires i < |w.queue|
  {
    match w.queue[i]
    case None => v == w
    case Some(x) => TaskRan(w.(queue := w.queue[i := None]), v, x, script)
  }

  /** The slots of the queue are served one after the other, through the states ws. */
  ghost predicate AllRan(ws: seq<World>, scripts: seq<seq<Action>>) {
    && |ws| >= 1 && |ws| == |ws[0].queue| + 1
    && forall i :: 0 <= i < |ws| - 1 ==> i < |ws[i].queue| && SlotRan(ws[i], ws[i + 1], i, ScriptAt(scripts, i))
  }

  ghost predicate RanTo(ws: seq<World>, scripts: seq<seq<Action>>, n: nat) {
    && |ws| == n + 1
    && forall i :: 0 <= i < n ==> i < |ws[i].queue| && SlotRan(ws[i], ws[i + 1], i, ScriptAt(scripts, i))
  }

  lemma RanNext(ws: seq<World>, scripts: seq<seq<Action>>, n: nat, v: World)
    requires RanTo(ws, scripts, n) && n < |ws[n].queue| && SlotRan(ws[n], v, n, ScriptAt(scripts, n))
    ensures RanTo(ws + [v], scripts, n + 1)
  {
    hide SlotRan;
    var vs := ws + [v];
    forall i | 0 <= i < n + 1
      ensures i < |vs[i].queue| && SlotRan(vs[i], vs[i + 1], i, ScriptAt(scripts, i))
    {
      if i < n {
        assert vs[i + 1] == ws[i + 1];
      }
    }
  }

  lemma ActsStart(script: seq<Action>, w: World, x: Id)
    ensures Acts(script, [w], x, false)
  {}

  lemma ActsNext(script: seq<Action>, trace: seq<World>, x: Id, v: World, suspended: bool)
    requires Acts(script, trace, x, false) && |trace| <= |script|
    requires var w := trace[|trace| - 1];
             x in w.tasks && ROOT in w.tasks && Did(script[|trace| - 1], w, v, x, suspended)
    ensures Acts(script, trace + [v], x, suspended)
  {
    hide Did;
    var t := trace + [v];
    forall k | 0 <= k < |t| - 1
      ensures x in t[k].tasks && ROOT in t[k].tasks && Did(script[k], t[k], t[k + 1], x, suspended && k == |t| - 2)
    {
      if k < |trace| - 1 {
        assert t[k + 1] == trace[k + 1];
        assert !(suspended && k == |t| - 2);
      }
    }
  }

  // ----- gathering

  predicate Leaf(tasks: Tasks, x: Id) {
    x in tasks && tasks[x].children == []
  }

  /** The leaves of the subtree of t, in order. */
  ghost function Leaves(tasks: Tasks, rank: Rank, t: Id): seq<Id>
    requires Tree(tasks, rank) && t in tasks
    decreases rank[t], |tasks[t].children| + 1
  {
    if tasks[t].children == [] then [t] else LeavesOf(tasks, rank, t, |tasks[t].children|)
  }

  /** The leaves under the first n children of t. */
  ghost function LeavesOf(tasks: Tasks, rank: Rank, t: Id, n: nat): seq<Id>
    requires Tree(tasks, rank) && t in tasks && n <= |tasks[t].children|
    decreases rank[t], n
  {
    if n == 0 then []
    else
      ChildAt(tasks, rank, t, n - 1);
      LeavesOf(tasks, rank, t, n - 1) + Leaves(tasks, rank, tasks[t].children[n - 1])
  }

  lemma LeavesStep(tasks: Tasks, rank: Rank, t: Id, n: nat)
    requires Tree(tasks, rank) && t in tasks && 0 < n <= |tasks[t].children|
    ensures tasks[t].children[n - 1] in tasks
    ensures LeavesOf(tasks, rank, t, n) == LeavesOf(tasks, rank, t, n - 1) + Leaves(tasks, rank, tasks[t].children[n - 1])
  {
    ChildAt(tasks, rank, t, n - 1);
  }

  lemma NoLeaves(tasks: Tasks, rank: Rank, t: Id)
    requires Tree(tasks, rank) && t in tasks
    ensures LeavesOf(tasks, rank, t, 0) == []
  {}

  lemma ChildAt(tasks: Tasks, rank: Rank, t: Id, i: nat)
    requires Tree(tasks, rank) && t in tasks && i < |tasks[t].children|
    ensures var c := tasks[t].children[i];
            c in tasks && c != ROOT && tasks[c].parent == t && c in rank && t in rank && rank[c] < rank[t]
  {
    TreeAt(tasks, rank, t);
    TreeAt(tasks, rank, tasks[t].children[i]);
  }

  lemma {:induction false} UnderParent(tasks: Tasks, rank: Rank, x: Id, t: Id)
    requires Tree(tasks, rank) && x in tasks && t in tasks && t != ROOT && Under(tasks, rank, x, t)
    ensures tasks[t].parent in tasks && Under(tasks, rank, x, tasks[t].parent)
    decreases rank[ROOT] - rank[x]
  {
    TreeAt(tasks, rank, x);
    TreeAt(tasks, rank, t);
    if x != t {
      UnderParent(tasks, rank, tasks[x].parent, t);
    }
  }

  /** Whatever sits strictly under t sits under one of its children. */
  lemma {:induction false} UnderChild(tasks: Tasks, rank: Rank, x: Id, t: Id) returns (i: nat)
    requires Tree(tasks, rank) && x in tasks && t in tasks && x != t && Under(tasks, rank, x, t)
    ensures i < |tasks[t].children| && tasks[t].children[i] in tasks && Under(tasks, rank, x, tasks[t].children[i])
    decreases rank[ROOT] - rank[x]
  {
    TreeAt(tasks, rank, x);
    var p := tasks[x].parent;
    if p == t {
      i :| 0 <= i < |tasks[t].children| && tasks[t].children[i] == x;
    } else {
      i := UnderChild(tasks, rank, p, t);
    }
  }

  /** Exactly the leaves of the subtree are listed. */
  lemma {:induction false} LeavesIff(tasks: Tasks, rank: Rank, t: Id, x: Id)
    requires Tree(tasks, rank) && t in tasks && x in tasks
    ensures x in Leaves(tasks, rank, t) <==> Leaf(tasks, x) && Under(tasks, rank, x, t)
    decreases rank[t], |tasks[t].children| + 1
  {
    if tasks[t].children == [] {
      if x != t && Under(tasks, rank, x, t) {
        var i := UnderChild(tasks, rank, x, t);
      }
    } else {
      var n := |tasks[t].children|;
      LeavesOfIff(tasks, rank, t, n, x);
      if Leaf(tasks, x) && Under(tasks, rank, x, t) {
        var i := UnderChild(tasks, rank, x, t);
      }
    }
  }

  lemma {:induction false} LeavesOfIff(tasks: Tasks, rank: Rank, t: Id, n: nat, x: Id)
    requires Tree(tasks, rank) && t in tasks && x in tasks && n <= |tasks[t].children|
    ensures forall i :: 0 <= i < n && tasks[t].children[i] in tasks && Leaf(tasks, x) && Under(tasks, rank, x, tasks[t].children[i]) ==>
              x in LeavesOf(tasks, rank, t, n)
    ensures x in LeavesOf(tasks, rank, t, n) ==>
              Leaf(tasks, x) && Under(tasks, rank, x, t)
              && exists i :: 0 <= i < n && tasks[t].children[i] in tasks && Under(tasks, rank, x, tasks[t].children[i])
    decreases rank[t], n
  {
    hide Tree, Under, Leaves, LeavesOf, Distinct;
    if n > 0 { LeavesStep(tasks, rank, t, n); } else { NoLeaves(tasks, rank, t); }
    if n > 0 {
      ChildAt(tasks, rank, t, n - 1);
      var c := tasks[t].children[n - 1];
      LeavesOfIff(tasks, rank, t, n - 1, x);
      LeavesIff(tasks, rank, c, x);
      if Under(tasks, rank, x, c) {
        UnderParent(tasks, rank, x, c);
      }
    }
  }

  lemma {:induction false} LeavesDistinct(tasks: Tasks, rank: Rank, t: Id)
    requires Tree(tasks, rank) && t in tasks
    ensures Distinct(Leaves(tasks, rank, t))
    decreases rank[t], |tasks[t].children| + 1
  {
    if tasks[t].children != [] {
      LeavesOfDistinct(tasks, rank, t, |tasks[t].children|);
    }
  }

  lemma {:induction false} LeavesOfDistinct(tasks: Tasks, rank: Rank, t: Id, n: nat)
    requires Tree(tasks, rank) && t in tasks && n <= |tasks[t].children|
    ensures Distinct(LeavesOf(tasks, rank, t, n))
    decreases rank[t], n
  {
    hide Tree, Under, Leaves, LeavesOf;
    if n > 0 { LeavesStep(tasks, rank, t, n); } else { NoLeaves(tasks, rank, t); }
    if n > 0 {
      ChildAt(tasks, rank, t, n - 1);
      LeavesOfDistinct(tasks, rank, t, n - 1);
      LeavesDistinct(tasks, rank, tasks[t].children[n - 1]);
      LeavesApart(tasks, rank, t, n - 1);
      DistinctConcat(LeavesOf(tasks, rank, t, n - 1), Leaves(tasks, rank, tasks[t].children[n - 1]));
    }
  }

  lemma DistinctConcat(p: seq<Id>, q: seq<Id>)
    requires Distinct(p) && Distinct(q) && forall x :: x in p ==> x !in q
    ensures Distinct(p + q)
  {
    forall i, j | 0 <= i < j < |p + q|
      ensures (p + q)[i] != (p + q)[j]
    {
      if i < |p| <= j {
        assert (p + q)[i] in p && (p + q)[j] == q[j - |p|];
      }
    }
  }

  /** The leaves under child n are not among those of the children before it. */
  lemma LeavesApart(tasks: Tasks, rank: Rank, t: Id, n: nat)
    requires Tree(tasks, rank) && t in tasks && n < |tasks[t].children|
    ensures tasks[t].children[n] in tasks
    ensures forall x :: x in LeavesOf(tasks, rank, t, n) ==> x in tasks && x !in Leaves(tasks, rank, tasks[t].children[n])
  {
    ChildAt(tasks, rank, t, n);
    var d := tasks[t].children[n];
    LeavesOfIn(tasks, rank, t, n);
    forall x | x in LeavesOf(tasks, rank, t, n)
      ensures x !in Leaves(tasks, rank, d)
    {
      LeavesOfIff(tasks, rank, t, n, x);
      var i :| 0 <= i < n && tasks[t].children[i] in tasks && Under(tasks, rank, x, tasks[t].children[i]);
      var c := tasks[t].children[i];
      ChildAt(tasks, rank, t, i);
      TreeAt(tasks, rank, t);
      var C := SubtreeExists(tasks, rank, c);
      var D := SubtreeExists(tasks, rank, d);
      SubtreesApart(tasks, rank, c, C, d, D, x);
      LeavesIff(tasks, rank, d, x);
    }
  }

  lemma {:induction false} LeavesIn(tasks: Tasks, rank: Rank, t: Id)
    requires Tree(tasks, rank) && t in tasks
    ensures forall x :: x in Leaves(tasks, rank, t) ==> x in tasks
    decreases rank[t], |tasks[t].children| + 1
  {
    LeavesOfIn(tasks, rank, t, |tasks[t].children|);
  }

  lemma {:induction false} LeavesOfIn(tasks: Tasks, rank: Rank, t: Id, n: nat)
    requires Tree(tasks, rank) && t in tasks && n <= |tasks[t].children|
    ensures forall x :: x in LeavesOf(tasks, rank, t, n) ==> x in tasks
    decreases rank[t], n
  {
    hide Tree, Under, Leaves, LeavesOf, Distinct;
    if n > 0 { LeavesStep(tasks, rank, t, n); } else { NoLeaves(tasks, rank, t); }
    if n > 0 {
      ChildAt(tasks, rank, t, n - 1);
      LeavesOfIn(tasks, rank, t, n - 1);
      LeavesIn(tasks, rank, tasks[t].children[n - 1]);
    }
  }

  lemma {:induction false} LeavesFrame(tasks: Tasks, tasks': Tasks, rank: Rank, t: Id)
    requires Tree(tasks, rank) && Tree(tasks', rank) && SameTree(tasks, tasks') && t in tasks
    ensures Leaves(tasks', rank, t) == Leaves(tasks, rank, t)
    decreases rank[t], |tasks[t].children| + 1
  {
    LeavesOfFrame(tasks, tasks', rank, t, |tasks[t].children|);
  }

  lemma {:induction false} LeavesOfFrame(tasks: Tasks, tasks': Tasks, rank: Rank, t: Id, n: nat)
    requires Tree(tasks, rank) && Tree(tasks', rank) && SameTree(tasks, tasks') && t in tasks && n <= |tasks[t].children|
    ensures LeavesOf(tasks', rank, t, n) == LeavesOf(tasks, rank, t, n)
    decreases rank[t], n
  {
    hide Tree, Under, Leaves, LeavesOf, Distinct;
    if n > 0 { LeavesStep(tasks, rank, t, n); } else { NoLeaves(tasks, rank, t); }
    if n > 0 { LeavesStep(tasks', rank, t, n); } else { NoLeaves(tasks', rank, t); }
    if n > 0 {
      ChildAt(tasks, rank, t, n - 1);
      LeavesOfFrame(tasks, tasks', rank, t, n - 1);
      LeavesFrame(tasks, tasks', rank, tasks[t].children[n - 1]);
    }
  }

  /** The task can go on: nothing holds it, its deadline has come, or its device is ready. */
  predicate Due(r: Reason, now: Time, avail: set<nat>) {
    match r
    case Runnable => true
    case ByTimer(d) => d <= now
    case ByExt(x, d) => x in avail || d <= now
    case BySingle(_, d) => d <= now
    case ByMulti(_, d) => d <= now
    case Destroyed => false
  }

  function Deadline(r: Reason): Time {
    match r
    case Runnable => INFINITE
    case Destroyed => INFINITE
    case ByTimer(d) => d
    case ByExt(_, d) => d
    case BySingle(_, d) => d
    case ByMulti(_, d) => d
  }

  /** A due task when it leaves its wait: events that have not notified it timed out. */
  function Woken(task: Task, avail: set<nat>): Task {
    match task.reason
    case ByExt(x, _) => task.(reason := Runnable, result := if x in avail then Ok else TimedOut)
    case BySingle(_, _) => task.(reason := Runnable, result := TimedOut)
    case ByMulti(_, _) => task.(reason := Runnable, result := TimedOut)
    case _ => task.(reason := Runnable)
  }

  /** What becomes of a leaf: nothing, or it can go on and knows how its wait ended. */
  predicate WaitEnds(was: Task, after: Task, now: Time, avail: set<nat>) {
    match was.reason
    case Runnable => after == was
    case ByTimer(d) => after == if now < d then was else was.(reason := Runnable)
    case ByExt(e, d) =>
      if e in avail then after == was.(reason := Runnable, result := Ok)
      else after == if now < d then was else was.(reason := Runnable, result := TimedOut)
    case BySingle(_, d) => after == if now < d then was else was.(reason := Runnable, result := TimedOut)
    case ByMulti(_, d) => after == if now < d then was else was.(reason := Runnable, result := TimedOut)
    case Destroyed => after == was
  }

  predicate DueTask(tasks: Tasks, x: Id, now: Time, avail: set<nat>) {
    x in tasks && Due(tasks[x].reason, now, avail)
  }

  function Min(a: Time, b: Time): Time { if b < a then b else a }

  /** The queue, wake time and polling flag that the leaves L contribute. */
  function Picked(tasks: Tasks, L: seq<Id>, now: Time, avail: set<nat>): Queue {
    if L == [] then []
    else
      var x := L[|L| - 1];
      Picked(tasks, L[..|L| - 1], now, avail) + if DueTask(tasks, x, now, avail) then [Some(x)] else []
  }

  function WakeAt(tasks: Tasks, L: seq<Id>, now: Time, avail: set<nat>, wake: Time): Time {
    if L == [] then wake
    else
      var x, w := L[|L| - 1], WakeAt(tasks, L[..|L| - 1], now, avail, wake);
      if x in tasks && !Due(tasks[x].reason, now, avail) then Min(w, Deadline(tasks[x].reason)) else w
  }

  predicate Polls(tasks: Tasks, x: Id, now: Time, avail: set<nat>) {
    x in tasks && tasks[x].reason.ByExt? && !Due(tasks[x].reason, now, avail)
  }

  datatype Snapshot = Snapshot(
    tasks: Tasks, single: map<nat, Waiter>, multi: map<nat, seq<Id>>, queue: Queue, wake: Time, poll: bool)

  ghost function DueSet(tasks: Tasks, L: seq<Id>, now: Time, avail: set<nat>): set<Id> {
    set x | x in L && DueTask(tasks, x, now, avail)
  }

  ghost predicate TasksGathered(tasks: Tasks, tasks': Tasks, L: seq<Id>, now: Time, avail: set<nat>) {
    && tasks'.Keys == tasks.Keys
    && forall x :: x in tasks ==>
         tasks'[x] == if x in L && DueTask(tasks, x, now, avail) then Woken(tasks[x], avail) else tasks[x]
  }

  /** Gathering over the leaves L: exactly the due ones are woken, queued in order and taken
      off their events; the others contribute to the wake time. */
  ghost predicate Gathered(s: Snapshot, s': Snapshot, L: seq<Id>, now: Time, avail: set<nat>) {
    && TasksGathered(s.tasks, s'.tasks, L, now, avail)
    && s'.queue == s.queue + Picked(s.tasks, L, now, avail)
    && EventsWithout(s.single, s.multi, s'.single, s'.multi, DueSet(s.tasks, L, now, avail))
    && s'.wake == WakeAt(s.tasks, L, now, avail, s.wake)
    && s'.poll == (s.poll || exists x :: x in L && Polls(s.tasks, x, now, avail))
  }

  lemma NothingGathered(s: Snapshot, now: Time, avail: set<nat>)
    ensures Gathered(s, s, [], now, avail)
  {
    NoneOff(s.single, s.multi);
    assert DueSet(s.tasks, [], now, avail) == {};
  }

  lemma GatheredTwice(s0: Snapshot, s1: Snapshot, s2: Snapshot, L: seq<Id>, M: seq<Id>, now: Time, avail: set<nat>)
    requires Gathered(s0, s1, L, now, avail) && Gathered(s1, s2, M, now, avail)
    requires forall x :: x in L ==> x !in M
    ensures Gathered(s0, s2, L + M, now, avail)
  {
    hide EventsWithout, DueTask, Picked, WakeAt, Polls, Woken;
    LaterSame(s0.tasks, s1.tasks, L, M, now, avail);
    PickedConcat(s0.tasks, s1.tasks, L, M, now, avail);
    WakeConcat(s0.tasks, s1.tasks, L, M, now, avail, s0.wake);
    OffTwice(s0.single, s0.multi, s1.single, s1.multi, s2.single, s2.multi,
             DueSet(s0.tasks, L, now, avail), DueSet(s1.tasks, M, now, avail));
    assert DueSet(s0.tasks, L, now, avail) + DueSet(s1.tasks, M, now, avail) == DueSet(s0.tasks, L + M, now, avail);
  }

  lemma LaterSame(t0: Tasks, t1: Tasks, L: seq<Id>, M: seq<Id>, now: Time, avail: set<nat>)
    requires TasksGathered(t0, t1, L, now, avail) && forall x :: x in L ==> x !in M
    ensures forall x :: x in M ==> DueTask(t1, x, now, avail) == DueTask(t0, x, now, avail)
    ensures forall x :: x in M ==> Polls(t1, x, now, avail) == Polls(t0, x, now, avail)
    ensures forall x :: x in M && x in t0 ==> x in t1 && t1[x] == t0[x]
  {}

  lemma {:induction false} PickedConcat(t0: Tasks, t1: Tasks, L: seq<Id>, M: seq<Id>, now: Time, avail: set<nat>)
    requires t1.Keys == t0.Keys && forall x :: x in M && x in t0 ==> t1[x] == t0[x]
    ensures Picked(t0, L + M, now, avail) == Picked(t0, L, now, avail) + Picked(t1, M, now, avail)
  {
    if M == [] {
      assert L + M == L;
    } else {
      hide Due;
      PickedConcat(t0, t1, L, M[..|M| - 1], now, avail);
      assert (L + M)[..|L + M| - 1] == L + M[..|M| - 1];
      assert (L + M)[|L + M| - 1] == M[|M| - 1];
    }
  }

  lemma {:induction false} WakeConcat(t0: Tasks, t1: Tasks, L: seq<Id>, M: seq<Id>, now: Time, avail: set<nat>, wake: Time)
    requires t1.Keys == t0.Keys && forall x :: x in M && x in t0 ==> t1[x] == t0[x]
    ensures WakeAt(t0, L + M, now, avail, wake) == WakeAt(t1, M, now, avail, WakeAt(t0, L, now, avail, wake))
  {
    if M == [] {
      assert L + M == L;
    } else {
      WakeConcat(t0, t1, L, M[..|M| - 1], now, avail, wake);
      assert (L + M)[..|L + M| - 1] == L + M[..|M| - 1];
    }
  }

  lemma {:induction false} PickedItems(tasks: Tasks, L: seq<Id>, now: Time, avail: set<nat>)
    ensures forall x :: Some(x) in Picked(tasks, L, now, avail) <==> x in L && DueTask(tasks, x, now, avail)
    ensures None !in Picked(tasks, L, now, avail)
    ensures (forall x :: x in L ==> !DueTask(tasks, x, now, avail)) <==> Picked(tasks, L, now, avail) == []
  {
    if L != [] {
      PickedItems(tasks, L[..|L| - 1], now, avail);
      assert L == L[..|L| - 1] + [L[|L| - 1]];
      hide DueTask;
    }
  }

  /** The wake time is the earliest deadline among the leaves that stay suspended. */
  lemma {:induction false} WakeIsEarliest(tasks: Tasks, L: seq<Id>, now: Time, avail: set<nat>, wake: Time)
    requires forall x :: x in L ==> x in tasks
    ensures var w := WakeAt(tasks, L, now, avail, wake);
            && w <= wake
            && (forall x :: x in L && !DueTask(tasks, x, now, avail) ==> w <= Deadline(tasks[x].reason))
            && (w == wake || exists x :: x in L && !DueTask(tasks, x, now, avail) && Deadline(tasks[x].reason) == w)
  {
    if L != [] {
      WakeIsEarliest(tasks, L[..|L| - 1], now, avail, wake);
      assert L == L[..|L| - 1] + [L[|L| - 1]];
    }
  }

  class Runner {
    var tasks: Tasks
    var single: map<nat, Waiter>
    var multi: map<nat, seq<Id>>
    var queue: Queue
    var current: Id
    var next: Id
    ghost var rank: Rank
    /** Every resumption of a task there ever was, in order. */
    ghost var resumptions: seq<Id>

    ghost function Now(): World
      reads this
    {
      World(tasks, single, multi, queue, next)
    }

    ghost predicate Sound()
      reads this
    {
      Tree(tasks, rank) && Links(tasks, single, multi) && QueueOk(tasks, queue) && AllBelow(tasks, next)
    }

    ghost predicate Valid()
      reads this
    {
      Sound() && NoneDestroyed(tasks)
    }

    /** The current task is alive, not suspended, and out of the queue. */
    ghost predicate Running()
      reads this
    {
      && Valid() && current in tasks && current != ROOT && tasks[current].reason == Runnable
      && !InQueue(queue, current)
    }

    constructor ()
      ensures Valid() && queue == [] && current == ROOT && next == ROOT + 1 && resumptions == []
      ensures tasks == map[ROOT := Task(ROOT, [], Runnable, Nothing)]
      ensures forall e :: SingleAt(single, e) == Nobody && MultiAt(multi, e) == []
    {
      tasks := map[ROOT := Task(ROOT, [], Runnable, Nothing)];
      single := map[];
      multi := map[];
      queue := [];
      current := ROOT;
      rank := map[ROOT := 0];
      next := ROOT + 1;
      resumptions := [];
    }

    /** A new task under the root or the current task, unless its allocation is not granted.
        Outside any task the current task is the root. */
    method PushTask(independent: bool, granted: bool) returns (id: Option<Id>)
      requires Valid() && (independent || current == ROOT || Running())
      modifies this`tasks, this`rank, this`next
      ensures Valid() && (old(Running()) ==> Running()) && id == if granted then Some(old(next)) else None
      ensures granted ==>
        var p := if independent then ROOT else current;
        p in old(tasks) && old(next) !in old(tasks) && next == old(next) + 1 && tasks == Pushed(old(tasks), p, old(next))
      ensures granted ==>
        var p, t := if independent then ROOT else current, old(next);
        && tasks.Keys == old(tasks).Keys + {t} && tasks[t] == Task(p, [], Runnable, Nothing)
        && tasks[p] == old(tasks)[p].(children := old(tasks)[p].children + [t])
        && forall x :: x in old(tasks) && x != p ==> tasks[x] == old(tasks)[x]
      ensures !granted ==> tasks == old(tasks) && next == old(next)
      ensures Progress(old(tasks), queue, old(next), tasks, queue, next)
    {
      hide Tree, Links, QueueOk, Pushed, Progress, InQueue;
      if !granted {
        SameProgress(tasks, tasks, queue, next);
        return None;
      }
      var t := next;
      var parent := if independent then ROOT else current;
      RootNotQueued(tasks, queue);
      PushedOk(parent, t);
      PushProgress(tasks, parent, queue, next);
      PushedIs(tasks, parent, t);
      tasks := tasks[parent := tasks[parent].(children := tasks[parent].children + [t])];
      tasks := tasks[t := Task(parent, [], Runnable, Nothing)];
      rank := PushedRank(rank, t);
      next := next + 1;
      return Some(t);
    }

    lemma PushedOk(p: Id, t: Id)
      requires Valid() && (p == ROOT || p in tasks) && !InQueue(queue, p) && t !in tasks
      ensures p in tasks
      ensures Tree(Pushed(tasks, p, t), PushedRank(rank, t))
      ensures Links(Pushed(tasks, p, t), single, multi) && QueueOk(Pushed(tasks, p, t), queue)
      ensures Pushed(tasks, p, t).Keys == tasks.Keys + {t}
      ensures current in tasks ==> Pushed(tasks, p, t)[current].reason == tasks[current].reason
      ensures NoneDestroyed(Pushed(tasks, p, t))
    {
      hide Links, Tree, QueueOk, Pushed, Resumable;
      RootIn(tasks, rank);
      PushedTree(tasks, rank, p, t);
      PushedKeys(tasks, p, t);
      PushedReasons(tasks, p, t);
      LinksFrame(tasks, Pushed(tasks, p, t), single, multi);
      forall x | InQueue(queue, x)
        ensures Resumable(Pushed(tasks, p, t), x)
      {
        QueueAt(tasks, queue, x);
        PushedResumable(tasks, p, t, x);
      }
      QueueFrame(tasks, Pushed(tasks, p, t), queue);
    }

    method Delay(until: Time)
      requires Running()
      modifies this`tasks
      ensures Valid() && tasks == old(tasks)[current := old(tasks)[current].(reason := ByTimer(until))]
    {
      hide Tree, Links, QueueOk;
      SuspendOk(tasks, rank, single, multi, queue, current, ByTimer(until), single, multi);
      tasks := tasks[current := tasks[current].(reason := ByTimer(until))];
    }

    method WaitExt(ext: nat, deadline: Time)
      requires Running()
      modifies this`tasks
      ensures Valid() && tasks == old(tasks)[current := old(tasks)[current].(reason := ByExt(ext, deadline))]
    {
      hide Tree, Links, QueueOk;
      SuspendOk(tasks, rank, single, multi, queue, current, ByExt(ext, deadline), single, multi);
      tasks := tasks[current := tasks[current].(reason := ByExt(ext, deadline))];
    }

    /** An early notification is consumed and the task goes on; otherwise it waits. */
    method WaitSingle(e: nat, deadline: Time) returns (ready: bool)
      requires Running() && !SingleAt(single, e).Waiting?
      modifies this`tasks, this`single
      ensures Valid() && ready == (SingleAt(old(single), e) == Early)
      ensures ready ==> Running() && SingleAt(single, e) == Nobody
                        && tasks == old(tasks)[current := old(tasks)[current].(result := Ok)]
      ensures !ready ==> SingleAt(single, e) == Waiting(current)
                         && tasks == old(tasks)[current := old(tasks)[current].(reason := BySingle(e, deadline))]
      ensures forall d :: d != e ==> SingleAt(single, d) == SingleAt(old(single), d)
    {
      hide Tree, Links, QueueOk;
      ready := SingleAt(single, e) == Early;
      SingleFrame(tasks, single, multi, e, Nobody);
      single := single[e := Nobody];
      if ready {
        WakeOk(tasks, rank, single, multi, queue, current, tasks[current].(result := Ok));
        tasks := tasks[current := tasks[current].(result := Ok)];
      } else {
        SuspendOk(tasks, rank, single, multi, queue, current, BySingle(e, deadline), single[e := Waiting(current)], multi);
        tasks := tasks[current := tasks[current].(reason := BySingle(e, deadline))];
        single := single[e := Waiting(current)];
      }
    }

    /** Wakes the waiter; without one the notification is remembered. */
    method NotifySingle(e: nat)
      requires Valid()
      modifies this`tasks, this`single
      ensures Valid() && (old(Running()) ==> Running())
      ensures SingleAt(single, e) == if SingleAt(old(single), e).Waiting? then Nobody else Early
      ensures forall d :: d != e ==> SingleAt(single, d) == SingleAt(old(single), d)
      ensures tasks == var w := SingleAt(old(single), e);
              if w.Waiting? && w.task in old(tasks)
              then old(tasks)[w.task := old(tasks)[w.task].(reason := Runnable, result := Ok)] else old(tasks)
    {
      hide Tree, Links, QueueOk;
      var w := SingleAt(single, e);
      if w.Waiting? {
        WaiterIs(tasks, single, multi, e);
        NotQueued(tasks, queue, w.task);
        WakeOk(tasks, rank, single, multi, queue, w.task, tasks[w.task].(reason := Runnable, result := Ok));
        tasks := tasks[w.task := tasks[w.task].(reason := Runnable, result := Ok)];
        single := single[e := Nobody];
      } else {
        SingleFrame(tasks, single, multi, e, Early);
        single := single[e := Early];
      }
    }

    method WaitMulti(e: nat, deadline: Time)
      requires Running()
      modifies this`tasks, this`multi
      ensures Valid() && tasks == old(tasks)[current := old(tasks)[current].(reason := ByMulti(e, deadline))]
      ensures multi == old(multi)[e := MultiAt(old(multi), e) + [current]]
    {
      hide Tree, Links, QueueOk;
      SuspendOk(tasks, rank, single, multi, queue, current, ByMulti(e, deadline), single, multi[e := MultiAt(multi, e) + [current]]);
      tasks := tasks[current := tasks[current].(reason := ByMulti(e, deadline))];
      multi := multi[e := MultiAt(multi, e) + [current]];
    }

    /** Wakes the first n waiters in the order they came; zero or too many means all. */
    method NotifyMulti(e: nat, n: nat)
      requires Valid()
      modifies this`tasks, this`multi
      ensures Valid() && (old(Running()) ==> Running())
      ensures var q := MultiAt(old(multi), e);
              var k := if n == 0 || n > |q| then |q| else n;
              && WokenFirst(old(tasks), tasks, q[..k])
              && forall d :: MultiAt(multi, d) == if d == e then q[k..] else MultiAt(old(multi), d)
    {
      hide Tree, Links, QueueOk;
      var waiters := MultiAt(multi, e);
      WaitersIn(tasks, single, multi, e);
      var k := if n == 0 || n > |waiters| then |waiters| else n;
      ghost var was := tasks;
      for i := 0 to k
        invariant multi == old(multi) && WokenFirst(was, tasks, waiters[..i])
      {
        var t := waiters[i];
        tasks := tasks[t := tasks[t].(reason := Runnable, result := Ok)];
        assert waiters[..i + 1] == waiters[..i] + [t];
      }
      WokenFirstLinks(was, single, multi, e, k, tasks);
      WokenFirstRest(was, rank, queue, waiters[..k], tasks);
      multi := multi[e := waiters[k..]];
    }

    /** Moves a child of the root under the current task, which waits for it by having it as
        a child. A finished task joins at once; somebody else's child is refused. */
    method Join(child: Id) returns (ok: bool)
      requires Running() && child != ROOT && (child in tasks ==> !Under(tasks, rank, current, child))
      modifies this`tasks, this`rank
      ensures Running() && ok == (child in old(tasks) ==> old(tasks)[child].parent == ROOT)
      ensures tasks == if ok && child in old(tasks) && ROOT in old(tasks)
                       then Moved(old(tasks), child, current) else old(tasks)
      ensures ok && child in old(tasks) && ROOT in old(tasks) ==>
        && tasks.Keys == old(tasks).Keys && tasks[child] == old(tasks)[child].(parent := current)
        && tasks[current] == old(tasks)[current].(children := old(tasks)[current].children + [child])
        && (forall i :: 0 <= i < |old(tasks)[ROOT].children| && old(tasks)[ROOT].children[i] == child ==>
              tasks[ROOT] == old(tasks)[ROOT].(children := EraseAt(old(tasks)[ROOT].children, i)))
        && forall x :: x in old(tasks) && x != child && x != current && x != ROOT ==> tasks[x] == old(tasks)[x]
    {
      hide Tree, Links, QueueOk, Moved, Under;
      if child !in tasks {
        return true;
      }
      if tasks[child].parent != ROOT {
        return false;
      }
      ghost var rank' := MovedOk(tasks, rank, single, multi, queue, child, current);
      RootIn(tasks, rank);
      SelfUnder(tasks, rank, child);
      MovedIs(tasks, rank, child, current);
      tasks := Moved(tasks, child, current);
      rank := rank';
      return true;
    }

    /** Takes one task out of the resume queue. */
    method StrikeOut(t: Id)
      requires QueueOk(tasks, queue)
      modifies this`queue
      ensures StruckOut(old(queue), queue, {t})
    {
      var i := 0;
      while i < |queue|
        invariant i <= |queue| && queue == old(queue) && forall k :: 0 <= k < i ==> queue[k] != Some(t)
      {
        if queue[i] == Some(t) {
          queue := queue[i := None];
          break;
        }
        i := i + 1;
      }
    }

    /** Takes the task off the event it waits for, if any. */
    method DropWaiter(t: Id)
      requires Links(tasks, single, multi) && t in tasks
      modifies this`single, this`multi
      ensures single == ClearSingle(old(single), tasks[t].reason) && multi == ClearMulti(old(multi), tasks[t].reason, t)
    {
      var r := tasks[t].reason;
      assert Recorded(r, t, single, multi);
      if r.BySingle? {
        single := single[r.event := Nobody];
      } else if r.ByMulti? {
        assert MultiOk(tasks, multi, r.event);
        var q := multi[r.event];
        var i := 0;
        while q[i] != t
          invariant 0 <= i < |q| && forall k :: 0 <= k < i ==> q[k] != t
          decreases |q| - i
        {
          i := i + 1;
        }
        EraseIsWithout(q, i);
        multi := multi[r.event := EraseAt(q, i)];
      }
    }

    /** The end of a task: off its event, out of the queue, marked. */
    method Unlink(t: Id)
      requires Sound() && t in tasks && !InQueue(queue, current)
      modifies this`tasks, this`single, this`multi, this`queue
      ensures Sound() && tasks == old(tasks)[t := old(tasks)[t].(reason := Destroyed)]
      ensures EventsWithout(old(single), old(multi), single, multi, {t}) && StruckOut(old(queue), queue, {t})
    {
      hide Tree, Links, QueueOk, StruckOut, EventsWithout, ClearSingle, ClearMulti;
      var r := tasks[t].reason;
      OneOff(tasks, single, multi, t);
      ghost var was := queue;
      if r == Runnable && t != current {
        StrikeOut(t);
      } else {
        if r != Runnable { NotQueued(tasks, queue, t); }
        NotStruck(queue, t);
      }
      StruckOk(tasks, was, queue, {t});
      WakeOk(tasks, rank, single, multi, queue, t, tasks[t].(reason := Destroyed));
      DropWaiter(t);
      tasks := tasks[t := tasks[t].(reason := Destroyed)];
    }

    /** Deletes a destroyed task and erases it from its parent's children. */
    method Delete(t: Id)
      requires Sound() && t in tasks && t != ROOT && tasks[t].children == [] && tasks[t].reason == Destroyed
      modifies this`tasks
      ensures Sound() && old(tasks)[t].parent in old(tasks) && tasks == Deleted(old(tasks), t)
    {
      hide Tree, Links, QueueOk, Deleted;
      DeletedOk(tasks, rank, single, multi, queue, t);
      DeletedKeys(tasks, t);
      tasks := Deleted(tasks, t);
    }

    /** Destroys the children with everything under them, then takes the task off its event
        and out of the queue. The task itself stays, unlinked, for the caller to delete. */
    method DestroyTask(t: Id) returns (ghost gone: set<Id>)
      requires Valid() && t in tasks && t != ROOT && !InQueue(queue, current)
      modifies this`tasks, this`single, this`multi, this`queue
      ensures Sound() && Pruned(old(tasks), tasks, t, gone) && Below(rank, gone, t)
      ensures t in tasks && tasks[t] == old(tasks)[t].(children := [], reason := Destroyed)
      ensures Inside(old(tasks)[t].children, gone)
      ensures EventsWithout(old(single), old(multi), single, multi, gone + {t})
      ensures StruckOut(old(queue), queue, gone + {t})
      decreases if t in rank then rank[t] else 0, 1
    {
      hide Tree, Links, QueueOk, StruckOut, EventsWithout, Deleted, Below, Pruned, Inside, InQueue;
      gone := {};
      ghost var i := 0;
      ghost var tasks0 := tasks;
      NoneOff(single, multi);
      NoneStruck(queue);
      DestroyStart(tasks, rank, t);
      while |tasks[t].children| > 0
        invariant Valid() && t in tasks && Destroying(tasks0, tasks, rank, t, i, gone)
        invariant !InQueue(queue, current)
        invariant EventsWithout(old(single), old(multi), single, multi, gone) && StruckOut(old(queue), queue, gone)
        decreases |tasks0[t].children| - i
      {
        var child := tasks[t].children[0];
        ghost var was, s, m, q := gone, single, multi, queue;
        gone := DestroyChild(tasks0, t, i, was, child);
        OffTwice(old(single), old(multi), s, m, single, multi, was, gone);
        StruckTwice(old(queue), q, queue, was, gone);
        gone := was + gone;
        i := i + 1;
      }
      DestroyEnd(tasks0, tasks, rank, t, i, gone);
      ghost var last, s, m, q := tasks, single, multi, queue;
      Unlink(t);
      OffTwice(old(single), old(multi), s, m, single, multi, gone, {t});
      StruckTwice(old(queue), q, queue, gone, {t});
      PrunedReason(tasks0, last, t, gone, tasks);
    }

    /** Destroys and deletes the first child of t. */
    method DestroyChild(ghost tasks0: Tasks, t: Id, ghost i: nat, ghost gone: set<Id>, child: Id) returns (ghost more: set<Id>)
      requires Valid() && Destroying(tasks0, tasks, rank, t, i, gone) && !InQueue(queue, current)
      requires t in tasks && |tasks[t].children| > 0 && child == tasks[t].children[0]
      modifies this`tasks, this`single, this`multi, this`queue
      ensures Valid() && t in tasks && Destroying(tasks0, tasks, rank, t, i + 1, gone + more) && !InQueue(queue, current)
      ensures EventsWithout(old(single), old(multi), single, multi, more) && StruckOut(old(queue), queue, more)
      decreases if t in rank then rank[t] else 0, 0
    {
      hide Tree, Links, QueueOk, StruckOut, EventsWithout, Deleted, Below, Pruned, Inside, Destroying, InQueue;
      DestroyNext(tasks0, tasks, rank, t, i, gone);
      ghost var was, wasQueue := tasks, queue;
      ghost var g := DestroyTask(child);
      DestroyedChild(tasks0, was, tasks, rank, t, i, gone, child, g);
      StruckOk(was, wasQueue, queue, g + {child});
      DeletedClean(was, tasks, child, g);
      Delete(child);
      more := g + {child};
      assert gone + g + {child} == gone + more;
    }

    /** Destroys task t and everything under it. */
    method RemoveTask(t: Id) returns (ghost D: set<Id>)
      requires Valid() && t in tasks && t != ROOT && !InQueue(queue, current)
      modifies this`tasks, this`single, this`multi, this`queue
      ensures Valid() && Removed(old(tasks), tasks, t, D) && !InQueue(queue, current)
      ensures EventsWithout(old(single), old(multi), single, multi, D) && StruckOut(old(queue), queue, D)
    {
      hide Tree, Links, QueueOk, StruckOut, EventsWithout, Deleted, Below, Pruned, Inside, InQueue, Removed;
      ghost var was := tasks;
      ghost var gone := DestroyTask(t);
      StruckOk(was, old(queue), queue, gone + {t});
      RemovedIs(was, tasks, rank, t, gone);
      DeletedClean(was, tasks, t, gone);
      Delete(t);
      D := gone + {t};
    }

    /** Cancelling a finished task does nothing. The current task lives on unless it sits in
        the cancelled subtree. */
    method CancelTask(t: Id)
      requires Valid() && !InQueue(queue, current) && t != ROOT
      modifies this`tasks, this`single, this`multi, this`queue
      ensures Valid() && !InQueue(queue, current)
      ensures old(t in tasks && current in tasks && Under(tasks, rank, current, t)) ==> current !in tasks
      ensures old(Running() && !(t in tasks && Under(tasks, rank, current, t))) ==> Running()
      ensures t !in tasks && Progress(old(tasks), old(queue), next, tasks, queue, next)
      ensures t !in old(tasks) ==> tasks == old(tasks) && queue == old(queue) && single == old(single) && multi == old(multi)
      ensures t in old(tasks) ==>
        exists D :: (Removed(old(tasks), tasks, t, D)
                     && EventsWithout(old(single), old(multi), single, multi, D) && StruckOut(old(queue), queue, D))
    {
      hide Tree, Links, QueueOk, StruckOut, EventsWithout, InQueue, Under, Progress;
      if t !in tasks {
        SameProgress(tasks, tasks, queue, next);
        return;
      }
      ghost var was := tasks;
      ghost var D := RemoveTask(t);
      if current in was {
        SubtreeIsUnder(was, rank, t, D, current);
      }
      RemovedProgress(was, old(queue), next, tasks, queue, t, D);
    }

    /** Is x in the subtree of t? */
    method IsUnder(x: Id, t: Id) returns (r: bool)
      requires Valid() && x in tasks
      ensures r == Under(tasks, rank, x, t) && (x == t ==> r)
    {
      hide Links, QueueOk, NoneDestroyed;
      var y := x;
      while y != t && y != ROOT
        invariant y in tasks && Under(tasks, rank, x, t) == Under(tasks, rank, y, t)
        decreases if y in rank && ROOT in rank then rank[ROOT] - rank[y] else 0
      {
        TreeAt(tasks, rank, y);
        y := tasks[y].parent;
        TreeAt(tasks, rank, y);
      }
      r := y == t;
    }

    /** One operation of the current task. Joining a finished task does not suspend. Operations
        outside the assumptions are skipped: a second waiter on a single event, and joining
        or cancelling the current task or one above it. */
    method Perform(a: Action) returns (suspended: bool)
      requires Running()
      modifies this`tasks, this`single, this`multi, this`queue, this`rank, this`next
      ensures Valid() && !InQueue(queue, current) && current in tasks && (!suspended ==> Running())
      ensures Progress(old(tasks), old(queue), old(next), tasks, queue, next)
      ensures ROOT in old(tasks) && Did(a, old(Now()), Now(), current, suspended)
    {
      hide Tree, Links, QueueOk, Progress, InQueue, Did, NoneDestroyed, AllBelow;
      if a.Push? || a.Join? || a.Cancel? {
        suspended := Rearrange(a);
      } else {
        suspended := WaitOrWake(a);
      }
    }

    /** The operations on the tree of tasks. */
    method Rearrange(a: Action) returns (suspended: bool)
      requires Running() && (a.Push? || a.Join? || a.Cancel?)
      modifies this`tasks, this`single, this`multi, this`queue, this`rank, this`next
      ensures Valid() && !InQueue(queue, current) && current in tasks && (!suspended ==> Running())
      ensures Progress(old(tasks), old(queue), old(next), tasks, queue, next)
      ensures ROOT in old(tasks) && Did(a, old(Now()), Now(), current, suspended)
    {
      hide Tree, Links, QueueOk, Under, Progress, InQueue, Removed, EventsWithout, StruckOut, Pushed, Moved;
      hide IsSubtree, Above;
      suspended := false;
      ghost var was := tasks;
      RootIn(tasks, rank);
      SameProgress(tasks, tasks, queue, next);
      match a
      case Push(independent, granted) =>
        var id := PushTask(independent, granted);
      case Join(child) =>
        if child != ROOT && child in tasks {
          AboveIsUnder(tasks, rank, child, current);
          var above := IsUnder(current, child);
          if !above {
            var ok := this.Join(child);
            suspended := true;
            MovedTasksOrSame(was, tasks, child, current);
            SameProgress(was, tasks, queue, next);
          }
        }
      case Cancel(t) =>
        if t != ROOT && t in tasks {
          AboveIsUnder(tasks, rank, t, current);
          var above := IsUnder(current, t);
          if !above {
            CancelTask(t);
          }
        }
    }

    /** The operations on events, devices and time. */
    method WaitOrWake(a: Action) returns (suspended: bool)
      requires Running() && !a.Push? && !a.Join? && !a.Cancel?
      modifies this`tasks, this`single, this`multi, this`queue, this`rank, this`next
      ensures Valid() && !InQueue(queue, current) && current in tasks && (!suspended ==> Running())
      ensures Progress(old(tasks), old(queue), old(next), tasks, queue, next)
      ensures ROOT in old(tasks) && Did(a, old(Now()), Now(), current, suspended)
    {
      hide Tree, Links, QueueOk, Progress, InQueue, WokenFirst;
      suspended := a.Sleep? || a.AwaitExt? || a.AwaitMulti? || a.Yield?;
      ghost var was := tasks;
      RootIn(tasks, rank);
      SameProgress(tasks, tasks, queue, next);
      match a
      case Sleep(until) =>
        Delay(until);
        SameProgress(was, tasks, queue, next);
      case AwaitExt(ext, deadline) =>
        WaitExt(ext, deadline);
        SameProgress(was, tasks, queue, next);
      case AwaitSingle(e, deadline) =>
        if !SingleAt(single, e).Waiting? {
          var ready := WaitSingle(e, deadline);
          suspended := !ready;
          SameProgress(was, tasks, queue, next);
        }
      case AwaitMulti(e, deadline) =>
        WaitMulti(e, deadline);
        SameProgress(was, tasks, queue, next);
      case WakeSingle(e) =>
        NotifySingle(e);
        SameProgress(was, tasks, queue, next);
      case WakeMulti(e, n) =>
        NotifyMulti(e, n);
        WokenKeys(was, tasks, MultiAt(old(multi), e), n);
        SameProgress(was, tasks, queue, next);
      case Yield =>
    }

    /** Resumes the task in slot i, if it is still there: it acts until it suspends, or
        finishes and is removed. Only a live, unsuspended, childless task is ever resumed. */
    method RunTask(i: nat, script: seq<Action>) returns (resumed: Option<Id>)
      requires Valid() && i < |queue|
      modifies this`tasks, this`single, this`multi, this`queue, this`rank, this`next, this`current, this`resumptions
      ensures Valid() && resumed == old(queue)[i]
      ensures resumptions == old(resumptions) + if resumed.Some? then [resumed.value] else []
      ensures resumed.Some? ==> Resumable(old(tasks), resumed.value)
      ensures resumed.None? ==> tasks == old(tasks) && queue == old(queue)
      ensures Progress(old(tasks), old(queue)[i := None], old(next), tasks, queue, next)
      ensures SlotRan(old(Now()), Now(), i, script)
    {
      hide Tree, Links, QueueOk, Progress, InQueue, Removed, EventsWithout, StruckOut, Resumable, NoneDestroyed, AllBelow;
      hide Did, Acts;
      resumed := queue[i];
      if resumed.None? {
        assert queue[i := None] == queue;
        SameProgress(tasks, tasks, queue, next);
        return;
      }
      TakeSlot(tasks, queue, i);
      queue := queue[i := None];
      current := resumed.value;
      resumptions := resumptions + [current];
      ghost var was, wasQueue, wasNext := tasks, queue, next;
      SlotsBelow(tasks, queue, next);
      SameProgress(tasks, tasks, queue, next);
      var suspended := false;
      ghost var trace := [Now()];
      ActsStart(script, Now(), current);
      for j := 0 to |script|
        invariant current == resumed.value && Acts(script, trace, current, suspended) && trace != []
        invariant trace[0] == old(Now()).(queue := old(queue)[i := None]) && trace[|trace| - 1] == Now()
        invariant !suspended ==> |trace| == j + 1
        invariant Valid() && current in tasks && current != ROOT && !InQueue(queue, current) && (!suspended ==> Running())
        invariant resumptions == old(resumptions) + [resumed.value]
        invariant Progress(was, wasQueue, wasNext, tasks, queue, next)
      {
        if !suspended {
          ghost var t, q, n := tasks, queue, next;
          suspended := Perform(script[j]);
          ActsNext(script, trace, current, Now(), suspended);
          trace := trace + [Now()];
          ProgressTwice(was, wasQueue, wasNext, t, q, n, tasks, queue, next);
        }
      }
      if !suspended {
        ghost var t, q, n := tasks, queue, next;
        ghost var D := RemoveTask(current);
        RemovedProgress(t, q, n, tasks, queue, current, D);
        ProgressTwice(was, wasQueue, wasNext, t, q, n, tasks, queue, next);
      }
      assert TaskRan(trace[0], Now(), current, script);
    }

    /** Resumes the gathered tasks in order. Each is resumed exactly once, unless it died
        before its turn. */
    method RunTasks(scripts: seq<seq<Action>>) returns (resumed: seq<Id>, ghost ws: seq<World>)
      requires Valid()
      modifies this`tasks, this`single, this`multi, this`queue, this`rank, this`next, this`current, this`resumptions
      ensures Valid() && queue == [] && Distinct(resumed) && resumptions == old(resumptions) + resumed
      ensures forall x :: x in resumed ==> InQueue(old(queue), x)
      ensures forall x :: InQueue(old(queue), x) ==> x in resumed || x !in tasks
      ensures resumed == [] ==> forall x :: !InQueue(old(queue), x)
      ensures AllRan(ws, scripts) && ws[0] == old(Now()) && Now() == ws[|ws| - 1].(queue := [])
    {
      hide Tree, Links, QueueOk, InQueue, NoneDestroyed, AllBelow, Resumable, Progress, SlotRan, TaskRan, RunTo;
      resumed, ws := [], [Now()];
      ghost var q0 := queue;
      RunStart(tasks, queue, next);
      for i := 0 to |queue|
        invariant Valid() && RunTo(q0, queue, tasks, next, i, resumed) && resumptions == old(resumptions) + resumed
        invariant |queue| == |q0| && RanTo(ws, scripts, i) && ws[0] == old(Now()) && ws[i] == Now()
      {
        ghost var t, q, n := tasks, queue, next;
        var r := RunTask(i, ScriptAt(scripts, i));
        SameSlots(q0, t, q, n, i, resumed, tasks, queue, next);
        RanNext(ws, scripts, i, Now());
        ws := ws + [Now()];
        RunNext(q0, t, q, n, i, resumed, tasks, queue, next);
        if r.Some? {
          resumed := resumed + [r.value];
        }
      }
      RunEnd(q0, queue, tasks, next, resumed);
      queue := [];
      QueueEmpty(tasks);
    }

    ghost function Snap(wake: Time, poll: bool): Snapshot
      reads this
    {
      Snapshot(tasks, single, multi, queue, wake, poll)
    }

    /** One leaf: queued if it is due, otherwise its deadline and device are noted. */
    method GatherLeaf(t: Id, now: Time, avail: set<nat>, wake: Time, poll: bool) returns (wake': Time, poll': bool)
      requires Valid() && Leaf(tasks, t) && t != ROOT && !InQueue(queue, t)
      modifies this`tasks, this`single, this`multi, this`queue
      ensures Valid() && Gathered(old(Snap(wake, poll)), Snap(wake', poll'), [t], now, avail)
    {
      hide Tree, Links, QueueOk, EventsWithout, ClearSingle, ClearMulti, Gathered;
      wake', poll' := wake, poll;
      ghost var was := Snap(wake, poll);
      var task := tasks[t];
      if Due(task.reason, now, avail) {
        OneOff(tasks, single, multi, t);
        WakeOk(tasks, rank, single, multi, queue, t, Woken(task, avail));
        DropWaiter(t);
        tasks := tasks[t := Woken(task, avail)];
        QueueMore(tasks, queue, t);
        queue := queue + [Some(t)];
      } else {
        NoneOff(single, multi);
        wake' := Min(wake, Deadline(task.reason));
        if task.reason.ByExt? {
          poll' := true;
        }
      }
      GatheredOne(was, Snap(wake', poll'), t, now, avail);
    }

    /** Gathers the due leaves under t. */
    method GatherResumable(t: Id, now: Time, avail: set<nat>, wake: Time, poll: bool) returns (wake': Time, poll': bool)
      requires Valid() && t in tasks && ROOT in tasks && tasks[ROOT].children != []
      requires forall x :: x in Leaves(tasks, rank, t) ==> !InQueue(queue, x)
      modifies this`tasks, this`single, this`multi, this`queue
      ensures Valid() && Gathered(old(Snap(wake, poll)), Snap(wake', poll'), old(Leaves(tasks, rank, t)), now, avail)
      ensures forall x :: x in old(Leaves(tasks, rank, t)) && x in old(tasks) ==>
        x in tasks && WaitEnds(old(tasks)[x], tasks[x], now, avail)
      decreases if t in rank then rank[t] else 0
    {
      hide Tree, Links, QueueOk, EventsWithout, Gathered, NoneDestroyed, Leaves, LeavesOf, InQueue, WaitEnds;
      ghost var was, tasks0 := Snap(wake, poll), tasks;
      LeavesWhole(tasks, rank, t);
      if tasks[t].children == [] {
        wake', poll' := GatherLeaf(t, now, avail, wake, poll);
        GatheredEnds(was, Snap(wake', poll'), [t], now, avail);
        return;
      }
      wake', poll' := wake, poll;
      NothingGathered(was, now, avail);
      NoLeaves(tasks, rank, t);
      for i := 0 to |tasks[t].children|
        invariant Valid() && t in tasks && t in tasks0 && SameTree(tasks0, tasks) && Tree(tasks0, rank)
        invariant Gathered(was, Snap(wake', poll'), LeavesOf(tasks0, rank, t, i), now, avail)
      {
        ghost var before := Snap(wake', poll');
        ChildAt(tasks, rank, t, i);
        GatherNext(was, before, rank, t, i, now, avail);
        ghost var L := Leaves(tasks, rank, tasks[t].children[i]);
        wake', poll' := GatherResumable(tasks[t].children[i], now, avail, wake', poll');
        GatheredSame(before, Snap(wake', poll'), L, now, avail);
        SameTreeTwice(tasks0, before.tasks, tasks);
        GatheredTwice(was, before, Snap(wake', poll'), LeavesOf(tasks0, rank, t, i), L, now, avail);
      }
      GatheredEnds(was, Snap(wake', poll'), old(Leaves(tasks, rank, t)), now, avail);
    }

    /** One turn of the run loop, with nothing inherited in the queue. */
    method RunOnce(now: Time, avail: set<nat>, scripts: seq<seq<Action>>) returns (o: Outcome)
      requires Valid() && queue == []
      modifies this`tasks, this`single, this`multi, this`queue, this`rank, this`next, this`current, this`resumptions
      ensures Valid() && queue == []
      ensures ROOT in old(tasks) && (o.Finished? <==> old(tasks)[ROOT].children == [])
      ensures o.Finished? ==> current == ROOT
      ensures o.Ran? ==>
        && Distinct(o.resumed) && o.resumed != []
        && (forall x :: x in o.resumed ==> ReadyLeaf(old(tasks), x, now, avail))
        && (forall x :: ReadyLeaf(old(tasks), x, now, avail) ==> x in o.resumed || x !in tasks)
      ensures o.Ran? ==>
        && (forall x :: x in o.resumed ==> x in old(tasks) && CanGoOn(old(tasks)[x], now, avail))
        && (forall x :: x in old(tasks) && CanGoOn(old(tasks)[x], now, avail) ==> x in o.resumed || x !in tasks)
      ensures !o.Ran? && !o.Finished? ==> forall x :: x in tasks ==> !CanGoOn(tasks[x], now, avail)
      ensures o.SleepUntil? || o.Poll? ==> FirstDeadline(tasks, o.until, now)
      ensures o.SleepUntil? ==> o.until < 0xffff_ffff_ffff_ffff
      ensures !o.Ran? && !o.Finished? ==> (o.Deadlock? <==> forall x :: x in tasks && tasks[x].children == [] ==> Stuck(tasks[x].reason))
      ensures o.Ran? ==> TurnRan(old(Now()), Now(), scripts, now, avail)
      ensures resumptions == old(resumptions) + if o.Ran? then o.resumed else []
      ensures !o.Ran? ==> tasks == old(tasks) && next == old(next)
      ensures !o.Ran? && !o.Finished? ==> Idle(tasks, o, now, avail)
    {
      hide Tree, Links, QueueOk, EventsWithout, Gathered, NoneDestroyed, Leaves, InQueue, Idle, ReadyLeaf, AllBelow;
      hide CanGoOn, Timed, FirstDeadline, Stuck;
      RootIn(tasks, rank);
      if tasks[ROOT].children == [] {
        current := ROOT;
        return Finished;
      }
      ghost var was, L := Snap(INFINITE, false), Leaves(tasks, rank, ROOT);
      ghost var w0 := Now();
      NoneQueued();
      var wake, poll := GatherResumable(ROOT, now, avail, INFINITE, false);
      GatheredMeaning(was, Snap(wake, poll), rank, L, now, avail);
      CanGoOnMeans(was.tasks, now, avail);
      if |queue| > 0 {
        ghost var q := queue;
        var resumed; ghost var ws;
        WokenUpIs(w0, Now(), rank, L, now, avail, was, Snap(wake, poll));
        resumed, ws := RunTasks(scripts);
        TurnIs(w0, ws, scripts, now, avail);
        return Ran(resumed);
      }
      o := if poll then Poll(wake) else if wake == INFINITE then Deadlock else SleepUntil(wake);
      IdleUntil(tasks, o, now, avail);
    }
  }

  /** Gathering: every leaf goes on or waits on, and those that can go on are queued, once. */
  ghost predicate WokenUp(w: World, g: World, now: Time, avail: set<nat>) {
    && g.next == w.next && g.tasks.Keys == w.tasks.Keys
    && (forall x :: x in w.tasks ==>
          if w.tasks[x].children == [] then WaitEnds(w.tasks[x], g.tasks[x], now, avail) else g.tasks[x] == w.tasks[x])
    && (forall x :: InQueue(g.queue, x) <==> x in w.tasks && CanGoOn(w.tasks[x], now, avail))
    && (forall i, j :: 0 <= i < j < |g.queue| ==> g.queue[i] != g.queue[j]) && None !in g.queue
  }

  /** A turn that resumes tasks: gathering, then one after the other acts. */
  ghost predicate TurnRan(w: World, v: World, scripts: seq<seq<Action>>, now: Time, avail: set<nat>) {
    exists ws: seq<World> :: (AllRan(ws, scripts) && WokenUp(w, ws[0], now, avail) && v == ws[|ws| - 1].(queue := []))
  }

  lemma TurnIs(w: World, ws: seq<World>, scripts: seq<seq<Action>>, now: Time, avail: set<nat>)
    requires AllRan(ws, scripts) && WokenUp(w, ws[0], now, avail)
    ensures TurnRan(w, ws[|ws| - 1].(queue := []), scripts, now, avail)
  {}

  lemma WokenUpIs(w: World, g: World, rank: Rank, L: seq<Id>, now: Time, avail: set<nat>, s: Snapshot, s': Snapshot)
    requires Tree(s.tasks, rank) && ROOT in s.tasks && L == Leaves(s.tasks, rank, ROOT) && s.queue == []
    requires Gathered(s, s', L, now, avail) && QueueOk(s'.tasks, s'.queue)
    requires w.tasks == s.tasks && g.tasks == s'.tasks && g.queue == s'.queue && g.next == w.next
    requires forall x :: InQueue(s'.queue, x) <==> ReadyLeaf(s.tasks, x, now, avail)
    ensures WokenUp(w, g, now, avail)
  {
    hide Tree, Leaves, Gathered, CanGoOn, ReadyLeaf, WaitEnds, QueueOk;
    AllLeaves(s.tasks, rank);
    CanGoOnMeans(s.tasks, now, avail);
    GatheredEnds(s, s', L, now, avail);
    GatheredRest(s, s', L, now, avail);
    QueueDistinct(s'.tasks, s'.queue);
  }

  lemma GatheredRest(s: Snapshot, s': Snapshot, L: seq<Id>, now: Time, avail: set<nat>)
    requires Gathered(s, s', L, now, avail) && s.queue == []
    ensures s'.tasks.Keys == s.tasks.Keys && (forall x :: x in s.tasks && x !in L ==> s'.tasks[x] == s.tasks[x])
    ensures None !in s'.queue
  {
    hide EventsWithout, WakeAt, Picked, DueTask, Woken;
    PickedItems(s.tasks, L, now, avail);
    assert [] + Picked(s.tasks, L, now, avail) == Picked(s.tasks, L, now, avail);
  }

  lemma QueueDistinct(tasks: Tasks, queue: Queue)
    requires QueueOk(tasks, queue) && None !in queue
    ensures forall i, j :: 0 <= i < j < |queue| ==> queue[i] != queue[j]
  {}

  predicate Timed(r: Reason) { r.ByTimer? || r.ByExt? || r.BySingle? || r.ByMulti? }

  /** No leaf's deadline is before `until`, and unless that is forever one is then; it is still
      to come. */
  ghost predicate FirstDeadline(tasks: Tasks, until: Time, now: Time) {
    && now < until
    && (forall x :: x in tasks && tasks[x].children == [] && Timed(tasks[x].reason) ==> until <= tasks[x].reason.deadline)
    && (until < 0xffff_ffff_ffff_ffff ==>
          exists x :: (x in tasks && tasks[x].children == [] && Timed(tasks[x].reason) && tasks[x].reason.deadline == until))
  }

  /** Waiting, but neither for a device nor for a time. */
  predicate Stuck(r: Reason) { (r.ByTimer? || r.BySingle? || r.ByMulti?) && r.deadline == 0xffff_ffff_ffff_ffff }

  /** A leaf that nothing holds, whose deadline has come, or whose device is ready. */
  predicate CanGoOn(task: Task, now: Time, avail: set<nat>) {
    task.children == []
    && (task.reason.Runnable? || (Timed(task.reason) && task.reason.deadline <= now)
        || (task.reason.ByExt? && task.reason.ext in avail))
  }

  lemma CanGoOnMeans(tasks: Tasks, now: Time, avail: set<nat>)
    ensures forall x :: ReadyLeaf(tasks, x, now, avail) <==> x in tasks && CanGoOn(tasks[x], now, avail)
  {}

  lemma IdleUntil(tasks: Tasks, o: Outcome, now: Time, avail: set<nat>)
    requires NoneDestroyed(tasks) && Idle(tasks, o, now, avail)
    ensures forall x :: x in tasks ==> !CanGoOn(tasks[x], now, avail)
    ensures o.SleepUntil? || o.Poll? ==> FirstDeadline(tasks, o.until, now)
    ensures o.SleepUntil? ==> o.until < 0xffff_ffff_ffff_ffff
    ensures o.Deadlock? <==> forall x :: x in tasks && tasks[x].children == [] ==> Stuck(tasks[x].reason)
  {
    CanGoOnMeans(tasks, now, avail);
    assert forall x :: Leaf(tasks, x) && tasks[x].reason.Runnable? ==> ReadyLeaf(tasks, x, now, avail);
    assert forall x :: Leaf(tasks, x) ==> (OnlyNotified(tasks[x].reason) <==> Stuck(tasks[x].reason));
    assert forall x :: x in tasks && CanGoOn(tasks[x], now, avail) ==> ReadyLeaf(tasks, x, now, avail);
    if o.SleepUntil? || o.Poll? {
      if o.until != INFINITE {
        var x :| Leaf(tasks, x) && Deadline(tasks[x].reason) == o.until;
        assert !DueTask(tasks, x, now, avail);
      } else {
        var x :| Leaf(tasks, x) && tasks[x].reason.ByExt?;
        assert !DueTask(tasks, x, now, avail);
        assert o.until <= Deadline(tasks[x].reason);
      }
    }
  }

  lemma QueueMore(tasks: Tasks, queue: Queue, t: Id)
    requires QueueOk(tasks, queue) && Resumable(tasks, t) && !InQueue(queue, t)
    ensures QueueOk(tasks, queue + [Some(t)])
  {
    var q := queue + [Some(t)];
    forall i, j | 0 <= i < j < |q| && q[i].Some?
      ensures q[i] != q[j]
    {
      if j == |queue| {
        assert q[i] in queue;
      }
    }
  }

  lemma GatheredOne(s: Snapshot, s': Snapshot, t: Id, now: Time, avail: set<nat>)
    requires t in s.tasks
    requires var task, d := s.tasks[t], Due(s.tasks[t].reason, now, avail);
             && s'.tasks == (if d then s.tasks[t := Woken(task, avail)] else s.tasks)
             && s'.queue == (if d then s.queue + [Some(t)] else s.queue)
             && s'.wake == (if d then s.wake else Min(s.wake, Deadline(task.reason)))
             && s'.poll == (s.poll || (!d && task.reason.ByExt?))
             && EventsWithout(s.single, s.multi, s'.single, s'.multi, if d then {t} else {})
    ensures Gathered(s, s', [t], now, avail)
  {
    hide EventsWithout, Due, Woken;
    var d := Due(s.tasks[t].reason, now, avail);
    assert DueSet(s.tasks, [t], now, avail) == if d then {t} else {};
    assert [t][..0] == [];
    assert Picked(s.tasks, [t], now, avail) == if d then [Some(t)] else [];
    assert WakeAt(s.tasks, [t], now, avail, s.wake) == if d then s.wake else Min(s.wake, Deadline(s.tasks[t].reason));
    assert t in [t];
    assert (exists x :: x in [t] && Polls(s.tasks, x, now, avail)) == Polls(s.tasks, t, now, avail);
  }

  lemma LeavesWhole(tasks: Tasks, rank: Rank, t: Id)
    requires Tree(tasks, rank) && t in tasks
    ensures Leaves(tasks, rank, t) == if tasks[t].children == [] then [t] else LeavesOf(tasks, rank, t, |tasks[t].children|)
  {}

  lemma GatheredEnds(s: Snapshot, s': Snapshot, L: seq<Id>, now: Time, avail: set<nat>)
    requires Gathered(s, s', L, now, avail)
    ensures forall x :: x in L && x in s.tasks ==> x in s'.tasks && WaitEnds(s.tasks[x], s'.tasks[x], now, avail)
  {
    hide EventsWithout, Picked, WakeAt;
  }

  lemma GatheredSame(s: Snapshot, s': Snapshot, L: seq<Id>, now: Time, avail: set<nat>)
    requires Gathered(s, s', L, now, avail)
    ensures SameTree(s.tasks, s'.tasks)
  {}

  lemma SameTreeTwice(t0: Tasks, t1: Tasks, t2: Tasks)
    requires SameTree(t0, t1) && SameTree(t1, t2)
    ensures SameTree(t0, t2)
  {}

  /** Before the next child its leaves are what they were and none is queued. */
  lemma GatherNext(was: Snapshot, s: Snapshot, rank: Rank, t: Id, i: nat, now: Time, avail: set<nat>)
    requires Tree(was.tasks, rank) && Tree(s.tasks, rank) && SameTree(was.tasks, s.tasks)
    requires t in was.tasks && i < |was.tasks[t].children| && was.tasks[t].children[i] in s.tasks
    requires forall x :: x in Leaves(was.tasks, rank, t) ==> !InQueue(was.queue, x)
    requires Gathered(was, s, LeavesOf(was.tasks, rank, t, i), now, avail)
    ensures var L, c := LeavesOf(was.tasks, rank, t, i), was.tasks[t].children[i];
            && (forall x :: x in Leaves(s.tasks, rank, c) ==> !InQueue(s.queue, x))
            && (forall x :: x in L ==> x !in Leaves(s.tasks, rank, c))
            && LeavesOf(was.tasks, rank, t, i + 1) == L + Leaves(s.tasks, rank, c)
  {
    hide Tree, Leaves, LeavesOf, EventsWithout, TasksGathered, DueSet, Under, Due, WakeAt;
    var L, c := LeavesOf(was.tasks, rank, t, i), was.tasks[t].children[i];
    ChildAt(was.tasks, rank, t, i);
    LeavesApart(was.tasks, rank, t, i);
    LeavesFrame(was.tasks, s.tasks, rank, c);
    LeavesStep(was.tasks, rank, t, i + 1);
    PickedItems(was.tasks, L, now, avail);
    forall x | x in Leaves(s.tasks, rank, c)
      ensures !InQueue(s.queue, x)
    {
      LeavesIn(was.tasks, rank, c);
      LeavesIff(was.tasks, rank, c, x);
      UnderParent(was.tasks, rank, x, c);
      LeavesIff(was.tasks, rank, t, x);
    }
  }

  /** What happens to a runner from outside its tasks: another top-level task, a cancelled
      handle, a notification, or a turn of the loop. */
  datatype Event =
    | Spawn(granted: bool)
    | Drop(task: Id)
    | SignalSingle(event: nat)
    | SignalMulti(event: nat, n: nat)
    | Turn(now: Time, avail: set<nat>, scripts: seq<seq<Action>>)

  /** The tasks that an event resumed, in order. */
  function Resumed(o: Option<Outcome>): seq<Id> {
    if o.Some? && o.value.Ran? then o.value.resumed else []
  }

  function AllResumed(outcomes: seq<Option<Outcome>>): seq<Id> {
    if outcomes == [] then []
    else AllResumed(outcomes[..|outcomes| - 1]) + Resumed(outcomes[|outcomes| - 1])
  }

  lemma AllResumedNext(outcomes: seq<Option<Outcome>>, o: Option<Outcome>)
    ensures AllResumed([]) == []
    ensures AllResumed(outcomes + [o]) == AllResumed(outcomes) + Resumed(o)
  {
    assert (outcomes + [o])[..|outcomes|] == outcomes;
  }

  /** One such event; a turn of the loop has an outcome. */
  method Occur(r: Runner, v: Event) returns (o: Option<Outcome>)
    requires r.Valid() && r.queue == []
    modifies r
    ensures r.Valid() && r.queue == [] && r.resumptions == old(r.resumptions) + Resumed(o)
  {
    hide Tree, Links, QueueOk, NoneDestroyed, AllBelow, WokenFirst, Progress, ReadyLeaf, Idle;
    hide Removed, EventsWithout, Under, Pushed;
    o := None;
    match v
    case Spawn(granted) =>
      var id := r.PushTask(true, granted);
    case Drop(t) =>
      if t != ROOT {
        r.CancelTask(t);
      }
    case SignalSingle(e) =>
      r.NotifySingle(e);
    case SignalMulti(e, n) =>
      r.NotifyMulti(e, n);
    case Turn(now, avail, scripts) =>
      var turn := r.RunOnce(now, avail, scripts);
      o := Some(turn);
  }

  /** A whole program on a fresh runner. Whatever its tasks do and whatever happens around
      them, every state it reaches has tree, links and queue in order, and the outcomes of its
      turns name every resumption, in order. */
  method Program(events: seq<Event>) returns (r: Runner, outcomes: seq<Option<Outcome>>)
    ensures fresh(r) && r.Valid() && r.queue == [] && r.resumptions == AllResumed(outcomes) && |outcomes| == |events|
  {
    hide Tree, Links, QueueOk, NoneDestroyed, AllBelow, AllResumed, Resumed;
    r := new Runner();
    outcomes := [];
    AllResumedNext([], None);
    for i := 0 to |events|
      invariant fresh(r) && r.Valid() && r.queue == [] && r.resumptions == AllResumed(outcomes) && |outcomes| == i
    {
      var o := Occur(r, events[i]);
      AllResumedNext(outcomes, o);
      outcomes := outcomes + [o];
    }
  }

  /** The first turns of a program: without a task the loop ends; a task pushed from outside
      is resumed in the next turn, whatever it then does. */
  method FirstTurns(script: seq<Action>) returns (r: Runner, o0: Outcome, o1: Outcome)
    ensures fresh(r) && r.Valid() && o0 == Finished && o1.Ran? && o1.resumed == [1]
  {
    hide Tree, Links, QueueOk, NoneDestroyed, AllBelow, Idle;
    r := new Runner();
    o0 := r.RunOnce(0, {}, []);
    ghost var was := r.tasks;
    var id := r.PushTask(true, true);
    FirstPush(was);
    ghost var tasks := r.tasks;
    assert ReadyLeaf(tasks, 1, 0, {});
    assert forall x :: ReadyLeaf(tasks, x, 0, {}) ==> x == 1;
    o1 := r.RunOnce(0, {}, [script]);
    if o1.Ran? {
      OnlyOne(o1.resumed);
    } else {
      IdleNotReady(tasks, o1, 1, 0, {});
    }
  }

  /** The tasks while there is one besides the root. */
  function OneTask(r: Reason): Tasks { map[ROOT := Task(ROOT, [1], Runnable, Nothing), 1 := Task(ROOT, [], r, Nothing)] }

  /** A task that sleeps until 1000: it is resumed at once, then the loop sleeps until exactly
      then, resumes it again, and ends when it has finished. */
  method Delayed() returns (r: Runner, o0: Outcome, o1: Outcome, o2: Outcome, o3: Outcome)
    ensures o0 == Ran([1]) && o1 == SleepUntil(1000) && o2 == Ran([1]) && o3 == Finished
  {
    hide Tree, Links, QueueOk, NoneDestroyed, AllBelow, Idle, TurnRan, CanGoOn, FirstDeadline, Stuck, ReadyLeaf;
    r := new Runner();
    ghost var was := r.tasks;
    var id := r.PushTask(true, true);
    FirstPush(was);
    assert r.tasks == OneTask(Runnable);
    ghost var w0 := r.Now();
    OneGoesOn(Runnable, 0);
    o0 := r.RunOnce(0, {}, [[Sleep(1000)]]);
    OnlyOne(o0.resumed);
    Slept(w0, r.Now());
    OneGoesOn(ByTimer(1000), 999);
    o1 := r.RunOnce(999, {}, []);
    FirstIn(if o1.Ran? then o1.resumed else []);
    SleepsUntil(r.tasks, o1);
    ghost var w1 := r.Now();
    OneGoesOn(ByTimer(1000), 1000);
    o2 := r.RunOnce(1000, {}, [[]]);
    OnlyOne(o2.resumed);
    Ended(w1, r.Now());
    o3 := r.RunOnce(1000, {}, []);
  }

  lemma OneGoesOn(r: Reason, now: Time)
    requires r == Runnable || r.ByTimer?
    ensures var t := OneTask(r);
            && (forall x :: x in t && CanGoOn(t[x], now, {}) ==> x == 1)
            && (CanGoOn(t[1], now, {}) <==> r.Runnable? || r.deadline <= now)
  {}

  lemma FirstIn(L: seq<Id>)
    ensures L != [] ==> L[0] in L
  {}

  lemma SleepsUntil(tasks: Tasks, o: Outcome)
    requires tasks == OneTask(ByTimer(1000)) && !o.Ran? && !o.Finished? && Idle(tasks, o, 999, {})
    requires o.SleepUntil? || o.Poll? ==> FirstDeadline(tasks, o.until, 999)
    requires o.Deadlock? <==> forall x :: x in tasks && tasks[x].children == [] ==> Stuck(tasks[x].reason)
    ensures o == SleepUntil(1000)
  {
    assert 1 in tasks && !Stuck(tasks[1].reason);
    assert forall x :: Leaf(tasks, x) ==> x == 1;
  }

  lemma OneQueued(w: World, g: World, r: Reason, now: Time)
    requires w.tasks == OneTask(r) && WokenUp(w, g, now, {}) && (r == Runnable || (r.ByTimer? && r.deadline <= now))
    ensures g.queue == [Some(1)] && g.tasks == OneTask(Runnable) && g.next == w.next
  {
    OneGoesOn(r, now);
    hide CanGoOn;
    assert InQueue(g.queue, 1);
    forall i | 0 <= i < |g.queue|
      ensures g.queue[i] == Some(1)
    {
      assert g.queue[i] in g.queue;
      assert g.queue[i].Some? && InQueue(g.queue, g.queue[i].value);
    }
    AtMostOne(g.queue);
  }

  lemma AtMostOne(q: Queue)
    requires q != [] && forall i :: 0 <= i < |q| ==> q[i] == Some(1)
    requires forall i, j :: 0 <= i < j < |q| ==> q[i] != q[j]
    ensures |q| <= 1
  {
    var last := |q| - 1;
    assert q[0] == q[last];
  }

  lemma Slept(w: World, v: World)
    requires w.tasks == OneTask(Runnable) && TurnRan(w, v, [[Sleep(1000)]], 0, {})
    ensures v.tasks == OneTask(ByTimer(1000))
  {
    hide WokenUp, TaskRan;
    var ws: seq<World> :| AllRan(ws, [[Sleep(1000)]]) && WokenUp(w, ws[0], 0, {}) && v == ws[|ws| - 1].(queue := []);
    OneQueued(w, ws[0], Runnable, 0);
    assert SlotRan(ws[0], ws[1], 0, [Sleep(1000)]);
    SleptOnly(ws[0].(queue := ws[0].queue[0 := None]), ws[1]);
  }

  lemma SleptOnly(w: World, v: World)
    requires w.tasks == OneTask(Runnable) && TaskRan(w, v, 1, [Sleep(1000)])
    ensures v.tasks == OneTask(ByTimer(1000))
  {
    var trace: seq<World>, blocked: bool :|
      (Acts([Sleep(1000)], trace, 1, blocked) && trace[0] == w
       && if blocked then trace[|trace| - 1] == v else |trace| == 2 && RemovedFrom(trace[|trace| - 1], v, 1));
    hide RemovedFrom;
    assert |trace| == 2 && Did(Sleep(1000), trace[0], trace[1], 1, blocked);
  }

  lemma Ended(w: World, v: World)
    requires w.tasks == OneTask(ByTimer(1000)) && TurnRan(w, v, [[]], 1000, {})
    ensures ROOT in v.tasks && v.tasks[ROOT].children == []
  {
    hide WokenUp, TaskRan;
    var ws: seq<World> :| AllRan(ws, [[]]) && WokenUp(w, ws[0], 1000, {}) && v == ws[|ws| - 1].(queue := []);
    OneQueued(w, ws[0], ByTimer(1000), 1000);
    assert SlotRan(ws[0], ws[1], 0, []);
    EndedOnly(ws[0].(queue := ws[0].queue[0 := None]), ws[1]);
  }

  lemma EndedOnly(w: World, v: World)
    requires w.tasks == OneTask(Runnable) && TaskRan(w, v, 1, [])
    ensures ROOT in v.tasks && v.tasks[ROOT].children == []
  {
    var trace: seq<World>, blocked: bool :|
      (Acts([], trace, 1, blocked) && trace[0] == w
       && if blocked then trace[|trace| - 1] == v else |trace| == 1 && RemovedFrom(trace[|trace| - 1], v, 1));
    assert RemovedFrom(w, v, 1);
    hide Acts, Did, EventsWithout, StruckOut;
    var D :| Removed(w.tasks, v.tasks, 1, D) && EventsWithout(w.single, w.multi, v.single, v.multi, D) && StruckOut(w.queue, v.queue, D);
    assert D == {1};
    assert ROOT in v.tasks;
    assert Without([1], {1}) == [];
  }

  lemma FirstPush(tasks: Tasks)
    requires tasks == map[ROOT := Task(ROOT, [], Runnable, Nothing)]
    ensures Pushed(tasks, ROOT, 1) == map[ROOT := Task(ROOT, [1], Runnable, Nothing), 1 := Task(ROOT, [], Runnable, Nothing)]
  {
    var none: seq<Id> := [];
    assert none + [1] == [1];
  }

  lemma OnlyOne(L: seq<Id>)
    requires Distinct(L) && L != [] && forall x :: x in L ==> x == 1
    ensures L == [1]
  {
    forall k | 0 <= k < |L|
      ensures L[k] == 1
    {
      assert L[k] in L;
    }
    var last := |L| - 1;
    assert L[0] == L[last];
  }

  lemma IdleNotReady(tasks: Tasks, o: Outcome, x: Id, now: Time, avail: set<nat>)
    requires Idle(tasks, o, now, avail)
    ensures !ReadyLeaf(tasks, x, now, avail)
  {}

  lemma NoneQueued()
    ensures forall x :: !InQueue([], x)
  {}

  /** How a turn of the run loop ends: all done, tasks resumed, or idling until a time, with
      or without an eye on the devices, or the report that nothing can ever happen. */
  datatype Outcome = Finished | Ran(resumed: seq<Id>) | Poll(until: Time) | SleepUntil(until: Time) | Deadlock

  ghost predicate ReadyLeaf(tasks: Tasks, x: Id, now: Time, avail: set<nat>) {
    Leaf(tasks, x) && DueTask(tasks, x, now, avail)
  }

  /** Only the notification of another task can wake this one. */
  predicate OnlyNotified(r: Reason) {
    !r.Runnable? && !r.ByExt? && Deadline(r) == INFINITE
  }

  ghost predicate EarliestDeadline(tasks: Tasks, until: Time) {
    && (forall x :: Leaf(tasks, x) ==> until <= Deadline(tasks[x].reason))
    && (until == INFINITE || exists x :: Leaf(tasks, x) && Deadline(tasks[x].reason) == until)
  }

  /** No leaf is ready. The loop sleeps to the earliest deadline and not past it, watches the
      devices exactly when some leaf waits for one, and reports a deadlock exactly when
      neither time nor a device can wake any leaf. */
  ghost predicate Idle(tasks: Tasks, o: Outcome, now: Time, avail: set<nat>) {
    && (forall x :: Leaf(tasks, x) ==> !DueTask(tasks, x, now, avail))
    && (o.Poll? <==> exists x :: Leaf(tasks, x) && tasks[x].reason.ByExt?)
    && (o.Poll? || o.SleepUntil? ==> EarliestDeadline(tasks, o.until))
    && (o.SleepUntil? ==> o.until != INFINITE)
    && (o.Deadlock? <==> forall x :: Leaf(tasks, x) ==> OnlyNotified(tasks[x].reason))
  }

  lemma GatheredMeaning(s: Snapshot, s': Snapshot, rank: Rank, L: seq<Id>, now: Time, avail: set<nat>)
    requires Tree(s.tasks, rank) && ROOT in s.tasks && L == Leaves(s.tasks, rank, ROOT)
    requires Gathered(s, s', L, now, avail) && s.queue == [] && s.wake == INFINITE && !s.poll
    ensures forall x :: InQueue(s'.queue, x) <==> ReadyLeaf(s.tasks, x, now, avail)
    ensures s'.queue != [] ==> exists x :: ReadyLeaf(s.tasks, x, now, avail)
    ensures s'.queue == [] ==> s'.tasks == s.tasks
    ensures s'.queue == [] ==>
      Idle(s.tasks, if s'.poll then Poll(s'.wake) else if s'.wake == INFINITE then Deadlock else SleepUntil(s'.wake), now, avail)
  {
    hide Tree, Leaves, EventsWithout, Due, Deadline, DueTask, Polls, Leaf, Idle, WakeAt, Woken, Picked;
    AllLeaves(s.tasks, rank);
    PickedItems(s.tasks, L, now, avail);
    LeafIn(s.tasks);
    WakeIsEarliest(s.tasks, L, now, avail, INFINITE);
    if s'.queue != [] {
      var n := s'.queue[0];
      assert n in s'.queue && n != None;
      assert ReadyLeaf(s.tasks, n.value, now, avail);
    } else {
      assert forall x :: x in L ==> !DueTask(s.tasks, x, now, avail);
      IdleMeaning(s.tasks, L, s'.wake, s'.poll, now, avail);
    }
  }

  lemma LeafIn(tasks: Tasks)
    ensures forall x :: Leaf(tasks, x) ==> x in tasks
  {}

  /** From the root every leaf is gathered. */
  lemma AllLeaves(tasks: Tasks, rank: Rank)
    requires Tree(tasks, rank) && ROOT in tasks
    ensures forall x :: x in Leaves(tasks, rank, ROOT) <==> Leaf(tasks, x)
  {
    LeavesIn(tasks, rank, ROOT);
    var D := SubtreeExists(tasks, rank, ROOT);
    hide Tree, Leaves, Under;
    forall x | x in tasks
      ensures x in Leaves(tasks, rank, ROOT) <==> Leaf(tasks, x)
    {
      LeavesIff(tasks, rank, ROOT, x);
      RootSubtree(tasks, rank, D, x);
    }
  }

  lemma IdleMeaning(tasks: Tasks, L: seq<Id>, wake: Time, poll: bool, now: Time, avail: set<nat>)
    requires forall x :: x in L <==> Leaf(tasks, x)
    requires forall x :: x in L ==> !DueTask(tasks, x, now, avail)
    requires forall x :: x in L ==> x in tasks && wake <= Deadline(tasks[x].reason)
    requires wake == INFINITE || exists x :: x in L && x in tasks && Deadline(tasks[x].reason) == wake
    requires poll == exists x :: x in L && Polls(tasks, x, now, avail)
    ensures Idle(tasks, if poll then Poll(wake) else if wake == INFINITE then Deadlock else SleepUntil(wake), now, avail)
  {
    var o := if poll then Poll(wake) else if wake == INFINITE then Deadlock else SleepUntil(wake);
    assert EarliestDeadline(tasks, wake);
    if poll {
      var x :| x in L && Polls(tasks, x, now, avail);
      assert Leaf(tasks, x) && !OnlyNotified(tasks[x].reason);
    } else if wake != INFINITE {
      var x :| x in L && Deadline(tasks[x].reason) == wake;
      assert Leaf(tasks, x) && !OnlyNotified(tasks[x].reason);
    }
    forall x | Leaf(tasks, x)
      ensures !tasks[x].reason.Runnable? && (tasks[x].reason.ByExt? ==> Polls(tasks, x, now, avail))
    {
      assert x in L;
    }
  }

  lemma QueueEmpty(tasks: Tasks)
    ensures QueueOk(tasks, [])
  {}

  lemma TakeSlot(tasks: Tasks, queue: Queue, i: nat)
    requires QueueOk(tasks, queue) && i < |queue| && queue[i].Some?
    ensures QueueOk(tasks, queue[i := None]) && !InQueue(queue[i := None], queue[i].value)
    ensures Resumable(tasks, queue[i].value)
    ensures var t := queue[i].value; t in tasks && t != ROOT && tasks[t].reason == Runnable
  {}

  lemma SlotsBelow(tasks: Tasks, queue: Queue, next: Id)
    requires QueueOk(tasks, queue) && AllBelow(tasks, next)
    ensures forall i :: 0 <= i < |queue| && queue[i].Some? ==> queue[i].value < next
  {}

  /** The first i slots are done; the others are untouched or their tasks have died. */
  ghost predicate RunTo(q0: Queue, queue: Queue, tasks: Tasks, next: Id, i: nat, resumed: seq<Id>) {
    && |queue| == |q0| && i <= |q0| && Distinct(resumed)
    && (forall k, l :: 0 <= k < l < |q0| && q0[k].Some? ==> q0[k] != q0[l])
    && (forall k :: 0 <= k < |q0| && q0[k].Some? ==> q0[k].value < next)
    && (forall k :: i <= k < |q0| ==> queue[k] == q0[k] || (queue[k].None? && q0[k].Some? && q0[k].value !in tasks))
    && (forall k :: 0 <= k < i && q0[k].Some? ==> q0[k].value in resumed || q0[k].value !in tasks)
    && (forall x :: x in resumed ==> exists k :: 0 <= k < i && q0[k] == Some(x))
    && (resumed == [] ==> queue == q0 && forall k :: 0 <= k < i ==> q0[k].None?)
  }

  lemma RunStart(tasks: Tasks, queue: Queue, next: Id)
    requires QueueOk(tasks, queue) && AllBelow(tasks, next)
    ensures RunTo(queue, queue, tasks, next, 0, [])
  {
    SlotsBelow(tasks, queue, next);
  }

  lemma RunNext(q0: Queue, t: Tasks, q: Queue, n: Id, i: nat, resumed: seq<Id>, t': Tasks, q': Queue, n': Id)
    requires RunTo(q0, q, t, n, i, resumed) && i < |q| && Progress(t, q[i := None], n, t', q', n')
    requires q[i].None? ==> q' == q
    ensures RunTo(q0, q', t', n', i + 1, if q[i].Some? then resumed + [q[i].value] else resumed)
  {
    var r := if q[i].Some? then resumed + [q[i].value] else resumed;
    forall x | x in r
      ensures exists k :: 0 <= k < i + 1 && q0[k] == Some(x)
    {
      if x in resumed {
        var k :| 0 <= k < i && q0[k] == Some(x);
      } else {
        assert q0[i] == Some(x);
      }
    }
  }

  lemma SameSlots(q0: Queue, t: Tasks, q: Queue, n: Id, i: nat, resumed: seq<Id>, t': Tasks, q': Queue, n': Id)
    requires RunTo(q0, q, t, n, i, resumed) && i < |q| && Progress(t, q[i := None], n, t', q', n')
    requires q[i].None? ==> q' == q
    ensures |q'| == |q0|
  {
    RunNext(q0, t, q, n, i, resumed, t', q', n');
  }

  lemma RunEnd(q0: Queue, queue: Queue, tasks: Tasks, next: Id, resumed: seq<Id>)
    requires RunTo(q0, queue, tasks, next, |q0|, resumed)
    ensures Distinct(resumed)
    ensures forall x :: x in resumed ==> InQueue(q0, x)
    ensures forall x :: InQueue(q0, x) ==> x in resumed || x !in tasks
    ensures resumed == [] ==> forall x :: !InQueue(q0, x)
  {}

  lemma MovedTasksOrSame(tasks: Tasks, tasks': Tasks, c: Id, p: Id)
    requires c in tasks && p in tasks && ROOT in tasks && c != ROOT && p != ROOT && c != p
    requires tasks' == Moved(tasks, c, p) || tasks' == tasks
    ensures tasks'.Keys == tasks.Keys
  {
    MovedTasks(tasks, c, p);
  }

  lemma WokenKeys(tasks: Tasks, tasks': Tasks, q: seq<Id>, n: nat)
    requires WokenFirst(tasks, tasks', q[..if n == 0 || n > |q| then |q| else n])
    ensures tasks'.Keys == tasks.Keys
  {}

  lemma WaitersIn(tasks: Tasks, single: map<nat, Waiter>, multi: map<nat, seq<Id>>, e: nat)
    requires Links(tasks, single, multi)
    ensures forall t :: t in MultiAt(multi, e) ==> t in tasks && tasks[t].reason.ByMulti?
  {
    assert MultiOk(tasks, multi, e);
  }

  lemma RootIn(tasks: Tasks, rank: Rank)
    requires Tree(tasks, rank)
    ensures ROOT in tasks
  {}

  lemma QueueAt(tasks: Tasks, queue: Queue, x: Id)
    requires QueueOk(tasks, queue) && InQueue(queue, x)
    ensures Resumable(tasks, x) && x != ROOT
  {
    var i :| 0 <= i < |queue| && queue[i] == Some(x);
  }

  lemma RootNotQueued(tasks: Tasks, queue: Queue)
    requires QueueOk(tasks, queue)
    ensures !InQueue(queue, ROOT)
  {
    if InQueue(queue, ROOT) {
      QueueAt(tasks, queue, ROOT);
    }
  }

  lemma QueueFrame(tasks: Tasks, tasks': Tasks, queue: Queue)
    requires QueueOk(tasks, queue) && forall x :: InQueue(queue, x) ==> Resumable(tasks', x)
    ensures QueueOk(tasks', queue)
  {
    forall i | 0 <= i < |queue| && queue[i].Some?
      ensures Resumable(tasks', queue[i].value)
    {
      assert InQueue(queue, queue[i].value);
    }
  }

  lemma PushedResumable(tasks: Tasks, p: Id, t: Id, x: Id)
    requires p in tasks && t !in tasks && x != p && Resumable(tasks, x)
    ensures Resumable(Pushed(tasks, p, t), x)
  {}

  lemma PushedReasons(tasks: Tasks, p: Id, t: Id)
    requires p in tasks && t !in tasks
    ensures forall x :: x in Pushed(tasks, p, t) ==>
      Pushed(tasks, p, t)[x].reason == if x == t then Runnable else tasks[x].reason
  {}
}
