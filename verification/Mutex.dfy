/** The hand-off mutex and its guards (coop: mutex.hpp, lock-guard.hpp) on top of the waiter
    list of a multi event. A ticket names one call of lock(). */
module Mutexes {
  import opened Coop

  /** Who has the mutex: nobody, a guard, a waiter it was handed to that has not resumed yet,
      or nobody any more although it is held. */
  datatype Holder = Free | Owned | Granted(ticket: nat) | Lost

  datatype State = State(held: bool, waiters: seq<nat>, holder: Holder, asked: nat, cancelled: set<nat>, grants: seq<nat>)

  const INITIAL: State := State(false, [], Free, 0, {}, [])

  datatype Act = Lock | Resume | Unlock | Cancel(ticket: nat)

  /** Cancel destroys the coroutine that waits in lock(); a cancelled owner unlocks instead,
      by the destructor of its guard. */
  function Step(v: State, a: Act): State {
    match a
    case Lock =>
      if v.held then v.(waiters := v.waiters + [v.asked], asked := v.asked + 1)
      else v.(held := true, holder := Owned, grants := v.grants + [v.asked], asked := v.asked + 1)
    case Resume =>
      if v.holder.Granted? then v.(holder := Owned) else v
    case Unlock =>
      if v.holder != Owned then v
      else if v.waiters == [] then v.(held := false, holder := Free)
      else v.(holder := Granted(v.waiters[0]), grants := v.grants + [v.waiters[0]], waiters := v.waiters[1..])
    case Cancel(t) =>
      if t in v.waiters then v.(waiters := Without(v.waiters, {t}), cancelled := v.cancelled + {t})
      else if v.holder == Granted(t) then v.(holder := Lost)
      else v
  }

  function UpTo(n: nat): seq<nat> {
    if n == 0 then [] else UpTo(n - 1) + [n - 1]
  }

  /** Held exactly when somebody has it; waiters only while it is held; and the tickets
      granted so far followed by those waiting are all tickets not cancelled, in order. */
  ghost predicate Inv(v: State) {
    && (v.held <==> v.holder != Free)
    && (v.waiters != [] ==> v.held)
    && (forall t :: t in v.cancelled ==> t < v.asked)
    && v.grants + v.waiters == Without(UpTo(v.asked), v.cancelled)
    && (v.holder.Granted? ==> v.grants != [] && v.holder.ticket == v.grants[|v.grants| - 1])
  }

  lemma {:induction false} UpToItems(n: nat)
    ensures |UpTo(n)| == n && forall i :: 0 <= i < n ==> UpTo(n)[i] == i
    ensures Distinct(UpTo(n)) && forall x :: x in UpTo(n) ==> x < n
  {
    if n > 0 {
      UpToItems(n - 1);
    }
  }

  lemma UpToNext(n: nat, D: set<nat>)
    requires forall t :: t in D ==> t < n
    ensures Without(UpTo(n + 1), D) == Without(UpTo(n), D) + [n]
  {
    assert UpTo(n + 1)[..n] == UpTo(n) by { UpToItems(n); }
    UpToItems(n + 1);
  }

  lemma StepKeeps(v: State, a: Act)
    requires Inv(v)
    ensures Inv(Step(v, a))
  {
    match a
    case Lock =>
      UpToNext(v.asked, v.cancelled);
      assert (v.grants + v.waiters) + [v.asked] == v.grants + (v.waiters + [v.asked]);
      assert v.waiters == [] ==> v.grants + v.waiters == v.grants;
      assert v.waiters == [] ==> (v.grants + [v.asked]) + [] == v.grants + [v.asked];
    case Resume =>
    case Unlock =>
      if v.holder == Owned && v.waiters != [] {
        assert v.waiters == [v.waiters[0]] + v.waiters[1..];
        assert (v.grants + [v.waiters[0]]) + v.waiters[1..] == v.grants + v.waiters;
      }
    case Cancel(t) =>
      if t in v.waiters {
        CancelWaiting(v, t);
      }
  }

  lemma CancelWaiting(v: State, t: nat)
    requires Inv(v) && t in v.waiters
    ensures Inv(Step(v, Act.Cancel(t)))
  {
    hide Without;
    UpToItems(v.asked);
    WithoutItems(UpTo(v.asked), v.cancelled);
    var all := v.grants + v.waiters;
    assert t in all;
    assert t < v.asked;
    forall x | x in v.grants
      ensures x !in {t}
    {
      var i :| 0 <= i < |v.grants| && v.grants[i] == x;
      var j :| 0 <= j < |v.waiters| && v.waiters[j] == t;
      assert all[i] == x && all[|v.grants| + j] == t;
    }
    WithoutNone(v.grants, {t});
    WithoutConcat(v.grants, v.waiters, {t});
    WithoutTwice(UpTo(v.asked), v.cancelled, {t});
    WithoutItems(v.waiters, {t});
  }

  /** The states of a run from the initial mutex. */
  ghost predicate IsRun(run: seq<State>, acts: seq<Act>) {
    && |run| == |acts| + 1 && run[0] == INITIAL
    && forall i :: 0 <= i < |acts| ==> run[i + 1] == Step(run[i], acts[i])
  }

  lemma RunPrefix(run: seq<State>, acts: seq<Act>)
    requires IsRun(run, acts) && |acts| > 0
    ensures IsRun(run[..|acts|], acts[..|acts| - 1])
  {}

  lemma {:induction false} RunKeeps(run: seq<State>, acts: seq<Act>)
    requires IsRun(run, acts)
    ensures Inv(run[|acts|])
  {
    if |acts| > 0 {
      var n := |acts| - 1;
      RunPrefix(run, acts);
      RunKeeps(run[..n + 1], acts[..n]);
      StepKeeps(run[n], acts[n]);
    }
  }

  /** No barging: in every run, a call of lock() that came before a granted one was granted
      before it or has been cancelled while it waited. */
  lemma FirstComeFirstServed(run: seq<State>, acts: seq<Act>, s: nat, j: nat)
    requires IsRun(run, acts) && j < |run[|acts|].grants| && s < run[|acts|].grants[j]
    ensures s in run[|acts|].cancelled || exists i :: 0 <= i < j && run[|acts|].grants[i] == s
  {
    var v := run[|acts|];
    RunKeeps(run, acts);
    if s !in v.cancelled {
      var all := Without(UpTo(v.asked), v.cancelled);
      assert all[j] == v.grants[j];
      WithoutSorted(v.asked, v.cancelled);
      UpToItems(v.asked);
      WithoutItems(UpTo(v.asked), v.cancelled);
      assert all[j] in all;
      assert s == UpTo(v.asked)[s];
      assert s in all;
      var i :| 0 <= i < |all| && all[i] == s;
      assert v.grants[i] == s;
    }
  }

  lemma {:induction false} WithoutSorted(n: nat, D: set<nat>)
    ensures forall i, j :: 0 <= i < j < |Without(UpTo(n), D)| ==> Without(UpTo(n), D)[i] < Without(UpTo(n), D)[j]
  {
    if n > 0 {
      WithoutSorted(n - 1, D);
      UpToItems(n - 1);
      WithoutItems(UpTo(n - 1), D);
      assert UpTo(n)[..|UpTo(n)| - 1] == UpTo(n - 1);
      var w := Without(UpTo(n - 1), D);
      assert forall i :: 0 <= i < |w| ==> w[i] in w;
    }
  }

  /** Action n cancels a waiter that the mutex was handed to and that has not resumed. */
  ghost predicate CancelsGranted(run: seq<State>, acts: seq<Act>, n: int) {
    0 <= n < |acts| && n < |run| && acts[n].Cancel? && run[n].holder == Granted(acts[n].ticket)
  }

  /** The mutex is held by nobody exactly when some waiter was cancelled between being handed
      the mutex and resuming. */
  lemma {:induction false} LostIff(run: seq<State>, acts: seq<Act>)
    requires IsRun(run, acts)
    ensures run[|acts|].holder == Lost <==> exists n :: CancelsGranted(run, acts, n)
  {
    if |acts| > 0 {
      var n := |acts| - 1;
      RunPrefix(run, acts);
      var run', acts' := run[..n + 1], acts[..n];
      LostIff(run', acts');
      RunKeeps(run', acts');
      if k :| CancelsGranted(run', acts', k) {
        assert CancelsGranted(run, acts, k);
      }
      GrantedIsNoWaiter(run[n]);
      if k :| CancelsGranted(run, acts, k) {
        assert k < n ==> CancelsGranted(run', acts', k);
      }
      if run[n + 1].holder == Lost && run[n].holder != Lost {
        assert CancelsGranted(run, acts, n);
      }
    }
  }

  /** A ticket is granted or waiting, never both. */
  lemma GrantedIsNoWaiter(v: State)
    requires Inv(v)
    ensures v.holder.Granted? ==> v.holder.ticket !in v.waiters
  {
    UpToItems(v.asked);
    WithoutItems(UpTo(v.asked), v.cancelled);
    var all := v.grants + v.waiters;
    forall j | 0 <= j < |v.waiters| && v.holder.Granted?
      ensures v.waiters[j] != v.holder.ticket
    {
      assert all[|v.grants| - 1] != all[|v.grants| + j];
    }
  }

  lemma LostStep(v: State, a: Act)
    requires Inv(v) && v.holder == Lost
    ensures Step(v, a).holder == Lost && Step(v, a).grants == v.grants
  {}

  /** After such a cancellation the mutex stays held by nobody, and no call of lock() is
      ever granted again. */
  lemma {:induction false} LostForever(run: seq<State>, acts: seq<Act>, n: nat, k: nat)
    requires IsRun(run, acts) && CancelsGranted(run, acts, n) && n < k <= |acts|
    ensures run[k].holder == Lost && run[k].held && run[k].grants == run[n].grants
  {
    assert IsRun(run[..k], acts[..k - 1]);
    RunKeeps(run[..k], acts[..k - 1]);
    assert run[k] == Step(run[k - 1], acts[k - 1]);
    if k == n + 1 {
      GrantedIsNoWaiter(run[n]);
    } else {
      LostForever(run, acts, n, k - 1);
      LostStep(run[k - 1], acts[k - 1]);
    }
  }

  /** Two calls, a hand-over, a cancellation: held, with no owner and no waiter. */
  lemma CancelledHandOver()
    ensures var v := Step(Step(Step(Step(INITIAL, Lock), Lock), Unlock), Act.Cancel(1));
            v.held && v.holder == Lost && v.waiters == []
  {
    var v := Step(Step(INITIAL, Lock), Lock);
    assert v.waiters == [1];
    assert Step(v, Unlock) == v.(holder := Granted(1), grants := [0, 1], waiters := []);
  }

  // ----- mutexes and guards as objects

  /** `waiters` is the waiter list of the mutex's event; `asked` numbers the calls of lock(). */
  class Mutex {
    var held: bool
    var waiters: seq<nat>
    var asked: nat
    ghost var holder: Holder
    ghost var cancelled: set<nat>
    ghost var grants: seq<nat>
    ghost var owner: LockGuard?

    ghost function View(): State
      reads this
    {
      State(held, waiters, holder, asked, cancelled, grants)
    }

    constructor ()
      ensures View() == INITIAL && owner == null
    {
      held, waiters, asked, holder, cancelled, grants, owner := false, [], 0, Free, {}, [], null;
    }

    /** The await of lock(): takes a free mutex at once, otherwise joins the waiters. */
    method Await() returns (ready: bool)
      requires Inv(View())
      modifies this`held, this`waiters, this`asked, this`holder, this`grants
      ensures View() == Step(old(View()), Act.Lock) && Inv(View()) && ready == !old(held)
    {
      StepKeeps(View(), Act.Lock);
      ready := !held;
      held := true;
      if ready {
        grants := grants + [asked];
        holder := Owned;
      } else {
        waiters := waiters + [asked];
      }
      asked := asked + 1;
    }

    /** Hands the mutex to the waiter that came first, or frees it. */
    method Unlock()
      requires Inv(View()) && holder == Owned
      modifies this`held, this`waiters, this`holder, this`grants
      ensures View() == Step(old(View()), Act.Unlock) && Inv(View())
    {
      StepKeeps(View(), Act.Unlock);
      if |waiters| == 0 {
        held := false;
        holder := Free;
      } else {
        holder := Granted(waiters[0]);
        grants := grants + [waiters[0]];
        waiters := waiters[1..];
      }
    }

    /** Destroys the coroutine that waits with this ticket, wherever it is waiting. */
    method CancelWaiter(t: nat)
      requires Inv(View())
      modifies this`waiters, this`holder, this`cancelled
      ensures View() == Step(old(View()), Act.Cancel(t)) && Inv(View())
    {
      StepKeeps(View(), Act.Cancel(t));
      if t in waiters {
        waiters := Without(waiters, {t});
        cancelled := cancelled + {t};
      } else if holder == Granted(t) {
        holder := Lost;
      }
    }
  }

  class LockGuard {
    var mutex: Mutex?

    constructor ()
      ensures mutex == null
    {
      mutex := null;
    }
  }

  /** All mutexes and live guards of a program. */
  class World {
    ghost var mutexes: set<Mutex>
    ghost var guards: set<LockGuard>

    /** A mutex is owned exactly by the one live guard that points to it. */
    ghost predicate Valid()
      reads this, mutexes, guards
    {
      && (forall m :: m in mutexes ==> Inv(m.View()) && (m.holder == Owned ==> m.owner in guards && m.owner.mutex == m))
      && (forall g :: g in guards && g.mutex != null ==>
            g.mutex in mutexes && g.mutex.holder == Owned && g.mutex.owner == g)
    }

    constructor ()
      ensures Valid() && mutexes == {} && guards == {}
    {
      mutexes, guards := {}, {};
    }

    method NewMutex() returns (m: Mutex)
      requires Valid()
      modifies this`mutexes
      ensures Valid() && fresh(m) && mutexes == old(mutexes) + {m} && m.View() == INITIAL
    {
      m := new Mutex();
      UpToItems(0);
      mutexes := mutexes + {m};
    }

    /** LockGuard::lock up to its await. */
    method LockStart(m: Mutex) returns (g: LockGuard?)
      requires Valid() && m in mutexes
      modifies this`guards, m
      ensures Valid() && m.View() == Step(old(m.View()), Act.Lock) && (g != null <==> !old(m.held))
      ensures guards == if g == null then old(guards) else old(guards) + {g}
      ensures g != null ==> fresh(g) && g.mutex == m
    {
      hide Without, UpTo;
      var ready := m.Await();
      g := null;
      if ready {
        g := NewGuard(m);
      }
    }

    /** The rest of LockGuard::lock, once the mutex is this call's. */
    method NewGuard(m: Mutex) returns (g: LockGuard)
      requires m in mutexes && m.holder == Owned && Inv(m.View())
      requires forall d :: d in guards ==> d.mutex != m
      requires forall n :: n in mutexes && n != m ==> Inv(n.View()) && (n.holder == Owned ==> n.owner in guards && n.owner.mutex == n)
      requires forall d :: d in guards && d.mutex != null ==> d.mutex in mutexes && d.mutex.holder == Owned && d.mutex.owner == d
      modifies this`guards, m`owner
      ensures Valid() && fresh(g) && g.mutex == m && guards == old(guards) + {g} && m.View() == old(m.View())
    {
      g := new LockGuard();
      g.mutex := m;
      m.owner := g;
      guards := guards + {g};
    }

    /** The waiter the mutex was handed to resumes and gets its guard. */
    method Resume(m: Mutex) returns (g: LockGuard)
      requires Valid() && m in mutexes && m.holder.Granted?
      modifies this`guards, m`holder, m`owner
      ensures Valid() && m.View() == Step(old(m.View()), Act.Resume)
      ensures fresh(g) && g.mutex == m && guards == old(guards) + {g}
    {
      hide Without, UpTo;
      m.holder := Owned;
      g := NewGuard(m);
    }

    /** LockGuard::unlock: an empty guard does nothing. */
    method Unlock(g: LockGuard)
      requires Valid() && g in guards
      modifies g, mutexes
      ensures Valid() && g.mutex == null
      ensures forall m :: m in mutexes ==>
        m.View() == if m == old(g.mutex) then Step(old(m.View()), Act.Unlock) else old(m.View())
      ensures forall m :: m in mutexes ==> m.owner == old(m.owner)
    {
      hide Without, UpTo;
      if g.mutex != null {
        g.mutex.Unlock();
        g.mutex := null;
      }
    }

    /** Move assignment: what g held is released, and g takes over from the other guard. */
    method Assign(g: LockGuard, other: LockGuard)
      requires Valid() && g in guards && other in guards
      modifies g, other, mutexes
      ensures Valid() && other.mutex == null && g.mutex == if g == other then null else old(other.mutex)
      ensures forall m :: m in mutexes ==>
        m.View() == if m == old(g.mutex) then Step(old(m.View()), Act.Unlock) else old(m.View())
    {
      hide Without, UpTo, Inv, Step;
      Unlock(g);
      g.mutex := other.mutex;
      other.mutex := null;
      if g.mutex != null {
        g.mutex.owner := g;
      }
    }

    /** Move construction. */
    method Move(other: LockGuard) returns (g: LockGuard)
      requires Valid() && other in guards
      modifies this`guards, other, mutexes
      ensures Valid() && fresh(g) && guards == old(guards) + {g}
      ensures other.mutex == null && g.mutex == old(other.mutex)
      ensures forall m :: m in mutexes ==> m.View() == old(m.View())
    {
      hide Without, UpTo, Inv, Step;
      g := new LockGuard();
      guards := guards + {g};
      Assign(g, other);
    }

    /** The destructor, also run when the task that has the guard is cancelled. */
    method Destroy(g: LockGuard)
      requires Valid() && g in guards
      modifies this`guards, g, mutexes
      ensures Valid() && guards == old(guards) - {g}
      ensures forall m :: m in mutexes ==>
        m.View() == if m == old(g.mutex) then Step(old(m.View()), Act.Unlock) else old(m.View())
    {
      hide Without, UpTo, Inv, Step;
      Unlock(g);
      guards := guards - {g};
    }

    /** Cancels a task that waits in lock(). */
    method CancelWaiter(m: Mutex, t: nat)
      requires Valid() && m in mutexes
      modifies m`waiters, m`holder, m`cancelled
      ensures Valid() && m.View() == Step(old(m.View()), Act.Cancel(t))
    {
      hide Without, UpTo;
      m.CancelWaiter(t);
    }

    /** At most one live guard holds a mutex, and waiters mean that it is held. */
    lemma Exclusive(g: LockGuard, h: LockGuard)
      requires Valid() && g in guards && h in guards && g.mutex != null && g.mutex == h.mutex
      ensures g == h && g.mutex.held
    {}
  }
}
