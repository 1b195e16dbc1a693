/** The tasks of the platform event loop, the order in which they fire, and what it means
    to take the expired ones. */
module Tasks {

  /** The engine's handle for a task; the embedder only hands it back. */
  type FlutterTask = nat

  datatype Task = Task(order: nat, fireTime: nat, task: FlutterTask)

  /** The comparison handed to the priority queue: true when `a` must fire after `b`. */
  predicate FiresAfter(a: Task, b: Task) {
    if a.fireTime == b.fireTime then a.order > b.order else a.fireTime > b.fireTime
  }

  /** `t` is an element of `q` that no other element precedes: what top() returns. */
  ghost predicate IsTop(t: Task, q: multiset<Task>) {
    t in q && forall u :: u in q ==> !FiresAfter(t, u)
  }

  ghost predicate Sorted(s: seq<Task>) {
    forall i, j :: 0 <= i < j < |s| ==> !FiresAfter(s[i], s[j])
  }

  /** Order numbers identify tasks, and every task occurs once. */
  ghost predicate DistinctOrders(q: multiset<Task>) {
    && (forall t :: t in q ==> q[t] == 1)
    && (forall t, u :: t in q && u in q && t.order == u.order ==> t == u)
  }

  function Insert(t: Task, s: seq<Task>): seq<Task> {
    if s == [] then [t]
    else if FiresAfter(t, s[0]) then [s[0]] + Insert(t, s[1..])
    else [t] + s
  }

  function Sort(s: seq<Task>): seq<Task> {
    if s == [] then [] else Insert(s[0], Sort(s[1..]))
  }

  /** The longest prefix of tasks that are due at `now`. */
  function CutAt(s: seq<Task>, now: nat): seq<Task> {
    if s == [] || s[0].fireTime > now then [] else [s[0]] + CutAt(s[1..], now)
  }

  /** What remains once `CutAt` has been taken off. */
  function Rest(s: seq<Task>, now: nat): seq<Task> {
    if s == [] || s[0].fireTime > now then s else Rest(s[1..], now)
  }

  /** The batch of a drain at `now`: sort the queue, cut at now. */
  function Batch(q: seq<Task>, now: nat): seq<Task> {
    CutAt(Sort(q), now)
  }

  function Leftover(q: seq<Task>, now: nat): seq<Task> {
    Rest(Sort(q), now)
  }

  /** The wake-up time is the least fire time of the queue, and 0 for an empty queue. */
  ghost predicate IsNextWake(wake: nat, q: multiset<Task>) {
    if |q| == 0 then wake == 0
    else (exists t :: t in q && t.fireTime == wake) && (forall t :: t in q ==> wake <= t.fireTime)
  }

  // ---------- the order ----------

  /** A strict weak order, as std::priority_queue demands, and total on distinct order numbers. */
  lemma FiresAfterIsStrictOrder(a: Task, b: Task, c: Task)
    ensures !FiresAfter(a, a)
    ensures FiresAfter(a, b) ==> !FiresAfter(b, a)
    ensures FiresAfter(a, b) && FiresAfter(b, c) ==> FiresAfter(a, c)
    ensures !FiresAfter(a, b) && !FiresAfter(b, c) ==> !FiresAfter(a, c)
    ensures a.order != b.order ==> FiresAfter(a, b) || FiresAfter(b, a)
  {
  }

  /** No task of `q` fires before `t`. */
  ghost predicate NoneBefore(t: Task, q: multiset<Task>) {
    forall u :: u in q ==> !FiresAfter(t, u)
  }

  lemma ConsSorted(t: Task, s: seq<Task>)
    ensures Sorted([t] + s) <==> NoneBefore(t, multiset(s)) && Sorted(s)
    ensures multiset([t] + s) == multiset{t} + multiset(s)
  {
    var c := [t] + s;
    if Sorted(c) {
      forall u | u in multiset(s) ensures !FiresAfter(t, u) {
        var i :| 0 <= i < |s| && s[i] == u;
        assert c[i + 1] == u && c[0] == t;
      }
      forall i, j | 0 <= i < j < |s| ensures !FiresAfter(s[i], s[j]) {
        assert c[i + 1] == s[i] && c[j + 1] == s[j];
      }
    }
    if NoneBefore(t, multiset(s)) && Sorted(s) {
      forall i, j | 0 <= i < j < |c| ensures !FiresAfter(c[i], c[j]) {
        assert c[j] == s[j - 1] && s[j - 1] in multiset(s);
      }
    }
  }

  lemma {:induction false} InsertSorts(t: Task, s: seq<Task>)
    requires Sorted(s)
    ensures Sorted(Insert(t, s)) && multiset(Insert(t, s)) == multiset{t} + multiset(s)
  {
    if s == [] {
    } else {
      assert s == [s[0]] + s[1..];
      ConsSorted(s[0], s[1..]);
      if FiresAfter(t, s[0]) {
        InsertSorts(t, s[1..]);
        ConsSorted(s[0], Insert(t, s[1..]));
      } else {
        ConsSorted(t, s);
      }
    }
  }

  lemma {:induction false} SortSorts(s: seq<Task>)
    ensures Sorted(Sort(s)) && multiset(Sort(s)) == multiset(s)
  {
    if s == [] {
    } else {
      SortSorts(s[1..]);
      InsertSorts(s[0], Sort(s[1..]));
      assert s == [s[0]] + s[1..];
    }
  }

  lemma SplitHead(s: seq<Task>)
    requires s != [] && Sorted(s)
    ensures multiset(s) == multiset{s[0]} + multiset(s[1..])
    ensures NoneBefore(s[0], multiset(s[1..])) && Sorted(s[1..])
  {
    assert s == [s[0]] + s[1..];
    ConsSorted(s[0], s[1..]);
  }

  lemma SameHead(a: Task, restA: multiset<Task>, b: Task, restB: multiset<Task>)
    requires multiset{a} + restA == multiset{b} + restB
    requires NoneBefore(a, restA) && NoneBefore(b, restB)
    requires DistinctOrders(multiset{a} + restA)
    ensures a == b
  {
  }

  lemma DistinctInPart(part: multiset<Task>, q: multiset<Task>)
    requires part <= q && DistinctOrders(q)
    ensures DistinctOrders(part)
  {
  }

  lemma SameFirst(a: seq<Task>, b: seq<Task>)
    requires a != [] && b != [] && Sorted(a) && Sorted(b) && multiset(a) == multiset(b)
    requires DistinctOrders(multiset(a))
    ensures a[0] == b[0] && multiset(a[1..]) == multiset(b[1..])
    ensures Sorted(a[1..]) && Sorted(b[1..]) && DistinctOrders(multiset(a[1..]))
  {
    SplitHead(a);
    SplitHead(b);
    SameHead(a[0], multiset(a[1..]), b[0], multiset(b[1..]));
    assert multiset(a[1..]) == multiset(a) - multiset{a[0]} == multiset(b[1..]);
    DistinctInPart(multiset(a[1..]), multiset(a));
  }

  /** A queue of tasks with distinct order numbers has one firing order. */
  lemma {:induction false} SortedOrderIsUnique(a: seq<Task>, b: seq<Task>)
    requires Sorted(a) && Sorted(b) && multiset(a) == multiset(b)
    requires DistinctOrders(multiset(a))
    ensures a == b
  {
    assert |a| == |multiset(a)| == |multiset(b)| == |b|;
    if a != [] {
      SameFirst(a, b);
      SortedOrderIsUnique(a[1..], b[1..]);
      assert a == [a[0]] + a[1..];
      assert b == [b[0]] + b[1..];
    }
  }

  lemma {:induction false} CutSplits(s: seq<Task>, now: nat)
    ensures s == CutAt(s, now) + Rest(s, now)
  {
    if s != [] && s[0].fireTime <= now {
      CutSplits(s[1..], now);
      assert s == [s[0]] + s[1..];
    }
  }

  lemma {:induction false} CutIsDue(s: seq<Task>, now: nat)
    ensures forall t :: t in CutAt(s, now) ==> t.fireTime <= now
  {
    if s != [] && s[0].fireTime <= now {
      CutIsDue(s[1..], now);
    }
  }

  lemma {:induction false} RestIsLater(s: seq<Task>, now: nat)
    requires Sorted(s)
    ensures forall t :: t in Rest(s, now) ==> t.fireTime > now
  {
    if s != [] {
      if s[0].fireTime > now {
        NoneDue(s, now);
      } else {
        SplitHead(s);
        RestIsLater(s[1..], now);
      }
    }
  }

  lemma CutSplitsSorted(s: seq<Task>, now: nat)
    requires Sorted(s)
    ensures s == CutAt(s, now) + Rest(s, now)
    ensures forall t :: t in CutAt(s, now) ==> t.fireTime <= now
    ensures forall t :: t in Rest(s, now) ==> t.fireTime > now
  {
    CutSplits(s, now);
    CutIsDue(s, now);
    RestIsLater(s, now);
  }

  lemma NoneDue(s: seq<Task>, now: nat)
    requires s != [] && Sorted(s) && s[0].fireTime > now
    ensures forall t :: t in s ==> t.fireTime > now
  {
  }

  /** Taking the top next keeps a batch sorted and before what is left. */
  lemma TakeTop(expired: seq<Task>, top: Task, q: multiset<Task>)
    requires Sorted(expired) && IsTop(top, q)
    requires forall t :: t in expired ==> NoneBefore(t, q)
    ensures Sorted(expired + [top])
    ensures forall t :: t in expired + [top] ==> NoneBefore(t, q - multiset{top})
  {
    forall i | 0 <= i < |expired| ensures !FiresAfter(expired[i], top) {
      assert expired[i] in expired;
    }
  }

  /** The batch holds exactly the due tasks, in firing order, and what is left is strictly later. */
  lemma BatchIsExactlyTheDueTasks(q: seq<Task>, now: nat)
    ensures multiset(Batch(q, now)) + multiset(Leftover(q, now)) == multiset(q)
    ensures Sorted(Batch(q, now))
    ensures forall t :: t in q ==> (t in Batch(q, now) <==> t.fireTime <= now)
    ensures forall t :: t in Leftover(q, now) ==> t.fireTime > now
    ensures |Batch(q, now)| <= |q|
  {
    SortSorts(q);
    CutSplitsSorted(Sort(q), now);
    var b, r := Batch(q, now), Leftover(q, now);
    assert forall i :: 0 <= i < |b| ==> b[i] == Sort(q)[i];
    assert |q| == |multiset(q)| == |multiset(b + r)| == |b| + |r|;
    forall t | t in q ensures t in b <==> t.fireTime <= now {
      assert t in multiset(b + r);
    }
  }

  /** Any way of splitting the queue into a sorted list of due tasks and a list of later ones
      yields the batch. */
  lemma SplitIsBatch(q: seq<Task>, now: nat, taken: seq<Task>, left: multiset<Task>)
    requires DistinctOrders(multiset(q))
    requires multiset(taken) + left == multiset(q)
    requires Sorted(taken)
    requires forall t :: t in taken ==> t.fireTime <= now
    requires forall t :: t in left ==> t.fireTime > now
    ensures taken == Batch(q, now) && left == multiset(Leftover(q, now))
  {
    var b, r := Batch(q, now), multiset(Leftover(q, now));
    BatchIsExactlyTheDueTasks(q, now);
    forall t ensures multiset(taken)[t] == multiset(b)[t] && left[t] == r[t] {
      if t.fireTime <= now {
        assert t !in left && t !in Leftover(q, now);
        assert left[t] == 0 && r[t] == 0;
      } else {
        assert t !in taken && t !in b by { SortSorts(q); CutSplitsSorted(Sort(q), now); }
        assert multiset(taken)[t] == 0 && multiset(b)[t] == 0;
      }
      assert (multiset(taken) + left)[t] == (multiset(b) + r)[t];
    }
    assert multiset(taken) == multiset(b);
    assert left == r;
    DistinctInPart(multiset(taken), multiset(q));
    SortedOrderIsUnique(taken, b);
  }
}
