/** The platform event loop: posting a task, and draining and firing the expired ones. */
module PlatformEventLoops {
  import opened Tasks
  import opened TaskQueues
  import opened TimeEncoding

  /** One call of PostTask. `refusals` is how often the write to the event descriptor is turned
      away with EAGAIN before it succeeds. */
  datatype Post = Post(task: FlutterTask, target: UInt64, refusals: nat)

  /** The tasks that a sequence of posts creates, numbered from `first` on. */
  function Numbered(posts: seq<Post>, first: nat): seq<Task> {
    seq(|posts|, i requires 0 <= i < |posts| => Task(first + i, posts[i].target, posts[i].task))
  }

  /** The posts made while the tasks of a batch run, in order. */
  function PostsDuring(batch: seq<Task>, arrivals: Task -> seq<Post>): seq<Post> {
    if batch == [] then [] else arrivals(batch[0]) + PostsDuring(batch[1..], arrivals)
  }

  /** All order numbers lie between `lo` and `hi`. */
  ghost predicate OrdersWithin(q: multiset<Task>, lo: nat, hi: nat) {
    forall t :: t in q ==> lo <= t.order <= hi
  }

  /** Numbering continues where the previous posts left off. */
  lemma NumberedConcat(a: seq<Post>, b: seq<Post>, first: nat)
    ensures Numbered(a + b, first) == Numbered(a, first) + Numbered(b, first + |a|)
  {
  }

  /** Order numbers are handed out consecutively from 1. */
  ghost predicate NumberedFromOne(s: seq<Task>) {
    forall i :: 0 <= i < |s| ==> s[i].order == i + 1
  }

  lemma NumberedOrders(posts: seq<Post>, first: nat)
    ensures forall t :: t in Numbered(posts, first) ==> first <= t.order < first + |posts|
  {
  }

  /** Since `before`, the callback was given exactly the handles of `tasks`, in order. */
  ghost predicate Handed(ran: seq<FlutterTask>, before: seq<FlutterTask>, tasks: seq<Task>) {
    && |ran| == |before| + |tasks| && before <= ran
    && forall i :: 0 <= i < |tasks| ==> ran[|before| + i] == tasks[i].task
  }

  lemma HandedOneMore(ran: seq<FlutterTask>, before: seq<FlutterTask>, tasks: seq<Task>, i: nat)
    requires i < |tasks| && Handed(ran, before, tasks[..i])
    ensures Handed(ran + [tasks[i].task], before, tasks[..i + 1])
  {
    assert tasks[..i + 1] == tasks[..i] + [tasks[i]];
  }

  class PlatformEventLoop {
    const queue: TaskQueue
    var lastOrder: nat        // the static order counter of PostTask
    var eventfd: nat          // the counter behind the notify descriptor
    var mutexHeld: bool       // whether task_queue_mutex_ is held by the thread running a method
    var ran: seq<FlutterTask> // what the engine's callback was given, in order
    ghost var posted: seq<Task>
    ghost var taken: seq<Task>  // drained, not fired yet
    ghost var fired: seq<Task>

    ghost predicate Valid()
      reads this, queue
    {
      && !mutexHeld
      && IsHeap(queue.heap)
      && NumberedFromOne(posted) && lastOrder == |posted|
      && multiset(posted) == multiset(fired + taken) + multiset(queue.heap)
    }

    constructor ()
      ensures Valid() && fresh(queue)
      ensures queue.heap == [] && taken == [] && fired == [] && ran == [] && eventfd == 0 && lastOrder == 0
    {
      queue := new TaskQueue();
      lastOrder, eventfd, mutexHeld := 0, 0, false;
      ran, posted, taken, fired := [], [], [], [];
    }

    /** Retries the write until it is not refused; it adds one to the counter. */
    method Wake(refusals: nat)
      requires !mutexHeld
      modifies this`eventfd
      ensures eventfd == old(eventfd) + 1
    {
      var left, again := refusals, true;
      while again
        invariant eventfd == old(eventfd) + if again then 0 else 1
        decreases again, left
      {
        if left > 0 {
          left := left - 1;
        } else {
          eventfd := eventfd + 1;
          again := false;
        }
      }
    }

    /** Pushes a task, under the mutex. */
    method PushLocked(t: Task)
      requires mutexHeld && IsHeap(queue.heap)
      modifies queue
      ensures IsHeap(queue.heap) && multiset(queue.heap) == multiset(old(queue.heap)) + multiset{t}
    {
      queue.Push(t);
    }

    method PostTask(p: Post)
      requires Valid()
      modifies this, queue
      ensures Valid()
      ensures lastOrder == old(lastOrder) + 1 && eventfd == old(eventfd) + 1
      ensures taken == old(taken) && fired == old(fired) && ran == old(ran)
      ensures multiset(queue.heap) ==
              multiset(old(queue.heap)) + multiset{Task(old(lastOrder) + 1, p.target, p.task)}
    {
      lastOrder := lastOrder + 1;
      var t := Task(lastOrder, p.target, p.task);
      mutexHeld := true;
      PushLocked(t);
      posted := posted + [t];
      mutexHeld := false;
      Wake(p.refusals);
    }

    /** The callback of a fired task, which hands the engine its own handle back. It and other threads
        may post while it runs, which the mutex must not prevent: PostTask would wait for ever. */
    method OnTaskExpired(task: FlutterTask, posts: seq<Post>)
      requires Valid() && !mutexHeld
      modifies this, queue
      ensures Valid() && taken == old(taken) && fired == old(fired)
      ensures ran == old(ran) + [task]
      ensures lastOrder == old(lastOrder) + |posts| && eventfd == old(eventfd) + |posts|
      ensures multiset(queue.heap) == AfterPosts(multiset(old(queue.heap)), posts, old(lastOrder))
    {
      ran := ran + [task];
      for i := 0 to |posts|
        invariant Valid() && taken == old(taken) && fired == old(fired) && ran == old(ran) + [task]
        invariant lastOrder == old(lastOrder) + i && eventfd == old(eventfd) + i
        invariant multiset(queue.heap) == AfterPosts(multiset(old(queue.heap)), posts[..i], old(lastOrder))
      {
        PostTask(posts[i]);
        AfterOnePost(multiset(old(queue.heap)), posts, i, old(lastOrder));
      }
      assert posts[..|posts|] == posts;
    }

    /** Moves the top of the queue to the batch for as long as it is due, under the mutex. */
    method TakeExpired(now: UInt64) returns (expired: seq<Task>)
      requires mutexHeld && IsHeap(queue.heap) && DistinctOrders(multiset(queue.heap))
      modifies queue
      ensures IsHeap(queue.heap)
      ensures expired == Batch(old(queue.heap), now)
      ensures multiset(queue.heap) == multiset(Leftover(old(queue.heap), now))
    {
      ghost var q := multiset(queue.heap);
      expired := [];
      while queue.heap != []
        invariant IsHeap(queue.heap)
        invariant multiset(expired) + multiset(queue.heap) == q
        invariant Sorted(expired) && forall t :: t in expired ==> t.fireTime <= now
        invariant forall t :: t in expired ==> NoneBefore(t, multiset(queue.heap))
        decreases |queue.heap|
      {
        var top := queue.Top();
        if top.fireTime > now {
          break;
        }
        TakeTop(expired, top, multiset(queue.heap));
        expired := expired + [top];
        queue.Pop();
        assert |queue.heap| == |multiset(queue.heap)|;
      }
      if queue.heap != [] {
        HeapTop(queue.heap);
      }
      SplitIsBatch(old(queue.heap), now, expired, multiset(queue.heap));
    }

    /** Takes the expired tasks off the queue, under the mutex. */
    method Drain(now: UInt64) returns (expired: seq<Task>)
      requires Valid() && taken == []
      modifies this`mutexHeld, this`taken, queue
      ensures Valid() && taken == expired
      ensures expired == Batch(old(queue.heap), now)
      ensures multiset(queue.heap) == multiset(Leftover(old(queue.heap), now))
    {
      ghost var q := queue.heap;
      DistinctQueue(posted, fired + taken, multiset(q));
      mutexHeld := true;
      expired := TakeExpired(now);
      mutexHeld := false;
      taken := expired;
      BatchAndLeftover(q, now);
      Redistribute(fired, multiset(q), expired, multiset(queue.heap));
    }

    /** The least fire time of the queue, or 0, under the mutex. */
    method PeekLocked() returns (wake: nat)
      requires mutexHeld && IsHeap(queue.heap)
      ensures IsNextWake(wake, multiset(queue.heap))
    {
      assert |queue.heap| == |multiset(queue.heap)|;
      if queue.heap == [] {
        wake := 0;
      } else {
        var top := queue.Top();
        wake := top.fireTime;
      }
    }

    /** Looks at the queue for the next wake-up time. */
    method NextWake() returns (wake: nat)
      requires Valid()
      modifies this`mutexHeld
      ensures Valid()
      ensures IsNextWake(wake, multiset(queue.heap))
    {
      mutexHeld := true;
      wake := PeekLocked();
      mutexHeld := false;
    }

    /** Fires the next drained task. */
    method FireNext(t: Task, posts: seq<Post>)
      requires Valid() && taken != [] && t == taken[0]
      modifies this, queue
      ensures Valid() && taken == old(taken)[1..] && fired == old(fired) + [t]
      ensures ran == old(ran) + [t.task]
      ensures lastOrder == old(lastOrder) + |posts| && eventfd == old(eventfd) + |posts|
      ensures multiset(queue.heap) == AfterPosts(multiset(old(queue.heap)), posts, old(lastOrder))
    {
      assert fired + taken == (fired + [t]) + taken[1..];
      taken, fired := taken[1..], fired + [t];
      OnTaskExpired(t.task, posts);
    }

    /** Fires the drained tasks one by one, without the mutex. */
    method FireAll(expired: seq<Task>, arrivals: Task -> seq<Post>)
      requires Valid() && taken == expired
      modifies this, queue
      ensures Valid() && taken == []
      ensures fired == old(fired) + expired
      ensures Handed(ran, old(ran), expired)
      ensures var posts := PostsDuring(expired, arrivals);
              && multiset(queue.heap) == AfterPosts(multiset(old(queue.heap)), posts, old(lastOrder))
              && lastOrder == old(lastOrder) + |posts|
              && eventfd == old(eventfd) + |posts|
    {
      ghost var q0, o0, e0 := multiset(queue.heap), lastOrder, eventfd;
      ghost var posts: seq<Post> := [];
      assert AfterPosts(q0, posts, o0) == q0;
      for i := 0 to |expired|
        invariant Valid() && taken == expired[i..] && fired == old(fired) + expired[..i]
        invariant Handed(ran, old(ran), expired[..i])
        invariant posts + PostsDuring(expired[i..], arrivals) == PostsDuring(expired, arrivals)
        invariant lastOrder == o0 + |posts| && eventfd == e0 + |posts|
        invariant multiset(queue.heap) == AfterPosts(q0, posts, o0)
      {
        var more := arrivals(expired[i]);
        PostsOfOneMore(expired, arrivals, i, posts);
        HandedOneMore(ran, old(ran), expired, i);
        AfterMorePosts(q0, posts, more, o0);
        FireNext(expired[i], more);
        posts := posts + more;
      }
      assert posts + [] == posts && expired[..|expired|] == expired;
    }

    /** Fires what is due at `now` and returns the next wake-up time. `arrivals` gives the posts
        made, by the callback or by other threads, while each callback runs. */
    method ProcessEvents(now: UInt64, arrivals: Task -> seq<Post>) returns (wake: nat)
      requires Valid() && taken == []
      modifies this, queue
      ensures Valid() && taken == []
      ensures fired == old(fired) + Batch(old(queue.heap), now)
      ensures Handed(ran, old(ran), Batch(old(queue.heap), now))
      ensures var posts := PostsDuring(Batch(old(queue.heap), now), arrivals);
              && multiset(queue.heap) ==
                 AfterPosts(multiset(Leftover(old(queue.heap), now)), posts, old(lastOrder))
              && lastOrder == old(lastOrder) + |posts|
              && eventfd == old(eventfd) + |posts|
      ensures IsNextWake(wake, multiset(queue.heap))
    {
      var expired := Drain(now);
      ghost var left := multiset(queue.heap);
      FireAll(expired, arrivals);
      ghost var q := queue.heap;
      assert multiset(q) == AfterPosts(left, PostsDuring(expired, arrivals), old(lastOrder));
      wake := NextWake();
      assert queue.heap == q;
    }
  }

  lemma BatchAndLeftover(q: seq<Task>, now: nat)
    ensures multiset(Batch(q, now)) + multiset(Leftover(q, now)) == multiset(q)
  {
    BatchIsExactlyTheDueTasks(q, now);
  }

  lemma Redistribute(fired: seq<Task>, q: multiset<Task>, expired: seq<Task>, left: multiset<Task>)
    requires multiset(expired) + left == q
    ensures multiset(fired + expired) + left == multiset(fired + []) + q
  {
  }

  /** The queue after a sequence of posts. */
  ghost function AfterPosts(q: multiset<Task>, posts: seq<Post>, lastOrder: nat): multiset<Task> {
    q + multiset(Numbered(posts, lastOrder + 1))
  }

  lemma AfterOnePost(q: multiset<Task>, posts: seq<Post>, i: nat, lastOrder: nat)
    requires i < |posts|
    ensures AfterPosts(q, posts[..i + 1], lastOrder) ==
            AfterPosts(q, posts[..i], lastOrder)
            + multiset{Task(lastOrder + i + 1, posts[i].target, posts[i].task)}
  {
    NumberedConcat(posts[..i], [posts[i]], lastOrder + 1);
    assert posts[..i + 1] == posts[..i] + [posts[i]];
  }

  lemma PostsOfOneMore(batch: seq<Task>, arrivals: Task -> seq<Post>, i: nat, posts: seq<Post>)
    requires i < |batch| && posts + PostsDuring(batch[i..], arrivals) == PostsDuring(batch, arrivals)
    ensures batch[i..][0] == batch[i] && batch[i..][1..] == batch[i + 1..] && batch[..i + 1] == batch[..i] + [batch[i]]
    ensures (posts + arrivals(batch[i])) + PostsDuring(batch[i + 1..], arrivals) == PostsDuring(batch, arrivals)
  {
    assert batch[i..][1..] == batch[i + 1..];
  }

  lemma AfterMorePosts(q: multiset<Task>, before: seq<Post>, more: seq<Post>, lastOrder: nat)
    ensures AfterPosts(q, before + more, lastOrder) ==
            AfterPosts(AfterPosts(q, before, lastOrder), more, lastOrder + |before|)
  {
    NumberedConcat(before, more, lastOrder + 1);
  }

  lemma AddFresh(q: multiset<Task>, t: Task, last: nat)
    requires DistinctOrders(q) && OrdersWithin(q, 1, last) && t.order == last + 1
    ensures DistinctOrders(q + multiset{t}) && OrdersWithin(q + multiset{t}, 1, last + 1)
  {
  }

  lemma {:induction false} DistinctWhenNumbered(s: seq<Task>)
    requires NumberedFromOne(s)
    ensures DistinctOrders(multiset(s)) && OrdersWithin(multiset(s), 1, |s|)
  {
    if s != [] {
      var init, last := s[..|s| - 1], s[|s| - 1];
      assert s == init + [last];
      DistinctWhenNumbered(init);
      AddFresh(multiset(init), last, |init|);
      assert multiset(s) == multiset(init) + multiset{last};
    }
  }

  lemma DistinctQueue(posted: seq<Task>, popped: seq<Task>, q: multiset<Task>)
    requires NumberedFromOne(posted) && multiset(posted) == multiset(popped) + q
    ensures DistinctOrders(q)
  {
    DistinctWhenNumbered(posted);
    DistinctInPart(q, multiset(posted));
  }

  // ---------- what one call promises ----------

  /** Tasks posted while a batch fires never join it, whatever the callbacks post, and the batch is
      no longer than the queue was at its drain. */
  lemma BatchIsClosed(q: seq<Task>, now: UInt64, lastOrder: nat, arrivals: Task -> seq<Post>, t: Task)
    requires OrdersWithin(multiset(q), 1, lastOrder)
    requires t in Numbered(PostsDuring(Batch(q, now), arrivals), lastOrder + 1)
    ensures t !in Batch(q, now) && t !in q
    ensures |Batch(q, now)| <= |q|
  {
    BatchIsExactlyTheDueTasks(q, now);
    NumberedOrders(PostsDuring(Batch(q, now), arrivals), lastOrder + 1);
    assert t !in multiset(q);
    assert t !in multiset(Batch(q, now)) + multiset(Leftover(q, now));
  }

  /** Sleeping the computed duration and draining again fires a task that was pending when the
      wake-up time was returned: every one due at that time. */
  lemma SleptUntilWakeFires(pending: seq<Task>, wake: UInt64, t1: UInt64, later: seq<Task>, t2: UInt64)
    requires IsNextWake(wake, multiset(pending)) && wake != 0
    requires multiset(pending) <= multiset(later)
    requires wake - t1 < TWO_63
    requires t2 >= t1 + SleepUntil(wake, t1).Nanos()
    ensures exists t :: t in pending && t in Batch(later, t2)
    ensures forall t :: t in pending && t.fireTime == wake ==> t in Batch(later, t2)
  {
    SleepReachesWake(wake, t1);
    BatchIsExactlyTheDueTasks(later, t2);
    forall t | t in pending && t.fireTime == wake ensures t in Batch(later, t2) {
      assert t in multiset(pending) && t in multiset(later);
    }
    var t :| t in multiset(pending) && t.fireTime == wake;
    assert t in pending;
  }

  /** The sleep is not longer than needed: before the wake-up time nothing is due. */
  lemma NothingDueBeforeWake(pending: seq<Task>, wake: UInt64, now: UInt64)
    requires IsNextWake(wake, multiset(pending))
    ensures Batch(pending, now) == [] <==> pending == [] || now < wake
  {
    BatchIsExactlyTheDueTasks(pending, now);
    var b := Batch(pending, now);
    assert |multiset(pending)| == |pending|;
    if pending != [] && wake <= now {
      var t :| t in multiset(pending) && t.fireTime == wake;
      assert t in b;
    }
    if b != [] {
      assert b[0] in multiset(b) + multiset(Leftover(pending, now));
      assert b[0] in pending && b[0] in multiset(pending);
    }
  }
}
