/** The service's Handler queue: entries are kept in order of due time, a new
    entry goes after every entry due no later than it (so entries due at the
    same time run first-in first-out), and the head runs first. */
module MessageQueue {
  datatype Entry<T> = Entry(task: T, when: nat)

  predicate Sorted<T>(q: seq<Entry<T>>) {
    forall i, j :: 0 <= i < j < |q| ==> q[i].when <= q[j].when
  }

  /** Handler.hasMessages: some pending entry carries `task`. */
  predicate HasMessages<T(==)>(q: seq<Entry<T>>, task: T) {
    exists e :: e in q && e.task == task
  }

  /** How many leading entries are due no later than `when`. */
  function InsertionPoint<T>(q: seq<Entry<T>>, when: nat): (k: nat)
    ensures k <= |q|
  {
    if q == [] || when < q[0].when then 0 else 1 + InsertionPoint(q[1..], when)
  }

  /** Every entry before the insertion point is due no later than `when`, and
      the entry at it, if any, is due strictly later. */
  lemma {:induction false} InsertionPointSplits<T>(q: seq<Entry<T>>, when: nat)
    ensures forall i :: 0 <= i < InsertionPoint(q, when) ==> q[i].when <= when
    ensures InsertionPoint(q, when) < |q| ==> when < q[InsertionPoint(q, when)].when
  {
    if q != [] && q[0].when <= when {
      InsertionPointSplits(q[1..], when);
      forall i | 0 <= i < InsertionPoint(q, when) ensures q[i].when <= when {
        if i > 0 {
          assert q[i] == q[1..][i - 1];
        }
      }
    }
  }

  /** Handler.post / postDelayed / sendEmptyMessage(Delayed): walk the queue and
      insert before the first entry due strictly later. */
  function Post<T>(q: seq<Entry<T>>, task: T, when: nat): seq<Entry<T>> {
    if q == [] || when < q[0].when then [Entry(task, when)] + q
    else [q[0]] + Post(q[1..], task, when)
  }

  /** Posting adds exactly the new entry and loses none. */
  lemma {:induction false} PostContents<T>(q: seq<Entry<T>>, task: T, when: nat)
    ensures multiset(Post(q, task, when)) == multiset(q) + multiset{Entry(task, when)}
  {
    if q != [] && q[0].when <= when {
      PostContents(q[1..], task, when);
      assert q == [q[0]] + q[1..];
    }
  }

  /** Posting keeps the queue in due-time order. */
  lemma {:induction false} PostSorted<T>(q: seq<Entry<T>>, task: T, when: nat)
    requires Sorted(q)
    ensures Sorted(Post(q, task, when))
  {
    if q != [] && q[0].when <= when {
      var rest := Post(q[1..], task, when);
      PostSorted(q[1..], task, when);
      PostContents(q[1..], task, when);
      var r := [q[0]] + rest;
      forall i, j | 0 <= i < j < |r| ensures r[i].when <= r[j].when {
        if i == 0 {
          assert r[j] in multiset(rest);
          assert r[j] in q[1..] || r[j] == Entry(task, when);
        }
      }
    }
  }

  /** The new entry lands exactly at the insertion point; everything else keeps
      its order. */
  lemma {:induction false} PostSplit<T>(q: seq<Entry<T>>, task: T, when: nat)
    ensures Post(q, task, when) == q[..InsertionPoint(q, when)] + [Entry(task, when)] + q[InsertionPoint(q, when)..]
  {
    if q == [] || when < q[0].when {
    } else {
      var tail := q[1..];
      var e := Entry(task, when);
      PostSplit(tail, task, when);
      var k := InsertionPoint(tail, when);
      assert InsertionPoint(q, when) == k + 1;
      calc {
        Post(q, task, when);
        [q[0]] + Post(tail, task, when);
        [q[0]] + (tail[..k] + [e] + tail[k..]);
        ([q[0]] + tail[..k]) + [e] + tail[k..];
        { assert [q[0]] + tail[..k] == q[..k + 1]; assert tail[k..] == q[k + 1..]; }
        q[..k + 1] + [e] + q[k + 1..];
      }
    }
  }

  lemma PostHasMessages<T>(q: seq<Entry<T>>, task: T, when: nat, u: T)
    ensures HasMessages(Post(q, task, when), u) <==> HasMessages(q, u) || u == task
  {
  }

  /** Handler.removeMessages: drop every entry carrying `task`. */
  function RemoveMessages<T(==)>(q: seq<Entry<T>>, task: T): seq<Entry<T>> {
    if q == [] then []
    else if q[0].task == task then RemoveMessages(q[1..], task)
    else [q[0]] + RemoveMessages(q[1..], task)
  }

  /** Removing keeps exactly the entries that do not carry `task`. */
  lemma {:induction false} RemoveContents<T>(q: seq<Entry<T>>, task: T)
    ensures forall e :: e in RemoveMessages(q, task) ==> e in q && e.task != task
    ensures forall e :: e in q && e.task != task ==> e in RemoveMessages(q, task)
  {
    if q != [] {
      RemoveContents(q[1..], task);
      assert q == [q[0]] + q[1..];
    }
  }

  /** Removing keeps the queue in due-time order. */
  lemma {:induction false} RemoveSorted<T>(q: seq<Entry<T>>, task: T)
    requires Sorted(q)
    ensures Sorted(RemoveMessages(q, task))
  {
    if q != [] {
      RemoveSorted(q[1..], task);
      RemoveContents(q[1..], task);
      var rest := RemoveMessages(q[1..], task);
      if q[0].task != task {
        var r := [q[0]] + rest;
        forall i, j | 0 <= i < j < |r| ensures r[i].when <= r[j].when {
          if i == 0 {
            assert r[j] in rest;
          }
        }
      }
    }
  }

  /** Removing keeps every entry not carrying `task` as often as it occurred,
      and no entry carrying it. */
  lemma {:induction false} RemoveCounts<T>(q: seq<Entry<T>>, task: T, e: Entry<T>)
    ensures multiset(RemoveMessages(q, task))[e] == if e.task == task then 0 else multiset(q)[e]
  {
    if q != [] {
      RemoveCounts(q[1..], task, e);
      assert q == [q[0]] + q[1..];
    }
  }

  /** Removing a task that is not pending leaves the queue as it was. */
  lemma {:induction false} RemoveAbsent<T>(q: seq<Entry<T>>, task: T)
    requires !HasMessages(q, task)
    ensures RemoveMessages(q, task) == q
  {
    if q != [] {
      assert q[0] in q;
      assert forall e :: e in q[1..] ==> e in q;
      RemoveAbsent(q[1..], task);
      assert q == [q[0]] + q[1..];
    }
  }

  lemma RemoveHasMessages<T>(q: seq<Entry<T>>, task: T, u: T)
    ensures HasMessages(RemoveMessages(q, task), u) <==> HasMessages(q, u) && u != task
  {
  }
}
