/**
 * The part of WorkManager the task view models rely on: a queue of pending
 * one-time work requests, each carrying one tag, an initial delay and the
 * input data `task_title` / `task_description`, and identified by the id
 * (a UUID) WorkManager gives it when it is enqueued.
 */
module Work {
  import opened Common

  /** A `OneTimeWorkRequest` for `NotificationWorker` as the view models
      build it. */
  datatype WorkRequest = WorkRequest(tag: string, delay: Long, title: string, description: string)

  /** A pending request and its id. */
  datatype Job = Job(id: nat, request: WorkRequest)

  /** The tag of a task's reminders: `"task_$taskId"`. */
  function TaskTag(taskId: int): string {
    "task_" + IntToString(taskId)
  }

  /** Two tasks never share a tag. */
  lemma TaskTagInjective(a: int, b: int)
    requires TaskTag(a) == TaskTag(b)
    ensures a == b
  {
    assert IntToString(a) == TaskTag(a)[5..];
    assert IntToString(b) == TaskTag(b)[5..];
    IntToStringInjective(a, b);
  }

  /** The requests of the jobs, in queue order. */
  function Requests(jobs: seq<Job>): (r: seq<WorkRequest>)
    ensures |r| == |jobs|
    ensures forall i :: 0 <= i < |jobs| ==> r[i] == jobs[i].request
  {
    seq(|jobs|, i requires 0 <= i < |jobs| => jobs[i].request)
  }

  /** `getWorkInfosByTag(tag)`: the jobs carrying the tag, in queue order. */
  function Tagged(jobs: seq<Job>, tag: string): seq<Job> {
    if jobs == [] then []
    else (if jobs[0].request.tag == tag then [jobs[0]] else []) + Tagged(jobs[1..], tag)
  }

  /** The queue after `cancelAllWorkByTag(tag)`. */
  function WithoutTag(jobs: seq<Job>, tag: string): seq<Job> {
    if jobs == [] then []
    else (if jobs[0].request.tag == tag then [] else [jobs[0]]) + WithoutTag(jobs[1..], tag)
  }

  /** The queue after `cancelWorkById` of every id in `ids`. */
  function RemoveIds(jobs: seq<Job>, ids: set<nat>): seq<Job> {
    if jobs == [] then []
    else (if jobs[0].id in ids then [] else [jobs[0]]) + RemoveIds(jobs[1..], ids)
  }

  /** The ids of the jobs. */
  function IdsOf(jobs: seq<Job>): set<nat> {
    if jobs == [] then {} else {jobs[0].id} + IdsOf(jobs[1..])
  }

  /** No two jobs share an id. */
  ghost predicate UniqueIds(jobs: seq<Job>) {
    jobs == [] || (jobs[0].id !in IdsOf(jobs[1..]) && UniqueIds(jobs[1..]))
  }

  /** Ids increase along the queue: each job was enqueued after the ones
      before it, and ids are handed out in increasing order. */
  ghost predicate IdsIncreasing(jobs: seq<Job>) {
    forall i, j :: 0 <= i < j < |jobs| ==> jobs[i].id < jobs[j].id
  }

  // ---------------------------------------------------------------------

  lemma {:induction false} IdsOfAppend(a: seq<Job>, b: seq<Job>)
    ensures IdsOf(a + b) == IdsOf(a) + IdsOf(b)
  {
    if a == [] {
      assert a + b == b;
    } else {
      assert (a + b)[0] == a[0];
      assert (a + b)[1..] == a[1..] + b;
      IdsOfAppend(a[1..], b);
    }
  }

  /** Two queues with unique ids and no id in common make one. */
  lemma {:induction false} UniqueIdsAppend(a: seq<Job>, b: seq<Job>)
    requires UniqueIds(a) && UniqueIds(b) && IdsOf(a) !! IdsOf(b)
    ensures UniqueIds(a + b)
  {
    if a == [] {
      assert a + b == b;
    } else {
      assert (a + b)[0] == a[0];
      assert (a + b)[1..] == a[1..] + b;
      UniqueIdsAppend(a[1..], b);
      IdsOfAppend(a[1..], b);
    }
  }

  lemma SingleJob(j: Job)
    ensures IdsOf([j]) == {j.id} && UniqueIds([j])
  {
    assert [j][1..] == [];
  }

  /** Filtering distributes over concatenation. */
  lemma {:induction false} TaggedAppend(a: seq<Job>, b: seq<Job>, tag: string)
    ensures Tagged(a + b, tag) == Tagged(a, tag) + Tagged(b, tag)
  {
    if a == [] {
      assert a + b == b;
    } else {
      var head := if a[0].request.tag == tag then [a[0]] else [];
      assert (a + b)[0] == a[0];
      assert (a + b)[1..] == a[1..] + b;
      TaggedAppend(a[1..], b, tag);
      assert Tagged(a + b, tag) == head + (Tagged(a[1..], tag) + Tagged(b, tag));
      assert Tagged(a, tag) == head + Tagged(a[1..], tag);
    }
  }

  lemma {:induction false} RemoveIdsAppend(a: seq<Job>, b: seq<Job>, ids: set<nat>)
    ensures RemoveIds(a + b, ids) == RemoveIds(a, ids) + RemoveIds(b, ids)
  {
    if a == [] {
      assert a + b == b;
    } else {
      assert (a + b)[0] == a[0];
      assert (a + b)[1..] == a[1..] + b;
      RemoveIdsAppend(a[1..], b, ids);
    }
  }

  /** Each filter keeps a queue's ids unique and only drops ids. */
  lemma {:induction false} TaggedIds(jobs: seq<Job>, tag: string)
    ensures IdsOf(Tagged(jobs, tag)) <= IdsOf(jobs)
    ensures UniqueIds(jobs) ==> UniqueIds(Tagged(jobs, tag))
  {
    if jobs != [] {
      TaggedIds(jobs[1..], tag);
      var rest := Tagged(jobs[1..], tag);
      var head := if jobs[0].request.tag == tag then [jobs[0]] else [];
      assert Tagged(jobs, tag) == head + rest;
      IdsOfAppend(head, rest);
      if UniqueIds(jobs) {
        if head == [] {
          assert head + rest == rest;
        } else {
          SingleJob(jobs[0]);
          UniqueIdsAppend(head, rest);
        }
      }
    }
  }

  lemma {:induction false} WithoutTagIds(jobs: seq<Job>, tag: string)
    ensures IdsOf(WithoutTag(jobs, tag)) <= IdsOf(jobs)
    ensures UniqueIds(jobs) ==> UniqueIds(WithoutTag(jobs, tag))
  {
    if jobs != [] {
      WithoutTagIds(jobs[1..], tag);
      var rest := WithoutTag(jobs[1..], tag);
      var head := if jobs[0].request.tag == tag then [] else [jobs[0]];
      assert WithoutTag(jobs, tag) == head + rest;
      IdsOfAppend(head, rest);
      if UniqueIds(jobs) {
        if head == [] {
          assert head + rest == rest;
        } else {
          SingleJob(jobs[0]);
          UniqueIdsAppend(head, rest);
        }
      }
    }
  }

  lemma {:induction false} RemoveIdsIds(jobs: seq<Job>, ids: set<nat>)
    ensures IdsOf(RemoveIds(jobs, ids)) == IdsOf(jobs) - ids
    ensures UniqueIds(jobs) ==> UniqueIds(RemoveIds(jobs, ids))
  {
    if jobs != [] {
      RemoveIdsIds(jobs[1..], ids);
      var rest := RemoveIds(jobs[1..], ids);
      var head := if jobs[0].id in ids then [] else [jobs[0]];
      assert RemoveIds(jobs, ids) == head + rest;
      IdsOfAppend(head, rest);
      if UniqueIds(jobs) {
        if head == [] {
          assert head + rest == rest;
        } else {
          SingleJob(jobs[0]);
          UniqueIdsAppend(head, rest);
        }
      }
    }
  }

  /** Every job's id is among the queue's ids. */
  lemma {:induction false} IdsOfIndex(jobs: seq<Job>)
    ensures forall i :: 0 <= i < |jobs| ==> jobs[i].id in IdsOf(jobs)
  {
    if jobs != [] {
      IdsOfIndex(jobs[1..]);
      forall i | 0 < i < |jobs| ensures jobs[i].id in IdsOf(jobs) {
        assert jobs[i] == jobs[1..][i - 1];
      }
    }
  }

  /** A filter step: keeping or dropping the first job in front of a kept
      part of the rest keeps the jobs a part of the queue, and in order. */
  lemma FilterStep(jobs: seq<Job>, head: seq<Job>, rest: seq<Job>)
    requires jobs != [] && (head == [] || head == [jobs[0]])
    requires forall i :: 0 <= i < |rest| ==> rest[i] in jobs[1..]
    ensures forall i :: 0 <= i < |head + rest| ==> (head + rest)[i] in jobs
    ensures IdsIncreasing(jobs) && IdsIncreasing(rest) ==> IdsIncreasing(head + rest)
  {
    var res := head + rest;
    forall i | 0 <= i < |res| ensures res[i] in jobs {
      if i >= |head| {
        assert res[i] == rest[i - |head|];
        var m :| 0 <= m < |jobs[1..]| && jobs[1..][m] == rest[i - |head|];
        assert jobs[m + 1] == res[i];
      }
    }
    if IdsIncreasing(jobs) && IdsIncreasing(rest) {
      forall i, j | 0 <= i < j < |res| ensures res[i].id < res[j].id {
        assert res[j] == rest[j - |head|];
        if i >= |head| {
          assert res[i] == rest[i - |head|];
        } else {
          var m :| 0 <= m < |jobs[1..]| && jobs[1..][m] == rest[j - |head|];
          assert jobs[m + 1] == res[j];
        }
      }
    }
  }

  lemma IncreasingTail(jobs: seq<Job>)
    requires jobs != [] && IdsIncreasing(jobs)
    ensures IdsIncreasing(jobs[1..])
  {
    forall i, j | 0 <= i < j < |jobs[1..]| ensures jobs[1..][i].id < jobs[1..][j].id {
      assert jobs[1..][i] == jobs[i + 1] && jobs[1..][j] == jobs[j + 1];
    }
  }

  /** Each filter keeps jobs of the queue, in queue order. */
  lemma {:induction false} TaggedIncreasing(jobs: seq<Job>, tag: string)
    ensures forall i :: 0 <= i < |Tagged(jobs, tag)| ==> Tagged(jobs, tag)[i] in jobs
    ensures IdsIncreasing(jobs) ==> IdsIncreasing(Tagged(jobs, tag))
  {
    if jobs != [] {
      TaggedIncreasing(jobs[1..], tag);
      if IdsIncreasing(jobs) { IncreasingTail(jobs); }
      FilterStep(jobs, if jobs[0].request.tag == tag then [jobs[0]] else [], Tagged(jobs[1..], tag));
    }
  }

  lemma {:induction false} WithoutTagIncreasing(jobs: seq<Job>, tag: string)
    ensures forall i :: 0 <= i < |WithoutTag(jobs, tag)| ==> WithoutTag(jobs, tag)[i] in jobs
    ensures IdsIncreasing(jobs) ==> IdsIncreasing(WithoutTag(jobs, tag))
  {
    if jobs != [] {
      WithoutTagIncreasing(jobs[1..], tag);
      if IdsIncreasing(jobs) { IncreasingTail(jobs); }
      FilterStep(jobs, if jobs[0].request.tag == tag then [] else [jobs[0]], WithoutTag(jobs[1..], tag));
    }
  }

  lemma {:induction false} RemoveIdsIncreasing(jobs: seq<Job>, ids: set<nat>)
    ensures forall i :: 0 <= i < |RemoveIds(jobs, ids)| ==> RemoveIds(jobs, ids)[i] in jobs
    ensures IdsIncreasing(jobs) ==> IdsIncreasing(RemoveIds(jobs, ids))
  {
    if jobs != [] {
      RemoveIdsIncreasing(jobs[1..], ids);
      if IdsIncreasing(jobs) { IncreasingTail(jobs); }
      FilterStep(jobs, if jobs[0].id in ids then [] else [jobs[0]], RemoveIds(jobs[1..], ids));
    }
  }

  /** Cancelling by tag removes exactly the jobs with that tag: afterwards no
      job has it, every other tag keeps all of its jobs, and the tagged jobs
      and the remaining ones together are the old queue. */
  lemma {:induction false} WithoutTagClears(jobs: seq<Job>, tag: string)
    ensures Tagged(WithoutTag(jobs, tag), tag) == []
  {
    if jobs != [] {
      WithoutTagClears(jobs[1..], tag);
      var head := if jobs[0].request.tag == tag then [] else [jobs[0]];
      TaggedAppend(head, WithoutTag(jobs[1..], tag), tag);
    }
  }

  lemma {:induction false} WithoutTagKeepsOthers(jobs: seq<Job>, tag: string, other: string)
    requires other != tag
    ensures Tagged(WithoutTag(jobs, tag), other) == Tagged(jobs, other)
  {
    if jobs != [] {
      WithoutTagKeepsOthers(jobs[1..], tag, other);
      var head := if jobs[0].request.tag == tag then [] else [jobs[0]];
      TaggedAppend(head, WithoutTag(jobs[1..], tag), other);
    }
  }

  lemma {:induction false} WithoutTagSplits(jobs: seq<Job>, tag: string)
    ensures multiset(WithoutTag(jobs, tag)) + multiset(Tagged(jobs, tag)) == multiset(jobs)
  {
    if jobs != [] {
      WithoutTagSplits(jobs[1..], tag);
      assert jobs == [jobs[0]] + jobs[1..];
    }
  }

  /** Cancelling some ids after others is cancelling them all together. */
  lemma {:induction false} RemoveIdsTwice(jobs: seq<Job>, a: set<nat>, b: set<nat>)
    ensures RemoveIds(RemoveIds(jobs, a), b) == RemoveIds(jobs, a + b)
  {
    if jobs != [] {
      var head := if jobs[0].id in a then [] else [jobs[0]];
      RemoveIdsAppend(head, RemoveIds(jobs[1..], a), b);
      RemoveIdsTwice(jobs[1..], a, b);
      if head != [] {
        assert head[1..] == [];
      }
    }
  }

  /** Removing no ids removes nothing. */
  lemma {:induction false} RemoveNoIds(jobs: seq<Job>)
    ensures RemoveIds(jobs, {}) == jobs
  {
    if jobs != [] {
      RemoveNoIds(jobs[1..]);
      assert jobs == [jobs[0]] + jobs[1..];
    }
  }

  /** An id that no job carries does not change what is removed. */
  lemma {:induction false} RemoveIdsExtra(jobs: seq<Job>, ids: set<nat>, x: nat)
    requires x !in IdsOf(jobs)
    ensures RemoveIds(jobs, ids + {x}) == RemoveIds(jobs, ids)
  {
    if jobs != [] {
      RemoveIdsExtra(jobs[1..], ids, x);
    }
  }

  /** When ids are unique, the ids of the tagged jobs pick out exactly those
      jobs, so cancelling each of them by id is cancelling by tag. */
  lemma {:induction false} RemoveTaggedIds(jobs: seq<Job>, tag: string)
    requires UniqueIds(jobs)
    ensures RemoveIds(jobs, IdsOf(Tagged(jobs, tag))) == WithoutTag(jobs, tag)
  {
    if jobs != [] {
      var tail := jobs[1..];
      var head := if jobs[0].request.tag == tag then [jobs[0]] else [];
      var tailIds := IdsOf(Tagged(tail, tag));
      var ids := IdsOf(Tagged(jobs, tag));
      TaggedIds(tail, tag);
      IdsOfAppend(head, Tagged(tail, tag));
      assert ids == IdsOf(head) + tailIds;
      RemoveTaggedIds(tail, tag);
      if head != [] {
        SingleJob(jobs[0]);
        assert jobs[0].id !in IdsOf(tail);
        assert ids == tailIds + {jobs[0].id};
        RemoveIdsExtra(tail, tailIds, jobs[0].id);
        assert RemoveIds(jobs, ids) == RemoveIds(tail, ids);
      } else {
        assert IdsOf(head) == {};
        assert ids == tailIds;
        assert jobs[0].id !in ids;
        assert RemoveIds(jobs, ids) == [jobs[0]] + RemoveIds(tail, ids);
        assert WithoutTag(jobs, tag) == [jobs[0]] + WithoutTag(tail, tag);
      }
    }
  }

  /** The requests other than those with the tag, in order. */
  function RequestsWithoutTag(reqs: seq<WorkRequest>, tag: string): seq<WorkRequest> {
    if reqs == [] then []
    else (if reqs[0].tag == tag then [] else [reqs[0]]) + RequestsWithoutTag(reqs[1..], tag)
  }

  /** What is left after cancelling a tag depends only on the requests. */
  lemma {:induction false} RequestsOfWithoutTag(jobs: seq<Job>, tag: string)
    ensures Requests(WithoutTag(jobs, tag)) == RequestsWithoutTag(Requests(jobs), tag)
  {
    if jobs != [] {
      RequestsOfWithoutTag(jobs[1..], tag);
      assert Requests(jobs)[1..] == Requests(jobs[1..]);
      var head := if jobs[0].request.tag == tag then [] else [jobs[0]];
      RequestsAppend(head, WithoutTag(jobs[1..], tag));
    }
  }

  lemma RequestsAppend(a: seq<Job>, b: seq<Job>)
    ensures Requests(a + b) == Requests(a) + Requests(b)
  {
  }

  lemma {:induction false} RequestsWithoutTagAppend(a: seq<WorkRequest>, b: seq<WorkRequest>, tag: string)
    ensures RequestsWithoutTag(a + b, tag) == RequestsWithoutTag(a, tag) + RequestsWithoutTag(b, tag)
  {
    if a == [] {
      assert a + b == b;
    } else {
      assert (a + b)[0] == a[0];
      assert (a + b)[1..] == a[1..] + b;
      RequestsWithoutTagAppend(a[1..], b, tag);
    }
  }

  /** Cancelling a tag that every request carries leaves none, and one that
      none carries leaves them all. */
  lemma {:induction false} RequestsWithoutTagAllOrNone(reqs: seq<WorkRequest>, tag: string)
    ensures (forall i :: 0 <= i < |reqs| ==> reqs[i].tag == tag) ==> RequestsWithoutTag(reqs, tag) == []
    ensures (forall i :: 0 <= i < |reqs| ==> reqs[i].tag != tag) ==> RequestsWithoutTag(reqs, tag) == reqs
  {
    if reqs != [] {
      assert forall i :: 0 <= i < |reqs[1..]| ==> reqs[1..][i] == reqs[i + 1];
      RequestsWithoutTagAllOrNone(reqs[1..], tag);
      assert reqs == [reqs[0]] + reqs[1..];
    }
  }

  /** The requests with the tag, in order. */
  function RequestsWithTag(reqs: seq<WorkRequest>, tag: string): seq<WorkRequest> {
    if reqs == [] then []
    else (if reqs[0].tag == tag then [reqs[0]] else []) + RequestsWithTag(reqs[1..], tag)
  }

  lemma {:induction false} RequestsWithTagAppend(a: seq<WorkRequest>, b: seq<WorkRequest>, tag: string)
    ensures RequestsWithTag(a + b, tag) == RequestsWithTag(a, tag) + RequestsWithTag(b, tag)
  {
    if a == [] {
      assert a + b == b;
    } else {
      var head := if a[0].tag == tag then [a[0]] else [];
      assert (a + b)[0] == a[0];
      assert (a + b)[1..] == a[1..] + b;
      RequestsWithTagAppend(a[1..], b, tag);
      assert RequestsWithTag(a + b, tag) == head + (RequestsWithTag(a[1..], tag) + RequestsWithTag(b, tag));
      assert RequestsWithTag(a, tag) == head + RequestsWithTag(a[1..], tag);
    }
  }

  /** Requests that all carry a tag are all selected by it and none by
      another. */
  lemma {:induction false} RequestsWithTagAllOrNone(reqs: seq<WorkRequest>, tag: string)
    ensures (forall i :: 0 <= i < |reqs| ==> reqs[i].tag == tag) ==> RequestsWithTag(reqs, tag) == reqs
    ensures (forall i :: 0 <= i < |reqs| ==> reqs[i].tag != tag) ==> RequestsWithTag(reqs, tag) == []
  {
    if reqs != [] {
      assert forall i :: 0 <= i < |reqs[1..]| ==> reqs[1..][i] == reqs[i + 1];
      RequestsWithTagAllOrNone(reqs[1..], tag);
      assert reqs == [reqs[0]] + reqs[1..];
    }
  }

  /** After cancelling a tag no request carries it, and every other tag
      keeps exactly its requests. */
  lemma {:induction false} RequestsWithTagOfWithoutTag(reqs: seq<WorkRequest>, tag: string, other: string)
    ensures RequestsWithTag(RequestsWithoutTag(reqs, tag), tag) == []
    ensures other != tag ==>
      RequestsWithTag(RequestsWithoutTag(reqs, tag), other) == RequestsWithTag(reqs, other)
  {
    if reqs != [] {
      RequestsWithTagOfWithoutTag(reqs[1..], tag, other);
      var head := if reqs[0].tag == tag then [] else [reqs[0]];
      RequestsWithTagAppend(head, RequestsWithoutTag(reqs[1..], tag), tag);
      RequestsWithTagAppend(head, RequestsWithoutTag(reqs[1..], tag), other);
      if head != [] {
        assert head[1..] == [];
      }
    }
  }

  /** Cancelling a tag and then queueing requests that all carry it leaves
      exactly those requests under the tag and every other tag's requests as
      they were. */
  lemma CancelThenQueueTagged(before: seq<WorkRequest>, late: seq<WorkRequest>, tag: string, other: string)
    requires forall i :: 0 <= i < |late| ==> late[i].tag == tag
    ensures RequestsWithTag(RequestsWithoutTag(before, tag) + late, tag) == late
    ensures other != tag ==>
      RequestsWithTag(RequestsWithoutTag(before, tag) + late, other) == RequestsWithTag(before, other)
  {
    var kept := RequestsWithoutTag(before, tag);
    RequestsWithTagAppend(kept, late, tag);
    RequestsWithTagAppend(kept, late, other);
    RequestsWithTagOfWithoutTag(before, tag, other);
    RequestsWithTagAllOrNone(late, tag);
    RequestsWithTagAllOrNone(late, other);
  }

  /** Cancelling a tag and then queueing `late`, all under that tag, after
      some `early` requests of the same tag that the cancel already removed:
      the tag selects exactly `late`, and every other tag what it selected
      before. */
  lemma RequeueTagged(before: seq<WorkRequest>, early: seq<WorkRequest>, late: seq<WorkRequest>,
                      tag: string, other: string)
    requires forall i :: 0 <= i < |early| ==> early[i].tag == tag
    requires forall i :: 0 <= i < |late| ==> late[i].tag == tag
    ensures RequestsWithTag(RequestsWithoutTag(before, tag) + RequestsWithoutTag(early, tag) + late, tag) == late
    ensures other != tag ==>
      RequestsWithTag(RequestsWithoutTag(before, tag) + RequestsWithoutTag(early, tag) + late, other)
        == RequestsWithTag(before, other)
  {
    var kept := RequestsWithoutTag(before, tag);
    RequestsWithoutTagAllOrNone(early, tag);
    assert kept + RequestsWithoutTag(early, tag) + late == kept + late;
    CancelThenQueueTagged(before, late, tag, other);
  }

  /** Every tagged job is a job of the queue and carries the tag; every job
      of the queue with the tag is among them. */
  lemma {:induction false} TaggedSubset(jobs: seq<Job>, tag: string)
    ensures forall i :: 0 <= i < |Tagged(jobs, tag)| ==>
      Tagged(jobs, tag)[i] in jobs && Tagged(jobs, tag)[i].request.tag == tag
    ensures forall i :: 0 <= i < |jobs| && jobs[i].request.tag == tag ==> jobs[i] in Tagged(jobs, tag)
  {
    if jobs != [] {
      TaggedSubset(jobs[1..], tag);
      var head := if jobs[0].request.tag == tag then [jobs[0]] else [];
      var res := head + Tagged(jobs[1..], tag);
      forall i | 0 <= i < |res| ensures res[i] in jobs && res[i].request.tag == tag {
        if i >= |head| {
          assert res[i] == Tagged(jobs[1..], tag)[i - |head|];
        }
      }
      forall i | 0 <= i < |jobs| && jobs[i].request.tag == tag ensures jobs[i] in res {
        if i > 0 { assert jobs[i] == jobs[1..][i - 1]; }
      }
    }
  }

  // ---------------------------------------------------------------------

  class WorkManager {
    /** The pending work, in the order it was enqueued. */
    var jobs: seq<Job>
    /** The next id handed out (stands for a fresh UUID). */
    var nextId: nat

    ghost predicate Valid()
      reads this
    {
      && UniqueIds(jobs)
      && (forall x :: x in IdsOf(jobs) ==> x < nextId)
      && IdsIncreasing(jobs)
    }

    constructor ()
      ensures Valid() && jobs == []
    {
      jobs := [];
      nextId := 0;
    }

    /** `enqueue(request)`: the request joins the end of the queue under an
        id no pending job has. */
    method Enqueue(request: WorkRequest)
      requires Valid()
      modifies this
      ensures Valid()
      ensures jobs == old(jobs) + [Job(old(nextId), request)]
      ensures old(nextId) !in IdsOf(old(jobs))
    {
      var job := Job(nextId, request);
      assert IdsOf([job]) == {nextId};
      IdsOfIndex(jobs);
      UniqueIdsAppend(jobs, [job]);
      IdsOfAppend(jobs, [job]);
      jobs := jobs + [job];
      nextId := nextId + 1;
    }

    /** `cancelAllWorkByTag(tag)`. */
    method CancelAllWorkByTag(tag: string)
      requires Valid()
      modifies this
      ensures Valid() && nextId == old(nextId)
      ensures jobs == WithoutTag(old(jobs), tag)
    {
      WithoutTagIds(jobs, tag);
      WithoutTagIncreasing(jobs, tag);
      jobs := WithoutTag(jobs, tag);
    }

    /** `cancelWorkById(id)`. */
    method CancelWorkById(id: nat)
      requires Valid()
      modifies this
      ensures Valid() && nextId == old(nextId)
      ensures jobs == RemoveIds(old(jobs), {id})
    {
      RemoveIdsIds(jobs, {id});
      RemoveIdsIncreasing(jobs, {id});
      jobs := RemoveIds(jobs, {id});
    }

    /** `getWorkInfosByTag(tag)`: every pending job with the tag and no
        other, each once and in the order it was enqueued (ids increase
        along the queue). */
    function GetWorkInfosByTag(tag: string): (r: seq<Job>)
      requires Valid()
      reads this
      ensures forall i :: 0 <= i < |r| ==> r[i] in jobs && r[i].request.tag == tag
      ensures forall i :: 0 <= i < |jobs| && jobs[i].request.tag == tag ==> jobs[i] in r
      ensures forall i, j :: 0 <= i < j < |r| ==> r[i].id < r[j].id
    {
      TaggedSubset(jobs, tag);
      TaggedIncreasing(jobs, tag);
      Tagged(jobs, tag)
    }
  }
}
