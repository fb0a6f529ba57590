/**
 * The live search of the dashboard: the tasks whose lowercased title or
 * description contains the lowercased query, in the store's order.
 */
module Search {
  import opened Text
  import opened Models

  /** The filter predicate of `refresh_state` for an already lowercased query. */
  predicate Matches(t: Task, lq: string) {
    Contains(Lower(t.title), lq) || Contains(Lower(t.description), lq)
  }

  predicate NewestFirstTasks(ts: seq<Task>) {
    forall i, j :: 0 <= i < j < |ts| ==> ts[i].createdAt >= ts[j].createdAt
  }

  /** The tasks that match, in their original order. */
  function Select(ts: seq<Task>, lq: string): (r: seq<Task>)
    ensures |r| <= |ts|
  {
    if ts == [] then []
    else if Matches(ts[0], lq) then [ts[0]] + Select(ts[1..], lq)
    else Select(ts[1..], lq)
  }

  /** The selected tasks are exactly the matching ones. */
  lemma {:induction false} SelectMembers(ts: seq<Task>, lq: string)
    ensures forall x :: x in Select(ts, lq) <==> x in ts && Matches(x, lq)
  {
    if ts != [] {
      SelectMembers(ts[1..], lq);
      assert forall x :: x in ts <==> x == ts[0] || x in ts[1..];
    }
  }

  /** Selection keeps the newest-first order of the store's list. */
  lemma {:induction false} SelectKeepsOrder(ts: seq<Task>, lq: string)
    requires NewestFirstTasks(ts)
    ensures NewestFirstTasks(Select(ts, lq))
  {
    if ts != [] {
      assert forall k :: 0 <= k < |ts[1..]| ==> ts[1..][k] == ts[k + 1];
      SelectKeepsOrder(ts[1..], lq);
      if Matches(ts[0], lq) {
        var rest := Select(ts[1..], lq);
        SelectMembers(ts[1..], lq);
        forall x | x in rest ensures ts[0].createdAt >= x.createdAt {
          var k :| 0 <= k < |ts[1..]| && ts[1..][k] == x;
        }
        var r := [ts[0]] + rest;
        assert forall k :: 1 <= k < |r| ==> r[k] == rest[k - 1] && r[k] in rest;
      }
    }
  }

  /** Selection distributes over concatenation: together with the single-task case this
      pins the filter down as the order-preserving sublist of matching tasks. */
  lemma {:induction false} SelectAppend(a: seq<Task>, b: seq<Task>, lq: string)
    ensures Select(a + b, lq) == Select(a, lq) + Select(b, lq)
  {
    if a == [] {
      assert a + b == b;
    } else {
      assert (a + b)[0] == a[0] && (a + b)[1..] == a[1..] + b;
      SelectAppend(a[1..], b, lq);
    }
  }

  lemma SelectSingle(t: Task, lq: string)
    ensures Select([t], lq) == if Matches(t, lq) then [t] else []
  {
    assert [t][1..] == [];
  }

  /** Filtering the results again with the same query changes nothing. */
  lemma {:induction false} SelectIdempotent(ts: seq<Task>, lq: string)
    ensures Select(Select(ts, lq), lq) == Select(ts, lq)
  {
    if ts != [] {
      SelectIdempotent(ts[1..], lq);
      if Matches(ts[0], lq) {
        var rest := Select(ts[1..], lq);
        assert ([ts[0]] + rest)[1..] == rest;
      }
    }
  }

  /** `refresh_state`'s list: every task for an empty query, otherwise the matching ones. */
  function FilterTasks(ts: seq<Task>, query: string): (r: seq<Task>)
    ensures |r| <= |ts|
    ensures query == [] ==> r == ts
  {
    if query == [] then ts else Select(ts, Lower(query))
  }

  /** The listed tasks are those that match the lowercased query, in the store's order. */
  lemma FilterTasksSpec(ts: seq<Task>, query: string)
    ensures forall x :: x in FilterTasks(ts, query) <==> x in ts && (query == [] || Matches(x, Lower(query)))
    ensures NewestFirstTasks(ts) ==> NewestFirstTasks(FilterTasks(ts, query))
  {
    if query != [] {
      SelectMembers(ts, Lower(query));
      if NewestFirstTasks(ts) {
        SelectKeepsOrder(ts, Lower(query));
      }
    }
  }

  /** The empty query would also have matched everything: the short cut for it does not
      change the result. */
  lemma {:induction false} EmptyQueryMatchesAll(ts: seq<Task>)
    ensures Select(ts, Lower("")) == ts
  {
    if ts != [] {
      ContainsEmpty(Lower(ts[0].title));
      EmptyQueryMatchesAll(ts[1..]);
      assert ts == [ts[0]] + ts[1..];
    }
  }
}
