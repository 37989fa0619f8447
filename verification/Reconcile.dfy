/** Reconciling: paging one query result across a chain of invocations (`rollup.py`). */
module Reconcile {
  import opened Prelude
  import opened Queue
  import opened Rollup

  const RECONCILE_TIME_BUDGET_MS := 120000

  /** A query result as Athena pages it; its first row, on the first page, is the header. */
  type Pages = seq<seq<string>>

  /** The data rows of one page. */
  function PageKeys(pages: Pages, p: nat): seq<string>
    requires p < |pages|
  {
    if p == 0 && pages[0] != [] then pages[0][1..] else pages[p]
  }

  /** The data rows of the pages from `start` up to `end`. */
  function DataRows(pages: Pages, start: nat, end: nat): seq<string>
    requires start <= end <= |pages|
    decreases end
  {
    if start == end then [] else DataRows(pages, start, end - 1) + PageKeys(pages, end - 1)
  }

  function Concat(pages: Pages): seq<string> {
    if pages == [] then [] else Concat(pages[..|pages| - 1]) + pages[|pages| - 1]
  }

  /** What one invocation did: the pages it read, and the invocation it left the rest to. */
  datatype Hop = Hop(depth: int, start: nat, end: nat, truncated: nat, next: Option<Payload>)

  ghost predicate IsHop(pages: Pages, maxDepth: int, query: nat, hop: Hop) {
    && hop.start < hop.end <= |pages|
    && (hop.end == |pages| ==> hop.truncated == 0 && hop.next == None)
    && (hop.end < |pages| ==>
          if hop.depth + 1 < maxDepth
          then hop.truncated == 0 && hop.next == Some(ReconcilePayload(hop.depth + 1, query, hop.end))
          else hop.truncated == 1 && hop.next == None)
  }

  datatype ReconcileMetrics = ReconcileMetrics(drift: nat, chainDepth: int, truncated: nat)

  /** `run_reconcile`, given the result its query has or had. `remaining(i)` is the clock's answer
      the i-th time it is asked; a token is the page it stands for. */
  method RunReconcile(
    config: RollupConfig, queue: SqsQueue, lambda: LambdaClient, pages: Pages, query: nat,
    depth: int, token: Option<nat>, remaining: nat -> int)
    returns (metrics: ReconcileMetrics, ghost hop: Hop)
    requires pages != [] && (token.Some? ==> 0 < token.value < |pages|)
    modifies queue`visible, lambda
    ensures IsHop(pages, config.maxDepth, query, hop)
    ensures hop.depth == depth && hop.start == if token.Some? then token.value else 0
    ensures queue.visible == old(queue.visible) + Notifications(DataRows(pages, hop.start, hop.end))
    ensures metrics == ReconcileMetrics(|DataRows(pages, hop.start, hop.end)|, depth, hop.truncated)
    ensures lambda.invoked == old(lambda.invoked) + (if hop.next.Some? then [hop.next.value] else [])
    ensures hop.end < |pages| ==> remaining(hop.end - 1 - hop.start) < 120000
    ensures forall i: nat | i + 1 < hop.end - hop.start :: remaining(i) >= 120000
  {
    var skipHeader := token.None?;
    ghost var start := if token.Some? then token.value else 0;
    var p := if token.Some? then token.value else 0;
    var enqueued: nat := 0;
    var truncated: nat := 0;
    var asked: nat := 0;
    while true
      invariant start <= p < |pages| && (skipHeader <==> p == 0) && asked == p - start
      invariant queue.visible == old(queue.visible) + Notifications(DataRows(pages, start, p))
      invariant enqueued == |DataRows(pages, start, p)| && truncated == 0
      invariant lambda.invoked == old(lambda.invoked)
      invariant forall i: nat | i < p - start :: remaining(i) >= RECONCILE_TIME_BUDGET_MS
      decreases |pages| - p
    {
      var count := EnqueuePage(queue, pages, p, skipHeader, old(queue.visible), start);
      skipHeader := false;
      enqueued := enqueued + count;
      if p + 1 == |pages| {
        hop := Hop(depth, start, p + 1, 0, None);
        break;
      }
      var timeLeft := remaining(asked);
      if timeLeft < RECONCILE_TIME_BUDGET_MS {
        var chained := Chain(lambda, config.maxDepth, ReconcilePayload(depth + 1, query, p + 1));
        truncated := if chained then 0 else 1;
        hop := Hop(depth, start, p + 1, truncated, if chained then Some(ReconcilePayload(depth + 1, query, p + 1)) else None);
        break;
      }
      asked := asked + 1;
      p := p + 1;
    }
    metrics := ReconcileMetrics(enqueued, depth, truncated);
  }

  /** One page of the result, after those from `start`. */
  method EnqueuePage(
    queue: SqsQueue, pages: Pages, p: nat, skipHeader: bool, ghost before: seq<Notification>, ghost start: nat)
    returns (count: nat)
    requires start <= p < |pages| && (skipHeader <==> p == 0)
    requires queue.visible == before + Notifications(DataRows(pages, start, p))
    modifies queue`visible
    ensures queue.visible == before + Notifications(DataRows(pages, start, p + 1))
    ensures count == |DataRows(pages, start, p + 1)| - |DataRows(pages, start, p)|
  {
    var rows := pages[p];
    if skipHeader && rows != [] {
      rows := rows[1..];
    }
    var keys := rows;
    NotificationsJoin(DataRows(pages, start, p), keys);
    if keys != [] {
      EnqueueKeys(queue, keys);
    }
    count := |keys|;
  }

  lemma NotificationsJoin(a: seq<string>, b: seq<string>)
    ensures Notifications(a + b) == Notifications(a) + Notifications(b)
  {
  }

  // ---------- the whole chain

  /** Each invocation is the one the invocation before it left the rest to; the last may have left the
      rest to another. */
  ghost predicate IsLinked(pages: Pages, maxDepth: int, query: nat, hops: seq<Hop>) {
    && hops != [] && hops[0].start == 0
    && (forall i | 0 <= i < |hops| :: IsHop(pages, maxDepth, query, hops[i]))
    && (forall i | 0 < i < |hops| :: hops[i - 1].next == Some(ReconcilePayload(hops[i].depth, query, hops[i].start)))
  }

  /** Linked invocations of which the last left nothing to another. */
  ghost predicate IsChain(pages: Pages, maxDepth: int, query: nat, hops: seq<Hop>) {
    IsLinked(pages, maxDepth, query, hops) && hops[|hops| - 1].next.None?
  }

  /** Everything the first `n` invocations enqueued, in order. */
  function Enqueued(pages: Pages, hops: seq<Hop>): seq<string>
    requires forall i | 0 <= i < |hops| :: hops[i].start <= hops[i].end <= |pages|
  {
    if hops == [] then []
    else
      var last := hops[|hops| - 1];
      Enqueued(pages, hops[..|hops| - 1]) + DataRows(pages, last.start, last.end)
  }

  lemma {:induction false} DataRowsJoin(pages: Pages, a: nat, b: nat, c: nat)
    requires a <= b <= c <= |pages|
    ensures DataRows(pages, a, c) == DataRows(pages, a, b) + DataRows(pages, b, c)
    decreases c
  {
    if b < c {
      DataRowsJoin(pages, a, b, c - 1);
    }
  }

  lemma {:induction false} PagesUpTo(pages: Pages, n: nat)
    requires 0 < n <= |pages| && pages[0] != []
    ensures Concat(pages[..n]) == [pages[0][0]] + DataRows(pages, 0, n)
  {
    assert pages[..n][..n - 1] == pages[..n - 1] && pages[..n][n - 1] == pages[n - 1];
    assert Concat(pages[..n]) == Concat(pages[..n - 1]) + pages[n - 1];
    if n == 1 {
      assert Concat(pages[..0]) == [] && DataRows(pages, 0, 0) == [];
      assert pages[0] == [pages[0][0]] + pages[0][1..];
    } else {
      PagesUpTo(pages, n - 1);
    }
  }

  /** The header is dropped once and nothing else is. */
  lemma DataRowsAreAllButTheHeader(pages: Pages)
    requires pages != [] && pages[0] != []
    ensures Concat(pages) == [pages[0][0]] + DataRows(pages, 0, |pages|)
  {
    PagesUpTo(pages, |pages|);
    assert pages[..|pages|] == pages;
  }

  lemma {:induction false} LinkedReadsOn(pages: Pages, maxDepth: int, query: nat, hops: seq<Hop>, n: nat)
    requires IsLinked(pages, maxDepth, query, hops) && 0 < n <= |hops|
    ensures Enqueued(pages, hops[..n]) == DataRows(pages, 0, hops[n - 1].end)
    ensures hops[n - 1].depth == hops[0].depth + n - 1 && (n > 1 ==> hops[n - 1].depth < maxDepth)
    ensures n <= hops[n - 1].end
  {
    var last := hops[n - 1];
    assert hops[..n][..n - 1] == hops[..n - 1] && IsHop(pages, maxDepth, query, last);
    if n > 1 {
      LinkedReadsOn(pages, maxDepth, query, hops, n - 1);
      assert IsHop(pages, maxDepth, query, hops[n - 2]);
      assert hops[n - 2].next == Some(ReconcilePayload(last.depth, query, last.start));
      DataRowsJoin(pages, 0, last.start, last.end);
    } else {
      assert hops[..0] == [];
    }
  }

  /** However far a chain has come, ended or not, it has enqueued, in order, the data rows of the pages it
      has read, and it has made no more hops than the depth limit and the pages allow: there is no
      endless chain. */
  lemma LinkedHopsAreBounded(pages: Pages, maxDepth: int, query: nat, hops: seq<Hop>)
    requires IsLinked(pages, maxDepth, query, hops)
    ensures var last := hops[|hops| - 1];
            && last.end <= |pages|
            && Enqueued(pages, hops) == DataRows(pages, 0, last.end)
            && DataRows(pages, 0, |pages|) == Enqueued(pages, hops) + DataRows(pages, last.end, |pages|)
    ensures |hops| <= Max(1, maxDepth - hops[0].depth)
    ensures |hops| <= |pages|
  {
    var n := |hops|;
    assert hops[..n] == hops && IsHop(pages, maxDepth, query, hops[n - 1]);
    LinkedReadsOn(pages, maxDepth, query, hops, n);
    DataRowsJoin(pages, 0, hops[n - 1].end, |pages|);
  }

  /** A chain with another hop to make is short of both the depth limit and the end of the result. */
  lemma LimitEndsTheChain(pages: Pages, maxDepth: int, query: nat, hops: seq<Hop>)
    requires IsLinked(pages, maxDepth, query, hops)
    ensures hops[|hops| - 1].next.Some? ==> |hops| < maxDepth - hops[0].depth && |hops| < |pages|
  {
    var n := |hops|;
    LinkedReadsOn(pages, maxDepth, query, hops, n);
    assert IsHop(pages, maxDepth, query, hops[n - 1]);
  }

  /** Over a whole chain what is enqueued is, in order, the data rows of the pages read: a prefix of
      the result's, all of it unless the last invocation reports that it was truncated. */
  lemma ChainEnqueuesAPrefix(pages: Pages, maxDepth: int, query: nat, hops: seq<Hop>)
    requires IsChain(pages, maxDepth, query, hops)
    ensures var last := hops[|hops| - 1];
            && last.end <= |pages|
            && Enqueued(pages, hops) == DataRows(pages, 0, last.end)
            && DataRows(pages, 0, |pages|) == Enqueued(pages, hops) + DataRows(pages, last.end, |pages|)
            && (last.truncated == 0 <==> last.end == |pages|)
            && (Enqueued(pages, hops) == DataRows(pages, 0, |pages|) <==>
                  last.truncated == 0 || DataRows(pages, last.end, |pages|) == [])
    ensures |hops| <= Max(1, maxDepth - hops[0].depth)
  {
    var last := hops[|hops| - 1];
    LinkedHopsAreBounded(pages, maxDepth, query, hops);
    assert IsHop(pages, maxDepth, query, last);
    assert last.end == |pages| ==> DataRows(pages, last.end, |pages|) == [];
  }

  /** The enqueuing of a whole chain does not depend on where the page breaks fall, on the clock or
      on the depth limit, as long as none of it was truncated. */
  lemma PagingDoesNotMatter(
    pages: Pages, hops: seq<Hop>, maxDepth: int, query: nat,
    others: Pages, hops': seq<Hop>, maxDepth': int, query': nat)
    requires IsChain(pages, maxDepth, query, hops) && hops[|hops| - 1].truncated == 0
    requires IsChain(others, maxDepth', query', hops') && hops'[|hops'| - 1].truncated == 0
    requires pages[0] != [] && others[0] != [] && Concat(pages) == Concat(others)
    ensures Enqueued(pages, hops) == Enqueued(others, hops')
  {
    ChainEnqueuesAPrefix(pages, maxDepth, query, hops);
    ChainEnqueuesAPrefix(others, maxDepth', query', hops');
    DataRowsAreAllButTheHeader(pages);
    DataRowsAreAllButTheHeader(others);
    assert Concat(pages)[1..] == DataRows(pages, 0, |pages|) && Concat(others)[1..] == DataRows(others, 0, |others|);
  }
}
