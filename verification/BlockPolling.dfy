/**
 HTTP polling of the payment listener: each poll asks for the blocks after the cursor in chunks of at
 most 500, passes every parsable Transfer log of a chunk to the queue, and moves the cursor on even past
 a chunk whose query failed. `Chain` says which logs each block holds.
 */
module BlockPolling {
  import opened Common

  const MAX_LOGS_CHUNK_BLOCKS := 500
  const RPC_RETRY_COUNT := 3

  datatype Log = Log(txHash: nat, logIndex: nat, parsable: bool)

  type Chain = int -> seq<Log>

  datatype Range = Range(first: int, last: int)

  /** One getLogs request, and whether its query (with retries) succeeded. */
  datatype Request = Request(range: Range, ok: bool)

  datatype State = State(cursor: int, asked: seq<Request>, enqueued: seq<Log>)

  function LogsIn(chain: Chain, first: int, last: int): seq<Log>
    decreases last - first + 1
  {
    if first > last then [] else LogsIn(chain, first, last - 1) + chain(last)
  }

  function Parsable(logs: seq<Log>): seq<Log> {
    if logs == [] then []
    else
      var rest := Parsable(logs[..|logs| - 1]);
      if logs[|logs| - 1].parsable then rest + [logs[|logs| - 1]] else rest
  }

  function Ask(chain: Chain, s: State, r: Range, ok: bool): State {
    State(r.last, s.asked + [Request(r, ok)],
          if ok then s.enqueued + Parsable(LogsIn(chain, r.first, r.last)) else s.enqueued)
  }

  function AskChunks(chain: Chain, s: State, first: int, last: int, ok: Range -> bool): State
    decreases last - first + 1
  {
    if first > last then s
    else
      var r := Range(first, Min(first + MAX_LOGS_CHUNK_BLOCKS - 1, last));
      AskChunks(chain, Ask(chain, s, r, ok(r)), first + MAX_LOGS_CHUNK_BLOCKS, last, ok)
  }

  /** pollNewBlocks, given the head block (None if it could not be read) and which queries succeed. */
  function Poll(chain: Chain, s: State, head: Option<int>, ok: Range -> bool): State {
    if head.None? || head.value <= s.cursor then s
    else AskChunks(chain, s, s.cursor + 1, head.value, ok)
  }

  class PollingListener {
    var lastPolledBlock: int
    var asked: seq<Request>
    var enqueued: seq<Log>

    function View(): State
      reads this
    {
      State(lastPolledBlock, asked, enqueued)
    }

    constructor (baseline: int)
      ensures View() == State(baseline, [], [])
    {
      lastPolledBlock, asked, enqueued := baseline, [], [];
    }

    method EnqueueParsable(logs: seq<Log>)
      modifies this`enqueued
      ensures enqueued == old(enqueued) + Parsable(logs)
    {
      for i := 0 to |logs|
        invariant enqueued == old(enqueued) + Parsable(logs[..i])
      {
        assert logs[..i + 1][..i] == logs[..i];
        if logs[i].parsable { enqueued := enqueued + [logs[i]]; }
      }
      assert logs[..|logs|] == logs;
    }

    method PollNewBlocks(chain: Chain, head: Option<int>, ok: Range -> bool)
      modifies this
      ensures View() == Poll(chain, old(View()), head, ok)
      ensures lastPolledBlock >= old(lastPolledBlock)
    {
      hide Parsable, LogsIn;
      if head.None? || head.value <= lastPolledBlock { return; }
      var start := lastPolledBlock + 1;
      var toBlock := head.value;
      while start <= toBlock
        invariant start <= toBlock + MAX_LOGS_CHUNK_BLOCKS
        invariant lastPolledBlock >= old(lastPolledBlock)
        invariant start > old(lastPolledBlock)
        invariant AskChunks(chain, View(), start, toBlock, ok) == Poll(chain, old(View()), head, ok)
      {
        var range := Range(start, Min(start + MAX_LOGS_CHUNK_BLOCKS - 1, toBlock));
        if ok(range) { EnqueueParsable(LogsIn(chain, range.first, range.last)); }
        asked := asked + [Request(range, ok(range))];
        lastPolledBlock := range.last;
        start := start + MAX_LOGS_CHUNK_BLOCKS;
      }
    }
  }

  // ---------------------------------------------------------------- retrying one RPC

  datatype Rpc<T> = Ok(value: T) | Err(code: int, retryable: bool)

  /** withRetry around an RPC whose i-th invocation gives `call(i)`: at most three invocations, another one
      only after a retryable error, and the result is that of the last one made. */
  method WithRetry<T>(call: nat -> Rpc<T>) returns (r: Rpc<T>, invocations: nat, slept: nat)
    ensures 1 <= invocations <= RPC_RETRY_COUNT
    ensures forall i | 0 <= i < invocations - 1 :: call(i).Err? && call(i).retryable
    ensures r == call(invocations - 1)
    ensures r.Ok? || !r.retryable || invocations == RPC_RETRY_COUNT
    ensures slept == (if r.Err? && r.retryable then 6_000 else 500 * invocations * (invocations - 1))
  {
    invocations, slept := 0, 0;
    r := call(0);
    for attempt := 0 to RPC_RETRY_COUNT
      invariant invocations == attempt && slept == 500 * attempt * (attempt + 1)
      invariant forall i | 0 <= i < attempt :: call(i).Err? && call(i).retryable
      invariant attempt > 0 ==> r == call(attempt - 1)
    {
      invocations := invocations + 1;
      r := call(attempt);
      if r.Ok? || !r.retryable { return; }
      slept := slept + 1_000 * (attempt + 1);
    }
  }

  // ---------------------------------------------------------------- a whole polling session

  /** What one poll finds: the head block, and which range queries will succeed. */
  datatype Finding = Finding(head: Option<int>, ok: Range -> bool)

  function Session(chain: Chain, baseline: int, polls: seq<Finding>): State {
    if polls == [] then State(baseline, [], [])
    else
      var last := polls[|polls| - 1];
      Poll(chain, Session(chain, baseline, polls[..|polls| - 1]), last.head, last.ok)
  }

  /** The requests start after the baseline, are of legal size, follow one another without gap or overlap,
      and end at the cursor. */
  predicate Contiguous(baseline: int, asked: seq<Request>, cursor: int) {
    if asked == [] then cursor == baseline
    else
      var r := asked[|asked| - 1].range;
      && r.last == cursor
      && r.first <= r.last < r.first + 500
      && Contiguous(baseline, asked[..|asked| - 1], r.first - 1)
  }

  /** The parsable logs of the successful requests, in order. */
  function Collected(chain: Chain, asked: seq<Request>): seq<Log> {
    if asked == [] then []
    else
      var q := asked[|asked| - 1];
      Collected(chain, asked[..|asked| - 1]) + if q.ok then Parsable(LogsIn(chain, q.range.first, q.range.last)) else []
  }

  predicate Covers(chain: Chain, baseline: int, s: State) {
    Contiguous(baseline, s.asked, s.cursor) && s.enqueued == Collected(chain, s.asked)
  }

  lemma AskCovers(chain: Chain, baseline: int, s: State, r: Range, ok: bool)
    requires Covers(chain, baseline, s)
    requires r.first == s.cursor + 1 <= r.last < r.first + MAX_LOGS_CHUNK_BLOCKS
    ensures Covers(chain, baseline, Ask(chain, s, r, ok))
  {
    var d := Ask(chain, s, r, ok);
    assert d.asked[..|d.asked| - 1] == s.asked;
  }

  lemma {:induction false} ChunksCover(chain: Chain, baseline: int, s: State, first: int, last: int, ok: Range -> bool)
    requires Covers(chain, baseline, s) && (first <= last ==> first == s.cursor + 1)
    ensures var d := AskChunks(chain, s, first, last, ok);
            && Covers(chain, baseline, d) && d.cursor == (if first <= last then last else s.cursor)
            && |d.asked| == |s.asked| + (if first <= last then (last - first + 500) / 500 else 0)
    decreases last - first + 1
  {
    if first <= last {
      var r := Range(first, Min(first + MAX_LOGS_CHUNK_BLOCKS - 1, last));
      AskCovers(chain, baseline, s, r, ok(r));
      ChunksCover(chain, baseline, Ask(chain, s, r, ok(r)), first + MAX_LOGS_CHUNK_BLOCKS, last, ok);
    }
  }

  /** One poll: the cursor moves to the head block if that is further on, in as few requests as the limit allows. */
  lemma PollCovers(chain: Chain, baseline: int, s: State, head: Option<int>, ok: Range -> bool)
    requires Covers(chain, baseline, s)
    ensures var d := Poll(chain, s, head, ok);
            && Covers(chain, baseline, d)
            && d.cursor == (if head.Some? && head.value > s.cursor then head.value else s.cursor)
            && |d.asked| == |s.asked|
                            + (if head.Some? && head.value > s.cursor then (head.value - s.cursor + 499) / 500 else 0)
  {
    if head.Some? && head.value > s.cursor { ChunksCover(chain, baseline, s, s.cursor + 1, head.value, ok); }
  }

  /** The highest of the baseline and the head blocks seen. */
  function Highest(baseline: int, polls: seq<Finding>): int {
    if polls == [] then baseline
    else
      var before := Highest(baseline, polls[..|polls| - 1]);
      var head := polls[|polls| - 1].head;
      if head.Some? && head.value > before then head.value else before
  }

  /** Over any run of polls the requests cover exactly the blocks after the baseline up to the cursor, and
      the cursor is the highest head block seen, never going back. */
  lemma {:induction false} SessionCovers(chain: Chain, baseline: int, polls: seq<Finding>)
    ensures Covers(chain, baseline, Session(chain, baseline, polls))
    ensures Session(chain, baseline, polls).cursor == Highest(baseline, polls)
  {
    if polls != [] {
      var n := |polls| - 1;
      SessionCovers(chain, baseline, polls[..n]);
      PollCovers(chain, baseline, Session(chain, baseline, polls[..n]), polls[n].head, polls[n].ok);
    }
  }

  predicate Has(q: Request, block: int) { q.range.first <= block <= q.range.last }

  /** So every block after the baseline up to the cursor is asked for by exactly one request, and no other block is. */
  lemma {:induction false} EachBlockAskedOnce(baseline: int, asked: seq<Request>, cursor: int, block: int)
    requires Contiguous(baseline, asked, cursor)
    ensures baseline <= cursor
    ensures (exists i | 0 <= i < |asked| :: Has(asked[i], block)) <==> baseline < block <= cursor
    ensures forall i, j | 0 <= i < j < |asked| && Has(asked[i], block) :: !Has(asked[j], block)
  {
    if asked != [] {
      var n := |asked| - 1;
      var last := asked[n];
      EachBlockAskedOnce(baseline, asked[..n], last.range.first - 1, block);
      assert forall i | 0 <= i < n :: asked[..n][i] == asked[i];
      if baseline < block < last.range.first {
        var i :| 0 <= i < n && Has(asked[..n][i], block);
        assert Has(asked[i], block);
      } else if baseline < block <= cursor {
        assert Has(asked[n], block);
      }
    }
  }

  lemma {:induction false} LogsSplit(chain: Chain, first: int, mid: int, last: int)
    requires first <= mid + 1 && mid <= last
    ensures LogsIn(chain, first, last) == LogsIn(chain, first, mid) + LogsIn(chain, mid + 1, last)
    decreases last - mid
  {
    if mid < last { LogsSplit(chain, first, mid, last - 1); }
  }

  lemma {:induction false} ParsableSplit(a: seq<Log>, b: seq<Log>)
    ensures Parsable(a + b) == Parsable(a) + Parsable(b)
  {
    if b == [] {
      assert a + b == a;
    } else {
      ParsableSplit(a, b[..|b| - 1]);
      assert (a + b)[..|a + b| - 1] == a + b[..|b| - 1];
    }
  }

  lemma ParsableJoin(chain: Chain, first: int, mid: int, last: int)
    requires first <= mid + 1 && mid <= last
    ensures Parsable(LogsIn(chain, first, mid)) + Parsable(LogsIn(chain, mid + 1, last))
            == Parsable(LogsIn(chain, first, last))
  {
    LogsSplit(chain, first, mid, last);
    ParsableSplit(LogsIn(chain, first, mid), LogsIn(chain, mid + 1, last));
  }

  /** A query lost something if it failed and its range holds a parsable log. */
  predicate Loses(chain: Chain, q: Request) { !q.ok && Parsable(LogsIn(chain, q.range.first, q.range.last)) != [] }

  predicate LosesNothing(chain: Chain, asked: seq<Request>) { forall q | q in asked :: !Loses(chain, q) }

  lemma CollectedStep(chain: Chain, baseline: int, earlier: seq<Request>, q: Request)
    requires baseline < q.range.first <= q.range.last
    ensures var before := Parsable(LogsIn(chain, baseline + 1, q.range.first - 1));
            var inRange := Parsable(LogsIn(chain, q.range.first, q.range.last));
            && Parsable(LogsIn(chain, baseline + 1, q.range.last)) == before + inRange
            && Collected(chain, earlier + [q]) == Collected(chain, earlier) + if q.ok then inRange else []
  {
    assert (earlier + [q])[..|earlier|] == earlier;
    ParsableJoin(chain, baseline + 1, q.range.first - 1, q.range.last);
  }

  lemma {:induction false} CollectedIsAllIff(chain: Chain, baseline: int, asked: seq<Request>, cursor: int)
    requires Contiguous(baseline, asked, cursor)
    ensures var all := Parsable(LogsIn(chain, baseline + 1, cursor));
            && |Collected(chain, asked)| <= |all|
            && (Collected(chain, asked) == all <==> LosesNothing(chain, asked))
            && (|Collected(chain, asked)| == |all| <==> LosesNothing(chain, asked))
  {
    if asked != [] {
      var earlier, q := asked[..|asked| - 1], asked[|asked| - 1];
      assert asked == earlier + [q];
      CollectedIsAllIff(chain, baseline, earlier, q.range.first - 1);
      EachBlockAskedOnce(baseline, earlier, q.range.first - 1, baseline);
      CollectedStep(chain, baseline, earlier, q);
      assert LosesNothing(chain, asked) <==> LosesNothing(chain, earlier) && !Loses(chain, q);
      hide Parsable, LogsIn, Collected, LosesNothing, Contiguous;
    }
  }

  /** The queue is given the parsable logs of exactly the ranges whose query succeeded, each once and in
      order. That is every parsable log after the baseline if and only if no failed query covered one. */
  lemma {:induction false} EnqueuedOnce(chain: Chain, baseline: int, polls: seq<Finding>)
    ensures var s := Session(chain, baseline, polls);
            && s.enqueued == Collected(chain, s.asked)
            && (s.enqueued == Parsable(LogsIn(chain, baseline + 1, s.cursor)) <==> LosesNothing(chain, s.asked))
            && ((forall q | q in s.asked :: q.ok) ==> LosesNothing(chain, s.asked))
  {
    SessionCovers(chain, baseline, polls);
    var s := Session(chain, baseline, polls);
    CollectedIsAllIff(chain, baseline, s.asked, s.cursor);
  }

  // ---------------------------------------------------------------- which logs, how often, in which order

  /** How often the blocks from `first` to `last` hold the log. */
  function Occurrences(chain: Chain, first: int, last: int, l: Log): nat
    decreases last - first + 1
  {
    if first > last then 0 else Occurrences(chain, first, last - 1, l) + multiset(chain(last))[l]
  }

  /** How often the ranges whose query succeeded hold it. */
  function Answered(chain: Chain, asked: seq<Request>, l: Log): nat {
    if asked == [] then 0
    else
      var q := asked[|asked| - 1];
      Answered(chain, asked[..|asked| - 1], l) + if q.ok then Occurrences(chain, q.range.first, q.range.last, l) else 0
  }

  lemma {:induction false} CountInRange(chain: Chain, first: int, last: int, l: Log)
    ensures multiset(LogsIn(chain, first, last))[l] == Occurrences(chain, first, last, l)
    decreases last - first + 1
  {
    if first <= last { CountInRange(chain, first, last - 1, l); }
  }

  lemma {:induction false} CountParsable(logs: seq<Log>, l: Log)
    ensures multiset(Parsable(logs))[l] == if l.parsable then multiset(logs)[l] else 0
  {
    if logs != [] {
      var n := |logs| - 1;
      CountParsable(logs[..n], l);
      assert logs == logs[..n] + [logs[n]];
    }
  }

  lemma {:induction false} CountCollected(chain: Chain, asked: seq<Request>, l: Log)
    ensures multiset(Collected(chain, asked))[l] == if l.parsable then Answered(chain, asked, l) else 0
  {
    if asked != [] {
      var q := asked[|asked| - 1];
      var logs := LogsIn(chain, q.range.first, q.range.last);
      CountCollected(chain, asked[..|asked| - 1], l);
      CountInRange(chain, q.range.first, q.range.last, l);
      CountParsable(logs, l);
      hide Parsable, LogsIn, Occurrences;
    }
  }

  /** After any session the queue was given every parsable log exactly as often as the blocks of the answered
      ranges hold it, and no other log. */
  lemma {:induction false} EnqueuedAreTheParsableLogs(chain: Chain, baseline: int, polls: seq<Finding>, l: Log)
    ensures var s := Session(chain, baseline, polls);
            && multiset(s.enqueued)[l] == (if l.parsable then Answered(chain, s.asked, l) else 0)
            && (l in s.enqueued ==> l.parsable)
  {
    SessionCovers(chain, baseline, polls);
    CountCollected(chain, Session(chain, baseline, polls).asked, l);
  }

  /** All logs of the answered ranges, parsable or not, in the order of the blocks. */
  function Read(chain: Chain, asked: seq<Request>): seq<Log> {
    if asked == [] then []
    else
      var q := asked[|asked| - 1];
      Read(chain, asked[..|asked| - 1]) + if q.ok then LogsIn(chain, q.range.first, q.range.last) else []
  }

  /** `kept` are the logs at these ascending places, and these are all the places of parsable logs. */
  predicate KeptAt(logs: seq<Log>, kept: seq<Log>, places: seq<nat>) {
    && |places| == |kept|
    && (forall k | 0 <= k < |places| :: places[k] < |logs| && kept[k] == logs[places[k]] && logs[places[k]].parsable)
    && (forall j, k | 0 <= j < k < |places| :: places[j] < places[k])
    && (forall i | 0 <= i < |logs| && logs[i].parsable :: i in places)
  }

  lemma KeptSnoc(logs: seq<Log>, kept: seq<Log>, places: seq<nat>, l: Log)
    requires KeptAt(logs, kept, places) && l.parsable
    ensures KeptAt(logs + [l], kept + [l], places + [|logs|])
  {
    var all := logs + [l];
    var more := places + [|logs|];
    forall i | 0 <= i < |all| && all[i].parsable ensures i in more {
      if i < |logs| {
        var k :| 0 <= k < |places| && places[k] == i;
        assert more[k] == i;
      } else {
        assert more[|places|] == i;
      }
    }
  }

  lemma SkippedSnoc(logs: seq<Log>, kept: seq<Log>, places: seq<nat>, l: Log)
    requires KeptAt(logs, kept, places) && !l.parsable
    ensures KeptAt(logs + [l], kept, places)
  {
  }

  lemma ParsableSnoc(logs: seq<Log>, l: Log)
    ensures Parsable(logs + [l]) == if l.parsable then Parsable(logs) + [l] else Parsable(logs)
  {
    assert (logs + [l])[..|logs|] == logs;
  }

  lemma {:induction false} ParsablePlaces(logs: seq<Log>) returns (places: seq<nat>)
    ensures KeptAt(logs, Parsable(logs), places)
  {
    if logs == [] {
      places := [];
    } else {
      hide KeptAt, Parsable;
      var front, l := logs[..|logs| - 1], logs[|logs| - 1];
      places := ParsablePlaces(front);
      ParsableSnoc(front, l);
      if l.parsable {
        KeptSnoc(front, Parsable(front), places, l);
        places := places + [|front|];
      } else {
        SkippedSnoc(front, Parsable(front), places, l);
      }
      assert front + [l] == logs;
    }
  }

  lemma {:induction false} CollectedFilters(chain: Chain, asked: seq<Request>)
    ensures Collected(chain, asked) == Parsable(Read(chain, asked))
  {
    if asked != [] {
      var q := asked[|asked| - 1];
      var earlier := asked[..|asked| - 1];
      CollectedFilters(chain, earlier);
      ParsableSplit(Read(chain, earlier), if q.ok then LogsIn(chain, q.range.first, q.range.last) else []);
    }
  }

  /** And in their order: what was enqueued are the logs at the places of the parsable ones among all logs of
      the answered ranges, from first to last. */
  lemma {:induction false} EnqueuedInOrder(chain: Chain, baseline: int, polls: seq<Finding>) returns (places: seq<nat>)
    ensures var s := Session(chain, baseline, polls); KeptAt(Read(chain, s.asked), s.enqueued, places)
  {
    SessionCovers(chain, baseline, polls);
    var s := Session(chain, baseline, polls);
    CollectedFilters(chain, s.asked);
    places := ParsablePlaces(Read(chain, s.asked));
  }

  // ---------------------------------------------------------------- a session that loses a log

  const FIRST := Log(1, 0, true)
  const SECOND := Log(2, 0, true)

  /** Two blocks that hold one log each. */
  const TWO_BLOCKS: Chain := block => if block == 1 then [FIRST] else [SECOND]

  lemma ParsableInBlock(block: int)
    ensures LogsIn(TWO_BLOCKS, block, block) == TWO_BLOCKS(block)
    ensures Parsable(TWO_BLOCKS(block)) == TWO_BLOCKS(block)
  {
    assert LogsIn(TWO_BLOCKS, block, block - 1) == [];
    assert TWO_BLOCKS(block)[..0] == [];
  }

  lemma PollOneBlock(s: State, block: int, ok: Range -> bool)
    requires block == s.cursor + 1
    ensures Poll(TWO_BLOCKS, s, Some(block), ok)
            == State(block, s.asked + [Request(Range(block, block), ok(Range(block, block)))],
                     if ok(Range(block, block)) then s.enqueued + TWO_BLOCKS(block) else s.enqueued)
  {
    ParsableInBlock(block);
    hide Parsable, LogsIn;
    var r := Range(block, block);
    var d := Ask(TWO_BLOCKS, s, r, ok(r));
    assert AskChunks(TWO_BLOCKS, d, block + MAX_LOGS_CHUNK_BLOCKS, block, ok) == d;
    assert AskChunks(TWO_BLOCKS, s, block, block, ok) == d;
  }

  /** It happens: the query for block 1 fails, and the next poll goes on behind it. */
  lemma FailedQueryLosesALog() returns (polls: seq<Finding>)
    ensures var s := Session(TWO_BLOCKS, 0, polls);
            && s.cursor == 2 && s.enqueued == [SECOND]
            && Parsable(LogsIn(TWO_BLOCKS, 1, s.cursor)) == [FIRST, SECOND]
  {
    var failing := Finding(Some(1), range => false);
    var working := Finding(Some(2), range => true);
    polls := [failing, working];
    assert polls[..1] == [failing] && [failing][..0] == [];
    ParsableInBlock(1);
    ParsableInBlock(2);
    ParsableJoin(TWO_BLOCKS, 1, 1, 2);
    hide Parsable, LogsIn, Poll;
    assert Session(TWO_BLOCKS, 0, []) == State(0, [], []);
    PollOneBlock(State(0, [], []), 1, failing.ok);
    PollOneBlock(Session(TWO_BLOCKS, 0, [failing]), 2, working.ok);
  }
}
