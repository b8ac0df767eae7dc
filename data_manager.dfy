/** The data manager: the stateful orchestrator on top of the usage loader.
    It runs an initial load (optionally answered from the summary cache),
    then serves the cached analysis or refreshes it with retries, assigns
    detected limit messages to session blocks, and keeps a tracker of the
    log files that fall inside an active session window. Times are integer
    milliseconds; Go's zero `time.Time` is `None`. */
module Orchestrator {
  import opened Wrappers
  import opened Entries
  import UsageLoader

  const MinuteMillis := 60_000
  /** A block counts as active when it ended less than five hours ago. */
  const ActiveHorizon := 5 * UsageLoader.HourMillis
  /** Trailing buffer after a block's end that still catches late writes. */
  const LateWriteBuffer := 30 * MinuteMillis
  /** A tracked file is refreshed when its last refresh is older than this. */
  const RefreshAge := MinuteMillis
  const MaxRetries := 3
  const BaseBackoff := 100

  // ---------------------------------------------------------------------
  // Blocks, limits and the analysis result
  // ---------------------------------------------------------------------

  datatype LimitMessage = LimitMessage(timestamp: int, content: string)

  datatype SessionBlock = SessionBlock(startTime: int, endTime: int, isActive: bool,
                                       limitMessages: seq<LimitMessage>)

  /** The session analyzer of the sessions package, whose code is not part of
      this model: it turns sorted entries into blocks and raw records into
      limit detections. */
  datatype Analyzer = Analyzer(transformToBlocks: seq<UsageEntry> -> seq<SessionBlock>,
                               detectLimits: seq<RawRecord> -> seq<LimitMessage>)

  datatype AnalysisMetadata = AnalysisMetadata(generatedAt: int, hoursAnalyzed: int,
                                               entriesProcessed: nat, blocksCreated: nat,
                                               limitsDetected: nat, cacheUsed: bool, quickStart: bool)

  datatype AnalysisResult = AnalysisResult(blocks: seq<SessionBlock>, metadata: AnalysisMetadata)

  datatype FetchError =
    | LoadUsageFailed(cause: string)
    | NoUsageEntries
    | RetriesExhausted(attempts: nat, last: FetchError)

  /** A limit lies in a block when its timestamp is in the closed range
      [startTime, endTime]. */
  predicate IsLimitInBlockTimerange(limit: LimitMessage, block: SessionBlock): (r: bool)
    ensures r <==> block.startTime <= limit.timestamp <= block.endTime
  {
    (limit.timestamp > block.startTime || limit.timestamp == block.startTime) &&
    (limit.timestamp < block.endTime || limit.timestamp == block.endTime)
  }

  /** The detections that fall in `block`, in detection order. */
  function LimitsInBlock(limits: seq<LimitMessage>, block: SessionBlock): seq<LimitMessage>
  {
    if limits == [] then []
    else
      var last := limits[|limits| - 1];
      LimitsInBlock(limits[..|limits| - 1], block) + (if IsLimitInBlockTimerange(last, block) then [last] else [])
  }

  /** A limit is kept exactly when it is a detection in the block's range. */
  lemma {:induction false} LimitsInBlockExact(limits: seq<LimitMessage>, block: SessionBlock)
    ensures forall l :: l in LimitsInBlock(limits, block) <==> l in limits && IsLimitInBlockTimerange(l, block)
  {
    if limits != [] {
      var init := limits[..|limits| - 1];
      LimitsInBlockExact(init, block);
      assert limits == init + [limits[|limits| - 1]];
    }
  }

  /** Selection distributes over concatenation, so detection order is kept. */
  lemma {:induction false} LimitsInBlockConcat(a: seq<LimitMessage>, b: seq<LimitMessage>, block: SessionBlock)
    ensures LimitsInBlock(a + b, block) == LimitsInBlock(a, block) + LimitsInBlock(b, block)
    decreases |b|
  {
    if b == [] {
      assert a + b == a;
    } else {
      var init := b[..|b| - 1];
      LimitsInBlockConcat(a, init, block);
      assert (a + b)[..|a + b| - 1] == a + init;
    }
  }

  /** The block with its in-range limits attached; a block without any keeps
      its limit messages. */
  function WithLimits(block: SessionBlock, limits: seq<LimitMessage>): SessionBlock
  {
    var mine := LimitsInBlock(limits, block);
    if |mine| > 0 then block.(limitMessages := mine) else block
  }

  /** `b` is `block` with the detections of `limits` attached: the same
      range and flag; exactly the in-range detections when there are any,
      and otherwise `block` itself. */
  ghost predicate Attached(b: SessionBlock, block: SessionBlock, limits: seq<LimitMessage>) {
    && b.startTime == block.startTime && b.endTime == block.endTime && b.isActive == block.isActive
    && ((exists l :: l in limits && IsLimitInBlockTimerange(l, block)) ==>
          forall l :: l in b.limitMessages <==> l in limits && IsLimitInBlockTimerange(l, block))
    && ((forall l :: l in limits ==> !IsLimitInBlockTimerange(l, block)) ==> b == block)
  }

  /** Attaching limits changes nothing but the limit messages; a block gets
      every in-range detection and nothing else, and a block with none in
      range is left as it was. */
  lemma WithLimitsExact(block: SessionBlock, limits: seq<LimitMessage>)
    ensures Attached(WithLimits(block, limits), block, limits)
  {
    LimitsInBlockExact(limits, block);
    var mine := LimitsInBlock(limits, block);
    if exists l :: l in limits && IsLimitInBlockTimerange(l, block) {
      var l :| l in limits && IsLimitInBlockTimerange(l, block);
      assert l in mine;
    } else if |mine| > 0 {
      assert mine[0] in mine;
    }
  }

  /** The inner loop of processUsageData (lines 353-357): the detections in
      the block's range, in detection order. */
  method CollectBlockLimits(limits: seq<LimitMessage>, block: SessionBlock) returns (blockLimits: seq<LimitMessage>)
    ensures blockLimits == LimitsInBlock(limits, block)
  {
    blockLimits := [];
    var j := 0;
    while j < |limits|
      invariant 0 <= j <= |limits|
      invariant blockLimits == LimitsInBlock(limits[..j], block)
    {
      if IsLimitInBlockTimerange(limits[j], block) {
        blockLimits := blockLimits + [limits[j]];
      }
      assert limits[..j + 1][..j] == limits[..j];
      j := j + 1;
    }
    assert limits[..|limits|] == limits;
  }

  /** The nested loop of processUsageData (lines 351-361): each block in place
      gets the detections in its range, in detection order, when there are any. */
  method AssignLimits(blocks: array<SessionBlock>, limits: seq<LimitMessage>)
    modifies blocks
    ensures forall i :: 0 <= i < blocks.Length ==> blocks[i] == WithLimits(old(blocks[i]), limits)
  {
    var i := 0;
    while i < blocks.Length
      invariant 0 <= i <= blocks.Length
      invariant forall k :: 0 <= k < i ==> blocks[k] == WithLimits(old(blocks[k]), limits)
      invariant forall k :: i <= k < blocks.Length ==> blocks[k] == old(blocks[k])
    {
      var block := blocks[i];
      var blockLimits := CollectBlockLimits(limits, block);
      if |blockLimits| > 0 {
        blocks[i] := block.(limitMessages := blockLimits);
      }
      i := i + 1;
    }
  }

  /** What processUsageData computes from a load result (lines 323-380): an
      error for a load without entries; otherwise the analyzer's blocks with
      their limits attached (limit detection runs only when raw records were
      returned) and the metadata counts. */
  function Analyze(res: UsageLoader.LoadResult, hoursBack: int, now: int, an: Analyzer): (r: Result<AnalysisResult, FetchError>)
    ensures r.Failure? <==> |res.entries| == 0
    ensures r.Failure? ==> r.error == NoUsageEntries
    ensures r.Success? ==> r.value.metadata.entriesProcessed == |res.entries| > 0
  {
    if |res.entries| == 0 then Failure(NoUsageEntries)
    else
      var blocks := an.transformToBlocks(res.entries);
      var limits := if |res.raws| > 0 then an.detectLimits(res.raws) else [];
      Success(AnalysisResult(
        seq(|blocks|, i requires 0 <= i < |blocks| => WithLimits(blocks[i], limits)),
        AnalysisMetadata(now, hoursBack, |res.entries|, |blocks|, |limits|, false, false)))
  }

  /** A successful analysis holds one block per analyzer block, each keeping
      its range and flag and carrying exactly the detections in its range;
      detection runs only when raw records were loaded, so without them the
      analyzer's blocks come back unchanged and no limit is counted. */
  lemma AnalyzeEffect(res: UsageLoader.LoadResult, hoursBack: int, now: int, an: Analyzer)
    requires |res.entries| > 0
    ensures var r := Analyze(res, hoursBack, now, an);
      var blocks := an.transformToBlocks(res.entries);
      && r.Success?
      && |r.value.blocks| == r.value.metadata.blocksCreated == |blocks|
      && r.value.metadata.generatedAt == now && r.value.metadata.hoursAnalyzed == hoursBack
      && !r.value.metadata.cacheUsed && !r.value.metadata.quickStart
      && (|res.raws| > 0 ==>
            && r.value.metadata.limitsDetected == |an.detectLimits(res.raws)|
            && forall i :: 0 <= i < |blocks| ==> Attached(r.value.blocks[i], blocks[i], an.detectLimits(res.raws)))
      && (|res.raws| == 0 ==> r.value.metadata.limitsDetected == 0 && r.value.blocks == blocks)
  {
    var r := Analyze(res, hoursBack, now, an);
    var blocks := an.transformToBlocks(res.entries);
    var limits := if |res.raws| > 0 then an.detectLimits(res.raws) else [];
    forall i | 0 <= i < |blocks|
      ensures Attached(r.value.blocks[i], blocks[i], limits)
    {
      WithLimitsExact(blocks[i], limits);
    }
    if |res.raws| == 0 {
      forall i | 0 <= i < |blocks|
        ensures r.value.blocks[i] == blocks[i]
      {
        assert WithLimits(blocks[i], []) == blocks[i];
      }
    }
  }

  // ---------------------------------------------------------------------
  // The session window
  // ---------------------------------------------------------------------

  datatype FileTracker = FileTracker(path: string, lastModTime: int, lastCacheUpdate: Option<int>,
                                     inSessionWindow: bool)

  /** A discovered log file and its modification time; `None` when the
      file could not be stat'ed. */
  datatype DiscoveredFile = DiscoveredFile(path: string, modTime: Option<int>)

  predicate IsActiveAt(block: SessionBlock, now: int)
  {
    block.isActive || now - block.endTime < ActiveHorizon
  }

  /** The active blocks, in order (lines 449-454). */
  function ActiveBlocks(blocks: seq<SessionBlock>, now: int): seq<SessionBlock>
  {
    if blocks == [] then []
    else
      var last := blocks[|blocks| - 1];
      ActiveBlocks(blocks[..|blocks| - 1], now) + (if IsActiveAt(last, now) then [last] else [])
  }

  lemma {:induction false} ActiveBlocksExact(blocks: seq<SessionBlock>, now: int)
    ensures forall b :: b in ActiveBlocks(blocks, now) <==> b in blocks && IsActiveAt(b, now)
  {
    if blocks != [] {
      var init := blocks[..|blocks| - 1];
      ActiveBlocksExact(init, now);
      assert blocks == init + [blocks[|blocks| - 1]];
    }
  }

  /** Strictly after the block's start and strictly before its end plus the
      late-write buffer (line 480). */
  predicate InBlockWindow(modTime: int, block: SessionBlock)
  {
    block.startTime < modTime < block.endTime + LateWriteBuffer
  }

  predicate InSessionWindow(modTime: int, active: seq<SessionBlock>)
  {
    exists k :: 0 <= k < |active| && InBlockWindow(modTime, active[k])
  }

  /** A modification time is in the window of the active blocks iff some
      block of the analysis is active and has it in its window. */
  lemma InActiveWindowIff(modTime: int, blocks: seq<SessionBlock>, now: int)
    ensures InSessionWindow(modTime, ActiveBlocks(blocks, now)) <==>
            exists k :: 0 <= k < |blocks| && IsActiveAt(blocks[k], now) && InBlockWindow(modTime, blocks[k])
  {
    ActiveBlocksExact(blocks, now);
    var active := ActiveBlocks(blocks, now);
    if InSessionWindow(modTime, active) {
      var k :| 0 <= k < |active| && InBlockWindow(modTime, active[k]);
      assert active[k] in active;
      var j :| 0 <= j < |blocks| && blocks[j] == active[k];
      assert IsActiveAt(blocks[j], now) && InBlockWindow(modTime, blocks[j]);
    }
    if exists k :: 0 <= k < |blocks| && IsActiveAt(blocks[k], now) && InBlockWindow(modTime, blocks[k]) {
      var k :| 0 <= k < |blocks| && IsActiveAt(blocks[k], now) && InBlockWindow(modTime, blocks[k]);
      assert blocks[k] in blocks;
      assert blocks[k] in active;
      var j :| 0 <= j < |active| && active[j] == blocks[k];
      assert InBlockWindow(modTime, active[j]);
    }
  }

  function ResetWindowFlags(m: map<string, FileTracker>): map<string, FileTracker>
  {
    map p | p in m :: m[p].(inSessionWindow := false)
  }

  predicate MarkedBy(f: DiscoveredFile, active: seq<SessionBlock>)
  {
    f.modTime.Some? && InSessionWindow(f.modTime.value, active)
  }

  /** One discovered file: a file whose modification time is in the window
      is marked, updating its tracker or adding one (lines 478-493). */
  function MarkFile(m: map<string, FileTracker>, f: DiscoveredFile, active: seq<SessionBlock>): map<string, FileTracker>
  {
    if MarkedBy(f, active) then
      m[f.path := if f.path in m then m[f.path].(inSessionWindow := true, lastModTime := f.modTime.value)
                  else FileTracker(f.path, f.modTime.value, None, true)]
    else m
  }

  function MarkFiles(m: map<string, FileTracker>, files: seq<DiscoveredFile>, active: seq<SessionBlock>): map<string, FileTracker>
  {
    if files == [] then m
    else MarkFile(MarkFiles(m, files[..|files| - 1], active), files[|files| - 1], active)
  }

  /** Some discovered file at path `p` is in the window. */
  predicate MarksPath(files: seq<DiscoveredFile>, active: seq<SessionBlock>, p: string)
  {
    exists i :: 0 <= i < |files| && files[i].path == p && MarkedBy(files[i], active)
  }

  /** Among the discovered files, the one at index `i` is the last marked
      file at path `p`. */
  predicate LastMarkedAt(files: seq<DiscoveredFile>, active: seq<SessionBlock>, p: string, i: int)
  {
    && 0 <= i < |files| && files[i].path == p && MarkedBy(files[i], active)
    && forall j :: i < j < |files| ==> !(files[j].path == p && MarkedBy(files[j], active))
  }

  /** A path is marked by the files plus one more exactly when it is marked
      by the first ones or by the last. */
  lemma MarksPathSnoc(files: seq<DiscoveredFile>, active: seq<SessionBlock>, p: string)
    requires files != []
    ensures var f := files[|files| - 1];
      MarksPath(files, active, p) <==> MarksPath(files[..|files| - 1], active, p) || (f.path == p && MarkedBy(f, active))
  {
    var init := files[..|files| - 1];
    if MarksPath(files, active, p) {
      var i :| 0 <= i < |files| && files[i].path == p && MarkedBy(files[i], active);
      if i < |init| {
        assert init[i] == files[i];
      }
    }
    if MarksPath(init, active, p) {
      var i :| 0 <= i < |init| && init[i].path == p && MarkedBy(init[i], active);
      assert files[i] == init[i];
    }
  }

  /** The modification time of the last discovered file at `p` that is in
      the window: the time a marked tracker ends up with, since the loop
      visits the files in discovery order. */
  function LastMarkedModTime(files: seq<DiscoveredFile>, active: seq<SessionBlock>, p: string): Option<int>
  {
    if files == [] then None
    else
      var f := files[|files| - 1];
      if f.path == p && MarkedBy(f, active) then f.modTime
      else LastMarkedModTime(files[..|files| - 1], active, p)
  }

  /** There is such a time exactly when some file at `p` is marked, and it is
      the modification time of the last of them. */
  lemma {:induction false} LastMarkedModTimeExact(files: seq<DiscoveredFile>, active: seq<SessionBlock>, p: string)
    ensures var t := LastMarkedModTime(files, active, p);
      && (t.Some? <==> MarksPath(files, active, p))
      && (t.Some? ==> exists i :: LastMarkedAt(files, active, p, i) && files[i].modTime == t)
  {
    if files != [] {
      var init := files[..|files| - 1];
      var f := files[|files| - 1];
      MarksPathSnoc(files, active, p);
      if f.path == p && MarkedBy(f, active) {
        assert LastMarkedAt(files, active, p, |files| - 1);
      } else {
        LastMarkedModTimeExact(init, active, p);
        var t := LastMarkedModTime(init, active, p);
        if t.Some? {
          var i :| LastMarkedAt(init, active, p, i) && init[i].modTime == t;
          forall j | i < j < |files|
            ensures !(files[j].path == p && MarkedBy(files[j], active))
          {
            if j < |init| {
              assert files[j] == init[j];
            }
          }
          assert files[i] == init[i];
          assert LastMarkedAt(files, active, p, i);
        }
      }
    }
  }

  /** The whole effect of updateSessionWindowFiles on the tracker map
      (lines 444-494): reset every flag, then, when discovery succeeds, mark
      the discovered files in the window of the active blocks. */
  function WindowUpdate(m: map<string, FileTracker>, blocks: seq<SessionBlock>, now: int,
                        scan: Option<seq<DiscoveredFile>>): map<string, FileTracker>
  {
    var reset := ResetWindowFlags(m);
    if scan.None? then reset else MarkFiles(reset, scan.value, ActiveBlocks(blocks, now))
  }

  /** Marking keeps every tracker, adds exactly the marked paths, sets a flag
      only for a marked path, gives a marked path the modification time of
      the last file that marked it, leaves an unmarked tracker as it was, and
      never touches the last refresh time. */
  lemma {:induction false} MarkFilesEffect(m: map<string, FileTracker>, files: seq<DiscoveredFile>, active: seq<SessionBlock>)
    ensures var r := MarkFiles(m, files, active);
      && (forall p :: p in r <==> p in m || MarksPath(files, active, p))
      && (forall p :: p in r ==> (r[p].inSessionWindow <==> (p in m && m[p].inSessionWindow) || MarksPath(files, active, p)))
      && (forall p :: p in m ==> r[p].lastCacheUpdate == m[p].lastCacheUpdate && r[p].path == m[p].path)
      && (forall p :: p in r && p !in m ==> r[p].lastCacheUpdate == None && r[p].path == p)
      && (forall p :: p in r && MarksPath(files, active, p) ==> LastMarkedModTime(files, active, p) == Some(r[p].lastModTime))
      && (forall p :: p in m && !MarksPath(files, active, p) ==> r[p] == m[p])
  {
    if files != [] {
      var init := files[..|files| - 1];
      var f := files[|files| - 1];
      MarkFilesEffect(m, init, active);
      forall p
        ensures MarksPath(files, active, p) <==> MarksPath(init, active, p) || (f.path == p && MarkedBy(f, active))
      {
        MarksPathSnoc(files, active, p);
      }
    }
  }

  /** After the update every tracker is kept (none is removed) and its last
      refresh time is untouched; when discovery fails every flag is false;
      otherwise a tracker is flagged iff one of the discovered files at its
      path has a modification time in the window of an active block, and
      then its modification time is that of the last such file; any other
      tracker keeps its modification time. */
  lemma WindowUpdateEffect(m: map<string, FileTracker>, blocks: seq<SessionBlock>, now: int,
                           scan: Option<seq<DiscoveredFile>>)
    ensures var r := WindowUpdate(m, blocks, now, scan);
      && m.Keys <= r.Keys
      && (forall p :: p in m ==> r[p].lastCacheUpdate == m[p].lastCacheUpdate && r[p].path == m[p].path)
      && (scan.None? ==> r.Keys == m.Keys && forall p :: p in r ==> !r[p].inSessionWindow)
      && (scan.Some? ==>
            forall p :: p in r ==> (r[p].inSessionWindow <==> MarksPath(scan.value, ActiveBlocks(blocks, now), p)))
      && (scan.Some? ==>
            forall p :: p in r <==> p in m || MarksPath(scan.value, ActiveBlocks(blocks, now), p))
      && (scan.Some? ==>
            forall p :: p in r && MarksPath(scan.value, ActiveBlocks(blocks, now), p) ==>
              LastMarkedModTime(scan.value, ActiveBlocks(blocks, now), p) == Some(r[p].lastModTime))
      && (forall p :: p in m && (scan.None? || !MarksPath(scan.value, ActiveBlocks(blocks, now), p)) ==>
            r[p].lastModTime == m[p].lastModTime)
  {
    if scan.Some? {
      MarkFilesEffect(ResetWindowFlags(m), scan.value, ActiveBlocks(blocks, now));
    }
  }

  /** The trackers currently in the session window. */
  function WindowPaths(m: map<string, FileTracker>): set<string>
  {
    set p | p in m && m[p].inSessionWindow
  }

  /** A failed discovery leaves no file in the window. */
  lemma FailedDiscoveryEmptiesWindow(m: map<string, FileTracker>, blocks: seq<SessionBlock>, now: int)
    ensures WindowPaths(WindowUpdate(m, blocks, now, None)) == {}
  {
    WindowUpdateEffect(m, blocks, now, None);
  }

  /** An in-window tracker is due for a refresh when it was never refreshed
      or its last refresh is more than a minute old (line 555). */
  predicate NeedsRefresh(t: FileTracker, now: int)
  {
    t.inSessionWindow && (t.lastCacheUpdate.None? || now - t.lastCacheUpdate.value > RefreshAge)
  }

  /** The oracle for updateFileCache's stat and single-file load. */
  datatype RefreshOutcome = FileMissing | RefreshFailed(cause: string) | Refreshed(modTime: int)

  datatype CacheUpdateError = FileNoLongerExists | FileLoadFailed(cause: string)

  /** A successful refresh stamps the tracker, if there is one (lines 597-602). */
  function TrackerRefresh(m: map<string, FileTracker>, path: string, now: int, outcome: RefreshOutcome): map<string, FileTracker>
  {
    if outcome.Refreshed? && path in m then
      m[path := m[path].(lastCacheUpdate := Some(now), lastModTime := outcome.modTime)]
    else m
  }

  // ---------------------------------------------------------------------
  // Loads: the loader oracle and the two load strategies
  // ---------------------------------------------------------------------

  /** The options a load passes to LoadUsageEntries. */
  datatype LoadRequest = LoadRequest(dataPath: string, hoursBack: Option<int>, includeRaw: bool,
                                     withStore: bool, enableDeduplication: bool)

  datatype ChangeCheck = Changed | Unchanged | CheckFailed

  /** What one GetData call observes: the clock, the loader (call `k` of the
      call gets `load(k, request)`), the file-change check, the discovery of
      log files for the session window, and the session analyzer. */
  datatype Environment = Environment(now: int,
                                     load: (nat, LoadRequest) -> Result<UsageLoader.LoadResult, string>,
                                     changes: ChangeCheck,
                                     scan: Option<seq<DiscoveredFile>>,
                                     analyzer: Analyzer)

  /** The cached probe answers the initial load: a store is set, the probe
      load succeeds with entries, and the change check reports no change (an
      error from the check counts as a change, lines 223-229). */
  predicate ProbeAnswers(hasStore: bool, req: LoadRequest, env: Environment)
  {
    && hasStore
    && env.load(0, req).Success? && |env.load(0, req).value.entries| > 0
    && env.changes == Unchanged
  }

  /** The load requests performInitialLoad issues. */
  function InitialLoadCalls(hasStore: bool, req: LoadRequest, env: Environment): (calls: seq<LoadRequest>)
    ensures 1 <= |calls| <= 2 && forall k :: 0 <= k < |calls| ==> calls[k] == req
    ensures |calls| == 2 <==> hasStore && !ProbeAnswers(hasStore, req, env)
  {
    if ProbeAnswers(hasStore, req, env) then [req]
    else if hasStore then [req, req]
    else [req]
  }

  /** The outcome of performInitialLoad (lines 200-291): the probe's analysis
      when it answers; otherwise the analysis of a full load, or the load's
      error. */
  function InitialLoadOutcome(hasStore: bool, req: LoadRequest, env: Environment, hoursBack: int): (r: Result<AnalysisResult, FetchError>)
    ensures ProbeAnswers(hasStore, req, env) ==> r.Success?
    ensures r.Success? ==> r.value.metadata.entriesProcessed > 0
    ensures !ProbeAnswers(hasStore, req, env) ==>
      var full := env.load(if hasStore then 1 else 0, req);
      && (r.Success? <==> full.Success? && |full.value.entries| > 0)
      && (full.Failure? ==> r == Failure(LoadUsageFailed(full.error)))
      && (full.Success? && |full.value.entries| == 0 ==> r == Failure(NoUsageEntries))
  {
    if ProbeAnswers(hasStore, req, env) then Analyze(env.load(0, req).value, hoursBack, env.now, env.analyzer)
    else
      var out := env.load(if hasStore then 1 else 0, req);
      if out.Failure? then Failure(LoadUsageFailed(out.error))
      else Analyze(out.value, hoursBack, env.now, env.analyzer)
  }

  /** A failed change check leads to the same outcome as a reported change. */
  lemma CheckFailureCountsAsChange(hasStore: bool, req: LoadRequest, env: Environment, hoursBack: int)
    ensures InitialLoadOutcome(hasStore, req, env.(changes := CheckFailed), hoursBack)
         == InitialLoadOutcome(hasStore, req, env.(changes := Changed), hoursBack)
    ensures InitialLoadCalls(hasStore, req, env.(changes := CheckFailed))
         == InitialLoadCalls(hasStore, req, env.(changes := Changed))
  {
  }

  /** One watch-mode attempt (analyzeUsageWatchMode, lines 295-318). */
  function WatchAttempt(i: nat, req: LoadRequest, env: Environment, hoursBack: int): Result<AnalysisResult, FetchError>
  {
    var out := env.load(i, req);
    if out.Failure? then Failure(LoadUsageFailed(out.error))
    else Analyze(out.value, hoursBack, env.now, env.analyzer)
  }

  /** 2 to the power `k`, the value of `1 << k`. */
  function Pow2(k: nat): (p: nat)
    ensures p >= 1
  {
    if k == 0 then 1 else 2 * Pow2(k - 1)
  }

  /** Shifting by a + b is shifting by a, then by b. */
  lemma {:induction false} Pow2Add(a: nat, b: nat)
    ensures Pow2(a + b) == Pow2(a) * Pow2(b)
    decreases b
  {
    if b > 0 {
      Pow2Add(a, b - 1);
      assert Pow2(a + b) == 2 * Pow2(a + b - 1);
    }
  }

  /** The backoff after failed attempt `attempt`: 100ms doubled per attempt. */
  function Backoff(attempt: nat): nat
  {
    BaseBackoff * Pow2(attempt)
  }

  /** The sleeps of a refresh are 100ms, then 200ms: one after every attempt
      but the last. */
  lemma {:induction false} BackoffSchedule(delays: seq<nat>)
    requires |delays| < MaxRetries
    requires forall k :: 0 <= k < |delays| ==> delays[k] == Backoff(k)
    ensures delays == [100, 200][..|delays|]
  {
    assert Pow2(1) == 2 * Pow2(0);
  }

  // ---------------------------------------------------------------------
  // The data manager
  // ---------------------------------------------------------------------

  /** The active-block loop of updateSessionWindowFiles (lines 446-454). */
  method SelectActiveBlocks(blocks: seq<SessionBlock>, now: int) returns (activeBlocks: seq<SessionBlock>)
    ensures activeBlocks == ActiveBlocks(blocks, now)
  {
    activeBlocks := [];
    var i := 0;
    while i < |blocks|
      invariant 0 <= i <= |blocks|
      invariant activeBlocks == ActiveBlocks(blocks[..i], now)
    {
      if blocks[i].isActive || now - blocks[i].endTime < ActiveHorizon {
        activeBlocks := activeBlocks + [blocks[i]];
      }
      assert blocks[..i + 1][..i] == blocks[..i];
      i := i + 1;
    }
    assert blocks[..|blocks|] == blocks;
  }

  ghost predicate FetchStateConsistent(cache: Option<AnalysisResult>, cacheTimestamp: Option<int>,
                                       lastSuccessfulFetch: Option<int>, initialLoadCompleted: bool)
  {
    && (cache.Some? <==> cacheTimestamp.Some?)
    && (cache.Some? ==> lastSuccessfulFetch.Some? && cache.value.metadata.entriesProcessed > 0)
    && (initialLoadCompleted ==> lastSuccessfulFetch.Some?)
  }

  /** Every tracker is stored under its own path. */
  ghost predicate TrackersKeyed(m: map<string, FileTracker>)
  {
    forall p :: p in m ==> m[p].path == p
  }

  class DataManager {
    var hoursBack: int
    var dataPath: string
    var cache: Option<AnalysisResult>
    var cacheTimestamp: Option<int>
    var lastError: Option<FetchError>
    var lastSuccessfulFetch: Option<int>
    var hasCacheStore: bool
    var enableDeduplication: bool
    var initialLoadCompleted: bool
    var activeSessionFiles: map<string, FileTracker>
    /** The cache updater's ticker and stop channel are set. */
    var tickerSet: bool
    var stopChannelOpen: bool
    /** Updater goroutines started and stop channels closed so far. */
    var updatersStarted: nat
    var stopsClosed: nat

    /** The manager's invariant: a cached analysis and its timestamp are
        present together, a cached analysis never lacks entries, every
        tracker is keyed by its own path, and at most one updater runs. */
    ghost predicate Valid()
      reads this
    {
      && FetchStateConsistent(cache, cacheTimestamp, lastSuccessfulFetch, initialLoadCompleted)
      && TrackersKeyed(activeSessionFiles)
      && tickerSet == stopChannelOpen
      && updatersStarted == stopsClosed + (if tickerSet then 1 else 0)
    }

    /** The fields a fetch updates together. */
    ghost function FetchState(): (Option<AnalysisResult>, Option<int>, Option<FetchError>, Option<int>, bool)
      reads this
    {
      (cache, cacheTimestamp, lastError, lastSuccessfulFetch, initialLoadCompleted)
    }

    /** The configuration: the window, the data path, the store and deduplication. */
    ghost function Settings(): (int, string, bool, bool)
      reads this
    {
      (hoursBack, dataPath, hasCacheStore, enableDeduplication)
    }

    /** The cache updater's ticker, stop channel and counters. */
    ghost function Updater(): (bool, bool, nat, nat)
      reads this
    {
      (tickerSet, stopChannelOpen, updatersStarted, stopsClosed)
    }

    /** NewDataManager (lines 59-65). */
    constructor(hoursBack: int, dataPath: string)
      ensures Valid()
      ensures Settings() == (hoursBack, dataPath, false, false)
      ensures FetchState() == (None, None, None, None, false)
      ensures activeSessionFiles == map[] && Updater() == (false, false, 0, 0)
    {
      this.hoursBack := hoursBack;
      this.dataPath := dataPath;
      cache := None;
      cacheTimestamp := None;
      lastError := None;
      lastSuccessfulFetch := None;
      hasCacheStore := false;
      enableDeduplication := false;
      initialLoadCompleted := false;
      activeSessionFiles := map[];
      tickerSet := false;
      stopChannelOpen := false;
      updatersStarted := 0;
      stopsClosed := 0;
    }

    /** SetCacheStore (lines 68-73): a nil store clears it. */
    method SetCacheStore(present: bool)
      requires Valid()
      modifies this
      ensures Valid()
      ensures Settings() == (old(hoursBack), old(dataPath), present, old(enableDeduplication))
      ensures FetchState() == old(FetchState()) && Updater() == old(Updater())
      ensures activeSessionFiles == old(activeSessionFiles)
    {
      hasCacheStore := present;
    }

    /** SetDeduplication (lines 83-87). */
    method SetDeduplication(enabled: bool)
      requires Valid()
      modifies this
      ensures Valid()
      ensures Settings() == (old(hoursBack), old(dataPath), old(hasCacheStore), enabled)
      ensures FetchState() == old(FetchState()) && Updater() == old(Updater())
      ensures activeSessionFiles == old(activeSessionFiles)
    {
      enableDeduplication := enabled;
    }

    /** The options of every data load (lines 208-216, 256-268, 297-309):
        the configured window, raw records, the store when one is set. */
    function Request(): LoadRequest
      reads this
    {
      LoadRequest(dataPath, Some(hoursBack), true, hasCacheStore, enableDeduplication)
    }

    /** The state a successful fetch leaves (lines 152-156, 237-242, 282-287). */
    ghost predicate Committed(data: AnalysisResult, now: int)
      reads this
    {
      FetchState() == (Some(data), Some(now), None, Some(now), true)
    }

    /** Go's zero time for the cache timestamp means "no cache". */
    function GetCacheAge(now: int): (age: int)
      requires cacheTimestamp.Some? ==> cacheTimestamp.value <= now
      reads this
      ensures age == -1 <==> cacheTimestamp.None?
      ensures cacheTimestamp.Some? ==> age == now - cacheTimestamp.value
    {
      if cacheTimestamp.None? then -1 else now - cacheTimestamp.value
    }

    function GetLastError(): Option<FetchError>
      reads this
    {
      lastError
    }

    function GetLastSuccessfulFetchTime(): Option<int>
      reads this
    {
      lastSuccessfulFetch
    }

    /** InvalidateCache (lines 166-171): drops the analysis and zeroes its
        timestamp, so that the cache age reads -1 afterwards. */
    method InvalidateCache()
      requires Valid()
      modifies this
      ensures Valid()
      ensures cache == None && cacheTimestamp == None
      ensures forall now :: GetCacheAge(now) == -1
      ensures lastError == old(lastError) && lastSuccessfulFetch == old(lastSuccessfulFetch)
      ensures initialLoadCompleted == old(initialLoadCompleted)
      ensures Settings() == old(Settings()) && Updater() == old(Updater())
      ensures activeSessionFiles == old(activeSessionFiles)
    {
      cache := None;
      cacheTimestamp := None;
    }

    /** The reset loop of updateSessionWindowFiles (lines 460-462). */
    method ResetTrackerFlags()
      requires Valid()
      modifies this
      ensures Valid()
      ensures activeSessionFiles == ResetWindowFlags(old(activeSessionFiles))
      ensures FetchState() == old(FetchState()) && Settings() == old(Settings()) && Updater() == old(Updater())
    {
      var pending := activeSessionFiles.Keys;
      while pending != {}
        invariant pending <= activeSessionFiles.Keys == old(activeSessionFiles).Keys
        invariant forall p :: p in activeSessionFiles ==>
          activeSessionFiles[p] == if p in pending then old(activeSessionFiles)[p]
                                   else old(activeSessionFiles)[p].(inSessionWindow := false)
        invariant FetchState() == old(FetchState()) && Settings() == old(Settings()) && Updater() == old(Updater())
        invariant Valid()
        decreases pending
      {
        var p :| p in pending;
        activeSessionFiles := activeSessionFiles[p := activeSessionFiles[p].(inSessionWindow := false)];
        pending := pending - {p};
      }
      assert activeSessionFiles == ResetWindowFlags(old(activeSessionFiles));
    }

    /** One discovered file of updateSessionWindowFiles (lines 478-493): the
        first active block whose window holds the modification time marks the
        file, updating its tracker or adding one. */
    method MarkDiscoveredFile(file: DiscoveredFile, activeBlocks: seq<SessionBlock>)
      requires Valid()
      modifies this
      ensures Valid()
      ensures activeSessionFiles == MarkFile(old(activeSessionFiles), file, activeBlocks)
      ensures FetchState() == old(FetchState()) && Settings() == old(Settings()) && Updater() == old(Updater())
    {
      if file.modTime.None? {
        return;
      }
      var modTime := file.modTime.value;
      var k := 0;
      while k < |activeBlocks|
        invariant 0 <= k <= |activeBlocks|
        invariant forall q :: 0 <= q < k ==> !InBlockWindow(modTime, activeBlocks[q])
      {
        var block := activeBlocks[k];
        if modTime > block.startTime && modTime < block.endTime + LateWriteBuffer {
          if file.path in activeSessionFiles {
            var tracker := activeSessionFiles[file.path];
            activeSessionFiles := activeSessionFiles[file.path := tracker.(inSessionWindow := true, lastModTime := modTime)];
          } else {
            activeSessionFiles := activeSessionFiles[file.path := FileTracker(file.path, modTime, None, true)];
          }
          return;
        }
        k := k + 1;
      }
    }

    /** updateSessionWindowFiles (lines 444-497). */
    method UpdateSessionWindowFiles(blocks: seq<SessionBlock>, now: int, scan: Option<seq<DiscoveredFile>>)
      requires Valid()
      modifies this
      ensures Valid()
      ensures activeSessionFiles == WindowUpdate(old(activeSessionFiles), blocks, now, scan)
      ensures FetchState() == old(FetchState()) && Settings() == old(Settings()) && Updater() == old(Updater())
    {
      var activeBlocks := SelectActiveBlocks(blocks, now);
      ResetTrackerFlags();
      if scan.None? {
        return;
      }
      ghost var reset := activeSessionFiles;
      var files := scan.value;
      var j := 0;
      while j < |files|
        invariant 0 <= j <= |files|
        invariant activeSessionFiles == MarkFiles(reset, files[..j], activeBlocks)
        invariant Valid()
        invariant FetchState() == old(FetchState()) && Settings() == old(Settings()) && Updater() == old(Updater())
      {
        assert files[..j + 1][..j] == files[..j];
        MarkDiscoveredFile(files[j], activeBlocks);
        j := j + 1;
      }
      assert files[..|files|] == files;
    }

    /** countActiveWindowFiles (lines 500-508). */
    method CountActiveWindowFiles() returns (count: nat)
      ensures count == |WindowPaths(activeSessionFiles)|
    {
      count := 0;
      var pending := activeSessionFiles.Keys;
      ghost var counted: set<string> := {};
      while pending != {}
        invariant pending <= activeSessionFiles.Keys
        invariant counted == set p | p in activeSessionFiles && p !in pending && activeSessionFiles[p].inSessionWindow
        invariant count == |counted|
        decreases pending
      {
        var p :| p in pending;
        if activeSessionFiles[p].inSessionWindow {
          assert p !in counted;
          count := count + 1;
          counted := counted + {p};
        }
        pending := pending - {p};
      }
      assert counted == WindowPaths(activeSessionFiles);
    }

    /** The selection of updateSessionWindowCaches (lines 553-558): exactly
        the in-window trackers due for a refresh, each once. */
    method SelectStaleWindowFiles(now: int) returns (paths: seq<string>)
      ensures forall p :: p in paths <==> p in activeSessionFiles && NeedsRefresh(activeSessionFiles[p], now)
      ensures forall i, j :: 0 <= i < j < |paths| ==> paths[i] != paths[j]
    {
      paths := [];
      var pending := activeSessionFiles.Keys;
      while pending != {}
        invariant pending <= activeSessionFiles.Keys
        invariant forall p :: p in paths <==> p in activeSessionFiles && p !in pending && NeedsRefresh(activeSessionFiles[p], now)
        invariant forall i, j :: 0 <= i < j < |paths| ==> paths[i] != paths[j]
        decreases pending
      {
        var p :| p in pending;
        if NeedsRefresh(activeSessionFiles[p], now) {
          paths := paths + [p];
        }
        pending := pending - {p};
      }
    }

    /** updateFileCache (lines 576-607): only a successful stat and load
        stamp the file's tracker, and only when it is tracked. */
    method UpdateFileCache(path: string, now: int, outcome: RefreshOutcome) returns (err: Option<CacheUpdateError>)
      requires Valid()
      modifies this
      ensures Valid()
      ensures err == match outcome
        case FileMissing => Some(FileNoLongerExists)
        case RefreshFailed(cause) => Some(FileLoadFailed(cause))
        case Refreshed(_) => None
      ensures activeSessionFiles == TrackerRefresh(old(activeSessionFiles), path, now, outcome)
      ensures FetchState() == old(FetchState()) && Settings() == old(Settings()) && Updater() == old(Updater())
    {
      if outcome.FileMissing? {
        return Some(FileNoLongerExists);
      }
      if outcome.RefreshFailed? {
        return Some(FileLoadFailed(outcome.cause));
      }
      if path in activeSessionFiles {
        var tracker := activeSessionFiles[path];
        activeSessionFiles := activeSessionFiles[path := tracker.(lastCacheUpdate := Some(now), lastModTime := outcome.modTime)];
      }
      return None;
    }

    /** updateSessionWindowCaches (lines 549-573): every selected tracker
        whose refresh succeeds is stamped with `now` and is then no longer
        due; the others, and every tracker not selected, keep their state. */
    method UpdateSessionWindowCaches(now: int, refresh: string -> RefreshOutcome)
      requires Valid()
      modifies this
      ensures Valid()
      ensures activeSessionFiles.Keys == old(activeSessionFiles).Keys
      ensures forall p :: p in activeSessionFiles ==>
        activeSessionFiles[p] ==
          if NeedsRefresh(old(activeSessionFiles)[p], now) && refresh(p).Refreshed? then
            old(activeSessionFiles)[p].(lastCacheUpdate := Some(now), lastModTime := refresh(p).modTime)
          else old(activeSessionFiles)[p]
      ensures forall p :: p in activeSessionFiles && refresh(p).Refreshed? ==> !NeedsRefresh(activeSessionFiles[p], now)
      ensures FetchState() == old(FetchState()) && Settings() == old(Settings()) && Updater() == old(Updater())
    {
      var filesToUpdate := SelectStaleWindowFiles(now);
      if |filesToUpdate| == 0 {
        return;
      }
      ghost var before := activeSessionFiles;
      var i := 0;
      while i < |filesToUpdate|
        invariant 0 <= i <= |filesToUpdate|
        invariant Valid()
        invariant activeSessionFiles.Keys == before.Keys
        invariant forall p :: p in activeSessionFiles ==>
          activeSessionFiles[p] ==
            if p in filesToUpdate[..i] && refresh(p).Refreshed? then
              before[p].(lastCacheUpdate := Some(now), lastModTime := refresh(p).modTime)
            else before[p]
        invariant FetchState() == old(FetchState()) && Settings() == old(Settings()) && Updater() == old(Updater())
      {
        var file := filesToUpdate[i];
        assert filesToUpdate[..i + 1] == filesToUpdate[..i] + [file];
        assert file !in filesToUpdate[..i];
        var _ := UpdateFileCache(file, now, refresh(file));
        i := i + 1;
      }
      assert filesToUpdate[..|filesToUpdate|] == filesToUpdate;
    }

    /** startCacheUpdater (lines 511-534): a second start while the ticker is
        set does nothing; otherwise the ticker and stop channel are set and
        one updater is started. */
    method StartCacheUpdater()
      requires Valid()
      modifies this
      ensures Valid()
      ensures Updater() == if old(tickerSet) then old(Updater())
                           else (true, true, old(updatersStarted) + 1, old(stopsClosed))
      ensures FetchState() == old(FetchState()) && Settings() == old(Settings())
      ensures activeSessionFiles == old(activeSessionFiles)
    {
      if tickerSet {
        return;
      }
      tickerSet := true;
      stopChannelOpen := true;
      updatersStarted := updatersStarted + 1;
    }

    /** stopCacheUpdater (lines 537-546): stops the ticker and closes the stop
        channel when set; stopping a stopped updater does nothing. */
    method StopCacheUpdater()
      requires Valid()
      modifies this
      ensures Valid()
      ensures Updater() == if old(tickerSet) then (false, false, old(updatersStarted), old(stopsClosed) + 1)
                           else old(Updater())
      ensures FetchState() == old(FetchState()) && Settings() == old(Settings())
      ensures activeSessionFiles == old(activeSessionFiles)
    {
      if tickerSet {
        tickerSet := false;
      }
      if stopChannelOpen {
        stopChannelOpen := false;
        stopsClosed := stopsClosed + 1;
      }
    }

    /** Storing a successful fetch (lines 152-156, 237-242, 282-287): the
        analysis becomes the cache, both timestamps are `now`, the last error
        is cleared and the initial load counts as completed. */
    method Commit(data: AnalysisResult, now: int)
      requires Valid() && data.metadata.entriesProcessed > 0
      modifies this
      ensures Valid() && Committed(data, now)
      ensures Settings() == old(Settings()) && Updater() == old(Updater())
      ensures activeSessionFiles == old(activeSessionFiles)
    {
      initialLoadCompleted := true;
      cache := Some(data);
      cacheTimestamp := Some(now);
      lastSuccessfulFetch := Some(now);
      lastError := None;
    }

    /** processUsageData (lines 321-387): the analysis of a load result, and
        on success the session-window update with its blocks. */
    method ProcessUsageData(res: UsageLoader.LoadResult, now: int, scan: Option<seq<DiscoveredFile>>, an: Analyzer)
      returns (data: Result<AnalysisResult, FetchError>)
      requires Valid()
      modifies this
      ensures Valid()
      ensures data == Analyze(res, old(hoursBack), now, an)
      ensures activeSessionFiles == if data.Success? then WindowUpdate(old(activeSessionFiles), data.value.blocks, now, scan)
                                    else old(activeSessionFiles)
      ensures FetchState() == old(FetchState()) && Settings() == old(Settings()) && Updater() == old(Updater())
    {
      if |res.entries| == 0 {
        return Failure(NoUsageEntries);
      }
      var transformed := an.transformToBlocks(res.entries);
      var blocks := new SessionBlock[|transformed|](i requires 0 <= i < |transformed| => transformed[i]);
      var limits: seq<LimitMessage> := [];
      if |res.raws| > 0 {
        limits := an.detectLimits(res.raws);
        AssignLimits(blocks, limits);
      } else {
        assert forall i :: 0 <= i < |transformed| ==> WithLimits(transformed[i], []) == transformed[i];
      }
      var metadata := AnalysisMetadata(now, hoursBack, |res.entries|, blocks.Length, |limits|, false, false);
      var analysis := AnalysisResult(blocks[..], metadata);
      assert analysis.blocks == seq(|transformed|, i requires 0 <= i < |transformed| => WithLimits(transformed[i], limits));
      UpdateSessionWindowFiles(analysis.blocks, now, scan);
      return Success(analysis);
    }

    /** analyzeUsageWatchMode (lines 295-318), as attempt `attempt` of a
        refresh. */
    method AnalyzeUsageWatchMode(attempt: nat, env: Environment) returns (data: Result<AnalysisResult, FetchError>)
      requires Valid()
      modifies this
      ensures Valid()
      ensures data == WatchAttempt(attempt, old(Request()), env, old(hoursBack))
      ensures activeSessionFiles == if data.Success? then WindowUpdate(old(activeSessionFiles), data.value.blocks, env.now, env.scan)
                                    else old(activeSessionFiles)
      ensures FetchState() == old(FetchState()) && Settings() == old(Settings()) && Updater() == old(Updater())
    {
      var result := env.load(attempt, Request());
      if result.Failure? {
        return Failure(LoadUsageFailed(result.error));
      }
      data := ProcessUsageData(result.value, env.now, env.scan, env.analyzer);
    }

    /** performInitialLoad (lines 200-292). A failure leaves the manager as
        it was, with the initial load still pending; a success commits the
        analysis. */
    method PerformInitialLoad(env: Environment) returns (r: Result<AnalysisResult, FetchError>, requests: seq<LoadRequest>)
      requires Valid()
      modifies this
      ensures Valid()
      ensures requests == InitialLoadCalls(old(hasCacheStore), old(Request()), env)
      ensures r == InitialLoadOutcome(old(hasCacheStore), old(Request()), env, old(hoursBack))
      ensures r.Failure? ==> FetchState() == old(FetchState()) && activeSessionFiles == old(activeSessionFiles)
      ensures r.Success? ==>
        && Committed(r.value, env.now)
        && activeSessionFiles == WindowUpdate(old(activeSessionFiles), r.value.blocks, env.now, env.scan)
      ensures Settings() == old(Settings()) && Updater() == old(Updater())
    {
      var req := Request();
      requests := [];
      if hasCacheStore {
        requests := [req];
        var resultCache := env.load(0, req);
        if resultCache.Success? && |resultCache.value.entries| > 0 {
          var hasChanges := match env.changes
            case Changed => true
            case Unchanged => false
            case CheckFailed => true;
          if !hasChanges {
            var data := ProcessUsageData(resultCache.value, env.now, env.scan, env.analyzer);
            if data.Failure? {
              return data, requests;
            }
            Commit(data.value, env.now);
            return data, requests;
          }
        }
      }

      requests := requests + [req];
      var result := env.load(|requests| - 1, req);
      if result.Failure? {
        return Failure(LoadUsageFailed(result.error)), requests;
      }
      var data := ProcessUsageData(result.value, env.now, env.scan, env.analyzer);
      if data.Failure? {
        return data, requests;
      }
      Commit(data.value, env.now);
      return data, requests;
    }

    /** The forced refresh of GetData (lines 120-162): up to three attempts
        with 100ms and 200ms backoff between them. The first success is
        committed; when all fail the last error is recorded and the cached
        analysis, if any, is returned instead of an error. */
    method RefreshWithRetries(env: Environment)
      returns (r: Option<AnalysisResult>, err: Option<FetchError>, requests: seq<LoadRequest>, delays: seq<nat>)
      requires Valid() && initialLoadCompleted
      modifies this
      ensures Valid()
      ensures Settings() == old(Settings()) && Updater() == old(Updater())
      ensures 1 <= |requests| <= MaxRetries && forall k :: 0 <= k < |requests| ==> requests[k] == old(Request())
      ensures forall k :: 0 <= k < |requests| - 1 ==> WatchAttempt(k, old(Request()), env, old(hoursBack)).Failure?
      ensures |delays| == |requests| - 1 && forall k :: 0 <= k < |delays| ==> delays[k] == Backoff(k)
      ensures
        var last := WatchAttempt(|requests| - 1, old(Request()), env, old(hoursBack));
        && (last.Success? ==> r == Some(last.value) && err == None && Committed(last.value, env.now)
                              && activeSessionFiles == WindowUpdate(old(activeSessionFiles), last.value.blocks, env.now, env.scan))
        && (last.Failure? ==>
              && |requests| == MaxRetries
              && FetchState() == (old(cache), old(cacheTimestamp), Some(last.error), old(lastSuccessfulFetch), true)
              && activeSessionFiles == old(activeSessionFiles)
              && (old(cache).Some? ==> r == old(cache) && err == None)
              && (old(cache).None? ==> r == None && err == Some(RetriesExhausted(MaxRetries, last.error))))
    {
      r, err, requests, delays := None, None, [], [];
      var req := Request();
      var maxRetries := MaxRetries;
      var attempt := 0;
      while attempt < maxRetries
        invariant 0 <= attempt < maxRetries
        invariant Valid() && Request() == req
        invariant forall k :: 0 <= k < attempt ==> WatchAttempt(k, req, env, old(hoursBack)).Failure?
        invariant |requests| == attempt && forall k :: 0 <= k < attempt ==> requests[k] == req
        invariant |delays| == attempt && forall k :: 0 <= k < attempt ==> delays[k] == Backoff(k)
        invariant FetchState() == (old(cache), old(cacheTimestamp), lastError, old(lastSuccessfulFetch), true)
        invariant attempt > 0 ==> lastError == Some(WatchAttempt(attempt - 1, req, env, old(hoursBack)).error)
        invariant activeSessionFiles == old(activeSessionFiles)
        invariant Settings() == old(Settings()) && Updater() == old(Updater())
      {
        var data := AnalyzeUsageWatchMode(attempt, env);
        requests := requests + [req];
        if data.Failure? {
          lastError := Some(data.error);
          if attempt < maxRetries - 1 {
            var backoff := BaseBackoff * Pow2(attempt);
            delays := delays + [backoff];
            attempt := attempt + 1;
            continue;
          }
          if cache.Some? {
            return cache, None, requests, delays;
          }
          return None, Some(RetriesExhausted(maxRetries, data.error)), requests, delays;
        }
        Commit(data.value, env.now);
        return Some(data.value), None, requests, delays;
      }
      assert false;
    }

    /** GetData (lines 100-163). Before the initial load has completed it
        always performs it, whatever `forceRefresh` says; afterwards a call
        without a forced refresh returns the cached analysis and loads
        nothing, and a forced refresh retries. */
    method GetData(forceRefresh: bool, env: Environment)
      returns (r: Option<AnalysisResult>, err: Option<FetchError>, requests: seq<LoadRequest>, delays: seq<nat>)
      requires Valid()
      modifies this
      ensures Valid()
      ensures Settings() == old(Settings()) && Updater() == old(Updater())
      ensures !old(initialLoadCompleted) ==>
        var o := InitialLoadOutcome(old(hasCacheStore), old(Request()), env, old(hoursBack));
        && requests == InitialLoadCalls(old(hasCacheStore), old(Request()), env)
        && delays == []
        && (o.Success? ==> r == Some(o.value) && err == None && Committed(o.value, env.now)
                           && activeSessionFiles == WindowUpdate(old(activeSessionFiles), o.value.blocks, env.now, env.scan))
        && (o.Failure? ==> r == None && err == Some(o.error)
                           && FetchState() == old(FetchState()) && activeSessionFiles == old(activeSessionFiles))
      ensures old(initialLoadCompleted) && !forceRefresh ==>
        && r == old(cache) && err == None && requests == [] && delays == []
        && FetchState() == old(FetchState()) && activeSessionFiles == old(activeSessionFiles)
      ensures old(initialLoadCompleted) && forceRefresh ==>
        && 1 <= |requests| <= MaxRetries && (forall k :: 0 <= k < |requests| ==> requests[k] == old(Request()))
        && (forall k :: 0 <= k < |requests| - 1 ==> WatchAttempt(k, old(Request()), env, old(hoursBack)).Failure?)
        && |delays| == |requests| - 1 && (forall k :: 0 <= k < |delays| ==> delays[k] == Backoff(k))
      ensures old(initialLoadCompleted) && forceRefresh ==>
        var last := WatchAttempt(|requests| - 1, old(Request()), env, old(hoursBack));
        && (last.Success? ==> r == Some(last.value) && err == None && Committed(last.value, env.now)
                              && activeSessionFiles == WindowUpdate(old(activeSessionFiles), last.value.blocks, env.now, env.scan))
        && (last.Failure? ==>
              && |requests| == MaxRetries
              && FetchState() == (old(cache), old(cacheTimestamp), Some(last.error), old(lastSuccessfulFetch), true)
              && activeSessionFiles == old(activeSessionFiles)
              && (old(cache).Some? ==> r == old(cache) && err == None)
              && (old(cache).None? ==> r == None && err == Some(RetriesExhausted(MaxRetries, last.error))))
    {
      var isInitialLoad := !initialLoadCompleted;
      if isInitialLoad {
        var result;
        result, requests := PerformInitialLoad(env);
        if result.Failure? {
          return None, Some(result.error), requests, [];
        }
        return Some(result.value), None, requests, [];
      }

      if !forceRefresh {
        return cache, None, [], [];
      }

      r, err, requests, delays := RefreshWithRetries(env);
    }
  }
}
