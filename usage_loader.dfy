/** The per-file processor, its cache-aware wrapper and the sequential branch
    of LoadUsageEntries (package fileio, usage_loader.go).

    A file is given as already-decoded lines; the file system (os.Open,
    os.Stat, the scanner) is a DiskFile value, the summary store is a class
    whose map the methods update, and the deduplication set shared by one
    load is a class whose set the line loop grows in place. */
module UsageLoader {
  import opened Wrappers
  import opened Entries

  type Path = string

  const HourMillis: int := 3_600_000

  /** LoadUsageEntries hands more than this many files to the concurrent
      loader instead of the sequential loop. */
  const ConcurrencyThreshold: nat := 10

  predicate UsesConcurrentLoader(fileCount: nat) {
    fileCount > ConcurrencyThreshold
  }

  /** Functions of the package whose code is not part of this model. */
  datatype Collaborators = Collaborators(
    normalizeModel: string -> string,       // UsageEntry.NormalizeModel
    projectOf: Path -> string,              // extractProjectFromPath
    absolutePath: Path -> Path,             // filepath.Abs, falling back to the path itself
    entriesFromSummary: (FileSummary, Option<int>) -> seq<UsageEntry>)  // createEntriesFromSummary

  // ---------------------------------------------------------------------
  // Files, summaries and results

  /** What reading a file yields: the open fails with an operating-system
      error text, or its lines are scanned and the scanner may report an
      error (its text) after the last line it read. */
  datatype FileRead = OpenFailed(openCause: string) | Scanned(lines: seq<Line>, scanError: Option<string>)

  datatype FileStat = FileStat(modTime: int, size: int)

  /** One log file as the file system shows it during a load: its stat
      result (None when os.Stat fails), its content, and the answer of the
      cheap hasAssistantMessages pre-scan. */
  datatype DiskFile = DiskFile(stat: Option<FileStat>, read: FileRead, hasAssistantMessages: bool)

  datatype LogFile = LogFile(path: Path, disk: DiskFile)

  /** A cached synopsis of one file, keyed by its absolute path. */
  datatype FileSummary = FileSummary(
    path: Path,
    modTime: int,
    fileSize: int,
    entries: seq<UsageEntry>,
    hasNoAssistantMessages: bool)

  /** A summary is stale as soon as the file's (modTime, size) differ. */
  predicate IsExpired(s: FileSummary, st: FileStat) {
    s.modTime != st.modTime || s.fileSize != st.size
  }

  /** createEmptySummaryForFile: the synopsis of a file without assistant
      messages. */
  function EmptySummaryForFile(absPath: Path, st: FileStat): (s: FileSummary)
    ensures s.path == absPath && s.entries == [] && s.hasNoAssistantMessages
    ensures !IsExpired(s, st)
  {
    FileSummary(absPath, st.modTime, st.size, [], true)
  }

  /** createSummaryFromEntries: the synopsis of a parsed file. */
  function SummaryFromEntries(absPath: Path, entries: seq<UsageEntry>, st: FileStat): (s: FileSummary)
    ensures s.path == absPath && s.entries == entries && !s.hasNoAssistantMessages
    ensures !IsExpired(s, st)
  {
    FileSummary(absPath, st.modTime, st.size, entries, false)
  }

  /** A per-file error, wrapping the underlying error's text. */
  datatype FileError = OpenError(cause: string) | ReadError(cause: string)

  /** The text of the wrapped error: a fixed prefix, ": ", the cause. */
  function ErrorText(e: FileError): (t: string)
    ensures e.OpenError? ==> t == "failed to open file: " + e.cause
    ensures e.ReadError? ==> t == "error reading file: " + e.cause
    ensures t[|t| - |e.cause|..] == e.cause
  {
    match e
    case OpenError(cause) => "failed to open file: " + cause
    case ReadError(cause) => "error reading file: " + cause
  }

  /** The diagnostic miss reason; NoMissReason is the empty string of a hit. */
  datatype MissReason = NoMissReason | NewFile | ModifiedFile | NoAssistantMessages | OtherMiss

  function Label(r: MissReason): string {
    match r
    case NoMissReason => ""
    case NewFile => "new_file"
    case ModifiedFile => "modified_file"
    case NoAssistantMessages => "no_assistant_messages"
    case OtherMiss => "other"
  }

  datatype Parsed = Parsed(entries: seq<UsageEntry>, raws: seq<RawRecord>)

  /** The six results of processSingleFileWithCacheAndDedup. */
  datatype FileResult = FileResult(
    entries: seq<UsageEntry>,
    raws: seq<RawRecord>,
    fromCache: bool,
    missReason: MissReason,
    error: Option<FileError>,
    summary: Option<FileSummary>)

  // ---------------------------------------------------------------------
  // The line loop of processSingleFileWithDedup, as a specification

  /** What the line loop knows besides the lines: the cutoff, the raw-record
      flag, whether a deduplication set is present, the project derived from
      the path and the model-name normalisation. */
  datatype ScanConfig = ScanConfig(
    cutoff: Option<int>,
    includeRaw: bool,
    dedup: bool,
    project: string,
    normalize: string -> string)

  function ConfigFor(path: Path, cutoff: Option<int>, includeRaw: bool, dedup: bool, col: Collaborators): ScanConfig {
    ScanConfig(cutoff, includeRaw, dedup, col.projectOf(path), col.normalizeModel)
  }

  datatype ScanState = ScanState(entries: seq<UsageEntry>, raws: seq<RawRecord>, seen: set<string>)

  predicate BeforeCutoff(e: UsageEntry, cutoff: Option<int>) {
    cutoff.Some? && e.timestamp < cutoff.value
  }

  /** The entry as emitted: model normalised, project taken from the path. */
  function Finish(e: UsageEntry, cfg: ScanConfig): (f: UsageEntry)
    ensures f.timestamp == e.timestamp && f.messageId == e.messageId && f.requestId == e.requestId
    ensures f.inputTokens == e.inputTokens && f.outputTokens == e.outputTokens
    ensures f.cacheCreationTokens == e.cacheCreationTokens && f.cacheReadTokens == e.cacheReadTokens
    ensures f.model == cfg.normalize(e.model) && f.project == cfg.project
  {
    e.(model := cfg.normalize(e.model), project := cfg.project)
  }

  /** One iteration of the line loop. */
  function StepLine(st: ScanState, line: Line, cfg: ScanConfig): ScanState {
    match line
    case BlankLine => st
    case MalformedLine => st
    case ParsedLine(raw, usage) =>
      var st1 := if cfg.includeRaw then st.(raws := st.raws + [raw]) else st;
      if usage.None? || BeforeCutoff(usage.value, cfg.cutoff) then st1
      else if cfg.dedup && HasDedupKey(usage.value) then
        if DedupKey(usage.value) in st1.seen then st1
        else st1.(seen := st1.seen + {DedupKey(usage.value)},
                  entries := st1.entries + [Finish(usage.value, cfg)])
      else st1.(entries := st1.entries + [Finish(usage.value, cfg)])
  }

  /** The state after the loop has run over all of `lines`, starting with
      the deduplication set `seen0`. */
  function ScanLines(lines: seq<Line>, cfg: ScanConfig, seen0: set<string>): ScanState
    decreases |lines|
  {
    if lines == [] then ScanState([], [], seen0)
    else StepLine(ScanLines(lines[..|lines| - 1], cfg, seen0), lines[|lines| - 1], cfg)
  }

  /** The raw records of the lines that decoded as JSON, in order. */
  function ParsedRaws(lines: seq<Line>): seq<RawRecord>
    decreases |lines|
  {
    if lines == [] then []
    else ParsedRaws(lines[..|lines| - 1])
         + (if lines[|lines| - 1].ParsedLine? then [lines[|lines| - 1].raw] else [])
  }

  /** The lines that decoded as JSON, in order. */
  function ParsedOnly(lines: seq<Line>): seq<Line>
    decreases |lines|
  {
    if lines == [] then []
    else ParsedOnly(lines[..|lines| - 1])
         + (if lines[|lines| - 1].ParsedLine? then [lines[|lines| - 1]] else [])
  }

  /** No two entries share a messageID:requestID key. */
  predicate KeysDistinct(es: seq<UsageEntry>) {
    forall i, j :: 0 <= i < j < |es| && HasDedupKey(es[i]) && HasDedupKey(es[j]) ==>
      DedupKey(es[i]) != DedupKey(es[j])
  }

  function EmittedKeys(es: seq<UsageEntry>): set<string> {
    set e | e in es && HasDedupKey(e) :: DedupKey(e)
  }

  /** No entry older than the cutoff is ever emitted. */
  lemma {:induction false} ScanRespectsCutoff(lines: seq<Line>, cfg: ScanConfig, seen0: set<string>)
    ensures forall e :: e in ScanLines(lines, cfg, seen0).entries ==> !BeforeCutoff(e, cfg.cutoff)
    decreases |lines|
  {
    if lines != [] {
      ScanRespectsCutoff(lines[..|lines| - 1], cfg, seen0);
    }
  }

  /** With a deduplication set the set only grows, by exactly the keys of the
      emitted entries; no emitted entry's key was in the set before, and no
      two emitted entries share a key. Without one the set is untouched. */
  lemma {:induction false} ScanDeduplicates(lines: seq<Line>, cfg: ScanConfig, seen0: set<string>)
    ensures var s := ScanLines(lines, cfg, seen0);
      && seen0 <= s.seen
      && (!cfg.dedup ==> s.seen == seen0)
      && (cfg.dedup ==> s.seen == seen0 + EmittedKeys(s.entries))
      && (cfg.dedup ==> EmittedKeys(s.entries) !! seen0)
      && (cfg.dedup ==> KeysDistinct(s.entries))
    decreases |lines|
  {
    if lines != [] {
      var init := lines[..|lines| - 1];
      ScanDeduplicates(init, cfg, seen0);
      var p := ScanLines(init, cfg, seen0);
      var s := ScanLines(lines, cfg, seen0);
      assert s == StepLine(p, lines[|lines| - 1], cfg);
      if cfg.dedup && |s.entries| == |p.entries| + 1 {
        var e := s.entries[|p.entries|];
        assert s.entries == p.entries + [e];
        assert HasDedupKey(e) ==> DedupKey(e) !in p.seen && s.seen == p.seen + {DedupKey(e)};
        assert !HasDedupKey(e) ==> s.seen == p.seen;
        DistinctConcat(p.entries, [e], p.seen);
      } else if cfg.dedup {
        assert s.entries == p.entries && s.seen == p.seen;
      }
    }
  }

  /** Raw records are kept for every line that decoded, whether or not it
      carries usage, and only when requested. */
  lemma {:induction false} ScanKeepsRaws(lines: seq<Line>, cfg: ScanConfig, seen0: set<string>)
    ensures ScanLines(lines, cfg, seen0).raws == if cfg.includeRaw then ParsedRaws(lines) else []
    decreases |lines|
  {
    if lines != [] {
      ScanKeepsRaws(lines[..|lines| - 1], cfg, seen0);
    }
  }

  /** Blank and undecodable lines are skipped without any effect: the loop
      over the decodable lines alone ends in the same state. */
  lemma {:induction false} ScanSkipsUnparsed(lines: seq<Line>, cfg: ScanConfig, seen0: set<string>)
    ensures ScanLines(ParsedOnly(lines), cfg, seen0) == ScanLines(lines, cfg, seen0)
    decreases |lines|
  {
    if lines != [] {
      var init := lines[..|lines| - 1];
      var last := lines[|lines| - 1];
      ScanSkipsUnparsed(init, cfg, seen0);
      if last.ParsedLine? {
        var q := ParsedOnly(init) + [last];
        assert ParsedOnly(lines) == q;
        assert q[..|q| - 1] == ParsedOnly(init);
      } else {
        assert ParsedOnly(lines) == ParsedOnly(init);
      }
    }
  }

  /** The entries the loop would emit without any deduplication: every usage
      entry of a decoded line that is not before the cutoff, finished, in
      line order. */
  function Candidates(lines: seq<Line>, cfg: ScanConfig): seq<UsageEntry>
    decreases |lines|
  {
    if lines == [] then []
    else
      var last := lines[|lines| - 1];
      Candidates(lines[..|lines| - 1], cfg)
      + (if last.ParsedLine? && last.usage.Some? && !BeforeCutoff(last.usage.value, cfg.cutoff)
         then [Finish(last.usage.value, cfg)] else [])
  }

  /** First-occurrence filtering against a set: a keyed entry is dropped
      when its key is in `seen0` or belongs to an earlier entry; an entry
      without both ids is always kept. */
  function DedupFilter(es: seq<UsageEntry>, seen0: set<string>): seq<UsageEntry>
    decreases |es|
  {
    if es == [] then []
    else
      var init := es[..|es| - 1];
      var e := es[|es| - 1];
      DedupFilter(init, seen0)
      + (if HasDedupKey(e) && DedupKey(e) in seen0 + EmittedKeys(init) then [] else [e])
  }

  /** The entries without both ids, in order. */
  function Unkeyed(es: seq<UsageEntry>): seq<UsageEntry>
    decreases |es|
  {
    if es == [] then []
    else Unkeyed(es[..|es| - 1]) + (if HasDedupKey(es[|es| - 1]) then [] else [es[|es| - 1]])
  }

  lemma EmittedKeysSnoc(es: seq<UsageEntry>, e: UsageEntry)
    ensures EmittedKeys(es + [e]) == EmittedKeys(es) + (if HasDedupKey(e) then {DedupKey(e)} else {})
  {
    assert forall x :: x in es + [e] <==> x in es || x == e;
  }

  lemma EmittedKeysConcat(a: seq<UsageEntry>, b: seq<UsageEntry>)
    ensures EmittedKeys(a + b) == EmittedKeys(a) + EmittedKeys(b)
  {
    assert forall x :: x in a + b <==> x in a || x in b;
  }

  /** Filtering a concatenation filters the second part against the set
      grown by every key of the first part. */
  lemma {:induction false} DedupFilterConcat(a: seq<UsageEntry>, b: seq<UsageEntry>, seen0: set<string>)
    ensures DedupFilter(a + b, seen0) == DedupFilter(a, seen0) + DedupFilter(b, seen0 + EmittedKeys(a))
    decreases |b|
  {
    if b == [] {
      assert a + b == a;
    } else {
      var init := b[..|b| - 1];
      DedupFilterConcat(a, init, seen0);
      EmittedKeysConcat(a, init);
      assert (a + b)[..|a + b| - 1] == a + init;
    }
  }

  /** The filter keeps every key it meets that was not in the set before. */
  lemma {:induction false} DedupFilterKeys(es: seq<UsageEntry>, seen0: set<string>)
    ensures EmittedKeys(DedupFilter(es, seen0)) == EmittedKeys(es) - seen0
    decreases |es|
  {
    if es != [] {
      var init := es[..|es| - 1];
      var e := es[|es| - 1];
      DedupFilterKeys(init, seen0);
      EmittedKeysSnoc(init, e);
      assert init + [e] == es;
      var kept := DedupFilter(init, seen0);
      var mine: set<string> := if HasDedupKey(e) then {DedupKey(e)} else {};
      assert EmittedKeys(es) == EmittedKeys(init) + mine;
      if HasDedupKey(e) && DedupKey(e) in seen0 + EmittedKeys(init) {
        assert DedupFilter(es, seen0) == kept;
        assert (EmittedKeys(init) + mine) - seen0 == EmittedKeys(init) - seen0;
      } else {
        assert DedupFilter(es, seen0) == kept + [e];
        EmittedKeysSnoc(kept, e);
        assert mine !! seen0;
        assert (EmittedKeys(init) + mine) - seen0 == (EmittedKeys(init) - seen0) + mine;
      }
    }
  }

  /** The filter never keeps two entries with one key. */
  lemma {:induction false} DedupFilterDistinct(es: seq<UsageEntry>, seen0: set<string>)
    ensures KeysDistinct(DedupFilter(es, seen0))
    decreases |es|
  {
    if es != [] {
      var init := es[..|es| - 1];
      var e := es[|es| - 1];
      DedupFilterDistinct(init, seen0);
      DedupFilterKeys(init, seen0);
      var kept := DedupFilter(init, seen0);
      if !(HasDedupKey(e) && DedupKey(e) in seen0 + EmittedKeys(init)) {
        assert KeysDistinct([e]);
        DistinctConcat(kept, [e], seen0 + EmittedKeys(init));
      }
    }
  }

  /** What the loop emits: without a set, every candidate; with one, the
      candidates whose key is new, and the set gains every candidate's key. */
  lemma {:induction false} ScanEmits(lines: seq<Line>, cfg: ScanConfig, seen0: set<string>)
    ensures var s := ScanLines(lines, cfg, seen0);
      && s.entries == (if cfg.dedup then DedupFilter(Candidates(lines, cfg), seen0) else Candidates(lines, cfg))
      && s.seen == (if cfg.dedup then seen0 + EmittedKeys(Candidates(lines, cfg)) else seen0)
    decreases |lines|
  {
    if lines != [] {
      var init := lines[..|lines| - 1];
      var last := lines[|lines| - 1];
      ScanEmits(init, cfg, seen0);
      var c := Candidates(init, cfg);
      var p := ScanLines(init, cfg, seen0);
      assert ScanLines(lines, cfg, seen0) == StepLine(p, last, cfg);
      if last.ParsedLine? && last.usage.Some? && !BeforeCutoff(last.usage.value, cfg.cutoff) {
        var u := last.usage.value;
        var f := Finish(u, cfg);
        assert Candidates(lines, cfg) == c + [f];
        assert (c + [f])[..|c + [f]| - 1] == c;
        assert HasDedupKey(f) == HasDedupKey(u) && DedupKey(f) == DedupKey(u);
        EmittedKeysSnoc(c, f);
        if cfg.dedup {
          assert p.seen == seen0 + EmittedKeys(c);
          assert DedupFilter(c + [f], seen0) == DedupFilter(c, seen0)
            + (if HasDedupKey(f) && DedupKey(f) in seen0 + EmittedKeys(c) then [] else [f]);
        }
      } else {
        assert ScanLines(lines, cfg, seen0).entries == p.entries && ScanLines(lines, cfg, seen0).seen == p.seen;
        assert Candidates(lines, cfg) == c;
      }
    }
  }

  /** Filtering never drops an entry without both ids. */
  lemma {:induction false} DedupFilterKeepsUnkeyed(es: seq<UsageEntry>, seen0: set<string>)
    ensures Unkeyed(DedupFilter(es, seen0)) == Unkeyed(es)
    decreases |es|
  {
    if es != [] {
      var init := es[..|es| - 1];
      var e := es[|es| - 1];
      DedupFilterKeepsUnkeyed(init, seen0);
      UnkeyedConcat(DedupFilter(init, seen0), if HasDedupKey(e) && DedupKey(e) in seen0 + EmittedKeys(init) then [] else [e]);
    }
  }

  lemma {:induction false} UnkeyedConcat(a: seq<UsageEntry>, b: seq<UsageEntry>)
    ensures Unkeyed(a + b) == Unkeyed(a) + Unkeyed(b)
    decreases |b|
  {
    if b == [] {
      assert a + b == a;
    } else {
      UnkeyedConcat(a, b[..|b| - 1]);
      assert (a + b)[..|a + b| - 1] == a + b[..|b| - 1];
    }
  }

  /** Entries without both ids bypass the set one by one: the unkeyed
      entries of any run are exactly those of a run without a set. */
  lemma ScanUnkeyedBypassesDedup(lines: seq<Line>, cfg: ScanConfig, seen0: set<string>)
    ensures Unkeyed(ScanLines(lines, cfg, seen0).entries) == Unkeyed(ScanLines(lines, cfg.(dedup := false), {}).entries)
  {
    ScanEmits(lines, cfg, seen0);
    ScanEmits(lines, cfg.(dedup := false), {});
    CandidatesIgnoreDedup(lines, cfg);
    DedupFilterKeepsUnkeyed(Candidates(lines, cfg), seen0);
  }

  /** The candidates do not depend on whether a set is present. */
  lemma {:induction false} CandidatesIgnoreDedup(lines: seq<Line>, cfg: ScanConfig)
    ensures Candidates(lines, cfg.(dedup := false)) == Candidates(lines, cfg)
    decreases |lines|
  {
    if lines != [] {
      CandidatesIgnoreDedup(lines[..|lines| - 1], cfg);
    }
  }

  // ---------------------------------------------------------------------
  // processSingleFileWithDedup

  datatype ParseStep = ParseStep(result: Result<Parsed, FileError>, seen: set<string>)

  /** What processing one file returns and leaves in the deduplication set:
      an open failure changes nothing; a scanner error discards everything
      the loop produced, but the keys it added stay in the set. */
  function ParseFile(read: FileRead, cfg: ScanConfig, seen0: set<string>): (p: ParseStep)
    ensures p.result.Failure? <==> read.OpenFailed? || read.scanError.Some?
    ensures read.OpenFailed? ==> p.result == Failure(OpenError(read.openCause)) && p.seen == seen0
    ensures read.Scanned? && read.scanError.Some? ==> p.result == Failure(ReadError(read.scanError.value))
  {
    match read
    case OpenFailed(cause) => ParseStep(Failure(OpenError(cause)), seen0)
    case Scanned(lines, scanError) =>
      var s := ScanLines(lines, cfg, seen0);
      ParseStep(if scanError.Some? then Failure(ReadError(scanError.value)) else Success(Parsed(s.entries, s.raws)), s.seen)
  }

  /** The deduplication set of one load, shared by all of its files. */
  class DedupSet {
    var seen: set<string>

    constructor ()
      ensures seen == {}
    {
      seen := {};
    }
  }

  /** The keys in a possibly absent set (a nil map in the source). */
  function SeenOf(d: DedupSet?): set<string>
    reads d
  {
    if d == null then {} else d.seen
  }

  method ProcessSingleFileWithDedup(path: Path, read: FileRead, cutoff: Option<int>, includeRaw: bool,
                                    dedup: DedupSet?, col: Collaborators)
    returns (r: Result<Parsed, FileError>)
    modifies dedup
    ensures var p := ParseFile(read, ConfigFor(path, cutoff, includeRaw, dedup != null, col), old(SeenOf(dedup)));
      r == p.result && SeenOf(dedup) == p.seen
  {
    if read.OpenFailed? {
      return Failure(OpenError(read.openCause));
    }
    var lines := read.lines;
    var cfg := ConfigFor(path, cutoff, includeRaw, dedup != null, col);
    ghost var seen0 := SeenOf(dedup);
    var entries: seq<UsageEntry> := [];
    var raws: seq<RawRecord> := [];
    var i := 0;
    while i < |lines|
      invariant 0 <= i <= |lines|
      invariant ScanState(entries, raws, SeenOf(dedup)) == ScanLines(lines[..i], cfg, seen0)
    {
      assert lines[..i + 1][..i] == lines[..i];
      match lines[i] {
        case BlankLine =>
        case MalformedLine =>
        case ParsedLine(raw, usage) =>
          if includeRaw {
            raws := raws + [raw];
          }
          if usage.Some? {
            var e := usage.value;
            if !(cutoff.Some? && e.timestamp < cutoff.value) {
              var duplicate := false;
              if dedup != null && e.messageId != "" && e.requestId != "" {
                var key := DedupKey(e);
                if key in dedup.seen {
                  duplicate := true;
                } else {
                  dedup.seen := dedup.seen + {key};
                }
              }
              if !duplicate {
                entries := entries + [Finish(e, cfg)];
              }
            }
          }
      }
      i := i + 1;
    }
    assert lines[..|lines|] == lines;
    if read.scanError.Some? {
      return Failure(ReadError(read.scanError.value));
    }
    return Success(Parsed(entries, raws));
  }

  // ---------------------------------------------------------------------
  // The summary store

  /** A pluggable summary store. `writable` says whether its writes and
      invalidations succeed; `supportsBatch` whether it offers BatchSet;
      `invalidations` records every InvalidateFileSummary call. */
  class SummaryStore {
    var summaries: map<Path, FileSummary>
    var writable: bool
    var supportsBatch: bool
    var invalidations: seq<Path>

    constructor (initial: map<Path, FileSummary>, writable: bool, supportsBatch: bool)
      ensures summaries == initial && this.writable == writable && this.supportsBatch == supportsBatch
      ensures invalidations == []
    {
      summaries := initial;
      this.writable := writable;
      this.supportsBatch := supportsBatch;
      invalidations := [];
    }

    function GetFileSummary(p: Path): (r: Option<FileSummary>)
      reads this
      ensures r.Some? <==> p in summaries
      ensures r.Some? ==> r.value == summaries[p]
    {
      if p in summaries then Some(summaries[p]) else None
    }

    method InvalidateFileSummary(p: Path) returns (ok: bool)
      modifies this
      ensures ok == writable && writable == old(writable) && supportsBatch == old(supportsBatch)
      ensures invalidations == old(invalidations) + [p]
      ensures summaries == if ok then old(summaries) - {p} else old(summaries)
    {
      invalidations := invalidations + [p];
      ok := writable;
      if ok {
        summaries := summaries - {p};
      }
    }

    method SetFileSummary(s: FileSummary) returns (ok: bool)
      modifies this
      ensures ok == writable && writable == old(writable) && supportsBatch == old(supportsBatch)
      ensures invalidations == old(invalidations)
      ensures summaries == if ok then old(summaries)[s.path := s] else old(summaries)
    {
      ok := writable;
      if ok {
        summaries := summaries[s.path := s];
      }
    }

    method BatchSet(ss: seq<FileSummary>) returns (ok: bool)
      requires supportsBatch
      modifies this
      ensures ok == writable && writable == old(writable) && supportsBatch == old(supportsBatch)
      ensures invalidations == old(invalidations)
      ensures summaries == if ok then StoreAll(old(summaries), ss) else old(summaries)
    {
      ok := writable;
      if ok {
        summaries := StoreAll(summaries, ss);
      }
    }
  }

  /** The store's map after writing `ss` one after the other. */
  function StoreAll(m: map<Path, FileSummary>, ss: seq<FileSummary>): map<Path, FileSummary>
    decreases |ss|
  {
    if ss == [] then m
    else StoreAll(m, ss[..|ss| - 1])[ss[|ss| - 1].path := ss[|ss| - 1]]
  }

  /** After a write-back the map holds the old paths and every written one. */
  lemma {:induction false} StoreAllKeys(m: map<Path, FileSummary>, ss: seq<FileSummary>)
    ensures StoreAll(m, ss).Keys == m.Keys + (set s | s in ss :: s.path)
    decreases |ss|
  {
    if ss != [] {
      var init := ss[..|ss| - 1];
      StoreAllKeys(m, init);
      assert forall s :: s in ss <==> s in init || s == ss[|ss| - 1];
    }
  }

  /** `ss[k]` is the last summary in `ss` written for its path. */
  predicate IsLastWrite(ss: seq<FileSummary>, k: int)
    requires 0 <= k < |ss|
  {
    forall j :: k < j < |ss| ==> ss[j].path != ss[k].path
  }

  /** A written path holds the last summary written for it. */
  lemma {:induction false} StoreAllKeepsLastWrite(m: map<Path, FileSummary>, ss: seq<FileSummary>)
    ensures forall k :: 0 <= k < |ss| && IsLastWrite(ss, k) ==>
      ss[k].path in StoreAll(m, ss) && StoreAll(m, ss)[ss[k].path] == ss[k]
    decreases |ss|
  {
    if ss != [] {
      var init := ss[..|ss| - 1];
      var last := ss[|ss| - 1];
      StoreAllKeepsLastWrite(m, init);
      forall k | 0 <= k < |ss| - 1 && IsLastWrite(ss, k)
        ensures StoreAll(m, ss)[ss[k].path] == ss[k]
      {
        assert last.path != ss[k].path;
        assert IsLastWrite(init, k);
      }
    }
  }

  /** A path that is never written keeps its old summary. */
  lemma {:induction false} StoreAllKeepsOthers(m: map<Path, FileSummary>, ss: seq<FileSummary>)
    ensures forall p :: p in m && (forall s :: s in ss ==> s.path != p) ==>
      p in StoreAll(m, ss) && StoreAll(m, ss)[p] == m[p]
    decreases |ss|
  {
    if ss != [] {
      var init := ss[..|ss| - 1];
      StoreAllKeepsOthers(m, init);
      assert forall s :: s in init ==> s in ss;
    }
  }

  /** The write-back at the end of LoadUsageEntries: one BatchSet when the
      store offers it, otherwise one SetFileSummary per summary; failures
      are only logged. */
  method WriteBackSummaries(store: SummaryStore, ss: seq<FileSummary>)
    modifies store
    ensures store.writable == old(store.writable) && store.supportsBatch == old(store.supportsBatch)
    ensures store.invalidations == old(store.invalidations)
    ensures store.summaries == if store.writable then StoreAll(old(store.summaries), ss) else old(store.summaries)
  {
    if store.supportsBatch {
      var _ := store.BatchSet(ss);
    } else {
      var i := 0;
      while i < |ss|
        invariant 0 <= i <= |ss|
        invariant store.writable == old(store.writable) && store.supportsBatch == old(store.supportsBatch)
        invariant store.invalidations == old(store.invalidations)
        invariant store.summaries == if store.writable then StoreAll(old(store.summaries), ss[..i]) else old(store.summaries)
      {
        assert ss[..i + 1][..i] == ss[..i];
        var _ := store.SetFileSummary(ss[i]);
        i := i + 1;
      }
      assert ss[..|ss|] == ss;
    }
  }

  // ---------------------------------------------------------------------
  // processSingleFileWithCacheAndDedup

  /** A miss reason as the source computes it: "other" without a store,
      otherwise decided by a SECOND GetFileSummary, made after the stale
      summary may already have been invalidated. */
  function ClassifyMissAsWritten(hasStore: bool, foundOnSecondLookup: bool): (r: MissReason)
    ensures r != NoMissReason && r != NoAssistantMessages
    ensures r == ModifiedFile <==> hasStore && foundOnSecondLookup
    ensures r == NewFile <==> hasStore && !foundOnSecondLookup
    ensures r == OtherMiss <==> !hasStore
  {
    if !hasStore then OtherMiss
    else if !foundOnSecondLookup then NewFile
    else ModifiedFile
  }

  /** The miss reason the surrounding comments and design describe: a file
      whose summary was stale is "modified_file", one without a summary is
      "new_file". */
  function ClassifyMiss(hasStore: bool, hadSummary: bool): (r: MissReason)
    ensures r != NoMissReason && r != NoAssistantMessages
    ensures r == ModifiedFile <==> hasStore && hadSummary
    ensures r == NewFile <==> hasStore && !hadSummary
    ensures r == OtherMiss <==> !hasStore
  {
    if !hasStore then OtherMiss
    else if hadSummary then ModifiedFile
    else NewFile
  }

  /** What a store's map holds for a path. */
  function SummaryAt(m: map<Path, FileSummary>, p: Path): (r: Option<FileSummary>)
    ensures r.Some? <==> p in m
  {
    if p in m then Some(m[p]) else None
  }

  /** The store's map after the wrapper has looked at one file: a writable
      store asked to invalidate the file's summary drops it. */
  function MapAfterFile(m: map<Path, FileSummary>, abs: Path, stat: Option<FileStat>, writable: bool): map<Path, FileSummary>
  {
    if writable && Invalidates(true, stat, SummaryAt(m, abs)) then m - {abs} else m
  }

  /** For a parsed miss, the reason the model reports is the intended one;
      the coded rule, applied to the map after the invalidation, agrees
      with it except exactly when a writable store invalidated a stale
      summary, where it reports "new_file" instead of "modified_file". */
  lemma InvalidatedFileReadsAsNew(file: LogFile, cutoff: Option<int>, includeRaw: bool,
                                  m: map<Path, FileSummary>, writable: bool, seen0: set<string>,
                                  dedup: bool, col: Collaborators)
    requires file.disk.stat.Some? && file.disk.hasAssistantMessages
    requires var abs := col.absolutePath(file.path);
      abs in m ==> IsExpired(m[abs], file.disk.stat.value)
    ensures var abs := col.absolutePath(file.path);
      var out := FileOutcome(file, cutoff, includeRaw, true, SummaryAt(m, abs), seen0, dedup, col);
      var asWritten := ClassifyMissAsWritten(true, abs in MapAfterFile(m, abs, file.disk.stat, writable));
      && out.result.missReason == ClassifyMiss(true, abs in m)
      && (asWritten != out.result.missReason <==> writable && abs in m)
      && (writable && abs in m ==> asWritten == NewFile && out.result.missReason == ModifiedFile)
  {
    var abs := col.absolutePath(file.path);
    var stat := file.disk.stat;
    var cfg := ConfigFor(file.path, cutoff, includeRaw, dedup, col);
    var out := FileOutcome(file, cutoff, includeRaw, true, SummaryAt(m, abs), seen0, dedup, col);
    var p := ParseFile(file.disk.read, cfg, seen0);
    assert out.result.missReason == ClassifyMiss(true, abs in m);
  }

  /** The store lookup the wrapper makes, or none without a store. */
  function LookupIn(store: SummaryStore?, abs: Path): Option<FileSummary>
    reads store
  {
    if store == null then None else store.GetFileSummary(abs)
  }

  /** The wrapper invalidates exactly when a store holds a stale summary for
      a file it could stat. */
  predicate Invalidates(hasStore: bool, stat: Option<FileStat>, cached: Option<FileSummary>) {
    hasStore && stat.Some? && cached.Some? && IsExpired(cached.value, stat.value)
  }

  datatype FileStep = FileStep(result: FileResult, seen: set<string>)

  /** The result of processSingleFileWithCacheAndDedup for one file, given
      whether a store is present, what it holds for the file's absolute path
      and the deduplication set before the call; and that set afterwards. */
  function FileOutcome(file: LogFile, cutoff: Option<int>, includeRaw: bool, hasStore: bool,
                       cached: Option<FileSummary>, seen0: set<string>, dedup: bool,
                       col: Collaborators): FileStep
  {
    var abs := col.absolutePath(file.path);
    var stat := file.disk.stat;
    if hasStore && stat.None? then
      // processSingleFile: no deduplication set
      var p := ParseFile(file.disk.read, ConfigFor(file.path, cutoff, includeRaw, false, col), {});
      var r := if p.result.Success? then FileResult(p.result.value.entries, p.result.value.raws, false, NewFile, None, None)
               else FileResult([], [], false, NewFile, Some(p.result.error), None);
      FileStep(r, seen0)
    else if hasStore && cached.Some? && !IsExpired(cached.value, stat.value) then
      var entries := if cached.value.hasNoAssistantMessages then [] else col.entriesFromSummary(cached.value, cutoff);
      FileStep(FileResult(entries, [], true, NoMissReason, None, None), seen0)
    else if hasStore && !file.disk.hasAssistantMessages then
      FileStep(FileResult([], [], false, NoAssistantMessages, None, Some(EmptySummaryForFile(abs, stat.value))), seen0)
    else
      var reason := ClassifyMiss(hasStore, cached.Some?);
      var cfg := ConfigFor(file.path, cutoff, includeRaw, dedup, col);
      var p := ParseFile(file.disk.read, cfg, seen0);
      if p.result.Failure? then
        FileStep(FileResult([], [], false, reason, Some(p.result.error), None), p.seen)
      else
        var entries := p.result.value.entries;
        var summary := if hasStore && |entries| > 0 then Some(SummaryFromEntries(abs, entries, stat.value)) else None;
        FileStep(FileResult(entries, p.result.value.raws, false, reason, None, summary), p.seen)
  }

  /** What one file's processing promises: a summary is trusted exactly when
      its (modTime, size) match the file, every miss carries a reason, the
      cheap pre-scan short-circuits without parsing, an I/O error yields
      nothing, and a new summary needs a store, a parse and an entry. */
  lemma FileOutcomeContract(file: LogFile, cutoff: Option<int>, includeRaw: bool, hasStore: bool,
                            cached: Option<FileSummary>, seen0: set<string>, dedup: bool,
                            col: Collaborators, out: FileStep)
    requires out == FileOutcome(file, cutoff, includeRaw, hasStore, cached, seen0, dedup, col)
    ensures out.result.fromCache <==>
      hasStore && file.disk.stat.Some? && cached.Some? && !IsExpired(cached.value, file.disk.stat.value)
    ensures out.result.fromCache ==>
      && out.result.missReason == NoMissReason && out.result.summary.None? && out.result.error.None?
      && out.result.raws == []
      && out.result.entries == (if cached.value.hasNoAssistantMessages then []
                                else col.entriesFromSummary(cached.value, cutoff))
      && out.seen == seen0
    ensures !out.result.fromCache ==> out.result.missReason != NoMissReason
    ensures !hasStore ==> out.result.missReason == OtherMiss && out.result.summary.None?
    ensures hasStore && file.disk.stat.None? ==> out.result.missReason == NewFile && out.result.summary.None?
    ensures out.result.missReason == NoAssistantMessages <==>
      hasStore && file.disk.stat.Some? && !out.result.fromCache && !file.disk.hasAssistantMessages
    ensures out.result.missReason == NoAssistantMessages ==>
      && out.result.entries == [] && out.result.raws == [] && out.result.error.None?
      && out.result.summary == Some(EmptySummaryForFile(col.absolutePath(file.path), file.disk.stat.value))
      && out.seen == seen0
    ensures out.result.error.Some? ==>
      out.result.entries == [] && out.result.raws == [] && out.result.summary.None? && !out.result.fromCache
    ensures out.result.missReason == ModifiedFile <==>
      hasStore && file.disk.stat.Some? && cached.Some? && !out.result.fromCache && file.disk.hasAssistantMessages
    ensures out.result.missReason == NewFile <==>
      hasStore && (file.disk.stat.None? || (cached.None? && file.disk.hasAssistantMessages))
    ensures out.result.summary.Some? && out.result.missReason != NoAssistantMessages ==>
      && hasStore && file.disk.stat.Some? && out.result.error.None? && out.result.entries != []
      && out.result.summary == Some(SummaryFromEntries(col.absolutePath(file.path), out.result.entries, file.disk.stat.value))
    ensures seen0 <= out.seen
  {
    if file.disk.read.Scanned? {
      ScanDeduplicates(file.disk.read.lines, ConfigFor(file.path, cutoff, includeRaw, dedup, col), seen0);
    }
  }

  method ProcessSingleFileWithCacheAndDedup(file: LogFile, cutoff: Option<int>, includeRaw: bool,
                                           store: SummaryStore?, dedup: DedupSet?, col: Collaborators)
    returns (r: FileResult)
    modifies store, dedup
    ensures var abs := col.absolutePath(file.path);
      var out := FileOutcome(file, cutoff, includeRaw, store != null, old(LookupIn(store, abs)),
                             old(SeenOf(dedup)), dedup != null, col);
      && r == out.result
      && SeenOf(dedup) == out.seen
    ensures store != null ==>
      var abs := col.absolutePath(file.path);
      var inv := Invalidates(true, file.disk.stat, old(store.GetFileSummary(abs)));
      && store.writable == old(store.writable) && store.supportsBatch == old(store.supportsBatch)
      && store.invalidations == old(store.invalidations) + (if inv then [abs] else [])
      && store.summaries == (if inv && store.writable then old(store.summaries) - {abs} else old(store.summaries))
  {
    var abs := col.absolutePath(file.path);
    ghost var seen0 := SeenOf(dedup);
    var cached: Option<FileSummary> := None;
    if store != null {
      if file.disk.stat.None? {
        // the file cannot be stat'ed: process it without the cache and without deduplication
        var p := ProcessSingleFileWithDedup(file.path, file.disk.read, cutoff, includeRaw, null, col);
        if p.Success? {
          return FileResult(p.value.entries, p.value.raws, false, NewFile, None, None);
        }
        return FileResult([], [], false, NewFile, Some(p.error), None);
      }
      var st := file.disk.stat.value;
      cached := store.GetFileSummary(abs);
      if cached.Some? {
        if !IsExpired(cached.value, st) {
          if cached.value.hasNoAssistantMessages {
            return FileResult([], [], true, NoMissReason, None, None);
          }
          return FileResult(col.entriesFromSummary(cached.value, cutoff), [], true, NoMissReason, None, None);
        }
        var _ := store.InvalidateFileSummary(abs);
      }
      if !file.disk.hasAssistantMessages {
        return FileResult([], [], false, NoAssistantMessages, None, Some(EmptySummaryForFile(abs, st)));
      }
    }
    var reason := ClassifyMiss(store != null, cached.Some?);
    var p := ProcessSingleFileWithDedup(file.path, file.disk.read, cutoff, includeRaw, dedup, col);
    if p.Failure? {
      return FileResult([], [], false, reason, Some(p.error), None);
    }
    var summary: Option<FileSummary> := None;
    if store != null && |p.value.entries| > 0 {
      summary := Some(SummaryFromEntries(abs, p.value.entries, file.disk.stat.value));
    }
    return FileResult(p.value.entries, p.value.raws, false, reason, None, summary);
  }

  // ---------------------------------------------------------------------
  // LoadUsageEntries, sequential branch

  datatype LoadOptions = LoadOptions(hoursBack: Option<int>, includeRaw: bool, enableDeduplication: bool)

  /** The cutoff "now minus HoursBack hours", when HoursBack is set. */
  function CutoffFor(hoursBack: Option<int>, now: int): (c: Option<int>)
    ensures c.Some? <==> hoursBack.Some?
    ensures c.Some? ==> c.value + hoursBack.value * HourMillis == now
  {
    if hoursBack.None? then None else Some(now - hoursBack.value * HourMillis)
  }

  /** The histogram cacheMissReasons, whose four keys start at zero. */
  datatype ReasonCounts = ReasonCounts(newFile: nat, modifiedFile: nat, noAssistantMessages: nat, other: nat)

  function Bump(c: ReasonCounts, r: MissReason): ReasonCounts {
    match r
    case NoMissReason => c
    case NewFile => c.(newFile := c.newFile + 1)
    case ModifiedFile => c.(modifiedFile := c.modifiedFile + 1)
    case NoAssistantMessages => c.(noAssistantMessages := c.noAssistantMessages + 1)
    case OtherMiss => c.(other := c.other + 1)
  }

  function TotalReasons(c: ReasonCounts): nat {
    c.newFile + c.modifiedFile + c.noAssistantMessages + c.other
  }

  datatype LoadMetadata = LoadMetadata(
    filesProcessed: nat,
    entriesLoaded: nat,
    processingErrors: seq<string>,
    cacheMissReasons: ReasonCounts,
    hits: nat,
    misses: nat)

  datatype LoadResult = LoadResult(entries: seq<UsageEntry>, raws: seq<RawRecord>, metadata: LoadMetadata)

  datatype LoadError = DiscoveryFailed

  // Folds over the per-file results, in file order. A result with an error
  // contributes only its error string.

  function MergedEntries(rs: seq<FileResult>): seq<UsageEntry>
    decreases |rs|
  {
    if rs == [] then []
    else MergedEntries(rs[..|rs| - 1]) + (if rs[|rs| - 1].error.None? then rs[|rs| - 1].entries else [])
  }

  function MergedRaws(rs: seq<FileResult>): seq<RawRecord>
    decreases |rs|
  {
    if rs == [] then []
    else MergedRaws(rs[..|rs| - 1]) + (if rs[|rs| - 1].error.None? then rs[|rs| - 1].raws else [])
  }

  function Hits(rs: seq<FileResult>): nat
    decreases |rs|
  {
    if rs == [] then 0
    else Hits(rs[..|rs| - 1]) + (if rs[|rs| - 1].error.None? && rs[|rs| - 1].fromCache then 1 else 0)
  }

  function Misses(rs: seq<FileResult>): nat
    decreases |rs|
  {
    if rs == [] then 0
    else Misses(rs[..|rs| - 1]) + (if rs[|rs| - 1].error.None? && !rs[|rs| - 1].fromCache then 1 else 0)
  }

  function Errors(rs: seq<FileResult>): nat
    decreases |rs|
  {
    if rs == [] then 0
    else Errors(rs[..|rs| - 1]) + (if rs[|rs| - 1].error.Some? then 1 else 0)
  }

  function Reasons(rs: seq<FileResult>): ReasonCounts
    decreases |rs|
  {
    if rs == [] then ReasonCounts(0, 0, 0, 0)
    else
      var last := rs[|rs| - 1];
      var c := Reasons(rs[..|rs| - 1]);
      if last.error.None? && !last.fromCache then Bump(c, last.missReason) else c
  }

  function Summaries(rs: seq<FileResult>): seq<FileSummary>
    decreases |rs|
  {
    if rs == [] then []
    else Summaries(rs[..|rs| - 1])
         + (if rs[|rs| - 1].error.None? && rs[|rs| - 1].summary.Some? then [rs[|rs| - 1].summary.value] else [])
  }

  /** The processing errors: "path: error" for each failed file, in order. */
  function ErrorLines(files: seq<LogFile>, rs: seq<FileResult>): seq<string>
    requires |files| == |rs|
    decreases |rs|
  {
    if rs == [] then []
    else
      var n := |rs| - 1;
      ErrorLines(files[..n], rs[..n])
      + (if rs[n].error.Some? then [files[n].path + ": " + ErrorText(rs[n].error.value)] else [])
  }

  /** Every file is counted exactly once: as a hit, a miss or an error. */
  lemma {:induction false} CountsPartition(files: seq<LogFile>, rs: seq<FileResult>)
    requires |files| == |rs|
    ensures Hits(rs) + Misses(rs) + Errors(rs) == |rs|
    ensures |ErrorLines(files, rs)| == Errors(rs)
    decreases |rs|
  {
    if rs != [] {
      CountsPartition(files[..|rs| - 1], rs[..|rs| - 1]);
    }
  }

  /** Every result that is not a cache hit names a miss reason. */
  predicate MissesHaveReasons(rs: seq<FileResult>) {
    forall i :: 0 <= i < |rs| && !rs[i].fromCache ==> rs[i].missReason != NoMissReason
  }

  /** Bumping a reason adds one to the total, except for the empty reason. */
  lemma BumpTotal(c: ReasonCounts, r: MissReason)
    ensures TotalReasons(Bump(c, r)) == TotalReasons(c) + (if r == NoMissReason then 0 else 1)
  {
  }

  /** The miss-reason histogram never counts more than the misses, and
      counts exactly the misses when every miss carries a reason. */
  lemma {:induction false} ReasonsCountMisses(rs: seq<FileResult>)
    ensures TotalReasons(Reasons(rs)) <= Misses(rs)
    ensures MissesHaveReasons(rs) ==> TotalReasons(Reasons(rs)) == Misses(rs)
    decreases |rs|
  {
    if rs != [] {
      var init := rs[..|rs| - 1];
      ReasonsCountMisses(init);
      BumpTotal(Reasons(init), rs[|rs| - 1].missReason);
      if MissesHaveReasons(rs) {
        assert MissesHaveReasons(init) by {
          forall i | 0 <= i < |init| && !init[i].fromCache ensures init[i].missReason != NoMissReason {
            assert init[i] == rs[i];
          }
        }
      }
    }
  }

  /** The per-file results of one load: file i was processed with what the
      store held for it (`lookups[i]`) and the deduplication set left by the
      files before it (`seens[i]`). */
  ghost predicate ProcessedInOrder(files: seq<LogFile>, cutoff: Option<int>, opts: LoadOptions, hasStore: bool,
                                   lookups: seq<Option<FileSummary>>, seens: seq<set<string>>,
                                   rs: seq<FileResult>, col: Collaborators)
  {
    && |rs| == |files| == |lookups| && |seens| == |files| + 1 && seens[0] == {}
    && forall i :: 0 <= i < |files| ==>
         FileProcessed(files[i], cutoff, opts, hasStore, lookups[i], seens[i], seens[i + 1], rs[i], col)
  }

  /** `r` is the result for file `f`, and `after` the set it leaves. */
  ghost predicate FileProcessed(f: LogFile, cutoff: Option<int>, opts: LoadOptions, hasStore: bool,
                                lookup: Option<FileSummary>, before: set<string>, after: set<string>,
                                r: FileResult, col: Collaborators)
  {
    FileOutcome(f, cutoff, opts.includeRaw, hasStore, lookup, before, opts.enableDeduplication, col) == FileStep(r, after)
  }

  /** The store during one load: file i was looked up in `maps[i]` (no
      lookup without a store) and left `maps[i + 1]` behind. */
  ghost predicate StoreFollows(files: seq<LogFile>, hasStore: bool, writable: bool,
                               lookups: seq<Option<FileSummary>>, maps: seq<map<Path, FileSummary>>,
                               col: Collaborators)
  {
    && |lookups| == |files| && |maps| == |files| + 1
    && forall i :: 0 <= i < |files| ==> FileStoreStep(files[i], hasStore, writable, lookups[i], maps[i], maps[i + 1], col)
  }

  ghost predicate FileStoreStep(f: LogFile, hasStore: bool, writable: bool, lookup: Option<FileSummary>,
                                before: map<Path, FileSummary>, after: map<Path, FileSummary>, col: Collaborators)
  {
    var abs := col.absolutePath(f.path);
    && lookup == (if hasStore then SummaryAt(before, abs) else None)
    && after == (if hasStore then MapAfterFile(before, abs, f.disk.stat, writable) else before)
  }

  /** The paths the load asks the store to invalidate, in file order. */
  function InvalidationLog(files: seq<LogFile>, lookups: seq<Option<FileSummary>>, col: Collaborators): seq<Path>
    requires |files| == |lookups|
    decreases |files|
  {
    if files == [] then []
    else
      var n := |files| - 1;
      InvalidationLog(files[..n], lookups[..n], col)
      + (if Invalidates(true, files[n].disk.stat, lookups[n]) then [col.absolutePath(files[n].path)] else [])
  }

  /** One more file extends the store's history and its invalidation log. */
  lemma StoreFollowsAppend(files: seq<LogFile>, hasStore: bool, writable: bool,
                           lookups: seq<Option<FileSummary>>, maps: seq<map<Path, FileSummary>>, col: Collaborators,
                           f: LogFile, lookup: Option<FileSummary>, after: map<Path, FileSummary>)
    requires StoreFollows(files, hasStore, writable, lookups, maps, col)
    requires FileStoreStep(f, hasStore, writable, lookup, maps[|files|], after, col)
    ensures StoreFollows(files + [f], hasStore, writable, lookups + [lookup], maps + [after], col)
    ensures InvalidationLog(files + [f], lookups + [lookup], col) == InvalidationLog(files, lookups, col)
      + (if Invalidates(true, f.disk.stat, lookup) then [col.absolutePath(f.path)] else [])
  {
    var files', lookups', maps' := files + [f], lookups + [lookup], maps + [after];
    forall i | 0 <= i < |files'|
      ensures FileStoreStep(files'[i], hasStore, writable, lookups'[i], maps'[i], maps'[i + 1], col)
    {
      if i < |files| {
        assert files'[i] == files[i] && lookups'[i] == lookups[i] && maps'[i] == maps[i] && maps'[i + 1] == maps[i + 1];
      }
    }
    assert files'[..|files|] == files && lookups'[..|files|] == lookups;
  }

  /** Appending one result extends every fold by that result's share. */
  lemma FoldsAppend(files: seq<LogFile>, rs: seq<FileResult>, f: LogFile, r: FileResult)
    requires |files| == |rs|
    ensures var rs' := rs + [r];
      && MergedEntries(rs') == MergedEntries(rs) + (if r.error.None? then r.entries else [])
      && MergedRaws(rs') == MergedRaws(rs) + (if r.error.None? then r.raws else [])
      && Hits(rs') == Hits(rs) + (if r.error.None? && r.fromCache then 1 else 0)
      && Misses(rs') == Misses(rs) + (if r.error.None? && !r.fromCache then 1 else 0)
      && Reasons(rs') == (if r.error.None? && !r.fromCache then Bump(Reasons(rs), r.missReason) else Reasons(rs))
      && Summaries(rs') == Summaries(rs) + (if r.error.None? && r.summary.Some? then [r.summary.value] else [])
      && ErrorLines(files + [f], rs') == ErrorLines(files, rs)
           + (if r.error.Some? then [f.path + ": " + ErrorText(r.error.value)] else [])
  {
    var rs' := rs + [r];
    assert rs'[..|rs|] == rs;
    assert (files + [f])[..|files|] == files;
  }

  /** A prefix of an in-order processing is one itself. */
  lemma ProcessedPrefix(files: seq<LogFile>, cutoff: Option<int>, opts: LoadOptions, hasStore: bool,
                        lookups: seq<Option<FileSummary>>, seens: seq<set<string>>,
                        rs: seq<FileResult>, col: Collaborators, n: nat)
    requires ProcessedInOrder(files, cutoff, opts, hasStore, lookups, seens, rs, col)
    requires n <= |files|
    ensures ProcessedInOrder(files[..n], cutoff, opts, hasStore, lookups[..n], seens[..n + 1], rs[..n], col)
  {
    forall i | 0 <= i < n
      ensures FileProcessed(files[..n][i], cutoff, opts, hasStore, lookups[..n][i], seens[..n + 1][i],
                            seens[..n + 1][i + 1], rs[..n][i], col)
    {
      assert files[..n][i] == files[i] && lookups[..n][i] == lookups[i] && rs[..n][i] == rs[i];
      assert seens[..n + 1][i] == seens[i] && seens[..n + 1][i + 1] == seens[i + 1];
    }
  }

  /** One more file processed with the current set extends the processing. */
  lemma ProcessedAppend(files: seq<LogFile>, cutoff: Option<int>, opts: LoadOptions, hasStore: bool,
                        lookups: seq<Option<FileSummary>>, seens: seq<set<string>>,
                        rs: seq<FileResult>, col: Collaborators,
                        f: LogFile, lookup: Option<FileSummary>, seen: set<string>, r: FileResult)
    requires ProcessedInOrder(files, cutoff, opts, hasStore, lookups, seens, rs, col)
    requires FileProcessed(f, cutoff, opts, hasStore, lookup, seens[|files|], seen, r, col)
    ensures ProcessedInOrder(files + [f], cutoff, opts, hasStore, lookups + [lookup], seens + [seen], rs + [r], col)
  {
    var files', lookups', seens', rs' := files + [f], lookups + [lookup], seens + [seen], rs + [r];
    forall i | 0 <= i < |files'|
      ensures FileProcessed(files'[i], cutoff, opts, hasStore, lookups'[i], seens'[i], seens'[i + 1], rs'[i], col)
    {
      if i < |files| {
        assert files'[i] == files[i] && lookups'[i] == lookups[i] && seens'[i] == seens[i];
        assert seens'[i + 1] == seens[i + 1] && rs'[i] == rs[i];
      }
    }
  }

  /** Every cache miss carries a reason. */
  lemma ProcessedMissesHaveReasons(files: seq<LogFile>, cutoff: Option<int>, opts: LoadOptions, hasStore: bool,
                                   lookups: seq<Option<FileSummary>>, seens: seq<set<string>>,
                                   rs: seq<FileResult>, col: Collaborators)
    requires ProcessedInOrder(files, cutoff, opts, hasStore, lookups, seens, rs, col)
    ensures MissesHaveReasons(rs)
  {
    forall k | 0 <= k < |rs| && !rs[k].fromCache
      ensures rs[k].missReason != NoMissReason
    {
      assert FileProcessed(files[k], cutoff, opts, hasStore, lookups[k], seens[k], seens[k + 1], rs[k], col);
      FileOutcomeContract(files[k], cutoff, opts.includeRaw, hasStore, lookups[k], seens[k],
                          opts.enableDeduplication, col, FileStep(rs[k], seens[k + 1]));
    }
  }

  /** Without a store, one file's deduplication: the set only grows, and the
      entries of a successful parse carry distinct keys that were not in the
      set before and are in it afterwards. */
  lemma UnstoredFileDeduplicates(file: LogFile, cutoff: Option<int>, includeRaw: bool,
                                 cached: Option<FileSummary>, seen0: set<string>, col: Collaborators)
    ensures var out := FileOutcome(file, cutoff, includeRaw, false, cached, seen0, true, col);
      && seen0 <= out.seen
      && (out.result.error.None? ==>
            && KeysDistinct(out.result.entries)
            && EmittedKeys(out.result.entries) <= out.seen
            && forall e :: e in out.result.entries && HasDedupKey(e) ==> DedupKey(e) !in seen0)
  {
    var cfg := ConfigFor(file.path, cutoff, includeRaw, true, col);
    var read := file.disk.read;
    if read.Scanned? {
      ScanDeduplicates(read.lines, cfg, seen0);
      var s := ScanLines(read.lines, cfg, seen0);
      var out := FileOutcome(file, cutoff, includeRaw, false, cached, seen0, true, col);
      assert out.result.error.None? ==> out.result.entries == s.entries && out.seen == s.seen;
    }
  }

  /** Appending entries with distinct keys, none of them in `seen`, to
      entries with distinct keys, all of them in `seen`, keeps the keys
      distinct. */
  lemma DistinctConcat(before: seq<UsageEntry>, es: seq<UsageEntry>, seen: set<string>)
    requires KeysDistinct(before) && KeysDistinct(es)
    requires EmittedKeys(before) <= seen
    requires forall e :: e in es && HasDedupKey(e) ==> DedupKey(e) !in seen
    ensures KeysDistinct(before + es)
    ensures EmittedKeys(before + es) == EmittedKeys(before) + EmittedKeys(es)
  {
    var all := before + es;
    forall i, j | 0 <= i < j < |all| && HasDedupKey(all[i]) && HasDedupKey(all[j])
      ensures DedupKey(all[i]) != DedupKey(all[j])
    {
      if j >= |before| && i < |before| {
        assert all[i] in before;
        assert DedupKey(all[i]) in seen;
        assert all[j] == es[j - |before|];
        assert es[j - |before|] in es;
      } else if i >= |before| {
        assert all[i] == es[i - |before|] && all[j] == es[j - |before|];
      }
    }
    assert forall e :: e in all <==> e in before || e in es;
  }

  /** Without a store, deduplication across one load keeps the first entry
      of each messageID:requestID key: no two merged entries share a key,
      and the set ends up holding every merged entry's key. */
  lemma {:induction false} MergeDeduplicates(files: seq<LogFile>, cutoff: Option<int>, opts: LoadOptions,
                                             lookups: seq<Option<FileSummary>>, seens: seq<set<string>>,
                                             rs: seq<FileResult>, col: Collaborators)
    requires opts.enableDeduplication
    requires ProcessedInOrder(files, cutoff, opts, false, lookups, seens, rs, col)
    ensures KeysDistinct(MergedEntries(rs))
    ensures EmittedKeys(MergedEntries(rs)) <= seens[|files|]
    decreases |files|
  {
    if files != [] {
      var n := |files| - 1;
      ProcessedPrefix(files, cutoff, opts, false, lookups, seens, rs, col, n);
      MergeDeduplicates(files[..n], cutoff, opts, lookups[..n], seens[..n + 1], rs[..n], col);
      var before := MergedEntries(rs[..n]);
      UnstoredFileDeduplicates(files[n], cutoff, opts.includeRaw, lookups[n], seens[n], col);
      assert FileProcessed(files[n], cutoff, opts, false, lookups[n], seens[n], seens[n + 1], rs[n], col);
      assert seens[..n + 1][|files[..n]|] == seens[n];
      FoldsAppend(files[..n], rs[..n], files[n], rs[n]);
      assert rs == rs[..n] + [rs[n]];
      if rs[n].error.None? {
        var es := rs[n].entries;
        assert MergedEntries(rs) == before + es;
        DistinctConcat(before, es, seens[n]);
      } else {
        assert MergedEntries(rs) == before;
      }
    }
  }

  /** Every entry the files' line loops would emit without deduplication,
      in file order and then line order. */
  function LoadCandidates(files: seq<LogFile>, cutoff: Option<int>, includeRaw: bool, col: Collaborators): seq<UsageEntry>
    decreases |files|
  {
    if files == [] then []
    else
      var f := files[|files| - 1];
      LoadCandidates(files[..|files| - 1], cutoff, includeRaw, col)
      + (if f.disk.read.Scanned? then Candidates(f.disk.read.lines, ConfigFor(f.path, cutoff, includeRaw, true, col)) else [])
  }

  /** No file's scanner reports an error. */
  predicate NoScanErrors(files: seq<LogFile>) {
    forall i :: 0 <= i < |files| ==> !(files[i].disk.read.Scanned? && files[i].disk.read.scanError.Some?)
  }

  /** Without a store and without scanner errors, a load keeps exactly the
      first copy of every messageID:requestID key across all of its files
      (and every entry without both ids), in order; the set ends up holding
      every candidate's key. */
  lemma {:induction false} MergeKeepsFirstCopies(files: seq<LogFile>, cutoff: Option<int>, opts: LoadOptions,
                                                 lookups: seq<Option<FileSummary>>, seens: seq<set<string>>,
                                                 rs: seq<FileResult>, col: Collaborators)
    requires opts.enableDeduplication && NoScanErrors(files)
    requires ProcessedInOrder(files, cutoff, opts, false, lookups, seens, rs, col)
    ensures MergedEntries(rs) == DedupFilter(LoadCandidates(files, cutoff, opts.includeRaw, col), {})
    ensures seens[|files|] == EmittedKeys(LoadCandidates(files, cutoff, opts.includeRaw, col))
    decreases |files|
  {
    if files == [] {
      assert EmittedKeys([]) == {};
    } else {
      var n := |files| - 1;
      var f := files[n];
      ProcessedPrefix(files, cutoff, opts, false, lookups, seens, rs, col, n);
      assert NoScanErrors(files[..n]) by {
        forall i | 0 <= i < n
          ensures !(files[..n][i].disk.read.Scanned? && files[..n][i].disk.read.scanError.Some?)
        {
          assert files[..n][i] == files[i];
        }
      }
      MergeKeepsFirstCopies(files[..n], cutoff, opts, lookups[..n], seens[..n + 1], rs[..n], col);
      assert seens[..n + 1][n] == seens[n];
      var before := LoadCandidates(files[..n], cutoff, opts.includeRaw, col);
      assert FileProcessed(f, cutoff, opts, false, lookups[n], seens[n], seens[n + 1], rs[n], col);
      FoldsAppend(files[..n], rs[..n], f, rs[n]);
      assert rs == rs[..n] + [rs[n]];
      assert !(f.disk.read.Scanned? && f.disk.read.scanError.Some?);
      if f.disk.read.Scanned? {
        var cfg := ConfigFor(f.path, cutoff, opts.includeRaw, true, col);
        var mine := Candidates(f.disk.read.lines, cfg);
        ScanEmits(f.disk.read.lines, cfg, seens[n]);
        assert rs[n].error.None? && rs[n].entries == DedupFilter(mine, seens[n]);
        assert LoadCandidates(files, cutoff, opts.includeRaw, col) == before + mine;
        DedupFilterConcat(before, mine, {});
        EmittedKeysConcat(before, mine);
        assert {} + EmittedKeys(before) == seens[n];
      } else {
        assert rs[n].error.Some? && seens[n + 1] == seens[n];
        assert LoadCandidates(files, cutoff, opts.includeRaw, col) == before;
      }
    }
  }

  /** Hence, without a store and without scanner errors, every key of the
      load's candidates survives in exactly one merged entry. */
  lemma MergeKeepsEveryKey(files: seq<LogFile>, cutoff: Option<int>, opts: LoadOptions,
                           lookups: seq<Option<FileSummary>>, seens: seq<set<string>>,
                           rs: seq<FileResult>, col: Collaborators)
    requires opts.enableDeduplication && NoScanErrors(files)
    requires ProcessedInOrder(files, cutoff, opts, false, lookups, seens, rs, col)
    ensures EmittedKeys(MergedEntries(rs)) == EmittedKeys(LoadCandidates(files, cutoff, opts.includeRaw, col))
    ensures KeysDistinct(MergedEntries(rs))
  {
    MergeKeepsFirstCopies(files, cutoff, opts, lookups, seens, rs, col);
    DedupFilterKeys(LoadCandidates(files, cutoff, opts.includeRaw, col), {});
    DedupFilterDistinct(LoadCandidates(files, cutoff, opts.includeRaw, col), {});
  }

  /** A scanner error discards a file's entries but leaves their keys in
      the set, so a later file repeating such an entry loses its copy too and
      no copy of the key survives the load. */
  lemma {:induction false} ScanErrorDropsLaterCopy(f1: LogFile, f2: LogFile, e: UsageEntry, raw1: RawRecord,
                                                   raw2: RawRecord, cause: string, opts: LoadOptions,
                                                   lookups: seq<Option<FileSummary>>, seens: seq<set<string>>,
                                                   rs: seq<FileResult>, col: Collaborators)
    requires HasDedupKey(e) && opts.enableDeduplication
    requires f1.disk.read == Scanned([ParsedLine(raw1, Some(e))], Some(cause))
    requires f2.disk.read == Scanned([ParsedLine(raw2, Some(e))], None)
    requires ProcessedInOrder([f1, f2], None, opts, false, lookups, seens, rs, col)
    ensures |LoadCandidates([f1, f2], None, opts.includeRaw, col)| == 2
    ensures MergedEntries(rs) == []
  {
    var files := [f1, f2];
    assert FileProcessed(files[0], None, opts, false, lookups[0], seens[0], seens[1], rs[0], col);
    assert FileProcessed(files[1], None, opts, false, lookups[1], seens[1], seens[2], rs[1], col);
    var cfg1 := ConfigFor(f1.path, None, opts.includeRaw, true, col);
    var cfg2 := ConfigFor(f2.path, None, opts.includeRaw, true, col);
    var lines1 := [ParsedLine(raw1, Some(e))];
    var lines2 := [ParsedLine(raw2, Some(e))];
    assert lines1[..0] == [] && lines2[..0] == [];
    assert ScanLines(lines1, cfg1, {}).seen == {DedupKey(e)};
    assert rs[0].error.Some? && seens[1] == {DedupKey(e)};
    assert DedupKey(Finish(e, cfg2)) == DedupKey(e);
    assert ScanLines(lines2, cfg2, seens[1]).entries == [];
    assert rs[1].error.None? && rs[1].entries == [];
    assert |rs| == 2 && rs[..1] == [rs[0]] && rs[..1][..0] == [];
    assert MergedEntries(rs[..1]) == [];
    assert MergedEntries(rs) == MergedEntries(rs[..1]) + rs[1].entries;
    assert files[..1] == [f1] && files[..1][..0] == [];
    assert Candidates(lines1, cfg1) == [Finish(e, cfg1)];
    assert Candidates(lines2, cfg2) == [Finish(e, cfg2)];
    assert LoadCandidates([f1], None, opts.includeRaw, col) == Candidates(lines1, cfg1);
    assert LoadCandidates(files, None, opts.includeRaw, col) == Candidates(lines1, cfg1) + Candidates(lines2, cfg2);
  }

  /** With a store, deduplication does not cover cache hits: the entries
      rebuilt from a valid summary never enter the set, so a later parsed
      file repeating one of them keeps its copy, and the merged entries of
      the load hold two entries with one key. */
  lemma {:induction false} CachedEntriesBypassDedup(f1: LogFile, f2: LogFile, s: FileSummary, st2: FileStat,
                                                    e: UsageEntry, raw: RawRecord, opts: LoadOptions,
                                                    seens: seq<set<string>>, rs: seq<FileResult>, col: Collaborators)
    requires HasDedupKey(e) && opts.enableDeduplication
    requires f1.disk.stat == Some(FileStat(s.modTime, s.fileSize)) && !s.hasNoAssistantMessages
    requires col.entriesFromSummary(s, None) == [e]
    requires f2.disk == DiskFile(Some(st2), Scanned([ParsedLine(raw, Some(e))], None), true)
    requires ProcessedInOrder([f1, f2], None, opts, true, [Some(s), None], seens, rs, col)
    ensures |MergedEntries(rs)| == 2 && !KeysDistinct(MergedEntries(rs))
  {
    var files := [f1, f2];
    var lookups := [Some(s), None];
    assert FileProcessed(files[0], None, opts, true, lookups[0], seens[0], seens[1], rs[0], col);
    assert FileProcessed(files[1], None, opts, true, lookups[1], seens[1], seens[2], rs[1], col);
    assert rs[0].entries == [e] && rs[0].error.None? && seens[1] == {};
    var cfg := ConfigFor(f2.path, None, opts.includeRaw, true, col);
    var lines := [ParsedLine(raw, Some(e))];
    assert lines[..0] == [];
    assert ScanLines(lines, cfg, {}).entries == [Finish(e, cfg)];
    assert rs[1].entries == [Finish(e, cfg)] && rs[1].error.None?;
    assert |rs| == 2 && rs[..1] == [rs[0]] && rs[..1][..0] == [];
    assert MergedEntries(rs[..1]) == [e];
    var merged := MergedEntries(rs);
    assert merged == MergedEntries(rs[..1]) + rs[1].entries;
    assert merged == [e, Finish(e, cfg)];
    assert DedupKey(merged[0]) == DedupKey(merged[1]);
  }

  /** The accumulators of the sequential loop. */
  datatype Tally = Tally(
    entries: seq<UsageEntry>,
    raws: seq<RawRecord>,
    errors: seq<string>,
    hits: nat,
    misses: nat,
    reasons: ReasonCounts,
    toCache: seq<FileSummary>)

  /** What the loop has accumulated after the results `rs` of `files`. */
  ghost function TallyOf(files: seq<LogFile>, rs: seq<FileResult>, includeRaw: bool): Tally
    requires |files| == |rs|
  {
    Tally(MergedEntries(rs), if includeRaw then MergedRaws(rs) else [], ErrorLines(files, rs),
          Hits(rs), Misses(rs), Reasons(rs), Summaries(rs))
  }

  /** The body of the sequential loop for one file (lines 160-189): a failed
      file adds its error string; otherwise the file counts as a hit or a
      miss, a miss with a reason is tallied under it, and its entries, raw
      records (when requested) and new summary are appended. */
  method AddFileResult(t: Tally, f: LogFile, fr: FileResult, includeRaw: bool,
                       ghost files: seq<LogFile>, ghost rs: seq<FileResult>)
    returns (t': Tally)
    requires |files| == |rs| && t == TallyOf(files, rs, includeRaw)
    ensures t' == TallyOf(files + [f], rs + [fr], includeRaw)
  {
    FoldsAppend(files, rs, f, fr);
    t' := t;
    if fr.error.Some? {
      t' := t'.(errors := t'.errors + [f.path + ": " + ErrorText(fr.error.value)]);
    } else {
      if fr.fromCache {
        t' := t'.(hits := t'.hits + 1);
      } else {
        t' := t'.(misses := t'.misses + 1);
        if fr.missReason != NoMissReason {
          t' := t'.(reasons := Bump(t'.reasons, fr.missReason));
        }
      }
      t' := t'.(entries := t'.entries + fr.entries);
      if includeRaw {
        t' := t'.(raws := t'.raws + fr.raws);
      }
      if fr.summary.Some? {
        t' := t'.(toCache := t'.toCache + [fr.summary.value]);
      }
    }
  }

  /** One iteration of the sequential loop (lines 155-190): process the
      next file with the shared store and set, and add its result. */
  /** processSingleFileWithCacheAndDedup on one file of the loop, with the
      store lookup it made and the map it left. */
  method ProcessTrackedFile(file: LogFile, cutoff: Option<int>, opts: LoadOptions,
                            store: SummaryStore?, dedup: DedupSet?, col: Collaborators,
                            ghost writable: bool, ghost before: map<Path, FileSummary>)
    returns (fr: FileResult, ghost lookup: Option<FileSummary>, ghost after: map<Path, FileSummary>)
    requires (dedup != null) == opts.enableDeduplication
    requires store != null ==> store.writable == writable && store.summaries == before
    modifies store, dedup
    ensures FileProcessed(file, cutoff, opts, store != null, lookup, old(SeenOf(dedup)), SeenOf(dedup), fr, col)
    ensures FileStoreStep(file, store != null, writable, lookup, before, after, col)
    ensures store != null ==> && store.writable == writable && store.supportsBatch == old(store.supportsBatch)
                              && store.summaries == after
                              && store.invalidations == old(store.invalidations)
                                   + (if Invalidates(true, file.disk.stat, lookup) then [col.absolutePath(file.path)] else [])
  {
    ghost var abs := col.absolutePath(file.path);
    lookup := LookupIn(store, abs);
    fr := ProcessSingleFileWithCacheAndDedup(file, cutoff, opts.includeRaw, store, dedup, col);
    after := if store != null then store.summaries else before;
  }

  /** The histories of a load extended by file i. */
  lemma NextFileHistory(files: seq<LogFile>, i: nat, cutoff: Option<int>, opts: LoadOptions, hasStore: bool,
                        writable: bool, col: Collaborators, perFile: seq<FileResult>,
                        lookups: seq<Option<FileSummary>>, seens: seq<set<string>>,
                        maps: seq<map<Path, FileSummary>>, lookup: Option<FileSummary>, fr: FileResult,
                        seen: set<string>, after: map<Path, FileSummary>)
    requires i < |files|
    requires ProcessedInOrder(files[..i], cutoff, opts, hasStore, lookups, seens, perFile, col)
    requires StoreFollows(files[..i], hasStore, writable, lookups, maps, col)
    requires FileProcessed(files[i], cutoff, opts, hasStore, lookup, seens[i], seen, fr, col)
    requires FileStoreStep(files[i], hasStore, writable, lookup, maps[i], after, col)
    ensures files[..i + 1] == files[..i] + [files[i]]
    ensures ProcessedInOrder(files[..i + 1], cutoff, opts, hasStore, lookups + [lookup], seens + [seen], perFile + [fr], col)
    ensures StoreFollows(files[..i + 1], hasStore, writable, lookups + [lookup], maps + [after], col)
    ensures InvalidationLog(files[..i + 1], lookups + [lookup], col) == InvalidationLog(files[..i], lookups, col)
      + (if Invalidates(true, files[i].disk.stat, lookup) then [col.absolutePath(files[i].path)] else [])
  {
    assert files[..i + 1] == files[..i] + [files[i]];
    ProcessedAppend(files[..i], cutoff, opts, hasStore, lookups, seens, perFile, col, files[i], lookup, seen, fr);
    StoreFollowsAppend(files[..i], hasStore, writable, lookups, maps, col, files[i], lookup, after);
  }

  method ProcessNextFile(files: seq<LogFile>, i: nat, cutoff: Option<int>, opts: LoadOptions,
                         store: SummaryStore?, dedup: DedupSet?, col: Collaborators, t: Tally,
                         ghost perFile: seq<FileResult>, ghost lookups: seq<Option<FileSummary>>,
                         ghost seens: seq<set<string>>, ghost maps: seq<map<Path, FileSummary>>,
                         ghost writable: bool, ghost log0: seq<Path>)
    returns (t': Tally, ghost perFile': seq<FileResult>,
             ghost lookups': seq<Option<FileSummary>>, ghost seens': seq<set<string>>,
             ghost maps': seq<map<Path, FileSummary>>)
    requires i < |files| && (dedup != null) == opts.enableDeduplication
    requires ProcessedInOrder(files[..i], cutoff, opts, store != null, lookups, seens, perFile, col)
    requires StoreFollows(files[..i], store != null, writable, lookups, maps, col)
    requires store != null ==> && store.writable == writable && store.summaries == maps[i]
                               && store.invalidations == log0 + InvalidationLog(files[..i], lookups, col)
    requires seens[i] == SeenOf(dedup)
    requires t == TallyOf(files[..i], perFile, opts.includeRaw)
    modifies store, dedup
    ensures ProcessedInOrder(files[..i + 1], cutoff, opts, store != null, lookups', seens', perFile', col)
    ensures StoreFollows(files[..i + 1], store != null, writable, lookups', maps', col)
    ensures store != null ==> && store.writable == writable && store.supportsBatch == old(store.supportsBatch)
                              && store.summaries == maps'[i + 1]
                              && store.invalidations == log0 + InvalidationLog(files[..i + 1], lookups', col)
    ensures seens'[i + 1] == SeenOf(dedup) && maps'[0] == maps[0]
    ensures t' == TallyOf(files[..i + 1], perFile', opts.includeRaw)
  {
    var fr, lookup, after := ProcessTrackedFile(files[i], cutoff, opts, store, dedup, col, writable, maps[i]);
    NextFileHistory(files, i, cutoff, opts, store != null, writable, col, perFile, lookups, seens, maps,
                    lookup, fr, SeenOf(dedup), after);
    t' := AddFileResult(t, files[i], fr, opts.includeRaw, files[..i], perFile);
    perFile', lookups', seens', maps' := perFile + [fr], lookups + [lookup], seens + [SeenOf(dedup)], maps + [after];
  }

  /** The sequential branch of the loop over the discovered files. */
  method ProcessFilesSequentially(files: seq<LogFile>, cutoff: Option<int>, opts: LoadOptions,
                                  store: SummaryStore?, dedup: DedupSet?, col: Collaborators)
    returns (t: Tally, ghost perFile: seq<FileResult>,
             ghost lookups: seq<Option<FileSummary>>, ghost seens: seq<set<string>>,
             ghost maps: seq<map<Path, FileSummary>>)
    requires (dedup != null) == opts.enableDeduplication && SeenOf(dedup) == {}
    modifies store, dedup
    ensures ProcessedInOrder(files, cutoff, opts, store != null, lookups, seens, perFile, col)
    ensures StoreFollows(files, store != null, store != null && old(store.writable), lookups, maps, col)
    ensures store != null ==> && store.writable == old(store.writable) && store.supportsBatch == old(store.supportsBatch)
                              && maps[0] == old(store.summaries) && store.summaries == maps[|files|]
                              && store.invalidations == old(store.invalidations) + InvalidationLog(files, lookups, col)
    ensures t == TallyOf(files, perFile, opts.includeRaw)
  {
    ghost var writable := store != null && store.writable;
    ghost var log0 := if store != null then store.invalidations else [];
    t := Tally([], [], [], 0, 0, ReasonCounts(0, 0, 0, 0), []);
    perFile, lookups, seens := [], [], [{}];
    maps := [if store != null then store.summaries else map[]];
    var i := 0;
    while i < |files|
      invariant 0 <= i <= |files|
      invariant ProcessedInOrder(files[..i], cutoff, opts, store != null, lookups, seens, perFile, col)
      invariant StoreFollows(files[..i], store != null, writable, lookups, maps, col)
      invariant store != null ==> && store.writable == writable && store.supportsBatch == old(store.supportsBatch)
                                  && maps[0] == old(store.summaries) && store.summaries == maps[i]
                                  && store.invalidations == log0 + InvalidationLog(files[..i], lookups, col)
      invariant seens[i] == SeenOf(dedup)
      invariant t == TallyOf(files[..i], perFile, opts.includeRaw)
    {
      t, perFile, lookups, seens, maps := ProcessNextFile(files, i, cutoff, opts, store, dedup, col, t,
                                                          perFile, lookups, seens, maps, writable, log0);
      i := i + 1;
    }
    assert files[..|files|] == files;
  }

  /** The sequential branch of LoadUsageEntries: process every discovered
      file in order, sort the merged entries by timestamp and write the
      collected summaries back to the store. */
  method LoadUsageEntries(listing: Option<seq<LogFile>>, opts: LoadOptions, now: int,
                          store: SummaryStore?, col: Collaborators)
    returns (r: Result<LoadResult, LoadError>, ghost perFile: seq<FileResult>,
             ghost lookups: seq<Option<FileSummary>>, ghost seens: seq<set<string>>,
             ghost maps: seq<map<Path, FileSummary>>)
    requires listing.Some? ==> !UsesConcurrentLoader(|listing.value|)
    modifies store
    ensures listing.None? ==> r == Failure(DiscoveryFailed) && (store != null ==> unchanged(store))
    ensures listing.Some? ==>
      var files := listing.value;
      && r.Success?
      && ProcessedInOrder(files, CutoffFor(opts.hoursBack, now), opts, store != null, lookups, seens, perFile, col)
      && StoreFollows(files, store != null, store != null && old(store.writable), lookups, maps, col)
      && SortedByTimestamp(r.value.entries)
      && multiset(r.value.entries) == multiset(MergedEntries(perFile))
      && r.value.raws == (if opts.includeRaw then MergedRaws(perFile) else [])
      && r.value.metadata.filesProcessed == |files|
      && r.value.metadata.entriesLoaded == |r.value.entries|
      && r.value.metadata.processingErrors == ErrorLines(files, perFile)
      && r.value.metadata.hits == Hits(perFile)
      && r.value.metadata.misses == Misses(perFile)
      && r.value.metadata.cacheMissReasons == Reasons(perFile)
      && r.value.metadata.hits + r.value.metadata.misses + |r.value.metadata.processingErrors| == |files|
      && TotalReasons(r.value.metadata.cacheMissReasons) == r.value.metadata.misses
    ensures listing.Some? && store != null ==>
      var files := listing.value;
      && store.writable == old(store.writable) && store.supportsBatch == old(store.supportsBatch)
      && maps[0] == old(store.summaries)
      && store.invalidations == old(store.invalidations) + InvalidationLog(files, lookups, col)
      && store.summaries == (if store.writable then StoreAll(maps[|files|], Summaries(perFile)) else old(store.summaries))
      && (store.writable ==> forall s :: s in Summaries(perFile) ==> s.path in store.summaries)
  {
    if listing.None? {
      return Failure(DiscoveryFailed), [], [], [], [];
    }
    var files := listing.value;
    var cutoff := CutoffFor(opts.hoursBack, now);
    var dedup: DedupSet? := null;
    if opts.enableDeduplication {
      dedup := new DedupSet();
    }
    var t;
    t, perFile, lookups, seens, maps := ProcessFilesSequentially(files, cutoff, opts, store, dedup, col);
    if store != null && !store.writable {
      ReadOnlyStoreKeepsMaps(files, lookups, maps, col);
    }
    var sorted := SortByTimestamp(t.entries);
    if |t.toCache| > 0 && store != null {
      ghost var before := store.summaries;
      WriteBackSummaries(store, t.toCache);
      StoreAllKeys(before, t.toCache);
    }
    CountsPartition(files, perFile);
    ProcessedMissesHaveReasons(files, cutoff, opts, store != null, lookups, seens, perFile, col);
    ReasonsCountMisses(perFile);
    r := Success(LoadResult(sorted, t.raws, LoadMetadata(|files|, |sorted|, t.errors, t.reasons, t.hits, t.misses)));
  }

  /** A store whose invalidations fail keeps its map through the load. */
  lemma {:induction false} ReadOnlyStoreKeepsMaps(files: seq<LogFile>, lookups: seq<Option<FileSummary>>,
                                                  maps: seq<map<Path, FileSummary>>, col: Collaborators)
    requires StoreFollows(files, true, false, lookups, maps, col)
    ensures maps[|files|] == maps[0]
    decreases |files|
  {
    if files != [] {
      var n := |files| - 1;
      assert StoreFollows(files[..n], true, false, lookups[..n], maps[..n + 1], col) by {
        forall i | 0 <= i < n
          ensures FileStoreStep(files[..n][i], true, false, lookups[..n][i], maps[..n + 1][i], maps[..n + 1][i + 1], col)
        {
          assert files[..n][i] == files[i] && lookups[..n][i] == lookups[i];
          assert maps[..n + 1][i] == maps[i] && maps[..n + 1][i + 1] == maps[i + 1];
        }
      }
      ReadOnlyStoreKeepsMaps(files[..n], lookups[..n], maps[..n + 1], col);
      assert FileStoreStep(files[n], true, false, lookups[n], maps[n], maps[n + 1], col);
    }
  }
}
