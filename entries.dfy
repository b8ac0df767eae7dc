/** Usage entries as the loader produces them (models.UsageEntry), the decoded
    lines of a JSONL log file, the deduplication key, and the timestamp order
    the loader sorts its merged result into. */
module Entries {
  import opened Wrappers

  /** One billable event. Timestamps are milliseconds since the epoch. The
      float cost is not modelled. */
  datatype UsageEntry = UsageEntry(
    timestamp: int,
    model: string,
    messageId: string,
    requestId: string,
    inputTokens: nat,
    outputTokens: nat,
    cacheCreationTokens: nat,
    cacheReadTokens: nat,
    project: string)

  /** A JSON object kept verbatim for limit detection; only its top-level
      string fields are modelled. */
  datatype RawRecord = RawRecord(fields: map<string, string>)

  /** A line of a log file after JSON decoding: blank (only white space),
      not valid JSON, or a JSON object together with the usage entry
      extractUsageEntry finds in it, if any. */
  datatype Line =
    | BlankLine
    | MalformedLine
    | ParsedLine(raw: RawRecord, usage: Option<UsageEntry>)

  /** An entry takes part in deduplication only if both ids are non-empty. */
  predicate HasDedupKey(e: UsageEntry) {
    e.messageId != "" && e.requestId != ""
  }

  /** The key "messageID:requestID" of the deduplication set. */
  function DedupKey(e: UsageEntry): (k: string)
    ensures |k| == |e.messageId| + 1 + |e.requestId|
    ensures k[..|e.messageId|] == e.messageId && k[|e.messageId|] == ':'
    ensures k[|e.messageId| + 1..] == e.requestId
  {
    e.messageId + ":" + e.requestId
  }

  /** The key is a plain concatenation: id pairs that contain ':' can share
      a key although they differ. */
  lemma DedupKeyCollides(a: UsageEntry, b: UsageEntry)
    requires a.messageId == "m:x" && a.requestId == "r"
    requires b.messageId == "m" && b.requestId == "x:r"
    ensures a.messageId != b.messageId && DedupKey(a) == DedupKey(b)
  {
    assert DedupKey(a) == "m:x:r";
    assert DedupKey(b) == "m:x:r";
  }

  // ---------------------------------------------------------------------
  // Timestamp order

  predicate SortedByTimestamp(s: seq<UsageEntry>) {
    forall i, j :: 0 <= i < j < |s| ==> s[i].timestamp <= s[j].timestamp
  }

  /** Inserts e into a sorted list before the first entry that is later. */
  function Insert(e: UsageEntry, s: seq<UsageEntry>): (r: seq<UsageEntry>)
    ensures |r| == |s| + 1 && (r[0] == e || (s != [] && r[0] == s[0]))
    decreases |s|
  {
    if s == [] || e.timestamp <= s[0].timestamp then [e] + s
    else [s[0]] + Insert(e, s[1..])
  }

  /** Inserting into a sorted list keeps it sorted. */
  lemma {:induction false} InsertSorted(e: UsageEntry, s: seq<UsageEntry>)
    requires SortedByTimestamp(s)
    ensures SortedByTimestamp(Insert(e, s))
    decreases |s|
  {
    if s == [] || e.timestamp <= s[0].timestamp {
      SortedCons(e, s);
    } else {
      assert SortedByTimestamp(s[1..]) by {
        forall i, j | 0 <= i < j < |s[1..]| ensures s[1..][i].timestamp <= s[1..][j].timestamp {
          assert s[1..][i] == s[i + 1] && s[1..][j] == s[j + 1];
        }
      }
      InsertSorted(e, s[1..]);
      var rest := Insert(e, s[1..]);
      assert rest[0] == e || rest[0] == s[1];
      SortedCons(s[0], rest);
    }
  }

  /** Inserting adds exactly the one entry. */
  lemma {:induction false} InsertPermutes(e: UsageEntry, s: seq<UsageEntry>)
    ensures multiset(Insert(e, s)) == multiset(s) + multiset{e}
    decreases |s|
  {
    if s != [] && e.timestamp > s[0].timestamp {
      InsertPermutes(e, s[1..]);
      assert s == [s[0]] + s[1..];
      assert multiset([s[0]] + Insert(e, s[1..])) == multiset{s[0]} + multiset(Insert(e, s[1..]));
    }
  }

  /** An entry no later than the head of a sorted list can be put in front. */
  lemma SortedCons(x: UsageEntry, t: seq<UsageEntry>)
    requires SortedByTimestamp(t)
    requires t != [] ==> x.timestamp <= t[0].timestamp
    ensures SortedByTimestamp([x] + t)
  {
    var u := [x] + t;
    forall i, j | 0 <= i < j < |u| ensures u[i].timestamp <= u[j].timestamp {
      if i == 0 {
        assert u[j] == t[j - 1];
        assert t[0].timestamp <= t[j - 1].timestamp;
      } else {
        assert u[i] == t[i - 1] && u[j] == t[j - 1];
      }
    }
  }

  /** The list sort.Slice leaves behind, up to the order of equal
      timestamps (sort.Slice is not stable). */
  function SortByTimestamp(s: seq<UsageEntry>): (r: seq<UsageEntry>)
    ensures SortedByTimestamp(r)
    ensures multiset(r) == multiset(s)
    decreases |s|
  {
    if s == [] then []
    else
      var init := s[..|s| - 1];
      assert s == init + [s[|s| - 1]];
      InsertSorted(s[|s| - 1], SortByTimestamp(init));
      InsertPermutes(s[|s| - 1], SortByTimestamp(init));
      Insert(s[|s| - 1], SortByTimestamp(init))
  }
}
