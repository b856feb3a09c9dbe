/** The extraction pipeline: per-index projections of a capture's snapshots, the
    metric table derived from them, and the table of all peer connections. */
module Pipeline {
  import opened Values
  import opened Dicts
  import opened Classify
  import opened Index
  import opened Selectors
  import opened Projection
  import opened Aggregators
  import opened Bitrate

  /** One capture as it reaches the pipeline: its `statsArray` of indexed
      snapshots, which may be missing. */
  datatype ClientStats = ClientStats(statsArray: Option<seq<Snapshot>>)

  // ---------------------------------------------------------------------------
  // Direction flags

  /** String.prototype.toLowerCase on ASCII letters. */
  function LowerChar(c: char): char {
    if 'A' <= c <= 'Z' then (c as int + 32) as char else c
  }

  function Lower(s: string): (r: string)
    ensures |r| == |s| && forall i :: 0 <= i < |s| ==> r[i] == LowerChar(s[i])
  {
    if s == [] then [] else [LowerChar(s[0])] + Lower(s[1..])
  }

  /** The row builder compares the LOWER-CASED direction ... */
  predicate RowsInbound(direction: string) {
    "both" == Lower(direction) || "in" == Lower(direction)
  }

  predicate RowsOutbound(direction: string) {
    "both" == Lower(direction) || "out" == Lower(direction)
  }

  /** ... the metric table compares the direction as given. */
  predicate TableInbound(direction: string) {
    "both" == direction || "in" == direction
  }

  predicate TableOutbound(direction: string) {
    "both" == direction || "out" == direction
  }

  // ---------------------------------------------------------------------------
  // The projections of one snapshot

  function RowOf(s: Snapshot, direction: string): Row {
    var cp: Row := map["candidate-pair_" := StatsJson(s, CandidatePairStats, "candidate-pair", "")];
    var withIn :=
      if RowsInbound(direction) then
        cp["inbound-audio_" := StatsJson(s, InboundStats, "inbound-rtp", "audio")]
          ["inbound-video_" := StatsJson(s, InboundStats, "inbound-rtp", "video")]
      else cp;
    if RowsOutbound(direction) then
      withIn["outbound-audio_" := StatsJson(s, OutboundStats, "outbound-rtp", "audio")]
        ["outbound-video_" := StatsJson(s, OutboundStats, "outbound-rtp", "video")]
    else withIn
  }

  function RowsOf(snaps: seq<Snapshot>, direction: string): (rows: seq<Row>)
    ensures |rows| == |snaps| && forall i :: 0 <= i < |snaps| ==> rows[i] == RowOf(snaps[i], direction)
  {
    if snaps == [] then [] else [RowOf(snaps[0], direction)] + RowsOf(snaps[1..], direction)
  }

  // ---------------------------------------------------------------------------
  // The metric table

  const CurrentRtt := "currentRoundTripTime (ms)"
  const TotalRtt := "totalRoundTripTime (ms)"
  const BytesReceived := "totalBytesReceived (Bytes)"
  const BytesSent := "totalBytesSent (Bytes)"
  const SentBitrate := "avgSentBitrate (bps)"
  const ReceivedBitrate := "avgReceivedBitrate (bps)"
  const InAudioBitrate := "inboundAudioBitrate (bps)"
  const InVideoBitrate := "inboundVideoBitrate (bps)"
  const OutAudioBitrate := "outboundAudioBitrate (bps)"
  const OutVideoBitrate := "outboundVideoBitrate (bps)"
  const Jitter := "audioJitter (ms)"
  const AudioLoss := "audioPacketsLoss (%)"
  const VideoLoss := "videoPacketsLoss (%)"

  /** The six entries every table starts with: round-trip times, byte totals and
      candidate-pair bitrates. */
  function BaseMetrics(rows: seq<Row>, n: nat): Dict<Metric> {
    RoundTripTimes(rows, n) + ByteTotals(rows, n) + CandidatePairBitrates(rows, n)
  }

  function RoundTripTimes(rows: seq<Row>, n: nat): Dict<Metric> {
    [(CurrentRtt, RoundTripTime(rows, n, "current")), (TotalRtt, RoundTripTime(rows, n, "total"))]
  }

  function ByteTotals(rows: seq<Row>, n: nat): Dict<Metric> {
    [(BytesReceived, BytesTotal(rows, n, "Received")), (BytesSent, BytesTotal(rows, n, "Sent"))]
  }

  function CandidatePairBitrates(rows: seq<Row>, n: nat): Dict<Metric> {
    [(SentBitrate, AvgBitrate(rows, n, "Sent", "candidate-pair")),
     (ReceivedBitrate, AvgBitrate(rows, n, "Received", "candidate-pair"))]
  }

  /** The inbound stream bitrates. */
  function InboundBitrates(rows: seq<Row>, n: nat): Dict<Metric> {
    [(InAudioBitrate, AvgBitrate(rows, n, "in", "audio")),
     (InVideoBitrate, AvgBitrate(rows, n, "in", "video"))]
  }

  /** The outbound stream bitrates. */
  function OutboundBitrates(rows: seq<Row>, n: nat): Dict<Metric> {
    [(OutAudioBitrate, AvgBitrate(rows, n, "out", "audio")),
     (OutVideoBitrate, AvgBitrate(rows, n, "out", "video"))]
  }

  /** The receive-side quality entries: jitter and the two packet losses. */
  function InboundQuality(rows: seq<Row>, n: nat): Dict<Metric> {
    [(Jitter, AudioJitter(rows, n)),
     (AudioLoss, ComputePacketsLoss(rows, n, "audio")),
     (VideoLoss, ComputePacketsLoss(rows, n, "video"))]
  }

  /** The metric table of `n` snapshots' rows, in the order the keys are added. */
  function MetricsTable(rows: seq<Row>, n: nat, direction: string): Dict<Metric> {
    BaseMetrics(rows, n)
    + (if TableInbound(direction) then InboundBitrates(rows, n) else [])
    + (if TableOutbound(direction) then OutboundBitrates(rows, n) else [])
    + (if TableInbound(direction) then InboundQuality(rows, n) else [])
  }

  /** extractJson as a value: the table over the capture's snapshots (none when
      its statsArray is missing). */
  function Metrics(c: ClientStats, direction: string): Dict<Metric> {
    var snaps := c.statsArray.GetOr([]);
    MetricsTable(RowsOf(snaps, direction), |snaps|, direction)
  }

  /** `csv[k] = m` for a key `k` the table does not have yet: the entry goes last. */
  method Assign(csv: Dict<Metric>, k: string, m: Metric) returns (r: Dict<Metric>)
    requires k !in Keys(csv)
    ensures r == csv + [(k, m)]
    ensures Keys(r) == Keys(csv) + [k]
  {
    PutFresh(csv, k, m);
    r := Put(csv, k, m);
  }

  /** The byte counter each bitrate series reads is one of the fields the rows
      keep for that series. */
  lemma CountersAreProjected()
    ensures GetJsonKey("Sent").Some? && GetJsonKey("Sent").value in CandidatePairStats
    ensures GetJsonKey("Received").Some? && GetJsonKey("Received").value in CandidatePairStats
    ensures GetJsonKey("in").Some? && GetJsonKey("in").value in InboundStats
    ensures GetJsonKey("out").Some? && GetJsonKey("out").value in OutboundStats
  {
  }

  /** One iteration of extractJson's first loop: the entries of snapshot `snap`. */
  method ProjectSnapshot(snap: Snapshot, direction: string) returns (row: Row)
    ensures row == RowOf(snap, direction)
  {
    row := map[];
    var cp := GetStatsJsonBuilder(snap, CandidatePairStats, "candidate-pair", "");
    row := row["candidate-pair_" := cp];
    if "both" == Lower(direction) || "in" == Lower(direction) {
      var audio := GetStatsJsonBuilder(snap, InboundStats, "inbound-rtp", "audio");
      var video := GetStatsJsonBuilder(snap, InboundStats, "inbound-rtp", "video");
      row := row["inbound-audio_" := audio]["inbound-video_" := video];
    }
    if "both" == Lower(direction) || "out" == Lower(direction) {
      var audio := GetStatsJsonBuilder(snap, OutboundStats, "outbound-rtp", "audio");
      var video := GetStatsJsonBuilder(snap, OutboundStats, "outbound-rtp", "video");
      row := row["outbound-audio_" := audio]["outbound-video_" := video];
    }
  }

  /** extractJson: build the per-index projections, then the metric table. */
  method ExtractJson(jsonObj: ClientStats, direction: string) returns (csv: Dict<Metric>)
    ensures csv == Metrics(jsonObj, direction)
  {
    var jsonArray := jsonObj.statsArray.GetOr([]);
    var noStats := |jsonArray|;
    var builder: seq<Row> := [];
    for i := 0 to noStats
      invariant builder == RowsOf(jsonArray[..i], direction)
    {
      var row := ProjectSnapshot(jsonArray[i], direction);
      assert jsonArray[..i + 1] == jsonArray[..i] + [jsonArray[i]];
      builder := builder + [row];
    }
    assert jsonArray[..noStats] == jsonArray;
    csv := BuildMetrics(builder, noStats, direction);
  }

  const BaseKeys := [CurrentRtt, TotalRtt, BytesReceived, BytesSent, SentBitrate, ReceivedBitrate]
  const InboundBitrateKeys := [InAudioBitrate, InVideoBitrate]
  const OutboundBitrateKeys := [OutAudioBitrate, OutVideoBitrate]
  const InboundQualityKeys := [Jitter, AudioLoss, VideoLoss]

  /** The keys each section adds are new to the table built so far. */
  lemma SectionKeysFresh(inbound: bool, outbound: bool)
    ensures forall k :: k in InboundBitrateKeys ==> k !in BaseKeys
    ensures var ks := BaseKeys + (if inbound then InboundBitrateKeys else []);
      forall k :: k in OutboundBitrateKeys ==> k !in ks
    ensures var ks := BaseKeys + (if inbound then InboundBitrateKeys else [])
                     + (if outbound then OutboundBitrateKeys else []);
      forall k :: k in InboundQualityKeys ==> k !in ks
  {
  }

  /** The six assignments every table starts with, two at a time. */
  method AddBaseMetrics(rows: seq<Row>, noStats: nat) returns (csv: Dict<Metric>)
    ensures csv == BaseMetrics(rows, noStats) && Keys(csv) == BaseKeys
  {
    csv := AddRoundTripTimes(rows, noStats);
    csv := AddByteTotals(csv, rows, noStats);
    csv := AddCandidatePairBitrates(csv, rows, noStats);
  }

  method AddRoundTripTimes(rows: seq<Row>, noStats: nat) returns (csv: Dict<Metric>)
    ensures csv == RoundTripTimes(rows, noStats) && Keys(csv) == [CurrentRtt, TotalRtt]
  {
    csv := [];
    var m := ComputeRoundTripTime(rows, noStats, "current");
    csv := Assign(csv, CurrentRtt, m);
    m := ComputeRoundTripTime(rows, noStats, "total");
    csv := Assign(csv, TotalRtt, m);
  }

  method AddByteTotals(csv0: Dict<Metric>, rows: seq<Row>, noStats: nat) returns (csv: Dict<Metric>)
    requires BytesReceived !in Keys(csv0) && BytesSent !in Keys(csv0)
    ensures csv == csv0 + ByteTotals(rows, noStats)
    ensures Keys(csv) == Keys(csv0) + [BytesReceived, BytesSent]
  {
    var m := TotalBytes(rows, noStats, "Received");
    csv := Assign(csv0, BytesReceived, m);
    m := TotalBytes(rows, noStats, "Sent");
    csv := Assign(csv, BytesSent, m);
  }

  method AddCandidatePairBitrates(csv0: Dict<Metric>, rows: seq<Row>, noStats: nat) returns (csv: Dict<Metric>)
    requires SentBitrate !in Keys(csv0) && ReceivedBitrate !in Keys(csv0)
    ensures csv == csv0 + CandidatePairBitrates(rows, noStats)
    ensures Keys(csv) == Keys(csv0) + [SentBitrate, ReceivedBitrate]
  {
    var m := ComputeBitrate(rows, noStats, "Sent", "candidate-pair");
    csv := Assign(csv0, SentBitrate, m);
    m := ComputeBitrate(rows, noStats, "Received", "candidate-pair");
    csv := Assign(csv, ReceivedBitrate, m);
  }

  /** The inbound bitrate assignments, onto a table without those keys. */
  method AddInboundBitrates(csv0: Dict<Metric>, rows: seq<Row>, noStats: nat) returns (csv: Dict<Metric>)
    requires forall k :: k in InboundBitrateKeys ==> k !in Keys(csv0)
    ensures csv == csv0 + InboundBitrates(rows, noStats) && Keys(csv) == Keys(csv0) + InboundBitrateKeys
  {
    var m := ComputeBitrate(rows, noStats, "in", "audio");
    csv := Assign(csv0, InAudioBitrate, m);
    m := ComputeBitrate(rows, noStats, "in", "video");
    csv := Assign(csv, InVideoBitrate, m);
  }

  /** The outbound bitrate assignments, onto a table without those keys. */
  method AddOutboundBitrates(csv0: Dict<Metric>, rows: seq<Row>, noStats: nat) returns (csv: Dict<Metric>)
    requires forall k :: k in OutboundBitrateKeys ==> k !in Keys(csv0)
    ensures csv == csv0 + OutboundBitrates(rows, noStats) && Keys(csv) == Keys(csv0) + OutboundBitrateKeys
  {
    var m := ComputeBitrate(rows, noStats, "out", "audio");
    csv := Assign(csv0, OutAudioBitrate, m);
    m := ComputeBitrate(rows, noStats, "out", "video");
    csv := Assign(csv, OutVideoBitrate, m);
  }

  /** The jitter and packet-loss assignments, onto a table without those keys. */
  method AddInboundQuality(csv0: Dict<Metric>, rows: seq<Row>, noStats: nat) returns (csv: Dict<Metric>)
    requires forall k :: k in InboundQualityKeys ==> k !in Keys(csv0)
    ensures csv == csv0 + InboundQuality(rows, noStats) && Keys(csv) == Keys(csv0) + InboundQualityKeys
  {
    var jitter := ComputeAudioJitter(rows, noStats);
    var audio := ComputePacketsLoss(rows, noStats, "audio");
    var video := ComputePacketsLoss(rows, noStats, "video");
    assert Jitter !in Keys(csv0) && AudioLoss !in Keys(csv0) && VideoLoss !in Keys(csv0);
    var c1 := Assign(csv0, Jitter, jitter);
    var c2 := Assign(c1, AudioLoss, audio);
    csv := Assign(c2, VideoLoss, video);
    assert csv == csv0 + [(Jitter, jitter), (AudioLoss, audio), (VideoLoss, video)];
  }

  /** The keys of a table, section by section, as the two flags select them. */
  function TableKeyList(inbound: bool, outbound: bool): seq<string> {
    BaseKeys
    + (if inbound then InboundBitrateKeys else [])
    + (if outbound then OutboundBitrateKeys else [])
    + (if inbound then InboundQualityKeys else [])
  }

  lemma KeyListDistinct(inbound: bool, outbound: bool)
    ensures var ks := TableKeyList(inbound, outbound);
      forall i, j :: 0 <= i < j < |ks| ==> ks[i] != ks[j]
  {
  }

  /** Sections with the expected keys make a table with the selected keys, each once. */
  lemma SectionsKeys<V>(base: Dict<V>, a: Dict<V>, b: Dict<V>, q: Dict<V>, inbound: bool, outbound: bool)
    requires Keys(base) == BaseKeys && Keys(a) == InboundBitrateKeys
    requires Keys(b) == OutboundBitrateKeys && Keys(q) == InboundQualityKeys
    ensures var t := base + (if inbound then a else []) + (if outbound then b else []) + (if inbound then q else []);
      Keys(t) == TableKeyList(inbound, outbound) && UniqueKeys(t)
  {
    var a' := if inbound then a else [];
    var b' := if outbound then b else [];
    var q' := if inbound then q else [];
    KeysAppend(base, a');
    KeysAppend(base + a', b');
    KeysAppend(base + a' + b', q');
    var t := base + a' + b' + q';
    KeyListDistinct(inbound, outbound);
    assert Keys(t) == TableKeyList(inbound, outbound);
  }

  /** The table's keys, section by section, as the direction selects them; no
      key occurs twice. */
  lemma TableKeys(rows: seq<Row>, n: nat, direction: string)
    ensures Keys(MetricsTable(rows, n, direction)) == TableKeyList(TableInbound(direction), TableOutbound(direction))
    ensures UniqueKeys(MetricsTable(rows, n, direction))
  {
    var base, a, b, q := BaseMetrics(rows, n), InboundBitrates(rows, n), OutboundBitrates(rows, n), InboundQuality(rows, n);
    assert Keys(base) == BaseKeys;
    assert Keys(a) == InboundBitrateKeys;
    assert Keys(b) == OutboundBitrateKeys;
    assert Keys(q) == InboundQualityKeys;
    SectionsKeys(base, a, b, q, TableInbound(direction), TableOutbound(direction));
  }

  /** "both" selects every section, "in" all but the outbound bitrates, "out"
      only the outbound bitrates, and any other direction none. */
  lemma DirectionSelectsSections(rows: seq<Row>, n: nat, direction: string)
    ensures direction == "both" ==> |MetricsTable(rows, n, direction)| == 13
    ensures direction == "in" ==>
      (|MetricsTable(rows, n, direction)| == 11 && OutAudioBitrate !in Keys(MetricsTable(rows, n, direction)))
    ensures direction == "out" ==>
      (|MetricsTable(rows, n, direction)| == 8 && Jitter !in Keys(MetricsTable(rows, n, direction)))
    ensures direction !in {"both", "in", "out"} ==> MetricsTable(rows, n, direction) == BaseMetrics(rows, n)
  {
    var ks := Keys(MetricsTable(rows, n, direction));
    assert |ks| == |MetricsTable(rows, n, direction)|;
    TableKeys(rows, n, direction);
    KeyListSizes();
  }

  lemma KeyListSizes()
    ensures |TableKeyList(true, true)| == 13
    ensures |TableKeyList(true, false)| == 11 && OutAudioBitrate !in TableKeyList(true, false)
    ensures |TableKeyList(false, true)| == 8 && Jitter !in TableKeyList(false, true)
  {
  }

  /** The row builder lower-cases the direction but the table does not: "IN"
      projects the inbound streams into the rows, yet the table holds only the
      six base entries. */
  lemma UpperCaseDirection(rows: seq<Row>, n: nat)
    ensures RowsInbound("IN") && !RowsOutbound("IN")
    ensures RowsInbound("BOTH") && RowsOutbound("BOTH")
    ensures MetricsTable(rows, n, "IN") == BaseMetrics(rows, n)
    ensures MetricsTable(rows, n, "BOTH") == BaseMetrics(rows, n)
  {
    assert Lower("IN") == "in";
    assert Lower("BOTH") == "both";
  }

  /** Every row the pipeline builds has its "candidate-pair_" entry, so the
      round-trip-time and total-bytes loops read every snapshot. */
  lemma PipelineReadsEverySnapshot(snaps: seq<Snapshot>, direction: string)
    ensures Halt(RowsOf(snaps, direction), |snaps|) == |snaps|
  {
    var rows := RowsOf(snaps, direction);
    forall j | 0 <= j < |snaps|
      ensures Obj(rows, "candidate-pair_", j).Some?
    {
      assert "candidate-pair_" in RowOf(snaps[j], direction);
    }
    NoHaltWhenComplete(rows, |snaps|);
  }

  /** A capture without snapshots: total bytes 0, bitrates undefined, every
      averaged metric "". */
  lemma EmptyCapture(c: ClientStats, direction: string)
    requires c.statsArray.GetOr([]) == []
    ensures Metrics(c, direction) ==
      [(CurrentRtt, Empty), (TotalRtt, Empty), (BytesReceived, Number(0.0)), (BytesSent, Number(0.0)),
       (SentBitrate, Undefined), (ReceivedBitrate, Undefined)]
      + (if TableInbound(direction) then [(InAudioBitrate, Undefined), (InVideoBitrate, Undefined)] else [])
      + (if TableOutbound(direction) then [(OutAudioBitrate, Undefined), (OutVideoBitrate, Undefined)] else [])
      + (if TableInbound(direction) then [(Jitter, Empty), (AudioLoss, Empty), (VideoLoss, Empty)] else [])
  {
    assert RowsOf([], direction) == [];
    var rows: seq<Row> := [];
    assert Halt(rows, 0) == 0;
    assert RoundTripTime(rows, 0, "current") == Empty;
    assert RoundTripTime(rows, 0, "total") == Empty;
    assert BytesTotal(rows, 0, "Received") == Number(0.0);
    assert BytesTotal(rows, 0, "Sent") == Number(0.0);
  }

  /** The sent-bytes sample the pipeline reads at index `j` is the bytesSent
      of that snapshot's active candidate pair. */
  lemma SentSampleOfActivePair(snaps: seq<Snapshot>, direction: string, j: nat, r: Record)
    requires j < |snaps| && SuccessfulCandidate(snaps[j]) == Some(r)
    ensures BytesSample(RowsOf(snaps, direction), "Sent", j) == Field(r.fields, "bytesSent")
  {
    var rows := RowsOf(snaps, direction);
    assert "bytes" + "Sent" == "bytesSent";
    assert rows[j]["candidate-pair_"] == StatsJson(snaps[j], CandidatePairStats, "candidate-pair", "");
    assert "bytesSent" in CandidatePairStats;
  }

  /** The total bytes sent that a capture reports is at least the bytesSent of
      the active candidate pair of each of its snapshots. */
  lemma SentTotalCoversEverySnapshot(c: ClientStats, direction: string, j: nat, r: Record)
    requires c.statsArray.Some? && j < |c.statsArray.value|
    requires SuccessfulCandidate(c.statsArray.value[j]) == Some(r)
    requires Field(r.fields, "bytesSent").Num?
    ensures Metrics(c, direction)[3].0 == BytesSent
    ensures Metrics(c, direction)[3].1.Number?
    ensures Field(r.fields, "bytesSent").x <= Metrics(c, direction)[3].1.n
  {
    var snaps := c.statsArray.value;
    var rows := RowsOf(snaps, direction);
    assert Metrics(c, direction)[3] == (BytesSent, BytesTotal(rows, |snaps|, "Sent"));
    PipelineReadsEverySnapshot(snaps, direction);
    TotalBytesIsMax(rows, |snaps|, "Sent");
    SentSampleOfActivePair(snaps, direction, j, r);
  }

  /** The second half of extractJson: fill `csvBuilder`, key by key, from the
      aggregators. */
  method BuildMetrics(rows: seq<Row>, noStats: nat, direction: string) returns (csv: Dict<Metric>)
    ensures csv == MetricsTable(rows, noStats, direction)
  {
    var inbound := "both" == direction || "in" == direction;
    var outbound := "both" == direction || "out" == direction;
    SectionKeysFresh(inbound, outbound);
    csv := AddBaseMetrics(rows, noStats);
    if inbound {
      csv := AddInboundBitrates(csv, rows, noStats);
    }
    if outbound {
      csv := AddOutboundBitrates(csv, rows, noStats);
    }
    if inbound {
      csv := AddInboundQuality(csv, rows, noStats);
    }
  }
}

/** extractStats: the metric tables of one sending and any number of receiving
    peer connections, keyed "localPC" and "remotePC[<i>]". */
module Extraction {
  import opened Values
  import opened Dicts
  import opened Pipeline

  /** The decimal digit `d` as a character. */
  function DigitChar(d: nat): char
    requires d < 10
  {
    (48 + d) as char
  }

  /** The decimal rendering of a natural number, as "" + i gives it. */
  function NatToString(n: nat): (s: string)
    ensures |s| >= 1 && (n < 10 <==> |s| == 1)
    ensures s[|s| - 1] == DigitChar(n % 10)
  {
    if n < 10 then [DigitChar(n)] else NatToString(n / 10) + [DigitChar(n % 10)]
  }

  /** Distinct numbers have distinct renderings. */
  lemma {:induction false} NatToStringInjective(a: nat, b: nat)
    requires NatToString(a) == NatToString(b)
    ensures a == b
  {
    var s := NatToString(a);
    assert DigitChar(a % 10) == DigitChar(b % 10);
    if a >= 10 {
      assert NatToString(a / 10) == s[..|s| - 1] == NatToString(b / 10);
      NatToStringInjective(a / 10, b / 10);
    }
  }

  /** The key of the `i`-th receiving peer connection. */
  function RemoteKey(i: nat): string {
    "remotePC[" + NatToString(i) + "]"
  }

  /** Receiving connections get keys distinct from each other and from "localPC". */
  lemma RemoteKeysDistinct(i: nat, j: nat)
    ensures RemoteKey(i) != "localPC"
    ensures RemoteKey(i) == RemoteKey(j) <==> i == j
  {
    assert RemoteKey(i)[0] == 'r';
    if RemoteKey(i) == RemoteKey(j) {
      var s := RemoteKey(i);
      assert NatToString(i) == s[9..|s| - 1] == NatToString(j);
      NatToStringInjective(i, j);
    }
  }

  /** The sender's entry, when there is a sender. */
  function LocalEntry(sender: Option<ClientStats>): Dict<Dict<Metric>> {
    if sender.Some? then [("localPC", Metrics(sender.value, "out"))] else []
  }

  /** The first `j` of `tables`, the `k`-th under "remotePC[k]". */
  function Numbered<V>(tables: seq<V>, j: nat): Dict<V>
    requires j <= |tables|
  {
    seq(j, k requires 0 <= k < j => (RemoteKey(k), tables[k]))
  }

  /** The receivers' tables, each read in direction "in". */
  function InboundTables(recv: seq<ClientStats>): seq<Dict<Metric>> {
    seq(|recv|, k requires 0 <= k < |recv| => Metrics(recv[k], "in"))
  }

  /** extractStats as a value. */
  function StatsTable(sender: Option<ClientStats>, receivers: Option<seq<ClientStats>>): Dict<Dict<Metric>> {
    var tables := InboundTables(receivers.GetOr([]));
    LocalEntry(sender) + Numbered(tables, |tables|)
  }

  /** A table holding at most "localPC". */
  predicate LocalOnly<V>(local: Dict<V>) {
    |local| <= 1 && (|local| == 1 ==> local[0].0 == "localPC")
  }

  /** The key at position `k` of "localPC" followed by numbered entries. */
  lemma NumberedKeyAt<V>(local: Dict<V>, tables: seq<V>, j: nat, k: nat)
    requires LocalOnly(local) && j <= |tables| && k < |local| + j
    ensures (local + Numbered(tables, j))[k].0 == if k < |local| then "localPC" else RemoteKey(k - |local|)
  {
    if k >= |local| {
      assert (local + Numbered(tables, j))[k] == Numbered(tables, j)[k - |local|];
    }
  }

  /** No key occurs twice in "localPC" followed by numbered entries. */
  lemma NumberedUnique<V>(local: Dict<V>, tables: seq<V>)
    requires LocalOnly(local)
    ensures UniqueKeys(local + Numbered(tables, |tables|))
  {
    var d := local + Numbered(tables, |tables|);
    forall i, j | 0 <= i < j < |d|
      ensures d[i].0 != d[j].0
    {
      NumberedKeysDiffer(local, tables, i, j);
    }
  }

  /** Two positions of "localPC" followed by numbered entries hold different keys. */
  lemma NumberedKeysDiffer<V>(local: Dict<V>, tables: seq<V>, i: nat, j: nat)
    requires LocalOnly(local) && i < j < |local| + |tables|
    ensures (local + Numbered(tables, |tables|))[i].0 != (local + Numbered(tables, |tables|))[j].0
  {
    NumberedKeyAt(local, tables, |tables|, i);
    NumberedKeyAt(local, tables, |tables|, j);
    if i < |local| {
      RemoteKeysDistinct(j - |local|, j - |local|);
    } else {
      RemoteKeysDistinct(i - |local|, j - |local|);
    }
  }

  /** Assigning the next receiver's table appends its numbered entry. */
  lemma PutNext<V>(local: Dict<V>, tables: seq<V>, j: nat)
    requires LocalOnly(local) && j < |tables|
    ensures Put(local + Numbered(tables, j), RemoteKey(j), tables[j]) == local + Numbered(tables, j + 1)
  {
    var d := local + Numbered(tables, j);
    forall k | 0 <= k < |d|
      ensures d[k].0 != RemoteKey(j)
    {
      NumberedKeyAt(local, tables, j, k);
      if k < |local| {
        RemoteKeysDistinct(j, j);
      } else {
        RemoteKeysDistinct(j, k - |local|);
      }
    }
    PutFresh(d, RemoteKey(j), tables[j]);
    assert Numbered(tables, j) + [(RemoteKey(j), tables[j])] == Numbered(tables, j + 1);
  }

  /** The whole table: the sender's table first, under "localPC" and read in
      direction "out", when there is a sender; then the `j`-th receiver's
      table, read in direction "in", under "remotePC[j]"; no key twice. */
  lemma StatsTableShape(sender: Option<ClientStats>, receivers: Option<seq<ClientStats>>)
    ensures var local := if sender.Some? then 1 else 0;
      var recv := receivers.GetOr([]);
      var t := StatsTable(sender, receivers);
      |t| == local + |recv| &&
      (sender.Some? ==> t[0] == ("localPC", Metrics(sender.value, "out"))) &&
      (forall j :: 0 <= j < |recv| ==> t[local + j] == (RemoteKey(j), Metrics(recv[j], "in")))
    ensures UniqueKeys(StatsTable(sender, receivers))
  {
    NumberedUnique(LocalEntry(sender), InboundTables(receivers.GetOr([])));
  }

  /** extractStats: the sender's table, then each receiver's, one key each. */
  method ExtractStats(sender: Option<ClientStats>, receivers: Option<seq<ClientStats>>)
    returns (builder: Dict<Dict<Metric>>)
    ensures builder == StatsTable(sender, receivers)
  {
    builder := [];
    if sender.Some? {
      var table := ExtractJson(sender.value, "out");
      PutFresh(builder, "localPC", table);
      builder := Put(builder, "localPC", table);
    }
    ghost var local := LocalEntry(sender);
    assert builder == local;
    ghost var tables := InboundTables(receivers.GetOr([]));
    if receivers.Some? {
      var recv := receivers.value;
      var i := 0;
      for j := 0 to |recv|
        invariant i == j
        invariant builder == local + Numbered(tables, j)
      {
        var table := ExtractJson(recv[j], "in");
        assert table == tables[j];
        PutNext(local, tables, j);
        builder := Put(builder, RemoteKey(i), table);
        i := i + 1;
      }
    }
  }
}
