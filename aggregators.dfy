/** The metric aggregators that read the per-index projections: round-trip time,
    total bytes, audio jitter and packet loss, and the name helpers they share with
    the bitrate computation. */
module Aggregators {
  import opened Values

  /** The projections of one snapshot index, keyed by name prefix: `rows[i][p]`
      stands for the builder entry `p + i` ("candidate-pair_3", "inbound-audio_3"). */
  type Row = map<string, Fields>

  /** `builder[name + i]`, None when there is no such entry. */
  function Obj(rows: seq<Row>, name: string, i: nat): Option<Fields> {
    if i < |rows| && name in rows[i] then Some(rows[i][name]) else None
  }

  // ---------------------------------------------------------------------------
  // Name helpers

  /** getJsonObjectName: the builder prefix for a bitrate series. */
  function GetJsonObjectName(direction: string, mediaType: string): string {
    if mediaType == "candidate-pair" then "candidate-pair_" else direction + "bound-" + mediaType + "_"
  }

  /** getJsonKey: the byte counter a bitrate series reads; null for an unknown
      direction. */
  function GetJsonKey(direction: string): Option<string>
  {
    if direction == "Sent" || direction == "out" then Some("bytesSent")
    else if direction == "Received" || direction == "in" then Some("bytesReceived")
    else None
  }

  /** The names the metric table asks for are the prefixes the rows are built
      with. */
  lemma ObjectNamesMatchRows()
    ensures GetJsonObjectName("Sent", "candidate-pair") == "candidate-pair_"
    ensures GetJsonObjectName("Received", "candidate-pair") == "candidate-pair_"
    ensures GetJsonObjectName("in", "audio") == "inbound-audio_"
    ensures GetJsonObjectName("in", "video") == "inbound-video_"
    ensures GetJsonObjectName("out", "audio") == "outbound-audio_"
    ensures GetJsonObjectName("out", "video") == "outbound-video_"
  {
    assert "in" + "bound-" + "audio" + "_" == "inbound-audio_";
    assert "in" + "bound-" + "video" + "_" == "inbound-video_";
    assert "out" + "bound-" + "audio" + "_" == "outbound-audio_";
    assert "out" + "bound-" + "video" + "_" == "outbound-video_";
  }

  // ---------------------------------------------------------------------------
  // Where reading the candidate-pair entries stops

  /** The first index from `i` below `n` whose "candidate-pair_" entry is missing,
      or `n`: reading a field of a missing entry throws, and the exception ends the
      loop of computeRoundTripTime and totalBytes. */
  function HaltFrom(rows: seq<Row>, n: nat, i: nat): nat
    decreases n - i
  {
    if i >= n || Obj(rows, "candidate-pair_", i).None? then i else HaltFrom(rows, n, i + 1)
  }

  function Halt(rows: seq<Row>, n: nat): nat {
    HaltFrom(rows, n, 0)
  }

  lemma {:induction false} HaltFromBounds(rows: seq<Row>, n: nat, i: nat)
    requires i <= n
    ensures i <= HaltFrom(rows, n, i) <= n
    ensures forall j :: i <= j < HaltFrom(rows, n, i) ==> Obj(rows, "candidate-pair_", j).Some?
    ensures HaltFrom(rows, n, i) < n ==> Obj(rows, "candidate-pair_", HaltFrom(rows, n, i)).None?
    decreases n - i
  {
    if i < n && Obj(rows, "candidate-pair_", i).Some? {
      HaltFromBounds(rows, n, i + 1);
    }
  }

  /** Every candidate-pair entry before the halt exists, and the halt is `n`
      unless an entry is missing there. */
  lemma HaltBounds(rows: seq<Row>, n: nat)
    ensures Halt(rows, n) <= n
    ensures forall j :: 0 <= j < Halt(rows, n) ==> Obj(rows, "candidate-pair_", j).Some?
    ensures Halt(rows, n) < n ==> Obj(rows, "candidate-pair_", Halt(rows, n)).None?
  {
    HaltFromBounds(rows, n, 0);
  }

  /** When every index below `n` has its candidate-pair entry, nothing throws. */
  lemma {:induction false} NoHaltWhenComplete(rows: seq<Row>, n: nat)
    requires forall j :: 0 <= j < n ==> Obj(rows, "candidate-pair_", j).Some?
    ensures Halt(rows, n) == n
  {
    HaltBounds(rows, n);
  }

  // ---------------------------------------------------------------------------
  // computeRoundTripTime

  /** The value of `prefix + "RoundTripTime"` in the candidate-pair entry `i`. */
  function RttSample(rows: seq<Row>, prefix: string, i: nat): Value {
    match Obj(rows, "candidate-pair_", i)
    case None => Absent
    case Some(o) => Field(o, prefix + "RoundTripTime")
  }

  /** The guard as written: present, not "NA", and the text "0". */
  predicate RttQualifies(s: Value) {
    s != Absent && s != NA && s == Num(0.0)
  }

  function RttSum(rows: seq<Row>, prefix: string, k: nat): real {
    if k == 0 then 0.0
    else
      var s := RttSample(rows, prefix, k - 1);
      RttSum(rows, prefix, k - 1) + if RttQualifies(s) then 1000.0 * s.x else 0.0
  }

  function RttCount(rows: seq<Row>, prefix: string, k: nat): nat {
    if k == 0 then 0
    else RttCount(rows, prefix, k - 1) + if RttQualifies(RttSample(rows, prefix, k - 1)) then 1 else 0
  }

  /** The round-trip time metric: the mean of `1000 * v` over the qualifying
      samples read before the halt, or "" when there are none. */
  function RoundTripTime(rows: seq<Row>, n: nat, prefix: string): Metric {
    var h := Halt(rows, n);
    if RttCount(rows, prefix, h) > 0 then Number(RttSum(rows, prefix, h) / RttCount(rows, prefix, h) as real)
    else Empty
  }

  /** computeRoundTripTime, with its accumulators `rtt` and `ct`. */
  method ComputeRoundTripTime(rows: seq<Row>, n: nat, prefix: string) returns (m: Metric)
    ensures m == RoundTripTime(rows, n, prefix)
  {
    var rtt := 0.0;
    var ct := 0;
    var i := 0;
    while i < n
      invariant i <= n
      invariant HaltFrom(rows, n, 0) == HaltFrom(rows, n, i)
      invariant rtt == RttSum(rows, prefix, i) && ct == RttCount(rows, prefix, i)
    {
      var obj := Obj(rows, "candidate-pair_", i);
      if obj.None? {
        break;
      }
      var s := Field(obj.value, prefix + "RoundTripTime");
      if s != Absent && s != NA && s == Num(0.0) {
        rtt := rtt + 1000.0 * s.x;
        ct := ct + 1;
      }
      i := i + 1;
    }
    assert i == Halt(rows, n);
    if ct > 0 {
      return Number(rtt / ct as real);
    }
    return Empty;
  }

  lemma {:induction false} RttSumIsZero(rows: seq<Row>, prefix: string, k: nat)
    ensures RttSum(rows, prefix, k) == 0.0
  {
    if k > 0 {
      RttSumIsZero(rows, prefix, k - 1);
    }
  }

  lemma {:induction false} RttCountZero(rows: seq<Row>, prefix: string, k: nat)
    ensures RttCount(rows, prefix, k) == 0 <==> forall j :: 0 <= j < k ==> RttSample(rows, prefix, j) != Num(0.0)
  {
    if k > 0 {
      RttCountZero(rows, prefix, k - 1);
    }
  }

  /** Because the guard admits only the text "0", the metric is either "" or 0:
      it is 0 exactly when some sample read before the halt is "0". */
  lemma RoundTripTimeIsZeroOrEmpty(rows: seq<Row>, n: nat, prefix: string)
    ensures RoundTripTime(rows, n, prefix) == Empty || RoundTripTime(rows, n, prefix) == Number(0.0)
    ensures RoundTripTime(rows, n, prefix) == Empty <==>
      forall j :: 0 <= j < Halt(rows, n) ==> RttSample(rows, prefix, j) != Num(0.0)
  {
    RttSumIsZero(rows, prefix, Halt(rows, n));
    RttCountZero(rows, prefix, Halt(rows, n));
  }

  /** A series whose every sample is "NA" gives "". */
  lemma AllNaRoundTripTime(rows: seq<Row>, n: nat, prefix: string)
    requires forall j :: 0 <= j < n ==> RttSample(rows, prefix, j) == NA
    ensures RoundTripTime(rows, n, prefix) == Empty
  {
    HaltBounds(rows, n);
    RoundTripTimeIsZeroOrEmpty(rows, n, prefix);
  }

  // ---------------------------------------------------------------------------
  // totalBytes

  /** The value of `"bytes" + direction` in the candidate-pair entry `i`. */
  function BytesSample(rows: seq<Row>, direction: string, i: nat): Value {
    match Obj(rows, "candidate-pair_", i)
    case None => Absent
    case Some(o) => Field(o, "bytes" + direction)
  }

  /** `bytes` after `k` iterations: Math.max over the valid samples, from 0. */
  function MaxBytes(rows: seq<Row>, direction: string, k: nat): real {
    if k == 0 then 0.0
    else
      var bytes := MaxBytes(rows, direction, k - 1);
      var s := BytesSample(rows, direction, k - 1);
      if s != Absent && s != NA then (if s.x > bytes then s.x else bytes) else bytes
  }

  function BytesTotal(rows: seq<Row>, n: nat, direction: string): Metric {
    Number(MaxBytes(rows, direction, Halt(rows, n)))
  }

  /** totalBytes, with its accumulator `bytes`. */
  method TotalBytes(rows: seq<Row>, n: nat, direction: string) returns (m: Metric)
    ensures m == BytesTotal(rows, n, direction)
  {
    var bytes := 0.0;
    var i := 0;
    while i < n
      invariant i <= n
      invariant HaltFrom(rows, n, 0) == HaltFrom(rows, n, i)
      invariant bytes == MaxBytes(rows, direction, i)
    {
      var obj := Obj(rows, "candidate-pair_", i);
      if obj.None? {
        break;
      }
      var s := Field(obj.value, "bytes" + direction);
      if s != Absent && s != NA {
        var b := s.x;
        bytes := if b > bytes then b else bytes;
      }
      i := i + 1;
    }
    assert i == Halt(rows, n);
    return Number(bytes);
  }

  lemma {:induction false} MaxBytesIsMax(rows: seq<Row>, direction: string, k: nat)
    ensures MaxBytes(rows, direction, k) >= 0.0
    ensures forall j :: 0 <= j < k && BytesSample(rows, direction, j).Num? ==>
      BytesSample(rows, direction, j).x <= MaxBytes(rows, direction, k)
    ensures MaxBytes(rows, direction, k) == 0.0 ||
      exists j :: 0 <= j < k && BytesSample(rows, direction, j) == Num(MaxBytes(rows, direction, k))
  {
    if k > 0 {
      MaxBytesIsMax(rows, direction, k - 1);
    }
  }

  /** The total is the largest of 0 and every valid sample read before the halt:
      at least each of them, and 0 or one of them. With no valid sample, and in
      particular with no snapshots, it is 0. */
  lemma TotalBytesIsMax(rows: seq<Row>, n: nat, direction: string)
    ensures BytesTotal(rows, n, direction).Number?
    ensures BytesTotal(rows, n, direction).n >= 0.0
    ensures forall j :: 0 <= j < Halt(rows, n) && BytesSample(rows, direction, j).Num? ==>
      BytesSample(rows, direction, j).x <= BytesTotal(rows, n, direction).n
    ensures BytesTotal(rows, n, direction).n == 0.0 ||
      exists j :: 0 <= j < Halt(rows, n) && BytesSample(rows, direction, j) == Num(BytesTotal(rows, n, direction).n)
  {
    MaxBytesIsMax(rows, direction, Halt(rows, n));
  }

  // ---------------------------------------------------------------------------
  // computeAudioJitter

  /** The jitter of the inbound-audio entry `i`. */
  function JitterSample(rows: seq<Row>, i: nat): Value {
    match Obj(rows, "inbound-audio_", i)
    case None => Absent
    case Some(o) => Field(o, "jitter")
  }

  function JitterSum(rows: seq<Row>, k: nat): real {
    if k == 0 then 0.0
    else
      var s := JitterSample(rows, k - 1);
      JitterSum(rows, k - 1) + if s != Absent && s != NA then 1000.0 * s.x else 0.0
  }

  function JitterCount(rows: seq<Row>, k: nat): nat {
    if k == 0 then 0
    else
      var s := JitterSample(rows, k - 1);
      JitterCount(rows, k - 1) + if s != Absent && s != NA then 1 else 0
  }

  /** The jitter metric: "" below two snapshots, otherwise the mean of
      `1000 * jitter` over the valid samples, or "" when there are none. */
  function AudioJitter(rows: seq<Row>, n: nat): Metric {
    if n < 2 then Empty
    else if JitterCount(rows, n) > 0 then Number(JitterSum(rows, n) / JitterCount(rows, n) as real)
    else Empty
  }

  /** computeAudioJitter, with its accumulators `jitter` and `ct`. */
  method ComputeAudioJitter(rows: seq<Row>, n: nat) returns (m: Metric)
    ensures m == AudioJitter(rows, n)
  {
    var jitter := 0.0;
    var ct := 0;
    if n < 2 {
      return Empty;
    }
    for i := 0 to n
      invariant jitter == JitterSum(rows, i) && ct == JitterCount(rows, i)
    {
      var obj := Obj(rows, "inbound-audio_", i);
      if obj.Some? {
        var s := Field(obj.value, "jitter");
        if s != Absent && s != NA {
          jitter := jitter + 1000.0 * s.x;
          ct := ct + 1;
        }
      }
    }
    if ct > 0 {
      return Number(jitter / ct as real);
    }
    return Empty;
  }

  /** The sum after `k` iterations lies between `1000 * lo` and `1000 * hi`
      times the count, when every valid sample lies between `lo` and `hi`. */
  lemma JitterSumBounds(rows: seq<Row>, k: nat, lo: real, hi: real)
    requires forall j :: 0 <= j < k && JitterSample(rows, j).Num? ==> lo <= JitterSample(rows, j).x <= hi
    ensures 1000.0 * lo * JitterCount(rows, k) as real <= JitterSum(rows, k) <= 1000.0 * hi * JitterCount(rows, k) as real
  {
    JitterSumAbove(rows, k, 1000.0 * lo);
    JitterSumBelow(rows, k, 1000.0 * hi);
  }

  lemma {:induction false} JitterSumAbove(rows: seq<Row>, k: nat, a: real)
    requires forall j :: 0 <= j < k && JitterSample(rows, j).Num? ==> a <= 1000.0 * JitterSample(rows, j).x
    ensures a * JitterCount(rows, k) as real <= JitterSum(rows, k)
  {
    if k > 0 {
      JitterSumAbove(rows, k - 1, a);
      var s := JitterSample(rows, k - 1);
      var c := JitterCount(rows, k - 1);
      if s != Absent && s != NA {
        assert a * (c + 1) as real == a * c as real + a;
      }
    }
  }

  lemma {:induction false} JitterSumBelow(rows: seq<Row>, k: nat, b: real)
    requires forall j :: 0 <= j < k && JitterSample(rows, j).Num? ==> 1000.0 * JitterSample(rows, j).x <= b
    ensures JitterSum(rows, k) <= b * JitterCount(rows, k) as real
  {
    if k > 0 {
      JitterSumBelow(rows, k - 1, b);
      var s := JitterSample(rows, k - 1);
      var c := JitterCount(rows, k - 1);
      if s != Absent && s != NA {
        assert b * (c + 1) as real == b * c as real + b;
      }
    }
  }

  lemma {:induction false} JitterCountZero(rows: seq<Row>, k: nat)
    ensures JitterCount(rows, k) == 0 <==> forall j :: 0 <= j < k ==> !JitterSample(rows, j).Num?
  {
    if k > 0 {
      JitterCountZero(rows, k - 1);
    }
  }

  /** The jitter metric is "" exactly below two snapshots or without a valid
      sample; otherwise it lies between 1000 times the smallest and the largest
      sample. */
  lemma AudioJitterIsMean(rows: seq<Row>, n: nat, lo: real, hi: real)
    requires forall j :: 0 <= j < n && JitterSample(rows, j).Num? ==> lo <= JitterSample(rows, j).x <= hi
    ensures AudioJitter(rows, n) == Empty <==> n < 2 || forall j :: 0 <= j < n ==> !JitterSample(rows, j).Num?
    ensures AudioJitter(rows, n).Number? ==> 1000.0 * lo <= AudioJitter(rows, n).n <= 1000.0 * hi
  {
    JitterSumBounds(rows, n, lo, hi);
    JitterCountZero(rows, n);
    if n >= 2 && JitterCount(rows, n) > 0 {
      var c := JitterCount(rows, n) as real;
      var sum := JitterSum(rows, n);
      assert sum / c * c == sum;
      MeanBounds(sum, c, 1000.0 * lo, 1000.0 * hi);
    }
  }

  lemma MeanBounds(sum: real, c: real, lo: real, hi: real)
    requires c > 0.0 && lo * c <= sum <= hi * c
    ensures lo <= sum / c <= hi
  {
    assert sum / c * c == sum;
  }

  // ---------------------------------------------------------------------------
  // computePacketsLoss

  /** computePacketsLoss: the loss fraction of the LAST snapshot's inbound record
      of `mediaType`, rounded to three decimals; "" with no snapshot, no such
      record, a missing or "NA" counter, or no packets at all. */
  function ComputePacketsLoss(rows: seq<Row>, n: nat, mediaType: string): (m: Metric)
    ensures m.Empty? || m.Number?
  {
    if n < 1 then Empty
    else match Obj(rows, "inbound-" + mediaType + "_", n - 1)
      case None => Empty
      case Some(obj) =>
        var s := Field(obj, "packetsReceived");
        var l := Field(obj, "packetsLost");
        if s != Absent && s != NA && l != Absent && l != NA then
          var packetsLost := l.x;
          var totalPackets := s.x + packetsLost;
          if totalPackets > 0.0 then
            var packetLoss := packetsLost * 1000.0 / totalPackets;
            var fraction := packetLoss / 1000.0;
            Number(Round(fraction * 1000.0) as real / 1000.0)
          else Empty
        else Empty
  }

  /** With counters `received` and `lost` in the last snapshot and at least one
      packet in all, the loss is round(1000 * lost / (received + lost)) / 1000;
      earlier snapshots play no part. A negative (signed) `lost` is not excluded. */
  lemma PacketsLossOfLastSnapshot(rows: seq<Row>, n: nat, mediaType: string, received: real, lost: real)
    requires n >= 1
    requires Obj(rows, "inbound-" + mediaType + "_", n - 1).Some?
    requires Field(Obj(rows, "inbound-" + mediaType + "_", n - 1).value, "packetsReceived") == Num(received)
    requires Field(Obj(rows, "inbound-" + mediaType + "_", n - 1).value, "packetsLost") == Num(lost)
    requires received + lost > 0.0
    ensures ComputePacketsLoss(rows, n, mediaType) == Number(Round(1000.0 * lost / (received + lost)) as real / 1000.0)
  {
    var t := received + lost;
    assert lost * 1000.0 / t / 1000.0 * 1000.0 == 1000.0 * lost / t;
  }

  /** With non-negative counters the loss is a fraction between 0 and 1. */
  lemma PacketsLossIsFraction(rows: seq<Row>, n: nat, mediaType: string, received: real, lost: real)
    requires n >= 1
    requires Obj(rows, "inbound-" + mediaType + "_", n - 1).Some?
    requires Field(Obj(rows, "inbound-" + mediaType + "_", n - 1).value, "packetsReceived") == Num(received)
    requires Field(Obj(rows, "inbound-" + mediaType + "_", n - 1).value, "packetsLost") == Num(lost)
    requires received >= 0.0 && lost >= 0.0 && received + lost > 0.0
    ensures ComputePacketsLoss(rows, n, mediaType).Number?
    ensures 0.0 <= ComputePacketsLoss(rows, n, mediaType).n <= 1.0
  {
    PacketsLossOfLastSnapshot(rows, n, mediaType, received, lost);
    var t := received + lost;
    MeanBounds(1000.0 * lost, t, 0.0, 1000.0);
    var r := Round(1000.0 * lost / t);
    assert 0 <= r <= 1000;
  }

  /** The loss is "" exactly when there is no snapshot, the last one has no
      record of `mediaType`, either counter is missing or "NA", or the two
      counters add up to no packets. */
  lemma PacketsLossEmpty(rows: seq<Row>, n: nat, mediaType: string)
    ensures ComputePacketsLoss(rows, n, mediaType) == Empty <==>
      n < 1 || Obj(rows, "inbound-" + mediaType + "_", n - 1).None? ||
      (var o := Obj(rows, "inbound-" + mediaType + "_", n - 1).value;
       !Field(o, "packetsReceived").Num? || !Field(o, "packetsLost").Num? ||
       Field(o, "packetsReceived").x + Field(o, "packetsLost").x <= 0.0)
  {
  }

  /** Only the last snapshot's inbound record is read: two captures that agree on
      it give the same loss. */
  lemma PacketsLossReadsLastOnly(rows: seq<Row>, rows': seq<Row>, n: nat, mediaType: string)
    requires n >= 1 ==> Obj(rows, "inbound-" + mediaType + "_", n - 1) == Obj(rows', "inbound-" + mediaType + "_", n - 1)
    ensures ComputePacketsLoss(rows, n, mediaType) == ComputePacketsLoss(rows', n, mediaType)
  {
  }

  /** The worked example: 97 packets received and 3 lost give 0.03. */
  lemma PacketsLossExample(rows: seq<Row>)
    requires |rows| == 1 && rows[0] == map["inbound-audio_" := map["packetsReceived" := Num(97.0), "packetsLost" := Num(3.0)]]
    ensures ComputePacketsLoss(rows, 1, "audio") == Number(0.03)
  {
    assert "inbound-" + "audio" + "_" == "inbound-audio_";
    PacketsLossOfLastSnapshot(rows, 1, "audio", 97.0, 3.0);
    assert Round(1000.0 * 3.0 / 100.0) == 30;
  }

  /** A negative packetsLost counter gives a negative loss: 100 received and
      -2 lost give -0.02. */
  lemma NegativeLossExample(rows: seq<Row>)
    requires |rows| == 1 && rows[0] == map["inbound-video_" := map["packetsReceived" := Num(100.0), "packetsLost" := Num(-2.0)]]
    ensures ComputePacketsLoss(rows, 1, "video") == Number(-0.02)
  {
    assert "inbound-" + "video" + "_" == "inbound-video_";
    PacketsLossOfLastSnapshot(rows, 1, "video", 100.0, -2.0);
    assert Round(1000.0 * -2.0 / 98.0) == -20;
  }
}
