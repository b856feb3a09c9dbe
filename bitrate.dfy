/** computeBitrate: the average bitrate of a byte-counter series between the first
    and the last snapshot. */
module Bitrate {
  import opened Values
  import opened Aggregators

  /** The loop's accumulators. A byte bound of 0 means "not yet set". */
  datatype Tracker = Tracker(bytesStart: real, bytesEnd: real, tsStart: Float, tsEnd: Float)

  const Initial := Tracker(0.0, 0.0, Finite(0.0), Finite(0.0))

  /** `s`: the byte counter of entry `name + i`; undefined when the entry is
      missing. A null key reads the property named "null". */
  function BytesAt(rows: seq<Row>, name: string, key: Option<string>, i: nat): Value {
    match Obj(rows, name, i)
    case None => Absent
    case Some(o) => Field(o, key.GetOr("null"))
  }

  /** `ts`: the timestamp of entry `name + i`. */
  function TimestampAt(rows: seq<Row>, name: string, i: nat): Value {
    match Obj(rows, name, i)
    case None => Absent
    case Some(o) => Field(o, "timestamp")
  }

  /** A timestamp is taken when it is present and the BYTE value of the same
      entry is not "NA" (the guard tests `s`, not `ts`). */
  predicate TimestampTaken(rows: seq<Row>, name: string, key: Option<string>, i: nat) {
    TimestampAt(rows, name, i) != Absent && BytesAt(rows, name, key, i) != NA
  }

  /** One iteration of the loop, at index `i` of `n`. */
  function Step(t: Tracker, s: Value, ts: Value, i: nat, n: nat): Tracker {
    var t1 :=
      if s != Absent && s != NA then
        t.(bytesStart := if t.bytesStart == 0.0 || s.x < t.bytesStart then s.x else t.bytesStart,
           bytesEnd := if t.bytesEnd == 0.0 || s.x > t.bytesEnd then s.x else t.bytesEnd)
      else t;
    if ts != Absent && s != NA then
      var b := ParseFloat(ts);
      t1.(tsStart := if i == 0 then b else t1.tsStart,
          tsEnd := if i == n - 1 then b else t1.tsEnd)
    else t1
  }

  /** The accumulators after the first `k` iterations. */
  function Run(rows: seq<Row>, name: string, key: Option<string>, n: nat, k: nat): Tracker {
    if k == 0 then Initial
    else Step(Run(rows, name, key, n, k - 1), BytesAt(rows, name, key, k - 1), TimestampAt(rows, name, k - 1), k - 1, n)
  }

  /** The rate from the final accumulators: 0 when the two timestamps are equal,
      NaN when one is NaN. */
  function Rate(t: Tracker): Metric {
    if FloatNe(t.tsEnd, t.tsStart) then
      if t.tsStart.Finite? && t.tsEnd.Finite? then
        var timediff := t.tsEnd.v - t.tsStart.v;
        Number(Round(Abs(8000.0 * (t.bytesEnd - t.bytesStart) / timediff)) as real)
      else NotANumber
    else Number(0.0)
  }

  /** The bitrate metric: undefined below two snapshots. */
  function AvgBitrate(rows: seq<Row>, n: nat, direction: string, mediaType: string): Metric {
    if n < 2 then Undefined
    else Rate(Run(rows, GetJsonObjectName(direction, mediaType), GetJsonKey(direction), n, n))
  }

  /** computeBitrate, with its accumulators bytesStart, bytesEnd, tsStart, tsEnd. */
  method ComputeBitrate(rows: seq<Row>, n: nat, direction: string, mediaType: string) returns (m: Metric)
    ensures m == AvgBitrate(rows, n, direction, mediaType)
    ensures m == Undefined <==> n < 2
  {
    var bytesStart, bytesEnd := 0.0, 0.0;
    var tsStart, tsEnd := Finite(0.0), Finite(0.0);
    if n < 2 {
      return Undefined;
    }
    var name := GetJsonObjectName(direction, mediaType);
    var key := GetJsonKey(direction);
    for i := 0 to n
      invariant Tracker(bytesStart, bytesEnd, tsStart, tsEnd) == Run(rows, name, key, n, i)
    {
      var obj := Obj(rows, name, i);
      var s := Absent;
      if obj.Some? {
        s := Field(obj.value, key.GetOr("null"));
      }
      var ts := Absent;
      if obj.Some? {
        ts := Field(obj.value, "timestamp");
      }
      assert s == BytesAt(rows, name, key, i) && ts == TimestampAt(rows, name, i);
      bytesStart, bytesEnd, tsStart, tsEnd := Iterate(bytesStart, bytesEnd, tsStart, tsEnd, s, ts, i, n);
    }
    m := Average(bytesStart, bytesEnd, tsStart, tsEnd);
  }

  /** The body of computeBitrate's loop, on the values read at index `i`. */
  method Iterate(bytesStart: real, bytesEnd: real, tsStart: Float, tsEnd: Float, s: Value, ts: Value, i: nat, n: nat)
    returns (bytesStart': real, bytesEnd': real, tsStart': Float, tsEnd': Float)
    ensures Tracker(bytesStart', bytesEnd', tsStart', tsEnd') == Step(Tracker(bytesStart, bytesEnd, tsStart, tsEnd), s, ts, i, n)
  {
    bytesStart', bytesEnd', tsStart', tsEnd' := bytesStart, bytesEnd, tsStart, tsEnd;
    if s != Absent && s != NA {
      var b := s.x;
      bytesStart' := if bytesStart == 0.0 || b < bytesStart then b else bytesStart;
      bytesEnd' := if bytesEnd == 0.0 || b > bytesEnd then b else bytesEnd;
    }
    if ts != Absent && s != NA {
      var b := ParseFloat(ts);
      if i == 0 {
        tsStart' := b;
      }
      if i == n - 1 {
        tsEnd' := b;
      }
    }
  }

  /** The tail of computeBitrate: the rate from the final accumulators. */
  method Average(bytesStart: real, bytesEnd: real, tsStart: Float, tsEnd: Float) returns (m: Metric)
    ensures m == Rate(Tracker(bytesStart, bytesEnd, tsStart, tsEnd))
    ensures m.Number? || m.NotANumber?
  {
    var avgBitrate := 0.0;
    if FloatNe(tsEnd, tsStart) {
      if tsStart.NaN? || tsEnd.NaN? {
        return NotANumber;
      }
      var timediff := tsEnd.v - tsStart.v;
      avgBitrate := Round(Abs(8000.0 * (bytesEnd - bytesStart) / timediff)) as real;
    }
    return Number(avgBitrate);
  }

  // ---------------------------------------------------------------------------
  // What the accumulators hold

  /** Whether entry `i` has a usable byte value. */
  predicate HasBytes(rows: seq<Row>, name: string, key: Option<string>, i: nat) {
    BytesAt(rows, name, key, i).Num?
  }

  /** The smallest usable byte value among the first `k` entries. */
  function Lowest(rows: seq<Row>, name: string, key: Option<string>, k: nat): Option<real> {
    if k == 0 then None
    else
      var m := Lowest(rows, name, key, k - 1);
      if !HasBytes(rows, name, key, k - 1) then m
      else
        var b := BytesAt(rows, name, key, k - 1).x;
        if m.None? || b < m.value then Some(b) else m
  }

  /** The largest usable byte value among the first `k` entries. */
  function Highest(rows: seq<Row>, name: string, key: Option<string>, k: nat): Option<real> {
    if k == 0 then None
    else
      var m := Highest(rows, name, key, k - 1);
      if !HasBytes(rows, name, key, k - 1) then m
      else
        var b := BytesAt(rows, name, key, k - 1).x;
        if m.None? || b > m.value then Some(b) else m
  }

  /** Lowest is the least usable byte value, and None exactly when there is none. */
  lemma {:induction false} LowestIsLeast(rows: seq<Row>, name: string, key: Option<string>, k: nat)
    ensures Lowest(rows, name, key, k).None? <==> forall j :: 0 <= j < k ==> !HasBytes(rows, name, key, j)
    ensures Lowest(rows, name, key, k).Some? ==>
      (forall j :: 0 <= j < k && HasBytes(rows, name, key, j) ==> Lowest(rows, name, key, k).value <= BytesAt(rows, name, key, j).x) &&
      exists j :: 0 <= j < k && BytesAt(rows, name, key, j) == Num(Lowest(rows, name, key, k).value)
  {
    if k > 0 {
      LowestIsLeast(rows, name, key, k - 1);
    }
  }

  /** Highest is the greatest usable byte value, and None exactly when there is none. */
  lemma {:induction false} HighestIsGreatest(rows: seq<Row>, name: string, key: Option<string>, k: nat)
    ensures Highest(rows, name, key, k).None? <==> forall j :: 0 <= j < k ==> !HasBytes(rows, name, key, j)
    ensures Highest(rows, name, key, k).Some? ==>
      (forall j :: 0 <= j < k && HasBytes(rows, name, key, j) ==> BytesAt(rows, name, key, j).x <= Highest(rows, name, key, k).value) &&
      exists j :: 0 <= j < k && BytesAt(rows, name, key, j) == Num(Highest(rows, name, key, k).value)
  {
    if k > 0 {
      HighestIsGreatest(rows, name, key, k - 1);
    }
  }

  /** With no usable byte value equal to 0, neither bound is 0 once set. */
  lemma {:induction false} BoundsNonZero(rows: seq<Row>, name: string, key: Option<string>, k: nat)
    requires forall j :: 0 <= j < k ==> BytesAt(rows, name, key, j) != Num(0.0)
    ensures Lowest(rows, name, key, k) != Some(0.0) && Highest(rows, name, key, k) != Some(0.0)
  {
    if k > 0 {
      BoundsNonZero(rows, name, key, k - 1);
    }
  }

  /** While no usable byte value is 0, bytesStart is the least usable value so
      far (0 while there is none). */
  lemma {:induction false} BytesStartIsLowest(rows: seq<Row>, name: string, key: Option<string>, n: nat, k: nat)
    requires forall j :: 0 <= j < k ==> BytesAt(rows, name, key, j) != Num(0.0)
    ensures Run(rows, name, key, n, k).bytesStart == Lowest(rows, name, key, k).GetOr(0.0)
  {
    if k > 0 {
      BytesStartIsLowest(rows, name, key, n, k - 1);
      BoundsNonZero(rows, name, key, k - 1);
    }
  }

  /** While no usable byte value is 0, bytesEnd is the greatest usable value so
      far (0 while there is none). */
  lemma {:induction false} BytesEndIsHighest(rows: seq<Row>, name: string, key: Option<string>, n: nat, k: nat)
    requires forall j :: 0 <= j < k ==> BytesAt(rows, name, key, j) != Num(0.0)
    ensures Run(rows, name, key, n, k).bytesEnd == Highest(rows, name, key, k).GetOr(0.0)
  {
    if k > 0 {
      BytesEndIsHighest(rows, name, key, n, k - 1);
      BoundsNonZero(rows, name, key, k - 1);
    }
  }

  /** The start timestamp comes from entry 0 and the end timestamp from entry
      n - 1, each only when taken; otherwise it stays 0. */
  lemma {:induction false} TimestampBounds(rows: seq<Row>, name: string, key: Option<string>, n: nat, k: nat)
    requires 1 <= k <= n
    ensures Run(rows, name, key, n, k).tsStart ==
      if TimestampTaken(rows, name, key, 0) then ParseFloat(TimestampAt(rows, name, 0)) else Finite(0.0)
    ensures Run(rows, name, key, n, k).tsEnd ==
      if k == n && TimestampTaken(rows, name, key, n - 1) then ParseFloat(TimestampAt(rows, name, n - 1)) else Finite(0.0)
  {
    if k > 1 {
      TimestampBounds(rows, name, key, n, k - 1);
    }
  }

  /** The bitrate of a series with at least two snapshots and no usable byte value
      equal to 0, whose first and last timestamps `a` and `b` are taken: 0 when
      they are equal, otherwise round(|8000 * (max - min) / (b - a)|) over the
      usable byte values. */
  lemma BitrateFormula(rows: seq<Row>, n: nat, direction: string, mediaType: string, a: real, b: real)
    requires n >= 2
    requires var name, key := GetJsonObjectName(direction, mediaType), GetJsonKey(direction);
      (forall j :: 0 <= j < n ==> BytesAt(rows, name, key, j) != Num(0.0)) &&
      TimestampAt(rows, name, 0) == Num(a) && BytesAt(rows, name, key, 0) != NA &&
      TimestampAt(rows, name, n - 1) == Num(b) && BytesAt(rows, name, key, n - 1) != NA
    ensures var name, key := GetJsonObjectName(direction, mediaType), GetJsonKey(direction);
      var lo, hi := Lowest(rows, name, key, n).GetOr(0.0), Highest(rows, name, key, n).GetOr(0.0);
      AvgBitrate(rows, n, direction, mediaType) ==
        if a == b then Number(0.0) else Number(Round(Abs(8000.0 * (hi - lo) / (b - a))) as real)
  {
    var name, key := GetJsonObjectName(direction, mediaType), GetJsonKey(direction);
    BytesStartIsLowest(rows, name, key, n, n);
    BytesEndIsHighest(rows, name, key, n, n);
    TimestampBounds(rows, name, key, n, n);
  }

  /** The worked example: candidate-pair bytesSent 1000, 2000, 4000 at timestamps
      0, 1000, 2000 give 12000 bps. */
  lemma BitrateExample(rows: seq<Row>)
    requires |rows| == 3
    requires rows[0] == map["candidate-pair_" := map["bytesSent" := Num(1000.0), "timestamp" := Num(0.0)]]
    requires rows[1] == map["candidate-pair_" := map["bytesSent" := Num(2000.0), "timestamp" := Num(1000.0)]]
    requires rows[2] == map["candidate-pair_" := map["bytesSent" := Num(4000.0), "timestamp" := Num(2000.0)]]
    ensures AvgBitrate(rows, 3, "Sent", "candidate-pair") == Number(12000.0)
  {
    var name, key := "candidate-pair_", Some("bytesSent");
    assert BytesAt(rows, name, key, 0) == Num(1000.0);
    assert BytesAt(rows, name, key, 1) == Num(2000.0);
    assert BytesAt(rows, name, key, 2) == Num(4000.0);
    BitrateFormula(rows, 3, "Sent", "candidate-pair", 0.0, 2000.0);
    assert Lowest(rows, name, key, 1) == Some(1000.0) && Highest(rows, name, key, 1) == Some(1000.0);
    assert Lowest(rows, name, key, 2) == Some(1000.0) && Highest(rows, name, key, 2) == Some(2000.0);
    assert Lowest(rows, name, key, 3) == Some(1000.0) && Highest(rows, name, key, 3) == Some(4000.0);
    assert Round(8000.0 * 3000.0 / 2000.0) == 12000;
  }

  /** The 0 sentinel as written: a series 0, 500, 1000 at timestamps 0, 1000,
      2000 forgets its 0 sample and reports 2000 bps, not 4000. */
  lemma ZeroSampleIsOverwritten(rows: seq<Row>)
    requires |rows| == 3
    requires rows[0] == map["candidate-pair_" := map["bytesSent" := Num(0.0), "timestamp" := Num(0.0)]]
    requires rows[1] == map["candidate-pair_" := map["bytesSent" := Num(500.0), "timestamp" := Num(1000.0)]]
    requires rows[2] == map["candidate-pair_" := map["bytesSent" := Num(1000.0), "timestamp" := Num(2000.0)]]
    ensures AvgBitrate(rows, 3, "Sent", "candidate-pair") == Number(2000.0)
  {
    var name, key := "candidate-pair_", Some("bytesSent");
    assert Run(rows, name, key, 3, 1) == Tracker(0.0, 0.0, Finite(0.0), Finite(0.0));
    assert Run(rows, name, key, 3, 2) == Tracker(500.0, 500.0, Finite(0.0), Finite(0.0));
    assert Run(rows, name, key, 3, 3) == Tracker(500.0, 1000.0, Finite(0.0), Finite(2000.0));
    assert Round(8000.0 * 500.0 / 2000.0) == 2000;
  }

  /** The timestamp guard as written: when the last entry's byte value is "NA",
      its timestamp is ignored and the end timestamp stays 0. */
  lemma NaBytesHideLastTimestamp(rows: seq<Row>, name: string, key: Option<string>, n: nat)
    requires n >= 2 && BytesAt(rows, name, key, n - 1) == NA
    ensures Run(rows, name, key, n, n).tsEnd == Finite(0.0)
  {
    TimestampBounds(rows, name, key, n, n);
  }
}
