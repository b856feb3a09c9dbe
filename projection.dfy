/** The projection of a selected record onto a fixed list of field names. */
module Projection {
  import opened Values
  import opened Classify
  import opened Index
  import opened Selectors

  /** The fields kept for the selected candidate pair. */
  const CandidatePairStats: seq<string> :=
    ["bytesSent", "bytesReceived", "currentRoundTripTime", "totalRoundTripTime", "timestamp"]

  /** The fields kept for an inbound RTP stream. */
  const InboundStats: seq<string> :=
    ["bytesReceived", "packetsReceived", "packetsLost", "jitter", "timestamp"]

  /** The fields kept for an outbound RTP stream. */
  const OutboundStats: seq<string> := ["bytesSent", "timestamp"]

  /** The record a projection reads from: the active candidate pair for
      "candidate-pair", otherwise the first record of kind `mediaType` in group `stats`. */
  function Selected(s: Snapshot, stats: string, mediaType: string): Option<Record> {
    if stats == "candidate-pair" then SuccessfulCandidate(s) else RTCStats(s, stats, mediaType)
  }

  /** The projection as a value: every listed field the record has, unchanged. */
  function StatsJson(s: Snapshot, names: seq<string>, stats: string, mediaType: string): Fields {
    match Selected(s, stats, mediaType)
    case None => map[]
    case Some(r) => map f | f in names && f in r.fields :: r.fields[f]
  }

  /** getStatsJsonBuilder: copy, in list order, each listed field that the
      selected record has. The keys are exactly the listed names the record has,
      the values are the record's own, and no record gives the empty object. */
  method GetStatsJsonBuilder(s: Snapshot, names: seq<string>, stats: string, mediaType: string)
    returns (sub: Fields)
    ensures sub == StatsJson(s, names, stats, mediaType)
    ensures Selected(s, stats, mediaType).None? ==> sub == map[]
    ensures Selected(s, stats, mediaType).Some? ==>
      var r := Selected(s, stats, mediaType).value;
      (forall f :: f in sub <==> f in names && f in r.fields) &&
      (forall f :: f in sub ==> sub[f] == r.fields[f])
  {
    sub := map[];
    var rec: Option<Record>;
    if stats == "candidate-pair" {
      rec := GetSuccessfulCandidate(s);
    } else {
      rec := GetRTCStats(s, stats, mediaType);
    }
    if rec.Some? {
      var r := rec.value;
      for i := 0 to |names|
        invariant forall f :: f in sub <==> f in names[..i] && f in r.fields
        invariant forall f :: f in sub ==> f in r.fields && sub[f] == r.fields[f]
      {
        if names[i] in r.fields {
          sub := sub[names[i] := r.fields[names[i]]];
        }
      }
      assert names[..|names|] == names;
    }
  }
}
