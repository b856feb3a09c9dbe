/** Selecting one record out of a snapshot: the active candidate pair, and the
    first RTP stream record of a media kind. */
module Selectors {
  import opened Values
  import opened Dicts
  import opened Classify
  import opened Index

  /** A candidate pair whose state is "succeeded". */
  predicate Succeeded(r: Record) {
    r.state == Some("succeeded")
  }

  /** An "in-progress" candidate pair whose currentRoundTripTime is not "NA"
      (a missing one is not "NA", so it qualifies). */
  predicate LiveInProgress(r: Record) {
    r.state == Some("in-progress") && Field(r.fields, "currentRoundTripTime") != NA
  }

  /** The first record at position `i` or later, in key order, that satisfies `p`. */
  function FirstFrom(c: Dict<Record>, i: nat, p: Record -> bool): Option<Record>
    decreases |c| - i
  {
    if i >= |c| then None
    else if p(c[i].1) then Some(c[i].1)
    else FirstFrom(c, i + 1, p)
  }

  /** FirstFrom finds the first match: None exactly when nothing from `i` on
      matches, otherwise the match at the lowest position. */
  lemma {:induction false} FirstFromIsFirst(c: Dict<Record>, i: nat, p: Record -> bool)
    ensures FirstFrom(c, i, p).None? <==> forall k :: i <= k < |c| ==> !p(c[k].1)
    ensures FirstFrom(c, i, p).Some? ==>
      exists k :: i <= k < |c| && p(c[k].1) && FirstFrom(c, i, p) == Some(c[k].1) &&
        forall j :: i <= j < k ==> !p(c[j].1)
    decreases |c| - i
  {
    if i < |c| && !p(c[i].1) {
      FirstFromIsFirst(c, i + 1, p);
    }
  }

  /** getSuccessfulCandidate, as a value. */
  function SuccessfulCandidate(s: Snapshot): Option<Record> {
    match Get(s, "candidate-pair")
    case None => None
    case Some(c) =>
      var ok := FirstFrom(c, 0, Succeeded);
      if ok.Some? then ok else FirstFrom(c, 0, LiveInProgress)
  }

  /** getSuccessfulCandidate: two ordered passes over the candidate pairs with
      early return. */
  method GetSuccessfulCandidate(s: Snapshot) returns (r: Option<Record>)
    ensures r == SuccessfulCandidate(s)
  {
    var cand := Get(s, "candidate-pair");
    if cand.None? {
      return None;
    }
    var c := cand.value;
    for i := 0 to |c|
      invariant FirstFrom(c, 0, Succeeded) == FirstFrom(c, i, Succeeded)
    {
      if c[i].1.state == Some("succeeded") {
        return Some(c[i].1);
      }
    }
    for i := 0 to |c|
      invariant FirstFrom(c, 0, LiveInProgress) == FirstFrom(c, i, LiveInProgress)
    {
      if c[i].1.state == Some("in-progress") && Field(c[i].1.fields, "currentRoundTripTime") != NA {
        return Some(c[i].1);
      }
    }
    return None;
  }

  /** The candidate-pair priority: no "candidate-pair" group gives null; otherwise
      the first "succeeded" pair in key order wins wherever it stands; failing
      that, the first live "in-progress" pair; failing that, null. */
  lemma CandidatePriority(s: Snapshot, c: Dict<Record>)
    requires Get(s, "candidate-pair") == Some(c)
    ensures (exists k :: 0 <= k < |c| && Succeeded(c[k].1)) ==>
      exists k :: 0 <= k < |c| && SuccessfulCandidate(s) == Some(c[k].1) && Succeeded(c[k].1) &&
        forall j :: 0 <= j < k ==> !Succeeded(c[j].1)
    ensures (forall k :: 0 <= k < |c| ==> !Succeeded(c[k].1)) && (exists k :: 0 <= k < |c| && LiveInProgress(c[k].1)) ==>
      exists k :: 0 <= k < |c| && SuccessfulCandidate(s) == Some(c[k].1) && LiveInProgress(c[k].1) &&
        forall j :: 0 <= j < k ==> !LiveInProgress(c[j].1)
    ensures SuccessfulCandidate(s).None? <==>
      forall k :: 0 <= k < |c| ==> !Succeeded(c[k].1) && !LiveInProgress(c[k].1)
  {
    FirstFromIsFirst(c, 0, Succeeded);
    FirstFromIsFirst(c, 0, LiveInProgress);
  }

  /** A snapshot without a "candidate-pair" group has no selected pair. */
  lemma NoPairGroupGivesNull(s: Snapshot)
    ensures Get(s, "candidate-pair").None? ==> SuccessfulCandidate(s).None?
  {
  }

  /** A selected pair is always "succeeded" or live "in-progress", and it is
      "succeeded" whenever any pair of the snapshot is. */
  lemma SelectedPairState(s: Snapshot, c: Dict<Record>)
    requires Get(s, "candidate-pair") == Some(c)
    requires SuccessfulCandidate(s).Some?
    ensures Succeeded(SuccessfulCandidate(s).value) || LiveInProgress(SuccessfulCandidate(s).value)
    ensures (exists k :: 0 <= k < |c| && Succeeded(c[k].1)) ==> Succeeded(SuccessfulCandidate(s).value)
  {
    CandidatePriority(s, c);
  }

  /** The worked example: pairs in states failed, in-progress, succeeded give the
      succeeded one, though a live in-progress pair comes before it. */
  lemma SucceededAmongThree(s: Snapshot, a: Record, b: Record, d: Record)
    requires a.state == Some("failed") && d.state == Some("in-progress") && b.state == Some("succeeded")
    requires Get(s, "candidate-pair") == Some([("a", a), ("d", d), ("b", b)])
    ensures SuccessfulCandidate(s) == Some(b)
  {
    var c := [("a", a), ("d", d), ("b", b)];
    CandidatePriority(s, c);
    assert Succeeded(c[2].1) && !Succeeded(c[0].1) && !Succeeded(c[1].1);
  }

  /** A record of the kind asked for. */
  function OfKind(mediaType: string): Record -> bool {
    (r: Record) => r.mediaType == Some(mediaType)
  }

  /** getRTCStats, as a value. */
  function RTCStats(s: Snapshot, stats: string, mediaType: string): Option<Record> {
    match Get(s, stats)
    case None => None
    case Some(c) => FirstFrom(c, 0, OfKind(mediaType))
  }

  /** getRTCStats: the first record of group `stats`, in key order, whose
      mediaType is the one asked for; None when there is none or no such group. */
  method GetRTCStats(s: Snapshot, stats: string, mediaType: string) returns (r: Option<Record>)
    ensures r == RTCStats(s, stats, mediaType)
    ensures r.Some? ==> r.value.mediaType == Some(mediaType)
    ensures r.None? <==> (Get(s, stats).None? ||
      forall k :: 0 <= k < |Get(s, stats).value| ==> Get(s, stats).value[k].1.mediaType != Some(mediaType))
  {
    var obj := Get(s, stats);
    if obj.Some? {
      var c := obj.value;
      FirstFromIsFirst(c, 0, OfKind(mediaType));
      for i := 0 to |c|
        invariant FirstFrom(c, 0, OfKind(mediaType)) == FirstFrom(c, i, OfKind(mediaType))
      {
        if c[i].1.mediaType == Some(mediaType) {
          return Some(c[i].1);
        }
      }
    }
    return None;
  }
}
