/** The record classifier: the allow-list test and the dispatch from a raw entry's
    `type` tag to a record class. */
module Classify {
  import opened Values

  /** One entry of a getStats() report. `state` and `mediaType` are None when the
      entry does not carry them. */
  datatype RawEntry = RawEntry(
    tag: string,
    id: string,
    state: Option<string>,
    mediaType: Option<string>,
    fields: Fields)

  /** The record classes an entry can be turned into; an RTP stream remembers
      whether it is inbound. */
  datatype StatClass =
    | Codec
    | MediaStream
    | RtpStream(inbound: bool)
    | PeerConnection
    | Transport
    | IceCandidatePair
    | IceCandidate

  /** A classified record as it is stored in a snapshot. */
  datatype Record = Record(
    cls: StatClass,
    id: string,
    state: Option<string>,
    mediaType: Option<string>,
    fields: Fields)

  /** The ten tags the classifier recognises. */
  const KnownTags: seq<string> := [
    "codec", "track", "stream", "inbound-rtp", "outbound-rtp", "peer-connection",
    "transport", "candidate-pair", "remote-candidate", "local-candidate"]

  /** The `switch (type)` of the classifier; "track" entries get the codec class and
      unknown tags get none. */
  function ClassOf(t: string): (c: Option<StatClass>)
    ensures c.Some? <==> t in KnownTags
    ensures t == "track" ==> c == Some(Codec)
    ensures t == "inbound-rtp" ==> c == Some(RtpStream(true))
    ensures t == "outbound-rtp" ==> c == Some(RtpStream(false))
  {
    match t
    case "codec" => Some(Codec)
    case "track" => Some(Codec)
    case "stream" => Some(MediaStream)
    case "inbound-rtp" => Some(RtpStream(true))
    case "outbound-rtp" => Some(RtpStream(false))
    case "peer-connection" => Some(PeerConnection)
    case "transport" => Some(Transport)
    case "candidate-pair" => Some(IceCandidatePair)
    case "remote-candidate" => Some(IceCandidate)
    case "local-candidate" => Some(IceCandidate)
    case _ => None
  }

  /** The record a class constructor builds from a raw entry. The constructors'
      own field selection is not part of this model: the field map is kept as is. */
  function Build(cls: StatClass, e: RawEntry): Record
  {
    Record(cls, e.id, e.state, e.mediaType, e.fields)
  }

  /** The JSON text of the allow-list: "null", or the quoted names between brackets,
      separated by commas (no escaping). */
  function Render(selected: Option<seq<string>>): string {
    match selected
    case None => "null"
    case Some(names) => "[" + JoinQuoted(names) + "]"
  }

  function JoinQuoted(names: seq<string>): string {
    if names == [] then ""
    else if |names| == 1 then "\"" + names[0] + "\""
    else "\"" + names[0] + "\"," + JoinQuoted(names[1..])
  }

  /** `s.indexOf(t) != -1`: `t` occurs in `s` as a contiguous piece. */
  predicate Contains(s: string, t: string) {
    t <= s || (s != [] && Contains(s[1..], t))
  }

  /** The allow-list test applied to the rendering of the list. */
  predicate PassesRendered(rendered: string, t: string) {
    rendered == "null" || |rendered| == 0 || Contains(rendered, t)
  }

  predicate Passes(selected: Option<seq<string>>, t: string) {
    PassesRendered(Render(selected), t)
  }

  /** An entry is kept when it passes the allow-list and its tag has a class. */
  predicate IsKept(selected: Option<seq<string>>, e: RawEntry) {
    Passes(selected, e.tag) && ClassOf(e.tag).Some?
  }

  lemma {:induction false} ContainsMiddle(a: string, t: string, b: string)
    ensures Contains(a + t + b, t)
  {
    if a != [] {
      assert (a + t + b)[1..] == a[1..] + t + b;
      ContainsMiddle(a[1..], t, b);
    } else {
      assert a + t + b == t + b;
    }
  }

  /** Every listed name occurs in the rendering between quotes: `a` and `b` are
      what comes before and after it. */
  lemma {:induction false} RenderedNamesOccur(names: seq<string>, k: nat) returns (a: string, b: string)
    requires k < |names|
    ensures JoinQuoted(names) == a + "\"" + names[k] + "\"" + b
  {
    if |names| == 1 {
      a, b := [], [];
    } else if k == 0 {
      a, b := [], "," + JoinQuoted(names[1..]);
    } else {
      var a', b' := RenderedNamesOccur(names[1..], k - 1);
      var pre := "\"" + names[0] + "\",";
      assert JoinQuoted(names) == pre + JoinQuoted(names[1..]);
      assert names[1..][k - 1] == names[k];
      a, b := pre + a', b';
      assert pre + (a' + "\"" + names[k] + "\"" + b') == (pre + a') + "\"" + names[k] + "\"" + b';
    }
  }

  /** A tag named in the allow-list always passes, and so does every tag when
      there is no list. */
  lemma ListedTagsPass(selected: Option<seq<string>>, t: string)
    requires selected.None? || t in selected.value
    ensures Passes(selected, t)
  {
    if selected.Some? {
      var names := selected.value;
      var k :| 0 <= k < |names| && names[k] == t;
      var a, b := RenderedNamesOccur(names, k);
      assert Render(selected) == ("[" + a + "\"") + t + ("\"" + b + "]");
      ContainsMiddle("[" + a + "\"", t, "\"" + b + "]");
    }
  }

  /** The test is a substring search, not membership: a list naming only "codecs"
      lets "codec" entries through. */
  lemma SubstringNotMembership()
    ensures Passes(Some(["codecs"]), "codec") && "codec" !in ["codecs"]
  {
    ContainsMiddle("[\"", "codec", "s\"]");
    assert Render(Some(["codecs"])) == "[\"" + "codec" + "s\"]";
  }

  /** An empty allow-list drops every entry of a known type. */
  lemma EmptyListDropsAll(t: string)
    requires t in KnownTags
    ensures !Passes(Some([]), t)
  {
    assert Render(Some([])) == "[]";
    assert |t| >= 5;
    assert !(t <= "[]");
    assert "[]"[1..] == "]";
    assert !(t <= "]");
    assert "]"[1..] == "";
    assert !Contains("", t);
  }
}
