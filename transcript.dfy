/** The transcript text: the texts of the caption segments the transcript
    service returns, in order, joined by single spaces. */
module Transcript {
  import opened PyStrings

  /** One caption unit; its timing is carried but never read. */
  datatype Segment = Segment(text: string, start: real, duration: real)

  /** `[i["text"] for i in segments]`. */
  function Texts(segments: seq<Segment>): (r: seq<string>)
    ensures |r| == |segments|
    ensures forall i | 0 <= i < |r| :: r[i] == segments[i].text
  {
    seq(|segments|, i requires 0 <= i < |segments| => segments[i].text)
  }

  /** `" ".join(texts)`: when no text holds a space, splitting on spaces
      gives the texts back. */
  function JoinSpace(texts: seq<string>): (r: string)
    ensures |texts| > 0 && (forall i | 0 <= i < |texts| :: ' ' !in texts[i]) ==>
              Split(r, " ") == texts
  {
    if |texts| > 0 && (forall i | 0 <= i < |texts| :: ' ' !in texts[i]) then
      SplitJoin(texts, " ");
      Join(texts, " ")
    else
      Join(texts, " ")
  }

  /** The transcript text of a list of segments: when no segment text holds
      a space, splitting it on spaces gives the segment texts back. */
  function TranscriptText(segments: seq<Segment>): (r: string)
    ensures |segments| > 0 && (forall i | 0 <= i < |segments| :: ' ' !in segments[i].text) ==>
              Split(r, " ") == Texts(segments)
  {
    JoinSpace(Texts(segments))
  }

  /** The empty list joins to the empty string, one text to itself. */
  lemma JoinSpaceShort(s: string)
    ensures JoinSpace([]) == ""
    ensures JoinSpace([s]) == s
  {
  }

  /** A further segment appends a space and its text. */
  lemma JoinSpaceSnoc(texts: seq<string>, x: string)
    requires |texts| > 0
    ensures JoinSpace(texts + [x]) == JoinSpace(texts) + " " + x
  {
    JoinSnoc(texts, x, " ");
  }

  /** The joined length is the texts' total plus one space between each
      pair of neighbours. */
  lemma JoinSpaceLength(texts: seq<string>)
    requires |texts| > 0
    ensures |JoinSpace(texts)| == TotalLength(texts) + |texts| - 1
  {
    JoinLength(texts, " ");
  }

  /** `["a", "b", "c"]` joins to `"a b c"`. */
  lemma JoinSpaceExample()
    ensures JoinSpace(["a", "b", "c"]) == "a b c"
  {
    assert ["a", "b", "c"][1..] == ["b", "c"];
    assert ["b", "c"][1..] == ["c"];
  }

  /** The transcript text is empty exactly when there are no segments or a
      single segment with empty text: two empty texts already give `" "`. */
  lemma TranscriptEmptyIff(segments: seq<Segment>)
    ensures TranscriptText(segments) == "" <==>
            |segments| == 0 || (|segments| == 1 && segments[0].text == "")
  {
    var texts := Texts(segments);
    if |segments| > 0 {
      JoinSpaceLength(texts);
      if |segments| == 1 {
        assert texts == [segments[0].text];
      }
    }
  }

  /** The transcript text depends on the segment texts only, not on their
      timing. */
  lemma TranscriptIgnoresTiming(a: seq<Segment>, b: seq<Segment>)
    requires |a| == |b|
    requires forall i | 0 <= i < |a| :: a[i].text == b[i].text
    ensures TranscriptText(a) == TranscriptText(b)
  {
    assert Texts(a) == Texts(b);
  }
}
