/**
 * The multipart MJPEG framing of the streaming response: every encoded frame
 * travels as one part, a boundary line and a content-type header in front of
 * the JPEG bytes and a line break after them. No Content-Length header is sent.
 */
module Mjpeg {
  import opened Options
  import opened Frames

  /** The bytes of a 7-bit ASCII string, one per character. */
  function Ascii(s: string): (r: seq<byte>)
    requires forall i :: 0 <= i < |s| ==> s[i] as int < 128
    ensures |r| == |s| && forall i :: 0 <= i < |s| ==> r[i] as int == s[i] as int
  {
    seq(|s|, i requires 0 <= i < |s| => s[i] as int as byte)
  }

  /** The multipart boundary token, and the response's media type that announces it. */
  const BOUNDARY: string := "frame"
  const MIMETYPE: string := "multipart/x-mixed-replace; boundary=" + BOUNDARY

  const CRLF: string := "\r\n"

  /** The delimiter line opening every part, and the part's header block. */
  const DELIMITER: string := "--" + BOUNDARY + CRLF
  const PART_HEADER: string := "Content-Type: image/jpeg" + CRLF + CRLF

  /** The bytes in front of every part's payload. */
  const PREFIX: seq<byte> := Ascii(DELIMITER + PART_HEADER)

  /** The line break after every part's payload. */
  const SUFFIX: seq<byte> := Ascii(CRLF)

  /** The media type spelled out. */
  lemma MimetypeText()
    ensures MIMETYPE == "multipart/x-mixed-replace; boundary=frame"
  {
  }

  /** The delimiter line and the part header spelled out. */
  lemma PartLinesText()
    ensures DELIMITER == "--frame\r\n"
    ensures PART_HEADER == "Content-Type: image/jpeg\r\n\r\n"
  {
  }

  /**
   * Spelled out, the framing is the fixed text the response writes around each
   * frame: the delimiter line and the part header in front (37 bytes), a line
   * break (2 bytes) after.
   */
  lemma FramingText()
    ensures PREFIX == Ascii("--frame\r\n") + Ascii("Content-Type: image/jpeg\r\n\r\n")
    ensures SUFFIX == Ascii("\r\n")
    ensures |PREFIX| == 37 && |SUFFIX| == 2
  {
    PartLinesText();
    AsciiConcat(DELIMITER, PART_HEADER);
  }

  /** Every part opens with the delimiter line that the media type's boundary announces. */
  lemma PrefixOpensWithDelimiter()
    ensures PREFIX[..|DELIMITER|] == Ascii(DELIMITER)
  {
    AsciiConcat(DELIMITER, PART_HEADER);
  }

  lemma AsciiConcat(a: string, b: string)
    requires forall i :: 0 <= i < |a| ==> a[i] as int < 128
    requires forall i :: 0 <= i < |b| ==> b[i] as int < 128
    ensures Ascii(a + b) == Ascii(a) + Ascii(b)
  {
    assert forall i :: 0 <= i < |a + b| ==> (a + b)[i] as int < 128;
    assert Ascii(a + b) == Ascii(a) + Ascii(b);
  }

  /** One part of the response body, carrying `payload`. */
  function Segment(payload: seq<byte>): (r: seq<byte>)
    ensures |r| == |PREFIX| + |payload| + |SUFFIX|
    ensures r[..|PREFIX|] == PREFIX && r[|r| - |SUFFIX|..] == SUFFIX
  {
    PREFIX + payload + SUFFIX
  }

  /** A receiver's view of one part: the payload between prefix and suffix, if both are there. */
  function Unframe(s: seq<byte>): (r: Option<seq<byte>>)
    ensures r.Some? <==>
      |s| >= |PREFIX| + |SUFFIX| && s[..|PREFIX|] == PREFIX && s[|s| - |SUFFIX|..] == SUFFIX
    ensures r.Some? ==> |r.value| == |s| - |PREFIX| - |SUFFIX|
  {
    if |s| >= |PREFIX| + |SUFFIX| && s[..|PREFIX|] == PREFIX && s[|s| - |SUFFIX|..] == SUFFIX
    then Some(s[|PREFIX|..|s| - |SUFFIX|])
    else None
  }

  /** Stripping the framing recovers the payload, whatever bytes it holds. */
  lemma UnframeSegment(payload: seq<byte>)
    ensures Unframe(Segment(payload)) == Some(payload)
  {
    var s := Segment(payload);
    assert s[|PREFIX|..|s| - |SUFFIX|] == payload;
  }

  /** Any well-framed part is exactly the segment of the payload it carries. */
  lemma SegmentUnframe(s: seq<byte>)
    requires Unframe(s).Some?
    ensures Segment(Unframe(s).value) == s
  {
    var p := Unframe(s).value;
    assert s == s[..|PREFIX|] + p + s[|s| - |SUFFIX|..];
  }

  /** Different payloads give different parts. */
  lemma SegmentInjective(p: seq<byte>, q: seq<byte>)
    requires Segment(p) == Segment(q)
    ensures p == q
  {
    UnframeSegment(p);
    UnframeSegment(q);
  }
}
