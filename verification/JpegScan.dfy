/**
 * Reading the dimensions of a JPEG image from its frame header: markers may be preceded by fill
 * bytes (section B.1.1.2 of ITU-T T.81), most segments carry their length (B.1.1.4), and the frame
 * header holds the number of lines and the samples per line (B.2.2).
 */
module JpegScan {
  import opened Wrappers

  const MAX_SEGMENTS: nat := 256

  type Byte = b: int | 0 <= b < 256

  type Bytes = seq<Byte>

  datatype Dimensions = Dimensions(width: nat, height: nat)

  predicate IsStartOfFrame(marker: Byte) {
    0xC0 <= marker <= 0xC3 || 0xC5 <= marker <= 0xC7 || 0xC9 <= marker <= 0xCB || 0xCD <= marker <= 0xCF
  }

  predicate IsStandalone(marker: Byte) { 0xD0 <= marker <= 0xD9 }

  /** The markers of the frame headers in table B.1: all from 0xC0 to 0xCF but three. */
  lemma StartOfFrameMarkers(marker: Byte)
    ensures IsStartOfFrame(marker) <==>
            marker in [0xC0, 0xC1, 0xC2, 0xC3, 0xC5, 0xC6, 0xC7, 0xC9, 0xCA, 0xCB, 0xCD, 0xCE, 0xCF]
  {
  }

  /** The markers that stand alone: the restart markers, the start and the end of an image. */
  lemma StandaloneMarkers(marker: Byte)
    ensures IsStandalone(marker) <==>
            marker in [0xD0, 0xD1, 0xD2, 0xD3, 0xD4, 0xD5, 0xD6, 0xD7, 0xD8, 0xD9]
  {
  }

  function BigEndian(bytes: Bytes, at: nat): Option<nat> {
    if at + 2 <= |bytes| then Some((bytes[at] as int) * 256 + bytes[at + 1] as int) else None
  }

  // ---------------------------------------------------------------- the scan

  predicate AtFill(bytes: Bytes, at: nat) {
    at + 1 < |bytes| && bytes[at] == 0xFF && bytes[at + 1] == 0xFF
  }

  function SkipFill(bytes: Bytes, at: nat): (next: nat)
    ensures next >= at
    decreases if at < |bytes| then |bytes| - at else 0
  {
    if AtFill(bytes, at) then SkipFill(bytes, at + 1) else at
  }

  /** Only fill bytes are skipped, and no further than the end. */
  lemma {:induction false} SkippedAreFill(bytes: Bytes, at: nat)
    requires at <= |bytes|
    ensures at <= SkipFill(bytes, at) <= |bytes|
    ensures bytes[at..] == Fill(SkipFill(bytes, at) - at) + bytes[SkipFill(bytes, at)..]
    decreases |bytes| - at
  {
    if AtFill(bytes, at) {
      SkippedAreFill(bytes, at + 1);
      assert bytes[at..] == [0xFF] + bytes[at + 1..];
    }
  }

  /** What the scan finds at one marker: the frame, the offset of the next segment, or nothing. */
  datatype Found = Frame(dimensions: Dimensions) | Next(offset: nat) | Nothing

  /** What the scan finds at the marker at this offset, fill bytes being skipped. */
  function ReadMarker(bytes: Bytes, at: nat): Found {
    if at + 1 >= |bytes| || bytes[at] != 0xFF then Nothing
    else
      var marker := bytes[at + 1];
      if IsStartOfFrame(marker) then
        var height, width := BigEndian(bytes, at + 5), BigEndian(bytes, at + 7);
        if height.Some? && width.Some? then Frame(Dimensions(width.value, height.value)) else Nothing
      else if IsStandalone(marker) then Next(at + 2)
      else
        var length := BigEndian(bytes, at + 2);
        if length.None? || length.value < 2 then Nothing else Next(at + 2 + length.value)
  }

  /** The scan from this offset on; every marker read moves it on strictly. */
  function Scan(bytes: Bytes, at: nat, budget: nat): Option<Dimensions>
    decreases if at < |bytes| then |bytes| - at else 0
  {
    if budget == 0 then None
    else
      match ReadMarker(bytes, SkipFill(bytes, at))
      case Frame(d) => Some(d)
      case Next(offset) => Scan(bytes, offset, budget - 1)
      case Nothing => None
  }

  method SkipFillBytes(bytes: Bytes, from: nat) returns (offset: nat)
    ensures offset == SkipFill(bytes, from) && offset >= from
  {
    offset := from;
    while AtFill(bytes, offset)
      invariant SkipFill(bytes, offset) == SkipFill(bytes, from) && offset >= from
      decreases |bytes| - offset
    {
      offset := offset + 1;
    }
  }

  /** The marker at this offset: its branches read no byte out of range, and move on strictly. */
  method ReadMarkerAt(bytes: Bytes, offset: nat) returns (found: Found)
    ensures found == ReadMarker(bytes, offset)
    ensures found.Next? ==> found.offset >= offset + 2
  {
    if offset >= |bytes| || bytes[offset] != 0xFF || offset + 1 >= |bytes| {
      return Nothing;
    }
    var marker := bytes[offset + 1];
    if IsStartOfFrame(marker) {
      var height := BigEndian(bytes, offset + 5);
      if height.None? {
        return Nothing;
      }
      var width := BigEndian(bytes, offset + 7);
      return if width.None? then Nothing else Frame(Dimensions(width.value, height.value));
    }
    if IsStandalone(marker) {
      return Next(offset + 2);
    }
    var length := BigEndian(bytes, offset + 2);
    if length.None? || length.value < 2 {
      return Nothing;
    }
    found := Next(offset + 2 + length.value);
  }

  /** The loop over segments. */
  method JpegDimensions(bytes: Bytes) returns (found: Option<Dimensions>)
    ensures found == Scan(bytes, 2, MAX_SEGMENTS)
  {
    var offset := 2;
    var segment := 0;
    while segment < MAX_SEGMENTS
      invariant segment <= MAX_SEGMENTS
      invariant Scan(bytes, offset, MAX_SEGMENTS - segment) == Scan(bytes, 2, MAX_SEGMENTS)
    {
      var marker := SkipFillBytes(bytes, offset);
      var read := ReadMarkerAt(bytes, marker);
      if read.Nothing? {
        return None;
      }
      if read.Frame? {
        return Some(read.dimensions);
      }
      offset := read.offset;
      segment := segment + 1;
    }
    found := None;
  }

  // ---------------------------------------------------------------- the layout

  /** A marker segment other than a frame header, with the fill bytes before it. */
  datatype Segment = Standalone(fill: nat, marker: Byte) | Sized(fill: nat, marker: Byte, payload: Bytes)

  datatype Header = Header(fill: nat, marker: Byte, length: Bytes, precision: Byte, dimensions: Dimensions)

  predicate ValidSegment(s: Segment) {
    match s
    case Standalone(_, marker) => IsStandalone(marker)
    case Sized(_, marker, payload) =>
      !IsStandalone(marker) && !IsStartOfFrame(marker) && marker != 0xFF && |payload| + 2 < 0x1_0000
  }

  predicate ValidHeader(h: Header) {
    && IsStartOfFrame(h.marker) && |h.length| == 2
    && h.dimensions.width < 0x1_0000 && h.dimensions.height < 0x1_0000
  }

  function Fill(n: nat): Bytes { seq(n, i => 0xFF) }

  function Word(v: nat): (b: Bytes)
    requires v < 0x1_0000
  {
    [v / 256, v % 256]
  }

  /** The bytes of a segment without the fill before it. */
  function Bare(s: Segment): Bytes
    requires ValidSegment(s)
  {
    match s
    case Standalone(_, marker) => [0xFF, marker]
    case Sized(_, marker, payload) => [0xFF, marker] + Word(|payload| + 2) + payload
  }

  function SegmentBytes(s: Segment): Bytes
    requires ValidSegment(s)
  {
    Fill(s.fill) + Bare(s)
  }

  /** The bytes of a frame header without the fill before it. */
  function BareHeader(h: Header): Bytes
    requires ValidHeader(h)
  {
    [0xFF, h.marker] + h.length + [h.precision] + Word(h.dimensions.height) + Word(h.dimensions.width)
  }

  function HeaderBytes(h: Header): Bytes
    requires ValidHeader(h)
  {
    Fill(h.fill) + BareHeader(h)
  }

  predicate SegmentStands(bytes: Bytes, at: nat, s: Segment) {
    && ValidSegment(s) && at + |SegmentBytes(s)| <= |bytes|
    && bytes[at..at + |SegmentBytes(s)|] == SegmentBytes(s)
  }

  predicate HeaderStands(bytes: Bytes, at: nat, h: Header) {
    && ValidHeader(h) && at + |HeaderBytes(h)| <= |bytes|
    && bytes[at..at + |HeaderBytes(h)|] == HeaderBytes(h)
  }

  /** From this offset on stand these segments, one right after the other, then the frame header. */
  predicate LaidOut(bytes: Bytes, at: nat, segments: seq<Segment>, h: Header)
    decreases |segments|
  {
    if segments == [] then HeaderStands(bytes, at, h)
    else SegmentStands(bytes, at, segments[0]) && LaidOut(bytes, at + |SegmentBytes(segments[0])|, segments[1..], h)
  }

  // ---------------------------------------------------------------- scanning inverts the layout

  /** The marker that begins a text, with offsets counted from there. */
  function ReadStart(text: Bytes): Found { ReadMarker(text, 0) }

  function Shift(f: Found, distance: nat): Found {
    if f.Next? then Next(f.offset + distance) else f
  }

  lemma BigEndianOfRest(bytes: Bytes, at: nat, k: nat)
    requires at <= |bytes|
    ensures BigEndian(bytes, at + k) == BigEndian(bytes[at..], k)
  {
  }

  lemma Associative(a: Bytes, b: Bytes, c: Bytes)
    ensures a + (b + c) == a + b + c
  {
  }

  /** Reading a marker only depends on what follows it. */
  lemma ReadMarkerOfRest(bytes: Bytes, at: nat)
    requires at <= |bytes|
    ensures ReadMarker(bytes, at) == Shift(ReadStart(bytes[at..]), at)
  {
    BigEndianOfRest(bytes, at, 2);
    BigEndianOfRest(bytes, at, 5);
    BigEndianOfRest(bytes, at, 7);
  }

  /** The fill bytes before a marker are skipped. */
  lemma {:induction false} SkipsFill(bytes: Bytes, at: nat, fill: nat, tail: Bytes)
    requires at <= |bytes| && bytes[at..] == Fill(fill) + tail
    requires |tail| >= 2 && tail[0] == 0xFF && tail[1] != 0xFF
    ensures at + fill <= |bytes| && SkipFill(bytes, at) == at + fill && bytes[at + fill..] == tail
    decreases fill
  {
    var here := bytes[at..];
    assert bytes[at] == here[0] && bytes[at + 1] == here[1];
    if fill == 0 {
      assert here == tail;
    } else {
      assert here[1] == 0xFF by {
        if fill == 1 { assert here[1] == tail[0]; }
      }
      assert bytes[at + 1..] == here[1..] == Fill(fill - 1) + tail;
      SkipsFill(bytes, at + 1, fill - 1, tail);
    }
  }

  lemma WordReads(text: Bytes, at: nat, v: nat)
    requires v < 0x1_0000 && at + 2 <= |text| && text[at..at + 2] == Word(v)
    ensures BigEndian(text, at) == Some(v)
  {
    assert text[at] == text[at..at + 2][0] && text[at + 1] == text[at..at + 2][1];
  }

  lemma ReadsSegment(s: Segment, rest: Bytes)
    requires ValidSegment(s)
    ensures ReadStart(Bare(s) + rest) == Next(|Bare(s)|)
    ensures |Bare(s)| >= 2 && Bare(s)[0] == 0xFF && Bare(s)[1] != 0xFF
  {
    var text := Bare(s) + rest;
    if s.Sized? {
      assert text[2..4] == Word(|s.payload| + 2);
      WordReads(text, 2, |s.payload| + 2);
    }
  }

  /** A segment leads to the offset right behind it. */
  lemma ScansSegment(bytes: Bytes, at: nat, s: Segment)
    requires SegmentStands(bytes, at, s)
    ensures ReadMarker(bytes, SkipFill(bytes, at)) == Next(at + |SegmentBytes(s)|)
  {
    var rest := bytes[at + |SegmentBytes(s)|..];
    ReadsSegment(s, rest);
    assert bytes[at..] == SegmentBytes(s) + rest;
    Associative(Fill(s.fill), Bare(s), rest);
    SkipsFill(bytes, at, s.fill, Bare(s) + rest);
    ReadMarkerOfRest(bytes, at + s.fill);
  }

  lemma ReadsHeader(h: Header, rest: Bytes)
    requires ValidHeader(h)
    ensures ReadStart(BareHeader(h) + rest) == Frame(h.dimensions)
  {
    var text := BareHeader(h) + rest;
    assert text[5..7] == Word(h.dimensions.height);
    assert text[7..9] == Word(h.dimensions.width);
    WordReads(text, 5, h.dimensions.height);
    WordReads(text, 7, h.dimensions.width);
  }

  lemma ScansHeader(bytes: Bytes, at: nat, h: Header)
    requires HeaderStands(bytes, at, h)
    ensures ReadMarker(bytes, SkipFill(bytes, at)) == Frame(h.dimensions)
  {
    var rest := bytes[at + |HeaderBytes(h)|..];
    ReadsHeader(h, rest);
    assert bytes[at..] == HeaderBytes(h) + rest;
    Associative(Fill(h.fill), BareHeader(h), rest);
    SkipsFill(bytes, at, h.fill, BareHeader(h) + rest);
    ReadMarkerOfRest(bytes, at + h.fill);
  }

  /** The scan passes from one offset to the next. */
  predicate Leads(bytes: Bytes, from: nat, next: nat) {
    ReadMarker(bytes, SkipFill(bytes, from)) == Next(next)
  }

  predicate Ends(bytes: Bytes, at: nat, d: Dimensions) {
    ReadMarker(bytes, SkipFill(bytes, at)) == Frame(d)
  }

  predicate Trace(bytes: Bytes, offsets: seq<nat>, d: Dimensions) {
    && offsets != [] && Ends(bytes, offsets[|offsets| - 1], d)
    && forall i :: 0 <= i < |offsets| - 1 ==> Leads(bytes, offsets[i], offsets[i + 1])
  }

  lemma TraceGrows(bytes: Bytes, at: nat, more: seq<nat>, d: Dimensions)
    requires Trace(bytes, more, d) && Leads(bytes, at, more[0])
    ensures Trace(bytes, [at] + more, d)
  {
    var offsets := [at] + more;
    forall i | 0 <= i < |offsets| - 1 ensures Leads(bytes, offsets[i], offsets[i + 1]) {
      if i > 0 {
        assert Leads(bytes, more[i - 1], more[i]);
      }
    }
  }

  /** The segments of a layout are passed one by one, and the header ends the scan. */
  lemma {:induction false} TraceOfLayout(bytes: Bytes, at: nat, segments: seq<Segment>, h: Header) returns (offsets: seq<nat>)
    requires LaidOut(bytes, at, segments, h)
    ensures Trace(bytes, offsets, h.dimensions) && |offsets| == |segments| + 1 && offsets[0] == at
    decreases |segments|
  {
    if segments == [] {
      ScansHeader(bytes, at, h);
      offsets := [at];
    } else {
      var next := at + |SegmentBytes(segments[0])|;
      ScansSegment(bytes, at, segments[0]);
      var more := TraceOfLayout(bytes, next, segments[1..], h);
      TraceGrows(bytes, at, more, h.dimensions);
      offsets := [at] + more;
    }
  }

  lemma ScanLeads(bytes: Bytes, at: nat, budget: nat, next: nat)
    requires Leads(bytes, at, next) && budget > 0
    ensures Scan(bytes, at, budget) == Scan(bytes, next, budget - 1)
  {
  }

  lemma ScanEnds(bytes: Bytes, at: nat, budget: nat, d: Dimensions)
    requires Ends(bytes, at, d)
    ensures Scan(bytes, at, budget) == if budget > 0 then Some(d) else None
  {
  }

  lemma {:induction false} ScanOfTrace(bytes: Bytes, offsets: seq<nat>, d: Dimensions, budget: nat)
    requires Trace(bytes, offsets, d)
    ensures Scan(bytes, offsets[0], budget) == if |offsets| <= budget then Some(d) else None
    decreases |offsets|
  {
    if |offsets| == 1 {
      ScanEnds(bytes, offsets[0], budget, d);
    } else if budget > 0 {
      assert Leads(bytes, offsets[0], offsets[1]);
      ScanLeads(bytes, offsets[0], budget, offsets[1]);
      ScanOfTrace(bytes, offsets[1..], d, budget - 1);
    }
  }

  /** The scan of a layout finds its frame exactly when the budget outlasts the segments. */
  lemma ScanOfLayout(bytes: Bytes, at: nat, budget: nat, segments: seq<Segment>, h: Header)
    requires LaidOut(bytes, at, segments, h)
    ensures Scan(bytes, at, budget) == if |segments| < budget then Some(h.dimensions) else None
  {
    var offsets := TraceOfLayout(bytes, at, segments, h);
    ScanOfTrace(bytes, offsets, h.dimensions, budget);
  }

  // ---------------------------------------------------------------- and only the layout is accepted

  lemma WordOf(hi: Byte, lo: Byte)
    ensures Word(hi as int * 256 + lo as int) == [hi, lo]
  {
  }

  /** Where a text's marker leads on within the text, the text begins with a valid segment. */
  lemma SegmentAtStart(text: Bytes, fill: nat, behind: nat) returns (s: Segment)
    requires ReadStart(text) == Next(behind) && behind <= |text| && (text[1] != 0xFF)
    ensures ValidSegment(s) && s.fill == fill && text == Bare(s) + text[behind..]
  {
    if IsStandalone(text[1]) {
      s := Standalone(fill, text[1]);
    } else {
      s := Sized(fill, text[1], text[4..behind]);
      WordOf(text[2], text[3]);
    }
  }

  lemma HeaderAtStart(text: Bytes, fill: nat, d: Dimensions) returns (h: Header)
    requires ReadStart(text) == Frame(d)
    ensures ValidHeader(h) && h.fill == fill && h.dimensions == d && |text| >= 9 && text == BareHeader(h) + text[9..]
  {
    h := Header(fill, text[1], text[2..4], text[4], d);
    WordOf(text[5], text[6]);
    WordOf(text[7], text[8]);
  }

  lemma NotFillAfterSkip(bytes: Bytes, at: nat)
    requires at <= |bytes|
    ensures !AtFill(bytes, SkipFill(bytes, at))
    decreases |bytes| - at
  {
    if AtFill(bytes, at) {
      NotFillAfterSkip(bytes, at + 1);
    }
  }

  /** Behind the fill, a marker that leads on is not a fill byte. */
  lemma MarkerAfterFill(bytes: Bytes, marker: nat, behind: nat)
    requires ReadMarker(bytes, marker) == Next(behind) && !AtFill(bytes, marker)
    ensures marker + 1 < |bytes| && bytes[marker..][1] != 0xFF && behind >= marker + 2
  {
  }

  /** Where a marker leads on, a valid segment stands. */
  lemma SegmentBehindFill(bytes: Bytes, marker: nat, fill: nat, behind: nat) returns (s: Segment)
    requires marker <= |bytes| && ReadMarker(bytes, marker) == Next(behind) && behind <= |bytes| && !AtFill(bytes, marker)
    ensures ValidSegment(s) && s.fill == fill && bytes[marker..] == Bare(s) + bytes[behind..]
  {
    MarkerAfterFill(bytes, marker, behind);
    ReadMarkerOfRest(bytes, marker);
    s := SegmentAtStart(bytes[marker..], fill, behind - marker);
    assert bytes[marker..][behind - marker..] == bytes[behind..];
  }

  /** Where the scan moves on, there is a valid segment. */
  lemma SegmentAt(bytes: Bytes, at: nat, behind: nat) returns (s: Segment)
    requires at <= |bytes| && ReadMarker(bytes, SkipFill(bytes, at)) == Next(behind) && behind <= |bytes|
    ensures SegmentStands(bytes, at, s) && behind == at + |SegmentBytes(s)|
  {
    var marker := SkipFill(bytes, at);
    SkippedAreFill(bytes, at);
    NotFillAfterSkip(bytes, at);
    s := SegmentBehindFill(bytes, marker, marker - at, behind);
    Associative(Fill(s.fill), Bare(s), bytes[behind..]);
    PrefixStands(bytes, at, SegmentBytes(s), bytes[behind..]);
  }

  lemma PrefixStands(bytes: Bytes, at: nat, part: Bytes, rest: Bytes)
    requires at <= |bytes| && bytes[at..] == part + rest
    ensures at + |part| <= |bytes| && bytes[at..at + |part|] == part
  {
    assert bytes[at..][..|part|] == part;
  }

  /** Where the scan finds a frame, there is a frame header with these dimensions. */
  lemma HeaderAt(bytes: Bytes, at: nat, d: Dimensions) returns (h: Header)
    requires at <= |bytes| && ReadMarker(bytes, SkipFill(bytes, at)) == Frame(d)
    ensures HeaderStands(bytes, at, h) && h.dimensions == d
  {
    var marker := SkipFill(bytes, at);
    SkippedAreFill(bytes, at);
    ReadMarkerOfRest(bytes, marker);
    h := HeaderAtStart(bytes[marker..], marker - at, d);
    Associative(Fill(h.fill), BareHeader(h), bytes[marker..][9..]);
    PrefixStands(bytes, at, HeaderBytes(h), bytes[marker..][9..]);
  }

  /** Past the end there is nothing to find. */
  lemma NothingPastTheEnd(bytes: Bytes, at: nat, budget: nat)
    requires at > |bytes|
    ensures Scan(bytes, at, budget) == None
  {
  }

  /** Whatever the scan finds, it found at the end of a layout within its budget. */
  lemma {:induction false} LayoutOfScan(bytes: Bytes, at: nat, budget: nat) returns (segments: seq<Segment>, h: Header)
    requires at <= |bytes| && Scan(bytes, at, budget).Some?
    ensures LaidOut(bytes, at, segments, h) && |segments| < budget
    ensures Scan(bytes, at, budget) == Some(h.dimensions)
    decreases budget
  {
    match ReadMarker(bytes, SkipFill(bytes, at))
    case Frame(d) =>
      segments := [];
      h := HeaderAt(bytes, at, d);
    case Next(behind) =>
      if behind > |bytes| {
        NothingPastTheEnd(bytes, behind, budget - 1);
      }
      var s := SegmentAt(bytes, at, behind);
      var more: seq<Segment>;
      more, h := LayoutOfScan(bytes, behind, budget - 1);
      segments := [s] + more;
      assert segments[1..] == more;
  }

  // ---------------------------------------------------------------- main result

  ghost predicate HasFrame(bytes: Bytes, d: Dimensions) {
    exists segments, h :: LaidOut(bytes, 2, segments, h) && |segments| < 256 && h.dimensions == d
  }

  /** The scan yields dimensions exactly for those bytes that are laid out with them. */
  lemma DimensionsIffLaidOut(bytes: Bytes, d: Dimensions)
    ensures Scan(bytes, 2, MAX_SEGMENTS) == Some(d) <==> HasFrame(bytes, d)
  {
    if Scan(bytes, 2, MAX_SEGMENTS) == Some(d) {
      if |bytes| < 2 {
        NothingPastTheEnd(bytes, 2, MAX_SEGMENTS);
      }
      var segments, h := LayoutOfScan(bytes, 2, MAX_SEGMENTS);
    }
    if HasFrame(bytes, d) {
      var segments, h :| LaidOut(bytes, 2, segments, h) && |segments| < 256 && h.dimensions == d;
      ScanOfLayout(bytes, 2, MAX_SEGMENTS, segments, h);
    }
  }
}
