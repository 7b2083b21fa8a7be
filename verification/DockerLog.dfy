/**
 Stripping the frame headers that Docker puts around container output.  A frame is a
 stream byte, three zero bytes, the payload length as a big-endian 32-bit number and the
 payload.
 */
module DockerLog {
  import opened Text

  type Byte = b: int | 0 <= b < 256

  // ---- The code ----

  function ReadUInt32(buf: seq<Byte>, at: nat): nat
    requires at + 4 <= |buf|
  {
    (buf[at] as int) * 16777216 + (buf[at + 1] as int) * 65536 + (buf[at + 2] as int) * 256 + buf[at + 3] as int
  }

  /** The entries of the rest of a buffer; `decode` is the UTF-8 decoding, kept abstract. */
  function Strip(buf: seq<Byte>, decode: seq<Byte> -> string): seq<string>
    decreases |buf|
  {
    if |buf| == 0 then []
    else if |buf| < 8 then [TrimEnd(decode(buf))]
    else
      var size := ReadUInt32(buf, 4);
      if size == 0 || 8 + size > |buf| then [TrimEnd(decode(buf[8..]))]
      else Entry(buf[8..8 + size], decode) + Strip(buf[8 + size..], decode)
  }

  function Entry(payload: seq<Byte>, decode: seq<Byte> -> string): seq<string> {
    var line := TrimEnd(decode(payload));
    if |line| == 0 then [] else [line]
  }

  /** Reading at an offset is reading the rest of the buffer from its start. */
  lemma RestOf(buf: seq<Byte>, offset: nat)
    requires offset + 8 <= |buf|
    ensures
      var rest := buf[offset..];
      var size := ReadUInt32(buf, offset + 4);
      && size == ReadUInt32(rest, 4) && rest[8..] == buf[offset + 8..]
      && (offset + 8 + size <= |buf| ==>
            rest[8..8 + size] == buf[offset + 8..offset + 8 + size] && rest[8 + size..] == buf[offset + 8 + size..])
  {
  }

  lemma StripNext(rest: seq<Byte>, size: nat, before: seq<string>, decode: seq<Byte> -> string)
    requires |rest| >= 8 && size == ReadUInt32(rest, 4) && size > 0 && 8 + size <= |rest|
    ensures before + Strip(rest, decode) == before + Entry(rest[8..8 + size], decode) + Strip(rest[8 + size..], decode)
  {
    ConcatAssociates(before, Entry(rest[8..8 + size], decode), Strip(rest[8 + size..], decode));
  }

  lemma EntryIs(payload: seq<Byte>, decode: seq<Byte> -> string)
    ensures
      var line := TrimEnd(decode(payload));
      Entry(payload, decode) == if |line| > 0 then [line] else []
  {
  }

  lemma StripStops(rest: seq<Byte>, decode: seq<Byte> -> string)
    ensures |rest| == 0 ==> Strip(rest, decode) == []
    ensures 0 < |rest| < 8 ==> Strip(rest, decode) == [TrimEnd(decode(rest))]
    ensures |rest| >= 8 && (ReadUInt32(rest, 4) == 0 || 8 + ReadUInt32(rest, 4) > |rest|) ==>
              Strip(rest, decode) == [TrimEnd(decode(rest[8..]))]
  {
  }

  method StripDockerHeader(buf: seq<Byte>, decode: seq<Byte> -> string) returns (lines: seq<string>)
    ensures lines == Strip(buf, decode)
  {
    hide *;
    lines := [];
    var offset := 0;
    assert buf[0..] == buf;
    while offset < |buf|
      invariant 0 <= offset <= |buf|
      invariant lines + Strip(buf[offset..], decode) == Strip(buf, decode)
      decreases |buf| - offset
    {
      StripStops(buf[offset..], decode);
      if offset + 8 > |buf| {
        lines := lines + [TrimEnd(decode(buf[offset..]))];
        return;
      }
      var size := ReadUInt32(buf, offset + 4);
      RestOf(buf, offset);
      if size == 0 || offset + 8 + size > |buf| {
        lines := lines + [TrimEnd(decode(buf[offset + 8..]))];
        return;
      }
      StripNext(buf[offset..], size, lines, decode);
      var line := TrimEnd(decode(buf[offset + 8..offset + 8 + size]));
      EntryIs(buf[offset + 8..offset + 8 + size], decode);
      if |line| > 0 {
        lines := lines + [line];
      } else {
        assert lines + [] == lines;
      }
      offset := offset + 8 + size;
    }
    StripStops(buf[offset..], decode);
    assert lines + [] == lines;
  }

  // ---- The frame format ----

  datatype Frame = Frame(stream: Byte, payload: seq<Byte>)

  function LengthBytes(n: nat): seq<Byte>
    requires n < 0x1_0000_0000
  {
    [n / 16777216, n / 65536 % 256, n / 256 % 256, n % 256]
  }

  function Encode(f: Frame): seq<Byte>
    requires |f.payload| < 0x1_0000_0000
  {
    [f.stream, 0, 0, 0] + LengthBytes(|f.payload|) + f.payload
  }

  predicate Short(frames: seq<Frame>) {
    forall f :: f in frames ==> |f.payload| < 0x1_0000_0000
  }

  predicate NonEmpty(frames: seq<Frame>) {
    forall f :: f in frames ==> |f.payload| > 0
  }

  function EncodeAll(frames: seq<Frame>): seq<Byte>
    requires Short(frames)
  {
    if |frames| == 0 then [] else Encode(frames[0]) + EncodeAll(frames[1..])
  }

  /** Trimmed payloads in order, empty ones dropped. */
  function Payloads(frames: seq<Frame>, decode: seq<Byte> -> string): seq<string> {
    if |frames| == 0 then [] else Entry(frames[0].payload, decode) + Payloads(frames[1..], decode)
  }

  lemma TrimEndIs(t: string, kept: string)
    requires kept <= t && (kept != "" ==> !JsSpace(kept[|kept| - 1]))
    requires forall i :: |kept| <= i < |t| ==> JsSpace(t[i])
    ensures TrimEnd(t) == kept
  {
    var r := TrimEnd(t);
    assert forall i :: 0 <= i < |r| ==> r[i] == t[i];
    assert forall i :: 0 <= i < |kept| ==> kept[i] == t[i];
    assert |r| == |kept|;
  }

  /** One entry for each payload that holds more than white space, without what trails it. */
  lemma {:induction false} PayloadsAre(frames: seq<Frame>, f: Frame, decode: seq<Byte> -> string, text: string)
    requires text <= decode(f.payload) && (text != "" ==> !JsSpace(text[|text| - 1]))
    requires forall i :: |text| <= i < |decode(f.payload)| ==> JsSpace(decode(f.payload)[i])
    ensures Payloads([], decode) == []
    ensures Payloads(frames + [f], decode) == Payloads(frames, decode) + (if text == "" then [] else [text])
  {
    if |frames| == 0 {
      TrimEndIs(decode(f.payload), text);
      assert frames + [f] == [f] && Payloads([f][1..], decode) == [];
    } else {
      PayloadsAre(frames[1..], f, decode, text);
      assert (frames + [f])[1..] == frames[1..] + [f];
      ConcatAssociates(Entry(frames[0].payload, decode), Payloads(frames[1..], decode),
                       if text == "" then [] else [text]);
    }
  }

  lemma LengthRoundTrip(n: nat)
    requires n < 0x1_0000_0000
    ensures n / 16777216 * 16777216 + n / 65536 % 256 * 65536 + n / 256 % 256 * 256 + n % 256 == n
  {
    assert n / 65536 == n / 16777216 * 256 + n / 65536 % 256;
    assert n / 256 == n / 65536 * 256 + n / 256 % 256;
  }

  lemma HeaderRoundTrip(f: Frame, rest: seq<Byte>)
    requires |f.payload| < 0x1_0000_0000
    ensures
      var buf := Encode(f) + rest;
      && |Encode(f)| == 8 + |f.payload| && ReadUInt32(buf, 4) == |f.payload|
      && buf[8..8 + |f.payload|] == f.payload && buf[8 + |f.payload|..] == rest && buf[8..] == f.payload + rest
      && buf[0] == f.stream && buf[1] == buf[2] == buf[3] == 0
      && buf[4] == |f.payload| / 0x100_0000 && buf[7] == |f.payload| % 0x100  // the highest byte comes first
  {
    var buf, n := Encode(f) + rest, |f.payload|;
    LengthRoundTrip(n);
    assert buf[4] == n / 16777216 && buf[5] == n / 65536 % 256 && buf[6] == n / 256 % 256 && buf[7] == n % 256;
  }

  lemma StripFrame(f: Frame, rest: seq<Byte>, decode: seq<Byte> -> string)
    requires |f.payload| < 0x1_0000_0000
    ensures |f.payload| > 0 ==> Strip(Encode(f) + rest, decode) == Entry(f.payload, decode) + Strip(rest, decode)
    ensures |f.payload| == 0 ==> Strip(Encode(f) + rest, decode) == [TrimEnd(decode(rest))]
  {
    HeaderRoundTrip(f, rest);
    assert |f.payload| == 0 ==> f.payload + rest == rest;
  }

  lemma {:induction false} StripFrames(frames: seq<Frame>, tail: seq<Byte>, decode: seq<Byte> -> string)
    requires Short(frames) && NonEmpty(frames)
    ensures Strip(EncodeAll(frames) + tail, decode) == Payloads(frames, decode) + Strip(tail, decode)
  {
    if |frames| == 0 {
      assert EncodeAll(frames) + tail == tail;
    } else {
      var rest := frames[1..];
      StripFrames(rest, tail, decode);
      StripFrame(frames[0], EncodeAll(rest) + tail, decode);
      ConcatAssociates(Encode(frames[0]), EncodeAll(rest), tail);
      ConcatAssociates(Entry(frames[0].payload, decode), Payloads(rest, decode), Strip(tail, decode));
    }
  }

  /** Any list of frames with non-empty payloads comes back as its trimmed payloads in
      order.  When the last frame is cut, everything before it is unaffected and the cut
      frame yields one entry: what there is of its payload, or of its header if that is
      incomplete. */
  lemma StripRecoversPayloads(frames: seq<Frame>, last: Frame, cut: nat, decode: seq<Byte> -> string)
    requires Short(frames) && NonEmpty(frames) && |last.payload| < 0x1_0000_0000
    requires cut < |Encode(last)|
    ensures
      var tail := Encode(last)[..cut];
      Strip(EncodeAll(frames) + tail, decode) ==
      Payloads(frames, decode)
      + (if cut == 0 then [] else [TrimEnd(decode(if cut < 8 then tail else last.payload[..cut - 8]))])
  {
    var tail := Encode(last)[..cut];
    StripFrames(frames, tail, decode);
    if cut >= 8 {
      HeaderRoundTrip(last, []);
      assert Encode(last) + [] == Encode(last);
      assert tail[8..] == last.payload[..cut - 8];
      assert tail[4] == Encode(last)[4] && tail[5] == Encode(last)[5];
      assert tail[6] == Encode(last)[6] && tail[7] == Encode(last)[7];
      assert ReadUInt32(tail, 4) == |last.payload|;
    }
  }

  // ---- Empty payloads ----

  function DecodeBytes(bytes: seq<Byte>, f: Byte -> char): string {
    seq(|bytes|, i requires 0 <= i < |bytes| => f(bytes[i]))
  }

  function SingleByte(f: Byte -> char): seq<Byte> -> string {
    (bytes: seq<Byte>) => DecodeBytes(bytes, f)
  }

  /** A frame header in front of a payload makes the trimmed text longer, whatever frames stand
      around them.  Any single-byte encoding has this property.  For UTF-8 it is a hypothesis:
      stream bytes are 0, 1 and 2 in the format, characters of their own there. */
  ghost predicate HeadersLengthen(decode: seq<Byte> -> string) {
    forall frames: seq<Frame>, f: Frame ::
      Short(frames) && Streams(frames) && f in frames && |TrimEnd(decode(f.payload))| > 0 ==>
        |TrimEnd(decode(EncodeAll(frames)))| > |TrimEnd(decode(f.payload))|
  }

  predicate Streams(frames: seq<Frame>) {
    forall f :: f in frames ==> f.stream < 3
  }

  lemma TrimEndReaches(t: string, i: nat)
    requires i < |t| && !JsSpace(t[i])
    ensures |TrimEnd(t)| >= i + 1
  {
  }

  /** Text that reaches n characters into the rest of a buffer reaches as far into the buffer. */
  lemma TextReaches(all: seq<Byte>, at: nat, rest: seq<Byte>, n: nat, f: Byte -> char)
    requires at <= |all| && all[at..] == rest
    requires 0 < n <= |TrimEnd(DecodeBytes(rest, f))|
    ensures |TrimEnd(DecodeBytes(all, f))| >= at + n
  {
    var i := |TrimEnd(DecodeBytes(rest, f))| - 1;
    assert rest[i] == all[at + i];
    assert DecodeBytes(all, f)[at + i] == DecodeBytes(rest, f)[i];
    TrimEndReaches(DecodeBytes(all, f), at + i);
  }

  lemma PayloadReaches(payload: seq<Byte>, rest: seq<Byte>, n: nat, f: Byte -> char)
    requires 0 < n == |TrimEnd(DecodeBytes(payload, f))|
    ensures |TrimEnd(DecodeBytes(payload + rest, f))| >= n
  {
    assert DecodeBytes(payload + rest, f)[n - 1] == DecodeBytes(payload, f)[n - 1];
    TrimEndReaches(DecodeBytes(payload + rest, f), n - 1);
  }

  lemma {:induction false} EntryFits(frames: seq<Frame>, entry: string, f: Byte -> char)
    requires Short(frames) && entry in Payloads(frames, SingleByte(f))
    ensures |TrimEnd(DecodeBytes(EncodeAll(frames), f))| >= 8 + |entry|
  {
    hide Encode;
    hide Entry;
    var first, rest := frames[0], frames[1..];
    HeaderRoundTrip(first, EncodeAll(rest));
    if entry in Entry(first.payload, SingleByte(f)) {
      EntryIs(first.payload, SingleByte(f));
      PayloadReaches(first.payload, EncodeAll(rest), |entry|, f);
      TextReaches(EncodeAll(frames), 8, first.payload + EncodeAll(rest), |entry|, f);
    } else {
      EntryFits(rest, entry, f);
      TextReaches(EncodeAll(frames), 8 + |first.payload|, EncodeAll(rest), 8 + |entry|, f);
    }
  }

  lemma {:induction false} EntryOfFrame(frames: seq<Frame>, entry: string, decode: seq<Byte> -> string)
    returns (f: Frame)
    requires entry in Payloads(frames, decode)
    ensures f in frames && entry == TrimEnd(decode(f.payload)) && |entry| > 0
  {
    if entry in Entry(frames[0].payload, decode) {
      f := frames[0];
    } else {
      f := EntryOfFrame(frames[1..], entry, decode);
    }
  }

  /** No entry is the text of all the frames. */
  ghost predicate WholeIsNoEntry(frames: seq<Frame>, decode: seq<Byte> -> string)
    requires Short(frames)
  {
    TrimEnd(decode(EncodeAll(frames))) !in Payloads(frames, decode)
  }

  lemma LongerIsNoEntry(frames: seq<Frame>, decode: seq<Byte> -> string)
    requires Short(frames) && Streams(frames) && HeadersLengthen(decode)
    ensures WholeIsNoEntry(frames, decode)
  {
    var whole := TrimEnd(decode(EncodeAll(frames)));
    if whole in Payloads(frames, decode) {
      var f := EntryOfFrame(frames, whole, decode);
    }
  }

  lemma SingleByteIsNoEntry(frames: seq<Frame>, f: Byte -> char)
    requires Short(frames)
    ensures WholeIsNoEntry(frames, SingleByte(f))
  {
    var whole := TrimEnd(DecodeBytes(EncodeAll(frames), f));
    if whole in Payloads(frames, SingleByte(f)) {
      EntryFits(frames, whole, f);
    }
  }

  /** Any single-byte encoding has the property. */
  lemma SingleByteLengthens(f: Byte -> char)
    ensures HeadersLengthen(SingleByte(f))
  {
    var decode := SingleByte(f);
    forall frames: seq<Frame>, frame: Frame | Short(frames) && frame in frames && |TrimEnd(decode(frame.payload))| > 0
      ensures |TrimEnd(decode(EncodeAll(frames)))| > |TrimEnd(decode(frame.payload))|
    {
      PayloadIsEntry(frames, frame, decode);
      EntryFits(frames, TrimEnd(decode(frame.payload)), f);
    }
  }

  lemma {:induction false} PayloadIsEntry(frames: seq<Frame>, f: Frame, decode: seq<Byte> -> string)
    requires f in frames && |TrimEnd(decode(f.payload))| > 0
    ensures TrimEnd(decode(f.payload)) in Payloads(frames, decode)
  {
    if f != frames[0] {
      PayloadIsEntry(frames[1..], f, decode);
    }
  }

  /** An empty payload first: the rest of the buffer becomes one entry, which no payload of
      the rest can equal. */
  lemma EmptyFirst(first: Frame, rest: seq<Frame>, decode: seq<Byte> -> string)
    requires |first.payload| == 0 && Short(rest) && WholeIsNoEntry(rest, decode)
    ensures Strip(Encode(first) + EncodeAll(rest), decode) != Payloads(rest, decode)
  {
    StripFrame(first, EncodeAll(rest), decode);
    var whole := TrimEnd(decode(EncodeAll(rest)));
    assert whole in [whole];
  }

  /** An empty payload is the first of some suffix of the frames. */
  lemma {:induction false} EmptyPayloadShows(frames: seq<Frame>, decode: seq<Byte> -> string)
    requires Short(frames) && !NonEmpty(frames) && |TrimEnd(decode([]))| == 0
    requires forall i :: 0 <= i <= |frames| ==> Short(frames[i..]) && WholeIsNoEntry(frames[i..], decode)
    ensures Strip(EncodeAll(frames), decode) != Payloads(frames, decode)
  {
    hide Strip;
    hide Entry;
    hide Encode;
    var first, rest := frames[0], frames[1..];
    assert frames == [first] + rest;
    assert frames[1..] == rest && WholeIsNoEntry(frames[1..], decode);
    if |first.payload| == 0 {
      EmptyFirst(first, rest, decode);
      EntryIs(first.payload, decode);
    } else {
      StripFrame(first, EncodeAll(rest), decode);
      forall i | 0 <= i <= |rest| ensures Short(rest[i..]) && WholeIsNoEntry(rest[i..], decode) {
        assert rest[i..] == frames[i + 1..] && WholeIsNoEntry(frames[i + 1..], decode);
      }
      EmptyPayloadShows(rest, decode);
      SameHead(Entry(first.payload, decode), Strip(EncodeAll(rest), decode), Payloads(rest, decode));
    }
  }

  lemma SameHead<T>(a: seq<T>, b: seq<T>, c: seq<T>)
    requires b != c
    ensures a + b != a + c
  {
    assert (a + b)[|a|..] == b && (a + c)[|a|..] == c;
  }

  lemma SuffixShort(frames: seq<Frame>, i: nat)
    requires i <= |frames|
    ensures Short(frames) ==> Short(frames[i..])
    ensures Streams(frames) ==> Streams(frames[i..])
  {
  }

  lemma NonEmptyIsExact(frames: seq<Frame>, decode: seq<Byte> -> string)
    requires Short(frames) && NonEmpty(frames)
    ensures Strip(EncodeAll(frames), decode) == Payloads(frames, decode)
  {
    StripFrames(frames, [], decode);
    assert EncodeAll(frames) + [] == EncodeAll(frames);
  }

  /** Stripping returns exactly the trimmed payloads when, and only when, no frame has an empty
      payload: an empty one stops the loop, and the rest of the buffer comes back as one entry
      with its headers in it.  So for every decoding under which a header in front makes the
      trimmed text longer... */
  lemma StripExactIffNoEmptyPayload(frames: seq<Frame>, decode: seq<Byte> -> string)
    requires Short(frames) && Streams(frames) && HeadersLengthen(decode) && |TrimEnd(decode([]))| == 0
    ensures Strip(EncodeAll(frames), decode) == Payloads(frames, decode) <==> NonEmpty(frames)
  {
    if NonEmpty(frames) {
      NonEmptyIsExact(frames, decode);
    } else {
      forall i | 0 <= i <= |frames| ensures Short(frames[i..]) && WholeIsNoEntry(frames[i..], decode) {
        SuffixShort(frames, i);
        LongerIsNoEntry(frames[i..], decode);
      }
      EmptyPayloadShows(frames, decode);
    }
  }

  /** ... and in every single-byte encoding, for any stream bytes. */
  lemma SingleByteExactIff(frames: seq<Frame>, f: Byte -> char)
    requires Short(frames)
    ensures Strip(EncodeAll(frames), SingleByte(f)) == Payloads(frames, SingleByte(f)) <==> NonEmpty(frames)
  {
    if NonEmpty(frames) {
      NonEmptyIsExact(frames, SingleByte(f));
    } else {
      forall i | 0 <= i <= |frames| ensures Short(frames[i..]) && WholeIsNoEntry(frames[i..], SingleByte(f)) {
        SuffixShort(frames, i);
        SingleByteIsNoEntry(frames[i..], f);
      }
      EmptyPayloadShows(frames, SingleByte(f));
    }
  }
}
