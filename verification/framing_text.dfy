/** What the framing's text and effects are: decoding is the inverse of UTF-8 encoding, on
    exactly the encoded texts, and the effects are those of the object lines in order. */
module FramingText {
  import opened Wrappers
  import opened Watchdog
  import opened Framing

  // ---- UTF-8, by its encoder ----

  /** A code point that is no surrogate. */
  predicate Scalar(c: int) { 0 <= c < 0xD800 || 0xE000 <= c <= 0x10FFFF }

  function Trail(c: nat): Byte { 0x80 + c % 64 }

  /** RFC 3629, section 3. */
  function EncodeChar(c: int): seq<Byte>
    requires Scalar(c)
  {
    if c < 0x80 then [c]
    else if c < 0x800 then [0xC0 + c / 64, Trail(c)]
    else if c < 0x10000 then [0xE0 + c / 64 / 64, Trail(c / 64), Trail(c)]
    else [0xF0 + c / 64 / 64 / 64, Trail(c / 64 / 64), Trail(c / 64), Trail(c)]
  }

  ghost predicate AllScalar(t: Text) { forall i :: 0 <= i < |t| ==> Scalar(t[i]) }

  function Encode(t: Text): seq<Byte>
    requires AllScalar(t)
  {
    if t == [] then [] else EncodeChar(t[0]) + Encode(t[1..])
  }

  lemma CharStarts(c: int, rest: seq<Byte>)
    requires Scalar(c)
    ensures var bs := EncodeChar(c) + rest;
            StartsWell(bs) && Width(bs[0]) == |EncodeChar(c)| && CodePoint(bs) == c && bs[|EncodeChar(c)|..] == rest
  {
    var bs := EncodeChar(c) + rest;
    assert bs[0] == EncodeChar(c)[0];
    assert |EncodeChar(c)| > 1 ==> bs[1] == EncodeChar(c)[1];
    assert |EncodeChar(c)| > 2 ==> bs[2] == EncodeChar(c)[2];
    assert |EncodeChar(c)| > 3 ==> bs[3] == EncodeChar(c)[3];
  }

  /** The last character of a two-part number comes apart again. */
  lemma Parts(a: int, b: int)
    requires 0 <= b < 64
    ensures (a * 64 + b) / 64 == a && (a * 64 + b) % 64 == b
  {
  }

  lemma StartsAsChar(bs: seq<Byte>)
    requires StartsWell(bs)
    ensures Scalar(CodePoint(bs)) && EncodeChar(CodePoint(bs)) == bs[..Width(bs[0])]
  {
    var n, lead: int := Width(bs[0]), bs[0];
    if n >= 2 {
      var one: int := bs[1] as int - 0x80;
      if n == 2 {
        Parts(lead - 0xC0, one);
      } else if n == 3 {
        var two: int := bs[2] as int - 0x80;
        Parts(lead - 0xE0, one);
        Parts((lead - 0xE0) * 64 + one, two);
      } else {
        var two: int, three: int := bs[2] as int - 0x80, bs[3] as int - 0x80;
        Parts(lead - 0xF0, one);
        Parts((lead - 0xF0) * 64 + one, two);
        Parts(((lead - 0xF0) * 64 + one) * 64 + two, three);
      }
    }
  }

  lemma DecodeOfChar(c: int, rest: seq<Byte>)
    requires Scalar(c) && Decode(rest).Some?
    ensures Decode(EncodeChar(c) + rest) == Some([c] + Decode(rest).value)
  {
    CharStarts(c, rest);
  }

  lemma {:induction false} DecodesEncoded(t: Text)
    requires AllScalar(t)
    ensures Decode(Encode(t)) == Some(t)
  {
    if t != [] {
      DecodesEncoded(t[1..]);
      DecodeOfChar(t[0], Encode(t[1..]));
      assert t == [t[0]] + t[1..];
    }
  }

  lemma DecodeStep(bs: seq<Byte>)
    requires bs != [] && Decode(bs).Some?
    ensures StartsWell(bs) && Decode(bs[Width(bs[0])..]).Some?
    ensures Decode(bs).value == [CodePoint(bs)] + Decode(bs[Width(bs[0])..]).value
  {
  }

  lemma EncodeCons(c: int, t: Text)
    requires Scalar(c) && AllScalar(t)
    ensures AllScalar([c] + t) && Encode([c] + t) == EncodeChar(c) + Encode(t)
  {
    assert ([c] + t)[1..] == t;
  }

  lemma EncodedStep(bs: seq<Byte>, rest: Text)
    requires StartsWell(bs) && AllScalar(rest) && Encode(rest) == bs[Width(bs[0])..]
    ensures AllScalar([CodePoint(bs)] + rest) && Encode([CodePoint(bs)] + rest) == bs
  {
    StartsAsChar(bs);
    EncodeCons(CodePoint(bs), rest);
    assert bs == bs[..Width(bs[0])] + bs[Width(bs[0])..];
  }

  lemma {:induction false} DecodedIsEncoded(bs: seq<Byte>)
    requires Decode(bs).Some?
    ensures AllScalar(Decode(bs).value) && Encode(Decode(bs).value) == bs
    decreases |bs|
  {
    if bs != [] {
      DecodeStep(bs);
      DecodedIsEncoded(bs[Width(bs[0])..]);
      EncodedStep(bs, Decode(bs[Width(bs[0])..]).value);
    }
  }

  /** Bytes decode to a text if and only if they are its UTF-8 encoding: no overlong form, no
      surrogate and nothing above 0x10FFFF decodes, and everything else does. */
  lemma {:induction false} DecodesExactlyEncodings(bs: seq<Byte>, t: Text)
    ensures Decode(bs) == Some(t) <==> AllScalar(t) && Encode(t) == bs
  {
    if Decode(bs) == Some(t) {
      DecodedIsEncoded(bs);
    }
    if AllScalar(t) && Encode(t) == bs {
      DecodesEncoded(t);
    }
  }

  // ---- effects ----

  /** The messages of the object lines, in order. */
  function Objects(parse: Text -> Parsed, lines: seq<Text>): seq<Effect> {
    if lines == [] then []
    else
      var p := parse(lines[|lines| - 1]);
      Objects(parse, lines[..|lines| - 1]) + if p.Object? then [Handled(p.m)] else []
  }

  lemma {:induction false} ObjectsCons(parse: Text -> Parsed, lines: seq<Text>)
    requires lines != []
    ensures Objects(parse, lines) ==
            (if parse(lines[0]).Object? then [Handled(parse(lines[0]).m)] else []) + Objects(parse, lines[1..])
  {
    if |lines| > 1 {
      ObjectsCons(parse, lines[..|lines| - 1]);
      assert lines[..|lines| - 1][1..] == lines[1..][..|lines[1..]| - 1];
    }
  }

  /** Line k is the first that is not harmless. */
  ghost predicate FirstHarm(parse: Text -> Parsed, lines: seq<Text>, k: nat) {
    k < |lines| && !Harmless(parse(lines[k])) && forall i :: 0 <= i < k ==> Harmless(parse(lines[i]))
  }

  lemma {:induction false} AllHarmlessHandled(parse: Text -> Parsed, lines: seq<Text>)
    requires forall i :: 0 <= i < |lines| ==> Harmless(parse(lines[i]))
    ensures Handle(parse, lines) == Outcome(Objects(parse, lines), true)
  {
    if lines != [] {
      ObjectsCons(parse, lines);
      AllHarmlessHandled(parse, lines[1..]);
      assert [] + Objects(parse, lines[1..]) == Objects(parse, lines[1..]);
    }
  }

  lemma {:induction false} HandledUpToHarm(parse: Text -> Parsed, lines: seq<Text>, k: nat)
    requires FirstHarm(parse, lines, k)
    ensures var p := parse(lines[k]);
            Handle(parse, lines) == Outcome(Objects(parse, lines[..k]) + [if p.Object? then Handled(p.m) else Dropped], false)
  {
    var last := if parse(lines[k]).Object? then Handled(parse(lines[k]).m) else Dropped;
    AllHarmlessHandled(parse, lines[..k]);
    HandleAppend(parse, lines[..k], lines[k..]);
    assert lines == lines[..k] + lines[k..];
    assert Handle(parse, lines[k..]) == Outcome([last], false);
  }

  /** On a stream cut between characters, a client whose lines are all harmless has had every
      object of the whole stream handled, once and in order; otherwise every one up to the
      first harmful line, and that line is the last thing that happened. */
  lemma {:induction false} StreamHandled(parse: Text -> Parsed, chunks: seq<seq<Byte>>)
    requires AllDecode(chunks)
    ensures Decode(Concat(chunks)).Some?
    ensures var lines := Lines(Decode(Concat(chunks)).value);
            && ((forall i :: 0 <= i < |lines| ==> Harmless(parse(lines[i]))) ==>
                  RecvAll(parse, chunks).effects == Objects(parse, lines))
            && (forall k: nat :: FirstHarm(parse, lines, k) ==>
                  RecvAll(parse, chunks).effects ==
                  Objects(parse, lines[..k]) + [if parse(lines[k]).Object? then Handled(parse(lines[k]).m) else Dropped])
  {
    ChunkingIsIrrelevant(parse, chunks);
    var lines := Lines(Decode(Concat(chunks)).value);
    if forall i :: 0 <= i < |lines| ==> Harmless(parse(lines[i])) {
      AllHarmlessHandled(parse, lines);
    }
    forall k: nat | FirstHarm(parse, lines, k)
      ensures RecvAll(parse, chunks).effects ==
              Objects(parse, lines[..k]) + [if parse(lines[k]).Object? then Handled(parse(lines[k]).m) else Dropped]
    {
      HandledUpToHarm(parse, lines, k);
    }
  }

  lemma {:induction false} DroppedStays(parse: Text -> Parsed, chunks: seq<seq<Byte>>, more: seq<seq<Byte>>)
    requires !RecvAll(parse, chunks).alive
    ensures RecvAll(parse, chunks + more) == RecvAll(parse, chunks)
    decreases |more|
  {
    if more == [] {
      assert chunks + more == chunks;
    } else {
      DroppedStays(parse, chunks, more[..|more| - 1]);
      assert (chunks + more)[..|chunks + more| - 1] == chunks + more[..|more| - 1];
    }
  }

  /** A read that is empty or does not decode drops the client, with nothing of it handled and
      nothing of what follows. */
  lemma {:induction false} UndecodableReadDrops(parse: Text -> Parsed, chunks: seq<seq<Byte>>, bad: seq<Byte>, more: seq<seq<Byte>>)
    requires RecvAll(parse, chunks).alive && (bad == [] || Decode(bad).None?)
    ensures RecvAll(parse, chunks + [bad] + more) == Rx([], false, RecvAll(parse, chunks).effects + [Dropped])
  {
    assert (chunks + [bad])[..|chunks|] == chunks;
    DroppedStays(parse, chunks + [bad], more);
  }

  // ---- lines ----

  function Joined(lines: seq<Text>): Text { if lines == [] then [] else lines[0] + [NEWLINE] + Joined(lines[1..]) }

  lemma Regroup(a: Text, b: Text, c: Text)
    ensures (a + [NEWLINE] + b) + c == a + [NEWLINE] + (b + c)
  {
  }

  lemma RejoinStep(t: Text, k: nat, lines: seq<Text>, tail: Text)
    requires FirstAt(t, k) && Joined(lines) + tail == t[k + 1..]
    ensures Joined([t[..k]] + lines) + tail == t
  {
    assert ([t[..k]] + lines)[1..] == lines;
    Regroup(t[..k], Joined(lines), tail);
    assert t == t[..k] + [NEWLINE] + t[k + 1..];
  }

  /** The lines ended by a newline each, with the rest behind, are the text. */
  lemma {:induction false} LinesRejoin(t: Text)
    ensures Joined(Lines(t)) + Tail(t) == t
    decreases |t|
  {
    if NEWLINE in t {
      var k := FirstNewline(t);
      LinesRejoin(t[k + 1..]);
      LinesAt(t, k);
      RejoinStep(t, k, Lines(t[k + 1..]), Tail(t[k + 1..]));
    } else {
      assert [] + t == t;
    }
  }

  /** And none of them holds one. */
  lemma {:induction false} LinesAreLines(t: Text)
    ensures NEWLINE !in Tail(t) && forall i :: 0 <= i < |Lines(t)| ==> NEWLINE !in Lines(t)[i]
    decreases |t|
  {
    if NEWLINE in t {
      LinesAreLines(t[FirstNewline(t) + 1..]);
    }
  }
}
