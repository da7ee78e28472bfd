/** How the watchdog turns socket reads into messages: decode each chunk, append it to
    the line buffer, handle every complete line.  `parse` stands for stripping a line
    and decoding it as JSON. */
module Framing {
  import opened Wrappers
  import opened Watchdog

  type Byte = b: int | 0 <= b < 256
  type Text = seq<int>

  const NEWLINE := 10

  // ---- strict UTF-8 ----

  predicate IsCont(b: Byte) { 0x80 <= b <= 0xBF }

  function Width(lead: Byte): nat {
    if lead < 0x80 then 1
    else if 0xC2 <= lead <= 0xDF then 2
    else if 0xE0 <= lead <= 0xEF then 3
    else if 0xF0 <= lead <= 0xF4 then 4
    else 0
  }

  /** Overlong forms, surrogates and code points above 0x10FFFF are rejected. */
  predicate SecondOk(lead: Byte, b: Byte) {
    && IsCont(b)
    && (lead == 0xE0 ==> b >= 0xA0) && (lead == 0xED ==> b <= 0x9F)
    && (lead == 0xF0 ==> b >= 0x90) && (lead == 0xF4 ==> b <= 0x8F)
  }

  predicate StartsWell(bs: seq<Byte>) {
    && bs != []
    && var n := Width(bs[0]);
       && 0 < n <= |bs|
       && (n >= 2 ==> SecondOk(bs[0], bs[1]))
       && (n >= 3 ==> IsCont(bs[2]))
       && (n >= 4 ==> IsCont(bs[3]))
  }

  function CodePoint(bs: seq<Byte>): int
    requires StartsWell(bs)
  {
    match Width(bs[0])
    case 1 => bs[0]
    case 2 => (bs[0] as int - 0xC0) * 64 + (bs[1] as int - 0x80)
    case 3 => ((bs[0] as int - 0xE0) * 64 + (bs[1] as int - 0x80)) * 64 + (bs[2] as int - 0x80)
    case _ => (((bs[0] as int - 0xF0) * 64 + (bs[1] as int - 0x80)) * 64 + (bs[2] as int - 0x80)) * 64 + (bs[3] as int - 0x80)
  }

  /** The decoded text, or None where `bytes.decode` raises. */
  function Decode(bs: seq<Byte>): Option<Text> {
    if bs == [] then Some([])
    else if !StartsWell(bs) then None
    else
      match Decode(bs[Width(bs[0])..])
      case None => None
      case Some(rest) => Some([CodePoint(bs)] + rest)
  }

  // ---- lines ----

  predicate FirstAt(t: Text, k: nat) {
    k < |t| && t[k] == NEWLINE && forall i :: 0 <= i < k ==> t[i] != NEWLINE
  }

  function FirstNewline(t: Text): (k: nat)
    requires NEWLINE in t
    ensures FirstAt(t, k)
  {
    if t[0] == NEWLINE then 0 else 1 + FirstNewline(t[1..])
  }

  /** The complete lines of a text, without their newlines. */
  function Lines(t: Text): seq<Text> {
    if NEWLINE !in t then [] else [t[..FirstNewline(t)]] + Lines(t[FirstNewline(t) + 1..])
  }

  /** What follows the last newline. */
  function Tail(t: Text): Text {
    if NEWLINE !in t then t else Tail(t[FirstNewline(t) + 1..])
  }

  // ---- one line ----

  datatype Parsed = Blank | Malformed | NotObject | Object(m: Msg)
  datatype Effect = Handled(m: Msg) | Dropped
  datatype Outcome = Outcome(effects: seq<Effect>, alive: bool)

  function Prepend(e: Effect, o: Outcome): Outcome { Outcome([e] + o.effects, o.alive) }

  /** Blank and malformed lines are skipped; anything that raises drops the client and
      abandons the lines behind it. */
  function Handle(parse: Text -> Parsed, lines: seq<Text>): Outcome {
    if lines == [] then Outcome([], true)
    else
      match parse(lines[0])
      case Blank => Handle(parse, lines[1..])
      case Malformed => Handle(parse, lines[1..])
      case NotObject => Outcome([Dropped], false)
      case Object(m) =>
        if m.compMethod.BadMethod? then Outcome([Handled(m)], false)
        else Prepend(Handled(m), Handle(parse, lines[1..]))
  }

  // ---- the receive buffer ----

  datatype Rx = Rx(buf: Text, alive: bool, effects: seq<Effect>)

  const OPEN := Rx([], true, [])

  function Recv(parse: Text -> Parsed, s: Rx, data: seq<Byte>): Rx {
    if !s.alive then s
    else if data == [] || Decode(data).None? then Rx([], false, s.effects + [Dropped])
    else
      var text := s.buf + Decode(data).value;
      var o := Handle(parse, Lines(text));
      Rx(if o.alive then Tail(text) else [], o.alive, s.effects + o.effects)
  }

  function RecvAll(parse: Text -> Parsed, chunks: seq<seq<Byte>>): Rx {
    if chunks == [] then OPEN
    else Recv(parse, RecvAll(parse, chunks[..|chunks| - 1]), chunks[|chunks| - 1])
  }

  class Receiver {
    const parse: Text -> Parsed
    var buf: Text
    var client: bool
    var effects: seq<Effect>

    constructor (parse: Text -> Parsed)
      ensures this.parse == parse && View() == OPEN
    {
      this.parse := parse;
      buf, client, effects := [], true, [];
    }

    function View(): Rx
      reads this
    {
      Rx(buf, client, effects)
    }

    method Receive(data: seq<Byte>)
      modifies this
      ensures View() == Recv(parse, old(View()), data)
    {
      if !client { return; }
      var decoded := Decode(data);
      if data == [] || decoded.None? {
        buf, client, effects := [], false, effects + [Dropped];
        return;
      }
      buf := buf + decoded.value;
      ghost var goal := Recv(parse, old(View()), data);
      while NEWLINE in buf
        invariant client && Leads(parse, View(), goal)
        decreases |buf|
      {
        var k := FirstNewline(buf);
        var line := buf[..k];
        var rest := buf[k + 1..];
        LinesAt(buf, k);
        match parse(line) {
          case Blank =>
            buf := rest;
          case Malformed =>
            buf := rest;
          case NotObject =>
            buf, client, effects := [], false, effects + [Dropped];
            return;
          case Object(m) =>
            LineDelivers(parse, View(), goal, line, rest);
            buf := rest;
            effects := effects + [Handled(m)];
            if m.compMethod.BadMethod? {
              buf, client := [], false;
              return;
            }
        }
      }
    }
  }

  /** Handling the lines still in the buffer leads to the goal. */
  ghost predicate Leads(parse: Text -> Parsed, s: Rx, goal: Rx) {
    var o := Handle(parse, Lines(s.buf));
    goal == Rx(if o.alive then Tail(s.buf) else [], o.alive, s.effects + o.effects)
  }

  lemma LineDelivers(parse: Text -> Parsed, s: Rx, goal: Rx, line: Text, rest: Text)
    requires Lines(s.buf) == [line] + Lines(rest) && Tail(s.buf) == Tail(rest)
    requires Leads(parse, s, goal) && parse(line).Object?
    ensures var m := parse(line).m;
            if m.compMethod.BadMethod? then goal == Rx([], false, s.effects + [Handled(m)])
            else Leads(parse, s.(buf := rest, effects := s.effects + [Handled(m)]), goal)
  {
    assert Lines(s.buf)[1..] == Lines(rest);
    Assoc(s.effects, [Handled(parse(line).m)], Handle(parse, Lines(rest)).effects);
  }

  lemma LinesAt(t: Text, k: nat)
    requires FirstAt(t, k)
    ensures Lines(t) == [t[..k]] + Lines(t[k + 1..]) && Tail(t) == Tail(t[k + 1..])
  {
    assert FirstNewline(t) == k;
  }

  // ---- decoding and splitting respect concatenation ----

  lemma StartsWellAppend(a: seq<Byte>, b: seq<Byte>)
    requires StartsWell(a)
    ensures StartsWell(a + b) && Width((a + b)[0]) == Width(a[0]) && CodePoint(a + b) == CodePoint(a)
    ensures (a + b)[Width(a[0])..] == a[Width(a[0])..] + b
  {
  }

  lemma {:induction false} DecodeAppend(a: seq<Byte>, b: seq<Byte>)
    requires Decode(a).Some?
    ensures Decode(a + b).Some? <==> Decode(b).Some?
    ensures Decode(b).Some? ==> Decode(a + b).value == Decode(a).value + Decode(b).value
    decreases |a|
  {
    if a == [] {
      assert a + b == b;
    } else {
      StartsWellAppend(a, b);
      DecodeAppend(a[Width(a[0])..], b);
    }
  }

  /** In a valid stream, the first k bytes decode exactly when byte k starts a character. */
  lemma {:induction false} CutDecodesExactlyAtCharacters(bs: seq<Byte>, k: nat)
    requires Decode(bs).Some? && k <= |bs|
    ensures Decode(bs[..k]).Some? <==> k == |bs| || !IsCont(bs[k])
    decreases |bs|
  {
    if bs == [] || k == 0 {
      assert bs[..k] == [];
    } else {
      var n := Width(bs[0]);
      if k < n {
        assert IsCont(bs[k]);
        assert !StartsWell(bs[..k]);
      } else {
        CutDecodesExactlyAtCharacters(bs[n..], k - n);
        assert bs[..k][n..] == bs[n..][..k - n];
        assert StartsWell(bs[..k]);
      }
    }
  }

  lemma {:induction false} LinesAppend(a: Text, b: Text)
    ensures Lines(a + b) == Lines(a) + Lines(Tail(a) + b)
    ensures Tail(a + b) == Tail(Tail(a) + b)
    decreases |a|
  {
    if NEWLINE in a {
      var k := FirstNewline(a);
      LinesAt(a, k);
      assert FirstAt(a + b, k) && (a + b)[..k] == a[..k] && (a + b)[k + 1..] == a[k + 1..] + b;
      LinesAt(a + b, k);
      LinesAppend(a[k + 1..], b);
      Assoc([a[..k]], Lines(a[k + 1..]), Lines(Tail(a) + b));
    } else {
      assert [] + Lines(a + b) == Lines(a + b);
    }
  }

  lemma Assoc<T>(a: seq<T>, b: seq<T>, c: seq<T>)
    ensures (a + b) + c == a + (b + c)
  {
  }

  function Then(o: Outcome, p: Outcome): Outcome {
    if o.alive then Outcome(o.effects + p.effects, p.alive) else o
  }

  lemma {:induction false} HandleAppend(parse: Text -> Parsed, a: seq<Text>, b: seq<Text>)
    ensures Handle(parse, a + b) == Then(Handle(parse, a), Handle(parse, b))
    decreases |a|
  {
    if a == [] {
      assert a + b == b;
      assert [] + Handle(parse, b).effects == Handle(parse, b).effects;
    } else {
      assert (a + b)[1..] == a[1..] + b;
      HandleAppend(parse, a[1..], b);
      var p, q := Handle(parse, a[1..]), Handle(parse, b);
      match parse(a[0])
      case Object(m) =>
        assert [Handled(m)] + (p.effects + q.effects) == ([Handled(m)] + p.effects) + q.effects;
      case _ =>
    }
  }

  // ---- main results ----

  function Concat(chunks: seq<seq<Byte>>): seq<Byte> {
    if chunks == [] then [] else Concat(chunks[..|chunks| - 1]) + chunks[|chunks| - 1]
  }

  ghost predicate AllDecode(chunks: seq<seq<Byte>>) {
    forall i :: 0 <= i < |chunks| ==> chunks[i] != [] && Decode(chunks[i]).Some?
  }

  /** Framing does not depend on chunking: whatever the split into chunks that each
      decode, the lines handled are the newline split of the whole stream and the
      buffer holds exactly the unterminated rest. */
  lemma {:induction false} ChunkingIsIrrelevant(parse: Text -> Parsed, chunks: seq<seq<Byte>>)
    requires AllDecode(chunks)
    ensures Decode(Concat(chunks)).Some?
    ensures var whole := Decode(Concat(chunks)).value;
            var o := Handle(parse, Lines(whole));
            RecvAll(parse, chunks) == Rx(if o.alive then Tail(whole) else [], o.alive, o.effects)
  {
    if chunks != [] {
      var before, last := chunks[..|chunks| - 1], chunks[|chunks| - 1];
      ChunkingIsIrrelevant(parse, before);
      DecodeAppend(Concat(before), last);
      var a, b := Decode(Concat(before)).value, Decode(last).value;
      LinesAppend(a, b);
      HandleAppend(parse, Lines(a), Lines(Tail(a) + b));
    }
  }

  /** No chunk boundary falls inside a character. */
  ghost predicate CutsBetweenCharacters(chunks: seq<seq<Byte>>) {
    forall i :: 0 <= i < |chunks| ==> chunks[i] != [] && !IsCont(chunks[i][0])
  }

  lemma AllDecodeSnoc(before: seq<seq<Byte>>, last: seq<Byte>)
    requires last != []
    ensures AllDecode(before + [last]) <==> AllDecode(before) && Decode(last).Some?
    ensures CutsBetweenCharacters(before + [last]) <==> CutsBetweenCharacters(before) && !IsCont(last[0])
  {
    var all := before + [last];
    assert all[|before|] == last && forall i :: 0 <= i < |before| ==> all[i] == before[i];
  }

  lemma ConcatSnoc(before: seq<seq<Byte>>, last: seq<Byte>)
    ensures Concat(before + [last]) == Concat(before) + last
  {
    assert (before + [last])[..|before|] == before;
  }

  /** What the last cut says about the chunk behind it. */
  lemma LastCut(before: seq<seq<Byte>>, last: seq<Byte>)
    requires last != [] && Decode(Concat(before) + last).Some?
    ensures Decode(Concat(before)).Some? <==> !IsCont(last[0])
    ensures Decode(Concat(before)).Some? ==> Decode(last).Some?
  {
    var k := |Concat(before)|;
    var whole := Concat(before) + last;
    assert whole[..k] == Concat(before) && whole[k] == last[0];
    CutDecodesExactlyAtCharacters(whole, k);
    if Decode(Concat(before)).Some? {
      DecodeAppend(Concat(before), last);
    }
  }

  lemma {:induction false} AllDecodeExactlyWhenCutWell(chunks: seq<seq<Byte>>)
    requires Decode(Concat(chunks)).Some?
    requires forall i :: 0 <= i < |chunks| ==> chunks[i] != []
    ensures AllDecode(chunks) <==> CutsBetweenCharacters(chunks)
  {
    if chunks != [] {
      var before, last := chunks[..|chunks| - 1], chunks[|chunks| - 1];
      assert chunks == before + [last];
      ConcatSnoc(before, last);
      AllDecodeSnoc(before, last);
      LastCut(before, last);
      if Decode(Concat(before)).Some? {
        AllDecodeExactlyWhenCutWell(before);
      } else if AllDecode(before) {
        ConcatDecodes(before);
      }
    }
  }

  lemma {:induction false} ConcatDecodes(chunks: seq<seq<Byte>>)
    requires AllDecode(chunks)
    ensures Decode(Concat(chunks)).Some?
  {
    if chunks != [] {
      ConcatDecodes(chunks[..|chunks| - 1]);
      DecodeAppend(Concat(chunks[..|chunks| - 1]), chunks[|chunks| - 1]);
    }
  }

  lemma {:induction false} BadChunkDrops(parse: Text -> Parsed, chunks: seq<seq<Byte>>)
    requires !AllDecode(chunks)
    ensures !RecvAll(parse, chunks).alive
  {
    var before, last := chunks[..|chunks| - 1], chunks[|chunks| - 1];
    if AllDecode(before) {
      assert last == [] || Decode(last).None?;
    } else {
      BadChunkDrops(parse, before);
    }
  }

  /** Blank, not JSON, or a JSON object whose compensation method is a number. */
  predicate Harmless(p: Parsed) { p.Blank? || p.Malformed? || (p.Object? && !p.m.compMethod.BadMethod?) }

  lemma {:induction false} AliveExactlyWhenHarmless(parse: Text -> Parsed, lines: seq<Text>)
    ensures Handle(parse, lines).alive <==> forall i :: 0 <= i < |lines| ==> Harmless(parse(lines[i]))
  {
    if lines != [] {
      var rest := lines[1..];
      AliveExactlyWhenHarmless(parse, rest);
      assert lines == [lines[0]] + rest;
      assert (forall i :: 0 <= i < |lines| ==> Harmless(parse(lines[i]))) ==> forall i :: 0 <= i < |rest| ==> rest[i] == lines[i + 1];
    }
  }

  /** The exact condition on a valid stream: the client survives the reads if and only
      if no read splits a character and every line is blank, no JSON, or an object with a
      good compensation method. */
  lemma {:induction false} SurvivesExactlyWhen(parse: Text -> Parsed, chunks: seq<seq<Byte>>)
    requires Decode(Concat(chunks)).Some?
    requires forall i :: 0 <= i < |chunks| ==> chunks[i] != []
    ensures RecvAll(parse, chunks).alive <==>
              var lines := Lines(Decode(Concat(chunks)).value);
              CutsBetweenCharacters(chunks) && forall i :: 0 <= i < |lines| ==> Harmless(parse(lines[i]))
  {
    AliveExactlyWhenHarmless(parse, Lines(Decode(Concat(chunks)).value));
    AllDecodeExactlyWhenCutWell(chunks);
    if AllDecode(chunks) {
      ChunkingIsIrrelevant(parse, chunks);
    } else {
      BadChunkDrops(parse, chunks);
    }
  }

  /** A two-byte character split over two reads drops the client, though the same
      bytes in one read do not. */
  lemma {:induction false} SplitCharacterDrops(parse: Text -> Parsed)
    ensures !RecvAll(parse, [[0xC3], [0xA9]]).alive
    ensures RecvAll(parse, [[0xC3, 0xA9]]).alive
  {
    var one: seq<seq<Byte>> := [[0xC3], [0xA9]];
    var two: seq<seq<Byte>> := [[0xC3, 0xA9]];
    assert !StartsWell(one[0]) && one[..1] == [one[0]];
    BadChunkDrops(parse, one);
    assert StartsWell(two[0]) && CodePoint(two[0]) == 0xE9 && two[0][2..] == [] && Concat(two[..0]) == [];
    assert [0xE9] + [] == [0xE9];
    ChunkingIsIrrelevant(parse, two);
    assert Concat(two) == two[0];
    assert Lines([0xE9]) == [];
  }

  /** A line changes nothing, wherever it stands, exactly when it is blank or not JSON;
      JSON that is no object raises instead. */
  lemma {:induction false} SkippedExactlyWhen(parse: Text -> Parsed, line: Text)
    ensures (forall a, b :: Handle(parse, a + [line] + b) == Handle(parse, a + b)) <==>
              parse(line).Blank? || parse(line).Malformed?
  {
    if parse(line).Blank? || parse(line).Malformed? {
      forall a, b ensures Handle(parse, a + [line] + b) == Handle(parse, a + b) {
        HandleAppend(parse, a, [line] + b);
        HandleAppend(parse, a, b);
        assert a + [line] + b == a + ([line] + b);
        assert ([line] + b)[1..] == b;
      }
    } else {
      var none: seq<Text> := [];
      assert none + [line] + none == [line];
      assert Handle(parse, [line]) != Handle(parse, none);
    }
  }
}
