/** Packing `#var=value` assignments into MDI lines of at most 250 characters. */
module MdiChunks {
  import opened Wrappers
  import opened Text

  const LIMIT: nat := 250

  /** One assignment as the gateway formats it; the value is in millionths. */
  function ItemText(key: string, micros: int): string {
    "#" + (key + ("=" + Fixed6(micros, false, 0)))
  }

  /** What formatting guarantees and the packer relies on: not empty, no space at either end. */
  predicate IsItem(s: string) {
    s != "" && !IsSpace(s[0]) && !IsSpace(s[|s| - 1])
  }

  lemma {:induction false} FormattedIsItem(key: string, micros: int)
    ensures IsItem(ItemText(key, micros))
  {
    var body := Fixed6Shape(micros, false, 0);
    var s := ItemText(key, micros);
    assert s[|s| - 1] == body[|body| - 1];
  }

  /** A formatted assignment is `#`, its key, `=` and a number that reads back as the value. */
  lemma {:induction false} FormattedReadsBack(key: string, micros: int) returns (value: string)
    ensures ItemText(key, micros) == "#" + key + "=" + value && FloatOf(value) == Some(MicroReal(micros))
  {
    value := Fixed6(micros, false, 0);
    Fixed6RoundTrip(micros, false, 0);
  }

  predicate AllItems(items: seq<string>) {
    forall i :: 0 <= i < |items| ==> IsItem(items[i])
  }

  function Line(group: seq<string>): string { Join(group, " ") }

  function Size(group: seq<string>): nat { |Line(group)| }

  // ---- greedy packing ----

  /** The groups still to be emitted when the open line holds `cur` (possibly nothing). */
  function Rest(cur: seq<string>, items: seq<string>): seq<seq<string>>
    decreases |items|
  {
    if items == [] then
      if cur == [] then [] else [cur]
    else if cur == [] then Rest([items[0]], items[1..])
    else if Size(cur) + 1 + |items[0]| > LIMIT then [cur] + Rest([items[0]], items[1..])
    else Rest(cur + [items[0]], items[1..])
  }

  function Pack(items: seq<string>): seq<seq<string>> { Rest([], items) }

  function Texts(groups: seq<seq<string>>): seq<string> {
    if groups == [] then [] else [Line(groups[0])] + Texts(groups[1..])
  }

  function Flatten(groups: seq<seq<string>>): seq<string> {
    if groups == [] then [] else groups[0] + Flatten(groups[1..])
  }

  // ---- joined text ----

  lemma {:induction false} JoinConcat(a: seq<string>, b: seq<string>)
    requires a != [] && b != []
    ensures Line(a + b) == Line(a) + " " + Line(b)
  {
    if |a| == 1 {
      assert (a + b)[1..] == b;
    } else {
      assert (a + b)[1..] == a[1..] + b;
      JoinConcat(a[1..], b);
      assert a[0] + " " + (Line(a[1..]) + " " + Line(b)) == a[0] + " " + Line(a[1..]) + " " + Line(b);
    }
  }

  lemma JoinSnoc(group: seq<string>, x: string)
    requires group != []
    ensures Line(group + [x]) == Line(group) + " " + x
  {
    JoinConcat(group, [x]);
  }

  lemma {:induction false} TextEnds(group: seq<string>)
    requires group != [] && AllItems(group)
    ensures IsItem(Line(group))
  {
    if |group| > 1 {
      TextEnds(group[1..]);
    }
  }

  /** The line extended by an item, as the source writes it. */
  lemma ExtendedLine(cur: seq<string>, item: string)
    requires cur != [] && AllItems(cur) && IsItem(item)
    ensures AllItems(cur + [item])
    ensures Strip(Line(cur) + " " + item) == Line(cur + [item]) != ""
  {
    JoinSnoc(cur, item);
    TextEnds(cur + [item]);
  }

  method PackChunks(items: seq<string>) returns (chunks: seq<string>)
    requires AllItems(items)
    ensures chunks == Texts(Pack(items))
  {
    var current := "";
    chunks := [];
    ghost var cur: seq<string> := [];
    assert items[0..] == items;
    assert [] + Texts(Pack(items)) == Texts(Pack(items));
    for i := 0 to |items|
      invariant AllItems(cur) && current == Line(cur) && (current == "" <==> cur == [])
      invariant chunks + Texts(Rest(cur, items[i..])) == Texts(Pack(items))
    {
      var item := items[i];
      assert items[i..][0] == item && items[i..][1..] == items[i + 1..];
      if current != "" && |current| + 1 + |item| > LIMIT {
        chunks := chunks + [current];
        current := item;
        cur := [item];
      } else if current != "" {
        ExtendedLine(cur, item);
        current := Strip(current + " " + item);
        cur := cur + [item];
      } else {
        current := item;
        cur := [item];
      }
    }
    assert items[|items|..] == [];
    if current != "" {
      chunks := chunks + [current];
    }
    assert chunks + [] == chunks;
  }

  // ---- nothing lost, nothing reordered ----

  lemma FlattenCons(g: seq<string>, rest: seq<seq<string>>)
    ensures Flatten([g] + rest) == g + Flatten(rest)
  {
    assert ([g] + rest)[1..] == rest;
  }

  ghost predicate NoEmpty(groups: seq<seq<string>>) {
    forall i :: 0 <= i < |groups| ==> groups[i] != []
  }

  /** The groups are the items in order, each line non-empty. */
  lemma {:induction false} PackFlattens(cur: seq<string>, items: seq<string>)
    ensures Flatten(Rest(cur, items)) == cur + items
    ensures NoEmpty(Rest(cur, items))
    decreases |items|
  {
    if items == [] {
      if cur != [] { FlattenCons(cur, []); }
    } else {
      var x, more := items[0], items[1..];
      assert items == [x] + more;
      if cur == [] {
        PackFlattens([x], more);
      } else if Size(cur) + 1 + |x| > LIMIT {
        PackFlattens([x], more);
        FlattenCons(cur, Rest([x], more));
      } else {
        PackFlattens(cur + [x], more);
        assert cur + [x] + more == cur + items;
      }
    }
  }

  lemma {:induction false} TextsRejoin(groups: seq<seq<string>>)
    requires NoEmpty(groups)
    ensures Join(Texts(groups), " ") == Line(Flatten(groups))
    ensures |Texts(groups)| == |groups|
    ensures groups != [] ==> Flatten(groups) != []
  {
    if |groups| == 1 {
      assert groups[1..] == [];
      assert Flatten(groups) == groups[0] + [];
      assert groups[0] + [] == groups[0];
    } else if |groups| > 1 {
      TextsRejoin(groups[1..]);
      JoinConcat(groups[0], Flatten(groups[1..]));
      assert Texts(groups)[1..] == Texts(groups[1..]);
    }
  }

  /** Conservation: the chunks rejoined with spaces are the items joined with spaces. */
  lemma {:induction false} ChunksRejoin(items: seq<string>)
    ensures Join(Texts(Pack(items)), " ") == Join(items, " ")
    ensures Flatten(Pack(items)) == items
  {
    PackFlattens([], items);
    assert [] + items == items;
    TextsRejoin(Pack(items));
  }

  // ---- the length bound ----

  ghost predicate ShortItems(items: seq<string>) {
    forall i :: 0 <= i < |items| ==> |items[i]| <= 250
  }

  ghost predicate Fits(groups: seq<seq<string>>) {
    forall i :: 0 <= i < |groups| ==> Size(groups[i]) <= 250
  }

  lemma {:induction false} RestFits(cur: seq<string>, items: seq<string>)
    requires ShortItems(items) && Size(cur) <= LIMIT
    ensures Fits(Rest(cur, items))
    decreases |items|
  {
    if items != [] {
      if cur == [] || Size(cur) + 1 + |items[0]| > LIMIT {
        RestFits([items[0]], items[1..]);
      } else {
        JoinSnoc(cur, items[0]);
        RestFits(cur + [items[0]], items[1..]);
      }
    }
  }

  /** Every line is at most 250 characters exactly when every item is. */
  lemma {:induction false} ChunksFitExactlyWhenItemsDo(items: seq<string>)
    ensures Fits(Pack(items)) <==> ShortItems(items)
  {
    if ShortItems(items) {
      assert Size([]) == 0;
      RestFits([], items);
    }
    if Fits(Pack(items)) {
      PackFlattens([], items);
      assert [] + items == items;
      ItemsOfFittingGroups(Pack(items));
    }
  }

  lemma {:induction false} ItemsOfFittingGroups(groups: seq<seq<string>>)
    requires Fits(groups)
    ensures ShortItems(Flatten(groups))
  {
    if groups != [] {
      ItemsOfFittingGroups(groups[1..]);
      PartsShorter(groups[0]);
    }
  }

  lemma {:induction false} PartsShorter(group: seq<string>)
    ensures forall i :: 0 <= i < |group| ==> |group[i]| <= Size(group)
  {
    if |group| > 1 {
      PartsShorter(group[1..]);
      forall i | 0 <= i < |group| ensures |group[i]| <= Size(group) {
        if i > 0 { assert group[i] == group[1..][i - 1]; }
      }
    }
  }

  // ---- optimality ----

  lemma PrefixShorter(a: seq<string>, b: seq<string>)
    requires a != []
    ensures Size(a) <= Size(a + b)
  {
    if b == [] { assert a + b == a; } else { JoinConcat(a, b); }
  }

  lemma SuffixShorter(a: seq<string>, b: seq<string>)
    requires b != []
    ensures Size(b) <= Size(a + b)
  {
    if a == [] { assert a + b == b; } else { JoinConcat(a, b); }
  }

  /** A fitting line cannot hold greedy's open line and the item that overflowed it. */
  lemma CannotOverflow(pre: seq<string>, cur: seq<string>, x: string, more: seq<string>, g: seq<string>)
    requires cur != [] && Size(cur) + 1 + |x| > LIMIT && Size(g) <= LIMIT
    requires g <= pre + cur + [x] + more
    ensures |g| <= |pre + cur|
  {
    if |g| > |pre + cur| {
      var over := cur + [x];
      var extra := g[|pre + cur| + 1..];
      assert g == pre + (over + extra);
      JoinSnoc(cur, x);
      PrefixShorter(over, extra);
      SuffixShorter(pre, over + extra);
    }
  }

  /** Greedy stays ahead: from any point it needs no more lines than a fitting
      packing that has at least as much left to place. */
  lemma {:induction false} GreedyStaysAhead(pre: seq<string>, cur: seq<string>, items: seq<string>, groups: seq<seq<string>>)
    requires cur != [] && Fits(groups) && Flatten(groups) == pre + cur + items
    ensures |Rest(cur, items)| <= |groups|
    decreases |items|
  {
    assert groups != [];
    if items != [] {
      var x, more := items[0], items[1..];
      assert pre + cur + items == pre + cur + [x] + more;
      if Size(cur) + 1 + |x| > LIMIT {
        var g := groups[0];
        CannotOverflow(pre, cur, x, more, g);
        var pre' := (pre + cur)[|g|..];
        assert Flatten(groups[1..]) == (pre + cur + items)[|g|..];
        assert (pre + cur + items)[|g|..] == pre' + [x] + more;
        GreedyStaysAhead(pre', [x], more, groups[1..]);
      } else {
        assert pre + (cur + [x]) + more == pre + cur + items;
        GreedyStaysAhead(pre, cur + [x], more, groups);
      }
    }
  }

  /** Optimality: no order-preserving packing within the limit uses fewer lines. */
  lemma {:induction false} PackIsOptimal(items: seq<string>, groups: seq<seq<string>>)
    requires Fits(groups) && Flatten(groups) == items
    ensures |Pack(items)| <= |groups|
  {
    if items != [] {
      assert items == [] + [items[0]] + items[1..];
      GreedyStaysAhead([], [items[0]], items[1..], groups);
    }
  }

  // ---- what the controller reads ----

  ghost predicate AllWords(items: seq<string>) { forall i :: 0 <= i < |items| ==> IsWord(items[i]) }

  /** The words of a list of lines, one after another. */
  function WordsOfAll(lines: seq<string>): seq<string> {
    if lines == [] then [] else Words(lines[0]) + WordsOfAll(lines[1..])
  }

  lemma OneWord(lead: string, w: string)
    requires AllSpace(lead) && IsWord(w)
    ensures Words(lead + w) == [w]
  {
    assert lead + w + "" == lead + w;
    WordsCons(lead, w, "");
    WordsBlank("");
  }

  lemma OneMore(lead: string, w: string, tail: string, ws: seq<string>)
    requires AllSpace(lead) && IsWord(w) && Words(" " + tail) == ws
    ensures Words(lead + (w + " " + tail)) == [w] + ws
  {
    assert lead + (w + " " + tail) == lead + w + (" " + tail);
    WordsCons(lead, w, " " + tail);
  }

  ghost predicate ReadsAs(lead: string, group: seq<string>) { Words(lead + Line(group)) == group }

  lemma ReadsAsMore(lead: string, group: seq<string>)
    requires |group| > 1 && AllSpace(lead) && IsWord(group[0]) && ReadsAs(" ", group[1..])
    ensures ReadsAs(lead, group)
  {
    OneMore(lead, group[0], Line(group[1..]), group[1..]);
    assert group == [group[0]] + group[1..];
  }

  lemma ReadsAsShort(lead: string, group: seq<string>)
    requires |group| <= 1 && AllSpace(lead) && AllWords(group)
    ensures ReadsAs(lead, group)
  {
    if group == [] {
      assert lead + "" == lead;
      WordsBlank(lead);
    } else {
      OneWord(lead, group[0]);
    }
  }

  lemma {:induction false} WordsOfLine(lead: string, group: seq<string>)
    requires AllSpace(lead) && AllWords(group)
    ensures ReadsAs(lead, group)
    decreases |group|
  {
    if |group| <= 1 {
      ReadsAsShort(lead, group);
    } else {
      WordsOfLine(" ", group[1..]);
      ReadsAsMore(lead, group);
    }
  }

  lemma {:induction false} WordsOfTexts(groups: seq<seq<string>>)
    requires AllWords(Flatten(groups))
    ensures WordsOfAll(Texts(groups)) == Flatten(groups)
  {
    if groups != [] {
      var first, rest := groups[0], groups[1..];
      forall i | 0 <= i < |first| ensures IsWord(first[i]) { assert Flatten(groups)[i] == first[i]; }
      forall i | 0 <= i < |Flatten(rest)| ensures IsWord(Flatten(rest)[i]) {
        assert Flatten(groups)[|first| + i] == Flatten(rest)[i];
      }
      WordsOfTexts(rest);
      WordsOfLine("", first);
      assert "" + Line(first) == Line(first);
      assert Texts(groups)[1..] == Texts(rest);
    }
  }

  /** Split at blanks, the lines give back the assignments, each one and in order. */
  lemma {:induction false} ControllerReadsItems(items: seq<string>)
    requires AllWords(items)
    ensures WordsOfAll(Texts(Pack(items))) == items
  {
    PackFlattens([], items);
    assert [] + items == items;
    WordsOfTexts(Pack(items));
  }
}
