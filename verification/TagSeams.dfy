/**
 Whether what the strippers of internal/agent/runtime.go return is free of tags. No text between two blocks holds an
 opening tag, but neighbouring texts are joined: the result holds one exactly when a seam completes it.
 */
module TagSeams {
  import opened Common
  import opened Strings
  import opened TagStripper

  /** `a` ends in the first `k` characters of the tag and `b` goes on with the others. */
  ghost predicate Straddles(a: string, b: string, tag: string, k: nat) {
    1 <= k < |tag| && k <= |a| && a[|a| - k..] == tag[..k] && tag[k..] <= b
  }

  ghost predicate CanStraddle(a: string, b: string, tag: string) { exists k: nat :: Straddles(a, b, tag, k) }

  /** The tag straddles the end of the i-th text. */
  ghost predicate Seam(texts: seq<string>, tag: string, i: nat, k: nat) {
    i < |texts| && Straddles(texts[i], Flatten(texts[i + 1..]), tag, k)
  }

  ghost predicate HasSeam(texts: seq<string>, tag: string) { exists i: nat, k: nat :: Seam(texts, tag, i, k) }

  // ---------------------------------------------------------------- occurrences in a concatenation

  lemma OccursInConcat(a: string, b: string, tag: string, j: nat)
    requires tag != "" && OccursAt(a + b, tag, j)
    ensures Contains(a, tag) || Contains(b, tag) || CanStraddle(a, b, tag)
  {
    var s := a + b;
    if j + |tag| <= |a| {
      assert a[j..j + |tag|] == s[j..j + |tag|];
      assert OccursAt(a, tag, j);
    } else if |a| <= j {
      assert b[j - |a|..j - |a| + |tag|] == s[j..j + |tag|];
      assert OccursAt(b, tag, j - |a|);
    } else {
      var k := |a| - j;
      assert a[j..] == s[j..|a|] == tag[..k];
      assert b[..|tag| - k] == s[|a|..j + |tag|] == tag[k..];
      assert Straddles(a, b, tag, k);
    }
  }

  lemma OccurrenceStays(a: string, b: string, c: string, tag: string)
    requires Contains(b, tag)
    ensures Contains(a + b + c, tag)
  {
    var j := Index(b, tag);
    assert (a + b + c)[|a| + j..|a| + j + |tag|] == b[j..j + |tag|];
    assert OccursAt(a + b + c, tag, |a| + j);
  }

  lemma StraddlingOccurs(a: string, b: string, tag: string, k: nat)
    requires Straddles(a, b, tag, k)
    ensures Contains(a + b, tag)
  {
    var j := |a| - k;
    assert (a + b)[j..j + |tag|] == a[j..] + b[..|tag| - k] == tag[..k] + tag[k..];
    assert OccursAt(a + b, tag, j);
  }

  /** A concatenation holds the tag exactly when a part does or it straddles the border. */
  lemma ContainsConcat(a: string, b: string, tag: string)
    requires tag != ""
    ensures Contains(a + b, tag) <==> Contains(a, tag) || Contains(b, tag) || CanStraddle(a, b, tag)
  {
    if Contains(a + b, tag) { OccursInConcat(a, b, tag, Index(a + b, tag)); }
    if Contains(a, tag) {
      OccurrenceStays("", a, b, tag);
      assert "" + a + b == a + b;
    }
    if Contains(b, tag) {
      OccurrenceStays(a, b, "", tag);
      assert a + b + "" == a + b;
    }
    if CanStraddle(a, b, tag) {
      var k: nat :| Straddles(a, b, tag, k);
      StraddlingOccurs(a, b, tag, k);
    }
  }

  /** Joined texts, none of which holds the tag, hold it exactly when they have a seam. */
  lemma {:induction false} TagIffSeam(texts: seq<string>, tag: string)
    requires tag != "" && forall t <- texts :: !Contains(t, tag)
    ensures Contains(Flatten(texts), tag) <==> HasSeam(texts, tag)
  {
    if texts == [] {
      assert !OccursAt("", tag, 0);
    } else {
      var rest := texts[1..];
      assert forall t <- rest :: t in texts;
      TagIffSeam(rest, tag);
      assert texts == [texts[0]] + rest;
      FlattenCons(texts[0], rest);
      ContainsConcat(texts[0], Flatten(rest), tag);
      SeamOfRest(texts, tag);
    }
  }

  lemma SeamOfRest(texts: seq<string>, tag: string)
    requires texts != []
    ensures HasSeam(texts, tag)
       <==> CanStraddle(texts[0], Flatten(texts[1..]), tag) || HasSeam(texts[1..], tag)
  {
    var rest := texts[1..];
    forall i: nat, k: nat ensures i >= 1 ==> (Seam(texts, tag, i, k) <==> Seam(rest, tag, i - 1, k)) {
      if 1 <= i < |texts| { assert texts[i + 1..] == rest[i..]; }
    }
    if HasSeam(texts, tag) {
      var i: nat, k: nat :| Seam(texts, tag, i, k);
      if i >= 1 { assert Seam(rest, tag, i - 1, k); }
    }
    if HasSeam(rest, tag) {
      var i: nat, k: nat :| Seam(rest, tag, i, k);
      assert texts[i + 2..] == rest[i + 1..];
      assert Seam(texts, tag, i + 1, k);
    }
    if CanStraddle(texts[0], Flatten(rest), tag) {
      var k: nat :| Straddles(texts[0], Flatten(rest), tag, k);
      assert Seam(texts, tag, 0, k);
    }
  }

  // ---------------------------------------------------------------- joining and trimming

  lemma {:induction false} JoinIsFlatten(parts: seq<string>)
    ensures Join(parts, "") == Flatten(parts)
  {
    if parts != [] {
      var init := DropLast(parts);
      JoinIsFlatten(init);
      JoinSnoc(init, "", Last(parts));
      assert parts == init + [Last(parts)];
    }
  }

  lemma OccurrenceInside(s: string, tag: string, p: nat, i: nat, j: nat)
    requires tag != "" && (forall c <- tag :: !IsSpace(c)) && OccursAt(s, tag, p) && TrimmedTo(s, IsSpace, i, j)
    ensures i <= p && p + |tag| <= j
  {
    OccursPointwise(s, tag, p, 0);
    OccursPointwise(s, tag, p, |tag| - 1);
    assert tag[0] in tag && tag[|tag| - 1] in tag;
  }

  lemma SliceOfSlice(s: string, i: nat, j: nat, a: nat, b: nat)
    requires i <= j <= |s| && a <= b <= j - i
    ensures s[i..j][a..b] == s[i + a..i + b]
  {
    var t := s[i..j];
    assert forall x :: 0 <= x < |t| ==> t[x] == s[i + x];
    assert |t[a..b]| == |s[i + a..i + b]|;
    assert forall x :: 0 <= x < b - a ==> t[a..b][x] == t[a + x] && s[i + a..i + b][x] == s[i + a + x];
  }

  lemma OccursInSlice(s: string, tag: string, p: nat, i: nat, j: nat)
    requires OccursAt(s, tag, p) && i <= p && p + |tag| <= j <= |s|
    ensures Contains(s[i..j], tag)
  {
    var a, b := p - i, p - i + |tag|;
    SliceOfSlice(s, i, j, a, b);
    assert OccursAt(s[i..j], tag, p - i);
  }

  /** Trimming spaces neither makes nor breaks a tag without spaces. */
  lemma TrimKeepsTags(s: string, tag: string)
    requires tag != "" && forall c <- tag :: !IsSpace(c)
    ensures Contains(TrimSpace(s), tag) <==> Contains(s, tag)
  {
    TrimResult(s, IsSpace);
    var i, j :| TrimmedTo(s, IsSpace, i, j) && Trim(s, IsSpace) == s[i..j];
    if Contains(s[i..j], tag) {
      OccurrenceStays(s[..i], s[i..j], s[j..], tag);
      assert s[..i] + s[i..j] + s[j..] == s;
    }
    if Contains(s, tag) {
      OccurrenceInside(s, tag, Index(s, tag), i, j);
      OccursInSlice(s, tag, Index(s, tag), i, j);
    }
  }

  // ---------------------------------------------------------------- the strippers

  lemma EndsBeforeHoldsNone(t: string, tag: string)
    requires tag != "" && EndsBefore(t, tag)
    ensures !Contains(t, tag)
  {
    if Contains(t, tag) {
      var j := Index(t, tag);
      assert (t + tag)[j..j + |tag|] == t[j..j + |tag|];
      assert OccursAt(t + tag, tag, j);
    }
  }

  lemma TextsHoldNone(open: string, close: string, content: string)
    requires open != ""
    ensures forall t <- Cut(open, close, content).texts :: !Contains(t, open)
  {
    CutIsLeftmost(open, close, content);
    var d := Cut(open, close, content);
    forall i: nat | i < |d.texts| ensures !Contains(d.texts[i], open) {
      if i < |d.blocks| || d.tail.Some? { EndsBeforeHoldsNone(d.texts[i], open); }
    }
  }

  lemma ThinkTagHasNoSpace()
    ensures forall c <- THINK_OPEN :: !IsSpace(c)
  {
  }

  /**
   For every model output: what stripThinkTags shows holds a `<think>` exactly when the texts around the removed blocks
   have a seam.
   */
  lemma ShownTagIffSeam(content: string)
    ensures Contains(Shown(content), THINK_OPEN) <==> HasSeam(Cut(THINK_OPEN, THINK_CLOSE, content).texts, THINK_OPEN)
  {
    var d := Cut(THINK_OPEN, THINK_CLOSE, content);
    TextsHoldNone(THINK_OPEN, THINK_CLOSE, content);
    TagIffSeam(d.texts, THINK_OPEN);
    JoinIsFlatten(d.texts);
    ThinkTagHasNoSpace();
    TrimKeepsTags(Join(d.texts, ""), THINK_OPEN);
  }

  /** The same for stripChatTemplateTokens; there an unclosed marker stays as well. */
  lemma ShownMarkerIffSeam(content: string)
    ensures var d := Cut(MARKER_OPEN, MARKER_CLOSE, content);
            Contains(ShownTemplate(content), MARKER_OPEN) <==> d.tail.Some? || HasSeam(d.texts, MARKER_OPEN)
  {
    var d := Cut(MARKER_OPEN, MARKER_CLOSE, content);
    TextsHoldNone(MARKER_OPEN, MARKER_CLOSE, content);
    TagIffSeam(d.texts, MARKER_OPEN);
    TrimKeepsTags(Rest(MARKER_OPEN, d), MARKER_OPEN);
    if d.tail.Some? {
      var rest := d.tail.value;
      assert OccursAt(MARKER_OPEN, MARKER_OPEN, 0);
      OccurrenceStays(Flatten(d.texts), MARKER_OPEN, rest, MARKER_OPEN);
      Assoc(Flatten(d.texts), MARKER_OPEN, rest);
    } else {
      assert Rest(MARKER_OPEN, d) == Flatten(d.texts);
    }
  }

  // ---------------------------------------------------------------- a check on the input

  /** Somewhere a proper beginning of the tag stands right before the tag. */
  ghost predicate Stutters(content: string, tag: string) {
    exists k: nat | 1 <= k < |tag| :: Contains(content, tag[..k] + tag)
  }

  lemma {:induction false} TextBeforeTag(open: string, close: string, texts: seq<string>, blocks: seq<string>, i: nat,
                                         s: string)
    requires |texts| == |blocks| + 1 && i < |blocks| && Contains(texts[i] + open, s)
    ensures Contains(Interleave(open, close, texts, blocks), s)
  {
    var rest := Interleave(open, close, texts[1..], blocks[1..]);
    if i == 0 {
      OccurrenceStays("", texts[0] + open, blocks[0] + close + rest, s);
      assert "" + (texts[0] + open) + (blocks[0] + close + rest) == Interleave(open, close, texts, blocks);
    } else {
      TextBeforeTag(open, close, texts[1..], blocks[1..], i - 1, s);
      OccurrenceStays(texts[0] + open + blocks[0] + close, rest, "", s);
      assert texts[0] + open + blocks[0] + close + rest + "" == Interleave(open, close, texts, blocks);
    }
  }

  lemma EndMeetsTag(t: string, open: string, k: nat)
    requires 1 <= k < |open| && k <= |t| && t[|t| - k..] == open[..k]
    ensures Contains(t + open, open[..k] + open)
  {
    var s := open[..k] + open;
    assert (t + open)[|t| - k..|t| - k + |s|] == t[|t| - k..] + open;
    assert OccursAt(t + open, s, |t| - k);
  }

  lemma PiecesHold(open: string, close: string, d: Pieces, s: string)
    requires |d.texts| == |d.blocks| + 1 && Contains(Interleave(open, close, d.texts, d.blocks), s)
    ensures Contains(Reassemble(open, close, d), s)
  {
    var all := Interleave(open, close, d.texts, d.blocks);
    OccurrenceStays("", all, if d.tail.Some? then open + d.tail.value else "", s);
    assert "" + all == all;
  }

  lemma SeamStutters(open: string, close: string, content: string, i: nat, k: nat)
    requires open != "" && Seam(Cut(open, close, content).texts, open, i, k)
    ensures Contains(content, open[..k] + open)
  {
    var d := Cut(open, close, content);
    CutReassembles(open, close, content);
    SeamNotLast(d.texts, open, i, k);
    EndMeetsTag(d.texts[i], open, k);
    TextBeforeTag(open, close, d.texts, d.blocks, i, open[..k] + open);
    PiecesHold(open, close, d, open[..k] + open);
  }

  lemma SeamNotLast(texts: seq<string>, tag: string, i: nat, k: nat)
    requires Seam(texts, tag, i, k)
    ensures i + 1 < |texts|
  {
    var rest := texts[i + 1..];
    assert rest == [] ==> Flatten(rest) == "";
  }

  /** An output in which no beginning of the tag stands right before the tag is stripped of all tags. */
  lemma NoStutterNoTag(content: string)
    requires !Stutters(content, THINK_OPEN)
    ensures !Contains(Shown(content), THINK_OPEN)
  {
    var d := Cut(THINK_OPEN, THINK_CLOSE, content);
    ShownTagIffSeam(content);
    forall i: nat, k: nat ensures !Seam(d.texts, THINK_OPEN, i, k) {
      if Seam(d.texts, THINK_OPEN, i, k) { SeamStutters(THINK_OPEN, THINK_CLOSE, content, i, k); }
    }
  }
}
