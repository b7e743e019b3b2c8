/**
 The cleaning of model output in internal/agent/runtime.go: stripThinkTags removes `<think>` blocks and returns their
 text, stripChatTemplateTokens removes `<|...|>` tokens, salvageCleanSuffix keeps the paragraphs after the last bad one.
 */
module TagStripper {
  import opened Common
  import opened Strings

  // ---------------------------------------------------------------- decompositions

  /** Text cut at delimited blocks: texts[0], blocks[0], texts[1], ..., Last(texts), and perhaps an unclosed tail. */
  datatype Pieces = Pieces(texts: seq<string>, blocks: seq<string>, tail: Option<string>)

  // The blocks before each but the last of `texts`.
  function Interleave(open: string, close: string, texts: seq<string>, blocks: seq<string>): string
    requires |texts| == |blocks| + 1
  {
    if blocks == [] then texts[0]
    else texts[0] + open + blocks[0] + close + Interleave(open, close, texts[1..], blocks[1..])
  }

  function Reassemble(open: string, close: string, d: Pieces): string
    requires |d.texts| == |d.blocks| + 1
  {
    Interleave(open, close, d.texts, d.blocks) + if d.tail.Some? then open + d.tail.value else ""
  }

  // `sub` first occurs in `t + sub` at the very end.
  predicate EndsBefore(t: string, sub: string) { Index(t + sub, sub) == |t| }

  /** Every opening delimiter is the first one after the block before it, every closing one the first after that. */
  ghost predicate Leftmost(open: string, close: string, d: Pieces) {
    && |d.texts| == |d.blocks| + 1
    && (forall i :: 0 <= i < |d.blocks| ==> EndsBefore(d.texts[i], open) && EndsBefore(d.blocks[i], close))
    && (match d.tail
        case None => !Contains(Last(d.texts), open)
        case Some(rest) => EndsBefore(Last(d.texts), open) && !Contains(rest, close))
  }

  /** What a stripping loop finds next in the text that remains. */
  datatype Next = Clean | Unclosed(text: string, after: string) | Block(text: string, block: string, rest: string)

  function NextPiece(open: string, close: string, s: string): (n: Next)
    requires open != ""
    ensures n.Block? ==> |n.rest| < |s|
  {
    var start := Index(s, open);
    if start < 0 then Clean
    else
      var after := s[start + |open|..];
      var end := Index(after, close);
      if end < 0 then Unclosed(s[..start], after) else Block(s[..start], after[..end], after[end + |close|..])
  }

  function Cut(open: string, close: string, s: string): (d: Pieces)
    requires open != ""
    ensures |d.texts| == |d.blocks| + 1
    decreases |s|
  {
    match NextPiece(open, close, s)
    case Clean => Pieces([s], [], None)
    case Unclosed(text, after) => Pieces([text], [], Some(after))
    case Block(text, block, rest) => Prepend(text, block, Cut(open, close, rest))
  }

  function Prepend(text: string, block: string, d: Pieces): Pieces {
    Pieces([text] + d.texts, [block] + d.blocks, d.tail)
  }

  lemma PrependReassembles(open: string, close: string, text: string, block: string, d: Pieces)
    requires |d.texts| == |d.blocks| + 1
    ensures Reassemble(open, close, Prepend(text, block, d)) == text + open + block + close + Reassemble(open, close, d)
  {
  }

  lemma IndexEndsBefore(s: string, sub: string)
    requires Index(s, sub) >= 0
    ensures EndsBefore(s[..Index(s, sub)], sub)
  {
    var i := Index(s, sub);
    SplitAt(s, sub, i);
    IndexIgnoresTail(s[..i], sub, s[i + |sub|..]);
  }

  lemma Regroup(a: string, b: string, c: string, d: string, e: string)
    ensures a + b + (c + d + e) == a + b + c + d + e
  {
  }

  lemma NextPieceIsFirst(open: string, close: string, s: string)
    requires open != ""
    ensures match NextPiece(open, close, s)
            case Clean => !Contains(s, open)
            case Unclosed(text, after) => s == text + open + after && EndsBefore(text, open) && !Contains(after, close)
            case Block(text, block, rest) =>
              s == text + open + block + close + rest && EndsBefore(text, open) && EndsBefore(block, close)
  {
    var start := Index(s, open);
    if start >= 0 {
      var text, after := s[..start], s[start + |open|..];
      var end := Index(after, close);
      SplitAt(s, open, start);
      IndexEndsBefore(s, open);
      if end >= 0 {
        SplitAt(after, close, end);
        IndexEndsBefore(after, close);
        Regroup(text, open, after[..end], close, after[end + |close|..]);
      }
    }
  }

  lemma FirstPiece(text: string, sub: string, after: string)
    requires EndsBefore(text, sub)
    ensures var s := text + sub + after;
            Index(s, sub) == |text| && s[..|text|] == text && s[|text| + |sub|..] == after
  {
    IndexIgnoresTail(text, sub, after);
  }

  lemma NextUnclosed(open: string, close: string, text: string, rest: string)
    requires open != "" && EndsBefore(text, open) && !Contains(rest, close)
    ensures NextPiece(open, close, text + open + rest) == Unclosed(text, rest)
  {
    FirstPiece(text, open, rest);
  }

  lemma NextBlock(open: string, close: string, text: string, block: string, r: string)
    requires open != "" && EndsBefore(text, open) && EndsBefore(block, close)
    ensures NextPiece(open, close, text + open + block + close + r) == Block(text, block, r)
  {
    Regroup(text, open, block, close, r);
    FirstPiece(text, open, block + close + r);
    FirstPiece(block, close, r);
  }

  lemma CutOnce(open: string, close: string, text: string, block: string, r: string)
    requires EndsBefore(text, open) && EndsBefore(block, close) && |r| < |open|
    ensures Cut(open, close, text + open + block + close + r) == Pieces([text, r], [block], None)
  {
    NextBlock(open, close, text, block, r);
    assert Cut(open, close, r) == Pieces([r], [], None);
  }

  lemma {:induction false} CutReassembles(open: string, close: string, s: string)
    requires open != ""
    ensures Reassemble(open, close, Cut(open, close, s)) == s
    decreases |s|
  {
    NextPieceIsFirst(open, close, s);
    match NextPiece(open, close, s)
    case Block(text, block, rest) =>
      CutReassembles(open, close, rest);
      PrependReassembles(open, close, text, block, Cut(open, close, rest));
    case _ =>
  }

  lemma LeftmostPrepend(open: string, close: string, text: string, block: string, d: Pieces)
    requires Leftmost(open, close, d) && EndsBefore(text, open) && EndsBefore(block, close)
    ensures Leftmost(open, close, Prepend(text, block, d))
  {
  }

  lemma {:induction false} CutIsLeftmost(open: string, close: string, s: string)
    requires open != ""
    ensures Leftmost(open, close, Cut(open, close, s))
    decreases |s|
  {
    NextPieceIsFirst(open, close, s);
    match NextPiece(open, close, s)
    case Block(text, block, rest) =>
      CutIsLeftmost(open, close, rest);
      LeftmostPrepend(open, close, text, block, Cut(open, close, rest));
    case _ =>
  }

  lemma {:induction false} LeftmostIsUnique(open: string, close: string, d: Pieces)
    requires open != "" && Leftmost(open, close, d)
    ensures Cut(open, close, Reassemble(open, close, d)) == d
    decreases |d.blocks|
  {
    if d.blocks == [] {
      assert d.texts == [d.texts[0]];
      if d.tail.Some? {
        NextUnclosed(open, close, d.texts[0], d.tail.value);
        assert Reassemble(open, close, d) == d.texts[0] + open + d.tail.value;
      } else {
        assert Reassemble(open, close, d) == d.texts[0];
      }
    } else {
      var rest := Pieces(d.texts[1..], d.blocks[1..], d.tail);
      assert d == Prepend(d.texts[0], d.blocks[0], rest);
      assert Leftmost(open, close, rest) by { assert Last(rest.texts) == Last(d.texts); }
      LeftmostIsUnique(open, close, rest);
      PrependReassembles(open, close, d.texts[0], d.blocks[0], rest);
      NextBlock(open, close, d.texts[0], d.blocks[0], Reassemble(open, close, rest));
    }
  }

  /**
   Cut computes the one leftmost decomposition of a text: its pieces put together again are the text, and no other
   leftmost decomposition has that property.
   */
  lemma CutIsTheDecomposition(open: string, close: string, s: string, d: Pieces)
    requires open != ""
    ensures d == Cut(open, close, s) <==> Leftmost(open, close, d) && Reassemble(open, close, d) == s
  {
    CutIsLeftmost(open, close, s);
    CutReassembles(open, close, s);
    if Leftmost(open, close, d) { LeftmostIsUnique(open, close, d); }
  }

  // ---------------------------------------------------------------- stripThinkTags

  const THINK_OPEN: string := "<think>"
  const THINK_CLOSE: string := "</think>"

  function Trimmed(parts: seq<string>): seq<string> { seq(|parts|, i requires 0 <= i < |parts| => TrimSpace(parts[i])) }

  function TailPart(tail: Option<string>): seq<string> { if tail.Some? then [tail.value] else [] }

  /** The blocks of a decomposition, an unclosed one included, each trimmed. */
  function Thoughts(d: Pieces): seq<string> { Trimmed(d.blocks + TailPart(d.tail)) }

  // A text with spaces around it.
  ghost predicate SpacedOut(whole: string, inner: string) {
    && (inner != "" ==> !IsSpace(inner[0]) && !IsSpace(Last(inner)))
    && exists i, j :: TrimmedTo(whole, IsSpace, i, j) && inner == whole[i..j]
  }

  /** The thoughts are the blocks in order and then an unclosed tail, each without the spaces around it. */
  lemma ThoughtsAreBlocks(d: Pieces)
    ensures |Thoughts(d)| == |d.blocks| + if d.tail.Some? then 1 else 0
    ensures forall i :: 0 <= i < |d.blocks| ==> SpacedOut(d.blocks[i], Thoughts(d)[i])
    ensures d.tail.Some? ==> SpacedOut(d.tail.value, Last(Thoughts(d)))
  {
    forall i | 0 <= i < |d.blocks| ensures SpacedOut(d.blocks[i], Thoughts(d)[i]) {
      TrimResult(d.blocks[i], IsSpace);
    }
    if d.tail.Some? { TrimResult(d.tail.value, IsSpace); }
  }

  // The decomposition `d` starts with what was found so far and goes on with `rest`.
  ghost predicate SoFar(d: Pieces, texts: seq<string>, thoughts: seq<string>, rest: Pieces) {
    d.texts == texts + rest.texts && Thoughts(d) == thoughts + Thoughts(rest)
  }

  lemma SoFarPrepend(d: Pieces, texts: seq<string>, thoughts: seq<string>, text: string, block: string, rest: Pieces)
    requires SoFar(d, texts, thoughts, Prepend(text, block, rest))
    ensures SoFar(d, texts + [text], thoughts + [TrimSpace(block)], rest)
  {
  }

  lemma SoFarEnd(d: Pieces, texts: seq<string>, thoughts: seq<string>, text: string, tail: Option<string>)
    requires SoFar(d, texts, thoughts, Pieces([text], [], tail))
    ensures d.texts == texts + [text]
    ensures Thoughts(d) == if tail.None? then thoughts else thoughts + [TrimSpace(tail.value)]
  {
  }

  /** The loop of stripThinkTags. */
  method CutBlocks(content: string, openTag: string, closeTag: string)
    returns (cleanParts: seq<string>, thinkParts: seq<string>)
    requires openTag != ""
    ensures cleanParts == Cut(openTag, closeTag, content).texts
    ensures thinkParts == Thoughts(Cut(openTag, closeTag, content))
  {
    thinkParts, cleanParts := [], [];
    var remaining := content;
    ghost var d := Cut(openTag, closeTag, content);
    while true
      invariant SoFar(d, cleanParts, thinkParts, Cut(openTag, closeTag, remaining))
      decreases |remaining|
    {
      match NextPiece(openTag, closeTag, remaining) {
        case Clean =>
          SoFarEnd(d, cleanParts, thinkParts, remaining, None);
          return cleanParts + [remaining], thinkParts;
        case Unclosed(text, afterOpen) =>
          SoFarEnd(d, cleanParts, thinkParts, text, Some(afterOpen));
          return cleanParts + [text], thinkParts + [TrimSpace(afterOpen)];
        case Block(text, block, rest) =>
          SoFarPrepend(d, cleanParts, thinkParts, text, block, Cut(openTag, closeTag, rest));
          cleanParts, thinkParts := cleanParts + [text], thinkParts + [TrimSpace(block)];
          remaining := rest;
      }
    }
  }

  /** What is left of an output that has a tag. */
  function Shown(content: string): string { TrimSpace(Join(Cut(THINK_OPEN, THINK_CLOSE, content).texts, "")) }

  /** The visible text is the texts between the blocks, the thinking text the blocks, an unclosed one included. */
  method StripThinkTags(content: string) returns (cleaned: string, thinking: string)
    ensures !Contains(content, "<think>") ==> cleaned == content && thinking == ""
    ensures Contains(content, "<think>") ==>
              && cleaned == Shown(content)
              && thinking == TrimSpace(Join(Thoughts(Cut("<think>", "</think>", content)), "\n\n"))
  {
    if !Contains(content, THINK_OPEN) { return content, ""; }
    var cleanParts, thinkParts := CutBlocks(content, THINK_OPEN, THINK_CLOSE);
    cleaned := TrimSpace(Join(cleanParts, ""));
    thinking := TrimSpace(Join(thinkParts, "\n\n"));
  }

  lemma OccursPointwise(s: string, sub: string, j: nat, k: nat)
    requires OccursAt(s, sub, j) && k < |sub|
    ensures s[j + k] == sub[k]
  {
  }

  lemma StartsLater(t: string, sub: string, mismatch: nat)
    requires mismatch < |sub| && (t == "" || (t + sub)[mismatch] != sub[mismatch])
    requires sub != "" && forall j :: 1 <= j < |t| ==> t[j] != sub[0]
    ensures EndsBefore(t, sub)
  {
    forall j: nat | j < |t| ensures !OccursAt(t + sub, sub, j) {
      if OccursAt(t + sub, sub, j) {
        OccursPointwise(t + sub, sub, j, if j == 0 then mismatch else 0);
        assert false;
      }
    }
    assert OccursAt(t + sub, sub, |t|);
    IndexIs(t + sub, sub, |t|);
  }

  /** The visible text can contain a tag again: the texts around a block may join into one. */
  lemma JoinedTextCanHoldATag()
    ensures Cut(THINK_OPEN, THINK_CLOSE, "<thi<think>x</think>nk>") == Pieces(["<thi", "nk>"], ["x"], None)
    ensures Shown("<thi<think>x</think>nk>") == THINK_OPEN
  {
    TagsFollow();
    CutOnce(THINK_OPEN, THINK_CLOSE, "<thi", "x", "nk>");
    Spelled();
    SeamJoins();
  }

  lemma TagsFollow()
    ensures EndsBefore("<thi", THINK_OPEN) && EndsBefore("x", THINK_CLOSE)
  {
    StartsLater("<thi", THINK_OPEN, 4);
    StartsLater("x", THINK_CLOSE, 0);
  }

  lemma Spelled()
    ensures "<thi" + THINK_OPEN + "x" + THINK_CLOSE + "nk>" == "<thi<think>x</think>nk>"
  {
  }

  lemma SeamJoins()
    ensures TrimSpace(Join(["<thi", "nk>"], "")) == THINK_OPEN
  {
  }

  // ---------------------------------------------------------------- stripChatTemplateTokens

  const MARKER_OPEN: string := "<|"
  const MARKER_CLOSE: string := "|>"

  function KeptTail(marker: string, tail: Option<string>): string { if tail.Some? then marker + tail.value else "" }

  // What is left of a decomposed text: the texts, and an unclosed tail.
  function Rest(marker: string, d: Pieces): string { Flatten(d.texts) + KeptTail(marker, d.tail) }

  /** What is left without the complete tokens: nothing else is dropped, and the texts close up. */
  lemma RestClosesUp(marker: string, closing: string, d: Pieces)
    requires |d.texts| == |d.blocks| + 1
    ensures d.blocks == [] ==> Rest(marker, d) == Reassemble(marker, closing, d)
    ensures d.blocks != [] ==>
              Rest(marker, d) == d.texts[0] + Rest(marker, Pieces(d.texts[1..], d.blocks[1..], d.tail))
  {
    if d.blocks == [] {
      RestOfOne(marker, d.texts[0], d.tail);
      assert d.texts == [d.texts[0]];
    } else {
      var rest := Pieces(d.texts[1..], d.blocks[1..], d.tail);
      assert d == Prepend(d.texts[0], d.blocks[0], rest);
      RestPrepend(marker, d.texts[0], d.blocks[0], rest);
    }
  }

  lemma RestOfOne(marker: string, text: string, tail: Option<string>)
    ensures Rest(marker, Pieces([text], [], tail)) == if tail.None? then text else text + (marker + tail.value)
  {
    FlattenSnoc([], text);
    assert [] + [text] == [text];
  }

  lemma RestPrepend(marker: string, text: string, block: string, d: Pieces)
    ensures Rest(marker, Prepend(text, block, d)) == text + Rest(marker, d)
  {
    FlattenCons(text, d.texts);
    Assoc(text, Flatten(d.texts), KeptTail(marker, d.tail));
  }

  /** One turn of the loop below; an unclosed marker and what follows it are kept. */
  lemma RestStep(marker: string, closing: string, s: string)
    requires marker != ""
    ensures var all := Rest(marker, Cut(marker, closing, s));
            match NextPiece(marker, closing, s)
            case Clean => all == s
            case Unclosed(text, after) => all == text + (marker + after)
            case Block(text, _, rest) => all == text + Rest(marker, Cut(marker, closing, rest))
  {
    match NextPiece(marker, closing, s)
    case Clean => RestOfOne(marker, s, None);
    case Unclosed(text, after) => RestOfOne(marker, text, Some(after));
    case Block(text, block, rest) => RestPrepend(marker, text, block, Cut(marker, closing, rest));
  }

  /** The loop of stripChatTemplateTokens. */
  method SkipTokens(content: string, marker: string, closing: string) returns (sb: string)
    requires marker != ""
    ensures sb == Rest(marker, Cut(marker, closing, content))
  {
    sb := "";
    var remaining := content;
    ghost var all := Rest(marker, Cut(marker, closing, content));
    while true
      invariant all == sb + Rest(marker, Cut(marker, closing, remaining))
      decreases |remaining|
    {
      RestStep(marker, closing, remaining);
      match NextPiece(marker, closing, remaining) {
        case Clean =>
          return sb + remaining;
        case Unclosed(text, after) =>
          Assoc(sb, text, marker + after);
          return sb + text + (marker + after);
        case Block(text, _, rest) =>
          Assoc(sb, text, Rest(marker, Cut(marker, closing, rest)));
          sb := sb + text;
          remaining := rest;
      }
    }
  }

  function ShownTemplate(content: string): string {
    TrimSpace(Rest(MARKER_OPEN, Cut(MARKER_OPEN, MARKER_CLOSE, content)))
  }

  /** Only complete tokens go; what follows an unclosed marker stays, marker included. */
  method StripChatTemplateTokens(content: string) returns (cleaned: string)
    ensures !Contains(content, "<|") ==> cleaned == content
    ensures Contains(content, "<|") ==>
              cleaned == ShownTemplate(content) == TrimSpace(Rest("<|", Cut("<|", "|>", content)))
  {
    if !Contains(content, MARKER_OPEN) { return content; }
    var sb := SkipTokens(content, MARKER_OPEN, MARKER_CLOSE);
    cleaned := TrimSpace(sb);
  }

  // ---------------------------------------------------------------- salvageCleanSuffix

  const MIN_SALVAGE: nat := 10

  predicate NonBlank(p: string) { p != "" }

  /** The non-blank paragraphs behind the last bad one; `parts` are the paragraphs, trimmed. */
  function Kept(parts: seq<string>, bad: string -> bool): seq<string> {
    if parts == [] then []
    else if Last(parts) == "" then Kept(DropLast(parts), bad)
    else if bad(Last(parts)) then []
    else Kept(DropLast(parts), bad) + [Last(parts)]
  }

  ghost predicate CleanFrom(parts: seq<string>, bad: string -> bool, j: nat) {
    forall k :: j <= k < |parts| && parts[k] != "" ==> !bad(parts[k])
  }

  function CleanStart(parts: seq<string>, bad: string -> bool): nat {
    if parts == [] then 0
    else if Last(parts) != "" && bad(Last(parts)) then |parts|
    else CleanStart(DropLast(parts), bad)
  }

  lemma {:induction false} CleanStartIsLeast(parts: seq<string>, bad: string -> bool, i: nat)
    requires i <= |parts|
    ensures CleanStart(parts, bad) <= |parts|
    ensures CleanFrom(parts, bad, i) <==> CleanStart(parts, bad) <= i
  {
    if parts != [] {
      var init := DropLast(parts);
      CleanStartIsLeast(init, bad, if i <= |init| then i else |init|);
    }
  }

  lemma {:induction false} KeptIsTail(parts: seq<string>, bad: string -> bool)
    ensures CleanStart(parts, bad) <= |parts|
    ensures Kept(parts, bad) == Filter(NonBlank, parts[CleanStart(parts, bad)..])
  {
    if parts != [] {
      var init, p := DropLast(parts), Last(parts);
      KeptIsTail(init, bad);
      if p == "" || !bad(p) {
        var j := CleanStart(init, bad);
        assert parts[j..] == init[j..] + [p];
        FilterSnoc(NonBlank, init[j..], p);
      }
    }
  }

  /** What is kept is the longest clean tail: tails are clean from exactly its start on. */
  lemma KeptIsLongestCleanTail(parts: seq<string>, bad: string -> bool)
    ensures exists j: nat | j <= |parts| ::
              && Kept(parts, bad) == Filter(NonBlank, parts[j..])
              && forall i: nat | i <= |parts| :: CleanFrom(parts, bad, i) <==> j <= i
  {
    KeptIsTail(parts, bad);
    forall i: nat | i <= |parts| ensures CleanFrom(parts, bad, i) <==> CleanStart(parts, bad) <= i {
      CleanStartIsLeast(parts, bad, i);
    }
  }

  lemma KeptStep(parts: seq<string>, bad: string -> bool, i: nat, clean: seq<string>)
    requires i < |parts|
    ensures var p := parts[i];
            Kept(parts[..i + 1], bad) + Reversed(clean) ==
              if p == "" then Kept(parts[..i], bad) + Reversed(clean)
              else if bad(p) then Reversed(clean)
              else Kept(parts[..i], bad) + Reversed(clean + [p])
  {
    var p := parts[i];
    assert DropLast(parts[..i + 1]) == parts[..i];
    assert Reversed(clean + [p]) == [p] + Reversed(clean);
    assert Kept(parts[..i], bad) + [p] + Reversed(clean) == Kept(parts[..i], bad) + ([p] + Reversed(clean));
  }

  /** The loop that walks backwards. */
  method WalkBack(paragraphs: seq<string>, bad: string -> bool) returns (clean: seq<string>)
    ensures Reversed(clean) == Kept(Trimmed(paragraphs), bad)
  {
    ghost var parts := Trimmed(paragraphs);
    clean := [];
    var i := |paragraphs| - 1;
    assert parts[..i + 1] == parts;
    while i >= 0
      invariant -1 <= i < |paragraphs|
      invariant Kept(parts, bad) == Kept(parts[..i + 1], bad) + Reversed(clean)
    {
      KeptStep(parts, bad, i, clean);
      var p := TrimSpace(paragraphs[i]);
      if p == "" {
        i := i - 1;
        continue;
      }
      if bad(p) { break; }
      clean := clean + [p];
      i := i - 1;
    }
  }

  /** `bad` stands for isGarbledLine or isReasoningNarration; what is left is given up when it is too short. */
  method SalvageCleanSuffix(content: string, bad: string -> bool) returns (r: string)
    ensures var kept := Join(Kept(Trimmed(Split(content, "\n\n")), bad), "\n\n");
            r == if |kept| < 10 then "" else kept
  {
    var clean := WalkBack(Split(content, "\n\n"), bad);
    if |clean| == 0 { return ""; }
    var a := new string[|clean|](k requires 0 <= k < |clean| => clean[k]);
    assert a[..] == clean;
    ReverseInPlace(a);
    r := Join(a[..], "\n\n");
    if |r| < MIN_SALVAGE { return ""; }
  }
}
