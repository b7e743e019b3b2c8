/** The functions of Go's `strings` package that the models use. */
module Strings {
  import opened Common

  predicate OccursAt(s: string, sub: string, i: int) {
    0 <= i && i + |sub| <= |s| && s[i..i + |sub|] == sub
  }

  // `sub` occurs at `i` and nowhere before.
  predicate OccursFirst(s: string, sub: string, i: int) {
    OccursAt(s, sub, i) && forall j :: 0 <= j < i ==> !OccursAt(s, sub, j)
  }

  lemma {:induction false} OneOccursFirst(s: string, sub: string, k: nat)
    requires OccursAt(s, sub, k)
    ensures exists i :: 0 <= i <= |s| && OccursFirst(s, sub, i)
  {
    if j :| 0 <= j < k && OccursAt(s, sub, j) {
      OneOccursFirst(s, sub, j);
    } else {
      assert OccursFirst(s, sub, k);
    }
  }

  /** strings.Index: the first position at which `sub` occurs, or -1. */
  function Index(s: string, sub: string): (i: int)
    ensures i == -1 || OccursFirst(s, sub, i)
  {
    if k: nat :| k <= |s| && OccursAt(s, sub, k) then
      OneOccursFirst(s, sub, k);
      var i :| 0 <= i <= |s| && OccursFirst(s, sub, i);
      i
    else -1
  }

  lemma SplitAt(s: string, sub: string, i: int)
    requires OccursAt(s, sub, i)
    ensures s == s[..i] + sub + s[i + |sub|..]
  {
  }

  lemma IndexIs(s: string, sub: string, i: nat)
    requires OccursAt(s, sub, i) && forall j :: 0 <= j < i ==> !OccursAt(s, sub, j)
    ensures Index(s, sub) == i
  {
  }

  /** Text after the first occurrence does not move it. */
  lemma IndexIgnoresTail(a: string, sub: string, tail: string)
    ensures Index(a + sub + tail, sub) == Index(a + sub, sub)
    ensures 0 <= Index(a + sub, sub) <= |a|
  {
    assert OccursAt(a + sub, sub, |a|);
    var i := Index(a + sub, sub);
    assert i != -1 && i <= |a|;
    forall j | 0 <= j <= i ensures OccursAt(a + sub + tail, sub, j) == OccursAt(a + sub, sub, j) {
      assert (a + sub + tail)[j..j + |sub|] == (a + sub)[j..j + |sub|];
    }
    IndexIs(a + sub + tail, sub, i);
  }

  predicate Contains(s: string, sub: string) { Index(s, sub) >= 0 }

  /** unicode.IsSpace */
  predicate IsSpace(c: char) {
    c == '\t' || c == '\n' || c == '\U{0B}' || c == '\U{0C}' || c == '\r' || c == ' ' || c == '\U{85}'
    || c == '\U{A0}' || c == '\U{1680}' || '\U{2000}' <= c <= '\U{200A}' || c == '\U{2028}' || c == '\U{2029}'
    || c == '\U{202F}' || c == '\U{205F}' || c == '\U{3000}'
  }

  function TrimLeft(s: string, cut: char -> bool): string {
    if s != "" && cut(s[0]) then TrimLeft(s[1..], cut) else s
  }

  function TrimRight(s: string, cut: char -> bool): string {
    if s != "" && cut(Last(s)) then TrimRight(DropLast(s), cut) else s
  }

  lemma {:induction false} TrimLeftResult(s: string, cut: char -> bool)
    ensures var r := TrimLeft(s, cut);
            && (r == [] || !cut(r[0])) && |r| <= |s| && r == s[|s| - |r|..]
            && forall i :: 0 <= i < |s| - |r| ==> cut(s[i])
  {
    if s != "" && cut(s[0]) { TrimLeftResult(s[1..], cut); }
  }

  lemma {:induction false} TrimRightResult(s: string, cut: char -> bool)
    ensures var r := TrimRight(s, cut);
            && (r == [] || !cut(Last(r))) && |r| <= |s| && r == s[..|r|]
            && forall i :: |r| <= i < |s| ==> cut(s[i])
  {
    if s != "" && cut(Last(s)) { TrimRightResult(DropLast(s), cut); }
  }

  function Trim(s: string, cut: char -> bool): string {
    TrimRight(TrimLeft(s, cut), cut)
  }

  lemma {:induction false} TrimLeftSame(s: string, cut: char -> bool, cut': char -> bool)
    requires forall c :: cut(c) == cut'(c)
    ensures TrimLeft(s, cut) == TrimLeft(s, cut')
  {
    if s != "" { TrimLeftSame(s[1..], cut, cut'); }
  }

  lemma {:induction false} TrimRightSame(s: string, cut: char -> bool, cut': char -> bool)
    requires forall c :: cut(c) == cut'(c)
    ensures TrimRight(s, cut) == TrimRight(s, cut')
  {
    if s != "" { TrimRightSame(DropLast(s), cut, cut'); }
  }

  lemma TrimSame(s: string, cut: char -> bool, cut': char -> bool)
    requires forall c :: cut(c) == cut'(c)
    ensures Trim(s, cut) == Trim(s, cut')
  {
    TrimLeftSame(s, cut, cut');
    TrimRightSame(TrimLeft(s, cut), cut, cut');
  }

  function TrimSpace(s: string): string { Trim(s, IsSpace) }

  // Everything outside s[i..j] belongs to the cut set.
  ghost predicate TrimmedTo(s: string, cut: char -> bool, i: int, j: int) {
    && 0 <= i <= j <= |s|
    && (forall k :: 0 <= k < i ==> cut(s[k]))
    && (forall k :: j <= k < |s| ==> cut(s[k]))
  }

  /** What Trim returns cannot be trimmed further and is a stretch of the original. */
  lemma TrimResult(s: string, cut: char -> bool)
    ensures var r := Trim(s, cut);
            && (r != [] ==> !cut(r[0]) && !cut(Last(r)))
            && exists i, j :: TrimmedTo(s, cut, i, j) && r == s[i..j]
  {
    var l := TrimLeft(s, cut);
    var r := TrimRight(l, cut);
    TrimLeftResult(s, cut);
    TrimRightResult(l, cut);
    var i := |s| - |l|;
    var j := i + |r|;
    assert r == l[..|r|] == s[i..j];
    if r != [] { assert r[0] == l[0]; }
    forall k | j <= k < |s| ensures cut(s[k]) {
      assert s[k] == l[k - i];
    }
    assert TrimmedTo(s, cut, i, j);
  }

  lemma TrimFixed(s: string, cut: char -> bool)
    requires s == [] || (!cut(s[0]) && !cut(Last(s)))
    ensures Trim(s, cut) == s
  {
  }

  /** strings.Join */
  function Join(parts: seq<string>, sep: string): string {
    if parts == [] then ""
    else if |parts| == 1 then parts[0]
    else Join(DropLast(parts), sep) + sep + Last(parts)
  }

  lemma JoinSnoc(parts: seq<string>, sep: string, p: string)
    ensures Join(parts + [p], sep) == if parts == [] then p else Join(parts, sep) + sep + p
  {
  }

  lemma {:induction false} JoinCons(p: string, parts: seq<string>, sep: string)
    ensures Join([p] + parts, sep) == if parts == [] then p else p + sep + Join(parts, sep)
  {
    if |parts| == 1 {
      JoinSnoc([p], sep, parts[0]);
      assert [p] + parts == [p] + [parts[0]];
    } else if |parts| > 1 {
      JoinCons(p, DropLast(parts), sep);
      assert DropLast([p] + parts) == [p] + DropLast(parts);
    } else {
      assert [p] + parts == [p];
    }
  }

  /** strings.Split, for a non-empty separator. */
  function Split(s: string, sep: string): seq<string>
    requires sep != ""
    decreases |s|
  {
    var i := Index(s, sep);
    if i < 0 then [s] else [s[..i]] + Split(s[i + |sep|..], sep)
  }

  lemma {:induction false} SplitRejoins(s: string, sep: string)
    requires sep != ""
    ensures Join(Split(s, sep), sep) == s
    ensures forall p <- Split(s, sep) :: !Contains(p, sep)
    decreases |s|
  {
    var i := Index(s, sep);
    if i >= 0 {
      var rest := Split(s[i + |sep|..], sep);
      SplitRejoins(s[i + |sep|..], sep);
      JoinCons(s[..i], rest, sep);
      SplitAt(s, sep, i);
      var j := Index(s[..i], sep);
      if j >= 0 { assert OccursAt(s, sep, j) by { assert s[..i][j..j + |sep|] == s[j..j + |sep|]; } }
    }
  }
}
