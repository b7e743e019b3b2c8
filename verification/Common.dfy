/** Small datatypes and sequence functions shared by the models. */
module Common {

  datatype Option<+T> = None | Some(value: T)

  function Last<T>(s: seq<T>): T
    requires s != []
  {
    s[|s| - 1]
  }

  function DropLast<T>(s: seq<T>): seq<T>
    requires s != []
  {
    s[..|s| - 1]
  }

  lemma Assoc<T>(a: seq<T>, b: seq<T>, c: seq<T>)
    ensures a + (b + c) == a + b + c
  {
  }

  /** The elements of all the sequences in `ss`, in order. */
  function Flatten<T>(ss: seq<seq<T>>): seq<T> {
    if ss == [] then [] else Flatten(DropLast(ss)) + Last(ss)
  }

  lemma FlattenSnoc<T>(ss: seq<seq<T>>, s: seq<T>)
    ensures Flatten(ss + [s]) == Flatten(ss) + s
  {
  }

  lemma {:induction false} FlattenCons<T>(s: seq<T>, ss: seq<seq<T>>)
    ensures Flatten([s] + ss) == s + Flatten(ss)
  {
    if ss == [] {
      assert [s] + ss == [s];
    } else {
      FlattenCons(s, DropLast(ss));
      assert DropLast([s] + ss) == [s] + DropLast(ss);
    }
  }

  /** The elements of `s` that satisfy `p`, in order. */
  function Filter<T>(p: T -> bool, s: seq<T>): seq<T> {
    if s == [] then []
    else if p(Last(s)) then Filter(p, DropLast(s)) + [Last(s)]
    else Filter(p, DropLast(s))
  }

  lemma FilterSnoc<T>(p: T -> bool, s: seq<T>, x: T)
    ensures Filter(p, s + [x]) == Filter(p, s) + (if p(x) then [x] else [])
  {
  }

  lemma {:induction false} FilterConcat<T>(p: T -> bool, s: seq<T>, t: seq<T>)
    ensures Filter(p, s + t) == Filter(p, s) + Filter(p, t)
  {
    if t == [] {
      assert s + t == s;
    } else {
      assert s + t == (s + DropLast(t)) + [Last(t)];
      FilterSnoc(p, s + DropLast(t), Last(t));
      FilterConcat(p, s, DropLast(t));
    }
  }

  function Reversed<T>(s: seq<T>): seq<T> { seq(|s|, i requires 0 <= i < |s| => s[|s| - 1 - i]) }

  /** Reverses by swapping from both ends. */
  method ReverseInPlace<T>(a: array<T>)
    modifies a
    ensures a[..] == Reversed(old(a[..]))
  {
    var i, j := 0, a.Length - 1;
    while i < j
      invariant 0 <= i && i + j == a.Length - 1 && i <= j + 1
      invariant forall k :: 0 <= k < i || j < k < a.Length ==> a[k] == old(a[a.Length - 1 - k])
      invariant forall k :: i <= k <= j ==> a[k] == old(a[k])
    {
      a[i], a[j] := a[j], a[i];
      i, j := i + 1, j - 1;
    }
  }

  // ---------------------------------------------------------------- colon-separated keys

  predicate ColonFree(s: string) { ':' !in s }

  /** The text before the first colon, and the text after it, are determined by the whole. */
  lemma FirstFieldUnique(a: string, b: string, c: string, d: string)
    requires ColonFree(a) && ColonFree(c) && a + ":" + b == c + ":" + d
    ensures a == c && b == d
  {
    var whole := a + ":" + b;
    assert whole[|a|] == ':' && forall i :: 0 <= i < |a| ==> whole[i] == a[i];
    assert (c + ":" + d)[|c|] == ':' && forall i :: 0 <= i < |c| ==> (c + ":" + d)[i] == c[i];
    assert |a| == |c|;
    assert a == whole[..|a|] && c == (c + ":" + d)[..|c|];
    assert b == whole[|a| + 1..] && d == (c + ":" + d)[|c| + 1..];
  }

  // Moving `r` and a colon from the second field to the first.
  ghost predicate ShiftsRight(a: string, b: string, c: string, d: string) {
    exists r: string :: c == a + ":" + r && b == r + ":" + d
  }

  lemma ColonPrefix(a: string, b: string, c: string, d: string)
    requires |a| < |c| && a + ":" + b == c + ":" + d
    ensures ShiftsRight(a, b, c, d)
  {
    var whole, n := a + ":" + b, |a|;
    var r := c[n + 1..];
    assert whole[n] == ':' && whole[..n] == a && whole[n + 1..] == b;
    assert whole[..|c|] == c && whole[|c|] == ':' && whole[|c| + 1..] == d;
    assert c[..n] == whole[..n] && c[n] == whole[n];
    assert c == c[..n] + [c[n]] + r;
    assert r == whole[n + 1..|c|];
    assert b == whole[n + 1..|c|] + [whole[|c|]] + whole[|c| + 1..];
  }

  /** Two texts joined by a colon agree exactly when the fields do, up to a colon read as part of either field. */
  lemma JoinedEqualIff(a: string, b: string, c: string, d: string)
    ensures a + ":" + b == c + ":" + d <==> (a == c && b == d) || ShiftsRight(a, b, c, d) || ShiftsRight(c, d, a, b)
  {
    if a + ":" + b == c + ":" + d {
      if |a| < |c| { ColonPrefix(a, b, c, d); }
      if |c| < |a| { ColonPrefix(c, d, a, b); }
      if |a| == |c| {
        assert a == (a + ":" + b)[..|a|] && c == (c + ":" + d)[..|a|];
        assert b == (a + ":" + b)[|a| + 1..] && d == (c + ":" + d)[|a| + 1..];
      }
    }
    ShiftedJoin(a, b, c, d);
    ShiftedJoin(c, d, a, b);
  }

  lemma ShiftedJoin(a: string, b: string, c: string, d: string)
    ensures ShiftsRight(a, b, c, d) ==> a + ":" + b == c + ":" + d
  {
    if ShiftsRight(a, b, c, d) {
      var r: string :| c == a + ":" + r && b == r + ":" + d;
      assert a + ":" + (r + ":" + d) == a + ":" + r + ":" + d;
    }
  }

  /** The same for the last colon. */
  lemma LastFieldUnique(a: string, b: string, c: string, d: string)
    requires ColonFree(b) && ColonFree(d) && a + ":" + b == c + ":" + d
    ensures a == c && b == d
  {
    var whole := a + ":" + b;
    assert whole[|a|] == ':' && forall i :: |a| < i < |whole| ==> whole[i] == b[i - |a| - 1];
    assert whole[|c|] == ':' && forall i :: |c| < i < |whole| ==> whole[i] == d[i - |c| - 1];
    assert |a| == |c|;
    assert a == whole[..|a|] && c == (c + ":" + d)[..|c|];
    assert b == whole[|a| + 1..] && d == (c + ":" + d)[|c| + 1..];
  }
}
