/** Building and parsing session keys, and making session ids safe as file names (pkg/session/key.go). */
module SessionKey {
  import opened Common
  import opened Strings

  const USER_PREFIX: string := "user:"
  const CHAN_MARKER: string := ":channel:"
  const SESS_MARKER: string := ":session:"

  datatype Components = Components(userId: string, channelType: string, sessionId: string)

  datatype ParseError = MissingUser | MissingChannel | MissingSession | EmptyComponent

  datatype Parsed = Ok(value: Components) | Err(error: ParseError)

  function BuildSessionKey(userId: string, channelType: string, sessionId: string): string {
    USER_PREFIX + userId + CHAN_MARKER + channelType + SESS_MARKER + sessionId
  }

  function ParseSessionKey(key: string): Parsed {
    if !(USER_PREFIX <= key) then Err(MissingUser)
    else
      var rest := key[|USER_PREFIX|..];
      var chanIdx := Index(rest, CHAN_MARKER);
      if chanIdx < 0 then Err(MissingChannel)
      else
        var userId, rest2 := rest[..chanIdx], rest[chanIdx + |CHAN_MARKER|..];
        var sessIdx := Index(rest2, SESS_MARKER);
        if sessIdx < 0 then Err(MissingSession)
        else
          var channelType, sessionId := rest2[..sessIdx], rest2[sessIdx + |SESS_MARKER|..];
          if userId == "" || channelType == "" || sessionId == "" then Err(EmptyComponent)
          else Ok(Components(userId, channelType, sessionId))
  }

  /** Building from a successful parse gives the key back. */
  lemma BuildOfParse(key: string)
    requires ParseSessionKey(key).Ok?
    ensures var c := ParseSessionKey(key).value;
            BuildSessionKey(c.userId, c.channelType, c.sessionId) == key
  {
  }

  lemma Regroup(a: string, b: string, c: string, d: string, e: string, f: string)
    ensures a + b + c + d + e + f == a + (b + c + (d + e + f))
  {
  }

  /** The marker does not begin before the end of the component, not even by overlapping it. */
  predicate Unambiguous(component: string, marker: string) {
    Index(component + marker, marker) == |component|
  }

  /**
   Parsing a built key gives the components back exactly when none is empty, the channel marker cannot be read
   earlier than after the user id, nor the session marker earlier than after the channel.
   */
  lemma ParseOfBuild(userId: string, channelType: string, sessionId: string)
    ensures ParseSessionKey(BuildSessionKey(userId, channelType, sessionId))
              == Ok(Components(userId, channelType, sessionId))
            <==> userId != "" && channelType != "" && sessionId != ""
                 && Unambiguous(userId, CHAN_MARKER) && Unambiguous(channelType, SESS_MARKER)
  {
    var key := BuildSessionKey(userId, channelType, sessionId);
    var tail := channelType + SESS_MARKER + sessionId;
    var rest := key[|USER_PREFIX|..];
    Regroup(USER_PREFIX, userId, CHAN_MARKER, channelType, SESS_MARKER, sessionId);
    assert rest == userId + CHAN_MARKER + tail;
    IndexIgnoresTail(userId, CHAN_MARKER, tail);
    if Unambiguous(userId, CHAN_MARKER) {
      assert rest[..|userId|] == userId && rest[|userId| + |CHAN_MARKER|..] == tail;
      IndexIgnoresTail(channelType, SESS_MARKER, sessionId);
      if Unambiguous(channelType, SESS_MARKER) {
        assert tail[..|channelType|] == channelType && tail[|channelType| + |SESS_MARKER|..] == sessionId;
      }
    }
  }

  lemma ColonFreeIsUnambiguous(component: string, marker: string)
    requires ColonFree(component) && marker != "" && marker[0] == ':'
    ensures Unambiguous(component, marker)
  {
    var s := component + marker;
    assert OccursAt(s, marker, |component|);
    forall j | 0 <= j < |component| ensures !OccursAt(s, marker, j) {
      assert s[j] == component[j] != marker[0];
      assert j + |marker| <= |s| ==> s[j..j + |marker|][0] == s[j];
    }
    IndexIs(s, marker, |component|);
  }

  /** In particular for every non-empty session id and non-empty user and channel without a colon. */
  lemma ColonFreeRoundTrip(userId: string, channelType: string, sessionId: string)
    requires userId != "" && channelType != "" && sessionId != "" && ColonFree(userId) && ColonFree(channelType)
    ensures ParseSessionKey(BuildSessionKey(userId, channelType, sessionId))
            == Ok(Components(userId, channelType, sessionId))
  {
    ColonFreeIsUnambiguous(userId, CHAN_MARKER);
    ColonFreeIsUnambiguous(channelType, SESS_MARKER);
    ParseOfBuild(userId, channelType, sessionId);
  }

  // ---------------------------------------------------------------- SanitizeSessionID

  predicate IsSafe(c: char) {
    c == '-' || c == '_' || 'a' <= c <= 'z' || 'A' <= c <= 'Z' || '0' <= c <= '9'
  }

  predicate IsHyphen(c: char) { c == '-' }

  function CleanedChar(c: char): string {
    if IsSafe(c) then [c] else if IsSpace(c) then "" else "-"
  }

  // Spaces go, other unsafe characters become hyphens.
  function Cleaned(s: string): string {
    if s == "" then "" else Cleaned(DropLast(s)) + CleanedChar(Last(s))
  }

  function Sanitized(s: string): string {
    var t := Trim(Cleaned(s), IsHyphen);
    if t == "" then "default" else t
  }

  method SanitizeSessionID(s: string) returns (r: string)
    ensures r == Sanitized(s)
  {
    if s == "" { return "default"; }
    var b := "";
    for i := 0 to |s|
      invariant b == Cleaned(s[..i])
    {
      var c := s[i];
      assert DropLast(s[..i + 1]) == s[..i];
      if IsSafe(c) {
        b := b + [c];
      } else if IsSpace(c) {
      } else {
        b := b + ['-'];
      }
    }
    assert s[..|s|] == s;
    r := Trim(b, IsHyphen);
    if r == "" { return "default"; }
  }

  lemma {:induction false} CleanedIsSafe(s: string)
    ensures forall c <- Cleaned(s) :: IsSafe(c)
    ensures (forall c <- s :: IsSafe(c)) ==> Cleaned(s) == s
  {
    if s != "" {
      var init := DropLast(s);
      CleanedIsSafe(init);
      assert s == init + [Last(s)];
      assert forall c <- init :: c in s;
    }
  }

  /**
   Character by character: spaces are dropped, and of the others letters, digits, hyphens and underscores stay and any
   other becomes a hyphen.
   */
  lemma {:induction false} CleanedCharByChar(s: string)
    ensures var kept := Filter((c: char) => !IsSpace(c), s);
            |Cleaned(s)| == |kept| && forall i :: 0 <= i < |kept| ==> Cleaned(s)[i] == Replaced(kept[i])
  {
    if s != "" { CleanedCharByChar(DropLast(s)); }
  }

  function Replaced(c: char): char {
    if 'a' <= c <= 'z' || 'A' <= c <= 'Z' || '0' <= c <= '9' || c in "-_" then c else '-'
  }

  /** The key, spelled out. */
  lemma KeySpelled(userId: string, channelType: string, sessionId: string)
    ensures BuildSessionKey(userId, channelType, sessionId)
            == "user:" + userId + ":channel:" + channelType + ":session:" + sessionId
  {
  }

  /** Not empty, only letters, digits, hyphens and underscores, no hyphen at either end. */
  ghost predicate SafeName(r: string) {
    r != "" && (forall c <- r :: IsSafe(c)) && !IsHyphen(r[0]) && !IsHyphen(Last(r))
  }

  /** The result is always a safe name; a safe name is not changed; so sanitizing twice is sanitizing once. */
  lemma SanitizedIsSafeName(s: string)
    ensures SafeName(Sanitized(s)) && ColonFree(Sanitized(s)) && Sanitized(Sanitized(s)) == Sanitized(s)
  {
    CleanedIsSafe(s);
    TrimResult(Cleaned(s), IsHyphen);
    var t := Trim(Cleaned(s), IsHyphen);
    if t == "" {
      DefaultIsSafe();
    } else {
      var i, j :| TrimmedTo(Cleaned(s), IsHyphen, i, j) && t == Cleaned(s)[i..j];
      assert forall c <- t :: c in Cleaned(s);
    }
    SafeNameIsFixed(Sanitized(s));
  }

  // Everything outside whole[i..j] is a hyphen, and its ends are not.
  ghost predicate BetweenHyphens(whole: string, i: int, j: int) {
    && 0 <= i <= j <= |whole|
    && (forall k :: 0 <= k < i ==> whole[k] == '-') && (forall k :: j <= k < |whole| ==> whole[k] == '-')
    && (i < j ==> whole[i] != '-' && whole[j - 1] != '-')
  }

  /** The result is what is left between the hyphens at the ends, or the standing name if that is nothing. */
  lemma SanitizedBetweenHyphens(s: string)
    ensures exists i, j ::
              BetweenHyphens(Cleaned(s), i, j) && Sanitized(s) == if i == j then "default" else Cleaned(s)[i..j]
  {
    var whole := Cleaned(s);
    var t := Trim(whole, IsHyphen);
    TrimResult(whole, IsHyphen);
    var i, j :| TrimmedTo(whole, IsHyphen, i, j) && t == whole[i..j];
    if i < j { assert t[0] == whole[i] && Last(t) == whole[j - 1]; }
    assert BetweenHyphens(whole, i, j);
  }

  lemma DefaultIsSafe()
    ensures SafeName("default")
  {
  }

  lemma SafeNameIsFixed(s: string)
    requires SafeName(s)
    ensures Sanitized(s) == s
  {
    CleanedIsSafe(s);
    TrimFixed(s, IsHyphen);
  }

  /** Keys built from sanitized ids always parse back. */
  lemma ResolvedKeyParses(userId: string, channelType: string, raw: string)
    requires userId != "" && channelType != "" && ColonFree(userId) && ColonFree(channelType)
    ensures ParseSessionKey(BuildSessionKey(userId, channelType, Sanitized(raw)))
            == Ok(Components(userId, channelType, Sanitized(raw)))
  {
    SanitizedIsSafeName(raw);
    ColonFreeRoundTrip(userId, channelType, Sanitized(raw));
  }
}
