/** Deriving a connection's identity from its query string: Java's
    String.split on one separator character, StringUtils.isBlank, and the
    getUserId search shared (word for word) by both WebSocket handlers. */
module QueryParams {

  datatype Option<T> = None | Some(value: T)

  /** Character.isWhitespace on one UTF-16 unit: the Unicode space, line
      and paragraph separators except the three non-breaking spaces, plus
      the ASCII controls TAB, LF, VT, FF, CR and FS, GS, RS, US. */
  predicate IsJavaWhitespace(c: char)
  {
    c == ' ' || ('\t' <= c <= '\r') || ('\U{1C}' <= c <= '\U{1F}')
    || c == '\U{1680}' || ('\U{2000}' <= c <= '\U{2006}') || ('\U{2008}' <= c <= '\U{200A}')
    || c == '\U{2028}' || c == '\U{2029}' || c == '\U{205F}' || c == '\U{3000}'
  }

  /** StringUtils.isBlank: empty, or whitespace only. A blank string
      holds no ASCII letter or digit. */
  predicate IsBlank(s: string)
    ensures |s| == 0 ==> IsBlank(s)
    ensures IsBlank(s) ==> forall i :: 0 <= i < |s| ==>
      !('a' <= s[i] <= 'z' || 'A' <= s[i] <= 'Z' || '0' <= s[i] <= '9')
  {
    forall i :: 0 <= i < |s| ==> IsJavaWhitespace(s[i])
  }

  /** Every piece of `s` between occurrences of `sep`, empty pieces
      included (what split does before it trims). */
  function Pieces(s: string, sep: char): (r: seq<string>)
    ensures |r| >= 1
    decreases |s|
  {
    if |s| == 0 then [""]
    else
      var rest := Pieces(s[1..], sep);
      if s[0] == sep then [""] + rest
      else [[s[0]] + rest[0]] + rest[1..]
  }

  /** Glues pieces back together with `sep` between neighbours. */
  function Join(ps: seq<string>, sep: char): string
    requires |ps| >= 1
    decreases |ps|
  {
    if |ps| == 1 then ps[0] else ps[0] + [sep] + Join(ps[1..], sep)
  }

  /** Removes the empty strings at the end of `ps`. */
  function DropTrailingEmpty(ps: seq<string>): (r: seq<string>)
    ensures r <= ps
    ensures |r| > 0 ==> r[|r| - 1] != ""
    ensures forall i :: |r| <= i < |ps| ==> ps[i] == ""
    decreases |ps|
  {
    if |ps| == 0 || ps[|ps| - 1] != "" then ps else DropTrailingEmpty(ps[..|ps| - 1])
  }

  /** `s.split(sep)` with Java's default limit 0: a string without the
      separator comes back whole (even when empty); otherwise the pieces,
      with the trailing empty ones dropped. */
  function Split(s: string, sep: char): (r: seq<string>)
    ensures r <= Pieces(s, sep)
    ensures forall i :: |r| <= i < |Pieces(s, sep)| ==> Pieces(s, sep)[i] == ""
    ensures sep in s && |r| > 0 ==> r[|r| - 1] != ""
  {
    if sep !in s then PiecesWithoutSeparator(s, sep); [s]
    else DropTrailingEmpty(Pieces(s, sep))
  }

  /** Splitting and joining are inverse, and no piece holds the separator. */
  lemma {:induction false} PiecesJoin(s: string, sep: char)
    ensures Join(Pieces(s, sep), sep) == s
    ensures forall i :: 0 <= i < |Pieces(s, sep)| ==> sep !in Pieces(s, sep)[i]
    decreases |s|
  {
    if |s| > 0 {
      var rest := Pieces(s[1..], sep);
      PiecesJoin(s[1..], sep);
      var ps := Pieces(s, sep);
      if s[0] == sep {
        assert ps[1..] == rest;
        assert s == [sep] + s[1..];
      } else {
        assert ps[1..] == rest[1..];
        if |rest| > 1 {
          assert Join(rest, sep) == rest[0] + [sep] + Join(rest[1..], sep);
        }
        assert s == [s[0]] + s[1..];
      }
    }
  }

  /** Every character of a piece comes from the split string. */
  lemma {:induction false} PieceWithin(s: string, sep: char, i: nat, c: char)
    requires i < |Pieces(s, sep)| && c in Pieces(s, sep)[i]
    ensures c in s
    decreases |s|
  {
    if |s| > 0 {
      assert s == [s[0]] + s[1..];
      if s[0] == sep {
        if i > 0 {
          PieceWithin(s[1..], sep, i - 1, c);
        }
      } else if i == 0 {
        if c != s[0] {
          PieceWithin(s[1..], sep, 0, c);
        }
      } else {
        PieceWithin(s[1..], sep, i, c);
      }
    }
  }

  /** A string without the separator is one piece. */
  lemma {:induction false} PiecesWithoutSeparator(s: string, sep: char)
    requires sep !in s
    ensures Pieces(s, sep) == [s]
    decreases |s|
  {
    if |s| > 0 {
      assert sep !in s[1..] && s[0] != sep;
      PiecesWithoutSeparator(s[1..], sep);
      assert s == [s[0]] + s[1..];
    }
  }

  /** `split` loses nothing but the trailing empty pieces: putting them
      back and joining with the separator gives the string again. */
  lemma SplitRoundTrip(s: string, sep: char)
    ensures var ps, r := Pieces(s, sep), Split(s, sep);
      |r| <= |ps| && ps == r + seq(|ps| - |r|, _ => "") && Join(ps, sep) == s
  {
    PiecesJoin(s, sep);
    var ps, r := Pieces(s, sep), Split(s, sep);
    if sep !in s {
      PiecesWithoutSeparator(s, sep);
    } else {
      assert ps == r + ps[|r|..];
    }
  }

  /** The elements of `split` hold only characters of the split string,
      and never the separator. */
  lemma SplitSound(s: string, sep: char, i: nat, c: char)
    requires i < |Split(s, sep)| && c in Split(s, sep)[i]
    ensures c in s && c != sep
  {
    PiecesJoin(s, sep);
    if sep in s {
      assert Split(s, sep)[i] == Pieces(s, sep)[i];
      PieceWithin(s, sep, i, c);
    }
  }

  const UserIdKey := "userId"

  /** A query parameter that `split("=")` turns into exactly two parts,
      the first of which is "userId". */
  predicate IsUserIdPair(param: string)
    ensures IsUserIdPair(param) ==> |param| > |UserIdKey| + 1 && param[..|UserIdKey| + 1] == UserIdKey + "="
  {
    var pair := Split(param, '=');
    var r := |pair| == 2 && pair[0] == UserIdKey;
    if r then PairShape(param, '='); r else r
  }

  /** A string that `split` turns into two parts starts with the first
      part and the separator, followed by at least one character. */
  lemma PairShape(s: string, sep: char)
    requires |Split(s, sep)| == 2
    ensures |s| > |Split(s, sep)[0]| + 1 && s[..|Split(s, sep)[0]| + 1] == Split(s, sep)[0] + [sep]
  {
    var pair, ps := Split(s, sep), Pieces(s, sep);
    PiecesJoin(s, sep);
    if sep !in s {
      PiecesWithoutSeparator(s, sep);
      assert false;
    }
    assert ps[0] == pair[0] && ps[1] == pair[1] && pair[1] != "";
    var tail := Join(ps[1..], sep);
    assert s == ps[0] + [sep] + tail;
    if |ps| > 2 {
      assert tail == ps[1] + [sep] + Join(ps[2..], sep);
    }
    assert |tail| >= |ps[1]| > 0;
  }

  function ValueOf(param: string): string
    requires IsUserIdPair(param)
  {
    Split(param, '=')[1]
  }

  /** The value of the first parameter that is a userId pair, if any. */
  function FirstUserId(params: seq<string>): (r: Option<string>)
    ensures r == None <==> forall i :: 0 <= i < |params| ==> !IsUserIdPair(params[i])
    ensures r != None ==>
      exists i :: 0 <= i < |params| && IsUserIdPair(params[i]) && r.value == ValueOf(params[i])
                  && forall j :: 0 <= j < i ==> !IsUserIdPair(params[j])
    decreases |params|
  {
    if |params| == 0 then None
    else if IsUserIdPair(params[0]) then Some(ValueOf(params[0]))
    else
      var r := FirstUserId(params[1..]);
      assert forall i :: 0 < i < |params| ==> params[i] == params[1..][i - 1];
      r
  }

  /** The identity of a connection: the userId query parameter when the
      query is not blank and carries one, the transport session id otherwise. */
  function UserId(query: string, sessionId: string): (r: string)
    ensures IsBlank(query) ==> r == sessionId
    ensures r == sessionId || exists i :: 0 <= i < |Split(query, '&')| && IsUserIdPair(Split(query, '&')[i])
                                          && r == ValueOf(Split(query, '&')[i])
  {
    if IsBlank(query) then sessionId
    else match FirstUserId(Split(query, '&'))
      case Some(v) => v
      case None => sessionId
  }

  /** A query with a userId pair is not blank: "userId" has no whitespace. */
  lemma UserIdPairNotBlank(query: string, i: nat)
    requires i < |Split(query, '&')| && IsUserIdPair(Split(query, '&')[i])
    ensures !IsBlank(query)
  {
    var param := Split(query, '&')[i];
    assert 'u' == Split(param, '=')[0][0];
    SplitSound(param, '=', 0, 'u');
    SplitSound(query, '&', i, 'u');
    var k :| 0 <= k < |query| && query[k] == 'u';
    assert !IsJavaWhitespace(query[k]);
  }

  /** A blank query holds no userId pair, so the isNotBlank guard never
      changes the identity found. */
  lemma BlankQueryHasNoUserId(query: string)
    requires IsBlank(query)
    ensures FirstUserId(Split(query, '&')) == None
  {
    var params := Split(query, '&');
    forall i | 0 <= i < |params|
      ensures !IsUserIdPair(params[i])
    {
      if IsUserIdPair(params[i]) {
        UserIdPairNotBlank(query, i);
      }
    }
  }

  /** The identity is the value of the first `&`-separated parameter that
      splits on `=` into exactly ["userId", v]; with no such parameter
      (blank query included) it is the session id. */
  lemma UserIdIsFirstPair(query: string, sessionId: string)
    ensures var params := Split(query, '&');
      && ((forall i :: 0 <= i < |params| ==> !IsUserIdPair(params[i])) ==> UserId(query, sessionId) == sessionId)
      && (forall i :: 0 <= i < |params| && IsUserIdPair(params[i])
                      && (forall j :: 0 <= j < i ==> !IsUserIdPair(params[j]))
                      ==> UserId(query, sessionId) == ValueOf(params[i]))
  {
    var params := Split(query, '&');
    if IsBlank(query) {
      BlankQueryHasNoUserId(query);
    }
    forall i | 0 <= i < |params| && IsUserIdPair(params[i]) && (forall j :: 0 <= j < i ==> !IsUserIdPair(params[j]))
      ensures UserId(query, sessionId) == ValueOf(params[i])
    {
      var r := FirstUserId(params);
      var i' :| 0 <= i' < |params| && IsUserIdPair(params[i']) && r.value == ValueOf(params[i'])
                && forall j :: 0 <= j < i' ==> !IsUserIdPair(params[j]);
      assert i' == i;
    }
  }

  lemma {:induction false} PiecesEndingInSeparator(s: string, sep: char)
    requires sep !in s
    ensures Pieces(s + [sep], sep) == [s, ""]
    decreases |s|
  {
    if |s| == 0 {
      assert Pieces([sep], sep) == [""] + Pieces([], sep);
    } else {
      assert (s + [sep])[1..] == s[1..] + [sep];
      PiecesEndingInSeparator(s[1..], sep);
      assert s == [s[0]] + s[1..];
    }
  }

  /** A parameter with an empty value, such as "userId=", loses its empty
      part to split's trimming, so it is never a userId pair. */
  lemma EmptyValueNotAPair(key: string)
    requires '=' !in key
    ensures !IsUserIdPair(key + "=")
  {
    PiecesEndingInSeparator(key, '=');
    assert '=' in key + "=";
  }

  /** The query "userId=" identifies the connection by its session id. */
  lemma EmptyValueFallsBack(sessionId: string)
    ensures UserId(UserIdKey + "=", sessionId) == sessionId
  {
    var query := UserIdKey + "=";
    EmptyValueNotAPair(UserIdKey);
    assert '&' !in query;
    assert Split(query, '&') == [query];
  }

  /** getUserId: scans the `&`-separated parameters and returns at the
      first userId pair; falls back to the session id. */
  method GetUserId(query: string, sessionId: string) returns (userId: string)
    ensures userId == UserId(query, sessionId)
  {
    if !IsBlank(query) {
      var params := Split(query, '&');
      for i := 0 to |params|
        invariant FirstUserId(params) == FirstUserId(params[i..])
      {
        var pair := Split(params[i], '=');
        if |pair| == 2 && pair[0] == UserIdKey {
          return pair[1];
        }
        assert params[i..][1..] == params[i + 1..];
      }
    }
    return sessionId;
  }
}
