/** The cookie lookup of `lib/auth.ts`: `getToken` reads the admin token
    out of the browser's cookie string and `getAuthHeader` turns it into
    request headers. The cookie string (`document.cookie`) is a parameter. */
module Auth {
  import opened Text

  /** `TOKEN_KEY`: the cookie name the token is stored under. */
  const TokenKey: string := "grabgardenn_admin_token"

  /** What `getToken` returns: `null` when no segment is named `TokenKey`,
      `undefined` when the matching segment has no `=`, and otherwise a string. */
  datatype TokenResult = Null | Undefined | Value(text: string)

  /** `name` in `const [name, value] = cookie.trim().split('=')`. */
  function SegmentName(segment: string): string {
    Split(Trim(segment), '=')[0]
  }

  /** `value` in `const [name, value] = cookie.trim().split('=')`: the second
      piece, or `undefined` when there is none. */
  function SegmentValue(segment: string): (t: TokenResult)
    ensures t != Null
  {
    var parts := Split(Trim(segment), '=');
    if |parts| >= 2 then Value(parts[1]) else Undefined
  }

  /** `segments[k]` is named `key`. */
  predicate Named(segments: seq<string>, k: int, key: string)
    requires 0 <= k < |segments|
  {
    SegmentName(segments[k]) == key
  }

  /** The value of the first segment named `key`, or `Null` when none is. */
  function Lookup(segments: seq<string>, key: string): (t: TokenResult)
    decreases |segments|
  {
    if segments == [] then Null
    else if SegmentName(segments[0]) == key then SegmentValue(segments[0])
    else Lookup(segments[1..], key)
  }

  /** The token `getToken` finds in the cookie string `cookie`. */
  function CookieToken(cookie: string): TokenResult {
    Lookup(Split(cookie, ';'), TokenKey)
  }

  /** The body of `getToken`: the for-of loop over the segments with its
      early return, for the cookie name `key`. */
  method FindSegment(cookies: seq<string>, key: string) returns (t: TokenResult)
    ensures t == Lookup(cookies, key)
  {
    var i := 0;
    while i < |cookies|
      invariant 0 <= i <= |cookies|
      invariant Lookup(cookies[i..], key) == Lookup(cookies, key)
    {
      var parts := Split(Trim(cookies[i]), '=');
      var name := parts[0];
      assert cookies[i..][0] == cookies[i] && cookies[i..][1..] == cookies[i + 1..];
      if name == key {
        return if |parts| >= 2 then Value(parts[1]) else Undefined;
      }
      i := i + 1;
    }
    return Null;
  }

  /** `getToken`: the segments of `document.cookie.split(';')` searched for `TokenKey`. */
  method GetToken(cookie: string) returns (t: TokenResult)
    ensures t == CookieToken(cookie)
  {
    t := FindSegment(Split(cookie, ';'), TokenKey);
  }

  /** `Null` exactly when no segment has the name. */
  lemma {:induction false} LookupNull(segments: seq<string>, key: string)
    ensures Lookup(segments, key) == Null <==> forall k :: 0 <= k < |segments| ==> !Named(segments, k, key)
    decreases |segments|
  {
    if segments != [] {
      if SegmentName(segments[0]) == key {
        assert Named(segments, 0, key);
      } else {
        LookupNull(segments[1..], key);
        var rest := segments[1..];
        if forall j :: 0 <= j < |rest| ==> !Named(rest, j, key) {
          forall k | 0 <= k < |segments| ensures !Named(segments, k, key) {
            if k > 0 {
              assert rest[k - 1] == segments[k];
              assert !Named(rest, k - 1, key);
            }
          }
        } else {
          var j :| 0 <= j < |rest| && Named(rest, j, key);
          assert rest[j] == segments[j + 1];
          assert Named(segments, j + 1, key);
        }
      }
    }
  }

  /** When several segments have the name, the first one wins. */
  lemma {:induction false} LookupFirstMatch(segments: seq<string>, key: string, k: nat)
    requires k < |segments| && Named(segments, k, key)
    requires forall j :: 0 <= j < k ==> !Named(segments, j, key)
    ensures Lookup(segments, key) == SegmentValue(segments[k])
    decreases k
  {
    if k > 0 {
      assert !Named(segments, 0, key);
      forall j | 0 <= j < k - 1 ensures !Named(segments[1..], j, key) {
        assert segments[1..][j] == segments[j + 1];
        assert !Named(segments, j + 1, key);
      }
      assert segments[1..][k - 1] == segments[k];
      LookupFirstMatch(segments[1..], key, k - 1);
    }
  }

  /** White space around a segment changes neither its name nor its value. */
  lemma SegmentPadded(a: string, segment: string, b: string)
    requires AllWhitespace(a) && AllWhitespace(b)
    ensures SegmentName(a + segment + b) == SegmentName(segment)
    ensures SegmentValue(a + segment + b) == SegmentValue(segment)
  {
    TrimPadded(a, segment, b);
  }

  /** The value is the text between the first and the second `=`; whatever
      follows a second `=` is dropped. */
  lemma SegmentValueStopsAtSecondEquals(segment: string, name: string, value: string, tail: string)
    requires Trim(segment) == name + ['='] + value + tail
    requires '=' !in name && '=' !in value
    requires tail == "" || tail[0] == '='
    ensures SegmentName(segment) == name
    ensures SegmentValue(segment) == Value(value)
  {
    SplitNameValue(Trim(segment), name, value, tail);
  }

  lemma SplitNameValue(t: string, name: string, value: string, tail: string)
    requires t == name + ['='] + value + tail
    requires '=' !in name && '=' !in value
    requires tail == "" || tail[0] == '='
    ensures |Split(t, '=')| >= 2 && Split(t, '=')[0] == name && Split(t, '=')[1] == value
  {
    SplitWithoutSeparator(name, '=');
    SplitWithoutSeparator(value, '=');
    assert t == name + ['='] + (value + tail);
    SplitConcat(name, value + tail, '=');
    var after := Split(value + tail, '=');
    assert Split(t, '=') == [name] + after;
    if tail == "" {
      assert value + tail == value;
    } else {
      assert value + tail == value + ['='] + tail[1..];
      SplitConcat(value, tail[1..], '=');
    }
    assert after[0] == value;
  }

  /** A segment without `=` is all name; its value is `undefined`. */
  lemma SegmentWithoutEquals(segment: string)
    requires '=' !in Trim(segment)
    ensures SegmentName(segment) == Trim(segment)
    ensures SegmentValue(segment) == Undefined
  {
    SplitWithoutSeparator(Trim(segment), '=');
  }

  /** `${token}` in a template literal. */
  function TokenText(t: TokenResult): string {
    match t
    case Null => "null"
    case Undefined => "undefined"
    case Value(s) => s
  }

  const BearerPrefix: string := "Bearer "

  /** The headers `getAuthHeader` builds around a token: exactly the two
      keys, with the token's text after `Bearer `. */
  function AuthHeader(token: TokenResult): (h: map<string, string>)
    ensures h.Keys == {"Authorization", "Content-Type"}
    ensures h["Content-Type"] == "application/json"
    ensures BearerPrefix <= h["Authorization"]
    ensures h["Authorization"][|BearerPrefix|..] == TokenText(token)
  {
    map["Authorization" := BearerPrefix + TokenText(token), "Content-Type" := "application/json"]
  }

  /** `getAuthHeader`: the headers around the token of the cookie string. */
  function GetAuthHeader(cookie: string): map<string, string> {
    AuthHeader(CookieToken(cookie))
  }

  /** A missing token is sent as the literal `Bearer null`. */
  lemma NullTokenHeader()
    ensures AuthHeader(Null)["Authorization"] == "Bearer null"
  {
  }

  /** Without a segment named `TokenKey` the header is the literal `Bearer null`. */
  lemma NoTokenSendsBearerNull(cookie: string)
    requires forall k :: 0 <= k < |Split(cookie, ';')| ==> !Named(Split(cookie, ';'), k, TokenKey)
    ensures GetAuthHeader(cookie)["Authorization"] == "Bearer null"
  {
    LookupNull(Split(cookie, ';'), TokenKey);
    NullTokenHeader();
  }
}
