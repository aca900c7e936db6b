/**
 * The client's CSRF token lookup: the content of the `csrf-token` meta tag when it is not
 * empty, otherwise the URI-decoded value of the first `XSRF-TOKEN` cookie with a value,
 * otherwise none. The page's meta content and cookie string are inputs, and URI decoding
 * is an uninterpreted function `decode`.
 */
module Csrf {
  import opened Optional

  // ---------------------------------------------------------------------------
  // String.prototype.split with a one-character separator

  /** `s.split(sep)`: the runs of `s` between separators, at least one (possibly empty). */
  function Split(s: string, sep: char): (r: seq<string>)
    ensures |r| >= 1
    ensures forall i | 0 <= i < |r| :: sep !in r[i]
  {
    if s == [] then [""]
    else
      var rest := Split(s[1..], sep);
      if s[0] == sep then [""] + rest
      else [[s[0]] + rest[0]] + rest[1..]
  }

  /** `parts.join(sep)`. */
  function Join(parts: seq<string>, sep: char): string
    requires |parts| >= 1
  {
    if |parts| == 1 then parts[0] else parts[0] + [sep] + Join(parts[1..], sep)
  }

  /** Joining the parts again with the separator gives back the string. */
  lemma {:induction false} JoinSplit(s: string, sep: char)
    ensures Join(Split(s, sep), sep) == s
  {
    if s != [] {
      var rest := Split(s[1..], sep);
      JoinSplit(s[1..], sep);
      if s[0] != sep {
        if |rest| == 1 {
          assert Join(rest, sep) == rest[0];
        } else {
          assert Join(rest, sep) == rest[0] + [sep] + Join(rest[1..], sep);
        }
      }
    }
  }

  /** A run without the separator, followed by the separator, is the first part. */
  lemma {:induction false} SplitCons(a: string, sep: char, b: string)
    requires sep !in a
    ensures Split(a + [sep] + b, sep) == [a] + Split(b, sep)
  {
    if a == [] {
      assert a + [sep] + b == [sep] + b;
    } else {
      assert (a + [sep] + b)[1..] == a[1..] + [sep] + b;
      SplitCons(a[1..], sep, b);
      assert [a[0]] + a[1..] == a;
    }
  }

  /** A run without the separator is one part. */
  lemma {:induction false} SplitNone(a: string, sep: char)
    requires sep !in a
    ensures Split(a, sep) == [a]
  {
    if a != [] {
      SplitNone(a[1..], sep);
      assert [a[0]] + a[1..] == a;
    }
  }

  /** Splitting the parts joined with the separator gives back the parts, when none contains it. */
  lemma {:induction false} SplitJoin(parts: seq<string>, sep: char)
    requires |parts| >= 1
    requires forall i | 0 <= i < |parts| :: sep !in parts[i]
    ensures Split(Join(parts, sep), sep) == parts
  {
    if |parts| == 1 {
      SplitNone(parts[0], sep);
    } else {
      SplitJoin(parts[1..], sep);
      SplitCons(parts[0], sep, Join(parts[1..], sep));
    }
  }

  // ---------------------------------------------------------------------------
  // String.prototype.trim

  /** The white space and line terminators that `trim` removes. */
  predicate IsJsWhitespace(c: char) {
    || c == '\t' || c == '\n' || c == '\U{000B}' || c == '\U{000C}' || c == '\r' || c == ' '
    || c == '\U{00A0}' || c == '\U{1680}' || ('\U{2000}' <= c <= '\U{200A}')
    || c == '\U{2028}' || c == '\U{2029}' || c == '\U{202F}' || c == '\U{205F}'
    || c == '\U{3000}' || c == '\U{FEFF}'
  }

  /** `s` without its leading white space. */
  function TrimStart(s: string): (r: string)
    ensures r == [] || !IsJsWhitespace(r[0])
  {
    if s != [] && IsJsWhitespace(s[0]) then TrimStart(s[1..]) else s
  }

  /** `s` without its trailing white space. */
  function TrimEnd(s: string): (r: string)
    ensures r == [] || !IsJsWhitespace(r[|r| - 1])
  {
    if s != [] && IsJsWhitespace(s[|s| - 1]) then TrimEnd(s[..|s| - 1]) else s
  }

  /** Trimming the start drops a run of white space and keeps the rest of the string. */
  lemma {:induction false} TrimStartSuffix(s: string)
    ensures |TrimStart(s)| <= |s| && TrimStart(s) == s[|s| - |TrimStart(s)|..]
    ensures forall i | 0 <= i < |s| - |TrimStart(s)| :: IsJsWhitespace(s[i])
  {
    if s != [] && IsJsWhitespace(s[0]) {
      TrimStartSuffix(s[1..]);
    }
  }

  /** Trimming the end drops a run of white space and keeps the start of the string. */
  lemma {:induction false} TrimEndPrefix(s: string)
    ensures |TrimEnd(s)| <= |s| && TrimEnd(s) == s[..|TrimEnd(s)|]
    ensures forall i | |TrimEnd(s)| <= i < |s| :: IsJsWhitespace(s[i])
  {
    if s != [] && IsJsWhitespace(s[|s| - 1]) {
      TrimEndPrefix(s[..|s| - 1]);
    }
  }

  /** `s.trim()`. */
  function Trim(s: string): (r: string)
    ensures r == [] || (!IsJsWhitespace(r[0]) && !IsJsWhitespace(r[|r| - 1]))
  {
    TrimEndPrefix(TrimStart(s));
    TrimEnd(TrimStart(s))
  }

  // ---------------------------------------------------------------------------
  // The cookie lookup

  /** `const [name, value] = cookie.trim().split('=')`: `value` is absent without an `=`. */
  datatype Cookie = Cookie(name: string, value: Option<string>)

  function ParseCookie(c: string): Cookie {
    var parts := Split(Trim(c), '=');
    Cookie(parts[0], if |parts| >= 2 then Some(parts[1]) else None)
  }

  /** A cookie has a value exactly when its trimmed text holds an `=`. */
  lemma ParseCookieValue(c: string)
    ensures ParseCookie(c).value.None? <==> '=' !in Trim(c)
  {
    var t := Trim(c);
    JoinSplit(t, '=');
    if '=' !in t {
      SplitNone(t, '=');
    }
  }

  /**
   * The value read is the text between the first and the second `=` of the trimmed
   * cookie, or up to its end when there is no second one.
   */
  lemma ValueBetweenSeparators(c: string, name: string, v: string, tail: string)
    requires Trim(c) == name + "=" + v + tail
    requires '=' !in name && '=' !in v
    requires tail == [] || tail[0] == '='
    ensures ParseCookie(c) == Cookie(name, Some(v))
  {
    SplitCons(name, '=', v + tail);
    assert Trim(c) == name + ['='] + (v + tail);
    if tail == [] {
      SplitNone(v, '=');
      assert v + tail == v;
    } else {
      SplitCons(v, '=', tail[1..]);
      assert v + tail == v + ['='] + tail[1..];
    }
  }

  /** `name === 'XSRF-TOKEN' && value`: the cookie's name and a non-empty value. */
  predicate IsXsrf(c: string) {
    var cookie := ParseCookie(c);
    cookie.name == "XSRF-TOKEN" && cookie.value.Some? && cookie.value.value != ""
  }

  /** The first loop: the decoded value of the first XSRF-TOKEN cookie, if there is one. */
  function CookieToken(cookies: seq<string>, decode: string -> string): Option<string> {
    if cookies == [] then None
    else if IsXsrf(cookies[0]) then Some(decode(ParseCookie(cookies[0]).value.value))
    else CookieToken(cookies[1..], decode)
  }

  /** There is no token exactly when no cookie is an XSRF-TOKEN cookie with a value. */
  lemma {:induction false} CookieTokenNone(cookies: seq<string>, decode: string -> string)
    ensures CookieToken(cookies, decode).None? <==> forall i | 0 <= i < |cookies| :: !IsXsrf(cookies[i])
  {
    if cookies != [] {
      CookieTokenNone(cookies[1..], decode);
      assert forall i | 1 <= i < |cookies| :: cookies[1..][i - 1] == cookies[i];
    }
  }

  /** The token is the decoded value of the first XSRF-TOKEN cookie with a value. */
  lemma {:induction false} CookieTokenIsFirstMatch(cookies: seq<string>, decode: string -> string, i: nat)
    requires i < |cookies| && IsXsrf(cookies[i])
    requires forall j | 0 <= j < i :: !IsXsrf(cookies[j])
    ensures CookieToken(cookies, decode) == Some(decode(ParseCookie(cookies[i]).value.value))
  {
    if i > 0 {
      assert cookies[1..][i - 1] == cookies[i];
      assert forall j | 0 <= j < i - 1 :: cookies[1..][j] == cookies[j + 1];
      CookieTokenIsFirstMatch(cookies[1..], decode, i - 1);
    }
  }

  /** `getCsrfToken()` as a function of the meta tag's content and the cookie string. */
  function CsrfToken(meta: Option<string>, cookie: string, decode: string -> string): Option<string> {
    if meta.Some? && meta.value != "" then meta else CookieToken(Split(cookie, ';'), decode)
  }

  /**
   * `getCsrfToken()`: the meta tag first, then the loop over the cookies with its early
   * return, then the loop for laravel_session, which stops at that cookie without a token.
   */
  method GetCsrfToken(meta: Option<string>, cookie: string, decode: string -> string) returns (token: Option<string>)
    ensures token == CsrfToken(meta, cookie, decode)
    ensures meta.Some? && meta.value != "" ==> token == meta
    ensures token.None? ==> (meta.None? || meta.value == "")
  {
    if meta.Some? && meta.value != "" {
      return meta;
    }
    var cookies := Split(cookie, ';');
    var i := 0;
    while i < |cookies|
      invariant 0 <= i <= |cookies|
      invariant CookieToken(cookies, decode) == CookieToken(cookies[i..], decode)
    {
      var parsed := ParseCookie(cookies[i]);
      if parsed.name == "XSRF-TOKEN" && parsed.value.Some? && parsed.value.value != "" {
        return Some(decode(parsed.value.value));
      }
      assert cookies[i..][1..] == cookies[i + 1..];
      i := i + 1;
    }
    // The session-cookie loop has no effect: it only breaks, and the method then returns
    // `None`, which the first ensures ties to `CsrfToken`.
    i := 0;
    while i < |cookies|
      invariant 0 <= i <= |cookies|
    {
      var parsed := ParseCookie(cookies[i]);
      if parsed.name == "laravel_session" && parsed.value.Some? && parsed.value.value != "" {
        break;
      }
      i := i + 1;
    }
    return None;
  }
}
