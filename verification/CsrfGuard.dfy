/**
 The double-submit CSRF token: how the client reads it back from its cookies and
 how the server compares cookie and header.  Strings are sequences of UTF-16 code
 units, as in JavaScript.
 */
module CsrfGuard {
  import opened Wrappers
  import opened UriComponent

  // "csrfToken"
  const CSRF_TOKEN: JsString := [0x63, 0x73, 0x72, 0x66, 0x54, 0x6F, 0x6B, 0x65, 0x6E]

  const MAX_TOKEN_LENGTH: nat := 64

  // ---- the guard -------------------------------------------------------------------

  // timingSafeEqual: an OR of XORs over all positions.
  method TimingSafeEqual(a: JsString, b: JsString) returns (equal: bool)
    ensures equal <==> a == b && |a| <= 64
  {
    if |a| > MAX_TOKEN_LENGTH || |b| > MAX_TOKEN_LENGTH {
      return false;
    }
    if |a| != |b| {
      return false;
    }
    var result: CodeUnit := 0;
    var i := 0;
    while i < |a|
      invariant 0 <= i <= |a|
      invariant result == 0 <==> a[..i] == b[..i]
    {
      PrefixesEqualIff(a, b, i);
      result := OrXor(result, a[i], b[i]);
      i := i + 1;
    }
    assert a[..|a|] == a && b[..|b|] == b;
    return result == 0;
  }

  // result |= x ^ y
  method OrXor(result: CodeUnit, x: CodeUnit, y: CodeUnit) returns (r: CodeUnit)
    ensures r == 0 <==> result == 0 && x == y
  {
    r := result | (x ^ y);
  }

  lemma PrefixesEqualIff(a: JsString, b: JsString, i: nat)
    requires i < |a| && i < |b|
    ensures a[..i + 1] == b[..i + 1] <==> a[..i] == b[..i] && a[i] == b[i]
  {
    assert a[..i + 1] == a[..i] + [a[i]] && b[..i + 1] == b[..i] + [b[i]];
  }

  datatype HttpMethod = GET | HEAD | OPTIONS | POST | PUT | PATCH | DELETE | OTHER(name: JsString)

  datatype Decision = Allowed | CsrfTokenMissing | CsrfTokenInvalid

  // `!value` on an optional string.
  predicate Falsy(value: Option<JsString>) {
    value.None? || value.value == []
  }

  method CanActivate(skipCsrf: bool, verb: HttpMethod, csrfCookie: Option<JsString>, csrfHeader: Option<JsString>) returns (d: Decision)
    ensures d == Allowed <==>
              || skipCsrf
              || verb in {GET, HEAD, OPTIONS}
              || (!Falsy(csrfCookie) && csrfHeader == csrfCookie && |csrfCookie.value| <= 64)
    ensures d == CsrfTokenMissing ==> Falsy(csrfCookie) || Falsy(csrfHeader)
    ensures d == CsrfTokenInvalid ==> !Falsy(csrfCookie) && !Falsy(csrfHeader)
  {
    if skipCsrf {
      return Allowed;
    }
    if verb == GET || verb == HEAD || verb == OPTIONS {
      return Allowed;
    }
    if Falsy(csrfCookie) || Falsy(csrfHeader) {
      return CsrfTokenMissing;
    }
    var same := TimingSafeEqual(csrfCookie.value, csrfHeader.value);
    return if same then Allowed else CsrfTokenInvalid;
  }

  // ---- cookies -------------------------------------------------------------------------------

  datatype Cookie = Cookie(name: JsString, value: JsString)

  function Written(c: Cookie): JsString {
    c.name + [EQUALS] + c.value
  }

  // document.cookie: name=value pairs separated by "; ".
  function Join(cookies: seq<Cookie>): JsString {
    if cookies == [] then []
    else if |cookies| == 1 then Written(cookies[0])
    else Written(cookies[0]) + [SEMICOLON, SPACE] + Join(cookies[1..])
  }

  function IndexOf(s: JsString, c: CodeUnit): (i: nat)
    ensures i <= |s| && c !in s[..i] && (i < |s| ==> s[i] == c)
  {
    if s == [] || s[0] == c then 0 else 1 + IndexOf(s[1..], c)
  }

  // Where the first "; " of s begins, or |s|.
  function IndexOfSeparator(s: JsString): (i: nat)
    ensures i <= |s|
    ensures i < |s| ==> i + 1 < |s| && s[i] == SEMICOLON && s[i + 1] == SPACE
    ensures forall k :: 0 <= k < i && k + 1 < |s| ==> !(s[k] == SEMICOLON && s[k + 1] == SPACE)
  {
    if |s| < 2 then |s|
    else if s[0] == SEMICOLON && s[1] == SPACE then 0
    else 1 + IndexOfSeparator(s[1..])
  }

  // s.split('; ')
  function SplitCookies(s: JsString): seq<JsString>
    decreases |s|
  {
    var i := IndexOfSeparator(s);
    if i == |s| then [s] else [s[..i]] + SplitCookies(s[i + 2..])
  }

  // s.split('=')[1], when there is a '='.
  function SecondField(s: JsString): JsString {
    var i := IndexOf(s, EQUALS);
    if i == |s| then [] else s[i + 1..][..IndexOf(s[i + 1..], EQUALS)]
  }

  predicate StartsWith(s: JsString, prefix: JsString) {
    |prefix| <= |s| && s[..|prefix|] == prefix
  }

  // cookies.find(cookie => cookie.startsWith('csrfToken='))
  function FindCsrf(parts: seq<JsString>): Option<JsString> {
    if parts == [] then None
    else if StartsWith(parts[0], CSRF_TOKEN + [EQUALS]) then Some(parts[0])
    else FindCsrf(parts[1..])
  }

  datatype Lookup = NoCookie | Found(value: JsString) | Throws

  function GetCsrfTokenFromCookie(documentCookie: JsString): Lookup {
    match FindCsrf(SplitCookies(documentCookie))
    case None => NoCookie
    case Some(part) =>
      match Decode(SecondField(part))
      case Some(value) => Found(value)
      case None => Throws
  }

  // ---- the round trip ---------------------------------------------------------------------------

  // Names and values a cookie can have: no ';', and no '=' in the name.
  predicate WellFormed(c: Cookie) {
    SEMICOLON !in c.name && SEMICOLON !in c.value && EQUALS !in c.name
  }

  lemma {:induction false} SeparatorAfter(part: JsString, rest: JsString)
    requires SEMICOLON !in part
    ensures IndexOfSeparator(part + ([SEMICOLON, SPACE] + rest)) == |part|
  {
    var s := part + ([SEMICOLON, SPACE] + rest);
    if part == [] {
      assert s == [SEMICOLON, SPACE] + rest;
    } else {
      SeparatorAfter(part[1..], rest);
      assert s[1..] == part[1..] + ([SEMICOLON, SPACE] + rest);
      assert s[0] == part[0] && part[0] in part;
    }
  }

  lemma {:induction false} NoSeparator(part: JsString)
    requires SEMICOLON !in part
    ensures IndexOfSeparator(part) == |part|
  {
    if |part| >= 2 {
      assert part[0] in part;
      NoSeparator(part[1..]);
    }
  }

  function WrittenAll(cookies: seq<Cookie>): seq<JsString> {
    if cookies == [] then [] else [Written(cookies[0])] + WrittenAll(cookies[1..])
  }

  lemma {:induction false} SplitJoin(cookies: seq<Cookie>)
    requires cookies != [] && EachWellFormed(cookies)
    ensures SplitCookies(Join(cookies)) == WrittenAll(cookies)
  {
    var first := Written(cookies[0]);
    assert WellFormed(cookies[0]) && SEMICOLON !in first;
    if |cookies| == 1 {
      NoSeparator(first);
      assert WrittenAll(cookies[1..]) == [];
    } else {
      SplitJoin(cookies[1..]);
      var rest := Join(cookies[1..]);
      assert Join(cookies) == first + ([SEMICOLON, SPACE] + rest);
      SeparatorAfter(first, rest);
      assert Join(cookies)[..|first|] == first && Join(cookies)[|first| + 2..] == rest;
    }
  }

  // Only a cookie of that very name starts with "csrfToken=".
  lemma StartsWithName(c: Cookie)
    requires EQUALS !in c.name
    ensures StartsWith(Written(c), CSRF_TOKEN + [EQUALS]) <==> c.name == CSRF_TOKEN
  {
    var s, prefix := Written(c), CSRF_TOKEN + [EQUALS];
    assert forall i :: 0 <= i < |c.name| ==> s[i] == c.name[i] && c.name[i] in c.name;
    assert s[|c.name|] == EQUALS && prefix[|CSRF_TOKEN|] == EQUALS;
    assert forall i :: 0 <= i < |CSRF_TOKEN| ==> prefix[i] == CSRF_TOKEN[i] != EQUALS;
    if StartsWith(s, prefix) {
      assert forall i :: 0 <= i < |prefix| ==> s[i] == s[..|prefix|][i] == prefix[i];
    }
  }

  lemma {:induction false} FindAmong(before: seq<Cookie>, csrf: Cookie, after: seq<Cookie>)
    requires csrf.name == CSRF_TOKEN && EQUALS !in csrf.name
    requires EachWellFormed(before) && forall c :: c in before ==> c.name != CSRF_TOKEN
    ensures FindCsrf(WrittenAll(before + [csrf] + after)) == Some(Written(csrf))
  {
    var all := before + [csrf] + after;
    if before == [] {
      assert all[0] == csrf;
      StartsWithName(csrf);
    } else {
      assert all[0] == before[0] && all[1..] == before[1..] + [csrf] + after;
      assert before[0] in before && WellFormed(before[0]);
      StartsWithName(before[0]);
      FindAmong(before[1..], csrf, after);
    }
  }

  lemma {:induction false} IndexOfIs(prefix: JsString, rest: JsString, c: CodeUnit)
    requires c !in prefix && (rest == [] || rest[0] == c)
    ensures IndexOf(prefix + rest, c) == |prefix|
  {
    var s := prefix + rest;
    if prefix == [] {
      assert s == rest;
    } else {
      assert prefix[0] in prefix;
      assert s[1..] == prefix[1..] + rest;
      IndexOfIs(prefix[1..], rest, c);
    }
  }

  lemma SecondFieldIs(c: Cookie)
    requires EQUALS !in c.name && EQUALS !in c.value
    ensures SecondField(Written(c)) == c.value
  {
    assert Written(c) == c.name + ([EQUALS] + c.value);
    IndexOfIs(c.name, [EQUALS] + c.value, EQUALS);
    assert Written(c)[|c.name| + 1..] == c.value;
    assert c.value + [] == c.value;
    IndexOfIs(c.value, [], EQUALS);
  }

  // A value that contains '=' as it is, is cut there.
  lemma SecondFieldIsCut(name: JsString, value: JsString, rest: JsString)
    requires EQUALS !in name && EQUALS !in value
    ensures SecondField(Written(Cookie(name, value + [EQUALS] + rest))) == value
  {
    var written := Written(Cookie(name, value + [EQUALS] + rest));
    assert written == name + ([EQUALS] + (value + ([EQUALS] + rest)));
    IndexOfIs(name, [EQUALS] + (value + ([EQUALS] + rest)), EQUALS);
    assert written[|name| + 1..] == value + ([EQUALS] + rest);
    IndexOfIs(value, [EQUALS] + rest, EQUALS);
  }

  lemma {:induction false} EncodedIsPlain(s: JsString)
    requires Encode(s).Some?
    ensures EQUALS !in Encode(s).value && SEMICOLON !in Encode(s).value
  {
    if s != [] {
      if Unreserved(s[0]) {
        EncodedIsPlain(s[1..]);
      } else if HighSurrogate(s[0]) {
        EncodedIsPlain(s[2..]);
        EscapesArePlain(Utf8Pair(s[0], s[1]));
      } else {
        EncodedIsPlain(s[1..]);
        EscapesArePlain(Utf8(s[0]));
      }
    }
  }

  lemma {:induction false} EscapesArePlain(octets: seq<CodeUnit>)
    requires AllOctets(octets)
    ensures EQUALS !in EscapeAll(octets) && SEMICOLON !in EscapeAll(octets)
  {
    if octets != [] {
      HexDigitPlain(octets[0] >> 4);
      HexDigitPlain(octets[0] & 0xF);
      EscapesArePlain(octets[1..]);
    }
  }

  lemma HexDigitPlain(n: CodeUnit)
    requires n < 16
    ensures HexDigit(n) != EQUALS && HexDigit(n) != SEMICOLON
  {}

  ghost predicate EachWellFormed(cookies: seq<Cookie>) {
    forall c :: c in cookies ==> WellFormed(c)
  }

  lemma AllWellFormed(before: seq<Cookie>, csrf: Cookie, after: seq<Cookie>)
    requires EachWellFormed(before) && WellFormed(csrf) && EachWellFormed(after)
    ensures EachWellFormed(before + [csrf] + after)
  {}

  // The lookup reads the value of the one cookie of that name.
  lemma CookieFound(before: seq<Cookie>, csrf: Cookie, after: seq<Cookie>)
    requires WellFormed(csrf) && csrf.name == CSRF_TOKEN && EQUALS !in csrf.value
    requires EachWellFormed(before) && forall c :: c in before ==> c.name != CSRF_TOKEN
    requires EachWellFormed(after)
    ensures FindCsrf(SplitCookies(Join(before + [csrf] + after))) == Some(Written(csrf))
    ensures SecondField(Written(csrf)) == csrf.value
  {
    AllWellFormed(before, csrf, after);
    SplitJoin(before + [csrf] + after);
    FindAmong(before, csrf, after);
    SecondFieldIs(csrf);
  }

  lemma {:induction false} FindNone(cookies: seq<Cookie>)
    requires EachWellFormed(cookies) && forall c :: c in cookies ==> c.name != CSRF_TOKEN
    ensures FindCsrf(WrittenAll(cookies)) == None
  {
    if cookies != [] {
      assert cookies[0] in cookies && WellFormed(cookies[0]);
      StartsWithName(cookies[0]);
      FindNone(cookies[1..]);
    }
  }

  // Without a cookie of that name there is no token, whatever the other cookies are.
  lemma NoCsrfCookie(cookies: seq<Cookie>)
    requires EachWellFormed(cookies) && forall c :: c in cookies ==> c.name != CSRF_TOKEN
    ensures GetCsrfTokenFromCookie(Join(cookies)) == NoCookie
  {
    if cookies == [] {
      assert SplitCookies([]) == [[]];
    } else {
      SplitJoin(cookies);
      FindNone(cookies);
    }
  }

  lemma NameIsPlain()
    ensures SEMICOLON !in CSRF_TOKEN && EQUALS !in CSRF_TOKEN
  {}

  // A token set as a cookie, wherever it stands among other cookies, comes back as it was.
  lemma CsrfTokenRoundTrip(before: seq<Cookie>, token: JsString, after: seq<Cookie>)
    requires Encode(token).Some?
    requires EachWellFormed(before) && forall c :: c in before ==> c.name != CSRF_TOKEN
    requires EachWellFormed(after)
    ensures var all := before + [Cookie(CSRF_TOKEN, Encode(token).value)] + after;
            GetCsrfTokenFromCookie(Join(all)) == Found(token)
  {
    EncodedIsPlain(token);
    DecodeEncode(token);
    NameIsPlain();
    CookieFound(before, Cookie(CSRF_TOKEN, Encode(token).value), after);
  }

  // ---- the request interceptor ---------------------------------------------------------------------

  const X_CSRF_TOKEN: string := "X-CSRF-Token"

  class RequestConfig {
    const verb: HttpMethod
    var headers: map<string, JsString>

    constructor (verb: HttpMethod)
      ensures this.verb == verb && headers == map[]
    {
      this.verb, headers := verb, map[];
    }

    // The csrf header as the server sees it.
    function CsrfHeader(): Option<JsString>
      reads this
    {
      if X_CSRF_TOKEN in headers then Some(headers[X_CSRF_TOKEN]) else None
    }
  }

  // Writes the header on a mutating request; `ok` is false where decoding throws.
  method InterceptRequest(config: RequestConfig, documentCookie: JsString) returns (ok: bool)
    modifies config
    ensures var mutates := config.verb in {POST, PUT, PATCH, DELETE};
            var lookup := GetCsrfTokenFromCookie(documentCookie);
            && (ok <==> !(mutates && lookup.Throws?))
            && config.headers == (if mutates && lookup.Found? && lookup.value != []
                                  then old(config.headers)[X_CSRF_TOKEN := lookup.value] else old(config.headers))
  {
    if config.verb == POST || config.verb == PUT || config.verb == PATCH || config.verb == DELETE {
      match GetCsrfTokenFromCookie(documentCookie)
      case Throws => return false;
      case NoCookie =>
      case Found(csrfToken) =>
        if csrfToken != [] {
          config.headers := config.headers[X_CSRF_TOKEN := csrfToken];
        }
    }
    return true;
  }

  // End to end: with the token among its cookies the client's request passes the
  // guard, for every verb the client attaches the header to or the guard exempts.
  method GuardAcceptsRoundTrip(before: seq<Cookie>, token: JsString, after: seq<Cookie>, verb: HttpMethod) returns (d: Decision)
    requires 1 <= |token| <= MAX_TOKEN_LENGTH && IsBase64(token)
    requires EachWellFormed(before) && forall c :: c in before ==> c.name != CSRF_TOKEN
    requires EachWellFormed(after)
    ensures d == Allowed <==> !verb.OTHER?
  {
    AsciiCanBeEncoded(token);
    CsrfTokenRoundTrip(before, token, after);
    var config := new RequestConfig(verb);
    var ok := InterceptRequest(config, Join(before + [Cookie(CSRF_TOKEN, Encode(token).value)] + after));
    assert ok;
    d := CanActivate(false, verb, Some(token), config.CsrfHeader());
  }
}
