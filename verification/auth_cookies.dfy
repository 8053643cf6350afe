/** The cookie mirror of the access token (src/lib/auth-cookies.ts): it builds the
    `auth_token` Set-Cookie strings and reads the token back out of a `Cookie`
    header. `isDevelopment` stands for `process.env.NODE_ENV === 'development'`. */
module AuthCookies {
  import opened Js

  const CookieName := "auth_token"

  /** Seven days in seconds: the default `maxAge` of `setAuthCookie`. */
  const DefaultMaxAge: int := 60 * 60 * 24 * 7

  /** `setAuthCookie(token, maxAge)`: the `auth_token` cookie, whose value
      comes first. */
  function SetAuthCookie(token: string, maxAge: int, isDevelopment: bool): (c: string)
    ensures "auth_token=" + token <= c
  {
    if isDevelopment then
      "auth_token=" + token + "; Max-Age=" + IntToString(maxAge) + "; Path=/" + "; SameSite=Strict"
    else
      "auth_token=" + token + "; Max-Age=" + IntToString(maxAge) + "; Path=/" + "; Secure" + "; SameSite=Strict"
  }

  /** `clearAuthCookie()`: the setting cookie for an empty token and a zero
      max-age, with the same `Secure` policy. */
  function ClearAuthCookie(isDevelopment: bool): (c: string)
    ensures c == SetAuthCookie("", 0, isDevelopment)
  {
    assert IntToString(0) == "0" by {
      assert Digit(0) == '0';
    }
    assert "; Max-Age=" + "0" == "; Max-Age=0";

    if isDevelopment then
      "auth_token=" + "; Max-Age=0" + "; Path=/" + "; SameSite=Strict"
    else
      "auth_token=" + "; Max-Age=0" + "; Path=/" + "; Secure" + "; SameSite=Strict"
  }

  /** The `;`-separated segments of a Set-Cookie string, as written. */
  function CookieSegments(token: string, maxAge: int, isDevelopment: bool): seq<string>
  {
    var attributes := if isDevelopment then [" " + "SameSite=Strict"] else [" " + "Secure", " " + "SameSite=Strict"];
    ["auth_token=" + token] + ([" " + ("Max-Age=" + IntToString(maxAge))] + ([" " + "Path=/"] + attributes))
  }

  /** Splitting the cookie string at `;` gives back the segments it was written from. */
  lemma SetAuthCookieSegments(token: string, maxAge: int, isDevelopment: bool)
    requires ';' !in token
    ensures Split(SetAuthCookie(token, maxAge, isDevelopment), ';') == CookieSegments(token, maxAge, isDevelopment)
  {
    var first, second, path := "auth_token=" + token, " " + ("Max-Age=" + IntToString(maxAge)), " " + "Path=/";
    var sameSite, secure := " " + "SameSite=Strict", " " + "Secure";
    assert ';' !in sameSite && ';' !in secure && ';' !in path && ';' !in second;
    var rest, restParts;
    if isDevelopment {
      rest, restParts := sameSite, [sameSite];
    } else {
      rest, restParts := secure + [';'] + sameSite, [secure, sameSite];
      SplitCons(secure, sameSite, ';');
    }
    assert Split(rest, ';') == restParts;
    CookieAsSegments(token, IntToString(maxAge), isDevelopment);
    SplitCons(path, rest, ';');
    SplitCons(second, path + [';'] + rest, ';');
    SplitCons(first, second + [';'] + (path + [';'] + rest), ';');
  }

  /** The cookie string with each `; ` written as a separator followed by the
      rest of its segment. */
  lemma CookieAsSegments(token: string, age: string, isDevelopment: bool)
    ensures var rest := if isDevelopment then " " + "SameSite=Strict" else (" " + "Secure") + [';'] + (" " + "SameSite=Strict");
      (if isDevelopment then
         "auth_token=" + token + "; Max-Age=" + age + "; Path=/" + "; SameSite=Strict"
       else
         "auth_token=" + token + "; Max-Age=" + age + "; Path=/" + "; Secure" + "; SameSite=Strict")
      == "auth_token=" + token + [';'] + (" " + ("Max-Age=" + age) + [';'] + (" " + "Path=/" + [';'] + rest))
  {
    if isDevelopment {
      DevelopmentAsSegments(token, age);
    } else {
      ProductionAsSegments(token, age);
    }
  }

  lemma DevelopmentAsSegments(token: string, age: string)
    ensures "auth_token=" + token + "; Max-Age=" + age + "; Path=/" + "; SameSite=Strict"
      == "auth_token=" + token + [';'] + (" " + ("Max-Age=" + age) + [';'] + (" " + "Path=/" + [';'] + (" " + "SameSite=Strict")))
  {
    var m, p, ss := "; Max-Age=", "; Path=/", "; SameSite=Strict";
    assert m == [';'] + (" " + "Max-Age=");
    assert p == [';'] + (" " + "Path=/");
    assert ss == [';'] + (" " + "SameSite=Strict");
    Reassociate("auth_token=" + token, age, m, p, ss, " " + "Max-Age=", " " + "Path=/", " " + "SameSite=Strict");
  }

  lemma ProductionAsSegments(token: string, age: string)
    ensures "auth_token=" + token + "; Max-Age=" + age + "; Path=/" + "; Secure" + "; SameSite=Strict"
      == "auth_token=" + token + [';'] + (" " + ("Max-Age=" + age) + [';'] + (" " + "Path=/" + [';'] + ((" " + "Secure") + [';'] + (" " + "SameSite=Strict"))))
  {
    var first := "auth_token=" + token;
    var m, p, s, ss := "; Max-Age=", "; Path=/", "; Secure", "; SameSite=Strict";
    var secure, sameSite := " " + "Secure", " " + "SameSite=Strict";
    assert m == [';'] + (" " + "Max-Age=");
    assert p == [';'] + (" " + "Path=/");
    assert s + ss == [';'] + (secure + [';'] + sameSite);
    Reassociate(first, age, m, p, s + ss, " " + "Max-Age=", " " + "Path=/", secure + [';'] + sameSite);
    assert first + m + age + p + s + ss == first + m + age + p + (s + ss);
  }

  lemma Reassociate(first: string, age: string, m: string, p: string, r: string, m': string, p': string, r': string)
    requires m == [';'] + m' && p == [';'] + p' && r == [';'] + r'
    ensures first + m + age + p + r == first + [';'] + (m' + age + [';'] + (p' + [';'] + r'))
  {
  }

  /** The attributes of a cookie string: its `;`-separated parts, trimmed. */
  function Parts(cookie: string): seq<string>
  {
    var segments := Split(cookie, ';');
    seq(|segments|, i requires 0 <= i < |segments| => Trim(segments[i]))
  }

  /** Trimming the segments of a Set-Cookie string gives its parts. */
  lemma SetAuthCookiePartsAre(token: string, maxAge: int, isDevelopment: bool)
    requires ';' !in token
    ensures var parts, segments := Parts(SetAuthCookie(token, maxAge, isDevelopment)), CookieSegments(token, maxAge, isDevelopment);
      |parts| == |segments| && forall i :: 0 <= i < |parts| ==> parts[i] == Trim(segments[i])
  {
    SetAuthCookieSegments(token, maxAge, isDevelopment);
  }

  /** The parts `setAuthCookie` writes: the token under its name, the given
      max-age, `Path=/`, `Secure` exactly outside development, and
      `SameSite=Strict` last. */
  lemma SetAuthCookieParts(token: string, maxAge: int, isDevelopment: bool)
    requires ';' !in token && (token == [] || !IsWhiteSpace(token[|token| - 1]))
    ensures var parts := Parts(SetAuthCookie(token, maxAge, isDevelopment));
      && |parts| == (if isDevelopment then 4 else 5)
      && parts[0] == "auth_token=" + token
      && parts[1] == "Max-Age=" + IntToString(maxAge)
      && parts[2] == "Path=/"
      && (!isDevelopment ==> parts[3] == "Secure")
      && parts[|parts| - 1] == "SameSite=Strict"
  {
    TokenPart(token, maxAge, isDevelopment);
    MaxAgePart(token, maxAge, isDevelopment);
    AttributeParts(token, maxAge, isDevelopment);
  }

  lemma TokenPart(token: string, maxAge: int, isDevelopment: bool)
    requires ';' !in token && (token == [] || !IsWhiteSpace(token[|token| - 1]))
    ensures var parts := Parts(SetAuthCookie(token, maxAge, isDevelopment));
      |parts| == (if isDevelopment then 4 else 5) && parts[0] == "auth_token=" + token
  {
    SetAuthCookiePartsAre(token, maxAge, isDevelopment);
    TokenPartTrim(token);
  }

  lemma MaxAgePart(token: string, maxAge: int, isDevelopment: bool)
    requires ';' !in token
    ensures var parts := Parts(SetAuthCookie(token, maxAge, isDevelopment));
      |parts| == (if isDevelopment then 4 else 5) && parts[1] == "Max-Age=" + IntToString(maxAge)
  {
    SetAuthCookiePartsAre(token, maxAge, isDevelopment);
    TrimSpaced("Max-Age=" + IntToString(maxAge));
  }

  lemma AttributeParts(token: string, maxAge: int, isDevelopment: bool)
    requires ';' !in token
    ensures var parts := Parts(SetAuthCookie(token, maxAge, isDevelopment));
      && |parts| == (if isDevelopment then 4 else 5)
      && parts[2] == "Path=/"
      && (!isDevelopment ==> parts[3] == "Secure")
      && parts[|parts| - 1] == "SameSite=Strict"
  {
    SetAuthCookiePartsAre(token, maxAge, isDevelopment);
    AttributeTrims();
    var segments := CookieSegments(token, maxAge, isDevelopment);
    assert segments[2] == " " + "Path=/";
    assert segments[|segments| - 1] == " " + "SameSite=Strict";
    if !isDevelopment {
      assert segments[3] == " " + "Secure";
    }
  }

  lemma TokenPartTrim(token: string)
    requires token == [] || !IsWhiteSpace(token[|token| - 1])
    ensures Trim("auth_token=" + token) == "auth_token=" + token
  {
    var part := "auth_token=" + token;
    assert part[0] == 'a';
    if token == [] {
      assert part[|part| - 1] == '=';
    } else {
      assert part[|part| - 1] == token[|token| - 1];
    }
    TrimUntouched(part);
  }

  lemma AttributeTrims()
    ensures Trim(" " + "Path=/") == "Path=/"
    ensures Trim(" " + "Secure") == "Secure"
    ensures Trim(" " + "SameSite=Strict") == "SameSite=Strict"
  {
    TrimSpaced("Path=/");
    TrimSpaced("SameSite=Strict");
    TrimSpaced("Secure");
  }

  /** `Secure` is among the attributes exactly when not in development. */
  lemma SecureUnlessDevelopment(token: string, maxAge: int, isDevelopment: bool)
    requires ';' !in token && (token == [] || !IsWhiteSpace(token[|token| - 1]))
    ensures "Secure" in Parts(SetAuthCookie(token, maxAge, isDevelopment)) <==> !isDevelopment
  {
    var parts := Parts(SetAuthCookie(token, maxAge, isDevelopment));
    SetAuthCookieParts(token, maxAge, isDevelopment);
    if isDevelopment {
      DevelopmentPartsNotSecure(parts, token, maxAge);
    } else {
      assert parts[3] == "Secure";
    }
  }

  /** None of the four development parts reads `Secure`. */
  lemma DevelopmentPartsNotSecure(parts: seq<string>, token: string, maxAge: int)
    requires |parts| == 4 && parts[0] == "auth_token=" + token && parts[1] == "Max-Age=" + IntToString(maxAge)
    requires parts[2] == "Path=/" && parts[3] == "SameSite=Strict"
    ensures "Secure" !in parts
  {
    assert parts[0][0] != "Secure"[0];
    assert parts[1][0] != "Secure"[0];
    assert parts[2][0] != "Secure"[0];
    assert |parts[3]| != |"Secure"|;
  }

  /** Production cookies differ from development ones only by a `Secure`
      attribute placed just before `SameSite=Strict`. */
  lemma SecureInsertedBeforeSameSite(token: string, maxAge: int)
    ensures var dev := SetAuthCookie(token, maxAge, true);
      var k := |dev| - |"; SameSite=Strict"|;
      0 <= k && SetAuthCookie(token, maxAge, false) == dev[..k] + "; Secure" + dev[k..]
  {
    var dev := SetAuthCookie(token, maxAge, true);
    var head := "auth_token=" + token + "; Max-Age=" + IntToString(maxAge) + "; Path=/";
    var k := |dev| - |"; SameSite=Strict"|;
    assert dev == head + "; SameSite=Strict";
    assert dev[..k] == head;
    assert dev[k..] == "; SameSite=Strict";
  }

  // ---------------------------------------------------------------------------
  // Reading a Cookie header

  /** One `key=value` pair of a header; a missing value (`undefined`) is `""`. */
  datatype Entry = Entry(key: string, value: string)

  /** `const [key, value] = part.split('=')`: anything after a second `=` is
      dropped. */
  function KeyValue(part: string): (e: Entry)
    ensures '=' !in e.key && '=' !in e.value
  {
    var pieces := Split(part, '=');
    Entry(pieces[0], if |pieces| > 1 then pieces[1] else "")
  }

  /** `cookie.trim().split('=')` for one segment of a header. */
  function ParseSegment(segment: string): (e: Entry)
    ensures '=' !in e.key && '=' !in e.value
  {
    KeyValue(Trim(segment))
  }

  /** A `key=value` part with no further `=` reads back as that key and value. */
  lemma KeyValueOfPair(key: string, value: string)
    requires '=' !in key && '=' !in value
    ensures KeyValue(key + "=" + value) == Entry(key, value)
  {
    SplitCons(key, value, '=');
    SplitNone(value, '=');
  }

  /** The entries of a header's `;`-separated segments, in order. */
  function Entries(header: string): (es: seq<Entry>)
    ensures |es| == |Split(header, ';')|
  {
    var segments := Split(header, ';');
    seq(|segments|, i requires 0 <= i < |segments| => ParseSegment(segments[i]))
  }

  /** `if (key && value) acc[key] = value`. */
  predicate Records(e: Entry, key: string)
  {
    e.key == key && e.key != "" && e.value != ""
  }

  /** The dictionary `reduce` builds from the entries, left to right. */
  function Jar(entries: seq<Entry>): (jar: map<string, string>)
    ensures forall k :: k in jar ==> k != "" && jar[k] != ""
  {
    if entries == [] then map[]
    else
      var jar := Jar(entries[..|entries| - 1]);
      var e := entries[|entries| - 1];
      if e.key != "" && e.value != "" then jar[e.key := e.value] else jar
  }

  /** The pure specification of `getTokenFromCookies`. */
  function TokenFromCookies(header: string): (token: Option<string>)
    ensures header == "" ==> token == None
    ensures token.Some? ==> token.value != ""
  {
    if header == "" then None
    else
      var jar := Jar(Entries(header));
      if CookieName in jar then OrNull(Some(jar[CookieName])) else None
  }

  /** The last entry that records a key decides its value: a later duplicate
      overwrites an earlier one. */
  lemma {:induction false} JarLastWins(entries: seq<Entry>, key: string, i: nat)
    requires i < |entries| && Records(entries[i], key)
    requires forall j :: i < j < |entries| ==> !Records(entries[j], key)
    ensures key in Jar(entries) && Jar(entries)[key] == entries[i].value
    decreases |entries|
  {
    var n := |entries| - 1;
    var prefix := entries[..n];
    if i < n {
      assert forall j :: i < j < |prefix| ==> prefix[j] == entries[j];
      JarLastWins(prefix, key, i);
      assert !Records(entries[n], key);
    }
  }

  /** A key that no entry records is absent. */
  lemma {:induction false} JarMissing(entries: seq<Entry>, key: string)
    requires forall j :: 0 <= j < |entries| ==> !Records(entries[j], key)
    ensures key !in Jar(entries)
    decreases |entries|
  {
    if entries != [] {
      var n := |entries| - 1;
      var prefix := entries[..n];
      assert forall j :: 0 <= j < |prefix| ==> prefix[j] == entries[j];
      JarMissing(prefix, key);
    }
  }

  /** Every recorded value comes from some entry that records it. */
  lemma {:induction false} JarSource(entries: seq<Entry>, key: string)
    requires key in Jar(entries)
    ensures exists i :: 0 <= i < |entries| && Records(entries[i], key) && entries[i].value == Jar(entries)[key]
    decreases |entries|
  {
    var n := |entries| - 1;
    var prefix := entries[..n];
    if !Records(entries[n], key) {
      JarSource(prefix, key);
      var i :| 0 <= i < |prefix| && Records(prefix[i], key) && prefix[i].value == Jar(prefix)[key];
      assert entries[i] == prefix[i];
    }
  }

  /** `getTokenFromCookies`: folds over the `;`-separated segments, recording
      each `key=value` pair in a dictionary, then looks up `auth_token`. */
  method GetTokenFromCookies(cookieString: string) returns (token: Option<string>)
    ensures token == TokenFromCookies(cookieString)
  {
    if cookieString == "" {
      return None;
    }
    var segments := Split(cookieString, ';');
    ghost var entries := Entries(cookieString);
    var acc: map<string, string> := map[];
    var i := 0;
    while i < |segments|
      invariant 0 <= i <= |segments|
      invariant acc == Jar(entries[..i])
    {
      var e := ParseSegment(segments[i]);
      if e.key != "" && e.value != "" {
        acc := acc[e.key := e.value];
      }
      assert entries[..i + 1][..i] == entries[..i];
      i := i + 1;
    }
    assert entries[..i] == entries;
    if CookieName in acc && acc[CookieName] != "" {
      token := Some(acc[CookieName]);
    } else {
      token := None;
    }
  }

  /** `getTokenFromBrowser`: no window means no token; otherwise the token in
      `document.cookie`. */
  method GetTokenFromBrowser(hasWindow: bool, documentCookie: string) returns (token: Option<string>)
    ensures !hasWindow ==> token == None
    ensures hasWindow ==> token == TokenFromCookies(documentCookie)
  {
    if !hasWindow {
      return None;
    }
    token := GetTokenFromCookies(documentCookie);
  }

  // ---------------------------------------------------------------------------
  // Round trips

  /** A token that survives the trip through a cookie string. */
  predicate WellFormedToken(token: string)
  {
    token != "" && ';' !in token && '=' !in token && !IsWhiteSpace(token[|token| - 1])
  }

  /** The entries of a header are the key-value pairs of its parts. */
  lemma EntriesOfParts(header: string)
    ensures |Entries(header)| == |Parts(header)|
    ensures forall i :: 0 <= i < |Parts(header)| ==> Entries(header)[i] == KeyValue(Parts(header)[i])
  {
  }

  /** The entries of a Set-Cookie string: the token under `auth_token`, then
      attributes whose keys are never `auth_token`. */
  lemma SetAuthCookieEntries(token: string, maxAge: int, isDevelopment: bool)
    requires ';' !in token && '=' !in token && (token == [] || !IsWhiteSpace(token[|token| - 1]))
    ensures var entries := Entries(SetAuthCookie(token, maxAge, isDevelopment));
      && |entries| > 1
      && entries[0] == Entry(CookieName, token)
      && forall j :: 0 < j < |entries| ==> entries[j].key != CookieName
  {
    var cookie := SetAuthCookie(token, maxAge, isDevelopment);
    SetAuthCookieParts(token, maxAge, isDevelopment);
    EntriesOfParts(cookie);
    SetCookieEntriesOf(Entries(cookie), Parts(cookie), token, maxAge, isDevelopment);
  }

  lemma SetCookieEntriesOf(entries: seq<Entry>, parts: seq<string>, token: string, maxAge: int, isDevelopment: bool)
    requires '=' !in token
    requires |entries| == |parts| && forall i :: 0 <= i < |parts| ==> entries[i] == KeyValue(parts[i])
    requires |parts| == (if isDevelopment then 4 else 5) && parts[0] == "auth_token=" + token
    requires parts[1] == "Max-Age=" + IntToString(maxAge) && parts[2] == "Path=/"
    requires (!isDevelopment ==> parts[3] == "Secure") && parts[|parts| - 1] == "SameSite=Strict"
    ensures |entries| > 1 && entries[0] == Entry(CookieName, token)
    ensures forall j :: 0 < j < |entries| ==> entries[j].key != CookieName
  {
    assert parts[0] == "auth_token" + "=" + token;
    KeyValueOfPair("auth_token", token);
    AttributeKeys(parts, token, maxAge, isDevelopment);
  }

  /** The parts after the first begin with a capital letter, so their keys are
      not `auth_token`. */
  lemma AttributeKeys(parts: seq<string>, token: string, maxAge: int, isDevelopment: bool)
    requires |parts| == (if isDevelopment then 4 else 5)
    requires parts[1] == "Max-Age=" + IntToString(maxAge) && parts[2] == "Path=/"
    requires (!isDevelopment ==> parts[3] == "Secure") && parts[|parts| - 1] == "SameSite=Strict"
    ensures forall j :: 0 < j < |parts| ==> KeyValue(parts[j]).key != CookieName
  {
    forall j | 0 < j < |parts|
      ensures KeyValue(parts[j]).key != CookieName
    {
      assert parts[j] != [] && parts[j][0] in "MPS";
      KeyStartsLikePart(parts[j]);
    }
  }

  /** The key of a part that does not start with `=` starts like the part. */
  lemma KeyStartsLikePart(part: string)
    requires part != [] && part[0] != '='
    ensures var key := KeyValue(part).key; key != [] && key[0] == part[0]
  {
    assert NextIndex(part, '=', 0) > 0;
  }

  /** Reading back the cookie that `setAuthCookie` writes gives the token again. */
  lemma SetThenRead(token: string, maxAge: int, isDevelopment: bool)
    requires WellFormedToken(token)
    ensures TokenFromCookies(SetAuthCookie(token, maxAge, isDevelopment)) == Some(token)
  {
    var entries := Entries(SetAuthCookie(token, maxAge, isDevelopment));
    SetAuthCookieEntries(token, maxAge, isDevelopment);
    JarLastWins(entries, CookieName, 0);
  }

  /** Reading back the cookie that `clearAuthCookie` writes finds no token. */
  lemma ClearThenRead(isDevelopment: bool)
    ensures TokenFromCookies(ClearAuthCookie(isDevelopment)) == None
  {
    var entries := Entries(ClearAuthCookie(isDevelopment));
    SetAuthCookieEntries("", 0, isDevelopment);
    JarMissing(entries, CookieName);
  }

  /** Anything after a second `=` in a part is dropped. */
  lemma SecondEqualsDropped(key: string, value: string, rest: string)
    requires '=' !in key && '=' !in value
    ensures KeyValue(key + "=" + value + "=" + rest) == Entry(key, value)
  {
    assert key + "=" + value + "=" + rest == key + ['='] + (value + ['='] + rest);
    SplitCons(key, value + ['='] + rest, '=');
    SplitCons(value, rest, '=');
  }

  /** A header holding only `auth_token=<value>=<rest>` yields `value`. */
  lemma TokenBeforeSecondEquals(value: string, rest: string)
    requires WellFormedToken(value) && ';' !in rest && (rest == [] || !IsWhiteSpace(rest[|rest| - 1]))
    ensures TokenFromCookies("auth_token=" + value + "=" + rest) == Some(value)
  {
    var header := "auth_token=" + value + "=" + rest;
    assert header == "auth_token" + "=" + value + "=" + rest;
    assert header[0] == 'a';
    assert header[|header| - 1] == if rest == [] then '=' else rest[|rest| - 1];
    assert ';' !in header;
    SplitNone(header, ';');
    TrimUntouched(header);
    SecondEqualsDropped("auth_token", value, rest);
    JarLastWins(Entries(header), CookieName, 0);
  }

  /** `auth_token=a=b` yields `a`. */
  lemma SecondEqualsExample()
    ensures TokenFromCookies("auth_token=" + "a" + "=" + "b") == Some("a")
  {
    TokenBeforeSecondEquals("a", "b");
  }
}
