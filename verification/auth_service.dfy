/** The session store and the login flow around it (src/lib/auth.ts):
    four `localStorage` keys written by `setAuth`, removed by `clearAuth`,
    and read back by guarded getters. Each awaited API result is passed in. */
module Auth {
  import opened Js
  import opened AuthTypes

  const TokenKey := "auth_token"
  const RefreshTokenKey := "refresh_token"
  const UserKey := "auth_user"
  const TenantKey := "auth_tenant"

  /** The keys `clearAuth` removes. */
  const Keys: set<string> := {TokenKey, RefreshTokenKey, UserKey, TenantKey}

  /** The four keys are distinct, so each field has a slot of its own. */
  lemma KeysDistinct()
    ensures |Keys| == 4
  {
    assert TokenKey != RefreshTokenKey && TokenKey != UserKey && TokenKey != TenantKey;
    assert RefreshTokenKey != UserKey && RefreshTokenKey != TenantKey && UserKey != TenantKey;
  }

  /** A `localStorage` value: plain text, or the `JSON.stringify` of a user or
      of a tenant (which `JSON.parse` reads back unchanged). */
  datatype Item = Text(text: string) | UserJson(user: User) | TenantJson(tenant: Tenant)

  type Storage = map<string, Item>

  /** What this code ever writes: text under the token keys, a user's JSON
      (or text) under the user key, a tenant's JSON (or text) under the
      tenant key. */
  predicate WellKept(s: Storage)
  {
    && (TokenKey in s ==> s[TokenKey].Text?)
    && (RefreshTokenKey in s ==> s[RefreshTokenKey].Text?)
    && (UserKey in s ==> !s[UserKey].TenantJson?)
    && (TenantKey in s ==> !s[TenantKey].UserJson?)
  }

  /** A JSON getter's outcome: nothing stored (or an empty string), the value,
      or text that `JSON.parse` rejects, which throws. */
  datatype Stored<T> = Absent | Found(value: T) | Corrupt

  /** `getStoredToken()`: `null` without a window, else `localStorage.getItem`. */
  function StoredToken(hasWindow: bool, s: Storage): (t: Option<string>)
    requires WellKept(s)
    ensures t.Some? <==> hasWindow && TokenKey in s
  {
    if hasWindow && TokenKey in s then Some(s[TokenKey].text) else None
  }

  /** `getStoredUser()`: `null` without a window or for a missing or empty
      item, else `JSON.parse` of the item. */
  function StoredUser(hasWindow: bool, s: Storage): (u: Stored<User>)
    requires WellKept(s)
    ensures u.Found? <==> hasWindow && UserKey in s && s[UserKey].UserJson?
    ensures u.Found? ==> u.value == s[UserKey].user
    ensures u.Corrupt? <==> hasWindow && UserKey in s && s[UserKey] != Text("") && !s[UserKey].UserJson?
  {
    if !hasWindow || UserKey !in s then Absent
    else if s[UserKey].UserJson? then Found(s[UserKey].user)
    else if s[UserKey].text == "" then Absent
    else Corrupt
  }

  /** `getStoredTenant()`, like `getStoredUser` for the tenant key. */
  function StoredTenant(hasWindow: bool, s: Storage): (t: Stored<Tenant>)
    requires WellKept(s)
    ensures t.Found? <==> hasWindow && TenantKey in s && s[TenantKey].TenantJson?
    ensures t.Found? ==> t.value == s[TenantKey].tenant
    ensures t.Corrupt? <==> hasWindow && TenantKey in s && s[TenantKey] != Text("") && !s[TenantKey].TenantJson?
  {
    if !hasWindow || TenantKey !in s then Absent
    else if s[TenantKey].TenantJson? then Found(s[TenantKey].tenant)
    else if s[TenantKey].text == "" then Absent
    else Corrupt
  }

  /** One `localStorage.setItem(key, item)` call. */
  datatype Write = Write(key: string, item: Item)

  /** A write this code makes: text under the token keys, a user under the
      user key, a tenant under the tenant key. */
  predicate Fits(w: Write)
  {
    && w.key in Keys
    && (w.key == TokenKey || w.key == RefreshTokenKey ==> w.item.Text?)
    && (w.key == UserKey ==> w.item.UserJson?)
    && (w.key == TenantKey ==> w.item.TenantJson?)
  }

  /** The `setItem` call `setAuth(r)` makes for its field number `k` (the
      token, the refresh token, the user, the tenant), if that field is set. */
  function FieldWrite(r: LoginResponse, k: nat): (p: seq<Write>)
    requires k < 4
    ensures |p| <= 1 && (p != [] ==> Fits(p[0]))
  {
    if k == 0 then (if Truthy(r.token) then [Write(TokenKey, Text(r.token.value))] else [])
    else if k == 1 then (if Truthy(r.refreshToken) then [Write(RefreshTokenKey, Text(r.refreshToken.value))] else [])
    else if k == 2 then (if r.user.Some? then [Write(UserKey, UserJson(r.user.value))] else [])
    else (if r.tenant.Some? then [Write(TenantKey, TenantJson(r.tenant.value))] else [])
  }

  /** The writes for the first `k` fields, in order. */
  function WritesUpTo(r: LoginResponse, k: nat): (ws: seq<Write>)
    requires k <= 4
    ensures |ws| <= k
  {
    if k == 0 then [] else WritesUpTo(r, k - 1) + FieldWrite(r, k - 1)
  }

  /** The `setItem` calls `setAuth(r)` makes, in order: one per truthy field. */
  function Writes(r: LoginResponse): (ws: seq<Write>)
    ensures |ws| <= 4
  {
    WritesUpTo(r, 4)
  }

  /** Each write of `setAuth` puts its kind of item in its own slot. */
  lemma {:induction false} WritesFit(r: LoginResponse, k: nat)
    requires k <= 4
    ensures forall i :: 0 <= i < |WritesUpTo(r, k)| ==> Fits(WritesUpTo(r, k)[i])
  {
    if k > 0 {
      WritesFit(r, k - 1);
    }
  }

  /** The writes for the first `k` fields begin the writes for the first `m`. */
  lemma {:induction false} UpToPrefix(r: LoginResponse, k: nat, m: nat)
    requires k <= m <= 4
    ensures |WritesUpTo(r, k)| <= |WritesUpTo(r, m)|
    ensures WritesUpTo(r, m)[..|WritesUpTo(r, k)|] == WritesUpTo(r, k)
    decreases m
  {
    if k < m {
      UpToPrefix(r, k, m - 1);
      var a, b := WritesUpTo(r, m - 1), WritesUpTo(r, k);
      assert WritesUpTo(r, m) == a + FieldWrite(r, m - 1);
      assert (a + FieldWrite(r, m - 1))[..|b|] == a[..|b|];
    }
  }

  /** The store after the writes `ws`, made one after the other. */
  function Apply(s: Storage, ws: seq<Write>): Storage
  {
    if ws == [] then s else Apply(s, ws[..|ws| - 1])[ws[|ws| - 1].key := ws[|ws| - 1].item]
  }

  /** The items `setAuth(r)` leaves behind: one per truthy field of `r`. */
  function Written(r: LoginResponse): (w: Storage)
    ensures w.Keys <= Keys
    ensures TokenKey in w <==> Truthy(r.token)
    ensures RefreshTokenKey in w <==> Truthy(r.refreshToken)
    ensures UserKey in w <==> r.user.Some?
    ensures TenantKey in w <==> r.tenant.Some?
  {
    (if Truthy(r.token) then map[TokenKey := Text(r.token.value)] else map[])
    + (if Truthy(r.refreshToken) then map[RefreshTokenKey := Text(r.refreshToken.value)] else map[])
    + (if r.user.Some? then map[UserKey := UserJson(r.user.value)] else map[])
    + (if r.tenant.Some? then map[TenantKey := TenantJson(r.tenant.value)] else map[])
  }

  /** The store after the writes for one more field. */
  lemma ApplyField(s: Storage, r: LoginResponse, k: nat)
    requires k < 4
    ensures var before, p := Apply(s, WritesUpTo(r, k)), FieldWrite(r, k);
      Apply(s, WritesUpTo(r, k + 1)) == if p == [] then before else before[p[0].key := p[0].item]
    ensures |WritesUpTo(r, k + 1)| == |WritesUpTo(r, k)| + |FieldWrite(r, k)|
  {
    var ws, p := WritesUpTo(r, k), FieldWrite(r, k);
    assert WritesUpTo(r, k + 1) == ws + p;
    if p == [] {
      assert ws + p == ws;
    } else {
      assert (ws + p)[..|ws|] == ws;
    }
  }

  /** The item the write for field `k` leaves behind, if that field is set. */
  function FieldItems(r: LoginResponse, k: nat): Storage
    requires k < 4
  {
    var p := FieldWrite(r, k);
    if p == [] then map[] else map[p[0].key := p[0].item]
  }

  /** The items the writes for the first `k` fields leave behind. */
  function WrittenUpTo(r: LoginResponse, k: nat): Storage
    requires k <= 4
  {
    if k == 0 then map[] else WrittenUpTo(r, k - 1) + FieldItems(r, k - 1)
  }

  /** Writing an item over an overlay is overlaying it last. */
  lemma OverlayOne(s: Storage, a: Storage, w: Write)
    ensures s + (a + map[w.key := w.item]) == (s + a)[w.key := w.item]
  {
  }

  /** Overlaying no items changes nothing. */
  lemma OverlayNothing(s: Storage, a: Storage)
    ensures s + (a + map[]) == s + a
  {
    assert a + map[] == a;
  }

  /** Making the writes for the first `k` fields overlays their items. */
  lemma {:induction false} ApplyUpTo(s: Storage, r: LoginResponse, k: nat)
    requires k <= 4
    ensures Apply(s, WritesUpTo(r, k)) == s + WrittenUpTo(r, k)
  {
    if k > 0 {
      ApplyUpTo(s, r, k - 1);
      ApplyField(s, r, k - 1);
      var a, p := WrittenUpTo(r, k - 1), FieldWrite(r, k - 1);
      assert WrittenUpTo(r, k) == a + FieldItems(r, k - 1);
      if p == [] {
        assert FieldItems(r, k - 1) == map[];
        OverlayNothing(s, a);
      } else {
        assert FieldItems(r, k - 1) == map[p[0].key := p[0].item];
        OverlayOne(s, a, p[0]);
      }
    }
  }

  /** Field by field, the items are those of `Written`. */
  lemma WrittenByField(r: LoginResponse)
    ensures WrittenUpTo(r, 4) == Written(r)
  {
    assert FieldItems(r, 0) == if Truthy(r.token) then map[TokenKey := Text(r.token.value)] else map[];
    assert FieldItems(r, 1) == if Truthy(r.refreshToken) then map[RefreshTokenKey := Text(r.refreshToken.value)] else map[];
    assert FieldItems(r, 2) == if r.user.Some? then map[UserKey := UserJson(r.user.value)] else map[];
    assert FieldItems(r, 3) == if r.tenant.Some? then map[TenantKey := TenantJson(r.tenant.value)] else map[];
    assert WrittenUpTo(r, 1) == FieldItems(r, 0);
    assert WrittenUpTo(r, 2) == FieldItems(r, 0) + FieldItems(r, 1);
    assert WrittenUpTo(r, 3) == FieldItems(r, 0) + FieldItems(r, 1) + FieldItems(r, 2);
    assert WrittenUpTo(r, 4) == FieldItems(r, 0) + FieldItems(r, 1) + FieldItems(r, 2) + FieldItems(r, 3);
  }

  /** The writes of `setAuth` are one per field, so their order does not
      matter: the store ends up overlaid with the written items, and every
      other key is as it was. */
  lemma SetAuthOverlays(s: Storage, r: LoginResponse)
    ensures Apply(s, Writes(r)) == s + Written(r)
  {
    ApplyUpTo(s, r, 4);
    WrittenByField(r);
  }

  /** Two partial `setAuth` calls accumulate: a field the second leaves out
      keeps the value the first wrote. */
  lemma SetAuthComposes(s: Storage, r1: LoginResponse, r2: LoginResponse)
    ensures Apply(Apply(s, Writes(r1)), Writes(r2)) == s + Written(r1) + Written(r2)
  {
    SetAuthOverlays(s, r1);
    SetAuthOverlays(s + Written(r1), r2);
  }

  /** Any run of writes this code makes keeps each slot's kind. */
  lemma {:induction false} WritesWellKept(s: Storage, ws: seq<Write>)
    requires WellKept(s) && forall i :: 0 <= i < |ws| ==> Fits(ws[i])
    ensures WellKept(Apply(s, ws))
  {
    if ws != [] {
      WritesWellKept(s, ws[..|ws| - 1]);
    }
  }

  /** The store after `clearAuth()` in a browser. */
  function AfterClear(s: Storage): (c: Storage)
    ensures forall k :: k in c <==> k in s && k !in Keys
    ensures forall k :: k in c ==> c[k] == s[k]
  {
    s - {TokenKey} - {RefreshTokenKey} - {UserKey} - {TenantKey}
  }

  /** Clearing twice is clearing once, and afterwards every getter answers `null`. */
  lemma ClearIdempotent(s: Storage)
    requires WellKept(s)
    ensures AfterClear(AfterClear(s)) == AfterClear(s)
    ensures WellKept(AfterClear(s))
    ensures forall hasWindow: bool :: StoredToken(hasWindow, AfterClear(s)) == None
    ensures forall hasWindow: bool :: StoredUser(hasWindow, AfterClear(s)) == Absent
    ensures forall hasWindow: bool :: StoredTenant(hasWindow, AfterClear(s)) == Absent
  {
  }

  /** After a login that stores a token, the token getter returns it. */
  lemma SetAuthThenToken(s: Storage, r: LoginResponse)
    requires WellKept(s) && Truthy(r.token)
    ensures WellKept(Apply(s, Writes(r))) && StoredToken(true, Apply(s, Writes(r))) == r.token
  {
    SetAuthOverlays(s, r);
    WritesFit(r, 4);
    WritesWellKept(s, Writes(r));
  }

  // ---------------------------------------------------------------------------

  /** The message a browser gives the `ReferenceError` thrown when
      `localStorage` is used where there is no window. */
  const LocalStorageUndefined := "localStorage is not defined"

  /** How much the browser's storage still takes during one operation:
      without limit, or `after` more `setItem` calls, after which `setItem`
      throws a `QuotaExceededError` carrying `message`. Reading and removing
      items never throw. */
  datatype Quota = Unlimited | Exhausted(after: nat, message: string)

  /** Whether a `setItem` call succeeds once `made` others have. */
  predicate Takes(hasWindow: bool, quota: Quota, made: nat)
  {
    hasWindow && (quota.Unlimited? || made < quota.after)
  }

  /** What a refused `setItem` throws: a `ReferenceError` without a window,
      otherwise the quota error. */
  function Refusal(hasWindow: bool, quota: Quota): (m: string)
    requires !hasWindow || quota.Exhausted?
    ensures !hasWindow ==> m == LocalStorageUndefined
  {
    if hasWindow then quota.message else LocalStorageUndefined
  }

  /** How many of `count` successive writes take effect before one throws. */
  function Accepted(hasWindow: bool, quota: Quota, count: nat): (n: nat)
    ensures n <= count
    ensures n < count ==> !Takes(hasWindow, quota, n)
  {
    if !hasWindow then 0
    else if quota.Exhausted? && quota.after < count then quota.after
    else count
  }

  /** When the write for field `k` is the first one refused, exactly the
      writes for the fields before it take effect. */
  lemma Refused(r: LoginResponse, k: nat, hasWindow: bool, quota: Quota, made: nat)
    requires k < 4 && FieldWrite(r, k) != [] && made == |WritesUpTo(r, k)|
    requires made == 0 || Takes(hasWindow, quota, made - 1)
    requires !Takes(hasWindow, quota, made)
    ensures var n := Accepted(hasWindow, quota, |Writes(r)|);
      n == made < |Writes(r)| && Writes(r)[..n] == WritesUpTo(r, k)
  {
    assert |WritesUpTo(r, k + 1)| == made + 1;
    UpToPrefix(r, k + 1, 4);
    UpToPrefix(r, k, 4);
  }

  /** When no write is refused, all of them take effect. */
  lemma AllTaken(r: LoginResponse, hasWindow: bool, quota: Quota, made: nat)
    requires made == |Writes(r)|
    requires made == 0 || Takes(hasWindow, quota, made - 1)
    ensures var n := Accepted(hasWindow, quota, |Writes(r)|);
      n == |Writes(r)| && Writes(r)[..n] == Writes(r)
  {
    assert Writes(r)[..|Writes(r)|] == Writes(r);
  }

  /** `{ success, error?, mustChangePassword?, data? }` of `AuthService.login`. */
  datatype LoginResult = LoginResult(success: bool, error: Option<string>, mustChangePassword: Option<bool>, data: Option<LoginResponse>)

  /** `{ success, error?, message? }` of `AuthService.register`. */
  datatype RegisterResult = RegisterResult(success: bool, error: Option<string>, message: Option<string>)

  /** `AuthService.register` given what `ApiService.register` returned; it
      never touches the store. */
  function Register(response: RegistrationResponse): (r: RegisterResult)
    ensures r.success <==> !Truthy(response.error)
    ensures r.success ==> r.error == None && r.message == response.message
    ensures !r.success ==> r.error == response.error && r.message == None
  {
    if Truthy(response.error) then RegisterResult(false, response.error, None)
    else RegisterResult(true, None, response.message)
  }

  /** The store behind the static `AuthService` class. */
  class AuthService {
    /** `typeof window !== 'undefined'`. */
    const hasWindow: bool
    var storage: Storage

    ghost predicate Valid()
      reads this
    {
      WellKept(storage)
    }

    constructor(hasWindow: bool, storage: Storage)
      requires WellKept(storage)
      ensures this.hasWindow == hasWindow && this.storage == storage && Valid()
    {
      this.hasWindow := hasWindow;
      this.storage := storage;
    }

    /** `localStorage.setItem(w.key, w.item)`, once `made` other writes of
        the same operation have succeeded. */
    method SetItem(w: Write, made: nat, quota: Quota) returns (threw: Option<string>)
      requires Valid() && Fits(w)
      modifies this
      ensures Valid()
      ensures threw.None? <==> Takes(hasWindow, quota, made)
      ensures threw.None? ==> storage == old(storage)[w.key := w.item]
      ensures threw.Some? ==> storage == old(storage) && threw == Some(Refusal(hasWindow, quota))
    {
      if !Takes(hasWindow, quota, made) {
        return Some(Refusal(hasWindow, quota));
      }
      storage := storage[w.key := w.item];
      threw := None;
    }

    /** The `if (field) localStorage.setItem(…)` of `setAuth(r)` for field
        number `k`, once the writes for the fields before it are made. A
        refused write throws, and then the store holds exactly the writes
        the browser accepted. */
    method SetField(r: LoginResponse, k: nat, made: nat, quota: Quota, ghost s0: Storage) returns (threw: Option<string>, next: nat)
      requires Valid() && k < 4
      requires storage == Apply(s0, WritesUpTo(r, k)) && made == |WritesUpTo(r, k)|
      requires made == 0 || Takes(hasWindow, quota, made - 1)
      modifies this
      ensures Valid()
      ensures threw.None? ==>
        && storage == Apply(s0, WritesUpTo(r, k + 1)) && next == |WritesUpTo(r, k + 1)|
        && (next == 0 || Takes(hasWindow, quota, next - 1))
      ensures threw.Some? ==>
        var n := Accepted(hasWindow, quota, |Writes(r)|);
        && n < |Writes(r)| && storage == Apply(s0, Writes(r)[..n])
        && threw == Some(Refusal(hasWindow, quota))
    {
      ApplyField(s0, r, k);
      var field := FieldWrite(r, k);
      next := made;
      threw := None;
      if field != [] {
        threw := SetItem(field[0], made, quota);
        if threw.Some? {
          Refused(r, k, hasWindow, quota, made);
          return;
        }
        next := made + 1;
      }
    }

    /** `setAuth(r)`: writes each truthy field in turn. The first write the
        browser refuses throws and ends it, leaving the writes before it in
        place. */
    method SetAuth(r: LoginResponse, quota: Quota) returns (threw: Option<string>)
      requires Valid()
      modifies this
      ensures Valid()
      ensures var n := Accepted(hasWindow, quota, |Writes(r)|);
        && storage == Apply(old(storage), Writes(r)[..n])
        && (threw.None? <==> n == |Writes(r)|)
        && (threw.Some? ==> threw == Some(Refusal(hasWindow, quota)))
    {
      ghost var s0 := storage;
      var made := 0;
      // token, refresh token, user, tenant
      threw, made := SetField(r, 0, made, quota, s0);
      if threw.Some? { return; }
      threw, made := SetField(r, 1, made, quota, s0);
      if threw.Some? { return; }
      threw, made := SetField(r, 2, made, quota, s0);
      if threw.Some? { return; }
      threw, made := SetField(r, 3, made, quota, s0);
      if threw.Some? { return; }
      threw := None;
      AllTaken(r, hasWindow, quota, made);
    }

    /** `clearAuth()`: removes the four keys; without a window it throws. */
    method ClearAuth() returns (threw: bool)
      requires Valid()
      modifies this
      ensures Valid()
      ensures threw <==> !hasWindow
      ensures storage == if hasWindow then AfterClear(old(storage)) else old(storage)
    {
      if !hasWindow { return true; }
      ClearIdempotent(storage);
      storage := storage - {TokenKey};
      storage := storage - {RefreshTokenKey};
      storage := storage - {UserKey};
      storage := storage - {TenantKey};
      threw := false;
    }

    /** `login(credentials)` given what `ApiService.login` returned: a
        response with a truthy `error` fails and stores nothing; any other
        response is stored and reported as a success, unless a write throws,
        which is reported as a failure with the error's message and leaves
        the writes before it in place. */
    method Login(response: LoginResponse, quota: Quota) returns (result: LoginResult)
      requires Valid()
      modifies this
      ensures Valid()
      ensures Truthy(response.error) ==> result == LoginResult(false, response.error, None, None) && storage == old(storage)
      ensures !Truthy(response.error) ==>
        var n := Accepted(hasWindow, quota, |Writes(response)|);
        && storage == Apply(old(storage), Writes(response)[..n])
        && result == (if n == |Writes(response)| then LoginResult(true, None, response.mustChangePassword, Some(response))
                      else LoginResult(false, Some(Refusal(hasWindow, quota)), None, None))
      ensures result.success <==> !Truthy(response.error) && Accepted(hasWindow, quota, |Writes(response)|) == |Writes(response)|
      ensures result.success ==> storage == old(storage) + Written(response)
    {
      if Truthy(response.error) {
        return LoginResult(false, response.error, None, None);
      }
      var threw := SetAuth(response, quota);
      if threw.Some? {
        return LoginResult(false, threw, None, None);
      }
      SetAuthOverlays(old(storage), response);
      assert Writes(response)[..|Writes(response)|] == Writes(response);
      result := LoginResult(true, None, response.mustChangePassword, Some(response));
    }

    /** `verifyStoredToken()`: without a truthy stored token the answer is
        not valid and no request is made. Otherwise the token is sent; a
        valid answer refreshes the stored user and is returned, and when
        that write throws the store is cleared and the answer is not valid.
        An answer that is not valid leaves the store alone. */
    method VerifyStoredToken(answer: Verification, quota: Quota) returns (r: Verification, sent: Option<string>)
      requires Valid()
      modifies this
      ensures Valid()
      ensures !Truthy(StoredToken(hasWindow, old(storage))) ==>
        r == Verification(false, None) && sent == None && storage == old(storage)
      ensures Truthy(StoredToken(hasWindow, old(storage))) ==> sent == StoredToken(hasWindow, old(storage))
      ensures Truthy(StoredToken(hasWindow, old(storage))) && answer.valid && answer.user.Some? && Takes(hasWindow, quota, 0) ==>
        r == answer && storage == old(storage)[UserKey := UserJson(answer.user.value)]
      ensures Truthy(StoredToken(hasWindow, old(storage))) && answer.valid && answer.user.Some? && !Takes(hasWindow, quota, 0) ==>
        r == Verification(false, None) && storage == AfterClear(old(storage))
      ensures Truthy(StoredToken(hasWindow, old(storage))) && !(answer.valid && answer.user.Some?) ==>
        r == answer && storage == old(storage)
    {
      var token := StoredToken(hasWindow, storage);
      if !Truthy(token) {
        return Verification(false, None), None;
      }
      sent := token;
      if answer.valid && answer.user.Some? {
        var threw := SetItem(Write(UserKey, UserJson(answer.user.value)), 0, quota);
        if threw.Some? {
          var cleared := ClearAuth();
          return Verification(false, None), sent;
        }
      }
      r := answer;
    }
  }
}
