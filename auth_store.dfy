/**
 * The browser-side authentication stores (frontend/src/lib/stores/auth.js):
 * four writable cells and the persisted `localStorage['token']` entry.
 */
module AuthStore {

  const TokenKey: string := "token"

  /** The JavaScript values the stores may hold. */
  datatype JsValue = Undefined | Null | JsBool(b: bool) | JsString(s: string) | JsNumber(n: int)

  /** JavaScript truthiness (NaN is not modelled). */
  predicate Truthy(v: JsValue) {
    match v
    case Undefined => false
    case Null => false
    case JsBool(b) => b
    case JsString(s) => s != ""
    case JsNumber(n) => n != 0
  }

  /** The properties of `userData` the store reads; a missing property reads as `Undefined`. */
  datatype UserData = UserData(isAdmin: JsValue, rank: JsValue, username: JsValue)

  /** The value of every store and of localStorage at one moment. */
  datatype Snapshot = Snapshot(
    token: JsValue,
    isAdmin: JsValue,
    username: JsValue,
    userRank: JsValue,
    localStorage: map<string, string>)

  /**
   * Module load (auth.js:4-16): `token` takes `localStorage.getItem('token')`
   * only in a browser and only when that item is a non-empty string.
   */
  function Initial(storage: map<string, string>, inBrowser: bool): (s: Snapshot)
    ensures s.token.JsString? <==> inBrowser && TokenKey in storage && storage[TokenKey] != ""
    ensures s.token.JsString? ==> s.token.s == storage[TokenKey]
    ensures !s.token.JsString? ==> s.token == Null
    ensures s.isAdmin == JsBool(false) && s.username == Null && s.userRank == Null
    ensures s.localStorage == storage
  {
    var stored := if inBrowser && TokenKey in storage then JsString(storage[TokenKey]) else Null;
    Snapshot(if Truthy(stored) then stored else Null, JsBool(false), Null, Null, storage)
  }

  /**
   * `setPermissionsForUser` (auth.js:22-32): `isAdmin` is written whenever
   * `is_admin` is defined (false and null included); `userRank` and
   * `username` only when the new value is truthy.
   */
  function SetPermissions(s: Snapshot, userData: UserData): (r: Snapshot)
    ensures r.token == s.token && r.localStorage == s.localStorage
    ensures userData.isAdmin != Undefined ==> r.isAdmin == userData.isAdmin
    ensures userData.isAdmin == Undefined ==> r.isAdmin == s.isAdmin
    ensures r.userRank == if Truthy(userData.rank) then userData.rank else s.userRank
    ensures r.username == if Truthy(userData.username) then userData.username else s.username
  {
    var s1 := if userData.isAdmin != Undefined then s.(isAdmin := userData.isAdmin) else s;
    var s2 := if Truthy(userData.rank) then s1.(userRank := userData.rank) else s1;
    if Truthy(userData.username) then s2.(username := userData.username) else s2
  }

  /** `clearAuth` (auth.js:35-43): every store reset, and the token removed from localStorage in a browser. */
  function Cleared(s: Snapshot, inBrowser: bool): (r: Snapshot)
    ensures r.token == Null && r.isAdmin == JsBool(false) && r.username == Null && r.userRank == Null
    ensures inBrowser ==> r.localStorage == s.localStorage - {TokenKey}
    ensures !inBrowser ==> r.localStorage == s.localStorage
    ensures inBrowser ==> TokenKey !in r.localStorage
  {
    Snapshot(Null, JsBool(false), Null, Null, if inBrowser then s.localStorage - {TokenKey} else s.localStorage)
  }

  /** Clearing twice is the same as clearing once. */
  lemma ClearIdempotent(s: Snapshot, inBrowser: bool)
    ensures Cleared(Cleared(s, inBrowser), inBrowser) == Cleared(s, inBrowser)
  {
  }

  /** After a logout in the browser, a reload starts without a token. */
  lemma LogoutSurvivesReload(s: Snapshot)
    ensures Initial(Cleared(s, true).localStorage, true).token == Null
  {
  }

  /** Whatever permissions were set, clearing forgets them all. */
  lemma ClearForgetsPermissions(s: Snapshot, userData: UserData, inBrowser: bool)
    ensures Cleared(SetPermissions(s, userData), inBrowser) == Cleared(s, inBrowser)
  {
  }

  /** The four stores and `window.localStorage`, updated in place. */
  class Stores {
    var token: JsValue
    var isAdmin: JsValue
    var username: JsValue
    var userRank: JsValue
    var localStorage: map<string, string>
    /** `typeof window !== 'undefined'`. */
    const inBrowser: bool

    ghost function Current(): Snapshot
      reads this
    {
      Snapshot(token, isAdmin, username, userRank, localStorage)
    }

    /** The stores as module load leaves them. */
    constructor (storage: map<string, string>, inBrowser: bool)
      ensures Current() == Initial(storage, inBrowser) && this.inBrowser == inBrowser
    {
      token := Null;
      isAdmin := JsBool(false);
      username := Null;
      userRank := Null;
      localStorage := storage;
      this.inBrowser := inBrowser;
      if inBrowser {
        var storedToken := if TokenKey in storage then JsString(storage[TokenKey]) else Null;
        if Truthy(storedToken) {
          token := storedToken;
        }
      }
    }

    method SetPermissionsForUser(userData: UserData)
      modifies this
      ensures Current() == SetPermissions(old(Current()), userData)
    {
      if userData.isAdmin != Undefined {
        isAdmin := userData.isAdmin;
      }
      if Truthy(userData.rank) {
        userRank := userData.rank;
      }
      if Truthy(userData.username) {
        username := userData.username;
      }
    }

    method ClearAuth()
      modifies this
      ensures Current() == Cleared(old(Current()), inBrowser)
    {
      token := Null;
      isAdmin := JsBool(false);
      username := Null;
      userRank := Null;
      if inBrowser {
        localStorage := localStorage - {TokenKey};
      }
    }
  }
}
