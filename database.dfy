/**
 * Database configuration (backend/database.py): the normalisation of
 * DATABASE_URL, the module-level `engine` and `SessionLocal` globals, and
 * `get_db`, which refuses to hand out a session when no database is configured.
 */
module Database {
  import opened Wrappers

  const PostgresScheme: string := "postgres://"
  const PostgresqlScheme: string := "postgresql://"
  const SslModeKey: string := "sslmode"
  const SslModeRequire: string := "?sslmode=require"
  const NotConfiguredMessage: string := "Database is not configured. Please set DATABASE_URL."

  /** Python's `s.startswith(prefix)`. */
  predicate StartsWith(s: string, prefix: string)
    ensures StartsWith(s, prefix) <==> |prefix| <= |s| && forall k :: 0 <= k < |prefix| ==> s[k] == prefix[k]
  {
    |prefix| <= |s| && s[..|prefix|] == prefix
  }

  /** `pat` occurs in `s` starting at index `i`. */
  predicate OccursAt(s: string, pat: string, i: nat) {
    i + |pat| <= |s| && s[i..i + |pat|] == pat
  }

  /** Python's `s.find(pat, from)`: the first index at or after `from` where `pat` occurs. */
  function FindFrom(s: string, pat: string, from: nat): (r: Option<nat>)
    ensures r.Some? ==> from <= r.value && OccursAt(s, pat, r.value)
    ensures r.Some? ==> forall j :: from <= j < r.value ==> !OccursAt(s, pat, j)
    ensures r.None? ==> forall j :: from <= j ==> !OccursAt(s, pat, j)
    decreases |s| - from
  {
    if from + |pat| > |s| then None
    else if s[from..from + |pat|] == pat then Some(from)
    else FindFrom(s, pat, from + 1)
  }

  /** Python's `pat in s` on strings. */
  predicate Contains(s: string, pat: string)
    ensures Contains(s, pat) <==> exists i: nat :: OccursAt(s, pat, i)
  {
    FindFrom(s, pat, 0).Some?
  }

  /** Python's `s.replace(pat, repl, 1)`: only the first occurrence is replaced. */
  function ReplaceFirst(s: string, pat: string, repl: string): (r: string)
    ensures !Contains(s, pat) ==> r == s
    ensures Contains(s, pat) ==> |r| == |s| - |pat| + |repl|
    ensures Contains(s, pat) ==>
      exists i: nat :: && OccursAt(s, pat, i)
                       && (forall j :: 0 <= j < i ==> !OccursAt(s, pat, j))
                       && r == s[..i] + repl + s[i + |pat|..]
  {
    match FindFrom(s, pat, 0)
    case None => s
    case Some(i) =>
      var r := s[..i] + repl + s[i + |pat|..];
      assert |r| == |s| - |pat| + |repl|;
      assert OccursAt(s, pat, i) && forall j :: 0 <= j < i ==> !OccursAt(s, pat, j);
      r
  }

  /** A substring occurrence anywhere makes `in` true. */
  lemma OccurrenceIsContained(s: string, pat: string, i: nat)
    requires OccursAt(s, pat, i)
    ensures Contains(s, pat)
  {
  }

  /** When `s` starts with `pat`, the first occurrence is the prefix, so replace(pat, repl, 1) swaps the scheme only. */
  lemma ReplaceFirstOfPrefix(s: string, pat: string, repl: string)
    requires StartsWith(s, pat)
    ensures ReplaceFirst(s, pat, repl) == repl + s[|pat|..]
  {
    assert OccursAt(s, pat, 0);
  }

  /** The scheme rewrite of database.py:16-17. */
  function RewriteScheme(url: string): (r: string)
    ensures StartsWith(url, PostgresScheme) ==> r == PostgresqlScheme + url[|PostgresScheme|..]
    ensures !StartsWith(url, PostgresScheme) ==> r == url
  {
    if StartsWith(url, PostgresScheme) then
      ReplaceFirstOfPrefix(url, PostgresScheme, PostgresqlScheme);
      ReplaceFirst(url, PostgresScheme, PostgresqlScheme)
    else url
  }

  /** DATABASE_URL as database.py:15-20 leaves it when the variable is set and non-empty. */
  function NormalizeUrl(url: string): (r: string)
    ensures Contains(r, SslModeKey)
    ensures !StartsWith(r, PostgresScheme)
    ensures r == RewriteScheme(url) || r == RewriteScheme(url) + SslModeRequire
    ensures r == RewriteScheme(url) <==> Contains(RewriteScheme(url), SslModeKey)
  {
    var rewritten := RewriteScheme(url);
    if !Contains(rewritten, SslModeKey) then
      var r := rewritten + SslModeRequire;
      assert OccursAt(r, SslModeKey, |rewritten| + 1);
      OccurrenceIsContained(r, SslModeKey, |rewritten| + 1);
      RewrittenHasNoPostgresScheme(url);
      AppendingQueryKeepsScheme(rewritten);
      r
    else
      RewrittenHasNoPostgresScheme(url);
      rewritten
  }

  /** After the rewrite the URL no longer starts with the short `postgres://` scheme. */
  lemma RewrittenHasNoPostgresScheme(url: string)
    ensures !StartsWith(RewriteScheme(url), PostgresScheme)
  {
    var r := RewriteScheme(url);
    if StartsWith(url, PostgresScheme) {
      assert r[8] == 'q' && PostgresScheme[8] == ':';
    }
  }

  /** Appending `?sslmode=require` cannot create a `postgres://` prefix: that scheme contains no `?`. */
  lemma AppendingQueryKeepsScheme(s: string)
    requires !StartsWith(s, PostgresScheme)
    ensures !StartsWith(s + SslModeRequire, PostgresScheme)
  {
    var r := s + SslModeRequire;
    if |s| >= |PostgresScheme| {
      assert r[..|PostgresScheme|] == s[..|PostgresScheme|];
    } else {
      assert r[|s|] == '?';
      assert forall i :: 0 <= i < |PostgresScheme| ==> PostgresScheme[i] != '?';
    }
  }

  /**
   * Neither scheme contains two adjacent `s` or ends in `s`, so an
   * occurrence of "sslmode" in a URL starting with either scheme lies
   * wholly after it.
   */
  lemma SslModeAfterScheme(s: string, scheme: string, i: nat)
    requires scheme == PostgresScheme || scheme == PostgresqlScheme
    requires StartsWith(s, scheme) && OccursAt(s, SslModeKey, i)
    ensures i >= |scheme|
  {
    var n := |scheme|;
    assert s[..n] == scheme;
    assert forall k :: 0 <= k < n ==> s[k] == scheme[k];
    assert scheme[n - 1] == '/';
    assert forall k :: 0 <= k < n - 1 ==> !(scheme[k] == 's' && scheme[k + 1] == 's');
    assert s[i] == 's' && s[i + 1] == 's';
  }

  /** An occurrence lying after a prefix survives swapping that prefix for another. */
  lemma SwapPrefixKeepsOccurrence(a: string, b: string, rest: string, i: nat)
    requires OccursAt(a + rest, SslModeKey, i) && i >= |a|
    ensures OccursAt(b + rest, SslModeKey, i - |a| + |b|)
  {
    assert (a + rest)[i..i + |SslModeKey|] == rest[i - |a|..i - |a| + |SslModeKey|];
    assert (b + rest)[i - |a| + |b|..i - |a| + |b| + |SslModeKey|] == rest[i - |a|..i - |a| + |SslModeKey|];
  }

  /** The scheme rewrite neither creates nor destroys an occurrence of "sslmode". */
  lemma RewriteKeepsSslMode(url: string)
    ensures Contains(RewriteScheme(url), SslModeKey) <==> Contains(url, SslModeKey)
  {
    if StartsWith(url, PostgresScheme) {
      var rest := url[|PostgresScheme|..];
      var rewritten := PostgresqlScheme + rest;
      assert url == PostgresScheme + rest;
      assert RewriteScheme(url) == rewritten;
      if Contains(url, SslModeKey) {
        var i := FindFrom(url, SslModeKey, 0).value;
        SslModeAfterScheme(url, PostgresScheme, i);
        SwapPrefixKeepsOccurrence(PostgresScheme, PostgresqlScheme, rest, i);
        OccurrenceIsContained(rewritten, SslModeKey, i + 2);
      }
      if Contains(rewritten, SslModeKey) {
        var j := FindFrom(rewritten, SslModeKey, 0).value;
        assert rewritten[..|PostgresqlScheme|] == PostgresqlScheme;
        SslModeAfterScheme(rewritten, PostgresqlScheme, j);
        SwapPrefixKeepsOccurrence(PostgresqlScheme, PostgresScheme, rest, j);
        OccurrenceIsContained(url, SslModeKey, j - 2);
      }
    }
  }

  /** `?sslmode=require` is appended exactly when "sslmode" occurs nowhere in the URL as given. */
  lemma NormalizeUrlAppendsIffAbsent(url: string)
    ensures NormalizeUrl(url) == RewriteScheme(url) + SslModeRequire <==> !Contains(url, SslModeKey)
    ensures NormalizeUrl(url) == RewriteScheme(url) <==> Contains(url, SslModeKey)
  {
    RewriteKeepsSslMode(url);
  }

  /** Normalising an already normalised URL changes nothing. */
  lemma NormalizeUrlIdempotent(url: string)
    ensures NormalizeUrl(NormalizeUrl(url)) == NormalizeUrl(url)
  {
  }

  /** Apart from the scheme and the optional query suffix the URL's characters are kept, in order. */
  lemma NormalizeUrlKeepsBody(url: string)
    ensures StartsWith(url, PostgresScheme) ==>
      var r := NormalizeUrl(url);
      StartsWith(r, PostgresqlScheme) && r[|PostgresqlScheme|..|PostgresqlScheme| + |url| - |PostgresScheme|] == url[|PostgresScheme|..]
    ensures !StartsWith(url, PostgresScheme) ==> NormalizeUrl(url)[..|url|] == url
    ensures |NormalizeUrl(url)| == |RewriteScheme(url)| || |NormalizeUrl(url)| == |RewriteScheme(url)| + |SslModeRequire|
  {
    var rewritten := RewriteScheme(url);
    var r := NormalizeUrl(url);
    assert r[..|rewritten|] == rewritten;
    if StartsWith(url, PostgresScheme) {
      var rest := url[|PostgresScheme|..];
      assert rewritten == PostgresqlScheme + rest;
      assert r[..|PostgresqlScheme|] == rewritten[..|PostgresqlScheme|] == PostgresqlScheme;
      assert r[|PostgresqlScheme|..|PostgresqlScheme| + |rest|] == rewritten[|PostgresqlScheme|..] == rest;
    } else {
      assert rewritten == url;
    }
  }

  /** The result of `create_engine(DATABASE_URL, ...)`. */
  datatype Engine = Engine(url: string)

  /** The result of `sessionmaker(bind=engine)`. */
  datatype SessionFactory = SessionFactory(bind: Engine)

  /** A session yielded by `get_db`. */
  datatype Session = Session(bind: Engine)

  /** The module-level state of database.py after it has been imported. */
  class Config {
    var databaseUrl: Option<string>
    var engine: Option<Engine>
    var sessionLocal: Option<SessionFactory>

    /**
     * Module initialisation from the environment variable `env`; `engineCreated`
     * is whether the foreign `create_engine` call succeeded.
     */
    constructor (env: Option<string>, engineCreated: bool)
      ensures env == None || env == Some("") ==>
        databaseUrl == env && engine == None && sessionLocal == None
      ensures env != None && env != Some("") ==>
        && databaseUrl == Some(NormalizeUrl(env.value))
        && engine == (if engineCreated then Some(Engine(NormalizeUrl(env.value))) else None)
        && sessionLocal == (if engineCreated then Some(SessionFactory(Engine(NormalizeUrl(env.value)))) else None)
    {
      databaseUrl := env;
      engine := None;
      sessionLocal := None;
      if env.Some? && env.value != "" {
        var url := env.value;
        if StartsWith(url, PostgresScheme) {
          url := ReplaceFirst(url, PostgresScheme, PostgresqlScheme);
        }
        if !Contains(url, SslModeKey) {
          url := url + SslModeRequire;
        }
        databaseUrl := Some(url);
        if engineCreated {
          engine := Some(Engine(url));
          sessionLocal := Some(SessionFactory(Engine(url)));
        }
      }
    }

    /** `get_db`: a session bound to the engine, or the "not configured" error. */
    method GetDb() returns (r: Result<Session, string>)
      ensures r.Failure? <==> sessionLocal == None
      ensures r.Failure? ==> r.error == NotConfiguredMessage
      ensures r.Success? ==> r.value.bind == sessionLocal.value.bind
    {
      if sessionLocal == None {
        return Failure(NotConfiguredMessage);
      }
      r := Success(Session(sessionLocal.value.bind));
    }
  }

  /** Without DATABASE_URL (unset or empty) nothing is configured and `get_db` raises instead of yielding. */
  method UnconfiguredGetDb(env: Option<string>, engineCreated: bool) returns (r: Result<Session, string>)
    requires env == None || env == Some("")
    ensures r == Failure(NotConfiguredMessage)
  {
    var config := new Config(env, engineCreated);
    r := config.GetDb();
  }
}
