/**
 * The database URI the application is configured with: the `DATABASE_URL`
 * setting with the legacy `postgres://` scheme renamed for the psycopg driver
 * and SSL required, or a local SQLite file when the setting is absent or empty.
 */
module DatabaseUrl {
  import opened Wrappers

  const LegacyScheme: string := "postgres://"
  const DriverScheme: string := "postgresql+psycopg://"
  const SslParam: string := "sslmode="
  const SslRequire: string := "sslmode=require"
  const SqliteDefault: string := "sqlite:///kakeibo.db"

  predicate StartsWith(s: string, prefix: string) {
    |prefix| <= |s| && s[..|prefix|] == prefix
  }

  /** `sub` occurs in `s` starting at index `i`. */
  predicate OccursAt(s: string, sub: string, i: int) {
    0 <= i <= |s| - |sub| && s[i..i + |sub|] == sub
  }

  /** `sub in s` for strings. */
  predicate Contains(s: string, sub: string) {
    exists i :: 0 <= i <= |s| - |sub| && OccursAt(s, sub, i)
  }

  lemma ContainsTail(s: string, sub: string)
    requires s != []
    ensures Contains(s[1..], sub) ==> Contains(s, sub)
  {
    if Contains(s[1..], sub) {
      var i :| 0 <= i <= |s[1..]| - |sub| && OccursAt(s[1..], sub, i);
      assert s[1..][i..i + |sub|] == s[i + 1..i + 1 + |sub|];
      assert OccursAt(s, sub, i + 1);
    }
  }

  /** `s.replace(pattern, replacement, 1)`: the first occurrence of `pattern` replaced by `replacement`. */
  function ReplaceFirst(s: string, pattern: string, replacement: string): (r: string)
    requires pattern != []
    ensures !Contains(s, pattern) ==> r == s
    decreases |s|
  {
    if |s| < |pattern| then s
    else if s[..|pattern|] == pattern then
      assert OccursAt(s, pattern, 0);
      replacement + s[|pattern|..]
    else
      ContainsTail(s, pattern);
      [s[0]] + ReplaceFirst(s[1..], pattern, replacement)
  }

  /** The legacy scheme renamed: only a URL that starts with it changes, and only its scheme. */
  function Rescheme(url: string): (r: string)
    ensures StartsWith(url, LegacyScheme) ==> r == DriverScheme + url[|LegacyScheme|..]
    ensures !StartsWith(url, LegacyScheme) ==> r == url
    ensures !StartsWith(r, LegacyScheme)
  {
    if StartsWith(url, LegacyScheme) then
      var r := ReplaceFirst(url, LegacyScheme, DriverScheme);
      assert r[8] == 'q' != LegacyScheme[8];
      r
    else url
  }

  /** The separator before an appended query parameter: `&` when a query is already present. */
  function QuerySeparator(url: string): string {
    if '?' in url then "&" else "?"
  }

  /**
   * SSL required: a URL that mentions `sslmode=` is kept; any other gets
   * `sslmode=require` appended as a query parameter.
   */
  function RequireSsl(url: string): (r: string)
    ensures Contains(r, SslParam)
    ensures Contains(url, SslParam) ==> r == url
    ensures !Contains(url, SslParam) ==>
      && StartsWith(r, url)
      && r[|url|..] == QuerySeparator(url) + SslRequire
  {
    if Contains(url, SslParam) then url
    else
      var r := url + QuerySeparator(url) + SslRequire;
      assert r[|url| + 1..|url| + 1 + |SslParam|] == SslParam;
      assert OccursAt(r, SslParam, |url| + 1);
      assert r[..|url|] == url;
      r
  }

  /** A URL that does not start with the legacy scheme still does not after a query parameter is appended. */
  lemma AppendKeepsScheme(url: string, suffix: string)
    requires !StartsWith(url, LegacyScheme)
    requires suffix != [] && (suffix[0] == '?' || suffix[0] == '&')
    ensures !StartsWith(url + suffix, LegacyScheme)
  {
    if |url| < |LegacyScheme| {
      assert (url + suffix)[|url|] == suffix[0];
      assert forall k :: 0 <= k < |LegacyScheme| ==> LegacyScheme[k] != '?' && LegacyScheme[k] != '&';
    } else {
      assert (url + suffix)[..|LegacyScheme|] == url[..|LegacyScheme|];
    }
  }

  /**
   * The URI the application configures: the `DATABASE_URL` setting rewritten
   * step by step, or the SQLite default when it is unset or empty.
   */
  method ConfigureDatabaseUri(env: Option<string>) returns (uri: string)
    ensures env == None || env == Some("") ==> uri == SqliteDefault
    ensures env.Some? && env.value != "" ==> uri == RequireSsl(Rescheme(env.value))
  {
    var dbUrl := env;
    if dbUrl.Some? && dbUrl.value != "" {
      var url := dbUrl.value;
      if StartsWith(url, LegacyScheme) {
        url := ReplaceFirst(url, LegacyScheme, DriverScheme);
      }
      if !Contains(url, SslParam) {
        var sep := QuerySeparator(url);
        url := url + sep + SslRequire;
      }
      uri := url;
    } else {
      uri := SqliteDefault;
    }
  }

  /** Rewriting an already rewritten URL changes nothing. */
  lemma RewriteIdempotent(url: string)
    ensures RequireSsl(Rescheme(RequireSsl(Rescheme(url)))) == RequireSsl(Rescheme(url))
  {
    var once := Rescheme(url);
    if !Contains(once, SslParam) {
      AppendKeepsScheme(once, QuerySeparator(once) + SslRequire);
      assert RequireSsl(once) == once + (QuerySeparator(once) + SslRequire);
    }
  }

  /** A string in which no `=` comes seven characters after an `s` does not mention `sslmode=`. */
  lemma NoSslParam(s: string)
    requires forall k :: 7 <= k < |s| && s[k] == '=' ==> s[k - 7] != 's'
    ensures !Contains(s, SslParam)
  {
    forall i | 0 <= i <= |s| - |SslParam|
      ensures !OccursAt(s, SslParam, i)
    {
      assert s[i..i + |SslParam|][0] == s[i];
      assert s[i..i + |SslParam|][7] == s[i + 7];
    }
  }

  /** A string without `=` does not mention `sslmode=`. */
  lemma NoEquals(s: string)
    requires '=' !in s
    ensures !Contains(s, SslParam)
  {
    forall i | 0 <= i <= |s| - |SslParam|
      ensures !OccursAt(s, SslParam, i)
    {
      assert s[i..i + |SslParam|][7] == s[i + 7];
    }
  }

  /**
   * Feeding the configured URI back in as `DATABASE_URL` gives the same URI,
   * and a non-empty setting never yields the SQLite default.
   */
  lemma ConfigureIdempotent(url: string)
    requires url != ""
    ensures RequireSsl(Rescheme(url)) != ""
    ensures RequireSsl(Rescheme(RequireSsl(Rescheme(url)))) == RequireSsl(Rescheme(url))
    ensures RequireSsl(Rescheme(url)) != SqliteDefault
  {
    RewriteIdempotent(url);
    SqliteDefaultWithoutSsl();
  }

  /** The SQLite default does not mention `sslmode=`. */
  lemma SqliteDefaultWithoutSsl()
    ensures !Contains(SqliteDefault, SslParam)
  {
    assert '=' !in SqliteDefault;
    NoEquals(SqliteDefault);
  }

  /** A URL without `sslmode=` gets exactly the separator and `sslmode=require` appended. */
  lemma RequireSslAppends(url: string)
    requires !Contains(url, SslParam)
    ensures RequireSsl(url) == url + QuerySeparator(url) + SslRequire
  {
  }

  /** Example: a legacy URL gets the driver's scheme and a query requiring SSL. */
  lemma LegacyUrlExample()
    ensures RequireSsl(Rescheme("postgres://u@h/db")) == "postgresql+psycopg://u@h/db" + "?" + SslRequire
  {
    var a := "postgresql+psycopg://u@h/db";
    LegacyUrlRescheme();
    assert '=' !in a && '?' !in a;
    NoEquals(a);
    RequireSslAppends(a);
  }

  lemma LegacyUrlRescheme()
    ensures Rescheme("postgres://u@h/db") == "postgresql+psycopg://u@h/db"
  {
    assert "postgres://u@h/db"[|LegacyScheme|..] == "u@h/db";
  }

  /** Example: a URL that already carries a query gets `&sslmode=require`. */
  lemma QueryUrlExample()
    ensures RequireSsl(Rescheme("postgresql://h/db?x=1")) == "postgresql://h/db?x=1" + "&" + SslRequire
  {
    var b := "postgresql://h/db?x=1";
    assert !StartsWith(b, LegacyScheme) by { assert b[8] != LegacyScheme[8]; }
    NoSslParam(b);
    assert '?' in b by { assert b[17] == '?'; }
    RequireSslAppends(b);
  }
}
