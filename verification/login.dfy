/** The admin login page (src/app/admin/login/page.tsx): on mount it reads
    the "auth-token" cookie and, when the token is non-empty and the server
    accepts it, moves to the dashboard; the form checks its two fields, posts
    them, and maps the answer to a cookie or an error message. */
module Login {
  import opened Common

  const RowSeparator: string := "; "
  const TokenPrefix: string := "auth-token="
  /** The attributes after the token, each written after a "; ". */
  const CookieAttributes: seq<string> := ["path=/", "max-age=3600", "Secure", "SameSite=Strict"]
  const Dashboard: string := "/admin/dashboard"
  const MissingFields: string := "Por favor, preencha todos os campos."
  const BadCredentials: string := "Email ou senha inválidos."
  const LoginFailed: string := "Erro ao efetuar login. Tente novamente mais tarde."
  const ServerError: string := "Erro no servidor. Tente novamente mais tarde."

  /** `rows.find((row) => row.startsWith(prefix))`. */
  function FindRow(rows: seq<string>, prefix: string): (r: Option<string>)
    ensures r.Some? ==> r.value in rows && StartsWith(r.value, prefix)
    ensures r.None? <==> forall i :: 0 <= i < |rows| ==> !StartsWith(rows[i], prefix)
  {
    if rows == [] then None
    else if StartsWith(rows[0], prefix) then Some(rows[0])
    else FindRow(rows[1..], prefix)
  }

  /** `document.cookie.split('; ').find(...)?.split('=')[1]`: the text between
      the first and the second "=" of the first row that starts with
      "auth-token=". The row holds an "=", so the index 1 always exists. */
  function ExtractToken(cookie: string): (r: Option<string>)
    ensures r.None? ==> forall i :: 0 <= i < |Split(cookie, RowSeparator)| ==> !StartsWith(Split(cookie, RowSeparator)[i], TokenPrefix)
    ensures r.Some? ==> exists i :: 0 <= i < |Split(cookie, RowSeparator)| && StartsWith(Split(cookie, RowSeparator)[i], TokenPrefix)
    ensures r.Some? ==> '=' !in r.value
  {
    var rows := Split(cookie, RowSeparator);
    var found := FindRow(rows, TokenPrefix);
    match found
    case None => None
    case Some(row) =>
      var parts := Split(row, "=");
      assert |parts| >= 2 by { RowHasSecondPart(row); }
      SplitPiecesFree(row, "=");
      assert row in rows && StartsWith(row, TokenPrefix);
      Some(parts[1])
  }

  lemma RowHasSecondPart(row: string)
    requires StartsWith(row, TokenPrefix)
    ensures |Split(row, "=")| >= 2
  {
    assert OccursAt(row, "=", |TokenPrefix| - 1) by {
      assert row[|TokenPrefix| - 1] == TokenPrefix[|TokenPrefix| - 1];
    }
  }

  /** The first row of the form "auth-token=<t>" yields `t`, whatever the
      other rows hold, provided no row holds a ';' and `t` holds no '='. */
  lemma ExtractFromRows(before: seq<string>, t: string, after: seq<string>)
    requires forall i :: 0 <= i < |before| ==> ';' !in before[i] && !StartsWith(before[i], TokenPrefix)
    requires forall i :: 0 <= i < |after| ==> ';' !in after[i]
    requires ';' !in t && '=' !in t
    ensures ExtractToken(Join(before + [TokenPrefix + t] + after, RowSeparator)) == Some(t)
  {
    var row := TokenPrefix + t;
    var rows := before + [row] + after;
    RowsFreeOfSeparator(before, t, after);
    SplitJoin(rows, RowSeparator);
    assert StartsWith(row, TokenPrefix) by { assert row[..|TokenPrefix|] == TokenPrefix; }
    FindFirst(before, row, after);
    TokenRow(t);
    assert Split(row, "=")[1] == t;
  }

  lemma RowsFreeOfSeparator(before: seq<string>, t: string, after: seq<string>)
    requires forall i :: 0 <= i < |before| ==> ';' !in before[i]
    requires forall i :: 0 <= i < |after| ==> ';' !in after[i]
    requires ';' !in t
    ensures forall k :: 0 <= k < |before + [TokenPrefix + t] + after| ==>
      RowSeparator[0] !in (before + [TokenPrefix + t] + after)[k]
  {
    var rows := before + [TokenPrefix + t] + after;
    assert ';' !in TokenPrefix;
    forall k | 0 <= k < |rows| ensures RowSeparator[0] !in rows[k] {
      if k < |before| { assert rows[k] == before[k]; }
      else if k > |before| { assert rows[k] == after[k - |before| - 1]; }
    }
  }

  lemma {:induction false} FindFirst(before: seq<string>, row: string, after: seq<string>)
    requires forall i :: 0 <= i < |before| ==> !StartsWith(before[i], TokenPrefix)
    requires StartsWith(row, TokenPrefix)
    ensures FindRow(before + [row] + after, TokenPrefix) == Some(row)
    decreases |before|
  {
    if before != [] {
      FindFirst(before[1..], row, after);
      assert (before + [row] + after)[1..] == before[1..] + [row] + after;
    }
  }

  lemma TokenRow(t: string)
    requires '=' !in t
    ensures Split(TokenPrefix + t, "=") == ["auth-token", t]
  {
    var row := TokenPrefix + t;
    assert OccursAt(row, "=", 10);
    forall j | 0 <= j < 10 ensures row[j] != "="[0] {
      assert row[j] == TokenPrefix[j];
    }
    FirstOccurrence(row, "=", 10);
    assert row[..10] == "auth-token";
    assert row[11..] == t;
    NoOccurrenceWithout(t, "=");
  }

  /** The assignment made after a successful login:
      "auth-token=<token>; path=/; max-age=3600; Secure; SameSite=Strict".
      Its first ';'-separated piece is the token's row. */
  function CookieString(token: string): (r: string)
    ensures StartsWith(r, TokenPrefix + token)
    ensures ';' !in token ==> Split(r, ";")[0] == TokenPrefix + token
  {
    CookieStringPair(token);
    Join([TokenPrefix + token] + CookieAttributes, RowSeparator)
  }

  lemma CookieStringPair(token: string)
    ensures var r := Join([TokenPrefix + token] + CookieAttributes, RowSeparator);
      && StartsWith(r, TokenPrefix + token)
      && (';' !in token ==> Split(r, ";")[0] == TokenPrefix + token)
  {
    var row := TokenPrefix + token;
    var r := Join([row] + CookieAttributes, RowSeparator);
    assert r == row + RowSeparator + Join(CookieAttributes, RowSeparator) by {
      assert ([row] + CookieAttributes)[1..] == CookieAttributes;
    }
    assert r[..|row|] == row;
    if ';' !in token {
      assert ';' !in TokenPrefix;
      assert OccursAt(r, ";", |row|) by { assert r[|row|..|row| + 1] == ";"; }
      forall j | 0 <= j < |row| ensures r[j] != ";"[0] {
        assert r[j] == row[j];
        if j >= |TokenPrefix| { assert row[j] == token[j - |TokenPrefix|]; }
        else { assert row[j] == TokenPrefix[j]; }
      }
      FirstOccurrence(r, ";", |row|);
    }
  }

  /** The browser's cookie store as `document.cookie` shows it: one
      "name=value" row per cookie, in the order the store lists them. */
  type Jar = seq<string>

  /** Reading `document.cookie`: the rows joined by "; ". */
  function ReadCookie(jar: Jar): string
  {
    Join(jar, RowSeparator)
  }

  /** Where the row of cookie `name` stands, or `|jar|` when there is none. */
  function RowIndex(jar: Jar, name: string): (k: nat)
    ensures k <= |jar|
    ensures forall i :: 0 <= i < k ==> !StartsWith(jar[i], name + "=")
    ensures k < |jar| ==> StartsWith(jar[k], name + "=")
  {
    if jar == [] then 0
    else if StartsWith(jar[0], name + "=") then 0
    else 1 + RowIndex(jar[1..], name)
  }

  /** Storing a pair for cookie `name`: its row is replaced where it stands,
      or the pair is added after the other rows. */
  function SetRow(jar: Jar, name: string, pair: string): (r: Jar)
    ensures var k := RowIndex(jar, name);
      r == jar[..k] + [pair] + (if k < |jar| then jar[k + 1..] else [])
  {
    if jar == [] then [pair]
    else if StartsWith(jar[0], name + "=") then [pair] + jar[1..]
    else [jar[0]] + SetRow(jar[1..], name, pair)
  }

  /** Assigning `document.cookie = assignment`: the text before the first ';'
      is the "name=value" pair and the name is the text before its first '=';
      the attributes after the pair steer the browser but never show up when
      the cookie is read. Every other cookie's row stays. */
  function WriteCookie(jar: Jar, assignment: string): (r: Jar)
    ensures var pair := Split(assignment, ";")[0];
      && pair in r
      && (|r| == |jar| || |r| == |jar| + 1)
      && forall i :: 0 <= i < |jar| && !StartsWith(jar[i], Split(pair, "=")[0] + "=") ==> jar[i] in r
  {
    var pair := Split(assignment, ";")[0];
    var name := Split(pair, "=")[0];
    var k := RowIndex(jar, name);
    var r := SetRow(jar, name, pair);
    assert r[k] == pair;
    forall i | 0 <= i < |jar| && !StartsWith(jar[i], name + "=") ensures jar[i] in r {
      if i < k { assert r[i] == jar[i]; }
      else { assert i > k; assert r[i] == jar[i]; }
    }
    r
  }

  /** The login's assignment puts the row "auth-token=<token>" in the place of
      the first "auth-token" row, or after all rows when there was none. */
  lemma WriteToken(jar: Jar, token: string)
    requires ';' !in token && '=' !in token
    ensures var k := RowIndex(jar, "auth-token");
      WriteCookie(jar, CookieString(token)) == jar[..k] + [TokenPrefix + token] + (if k < |jar| then jar[k + 1..] else [])
  {
    var pair := TokenPrefix + token;
    assert Split(CookieString(token), ";")[0] == pair;
    TokenRow(token);
    assert Split(pair, "=")[0] == "auth-token";
    assert WriteCookie(jar, CookieString(token)) == SetRow(jar, "auth-token", pair);
  }

  /** Reading the cookie after the login's write gives the token back, whatever
      other cookies the browser held. */
  lemma CookieRoundTrip(jar: Jar, token: string)
    requires forall i :: 0 <= i < |jar| ==> ';' !in jar[i]
    requires ';' !in token && '=' !in token
    ensures ExtractToken(ReadCookie(WriteCookie(jar, CookieString(token)))) == Some(token)
  {
    WriteToken(jar, token);
    var k := RowIndex(jar, "auth-token");
    assert "auth-token" + "=" == TokenPrefix;
    var before := jar[..k];
    var after := if k < |jar| then jar[k + 1..] else [];
    assert forall i :: 0 <= i < |after| ==> after[i] == jar[k + 1 + i];
    ExtractFromRows(before, token, after);
  }

  /** The mount effect asks the server only for a non-empty token. */
  function ValidationRequest(cookie: string): (r: Option<string>)
    ensures r.Some? ==> r.value != "" && ExtractToken(cookie) == r
    ensures r.None? ==> ExtractToken(cookie) in {None, Some("")}
  {
    match ExtractToken(cookie)
    case Some(t) => if t != "" then Some(t) else None
    case None => None
  }

  /** How the login request ended: no answer or an unreadable body, or a status
      with the body's `token` and `error` fields. */
  datatype LoginResponse = Unreachable | Answer(ok: bool, status: int, token: string, error: string)

  class LoginForm {
    var email: string
    var password: string
    var error: string
    var loading: bool
    var jar: Jar
    var route: Option<string>

    constructor (jar: Jar)
      ensures email == "" && password == "" && error == "" && !loading
      ensures this.jar == jar && route == None
    {
      email := "";
      password := "";
      error := "";
      loading := false;
      this.jar := jar;
      route := None;
    }

    /** The mount effect: a valid stored token moves to the dashboard. */
    method ValidateToken(responseOk: bool) returns (requested: Option<string>)
      modifies this
      ensures requested == ValidationRequest(ReadCookie(jar))
      ensures route == (if requested.Some? && responseOk then Some(Dashboard) else old(route))
      ensures email == old(email) && password == old(password) && error == old(error)
      ensures loading == old(loading) && jar == old(jar)
    {
      requested := ValidationRequest(ReadCookie(jar));
      if requested.Some? && responseOk {
        route := Some(Dashboard);
      }
    }

    method SetEmail(value: string)
      modifies this
      ensures email == value && error == ""
      ensures password == old(password) && loading == old(loading) && jar == old(jar) && route == old(route)
    {
      email := value;
      error := "";
    }

    method SetPassword(value: string)
      modifies this
      ensures password == value && error == ""
      ensures email == old(email) && loading == old(loading) && jar == old(jar) && route == old(route)
    {
      password := value;
      error := "";
    }

    /** `handleLogin`. Returns whether a request went out. */
    method HandleLogin(response: LoginResponse) returns (sent: bool)
      modifies this
      ensures sent <==> old(email) != "" && old(password) != ""
      ensures !sent ==> error == MissingFields && jar == old(jar) && route == old(route) && loading == old(loading)
      ensures sent ==> !loading
      ensures sent && response.Answer? && response.ok ==>
        error == "" && jar == WriteCookie(old(jar), CookieString(response.token)) && route == Some(Dashboard)
      ensures sent && response.Answer? && !response.ok ==>
        && error == (if response.status == 401 then BadCredentials
                     else if response.error != "" then response.error else LoginFailed)
        && jar == old(jar) && route == old(route)
      ensures sent && response.Unreachable? ==> error == ServerError && jar == old(jar) && route == old(route)
      ensures email == old(email) && password == old(password)
    {
      if email == "" || password == "" {
        error := MissingFields;
        return false;
      }
      sent := true;
      loading := true;
      error := "";
      match response {
        case Unreachable =>
          error := ServerError;
        case Answer(ok, status, token, message) =>
          if ok {
            jar := WriteCookie(jar, CookieString(token));
            route := Some(Dashboard);
          } else if status == 401 {
            error := BadCredentials;
          } else {
            error := if message != "" then message else LoginFailed;
          }
      }
      loading := false;
    }
  }

  /** A login that succeeds with a well-formed token leaves a cookie the next
      visit reads the same token from, and that visit asks the server about it. */
  lemma LoginThenRevisit(jar: Jar, token: string)
    requires forall i :: 0 <= i < |jar| ==> ';' !in jar[i]
    requires token != "" && ';' !in token && '=' !in token
    ensures ValidationRequest(ReadCookie(WriteCookie(jar, CookieString(token)))) == Some(token)
  {
    CookieRoundTrip(jar, token);
  }
}
