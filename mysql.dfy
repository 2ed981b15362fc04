/** MySQL DSNs of the form `user:pass@tcp(host:port)/dbname?params`: the
    parser that splits one into its fields and the builder that writes one
    back, optionally with another database name. */
module MySql {
  import opened Wrappers
  import opened Text

  datatype MySQLDSNInfo = MySQLDSNInfo(
    user: string,
    password: string,
    host: string,
    port: string,
    dbName: string,
    params: string)

  /** The four ways parsing can fail, in the order they are checked. */
  datatype DSNError =
    | UnsupportedFormat(dsn: string)   // no "@tcp(" anywhere
    | MissingClosingParen              // no ")" after the marker
    | MissingDatabaseSegment           // the text after ")" does not start with "/"
    | MissingDatabaseName              // nothing between "/" and the first "?"

  const Marker: string := "@tcp("
  const DefaultPort: string := "3306"

  /** Credentials split at the first ':'; without one, all of it is the user. */
  function SplitCredentials(cred: string): (r: (string, string))
    ensures ':' !in cred ==> r == (cred, "")
    ensures ':' in cred ==> r.0 + ":" + r.1 == cred && ':' !in r.0
  {
    match IndexOfChar(cred, ':')
    case None => (cred, "")
    case Some(i) =>
      assert cred[..i] + [':'] + cred[i + 1..] == cred;
      (cred[..i], cred[i + 1..])
  }

  /** Host and port split at the last ':'; without one the port is 3306. */
  function SplitHostPort(hostPort: string): (r: (string, string))
    ensures ':' !in hostPort ==> r == (hostPort, DefaultPort)
    ensures ':' in hostPort ==> r.0 + ":" + r.1 == hostPort && ':' !in r.1
    ensures ')' !in hostPort ==> ')' !in r.0 && ')' !in r.1
  {
    match LastIndexOfChar(hostPort, ':')
    case None => (hostPort, DefaultPort)
    case Some(i) =>
      assert hostPort[..i] + [':'] + hostPort[i + 1..] == hostPort;
      (hostPort[..i], hostPort[i + 1..])
  }

  /** The text after "/" split at the first '?' into database name and
      params; without one the params are empty. */
  function SplitPath(path: string): (r: (string, string))
    ensures '?' !in path ==> r == (path, "")
    ensures '?' in path ==> r.0 + "?" + r.1 == path && '?' !in r.0
  {
    match IndexOfChar(path, '?')
    case None => (path, "")
    case Some(q) =>
      assert path[..q] + ['?'] + path[q + 1..] == path;
      (path[..q], path[q + 1..])
  }

  /** `ParseMySQLDSN`: find the marker, then cut what follows it. */
  function ParseMySQLDSN(dsn: string): (r: Result<MySQLDSNInfo, DSNError>)
    ensures r == Failure(UnsupportedFormat(dsn)) <==> !Contains(dsn, Marker)
    ensures r.Success? ==> r.value.dbName != "" && '?' !in r.value.dbName
    ensures r.Success? ==> ':' !in r.value.user && ':' !in r.value.port
    ensures r.Success? ==> ')' !in r.value.host && ')' !in r.value.port
  {
    match IndexOf(dsn, Marker)
    case None => Failure(UnsupportedFormat(dsn))
    case Some(idx) => ParseAfterMarker(dsn[..idx], dsn[idx + |Marker|..])
  }

  /** The text after the marker: host and port up to the first ')'. */
  function ParseAfterMarker(cred: string, rest: string): (r: Result<MySQLDSNInfo, DSNError>)
    ensures r.Failure? ==> !r.error.UnsupportedFormat?
    ensures ')' !in rest ==> r == Failure(MissingClosingParen)
    ensures r.Success? ==> r.value.dbName != "" && '?' !in r.value.dbName
    ensures r.Success? ==> ':' !in r.value.user && ':' !in r.value.port
    ensures r.Success? ==> ')' !in r.value.host && ')' !in r.value.port
  {
    match IndexOfChar(rest, ')')
    case None => Failure(MissingClosingParen)
    case Some(end) => ParseAfterParen(cred, rest[..end], rest[end + 1..])
  }

  /** The text after ')' must be "/" and a non-empty database name. */
  function ParseAfterParen(cred: string, hostPort: string, path: string): (r: Result<MySQLDSNInfo, DSNError>)
    ensures r.Failure? ==> !r.error.UnsupportedFormat? && !r.error.MissingClosingParen?
    ensures r == Failure(MissingDatabaseSegment) <==> path == [] || path[0] != '/'
    ensures r.Success? ==> r.value.dbName != "" && '?' !in r.value.dbName
    ensures r.Success? ==> ':' !in r.value.user && ':' !in r.value.port
    ensures r.Success? && ')' !in hostPort ==> ')' !in r.value.host && ')' !in r.value.port
  {
    if path == [] || path[0] != '/' then Failure(MissingDatabaseSegment)
    else
      var (dbName, params) := SplitPath(path[1..]);
      var (user, password) := SplitCredentials(cred);
      var (host, port) := SplitHostPort(hostPort);
      if dbName == "" then Failure(MissingDatabaseName)
      else Success(MySQLDSNInfo(user, password, host, port, dbName, params))
  }

  /** The credentials part: the password and its ':' are left out when the
      password is empty. */
  function UserPart(info: MySQLDSNInfo): (r: string)
    ensures info.password == "" ==> r == info.user
    ensures info.password != "" ==> r == info.user + ":" + info.password
  {
    if info.password == "" then info.user else info.user + ":" + info.password
  }

  /** The builder writes `dbName` in place of `info.dbName`. */
  function BuildMySQLDSN(info: MySQLDSNInfo, dbName: string): (r: string)
    ensures Contains(r, Marker)
  {
    var path := if dbName == "" then "/" else "/" + dbName;
    var path :=
      if info.params == "" then path
      else if '?' in path then path + "&" + info.params
      else path + "?" + info.params;
    var port := if info.port == "" then DefaultPort else info.port;
    var tail := info.host + ":" + port + ")" + path;
    JoinedContains(UserPart(info), Marker, tail);
    UserPart(info) + Marker + tail
  }

  /** Credentials free of the marker end where the first marker starts. */
  lemma ParseMarkerCut(cred: string, rest: string)
    requires !Contains(cred, Marker)
    ensures ParseMySQLDSN(cred + Marker + rest) == ParseAfterMarker(cred, rest)
  {
    var dsn := cred + Marker + rest;
    IndexOfAfter(cred, Marker, rest);
    assert dsn[..|cred|] == cred && dsn[|cred| + |Marker|..] == rest;
  }

  /** Host and port free of ')' end at the first ')'. */
  lemma ParseParenCut(cred: string, hostPort: string, path: string)
    requires ')' !in hostPort
    ensures ParseAfterMarker(cred, hostPort + ")" + path) == ParseAfterParen(cred, hostPort, path)
  {
    var rest := hostPort + ")" + path;
    IndexOfCharAfter(hostPort, ')', path);
    assert rest[..|hostPort|] == hostPort && rest[|hostPort| + 1..] == path;
  }

  /** A marker with no ')' after it is a missing closing parenthesis. */
  lemma ParseMissingClosingParen(cred: string, rest: string)
    requires !Contains(cred, Marker) && ')' !in rest
    ensures ParseMySQLDSN(cred + Marker + rest) == Failure(MissingClosingParen)
  {
    ParseMarkerCut(cred, rest);
  }

  /** Text after the first ')' that does not start with '/' is a missing
      database segment. */
  lemma ParseMissingDatabaseSegment(cred: string, hostPort: string, path: string)
    requires !Contains(cred, Marker) && ')' !in hostPort
    requires path == [] || path[0] != '/'
    ensures ParseMySQLDSN(cred + Marker + hostPort + ")" + path) == Failure(MissingDatabaseSegment)
  {
    assert cred + Marker + hostPort + ")" + path == cred + Marker + (hostPort + ")" + path);
    ParseMarkerCut(cred, hostPort + ")" + path);
    ParseParenCut(cred, hostPort, path);
  }

  /** Parsing a DSN whose pieces sit between the delimiters gives exactly
      the pieces the three splits produce, or the missing-name error when the
      name before the first '?' is empty. */
  lemma ParseFields(cred: string, hostPort: string, path: string)
    requires !Contains(cred, Marker) && ')' !in hostPort
    ensures ParseMySQLDSN(cred + Marker + hostPort + ")" + "/" + path) ==
      var (dbName, params) := SplitPath(path);
      var (user, password) := SplitCredentials(cred);
      var (host, port) := SplitHostPort(hostPort);
      if dbName == "" then Failure(MissingDatabaseName)
      else Success(MySQLDSNInfo(user, password, host, port, dbName, params))
  {
    assert cred + Marker + hostPort + ")" + "/" + path == cred + Marker + (hostPort + ")" + ("/" + path));
    ParseMarkerCut(cred, hostPort + ")" + ("/" + path));
    ParseParenCut(cred, hostPort, "/" + path);
    assert ("/" + path)[1..] == path;
  }

  lemma CredentialsOfUserPart(info: MySQLDSNInfo)
    requires ':' !in info.user
    requires !Contains(info.user, Marker) && !Contains(info.password, Marker)
    ensures !Contains(UserPart(info), Marker)
    ensures SplitCredentials(UserPart(info)) == (info.user, info.password)
  {
    if info.password != "" {
      var cred := UserPart(info);
      assert ':' !in Marker;
      NotContainsJoined(info.user, ':', info.password, Marker);
      IndexOfCharAfter(info.user, ':', info.password);
      assert cred[..|info.user|] == info.user && cred[|info.user| + 1..] == info.password;
    }
  }

  lemma HostPortOfJoin(host: string, port: string)
    requires ':' !in port
    ensures SplitHostPort(host + ":" + port) == (host, port)
  {
    var hostPort := host + ":" + port;
    LastIndexOfCharBefore(host, ':', port);
    assert hostPort[..|host|] == host && hostPort[|host| + 1..] == port;
  }

  lemma PathOfJoin(dbName: string, params: string)
    requires '?' !in dbName
    ensures SplitPath(dbName + "?" + params) == (dbName, params)
  {
    var path := dbName + "?" + params;
    IndexOfCharAfter(dbName, '?', params);
    assert path[..|dbName|] == dbName && path[|dbName| + 1..] == params;
  }

  /** The builder's output laid out as the parser cuts it. */
  lemma BuildLayout(info: MySQLDSNInfo, dbName: string)
    ensures var port := if info.port == "" then DefaultPort else info.port;
      var tail :=
        if info.params == "" then dbName
        else if '?' in dbName then dbName + "&" + info.params
        else dbName + "?" + info.params;
      BuildMySQLDSN(info, dbName) == UserPart(info) + Marker + (info.host + ":" + port) + ")" + "/" + tail
  {
    assert '?' in "/" + dbName <==> '?' in dbName by {
      assert forall k :: 0 <= k < |dbName| ==> ("/" + dbName)[k + 1] == dbName[k];
      assert ("/" + dbName)[0] == '/';
    }
  }

  /** Parsing what the builder wrote gives the fields back, with the port
      defaulted to 3306 and the database name replaced; an empty name is
      written as a bare "/" and so reads back as missing. */
  lemma ParseOfBuild(info: MySQLDSNInfo, dbName: string)
    requires ':' !in info.user
    requires !Contains(info.user, Marker) && !Contains(info.password, Marker)
    requires ')' !in info.host
    requires ':' !in info.port && ')' !in info.port
    requires '?' !in dbName
    ensures ParseMySQLDSN(BuildMySQLDSN(info, dbName)) ==
      if dbName == "" then Failure(MissingDatabaseName)
      else Success(info.(port := if info.port == "" then DefaultPort else info.port, dbName := dbName))
  {
    CredentialsOfUserPart(info);
    var port := if info.port == "" then DefaultPort else info.port;
    HostPortOfJoin(info.host, port);
    var path := if info.params == "" then dbName else dbName + "?" + info.params;
    if info.params != "" {
      PathOfJoin(dbName, info.params);
    }
    BuildLayout(info, dbName);
    ParseFields(UserPart(info), info.host + ":" + port, path);
  }

  /** Round trip: a DSN built from delimiter-free fields with their own
      database name parses back to the same fields. */
  lemma RoundTrip(info: MySQLDSNInfo)
    requires ':' !in info.user
    requires !Contains(info.user, Marker) && !Contains(info.password, Marker)
    requires ')' !in info.host
    requires info.port != "" && ':' !in info.port && ')' !in info.port
    requires info.dbName != "" && '?' !in info.dbName
    ensures ParseMySQLDSN(BuildMySQLDSN(info, info.dbName)) == Success(info)
  {
    ParseOfBuild(info, info.dbName);
  }

  /** Overriding with a name that already carries params: the builder joins
      the stored params with '&', and they read back after the name's own. */
  lemma ParseOfBuildMergedParams(info: MySQLDSNInfo, dbName: string)
    requires ':' !in info.user
    requires !Contains(info.user, Marker) && !Contains(info.password, Marker)
    requires ')' !in info.host
    requires ':' !in info.port && ')' !in info.port
    requires '?' in dbName && info.params != ""
    requires SplitPath(dbName).0 != ""
    ensures ParseMySQLDSN(BuildMySQLDSN(info, dbName)).Success?
    ensures ParseMySQLDSN(BuildMySQLDSN(info, dbName)).value.dbName == SplitPath(dbName).0
    ensures ParseMySQLDSN(BuildMySQLDSN(info, dbName)).value.params == SplitPath(dbName).1 + "&" + info.params
  {
    CredentialsOfUserPart(info);
    var port := if info.port == "" then DefaultPort else info.port;
    var (name, own) := SplitPath(dbName);
    assert dbName + "&" + info.params == name + "?" + (own + "&" + info.params);
    PathOfJoin(name, own + "&" + info.params);
    BuildLayout(info, dbName);
    ParseFields(UserPart(info), info.host + ":" + port, dbName + "&" + info.params);
  }
}
