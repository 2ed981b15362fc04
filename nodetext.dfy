/** The node service's text helpers: the download-proxy mode and prefix, the
    shell quoting of script values, the base URLs, the one-line install
    command, the parameter header of the install script, and the names of the
    four artifact files (on disk and in the bundle). */
module NodeText {
  import opened Wrappers
  import opened Numbers
  import opened Text

  const ProxyModeIPv4: string := "ipv4"
  const ProxyModeIPv6: string := "ipv6"
  /** Both modes go through the same relay. */
  const ProxyPrefixIPv4: string := "https://proxy.529851.xyz/"
  const ProxyPrefixIPv6: string := "https://proxy.529851.xyz/"

  const DefaultAPIBase: string := "http://localhost:8080"
  const DefaultNebulaBase: string := "https://github.com/slackhq/nebula/releases/download"
  const DefaultNebulaVersion: string := "1.9.3"
  /** What the script and the command say instead of a configured token: the
      shell aborts unless the variable is set. */
  const TokenPlaceholder: string := ("${NEBULA_ACCESS_TOKEN:" + "?missing" + " NEBULA_ACCESS_TOKEN}")

  // ---------------------------------------------------------------------------
  // Download proxy

  /** The stored proxy mode: "ipv4", "ipv6", or "" for anything else, read
      without surrounding blanks and without regard to case. */
  function NormalizeProxyMode(mode: string): (r: string)
    ensures r == ProxyModeIPv4 || r == ProxyModeIPv6 || r == ""
    ensures r == ProxyModeIPv4 <==> ToLower(TrimSpace(mode)) == ProxyModeIPv4
    ensures r == ProxyModeIPv6 <==> ToLower(TrimSpace(mode)) == ProxyModeIPv6
  {
    var m := ToLower(TrimSpace(mode));
    if m == ProxyModeIPv4 then ProxyModeIPv4
    else if m == ProxyModeIPv6 then ProxyModeIPv6
    else ""
  }

  lemma LowerModesFixed()
    ensures ToLower(ProxyModeIPv4) == ProxyModeIPv4
    ensures ToLower(ProxyModeIPv6) == ProxyModeIPv6
    ensures ToLower("") == ""
  {
    assert ToLower(ProxyModeIPv4) == ProxyModeIPv4;
    assert ToLower(ProxyModeIPv6) == ProxyModeIPv6;
  }

  /** A normalised mode normalises to itself. */
  lemma NormalizeProxyModeIdempotent(mode: string)
    ensures NormalizeProxyMode(NormalizeProxyMode(mode)) == NormalizeProxyMode(mode)
  {
    var r := NormalizeProxyMode(mode);
    TrimSpaceOfTrimmed(r);
    LowerModesFixed();
  }

  /** Blanks around the mode do not matter. */
  lemma NormalizeProxyModeIgnoresPadding(ws1: string, mode: string, ws2: string)
    requires AllSpace(ws1) && AllSpace(ws2)
    ensures NormalizeProxyMode(ws1 + mode + ws2) == NormalizeProxyMode(mode)
  {
    TrimSpaceIgnoresPadding(ws1, mode, ws2);
  }

  /** Case does not matter. */
  lemma NormalizeProxyModeIgnoresCase(mode: string)
    ensures NormalizeProxyMode(ToLower(mode)) == NormalizeProxyMode(mode)
  {
    TrimSpaceToLower(mode);
    ToLowerIdempotent(TrimSpace(mode));
  }

  /** The prefix configured for the service, for a node that chose no mode:
      nothing when it is blank, otherwise trimmed and ending in '/'. */
  function ConfiguredPrefix(configured: string): (r: string)
    ensures r == "" <==> TrimSpace(configured) == ""
    ensures r != "" ==> HasSuffix(r, "/")
    ensures r != "" ==> r == TrimSpace(configured) || r == TrimSpace(configured) + "/"
  {
    var pref := TrimSpace(configured);
    if pref == "" then ""
    else if HasSuffix(pref, "/") then pref
    else pref + "/"
  }

  /** Feeding the computed prefix back in as the configuration changes it no
      more. */
  lemma ConfiguredPrefixStable(configured: string)
    ensures ConfiguredPrefix(ConfiguredPrefix(configured)) == ConfiguredPrefix(configured)
  {
    var r := ConfiguredPrefix(configured);
    if r != "" {
      var t := TrimSpace(configured);
      assert r[0] == t[0];
      assert r[|r| - 1] == '/';
      TrimSpaceOfTrimmed(r);
    }
  }

  /** The prefix put in front of the release download: fixed for the two
      modes (compared as stored, not normalised again), and the configured
      one otherwise. */
  function ProxyPrefixForNode(mode: string, configured: string): (r: string)
    ensures mode == ProxyModeIPv4 ==> r == ProxyPrefixIPv4
    ensures mode == ProxyModeIPv6 ==> r == ProxyPrefixIPv6
    ensures mode != ProxyModeIPv4 && mode != ProxyModeIPv6 ==> r == ConfiguredPrefix(configured)
    ensures r == "" || HasSuffix(r, "/")
  {
    if mode == ProxyModeIPv4 then ProxyPrefixIPv4
    else if mode == ProxyModeIPv6 then ProxyPrefixIPv6
    else ConfiguredPrefix(configured)
  }

  /** A node only bypasses the configured prefix with a mode that
      normalisation can produce; any other stored text falls back to it. */
  lemma ProxyPrefixOfNormalized(mode: string, configured: string)
    ensures var m := NormalizeProxyMode(mode);
      ProxyPrefixForNode(m, configured) ==
        if m == "" then ConfiguredPrefix(configured) else ProxyPrefixIPv4
  {
  }

  // ---------------------------------------------------------------------------
  // Shell quoting

  predicate NeedsEscape(c: char) {
    c == '\\' || c == '"'
  }

  /** How many characters of `s` get a backslash. */
  function Specials(s: string): nat {
    if s == [] then 0 else (if NeedsEscape(s[0]) then 1 else 0) + Specials(s[1..])
  }

  /** `escapeForDoubleQuotes`: a backslash before every backslash and every
      double quote, each character replaced once, left to right. */
  function EscapeForDoubleQuotes(s: string): (r: string)
    ensures |r| == |s| + Specials(s)
    ensures Specials(s) == 0 ==> r == s
  {
    if s == [] then []
    else (if NeedsEscape(s[0]) then ['\\', s[0]] else [s[0]]) + EscapeForDoubleQuotes(s[1..])
  }

  /** The characters a backslash escapes inside double quotes in bash. */
  predicate ShellEscapable(c: char) {
    c == '$' || c == '`' || c == '"' || c == '\\' || c == '\n'
  }

  function Cons(c: char, r: Option<string>): Option<string> {
    match r
    case None => None
    case Some(t) => Some([c] + t)
  }

  /** How bash reads the text between the quotes of `"..."` when that text is
      to be taken literally: `None` when an unescaped '"' would end the word
      early, when an unescaped '$' or '`' starts an expansion, or when a lone
      backslash at the end would escape the closing quote. A backslash before
      one of the escapable characters is dropped (with the newline, both go);
      before any other character it stays. */
  function ShellUnquote(s: string): Option<string>
    decreases |s|
  {
    if s == [] then Some([])
    else if s[0] == '"' || s[0] == '$' || s[0] == '`' then None
    else if s[0] != '\\' then Cons(s[0], ShellUnquote(s[1..]))
    else if |s| == 1 then None
    else if s[1] == '\n' then ShellUnquote(s[2..])
    else if ShellEscapable(s[1]) then Cons(s[1], ShellUnquote(s[2..]))
    else Cons('\\', ShellUnquote(s[1..]))
  }

  /** One step: the head of `v` and the escaped rest. */
  lemma EscapeStep(v: string)
    requires v != []
    ensures ShellUnquote(EscapeForDoubleQuotes(v)) ==
      if v[0] == '$' || v[0] == '`' then None
      else Cons(v[0], ShellUnquote(EscapeForDoubleQuotes(v[1..])))
  {
    var rest := EscapeForDoubleQuotes(v[1..]);
    if NeedsEscape(v[0]) {
      var e := ['\\', v[0]] + rest;
      assert e[2..] == rest;
    } else {
      var e := [v[0]] + rest;
      assert e[1..] == rest;
    }
  }

  /** A value quoted by the escape reads back as itself exactly when it holds
      no '$' and no '`' (the two characters the escape leaves alone although
      the shell expands them). */
  lemma {:induction false} EscapeReadsBack(v: string)
    ensures ShellUnquote(EscapeForDoubleQuotes(v)) == Some(v) <==> '$' !in v && '`' !in v
    ensures ShellUnquote(EscapeForDoubleQuotes(v)).None? <==> '$' in v || '`' in v
  {
    if v != [] {
      EscapeStep(v);
      EscapeReadsBack(v[1..]);
      var t := ShellUnquote(EscapeForDoubleQuotes(v[1..]));
      assert v == [v[0]] + v[1..];
      if t.Some? && v[0] != '$' && v[0] != '`' {
        assert ([v[0]] + t.value == v) <==> t.value == v[1..];
      }
    }
  }

  /** A value without any character the shell treats specially inside double
      quotes is read back as itself even unescaped (the node name is written
      into the script that way). */
  lemma {:induction false} PlainReadsBack(v: string)
    requires forall i :: 0 <= i < |v| ==> !ShellEscapable(v[i])
    ensures ShellUnquote(v) == Some(v)
  {
    if v != [] {
      PlainReadsBack(v[1..]);
      assert v == [v[0]] + v[1..];
    }
  }

  // ---------------------------------------------------------------------------
  // Base URLs and the install command

  /** A configured base URL, or the fallback when none is configured, with
      every trailing '/' removed. */
  function BaseURL(configured: string, fallback: string): (r: string)
    ensures r <= (if configured == "" then fallback else configured)
    ensures r == "" || r[|r| - 1] != '/'
  {
    TrimRightChar(if configured == "" then fallback else configured, '/')
  }

  function ApiBase(configured: string): string {
    BaseURL(configured, DefaultAPIBase)
  }

  lemma ApiBaseDefault()
    ensures ApiBase("") == DefaultAPIBase
  {
  }

  /** A configured base made only of slashes collapses to nothing, and only
      such a base does; the install URL is then a bare path. */
  lemma BaseURLEmpty(configured: string, fallback: string)
    requires fallback != "" && fallback[|fallback| - 1] != '/'
    ensures BaseURL(configured, fallback) == "" <==>
      configured != "" && forall i :: 0 <= i < |configured| ==> configured[i] == '/'
  {
    var r := BaseURL(configured, fallback);
    if configured == "" {
      assert TrimRightChar(fallback, '/') == fallback;
    } else if r != "" {
      assert configured[|r| - 1] == r[|r| - 1];
    }
  }

  /** Trimming the result again changes nothing, unless it is empty (then the
      fallback takes over). */
  lemma BaseURLIdempotent(configured: string, fallback: string)
    requires BaseURL(configured, fallback) != ""
    ensures BaseURL(BaseURL(configured, fallback), fallback) == BaseURL(configured, fallback)
  {
  }

  function NebulaVersion(configured: string): (r: string)
    ensures configured != "" ==> r == configured
    ensures r != ""
  {
    if configured == "" then DefaultNebulaVersion else configured
  }

  function InstallScriptURL(base: string, id: nat): string {
    base + "/api/nodes/" + NatToString(id) + "/install-script"
  }

  /** The shell one-liner shown with a node: fetch its install script with a
      bearer token (the configured one, written as it is, or the placeholder)
      and pipe it into bash. */
  function InstallCommand(apiBaseURL: string, staticToken: string, id: nat): (r: string)
    ensures Contains(r, InstallScriptURL(ApiBase(apiBaseURL), id))
    ensures var token := if staticToken != "" then staticToken else TokenPlaceholder;
      Contains(r, "Authorization: Bearer " + token)
  {
    var token := if staticToken != "" then staticToken else TokenPlaceholder;
    var front := "curl -fsSL -H \"Authorization: Bearer " + token + "\" \"";
    var url := InstallScriptURL(ApiBase(apiBaseURL), id);
    JoinedContains(front, url, "\" | bash");
    BearerInCommand(token, url);
    front + url + "\" | bash"
  }

  lemma BearerInCommand(token: string, url: string)
    ensures Contains("curl -fsSL -H \"Authorization: Bearer " + token + "\" \"" + url + "\" | bash",
                     "Authorization: Bearer " + token)
  {
    var head := "curl -fsSL -H \"";
    var auth := "Authorization: Bearer " + token;
    var rest := "\" \"" + url + "\" | bash";
    assert "curl -fsSL -H \"Authorization: Bearer " == head + "Authorization: Bearer ";
    assert "curl -fsSL -H \"Authorization: Bearer " + token + "\" \"" + url + "\" | bash" == head + auth + rest;
    JoinedContains(head, auth, rest);
  }

  /** Equal texts that agree around one piece agree on that piece. */
  lemma CancelMiddle(front: string, x: string, y: string, back: string)
    requires front + x + back == front + y + back
    ensures x == y
  {
    assert |x| == |y|;
    assert x == (front + x + back)[|front|..|front| + |x|];
    assert y == (front + y + back)[|front|..|front| + |y|];
  }

  /** The command cut around the node id. */
  lemma InstallCommandAroundId(lead: string, base: string, d: string, tail: string)
    ensures lead + (base + "/api/nodes/" + d + "/install-script") + tail
         == (lead + base + "/api/nodes/") + d + ("/install-script" + tail)
  {
  }

  /** Different nodes get different commands. */
  lemma InstallCommandIdentifiesNode(apiBaseURL: string, staticToken: string, i: nat, j: nat)
    requires InstallCommand(apiBaseURL, staticToken, i) == InstallCommand(apiBaseURL, staticToken, j)
    ensures i == j
  {
    var token := if staticToken != "" then staticToken else TokenPlaceholder;
    var lead := "curl -fsSL -H \"Authorization: Bearer " + token + "\" \"";
    var tail := "\" | bash";
    var base := ApiBase(apiBaseURL);
    InstallCommandAroundId(lead, base, NatToString(i), tail);
    InstallCommandAroundId(lead, base, NatToString(j), tail);
    CancelMiddle(lead + base + "/api/nodes/", NatToString(i), NatToString(j), "/install-script" + tail);
    NatToStringInjective(i, j);
  }

  // ---------------------------------------------------------------------------
  // The install script's parameter header

  datatype ScriptParams = ScriptParams(
    apiBase: string,
    nodeID: nat,
    nodeName: string,
    version: string,
    downloadBase: string,
    proxyPrefix: string,
    token: string)

  function QuotedAssignment(name: string, value: string): string {
    name + "=\"" + value + "\"\n"
  }

  function TokenLine(token: string): string {
    if token != "" then QuotedAssignment("NEBULA_ACCESS_TOKEN", EscapeForDoubleQuotes(token))
    else QuotedAssignment("NEBULA_ACCESS_TOKEN", TokenPlaceholder)
  }

  // Each `AfterX(t)` below is the text of a `strings.Builder` holding `t`
  // once the writes of one part of the script are done: every `+` term is one
  // `WriteString`, a long line being one write split over several literals.

  /** The interpreter line, the shell options, the API base and the node. */
  function AfterIdentity(t: string, p: ScriptParams): (r: string)
    ensures t <= r
  {
    t
    + "#!/bin/bash\n"
    + "set -euo pipefail\n\n"
    + QuotedAssignment("API_BASE", "${NEBULA_MANAGER_API:-" + p.apiBase + "}")
    + ("NODE_ID=" + NatToString(p.nodeID) + "\n")
    + QuotedAssignment("NODE_NAME", p.nodeName)
  }

  /** The install directory, the temporary directory and its clean-up. */
  function AfterDirectories(t: string): (r: string)
    ensures t <= r
  {
    t
    + ("NEBULA_DIR=\"" + "${NEBULA_DIR:-/etc" + "/nebula}\"\n")
    + "TMP_DIR=$(mktemp -d)\n"
    + ("trap 'rm -rf \"$TMP_DIR" + "\"' EXIT\n\n")
  }

  /** The version, the download base and proxy prefix, and the token. */
  function AfterDownloadSettings(t: string, p: ScriptParams): (r: string)
    ensures t <= r
  {
    t
    + QuotedAssignment("NEBULA_VERSION", "${NEBULA_VERSION:-" + p.version + "}")
    + QuotedAssignment("NEBULA_DOWNLOAD_BASE", EscapeForDoubleQuotes(p.downloadBase))
    + QuotedAssignment("NEBULA_PROXY_PREFIX", EscapeForDoubleQuotes(p.proxyPrefix))
    + TokenLine(p.token)
    + ("CURL_AUTH=(-H" + " \"Authorization:" + " Bearer" + " $NEBULA_ACCESS_TOKEN" + "\")\n\n")
  }

  function AfterHeader(t: string, p: ScriptParams): (r: string)
    ensures t <= r
  {
    hide *;
    AfterDownloadSettings(AfterDirectories(AfterIdentity(t, p)), p)
  }

  /** The writes that open the install script, in order. */
  function ScriptHeader(p: ScriptParams): string {
    AfterHeader("", p)
  }

  /** The opening writes start with the interpreter line and assign the
      node's id and its name (unescaped). */
  lemma IdentityAssigns(p: ScriptParams)
    ensures "#!/bin/bash\n" <= AfterIdentity("", p)
    ensures Contains(AfterIdentity("", p), "NODE_ID=" + NatToString(p.nodeID) + "\n")
    ensures Contains(AfterIdentity("", p), QuotedAssignment("NODE_NAME", p.nodeName))
  {
    var apiLine := QuotedAssignment("API_BASE", "${NEBULA_MANAGER_API:-" + p.apiBase + "}");
    var idLine := "NODE_ID=" + NatToString(p.nodeID) + "\n";
    var nameLine := QuotedAssignment("NODE_NAME", p.nodeName);
    var opening := "" + "#!/bin/bash\n" + "set -euo pipefail\n\n" + apiLine;
    assert "#!/bin/bash\n" <= opening;
    EndsWithLast(opening, idLine);
    PrefixContains(opening + idLine, AfterIdentity("", p), idLine);
    EndsWithLast(opening + idLine, nameLine);
  }

  /** The download settings assign the download base and the proxy prefix
      (both escaped) and then the token. */
  lemma DownloadSettingsAssign(t: string, p: ScriptParams)
    ensures Contains(AfterDownloadSettings(t, p), QuotedAssignment("NEBULA_DOWNLOAD_BASE", EscapeForDoubleQuotes(p.downloadBase)))
    ensures Contains(AfterDownloadSettings(t, p), QuotedAssignment("NEBULA_PROXY_PREFIX", EscapeForDoubleQuotes(p.proxyPrefix)))
    ensures Contains(AfterDownloadSettings(t, p), TokenLine(p.token))
  {
    var versionLine := QuotedAssignment("NEBULA_VERSION", "${NEBULA_VERSION:-" + p.version + "}");
    var baseLine := QuotedAssignment("NEBULA_DOWNLOAD_BASE", EscapeForDoubleQuotes(p.downloadBase));
    var proxyLine := QuotedAssignment("NEBULA_PROXY_PREFIX", EscapeForDoubleQuotes(p.proxyPrefix));
    var settings := AfterDownloadSettings(t, p);
    EndsWithLast(t + versionLine, baseLine);
    PrefixContains(t + versionLine + baseLine, settings, baseLine);
    EndsWithLast(t + versionLine + baseLine, proxyLine);
    PrefixContains(t + versionLine + baseLine + proxyLine, settings, proxyLine);
    EndsWithLast(t + versionLine + baseLine + proxyLine, TokenLine(p.token));
    PrefixContains(t + versionLine + baseLine + proxyLine + TokenLine(p.token), settings, TokenLine(p.token));
  }

  /** The header starts with the interpreter line and assigns the node's id,
      its name (unescaped), the download base, the proxy prefix and the token
      (escaped, or the placeholder when none is configured). */
  lemma ScriptHeaderAssigns(p: ScriptParams)
    ensures "#!/bin/bash\n" <= ScriptHeader(p)
    ensures Contains(ScriptHeader(p), "NODE_ID=" + NatToString(p.nodeID) + "\n")
    ensures Contains(ScriptHeader(p), QuotedAssignment("NODE_NAME", p.nodeName))
    ensures Contains(ScriptHeader(p), QuotedAssignment("NEBULA_DOWNLOAD_BASE", EscapeForDoubleQuotes(p.downloadBase)))
    ensures Contains(ScriptHeader(p), QuotedAssignment("NEBULA_PROXY_PREFIX", EscapeForDoubleQuotes(p.proxyPrefix)))
    ensures p.token != "" ==> Contains(ScriptHeader(p), QuotedAssignment("NEBULA_ACCESS_TOKEN", EscapeForDoubleQuotes(p.token)))
    ensures p.token == "" ==> Contains(ScriptHeader(p), QuotedAssignment("NEBULA_ACCESS_TOKEN", TokenPlaceholder))
  {
    hide AfterIdentity;
    hide AfterDirectories;
    hide AfterDownloadSettings;
    var identity := AfterIdentity("", p);
    var header := ScriptHeader(p);
    IdentityAssigns(p);
    DownloadSettingsAssign(AfterDirectories(identity), p);
    assert identity <= header;
    PrefixContains(identity, header, "NODE_ID=" + NatToString(p.nodeID) + "\n");
    PrefixContains(identity, header, QuotedAssignment("NODE_NAME", p.nodeName));
  }

  // ---------------------------------------------------------------------------
  // The rest of the install script

  /** The checks that `curl`, `tar` and `systemctl` are installed. */
  function AfterPrerequisites(t: string): (r: string)
    ensures t <= r
  {
    t
    + ("if ! command -v curl >" + "/dev/null 2>&1; then\n")
    + ("  echo '需要安装 curl" + " 用于下载文件' >&2\n")
    + "  exit 1\n"
    + "fi\n"
    + ("if ! command -v tar >" + "/dev/null 2>&1; then\n")
    + ("  echo '需要安装 tar" + " 用于解压归档' >&2\n")
    + "  exit 1\n"
    + "fi\n\n"
    + ("if ! command -v" + " systemctl >/dev/null" + " 2>&1; then\n")
    + ("  echo '当前系统缺少" + " systemctl，无法自动创建" + " systemd 服务' >&2\n")
    + "  exit 1\n"
    + "fi\n\n"
  }

  /** The operating system check and the mapping of the machine architecture to a release name. */
  function AfterPlatform(t: string): (r: string)
    ensures t <= r
  {
    t
    + ("OS=$(uname -s | tr" + " 'A-Z' 'a-z')\n")
    + "ARCH=$(uname -m)\n"
    + ("if [ \"$OS\" != \"linux\"" + " ]; then\n")
    + ("  echo '当前安装脚本仅支持" + " Linux 系统' >&2\n")
    + "  exit 1\n"
    + "fi\n"
    + "case $ARCH in\n"
    + ("  x86_64|amd64)" + " ARCH=amd64 ;;\n")
    + ("  aarch64|arm64)" + " ARCH=arm64 ;;\n")
    + ("  armv7l|armv7)" + " ARCH=arm ;;\n")
    + ("  armv6l) ARCH=arm6" + " ;;\n")
    + ("  i386|i686) ARCH=386" + " ;;\n")
    + ("  *) echo \"暂不支持的 CPU" + " 架构: $ARCH\" >&2; exit" + " 1 ;;\n")
    + "esac\n"
  }

  /** The release URL, with the proxy prefix when one is set, and the installation of the `nebula` binary. */
  function AfterBinary(t: string): (r: string)
    ensures t <= r
  {
    t
    + ("NEBULA_PACKAGE=" + "\"nebula-linux-" + "$ARCH.tar.gz\"\n")
    + ("BASE_URL=\"" + "$NEBULA_DOWNLOAD_BASE" + "/v$NEBULA_VERSION/" + "$NEBULA_PACKAGE\"\n")
    + ("if [ -n \"" + "$NEBULA_PROXY_PREFIX\"" + " ]; then\n")
    + ("  DOWNLOAD_URL=\"" + "$NEBULA_PROXY_PREFIX" + "$BASE_URL\"\n")
    + "else\n"
    + ("  DOWNLOAD_URL=\"" + "$BASE_URL\"\n")
    + "fi\n\n"
    + ("echo \"从 $DOWNLOAD_URL" + " 下载 Nebula 二进制...\"\n")
    + ("curl -fsSL \"" + "$DOWNLOAD_URL\" -o \"" + "$TMP_DIR/" + "$NEBULA_PACKAGE\"\n")
    + ("tar -xzf \"$TMP_DIR/" + "$NEBULA_PACKAGE\" -C \"" + "$TMP_DIR\" nebula\n")
    + ("sudo install -m 755 \"" + "$TMP_DIR/nebula\" /usr" + "/local/bin/nebula\n\n")
  }

  /** The download of the node bundle from the manager and the installation of the CA certificate. */
  function AfterBundleFetch(t: string): (r: string)
    ensures t <= r
  {
    t
    + ("echo \"从 $API_BASE" + " 获取节点归档...\"\n")
    + ("curl -fsSL \"" + "${CURL_AUTH[@]}\" \"" + "$API_BASE/api/nodes/" + "$NODE_ID/bundle\" -o \"" + "$TMP_DIR" + "/node_bundle.tar.gz\"\n")
    + ("tar -xzf \"$TMP_DIR" + "/node_bundle.tar.gz\"" + " -C \"$TMP_DIR\"\n\n")
    + ("sudo install -d -m 755" + " \"$NEBULA_DIR\"\n")
    + ("sudo install -m 600 \"" + "$TMP_DIR/ca.crt\" \"" + "$NEBULA_DIR/ca.crt\"\n")
  }

  /** The installation of the configuration and the permissions of the keys. */
  function AfterConfigInstall(t: string): (r: string)
    ensures t <= r
  {
    t
    + ("sudo install -m 640 \"" + "$TMP_DIR/config.yml\" \"" + "$NEBULA_DIR/config.yml" + "\"\n")
    + ("sudo chmod 600 \"" + "$NEBULA_DIR\"/*.key\n")
  }

  /** The start of the systemd unit file and its `[Unit]` section. */
  function AfterUnitOpen(t: string): (r: string)
    ensures t <= r
  {
    t
    + ("sudo tee /etc/systemd" + "/system/nebula.service" + " >/dev/null <<'UNIT'\n")
    + "[Unit]\n"
    + ("Description=Nebula VPN" + " 节点\n")
    + ("After=network-online.t" + "arget\n")
    + ("Wants=network-online.t" + "arget\n\n")
  }

  /** The `[Service]` and `[Install]` sections and the end of the unit file. */
  function AfterUnitService(t: string): (r: string)
    ensures t <= r
  {
    t
    + "[Service]\n"
    + ("ExecStart=/usr/local" + "/bin/nebula -config" + " /etc/nebula" + "/config.yml\n")
    + "Restart=on-failure\n"
    + "RestartSec=5\n"
    + "User=root\n"
    + ("WorkingDirectory=/etc" + "/nebula\n")
    + "LimitNOFILE=65535\n\n"
    + "[Install]\n"
    + ("WantedBy=multi-user.ta" + "rget\n")
    + "UNIT\n"
  }

  /** Reloading systemd, enabling and starting the service, and its status. */
  function AfterServiceStart(t: string): (r: string)
    ensures t <= r
  {
    t
    + ("sudo systemctl" + " daemon-reload\n")
    + ("sudo systemctl enable" + " --now nebula.service\n")
    + ("echo \"Nebula 节点已部署并以" + " systemd 服务运行\"\n")
    + ("sudo systemctl status" + " nebula.service" + " --no-pager\n")
  }

  /** The installation of the node's certificate under its own name. */
  function CertInstallLine(nodeName: string): string {
    ("sudo install -m 600 \"" + "$TMP_DIR/") + CertFile(nodeName) + "\" \"$NEBULA_DIR/" + CertFile(nodeName) + "\"\n"
  }

  /** The installation of the node's key under its own name. */
  function KeyInstallLine(nodeName: string): string {
    ("sudo install -m 600 \"" + "$TMP_DIR/") + KeyFile(nodeName) + "\" \"$NEBULA_DIR/" + KeyFile(nodeName) + "\"\n"
  }

  /** The writes between the header and the node's own certificate. */
  function AfterDownloadSteps(t: string): (r: string)
    ensures t <= r
  {
    hide *;
    AfterBundleFetch(AfterBinary(AfterPlatform(AfterPrerequisites(t))))
  }

  /** The writes after the node's own key. */
  function AfterServiceSteps(t: string): (r: string)
    ensures t <= r
  {
    hide *;
    AfterServiceStart(AfterUnitService(AfterUnitOpen(AfterConfigInstall(t))))
  }

  /** The whole install script: the header, then the fixed steps around the
      lines that install the node's certificate and key. */
  function InstallScript(p: ScriptParams): string {
    AfterServiceSteps(AfterDownloadSteps(ScriptHeader(p)) + CertInstallLine(p.nodeName) + KeyInstallLine(p.nodeName))
  }

  /** The script opens with its parameter header and installs the node's
      certificate and key under the node's name. */
  lemma InstallScriptShape(p: ScriptParams)
    ensures ScriptHeader(p) <= InstallScript(p)
    ensures Contains(InstallScript(p), CertInstallLine(p.nodeName))
    ensures Contains(InstallScript(p), KeyInstallLine(p.nodeName))
  {
    hide AfterServiceSteps;
    hide AfterDownloadSteps;
    hide ScriptHeader;
    var header := ScriptHeader(p);
    var downloads := AfterDownloadSteps(header);
    var withCert := downloads + CertInstallLine(p.nodeName);
    var withKey := withCert + KeyInstallLine(p.nodeName);
    assert withCert <= InstallScript(p);
    EndsWithLast(downloads, CertInstallLine(p.nodeName));
    PrefixContains(withCert, InstallScript(p), CertInstallLine(p.nodeName));
    EndsWithLast(withCert, KeyInstallLine(p.nodeName));
    PrefixContains(withKey, InstallScript(p), KeyInstallLine(p.nodeName));
  }

  // ---------------------------------------------------------------------------
  // Artifact files

  const ModeOwnerRW: int := 384       // 0o600
  const ModeOwnerRWGroupR: int := 416 // 0o640

  const CACertFile: string := "ca.crt"
  const ConfigFile: string := "config.yml"

  function CertFile(nodeName: string): string {
    nodeName + ".crt"
  }

  function KeyFile(nodeName: string): string {
    nodeName + ".key"
  }

  /** One member of the bundle archive. */
  datatype TarEntry = TarEntry(name: string, mode: int, content: string)

  /** The bundle's members, in the order they are added. */
  function BundleEntries(nodeName: string, caCert: string, cert: string, key: string, config: string): (r: seq<TarEntry>)
    ensures |r| == 4
  {
    [ TarEntry(CACertFile, ModeOwnerRW, caCert),
      TarEntry(CertFile(nodeName), ModeOwnerRW, cert),
      TarEntry(KeyFile(nodeName), ModeOwnerRW, key),
      TarEntry(ConfigFile, ModeOwnerRWGroupR, config) ]
  }

  /** Unpacking an archive: a later member replaces an earlier one of the
      same name. */
  function Extract(entries: seq<TarEntry>): (r: map<string, string>)
    ensures r.Keys == set e | e in entries :: e.name
  {
    if entries == [] then map[]
    else
      var last := entries[|entries| - 1];
      assert entries == entries[..|entries| - 1] + [last];
      Extract(entries[..|entries| - 1])[last.name := last.content]
  }

  /** The files written to the node's directory, keyed by file name; a later
      key replaces an earlier equal one. */
  function ArtifactFiles(nodeName: string, caCert: string, cert: string, key: string, config: string): map<string, string> {
    map[CACertFile := caCert][CertFile(nodeName) := cert][KeyFile(nodeName) := key][ConfigFile := config]
  }

  lemma SameLengthSuffix(a: string, x: string, b: string, y: string)
    requires a + x == b + y && |x| == |y|
    ensures a == b && x == y
  {
    assert a == (a + x)[..|a|];
    assert b == (b + y)[..|b|];
    assert x == (a + x)[|a|..];
    assert y == (b + y)[|b|..];
  }

  /** Which artifact names can coincide: only the node certificate with the
      CA certificate, for a node named "ca". */
  lemma ArtifactNamesCollide(nodeName: string)
    ensures CertFile(nodeName) == CACertFile <==> nodeName == "ca"
    ensures CertFile(nodeName) != KeyFile(nodeName)
    ensures KeyFile(nodeName) != CACertFile && KeyFile(nodeName) != ConfigFile && CertFile(nodeName) != ConfigFile
  {
    assert CACertFile == "ca" + ".crt";
    assert ConfigFile == "config" + ".yml";
    if CertFile(nodeName) == CACertFile {
      SameLengthSuffix(nodeName, ".crt", "ca", ".crt");
    }
    if CertFile(nodeName) == KeyFile(nodeName) {
      SameLengthSuffix(nodeName, ".crt", nodeName, ".key");
    }
    if KeyFile(nodeName) == CACertFile {
      SameLengthSuffix(nodeName, ".key", "ca", ".crt");
    }
    if KeyFile(nodeName) == ConfigFile {
      SameLengthSuffix(nodeName, ".key", "config", ".yml");
    }
    if CertFile(nodeName) == ConfigFile {
      SameLengthSuffix(nodeName, ".crt", "config", ".yml");
    }
  }

  /** The bundle's member names are all different exactly when the node is
      not named "ca". */
  lemma BundleNamesDistinct(nodeName: string, caCert: string, cert: string, key: string, config: string)
    ensures var es := BundleEntries(nodeName, caCert, cert, key, config);
      (forall i, j :: 0 <= i < j < 4 ==> es[i].name != es[j].name) <==> nodeName != "ca"
  {
    ArtifactNamesCollide(nodeName);
    var es := BundleEntries(nodeName, caCert, cert, key, config);
    if nodeName == "ca" {
      assert es[0].name == es[1].name;
    }
  }

  /** Unpacking the bundle gives the files written to disk. */
  lemma BundleExtractsToFiles(nodeName: string, caCert: string, cert: string, key: string, config: string)
    ensures ArtifactFiles(nodeName, caCert, cert, key, config) == Extract(BundleEntries(nodeName, caCert, cert, key, config))
  {
    var es := BundleEntries(nodeName, caCert, cert, key, config);
    assert es[..1][..0] == [];
    assert es[..2][..1] == es[..1];
    assert es[..3][..2] == es[..2];
    assert es[..4] == es;
    assert Extract(es[..1]) == map[CACertFile := caCert];
    assert Extract(es[..2]) == Extract(es[..1])[CertFile(nodeName) := cert];
    assert Extract(es[..3]) == Extract(es[..2])[KeyFile(nodeName) := key];
    assert Extract(es) == Extract(es[..3])[ConfigFile := config];
  }

  /** The four files on disk, where for a node named "ca" the CA certificate
      is overwritten by the node's own. */
  lemma ArtifactFilesContents(nodeName: string, caCert: string, cert: string, key: string, config: string)
    ensures var files := ArtifactFiles(nodeName, caCert, cert, key, config);
      && files.Keys == {CACertFile, CertFile(nodeName), KeyFile(nodeName), ConfigFile}
      && files[CACertFile] == (if nodeName == "ca" then cert else caCert)
      && files[CertFile(nodeName)] == cert
      && files[KeyFile(nodeName)] == key
      && files[ConfigFile] == config
  {
    ArtifactNamesCollide(nodeName);
  }

  /** What lands on disk is what the bundle unpacks to, and for a node named
      "ca" the CA certificate is overwritten by the node's own. */
  lemma ArtifactFilesAreBundle(nodeName: string, caCert: string, cert: string, key: string, config: string)
    ensures ArtifactFiles(nodeName, caCert, cert, key, config) == Extract(BundleEntries(nodeName, caCert, cert, key, config))
    ensures var files := ArtifactFiles(nodeName, caCert, cert, key, config);
      && files.Keys == {CACertFile, CertFile(nodeName), KeyFile(nodeName), ConfigFile}
      && files[CACertFile] == (if nodeName == "ca" then cert else caCert)
      && files[CertFile(nodeName)] == cert
      && files[KeyFile(nodeName)] == key
      && files[ConfigFile] == config
  {
    BundleExtractsToFiles(nodeName, caCert, cert, key, config);
    ArtifactFilesContents(nodeName, caCert, cert, key, config);
  }
}
