/** The control logic around the external `nebula-cert` tool: the argument
    vectors for creating a CA and signing a node, the CA format gate, and the
    single retry without `-duration` on two known error phrases. The tool
    itself is an oracle `Signer`: given an argument vector it either writes
    the output certificate and key (their contents are the reply) or fails
    with some combined output and an exit error. */
module Certs {
  import opened Wrappers
  import opened Numbers
  import opened Text

  datatype ToolReply =
    | Wrote(cert: string, key: string)
    | Failed(output: string, exitError: string)

  type Signer = seq<string> -> ToolReply

  datatype CertPair = CertPair(certPEM: string, keyPEM: string)

  datatype CertError =
    | InvalidCACert             // the CA certificate is not in Nebula's PEM format
    | InvalidCAKey              // the CA key is not in Nebula's PEM format
    | ToolFailed(message: string)

  const DefaultValidityDays: Int64 := 365
  const RetryPhraseConstraints: string := "root certificate constraints"
  const RetryPhraseExpiry: string := "certificate expires after"

  /** The `-duration` value: hours as a decimal followed by 'h'; a
      non-positive day count means 365 days. The multiplication is Go's
      64-bit one and wraps. */
  function DurationDaysArg(days: Int64): (r: string)
    ensures |r| >= 2 && r[|r| - 1] == 'h'
    ensures r == IntToString(if days <= 0 then 8760 else Wrap64(days * 24)) + "h"
    ensures Atoi(r[..|r| - 1]) == Some(if days <= 0 then 8760 else Wrap64(days * 24))
  {
    var d := if days <= 0 then DefaultValidityDays else days;
    var hours := Wrap64(d * 24);
    var r := IntToString(hours) + "h";
    assert r[..|r| - 1] == IntToString(hours);
    AtoiOfIntToString(hours);
    r
  }

  lemma DurationOfDefault(days: Int64)
    requires days <= 0
    ensures DurationDaysArg(days) == "8760h"
  {
    assert NatToString(8760) == "8760" by {
      assert NatToString(8) == "8";
      assert NatToString(87) == "87";
      assert NatToString(876) == "876";
    }
  }

  /** An address already written as a CIDR is kept; a bare address is
      trimmed and given a /32 prefix. */
  function EnsureCIDR(ip: string): (r: string)
    ensures '/' in r
    ensures '/' in ip ==> r == ip
    ensures '/' !in ip ==> |r| == |TrimSpace(ip)| + 3 && r[..|r| - 3] == TrimSpace(ip) && r[|r| - 3..] == "/32"
  {
    if '/' in ip then ip else TrimSpace(ip) + "/32"
  }

  lemma EnsureCIDRIdempotent(ip: string)
    ensures EnsureCIDR(EnsureCIDR(ip)) == EnsureCIDR(ip)
  {
  }

  /** `filepath.Join(dir, name)` for a temporary directory and a plain file
      name. */
  function PathIn(dir: string, name: string): string {
    dir + "/" + name
  }

  function CAArgs(tmpDir: string, commonName: string, validityDays: Int64): seq<string> {
    ["ca",
     "-name", commonName,
     "-duration", DurationDaysArg(validityDays),
     "-out-crt", PathIn(tmpDir, "ca.crt"),
     "-out-key", PathIn(tmpDir, "ca.key")]
  }

  /** The signing arguments without `-duration`, used by the retry. */
  function SignBaseArgs(tmpDir: string, commonName: string, ipCIDR: string): seq<string> {
    ["sign",
     "-ca-crt", PathIn(tmpDir, "ca.crt"),
     "-ca-key", PathIn(tmpDir, "ca.key"),
     "-name", commonName,
     "-ip", ipCIDR,
     "-out-crt", PathIn(tmpDir, "node.crt"),
     "-out-key", PathIn(tmpDir, "node.key")]
  }

  /** The full signing arguments of the first run: the base vector, with
      the address in CIDR form, then `-duration`. */
  function SignArgs(tmpDir: string, commonName: string, ip: string, validityDays: Int64): seq<string> {
    SignBaseArgs(tmpDir, commonName, EnsureCIDR(ip)) + ["-duration", DurationDaysArg(validityDays)]
  }

  /** The common name is the seventh of the fifteen arguments. */
  lemma SignArgsName(tmpDir: string, commonName: string, ip: string, validityDays: Int64)
    ensures |SignArgs(tmpDir, commonName, ip, validityDays)| == 15
    ensures SignArgs(tmpDir, commonName, ip, validityDays)[6] == commonName
  {
    var base := SignBaseArgs(tmpDir, commonName, EnsureCIDR(ip));
    assert |base| == 13 && base[6] == commonName;
    var tail := ["-duration", DurationDaysArg(validityDays)];
    assert SignArgs(tmpDir, commonName, ip, validityDays) == base + tail;
    assert (base + tail)[6] == base[6];
  }

  /** The error a failed run reports: the command line, and the trimmed
      combined output, or the exit error when there was no output. */
  function ToolErrorText(args: seq<string>, output: string, exitError: string): (r: string)
    ensures Contains(r, Join(args, " "))
  {
    var msg := TrimSpace(output);
    var r := "nebula-cert " + Join(args, " ") + " 失败: " + (if msg != "" then msg else exitError);
    var w := "nebula-cert ";
    assert r[|w|..|w| + |Join(args, " ")|] == Join(args, " ");
    assert OccursAt(r, Join(args, " "), |w|);
    r
  }

  /** What one run amounts to once the output files are read back. */
  function RunResult(args: seq<string>, reply: ToolReply): (r: Result<CertPair, CertError>)
    ensures reply.Wrote? <==> r.Success?
    ensures reply.Wrote? ==> r.value == CertPair(reply.cert, reply.key)
    ensures reply.Failed? ==> r == Failure(ToolFailed(ToolErrorText(args, reply.output, reply.exitError)))
  {
    match reply
    case Wrote(cert, key) => Success(CertPair(cert, key))
    case Failed(output, exitError) => Failure(ToolFailed(ToolErrorText(args, output, exitError)))
  }

  /** The two error phrases that make the signing step retry. */
  predicate Retryable(message: string) {
    Contains(message, RetryPhraseConstraints) || Contains(message, RetryPhraseExpiry)
  }

  /** The CA format gate in front of the signer. */
  function CAGate(caCertPEM: string, caKeyPEM: string): (r: Option<CertError>)
    ensures r.None? <==> Contains(caCertPEM, "NEBULA CERTIFICATE") && Contains(caKeyPEM, "NEBULA ")
    ensures r == Some(InvalidCACert) <==> !Contains(caCertPEM, "NEBULA CERTIFICATE")
  {
    if !Contains(caCertPEM, "NEBULA CERTIFICATE") then Some(InvalidCACert)
    else if !Contains(caKeyPEM, "NEBULA ") then Some(InvalidCAKey)
    else None
  }

  /** Whether the reply to the first signing run calls for the retry. */
  predicate RetryAfter(firstArgs: seq<string>, reply: ToolReply) {
    reply.Failed? && Retryable(ToolErrorText(firstArgs, reply.output, reply.exitError))
  }

  /** The argument vectors one node signing passes to the tool, in order. */
  function NodeSignCalls(sign: Signer, tmpDir: string, caCertPEM: string, caKeyPEM: string,
                         commonName: string, ip: string, validityDays: Int64): seq<seq<string>>
  {
    if CAGate(caCertPEM, caKeyPEM).Some? then []
    else
      var args := SignArgs(tmpDir, commonName, ip, validityDays);
      if RetryAfter(args, sign(args)) then [args, SignBaseArgs(tmpDir, commonName, EnsureCIDR(ip))] else [args]
  }

  /** The outcome of one node signing. */
  function NodeSignResult(sign: Signer, tmpDir: string, caCertPEM: string, caKeyPEM: string,
                          commonName: string, ip: string, validityDays: Int64): Result<CertPair, CertError>
  {
    match CAGate(caCertPEM, caKeyPEM)
    case Some(e) => Failure(e)
    case None =>
      var base := SignBaseArgs(tmpDir, commonName, EnsureCIDR(ip));
      var args := SignArgs(tmpDir, commonName, ip, validityDays);
      if RetryAfter(args, sign(args)) then RunResult(base, sign(base)) else RunResult(args, sign(args))
  }

  /** A CA certificate or key in the wrong format fails before the tool runs. */
  lemma GateRejectsBeforeSigning(sign: Signer, tmpDir: string, caCertPEM: string, caKeyPEM: string,
                                 commonName: string, ip: string, validityDays: Int64)
    requires !Contains(caCertPEM, "NEBULA CERTIFICATE") || !Contains(caKeyPEM, "NEBULA ")
    ensures NodeSignCalls(sign, tmpDir, caCertPEM, caKeyPEM, commonName, ip, validityDays) == []
    ensures NodeSignResult(sign, tmpDir, caCertPEM, caKeyPEM, commonName, ip, validityDays) ==
      Failure(if !Contains(caCertPEM, "NEBULA CERTIFICATE") then InvalidCACert else InvalidCAKey)
  {
  }

  /** With a well-formed CA the tool runs first with the full argument
      vector: the base vector, whose `-ip` value is the address in CIDR form,
      followed by `-duration`. */
  lemma FirstSigningArguments(sign: Signer, tmpDir: string, caCertPEM: string, caKeyPEM: string,
                              commonName: string, ip: string, validityDays: Int64)
    requires Contains(caCertPEM, "NEBULA CERTIFICATE") && Contains(caKeyPEM, "NEBULA ")
    ensures var calls := NodeSignCalls(sign, tmpDir, caCertPEM, caKeyPEM, commonName, ip, validityDays);
      1 <= |calls| <= 2 && calls[0] == SignArgs(tmpDir, commonName, ip, validityDays)
  {
  }

  /** A first failure naming one of the two phrases leads to exactly one
      more run, with the base arguments, and its outcome is the result. */
  lemma RetryWithoutDuration(sign: Signer, tmpDir: string, caCertPEM: string, caKeyPEM: string,
                             commonName: string, ip: string, validityDays: Int64)
    requires CAGate(caCertPEM, caKeyPEM).None?
    requires var args := SignArgs(tmpDir, commonName, ip, validityDays);
      RetryAfter(args, sign(args))
    ensures var base := SignBaseArgs(tmpDir, commonName, EnsureCIDR(ip));
      NodeSignCalls(sign, tmpDir, caCertPEM, caKeyPEM, commonName, ip, validityDays) ==
        [SignArgs(tmpDir, commonName, ip, validityDays), base] &&
      NodeSignResult(sign, tmpDir, caCertPEM, caKeyPEM, commonName, ip, validityDays) == RunResult(base, sign(base))
  {
  }

  /** A first run that succeeds, or fails with any other text, is the only
      run, and its outcome is the result. */
  lemma NoRetryOtherwise(sign: Signer, tmpDir: string, caCertPEM: string, caKeyPEM: string,
                         commonName: string, ip: string, validityDays: Int64)
    requires CAGate(caCertPEM, caKeyPEM).None?
    requires var args := SignArgs(tmpDir, commonName, ip, validityDays);
      !RetryAfter(args, sign(args))
    ensures var args := SignArgs(tmpDir, commonName, ip, validityDays);
      NodeSignCalls(sign, tmpDir, caCertPEM, caKeyPEM, commonName, ip, validityDays) == [args] &&
      NodeSignResult(sign, tmpDir, caCertPEM, caKeyPEM, commonName, ip, validityDays) == RunResult(args, sign(args))
  {
  }

  /** The retry decision reads the whole error text, and that text repeats
      the command line: a common name carrying one of the phrases makes any
      failure of the first run retry. */
  lemma RetryPhraseInName(sign: Signer, tmpDir: string, caCertPEM: string, caKeyPEM: string,
                          commonName: string, ip: string, validityDays: Int64)
    requires CAGate(caCertPEM, caKeyPEM).None?
    requires Contains(commonName, RetryPhraseConstraints) || Contains(commonName, RetryPhraseExpiry)
    requires sign(SignArgs(tmpDir, commonName, ip, validityDays)).Failed?
    ensures |NodeSignCalls(sign, tmpDir, caCertPEM, caKeyPEM, commonName, ip, validityDays)| == 2
  {
    var base := SignBaseArgs(tmpDir, commonName, EnsureCIDR(ip));
    var args := SignArgs(tmpDir, commonName, ip, validityDays);
    var reply := sign(args);
    var text := ToolErrorText(args, reply.output, reply.exitError);
    SignArgsName(tmpDir, commonName, ip, validityDays);
    assert args[6] == commonName;
    JoinContainsPart(args, " ", 6);
    ContainsTransitive(text, Join(args, " "), commonName);
    if Contains(commonName, RetryPhraseConstraints) {
      ContainsTransitive(text, commonName, RetryPhraseConstraints);
    } else {
      ContainsTransitive(text, commonName, RetryPhraseExpiry);
    }
    assert RetryAfter(args, reply);
    assert NodeSignCalls(sign, tmpDir, caCertPEM, caKeyPEM, commonName, ip, validityDays) == [args, base];
  }

  /** The outcome of creating a CA; the validity is clamped to 365 days
      first. */
  function CAResult(sign: Signer, tmpDir: string, commonName: string, validityDays: Int64): Result<CertPair, CertError> {
    var days := if validityDays <= 0 then DefaultValidityDays else validityDays;
    RunResult(CAArgs(tmpDir, commonName, days), sign(CAArgs(tmpDir, commonName, days)))
  }

  /** A non-positive validity asks the tool for 8760 hours. */
  lemma CAValidityClamped(sign: Signer, tmpDir: string, commonName: string, validityDays: Int64)
    requires validityDays <= 0
    ensures var args := ["ca", "-name", commonName, "-duration", "8760h",
                         "-out-crt", PathIn(tmpDir, "ca.crt"), "-out-key", PathIn(tmpDir, "ca.key")];
      CAResult(sign, tmpDir, commonName, validityDays) == RunResult(args, sign(args))
  {
    DurationOfDefault(0);
  }

  /** The tool as the program sees it: every run is logged in `calls`, and
      every temporary directory gets a fresh name (the random suffix of
      `os.MkdirTemp` is a serial number here). */
  class CertTool {
    const sign: Signer
    const tempRoot: string
    var serial: nat
    var calls: seq<seq<string>>

    constructor(sign: Signer, tempRoot: string)
      ensures this.sign == sign && this.tempRoot == tempRoot
      ensures serial == 0 && calls == []
    {
      this.sign := sign;
      this.tempRoot := tempRoot;
      serial := 0;
      calls := [];
    }

    function TempDir(prefix: string, n: nat): string
    {
      tempRoot + "/" + prefix + NatToString(n)
    }

    method MakeTempDir(prefix: string) returns (dir: string)
      modifies this
      ensures dir == TempDir(prefix, old(serial))
      ensures serial == old(serial) + 1 && calls == old(calls)
    {
      dir := TempDir(prefix, serial);
      serial := serial + 1;
    }

    /** One run of the tool. */
    method Run(args: seq<string>) returns (reply: ToolReply)
      modifies this
      ensures reply == sign(args)
      ensures calls == old(calls) + [args] && serial == old(serial)
    {
      reply := sign(args);
      calls := calls + [args];
    }

    method GenerateCA(commonName: string, validityDays: Int64) returns (r: Result<CertPair, CertError>)
      modifies this
      ensures r == CAResult(sign, TempDir("nebula-ca-", old(serial)), commonName, validityDays)
      ensures calls == old(calls) + [CAArgs(TempDir("nebula-ca-", old(serial)), commonName,
                                            if validityDays <= 0 then DefaultValidityDays else validityDays)]
      ensures serial == old(serial) + 1
    {
      var days := validityDays;
      if days <= 0 {
        days := DefaultValidityDays;
      }
      var tmpDir := MakeTempDir("nebula-ca-");
      var args := CAArgs(tmpDir, commonName, days);
      var reply := Run(args);
      r := RunResult(args, reply);
    }

    method GenerateNodeCertificate(caCertPEM: string, caKeyPEM: string, commonName: string,
                                   ip: string, validityDays: Int64) returns (r: Result<CertPair, CertError>)
      modifies this
      ensures var tmpDir := TempDir("nebula-node-", old(serial));
        r == NodeSignResult(sign, tmpDir, caCertPEM, caKeyPEM, commonName, ip, validityDays) &&
        calls == old(calls) + NodeSignCalls(sign, tmpDir, caCertPEM, caKeyPEM, commonName, ip, validityDays)
      ensures serial == old(serial) + (if CAGate(caCertPEM, caKeyPEM).None? then 1 else 0)
    {
      if !Contains(caCertPEM, "NEBULA CERTIFICATE") {
        return Failure(InvalidCACert);
      }
      if !Contains(caKeyPEM, "NEBULA ") {
        return Failure(InvalidCAKey);
      }
      var ipCIDR := EnsureCIDR(ip);
      var tmpDir := MakeTempDir("nebula-node-");
      var baseArgs := SignBaseArgs(tmpDir, commonName, ipCIDR);
      var args := SignArgs(tmpDir, commonName, ip, validityDays);
      var reply := Run(args);
      if reply.Failed? {
        var err := ToolErrorText(args, reply.output, reply.exitError);
        if Contains(err, RetryPhraseConstraints) || Contains(err, RetryPhraseExpiry) {
          assert RetryAfter(args, reply);
          RetryWithoutDuration(sign, tmpDir, caCertPEM, caKeyPEM, commonName, ip, validityDays);
          reply := Run(baseArgs);
          r := RunResult(baseArgs, reply);
        } else {
          assert !RetryAfter(args, reply);
          NoRetryOtherwise(sign, tmpDir, caCertPEM, caKeyPEM, commonName, ip, validityDays);
          r := Failure(ToolFailed(err));
        }
      } else {
        NoRetryOtherwise(sign, tmpDir, caCertPEM, caKeyPEM, commonName, ip, validityDays);
        r := RunResult(args, reply);
      }
    }
  }
}
