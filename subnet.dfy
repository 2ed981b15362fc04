/** Subnet input as an operator types it ("10.0.0.5", "10.0.0.5/24",
    " fd00::1 / 64 "), normalised to a CIDR and a host address. Address
    parsing belongs to Go's `net` package and is an oracle here. */
module Subnet {
  import opened Wrappers
  import opened Numbers
  import opened Text
  import opened Models

  datatype Family = IPv4 | IPv6

  /** A prefix length as `net.IPMask.Size` reports it. */
  type PrefixLen = n: nat | n <= 128

  /** `net.ParseIP`, reduced to the family of the parsed address (IPv4
      exactly when `To4()` is non-nil), and `net.ParseCIDR`, reduced to the
      prefix length of the parsed network. */
  datatype AddrParser = AddrParser(
    parseIP: string -> Option<Family>,
    parseCIDR: string -> Option<PrefixLen>)

  function MaxPrefix(f: Family): nat {
    if f == IPv4 then 32 else 128
  }

  datatype SubnetError =
    | SubnetRequired             // blank input
    | InvalidSubnetIP(host: string)
    | InvalidSubnetMask(mask: string)

  datatype SubnetAssignment = SubnetAssignment(cidr: string, host: string)

  function FamilyDefaultMask(f: Family): (r: string)
    ensures r == IntToString(if f == IPv4 then 24 else 64)
  {
    assert NatToString(24) == "24" by { assert NatToString(2) == "2"; }
    assert NatToString(64) == "64" by { assert NatToString(6) == "6"; }
    if f == IPv4 then "24" else "64"
  }

  /** The prefix length of the configured default subnet, when it parses and
      is above 0; otherwise 24 for IPv4 and 64 for IPv6. */
  function DefaultMaskForIP(addrs: AddrParser, family: Family, settings: Option<NetworkSetting>): (r: string)
    ensures Atoi(r).Some? && 0 < Atoi(r).value <= 128
    ensures r == IntToString(Atoi(r).value)
  {
    var ones :=
      if settings.Some? && TrimSpace(settings.value.defaultSubnet) != ""
      then addrs.parseCIDR(TrimSpace(settings.value.defaultSubnet)) else None;
    if ones.Some? && ones.value > 0 then
      AtoiOfIntToString(ones.value);
      IntToString(ones.value)
    else
      AtoiOfIntToString(if family == IPv4 then 24 else 64);
      FamilyDefaultMask(family)
  }

  lemma DefaultMaskFromSettings(addrs: AddrParser, family: Family, settings: NetworkSetting, ones: PrefixLen)
    requires TrimSpace(settings.defaultSubnet) != ""
    requires addrs.parseCIDR(TrimSpace(settings.defaultSubnet)) == Some(ones) && ones > 0
    ensures DefaultMaskForIP(addrs, family, Some(settings)) == IntToString(ones)
  {
  }

  /** Without settings, with a blank or unparsable default subnet, or with a
      /0 one, the mask follows the address family. */
  lemma DefaultMaskByFamily(addrs: AddrParser, family: Family, settings: Option<NetworkSetting>)
    requires settings.None? || TrimSpace(settings.value.defaultSubnet) == "" ||
             addrs.parseCIDR(TrimSpace(settings.value.defaultSubnet)).None? ||
             addrs.parseCIDR(TrimSpace(settings.value.defaultSubnet)) == Some(0)
    ensures DefaultMaskForIP(addrs, family, settings) == (if family == IPv4 then "24" else "64")
  {
  }

  /** The trimmed text split at the first '/' into a host and a mask, each
      trimmed again; without a '/' the mask is empty. */
  function SplitSubnetText(trimmed: string): (r: (string, string))
    ensures '/' !in r.0 && TrimSpace(r.0) == r.0
    ensures '/' !in trimmed ==> r.0 == TrimSpace(trimmed) && r.1 == ""
    ensures IndexOfChar(trimmed, '/').Some? ==>
      var i := IndexOfChar(trimmed, '/').value;
      r == (TrimSpace(trimmed[..i]), TrimSpace(trimmed[i + 1..]))
  {
    var cut := IndexOfChar(trimmed, '/');
    if cut.None? then
      CleanHost(trimmed);
      (TrimSpace(trimmed), "")
    else
      var i := cut.value;
      var host := trimmed[..i];
      CleanHost(host);
      (TrimSpace(host), TrimSpace(trimmed[i + 1..]))
  }

  lemma CleanHost(s: string)
    requires '/' !in s
    ensures '/' !in TrimSpace(s) && TrimSpace(TrimSpace(s)) == TrimSpace(s)
  {
    TrimSpaceKeepsOnly(s, '/');
    TrimSpaceIdempotent(s);
  }

  /** The steps after the split: parse the host, default an empty mask, read
      the mask as a decimal and check its range for the family. */
  function NormalizeParts(addrs: AddrParser, host: string, maskPart: string, settings: Option<NetworkSetting>): (r: Result<SubnetAssignment, SubnetError>)
    requires '/' !in host && TrimSpace(host) == host
    ensures r != Failure(SubnetRequired)
    ensures r.Failure? && r.error.InvalidSubnetIP? ==> r.error.host == host && addrs.parseIP(host).None?
    ensures r.Success? ==> r.value.host == host && addrs.parseIP(host).Some?
    ensures r.Success? ==>
      |r.value.host| < |r.value.cidr| && r.value.cidr[..|r.value.host| + 1] == r.value.host + "/" &&
      var mask := Atoi(r.value.cidr[|r.value.host| + 1..]);
      mask.Some? && 0 <= mask.value <= MaxPrefix(addrs.parseIP(r.value.host).value) &&
      r.value.cidr == r.value.host + "/" + IntToString(mask.value)
    ensures r.Success? ==>
      var maskText := if maskPart == "" then DefaultMaskForIP(addrs, addrs.parseIP(r.value.host).value, settings) else maskPart;
      Atoi(maskText).Some? && r.value.cidr == r.value.host + "/" + IntToString(Atoi(maskText).value)
  {
    match addrs.parseIP(host)
    case None => Failure(InvalidSubnetIP(host))
    case Some(family) =>
      var maskText := if maskPart == "" then DefaultMaskForIP(addrs, family, settings) else maskPart;
      match Atoi(maskText)
      case None => Failure(InvalidSubnetMask(maskText))
      case Some(mask) =>
        if mask < 0 || mask > MaxPrefix(family) then Failure(InvalidSubnetMask(IntToString(mask)))
        else Success(Assign(host, mask))
  }

  /** The result `fmt.Sprintf("%s/%d", host, mask)` and the host. */
  function Assign(host: string, mask: Int64): (r: SubnetAssignment)
    ensures r.host == host && r.cidr == host + "/" + IntToString(mask)
    ensures |host| < |r.cidr| && r.cidr[..|host| + 1] == host + "/"
    ensures Atoi(r.cidr[|host| + 1..]) == Some(mask)
  {
    var cidr := host + "/" + IntToString(mask);
    assert cidr[|host| + 1..] == IntToString(mask);
    AtoiOfIntToString(mask);
    SubnetAssignment(cidr, host)
  }

  function NormalizeSubnetInput(addrs: AddrParser, input: string, settings: Option<NetworkSetting>): (r: Result<SubnetAssignment, SubnetError>)
    ensures r == Failure(SubnetRequired) <==> TrimSpace(input) == ""
    ensures r.Failure? && r.error.InvalidSubnetIP? ==> addrs.parseIP(r.error.host).None?
    ensures r.Success? ==> addrs.parseIP(r.value.host).Some?
    ensures r.Success? ==> '/' !in r.value.host && TrimSpace(r.value.host) == r.value.host
    ensures r.Success? ==>
      |r.value.host| < |r.value.cidr| && r.value.cidr[..|r.value.host| + 1] == r.value.host + "/" &&
      var mask := Atoi(r.value.cidr[|r.value.host| + 1..]);
      mask.Some? && 0 <= mask.value <= MaxPrefix(addrs.parseIP(r.value.host).value) &&
      r.value.cidr == r.value.host + "/" + IntToString(mask.value)
    // the host and the mask are the two sides of the first '/' in the
    // trimmed input; an empty mask means the default one
    ensures r.Success? || (r.Failure? && r.error.InvalidSubnetIP?) ==>
      (if r.Success? then r.value.host else r.error.host) == SplitSubnetText(TrimSpace(input)).0
    ensures r.Success? ==>
      var maskPart := SplitSubnetText(TrimSpace(input)).1;
      var maskText := if maskPart == "" then DefaultMaskForIP(addrs, addrs.parseIP(r.value.host).value, settings) else maskPart;
      Atoi(maskText).Some? && r.value.cidr == r.value.host + "/" + IntToString(Atoi(maskText).value)
  {
    var trimmed := TrimSpace(input);
    if trimmed == "" then Failure(SubnetRequired)
    else
      var parts := SplitSubnetText(trimmed);
      NormalizeParts(addrs, parts.0, parts.1, settings)
  }

  /** A host as an operator would type it: non-empty, no '/', no
      surrounding whitespace. */
  predicate PlainHost(host: string) {
    host != "" && '/' !in host && TrimSpace(host) == host
  }

  /** A mask as typed after the '/': non-empty, no surrounding whitespace. */
  predicate PlainMask(mask: string) {
    mask != "" && TrimSpace(mask) == mask
  }

  lemma SplitOfHostMask(host: string, mask: string)
    requires '/' !in host && TrimSpace(host) == host && PlainMask(mask)
    ensures TrimSpace(host + "/" + mask) == host + "/" + mask
    ensures '/' in host + "/" + mask
    ensures SplitSubnetText(host + "/" + mask) == (host, mask)
  {
    var s := host + "/" + mask;
    assert s[0] == (if host == "" then '/' else host[0]) && s[|s| - 1] == mask[|mask| - 1];
    TrimSpaceOfTrimmed(s);
    assert s[|host|] == '/';
    IndexOfCharAfter(host, '/', mask);
    assert s[..|host|] == host && s[|host| + 1..] == mask;
  }

  lemma BareHost(host: string)
    requires PlainHost(host)
    ensures TrimSpace(host) == host && '/' !in host
  {
  }

  /** Blank or whitespace-only input is rejected. */
  lemma RejectsBlank(addrs: AddrParser, input: string, settings: Option<NetworkSetting>)
    requires AllSpace(input)
    ensures NormalizeSubnetInput(addrs, input, settings) == Failure(SubnetRequired)
  {
    AllSpaceLeading(input);
  }

  /** A host that does not parse as an address is rejected. */
  lemma RejectsUnparsableHost(addrs: AddrParser, host: string, mask: string, settings: Option<NetworkSetting>)
    requires PlainHost(host) && (mask == "" || PlainMask(mask))
    requires addrs.parseIP(host).None?
    ensures NormalizeSubnetInput(addrs, if mask == "" then host else host + "/" + mask, settings) ==
      Failure(InvalidSubnetIP(host))
  {
    if mask != "" {
      SplitOfHostMask(host, mask);
    }
  }

  /** A mask that is not a decimal integer is rejected. */
  lemma RejectsNonIntegerMask(addrs: AddrParser, host: string, mask: string, settings: Option<NetworkSetting>)
    requires PlainHost(host) && PlainMask(mask)
    requires addrs.parseIP(host).Some? && Atoi(mask).None?
    ensures NormalizeSubnetInput(addrs, host + "/" + mask, settings) == Failure(InvalidSubnetMask(mask))
  {
    SplitOfHostMask(host, mask);
  }

  /** A mask outside 0..32 for IPv4, or 0..128 for IPv6, is rejected. */
  lemma RejectsMaskOutOfRange(addrs: AddrParser, host: string, mask: string, settings: Option<NetworkSetting>)
    requires PlainHost(host) && PlainMask(mask)
    requires addrs.parseIP(host).Some? && Atoi(mask).Some?
    requires Atoi(mask).value < 0 || Atoi(mask).value > MaxPrefix(addrs.parseIP(host).value)
    ensures NormalizeSubnetInput(addrs, host + "/" + mask, settings) ==
      Failure(InvalidSubnetMask(IntToString(Atoi(mask).value)))
  {
    SplitOfHostMask(host, mask);
  }

  /** An address with an in-range mask gives back the host and the CIDR
      written with the mask's decimal value. */
  lemma AcceptsHostAndMask(addrs: AddrParser, host: string, mask: string, settings: Option<NetworkSetting>)
    requires '/' !in host && TrimSpace(host) == host && PlainMask(mask)
    requires addrs.parseIP(host).Some? && Atoi(mask).Some?
    requires 0 <= Atoi(mask).value <= MaxPrefix(addrs.parseIP(host).value)
    ensures NormalizeSubnetInput(addrs, host + "/" + mask, settings) ==
      Success(SubnetAssignment(host + "/" + IntToString(Atoi(mask).value), host))
  {
    SplitOfHostMask(host, mask);
    var input := host + "/" + mask;
    assert NormalizeSubnetInput(addrs, input, settings) == NormalizeParts(addrs, host, mask, settings);
    var a := Assign(host, Atoi(mask).value);
    assert NormalizeParts(addrs, host, mask, settings) == Success(a);
    assert a == SubnetAssignment(host + "/" + IntToString(Atoi(mask).value), host);
  }

  /** An address with no mask takes the default mask, and is rejected when
      that default is too long for its family. */
  lemma BareHostTakesDefaultMask(addrs: AddrParser, host: string, settings: Option<NetworkSetting>)
    requires PlainHost(host) && addrs.parseIP(host).Some?
    ensures var family := addrs.parseIP(host).value;
      var mask := DefaultMaskForIP(addrs, family, settings);
      NormalizeSubnetInput(addrs, host, settings) ==
        if Atoi(mask).value <= MaxPrefix(family) then Success(SubnetAssignment(host + "/" + mask, host))
        else Failure(InvalidSubnetMask(mask))
  {
  }

  /** A '/' with nothing after it counts as no mask: the default is used. */
  lemma EmptyMaskTakesDefault(addrs: AddrParser, host: string, settings: Option<NetworkSetting>)
    requires PlainHost(host)
    ensures NormalizeSubnetInput(addrs, host + "/", settings) == NormalizeSubnetInput(addrs, host, settings)
  {
    var s := host + "/";
    assert s[0] == host[0];
    TrimSpaceOfTrimmed(s);
    IndexOfCharAfter(host, '/', "");
    assert s[..|host|] == host && s[|host| + 1..] == "";
    assert SplitSubnetText(s) == (host, "");
    assert SplitSubnetText(host) == (host, "");
    SameSplitSameResult(addrs, s, host, settings);
  }

  /** White space on either side of the '/' is ignored. */
  lemma SpacesAroundSlash(addrs: AddrParser, host: string, ws1: string, ws2: string, mask: string,
                          settings: Option<NetworkSetting>)
    requires PlainHost(host) && PlainMask(mask) && AllSpace(ws1) && AllSpace(ws2)
    ensures NormalizeSubnetInput(addrs, host + ws1 + "/" + ws2 + mask, settings) ==
      NormalizeSubnetInput(addrs, host + "/" + mask, settings)
  {
    SplitSpaced(host, ws1, ws2, mask);
    SplitOfHostMask(host, mask);
    SameSplitSameResult(addrs, host + ws1 + "/" + ws2 + mask, host + "/" + mask, settings);
  }

  lemma SplitSpaced(host: string, ws1: string, ws2: string, mask: string)
    requires PlainHost(host) && PlainMask(mask) && AllSpace(ws1) && AllSpace(ws2)
    ensures var s := host + ws1 + "/" + ws2 + mask;
      TrimSpace(s) == s && s != "" && SplitSubnetText(s) == (host, mask)
  {
    var a := host + ws1;
    var b := ws2 + mask;
    assert host + ws1 + "/" + ws2 + mask == a + "/" + b;
    SpacedIsTrimmed(a, b, host, mask);
    assert '/' !in a by {
      assert forall i :: 0 <= i < |ws1| ==> ws1[i] != '/';
    }
    SplitAtSlash(a, b);
    TrimSpaceTrailingPad(host, ws1);
    TrimSpaceLeadingPad(ws2, mask);
  }

  /** Text with a '/' splits at the first one. */
  lemma SplitAtSlash(a: string, b: string)
    requires '/' !in a
    ensures SplitSubnetText(a + "/" + b) == (TrimSpace(a), TrimSpace(b))
  {
    var s := a + "/" + b;
    IndexOfCharAfter(a, '/', b);
    assert s[..|a|] == a && s[|a| + 1..] == b;
  }

  lemma SpacedIsTrimmed(a: string, b: string, host: string, mask: string)
    requires PlainHost(host) && PlainMask(mask)
    requires |host| <= |a| && a[..|host|] == host && |mask| <= |b| && b[|b| - |mask|..] == mask
    ensures TrimSpace(a + "/" + b) == a + "/" + b
  {
    var s := a + "/" + b;
    assert s[0] == a[0] == host[0];
    assert s[|s| - 1] == b[|b| - 1] == mask[|mask| - 1];
    TrimSpaceOfTrimmed(s);
  }

  /** The input matters only through the split of its trimmed text. */
  lemma SameSplitSameResult(addrs: AddrParser, a: string, b: string, settings: Option<NetworkSetting>)
    requires TrimSpace(a) != "" && TrimSpace(b) != ""
    requires SplitSubnetText(TrimSpace(a)) == SplitSubnetText(TrimSpace(b))
    ensures NormalizeSubnetInput(addrs, a, settings) == NormalizeSubnetInput(addrs, b, settings)
  {
  }

  /** The configured prefix length is used whatever the family: an IPv4
      address under an IPv6-sized default subnet (say /64) is rejected. */
  lemma IPv4UnderWideDefaultSubnet(addrs: AddrParser, host: string, settings: NetworkSetting, ones: PrefixLen)
    requires PlainHost(host) && addrs.parseIP(host) == Some(IPv4)
    requires TrimSpace(settings.defaultSubnet) != ""
    requires addrs.parseCIDR(TrimSpace(settings.defaultSubnet)) == Some(ones) && ones > 32
    ensures NormalizeSubnetInput(addrs, host, Some(settings)) == Failure(InvalidSubnetMask(IntToString(ones)))
  {
    DefaultMaskFromSettings(addrs, IPv4, settings, ones);
    BareHostTakesDefaultMask(addrs, host, Some(settings));
    AtoiOfIntToString(ones);
  }

  lemma AcceptsTrimmedHost(addrs: AddrParser, host: string, m: Int64, settings: Option<NetworkSetting>)
    requires '/' !in host && TrimSpace(host) == host
    requires addrs.parseIP(host).Some? && 0 <= m <= MaxPrefix(addrs.parseIP(host).value)
    ensures NormalizeSubnetInput(addrs, host + "/" + IntToString(m), settings) ==
      Success(SubnetAssignment(host + "/" + IntToString(m), host))
  {
    var mask := IntToString(m);
    AtoiOfIntToString(m);
    TrimSpaceOfTrimmed(mask);
    assert PlainMask(mask);
    AcceptsHostAndMask(addrs, host, mask, settings);
  }

  /** Normalising a normalised CIDR gives it back, whatever the settings. */
  lemma NormalizeIdempotent(addrs: AddrParser, input: string, settings: Option<NetworkSetting>, other: Option<NetworkSetting>)
    requires NormalizeSubnetInput(addrs, input, settings).Success?
    ensures var r := NormalizeSubnetInput(addrs, input, settings);
      NormalizeSubnetInput(addrs, r.value.cidr, other) == r
  {
    var r := NormalizeSubnetInput(addrs, input, settings).value;
    var m := Atoi(r.cidr[|r.host| + 1..]).value;
    AcceptsTrimmedHost(addrs, r.host, m, other);
  }
}
