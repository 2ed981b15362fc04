/** The network settings singleton: read-or-create with defaults, and an
    update in which only the non-zero fields of a request overwrite. */
module Settings {
  import opened Wrappers
  import opened Numbers
  import opened Models

  const DefaultSubnet: string := "10.10.0.0/24"
  const DefaultHandshakePort: Int64 := 4242
  const DefaultCertificateValidity: Int64 := 365

  /** The update payload; a zero or empty field means "leave as it is". */
  datatype UpdateRequest = UpdateRequest(
    defaultSubnet: string,
    handshakePort: Int64,
    lighthouseHosts: string,
    certificateValidity: Int64,
    description: string)

  const EmptyRequest: UpdateRequest := UpdateRequest("", 0, "", 0, "")

  /** The row created on first read; the empty table hands out id 1. */
  function InitialSetting(): (r: NetworkSetting)
    ensures r.id == 1 && Populated(r)
    ensures r.lighthouseHosts == "" && r.description == ""
  {
    NetworkSetting(1, DefaultSubnet, DefaultHandshakePort, "", DefaultCertificateValidity, "")
  }

  /** The three fields every freshly created row has set. */
  predicate Populated(s: NetworkSetting) {
    s.defaultSubnet != "" && s.handshakePort != 0 && s.certificateValidity != 0
  }

  /** True when each field of `r` is the request's value if that is non-zero,
      and the old value otherwise. */
  predicate Overwrites(s: NetworkSetting, req: UpdateRequest, r: NetworkSetting) {
    && r.id == s.id
    && r.defaultSubnet == (if req.defaultSubnet != "" then req.defaultSubnet else s.defaultSubnet)
    && r.handshakePort == (if req.handshakePort != 0 then req.handshakePort else s.handshakePort)
    && r.certificateValidity == (if req.certificateValidity != 0 then req.certificateValidity else s.certificateValidity)
    && r.lighthouseHosts == (if req.lighthouseHosts != "" then req.lighthouseHosts else s.lighthouseHosts)
    && r.description == (if req.description != "" then req.description else s.description)
  }

  /** The record `Update` saves: the current row with the non-zero request
      fields laid over it. */
  function Merge(s: NetworkSetting, req: UpdateRequest): (r: NetworkSetting)
    ensures Overwrites(s, req, r)
  {
    var r := s;
    var r := if req.defaultSubnet != "" then r.(defaultSubnet := req.defaultSubnet) else r;
    var r := if req.handshakePort != 0 then r.(handshakePort := req.handshakePort) else r;
    var r := if req.certificateValidity != 0 then r.(certificateValidity := req.certificateValidity) else r;
    var r := if req.lighthouseHosts != "" then r.(lighthouseHosts := req.lighthouseHosts) else r;
    if req.description != "" then r.(description := req.description) else r
  }

  /** The merge is determined by its field-wise description. */
  lemma MergeUnique(s: NetworkSetting, req: UpdateRequest, r: NetworkSetting)
    requires Overwrites(s, req, r)
    ensures r == Merge(s, req)
  {
  }

  /** A request of zeros changes nothing. */
  lemma MergeEmptyIsIdentity(s: NetworkSetting)
    ensures Merge(s, EmptyRequest) == s
  {
  }

  /** Applying the same request twice is applying it once. */
  lemma MergeIdempotent(s: NetworkSetting, req: UpdateRequest)
    ensures Merge(Merge(s, req), req) == Merge(s, req)
  {
  }

  /** A field that is set before an update is still set after it. */
  lemma MergeKeepsPopulated(s: NetworkSetting, req: UpdateRequest)
    requires Populated(s)
    ensures Populated(Merge(s, req))
  {
  }

  /** The later request's non-zero fields win over the earlier one's. */
  function Overlay(first: UpdateRequest, second: UpdateRequest): UpdateRequest {
    UpdateRequest(
      if second.defaultSubnet != "" then second.defaultSubnet else first.defaultSubnet,
      if second.handshakePort != 0 then second.handshakePort else first.handshakePort,
      if second.lighthouseHosts != "" then second.lighthouseHosts else first.lighthouseHosts,
      if second.certificateValidity != 0 then second.certificateValidity else first.certificateValidity,
      if second.description != "" then second.description else first.description)
  }

  /** Two updates in a row equal one update with the requests overlaid. */
  lemma MergeSequential(s: NetworkSetting, first: UpdateRequest, second: UpdateRequest)
    ensures Merge(Merge(s, first), second) == Merge(s, Overlay(first, second))
  {
  }

  /** The settings table, holding at most one row. */
  class SettingsService {
    var row: Option<NetworkSetting>

    constructor(initial: Option<NetworkSetting>)
      ensures row == initial
    {
      row := initial;
    }

    /** Return the row, creating it with the defaults when the table is empty. */
    method Get() returns (s: NetworkSetting)
      modifies this
      ensures old(row).Some? ==> s == old(row).value
      ensures old(row).None? ==> s == InitialSetting()
      ensures row == Some(s)
    {
      if row.Some? {
        s := row.value;
      } else {
        s := InitialSetting();
        row := Some(s);
      }
    }

    /** Read (or create) the row, overwrite the non-zero fields, save. */
    method Update(req: UpdateRequest) returns (s: NetworkSetting)
      modifies this
      ensures s == Merge(if old(row).Some? then old(row).value else InitialSetting(), req)
      ensures row == Some(s)
    {
      s := Get();
      if req.defaultSubnet != "" {
        s := s.(defaultSubnet := req.defaultSubnet);
      }
      if req.handshakePort != 0 {
        s := s.(handshakePort := req.handshakePort);
      }
      if req.certificateValidity != 0 {
        s := s.(certificateValidity := req.certificateValidity);
      }
      if req.lighthouseHosts != "" {
        s := s.(lighthouseHosts := req.lighthouseHosts);
      }
      if req.description != "" {
        s := s.(description := req.description);
      }
      row := Some(s);
    }
  }
}
