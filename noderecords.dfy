/** The node records and everything the node service computes from them
    without touching state: the request and response shapes, the subnet
    repair of legacy rows, the listen port and validity fallbacks, the
    lighthouse list handed to the template, the specification of creating
    and of regenerating a node, and the layout of the artifact files. */
module NodeRecords {
  import opened Wrappers
  import opened Numbers
  import opened Text
  import opened Models
  import opened Subnet
  import opened Certs
  import opened Render
  import opened NodeText
  import Templates

  /** The port a lighthouse or a refreshed node falls back to when neither
      the node nor the settings name one. */
  const FallbackPort: Int64 := 4242
  const FallbackValidityDays: Int64 := 365

  datatype CreateNodeRequest = CreateNodeRequest(
    name: string,
    role: string,
    subnetIP: string,
    publicIP: string,
    port: Int64,
    tags: seq<string>,
    proxyMode: string)

  /** A node as the API shows it; `subnetIP` carries the CIDR. */
  datatype NodeDTO = NodeDTO(
    id: nat,
    name: string,
    role: string,
    subnetIP: string,
    subnetHost: string,
    publicIP: string,
    port: Int64,
    tags: seq<string>,
    proxyMode: string,
    installCommand: string)

  datatype NodeArtifacts = NodeArtifacts(certificate: string, privateKey: string, caCert: string, config: string)

  datatype NodeError =
    | UnsupportedRole(role: string)
    | CANotGenerated              // creation without a CA
    | NoCAPresent                 // a refresh without a CA
    | NodeNotFound(id: nat)
    | InvalidSubnet(subnetError: SubnetError)
    | CertFailed(certError: CertError)
    | RenderFailed(message: string)
    | NameTaken(name: string)     // the unique index on the name

  predicate SupportedRole(role: string) {
    role == RoleLighthouse || role == RoleStandard
  }

  // ---------------------------------------------------------------------------
  // The node table

  predicate NodeIdsAscending(nodes: seq<Node>) {
    forall i, j :: 0 <= i < j < |nodes| ==> nodes[i].id < nodes[j].id
  }

  predicate NodeNamesUnique(nodes: seq<Node>) {
    forall i, j :: 0 <= i < j < |nodes| ==> nodes[i].name != nodes[j].name
  }

  /** Ids ascend in table order (the primary-key order), all lie below the
      next id, and names are unique. */
  predicate NodeTableValid(nodes: seq<Node>, nextId: nat) {
    0 < nextId && NodeIdsAscending(nodes) && NodeNamesUnique(nodes) &&
    forall i :: 0 <= i < |nodes| ==> 0 < nodes[i].id < nextId
  }

  function FindNode(nodes: seq<Node>, id: nat): (r: Option<nat>)
    ensures r.None? <==> forall i :: 0 <= i < |nodes| ==> nodes[i].id != id
    ensures r.Some? ==> r.value < |nodes| && nodes[r.value].id == id
    ensures r.Some? && NodeIdsAscending(nodes) ==> forall i :: 0 <= i < |nodes| && nodes[i].id == id ==> i == r.value
  {
    if nodes == [] then None
    else if nodes[|nodes| - 1].id == id then Some(|nodes| - 1)
    else FindNode(nodes[..|nodes| - 1], id)
  }

  /** `getNode`: the row with the primary key, or "not found". */
  function Lookup(nodes: seq<Node>, id: nat): (r: Result<Node, NodeError>)
    ensures r.Failure? <==> forall i :: 0 <= i < |nodes| ==> nodes[i].id != id
    ensures r.Failure? ==> r.error == NodeNotFound(id)
    ensures r.Success? ==> r.value in nodes && r.value.id == id
  {
    match FindNode(nodes, id)
    case None => Failure(NodeNotFound(id))
    case Some(i) => Success(nodes[i])
  }

  predicate HasName(nodes: seq<Node>, name: string) {
    exists i :: 0 <= i < |nodes| && nodes[i].name == name
  }

  /** The table after deleting by primary key: the row `FindNode` finds is
      cut out. */
  function DeleteById(nodes: seq<Node>, id: nat): (r: seq<Node>)
    ensures FindNode(nodes, id).None? ==> r == nodes
    ensures FindNode(nodes, id).Some? ==> |r| == |nodes| - 1
  {
    match FindNode(nodes, id)
    case None => nodes
    case Some(i) => nodes[..i] + nodes[i + 1..]
  }

  /** In a valid table the deletion drops exactly the rows with that id, and
      the table stays valid. */
  lemma DeleteByIdKeepsValid(nodes: seq<Node>, nextId: nat, id: nat)
    requires NodeTableValid(nodes, nextId)
    ensures var r := DeleteById(nodes, id);
      && NodeTableValid(r, nextId)
      && forall n :: n in r <==> n in nodes && n.id != id
  {
    var f := FindNode(nodes, id);
    if f.Some? {
      var i := f.value;
      assert DeleteById(nodes, id) == nodes[..i] + nodes[i + 1..];
      CutRowKeepsValid(nodes, nextId, i);
      CutRowMembers(nodes, i);
    } else {
      assert DeleteById(nodes, id) == nodes;
      assert forall n :: n in nodes ==> n.id != id;
    }
  }

  /** Row `k` of the table with row `i` cut out is row `k` or `k + 1` of the
      table. */
  lemma CutRowIndex(nodes: seq<Node>, i: nat)
    requires i < |nodes|
    ensures var r := nodes[..i] + nodes[i + 1..];
      && |r| == |nodes| - 1
      && (forall k :: 0 <= k < i ==> r[k] == nodes[k])
      && (forall k :: i <= k < |r| ==> r[k] == nodes[k + 1])
  {
  }

  lemma CutRowKeepsValid(nodes: seq<Node>, nextId: nat, i: nat)
    requires NodeTableValid(nodes, nextId) && i < |nodes|
    ensures NodeTableValid(nodes[..i] + nodes[i + 1..], nextId)
  {
    var r := nodes[..i] + nodes[i + 1..];
    CutRowIndex(nodes, i);
    forall a, b | 0 <= a < b < |r| ensures r[a].id < r[b].id && r[a].name != r[b].name {
      var a' := if a < i then a else a + 1;
      var b' := if b < i then b else b + 1;
      assert r[a] == nodes[a'] && r[b] == nodes[b'] && a' < b';
    }
    forall k | 0 <= k < |r| ensures 0 < r[k].id < nextId {
      assert r[k] == nodes[if k < i then k else k + 1];
    }
  }

  /** Cutting the only row with id `nodes[i].id` drops exactly that id. */
  lemma CutRowMembers(nodes: seq<Node>, i: nat)
    requires NodeIdsAscending(nodes) && i < |nodes|
    ensures forall n :: n in nodes[..i] + nodes[i + 1..] <==> n in nodes && n.id != nodes[i].id
  {
    var r := nodes[..i] + nodes[i + 1..];
    CutRowIndex(nodes, i);
    forall n ensures n in r <==> n in nodes && n.id != nodes[i].id {
      if n in r {
        var k :| 0 <= k < |r| && r[k] == n;
        var k' := if k < i then k else k + 1;
        assert n == nodes[k'] && k' != i;
      }
      if n in nodes && n.id != nodes[i].id {
        var k :| 0 <= k < |nodes| && nodes[k] == n;
        if k < i {
          assert r[k] == n;
        } else {
          assert k != i && r[k - 1] == n;
        }
      }
    }
  }

  /** Appending a node with the next id and a fresh name keeps the table
      valid. */
  lemma AppendNodeKeepsValid(nodes: seq<Node>, nextId: nat, n: Node)
    requires NodeTableValid(nodes, nextId)
    requires n.id == nextId && !HasName(nodes, n.name)
    ensures NodeTableValid(nodes + [n], nextId + 1)
  {
    var r := nodes + [n];
    forall i, j | 0 <= i < j < |r| ensures r[i].id < r[j].id && r[i].name != r[j].name {
      if j == |nodes| {
        assert r[i] == nodes[i] && r[j] == n;
      } else {
        assert r[i] == nodes[i] && r[j] == nodes[j];
      }
    }
  }

  /** Replacing a row by one with the same id and name keeps the table
      valid. */
  lemma ReplaceNodeKeepsValid(nodes: seq<Node>, nextId: nat, i: nat, n: Node)
    requires NodeTableValid(nodes, nextId) && i < |nodes|
    requires n.id == nodes[i].id && n.name == nodes[i].name
    ensures NodeTableValid(nodes[i := n], nextId)
  {
  }

  // ---------------------------------------------------------------------------
  // Subnet fields

  /** `ensureNodeSubnet` on the record: a row with both the CIDR and the host
      only has its legacy address field aligned to the host; otherwise the
      CIDR (or, failing that, the legacy address) is normalised and the three
      fields are set from it. */
  function EnsureNodeSubnet(addrs: AddrParser, n: Node, settings: Option<NetworkSetting>): (r: Result<Node, SubnetError>)
    ensures n.subnetHost != "" && n.subnetCIDR != "" ==> r == Success(n.(subnetIP := n.subnetHost))
    ensures r.Success? ==> r.value.subnetIP == r.value.subnetHost && r.value.subnetCIDR != ""
    ensures r.Success? ==>
      r.value == n.(subnetIP := r.value.subnetIP, subnetCIDR := r.value.subnetCIDR, subnetHost := r.value.subnetHost)
    ensures r.Failure? ==>
      NormalizeSubnetInput(addrs, if n.subnetCIDR != "" then n.subnetCIDR else n.subnetIP, settings) == Failure(r.error)
  {
    if n.subnetHost != "" && n.subnetCIDR != "" then Success(n.(subnetIP := n.subnetHost))
    else
      var base := if n.subnetCIDR != "" then n.subnetCIDR else n.subnetIP;
      match NormalizeSubnetInput(addrs, base, settings)
      case Failure(e) => Failure(e)
      case Success(a) => Success(n.(subnetCIDR := a.cidr, subnetHost := a.host, subnetIP := a.host))
  }

  /** Whether `ensureNodeSubnet` writes the three fields back to the store. */
  predicate SubnetRepaired(n: Node) {
    !(n.subnetHost != "" && n.subnetCIDR != "")
  }

  /** A repaired record is left alone by a second repair, whatever the
      settings are by then. */
  lemma EnsureNodeSubnetIdempotent(addrs: AddrParser, n: Node, settings: Option<NetworkSetting>, other: Option<NetworkSetting>)
    requires EnsureNodeSubnet(addrs, n, settings).Success?
    ensures var m := EnsureNodeSubnet(addrs, n, settings).value;
      EnsureNodeSubnet(addrs, m, other) == Success(m)
  {
    var m := EnsureNodeSubnet(addrs, n, settings).value;
    if SubnetRepaired(n) {
      var base := if n.subnetCIDR != "" then n.subnetCIDR else n.subnetIP;
      NormalizeIdempotent(addrs, base, settings, other);
    }
  }

  /** The tags column read back as a list; an empty column is no tags. */
  function DTOTags(tags: string): (r: seq<string>)
    ensures tags == "" <==> r == []
  {
    if tags != "" then Split(tags, ',') else []
  }

  /** Tags without commas survive the join at creation and the split on
      display, except the single empty tag, which reads back as none. */
  lemma TagsRoundTrip(tags: seq<string>)
    requires forall i :: 0 <= i < |tags| ==> ',' !in tags[i]
    ensures DTOTags(Join(tags, ",")) == (if tags == [""] then [] else tags)
  {
    JoinEmpty(tags, ",");
    if tags != [] && tags != [""] {
      SplitJoin(tags, ',');
    }
  }

  /** The CIDR and host a node is displayed with (`toNodeDTO`): the stored
      ones, with either missing one filled from normalising the CIDR or the
      legacy address without settings, then the host falling back to the
      legacy address and the CIDR to the host. */
  function DisplaySubnet(addrs: AddrParser, n: Node): (r: (string, string))
    ensures n.subnetCIDR != "" && n.subnetHost != "" ==> r == (n.subnetCIDR, n.subnetHost)
    ensures r.0 == "" <==> n.subnetCIDR == "" && n.subnetHost == "" && n.subnetIP == ""
  {
    var fallback := if n.subnetCIDR != "" then n.subnetCIDR else n.subnetIP;
    var filled :=
      if (n.subnetCIDR == "" || n.subnetHost == "") && fallback != "" then
        match NormalizeSubnetInput(addrs, fallback, None)
        case Success(a) =>
          (if n.subnetCIDR == "" then a.cidr else n.subnetCIDR, if n.subnetHost == "" then a.host else n.subnetHost)
        case Failure(_) => (n.subnetCIDR, n.subnetHost)
      else (n.subnetCIDR, n.subnetHost);
    var host := if filled.1 == "" then n.subnetIP else filled.1;
    var cidr := if filled.0 == "" then host else filled.0;
    (cidr, host)
  }

  /** A legacy row holding only an address that normalises is shown with the
      normalised CIDR and host. */
  lemma DisplayLegacyRow(addrs: AddrParser, n: Node)
    requires n.subnetCIDR == "" && n.subnetHost == ""
    requires NormalizeSubnetInput(addrs, n.subnetIP, None).Success?
    ensures var a := NormalizeSubnetInput(addrs, n.subnetIP, None).value;
      DisplaySubnet(addrs, n) == (a.cidr, if a.host == "" then n.subnetIP else a.host)
  {
  }

  function ToNodeDTO(addrs: AddrParser, apiBaseURL: string, staticToken: string, n: Node): (r: NodeDTO)
    ensures r.id == n.id && r.name == n.name && r.role == n.role && r.publicIP == n.publicIP && r.port == n.port
    ensures r.proxyMode == n.downloadProxyMode && r.tags == DTOTags(n.tags)
    ensures (r.subnetIP, r.subnetHost) == DisplaySubnet(addrs, n)
    ensures Contains(r.installCommand, InstallScriptURL(ApiBase(apiBaseURL), n.id))
  {
    var (cidr, host) := DisplaySubnet(addrs, n);
    NodeDTO(n.id, n.name, n.role, cidr, host, n.publicIP, n.port, DTOTags(n.tags), n.downloadProxyMode,
            InstallCommand(apiBaseURL, staticToken, n.id))
  }

  /** The rows of a listing, each as `toNodeDTO` shows it, in the same order. */
  function NodeDTOs(addrs: AddrParser, apiBaseURL: string, staticToken: string, rows: seq<Node>): (r: seq<NodeDTO>)
    ensures |r| == |rows|
  {
    if rows == [] then []
    else NodeDTOs(addrs, apiBaseURL, staticToken, rows[..|rows| - 1]) +
           [ToNodeDTO(addrs, apiBaseURL, staticToken, rows[|rows| - 1])]
  }

  /** A listing grows by one entry per row. */
  lemma NodeDTOsSnoc(addrs: AddrParser, apiBaseURL: string, staticToken: string, rows: seq<Node>, j: nat)
    requires j < |rows|
    ensures NodeDTOs(addrs, apiBaseURL, staticToken, rows[..j + 1]) ==
      NodeDTOs(addrs, apiBaseURL, staticToken, rows[..j]) + [ToNodeDTO(addrs, apiBaseURL, staticToken, rows[j])]
  {
    assert rows[..j + 1][..j] == rows[..j];
  }

  /** Entry `k` of a listing is row `k` as `toNodeDTO` shows it. */
  lemma {:induction false} NodeDTOsAt(addrs: AddrParser, apiBaseURL: string, staticToken: string, rows: seq<Node>, k: nat)
    requires k < |rows|
    ensures NodeDTOs(addrs, apiBaseURL, staticToken, rows)[k] == ToNodeDTO(addrs, apiBaseURL, staticToken, rows[k])
    decreases |rows|
  {
    var init := rows[..|rows| - 1];
    if k < |rows| - 1 {
      NodeDTOsAt(addrs, apiBaseURL, staticToken, init, k);
      assert init[k] == rows[k];
    }
  }

  /** Every entry of a listing, at once. */
  lemma NodeDTOsEach(addrs: AddrParser, apiBaseURL: string, staticToken: string, rows: seq<Node>)
    ensures var r := NodeDTOs(addrs, apiBaseURL, staticToken, rows);
      forall k :: 0 <= k < |r| ==> r[k] == ToNodeDTO(addrs, apiBaseURL, staticToken, rows[k])
  {
    forall k | 0 <= k < |rows|
      ensures NodeDTOs(addrs, apiBaseURL, staticToken, rows)[k] == ToNodeDTO(addrs, apiBaseURL, staticToken, rows[k])
    {
      NodeDTOsAt(addrs, apiBaseURL, staticToken, rows, k);
    }
  }

  // ---------------------------------------------------------------------------
  // Ports and validity

  /** The port of a lighthouse that has none stored. */
  function DefaultPortFor(st: NetworkSetting): (r: Int64)
    ensures r != 0
    ensures st.handshakePort != 0 ==> r == st.handshakePort
    ensures st.handshakePort == 0 ==> r == FallbackPort
  {
    if st.handshakePort != 0 then st.handshakePort else FallbackPort
  }

  /** The listen port a refresh settles on (and stores). */
  function ListenPortFor(port: Int64, st: NetworkSetting): (r: Int64)
    ensures r != 0
    ensures port != 0 ==> r == port
    ensures port == 0 ==> r == DefaultPortFor(st)
  {
    if port != 0 then port else DefaultPortFor(st)
  }

  /** The listen port creation stores: the requested one, or the settings'
      handshake port, which may itself be zero. */
  function CreatePort(port: Int64, st: NetworkSetting): (r: Int64)
    ensures port != 0 ==> r == port
    ensures port == 0 ==> r == st.handshakePort
  {
    if port == 0 then st.handshakePort else port
  }

  /** Creation and refresh agree on the port except when both the request and
      the settings leave it at zero: creation then stores zero and the next
      refresh stores 4242. */
  lemma CreateAndRefreshPorts(port: Int64, st: NetworkSetting)
    ensures ListenPortFor(CreatePort(port, st), st) == ListenPortFor(port, st)
    ensures CreatePort(port, st) == ListenPortFor(port, st) <==> port != 0 || st.handshakePort != 0
  {
  }

  /** The validity in days a refresh signs with. */
  function ValidityFor(st: NetworkSetting): (r: Int64)
    ensures r > 0
    ensures st.certificateValidity > 0 ==> r == st.certificateValidity
  {
    if st.certificateValidity > 0 then st.certificateValidity else FallbackValidityDays
  }

  /** Creation passes the stored validity as it is and refresh clamps it
      first, yet both ask the tool for the same duration. */
  lemma SameSigningDuration(st: NetworkSetting)
    ensures DurationDaysArg(ValidityFor(st)) == DurationDaysArg(st.certificateValidity)
  {
  }

  // ---------------------------------------------------------------------------
  // Lighthouses

  /** `host:port` for a lighthouse with a public address, nothing otherwise. */
  function PublicHost(publicIP: string, port: Int64): (r: string)
    ensures r == "" <==> publicIP == ""
  {
    if publicIP != "" then publicIP + ":" + IntToString(port) else ""
  }

  /** The address and the port can be read back from the public host by
      cutting at its last ':', even when the address is IPv6. */
  lemma PublicHostSplits(publicIP: string, port: Int64)
    requires publicIP != ""
    ensures var h := PublicHost(publicIP, port);
      && LastIndexOfChar(h, ':') == Some(|publicIP|)
      && h[..|publicIP|] == publicIP
      && Atoi(h[|publicIP| + 1..]) == Some(port)
  {
    var d := IntToString(port);
    assert ':' !in d by {
      forall i | 0 <= i < |d| ensures d[i] != ':' {
        if port < 0 && i > 0 {
          assert d[1..][i - 1] == d[i];
        }
      }
    }
    CutAtLastColon(publicIP, d);
    AtoiOfIntToString(port);
  }

  /** Cutting `a:d` at its last ':' when `d` holds none. */
  lemma CutAtLastColon(a: string, d: string)
    requires ':' !in d
    ensures var h := a + ":" + d;
      LastIndexOfChar(h, ':') == Some(|a|) && h[..|a|] == a && h[|a| + 1..] == d
  {
    var h := a + ":" + d;
    assert h == a + [':'] + d;
    LastIndexOfCharBefore(a, ':', d);
    assert h[..|a|] == a;
    assert h[|a| + 1..] == d;
  }

  function MakeLighthouse(name: string, publicIP: string, subnetIP: string, port: Int64): (l: Lighthouse)
    ensures l.publicHost == PublicHost(publicIP, port)
  {
    Lighthouse(name, publicIP, subnetIP, port, PublicHost(publicIP, port))
  }

  /** A stored lighthouse as the template sees it: its port or the default,
      its host or else its legacy address. */
  function LighthouseOf(n: Node, defaultPort: Int64): (l: Lighthouse)
    ensures l.name == n.name && l.publicIP == n.publicIP
    ensures l.port == (if n.port != 0 then n.port else defaultPort)
    ensures l.subnetIP == (if n.subnetHost != "" then n.subnetHost else n.subnetIP)
    ensures l.publicHost == "" <==> n.publicIP == ""
  {
    var port := if n.port == 0 then defaultPort else n.port;
    MakeLighthouse(n.name, n.publicIP, if n.subnetHost == "" then n.subnetIP else n.subnetHost, port)
  }

  /** `WHERE role = 'lighthouse'`, in table order. */
  function LighthouseRows(nodes: seq<Node>): (r: seq<Node>)
    ensures |r| <= |nodes|
    ensures forall n :: n in r <==> n in nodes && n.role == RoleLighthouse
  {
    if nodes == [] then []
    else (if nodes[0].role == RoleLighthouse then [nodes[0]] else []) + LighthouseRows(nodes[1..])
  }

  /** The query keeps table order: it distributes over concatenation. */
  lemma {:induction false} LighthouseRowsAppend(a: seq<Node>, b: seq<Node>)
    ensures LighthouseRows(a + b) == LighthouseRows(a) + LighthouseRows(b)
  {
    if a == [] {
      assert a + b == b;
    } else {
      assert (a + b)[1..] == a[1..] + b;
      LighthouseRowsAppend(a[1..], b);
    }
  }

  /** The template's `Lighthouses` list built from the store. */
  function LighthouseList(nodes: seq<Node>, defaultPort: Int64): (r: seq<Lighthouse>)
    ensures |r| == |LighthouseRows(nodes)|
    ensures forall k :: 0 <= k < |r| ==> r[k] == LighthouseOf(LighthouseRows(nodes)[k], defaultPort)
  {
    var rows := LighthouseRows(nodes);
    seq(|rows|, k requires 0 <= k < |rows| => LighthouseOf(rows[k], defaultPort))
  }

  /** A standard node never appears in the list, and a node turned into a
      lighthouse adds exactly its own entry at its place in table order. */
  lemma LighthouseListOfLast(nodes: seq<Node>, n: Node, defaultPort: Int64)
    ensures LighthouseList(nodes + [n], defaultPort) ==
      LighthouseList(nodes, defaultPort) + (if n.role == RoleLighthouse then [LighthouseOf(n, defaultPort)] else [])
  {
    LighthouseRowsAppend(nodes, [n]);
    assert [n][1..] == [];
    assert LighthouseRows([n]) == (if n.role == RoleLighthouse then [n] else []);
  }

  /** The data map a node's configuration is rendered from; the node goes by
      its name everywhere. */
  function NodeContext(name: string, subnetHost: string, subnetCIDR: string, publicIP: string,
                       port: Int64, isLighthouse: bool, ls: seq<Lighthouse>): (ctx: RenderContext)
    ensures ctx.certPath == CertFile(name) && ctx.keyPath == KeyFile(name) && ctx.caCertPath == CACertFile
    ensures ctx.deviceID == name && ctx.name == name && ctx.subnetIP == subnetHost && ctx.subnetCIDR == subnetCIDR
  {
    RenderContext(name, CACertFile, CertFile(name), KeyFile(name), subnetHost, subnetCIDR, publicIP, port,
                  isLighthouse, ls, name)
  }

  // ---------------------------------------------------------------------------
  // Creating a node

  /** The record a successful creation stores. */
  function NewNode(id: nat, req: CreateNodeRequest, sub: SubnetAssignment, port: Int64,
                   pair: CertPair, config: string): Node
  {
    Node(id, req.name, req.role, sub.host, sub.cidr, sub.host, req.publicIP, port, Join(req.tags, ","),
         NormalizeProxyMode(req.proxyMode), pair.certPEM, pair.keyPEM, config)
  }

  /** The insert of `n`: refused when the name is taken. */
  function InsertOutcome(nodes: seq<Node>, n: Node): (r: Result<Node, NodeError>)
    ensures r.Success? <==> !HasName(nodes, n.name)
    ensures r.Success? ==> r.value == n
  {
    if HasName(nodes, n.name) then Failure(NameTaken(n.name)) else Success(n)
  }

  /** The table after an insert that may not have happened. */
  function Inserted(nodes: seq<Node>, c: Result<Node, NodeError>): seq<Node> {
    if c.Success? then nodes + [c.value] else nodes
  }

  function NextIdAfter(nextId: nat, c: Result<Node, NodeError>): nat {
    if c.Success? then nextId + 1 else nextId
  }

  /** The files after an operation that writes a node's artifacts when it
      succeeds. */
  function FilesAfter(files: map<FilePath, FileEntry>, dataDir: string, c: Result<Node, NodeError>,
                      caCert: string): map<FilePath, FileEntry>
  {
    if c.Success? then files + ArtifactWrites(dataDir, c.value, caCert) else files
  }

  function ResultDTO(addrs: AddrParser, apiBaseURL: string, staticToken: string,
                     c: Result<Node, NodeError>): Result<NodeDTO, NodeError>
  {
    match c
    case Failure(e) => Failure(e)
    case Success(n) => Success(ToNodeDTO(addrs, apiBaseURL, staticToken, n))
  }

  function CACertOf(ca: Option<CA>): string {
    if ca.Some? then ca.value.certificatePEM else ""
  }

  /** The lighthouses a new node is rendered with: the stored ones, then the
      node itself when it is one. */
  function CreateLighthouses(existing: seq<Node>, st: NetworkSetting, req: CreateNodeRequest,
                             sub: SubnetAssignment, port: Int64): seq<Lighthouse>
  {
    LighthouseList(existing, DefaultPortFor(st)) +
      (if req.role == RoleLighthouse then [MakeLighthouse(req.name, req.publicIP, sub.host, port)] else [])
  }

  /** Creation, step by step: the role, the CA, the subnet, the certificate,
      the rendering and the unique name, the first failure winning. `ca` is
      what the CA store holds, `st` the settings row, `tmpDir` the signing
      step's temporary directory and `tplContent` the body of the default
      template. */
  function CreateOn(addrs: AddrParser, sign: Signer, engine: Renderer, req: CreateNodeRequest,
                    ca: Option<CA>, st: NetworkSetting, tmpDir: string, tplContent: string,
                    existing: seq<Node>, id: nat): (r: Result<Node, NodeError>)
    ensures !SupportedRole(req.role) ==> r == Failure(UnsupportedRole(req.role))
    ensures SupportedRole(req.role) && ca.None? ==> r == Failure(CANotGenerated)
    ensures SupportedRole(req.role) && ca.Some? && NormalizeSubnetInput(addrs, req.subnetIP, Some(st)).Failure? ==>
      r.Failure? && r.error.InvalidSubnet?
    ensures r.Success? ==> SupportedRole(req.role) && ca.Some? && !HasName(existing, req.name)
  {
    if !SupportedRole(req.role) then Failure(UnsupportedRole(req.role))
    else if ca.None? then Failure(CANotGenerated)
    else match NormalizeSubnetInput(addrs, req.subnetIP, Some(st))
      case Failure(e) => Failure(InvalidSubnet(e))
      case Success(sub) => IssueNew(sign, engine, req, ca.value, st, sub, tmpDir, tplContent, existing, id)
  }

  /** Creation once the subnet is assigned: sign, then render and insert. */
  function IssueNew(sign: Signer, engine: Renderer, req: CreateNodeRequest, ca: CA, st: NetworkSetting,
                    sub: SubnetAssignment, tmpDir: string, tplContent: string,
                    existing: seq<Node>, id: nat): (r: Result<Node, NodeError>)
    ensures r.Success? ==> !HasName(existing, req.name)
  {
    match NodeSignResult(sign, tmpDir, ca.certificatePEM, ca.privateKeyPEM, req.name, sub.cidr, st.certificateValidity)
    case Failure(e) => Failure(CertFailed(e))
    case Success(pair) => StoreNew(engine, req, st, sub, pair, tplContent, existing, id)
  }

  /** Creation once the certificate is signed: render with the stored
      lighthouses (and the new node when it is one), then the insert, which
      the unique name index may refuse. */
  function StoreNew(engine: Renderer, req: CreateNodeRequest, st: NetworkSetting, sub: SubnetAssignment,
                    pair: CertPair, tplContent: string, existing: seq<Node>, id: nat): (r: Result<Node, NodeError>)
    ensures r.Success? ==> !HasName(existing, req.name)
  {
    var port := CreatePort(req.port, st);
    var ls := CreateLighthouses(existing, st, req, sub, port);
    var ctx := NodeContext(req.name, sub.host, sub.cidr, req.publicIP, port, req.role == RoleLighthouse, ls);
    match engine(tplContent, ctx)
    case Failure(msg) => Failure(RenderFailed(msg))
    case Success(config) =>
      InsertOutcome(existing, NewNode(id, req, sub, port, pair, config))
  }

  /** What a created node holds: the next id, the request's name and role,
      the normalised subnet in all three fields' places, the port, the joined
      tags and the normalised proxy mode, with the certificate and the
      configuration the tool and the template produced. */
  lemma CreatedNode(addrs: AddrParser, sign: Signer, engine: Renderer, req: CreateNodeRequest,
                    ca: Option<CA>, st: NetworkSetting, tmpDir: string, tplContent: string,
                    existing: seq<Node>, id: nat)
    requires CreateOn(addrs, sign, engine, req, ca, st, tmpDir, tplContent, existing, id).Success?
    ensures var n := CreateOn(addrs, sign, engine, req, ca, st, tmpDir, tplContent, existing, id).value;
      var sub := NormalizeSubnetInput(addrs, req.subnetIP, Some(st));
      && sub.Success?
      && n.id == id && n.name == req.name && n.role == req.role && n.publicIP == req.publicIP
      && n.subnetCIDR == sub.value.cidr && n.subnetHost == sub.value.host && n.subnetIP == sub.value.host
      && n.port == CreatePort(req.port, st)
      && n.tags == Join(req.tags, ",")
      && n.downloadProxyMode in {ProxyModeIPv4, ProxyModeIPv6, ""}
      && NodeSignResult(sign, tmpDir, ca.value.certificatePEM, ca.value.privateKeyPEM, req.name, sub.value.cidr,
                        st.certificateValidity) == Success(CertPair(n.certificatePEM, n.privateKeyPEM))
      && engine(tplContent,
           NodeContext(req.name, sub.value.host, sub.value.cidr, req.publicIP, n.port, req.role == RoleLighthouse,
                       CreateLighthouses(existing, st, req, sub.value, n.port))) == Success(n.configContent)
  {
    var sub := NormalizeSubnetInput(addrs, req.subnetIP, Some(st));
    IssuedNode(sign, engine, req, ca.value, st, sub.value, tmpDir, tplContent, existing, id);
  }

  lemma IssuedNode(sign: Signer, engine: Renderer, req: CreateNodeRequest, ca: CA, st: NetworkSetting,
                   sub: SubnetAssignment, tmpDir: string, tplContent: string, existing: seq<Node>, id: nat)
    requires IssueNew(sign, engine, req, ca, st, sub, tmpDir, tplContent, existing, id).Success?
    ensures var n := IssueNew(sign, engine, req, ca, st, sub, tmpDir, tplContent, existing, id).value;
      && n.id == id && n.name == req.name && n.role == req.role && n.publicIP == req.publicIP
      && n.subnetCIDR == sub.cidr && n.subnetHost == sub.host && n.subnetIP == sub.host
      && n.port == CreatePort(req.port, st)
      && n.tags == Join(req.tags, ",")
      && n.downloadProxyMode in {ProxyModeIPv4, ProxyModeIPv6, ""}
      && NodeSignResult(sign, tmpDir, ca.certificatePEM, ca.privateKeyPEM, req.name, sub.cidr, st.certificateValidity)
           == Success(CertPair(n.certificatePEM, n.privateKeyPEM))
      && engine(tplContent,
           NodeContext(req.name, sub.host, sub.cidr, req.publicIP, n.port, req.role == RoleLighthouse,
                       CreateLighthouses(existing, st, req, sub, n.port))) == Success(n.configContent)
  {
  }

  /** A created node's subnet fields are already in the repaired form: a
      later refresh keeps them, whatever the settings are by then, and they
      are displayed as stored. */
  lemma CreatedSubnetIsStable(addrs: AddrParser, req: CreateNodeRequest, st: NetworkSetting, other: Option<NetworkSetting>,
                              n: Node)
    requires NormalizeSubnetInput(addrs, req.subnetIP, Some(st)).Success?
    requires var sub := NormalizeSubnetInput(addrs, req.subnetIP, Some(st)).value;
      n.subnetCIDR == sub.cidr && n.subnetHost == sub.host && n.subnetIP == sub.host
    ensures EnsureNodeSubnet(addrs, n, other) == Success(n)
    ensures DisplaySubnet(addrs, n) == (n.subnetCIDR, n.subnetHost)
  {
    NormalizeIdempotent(addrs, req.subnetIP, Some(st), other);
    NormalizeIdempotent(addrs, req.subnetIP, Some(st), None);
    var sub := NormalizeSubnetInput(addrs, req.subnetIP, Some(st)).value;
    assert |sub.host| < |sub.cidr|;
  }

  /** With the built-in default body and an engine that renders it as
      `RenderDefault` does, a created node's config lists every lighthouse
      under `hosts`, the node itself included when it is one, and names its
      tunnel device after the node. */
  lemma CreatedConfigLayout(addrs: AddrParser, sign: Signer, engine: Renderer, req: CreateNodeRequest,
                            ca: Option<CA>, st: NetworkSetting, tmpDir: string, existing: seq<Node>, id: nat)
    requires RendersDefaultBody(engine)
    requires CreateOn(addrs, sign, engine, req, ca, st, tmpDir, Templates.DefaultTemplateContent, existing, id).Success?
    ensures var n := CreateOn(addrs, sign, engine, req, ca, st, tmpDir, Templates.DefaultTemplateContent, existing, id).value;
      var sub := NormalizeSubnetInput(addrs, req.subnetIP, Some(st)).value;
      var ls := CreateLighthouses(existing, st, req, sub, n.port);
      && Contains(n.configContent, HostsKey + HostsBlock(ls) + ListenKey)
      && Contains(n.configContent, TunDevKey + ("nebula" + req.name) + "\n")
  {
    var tpl := Templates.DefaultTemplateContent;
    CreatedNode(addrs, sign, engine, req, ca, st, tmpDir, tpl, existing, id);
    var n := CreateOn(addrs, sign, engine, req, ca, st, tmpDir, tpl, existing, id).value;
    var sub := NormalizeSubnetInput(addrs, req.subnetIP, Some(st)).value;
    var ls := CreateLighthouses(existing, st, req, sub, n.port);
    var ctx := NodeContext(req.name, sub.host, sub.cidr, req.publicIP, n.port, req.role == RoleLighthouse, ls);
    assert engine(tpl, ctx) == Success(RenderDefault(ctx));
    assert n.configContent == RenderDefault(ctx);
    HostsInBody(ctx);
    DevLine(ctx);
  }

  // ---------------------------------------------------------------------------
  // Regenerating a node's artifacts

  /** The table after a regeneration, and its result. */
  datatype Regen = Regen(table: seq<Node>, result: Result<Node, NodeError>)

  /** The part of `regenerateNodeArtifacts` after the subnet repair, for the
      repaired record `n`: settle the port and the validity, sign, and render
      with the lighthouses of the table as stored by then. */
  function Reissue(sign: Signer, engine: Renderer, stored: seq<Node>, n: Node,
                   ca: CA, st: NetworkSetting, tmpDir: string, tplContent: string): (r: Result<Node, NodeError>)
    ensures r.Success? ==>
      r.value == n.(port := ListenPortFor(n.port, st), certificatePEM := r.value.certificatePEM,
                    privateKeyPEM := r.value.privateKeyPEM, configContent := r.value.configContent)
  {
    match NodeSignResult(sign, tmpDir, ca.certificatePEM, ca.privateKeyPEM, n.name, n.subnetCIDR, ValidityFor(st))
    case Failure(e) => Failure(CertFailed(e))
    case Success(pair) => Rerender(engine, stored, n.(port := ListenPortFor(n.port, st)), pair, st, tplContent)
  }

  /** The end of a regeneration: render record `n` (its port settled) with
      the lighthouses of the table as stored, and put in the new certificate
      and configuration. */
  function Rerender(engine: Renderer, stored: seq<Node>, n: Node, pair: CertPair, st: NetworkSetting,
                    tplContent: string): (r: Result<Node, NodeError>)
    ensures r.Success? ==>
      r.value == n.(certificatePEM := pair.certPEM, privateKeyPEM := pair.keyPEM, configContent := r.value.configContent)
  {
    var ls := LighthouseList(stored, DefaultPortFor(st));
    var ctx := NodeContext(n.name, n.subnetHost, n.subnetCIDR, n.publicIP, n.port, n.role == RoleLighthouse, ls);
    match engine(tplContent, ctx)
    case Failure(msg) => Failure(RenderFailed(msg))
    case Success(config) =>
      Success(n.(certificatePEM := pair.certPEM, privateKeyPEM := pair.keyPEM, configContent := config))
  }

  /** `regenerateNodeArtifacts` for row `i`: repair the subnet (a repair is
      written back at once), reissue, and save the whole record. A failure
      after the repair leaves the repair in place. */
  function RegenerateOn(addrs: AddrParser, sign: Signer, engine: Renderer, table: seq<Node>, i: nat,
                        ca: CA, st: NetworkSetting, tmpDir: string, tplContent: string): (r: Regen)
    requires i < |table|
  {
    match EnsureNodeSubnet(addrs, table[i], Some(st))
    case Failure(e) => Regen(table, Failure(InvalidSubnet(e)))
    case Success(n1) =>
      var stored := if SubnetRepaired(table[i]) then table[i := n1] else table;
      Saved(stored, i, Reissue(sign, engine, stored, n1, ca, st, tmpDir, tplContent))
  }

  /** `db.Save` of the reissued record, when there is one. */
  function Saved(stored: seq<Node>, i: nat, res: Result<Node, NodeError>): Regen
    requires i < |stored|
  {
    if res.Success? then Regen(stored[i := res.value], res) else Regen(stored, res)
  }

  /** Only row `i` can change: to the saved record on success, to the repaired
      one when a later step fails, not at all when the repair fails. */
  lemma RegenerateTable(addrs: AddrParser, sign: Signer, engine: Renderer, table: seq<Node>, i: nat,
                        ca: CA, st: NetworkSetting, tmpDir: string, tplContent: string)
    requires i < |table|
    ensures var r := RegenerateOn(addrs, sign, engine, table, i, ca, st, tmpDir, tplContent);
      && |r.table| == |table|
      && (r.result.Success? ==> r.table == table[i := r.result.value])
      && (r.result.Failure? && r.table != table ==>
            SubnetRepaired(table[i]) && r.table == table[i := EnsureNodeSubnet(addrs, table[i], Some(st)).value])
  {
    var fixed := EnsureNodeSubnet(addrs, table[i], Some(st));
    if fixed.Success? {
      var stored := if SubnetRepaired(table[i]) then table[i := fixed.value] else table;
      var res := Reissue(sign, engine, stored, fixed.value, ca, st, tmpDir, tplContent);
      if res.Success? {
        assert stored[i := res.value] == table[i := res.value];
      }
    }
  }

  /** A regenerated record keeps its id, name, role, public address, tags
      and proxy mode; it has a non-zero port, the repaired subnet, and the
      certificate and configuration just produced. */
  lemma RegeneratedNode(addrs: AddrParser, sign: Signer, engine: Renderer, table: seq<Node>, i: nat,
                        ca: CA, st: NetworkSetting, tmpDir: string, tplContent: string)
    requires i < |table|
    requires RegenerateOn(addrs, sign, engine, table, i, ca, st, tmpDir, tplContent).result.Success?
    ensures var n := table[i];
      var m := RegenerateOn(addrs, sign, engine, table, i, ca, st, tmpDir, tplContent).result.value;
      var fixed := EnsureNodeSubnet(addrs, n, Some(st));
      && fixed.Success?
      && m.id == n.id && m.name == n.name && m.role == n.role && m.publicIP == n.publicIP
      && m.tags == n.tags && m.downloadProxyMode == n.downloadProxyMode
      && m.port == ListenPortFor(n.port, st) && m.port != 0
      && m.subnetCIDR == fixed.value.subnetCIDR && m.subnetHost == fixed.value.subnetHost && m.subnetIP == m.subnetHost
      && NodeSignResult(sign, tmpDir, ca.certificatePEM, ca.privateKeyPEM, n.name, m.subnetCIDR, ValidityFor(st))
           == Success(CertPair(m.certificatePEM, m.privateKeyPEM))
  {
  }

  /** A regeneration keeps the table's ids and names, whatever the outcome. */
  lemma RegenerateKeepsValid(addrs: AddrParser, sign: Signer, engine: Renderer, table: seq<Node>, nextId: nat, i: nat,
                             ca: CA, st: NetworkSetting, tmpDir: string, tplContent: string)
    requires i < |table| && NodeTableValid(table, nextId)
    ensures NodeTableValid(RegenerateOn(addrs, sign, engine, table, i, ca, st, tmpDir, tplContent).table, nextId)
  {
    var fixed := EnsureNodeSubnet(addrs, table[i], Some(st));
    if fixed.Success? {
      var n1 := fixed.value;
      ReplaceNodeKeepsValid(table, nextId, i, n1);
      var stored := if SubnetRepaired(table[i]) then table[i := n1] else table;
      var res := Reissue(sign, engine, stored, n1, ca, st, tmpDir, tplContent);
      if res.Success? {
        ReplaceNodeKeepsValid(stored, nextId, i, res.value);
      }
    }
  }

  /** `refreshNode`: look the row up, require a CA, then regenerate it. */
  function RefreshOn(addrs: AddrParser, sign: Signer, engine: Renderer, table: seq<Node>, id: nat,
                     ca: Option<CA>, st: NetworkSetting, tmpDir: string, tplContent: string): (r: Regen)
  {
    match FindNode(table, id)
    case None => Regen(table, Failure(NodeNotFound(id)))
    case Some(i) =>
      if ca.None? then Regen(table, Failure(NoCAPresent))
      else RegenerateOn(addrs, sign, engine, table, i, ca.value, st, tmpDir, tplContent)
  }

  /** A refresh keeps the table valid; it changes nothing when the id is
      unknown or there is no CA; when it succeeds it returns the row with that
      id under its old name and stores it in that row's place. */
  lemma RefreshOutcome(addrs: AddrParser, sign: Signer, engine: Renderer, table: seq<Node>, nextId: nat, id: nat,
                       ca: Option<CA>, st: NetworkSetting, tmpDir: string, tplContent: string)
    requires NodeTableValid(table, nextId)
    ensures var r := RefreshOn(addrs, sign, engine, table, id, ca, st, tmpDir, tplContent);
      && NodeTableValid(r.table, nextId)
      && (Lookup(table, id).Failure? ==> r == Regen(table, Failure(NodeNotFound(id))))
      && (Lookup(table, id).Success? && ca.None? ==> r == Regen(table, Failure(NoCAPresent)))
      && (r.result.Success? ==>
            && Lookup(table, id).Success? && ca.Some?
            && r.result.value.id == id && r.result.value.name == Lookup(table, id).value.name
            && r.table == table[FindNode(table, id).value := r.result.value])
  {
    var f := FindNode(table, id);
    if f.Some? && ca.Some? {
      var i := f.value;
      RegenerateKeepsValid(addrs, sign, engine, table, nextId, i, ca.value, st, tmpDir, tplContent);
      RegenerateTable(addrs, sign, engine, table, i, ca.value, st, tmpDir, tplContent);
      var g := RegenerateOn(addrs, sign, engine, table, i, ca.value, st, tmpDir, tplContent);
      if g.result.Success? {
        assert g.table[i] == g.result.value;
        assert g.table[i].id == id && g.table[i].name == table[i].name by {
          RegeneratedNode(addrs, sign, engine, table, i, ca.value, st, tmpDir, tplContent);
        }
      }
    }
  }

  /** Deleting the node just created gives back the table it was added to. */
  lemma DeleteCreated(nodes: seq<Node>, nextId: nat, n: Node)
    requires NodeTableValid(nodes, nextId) && n.id == nextId
    ensures DeleteById(nodes + [n], n.id) == nodes
  {
    var t := nodes + [n];
    assert t[|t| - 1] == n;
    assert FindNode(t, n.id) == Some(|nodes|);
    assert t[..|nodes|] == nodes;
  }

  /** Deleting a node's directory takes away every artifact file written for
      it, and nothing else written since. */
  lemma RemoveWrittenArtifacts(files: map<FilePath, FileEntry>, dataDir: string, n: Node, caCert: string)
    ensures RemoveTree(files + ArtifactWrites(dataDir, n, caCert), NodeDir(dataDir, n.name)) ==
      RemoveTree(files, NodeDir(dataDir, n.name))
  {
    RemoveWritten(files, ArtifactWrites(dataDir, n, caCert), NodeDir(dataDir, n.name));
  }

  lemma RemoveWritten(files: map<FilePath, FileEntry>, w: map<FilePath, FileEntry>, dir: string)
    requires forall p :: p in w ==> p.dir == dir
    ensures RemoveTree(files + w, dir) == RemoveTree(files, dir)
  {
    var a := RemoveTree(files + w, dir);
    var b := RemoveTree(files, dir);
    forall p | p in a ensures p in b && a[p] == b[p] {
      assert p !in w;
    }
  }

  /** A second regeneration finds nothing to repair and keeps the port: only
      the certificate and the configuration can change. */
  lemma RegenerateTwice(addrs: AddrParser, sign: Signer, engine: Renderer, table: seq<Node>, i: nat,
                        ca: CA, st: NetworkSetting, tmpDir: string, tplContent: string, st2: NetworkSetting)
    requires i < |table|
    requires RegenerateOn(addrs, sign, engine, table, i, ca, st, tmpDir, tplContent).result.Success?
    ensures var m := RegenerateOn(addrs, sign, engine, table, i, ca, st, tmpDir, tplContent).result.value;
      EnsureNodeSubnet(addrs, m, Some(st2)) == Success(m) && ListenPortFor(m.port, st2) == m.port
  {
    RegeneratedNode(addrs, sign, engine, table, i, ca, st, tmpDir, tplContent);
    var m := RegenerateOn(addrs, sign, engine, table, i, ca, st, tmpDir, tplContent).result.value;
    var fixed := EnsureNodeSubnet(addrs, table[i], Some(st)).value;
    EnsureNodeSubnetIdempotent(addrs, table[i], Some(st), Some(st2));
    assert m == fixed.(port := m.port, certificatePEM := m.certificatePEM, privateKeyPEM := m.privateKeyPEM,
                       configContent := m.configContent);
  }

  // ---------------------------------------------------------------------------
  // Artifact files

  datatype FilePath = FilePath(dir: string, file: string)
  datatype FileEntry = FileEntry(content: string, mode: int)

  /** `filepath.Join(dataDir, "nodes", name)`. */
  function NodeDir(dataDir: string, name: string): string {
    dataDir + "/nodes/" + name
  }

  /** The files of `fs` written into `dir`, owner-only. */
  function Writes(dir: string, af: map<string, string>, fs: set<string>): (w: map<FilePath, FileEntry>)
    requires fs <= af.Keys
    ensures forall p :: p in w <==> p.dir == dir && p.file in fs
  {
    map f | f in fs :: FilePath(dir, f) := FileEntry(af[f], ModeOwnerRW)
  }

  /** The four artifact files of a node (three when it is named "ca"). */
  function ArtifactWrites(dataDir: string, n: Node, caCert: string): map<FilePath, FileEntry> {
    var af := ArtifactFiles(n.name, caCert, n.certificatePEM, n.privateKeyPEM, n.configContent);
    Writes(NodeDir(dataDir, n.name), af, af.Keys)
  }

  /** A path at or below the directory. */
  predicate InTree(p: FilePath, dir: string) {
    p.dir == dir || dir + "/" <= p.dir
  }

  /** `os.RemoveAll(dir)`. */
  function RemoveTree(files: map<FilePath, FileEntry>, dir: string): (r: map<FilePath, FileEntry>)
    ensures forall p :: p in r <==> p in files && !InTree(p, dir)
    ensures forall p :: p in r ==> r[p] == files[p]
  {
    map p | p in files && !InTree(p, dir) :: files[p]
  }

  /** Removing one node's directory leaves every other node's files, as long
      as node names hold no '/'. */
  lemma RemoveTreeSparesOthers(dataDir: string, a: string, b: string, p: FilePath)
    requires a != b && '/' !in a && '/' !in b
    requires InTree(p, NodeDir(dataDir, b))
    ensures !InTree(p, NodeDir(dataDir, a))
  {
    var front := dataDir + "/nodes/";
    if InTree(p, NodeDir(dataDir, a)) {
      PathsOfTwoNames(front, a, b, p.dir);
    }
  }

  /** Two names without '/' whose directories both contain `d` (or are it)
      are equal. */
  lemma PathsOfTwoNames(front: string, a: string, b: string, d: string)
    requires '/' !in a && '/' !in b
    requires d == front + a || front + a + "/" <= d
    requires d == front + b || front + b + "/" <= d
    ensures a == b
  {
    var k := |front|;
    // `d` after the front starts with each name followed by '/' or the end.
    assert front <= d;
    EndOfName(front, a, d);
    EndOfName(front, b, d);
    if |a| == |b| {
      assert a == d[k..k + |a|] == b;
    }
  }

  /** A directory name followed by the end of the path or a '/'. */
  lemma EndOfName(front: string, a: string, d: string)
    requires d == front + a || front + a + "/" <= d
    ensures |front| + |a| <= |d| && d[|front|..|front| + |a|] == a
    ensures |front| + |a| == |d| || d[|front| + |a|] == '/'
  {
    if d != front + a {
      assert d[..|front| + |a| + 1] == front + a + "/";
    }
  }
}
