/** The node service: the node table, the artifact files under the data
    directory, and the operations the API exposes. Every operation is proved
    against the specification functions of `NodeRecords`; the services it
    calls (CA store, templates, settings, signing tool) are the classes of
    their own modules. */
module Nodes {
  import opened Wrappers
  import opened Numbers
  import opened Text
  import opened Models
  import opened Subnet
  import opened Certs
  import opened Render
  import opened Templates
  import opened Settings
  import opened CAStore
  import opened NodeText
  import opened NodeRecords
  import opened Writers

  /** The settings a read hands back: the stored row, or the one the first
      read creates. */
  function SettingOf(row: Option<NetworkSetting>): (s: NetworkSetting)
    ensures row.Some? ==> s == row.value
    ensures row.None? ==> s == InitialSetting()
  {
    if row.Some? then row.value else InitialSetting()
  }

  /** `ORDER BY created_at DESC`: rows are created in id order, so this is
      the table backwards. */
  function NewestFirst(nodes: seq<Node>): (r: seq<Node>)
    ensures |r| == |nodes|
    ensures forall k :: 0 <= k < |r| ==> r[k] == nodes[|nodes| - 1 - k]
  {
    seq(|nodes|, k requires 0 <= k < |nodes| => nodes[|nodes| - 1 - k])
  }

  /** In a valid table the newest-first listing has strictly falling ids. */
  lemma NewestFirstDescends(nodes: seq<Node>)
    requires NodeIdsAscending(nodes)
    ensures var r := NewestFirst(nodes);
      forall a, b :: 0 <= a < b < |r| ==> r[a].id > r[b].id
  {
    var r := NewestFirst(nodes);
    forall a, b | 0 <= a < b < |r| ensures r[a].id > r[b].id {
      assert r[a] == nodes[|nodes| - 1 - a] && r[b] == nodes[|nodes| - 1 - b];
    }
  }

  /** The listing of a valid table shows strictly falling ids. */
  lemma ListingDescends(addrs: AddrParser, apiBaseURL: string, staticToken: string, nodes: seq<Node>)
    requires NodeIdsAscending(nodes)
    ensures var r := NodeDTOs(addrs, apiBaseURL, staticToken, NewestFirst(nodes));
      forall a, b :: 0 <= a < b < |r| ==> r[a].id > r[b].id
  {
    var rows := NewestFirst(nodes);
    var r := NodeDTOs(addrs, apiBaseURL, staticToken, rows);
    NewestFirstDescends(nodes);
    NodeDTOsEach(addrs, apiBaseURL, staticToken, rows);
    forall a, b | 0 <= a < b < |r| ensures r[a].id > r[b].id {
      assert r[a].id == rows[a].id && r[b].id == rows[b].id;
    }
  }

  /** What the node service's operations read and change in the settings
      store, the signing tool and the template store. */
  datatype PeerState = PeerState(calls: seq<seq<string>>, serial: nat,
                                 templateRows: seq<ConfigTemplate>, templateNextId: nat)

  class NodeService {
    const cas: CAService
    const templates: TemplateService
    const settings: SettingsService
    const tool: CertTool
    const addrs: AddrParser
    const engine: Renderer
    const dataDir: string
    const apiBaseURL: string
    const nebulaVersion: string
    /** Kept with its trailing '/' characters removed. */
    const nebulaBaseURL: string
    const nebulaProxyPref: string
    const staticToken: string

    var nodes: seq<Node>
    var nextId: nat
    var files: map<FilePath, FileEntry>

    ghost predicate Valid()
      reads this, cas, templates
    {
      NodeTableValid(nodes, nextId) && cas.Valid() && templates.Valid()
    }

    constructor(cas: CAService, templates: TemplateService, settings: SettingsService, tool: CertTool,
                addrs: AddrParser, engine: Renderer, dataDir: string, apiBaseURL: string, nebulaVersion: string,
                nebulaBaseURL: string, nebulaProxyPref: string, staticToken: string)
      requires cas.Valid() && templates.Valid()
      ensures Valid()
      ensures this.cas == cas && this.templates == templates && this.settings == settings && this.tool == tool
      ensures this.addrs == addrs && this.engine == engine && this.dataDir == dataDir
      ensures this.apiBaseURL == apiBaseURL && this.nebulaVersion == nebulaVersion
      ensures this.nebulaBaseURL == TrimRightChar(nebulaBaseURL, '/')
      ensures this.nebulaProxyPref == nebulaProxyPref && this.staticToken == staticToken
      ensures nodes == [] && nextId == 1 && files == map[]
    {
      this.cas := cas;
      this.templates := templates;
      this.settings := settings;
      this.tool := tool;
      this.addrs := addrs;
      this.engine := engine;
      this.dataDir := dataDir;
      this.apiBaseURL := apiBaseURL;
      this.nebulaVersion := nebulaVersion;
      this.nebulaBaseURL := TrimRightChar(nebulaBaseURL, '/');
      this.nebulaProxyPref := nebulaProxyPref;
      this.staticToken := staticToken;
      nodes := [];
      nextId := 1;
      files := map[];
    }

    /** The state of the other services an operation of this one touches. */
    ghost function Peers(): PeerState
      reads tool, templates
    {
      PeerState(tool.calls, tool.serial, templates.rows, templates.nextId)
    }

    /** What an operation that may run the signing step and then ensure the
        default template does to those services, from state `before` to
        state `after`: the tool is run (and a temporary directory taken when
        the CA passes the format check) once signing is reached; the default
        template is ensured once signing succeeds. */
    ghost predicate EffectsBetween(before: PeerState, after: PeerState, reach: bool, caCert: string, caKey: string,
                                   name: string, ip: string, days: Int64)
      requires templates.bodies.current != templates.bodies.legacy
    {
      var tmpDir := tool.TempDir("nebula-node-", before.serial);
      var signed := reach && NodeSignResult(tool.sign, tmpDir, caCert, caKey, name, ip, days).Success?;
      var ensured := EnsureDefaultOn(templates.bodies, before.templateRows, before.templateNextId);
      && after.calls == before.calls + (if reach then NodeSignCalls(tool.sign, tmpDir, caCert, caKey, name, ip, days) else [])
      && after.serial == before.serial + (if reach && CAGate(caCert, caKey).None? then 1 else 0)
      && after.templateRows == (if signed then ensured.rows else before.templateRows)
      && after.templateNextId == (if signed then ensured.nextId else before.templateNextId)
    }

    /** The body of the default template as `EnsureDefault` would hand it out
        in state `p`. */
    function DefaultBody(p: PeerState): string
      requires templates.bodies.current != templates.bodies.legacy
    {
      EnsureDefaultOn(templates.bodies, p.templateRows, p.templateNextId).template.content
    }

    /** What `refreshNode` would make of the table and the node now. */
    ghost function RefreshPlan(id: nat): Regen
      reads this, settings, tool, templates, cas
      requires templates.bodies.current != templates.bodies.legacy
    {
      RefreshOn(addrs, tool.sign, engine, nodes, id, FirstCA(cas.cas), SettingOf(settings.row),
                tool.TempDir("nebula-node-", tool.serial), DefaultBody(Peers()))
    }

    /** What `refreshNode` does to the other services, for a table `table`, a
        CA `ca` and the settings row and services going from `row0`, `before`
        to `row1`, `after`: nothing unless the row and the CA exist; then the
        settings are read, and the signing step (and the default template)
        run once the subnet repair succeeds. */
    ghost predicate RefreshEffects(id: nat, table: seq<Node>, ca: Option<CA>, row0: Option<NetworkSetting>,
                                   before: PeerState, row1: Option<NetworkSetting>, after: PeerState)
      requires templates.bodies.current != templates.bodies.legacy
    {
      var i := FindNode(table, id);
      var st := SettingOf(row0);
      if i.Some? && ca.Some? then
        && row1 == Some(st)
        && var fixed := EnsureNodeSubnet(addrs, table[i.value], Some(st));
           if fixed.Success? then
             EffectsBetween(before, after, true, ca.value.certificatePEM, ca.value.privateKeyPEM, table[i.value].name,
                            fixed.value.subnetCIDR, ValidityFor(st))
           else after == before
      else row1 == row0 && after == before
    }

    /** The parameters the install script of node `n` is written with. */
    function ScriptParamsFor(n: Node): ScriptParams {
      ScriptParams(ApiBase(apiBaseURL), n.id, n.name, NebulaVersion(nebulaVersion), BaseURL(nebulaBaseURL, DefaultNebulaBase),
                   ProxyPrefixForNode(n.downloadProxyMode, nebulaProxyPref), staticToken)
    }

    // -------------------------------------------------------------------------
    // Listing

    /** `List`: every row, newest first, as `toNodeDTO` shows it. */
    method List() returns (r: seq<NodeDTO>)
      ensures r == NodeDTOs(addrs, apiBaseURL, staticToken, NewestFirst(nodes))
      ensures NodeIdsAscending(nodes) ==> forall a, b :: 0 <= a < b < |r| ==> r[a].id > r[b].id
    {
      var rows := NewestFirst(nodes);
      r := [];
      var j := 0;
      while j < |rows|
        invariant 0 <= j <= |rows|
        invariant r == NodeDTOs(addrs, apiBaseURL, staticToken, rows[..j])
      {
        NodeDTOsSnoc(addrs, apiBaseURL, staticToken, rows, j);
        r := r + [ToNodeDTO(addrs, apiBaseURL, staticToken, rows[j])];
        j := j + 1;
      }
      assert rows[..j] == rows;
      if NodeIdsAscending(nodes) {
        ListingDescends(addrs, apiBaseURL, staticToken, nodes);
      }
    }

    /** `listLighthouseNodes`: the lighthouse rows as the template sees them,
        with the settings' handshake port (or 4242) for a row without one. */
    method ListLighthouseNodes() returns (ls: seq<Lighthouse>)
      modifies settings
      ensures settings.row == Some(SettingOf(old(settings.row)))
      ensures ls == LighthouseList(nodes, DefaultPortFor(SettingOf(old(settings.row))))
    {
      var rows := LighthouseRows(nodes);
      var st := settings.Get();
      var defaultPort := FallbackPort;
      if st.handshakePort != 0 {
        defaultPort := st.handshakePort;
      }
      ls := [];
      var j := 0;
      while j < |rows|
        invariant 0 <= j <= |rows|
        invariant |ls| == j
        invariant forall k :: 0 <= k < j ==> ls[k] == LighthouseOf(rows[k], defaultPort)
      {
        var n := rows[j];
        var port := n.port;
        if port == 0 {
          port := defaultPort;
        }
        var subnetHost := n.subnetHost;
        if subnetHost == "" {
          subnetHost := n.subnetIP;
        }
        var publicHost := "";
        if n.publicIP != "" {
          publicHost := n.publicIP + ":" + IntToString(port);
        }
        ls := ls + [Lighthouse(n.name, n.publicIP, subnetHost, port, publicHost)];
        j := j + 1;
      }
    }

    // -------------------------------------------------------------------------
    // Artifact files

    /** `writeArtifacts`: every file of the node's artifact map is written
        into the node's directory, owner-only, in whatever order the map is
        walked. */
    method WriteArtifacts(node: Node, caCert: string)
      modifies this
      ensures files == old(files) + ArtifactWrites(dataDir, node, caCert)
      ensures nodes == old(nodes) && nextId == old(nextId)
    {
      var dir := NodeDir(dataDir, node.name);
      var af := ArtifactFiles(node.name, caCert, node.certificatePEM, node.privateKeyPEM, node.configContent);
      var todo := af.Keys;
      ghost var done: set<string> := {};
      while todo != {}
        invariant todo + done == af.Keys && todo !! done
        invariant files == old(files) + Writes(dir, af, done)
        invariant nodes == old(nodes) && nextId == old(nextId)
        decreases todo
      {
        var name :| name in todo;
        WritesGrow(old(files), dir, af, done, name);
        files := files[FilePath(dir, name) := FileEntry(af[name], ModeOwnerRW)];
        todo := todo - {name};
        done := done + {name};
      }
    }

    // -------------------------------------------------------------------------
    // Creating and deleting

    method Create(req: CreateNodeRequest) returns (r: Result<NodeDTO, NodeError>)
      requires Valid()
      modifies this, settings, templates, tool
      ensures Valid()
      ensures var c := CreateOn(addrs, tool.sign, engine, req, FirstCA(cas.cas), SettingOf(old(settings.row)),
                                tool.TempDir("nebula-node-", old(tool.serial)), DefaultBody(old(Peers())), old(nodes), old(nextId));
        && r == ResultDTO(addrs, apiBaseURL, staticToken, c)
        && nodes == Inserted(old(nodes), c) && nextId == NextIdAfter(old(nextId), c)
        && files == FilesAfter(old(files), dataDir, c, CACertOf(FirstCA(cas.cas)))
      ensures var readSettings := SupportedRole(req.role) && FirstCA(cas.cas).Some?;
        settings.row == if readSettings then Some(SettingOf(old(settings.row))) else old(settings.row)
      ensures var st := SettingOf(old(settings.row));
        var ca := FirstCA(cas.cas);
        var sub := NormalizeSubnetInput(addrs, req.subnetIP, Some(st));
        if SupportedRole(req.role) && ca.Some? && sub.Success? then
          EffectsBetween(old(Peers()), Peers(), true, ca.value.certificatePEM, ca.value.privateKeyPEM, req.name, sub.value.cidr,
                       st.certificateValidity)
        else Peers() == old(Peers())
    {
      ghost var before := Peers();
      ghost var c := CreateOn(addrs, tool.sign, engine, req, FirstCA(cas.cas), SettingOf(settings.row),
                              tool.TempDir("nebula-node-", tool.serial), DefaultBody(before), nodes, nextId);
      if !SupportedRole(req.role) {
        assert c == Failure(UnsupportedRole(req.role));
        return Failure(UnsupportedRole(req.role));
      }
      var ca := cas.GetCA();
      if ca.None? {
        assert c == Failure(CANotGenerated);
        return Failure(CANotGenerated);
      }
      var st := settings.Get();
      assert Peers() == before;
      var sub := NormalizeSubnetInput(addrs, req.subnetIP, Some(st));
      if sub.Failure? {
        assert c == Failure(InvalidSubnet(sub.error));
        return Failure(InvalidSubnet(sub.error));
      }
      assert c == IssueNew(tool.sign, engine, req, ca.value, st, sub.value, tool.TempDir("nebula-node-", tool.serial),
                           DefaultBody(Peers()), nodes, nextId);
      r := CreateSigned(req, ca.value, st, sub.value);
    }

    /** Creation from the signing step on. */
    method CreateSigned(req: CreateNodeRequest, ca: CA, st: NetworkSetting, sub: SubnetAssignment)
      returns (r: Result<NodeDTO, NodeError>)
      requires Valid() && settings.row == Some(st)
      modifies this, settings, templates, tool
      ensures Valid() && settings.row == old(settings.row)
      ensures var c := IssueNew(tool.sign, engine, req, ca, st, sub, tool.TempDir("nebula-node-", old(tool.serial)),
                                DefaultBody(old(Peers())), old(nodes), old(nextId));
        && r == ResultDTO(addrs, apiBaseURL, staticToken, c)
        && nodes == Inserted(old(nodes), c) && nextId == NextIdAfter(old(nextId), c)
        && files == FilesAfter(old(files), dataDir, c, ca.certificatePEM)
      ensures EffectsBetween(old(Peers()), Peers(), true, ca.certificatePEM, ca.privateKeyPEM, req.name, sub.cidr, st.certificateValidity)
    {
      var listenPort := req.port;
      if listenPort == 0 {
        listenPort := st.handshakePort;
      }
      var validity := st.certificateValidity;
      var signed := tool.GenerateNodeCertificate(ca.certificatePEM, ca.privateKeyPEM, req.name, sub.cidr, validity);
      if signed.Failure? {
        return Failure(CertFailed(signed.error));
      }
      r := StoreNewNode(req, ca.certificatePEM, st, sub, signed.value);
    }

    /** The lighthouses a new node is rendered with: the stored ones, then
        the node itself when it is one. */
    method CollectLighthouses(req: CreateNodeRequest, sub: SubnetAssignment, st: NetworkSetting, listenPort: Int64)
      returns (ls: seq<Lighthouse>)
      requires settings.row == Some(st)
      modifies settings
      ensures settings.row == old(settings.row)
      ensures ls == CreateLighthouses(nodes, st, req, sub, listenPort)
    {
      ls := ListLighthouseNodes();
      if req.role == RoleLighthouse {
        var publicHost := "";
        if req.publicIP != "" {
          publicHost := req.publicIP + ":" + IntToString(listenPort);
        }
        ls := ls + [Lighthouse(req.name, req.publicIP, sub.host, listenPort, publicHost)];
      }
    }

    /** Creation from the rendering on: ensure the default template, collect
        the lighthouses, render, insert, write the files. */
    method StoreNewNode(req: CreateNodeRequest, caCert: string, st: NetworkSetting, sub: SubnetAssignment,
                        pair: CertPair) returns (r: Result<NodeDTO, NodeError>)
      requires Valid() && settings.row == Some(st)
      modifies this, settings, templates
      ensures Valid() && settings.row == old(settings.row)
      ensures var e := EnsureDefaultOn(templates.bodies, old(templates.rows), old(templates.nextId));
        templates.rows == e.rows && templates.nextId == e.nextId
      ensures var c := StoreNew(engine, req, st, sub, pair, DefaultBody(old(Peers())), old(nodes), old(nextId));
        && r == ResultDTO(addrs, apiBaseURL, staticToken, c)
        && nodes == Inserted(old(nodes), c) && nextId == NextIdAfter(old(nextId), c)
        && files == FilesAfter(old(files), dataDir, c, caCert)
    {
      ghost var c := StoreNew(engine, req, st, sub, pair, DefaultBody(Peers()), nodes, nextId);
      var listenPort := req.port;
      if listenPort == 0 {
        listenPort := st.handshakePort;
      }
      var proxyMode := NormalizeProxyMode(req.proxyMode);
      var rendered := RenderNewConfig(req, st, sub, listenPort);
      if rendered.Failure? {
        assert c == Failure(RenderFailed(rendered.error));
        return Failure(RenderFailed(rendered.error));
      }
      var node := Node(nextId, req.name, req.role, sub.host, sub.cidr, sub.host, req.publicIP,
                       listenPort, Join(req.tags, ","), proxyMode, pair.certPEM, pair.keyPEM, rendered.value);
      assert c == InsertOutcome(nodes, node);
      r := InsertNode(node, caCert);
    }

    /** The insert of a new row, which the unique index on the name may
        refuse, and on success the node's files. */
    method InsertNode(node: Node, caCert: string) returns (r: Result<NodeDTO, NodeError>)
      requires Valid() && node.id == nextId
      modifies this
      ensures Valid()
      ensures var c := InsertOutcome(old(nodes), node);
        && r == ResultDTO(addrs, apiBaseURL, staticToken, c)
        && nodes == Inserted(old(nodes), c) && nextId == NextIdAfter(old(nextId), c)
        && files == FilesAfter(old(files), dataDir, c, caCert)
    {
      if HasName(nodes, node.name) {
        return Failure(NameTaken(node.name));
      }
      AppendNodeKeepsValid(nodes, nextId, node);
      nodes := nodes + [node];
      nextId := nextId + 1;
      WriteArtifacts(node, caCert);
      r := Success(ToNodeDTO(addrs, apiBaseURL, staticToken, node));
    }

    /** The configuration of a node being created: the default template
        (created first if missing) rendered with the node's values and the
        lighthouses. */
    method RenderNewConfig(req: CreateNodeRequest, st: NetworkSetting, sub: SubnetAssignment, listenPort: int)
      returns (rendered: Result<string, string>)
      requires Valid() && settings.row == Some(st) && listenPort == CreatePort(req.port, st)
      modifies settings, templates
      ensures Valid() && settings.row == old(settings.row)
      ensures var e := EnsureDefaultOn(templates.bodies, old(templates.rows), old(templates.nextId));
        templates.rows == e.rows && templates.nextId == e.nextId
      ensures rendered == engine(DefaultBody(old(Peers())),
                                 NodeContext(req.name, sub.host, sub.cidr, req.publicIP, listenPort, req.role == RoleLighthouse,
                                             CreateLighthouses(nodes, st, req, sub, listenPort)))
    {
      var tpl := templates.EnsureDefault();
      var ls := CollectLighthouses(req, sub, st, listenPort);
      var data := RenderContext(req.name, CACertFile, CertFile(req.name), KeyFile(req.name), sub.host,
                                sub.cidr, req.publicIP, listenPort, req.role == RoleLighthouse, ls, req.name);
      assert data == NodeContext(req.name, sub.host, sub.cidr, req.publicIP, listenPort,
                                 req.role == RoleLighthouse, CreateLighthouses(nodes, st, req, sub, listenPort));
      rendered := engine(tpl.content, data);
    }

    method Delete(id: nat) returns (r: Result<(), NodeError>)
      requires Valid()
      modifies this
      ensures Valid() && nextId == old(nextId)
      ensures match Lookup(old(nodes), id)
        case Failure(e) => r == Failure(e) && nodes == old(nodes) && files == old(files)
        case Success(n) =>
          r == Success(()) && nodes == DeleteById(old(nodes), id) && files == RemoveTree(old(files), NodeDir(dataDir, n.name))
    {
      var found := Lookup(nodes, id);
      if found.Failure? {
        return Failure(found.error);
      }
      DeleteByIdKeepsValid(nodes, nextId, id);
      nodes := DeleteById(nodes, id);
      files := RemoveTree(files, NodeDir(dataDir, found.value.name));
      r := Success(());
    }

    method GetConfig(id: nat) returns (r: Result<string, NodeError>)
      ensures Lookup(nodes, id).Failure? ==> r == Failure(NodeNotFound(id))
      ensures Lookup(nodes, id).Success? ==> r == Success(Lookup(nodes, id).value.configContent)
    {
      var found := Lookup(nodes, id);
      if found.Failure? {
        return Failure(found.error);
      }
      r := Success(found.value.configContent);
    }

    // -------------------------------------------------------------------------
    // Refreshing, artifacts, install script, bundle

    /** `refreshNode`: look the row up, require a CA, regenerate the row's
        artifacts; the refreshed row and the CA are handed back. */
    method RefreshNode(id: nat) returns (r: Result<Node, NodeError>, ca: Option<CA>)
      requires Valid()
      modifies this, settings, templates, tool
      ensures Valid() && nextId == old(nextId)
      ensures Regen(nodes, r) == old(RefreshPlan(id))
      ensures files == FilesAfter(old(files), dataDir, r, CACertOf(FirstCA(cas.cas)))
      ensures r.Success? ==> ca == FirstCA(cas.cas) && ca.Some?
      ensures RefreshEffects(id, old(nodes), FirstCA(cas.cas), old(settings.row), old(Peers()), settings.row, Peers())
    {
      var found := Lookup(nodes, id);
      if found.Failure? {
        return Failure(found.error), None;
      }
      ca := cas.GetCA();
      if ca.None? {
        return Failure(NoCAPresent), None;
      }
      var i := FindNode(nodes, id).value;
      r := RegenerateNodeArtifacts(i, ca.value);
    }

    method GetArtifacts(id: nat) returns (r: Result<NodeArtifacts, NodeError>)
      requires Valid()
      modifies this, settings, templates, tool
      ensures Valid() && nextId == old(nextId)
      ensures nodes == old(RefreshPlan(id)).table
      ensures r == ArtifactsOf(old(RefreshPlan(id)).result, CACertOf(FirstCA(cas.cas)))
      ensures files == FilesAfter(old(files), dataDir, old(RefreshPlan(id)).result, CACertOf(FirstCA(cas.cas)))
      ensures RefreshEffects(id, old(nodes), FirstCA(cas.cas), old(settings.row), old(Peers()), settings.row, Peers())
    {
      var node, ca := RefreshNode(id);
      if node.Failure? {
        return Failure(node.error);
      }
      var n := node.value;
      r := Success(NodeArtifacts(n.certificatePEM, n.privateKeyPEM, ca.value.certificatePEM, n.configContent));
    }

    /** `GenerateInstallScript`: refresh the node, then write its install
        script. */
    method GenerateInstallScript(id: nat) returns (r: Result<string, NodeError>)
      requires Valid()
      modifies this, settings, templates, tool
      ensures Valid() && nextId == old(nextId)
      ensures nodes == old(RefreshPlan(id)).table
      ensures match old(RefreshPlan(id)).result
        case Failure(e) => r == Failure(e)
        case Success(n) => r == Success(InstallScript(ScriptParamsFor(n)))
      ensures files == FilesAfter(old(files), dataDir, old(RefreshPlan(id)).result, CACertOf(FirstCA(cas.cas)))
      ensures RefreshEffects(id, old(nodes), FirstCA(cas.cas), old(settings.row), old(Peers()), settings.row, Peers())
    {
      hide *;
      var node, _ := RefreshNode(id);
      if node.Failure? {
        return Failure(node.error);
      }
      var n := node.value;
      var params := ScriptParamsOf(n);
      var script := WriteScript(params);
      r := Success(script);
    }

    /** The values `GenerateInstallScript` writes the script with. */
    method ScriptParamsOf(n: Node) returns (p: ScriptParams)
      ensures p == ScriptParamsFor(n)
    {
      var apiBase := apiBaseURL;
      if apiBase == "" {
        apiBase := DefaultAPIBase;
      }
      apiBase := TrimRightChar(apiBase, '/');
      var nebulaBase := nebulaBaseURL;
      if nebulaBase == "" {
        nebulaBase := DefaultNebulaBase;
      }
      nebulaBase := TrimRightChar(nebulaBase, '/');
      var version := nebulaVersion;
      if version == "" {
        version := DefaultNebulaVersion;
      }
      var proxyPrefix := ProxyPrefixForNode(n.downloadProxyMode, nebulaProxyPref);
      p := ScriptParams(apiBase, n.id, n.name, version, nebulaBase, proxyPrefix, staticToken);
    }

    /** `BuildBundle`: refresh the node, then pack its CA certificate,
        certificate, key and configuration. */
    method BuildBundle(id: nat) returns (r: Result<seq<TarEntry>, NodeError>)
      requires Valid()
      modifies this, settings, templates, tool
      ensures Valid() && nextId == old(nextId)
      ensures nodes == old(RefreshPlan(id)).table
      ensures r == BundleOf(old(RefreshPlan(id)).result, CACertOf(FirstCA(cas.cas)))
      ensures files == FilesAfter(old(files), dataDir, old(RefreshPlan(id)).result, CACertOf(FirstCA(cas.cas)))
      ensures RefreshEffects(id, old(nodes), FirstCA(cas.cas), old(settings.row), old(Peers()), settings.row, Peers())
    {
      var node, ca := RefreshNode(id);
      if node.Failure? {
        return Failure(node.error);
      }
      var n := node.value;
      var artifacts := NodeArtifacts(n.certificatePEM, n.privateKeyPEM, ca.value.certificatePEM, n.configContent);
      var entries := PackBundle(n.name, artifacts);
      r := Success(entries);
    }

    // -------------------------------------------------------------------------
    // Regenerating

    /** `regenerateNodeArtifacts` for row `i`. */
    method RegenerateNodeArtifacts(i: nat, ca: CA) returns (r: Result<Node, NodeError>)
      requires Valid() && i < |nodes|
      modifies this, settings, templates, tool
      ensures Valid() && nextId == old(nextId)
      ensures var st := SettingOf(old(settings.row));
        var g := RegenerateOn(addrs, tool.sign, engine, old(nodes), i, ca, st, tool.TempDir("nebula-node-", old(tool.serial)),
                              DefaultBody(old(Peers())));
        && Regen(nodes, r) == g
        && files == FilesAfter(old(files), dataDir, r, ca.certificatePEM)
      ensures settings.row == Some(SettingOf(old(settings.row)))
      ensures var st := SettingOf(old(settings.row));
        var fixed := EnsureNodeSubnet(addrs, old(nodes)[i], Some(st));
        if fixed.Success? then
          EffectsBetween(old(Peers()), Peers(), true, ca.certificatePEM, ca.privateKeyPEM, old(nodes)[i].name,
                       fixed.value.subnetCIDR, ValidityFor(st))
        else Peers() == old(Peers())
    {
      ghost var before := Peers();
      var st := settings.Get();
      assert Peers() == before;
      ghost var g := RegenerateOn(addrs, tool.sign, engine, nodes, i, ca, st, tool.TempDir("nebula-node-", tool.serial),
                                  DefaultBody(before));
      var fixed := EnsureNodeSubnet(addrs, nodes[i], Some(st));
      if fixed.Failure? {
        assert g == Regen(nodes, Failure(InvalidSubnet(fixed.error)));
        return Failure(InvalidSubnet(fixed.error));
      }
      r := RepairAndReissue(i, fixed.value, ca, st);
    }

    /** The subnet repair written back, then the reissue of the repaired
        record. */
    method RepairAndReissue(i: nat, fixed: Node, ca: CA, st: NetworkSetting) returns (r: Result<Node, NodeError>)
      requires Valid() && i < |nodes| && settings.row == Some(st)
      requires fixed.id == nodes[i].id && fixed.name == nodes[i].name
      modifies this, settings, templates, tool
      ensures Valid() && nextId == old(nextId) && settings.row == old(settings.row)
      ensures var stored := if SubnetRepaired(old(nodes)[i]) then old(nodes)[i := fixed] else old(nodes);
        var res := Reissue(tool.sign, engine, stored, fixed, ca, st, tool.TempDir("nebula-node-", old(tool.serial)),
                           DefaultBody(old(Peers())));
        && r == res && Regen(nodes, r) == Saved(stored, i, r)
        && files == FilesAfter(old(files), dataDir, r, ca.certificatePEM)
      ensures EffectsBetween(old(Peers()), Peers(), true, ca.certificatePEM, ca.privateKeyPEM, fixed.name,
                             fixed.subnetCIDR, ValidityFor(st))
    {
      ghost var before := Peers();
      WriteBackRepair(i, fixed);
      assert Peers() == before && Valid();
      r := ReissueRow(i, fixed, ca, st);
    }

    /** The repaired subnet fields of row `i` are written back at once. */
    method WriteBackRepair(i: nat, fixed: Node)
      requires Valid() && i < |nodes| && fixed.id == nodes[i].id && fixed.name == nodes[i].name
      modifies this
      ensures Valid() && nextId == old(nextId) && files == old(files)
      ensures nodes == if SubnetRepaired(old(nodes)[i]) then old(nodes)[i := fixed] else old(nodes)
    {
      if SubnetRepaired(nodes[i]) {
        ReplaceNodeKeepsValid(nodes, nextId, i, fixed);
        nodes := nodes[i := fixed];
      }
    }

    /** Regeneration of row `i`, its subnet repaired to `node`, from the
        port and validity on. */
    method ReissueRow(i: nat, node: Node, ca: CA, st: NetworkSetting) returns (r: Result<Node, NodeError>)
      requires Valid() && i < |nodes| && settings.row == Some(st)
      requires nodes[i].id == node.id && nodes[i].name == node.name
      modifies this, settings, templates, tool
      ensures Valid() && nextId == old(nextId) && settings.row == old(settings.row)
      ensures var res := Reissue(tool.sign, engine, old(nodes), node, ca, st, tool.TempDir("nebula-node-", old(tool.serial)),
                                 DefaultBody(old(Peers())));
        && r == res && Regen(nodes, r) == Saved(old(nodes), i, r)
        && files == FilesAfter(old(files), dataDir, r, ca.certificatePEM)
      ensures EffectsBetween(old(Peers()), Peers(), true, ca.certificatePEM, ca.privateKeyPEM, node.name, node.subnetCIDR, ValidityFor(st))
    {
      var n, validity := SettleReissue(node, st);
      var signed := tool.GenerateNodeCertificate(ca.certificatePEM, ca.privateKeyPEM, n.name, n.subnetCIDR, validity);
      if signed.Failure? {
        return Failure(CertFailed(signed.error));
      }
      r := RerenderRow(i, n, ca.certificatePEM, st, signed.value);
    }

    /** The end of a regeneration: ensure the default template, collect the
        lighthouses, render, save the row, write the files. */
    method RerenderRow(i: nat, node: Node, caCert: string, st: NetworkSetting, pair: CertPair)
      returns (r: Result<Node, NodeError>)
      requires Valid() && i < |nodes| && settings.row == Some(st)
      requires nodes[i].id == node.id && nodes[i].name == node.name
      modifies this, settings, templates
      ensures Valid() && nextId == old(nextId) && settings.row == old(settings.row)
      ensures var e := EnsureDefaultOn(templates.bodies, old(templates.rows), old(templates.nextId));
        templates.rows == e.rows && templates.nextId == e.nextId
      ensures var res := Rerender(engine, old(nodes), node, pair, st, DefaultBody(old(Peers())));
        && r == res && Regen(nodes, r) == Saved(old(nodes), i, r)
        && files == FilesAfter(old(files), dataDir, r, caCert)
    {
      var tpl := templates.EnsureDefault();
      var ls := ListLighthouseNodes();
      var data := RenderContext(node.name, CACertFile, CertFile(node.name), KeyFile(node.name), node.subnetHost,
                                node.subnetCIDR, node.publicIP, node.port, node.role == RoleLighthouse, ls, node.name);
      var rendered := engine(tpl.content, data);
      if rendered.Failure? {
        return Failure(RenderFailed(rendered.error));
      }
      var saved := node.(certificatePEM := pair.certPEM, privateKeyPEM := pair.keyPEM, configContent := rendered.value);
      ReplaceNodeKeepsValid(nodes, nextId, i, saved);
      nodes := nodes[i := saved];
      WriteArtifacts(saved, caCert);
      r := Success(saved);
    }
  }

  /** The validity a regeneration signs with and the record with its listen
      port settled: the stored port, else the settings' handshake port, else
      the fallback. */
  method SettleReissue(node: Node, st: NetworkSetting) returns (n: Node, validity: Int64)
    ensures validity == ValidityFor(st)
    ensures n == node.(port := ListenPortFor(node.port, st))
  {
    validity := FallbackValidityDays;
    if st.certificateValidity > 0 {
      validity := st.certificateValidity;
    }
    var listenPort := node.port;
    if st.handshakePort != 0 {
      if listenPort == 0 {
        listenPort := st.handshakePort;
      }
    }
    if listenPort == 0 {
      listenPort := FallbackPort;
    }
    n := node;
    if n.port != listenPort {
      n := n.(port := listenPort);
    }
  }

  /** What `GetArtifacts` hands back for a refresh result. */
  function ArtifactsOf(res: Result<Node, NodeError>, caCert: string): (r: Result<NodeArtifacts, NodeError>)
    ensures res.Failure? ==> r == Failure(res.error)
    ensures res.Success? ==> r.Success? && r.value.caCert == caCert
    ensures res.Success? ==> r.value.certificate == res.value.certificatePEM && r.value.privateKey == res.value.privateKeyPEM
    ensures res.Success? ==> r.value.config == res.value.configContent
  {
    match res
    case Failure(e) => Failure(e)
    case Success(n) => Success(NodeArtifacts(n.certificatePEM, n.privateKeyPEM, caCert, n.configContent))
  }

  /** What `BuildBundle` packs for a refresh result. */
  function BundleOf(res: Result<Node, NodeError>, caCert: string): (r: Result<seq<TarEntry>, NodeError>)
    ensures res.Failure? ==> r == Failure(res.error)
    ensures res.Success? ==> r.Success? && |r.value| == 4
  {
    match res
    case Failure(e) => Failure(e)
    case Success(n) =>
      Success(BundleEntries(n.name, caCert, n.certificatePEM, n.privateKeyPEM, n.configContent))
  }

  /** The tar writer fed with the artifacts, one member each, in order. */
  method PackBundle(nodeName: string, artifacts: NodeArtifacts) returns (entries: seq<TarEntry>)
    ensures entries == BundleEntries(nodeName, artifacts.caCert, artifacts.certificate, artifacts.privateKey, artifacts.config)
  {
    var tw := new TarWriter();
    tw.Add(CACertFile, ModeOwnerRW, artifacts.caCert);
    tw.Add(CertFile(nodeName), ModeOwnerRW, artifacts.certificate);
    tw.Add(KeyFile(nodeName), ModeOwnerRW, artifacts.privateKey);
    tw.Add(ConfigFile, ModeOwnerRWGroupR, artifacts.config);
    entries := tw.entries;
  }

  /** The install script. The `strings.Builder` it is written into is the
      text written so far; each assignment below is one `WriteString`. */
  method WriteScript(p: ScriptParams) returns (script: string)
    ensures script == InstallScript(p)
  {
    script := WriteHeader("", p);
    script := WriteDownloadSteps(script);
    script := script + CertInstallLine(p.nodeName);
    script := script + KeyInstallLine(p.nodeName);
    script := WriteServiceSteps(script);
  }

  /** The writes that open the install script. */
  method WriteHeader(t0: string, p: ScriptParams) returns (t: string)
    ensures t == AfterHeader(t0, p)
  {
    t := WriteIdentity(t0, p);
    t := WriteDirectories(t);
    t := WriteDownloadSettings(t, p);
  }

  /** Each `name="value"` line below is one `QuotedAssignment`. */
  method WriteIdentity(t0: string, p: ScriptParams) returns (t: string)
    ensures t == AfterIdentity(t0, p)
  {
    t := t0;
    t := t + "#!/bin/bash\n";
    t := t + "set -euo pipefail\n\n";
    t := t + QuotedAssignment("API_BASE", "${NEBULA_MANAGER_API:-" + p.apiBase + "}");
    t := t + ("NODE_ID=" + NatToString(p.nodeID) + "\n");
    t := t + QuotedAssignment("NODE_NAME", p.nodeName);
  }

  method WriteDirectories(t0: string) returns (t: string)
    ensures t == AfterDirectories(t0)
  {
    t := t0;
    t := t + ("NEBULA_DIR=\"" + "${NEBULA_DIR:-/etc" + "/nebula}\"\n");
    t := t + "TMP_DIR=$(mktemp -d)\n";
    t := t + ("trap 'rm -rf \"$TMP_DIR" + "\"' EXIT\n\n");
  }

  method WriteDownloadSettings(t0: string, p: ScriptParams) returns (t: string)
    ensures t == AfterDownloadSettings(t0, p)
  {
    t := t0;
    t := t + QuotedAssignment("NEBULA_VERSION", "${NEBULA_VERSION:-" + p.version + "}");
    t := t + QuotedAssignment("NEBULA_DOWNLOAD_BASE", EscapeForDoubleQuotes(p.downloadBase));
    t := t + QuotedAssignment("NEBULA_PROXY_PREFIX", EscapeForDoubleQuotes(p.proxyPrefix));
    if p.token != "" {
      var escapedToken := EscapeForDoubleQuotes(p.token);
      t := t + QuotedAssignment("NEBULA_ACCESS_TOKEN", escapedToken);
    } else {
      t := t + QuotedAssignment("NEBULA_ACCESS_TOKEN", TokenPlaceholder);
    }
    t := t + ("CURL_AUTH=(-H" + " \"Authorization:" + " Bearer" + " $NEBULA_ACCESS_TOKEN" + "\")\n\n");
  }

  method WriteDownloadSteps(t0: string) returns (t: string)
    ensures t == AfterDownloadSteps(t0)
  {
    t := WritePrerequisites(t0);
    t := WritePlatform(t);
    t := WriteBinary(t);
    t := WriteBundleFetch(t);
  }

  method WriteServiceSteps(t0: string) returns (t: string)
    ensures t == AfterServiceSteps(t0)
  {
    t := WriteConfigInstall(t0);
    t := WriteUnitOpen(t);
    t := WriteUnitService(t);
    t := WriteServiceStart(t);
  }

  method WritePrerequisites(t0: string) returns (t: string)
    ensures t == AfterPrerequisites(t0)
  {
    t := t0;
    t := t + ("if ! command -v curl >" + "/dev/null 2>&1; then\n");
    t := t + ("  echo '需要安装 curl" + " 用于下载文件' >&2\n");
    t := t + "  exit 1\n";
    t := t + "fi\n";
    t := t + ("if ! command -v tar >" + "/dev/null 2>&1; then\n");
    t := t + ("  echo '需要安装 tar" + " 用于解压归档' >&2\n");
    t := t + "  exit 1\n";
    t := t + "fi\n\n";
    t := t + ("if ! command -v" + " systemctl >/dev/null" + " 2>&1; then\n");
    t := t + ("  echo '当前系统缺少" + " systemctl，无法自动创建" + " systemd 服务' >&2\n");
    t := t + "  exit 1\n";
    t := t + "fi\n\n";
  }

  method WritePlatform(t0: string) returns (t: string)
    ensures t == AfterPlatform(t0)
  {
    t := t0;
    t := t + ("OS=$(uname -s | tr" + " 'A-Z' 'a-z')\n");
    t := t + "ARCH=$(uname -m)\n";
    t := t + ("if [ \"$OS\" != \"linux\"" + " ]; then\n");
    t := t + ("  echo '当前安装脚本仅支持" + " Linux 系统' >&2\n");
    t := t + "  exit 1\n";
    t := t + "fi\n";
    t := t + "case $ARCH in\n";
    t := t + ("  x86_64|amd64)" + " ARCH=amd64 ;;\n");
    t := t + ("  aarch64|arm64)" + " ARCH=arm64 ;;\n");
    t := t + ("  armv7l|armv7)" + " ARCH=arm ;;\n");
    t := t + ("  armv6l) ARCH=arm6" + " ;;\n");
    t := t + ("  i386|i686) ARCH=386" + " ;;\n");
    t := t + ("  *) echo \"暂不支持的 CPU" + " 架构: $ARCH\" >&2; exit" + " 1 ;;\n");
    t := t + "esac\n";
  }

  method WriteBinary(t0: string) returns (t: string)
    ensures t == AfterBinary(t0)
  {
    t := t0;
    t := t + ("NEBULA_PACKAGE=" + "\"nebula-linux-" + "$ARCH.tar.gz\"\n");
    t := t + ("BASE_URL=\"" + "$NEBULA_DOWNLOAD_BASE" + "/v$NEBULA_VERSION/" + "$NEBULA_PACKAGE\"\n");
    t := t + ("if [ -n \"" + "$NEBULA_PROXY_PREFIX\"" + " ]; then\n");
    t := t + ("  DOWNLOAD_URL=\"" + "$NEBULA_PROXY_PREFIX" + "$BASE_URL\"\n");
    t := t + "else\n";
    t := t + ("  DOWNLOAD_URL=\"" + "$BASE_URL\"\n");
    t := t + "fi\n\n";
    t := t + ("echo \"从 $DOWNLOAD_URL" + " 下载 Nebula 二进制...\"\n");
    t := t + ("curl -fsSL \"" + "$DOWNLOAD_URL\" -o \"" + "$TMP_DIR/" + "$NEBULA_PACKAGE\"\n");
    t := t + ("tar -xzf \"$TMP_DIR/" + "$NEBULA_PACKAGE\" -C \"" + "$TMP_DIR\" nebula\n");
    t := t + ("sudo install -m 755 \"" + "$TMP_DIR/nebula\" /usr" + "/local/bin/nebula\n\n");
  }

  method WriteBundleFetch(t0: string) returns (t: string)
    ensures t == AfterBundleFetch(t0)
  {
    t := t0;
    t := t + ("echo \"从 $API_BASE" + " 获取节点归档...\"\n");
    t := t + ("curl -fsSL \"" + "${CURL_AUTH[@]}\" \"" + "$API_BASE/api/nodes/" + "$NODE_ID/bundle\" -o \"" + "$TMP_DIR" + "/node_bundle.tar.gz\"\n");
    t := t + ("tar -xzf \"$TMP_DIR" + "/node_bundle.tar.gz\"" + " -C \"$TMP_DIR\"\n\n");
    t := t + ("sudo install -d -m 755" + " \"$NEBULA_DIR\"\n");
    t := t + ("sudo install -m 600 \"" + "$TMP_DIR/ca.crt\" \"" + "$NEBULA_DIR/ca.crt\"\n");
  }

  method WriteConfigInstall(t0: string) returns (t: string)
    ensures t == AfterConfigInstall(t0)
  {
    t := t0;
    t := t + ("sudo install -m 640 \"" + "$TMP_DIR/config.yml\" \"" + "$NEBULA_DIR/config.yml" + "\"\n");
    t := t + ("sudo chmod 600 \"" + "$NEBULA_DIR\"/*.key\n");
  }

  method WriteUnitOpen(t0: string) returns (t: string)
    ensures t == AfterUnitOpen(t0)
  {
    t := t0;
    t := t + ("sudo tee /etc/systemd" + "/system/nebula.service" + " >/dev/null <<'UNIT'\n");
    t := t + "[Unit]\n";
    t := t + ("Description=Nebula VPN" + " 节点\n");
    t := t + ("After=network-online.t" + "arget\n");
    t := t + ("Wants=network-online.t" + "arget\n\n");
  }

  method WriteUnitService(t0: string) returns (t: string)
    ensures t == AfterUnitService(t0)
  {
    t := t0;
    t := t + "[Service]\n";
    t := t + ("ExecStart=/usr/local" + "/bin/nebula -config" + " /etc/nebula" + "/config.yml\n");
    t := t + "Restart=on-failure\n";
    t := t + "RestartSec=5\n";
    t := t + "User=root\n";
    t := t + ("WorkingDirectory=/etc" + "/nebula\n");
    t := t + "LimitNOFILE=65535\n\n";
    t := t + "[Install]\n";
    t := t + ("WantedBy=multi-user.ta" + "rget\n");
    t := t + "UNIT\n";
  }

  method WriteServiceStart(t0: string) returns (t: string)
    ensures t == AfterServiceStart(t0)
  {
    t := t0;
    t := t + ("sudo systemctl" + " daemon-reload\n");
    t := t + ("sudo systemctl enable" + " --now nebula.service\n");
    t := t + ("echo \"Nebula 节点已部署并以" + " systemd 服务运行\"\n");
    t := t + ("sudo systemctl status" + " nebula.service" + " --no-pager\n");
  }

  /** One more file written into the directory. */
  lemma WritesGrow(files: map<FilePath, FileEntry>, dir: string, af: map<string, string>, done: set<string>, name: string)
    requires name in af && done <= af.Keys
    ensures (files + Writes(dir, af, done))[FilePath(dir, name) := FileEntry(af[name], ModeOwnerRW)] ==
      files + Writes(dir, af, done + {name})
  {
  }
}
