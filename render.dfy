/** What a node configuration is rendered from, the rendering engine as an
    oracle, and a concrete rendering of the built-in default template. */
module Render {
  import opened Wrappers
  import opened Numbers
  import opened Text
  import opened Templates

  /** One entry of the template's `Lighthouses` list. */
  datatype Lighthouse = Lighthouse(
    name: string,
    publicIP: string,
    subnetIP: string,
    port: Int64,
    publicHost: string)

  /** The data map a node's configuration is rendered from. */
  datatype RenderContext = RenderContext(
    name: string,
    caCertPath: string,
    certPath: string,
    keyPath: string,
    subnetIP: string,
    subnetCIDR: string,
    publicIP: string,
    listenPort: Int64,
    isLighthouse: bool,
    lighthouses: seq<Lighthouse>,
    deviceID: string)

  /** Parsing and executing an arbitrary template body; an error is a message. */
  type Renderer = (string, RenderContext) -> Result<string, string>

  /** The engine gives the built-in body the meaning `RenderDefault` spells
      out below. */
  ghost predicate RendersDefaultBody(engine: Renderer) {
    forall ctx :: engine(DefaultTemplateContent, ctx) == Success(RenderDefault(ctx))
  }

  /** A boolean as `{{ . }}` prints it. */
  function BoolText(b: bool): string {
    if b then "true" else "false"
  }

  /** One iteration of the static_host_map range: the `{{-` markers eat the
      line breaks of the template, so a lighthouse with a public host adds a
      single line and one without adds nothing. */
  function HostMapItem(l: Lighthouse): string {
    if l.publicHost != "" then "\n" + HostMapEntryText(l) else ""
  }

  function HostMapEntryText(l: Lighthouse): string {
    "  \"" + l.publicHost + "\": [\"" + l.subnetIP + "\"]"
  }

  /** The rendered `{{- range .Lighthouses }}` of static_host_map. */
  function HostMapBlock(ls: seq<Lighthouse>): string {
    if ls == [] then "" else HostMapItem(ls[0]) + HostMapBlock(ls[1..])
  }

  function HostsEntryText(l: Lighthouse): string {
    "    - \"" + l.subnetIP + "\""
  }

  /** The rendered `{{- range .Lighthouses }}` of lighthouse.hosts. */
  function HostsBlock(ls: seq<Lighthouse>): string {
    if ls == [] then "" else "\n" + HostsEntryText(ls[0]) + HostsBlock(ls[1..])
  }

  /** `nebula{{ if .DeviceID }}{{ .DeviceID }}{{ end }}`. */
  function DevName(deviceID: string): string {
    if deviceID != "" then "nebula" + deviceID else "nebula"
  }

  const FirewallSection: string :=
    "\nfirewall:\n  conntrack:\n    tcp_timeout: 12m\n    udp_timeout: 3m\n    default_allow: false\n"
    + "  outbound:\n    - port: any\n      proto: any\n      host: any\n"
    + "  inbound:\n    - port: any\n      proto: any\n      host: any\n"

  const ListenTail: string := "\n  batch: 64\npunchy:\n  punch: true"

  const TunOptions: string :=
    "  mtu: 1300\n  unsafe_routes: []\n  cipher: aes\n"
    + "  drop_local_broadcast: false\n  drop_multicast: false\n"
    + "  disabled: false\n  tx_queue: 5000\n  ip: "

  const StaticHostMapKey: string := "static_host_map:"
  const LighthouseKey: string := "\nlighthouse:\n"
  const HostsKey: string := "  hosts:"
  const ListenKey: string := "\nlisten:\n"
  const TunDevKey: string := "\ntun:\n  dev: "

  /** The rendered body cut at the places where the template's actions sit;
      `RenderDefault` is their concatenation. */
  function Sections(ctx: RenderContext): (r: seq<string>)
    ensures |r| == 11
  {
    [ "pki:\n  ca: " + ctx.caCertPath + "\n  cert: " + ctx.certPath + "\n  key: " + ctx.keyPath + "\n",
      StaticHostMapKey,
      HostMapBlock(ctx.lighthouses),
      LighthouseKey,
      "  am_lighthouse: " + BoolText(ctx.isLighthouse) + "\n  interval: 60\n",
      HostsKey,
      HostsBlock(ctx.lighthouses),
      ListenKey,
      "  host: 0.0.0.0\n  port: " + IntToString(ctx.listenPort) + ListenTail,
      TunDevKey + DevName(ctx.deviceID) + "\n",
      TunOptions + ctx.subnetCIDR + FirewallSection ]
  }

  /** The built-in template body executed on `ctx`. */
  function RenderDefault(ctx: RenderContext): string {
    Concat(Sections(ctx))
  }

  /** Three consecutive sections occur together in the whole. */
  lemma RunOfThree(xs: seq<string>, i: nat)
    requires i + 3 <= |xs|
    ensures Contains(Concat(xs), xs[i] + xs[i + 1] + xs[i + 2])
  {
    assert xs[i..i + 3] == [xs[i], xs[i + 1], xs[i + 2]];
    Concat3(xs[i], xs[i + 1], xs[i + 2]);
    ConcatContainsRun(xs, i, i + 3);
  }

  /** The lighthouses that have a public host, in their original order. */
  function WithPublicHost(ls: seq<Lighthouse>): (r: seq<Lighthouse>)
    ensures |r| <= |ls|
    ensures forall l :: l in r <==> l in ls && l.publicHost != ""
  {
    if ls == [] then [] else (if ls[0].publicHost != "" then [ls[0]] else []) + WithPublicHost(ls[1..])
  }

  function HostMapEntries(ls: seq<Lighthouse>): (r: seq<string>)
    ensures |r| == |ls|
    ensures forall i :: 0 <= i < |ls| ==> r[i] == HostMapEntryText(ls[i])
  {
    if ls == [] then [] else [HostMapEntryText(ls[0])] + HostMapEntries(ls[1..])
  }

  function HostsEntries(ls: seq<Lighthouse>): (r: seq<string>)
    ensures |r| == |ls|
    ensures forall i :: 0 <= i < |ls| ==> r[i] == HostsEntryText(ls[i])
  {
    if ls == [] then [] else [HostsEntryText(ls[0])] + HostsEntries(ls[1..])
  }

  /** Each string on a line of its own, every one preceded by a line break. */
  function Lines(xs: seq<string>): string {
    if xs == [] then "" else "\n" + xs[0] + Lines(xs[1..])
  }

  /** Filtering distributes over concatenation, so the order is kept. */
  lemma {:induction false} WithPublicHostAppend(a: seq<Lighthouse>, b: seq<Lighthouse>)
    ensures WithPublicHost(a + b) == WithPublicHost(a) + WithPublicHost(b)
  {
    if a == [] {
      assert a + b == b;
    } else {
      assert (a + b)[0] == a[0];
      assert (a + b)[1..] == a[1..] + b;
      WithPublicHostAppend(a[1..], b);
    }
  }

  /** The static_host_map block is one entry line per lighthouse with a
      public host, in input order. */
  lemma {:induction false} HostMapBlockLines(ls: seq<Lighthouse>)
    ensures HostMapBlock(ls) == Lines(HostMapEntries(WithPublicHost(ls)))
  {
    if ls != [] {
      HostMapBlockLines(ls[1..]);
      var rest := WithPublicHost(ls[1..]);
      if ls[0].publicHost != "" {
        assert WithPublicHost(ls) == [ls[0]] + rest;
        assert HostMapEntries([ls[0]] + rest) == [HostMapEntryText(ls[0])] + HostMapEntries(rest);
      } else {
        assert WithPublicHost(ls) == rest;
      }
    }
  }

  /** The hosts block is one line per lighthouse, whatever its public host. */
  lemma {:induction false} HostsBlockLines(ls: seq<Lighthouse>)
    ensures HostsBlock(ls) == Lines(HostsEntries(ls))
  {
    if ls != [] {
      HostsBlockLines(ls[1..]);
      assert HostsEntries(ls) == [HostsEntryText(ls[0])] + HostsEntries(ls[1..]);
    }
  }

  /** A lighthouse without a public host adds nothing to static_host_map. */
  lemma {:induction false} HostMapBlockAppend(a: seq<Lighthouse>, b: seq<Lighthouse>)
    ensures HostMapBlock(a + b) == HostMapBlock(a) + HostMapBlock(b)
  {
    if a == [] {
      assert a + b == b;
    } else {
      assert (a + b)[0] == a[0];
      assert (a + b)[1..] == a[1..] + b;
      HostMapBlockAppend(a[1..], b);
    }
  }

  lemma HostMapSkipsPrivate(ls: seq<Lighthouse>, l: Lighthouse)
    requires l.publicHost == ""
    ensures HostMapBlock(ls + [l]) == HostMapBlock(ls)
  {
    HostMapBlockAppend(ls, [l]);
  }

  /** Splitting a head line followed by `Lines(xs)` at line breaks gives the
      head and then exactly the strings of `xs`, when none holds a break. */
  lemma {:induction false} SplitLines(head: string, xs: seq<string>)
    requires '\n' !in head
    requires forall i :: 0 <= i < |xs| ==> '\n' !in xs[i]
    ensures Split(head + Lines(xs), '\n') == [head] + xs
    decreases |xs|
  {
    if xs == [] {
      assert head + Lines(xs) == head;
      SplitNone(head, '\n');
    } else {
      var rest := xs[0] + Lines(xs[1..]);
      assert head + Lines(xs) == head + ['\n'] + rest;
      SplitAt(head, '\n', rest);
      SplitLines(xs[0], xs[1..]);
      HeadTail(xs);
    }
  }

  predicate LineFree(s: string) {
    '\n' !in s
  }

  /** The fields of a lighthouse that end up in the configuration contain no
      line break. */
  predicate PlainLighthouses(ls: seq<Lighthouse>) {
    forall i :: 0 <= i < |ls| ==> LineFree(ls[i].publicHost) && LineFree(ls[i].subnetIP)
  }

  lemma KeysLineFree()
    ensures LineFree(StaticHostMapKey) && LineFree(HostsKey)
  {
  }

  lemma FilterKeepsPlain(ls: seq<Lighthouse>)
    requires PlainLighthouses(ls)
    ensures PlainLighthouses(WithPublicHost(ls))
  {
    var public := WithPublicHost(ls);
    forall i | 0 <= i < |public| ensures LineFree(public[i].publicHost) && LineFree(public[i].subnetIP) {
      assert public[i] in ls;
    }
  }

  lemma EntryTextsLineFree(ls: seq<Lighthouse>)
    requires PlainLighthouses(ls)
    ensures forall i :: 0 <= i < |ls| ==> LineFree(HostMapEntryText(ls[i])) && LineFree(HostsEntryText(ls[i]))
  {
  }

  /** The `static_host_map:` key, its entries and the `lighthouse:` key
      are written one after the other. */
  lemma StaticHostMapInBody(ctx: RenderContext)
    ensures Contains(RenderDefault(ctx), StaticHostMapKey + HostMapBlock(ctx.lighthouses) + LighthouseKey)
  {
    var xs := Sections(ctx);
    RunOfThree(xs, 1);
  }

  /** The static_host_map block splits into its key line and one entry line
      per lighthouse with a public host, in input order. */
  lemma StaticHostMapSplit(ls: seq<Lighthouse>)
    requires PlainLighthouses(ls)
    ensures Split(StaticHostMapKey + HostMapBlock(ls), '\n') == [StaticHostMapKey] + HostMapEntries(WithPublicHost(ls))
  {
    HostMapBlockLines(ls);
    var public := WithPublicHost(ls);
    FilterKeepsPlain(ls);
    EntryTextsLineFree(public);
    var entries := HostMapEntries(public);
    assert forall i :: 0 <= i < |entries| ==> '\n' !in entries[i];
    KeysLineFree();
    SplitLines(StaticHostMapKey, entries);
  }

  /** In the rendered default body, the line `static_host_map:` is followed by
      exactly one `"public host": ["overlay address"]` line per lighthouse
      that has a public host, in input order, and then by `lighthouse:`. */
  lemma StaticHostMapLines(ctx: RenderContext)
    requires PlainLighthouses(ctx.lighthouses)
    ensures var block := StaticHostMapKey + HostMapBlock(ctx.lighthouses);
      && Contains(RenderDefault(ctx), block + LighthouseKey)
      && Split(block, '\n') == [StaticHostMapKey] + HostMapEntries(WithPublicHost(ctx.lighthouses))
  {
    StaticHostMapInBody(ctx);
    StaticHostMapSplit(ctx.lighthouses);
  }

  lemma HostsInBody(ctx: RenderContext)
    ensures Contains(RenderDefault(ctx), HostsKey + HostsBlock(ctx.lighthouses) + ListenKey)
  {
    var xs := Sections(ctx);
    RunOfThree(xs, 5);
  }

  lemma HostsSplit(ls: seq<Lighthouse>)
    requires PlainLighthouses(ls)
    ensures Split(HostsKey + HostsBlock(ls), '\n') == [HostsKey] + HostsEntries(ls)
  {
    HostsBlockLines(ls);
    EntryTextsLineFree(ls);
    KeysLineFree();
    SplitLines(HostsKey, HostsEntries(ls));
  }

  /** In the rendered default body, the line `  hosts:` is followed by exactly
      one `- "overlay address"` line for every lighthouse, in input order, and
      then by `listen:`. */
  lemma HostsListLines(ctx: RenderContext)
    requires PlainLighthouses(ctx.lighthouses)
    ensures var block := HostsKey + HostsBlock(ctx.lighthouses);
      && Contains(RenderDefault(ctx), block + ListenKey)
      && Split(block, '\n') == [HostsKey] + HostsEntries(ctx.lighthouses)
      && |Split(block, '\n')| == |ctx.lighthouses| + 1
  {
    HostsInBody(ctx);
    HostsSplit(ctx.lighthouses);
  }

  /** The `tun.dev` line is `nebula` followed by the device id. */
  lemma DevLine(ctx: RenderContext)
    ensures Contains(RenderDefault(ctx), TunDevKey + ("nebula" + ctx.deviceID) + "\n")
  {
    var xs := Sections(ctx);
    assert xs[9..10] == [xs[9]];
    Concat1(xs[9]);
    ConcatContainsRun(xs, 9, 10);
    if ctx.deviceID == "" {
      assert "nebula" + ctx.deviceID == "nebula";
    }
    assert DevName(ctx.deviceID) == "nebula" + ctx.deviceID;
  }
}
