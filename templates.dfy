/** The configuration template store: the built-in default template, the
    migration of the older default body, upsert by name, deletion by id and
    the listing by name. */
module Templates {
  import opened Wrappers
  import opened Models

  const DefaultTemplateName: string := "default"

  /** The lines both bodies share before the static_host_map entry. */
  const TemplateHead: string := @"pki:
  ca: {{ .CACertPath }}
  cert: {{ .CertPath }}
  key: {{ .KeyPath }}
static_host_map:
{{- range .Lighthouses }}
"

  /** The built-in static_host_map entry: only lighthouses with a public
      host, as `"public host": ["overlay address"]`. */
  const DefaultHostMapEntry: string := @"{{- if .PublicHost }}
  ""{{ .PublicHost }}"": [""{{ .SubnetIP }}""]
{{- end }}
"

  /** The entry older releases stored: the pair the wrong way round and no
      guard for an empty public host. */
  const LegacyHostMapEntry: string := @"  ""{{ .SubnetIP }}"": [""{{ .PublicHost }}""]
"

  /** The lines both bodies share after the static_host_map entry, a few
      lines at a time. */
  const TailLighthouse: string := @"{{- end }}
lighthouse:
  am_lighthouse: {{ .IsLighthouse }}
  interval: 60
"
  const TailHosts: string := @"  hosts:
{{- range .Lighthouses }}
    - ""{{ .SubnetIP }}""
{{- end }}
"
  const TailListen: string := @"listen:
  host: 0.0.0.0
  port: {{ .ListenPort }}
  batch: 64
"
  const TailPunchy: string := @"punchy:
  punch: true
"
  const TailTun: string := @"tun:
  dev: nebula{{ if .DeviceID }}{{ .DeviceID }}{{ end }}
  mtu: 1300
  unsafe_routes: []
  cipher: aes
"
  const TailTunFlags: string := @"  drop_local_broadcast: false
  drop_multicast: false
  disabled: false
  tx_queue: 5000
  ip: {{ .SubnetCIDR }}
"
  const TailConntrack: string := @"firewall:
  conntrack:
    tcp_timeout: 12m
    udp_timeout: 3m
    default_allow: false
"
  const TailOutbound: string := @"  outbound:
    - port: any
      proto: any
      host: any
"
  const TailInbound: string := @"  inbound:
    - port: any
      proto: any
      host: any
"

  const TemplateTail: string :=
    TailLighthouse + TailHosts + TailListen + TailPunchy + TailTun + TailTunFlags
    + TailConntrack + TailOutbound + TailInbound

  const DefaultTemplateContent: string := TemplateHead + DefaultHostMapEntry + TemplateTail
  const LegacyDefaultTemplateContent: string := TemplateHead + LegacyHostMapEntry + TemplateTail

  lemma CancelAround(a: string, x: string, y: string, b: string)
    ensures x != y ==> a + x + b != a + y + b
  {
    if a + x + b == a + y + b {
      assert |x| == |y|;
      assert (a + x + b)[|a|..|a| + |x|] == x;
      assert (a + y + b)[|a|..|a| + |y|] == y;
    }
  }

  lemma HostMapEntriesDiffer()
    ensures DefaultHostMapEntry != LegacyHostMapEntry
  {
    assert |DefaultHostMapEntry| != |LegacyHostMapEntry|;
  }

  lemma DefaultIsNotLegacy()
    ensures DefaultTemplateContent != LegacyDefaultTemplateContent
  {
    HostMapEntriesDiffer();
    CancelAround(TemplateHead, DefaultHostMapEntry, LegacyHostMapEntry, TemplateTail);
  }

  /** The body a missing default is created with, and the older body that is
      migrated to it. The store is written over any such pair of distinct
      bodies; `BuiltIn` is the pair the program ships. */
  datatype Bodies = Bodies(current: string, legacy: string)

  const BuiltIn: Bodies := Bodies(DefaultTemplateContent, LegacyDefaultTemplateContent)

  lemma BuiltInDistinct()
    ensures BuiltIn.current != BuiltIn.legacy
  {
    DefaultIsNotLegacy();
  }

  predicate IdsAscending(rows: seq<ConfigTemplate>) {
    forall i, j :: 0 <= i < j < |rows| ==> rows[i].id < rows[j].id
  }

  predicate NamesUnique(rows: seq<ConfigTemplate>) {
    forall i, j :: 0 <= i < j < |rows| ==> rows[i].name != rows[j].name
  }

  /** Ids ascend with position (the store's primary-key order), all are
      below the next id to hand out, and names are unique. */
  ghost predicate TableValid(rows: seq<ConfigTemplate>, nextId: nat) {
    0 < nextId &&
    IdsAscending(rows) &&
    (forall t :: t in rows ==> 0 < t.id < nextId) &&
    NamesUnique(rows)
  }

  /** Position of the row with the given name, the lookup
      `WHERE name = ? ... First`, with names compared exactly. */
  function FindByName(rows: seq<ConfigTemplate>, name: string): (r: Option<nat>)
    ensures r.None? <==> forall i :: 0 <= i < |rows| ==> rows[i].name != name
    ensures r.Some? ==> r.value < |rows| && rows[r.value].name == name
    ensures r.Some? ==> forall j :: 0 <= j < r.value ==> rows[j].name != name
  {
    if rows == [] then None
    else if rows[0].name == name then Some(0)
    else
      match FindByName(rows[1..], name)
      case None => None
      case Some(k) => Some(k + 1)
  }

  lemma FindByNameAt(rows: seq<ConfigTemplate>, name: string, i: nat)
    requires i < |rows| && rows[i].name == name
    requires forall j :: 0 <= j < i ==> rows[j].name != name
    ensures FindByName(rows, name) == Some(i)
  {
    var k := FindByName(rows, name).value;
    assert k <= i;
  }

  lemma FindByNameInValid(rows: seq<ConfigTemplate>, name: string, i: nat)
    requires NamesUnique(rows)
    requires i < |rows| && rows[i].name == name
    ensures FindByName(rows, name) == Some(i)
  {
    FindByNameAt(rows, name, i);
  }

  /** The store's refusal of an insert: the primary key is already used. */
  datatype StoreError = DuplicateId(id: nat)

  datatype EnsureOutcome = EnsureOutcome(rows: seq<ConfigTemplate>, nextId: nat, template: ConfigTemplate)

  /** What `EnsureDefault` does to the table and what it returns. */
  function EnsureDefaultOn(b: Bodies, rows: seq<ConfigTemplate>, nextId: nat): (r: EnsureOutcome)
    requires b.current != b.legacy
    ensures r.template.name == DefaultTemplateName && r.template in r.rows
    ensures r.template.content != b.legacy
  {
    match FindByName(rows, DefaultTemplateName)
    case None =>
      var t := ConfigTemplate(nextId, DefaultTemplateName, b.current);
      assert (rows + [t])[|rows|] == t;
      EnsureOutcome(rows + [t], nextId + 1, t)
    case Some(i) =>
      if rows[i].content == b.legacy then
        var t := rows[i].(content := b.current);
        assert rows[i := t][i] == t;
        EnsureOutcome(rows[i := t], nextId, t)
      else EnsureOutcome(rows, nextId, rows[i])
  }

  /** With no template named "default", one is created with the built-in
      body and the next id. */
  lemma EnsureDefaultCreates(b: Bodies, rows: seq<ConfigTemplate>, nextId: nat)
    requires b.current != b.legacy
    requires FindByName(rows, DefaultTemplateName).None?
    ensures var r := EnsureDefaultOn(b, rows, nextId);
      r.template == ConfigTemplate(nextId, DefaultTemplateName, b.current) &&
      r.rows == rows + [r.template] && r.nextId == nextId + 1
  {
  }

  /** A stored default whose body is exactly the legacy one is rewritten to
      the built-in body; nothing else changes. */
  lemma EnsureDefaultMigratesLegacy(b: Bodies, rows: seq<ConfigTemplate>, nextId: nat, i: nat)
    requires b.current != b.legacy
    requires NamesUnique(rows)
    requires i < |rows| && rows[i].name == DefaultTemplateName
    requires rows[i].content == b.legacy
    ensures var r := EnsureDefaultOn(b, rows, nextId);
      r.template == rows[i].(content := b.current) &&
      r.rows == rows[i := r.template] && r.nextId == nextId
  {
    FindByNameInValid(rows, DefaultTemplateName, i);
  }

  /** Any other stored default is returned as it is, and the table is left
      alone. */
  lemma EnsureDefaultKeepsOther(b: Bodies, rows: seq<ConfigTemplate>, nextId: nat, i: nat)
    requires b.current != b.legacy
    requires NamesUnique(rows)
    requires i < |rows| && rows[i].name == DefaultTemplateName
    requires rows[i].content != b.legacy
    ensures EnsureDefaultOn(b, rows, nextId) == EnsureOutcome(rows, nextId, rows[i])
  {
    FindByNameInValid(rows, DefaultTemplateName, i);
  }

  /** A second `EnsureDefault` changes nothing and returns the same
      template. */
  lemma EnsureDefaultIdempotent(b: Bodies, rows: seq<ConfigTemplate>, nextId: nat)
    requires b.current != b.legacy
    ensures var r := EnsureDefaultOn(b, rows, nextId);
      EnsureDefaultOn(b, r.rows, r.nextId) == r
  {
    var r := EnsureDefaultOn(b, rows, nextId);
    match FindByName(rows, DefaultTemplateName)
    case None =>
      FindByNameAt(r.rows, DefaultTemplateName, |rows|);
    case Some(i) =>
      assert forall j :: 0 <= j < i ==> r.rows[j] == rows[j];
      FindByNameAt(r.rows, DefaultTemplateName, i);
  }

  lemma EnsureDefaultKeepsValid(b: Bodies, rows: seq<ConfigTemplate>, nextId: nat)
    requires b.current != b.legacy
    requires TableValid(rows, nextId)
    ensures var r := EnsureDefaultOn(b, rows, nextId);
      TableValid(r.rows, r.nextId)
  {
    var r := EnsureDefaultOn(b, rows, nextId);
    match FindByName(rows, DefaultTemplateName)
    case None =>
      AppendKeepsValid(rows, nextId, r.template);
    case Some(i) =>
      ContentChangeKeepsValid(rows, nextId, i, b.current);
  }

  lemma AppendKeepsValid(rows: seq<ConfigTemplate>, nextId: nat, t: ConfigTemplate)
    requires TableValid(rows, nextId)
    requires t.id == nextId && forall i :: 0 <= i < |rows| ==> rows[i].name != t.name
    ensures TableValid(rows + [t], nextId + 1)
  {
    var s := rows + [t];
    assert forall i :: 0 <= i < |rows| ==> s[i] == rows[i];
    assert forall i :: 0 <= i < |rows| ==> rows[i].id < nextId by {
      forall i | 0 <= i < |rows| ensures rows[i].id < nextId {
        assert rows[i] in rows;
      }
    }
  }

  lemma ContentChangeKeepsValid(rows: seq<ConfigTemplate>, nextId: nat, i: nat, content: string)
    requires TableValid(rows, nextId) && i < |rows|
    ensures TableValid(rows[i := rows[i].(content := content)], nextId)
  {
    var s := rows[i := rows[i].(content := content)];
    assert forall j :: 0 <= j < |rows| ==> s[j].id == rows[j].id && s[j].name == rows[j].name;
    forall u | u in s ensures 0 < u.id < nextId {
      var j :| 0 <= j < |s| && s[j] == u;
      assert rows[j] in rows;
    }
  }

  /** Whether some row already has the given id. */
  predicate IdTaken(rows: seq<ConfigTemplate>, id: nat) {
    exists i :: 0 <= i < |rows| && rows[i].id == id
  }

  /** Number of leading rows whose id is below `id`: where a row with that
      id goes in an id-ordered table. */
  function IdSlot(rows: seq<ConfigTemplate>, id: nat): (k: nat)
    ensures k <= |rows|
    ensures forall i :: 0 <= i < k ==> rows[i].id < id
    ensures k < |rows| ==> id <= rows[k].id
  {
    if rows == [] || id <= rows[0].id then 0 else 1 + IdSlot(rows[1..], id)
  }

  /** The table after inserting `t` at its place in id order. The
      auto-increment counter moves past an explicit id above it. */
  function InsertWithId(rows: seq<ConfigTemplate>, nextId: nat, t: ConfigTemplate): (r: (seq<ConfigTemplate>, nat))
  {
    var k := IdSlot(rows, t.id);
    (rows[..k] + [t] + rows[k..], if t.id < nextId then nextId else t.id + 1)
  }

  lemma InsertWithIdKeepsValid(rows: seq<ConfigTemplate>, nextId: nat, t: ConfigTemplate)
    requires TableValid(rows, nextId)
    requires 0 < t.id && !IdTaken(rows, t.id)
    requires forall i :: 0 <= i < |rows| ==> rows[i].name != t.name
    ensures var r := InsertWithId(rows, nextId, t);
      TableValid(r.0, r.1) && r.0[IdSlot(rows, t.id)] == t
  {
    var k := IdSlot(rows, t.id);
    var r := InsertWithId(rows, nextId, t);
    InsertAtPositions(rows, k, t);
    InsertAtKeepsOrder(rows, k, t);
    forall u | u in r.0 ensures 0 < u.id < r.1 {
      var j :| 0 <= j < |r.0| && r.0[j] == u;
      if j != k {
        var m := if j < k then j else j - 1;
        assert rows[m] in rows;
      }
    }
  }

  /** Where each row sits after an insert at position `k`. */
  lemma InsertAtPositions(rows: seq<ConfigTemplate>, k: nat, t: ConfigTemplate)
    requires k <= |rows|
    ensures var s := rows[..k] + [t] + rows[k..];
      |s| == |rows| + 1 && s[k] == t &&
      (forall i :: 0 <= i < k ==> s[i] == rows[i]) &&
      (forall i :: k < i < |s| ==> s[i] == rows[i - 1])
  {
  }

  lemma InsertAtKeepsOrder(rows: seq<ConfigTemplate>, k: nat, t: ConfigTemplate)
    requires IdsAscending(rows) && NamesUnique(rows)
    requires k <= |rows| && !IdTaken(rows, t.id)
    requires forall i :: 0 <= i < k ==> rows[i].id < t.id
    requires k < |rows| ==> t.id <= rows[k].id
    requires forall i :: 0 <= i < |rows| ==> rows[i].name != t.name
    ensures IdsAscending(rows[..k] + [t] + rows[k..]) && NamesUnique(rows[..k] + [t] + rows[k..])
  {
    var s := rows[..k] + [t] + rows[k..];
    InsertAtPositions(rows, k, t);
    assert forall i :: k <= i < |rows| ==> t.id < rows[i].id by {
      forall i | k <= i < |rows| ensures t.id < rows[i].id {
        assert rows[k].id <= rows[i].id;
        assert rows[i].id != t.id;
      }
    }
  }

  /** What `Upsert` does to the table with the bound payload: keyed by name,
      an existing row gets the payload's content (its id and name stay);
      otherwise the payload is inserted, under the next id when its id is 0
      and under its own id otherwise, which fails when that id is taken. */
  function UpsertOn(rows: seq<ConfigTemplate>, nextId: nat, payload: ConfigTemplate): (r: Result<(seq<ConfigTemplate>, nat), StoreError>)
    ensures r.Failure? <==> FindByName(rows, payload.name).None? && payload.id != 0 && IdTaken(rows, payload.id)
    ensures r.Failure? ==> r.error == DuplicateId(payload.id)
    ensures r.Success? ==>
      FindByName(r.value.0, payload.name).Some? &&
      r.value.0[FindByName(r.value.0, payload.name).value].content == payload.content
  {
    match FindByName(rows, payload.name)
    case None =>
      if payload.id == 0 then
        var t := payload.(id := nextId);
        FindByNameAt(rows + [t], payload.name, |rows|);
        Success((rows + [t], nextId + 1))
      else if IdTaken(rows, payload.id) then Failure(DuplicateId(payload.id))
      else
        var k := IdSlot(rows, payload.id);
        var r := InsertWithId(rows, nextId, payload);
        assert forall i :: 0 <= i < k ==> r.0[i] == rows[i];
        assert r.0[k] == payload;
        FindByNameAt(r.0, payload.name, k);
        Success(r)
    case Some(i) =>
      var t := rows[i].(content := payload.content);
      assert forall j :: 0 <= j < i ==> rows[i := t][j] == rows[j];
      FindByNameAt(rows[i := t], payload.name, i);
      Success((rows[i := t], nextId))
  }

  /** Upserting an existing name changes that row's content and nothing
      else: not its id, not its name, not any other row, whatever id the
      payload carries. */
  lemma UpsertUpdatesInPlace(rows: seq<ConfigTemplate>, nextId: nat, payload: ConfigTemplate, i: nat)
    requires NamesUnique(rows)
    requires i < |rows| && rows[i].name == payload.name
    ensures UpsertOn(rows, nextId, payload) == Success((rows[i := rows[i].(content := payload.content)], nextId))
  {
    FindByNameInValid(rows, payload.name, i);
  }

  /** Upserting a new name with id 0 adds one row with the next id. */
  lemma UpsertCreates(rows: seq<ConfigTemplate>, nextId: nat, payload: ConfigTemplate)
    requires forall i :: 0 <= i < |rows| ==> rows[i].name != payload.name
    requires payload.id == 0
    ensures UpsertOn(rows, nextId, payload) ==
      Success((rows + [ConfigTemplate(nextId, payload.name, payload.content)], nextId + 1))
  {
  }

  /** Upserting a new name with a free id stores the payload as sent, at its
      place in id order, and the counter moves past that id. */
  lemma UpsertCreatesWithId(rows: seq<ConfigTemplate>, nextId: nat, payload: ConfigTemplate)
    requires TableValid(rows, nextId)
    requires forall i :: 0 <= i < |rows| ==> rows[i].name != payload.name
    requires payload.id != 0 && !IdTaken(rows, payload.id)
    ensures var r := UpsertOn(rows, nextId, payload);
      r.Success? && payload in r.value.0 && |r.value.0| == |rows| + 1 &&
      (forall u :: u in rows ==> u in r.value.0) &&
      r.value.1 == (if payload.id < nextId then nextId else payload.id + 1)
  {
    var k := IdSlot(rows, payload.id);
    var s := InsertWithId(rows, nextId, payload).0;
    assert s[k] == payload;
    forall u | u in rows ensures u in s {
      var j :| 0 <= j < |rows| && rows[j] == u;
      if j < k { assert s[j] == u; } else { assert s[j + 1] == u; }
    }
  }

  /** A new name whose payload carries an id already in use is refused, and
      the table is unchanged (there is nothing to undo). */
  lemma UpsertRefusesTakenId(rows: seq<ConfigTemplate>, nextId: nat, payload: ConfigTemplate, i: nat)
    requires forall j :: 0 <= j < |rows| ==> rows[j].name != payload.name
    requires payload.id != 0 && i < |rows| && rows[i].id == payload.id
    ensures UpsertOn(rows, nextId, payload) == Failure(DuplicateId(payload.id))
  {
  }

  lemma UpsertKeepsValid(rows: seq<ConfigTemplate>, nextId: nat, payload: ConfigTemplate)
    requires TableValid(rows, nextId)
    ensures var r := UpsertOn(rows, nextId, payload);
      r.Success? ==> TableValid(r.value.0, r.value.1)
  {
    match FindByName(rows, payload.name)
    case None =>
      if payload.id == 0 {
        AppendKeepsValid(rows, nextId, payload.(id := nextId));
      } else if !IdTaken(rows, payload.id) {
        InsertWithIdKeepsValid(rows, nextId, payload);
      }
    case Some(i) =>
      ContentChangeKeepsValid(rows, nextId, i, payload.content);
  }

  /** Upserting the same payload twice is the same as once. */
  lemma UpsertIdempotent(rows: seq<ConfigTemplate>, nextId: nat, payload: ConfigTemplate)
    requires UpsertOn(rows, nextId, payload).Success?
    ensures var r := UpsertOn(rows, nextId, payload).value;
      UpsertOn(r.0, r.1, payload) == Success(r)
  {
    var r := UpsertOn(rows, nextId, payload).value;
    var i := FindByName(r.0, payload.name).value;
    assert r.0[i := r.0[i].(content := payload.content)] == r.0;
  }

  /** The rows without the given id, in their order. */
  function RemoveId(rows: seq<ConfigTemplate>, id: nat): (r: seq<ConfigTemplate>)
    ensures |r| <= |rows|
    ensures forall t :: t in r <==> t in rows && t.id != id
  {
    if rows == [] then []
    else if rows[0].id == id then RemoveId(rows[1..], id)
    else [rows[0]] + RemoveId(rows[1..], id)
  }

  /** Code-point lexicographic order on names. */
  predicate NameLe(a: string, b: string) {
    a == [] || (b != [] && (a[0] < b[0] || (a[0] == b[0] && NameLe(a[1..], b[1..]))))
  }

  lemma {:induction false} NameLeTotal(a: string, b: string)
    ensures NameLe(a, b) || NameLe(b, a)
  {
    if a != [] && b != [] && a[0] == b[0] {
      NameLeTotal(a[1..], b[1..]);
    }
  }

  predicate SortedByName(ts: seq<ConfigTemplate>) {
    forall i :: 0 <= i < |ts| - 1 ==> NameLe(ts[i].name, ts[i + 1].name)
  }

  function InsertByName(t: ConfigTemplate, ts: seq<ConfigTemplate>): (r: seq<ConfigTemplate>)
    requires SortedByName(ts)
    ensures SortedByName(r)
    ensures multiset(r) == multiset(ts) + multiset{t}
    ensures |r| == |ts| + 1 && (r[0] == t || (ts != [] && r[0] == ts[0]))
  {
    if ts == [] || NameLe(t.name, ts[0].name) then [t] + ts
    else
      NameLeTotal(t.name, ts[0].name);
      var rest := InsertByName(t, ts[1..]);
      assert ts == [ts[0]] + ts[1..];
      [ts[0]] + rest
  }

  /** The rows ordered by name, for `ORDER BY name`; names compare in code
      point order, not by the database's collation. */
  function SortByName(ts: seq<ConfigTemplate>): (r: seq<ConfigTemplate>)
    ensures SortedByName(r)
    ensures multiset(r) == multiset(ts)
  {
    if ts == [] then []
    else
      assert ts == [ts[0]] + ts[1..];
      InsertByName(ts[0], SortByName(ts[1..]))
  }

  class TemplateService {
    const bodies: Bodies
    var rows: seq<ConfigTemplate>
    var nextId: nat

    ghost predicate Valid()
      reads this
    {
      bodies.current != bodies.legacy && TableValid(rows, nextId)
    }

    /** An empty store over the shipped bodies. */
    constructor()
      ensures bodies == BuiltIn && rows == [] && nextId == 1 && Valid()
    {
      BuiltInDistinct();
      bodies := BuiltIn;
      rows := [];
      nextId := 1;
    }

    method GetByName(name: string) returns (r: Option<ConfigTemplate>)
      ensures r.None? <==> forall i :: 0 <= i < |rows| ==> rows[i].name != name
      ensures r.Some? ==> r.value in rows && r.value.name == name
    {
      match FindByName(rows, name)
      case None => r := None;
      case Some(i) => r := Some(rows[i]);
    }

    method EnsureDefault() returns (t: ConfigTemplate)
      requires Valid()
      modifies this
      ensures Valid()
      ensures EnsureDefaultOn(bodies, old(rows), old(nextId)) == EnsureOutcome(rows, nextId, t)
    {
      EnsureDefaultKeepsValid(bodies, rows, nextId);
      match FindByName(rows, DefaultTemplateName)
      case None =>
        t := ConfigTemplate(nextId, DefaultTemplateName, bodies.current);
        rows := rows + [t];
        nextId := nextId + 1;
      case Some(i) =>
        t := rows[i];
        if t.content == bodies.legacy {
          t := t.(content := bodies.current);
          rows := rows[i := t];
        }
    }

    /** On a refusal nothing is stored. */
    method Upsert(payload: ConfigTemplate) returns (err: Option<StoreError>)
      requires Valid()
      modifies this
      ensures Valid()
      ensures var r := UpsertOn(old(rows), old(nextId), payload);
        if r.Success? then err.None? && (rows, nextId) == r.value
        else err == Some(r.error) && rows == old(rows) && nextId == old(nextId)
    {
      UpsertKeepsValid(rows, nextId, payload);
      ghost var r := UpsertOn(rows, nextId, payload);
      match FindByName(rows, payload.name)
      case None =>
        if payload.id == 0 {
          rows := rows + [payload.(id := nextId)];
          nextId := nextId + 1;
          err := None;
        } else if IdTaken(rows, payload.id) {
          err := Some(DuplicateId(payload.id));
        } else {
          assert r == Success(InsertWithId(rows, nextId, payload));
          var k := IdSlot(rows, payload.id);
          rows := rows[..k] + [payload] + rows[k..];
          nextId := if payload.id < nextId then nextId else payload.id + 1;
          err := None;
        }
      case Some(i) =>
        rows := rows[i := rows[i].(content := payload.content)];
        err := None;
    }

    method List() returns (r: seq<ConfigTemplate>)
      ensures SortedByName(r) && multiset(r) == multiset(rows)
    {
      r := SortByName(rows);
    }

    /** Deleting an id that is not there is not an error. */
    method Delete(id: nat)
      requires Valid()
      modifies this
      ensures Valid()
      ensures rows == RemoveId(old(rows), id) && nextId == old(nextId)
    {
      RemoveIdKeepsValid(rows, nextId, id);
      rows := RemoveId(rows, id);
    }
  }

  lemma TailKeepsOrder(rows: seq<ConfigTemplate>)
    requires rows != [] && IdsAscending(rows) && NamesUnique(rows)
    ensures IdsAscending(rows[1..]) && NamesUnique(rows[1..])
    ensures forall u :: u in rows[1..] ==> rows[0].id < u.id && rows[0].name != u.name
  {
    var tail := rows[1..];
    assert forall i :: 0 <= i < |tail| ==> tail[i] == rows[i + 1];
    forall u | u in tail ensures rows[0].id < u.id && rows[0].name != u.name {
      var j :| 0 <= j < |tail| && tail[j] == u;
      assert rows[j + 1] == u;
    }
  }

  lemma PrependKeepsOrder(t: ConfigTemplate, rest: seq<ConfigTemplate>)
    requires IdsAscending(rest) && NamesUnique(rest)
    requires forall u :: u in rest ==> t.id < u.id && t.name != u.name
    ensures IdsAscending([t] + rest) && NamesUnique([t] + rest)
  {
    var r := [t] + rest;
    assert forall i :: 0 < i < |r| ==> r[i] == rest[i - 1] && rest[i - 1] in rest;
  }

  lemma {:induction false} RemoveIdKeepsOrder(rows: seq<ConfigTemplate>, id: nat)
    requires IdsAscending(rows) && NamesUnique(rows)
    ensures IdsAscending(RemoveId(rows, id)) && NamesUnique(RemoveId(rows, id))
  {
    if rows != [] {
      TailKeepsOrder(rows);
      RemoveIdKeepsOrder(rows[1..], id);
      if rows[0].id != id {
        PrependKeepsOrder(rows[0], RemoveId(rows[1..], id));
      }
    }
  }

  lemma RemoveIdKeepsValid(rows: seq<ConfigTemplate>, nextId: nat, id: nat)
    requires TableValid(rows, nextId)
    ensures TableValid(RemoveId(rows, id), nextId)
  {
    RemoveIdKeepsOrder(rows, id);
  }
}
