# nebula_manager core, modelled in Dafny

nebula_manager is a web service that runs a Nebula overlay network. An
operator creates a certificate authority (CA), sets network-wide settings
and adds nodes. For each node the service signs a certificate with the
external `nebula-cert` tool, renders a `config.yml` from a template, stores
the node, and writes the artifacts to a data directory. It also hands out
an install script and a tar bundle for each node. This project models the
logic behind those operations and proves properties of it.

Each module follows one part of the program:

- `Wrappers`, `Numbers`, `Text` (wrappers.dfy, numbers.dfy, text.dfy): `Result`/`Option`, Go's 64-bit `int` and `%d`/`strconv.Atoi`, and the `strings` functions the core uses.
- `Models` (models.dfy): the stored records: node, CA, network setting, template.
- `Certs` (certs.dfy): `internal/utils/certs.go`: the `-duration` and CIDR helpers, the CA format gate, the exact argument vectors, the one retry without `-duration`, and `GenerateCA`/`GenerateNodeCertificate` as methods of a `CertTool` class that logs its runs.
- `MySql` (mysql.dfy): `internal/utils/mysql.go`: the DSN parser with its four error cases, the builder, and their round trip.
- `Templates` (templates.dfy): `internal/services/template_service.go`: both built-in bodies, create-if-missing, the exact-match legacy migration, upsert by name, delete by id, and the listing by name, with a `TemplateService` class over the table.
- `Render` (render.dfy): the data handed to `text/template`, the engine as an oracle, and a concrete rendering of the default body.
- `Settings` (settings.dfy): `internal/services/settings_service.go`: get-or-create with defaults and the non-zero-overwrites merge, with a `SettingsService` class.
- `CAStore` (ca.dfy): `internal/services/ca_service.go`: the CA read and the transactional replace, with a `CAService` class.
- `Subnet` (subnet.dfy): `normalizeSubnetInput` and `defaultMaskForIP`.
- `NodeText` (nodetext.dfy): the node service's pure text: proxy mode and prefix, `escapeForDoubleQuotes`, the base URLs, `installCommand`, the install script, and the artifact file names and bundle entries.
- `NodeRecords` (noderecords.dfy): the node service's request and response shapes and its specification functions: subnet repair, port and validity fallbacks, the lighthouse list, node creation and regeneration, the node view, and the artifact files.
- `Writers` (writers.dfy): the tar writer the bundle is built with.
- `Nodes` (nodes.dfy): `internal/services/node_service.go` as a `NodeService` class.

`NodeService` holds the node table, the files under the data directory and
the id counter. It refers to the CA, template and settings services and the
signing tool, as the Go struct does. Each service method is proved against
a specification function of `NodeRecords`. Lemmas then prove what that
function promises.

## How the environment is modelled

- **Database.** Each service owns its table as a field: a sequence of rows
  in id order, plus the next auto-increment id. A gorm `Order("name")` or
  `Order("created_at desc")` listing is modelled as a sort by name or as
  newest-first order. Newest-first is reverse id order, because rows are
  created with increasing ids. A `Find` with no `ORDER BY`, such as the
  lighthouse query, is taken to return rows in id order, which is what
  MySQL usually does but does not promise.
- **Name comparison.** Names are compared character by character, and
  sorted in code-point order. The database is created with the collation
  `utf8mb4_unicode_ci`, which compares case-insensitively, ignores accents
  and trailing spaces, and orders names accordingly. That collation only
  holds when the database did not exist before (`CREATE DATABASE IF NOT
  EXISTS` keeps an existing one's collation), so it depends on the
  deployment. The model is exact for names that differ in more than case,
  accents or trailing spaces. The "## Left out" lines name each member
  concerned.
- **Transactions.** The CA replace is all-or-nothing. A delete or insert
  fault is a parameter of the operation.
- **Address parsing.** `net.ParseIP` and `net.ParseCIDR` form an `AddrParser`
  oracle. It returns the address family, or the prefix length of a network.
- **The signing tool.** `nebula-cert` is a `Signer` oracle from an argument
  vector to a reply. The reply is either the written certificate and key or
  a failure with its combined output. `os.MkdirTemp`'s random suffix is a
  counter.
- **The template engine.** `text/template` is a `Renderer` oracle.
  `Render.RenderDefault` shows how it lays out the built-in default body,
  and `RendersDefaultBody` states that an engine agrees with it.
- **The install script.** `GenerateInstallScript` writes its lines one by
  one into a `strings.Builder`. The model keeps the text written so far as a
  local string. A long line is one write whose literal is split over several
  Dafny literals.
- **The file system.** The files under the data directory are a map from
  (directory, file name) to content and mode.

## Behaviour worth noting

These properties are proved about the code as it is written:

- A node named `ca` has its certificate written as `ca.crt`, the CA file's
  name. The bundle then holds two members with that name, and the data
  directory holds the node certificate in place of the CA certificate. See
  `NodeText.BundleNamesDistinct` and `NodeText.ArtifactFilesContents`.
- The retry decision in `GenerateNodeCertificate` reads the whole error
  text, and that text repeats the command line. A common name that contains
  one of the two retry phrases therefore makes every failed first run retry.
  See `Certs.RetryPhraseInName`.
- `Create` stores the request's port, or else the settings' handshake port,
  which may be 0. The 4242 fallback is applied only on the next refresh.
  See `NodeRecords.CreateAndRefreshPorts`.
- `NODE_NAME` is written into the script without escaping. A name free of
  `\`, `"`, `$` and backquotes reads back unchanged (`NodeText.PlainReadsBack`).
  An escaped value reads back exactly when it holds no `$` and no backquote
  (`NodeText.EscapeReadsBack`).
- `Upsert` with a new name inserts the bound payload as it is, so an `id`
  in the request body is stored as given, and an id already in use makes
  the insert fail (`Templates.UpsertCreatesWithId`,
  `Templates.UpsertRefusesTakenId`). After an explicit id above the
  counter, the auto-increment counter moves past it, as InnoDB does.
- `writeArtifacts` writes all four files with mode 0600, `config.yml`
  included, while the bundle gives `config.yml` mode 0640. The model follows
  the code in both places.
- `installCommand` and the script's base URLs use `strings.TrimRight(…, "/")`,
  which removes every trailing slash, not only one.

## Model

| member | source | states |
|---|---|---|
| Numbers.Wrap64 | internal/utils/certs.go:118 | Go's 64-bit `int` arithmetic: values in range are kept, and the result is congruent to the exact value modulo 2^64 |
| Numbers.NatToString | internal/services/node_service.go:312 | `%d` of a natural number: non-empty decimal digits with no leading zero |
| Numbers.IntToString | internal/services/node_service.go:722 | `%d` of an integer: a `-` before the digits exactly for a negative value |
| Numbers.Atoi | internal/services/node_service.go:709 | `strconv.Atoi` accepts only an optional `+` or `-` followed by at least one digit |
| Numbers.AtoiMeaning | internal/services/node_service.go:709 | `Atoi` succeeds exactly on an optional sign and digits whose value fits in 64 bits, and returns that value |
| Numbers.DigitsValueOfNatToString | internal/services/node_service.go:709-722 | the digits of a number read back as the number |
| Numbers.AtoiOfIntToString | internal/services/node_service.go:709-722 | `Atoi` reads back what `%d` writes |
| Numbers.AtoiPaddedOrPlus | internal/services/node_service.go:709 | zero-padded digits and an explicit `+` are accepted and read as the plain digits, so `/024` and `/+24` are masks of 24 |
| Numbers.NatToStringInjective | internal/services/node_service.go:263 | distinct ids print differently |
| Text.TrimSpace | internal/services/node_service.go:692 | `strings.TrimSpace`: no longer than the input, and neither end is white space |
| Text.TrimSpaceRemovesOnlyBlanks | internal/services/node_service.go:692 | the result is a contiguous part of the input with only white space before and after it |
| Text.TrimSpaceIdempotent | internal/services/node_service.go:692-700 | trimming twice equals trimming once |
| Text.TrimSpaceIgnoresPadding | internal/services/node_service.go:692 | white space around a text does not change its trimmed form |
| Text.TrimSpaceToLower | internal/services/node_service.go:681 | trimming and lower-casing commute |
| Text.ToLower | internal/services/node_service.go:681 | maps each character by `LowerChar` and keeps the length; `LowerChar` lowers A to Z and the two non-ASCII capitals whose lower case is ASCII, which is all that decides a comparison with `ipv4` or `ipv6` |
| Text.IndexOfChar | internal/utils/mysql.go:47 | `strings.Index` of one character: none exactly when it is absent, otherwise its first position |
| Text.LastIndexOfChar | internal/utils/mysql.go:54 | `strings.LastIndex` of one character: none exactly when it is absent, otherwise its last position |
| Text.IndexOf | internal/utils/mysql.go:21 | `strings.Index`: the first position where the pattern occurs, or none when it never does |
| Text.TrimRightChar | internal/services/node_service.go:258 | `strings.TrimRight` with one character: a prefix of the input, not ending in it, and every removed character is it |
| Text.Split | internal/services/node_service.go:641 | `strings.Split`: at least one part, none holding the separator |
| Text.SplitJoin | internal/services/node_service.go:638-642 | splitting a join by a separator that no part holds gives back the parts |
| Text.JoinContainsPart | internal/utils/certs.go:134 | a joined command line contains each of its arguments |
| Certs.DurationDaysArg | internal/utils/certs.go:114-119 | the value is the canonical decimal of 8760 for a non-positive day count, otherwise of the day count times 24 wrapped to 64 bits, followed by `h`; the digits read back as that number |
| Certs.DurationOfDefault | internal/utils/certs.go:114-119 | a non-positive day count gives exactly `8760h` |
| Certs.EnsureCIDR | internal/utils/certs.go:121-126 | the result always holds a `/`; an address holding one is kept unchanged, any other is trimmed and suffixed with `/32` |
| Certs.EnsureCIDRIdempotent | internal/utils/certs.go:121-126 | applying it twice equals applying it once |
| Certs.SignArgsName | internal/utils/certs.go:80-91 | the signing vector has fifteen arguments, and the common name is its seventh |
| Certs.ToolErrorText | internal/utils/certs.go:128-139 | the error text of a failed run contains the whole command line joined by spaces |
| Certs.RunResult | internal/utils/certs.go:128-139 | a run succeeds exactly when the tool wrote its files, giving their contents; a failed run gives the tool error text |
| Certs.CAGate | internal/utils/certs.go:53-58 | the gate passes exactly when the certificate holds `NEBULA CERTIFICATE` and the key holds `NEBULA `; it reports the certificate error exactly when the certificate marker is missing |
| Certs.GateRejectsBeforeSigning | internal/utils/certs.go:53-58 | a malformed CA makes no tool call and fails with the certificate error, or else the key error |
| Certs.FirstSigningArguments | internal/utils/certs.go:60-93 | with a well-formed CA there are one or two runs, and the first is given the full vector including `-duration` |
| Certs.RetryWithoutDuration | internal/utils/certs.go:93-97 | a first failure whose text names either phrase leads to exactly one more run, without `-duration`, and that run decides the outcome |
| Certs.NoRetryOtherwise | internal/utils/certs.go:93-101 | a first run that succeeds, or fails with any other text, is the only run and decides the outcome |
| Certs.RetryPhraseInName | internal/utils/certs.go:93-95 | a common name that contains either retry phrase makes any failed first run retry, because the error text repeats the command line |
| Certs.CAValidityClamped | internal/utils/certs.go:13-32 | a non-positive validity asks the tool for a CA valid `8760h`, with the output files in the temporary directory |
| Certs.CertTool.MakeTempDir | internal/utils/certs.go:18 | every temporary directory gets a fresh name, and no tool call is made |
| Certs.CertTool.Run | internal/utils/certs.go:128-139 | one tool run: the reply is the signer's, and the call is logged |
| Certs.CertTool.GenerateCA | internal/utils/certs.go:13-47 | one temporary directory and one tool run with the CA vector, its validity defaulted to 365 days; the result is `CAResult` |
| Certs.CertTool.GenerateNodeCertificate | internal/utils/certs.go:51-112 | the result and the logged runs are `NodeSignResult` and `NodeSignCalls`: the gate, then the full run, then the retry without `-duration` |
| MySql.SplitCredentials | internal/utils/mysql.go:45-50 | without a `:` everything is the user and the password is empty; otherwise user, `:` and password rebuild the input, and the user holds no `:` |
| MySql.SplitHostPort | internal/utils/mysql.go:52-57 | without a `:` the port defaults to 3306; otherwise host, `:` and port rebuild the input, and the port holds no `:` (the split is at the last colon) |
| MySql.SplitPath | internal/utils/mysql.go:38-43 | without a `?` the parameters are empty; otherwise name, `?` and parameters rebuild the input, and the name holds no `?` |
| MySql.ParseMySQLDSN | internal/utils/mysql.go:19-71 | fails as an unsupported format exactly when the marker `@tcp(` is missing; a success has a non-empty database name without `?`, and a user and port without `:` |
| MySql.ParseAfterMarker | internal/utils/mysql.go:27-32 | no closing parenthesis after the marker means the missing-parenthesis error |
| MySql.ParseAfterParen | internal/utils/mysql.go:33-36 | a path that does not start with `/` is exactly the missing-segment error |
| MySql.UserPart | internal/utils/mysql.go:88-91 | the user alone when the password is empty, else user, `:` and password |
| MySql.BuildMySQLDSN | internal/utils/mysql.go:74-100 | every built DSN contains the `@tcp(` marker |
| MySql.ParseMarkerCut | internal/utils/mysql.go:20-26 | the parse cuts at the first marker |
| MySql.ParseParenCut | internal/utils/mysql.go:27-32 | the host part ends at the first closing parenthesis |
| MySql.ParseMissingClosingParen | internal/utils/mysql.go:27-30 | a DSN with no `)` after the marker is refused with the missing-parenthesis error |
| MySql.ParseMissingDatabaseSegment | internal/utils/mysql.go:33-35 | a DSN whose path does not start with `/` is refused with the missing-segment error |
| MySql.ParseFields | internal/utils/mysql.go:36-70 | the fields of a well-formed DSN are those of the three splits, and an empty database name is refused |
| MySql.CredentialsOfUserPart | internal/utils/mysql.go:45-50 | splitting the built user part gives back the user and password |
| MySql.HostPortOfJoin | internal/utils/mysql.go:52-57 | splitting `host:port` at its last colon gives back host and port when the port holds no colon |
| MySql.PathOfJoin | internal/utils/mysql.go:38-43 | splitting `name?params` gives back name and parameters when the name holds no `?` |
| MySql.BuildLayout | internal/utils/mysql.go:74-100 | the built DSN is user part, marker, `host:port` with the port defaulted to 3306, `)`, `/` and the database name, joined with the parameters by `&` when the name already holds `?` and by `?` otherwise |
| MySql.ParseOfBuild | internal/utils/mysql.go:19-100 | parsing a built DSN gives back the info with the new database name and a defaulted port, or the missing-name error for an empty name |
| MySql.RoundTrip | internal/utils/mysql.go:19-100 | for separator-free fields and a non-empty port and name, parsing the built DSN gives back exactly the info |
| MySql.ParseOfBuildMergedParams | internal/utils/mysql.go:80-86 | a database name that already holds `?` gets the info's parameters appended with `&`, and the parse sees the merged parameters |
| Templates.HostMapEntriesDiffer | internal/services/template_service.go:17-22 | the current and the legacy `static_host_map` entries differ |
| Templates.DefaultIsNotLegacy | internal/services/template_service.go:13-105 | the current default body differs from the legacy one, so a migrated row is never migrated again |
| Templates.BuiltInDistinct | internal/services/template_service.go:13-105 | the two built-in bodies are distinct |
| Templates.FindByName | internal/services/template_service.go:143-149 | none exactly when no row carries the name; otherwise the first row that does |
| Templates.FindByNameAt | internal/services/template_service.go:143-149 | the first row carrying the name is the one found |
| Templates.FindByNameInValid | internal/services/template_service.go:143-149 | in a table with unique names, any row carrying the name is the one found |
| Templates.EnsureDefaultOn | internal/services/template_service.go:118-140 | the returned template is named `default`, is in the new table, and never carries the legacy body |
| Templates.EnsureDefaultCreates | internal/services/template_service.go:119-129 | with no `default` row, one with the current body and the next id is appended |
| Templates.EnsureDefaultMigratesLegacy | internal/services/template_service.go:133-138 | a `default` row with the legacy body is rewritten in place with the current body, its id kept |
| Templates.EnsureDefaultKeepsOther | internal/services/template_service.go:133-139 | a `default` row with any other body is returned and nothing changes |
| Templates.EnsureDefaultIdempotent | internal/services/template_service.go:118-140 | a second call right after the first changes nothing and returns the same template |
| Templates.EnsureDefaultKeepsValid | internal/services/template_service.go:118-140 | the table keeps ascending ids below the next id and unique names |
| Templates.AppendKeepsValid | internal/services/template_service.go:126 | appending a row with the next id and a fresh name keeps the table valid |
| Templates.ContentChangeKeepsValid | internal/services/template_service.go:135 | changing one row's content keeps the table valid |
| Templates.UpsertOn | internal/services/template_service.go:161-171 | fails exactly when the name is new and the payload carries an id already in use, with the duplicate-id error; on success the row found under the name carries the payload's content |
| Templates.IdSlot | internal/services/template_service.go:165 | the place of an id in an id-ordered table: every row before it has a smaller id and the row at it does not |
| Templates.UpsertUpdatesInPlace | internal/services/template_service.go:169-170 | an existing name gets its content replaced in place, id, name and counter kept, whatever id the payload carries |
| Templates.UpsertCreates | internal/services/template_service.go:162-166 | a new name with id 0 is appended with the next id |
| Templates.UpsertCreatesWithId | internal/services/template_service.go:162-166 | a new name with a free id is stored as sent, every old row is kept, and the counter moves past that id |
| Templates.UpsertRefusesTakenId | internal/services/template_service.go:162-166 | a new name whose payload id is taken is refused with the duplicate-id error |
| Templates.InsertWithIdKeepsValid | internal/services/template_service.go:165 | inserting a row with a free id at its place keeps ids ascending, names unique and ids below the counter |
| Templates.UpsertKeepsValid | internal/services/template_service.go:161-171 | a successful upsert keeps ascending ids, unique names and ids below the counter |
| Templates.UpsertIdempotent | internal/services/template_service.go:161-171 | repeating a successful upsert with the same payload changes nothing more |
| Templates.RemoveId | internal/services/template_service.go:174-176 | keeps exactly the rows whose id differs |
| Templates.InsertByName | internal/services/template_service.go:152-158 | inserting into a name-sorted list keeps it sorted and adds exactly the one row |
| Templates.SortByName | internal/services/template_service.go:152-158 | the result is sorted by name in code-point order and is a permutation of the input |
| Templates.NameLeTotal | internal/services/template_service.go:154 | the name order is total |
| Templates.TemplateService.GetByName | internal/services/template_service.go:143-149 | not found exactly when no row carries the name; otherwise a stored row with that name |
| Templates.TemplateService.EnsureDefault | internal/services/template_service.go:118-140 | the new table, counter and returned template are `EnsureDefaultOn`'s, and the table stays valid |
| Templates.TemplateService.Upsert | internal/services/template_service.go:161-171 | on success the new table and counter are `UpsertOn`'s and no error is returned; on a refusal `UpsertOn`'s error is returned and nothing changes; the table stays valid |
| Templates.TemplateService.List | internal/services/template_service.go:152-158 | all stored templates, sorted by name in code-point order |
| Templates.TemplateService.Delete | internal/services/template_service.go:174-176 | removes exactly the rows with the id, keeps the counter and the table valid; an unknown id changes nothing |
| Templates.RemoveIdKeepsOrder | internal/services/template_service.go:174-176 | removing rows keeps ids ascending and names unique |
| Templates.RemoveIdKeepsValid | internal/services/template_service.go:174-176 | removing rows keeps the table valid |
| Templates.TemplateService.constructor | internal/services/template_service.go:113-115 | an empty store over the shipped current and legacy bodies, which are distinct |
| CAStore.FirstCA | internal/services/ca_service.go:30-39 | the first CA row, or none exactly when the table is empty; in an id-ordered table it has the smallest id |
| CAStore.ReplaceOn | internal/services/ca_service.go:42-72 | the replace transaction: any generation failure or store fault leaves the table and the id counter as they were; success leaves exactly one row, the new CA with the next id, the request's name and description and the generated pair |
| CAStore.ReplaceKeepsIds | internal/services/ca_service.go:54-69 | a replace keeps every id below the next id, whatever the fault |
| CAStore.ReadBackAfterReplace | internal/services/ca_service.go:30-39 | after a fault-free replace, `GetCA` reads back the CA just stored, under the requested name |
| CAStore.CAService.GetCA | internal/services/ca_service.go:30-39 | hands out the first row of the table, none when empty |
| CAStore.CAService.GenerateOrReplaceCA | internal/services/ca_service.go:42-72 | generates with the tool (its validity defaulted to 365 days when not positive, one temporary directory used), then runs the replace transaction; the new table, counter and result are those of `ReplaceOn`, the table invariant is kept |
| Settings.InitialSetting | internal/services/settings_service.go:31-44 | the row created when none exists: subnet 10.10.0.0/24, port 4242, 365 days, empty hosts and description |
| Settings.Merge | internal/services/settings_service.go:57-71 | each field of the update replaces the stored one exactly when it is non-empty (non-zero for numbers); all other fields, the id included, are kept |
| Settings.MergeUnique | internal/services/settings_service.go:57-71 | the overwrite rule determines the merged row: any row that obeys it is `Merge`'s |
| Settings.MergeEmptyIsIdentity | internal/services/settings_service.go:57-71 | an empty update changes nothing |
| Settings.MergeIdempotent | internal/services/settings_service.go:51-77 | applying the same update twice equals applying it once |
| Settings.MergeKeepsPopulated | internal/services/settings_service.go:57-65 | an update cannot clear the subnet, the port or the validity |
| Settings.MergeSequential | internal/services/settings_service.go:51-77 | two updates in a row equal one update with the second's non-empty fields over the first's |
| Settings.SettingsService.Get | internal/services/settings_service.go:31-48 | returns the stored row, or creates and stores the initial one when there is none |
| Settings.SettingsService.Update | internal/services/settings_service.go:51-77 | reads (creating if needed), merges the request, stores and returns the merged row |
| Subnet.FamilyDefaultMask | internal/services/node_service.go:762-765 | the family default mask is 24 for IPv4 and 64 for IPv6 |
| Subnet.DefaultMaskForIP | internal/services/node_service.go:752-766 | the default mask is always a decimal between 1 and 128, written in canonical form |
| Subnet.DefaultMaskFromSettings | internal/services/node_service.go:753-758 | a parsable default subnet with a positive prefix length gives that length |
| Subnet.DefaultMaskByFamily | internal/services/node_service.go:753-765 | with no settings, a blank or unparsable default subnet, or one of prefix length 0, the mask follows the address family |
| Subnet.SplitSubnetText | internal/services/node_service.go:696-701 | with a `/`, host and mask are the trimmed texts before and after the first `/`; without one, the trimmed text is all host and the mask is empty; the host is trimmed and slash-free |
| Subnet.SplitAtSlash | internal/services/node_service.go:696-701 | text with a `/` splits at the first one into the two trimmed sides |
| Subnet.NormalizeSubnetInput | internal/services/node_service.go:691-724 | fails with the subnet-required error exactly when the input is blank; the host of a success, and the host an invalid-address error names, is the host part of the split of the trimmed input; an invalid-address host does not parse; a success has a parsable host and the CIDR `host/` plus the decimal of the mask part read by `Atoi`, the default mask standing in for an empty mask part, within the family's range |
| Subnet.NormalizeParts | internal/services/node_service.go:702-723 | after the split: an invalid-address error names the unparsable host; a success keeps the host and gives `host/` plus the decimal of the mask text (the default mask for an empty one) read by `Atoi`, within the family's range |
| Subnet.Assign | internal/services/node_service.go:722-723 | the CIDR is `host/` followed by the mask's decimal, which reads back as the mask |
| Subnet.SplitOfHostMask | internal/services/node_service.go:696-701 | text `host/mask` with a trimmed host splits back into host and mask |
| Subnet.RejectsBlank | internal/services/node_service.go:692-695 | blank input is refused with the subnet-required error |
| Subnet.RejectsUnparsableHost | internal/services/node_service.go:702-705 | a host that does not parse is refused with the invalid-address error naming it, with or without a mask |
| Subnet.RejectsNonIntegerMask | internal/services/node_service.go:709-712 | a mask that is not an integer is refused with the invalid-mask error naming it |
| Subnet.RejectsMaskOutOfRange | internal/services/node_service.go:713-721 | a mask below 0 or above 32 (IPv4) or 128 (IPv6) is refused with the invalid-mask error naming it in decimal |
| Subnet.AcceptsHostAndMask | internal/services/node_service.go:713-723 | a parsable host with an in-range mask gives the CIDR `host/mask`, the mask in canonical decimal, and the host |
| Subnet.BareHostTakesDefaultMask | internal/services/node_service.go:706-723 | a host without a mask takes the default mask, and is refused when that mask is too wide for the family |
| Subnet.EmptyMaskTakesDefault | internal/services/node_service.go:696-708 | `host/` with nothing after the `/` is treated as the bare host, so the default mask applies |
| Subnet.SpacesAroundSlash | internal/services/node_service.go:696-701 | white space on either side of the `/` does not change the outcome |
| Subnet.SameSplitSameResult | internal/services/node_service.go:691-724 | the outcome depends on the input only through the split of its trimmed text |
| Subnet.IPv4UnderWideDefaultSubnet | internal/services/node_service.go:706-716 | an IPv4 host without a mask is refused when the default subnet is an IPv6 network with a prefix above 32 |
| Subnet.AcceptsTrimmedHost | internal/services/node_service.go:713-723 | an in-range decimal mask is accepted as written |
| Subnet.NormalizeIdempotent | internal/services/node_service.go:691-724 | normalizing an accepted CIDR again, under any settings, gives the same CIDR and host |
| Render.WithPublicHost | internal/services/template_service.go:18-22 | keeps exactly the lighthouses that have a public host |
| Render.WithPublicHostAppend | internal/services/template_service.go:18-22 | the filter distributes over concatenation |
| Render.HostMapBlockLines | internal/services/template_service.go:17-22 | the `static_host_map` block is one line per lighthouse with a public host, in order |
| Render.HostsBlockLines | internal/services/template_service.go:26-29 | the `hosts` block is one line per lighthouse, in order |
| Render.HostMapBlockAppend | internal/services/template_service.go:18-22 | the `static_host_map` block of a concatenation is the concatenation of the blocks |
| Render.HostMapSkipsPrivate | internal/services/template_service.go:19-21 | a lighthouse without a public host adds nothing to `static_host_map` |
| Render.StaticHostMapInBody | internal/services/template_service.go:17-23 | the rendered default body holds the `static_host_map` key and block, followed by the `lighthouse` key |
| Render.StaticHostMapLines | internal/services/template_service.go:17-23 | the `static_host_map` block splits into its key line and exactly one entry line per lighthouse with a public host |
| Render.HostsInBody | internal/services/template_service.go:26-30 | the rendered default body holds the `hosts` key and block, followed by the `listen` key |
| Render.HostsListLines | internal/services/template_service.go:26-30 | the `hosts` block splits into its key line and one line per lighthouse, so it has one line more than there are lighthouses |
| Render.DevLine | internal/services/template_service.go:36-37 | the tunnel device is `nebula` followed by the device id |
| NodeText.NormalizeProxyMode | internal/services/node_service.go:680-689 | the result is `ipv4`, `ipv6` or empty; it is `ipv4` (`ipv6`) exactly when the trimmed, lower-cased input is |
| NodeText.NormalizeProxyModeIdempotent | internal/services/node_service.go:680-689 | normalizing twice equals normalizing once |
| NodeText.NormalizeProxyModeIgnoresPadding | internal/services/node_service.go:681 | surrounding white space does not change the mode |
| NodeText.NormalizeProxyModeIgnoresCase | internal/services/node_service.go:681 | letter case does not change the mode |
| NodeText.ConfiguredPrefix | internal/services/node_service.go:273-280 | empty exactly when the configured prefix is blank; otherwise the trimmed prefix, ending in `/`, with one added when missing |
| NodeText.ConfiguredPrefixStable | internal/services/node_service.go:273-280 | applying the rule to its own result changes nothing |
| NodeText.ProxyPrefixForNode | internal/services/node_service.go:266-282 | the fixed proxy prefix for `ipv4` and `ipv6` nodes, the configured prefix for any other mode; never non-empty without a trailing `/` |
| NodeText.ProxyPrefixOfNormalized | internal/services/node_service.go:266-282 | for a stored (normalized) mode, a node uses the fixed prefix unless its mode is empty |
| NodeText.EscapeForDoubleQuotes | internal/services/node_service.go:550-553 | every backslash and double quote gains one backslash, so the length grows by their number; text without them is unchanged |
| NodeText.EscapeStep | internal/services/node_service.go:550-553 | reading an escaped value back inside double quotes proceeds one character at a time, failing at `$` or a backquote |
| NodeText.EscapeReadsBack | internal/services/node_service.go:318-322 | the shell reads an escaped value back exactly when it holds no `$` and no backquote, and otherwise does not read it back |
| NodeText.PlainReadsBack | internal/services/node_service.go:313 | a value without backslash, quote, `$` or backquote reads back unchanged even unescaped |
| NodeText.BaseURL | internal/services/node_service.go:292-301 | the configured URL, or the fallback when it is empty, with all trailing slashes removed |
| NodeText.ApiBaseDefault | internal/services/node_service.go:254-257 | the API base defaults to `http://localhost:8080` |
| NodeText.BaseURLEmpty | internal/services/node_service.go:254-258 | the base ends up empty exactly when it was configured as slashes only |
| NodeText.BaseURLIdempotent | internal/services/node_service.go:254-258 | trimming a trimmed base changes nothing |
| NodeText.NebulaVersion | internal/services/node_service.go:302-305 | the configured version, or 1.9.3 when none is configured; never empty |
| NodeText.InstallCommand | internal/services/node_service.go:253-264 | the command holds the install script URL of the node under the trimmed API base, and the header `Authorization: Bearer` followed by the static token when one is set, otherwise by the `${NEBULA_ACCESS_TOKEN:?…}` placeholder |
| NodeText.InstallCommandIdentifiesNode | internal/services/node_service.go:253-264 | two nodes with the same command have the same id |
| NodeText.AfterIdentity | internal/services/node_service.go:309-313 | the identity lines only extend what was written |
| NodeText.AfterDirectories | internal/services/node_service.go:314-316 | the directory lines only extend what was written |
| NodeText.AfterDownloadSettings | internal/services/node_service.go:317-326 | the download settings only extend what was written |
| NodeText.AfterHeader | internal/services/node_service.go:309-326 | the header only extends what was written |
| NodeText.IdentityAssigns | internal/services/node_service.go:309-313 | the script starts with `#!/bin/bash` and sets `NODE_ID` to the decimal id and `NODE_NAME` to the name in double quotes |
| NodeText.DownloadSettingsAssign | internal/services/node_service.go:318-325 | the download base and the proxy prefix are set escaped, and the token line is written |
| NodeText.ScriptHeaderAssigns | internal/services/node_service.go:309-325 | the header starts with `#!/bin/bash` and sets the node id and name, the escaped download base and proxy prefix, and either the escaped static token or the `${NEBULA_ACCESS_TOKEN:?...}` placeholder when there is none |
| NodeText.AfterPrerequisites | internal/services/node_service.go:327-338 | the prerequisite checks only extend what was written |
| NodeText.AfterPlatform | internal/services/node_service.go:339-352 | the platform detection only extends what was written |
| NodeText.AfterBinary | internal/services/node_service.go:353-363 | the binary download only extends what was written |
| NodeText.AfterBundleFetch | internal/services/node_service.go:364-368 | the bundle fetch only extends what was written |
| NodeText.AfterConfigInstall | internal/services/node_service.go:371-372 | the config install only extends what was written |
| NodeText.AfterUnitOpen | internal/services/node_service.go:373-377 | the unit header only extends what was written |
| NodeText.AfterUnitService | internal/services/node_service.go:378-387 | the unit body only extends what was written |
| NodeText.AfterServiceStart | internal/services/node_service.go:388-391 | the service start only extends what was written |
| NodeText.AfterDownloadSteps | internal/services/node_service.go:327-368 | the download steps only extend what was written |
| NodeText.AfterServiceSteps | internal/services/node_service.go:371-391 | the service steps only extend what was written |
| NodeText.InstallScriptShape | internal/services/node_service.go:308-393 | the script begins with the header and installs the node's certificate and key under the node's name |
| NodeText.BundleEntries | internal/services/node_service.go:427-446 | the bundle has four members |
| NodeText.Extract | internal/services/node_service.go:427-446 | unpacking a bundle gives one file per member name |
| NodeText.ArtifactNamesCollide | internal/services/node_service.go:610-615 | a node named `ca` has a certificate file named like the CA file; no other pair of artifact names can coincide |
| NodeText.BundleNamesDistinct | internal/services/node_service.go:427-446 | the four member names are distinct exactly when the node is not named `ca` |
| NodeText.BundleExtractsToFiles | internal/services/node_service.go:427-446 | unpacking the bundle gives the same files as `writeArtifacts` writes |
| NodeText.ArtifactFilesContents | internal/services/node_service.go:610-615 | the files are the CA certificate, `<name>.crt`, `<name>.key` and `config.yml` with their contents, the node certificate winning for a node named `ca` |
| NodeText.ArtifactFilesAreBundle | internal/services/node_service.go:397-456 | the bundle and the data directory agree file by file, with the contents listed above |
| Writers.TarWriter.Add | internal/services/node_service.go:413-425 | each call appends one member with the given name, mode and content |
| Writers.TarWriter.constructor | internal/services/node_service.go:411 | a writer starts with no members |
| NodeRecords.FindNode | internal/services/node_service.go:555-564 | none exactly when no row has the id; otherwise the position of a row with it, the only one in an id-ordered table |
| NodeRecords.Lookup | internal/services/node_service.go:555-564 | `getNode`: a not-found error naming the id exactly when no row has it; otherwise a stored row with that id |
| NodeRecords.DeleteById | internal/services/node_service.go:208-215 | an unknown id leaves the table as it is; a known one removes exactly one row |
| NodeRecords.DeleteByIdKeepsValid | internal/services/node_service.go:208-215 | the table stays valid and keeps exactly the rows whose id differs |
| NodeRecords.CutRowKeepsValid | internal/services/node_service.go:213 | removing one row keeps ids ascending and names unique |
| NodeRecords.CutRowMembers | internal/services/node_service.go:213 | removing the row at a position removes exactly the row with its id |
| NodeRecords.AppendNodeKeepsValid | internal/services/node_service.go:195-197 | inserting a row with the next id and an unused name keeps the table valid (names are unique in the schema) |
| NodeRecords.ReplaceNodeKeepsValid | internal/services/node_service.go:539-541 | saving a row over one with the same id and name keeps the table valid |
| NodeRecords.EnsureNodeSubnet | internal/services/node_service.go:726-750 | a row with both host and CIDR only has its subnet ip set to the host; a success changes only the three subnet fields, leaving the subnet ip equal to the host and the CIDR non-empty; a failure is the normalization error for the CIDR, or the subnet ip when the CIDR is empty |
| NodeRecords.EnsureNodeSubnetIdempotent | internal/services/node_service.go:726-750 | a repaired row is left as it is by a second repair, under any settings |
| NodeRecords.DTOTags | internal/services/node_service.go:639-642 | no tags exactly when the stored text is empty |
| NodeRecords.TagsRoundTrip | internal/services/node_service.go:188 | tags joined with `,` when stored read back as the same list, the single empty tag aside |
| NodeRecords.DisplaySubnet | internal/services/node_service.go:643-664 | a row with CIDR and host shows them as stored; the shown subnet is empty exactly when all three subnet fields are |
| NodeRecords.DisplayLegacyRow | internal/services/node_service.go:645-658 | a legacy row with only a subnet ip shows its normalized CIDR and host |
| NodeRecords.ToNodeDTO | internal/services/node_service.go:638-678 | the view keeps id, name, role, public ip, port and proxy mode, splits the tags, shows the displayed subnet, and its install command holds the install script URL |
| NodeRecords.NodeDTOs | internal/services/node_service.go:95-98 | one view per row |
| NodeRecords.NodeDTOsAt | internal/services/node_service.go:95-98 | the view at each position is that of the row at the same position |
| NodeRecords.NodeDTOsEach | internal/services/node_service.go:95-98 | every view is the view of the row at the same position |
| NodeRecords.NodeDTOsSnoc | internal/services/node_service.go:96-98 | the loop appends one view per row |
| NodeRecords.DefaultPortFor | internal/services/node_service.go:575-578 | the handshake port when it is set, 4242 otherwise; never 0 |
| NodeRecords.ListenPortFor | internal/services/node_service.go:489-500 | the node's port when it is set, otherwise the default port; never 0 |
| NodeRecords.CreatePort | internal/services/node_service.go:125-128 | the request's port when it is set, otherwise the handshake port, which may be 0 |
| NodeRecords.CreateAndRefreshPorts | internal/services/node_service.go:125-128 | a refresh settles the port a create stored on the same port as the request's; the create stores the refresh's port exactly when the request or the settings give one |
| NodeRecords.ValidityFor | internal/services/node_service.go:484-487 | the setting when positive, 365 days otherwise; always positive |
| NodeRecords.SameSigningDuration | internal/services/node_service.go:484-487 | the defaulted validity asks the tool for the same duration as the raw setting, since the tool defaults non-positive values the same way |
| NodeRecords.PublicHost | internal/services/node_service.go:589-592 | empty exactly when the public ip is |
| NodeRecords.PublicHostSplits | internal/services/node_service.go:589-592 | `ip:port` splits at its last colon into the public ip and the decimal port |
| NodeRecords.MakeLighthouse | internal/services/node_service.go:148-158 | the lighthouse entry's public host is `PublicHost` of its ip and port |
| NodeRecords.LighthouseOf | internal/services/node_service.go:580-599 | name and public ip kept; the port defaulted; the subnet host falling back to the subnet ip; a public host exactly when there is a public ip |
| NodeRecords.LighthouseRows | internal/services/node_service.go:567-570 | exactly the rows with the lighthouse role |
| NodeRecords.LighthouseRowsAppend | internal/services/node_service.go:567-570 | the role filter distributes over concatenation |
| NodeRecords.LighthouseList | internal/services/node_service.go:566-602 | one entry per lighthouse row, in order |
| NodeRecords.LighthouseListOfLast | internal/services/node_service.go:566-602 | a new last row adds its entry exactly when it is a lighthouse |
| NodeRecords.NodeContext | internal/services/node_service.go:161-173 | the template data: `ca.crt`, `<name>.crt`, `<name>.key`, device id and name both the node name, the subnet host and CIDR |
| NodeRecords.InsertOutcome | internal/services/node_service.go:195-197 | the insert succeeds exactly when the name is unused, storing the node as built |
| NodeRecords.CreateOn | internal/services/node_service.go:103-205 | an unsupported role, a missing CA and an invalid subnet are refused in that order; a success means the role was supported, the CA present and the name unused |
| NodeRecords.IssueNew | internal/services/node_service.go:130-197 | a success means the name was unused |
| NodeRecords.StoreNew | internal/services/node_service.go:136-197 | a success means the name was unused |
| NodeRecords.CreatedNode | internal/services/node_service.go:103-205 | a created node has the next id, the request's name, role and public ip, the normalized subnet, the create port, the joined tags, a normalized proxy mode, the certificate pair the tool signed, and the config the engine rendered from the template data |
| NodeRecords.IssuedNode | internal/services/node_service.go:130-193 | the same field by field account for a node issued after the subnet was normalized |
| NodeRecords.CreatedSubnetIsStable | internal/services/node_service.go:180-186 | a created node needs no subnet repair later and shows its subnet as stored |
| NodeRecords.CreatedConfigLayout | internal/services/node_service.go:143-178 | with the built-in default body and an engine that renders it as designed, a created node's config lists every lighthouse under `hosts`, itself included when it is one, and names its tunnel device `nebula<name>` |
| NodeRecords.Reissue | internal/services/node_service.go:484-537 | a success changes only the port, now settled, and the certificate, key and config |
| NodeRecords.Rerender | internal/services/node_service.go:507-537 | a success changes only the certificate, key and config, taking the signed pair |
| NodeRecords.RegenerateTable | internal/services/node_service.go:476-548 | the table keeps its length; a success replaces the node's row with the regenerated node; a failure that changed the table only stored the subnet repair |
| NodeRecords.RegeneratedNode | internal/services/node_service.go:476-537 | a regenerated node keeps id, name, role, public ip, tags and proxy mode, takes the settled port and the repaired subnet, and carries the pair the tool signed for its CIDR with the defaulted validity |
| NodeRecords.RegenerateKeepsValid | internal/services/node_service.go:476-548 | the table stays valid |
| NodeRecords.RefreshOutcome | internal/services/node_service.go:458-474 | an unknown id and a missing CA fail without change; a success keeps id and name and replaces that row; the table stays valid |
| NodeRecords.DeleteCreated | internal/services/node_service.go:195-215 | deleting a node just created gives back the table before the create |
| NodeRecords.RemoveWrittenArtifacts | internal/services/node_service.go:216-219 | removing a node's directory removes everything its artifacts wrote |
| NodeRecords.RemoveWritten | internal/services/node_service.go:216-219 | removing a directory undoes any writes under it |
| NodeRecords.RegenerateTwice | internal/services/node_service.go:476-500 | a regenerated node needs no second subnet repair and its port is settled under any settings |
| NodeRecords.Writes | internal/services/node_service.go:617-622 | the written paths are exactly the named files in the node directory |
| NodeRecords.RemoveTree | internal/services/node_service.go:216-219 | keeps exactly the files outside the directory, with their contents |
| NodeRecords.RemoveTreeSparesOthers | internal/services/node_service.go:216-219 | removing one node's directory touches no file of a node with another name |
| CAStore.CAService.constructor | internal/services/ca_service.go:18 | an empty CA table over the signing tool |
| Settings.SettingsService.constructor | internal/services/settings_service.go:17 | a settings table holding the given row, if any |
| Certs.CertTool.constructor | internal/utils/certs.go:128-130 | the tool over a signer, with no runs and no temporary directories yet |
| Nodes.SettingOf | internal/services/settings_service.go:31-48 | what a settings read returns: the stored row, or the initial one when there is none |
| Nodes.NewestFirst | internal/services/node_service.go:92 | the rows in reverse storage order |
| Nodes.NewestFirstDescends | internal/services/node_service.go:92 | in an id-ordered table, the newest-first order has strictly descending ids |
| Nodes.ListingDescends | internal/services/node_service.go:90-100 | the listing shows the nodes with strictly descending ids |
| Nodes.NodeService.constructor | internal/services/node_service.go:48-61 | an empty node service over the other services; the binary download base has its trailing slashes removed |
| Nodes.NodeService.List | internal/services/node_service.go:90-100 | one view per node, newest first, with strictly descending ids |
| Nodes.NodeService.ListLighthouseNodes | internal/services/node_service.go:566-602 | one entry per lighthouse row, using the settings' default port; the settings row is created when missing |
| Nodes.NodeService.WriteArtifacts | internal/services/node_service.go:604-624 | the four artifact files land in the node's directory with mode 0600, replacing any older ones; the node table is untouched |
| Nodes.NodeService.Create | internal/services/node_service.go:103-205 | result, new table, counter and files are those of `CreateOn`; settings are read only after the role and CA checks; the tool is run exactly when the role, CA and subnet are valid, as `GenerateNodeCertificate` prescribes |
| Nodes.NodeService.CreateSigned | internal/services/node_service.go:130-205 | the signing, config and insert steps after the subnet was normalized, as `IssueNew` prescribes |
| Nodes.NodeService.CollectLighthouses | internal/services/node_service.go:143-159 | the stored lighthouses, plus the new node's entry when it is a lighthouse itself |
| Nodes.NodeService.StoreNewNode | internal/services/node_service.go:136-205 | the proxy mode, template, config and insert steps, as `StoreNew` prescribes; the template table gets the `EnsureDefault` update |
| Nodes.NodeService.InsertNode | internal/services/node_service.go:195-204 | the insert, refused when the name is taken; on success the artifact files are written and the view returned |
| Nodes.NodeService.RenderNewConfig | internal/services/node_service.go:138-178 | the config is the engine's rendering of the default template over the new node's data and lighthouse list |
| Nodes.NodeService.Delete | internal/services/node_service.go:208-221 | an unknown id fails with not-found and changes nothing; otherwise the row and the node's directory are removed |
| Nodes.NodeService.GetConfig | internal/services/node_service.go:224-230 | the stored config of the node, or not-found |
| Nodes.NodeService.RefreshNode | internal/services/node_service.go:458-474 | the outcome and new table are `RefreshOn`'s: not-found, then no-CA, then the regeneration; files follow the outcome |
| Nodes.NodeService.GetArtifacts | internal/services/node_service.go:240-251 | after a refresh, the node's certificate, key and config and the CA certificate |
| Nodes.NodeService.GenerateInstallScript | internal/services/node_service.go:286-394 | after a refresh, the install script for the refreshed node's parameters; the refresh error otherwise |
| Nodes.NodeService.ScriptParamsOf | internal/services/node_service.go:292-306 | the defaulted and trimmed API base, download base and version, with the node's proxy prefix |
| Nodes.NodeService.BuildBundle | internal/services/node_service.go:397-456 | after a refresh, the four-member bundle of the node's artifacts; the refresh error otherwise |
| Nodes.NodeService.RegenerateNodeArtifacts | internal/services/node_service.go:476-548 | the new table, outcome and files are `RegenerateOn`'s; the tool runs exactly when the subnet repair succeeds, with the repaired CIDR and the defaulted validity |
| Nodes.NodeService.RepairAndReissue | internal/services/node_service.go:481-548 | a successful repair is saved before the reissue, whatever the reissue's outcome |
| Nodes.NodeService.WriteBackRepair | internal/services/node_service.go:739-749 | the repaired subnet is stored exactly when the row needed a repair |
| Nodes.NodeService.ReissueRow | internal/services/node_service.go:484-548 | settles port and validity, signs, then re-renders, as `Reissue` prescribes |
| Nodes.NodeService.RerenderRow | internal/services/node_service.go:507-548 | template, lighthouses, render, save and artifact writes, as `Rerender` prescribes |
| Nodes.SettleReissue | internal/services/node_service.go:484-500 | the validity defaults to 365 days, and the port to the handshake port and then to 4242 |
| Nodes.ArtifactsOf | internal/services/node_service.go:245-250 | the refresh error, or the node's certificate, key and config with the CA certificate |
| Nodes.BundleOf | internal/services/node_service.go:397-456 | the refresh error, or a four-member bundle |
| Nodes.PackBundle | internal/services/node_service.go:409-446 | the tar members in the source's order: CA, certificate, key, config |
| Nodes.WriteScript | internal/services/node_service.go:308-393 | the builder's text is the install script |
| Nodes.WriteHeader | internal/services/node_service.go:309-326 | writes the header |
| Nodes.WriteIdentity | internal/services/node_service.go:309-313 | writes the identity lines |
| Nodes.WriteDirectories | internal/services/node_service.go:314-316 | writes the directory lines |
| Nodes.WriteDownloadSettings | internal/services/node_service.go:317-326 | writes the download settings, picking the static token or the placeholder |
| Nodes.WriteDownloadSteps | internal/services/node_service.go:327-368 | writes the download steps |
| Nodes.WriteServiceSteps | internal/services/node_service.go:371-391 | writes the service steps |
| Nodes.WritePrerequisites | internal/services/node_service.go:327-338 | writes the prerequisite checks |
| Nodes.WritePlatform | internal/services/node_service.go:339-352 | writes the platform detection |
| Nodes.WriteBinary | internal/services/node_service.go:353-363 | writes the binary download |
| Nodes.WriteBundleFetch | internal/services/node_service.go:364-368 | writes the bundle fetch |
| Nodes.WriteConfigInstall | internal/services/node_service.go:371-372 | writes the config install |
| Nodes.WriteUnitOpen | internal/services/node_service.go:373-377 | writes the unit header |
| Nodes.WriteUnitService | internal/services/node_service.go:378-387 | writes the unit body |
| Nodes.WriteServiceStart | internal/services/node_service.go:388-391 | writes the service start |
| Nodes.WritesGrow | internal/services/node_service.go:617-622 | each loop step adds exactly one file to the written set |

## Left out

- Database and I/O errors other than the ones modelled are left out: a failed query, save or create; a failed `MkdirAll`, `WriteFile` or `ReadFile`; a failed temporary directory; a failed tar or gzip write. The model covers not-found, a missing CA, a taken node name, and the CA transaction faults. Every other store or file operation is taken to succeed.
- Nodes.NodeService.Delete: a failure of the row delete or of `os.RemoveAll` after the lookup is not modelled. A found node is always removed.
- NodeRecords.Lookup: `getNode` passes database errors other than not-found straight through. The model has only not-found.
- NodeRecords.InsertOutcome: the only insert failure modelled is the unique-name constraint in the schema. No id is used up by a failed insert, whatever MySQL's auto-increment does.
- Templates.SortByName: code-point order. Under `utf8mb4_unicode_ci`, `ORDER BY name` ignores case (it lists `a` before `B`). The collation is a property of the deployed database, as described under "Name comparison".
- Templates.TemplateService.List: returns `SortByName`'s order, so under `utf8mb4_unicode_ci` names that differ only in case, accents or trailing spaces may be listed in another order.
- Templates.FindByName: matches names exactly. Under `utf8mb4_unicode_ci`, `WHERE name = ?` also matches a name that differs in case, accents or trailing spaces, so `Upsert("Default", …)` would update a stored `default` rather than add a row.
- Templates.TemplateService.GetByName: matches names exactly, as `FindByName` does, for the same reason.
- Templates.UpsertOn: finds the row by exact name, as `FindByName` does. The unique index on names is modelled exactly too, so no insert is refused for a name that differs only in case.
- Templates.EnsureDefaultOn: looks up `default` by exact name, as `FindByName` does.
- NodeRecords.InsertOutcome: the unique index on node names is modelled as exact equality. Under `utf8mb4_unicode_ci`, creating `Node1` while `node1` exists is refused, and the model accepts it.
- Text.ToLower: `LowerChar` lowers only A to Z, U+0130 and U+212A, where `strings.ToLower` lowers every cased letter (`É` to `é`, for instance). The only use is the comparison of a trimmed proxy mode with `ipv4` and `ipv6`, and no other character lowers to an ASCII letter, so that comparison agrees with Go's.
- Timestamps are left out: `CreatedAt`, `UpdatedAt`, the RFC 3339 `created_at` of the node view, and the tar headers' `ModTime`. They come from the clock.
- The tar and gzip encoding is left out, and so are the byte sizes in tar headers. A bundle is its ordered list of (name, mode, content) members, and `Extract` is what unpacking yields.
- `filepath.Join`'s path cleaning is left out. A node directory is `<dataDir>/nodes/<name>`, and the proofs about separate node directories assume names without `/`.
- Nodes.NodeService.WriteArtifacts: Go's map iteration order is unspecified. The method writes the four files in an arbitrary order, and its contract is the same for every order.
- Render.RenderDefault: general `text/template` semantics are left out. Renderings of bodies other than the built-in default come from the `Renderer` oracle, and `RendersDefaultBody` is an assumption that callers may make about that oracle.
- NodeText.ShellUnquote gives bash's reading of a double-quoted word only for text that is meant literally. Any expansion counts as "not read back", and parameter, command and arithmetic expansion are not modelled.
- Certs.CertTool: the `nebula-cert` process is left out, and so are the CA files it is given and the output files it is read back from. A run is the `Signer`'s reply to the argument vector, and reading back the files cannot fail.
- Certs.CertTool.MakeTempDir: `os.MkdirTemp`'s random suffix is a serial number. `os.RemoveAll` of the temporary directory is not modelled, because the directory lies outside the data directory's files.
- Subnet.AddrParser: `net.ParseIP` and `net.ParseCIDR` are left out. An oracle gives the address family, or the network's prefix length. The family is IPv4 exactly when Go's `To4()` is not nil.
- Authentication, configuration loading, the HTTP handlers and router, the frontend, and the embedded script asset are outside this model. The node monitoring methods the node handler calls (network series, status) are not part of this model, because their source is not present.
- Connection setup and migrations in the database package are left out.
