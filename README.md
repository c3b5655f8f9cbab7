# helm-resource: the deployment-state engine, in Dafny

This project models the core of `helm-api/src/lib.rs`, the library behind a
Concourse resource that deploys Helm charts into one Kubernetes namespace. It
covers four things:

- **Connection bootstrap** (`Helm::configure`): the TLS invariant, the
  client-configuration slots, and the two bootstrap commands, stopping at the
  first failure.
- **Command execution** (`Helm::run`): one `sh -c` command with
  `KUBECONFIG` set; a failed exit becomes `CmdFailed(cmd)` and a successful one
  gives the trimmed stdout.
- **Inventory reconstruction** (`Helm::list`): the deployments endpoint, a
  tolerant walk of the JSON response, the namespace and `heritage == "Tiller"`
  filters, and the split of the `chart` label at its last hyphen.
- **Digest and release commands** (`Helm::digest`, `Helm::upgrade`,
  `Helm::delete`): the fold that feeds the hash, and the exact command text.

Modules, one per component: `Results` holds the option, result and error
types (`HelmError`). `Strings` holds the Rust string operations the code uses:
`trim`, `split`, `rsplitn(2, _)` and `join`. `Json` is `serde_json::Value` as
a datatype; an object is an association list, and lookup finds the last
binding of a key, as serde_json's map does. `Process` is the shell. It is a
class that records every invocation in order, and its `respond` oracle says
how a command turns out given the ones run before it. `Bootstrap`,
`InventoryReader`, `DigestEngine` and `ReleaseOperator` hold the engine itself.

The connection value (`Helm`) is never changed after `configure` builds it, so
it is a datatype. The shell's log is the state that changes.

Foreign calls become parameters. These are `Url::parse` (`parseUrl`), the
authenticated HTTP GET (`kubeApi`, which gives the response object or an
error), MD5 with hex formatting (`md5Hex`), base64 (`base64`), and the
temporary-file steps (`writeKubeConfig`, `writeCaCert`, `writeValues`). Each of
the file steps gives the path of the file it wrote, or the error that stopped
it.

## Model

| member | source | states |
|---|---|---|
| `Bootstrap.CheckCaInvariant` | helm-api/src/lib.rs:75-77 | fails with `NoCaData` exactly when `ca_data` is absent and `skip_tls_verify` is not `Some(true)`; passes exactly when CA data is present or the skip is explicitly true |
| `Bootstrap.KubeConfigValuesOf` | helm-api/src/lib.rs:82-93 | the values rendered into the client configuration: skip flag, url, namespace, credentials and the encoded trimmed CA data or ""; specified by `KubeConfigValuesSpec` |
| `Bootstrap.KubeConfigValuesSpec` | helm-api/src/lib.rs:82-94 | the template's skip flag is true only for an explicit `Some(true)`; the CA slot is empty without CA data; for CA data `a + m + b` (a, b whitespace, m trimmed) the slot is the encoding of `m` alone |
| `Bootstrap.Prepare` | helm-api/src/lib.rs:74-117 | `NoCaData` when the invariant fails; otherwise the client-config write's error if it fails, then the CA-certificate write's error if there is CA data and that write fails; otherwise a connection that copies namespace, url and credentials, holds the written client-config path, and holds a CA path exactly when CA data was given |
| `Bootstrap.RunResult` | helm-api/src/lib.rs:143-147 | success exactly on a successful exit, with the stdout trimmed; an unsuccessful exit is `CmdFailed` of the command text; a spawn failure is `Io` |
| `Bootstrap.Run` | helm-api/src/lib.rs:128-148 | issues exactly one invocation, this command with the connection's client config as `KUBECONFIG`, and reports the shell's response through `RunResult` |
| `Bootstrap.Configure` | helm-api/src/lib.rs:73-126 | a failed invariant or file step issues no command; otherwise `helm init --client-only 1>&2` is issued, and `helm repo update` follows only if it succeeded; the result is the first failure, or the prepared connection |
| `Process.Shell.Exec` | helm-api/src/lib.rs:132-136 | appends the invocation to the log and returns the environment's response to it given the earlier log |
| `Strings.Trim` | helm-api/src/lib.rs:147 | the result is no longer than the input and has no whitespace at either end |
| `Strings.TrimDecomposes` | helm-api/src/lib.rs:147 | the input is whitespace, then the trimmed string, then whitespace |
| `Strings.TrimUnique` | helm-api/src/lib.rs:147 | for any input `a + m + b` with whitespace `a` and `b` and trimmed `m`, trim gives exactly `m` |
| `Strings.Split` | helm-api/src/lib.rs:185 | `str::split` on one character; specified by `SplitJoin` and `JoinSplit` |
| `Strings.Join` | helm-api/src/lib.rs:291 | `join` with a separator; specified by `SplitJoin`, `JoinSplit` and `UpgradePartsJoin` |
| `Strings.SplitJoin` | helm-api/src/lib.rs:185 | splitting parts joined by a separator they lack gives back the parts |
| `Strings.JoinSplit` | helm-api/src/lib.rs:185 | joining the pieces of a split with the separator restores the string |
| `Strings.RSplitN2` | helm-api/src/lib.rs:225 | one piece, the whole string, exactly when there is no separator; otherwise `[after, before]` with `before + sep + after` the input and no separator in `after` |
| `Strings.RSplitN2Unique` | helm-api/src/lib.rs:225 | the split is at the last separator: `before + sep + after` with a separator-free `after` splits into exactly `[after, before]` |
| `Json.Get` | helm-api/src/lib.rs:196 | `Map::get` on a JSON object; specified by `GetSpec` |
| `Json.GetSpec` | helm-api/src/lib.rs:196-223 | none exactly when no member has the key; otherwise the value of a member with the key after which no member has it (the last binding) |
| `InventoryReader.Endpoint` | helm-api/src/lib.rs:183-190 | `UrlParse` exactly for a cannot-be-a-base URL; otherwise success, with the same origin and query and with path the base segments followed by `apis, extensions, v1beta1, namespaces, <namespace>, deployments` |
| `InventoryReader.DeploymentsPathSegments` | helm-api/src/lib.rs:184-187 | splitting the fixed prefix on `/` and pushing the namespace and `deployments` gives those six segments |
| `InventoryReader.List` | helm-api/src/lib.rs:181-243 | an unparsable or cannot-be-a-base server URL is `UrlParse`; otherwise it fetches exactly the deployments endpoint, passes on a fetch error, and lists the inventory of the response |
| `InventoryReader.ItemsOf` | helm-api/src/lib.rs:195-198 | the `items` array of a response, or none; specified by `NoItemsNoCharts` and `InventoryOrigins` |
| `InventoryReader.ChartOf` | helm-api/src/lib.rs:199-240 | the whole lookup chain for one item; specified by `ChartOfSpec` |
| `InventoryReader.ChartOfMetadata` | helm-api/src/lib.rs:203-240 | the chain from the metadata object on; specified by `ChartOfMetadataAt` |
| `InventoryReader.ChartOfLabels` | helm-api/src/lib.rs:219-239 | the chain from the labels object on; specified by `ChartOfLabelsSpec` and `ChartOfLabelsAt` |
| `InventoryReader.FilterMap` | helm-api/src/lib.rs:199-240 | `filter_map`; specified by `Origins` |
| `InventoryReader.Collect` | helm-api/src/lib.rs:199-241 | the charts of a list of items, in order; specified by `Origins` and `ChartOfSpec` |
| `InventoryReader.Inventory` | helm-api/src/lib.rs:195-241 | the charts of a response body; specified by `InventoryOrigins`, `InventoryFromManagedItems`, `InventoryPinsVersions` and `NoItemsNoCharts` |
| `InventoryReader.InventoryOrigins` | helm-api/src/lib.rs:195-241 | the inventory is an ordered selection of the response's items: the k-th chart is `ChartOf` of an item at an increasing position, and every item yielding a chart is selected |
| `InventoryReader.NoItemsNoCharts` | helm-api/src/lib.rs:195-198 | a response with no `items` key, or a non-array `items`, lists no charts (and is no error) |
| `InventoryReader.ChartOfSpec` | helm-api/src/lib.rs:199-240 | an item yields a chart exactly when `metadata.namespace` is the configured namespace and `metadata.labels.heritage` is "Tiller" (all as strings), and it has string `release` and `chart` labels with a hyphen in `chart`; the chart's release is the label verbatim, `name + "-" + version` is the chart label, the version is `Some` and hyphen-free, and there are no overrides |
| `InventoryReader.ChartOfLabelsSpec` | helm-api/src/lib.rs:219-239 | from a labels object: a chart exactly when `release` and `chart` are strings and `chart` has a hyphen, built as in `ChartOfSpec` |
| `InventoryReader.ChartOfMetadataAt` | helm-api/src/lib.rs:203-240 | from a metadata object: a chart exactly when `namespace` is the configured one, `labels.heritage` is "Tiller", and the `release` and `chart` labels are strings with a hyphen in `chart`; the chart is read from those two labels |
| `InventoryReader.ChartOfLabelsAt` | helm-api/src/lib.rs:219-239 | `ChartOfLabelsSpec` with each lookup written as a key path into the labels object |
| `InventoryReader.Origins` | helm-api/src/lib.rs:199-241 | `filter_map` is an order-preserving selection: the i-th result comes from an item at an increasing index, and every item with a result is selected |
| `InventoryReader.InventoryFromManagedItems` | helm-api/src/lib.rs:199-218 | every listed chart comes from an item of the response that is in the namespace and has the Tiller heritage |
| `InventoryReader.InventoryPinsVersions` | helm-api/src/lib.rs:219-240 | every listed chart has a hyphen-free version and no overrides |
| `InventoryReader.TillerItemRoundTrip` | helm-api/src/lib.rs:219-237 | a managed item labelled `name-version` with a hyphen-free version lists as exactly that release, name and version |
| `InventoryReader.TillerItemNoHyphen` | helm-api/src/lib.rs:225-228 | a managed item whose chart label has no hyphen is dropped |
| `InventoryReader.LabelExampleSimple` | helm-api/src/lib.rs:225-237 | label `mychart-1.2.3` lists as name `mychart`, version `1.2.3` |
| `InventoryReader.LabelExampleHyphenatedName` | helm-api/src/lib.rs:225-237 | label `my-chart-name-2.0.0` lists as name `my-chart-name`, version `2.0.0` |
| `InventoryReader.LabelExampleNoHyphen` | helm-api/src/lib.rs:225-228 | label `nohyphen` is dropped |
| `DigestEngine.Consume` | helm-api/src/lib.rs:248-251 | `Context::consume`: what the hash has seen grows by the data; specified through `DigestOf` |
| `DigestEngine.Stream` | helm-api/src/lib.rs:248-252 | what one chart feeds: release, name, then the version if present; specified by `FedDetectsChange` and `FedCollides` |
| `DigestEngine.Fed` | helm-api/src/lib.rs:247-252 | what an inventory feeds, chart by chart; specified by `FedConcat` and `DigestOf` |
| `DigestEngine.FedConcat` | helm-api/src/lib.rs:247-253 | the bytes fed for two inventories in sequence are the bytes for the first, then for the second |
| `DigestEngine.DigestOf` | helm-api/src/lib.rs:246-254 | the loop feeds the hash exactly the ordered concatenation of `release ++ name ++ version-if-present`, so the digest is the hash of that string alone (of "" for no charts) |
| `DigestEngine.ComputeDigest` | helm-api/src/lib.rs:245-255 | a listing error is passed on; otherwise the digest is the hash of the fed bytes of the listed charts |
| `DigestEngine.FedDetectsChange` | helm-api/src/lib.rs:248-252 | replacing one chart by another changes the fed bytes exactly when the two charts' streams differ |
| `DigestEngine.FedCollides` | helm-api/src/lib.rs:248-252 | with no separators, two different charts (`ab`/`c` and `a`/`bc`) feed the same bytes |
| `DigestEngine.FedIsOrderSensitive` | helm-api/src/lib.rs:247-252 | the same two charts in the other order feed different bytes |
| `ReleaseOperator.UpgradeText` | helm-api/src/lib.rs:258-291 | the upgrade command as one string; specified by `UpgradePartsJoin`, `UpgradeTextShape` and `UpgradeTextPinned` |
| `ReleaseOperator.UpgradeParts` | helm-api/src/lib.rs:258-289 | the parts pushed onto `cmd`, in order; specified by `UpgradePartsJoin` and the `Upgrade` method |
| `ReleaseOperator.UpgradePartsJoin` | helm-api/src/lib.rs:258-291 | the pushed parts joined with spaces are exactly `helm upgrade -i --namespace <ns>`, then ` --version <v>` if a version is set, then ` --values <path>` if there are overrides, then ` <release> stable/<name>` |
| `ReleaseOperator.UpgradeTextShape` | helm-api/src/lib.rs:261-289 | every upgrade command starts with the namespace clause and ends with the release and chart; with neither flag it is just those two |
| `ReleaseOperator.UpgradeTextPinned` | helm-api/src/lib.rs:261-289 | a chart with a version and no overrides upgrades with `--version <v>` between the namespace clause and the release, and no values flag |
| `ReleaseOperator.ReupgradeListed` | helm-api/src/lib.rs:263-265 | upgrading a chart as listed pins its listed version and has no values flag |
| `ReleaseOperator.Upgrade` | helm-api/src/lib.rs:257-298 | a failure writing the overrides issues no command and is the result; otherwise exactly one command, the upgrade text, is issued, and its failure is the result |
| `ReleaseOperator.DeleteText` | helm-api/src/lib.rs:301 | the command is `helm delete ` followed by the release, which can be read back from it |
| `ReleaseOperator.Delete` | helm-api/src/lib.rs:300-303 | issues exactly the delete command and reports its failure |

## Left out

- The pipeline protocol in `bin/src/concourse_api.rs` is not part of this model. That covers line framing on stdin and stdout, the serde structs, the `Source` to `Config` copy, and the check/in/out verbs built from the engine.
- Temporary files (`Temp::new_file`, `File::create`, `flush`, `Temp::release`) are left out. Only their paths, or the error that stopped them, come in as parameters. In `upgrade`, `release()` on the values file runs only after a successful command; every early return (a failed file step, serialisation or command) drops the `Temp` instead. What dropping rather than releasing does to the file depends on the `mktemp` crate, which is not part of this model, and this model has no files, so neither path is shown.
- `Bootstrap.Run`: the "Running" line and the copies of stdout and stderr written to stderr are not modelled. A failure writing them, which the source turns into an error, is not modelled either. `String::from_utf8_lossy` is not modelled: stdout is taken to be a string already.
- The curl transfer and TLS setup in `kube_api` are network calls, modelled as the `kubeApi` parameter. The `unimplemented!()` panic on a body that is not a JSON object is a crash, so `kubeApi` only gives an object or an error. The code panics.
- `InventoryReader.Endpoint`: segments are appended as they are. The url crate's percent-encoding, its skipping of `.` and `..` segments, and its reuse of an empty trailing segment (`https://host/` has path `[""]`) are not modelled. The URL's serialisation (`into_string`) is folded into `kubeApi`.
- `DigestEngine.DigestOf`: the hash is fed the string as characters, where the source feeds UTF-8 bytes. Concatenating before or after UTF-8 encoding gives the same bytes, so nothing is lost there. MD5 itself and the hex formatting are the `md5Hex` parameter.
- base64, the mustache rendering of the client configuration, and serde_yaml are foreign calls. They are the `base64`, `writeKubeConfig` and `writeValues` parameters. The `Using values` log line is part of `writeValues`.
- JSON numbers, booleans and null are all `Other`: the engine never looks inside them.
- `error.rs` is not part of this model. `Results.Error` keeps the kinds the code distinguishes: `NoCaData`, `CmdFailed(cmd)` and `UrlParse`. Other failures fall into `Io`, `Template`, `Curl` and `Yaml`, and every URL parse error becomes `UrlParse`.
