/** Release mutation (`Helm::upgrade`, `Helm::delete`). */
module ReleaseOperator {
  import opened Results
  import opened Strings
  import opened Json
  import opened Process
  import opened Bootstrap
  import opened InventoryReader

  const UpgradePrefix := "helm upgrade -i --namespace "
  const DeletePrefix := "helm delete "

  /** The version flag, `--version <v>`. */
  function VersionArg(v: string): string {
    "--version " + v
  }

  /** The values-file flag, `--values <path>`. */
  function ValuesArg(path: string): string {
    "--values " + path
  }

  /** The final argument pair: the release and the chart from the stable repository. */
  function ChartRef(chart: Chart): string {
    chart.release + " stable/" + chart.name
  }

  /** The optional flags: the version when one is set, then the values file
      when there are overrides, each after a space. */
  function Flags(chart: Chart, valuesPath: string): string {
    (match chart.version case Some(v) => " " + VersionArg(v) case None => "")
    + (if chart.overrides.Some? then " " + ValuesArg(valuesPath) else "")
  }

  /** The install-or-upgrade command for `chart` in `namespace`; `valuesPath` is
      the file holding the overrides, used only when there are overrides. */
  function UpgradeText(namespace: string, chart: Chart, valuesPath: string): string {
    UpgradePrefix + namespace + Flags(chart, valuesPath) + (" " + ChartRef(chart))
  }

  /** Every upgrade addresses the namespace first and the release and chart last. */
  lemma UpgradeTextShape(namespace: string, chart: Chart, valuesPath: string)
    ensures var cmd := UpgradeText(namespace, chart, valuesPath);
            var head := UpgradePrefix + namespace;
            var tail := " " + ChartRef(chart);
            && |head| + |tail| <= |cmd|
            && cmd[..|head|] == head
            && cmd[|cmd| - |tail|..] == tail
    ensures chart.version.None? && chart.overrides.None? ==>
              UpgradeText(namespace, chart, valuesPath) == UpgradePrefix + namespace + " " + ChartRef(chart)
  {
    Bracketed(UpgradePrefix + namespace, Flags(chart, valuesPath), " " + ChartRef(chart));
  }

  lemma Bracketed(x: string, y: string, z: string)
    ensures |x| + |z| <= |x + y + z|
    ensures (x + y + z)[..|x|] == x
    ensures (x + y + z)[|x + y + z| - |z|..] == z
    ensures y == [] ==> x + y + z == x + z
  {
  }

  /** Upgrading a chart with a version and no overrides pins that version. */
  lemma UpgradeTextPinned(namespace: string, chart: Chart, valuesPath: string)
    requires chart.version.Some? && chart.overrides.None?
    ensures UpgradeText(namespace, chart, valuesPath)
              == UpgradePrefix + namespace + " " + VersionArg(chart.version.value) + " " + ChartRef(chart)
  {
    var head := UpgradePrefix + namespace + " " + VersionArg(chart.version.value);
    Bracketed(head, "", " " + ChartRef(chart));
  }

  /** Upgrading a chart as it was listed pins the listed version and passes no values file. */
  lemma ReupgradeListed(namespace: string, body: seq<(string, Json)>, c: Chart, valuesPath: string)
    requires c in Inventory(namespace, body)
    ensures c.version.Some?
    ensures UpgradeText(namespace, c, valuesPath)
              == UpgradePrefix + namespace + " " + VersionArg(c.version.value) + " " + ChartRef(c)
  {
    InventoryPinsVersions(namespace, body);
    UpgradeTextPinned(namespace, c, valuesPath);
  }

  /** The parts of the upgrade command, before they are joined with spaces. */
  function UpgradeParts(namespace: string, chart: Chart, valuesPath: string): seq<string> {
    [UpgradePrefix + namespace]
    + (match chart.version case Some(v) => [VersionArg(v)] case None => [])
    + (if chart.overrides.Some? then [ValuesArg(valuesPath)] else [])
    + [ChartRef(chart)]
  }

  lemma UpgradePartsJoin(namespace: string, chart: Chart, valuesPath: string)
    ensures Join(UpgradeParts(namespace, chart, valuesPath), " ") == UpgradeText(namespace, chart, valuesPath)
  {
    var head, last := UpgradePrefix + namespace, ChartRef(chart);
    var parts := UpgradeParts(namespace, chart, valuesPath);
    match chart.version
    case Some(v) =>
      if chart.overrides.Some? {
        assert parts == [head, VersionArg(v), ValuesArg(valuesPath), last];
        JoinFour(head, VersionArg(v), ValuesArg(valuesPath), last);
      } else {
        assert parts == [head, VersionArg(v), last];
        assert Flags(chart, valuesPath) == " " + VersionArg(v) + "";
        JoinThree(head, VersionArg(v), last);
      }
    case None =>
      if chart.overrides.Some? {
        assert parts == [head, ValuesArg(valuesPath), last];
        assert Flags(chart, valuesPath) == "" + (" " + ValuesArg(valuesPath));
        JoinThree(head, ValuesArg(valuesPath), last);
      } else {
        assert parts == [head, last];
        assert Flags(chart, valuesPath) == "" + "";
        assert Join([head, last], " ") == head + " " + last;
      }
  }

  lemma JoinThree(a: string, b: string, c: string)
    ensures Join([a, b, c], " ") == a + (" " + b) + (" " + c)
  {
    assert [a, b, c][1..] == [b, c];
    assert Join([b, c], " ") == b + " " + c;
  }

  lemma JoinFour(a: string, b: string, c: string, d: string)
    ensures Join([a, b, c, d], " ") == a + ((" " + b) + (" " + c)) + (" " + d)
  {
    assert [a, b, c, d][1..] == [b, c, d];
    JoinThree(b, c, d);
  }

  /** `Helm::upgrade`: assemble the command part by part, writing the
      overrides to a values file first when there are any, then run it.
      `writeValues` stands for creating the temporary file and serialising the
      overrides into it: it gives the file's path or the error that stopped it. */
  method Upgrade(h: Helm, shell: Shell, chart: Chart, writeValues: map<string, Json> -> Result<string>)
    returns (r: Result<()>)
    modifies shell
    ensures chart.overrides.Some? && writeValues(chart.overrides.value).Failure? ==>
              r == Failure(writeValues(chart.overrides.value).error) && shell.issued == old(shell.issued)
    ensures !(chart.overrides.Some? && writeValues(chart.overrides.value).Failure?) ==>
              var path := if chart.overrides.Some? then writeValues(chart.overrides.value).value else "";
              var inv := Invocation(h.kubeConfig, UpgradeText(h.namespace, chart, path));
              && shell.issued == old(shell.issued) + [inv]
              && r == match RunResult(shell.respond(old(shell.issued), inv), inv.cmd)
                      case Failure(e) => Failure(e)
                      case Success(_) => Success(())
  {
    var cmd: seq<string> := [];
    cmd := cmd + [UpgradePrefix + h.namespace];
    if chart.version.Some? {
      cmd := cmd + [VersionArg(chart.version.value)];
    }
    var path := "";
    if chart.overrides.Some? {
      var written := writeValues(chart.overrides.value);
      if written.Failure? {
        return Failure(written.error);
      }
      path := written.value;
      cmd := cmd + [ValuesArg(path)];
    }
    cmd := cmd + [ChartRef(chart)];
    assert cmd == UpgradeParts(h.namespace, chart, path);
    UpgradePartsJoin(h.namespace, chart, path);
    var text := Join(cmd, " ");
    var out := Run(h, shell, text);
    if out.Failure? {
      return Failure(out.error);
    }
    r := Success(());
  }

  /** The removal command, addressed by release name alone. */
  function DeleteText(release: string): (cmd: string)
    ensures |cmd| == |DeletePrefix| + |release|
    ensures cmd[..|DeletePrefix|] == DeletePrefix && cmd[|DeletePrefix|..] == release
  {
    DeletePrefix + release
  }

  /** `Helm::delete` */
  method Delete(h: Helm, shell: Shell, release: string) returns (r: Result<()>)
    modifies shell
    ensures shell.issued == old(shell.issued) + [Invocation(h.kubeConfig, DeleteText(release))]
    ensures r == match RunResult(shell.respond(old(shell.issued), Invocation(h.kubeConfig, DeleteText(release))), DeleteText(release))
                 case Failure(e) => Failure(e)
                 case Success(_) => Success(())
  {
    var out := Run(h, shell, DeleteText(release));
    r := match out case Failure(e) => Failure(e) case Success(_) => Success(());
  }
}
