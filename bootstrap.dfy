/** Connection bootstrap and the command executor (`Helm::configure`, `Helm::run`). */
module Bootstrap {
  import opened Results
  import opened Strings
  import opened Json
  import opened Process

  /** The connection details a pipeline step is given. */
  datatype Config = Config(
    url: string,
    username: string,
    password: string,
    namespace: string,
    skipTlsVerify: Option<bool>,
    caData: Option<string>)

  /** A release of a chart; `overrides` are the chart values to set on upgrade. */
  datatype Chart = Chart(
    release: string,
    name: string,
    version: Option<string>,
    overrides: Option<map<string, Json>>)

  /** A configured connection. The two artifacts are the paths of the files
      written during bootstrap: the client configuration, and the CA
      certificate when CA data was given. */
  datatype Helm = Helm(
    namespace: string,
    server: string,
    username: string,
    password: string,
    kubeConfig: string,
    kubeCaCert: Option<string>)

  /** The named slots the client-configuration template is rendered with. */
  datatype KubeConfigValues = KubeConfigValues(
    skipTlsVerify: bool,
    url: string,
    namespace: string,
    username: string,
    password: string,
    caData: string)

  const InitCommand := "helm init --client-only 1>&2"
  const RepoUpdateCommand := "helm repo update"

  /** The security invariant: without CA data, TLS verification must be
      skipped explicitly. */
  function CheckCaInvariant(config: Config): (r: Outcome)
    ensures r == Fail(NoCaData) <==> config.caData.None? && config.skipTlsVerify != Some(true)
    ensures r.Pass? <==> config.caData.Some? || config.skipTlsVerify == Some(true)
  {
    if config.caData.None? && !config.skipTlsVerify.UnwrapOr(false) then Fail(NoCaData) else Pass
  }

  /** The template slots; `base64` is the encoder applied to the trimmed CA data. */
  function KubeConfigValuesOf(config: Config, base64: string -> string): KubeConfigValues {
    KubeConfigValues(
      config.skipTlsVerify.UnwrapOr(false),
      config.url, config.namespace, config.username, config.password,
      match config.caData
      case Some(c) => base64(Trim(c))
      case None => "")
  }

  /** The skip flag is set only when asked for explicitly, the CA slot is empty
      without CA data, and whitespace around the CA data never reaches the encoder. */
  lemma KubeConfigValuesSpec(config: Config, base64: string -> string, a: string, m: string, b: string)
    requires AllWhitespace(a) && AllWhitespace(b) && Trimmed(m)
    ensures KubeConfigValuesOf(config, base64).skipTlsVerify <==> config.skipTlsVerify == Some(true)
    ensures config.caData.None? ==> KubeConfigValuesOf(config, base64).caData == ""
    ensures config.caData == Some(a + m + b) ==> KubeConfigValuesOf(config, base64).caData == base64(m)
  {
    TrimUnique(a, m, b);
  }

  /** Bootstrap up to the first command: check the invariant, then write the
      client configuration and, when there is CA data, the raw CA certificate.
      `writeKubeConfig` and `writeCaCert` stand for the file system: each gives
      the path of the file it wrote, or the error that stopped it. */
  function Prepare(
    config: Config,
    base64: string -> string,
    writeKubeConfig: KubeConfigValues -> Result<string>,
    writeCaCert: string -> Result<string>): (r: Result<Helm>)
    ensures CheckCaInvariant(config).Fail? ==> r == Failure(NoCaData)
    ensures CheckCaInvariant(config).Pass? && writeKubeConfig(KubeConfigValuesOf(config, base64)).Failure? ==>
              r == Failure(writeKubeConfig(KubeConfigValuesOf(config, base64)).error)
    ensures && CheckCaInvariant(config).Pass?
            && writeKubeConfig(KubeConfigValuesOf(config, base64)).Success?
            && config.caData.Some? && writeCaCert(config.caData.value).Failure? ==>
              r == Failure(writeCaCert(config.caData.value).error)
    ensures r.Success? <==>
              && CheckCaInvariant(config).Pass?
              && writeKubeConfig(KubeConfigValuesOf(config, base64)).Success?
              && (config.caData.Some? ==> writeCaCert(config.caData.value).Success?)
    ensures r.Success? ==>
              && r.value.namespace == config.namespace
              && r.value.server == config.url
              && r.value.username == config.username
              && r.value.password == config.password
              && Success(r.value.kubeConfig) == writeKubeConfig(KubeConfigValuesOf(config, base64))
              && (r.value.kubeCaCert.Some? <==> config.caData.Some?)
              && (config.caData.Some? ==> Success(r.value.kubeCaCert.value) == writeCaCert(config.caData.value))
  {
    match CheckCaInvariant(config)
    case Fail(e) => Failure(e)
    case Pass =>
      var kubeConfig :- writeKubeConfig(KubeConfigValuesOf(config, base64));
      var caCert :- match config.caData
        case None => Success(None)
        case Some(c) => (var path :- writeCaCert(c); Success(Some(path)));
      Success(Helm(config.namespace, config.url, config.username, config.password, kubeConfig, caCert))
  }

  /** How `run` reports a command's outcome: a spawn failure is an I/O error,
      an unsuccessful exit names the command, a success gives the trimmed stdout. */
  function RunResult(o: Output, cmd: string): (r: Result<string>)
    ensures r.Success? <==> o.Exited? && o.success
    ensures o.Exited? && !o.success ==> r == Failure(CmdFailed(cmd))
    ensures o.SpawnFailed? ==> r == Failure(Io)
    ensures r.Success? ==> r.value == Trim(o.stdout)
  {
    match o
    case SpawnFailed => Failure(Io)
    case Exited(ok, out) => if !ok then Failure(CmdFailed(cmd)) else Success(Trim(out))
  }

  /** `Helm::run`: one command through the shell, with this connection's
      client configuration as `KUBECONFIG`. */
  method Run(h: Helm, shell: Shell, cmd: string) returns (r: Result<string>)
    modifies shell
    ensures shell.issued == old(shell.issued) + [Invocation(h.kubeConfig, cmd)]
    ensures r == RunResult(shell.respond(old(shell.issued), Invocation(h.kubeConfig, cmd)), cmd)
  {
    var o := shell.Exec(Invocation(h.kubeConfig, cmd));
    match o {
      case SpawnFailed =>
        r := Failure(Io);
      case Exited(ok, out) =>
        if !ok {
          return Failure(CmdFailed(cmd));
        }
        r := Success(Trim(out));
    }
  }

  /** `Helm::configure`: prepare the connection, then initialise the client
      and refresh the repository index, stopping at the first failure. */
  method Configure(
    config: Config,
    shell: Shell,
    base64: string -> string,
    writeKubeConfig: KubeConfigValues -> Result<string>,
    writeCaCert: string -> Result<string>) returns (r: Result<Helm>)
    modifies shell
    ensures CheckCaInvariant(config).Fail? ==> r == Failure(NoCaData) && shell.issued == old(shell.issued)
    ensures
      var p := Prepare(config, base64, writeKubeConfig, writeCaCert);
      if p.Failure? then r == p && shell.issued == old(shell.issued)
      else
        var init := Invocation(p.value.kubeConfig, InitCommand);
        var first := RunResult(shell.respond(old(shell.issued), init), InitCommand);
        if first.Failure? then
          r == Failure(first.error) && shell.issued == old(shell.issued) + [init]
        else
          var update := Invocation(p.value.kubeConfig, RepoUpdateCommand);
          var second := RunResult(shell.respond(old(shell.issued) + [init], update), RepoUpdateCommand);
          && shell.issued == old(shell.issued) + [init, update]
          && r == (if second.Failure? then Failure(second.error) else p)
  {
    var p := Prepare(config, base64, writeKubeConfig, writeCaCert);
    if p.Failure? {
      return p;
    }
    var h := p.value;
    var first := Run(h, shell, InitCommand);
    if first.Failure? {
      return Failure(first.error);
    }
    var second := Run(h, shell, RepoUpdateCommand);
    if second.Failure? {
      return Failure(second.error);
    }
    r := Success(h);
  }
}
