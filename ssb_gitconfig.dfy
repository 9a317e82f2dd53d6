/**
 * Platform detection and the platform-keyed choices of the packaged
 * `ssb_gitconfig` script: which zone and operating system the machine is
 * on, which of seven platform names that gives, whether the platform is
 * supported, and which recommended configuration file, clone options and
 * username substitution `set_base_config` uses for it.
 */
module SsbGitconfig {
  import opened Wrappers
  import opened PyText
  import opened PlatformSignals

  /** The script version, also the branch cloned when SSL verification stays on. */
  const Version: string := "2.2.3"

  /** The repository holding the recommended configuration files. */
  const RepoUrl: string := "https://github.com/statisticsnorway/kvakk-git-tools.git"

  /** Clone options for the production platforms, which turn SSL verification off. */
  const SslVerifyOff: seq<string> := ["-c", "http.sslVerify=False"]

  /** The closed set of platform names; `Value` is the enum member's string. */
  datatype PlatformName =
    | Dapla
    | ProdLinux
    | ProdWindowsCitrix
    | ProdWindowsVdi
    | AdmWindows
    | AdmMac
    | Unknown
  {
    /** The enum value, which also names the recommended configuration file. */
    function Value(): (v: string)
      ensures FromValue(v) == Some(this)
    {
      match this
      case Dapla => "dapla"
      case ProdLinux => "prod-linux"
      case ProdWindowsCitrix => "prod-windows-citrix"
      case ProdWindowsVdi => "prod-windows-vdi"
      case AdmWindows => "adm-windows"
      case AdmMac => "adm-mac"
      case Unknown => "unknown"
    }

    /** `is_unsupported`: membership in the fixed list of platforms without a recommended file. */
    predicate IsUnsupported()
      ensures IsUnsupported() <==> !(this == Dapla || this == ProdLinux || this == ProdWindowsCitrix)
    {
      var unsupported := [ProdWindowsVdi, AdmWindows, AdmMac, Unknown];
      assert this in unsupported <==>
               (this == unsupported[0] || this == unsupported[1] || this == unsupported[2] || this == unsupported[3]);
      this in unsupported
    }

    /** `is_supported`: the negation of `is_unsupported`. */
    predicate IsSupported()
      ensures IsSupported() <==> this == Dapla || this == ProdLinux || this == ProdWindowsCitrix
    {
      !IsUnsupported()
    }
  }

  /** The enum lookup by value, `PlatformName(v)`, with `None` for a value no member has. */
  function FromValue(v: string): Option<PlatformName>
  {
    if v == "dapla" then Some(Dapla)
    else if v == "prod-linux" then Some(ProdLinux)
    else if v == "prod-windows-citrix" then Some(ProdWindowsCitrix)
    else if v == "prod-windows-vdi" then Some(ProdWindowsVdi)
    else if v == "adm-windows" then Some(AdmWindows)
    else if v == "adm-mac" then Some(AdmMac)
    else if v == "unknown" then Some(Unknown)
    else None
  }

  /** A value that `FromValue` accepts is the value of the member it returns. */
  lemma FromValueSound(v: string)
    ensures FromValue(v).Some? ==> FromValue(v).value.Value() == v
  {
  }

  /**
   * The argument list of `ping`: one packet, with the count and timeout
   * flags Windows and the Unix systems spell differently.
   */
  function PingCommand(system: string, host: string): (cmd: seq<string>)
    ensures |cmd| == 6 && cmd[0] == "ping" && cmd[2] == "1" && cmd[5] == host
    ensures cmd[1] == (if system == "Windows" then "-n" else "-c")
    ensures cmd[3] == (if system == "Windows" then "-w" else "-W")
    ensures cmd[4] == (if system == "Linux" then "1" else "1000")
  {
    var pingParam := if system == "Windows" then "-n" else "-c";
    var timeoutParam := if system == "Windows" then "-w" else "-W";
    var timeoutValue := if system == "Linux" then "1" else "1000";
    ["ping", pingParam, "1", timeoutParam, timeoutValue, host]
  }

  /**
   * What `Platform()` observes, given the OS name `platform.system()`
   * returns, the environment variables `DAPLA_REGION` and `SESSIONNAME`,
   * and the answer each host would give if pinged.
   */
  function Detect(
    os: string,
    daplaRegion: Option<string>,
    sessionName: Option<string>,
    prodReply: bool,
    admReply: bool): (d: Detection)
    ensures Consistent(d.signals)
    ensures d.signals.linux <==> os == "Linux"
    ensures d.signals.windows <==> os == "Windows"
    ensures d.signals.mac <==> os == "Darwin"
    ensures d.signals.dapla <==> daplaRegion == Some("DAPLA_LAB") || daplaRegion == Some("BIP")
    ensures d.signals.dapla ==> d.probes == []
    ensures !d.signals.dapla ==> d.probes == if prodReply then [ProdHost] else [ProdHost, AdmHost]
    ensures d.signals.prodZone <==> ProdHost in d.probes && prodReply
    ensures d.signals.admZone <==> AdmHost in d.probes && admReply
    ensures d.signals.citrix <==>
              !d.signals.dapla && sessionName.Some? && Occurs("ICA", sessionName.value)
  {
    var linux := os == "Linux";
    var windows := !linux && os == "Windows";
    var mac := !linux && !windows && os == "Darwin";
    var dapla := daplaRegion == Some("DAPLA_LAB") || daplaRegion == Some("BIP");
    if dapla then
      Detection(Signals(linux, windows, mac, true, false, false, false), [])
    else
      var probes := if prodReply then [ProdHost] else [ProdHost, AdmHost];
      var citrix := sessionName.Some? && Contains(sessionName.value, "ICA");
      Detection(Signals(linux, windows, mac, false, prodReply, !prodReply && admReply, citrix), probes)
  }

  /** The platform detected on this machine, with the pings its constructor issued. */
  class Platform {
    var linux: bool
    var windows: bool
    var mac: bool
    var dapla: bool
    var prodZone: bool
    var admZone: bool
    var citrix: bool
    /** The hosts pinged by the constructor, in order. */
    var probes: seq<string>

    /** The fields as a value. */
    function Observed(): Signals
      reads this
    {
      Signals(linux, windows, mac, dapla, prodZone, admZone, citrix)
    }

    /** `Platform.__init__`: every flag starts false and is then set step by step. */
    constructor (
      os: string,
      daplaRegion: Option<string>,
      sessionName: Option<string>,
      prodReply: bool,
      admReply: bool)
      ensures Observed() == Detect(os, daplaRegion, sessionName, prodReply, admReply).signals
      ensures probes == Detect(os, daplaRegion, sessionName, prodReply, admReply).probes
    {
      linux, windows, dapla, prodZone, admZone, citrix, mac := false, false, false, false, false, false, false;
      probes := [];
      if os == "Linux" {
        linux := true;
      } else if os == "Windows" {
        windows := true;
      } else if os == "Darwin" {
        mac := true;
      }
      if daplaRegion == Some("DAPLA_LAB") || daplaRegion == Some("BIP") {
        dapla := true;
      }
      new;
      ProbeListSteps();
      if !dapla {
        probes := probes + [ProdHost];
        prodZone := prodReply;
        if !prodZone {
          probes := probes + [AdmHost];
          admZone := admReply;
        }
        citrix := sessionName.Some? && Contains(sessionName.value, "ICA");
      }
    }
  }

  /**
   * `Platform.name()`: the first matching row of the priority table
   * prod+linux, prod+windows(+citrix), dapla, adm+windows, adm+mac, else
   * unknown. The contract gives, for every name, exactly the signals that
   * produce it.
   */
  function Classify(s: Signals): (n: PlatformName)
    ensures n == ProdLinux <==> s.prodZone && s.linux
    ensures n == ProdWindowsCitrix <==> s.prodZone && !s.linux && s.windows && s.citrix
    ensures n == ProdWindowsVdi <==> s.prodZone && !s.linux && s.windows && !s.citrix
    ensures n == Dapla <==> !(s.prodZone && (s.linux || s.windows)) && s.dapla
    ensures n == AdmWindows <==>
              !(s.prodZone && (s.linux || s.windows)) && !s.dapla && s.admZone && s.windows
    ensures n == AdmMac <==>
              !(s.prodZone && (s.linux || s.windows)) && !s.dapla && s.admZone && !s.windows && s.mac
    ensures n == Unknown <==>
              !(s.prodZone && (s.linux || s.windows)) && !s.dapla && !(s.admZone && (s.windows || s.mac))
  {
    if s.prodZone && s.linux then ProdLinux
    else if s.prodZone && s.windows && s.citrix then ProdWindowsCitrix
    else if s.prodZone && s.windows then ProdWindowsVdi
    else if s.dapla then Dapla
    else if s.admZone && s.windows then AdmWindows
    else if s.admZone && s.mac then AdmMac
    else Unknown
  }

  /**
   * On the signals a detection can produce the table reads without its
   * guards; in particular a production-zone Mac is unknown.
   */
  lemma ClassifyConsistent(s: Signals)
    requires Consistent(s)
    ensures s.prodZone && s.linux ==> Classify(s) == ProdLinux
    ensures s.prodZone && s.windows ==> Classify(s) == (if s.citrix then ProdWindowsCitrix else ProdWindowsVdi)
    ensures s.prodZone && s.mac ==> Classify(s) == Unknown
    ensures s.dapla ==> Classify(s) == Dapla
    ensures s.admZone && s.windows ==> Classify(s) == AdmWindows
    ensures s.admZone && s.mac ==> Classify(s) == AdmMac
    ensures !s.prodZone && !s.dapla && !s.admZone ==> Classify(s) == Unknown
  {
  }

  /**
   * From observations to names: a reachable production host on Linux is
   * prod-linux; an unreachable production host, no Dapla region and a
   * reachable administrative host on Windows is adm-windows; with no Dapla
   * region and both hosts unreachable the name is unknown and unsupported.
   */
  lemma DetectedName(
    os: string,
    daplaRegion: Option<string>,
    sessionName: Option<string>,
    prodReply: bool,
    admReply: bool)
    ensures var d := Detect(os, daplaRegion, sessionName, prodReply, admReply);
            var onDapla := daplaRegion == Some("DAPLA_LAB") || daplaRegion == Some("BIP");
            && (!onDapla && prodReply && os == "Linux" ==> Classify(d.signals) == ProdLinux)
            && (!onDapla && !prodReply && admReply && os == "Windows" ==> Classify(d.signals) == AdmWindows)
            && (!onDapla && !prodReply && !admReply ==>
                  Classify(d.signals) == Unknown && !Classify(d.signals).IsSupported())
            && (onDapla ==> Classify(d.signals) == Dapla)
  {
    ClassifyConsistent(Detect(os, daplaRegion, sessionName, prodReply, admReply).signals);
  }

  /** The configuration file name a label selects, `gitconfig-<value>`; the label can be read back from it. */
  function ConfigFileName(n: PlatformName): (file: string)
    ensures ConfigFileLabel(file) == Some(n)
  {
    "gitconfig-" + n.Value()
  }

  /** The label a configuration file name stands for, if any. */
  function ConfigFileLabel(file: string): Option<PlatformName>
  {
    if StartsWith(file, "gitconfig-") then FromValue(file[|"gitconfig-"|..]) else None
  }

  /**
   * The recommended file `set_base_config` copies: the platform's own file,
   * or the Dapla file when testing.
   */
  function SourceConfigFile(n: PlatformName, test: bool): (file: string)
    ensures test ==> file == ConfigFileName(Dapla)
    ensures !test ==> ConfigFileLabel(file) == Some(n)
  {
    if test then ConfigFileName(Dapla) else ConfigFileName(n)
  }

  /**
   * The clone options: SSL verification off on the two production
   * platforms that have a recommended file, the version branch elsewhere.
   */
  function CloneOptions(n: PlatformName): (options: seq<string>)
    ensures options == SslVerifyOff <==> n == ProdWindowsCitrix || n == ProdLinux
    ensures options == SslVerifyOff <==> n.IsSupported() && n != Dapla
    ensures options != SslVerifyOff ==> options == ["--branch", Version]
  {
    if n == ProdWindowsCitrix || n == ProdLinux then SslVerifyOff else ["--branch", "2.2.3"]
  }

  /** The clone command: the options follow the repository URL. */
  function CloneCommand(n: PlatformName): (cmd: seq<string>)
    ensures |cmd| == 5 && cmd[..3] == ["git", "clone", RepoUrl]
    ensures cmd[3..] == CloneOptions(n)
  {
    ["git"] + ["clone", RepoUrl] + CloneOptions(n)
  }

  /**
   * Whether the template word `username` in the copied file is replaced by
   * the login name: only on the Citrix production platform, one of those
   * that clone with SSL verification off.
   */
  function ReplacesUsername(n: PlatformName): (replace: bool)
    ensures replace <==> n == ProdWindowsCitrix
    ensures replace ==> CloneOptions(n) == SslVerifyOff && n.IsSupported()
  {
    n == ProdWindowsCitrix
  }

  /** Distinct platforms select distinct recommended files. */
  lemma {:induction false} ConfigFileNamesDistinct(m: PlatformName, n: PlatformName)
    requires m != n
    ensures ConfigFileName(m) != ConfigFileName(n)
  {
    assert ConfigFileLabel(ConfigFileName(m)) == Some(m);
    assert ConfigFileLabel(ConfigFileName(n)) == Some(n);
  }

  /** The exit status `main` aborts with on an unsupported platform. */
  const AbortStatus: int := 1

  /**
   * `main` up to the copy: outside testing an unsupported platform aborts
   * before anything is written; otherwise the file `set_base_config`
   * copies. Outside testing, only a supported platform's file is copied.
   */
  function ConfigFileToCopy(n: PlatformName, test: bool): (r: Result<string, int>)
    ensures r.Failure? <==> !test && n.IsUnsupported()
    ensures r.Failure? ==> r.error == AbortStatus
    ensures r.Success? && !test ==> ConfigFileLabel(r.value) == Some(n) && n.IsSupported()
    ensures r.Success? && test ==> r.value == ConfigFileName(Dapla)
  {
    if !test && n.IsUnsupported() then Failure(AbortStatus)
    else Success(SourceConfigFile(n, test))
  }
}
