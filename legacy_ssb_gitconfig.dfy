/**
 * The earlier standalone `ssb-gitconfig` script. It detects the same seven
 * signals, but recognises Dapla by the presence of `LOCAL_USER_PATH`, and
 * chooses the recommended file, the clone options and the username
 * substitution directly from the signals rather than from a platform name.
 */
module LegacySsbGitconfig {
  import opened Wrappers
  import opened PyText
  import opened PlatformSignals
  import SsbGitconfig

  /**
   * The argument list of `ping`: as in the packaged script, except that the
   * timeout is 1000 on Windows only and 1 everywhere else.
   */
  function PingCommand(system: string, host: string): (cmd: seq<string>)
    ensures |cmd| == 6 && cmd[0] == "ping" && cmd[2] == "1" && cmd[5] == host
    ensures cmd[1] == (if system == "Windows" then "-n" else "-c")
    ensures cmd[3] == (if system == "Windows" then "-w" else "-W")
    ensures cmd[4] == (if system == "Windows" then "1000" else "1")
  {
    var pingParam := if system == "Windows" then "-n" else "-c";
    var timeoutParam := if system == "Windows" then "-w" else "-W";
    var timeoutValue := if system == "Windows" then "1000" else "1";
    ["ping", pingParam, "1", timeoutParam, timeoutValue, host]
  }

  /**
   * The two scripts ping alike on Linux and Windows; on any other system
   * (macOS among them) they pass different timeouts.
   */
  lemma PingCommandsDiffer(system: string, host: string)
    ensures PingCommand(system, host) == SsbGitconfig.PingCommand(system, host)
            <==> system == "Linux" || system == "Windows"
  {
    var legacy := PingCommand(system, host);
    var packaged := SsbGitconfig.PingCommand(system, host);
    if system != "Linux" && system != "Windows" {
      assert legacy[4] != packaged[4];
    }
  }

  /**
   * What the legacy `Platform()` observes, given the OS name, the
   * environment variables `LOCAL_USER_PATH` and `SESSIONNAME`, and the
   * answer each host would give if pinged.
   */
  function Detect(
    os: string,
    localUserPath: Option<string>,
    sessionName: Option<string>,
    prodReply: bool,
    admReply: bool): (d: Detection)
    ensures Consistent(d.signals)
    ensures d.signals.linux <==> os == "Linux"
    ensures d.signals.windows <==> os == "Windows"
    ensures d.signals.mac <==> os == "Darwin"
    ensures d.signals.dapla <==> localUserPath.Some?
    ensures d.signals.dapla ==> d.probes == []
    ensures !d.signals.dapla ==> d.probes == if prodReply then [ProdHost] else [ProdHost, AdmHost]
    ensures d.signals.prodZone <==> ProdHost in d.probes && prodReply
    ensures d.signals.admZone <==> AdmHost in d.probes && admReply
    ensures d.signals.citrix <==>
              !d.signals.dapla && sessionName.Some? && Occurs("ICA", sessionName.value)
  {
    var linux := os == "Linux";
    var windows := os == "Windows";
    var mac := os == "Darwin";
    var dapla := localUserPath.Some?;
    if dapla then
      Detection(Signals(linux, windows, mac, true, false, false, false), [])
    else
      var probes := if prodReply then [ProdHost] else [ProdHost, AdmHost];
      var citrix := sessionName.Some? && Contains(sessionName.value, "ICA");
      Detection(Signals(linux, windows, mac, false, prodReply, !prodReply && admReply, citrix), probes)
  }

  /** The platform detected by the legacy script, with the pings its constructor issued. */
  class Platform {
    var linux: bool
    var windows: bool
    var mac: bool
    var dapla: bool
    var prodZone: bool
    var admZone: bool
    var citrix: bool
    /** The hosts pinged by the constructor, in order. */
    var probes: seq<string>

    /** The fields as a value. */
    function Observed(): Signals
      reads this
    {
      Signals(linux, windows, mac, dapla, prodZone, admZone, citrix)
    }

    /** `Platform.__init__`: three independent OS tests, then Dapla, then the pings. */
    constructor (
      os: string,
      localUserPath: Option<string>,
      sessionName: Option<string>,
      prodReply: bool,
      admReply: bool)
      ensures Observed() == Detect(os, localUserPath, sessionName, prodReply, admReply).signals
      ensures probes == Detect(os, localUserPath, sessionName, prodReply, admReply).probes
    {
      linux, windows, dapla, prodZone, admZone, citrix, mac := false, false, false, false, false, false, false;
      probes := [];
      if os == "Linux" {
        linux := true;
      }
      if os == "Windows" {
        windows := true;
      }
      if os == "Darwin" {
        mac := true;
      }
      if localUserPath.Some? {
        dapla := true;
      }
      new;
      ProbeListSteps();
      if !dapla {
        probes := probes + [ProdHost];
        prodZone := prodReply;
        if !prodZone {
          probes := probes + [AdmHost];
          admZone := admReply;
        }
        citrix := sessionName.Some? && Contains(sessionName.value, "ICA");
      }
    }
  }

  /**
   * The options placed before `clone`: SSL verification off on the
   * production zone under Linux or under Windows with Citrix, none otherwise.
   */
  function CloneOptions(s: Signals): (options: seq<string>)
    ensures options == SsbGitconfig.SslVerifyOff <==> s.prodZone && (s.linux || (s.windows && s.citrix))
    ensures options != SsbGitconfig.SslVerifyOff ==> options == []
  {
    var prodZoneWindows := s.prodZone && s.windows && s.citrix;
    var prodZoneLinux := s.prodZone && s.linux;
    if prodZoneWindows || prodZoneLinux then SsbGitconfig.SslVerifyOff else []
  }

  /** The clone command: the options sit between `git` and `clone`. */
  function CloneCommand(s: Signals): (cmd: seq<string>)
    ensures |cmd| >= 3 && cmd[0] == "git" && cmd[1..|cmd| - 2] == CloneOptions(s)
    ensures cmd[|cmd| - 2..] == ["clone", SsbGitconfig.RepoUrl]
  {
    ["git"] + CloneOptions(s) + ["clone", SsbGitconfig.RepoUrl]
  }

  /**
   * Whether some row of the legacy `set_base_config` table matches: the
   * production zone under Linux, or under Windows with Citrix; Dapla; the
   * administrative zone under Windows or macOS.
   */
  predicate HasRow(s: Signals)
  {
    || (s.prodZone && s.linux)
    || (s.prodZone && s.windows && s.citrix)
    || s.dapla
    || (s.admZone && (s.windows || s.mac))
  }

  /**
   * The recommended file the legacy `set_base_config` copies, or the abort
   * status when no row matches and it is not testing. The contract gives
   * the table row by row, each row applying when none above it matches.
   */
  function SourceConfigFile(s: Signals, test: bool): (r: Result<string, int>)
    ensures s.prodZone && s.linux ==> r == Success("gitconfig-prod-linux")
    ensures !(s.prodZone && s.linux) && s.prodZone && s.windows && s.citrix
            ==> r == Success("gitconfig-prod-windows-citrix")
    ensures !(s.prodZone && s.linux) && !(s.prodZone && s.windows && s.citrix) && s.dapla
            ==> r == Success("gitconfig-dapla")
    ensures !(s.prodZone && s.linux) && !(s.prodZone && s.windows && s.citrix) && !s.dapla && s.admZone && s.windows
            ==> r == Success("gitconfig-prod-windows-citrix")
    ensures !(s.prodZone && s.linux) && !(s.prodZone && s.windows && s.citrix) && !s.dapla && s.admZone && !s.windows && s.mac
            ==> r == Success("gitconfig-adm-mac")
    ensures !HasRow(s) && !test ==> r == Failure(SsbGitconfig.AbortStatus)
    ensures !HasRow(s) && test ==> r == Success("gitconfig-prod-linux")
    ensures r.Failure? <==> !test && !HasRow(s)
  {
    if s.prodZone && s.linux then Success("gitconfig-prod-linux")
    else if s.prodZone && s.windows && s.citrix then Success("gitconfig-prod-windows-citrix")
    else if s.dapla then Success("gitconfig-dapla")
    else if s.admZone && s.windows then Success("gitconfig-prod-windows-citrix")
    else if s.admZone && s.mac then Success("gitconfig-adm-mac")
    else if !test then Failure(SsbGitconfig.AbortStatus)
    else Success("gitconfig-prod-linux")
  }

  /**
   * Whether the template word `username` is replaced by the login name:
   * only on the production zone under Windows with Citrix, one of the
   * platforms that clone with SSL verification off.
   */
  function ReplacesUsername(s: Signals): (replace: bool)
    ensures replace <==> s.prodZone && s.windows && s.citrix
    ensures replace ==> CloneOptions(s) == SsbGitconfig.SslVerifyOff
  {
    s.prodZone && s.windows && s.citrix
  }

  /**
   * A production-zone Windows machine without Citrix is never given its
   * own file: the script aborts, or falls back to the Linux file when testing.
   */
  lemma VdiNeverConfigured(s: Signals, test: bool)
    requires Consistent(s) && s.prodZone && s.windows && !s.citrix
    ensures SourceConfigFile(s, test) == if test then Success("gitconfig-prod-linux") else Failure(SsbGitconfig.AbortStatus)
    ensures CloneOptions(s) == [] && !ReplacesUsername(s)
  {
  }

  /**
   * On the administrative zone the legacy script still configures the
   * machine: Windows gets the Citrix file, but without username
   * substitution or SSL options, and a Mac gets its own file.
   */
  lemma AdmZoneConfigured(s: Signals, test: bool)
    requires Consistent(s) && s.admZone && (s.windows || s.mac)
    ensures s.windows ==> SourceConfigFile(s, test) == Success("gitconfig-prod-windows-citrix")
    ensures s.mac ==> SourceConfigFile(s, test) == Success("gitconfig-adm-mac")
    ensures CloneOptions(s) == [] && !ReplacesUsername(s)
  {
  }

  /**
   * On the same seven signals, where the packaged script supports the
   * platform and neither script is testing, both pick the same file name
   * (each under its own clone's `recommended` directory) and the same
   * username substitution, and agree on turning SSL verification off. The
   * scripts detect Dapla from different environment variables, so one
   * machine can give them different signals; this lemma does not cover that. On Dapla they clone different
   * revisions: the packaged script asks for the version branch, the legacy
   * one takes the default branch.
   */
  lemma AgreesWithPackagedScript(s: Signals)
    requires Consistent(s) && SsbGitconfig.Classify(s).IsSupported()
    ensures var n := SsbGitconfig.Classify(s);
            && SourceConfigFile(s, false) == Success(SsbGitconfig.SourceConfigFile(n, false))
            && ReplacesUsername(s) == SsbGitconfig.ReplacesUsername(n)
            && (CloneOptions(s) == SsbGitconfig.SslVerifyOff <==> SsbGitconfig.CloneOptions(n) == SsbGitconfig.SslVerifyOff)
            && (n == SsbGitconfig.Dapla ==>
                  CloneOptions(s) == [] && SsbGitconfig.CloneOptions(n) == ["--branch", SsbGitconfig.Version])
  {
    SsbGitconfig.ClassifyConsistent(s);
    var n := SsbGitconfig.Classify(s);
    match n {
      case Dapla =>
        assert SsbGitconfig.ConfigFileName(n) == "gitconfig-dapla";
      case ProdLinux =>
        assert SsbGitconfig.ConfigFileName(n) == "gitconfig-prod-linux";
      case ProdWindowsCitrix =>
        assert SsbGitconfig.ConfigFileName(n) == "gitconfig-prod-windows-citrix";
    }
  }
}
