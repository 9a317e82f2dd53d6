/**
 * The record both versions of the `Platform` class build: seven booleans
 * gathered once from the OS name, environment variables and two pings, and
 * the hosts that were pinged on the way.
 */
module PlatformSignals {

  /** The host whose ping reply places the machine in the production zone. */
  const ProdHost: string := "sl-jupyter-p.ssb.no"

  /** The host pinged next, whose reply places the machine in the administrative zone. */
  const AdmHost: string := "aw-dc04.ssb.no"

  /** The seven fields of a `Platform` object once its constructor has run. */
  datatype Signals = Signals(
    linux: bool,
    windows: bool,
    mac: bool,
    dapla: bool,
    prodZone: bool,
    admZone: bool,
    citrix: bool)

  /** The signals, together with the hosts pinged while gathering them, in order. */
  datatype Detection = Detection(signals: Signals, probes: seq<string>)

  /**
   * What every detection guarantees: at most one operating system, never
   * both zones, and on Dapla no zone and no Citrix session.
   */
  predicate Consistent(s: Signals)
  {
    && !(s.linux && s.windows) && !(s.linux && s.mac) && !(s.windows && s.mac)
    && !(s.prodZone && s.admZone)
    && (s.dapla ==> !s.prodZone && !s.admZone && !s.citrix)
  }

  /** The probe list as the constructors grow it, one host at a time. */
  lemma ProbeListSteps()
    ensures [] + [ProdHost] == [ProdHost]
    ensures [ProdHost] + [AdmHost] == [ProdHost, AdmHost]
  {
  }
}
