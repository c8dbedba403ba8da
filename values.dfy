/**
 * The enumerations of parameter_values.h that the registers hold: device
 * and feeder states, error codes, command sources, calibration requests
 * and reset reasons.
 */
module ParamValues {
  // DeviceState_t
  const NormalniMod: nat := 0
  const Parovani: nat := 1
  const Vybrano: nat := 2
  const Sparovano: nat := 3

  // FeederState_t
  const NeznaznamaPoloha: nat := 0
  const Otevirani: nat := 1
  const Otevreno: nat := 2
  const UvolneniOtevirani: nat := 3
  const OvereniOtevreni: nat := 4
  const Zavirani: nat := 5
  const Zavreno: nat := 6
  const UvolneniZavirani: nat := 7
  const OvereniZavreni: nat := 8
  const StopZavirani: nat := 9
  const StopOtevirani: nat := 10
  const ChybaKrmitka: nat := 11
  const NMR_STATES: nat := 12

  // ErrorState_t
  const NeniChyba: nat := 0
  const NadProudOtev: nat := 1
  const NadProudZav: nat := 2
  const NeniProud: nat := 3
  const ChybaZavirani: nat := 4
  const ChybaOtevirani: nat := 5
  const MAX_ERROR: nat := 100

  // AutoControl_t
  const vypnuto: nat := 0
  const povoleno: nat := 1

  // TareState_t
  const kalibrace_neni: nat := 0
  const kalibrace_provedena: nat := 1
  const kalibrace_proved: nat := 2

  // FeederCmdSource_t
  const povel_neni: nat := 0
  const povel_tlacitkem: nat := 1
  const povel_casem: nat := 2
  const povel_espnow: nat := 3
  const povel_vaha: nat := 4
  const povel_neznamy: nat := 5

  // ResetReason_t
  const rst_Unknown: nat := 0
  const rst_Software: nat := 1
  const rst_Watchdog: nat := 2
  const rst_Brownout: nat := 3
  const rst_Poweron: nat := 4
  const rst_External: nat := 5
  const rst_Deepsleep: nat := 6
}
