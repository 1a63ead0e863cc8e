/** The tri-state flag mapping (`bool_para_sim_nao`). */
module Flags {
  import opened Response

  /** The three strings a flag column can hold. */
  predicate IsFlag(s: string) {
    s == "SIM" || s == "NÃO" || s == ""
  }

  /**
   * `valor is True` gives "SIM", `valor is False` gives "NÃO", and every other
   * value (null, a string, a number, ...) gives the empty string.
   */
  function SimNao(v: Json): (r: string)
    ensures IsFlag(r)
    ensures r == "SIM" <==> v == JBool(true)
    ensures r == "NÃO" <==> v == JBool(false)
    ensures r == "" <==> !v.JBool?
  {
    if v == JBool(true) then "SIM"
    else if v == JBool(false) then "NÃO"
    else ""
  }
}
