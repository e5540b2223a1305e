/** What the parts of the Windows V4V driver share. */
module Xenv4v {

  /** v4v_addr_t; addresses are the same if both parts are (XENV4V_ADDR_COMPARE). */
  datatype Addr = Addr(port: nat, domain: nat)
}
