/** The one bit of processor state that the kernel's critical sections use. */
module Interrupts {

  class Cpu {
    var irqEnabled: bool

    constructor ()
      ensures !irqEnabled
    {
      irqEnabled := false;
    }

    /** Set the level and return the previous one. */
    method SetInterruptLevel(en: bool) returns (wasEnabled: bool)
      modifies this
      ensures wasEnabled == old(irqEnabled) && irqEnabled == en
    {
      wasEnabled := irqEnabled;
      irqEnabled := en;
    }
  }
}
