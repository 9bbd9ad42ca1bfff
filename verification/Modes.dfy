/** Operating modes, shared by the watchdog, the risk engine and the execution engine. */
module Modes {
  datatype Mode = Normal | SoftPauseMode | CancelOnlyMode | FullStopMode
  {
    function Rank(): nat
    {
      match this
      case Normal => 0
      case SoftPauseMode => 1
      case CancelOnlyMode => 2
      case FullStopMode => 3
    }
  }
}
