// Names shared by the scheduler, the store and the runtime.
module Ids {
  type RunId = nat
}
