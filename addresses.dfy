/** Raw addresses shared by every pointer family of the model. */
module Addresses {

  /** An abstract machine address. The payload objects themselves are not
      modelled, only where they live; 0 plays the role of `nullptr`. */
  type Addr = nat

  const Null: Addr := 0
}
