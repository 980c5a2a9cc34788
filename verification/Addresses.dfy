/** The scheme of every address on the bus. */
module Addresses {
  const SCHEME := "comms://"
}
