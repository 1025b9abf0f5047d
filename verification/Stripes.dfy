/** What the coordinator keeps of a stripe. */
module Stripes {

  /** The node and the id of each block. */
  datatype StripeInfo = StripeInfo(blocks2nodes: seq<nat>, blockIds: seq<nat>)
}
