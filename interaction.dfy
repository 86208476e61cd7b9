/** The structured unit exchanged with the language model. */
module Interactions {

  /** A game action requested by the model; only item transfer exists. */
  datatype Action = Give(item: string, amount: int)

  /** Who speaks to whom, the dialogue text and the actions attached to it. */
  datatype Interaction = Interaction(senderId: string, receiverId: string, message: string, actions: seq<Action>)
}
