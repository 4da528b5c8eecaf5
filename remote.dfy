/**
 * What a call into a hosted service (Convex, the storage endpoint, Schematic)
 * did: it returned, or it threw an Error carrying a message. The replies are
 * inputs of the model; nothing here decides them.
 */
module Remote {

  datatype Reply = Returns | Throws(message: string)
}
