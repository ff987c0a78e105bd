/**
 * The compiled transform module the portal ships.  Its code is not part of
 * this model: the model sees it only through its five exports, each called
 * with five integers and yielding the first integer of its results.
 */
module Wasm {

  /** The five exports the token parser calls. */
  datatype Export = Cdx | Rdx | Bdx | Ndx | Mdx

  /** `runtime.invocate(module, name, args)[0]` for a loaded module. */
  type Transform = (Export, seq<int>) -> int
}
