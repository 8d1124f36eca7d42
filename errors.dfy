/** The Python exceptions the modelled code can raise, as error values. */
module Errors {

  datatype PyError =
    | KeyError          // a missing dictionary key (a height with no palette entry)
    | IndexError        // a list index past the end of the tile list
    | ValueError        // `chr` of a code point outside `0 .. 0x10FFFF`, or `randint(a, b)` with `a > b`
    | TypeError         // `ord` of a string that is not exactly one character
    | AttributeError    // an attribute of `None` (no legend layer was loaded)
    | PaletteTooSmall   // the `Exception` `generate` raises for a small palette
}
