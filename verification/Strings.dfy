/** String objects. */
module Strings {
  import opened Values
  import opened Hashing

  /** "This string was never looked up among the globals." */
  const INVALID_OBJ_STRING_SYMBOL: nat := 0xFFFF_FFFF

  class ObjString {
    const chars: Text
    const hash: Word
    var symbol: nat   // the cell where the globals' table last looked for it

    constructor (chars: Text, hash: Word)
      ensures this.chars == chars && this.hash == hash && symbol == INVALID_OBJ_STRING_SYMBOL
    {
      this.chars := chars;
      this.hash := hash;
      symbol := INVALID_OBJ_STRING_SYMBOL;
    }
  }
}
