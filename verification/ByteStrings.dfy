/** Bytes, as the object stores handle them. */
module ByteStrings {

  type Bytes = seq<bv8>

  function Min(a: nat, b: nat): nat {
    if a < b then a else b
  }
}
