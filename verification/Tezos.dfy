/** Chain-level values the two contracts exchange: addresses, tokens and emitted events. */
module Tezos {

  datatype Address = Address(id: nat)

  newtype Byte = b: int | 0 <= b < 256

  datatype Bytes = Bytes(data: seq<Byte>)

  /** `Bytes.pack "self"`: the holder of tokens not yet assigned to a client. */
  const SELF := Bytes([0x05, 0x01, 0, 0, 0, 4, 0x73, 0x65, 0x6C, 0x66])

  datatype Token = Token(tokenAddress: Address, tokenId: nat)

  /** One item of the token contract's `%retire` parameter. */
  datatype RetireTx = RetireTx(retiringParty: Address, tokenId: nat, amount: nat, retiringData: Bytes)

  datatype Event =
    | TokenRetired(tx: RetireTx)
    | InternallyTransferred(source: Bytes, destination: Bytes, token: Token, amount: nat)
    | InternallyMinted(token: Token, diff: int, newTotal: nat)
    | CustodianRetired(retiringParty: Address, kyc: Bytes, token: Token, amount: nat, retiringData: Bytes)
}
