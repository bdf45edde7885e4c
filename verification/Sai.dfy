/** Integer widths, object identifiers and return codes shared by every table (headers/esalSaiDef.h). */
module Sai {
  type U8 = x: int | 0 <= x < 0x100
  type U16 = x: int | 0 <= x < 0x1_0000
  type U32 = x: int | 0 <= x < 0x1_0000_0000

  /** A SAI object handle. The drivers only compare handles, order them inside a std::set and read their
      low bits, so the 64-bit bound plays no part. */
  type Oid = nat

  /** A six-byte MAC address. */
  type Mac = m: seq<U8> | |m| == 6 witness [0, 0, 0, 0, 0, 0]

  const NULL_OID: Oid := 0
  const RC_OK := 0
  const RC_FAIL := 1

  datatype Option<+T> = None | Some(value: T)

  /** The cast to uint16_t. */
  function Low16(n: nat): U16 {
    n % 0x1_0000
  }

  /** GET_OID_VAL: masking with 2^40 - 1 keeps the value modulo 2^40. */
  function GetOidVal(oid: Oid): nat {
    oid % 0x100_0000_0000
  }

  function PortIdOf(oid: Oid): U16 {
    Low16(GetOidVal(oid))
  }

  /** The 40-bit mask is invisible after the 16-bit cast. */
  lemma PortIdIsLow16(oid: Oid)
    ensures PortIdOf(oid) == Low16(oid)
  {
    var high := oid / 0x100_0000_0000;
    assert oid == (high * 0x100_0000) * 0x1_0000 + GetOidVal(oid);
  }
}
