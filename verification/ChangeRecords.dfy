/** The change record of proto/cdc_service.proto and the serialisation contract it comes with. */
module ChangeRecords {
  import opened Bytes
  import opened Wrappers

  datatype ChangeOperation = Unspecified | Create | Update | Delete

  datatype ChangeRecord = ChangeRecord(
    partitionId: nat,
    partitionEpoch: nat,
    offset: nat,
    commitVersion: nat,
    txnId: nat,
    batchIndex: nat,
    batchSize: nat,
    entityId: nat,
    targetId: nat,
    entityType: nat,
    edgeType: nat,
    columnId: nat,
    operation: ChangeOperation,
    validFrom: nat,
    validTo: nat,
    payload: Bytes,
    checksum: nat)

  /** Whether `SerializeToString` succeeds, what it writes, `ParseFromString` and `crc32c::Value`. */
  datatype Codec = Codec(
    fits: ChangeRecord -> bool,
    encode: ChangeRecord -> Bytes,
    decode: Bytes -> Option<ChangeRecord>,
    crc: Bytes -> nat)

  /** A record that can be serialised has at most 2^31 - 1 bytes and parses back to itself; a checksum has 32 bits. */
  ghost predicate Faithful(c: Codec) {
    && (forall r: ChangeRecord :: c.fits(r) ==> |c.encode(r)| < 0x8000_0000 && c.decode(c.encode(r)) == Some(r))
    && (forall b: Bytes :: c.crc(b) < 0x1_0000_0000)
  }
}
