/**
 * The DICOM file signature of DICOM PS3.10 section 7.1 (DICOM File Meta
 * Information): a 128-byte preamble followed by the four bytes "DICM".
 */
module DicomPreamble {
  import opened Utf8

  const PREAMBLE_LENGTH: nat := 128
  const PREFIX_END: nat := 132

  /** 'D' 'I' 'C' 'M' */
  const DICM: seq<byte> := [0x44, 0x49, 0x43, 0x4D]

  /** The bytes at 128..131 are "DICM". */
  predicate HasDicmPrefix(buf: seq<byte>) {
    |buf| >= PREFIX_END && buf[PREAMBLE_LENGTH..PREFIX_END] == DICM
  }

  /** `buf.slice(a, b)` of a Node buffer or a typed array: indices clamp to the length. */
  function Slice(buf: seq<byte>, a: nat, b: nat): (r: seq<byte>)
    requires a <= b
    ensures |r| <= b - a
    ensures b <= |buf| ==> r == buf[a..b]
  {
    var hi := if b <= |buf| then b else |buf|;
    var lo := if a <= hi then a else hi;
    buf[lo..hi]
  }
}
