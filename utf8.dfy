/**
 * The UTF-8 decoder of the WHATWG Encoding Standard (section 8.1.1, "UTF-8
 * decoder"), as `new TextDecoder("utf-8").decode(bytes)` runs it: errors
 * become U+FFFD and a leading byte order mark is dropped. Output is a
 * sequence of code points.
 */
module Utf8 {

  newtype byte = b: int | 0 <= b < 256

  const REPLACEMENT: int := 0xFFFD
  const BYTE_ORDER_MARK: int := 0xFEFF

  /** The decoder's variables: code point so far, bytes needed and seen, and the bounds for the next byte. */
  datatype State = State(cp: int, needed: nat, seen: nat, lower: int, upper: int)

  const Idle: State := State(0, 0, 0, 0x80, 0xBF)

  /** The state after a lead byte, with the decoder's special bounds after E0, ED, F0 and F4. */
  predicate Pending(st: State) {
    && 1 <= st.needed && st.seen < st.needed
    && 0x80 <= st.lower <= st.upper <= 0xBF
    && st.cp >= 0
    && (st.cp >= 1 || st.lower >= 0x90)
    && (st.needed - st.seen == 1 ==> st.cp >= 2)
  }

  function DecodeFrom(bs: seq<byte>, st: State): seq<int>
    decreases |bs|, st.needed
  {
    if |bs| == 0 then
      (if st.needed != 0 then [REPLACEMENT] else [])
    else
      var b := bs[0] as int;
      if st.needed == 0 then
        if b <= 0x7F then [b] + DecodeFrom(bs[1..], Idle)
        else if 0xC2 <= b <= 0xDF then DecodeFrom(bs[1..], State(b - 0xC0, 1, 0, 0x80, 0xBF))
        else if 0xE0 <= b <= 0xEF then
          DecodeFrom(bs[1..], State(b - 0xE0, 2, 0, if b == 0xE0 then 0xA0 else 0x80, if b == 0xED then 0x9F else 0xBF))
        else if 0xF0 <= b <= 0xF4 then
          DecodeFrom(bs[1..], State(b - 0xF0, 3, 0, if b == 0xF0 then 0x90 else 0x80, if b == 0xF4 then 0x8F else 0xBF))
        else [REPLACEMENT] + DecodeFrom(bs[1..], Idle)
      else if !(st.lower <= b <= st.upper) then
        // the byte is put back and decoded again from the idle state
        [REPLACEMENT] + DecodeFrom(bs, State(0, 0, 0, 0x80, 0xBF))
      else
        var cp := st.cp * 64 + (b - 0x80);
        if st.seen + 1 == st.needed then [cp] + DecodeFrom(bs[1..], Idle)
        else DecodeFrom(bs[1..], State(cp, st.needed, st.seen + 1, 0x80, 0xBF))
  }

  /** `new TextDecoder("utf-8").decode(bs)`: a leading U+FEFF is not part of the text. */
  function Decode(bs: seq<byte>): seq<int> {
    var out := DecodeFrom(bs, Idle);
    if |out| > 0 && out[0] == BYTE_ORDER_MARK then out[1..] else out
  }

  predicate AllAscii(bs: seq<byte>) {
    forall i :: 0 <= i < |bs| ==> bs[i] < 0x80
  }

  function AsCodePoints(bs: seq<byte>): (r: seq<int>)
    ensures |r| == |bs|
    ensures forall i :: 0 <= i < |bs| ==> r[i] == bs[i] as int
  {
    seq(|bs|, i requires 0 <= i < |bs| => bs[i] as int)
  }

  /** ASCII bytes decode to themselves. */
  lemma {:induction false} DecodeAscii(bs: seq<byte>)
    requires AllAscii(bs)
    ensures DecodeFrom(bs, Idle) == AsCodePoints(bs)
  {
    if |bs| > 0 {
      assert AllAscii(bs[1..]) by {
        forall i | 0 <= i < |bs[1..]| ensures bs[1..][i] < 0x80 { assert bs[1..][i] == bs[i + 1]; }
      }
      DecodeAscii(bs[1..]);
      assert AsCodePoints(bs) == [bs[0] as int] + AsCodePoints(bs[1..]);
    }
  }

  /** The decoder emits at most one code point per byte, plus one for a truncated sequence. */
  lemma {:induction false} DecodeLength(bs: seq<byte>, st: State)
    ensures |DecodeFrom(bs, st)| <= |bs| + (if st.needed != 0 then 1 else 0)
    decreases |bs|, st.needed
  {
    if |bs| > 0 {
      var b := bs[0] as int;
      if st.needed == 0 {
        if b <= 0x7F {
          DecodeLength(bs[1..], Idle);
        } else if 0xC2 <= b <= 0xDF {
          DecodeLength(bs[1..], State(b - 0xC0, 1, 0, 0x80, 0xBF));
        } else if 0xE0 <= b <= 0xEF {
          DecodeLength(bs[1..], State(b - 0xE0, 2, 0, if b == 0xE0 then 0xA0 else 0x80, if b == 0xED then 0x9F else 0xBF));
        } else if 0xF0 <= b <= 0xF4 {
          DecodeLength(bs[1..], State(b - 0xF0, 3, 0, if b == 0xF0 then 0x90 else 0x80, if b == 0xF4 then 0x8F else 0xBF));
        } else {
          DecodeLength(bs[1..], Idle);
        }
      } else if !(st.lower <= b <= st.upper) {
        DecodeLength(bs, State(0, 0, 0, 0x80, 0xBF));
      } else {
        var cp := st.cp * 64 + (b - 0x80);
        if st.seen + 1 == st.needed {
          DecodeLength(bs[1..], Idle);
        } else {
          DecodeLength(bs[1..], State(cp, st.needed, st.seen + 1, 0x80, 0xBF));
        }
      }
    }
  }

  predicate HasNonAscii(out: seq<int>) {
    exists k :: 0 <= k < |out| && out[k] >= 0x80
  }

  lemma PrependKeepsNonAscii(x: int, out: seq<int>)
    requires HasNonAscii(out)
    ensures HasNonAscii([x] + out)
  {
    var k :| 0 <= k < |out| && out[k] >= 0x80;
    assert ([x] + out)[k + 1] == out[k];
  }

  /**
   * A pending multi-byte sequence always yields a code point of at least
   * 0x80: either it completes (and the lead byte's bounds rule out overlong
   * forms) or it is cut short and yields U+FFFD.
   */
  lemma {:induction false} PendingYieldsNonAscii(bs: seq<byte>, st: State)
    requires Pending(st)
    ensures HasNonAscii(DecodeFrom(bs, st))
    decreases |bs|
  {
    if |bs| == 0 {
      assert DecodeFrom(bs, st)[0] == REPLACEMENT;
    } else {
      var b := bs[0] as int;
      var out := DecodeFrom(bs, st);
      if !(st.lower <= b <= st.upper) {
        assert out[0] == REPLACEMENT;
      } else {
        var cp := st.cp * 64 + (b - 0x80);
        if st.seen + 1 == st.needed {
          assert cp >= 0x80;
          assert out[0] == cp;
        } else {
          var next := State(cp, st.needed, st.seen + 1, 0x80, 0xBF);
          assert cp >= 1 by {
            if st.cp == 0 { assert b >= 0x90; }
          }
          assert next.needed - next.seen == 1 ==> cp >= 2 by {
            if st.cp == 0 { assert b >= 0x90; }
          }
          assert Pending(next);
          PendingYieldsNonAscii(bs[1..], next);
        }
      }
    }
  }

  /** Decoding from the idle state shows a non-ASCII code point for any non-ASCII byte. */
  lemma {:induction false} NonAsciiYieldsNonAscii(bs: seq<byte>)
    requires !AllAscii(bs)
    ensures HasNonAscii(DecodeFrom(bs, Idle))
  {
    var b := bs[0] as int;
    if b <= 0x7F {
      assert !AllAscii(bs[1..]) by {
        var i :| 0 <= i < |bs| && bs[i] >= 0x80;
        assert i > 0 && bs[1..][i - 1] == bs[i];
      }
      NonAsciiYieldsNonAscii(bs[1..]);
      PrependKeepsNonAscii(b, DecodeFrom(bs[1..], Idle));
    } else if 0xC2 <= b <= 0xDF {
      PendingYieldsNonAscii(bs[1..], State(b - 0xC0, 1, 0, 0x80, 0xBF));
    } else if 0xE0 <= b <= 0xEF {
      PendingYieldsNonAscii(bs[1..], State(b - 0xE0, 2, 0, if b == 0xE0 then 0xA0 else 0x80, if b == 0xED then 0x9F else 0xBF));
    } else if 0xF0 <= b <= 0xF4 {
      PendingYieldsNonAscii(bs[1..], State(b - 0xF0, 3, 0, if b == 0xF0 then 0x90 else 0x80, if b == 0xF4 then 0x8F else 0xBF));
    } else {
      assert DecodeFrom(bs, Idle)[0] == REPLACEMENT;
    }
  }

  /** An input with a non-ASCII byte, no longer than an ASCII text `t`, never decodes to `t`. */
  lemma NonAsciiNeverDecodesToAscii(bs: seq<byte>, t: seq<byte>)
    requires AllAscii(t) && !AllAscii(bs) && |bs| <= |t|
    ensures Decode(bs) != AsCodePoints(t)
  {
    var out := DecodeFrom(bs, Idle);
    DecodeLength(bs, Idle);
    NonAsciiYieldsNonAscii(bs);
    var k :| 0 <= k < |out| && out[k] >= 0x80;
    if |out| > 0 && out[0] == BYTE_ORDER_MARK {
      // dropping the mark leaves fewer code points than t has
      assert |Decode(bs)| < |t|;
    } else {
      assert Decode(bs) == out;
      assert k < |t| ==> AsCodePoints(t)[k] < 0x80;
    }
  }

  /**
   * Among inputs no longer than an ASCII text `t`, only the bytes of `t`
   * decode to `t`. (A longer input can: a byte order mark followed by `t`.)
   */
  lemma DecodeEqualsAsciiIff(bs: seq<byte>, t: seq<byte>)
    requires AllAscii(t)
    requires |bs| <= |t|
    ensures Decode(bs) == AsCodePoints(t) <==> bs == t
  {
    if AllAscii(bs) {
      DecodeAscii(bs);
      assert |bs| == 0 || AsCodePoints(bs)[0] < 0x80;
      assert Decode(bs) == AsCodePoints(bs);
      if AsCodePoints(bs) == AsCodePoints(t) {
        assert forall i :: 0 <= i < |bs| ==> bs[i] == t[i] by {
          forall i | 0 <= i < |bs| ensures bs[i] == t[i] {
            assert AsCodePoints(bs)[i] == AsCodePoints(t)[i];
          }
        }
      }
    } else {
      NonAsciiNeverDecodesToAscii(bs, t);
    }
  }
}
