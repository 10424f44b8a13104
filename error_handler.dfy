/**
 * `AppError` and the global `errorHandler` of the back end: an operational
 * error carries its own status code and a status text derived from it; any
 * other error becomes a generic 500.
 */
module ErrorHandler {

  function DigitChar(d: nat): (c: char)
    requires d < 10
    ensures '0' <= c <= '9'
  {
    ('0' as int + d) as char
  }

  /** Decimal digits of a natural number, most significant first. */
  function Digits(n: nat): (s: string)
    ensures |s| >= 1
    decreases n
  {
    (if n < 10 then "" else Digits(n / 10)) + [DigitChar(n % 10)]
  }

  /** The template literal `${n}` for an integer. */
  function DecimalText(n: int): string {
    if n < 0 then "-" + Digits(-n) else Digits(n)
  }

  function LeadingDigit(n: nat): (d: nat)
    ensures d < 10
    ensures d == 0 <==> n == 0
    decreases n
  {
    if n < 10 then n else LeadingDigit(n / 10)
  }

  function Pow10(k: nat): (p: nat)
    ensures p >= 1
  {
    if k == 0 then 1 else 10 * Pow10(k - 1)
  }

  /** `${statusCode}`.startsWith('4') */
  predicate StartsWith4(statusCode: int) {
    DecimalText(statusCode)[0] == '4'
  }

  datatype AppError = AppError(message: string, statusCode: int, status: string, isOperational: bool)

  const FAIL: string := "fail"
  const ERROR: string := "error"

  /** `new AppError(message, statusCode)` */
  function NewAppError(message: string, statusCode: int): (e: AppError)
    ensures e.message == message && e.statusCode == statusCode
    ensures e.isOperational
    ensures e.status == FAIL || e.status == ERROR
  {
    AppError(message, statusCode, if StartsWith4(statusCode) then FAIL else ERROR, true)
  }

  lemma {:induction false} DigitsStartWithLeadingDigit(n: nat)
    ensures Digits(n)[0] == DigitChar(LeadingDigit(n))
    decreases n
  {
    if n >= 10 {
      DigitsStartWithLeadingDigit(n / 10);
      assert Digits(n) == Digits(n / 10) + [DigitChar(n % 10)];
    }
  }

  /** The leading decimal digit is 4 exactly on the intervals [4·10^k, 5·10^k). */
  lemma {:induction false} LeadingDigitFourIff(n: nat)
    ensures LeadingDigit(n) == 4 <==> exists k: nat :: 4 * Pow10(k) <= n < 5 * Pow10(k)
    decreases n
  {
    if n < 10 {
      if n == 4 {
        assert 4 * Pow10(0) <= n < 5 * Pow10(0);
      } else {
        forall k: nat ensures !(4 * Pow10(k) <= n < 5 * Pow10(k)) {
          if k > 0 {
            var p := Pow10(k);
            assert p == 10 * Pow10(k - 1) >= 10;
            assert 4 * p >= 40;
          } else {
            assert Pow10(k) == 1;
          }
        }
      }
    } else {
      var m, r := n / 10, n % 10;
      assert n == 10 * m + r && 0 <= r < 10;
      LeadingDigitFourIff(m);
      if LeadingDigit(m) == 4 {
        var k: nat :| 4 * Pow10(k) <= m < 5 * Pow10(k);
        assert Pow10(k + 1) == 10 * Pow10(k);
        assert 4 * Pow10(k + 1) <= n < 5 * Pow10(k + 1);
      } else {
        forall k: nat ensures !(4 * Pow10(k) <= n < 5 * Pow10(k)) {
          if k == 0 {
            assert Pow10(k) == 1;
          } else {
            var p := Pow10(k - 1);
            assert Pow10(k) == 10 * p;
            assert !(4 * Pow10(k - 1) <= m < 5 * Pow10(k - 1));
            assert 4 * Pow10(k) <= n ==> 4 * p <= m;
            assert n < 5 * Pow10(k) ==> m < 5 * p;
          }
        }
      }
    }
  }

  /**
   * An AppError's status is 'fail' iff its code is positive with leading digit 4
   * (400..499, and also 4, 40..49, 4000..4999, ...), else 'error'.
   */
  lemma StatusFailIff(message: string, statusCode: int)
    ensures NewAppError(message, statusCode).status == FAIL <==>
      statusCode > 0 && exists k: nat :: 4 * Pow10(k) <= statusCode < 5 * Pow10(k)
  {
    if statusCode >= 0 {
      DigitsStartWithLeadingDigit(statusCode);
      LeadingDigitFourIff(statusCode);
      var d := LeadingDigit(statusCode);
      assert DigitChar(d) as int == '0' as int + d;
      assert DigitChar(d) == '4' <==> d == 4;
    } else {
      assert DecimalText(statusCode)[0] == '-';
    }
  }

  lemma ClientErrorCodesFail(message: string, statusCode: int)
    requires 400 <= statusCode < 500
    ensures NewAppError(message, statusCode).status == FAIL
  {
    StatusFailIff(message, statusCode);
    assert Pow10(2) == 100;
    assert 4 * Pow10(2) <= statusCode < 5 * Pow10(2);
  }

  lemma ServerErrorCodesError(message: string, statusCode: int)
    requires 500 <= statusCode < 600
    ensures NewAppError(message, statusCode).status == ERROR
  {
    StatusFailIff(message, statusCode);
    assert Pow10(2) == 100;
    forall k: nat ensures !(4 * Pow10(k) <= statusCode < 5 * Pow10(k)) {
      if k > 2 {
        PowMonotone(3, k);
        assert Pow10(3) == 1000;
      } else if k < 2 {
        PowMonotone(k, 1);
        assert Pow10(1) == 10;
      }
    }
  }

  lemma {:induction false} PowMonotone(j: nat, k: nat)
    requires j <= k
    ensures Pow10(j) <= Pow10(k)
    decreases k
  {
    if j < k {
      PowMonotone(j, k - 1);
    }
  }

  /** What reaches the handler: an AppError, or any other error with its message. */
  datatype Thrown = Operational(err: AppError) | Unexpected(message: string)

  /** The response the handler sends: HTTP status and the JSON body `{status, message}`. */
  datatype ErrorResponse = ErrorResponse(statusCode: int, status: string, message: string)

  const GENERIC_MESSAGE: string := "Algo salió mal en el servidor"

  /** `errorHandler(err, req, res, next)`: exactly one response, and `next` is never called. */
  function HandleError(thrown: Thrown): (r: ErrorResponse)
    ensures thrown.Operational? ==> r.statusCode == thrown.err.statusCode && r.message == thrown.err.message
    ensures thrown.Operational? ==> r.status == thrown.err.status
    ensures thrown.Unexpected? ==> r.statusCode == 500
    ensures thrown.Unexpected? ==> r.status == ERROR && r.message == GENERIC_MESSAGE
  {
    match thrown
    case Operational(e) => ErrorResponse(e.statusCode, e.status, e.message)
    case Unexpected(_) => ErrorResponse(500, ERROR, GENERIC_MESSAGE)
  }

  /**
   * For an error built by the AppError constructor the body status agrees
   * with the HTTP status: 'fail' iff the code's text starts with '4'.
   */
  lemma ResponseStatusAgrees(message: string, statusCode: int)
    ensures HandleError(Operational(NewAppError(message, statusCode))).status == FAIL <==> StartsWith4(statusCode)
    ensures HandleError(Operational(NewAppError(message, statusCode))).statusCode == statusCode
  {
  }

  /** Errors other than AppError never leak their message, and are always 'error'. */
  lemma UnexpectedHidesMessage(m1: string, m2: string)
    ensures HandleError(Unexpected(m1)) == HandleError(Unexpected(m2))
    ensures HandleError(Unexpected(m1)).status == ERROR
  {
  }
}
