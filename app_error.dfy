/** The application's error values (`AppError` and its subclass `DBError`).
    The constructor derives `status` from the decimal rendering of the status
    code and marks every error it builds as operational. */
module AppErrors {

  import opened Wrappers

  /** A JavaScript error object passed along by reference: the optional
      `error` argument, or the MongooseError a DBError wraps. */
  datatype ErrorValue = ErrorValue(name: string, message: string)

  datatype AppError =
    | AppError(message: string, statusCode: int, status: string, isOperational: bool,
               error: Option<ErrorValue>)
    | DBError(message: string, statusCode: int, status: string, isOperational: bool,
              error: Option<ErrorValue>, mongooseErr: ErrorValue)

  function Pow10(k: nat): (p: nat)
    ensures p >= 1
  {
    if k == 0 then 1 else 10 * Pow10(k - 1)
  }

  function DigitChar(d: nat): char
    requires d < 10
  {
    ('0' as int + d) as char
  }

  /** Decimal digits of a natural number, most significant first. */
  function Digits(n: nat): (s: string)
    ensures |s| >= 1
  {
    if n < 10 then [DigitChar(n)] else Digits(n / 10) + [DigitChar(n % 10)]
  }

  /** The template literal `${statusCode}` for an integral number. */
  function Decimal(n: int): string {
    if n < 0 then "-" + Digits(-n) else Digits(n)
  }

  /** The most significant decimal digit of `n`. */
  function LeadingDigit(n: nat): (d: nat)
    ensures d < 10
    ensures n >= 1 ==> d >= 1
  {
    if n < 10 then n else LeadingDigit(n / 10)
  }

  /** Number of decimal digits of `n`, minus one. */
  function Magnitude(n: nat): nat {
    if n < 10 then 0 else 1 + Magnitude(n / 10)
  }

  /** Arithmetic reading of "the decimal rendering starts with 4":
      `n` lies in [4·10^k, 5·10^k) for some k. */
  ghost predicate LeadsWithFour(n: int) {
    n >= 0 && exists k: nat :: 4 * Pow10(k) <= n < 5 * Pow10(k)
  }

  lemma {:induction false} DigitsStartWithLeadingDigit(n: nat)
    ensures Digits(n)[0] == DigitChar(LeadingDigit(n))
  {
    if n >= 10 {
      DigitsStartWithLeadingDigit(n / 10);
    }
  }

  /** Scaling an interval [d·p, (d+1)·p) around n / 10 by ten. */
  lemma ScaleByTen(d: nat, p: nat, m: nat, n: nat)
    requires d * p <= m < (d + 1) * p
    requires m == n / 10
    ensures d * (10 * p) <= n < (d + 1) * (10 * p)
  {
    var lo, hi := d * p, (d + 1) * p;
    assert d * (10 * p) == 10 * lo;
    assert (d + 1) * (10 * p) == 10 * hi;
    assert 10 * lo <= 10 * m <= n;
    assert n < 10 * m + 10 <= 10 * hi;
  }

  /** `n` lies between its leading digit and the next one, scaled by its magnitude. */
  lemma {:induction false} LeadingDigitBounds(n: nat)
    ensures LeadingDigit(n) * Pow10(Magnitude(n)) <= n < (LeadingDigit(n) + 1) * Pow10(Magnitude(n))
  {
    if n >= 10 {
      var m := n / 10;
      LeadingDigitBounds(m);
      assert Pow10(Magnitude(n)) == 10 * Pow10(Magnitude(m));
      ScaleByTen(LeadingDigit(m), Pow10(Magnitude(m)), m, n);
    }
  }

  /** Any scaled interval [d·10^k, (d+1)·10^k) with 1 <= d <= 9 pins the leading digit. */
  lemma {:induction false} LeadingDigitOfInterval(n: nat, d: nat, k: nat)
    requires 1 <= d <= 9
    requires d * Pow10(k) <= n < (d + 1) * Pow10(k)
    ensures LeadingDigit(n) == d
  {
    if k > 0 {
      var p := Pow10(k - 1);
      assert Pow10(k) == 10 * p;
      assert d * (10 * p) == 10 * (d * p);
      assert (d + 1) * (10 * p) == 10 * ((d + 1) * p);
      assert 10 * (d * p) <= n < 10 * ((d + 1) * p);
      assert d * p <= n / 10 < (d + 1) * p;
      assert n >= 10;
      LeadingDigitOfInterval(n / 10, d, k - 1);
    }
  }

  /** `${n}`.startsWith("4") holds exactly when `n` lies in some [4·10^k, 5·10^k). */
  lemma DecimalStartsWithFour(n: int)
    ensures (Decimal(n)[0] == '4') <==> LeadsWithFour(n)
  {
    if n < 0 {
      assert Decimal(n)[0] == '-';
    } else {
      DigitsStartWithLeadingDigit(n);
      if LeadingDigit(n) == 4 {
        LeadingDigitBounds(n);
        assert 4 * Pow10(Magnitude(n)) <= n < 5 * Pow10(Magnitude(n));
      }
      if LeadsWithFour(n) {
        var k: nat :| 4 * Pow10(k) <= n < 5 * Pow10(k);
        LeadingDigitOfInterval(n, 4, k);
      }
    }
  }

  /** `status` as the constructor derives it. */
  function StatusOf(statusCode: int): (status: string)
    ensures status == "fail" || status == "error"
    ensures status == "fail" <==> LeadsWithFour(statusCode)
  {
    DecimalStartsWithFour(statusCode);
    if Decimal(statusCode)[0] == '4' then "fail" else "error"
  }

  /** `new AppError(message, statusCode, error)`: message, code and wrapped error
      stored unchanged, `status` derived, always operational. */
  function NewAppError(message: string, statusCode: int, error: Option<ErrorValue>): (e: AppError)
    ensures e.AppError?
    ensures e.message == message && e.statusCode == statusCode && e.error == error
    ensures e.isOperational
    ensures e.status == "fail" <==> LeadsWithFour(statusCode)
    ensures e.status == "error" <==> !LeadsWithFour(statusCode)
  {
    AppError(message, statusCode, StatusOf(statusCode), true, error)
  }

  /** `new DBError(err)`: a 500 error carrying the Mongoose error's message. */
  function NewDBError(err: ErrorValue): (e: AppError)
    ensures e.DBError? && e.mongooseErr == err
    ensures e.message == err.message && e.statusCode == 500 && e.status == "error"
    ensures e.isOperational && e.error == None
  {
    NotFourHundreds(500);
    var base := NewAppError(err.message, 500, None);
    DBError(base.message, base.statusCode, base.status, base.isOperational, base.error, err)
  }

  /** Codes 400-499 are "fail". */
  lemma ClientErrorsFail(n: int)
    requires 400 <= n < 500
    ensures StatusOf(n) == "fail"
  {
    assert 4 * Pow10(2) <= n < 5 * Pow10(2);
  }

  /** Codes from 500 to 3999 are "error". */
  lemma NotFourHundreds(n: int)
    requires 500 <= n < 4000
    ensures StatusOf(n) == "error"
  {
    if n < 1000 {
      var d := n / 100;
      assert Pow10(2) == 100;
      assert 5 <= d <= 9 && d * Pow10(2) <= n < (d + 1) * Pow10(2);
      LeadingDigitOfInterval(n, d, 2);
    } else {
      var d := n / 1000;
      assert Pow10(3) == 10 * Pow10(2) == 1000;
      assert 1 <= d <= 3 && d * Pow10(3) <= n < (d + 1) * Pow10(3);
      LeadingDigitOfInterval(n, d, 3);
    }
    DigitsStartWithLeadingDigit(n);
    assert Decimal(n)[0] != '4';
  }

  /** The rule reads only the first character: 4, 40-49 and 4000-4999 are "fail" too,
      and every negative code is "error". */
  lemma LeadingFourOnly(n: int)
    ensures n == 4 || 40 <= n < 50 || 4000 <= n < 5000 ==> StatusOf(n) == "fail"
    ensures n < 0 ==> StatusOf(n) == "error"
  {
    if n == 4 { assert 4 * Pow10(0) <= n < 5 * Pow10(0); }
    if 40 <= n < 50 { assert 4 * Pow10(1) <= n < 5 * Pow10(1); }
    if 4000 <= n < 5000 { assert 4 * Pow10(3) <= n < 5 * Pow10(3); }
  }
}
