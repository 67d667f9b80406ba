/**
 * The web client's match service (frontend/src/services/matchService.ts):
 * `fetchWithRetry`, which tries a request up to three times, waiting after a
 * rate-limit answer or a failure, and the URL `getMatches` builds from its
 * `status` and `date` parameters.
 *
 * What each attempt of `fetch` comes to is an input (`attempts(i)` for the
 * i-th attempt); a wait is recorded instead of being slept.
 */
module MatchRetry {
  import opened Wrappers
  import opened Text
  import ServerHelpers

  const MaxRetries: nat := 3
  const RetryDelay: nat := 1000
  const MaxAttemptsMessage: string := "Maksimum deneme sayısına ulaşıldı"

  /** The parts of a `Response` the service looks at. */
  datatype Response = Response(status: int, ok: bool, retryAfter: Option<string>)

  /** One `fetch`: it threw an error with a message, or it gave a response. */
  datatype Attempt = Threw(error: string) | Got(response: Response)

  /** A `setTimeout` delay: a number of milliseconds, or `NaN` for a Retry-After that is not a number. */
  datatype Wait = Millis(ms: int) | NotANumber

  /** How `fetchWithRetry` ends: with a response, or by throwing. */
  datatype Outcome = Returned(response: Response) | Raised(message: string)

  /** A whole run: how it ended, how many attempts it made, and the waits between them. */
  datatype Run = Run(outcome: Outcome, tries: nat, waits: seq<Wait>)

  function Pow2(i: nat): (r: nat)
    ensures r >= 1
  {
    if i == 0 then 1 else 2 * Pow2(i - 1)
  }

  /** `this.retryDelay * Math.pow(2, i)`. */
  function Backoff(i: nat): nat {
    RetryDelay * Pow2(i)
  }

  /** A digit of base 16 when `hex`, of base 10 otherwise. */
  predicate IsRadixDigit(c: char, hex: bool) {
    IsDigit(c) || (hex && ('a' <= c <= 'f' || 'A' <= c <= 'F'))
  }

  function DigitValue(c: char): nat {
    if IsDigit(c) then c as int - '0' as int
    else if 'a' <= c <= 'f' then c as int - 'a' as int + 10
    else if 'A' <= c <= 'F' then c as int - 'A' as int + 10
    else 0
  }

  /** The end of the run of base-16 (`hex`) or base-10 digits starting at `i`. */
  function RadixRunEnd(s: string, i: nat, hex: bool): (j: nat)
    requires i <= |s|
    ensures i <= j <= |s|
    ensures forall k :: i <= k < j ==> IsRadixDigit(s[k], hex)
    decreases |s| - i
  {
    if i < |s| && IsRadixDigit(s[i], hex) then RadixRunEnd(s, i + 1, hex) else i
  }

  /** The number a run of digits spells in base 16 (`hex`) or base 10. */
  function RadixValue(ds: string, hex: bool): nat {
    if ds == [] then 0
    else RadixValue(ds[..|ds| - 1], hex) * (if hex then 16 else 10) + DigitValue(ds[|ds| - 1])
  }

  /** "0x" or "0X" opens the text: `parseInt` then reads base 16. */
  predicate HasHexPrefix(u: string) {
    |u| >= 2 && u[0] == '0' && (u[1] == 'x' || u[1] == 'X')
  }

  /** `parseInt` with no radix, read after the white space and the sign: `None` is `NaN`. */
  function ParseUnsigned(u: string): Option<nat> {
    var hex := HasHexPrefix(u);
    var body := if hex then u[2..] else u;
    var e := RadixRunEnd(body, 0, hex);
    if e == 0 then None else Some(RadixValue(body[..e], hex))
  }

  predicate HasSign(t: string) { t != [] && (t[0] == '-' || t[0] == '+') }

  /** `parseInt` after the leading white space: an optional sign, then the number. */
  function ParseSigned(t: string): Option<int> {
    var u := if HasSign(t) then t[1..] else t;
    match ParseUnsigned(u)
    case None => None
    case Some(n) => Some(Signed(HasSign(t) && t[0] == '-', n))
  }

  function Signed(neg: bool, n: nat): int {
    if neg then -(n as int) else n
  }

  /**
   * `parseInt` with no radix: leading white space, an optional sign, then a
   * "0x"/"0X" prefix selecting base 16, then at least one digit of the base
   * (what follows the digits is ignored); `None` is `NaN`.
   */
  function ParseInt(s: string): (r: Option<int>)
    ensures r.Some? ==> exists k :: 0 <= k < |TrimStart(s)| && IsDigit(TrimStart(s)[k])
  {
    SignedHasDigit(TrimStart(s));
    ParseSigned(TrimStart(s))
  }

  lemma SignedHasDigit(t: string)
    ensures ParseSigned(t).Some? ==> exists k :: 0 <= k < |t| && IsDigit(t[k])
  {
    var u := if HasSign(t) then t[1..] else t;
    if ParseUnsigned(u).Some? {
      UnsignedStartsWithDigit(u);
      assert u[0] == t[|t| - |u|];
    }
  }

  lemma UnsignedStartsWithDigit(u: string)
    requires ParseUnsigned(u).Some?
    ensures u != [] && IsDigit(u[0])
  {
    if !HasHexPrefix(u) {
      assert RadixRunEnd(u, 0, false) > 0;
    }
  }

  lemma {:induction false} TrimStartAfterSpaces(ws: string, x: string)
    requires forall i :: 0 <= i < |ws| ==> IsJsSpace(ws[i])
    requires x == [] || !IsJsSpace(x[0])
    ensures TrimStart(ws + x) == x
  {
    if ws == [] {
      assert ws + x == x;
    } else {
      assert (ws + x)[0] == ws[0];
      assert (ws + x)[1..] == ws[1..] + x;
      TrimStartAfterSpaces(ws[1..], x);
    }
  }

  lemma {:induction false} RunEndOf(d: string, rest: string, i: nat, hex: bool)
    requires i <= |d|
    requires forall k :: 0 <= k < |d| ==> IsRadixDigit(d[k], hex)
    requires rest == [] || !IsRadixDigit(rest[0], hex)
    ensures RadixRunEnd(d + rest, i, hex) == |d|
    decreases |d| - i
  {
    if i < |d| {
      assert (d + rest)[i] == d[i];
      RunEndOf(d, rest, i + 1, hex);
    } else if rest != [] {
      assert (d + rest)[i] == rest[0];
    }
  }

  lemma {:induction false} DecimalValue(d: string)
    requires forall k :: 0 <= k < |d| ==> IsDigit(d[k])
    ensures RadixValue(d, false) == ServerHelpers.ParseDecimal(d)
  {
    if d != [] {
      DecimalValue(d[..|d| - 1]);
    }
  }

  /** Nothing, or one '+' or '-'. */
  predicate IsSign(sign: string) { |sign| <= 1 && (sign == [] || sign[0] == '+' || sign[0] == '-') }

  predicate IsMinus(sign: string) { sign != [] && sign[0] == '-' }

  /** A sign never starts with white space. */
  lemma SignNotSpace(sign: string, u: string)
    requires IsSign(sign)
    requires u == [] || !IsJsSpace(u[0])
    ensures sign + u == [] || !IsJsSpace((sign + u)[0])
  {
    if sign != [] {
      assert (sign + u)[0] == sign[0];
    } else {
      assert sign + u == u;
    }
  }

  lemma SignStripped(sign: string, u: string)
    requires IsSign(sign)
    requires u == [] || (u[0] != '+' && u[0] != '-')
    ensures var t := sign + u;
      (if HasSign(t) then t[1..] else t) == u && (HasSign(t) ==> (t[0] == '-' <==> IsMinus(sign)))
  {
    var t := sign + u;
    if sign != [] {
      assert |sign| == 1 && t[0] == sign[0];
      assert t[1..] == u;
    } else {
      assert t == u;
    }
  }

  /** Past the white space and the sign, `parseInt` reads `u`, negated after a '-'. */
  lemma SignedForm(ws: string, sign: string, u: string)
    requires forall i :: 0 <= i < |ws| ==> IsJsSpace(ws[i])
    requires IsSign(sign)
    requires u == [] || (!IsJsSpace(u[0]) && u[0] != '+' && u[0] != '-')
    ensures ParseInt(ws + sign + u) ==
      match ParseUnsigned(u)
      case None => None
      case Some(n) => Some(Signed(IsMinus(sign), n))
  {
    SignNotSpace(sign, u);
    SkipSpace(ws, sign + u);
    assert ws + sign + u == ws + (sign + u);
    SignedOf(sign, u);
  }

  lemma SkipSpace(ws: string, t: string)
    requires forall i :: 0 <= i < |ws| ==> IsJsSpace(ws[i])
    requires t == [] || !IsJsSpace(t[0])
    ensures ParseInt(ws + t) == ParseSigned(t)
  {
    TrimStartAfterSpaces(ws, t);
  }

  lemma SignedOf(sign: string, u: string)
    requires IsSign(sign)
    requires u == [] || (u[0] != '+' && u[0] != '-')
    ensures ParseSigned(sign + u) ==
      match ParseUnsigned(u)
      case None => None
      case Some(n) => Some(Signed(IsMinus(sign), n))
  {
    SignStripped(sign, u);
  }

  /** A text whose unsigned part reads as `n` gives `n`, negated after a '-'. */
  lemma SignedOfValue(ws: string, sign: string, u: string, n: nat)
    requires forall i :: 0 <= i < |ws| ==> IsJsSpace(ws[i])
    requires IsSign(sign)
    requires u != [] && IsDigit(u[0])
    requires ParseUnsigned(u) == Some(n)
    ensures ParseInt(ws + sign + u) == Some(Signed(IsMinus(sign), n))
  {
    SignedForm(ws, sign, u);
  }

  lemma UnsignedOfDecimal(d: string, rest: string)
    requires d != [] && forall i :: 0 <= i < |d| ==> IsDigit(d[i])
    requires rest == [] || !IsDigit(rest[0])
    requires |d| > 1 || d[0] != '0' || rest == [] || (rest[0] != 'x' && rest[0] != 'X')
    ensures ParseUnsigned(d + rest) == Some(ServerHelpers.ParseDecimal(d))
  {
    var u := d + rest;
    assert !HasHexPrefix(u) by {
      assert u[0] == d[0];
      if |d| > 1 {
        assert u[1] == d[1];
      } else if rest != [] {
        assert u[1] == rest[0];
      }
    }
    RunEndOf(d, rest, 0, false);
    assert u[..|d|] == d;
    DecimalValue(d);
  }

  /**
   * A decimal text: white space, an optional sign, a run of digits `d` and
   * anything not starting with a digit gives the signed decimal value of `d`.
   */
  lemma ParseIntOfDecimal(ws: string, sign: string, d: string, rest: string)
    requires forall i :: 0 <= i < |ws| ==> IsJsSpace(ws[i])
    requires IsSign(sign)
    requires d != [] && forall i :: 0 <= i < |d| ==> IsDigit(d[i])
    requires rest == [] || !IsDigit(rest[0])
    requires |d| > 1 || d[0] != '0' || rest == [] || (rest[0] != 'x' && rest[0] != 'X')
    ensures ParseInt(ws + sign + (d + rest)) == Some(Signed(IsMinus(sign), ServerHelpers.ParseDecimal(d)))
  {
    UnsignedOfDecimal(d, rest);
    assert (d + rest)[0] == d[0];
    SignedOfValue(ws, sign, d + rest, ServerHelpers.ParseDecimal(d));
  }

  lemma UnsignedOfHex(x: string, h: string, rest: string)
    requires |x| == 2 && HasHexPrefix(x)
    requires forall i :: 0 <= i < |h| ==> IsRadixDigit(h[i], true)
    requires rest == [] || !IsRadixDigit(rest[0], true)
    ensures ParseUnsigned(x + (h + rest)) == if h == [] then None else Some(RadixValue(h, true))
  {
    var u := x + (h + rest);
    assert u[0] == x[0] && u[1] == x[1];
    assert HasHexPrefix(u);
    assert u[2..] == h + rest;
    RunEndOf(h, rest, 0, true);
    assert (h + rest)[..|h|] == h;
  }

  /**
   * A hexadecimal text: white space, an optional sign, "0x" or "0X", a run of
   * hex digits `h` and anything not starting with one gives the signed
   * base-16 value of `h`; with no digit after the prefix it is `NaN`.
   */
  lemma ParseIntOfHex(ws: string, sign: string, x: string, h: string, rest: string)
    requires forall i :: 0 <= i < |ws| ==> IsJsSpace(ws[i])
    requires IsSign(sign)
    requires |x| == 2 && HasHexPrefix(x)
    requires forall i :: 0 <= i < |h| ==> IsRadixDigit(h[i], true)
    requires rest == [] || !IsRadixDigit(rest[0], true)
    ensures ParseInt(ws + sign + (x + (h + rest))) == if h == [] then None else Some(Signed(IsMinus(sign), RadixValue(h, true)))
  {
    var u := x + (h + rest);
    UnsignedOfHex(x, h, rest);
    assert u[0] == x[0];
    if h == [] {
      SignedForm(ws, sign, u);
    } else {
      SignedOfValue(ws, sign, u, RadixValue(h, true));
    }
  }

  /** White space and a sign followed by no digit is `NaN`. */
  lemma ParseIntNaN(ws: string, sign: string, rest: string)
    requires forall i :: 0 <= i < |ws| ==> IsJsSpace(ws[i])
    requires IsSign(sign)
    requires rest == [] || (!IsDigit(rest[0]) && !IsJsSpace(rest[0]) && rest[0] != '+' && rest[0] != '-')
    ensures ParseInt(ws + sign + rest) == None
  {
    SignedForm(ws, sign, rest);
    if rest != [] {
      assert !HasHexPrefix(rest);
      assert RadixRunEnd(rest, 0, false) == 0;
    }
  }

  /** A Retry-After of "0x1A" is read in base 16: 26 seconds. */
  lemma ParseIntHexExample()
    ensures ParseInt("0x1A") == Some(26)
  {
    HexDigits1A();
    HexText1A();
    ParseIntOfHex("", "", "0x", "1A", "");
  }

  lemma HexDigits1A()
    ensures forall i :: 0 <= i < |"1A"| ==> IsRadixDigit("1A"[i], true)
    ensures RadixValue("1A", true) == 26
  {
    assert "1A"[..1] == "1";
    assert "1"[..0] == "";
  }

  lemma HexText1A()
    ensures "" + "" + ("0x" + ("1A" + "")) == "0x1A"
  {
  }


  /** The wait after a 429 answer on attempt `i`: Retry-After seconds when the header is set, else the backoff. */
  function RateLimitWait(r: Response, i: nat): Wait {
    if Truthy(r.retryAfter) then
      match ParseInt(r.retryAfter.value)
      case Some(n) => Millis(n * 1000)
      case None => NotANumber
    else Millis(Backoff(i))
  }

  /**
   * The run from attempt `i` on, `lastError` being the message of the last
   * error caught. The reference definition the loop is proved against.
   */
  function RetryFrom(attempts: nat -> Attempt, i: nat, lastError: Option<string>): (run: Run)
    requires i <= MaxRetries
    ensures run.tries <= MaxRetries - i
    decreases MaxRetries - i
  {
    if i == MaxRetries then Run(Raised(lastError.GetOr(MaxAttemptsMessage)), 0, [])
    else
      match attempts(i)
      case Got(r) =>
        if r.status == 429 then
          var rest := RetryFrom(attempts, i + 1, lastError);
          Run(rest.outcome, rest.tries + 1, [RateLimitWait(r, i)] + rest.waits)
        else Run(Returned(r), 1, [])
      case Threw(e) =>
        var rest := RetryFrom(attempts, i + 1, Some(e));
        Run(rest.outcome, rest.tries + 1, (if i < MaxRetries - 1 then [Millis(Backoff(i))] else []) + rest.waits)
  }

  /**
   * One pass of the loop body: a response other than 429 is the answer;
   * otherwise the wait to record and the last error to carry on with.
   */
  method TryOnce(attempts: nat -> Attempt, i: nat, lastError: Option<string>)
    returns (answer: Option<Response>, nextError: Option<string>, wait: seq<Wait>)
    requires i < MaxRetries
    ensures answer.Some? ==> RetryFrom(attempts, i, lastError) == Run(Returned(answer.value), 1, [])
    ensures answer.None? ==>
      var rest := RetryFrom(attempts, i + 1, nextError);
      RetryFrom(attempts, i, lastError) == Run(rest.outcome, rest.tries + 1, wait + rest.waits)
  {
    nextError := lastError;
    wait := [];
    match attempts(i)
    case Got(r) =>
      if r.status == 429 {
        answer := None;
        wait := [RateLimitWait(r, i)];
      } else {
        answer := Some(r);
      }
    case Threw(e) =>
      answer := None;
      nextError := Some(e);
      if i < MaxRetries - 1 {
        wait := [Millis(Backoff(i))];
      }
  }

  /** `fetchWithRetry`: the `for` loop over the attempts. */
  method FetchWithRetry(attempts: nat -> Attempt) returns (run: Run)
    ensures run == RetryFrom(attempts, 0, None)
    ensures 1 <= run.tries <= MaxRetries
  {
    var lastError: Option<string> := None;
    var waits: seq<Wait> := [];
    var i := 0;
    ghost var spec := RetryFrom(attempts, i, lastError);
    assert waits + spec.waits == spec.waits;
    while i < MaxRetries
      invariant 0 <= i <= MaxRetries
      invariant spec.outcome == RetryFrom(attempts, i, lastError).outcome
      invariant spec.tries == i + RetryFrom(attempts, i, lastError).tries
      invariant spec.waits == waits + RetryFrom(attempts, i, lastError).waits
    {
      var answer, nextError, wait := TryOnce(attempts, i, lastError);
      if answer.Some? {
        assert waits + [] == waits;
        return Run(Returned(answer.value), i + 1, waits);
      }
      ghost var rest := RetryFrom(attempts, i + 1, nextError);
      assert waits + (wait + rest.waits) == (waits + wait) + rest.waits;
      waits := waits + wait;
      lastError := nextError;
      i := i + 1;
    }
    assert waits + [] == waits;
    run := Run(Raised(lastError.GetOr(MaxAttemptsMessage)), MaxRetries, waits);
  }

  // ---------------------------------------------------------------- what the runs do

  /** Attempt `j` is the first that gets a response other than 429. */
  predicate FirstAnswerAt(attempts: nat -> Attempt, j: nat) {
    j < MaxRetries
    && attempts(j).Got? && attempts(j).response.status != 429
    && forall k :: 0 <= k < j ==> !(attempts(k).Got? && attempts(k).response.status != 429)
  }

  /** The first non-429 response is returned as it is, even when it is not `ok`, after `j + 1` attempts. */
  lemma {:induction false} AnswerIsReturned(attempts: nat -> Attempt, i: nat, lastError: Option<string>, j: nat)
    requires i <= j && FirstAnswerAt(attempts, j)
    ensures RetryFrom(attempts, i, lastError).outcome == Returned(attempts(j).response)
    ensures RetryFrom(attempts, i, lastError).tries == j + 1 - i
    decreases j - i
  {
    if i < j {
      var next := if attempts(i).Threw? then Some(attempts(i).error) else lastError;
      AnswerIsReturned(attempts, i + 1, next, j);
    }
  }

  /** Neither an error nor a 429 answer in any attempt: the run ends by throwing. */
  predicate NeverAnswered(attempts: nat -> Attempt) {
    forall k :: 0 <= k < MaxRetries ==> !(attempts(k).Got? && attempts(k).response.status != 429)
  }

  /** The message of the last error among attempts `i` up to the end, if any attempt threw. */
  function LastThrown(attempts: nat -> Attempt, i: nat, lastError: Option<string>): Option<string>
    requires i <= MaxRetries
    decreases MaxRetries - i
  {
    if i == MaxRetries then lastError
    else LastThrown(attempts, i + 1, if attempts(i).Threw? then Some(attempts(i).error) else lastError)
  }

  /**
   * With no usable answer all three attempts are made and the run throws the
   * most recent error caught, or the generic message when every attempt was a 429.
   */
  lemma {:induction false} ExhaustedRaises(attempts: nat -> Attempt, i: nat, lastError: Option<string>)
    requires i <= MaxRetries && NeverAnswered(attempts)
    ensures RetryFrom(attempts, i, lastError).outcome ==
      Raised(LastThrown(attempts, i, lastError).GetOr(MaxAttemptsMessage))
    ensures RetryFrom(attempts, i, lastError).tries == MaxRetries - i
    decreases MaxRetries - i
  {
    if i < MaxRetries {
      assert !(attempts(i).Got? && attempts(i).response.status != 429);
      ExhaustedRaises(attempts, i + 1, if attempts(i).Threw? then Some(attempts(i).error) else lastError);
    }
  }

  /** Only 429 answers: the generic message, and one wait after each of them. */
  lemma AllRateLimited(attempts: nat -> Attempt)
    requires forall k :: 0 <= k < MaxRetries ==> attempts(k).Got? && attempts(k).response.status == 429
    ensures RetryFrom(attempts, 0, None) == Run(Raised(MaxAttemptsMessage), 3, [
      RateLimitWait(attempts(0).response, 0), RateLimitWait(attempts(1).response, 1),
      RateLimitWait(attempts(2).response, 2)])
  {
    assert attempts(0).Got? && attempts(1).Got? && attempts(2).Got?;
  }

  /** Three failures: waits of 1000 and 2000 ms between them, none after the last, and its error is thrown. */
  lemma AllThrew(attempts: nat -> Attempt)
    requires forall k :: 0 <= k < MaxRetries ==> attempts(k).Threw?
    ensures RetryFrom(attempts, 0, None) == Run(Raised(attempts(2).error), 3, [Millis(1000), Millis(2000)])
  {
    assert attempts(0).Threw? && attempts(1).Threw? && attempts(2).Threw?;
    assert Backoff(1) == 2000;
  }

  /** A Retry-After header of "2" makes the client wait two seconds. */
  lemma RetryAfterSeconds(i: nat)
    ensures RateLimitWait(Response(429, false, Some("2")), i) == Millis(2000)
  {
    assert "2"[..0] == [];
    assert ServerHelpers.ParseDecimal("2") == 2;
    assert "" + "" + ("2" + "") == "2";
    ParseIntOfDecimal("", "", "2", "");
  }


  // ---------------------------------------------------------------- getMatches

  datatype Params = Params(status: Option<string>, date: Option<string>)

  const BaseUrl: string := "http://localhost:3001/api"

  /** The pairs `URLSearchParams` is given: status first, then date, each only when truthy. */
  function QueryPairs(p: Params): (q: seq<(string, string)>)
    ensures |q| <= 2
  {
    (if Truthy(p.status) then [("status", p.status.value)] else [])
    + (if Truthy(p.date) then [("date", p.date.value)] else [])
  }

  /** `query.toString()`: the pairs joined by '&', each name and value form-encoded by `encode`. */
  function QueryString(q: seq<(string, string)>, encode: string -> string): string {
    if q == [] then ""
    else
      var last := encode(q[|q| - 1].0) + "=" + encode(q[|q| - 1].1);
      if |q| == 1 then last else QueryString(q[..|q| - 1], encode) + "&" + last
  }

  /** The URL of `getMatches(params)`. */
  function MatchesUrl(params: Option<Params>, encode: string -> string): string {
    var url := BaseUrl + "/matches";
    if params.Some? && |QueryPairs(params.value)| > 0 then url + "?" + QueryString(QueryPairs(params.value), encode)
    else url
  }

  /** A '?' is added exactly when a status or a date is given, and the status comes before the date. */
  lemma QueryShape(p: Params, encode: string -> string)
    ensures MatchesUrl(Some(p), encode) == BaseUrl + "/matches" <==> !Truthy(p.status) && !Truthy(p.date)
    ensures Truthy(p.status) && Truthy(p.date) ==>
      MatchesUrl(Some(p), encode) == BaseUrl + "/matches?" + encode("status") + "=" + encode(p.status.value)
        + "&" + encode("date") + "=" + encode(p.date.value)
    ensures MatchesUrl(None, encode) == BaseUrl + "/matches"
  {
    var q := QueryPairs(p);
    if Truthy(p.status) && Truthy(p.date) {
      assert q[..1] == [("status", p.status.value)];
      assert QueryString(q[..1], encode) == encode("status") + "=" + encode(p.status.value);
    }
    if |q| > 0 {
      var u := MatchesUrl(Some(p), encode);
      assert |u| > |BaseUrl + "/matches"|;
    }
  }

  /** A JSON body: an array of items, or any other value. */
  datatype Body<T> = ArrayBody(items: seq<T>) | OtherBody

  /**
   * `getMatches` after `fetchWithRetry`: the items of an array body of an `ok`
   * response; `[]` for a response that is not `ok`, a body that is no array,
   * a body that fails to parse (`body == None`) or a run that threw.
   */
  function GetMatches<T>(run: Run, body: Option<Body<T>>): (r: seq<T>)
    ensures r != [] ==> run.outcome.Returned? && run.outcome.response.ok && body.Some? && body.value.ArrayBody?
    ensures run.outcome.Returned? && run.outcome.response.ok && body.Some? && body.value.ArrayBody? ==>
      r == body.value.items
  {
    if run.outcome.Returned? && run.outcome.response.ok && body.Some? && body.value.ArrayBody? then body.value.items
    else []
  }

  /** `getMatchById`: the parsed body of an `ok` response, else `null`. */
  function GetMatchById<T>(run: Run, body: Option<T>): (r: Option<T>)
    ensures r.Some? <==> run.outcome.Returned? && run.outcome.response.ok && body.Some?
    ensures r.Some? ==> r == body
  {
    if run.outcome.Returned? && run.outcome.response.ok then body else None
  }
}
