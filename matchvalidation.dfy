/**
 * The validation of match objects in src/services/matchService.ts: a match
 * needs an id, both teams and a date; its notification settings are filled in
 * with defaults where a field is `null` or missing; every other field is kept.
 */
module MatchValidation {
  import opened Wrappers

  const InvalidMatch: string := "Geçersiz maç verisi"
  /** One text in the source; written in two parts so the verifier can read its first character. */
  const RateLimited: string := "Çok fazla istek " + "gönderildi. Lütfen bir süre bekleyin."

  /** A notification settings object as received: `None` is `null` or a missing field. */
  datatype RawSettings = RawSettings(
    enabled: Option<bool>, beforeMatch: Option<int>, matchStart: Option<bool>,
    matchEnd: Option<bool>, scoreUpdate: Option<bool>)

  datatype Settings = Settings(
    enabled: bool, beforeMatch: int, matchStart: bool, matchEnd: bool, scoreUpdate: bool)

  /** `new Date(text)`: the date object made from the text. */
  datatype DateValue = DateFrom(text: string)

  /**
   * A match as received. The four checked fields are strings (`None` when
   * missing); `rest` stands for every other field, which is passed on as it is.
   */
  datatype RawMatch<R> = RawMatch(
    id: Option<string>, team1: Option<string>, team2: Option<string>, date: Option<string>,
    notifications: Option<RawSettings>, rest: R)

  datatype Match<R> = Match(
    id: string, team1: string, team2: string, date: DateValue, notifications: Settings, rest: R)

  /** `a ?? d`: the value unless it is `null` or `undefined`. */
  function Coalesce<T>(a: Option<T>, d: T): (r: T)
    ensures a.Some? ==> r == a.value
    ensures a.None? ==> r == d
  {
    a.GetOr(d)
  }

  /** The `notifications` object of a valid match. */
  function SettingsOf(n: Option<RawSettings>): Settings {
    if n.None? then Settings(false, 15, false, false, false)
    else Settings(
      Coalesce(n.value.enabled, false), Coalesce(n.value.beforeMatch, 15), Coalesce(n.value.matchStart, false),
      Coalesce(n.value.matchEnd, false), Coalesce(n.value.scoreUpdate, false))
  }

  predicate IsValid<R>(m: RawMatch<R>) {
    Truthy(m.id) && Truthy(m.team1) && Truthy(m.team2) && Truthy(m.date)
  }

  /** `validateMatch`. */
  function ValidateMatch<R>(m: RawMatch<R>): (r: Result<Match<R>, string>)
    ensures r.Failure? <==> !IsValid(m)
    ensures r.Failure? ==> r.error == InvalidMatch
    ensures r.Success? ==>
      r.value.id == m.id.value && r.value.team1 == m.team1.value && r.value.team2 == m.team2.value
      && r.value.date == DateFrom(m.date.value) && r.value.rest == m.rest
    ensures r.Success? ==> r.value.notifications == SettingsOf(m.notifications)
  {
    if !IsValid(m) then Failure(InvalidMatch)
    else Success(Match(m.id.value, m.team1.value, m.team2.value, DateFrom(m.date.value), SettingsOf(m.notifications), m.rest))
  }

  /** Missing settings get the defaults; settings that are given, even `false` or 0, are kept. */
  lemma SettingsDefaults(n: Option<RawSettings>)
    ensures n.None? ==> SettingsOf(n) == Settings(false, 15, false, false, false)
    ensures n.Some? && n.value.beforeMatch.Some? ==> SettingsOf(n).beforeMatch == n.value.beforeMatch.value
    ensures n.Some? && n.value.beforeMatch.None? ==> SettingsOf(n).beforeMatch == 15
    ensures n.Some? && n.value.enabled.Some? ==> SettingsOf(n).enabled == n.value.enabled.value
    ensures n.Some? && n.value.enabled.None? ==> !SettingsOf(n).enabled
    ensures n == Some(RawSettings(Some(false), Some(0), Some(false), Some(false), Some(false))) ==>
      SettingsOf(n) == Settings(false, 0, false, false, false)
  {
  }

  /** `validateMatches`: the matches validated in order; one invalid match fails the whole list. */
  function ValidateMatches<R>(ms: seq<RawMatch<R>>): (r: Result<seq<Match<R>>, string>)
    ensures r.Success? ==> |r.value| == |ms|
  {
    if ms == [] then Success([])
    else
      match ValidateMatch(ms[0])
      case Failure(e) => Failure(e)
      case Success(m) =>
        match ValidateMatches(ms[1..])
        case Failure(e) => Failure(e)
        case Success(rest) => Success([m] + rest)
  }

  /** The list is accepted exactly when every match is valid, and then element `i` is match `i` validated. */
  lemma {:induction false} ValidateMatchesFacts<R>(ms: seq<RawMatch<R>>)
    ensures ValidateMatches(ms).Success? <==> forall i :: 0 <= i < |ms| ==> IsValid(ms[i])
    ensures ValidateMatches(ms).Failure? ==> ValidateMatches(ms).error == InvalidMatch
    ensures ValidateMatches(ms).Success? ==>
      forall i :: 0 <= i < |ms| ==> Success(ValidateMatches(ms).value[i]) == ValidateMatch(ms[i])
  {
    if ms != [] {
      ValidateMatchesFacts(ms[1..]);
      if ValidateMatches(ms).Success? {
        var r := ValidateMatches(ms).value;
        assert r[1..] == ValidateMatches(ms[1..]).value;
        forall i | 0 <= i < |ms| ensures Success(r[i]) == ValidateMatch(ms[i]) {
          if i > 0 {
            assert r[i] == r[1..][i - 1];
          }
        }
      }
      if forall i :: 0 <= i < |ms| ==> IsValid(ms[i]) {
        assert IsValid(ms[0]);
        assert forall i :: 0 <= i < |ms[1..]| ==> IsValid(ms[1..][i]) by {
          forall i | 0 <= i < |ms[1..]| ensures IsValid(ms[1..][i]) {
            assert ms[1..][i] == ms[i + 1];
          }
        }
      } else {
        var i :| 0 <= i < |ms| && !IsValid(ms[i]);
        if i > 0 {
          assert ms[1..][i - 1] == ms[i];
        }
      }
    }
  }

  /** The parts of a response `getMatches` looks at. */
  datatype Response = Response(ok: bool, status: int, statusText: string)

  /**
   * `getMatches` on a response and its parsed body: a rate-limit message for
   * 429, a message with the status text for any other failure, else the
   * validated list.
   */
  function GetMatches<R>(resp: Response, body: seq<RawMatch<R>>): Result<seq<Match<R>>, string> {
    if !resp.ok then
      if resp.status == 429 then Failure(RateLimited) else Failure("Maçlar alınamadı: " + resp.statusText)
    else ValidateMatches(body)
  }

  /** `getMatchById`, the same for one match. */
  function GetMatchById<R>(resp: Response, body: RawMatch<R>): Result<Match<R>, string> {
    if !resp.ok then
      if resp.status == 429 then Failure(RateLimited) else Failure("Maç detayı alınamadı: " + resp.statusText)
    else ValidateMatch(body)
  }

  /**
   * A response that is not `ok` always fails, with the rate-limit message
   * exactly when its status is 429 and otherwise with its status text; an `ok`
   * response gives the validation's result.
   */
  lemma ResponseErrors<R>(resp: Response, body: seq<RawMatch<R>>, one: RawMatch<R>)
    ensures !resp.ok ==> GetMatches(resp, body).Failure? && GetMatchById(resp, one).Failure?
    ensures !resp.ok ==> (GetMatches(resp, body).error == RateLimited <==> resp.status == 429)
    ensures !resp.ok ==> (GetMatchById(resp, one).error == RateLimited <==> resp.status == 429)
    ensures !resp.ok && resp.status != 429 ==>
      GetMatches(resp, body).error == "Maçlar alınamadı: " + resp.statusText
      && GetMatchById(resp, one).error == "Maç detayı alınamadı: " + resp.statusText
    ensures resp.ok ==> GetMatches(resp, body) == ValidateMatches(body) && GetMatchById(resp, one) == ValidateMatch(one)
  {
    if !resp.ok && resp.status != 429 {
      assert RateLimited[0] == 'Ç';
      assert GetMatches(resp, body).error[0] == 'M';
      assert GetMatchById(resp, one).error[0] == 'M';
    }
  }
}
