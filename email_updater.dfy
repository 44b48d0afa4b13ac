/** The small pieces of logic of the weekly email report: the address
    check, the subscriber list built from the sign-up form responses, the
    date of the next mailing and the seven one-day windows of the report. */
module EmailUpdater {
  import opened PrintLogs

  datatype Option<T> = None | Some(value: T)

  // ---------------------------------------------------------------------
  // Letter case

  /** `str.lower()` on one character, for the ASCII letters. */
  function LowerChar(c: char): char {
    if 'A' <= c <= 'Z' then (c as int + 32) as char else c
  }

  /** `str.lower()`, for the ASCII letters. */
  function Lower(s: string): (r: string)
    ensures |r| == |s|
  {
    seq(|s|, i requires 0 <= i < |s| => LowerChar(s[i]))
  }

  /** Lowering leaves no upper-case letter, keeps every other character,
      and lowering twice is lowering once. */
  lemma LowerSpec(s: string)
    ensures forall i :: 0 <= i < |s| ==> !('A' <= Lower(s)[i] <= 'Z')
    ensures forall i :: 0 <= i < |s| && !('A' <= s[i] <= 'Z') ==> Lower(s)[i] == s[i]
    ensures Lower(Lower(s)) == Lower(s)
  {
    assert forall i :: 0 <= i < |s| ==> Lower(Lower(s))[i] == Lower(s)[i];
  }

  // ---------------------------------------------------------------------
  // is_valid_email

  /** No '@' in `s`. */
  predicate NoAt(s: string) {
    forall i :: 0 <= i < |s| ==> s[i] != '@'
  }

  /** The position of the first '@' of `s`, or `|s|` when there is none. */
  function FirstAt(s: string): (k: nat)
    ensures k <= |s| && NoAt(s[..k])
    ensures k < |s| ==> s[k] == '@'
    decreases |s|
  {
    if s == [] || s[0] == '@' then 0
    else
      var k := 1 + FirstAt(s[1..]);
      assert forall i :: 1 <= i < k ==> s[..k][i] == s[1..][..k - 1][i - 1];
      k
  }

  /** An '@' at `i` means the first one is no later. */
  lemma {:induction false} FirstAtBefore(s: string, i: nat)
    requires i < |s| && s[i] == '@'
    ensures FirstAt(s) <= i
    decreases i
  {
    if s[0] != '@' {
      assert s[1..][i - 1] == s[i];
      FirstAtBefore(s[1..], i - 1);
    }
  }

  /** No '@' before `i` means the first one is no earlier. */
  lemma {:induction false} FirstAtAfter(s: string, i: nat)
    requires i <= |s| && NoAt(s[..i])
    ensures FirstAt(s) >= i
    decreases i
  {
    if i > 0 {
      assert s[0] == s[..i][0];
      var u := s[1..];
      forall t | 0 <= t < i - 1
        ensures u[t] != '@'
      {
        assert u[t] == s[..i][t + 1];
      }
      assert NoAt(u[..i - 1]);
      FirstAtAfter(u, i - 1);
    }
  }

  /** A '.' with at least one character on each side. */
  predicate HasInnerDot(d: string) {
    exists j :: 0 < j < |d| - 1 && d[j] == '.'
  }

  /** `is_valid_email(email)`: one '@' with something before it, and after
      it a domain with no '@' holding a '.' that is neither its first nor its
      last character. */
  predicate IsValidEmail(s: string) {
    var k := FirstAt(s);
    0 < k < |s| && NoAt(s[k + 1..]) && HasInnerDot(s[k + 1..])
  }

  /** `s` split as the pattern `[^@]+@[^@]+\.[^@]+` reads it: '@' at `i`
      and '.' at `j`, with a nonempty run of characters other than '@'
      before, between and after. */
  predicate PatternSplit(s: string, i: int, j: int) {
    0 < i && i + 1 < j && j + 1 < |s| && s[i] == '@' && s[j] == '.' &&
    NoAt(s[..i]) && NoAt(s[i + 1..j]) && NoAt(s[j + 1..])
  }

  /** `fullmatch(r'[^@]+@[^@]+\.[^@]+', s)` succeeds. */
  ghost predicate MatchesPattern(s: string) {
    exists i, j :: PatternSplit(s, i, j)
  }

  /** The address check accepts exactly the strings the pattern matches. */
  lemma ValidEmailIsPattern(s: string)
    ensures IsValidEmail(s) <==> MatchesPattern(s)
  {
    if IsValidEmail(s) {
      var k := FirstAt(s);
      var d := s[k + 1..];
      var j :| 0 < j < |d| - 1 && d[j] == '.';
      assert s[k + 1..k + 1 + j] == d[..j];
      assert s[k + 1 + j + 1..] == d[j + 1..];
      assert PatternSplit(s, k, k + 1 + j);
    }
    if MatchesPattern(s) {
      var i, j :| PatternSplit(s, i, j);
      FirstAtBefore(s, i);
      FirstAtAfter(s, i);
      var k := FirstAt(s);
      var d := s[k + 1..];
      forall t | 0 <= t < |d|
        ensures d[t] != '@'
      {
        if k + 1 + t < j {
          assert d[t] == s[i + 1..j][t];
        } else if k + 1 + t > j {
          assert d[t] == s[j + 1..][k + 1 + t - (j + 1)];
        }
      }
      assert d[j - (k + 1)] == '.';
    }
  }

  // ---------------------------------------------------------------------
  // set_valid_emails

  /** One response of the sign-up form: the address and the chosen option,
      as typed. */
  datatype Response = Response(email: string, option: string)

  /** The lowered option of the most recent response for the lowered
      address `e`, if any. */
  function LatestOption(rows: seq<Response>, e: string): Option<string>
    decreases |rows|
  {
    if rows == [] then None
    else
      var later := LatestOption(rows[1..], e);
      if later.Some? then later
      else if Lower(rows[0].email) == e then Some(Lower(rows[0].option))
      else None
  }

  /** `LatestOption` is the option of the last response for `e`: there is
      one exactly when some response has that address, and it is the lowered
      option of the response no later one has the address of. */
  lemma {:induction false} LatestIsLast(rows: seq<Response>, e: string)
    ensures LatestOption(rows, e).None? <==> forall k :: 0 <= k < |rows| ==> Lower(rows[k].email) != e
    ensures LatestOption(rows, e).Some? ==>
              exists k :: 0 <= k < |rows| && Lower(rows[k].email) == e &&
                          LatestOption(rows, e) == Some(Lower(rows[k].option)) &&
                          forall j :: k < j < |rows| ==> Lower(rows[j].email) != e
    decreases |rows|
  {
    if rows != [] {
      var rest := rows[1..];
      LatestIsLast(rest, e);
      forall k | 1 <= k < |rows|
        ensures rows[k] == rest[k - 1]
      {
      }
      if LatestOption(rest, e).Some? {
        var k :| 0 <= k < |rest| && Lower(rest[k].email) == e &&
                 LatestOption(rest, e) == Some(Lower(rest[k].option)) &&
                 forall j :: k < j < |rest| ==> Lower(rest[j].email) != e;
        assert rows[k + 1] == rest[k];
        assert forall j :: k + 1 < j < |rows| ==> Lower(rows[j].email) != e;
      } else if Lower(rows[0].email) == e {
        assert forall j :: 0 < j < |rows| ==> Lower(rows[j].email) != e;
      }
    }
  }

  /** Whether the lowered address `e` ends up subscribed: it is well-formed
      and its most recent response says "subscribe". */
  predicate Subscribed(rows: seq<Response>, e: string) {
    IsValidEmail(e) && LatestOption(rows, e) == Some("subscribe")
  }

  /** Whether the response would be taken as a subscription on its own. */
  predicate Accepts(r: Response) {
    IsValidEmail(Lower(r.email)) && Lower(r.option) == "subscribe"
  }

  /** Whether some response for the lowered address `e` is not a
      subscription: what puts `e` into `invalid_emails`. */
  predicate Rejected(rows: seq<Response>, e: string) {
    exists k :: 0 <= k < |rows| && Lower(rows[k].email) == e && !Accepts(rows[k])
  }

  /** One more, older, response `r` in front of the `rest` already read,
      treated as the loop body of `set_valid_emails` treats it. */
  lemma SubscriptionStep(r: Response, rest: seq<Response>, valid: set<string>, invalid: set<string>)
    requires forall e :: e in valid <==> Subscribed(rest, e)
    requires forall e :: e in invalid <==> Rejected(rest, e)
    ensures var em := Lower(r.email);
            var added := IsValidEmail(em) && Lower(r.option) == "subscribe" && em !in invalid;
            var valid' := if added then valid + {em} else valid;
            var invalid' := if added then invalid else invalid + {em};
            (forall e :: e in valid' <==> Subscribed([r] + rest, e)) &&
            (forall e :: e in invalid' <==> Rejected([r] + rest, e))
  {
    var rows := [r] + rest;
    var em := Lower(r.email);
    assert rows[1..] == rest;
    assert rows[0] == r;
    forall k | 1 <= k < |rows|
      ensures rows[k] == rest[k - 1]
    {
    }
    LatestIsLast(rest, em);
    if LatestOption(rest, em).Some? {
      var k :| 0 <= k < |rest| && Lower(rest[k].email) == em &&
               LatestOption(rest, em) == Some(Lower(rest[k].option)) &&
               forall j :: k < j < |rest| ==> Lower(rest[j].email) != em;
      if em !in invalid {
        assert Accepts(rest[k]);
      }
    }
    forall e
      ensures Rejected(rows, e) <==> Rejected(rest, e) || (e == em && !Accepts(r))
    {
      if Rejected(rows, e) {
        var k :| 0 <= k < |rows| && Lower(rows[k].email) == e && !Accepts(rows[k]);
        if k > 0 {
          assert Lower(rest[k - 1].email) == e && !Accepts(rest[k - 1]);
        }
      }
      if Rejected(rest, e) {
        var k :| 0 <= k < |rest| && Lower(rest[k].email) == e && !Accepts(rest[k]);
        assert Lower(rows[k + 1].email) == e && !Accepts(rows[k + 1]);
      }
    }
    if em in invalid {
      var k :| 0 <= k < |rest| && Lower(rest[k].email) == em && !Accepts(rest[k]);
      assert LatestOption(rest, em).Some?;
    }
  }

  /** `EmailSender`, holding the form responses `set_data_frame` fetched
      and the subscriber list. */
  class EmailSender {
    /** The address and option columns of the response sheet, oldest
        response first. */
    var responses: seq<Response>
    var validEmails: set<string>

    constructor (responses: seq<Response>)
      ensures this.responses == responses && validEmails == {}
    {
      this.responses := responses;
      validEmails := {};
    }

    /** `set_valid_emails`: walks the responses from the most recent one
        back, lower-casing address and option. An address joins the list
        when it is well-formed, its option is "subscribe" and no more recent
        response for it was turned down; otherwise it is remembered as
        turned down. */
    method SetValidEmails()
      modifies this`validEmails
      ensures forall e :: e in validEmails <==> Subscribed(responses, e)
      ensures forall e :: e in validEmails ==> Lower(e) == e && IsValidEmail(e)
    {
      validEmails := {};
      var invalid: set<string> := {};
      var i := |responses|;
      while i > 0
        invariant 0 <= i <= |responses|
        invariant forall e :: e in validEmails <==> Subscribed(responses[i..], e)
        invariant forall e :: e in invalid <==> Rejected(responses[i..], e)
      {
        i := i - 1;
        SubscriptionStep(responses[i], responses[i + 1..], validEmails, invalid);
        assert [responses[i]] + responses[i + 1..] == responses[i..];
        var option := Lower(responses[i].option);
        var email := Lower(responses[i].email);
        if IsValidEmail(email) && option == "subscribe" && email !in invalid {
          validEmails := validEmails + {email};
        } else {
          invalid := invalid + {email};
        }
      }
      assert responses[0..] == responses;
      forall e | e in validEmails
        ensures Lower(e) == e
      {
        LatestIsLast(responses, e);
        var k :| 0 <= k < |responses| && Lower(responses[k].email) == e;
        LowerSpec(responses[k].email);
      }
    }
  }

  /** Responses that differ only in letter case give the same subscriber
      list. */
  lemma {:induction false} CaseInsensitive(rows: seq<Response>, rows': seq<Response>, e: string)
    requires |rows| == |rows'|
    requires forall k :: 0 <= k < |rows| ==>
               Lower(rows[k].email) == Lower(rows'[k].email) && Lower(rows[k].option) == Lower(rows'[k].option)
    ensures Subscribed(rows, e) <==> Subscribed(rows', e)
    ensures LatestOption(rows, e) == LatestOption(rows', e)
    decreases |rows|
  {
    if rows != [] {
      forall k | 0 <= k < |rows| - 1
        ensures Lower(rows[1..][k].email) == Lower(rows'[1..][k].email) &&
                Lower(rows[1..][k].option) == Lower(rows'[1..][k].option)
      {
        assert rows[1..][k] == rows[k + 1] && rows'[1..][k] == rows'[k + 1];
      }
      CaseInsensitive(rows[1..], rows'[1..], e);
    }
  }

  // ---------------------------------------------------------------------
  // next_weekday

  const SECOND: int := 1_000_000
  const DAY: int := 86_400 * SECOND

  /** `datetime.weekday()`: 0 for Monday; 0001-01-01 was a Monday. */
  function Weekday(t: Instant): (w: int)
    ensures 0 <= w < 7
  {
    (t / DAY) % 7
  }

  /** Moving `k` whole days moves the weekday by `k`. */
  lemma WeekdayShift(t: Instant, k: int)
    ensures Weekday(t + k * DAY) == (Weekday(t) + k) % 7
  {
    assert (t + k * DAY) / DAY == t / DAY + k;
  }

  /** `next_weekday(d, weekday)`: the number of days to the wanted weekday,
      a whole week when it is today. */
  function DaysAhead(d: Instant, weekday: int): int {
    var ahead := weekday - Weekday(d);
    if ahead <= 0 then ahead + 7 else ahead
  }

  function NextWeekday(d: Instant, weekday: int): (r: Instant)
    ensures r == d + DaysAhead(d, weekday) * DAY
    ensures 0 <= weekday < 7 ==> 1 <= DaysAhead(d, weekday) <= 7 && Weekday(r) == weekday
  {
    var r := d + DaysAhead(d, weekday) * DAY;
    WeekdayShift(d, DaysAhead(d, weekday));
    r
  }

  /** No earlier whole-day step after `d` reaches `weekday`: the result is
      the first such day, strictly after `d`, at the same time of day. */
  lemma NextWeekdayIsFirst(d: Instant, weekday: int, k: int)
    requires 0 <= weekday < 7 && 1 <= k < DaysAhead(d, weekday)
    ensures Weekday(d + k * DAY) != weekday
  {
    WeekdayShift(d, k);
  }

  // ---------------------------------------------------------------------
  // set_data

  /** `to_date.replace(hour=0, minute=0, second=0)`: the same day, at a
      time of day made of the microseconds alone. */
  function Midnight(t: Instant): (m: Instant)
    ensures m / DAY == t / DAY && m % DAY == t % SECOND
  {
    t / DAY * DAY + t % SECOND
  }

  /** `self.days`: eight midnights a day apart, the last that of `toDate`. */
  function Days(toDate: Instant): (days: seq<Instant>)
    ensures |days| == 8 && days[7] == Midnight(toDate)
    ensures forall i :: 0 <= i < 7 ==> days[i + 1] == days[i] + DAY
  {
    seq(8, i requires 0 <= i < 8 => Midnight(toDate) + (i - 7) * DAY)
  }

  /** The seven windows `[days[i], days[i + 1])` cover the week before the
      last midnight, each instant exactly once. */
  lemma WindowsTile(toDate: Instant, t: Instant)
    requires Days(toDate)[0] <= t < Days(toDate)[7]
    ensures exists i :: 0 <= i < 7 && Days(toDate)[i] <= t < Days(toDate)[i + 1]
    ensures forall i, j ::
              (0 <= i < 7 && 0 <= j < 7 && Days(toDate)[i] <= t < Days(toDate)[i + 1] &&
               Days(toDate)[j] <= t < Days(toDate)[j + 1]) ==> i == j
  {
    var days := Days(toDate);
    var i := if t < days[1] then 0 else if t < days[2] then 1 else if t < days[3] then 2
             else if t < days[4] then 3 else if t < days[5] then 4 else if t < days[6] then 5 else 6;
    assert days[i] <= t < days[i + 1];
  }

  /** The log lines of one window, newest first. */
  function WindowLines(log: seq<LogLine>, fromDate: Instant, toDate: Instant): seq<LogLine> {
    Kept(Considered(Backwards(log), 1, 0), fromDate, toDate)
  }

  /** The lines of a window are the lines of the log dated in it, newest
      first: every line of the log at or after `fromDate` and before
      `toDate` that comes after every line older than `fromDate`. */
  lemma WindowLinesAre(log: seq<LogLine>, fromDate: Instant, toDate: Instant)
    ensures WindowLines(log, fromDate, toDate) == Before(NewerRun(Backwards(log), fromDate - 1), toDate)
    ensures forall k :: 0 <= k < |WindowLines(log, fromDate, toDate)| ==>
              fromDate <= WindowLines(log, fromDate, toDate)[k].date < toDate
  {
    ConsideredAll(Backwards(log), 0);
    assert Backwards(log)[0..] == Backwards(log);
    KeptIsWindow(Backwards(log), fromDate, toDate);
  }

  /** `DataProcessor`, holding the days of the report and the log lines of
      each. */
  class DataProcessor {
    var days: seq<Instant>
    /** The log lines of each day; the floating-point fields they are
        split into are not part of this model. */
    var daysData: seq<seq<LogLine>>

    constructor ()
      ensures days == [] && daysData == []
    {
      days := [];
      daysData := [];
    }

    /** `set_data(to_date)`: the eight midnights, then `logs_to_list` of
        each of the seven windows between them, oldest window first. */
    method SetData(log: seq<LogLine>, toDate: Instant)
      modifies this
      ensures days == Days(toDate) && |daysData| == 7
      ensures forall i :: 0 <= i < 7 ==> daysData[i] == WindowLines(log, days[i], days[i + 1])
    {
      days := seq(8, i requires 0 <= i < 8 => Midnight(toDate) + (i - 7) * DAY);
      daysData := [];
      var i := 0;
      while i < |days| - 1
        invariant days == Days(toDate)
        invariant 0 <= i <= 7 && |daysData| == i
        invariant forall k :: 0 <= k < i ==> daysData[k] == WindowLines(log, days[k], days[k + 1])
      {
        var listing := LogsToList(log, days[i], days[i + 1], 1);
        daysData := daysData + [listing.lines];
        i := i + 1;
      }
    }
  }
}
