/**
  The probe executor and the single-target monitor: classifying one HTTP or
  ping probe into a result, and persisting that result as a status check.
  The network, the ping process and the clock are inputs (see `Network`).
 */
module Monitoring {
  import opened Common
  import opened Decimal
  import opened Text
  import opened Records

  /** A value carried by a rejected promise or a `throw`. */
  datatype Thrown =
    | ErrorValue(name: string, message: string)  // an instance of Error, DOMException included
    | OtherValue(nameProperty: Option<string>)   // any other non-null value, with its string `name` property if any
    | Nullish(isNull: bool)                      // `null` (true) or `undefined` (false)

  /** `error instanceof Error ? error.message : fallback` */
  function MessageOr(e: Thrown, fallback: string): string {
    if e.ErrorValue? then e.message else fallback
  }

  /** What `fetch` settles with: a response with its status, or a rejection. */
  datatype HttpOutcome = Responded(status: nat) | FetchRejected(reason: Thrown)

  /** What running the ping command settles with: its output streams, or a rejection. */
  datatype PingOutcome = Ran(stdout: string, stderr: string) | ExecRejected(reason: Thrown)

  /**
    The outside world of one probe: the response `fetch` gives for each URL,
    the outcome of pinging each host, and the milliseconds elapsed between the
    start of the probe and its clock reading.
   */
  datatype Network = Network(fetch: string -> HttpOutcome, exec: string -> PingOutcome, elapsed: nat)

  /** The classified outcome of one probe. */
  datatype ProbeResult = ProbeResult(
    status: Status,
    statusCode: Option<nat>,
    responseTime: nat,
    errorMessage: Option<string>)

  /** Every result carries an error message exactly when it is down. */
  predicate WellFormed(r: ProbeResult) {
    r.errorMessage.None? <==> r.status == Up
  }

  /** How a JavaScript call ended: returning a result, or throwing. */
  datatype Completion = Normal(result: ProbeResult) | Abrupt(thrown: Thrown)

  const RequestTimeout := "Request timeout"
  const UnknownError := "Unknown error"
  const PingFailed := "Ping failed"
  const AbortErrorName := "AbortError"
  /** V8's messages for reading `.name` of `null` and of `undefined`. */
  const NullNameError := "Cannot read properties of null (reading 'name')"
  const UndefinedNameError := "Cannot read properties of undefined (reading 'name')"

  // ---------------------------------------------------------------- HTTP

  /** The Fetch Standard's "ok status": 200 to 299 inclusive (`response.ok`). */
  predicate IsOkStatus(status: nat) {
    200 <= status <= 299
  }

  /** The address fetched: unchanged when it starts with "http", otherwise with "https://" in front. */
  function NormalizeUrl(url: string): (full: string)
    ensures IsPrefix("http", full)
    ensures full == url <==> IsPrefix("http", url)
    ensures full == url || full == "https://" + url
  {
    if IsPrefix("http", url) then url else "https://" + url
  }

  lemma NormalizeUrlIdempotent(url: string)
    ensures NormalizeUrl(NormalizeUrl(url)) == NormalizeUrl(url)
  {
  }

  /** A host whose name merely begins with "http" gets no scheme. */
  lemma NormalizeUrlKeepsHttpbin()
    ensures NormalizeUrl("httpbin.org") == "httpbin.org"
    ensures NormalizeUrl("example.com") == "https://example.com"
  {
    assert "example.com"[..4] != "http" by { assert "example.com"[..4][0] == 'e'; }
  }

  /** The error message of a response that is not ok. */
  function HttpMessage(status: nat): (msg: string)
    ensures IsPrefix("HTTP ", msg)
    ensures AllDigits(msg[5..]) && Value(msg[5..]) == status
    ensures |msg| > 5 && (msg[5] == '0' ==> |msg| == 6)
  {
    var msg := "HTTP " + FromNat(status);
    assert msg[5..] == FromNat(status);
    msg
  }

  /** The `name` property of a thrown value that is not null or undefined. */
  function NameOf(e: Thrown): Option<string>
    requires !e.Nullish?
  {
    match e
    case ErrorValue(name, _) => Some(name)
    case OtherValue(nameProperty) => nameProperty
  }

  /**
    The HTTP check: a header-only request to the normalised address. A
    response is up exactly when its status is ok; a rejection is down with no
    status code. A rejection with `null` or `undefined` makes reading its
    `name` throw, and that TypeError escapes the check.
   */
  function HttpCheck(url: string, net: Network): (c: Completion)
    ensures c.Normal? ==> WellFormed(c.result) && c.result.responseTime == net.elapsed
    ensures var o := net.fetch(NormalizeUrl(url));
      && (o.Responded? ==>
            && c.Normal?
            && c.result.statusCode == Some(o.status)
            && (c.result.status == Up <==> IsOkStatus(o.status))
            && (!IsOkStatus(o.status) ==> c.result.errorMessage == Some(HttpMessage(o.status))))
      && (o.FetchRejected? && !o.reason.Nullish? ==>
            && c.Normal?
            && c.result.status == Down
            && c.result.statusCode.None?
            && c.result.errorMessage ==
                 Some(if NameOf(o.reason) == Some(AbortErrorName) then RequestTimeout
                      else MessageOr(o.reason, UnknownError)))
      && (c.Abrupt? <==> o.FetchRejected? && o.reason.Nullish?)
    ensures c.Abrupt? ==> c.thrown.ErrorValue? && c.thrown.name == "TypeError"
  {
    match net.fetch(NormalizeUrl(url))
    case Responded(status) =>
      var ok := IsOkStatus(status);
      Normal(ProbeResult(
        if ok then Up else Down,
        Some(status),
        net.elapsed,
        if ok then None else Some(HttpMessage(status))))
    case FetchRejected(e) =>
      if e.Nullish? then
        Abrupt(ErrorValue("TypeError", if e.isNull then NullNameError else UndefinedNameError))
      else if NameOf(e) == Some(AbortErrorName) then
        Normal(ProbeResult(Down, None, net.elapsed, Some(RequestTimeout)))
      else
        Normal(ProbeResult(Down, None, net.elapsed, Some(MessageOr(e, UnknownError))))
  }

  // ---------------------------------------------------------------- ping host

  /** Removes one leading "http://" or "https://" (the pattern /^https?:\/\//). */
  function StripScheme(host: string): (rest: string)
    ensures IsPrefix("http://", host) ==> rest == host[7..]
    ensures IsPrefix("https://", host) ==> rest == host[8..]
    ensures !IsPrefix("http://", host) && !IsPrefix("https://", host) ==> rest == host
  {
    assert IsPrefix("https://", host) ==> host[4] == 's' by {
      if IsPrefix("https://", host) {
        assert host[4] == host[..8][4];
      }
    }
    if IsPrefix("http://", host) then host[7..]
    else if IsPrefix("https://", host) then host[8..]
    else host
  }

  /** `s.split("/")[0]`: the longest prefix of s without a slash. */
  function UpToSlash(s: string): (r: string)
    ensures IsPrefix(r, s)
    ensures !Contains(r, '/')
    ensures r == s || s[|r|] == '/'
    decreases |s|
  {
    if |s| == 0 || s[0] == '/' then "" else [s[0]] + UpToSlash(s[1..])
  }

  /** The host handed to the ping command. */
  function CleanHost(host: string): (clean: string)
    ensures !Contains(clean, '/')
    ensures IsPrefix(clean, StripScheme(host))
    ensures clean == StripScheme(host) || StripScheme(host)[|clean|] == '/'
  {
    UpToSlash(StripScheme(host))
  }

  lemma {:induction false} UpToSlashNoSlash(s: string)
    requires !Contains(s, '/')
    ensures UpToSlash(s) == s
    decreases |s|
  {
    if |s| > 0 {
      assert !Contains(s, '/') ==> s[0] != '/';
      assert !Contains(s[1..], '/') by {
        forall i | 0 <= i < |s[1..]|
          ensures s[1..][i] != '/'
        {
          assert s[1..][i] == s[i + 1];
        }
      }
      UpToSlashNoSlash(s[1..]);
      assert s == [s[0]] + s[1..];
    }
  }

  /** Cleaning a cleaned host changes nothing. */
  lemma {:induction false} CleanHostIdempotent(host: string)
    ensures CleanHost(CleanHost(host)) == CleanHost(host)
  {
    var c := CleanHost(host);
    assert !IsPrefix("http://", c) && !IsPrefix("https://", c) by {
      if |c| >= 7 { assert c[..7][5] == c[5]; }
      if |c| >= 8 { assert c[..8][6] == c[6]; }
    }
    assert StripScheme(c) == c;
    UpToSlashNoSlash(c);
  }

  // ---------------------------------------------------------------- ping time

  /** c equals the lower-case ASCII letter `lower`, ignoring case. */
  predicate SameLetterIgnoringCase(c: char, lower: char) {
    c == lower || ('a' <= lower <= 'z' && c as int == lower as int - 32)
  }

  /** s holds the lower-case word at position i, ignoring ASCII case. */
  predicate HasWordAt(s: string, i: nat, word: string) {
    i + |word| <= |s| && forall k :: 0 <= k < |word| ==> SameLetterIgnoringCase(s[i + k], word[k])
  }

  /** The length of the longest run of digits that starts at position i. */
  function DigitRun(s: string, i: nat): (n: nat)
    requires i <= |s|
    ensures i + n <= |s|
    ensures forall k :: i <= k < i + n ==> IsDigit(s[k])
    ensures i + n == |s| || !IsDigit(s[i + n])
    decreases |s| - i
  {
    if i < |s| && IsDigit(s[i]) then 1 + DigitRun(s, i + 1) else 0
  }

  /** A run of w digits that nothing but a non-digit (or the end) follows is the longest run. */
  lemma {:induction false} DigitRunExact(s: string, i: nat, w: nat)
    requires i + w <= |s|
    requires forall k :: i <= k < i + w ==> IsDigit(s[k])
    requires i + w == |s| || !IsDigit(s[i + w])
    ensures DigitRun(s, i) == w
    decreases w
  {
    if w > 0 {
      DigitRunExact(s, i + 1, w - 1);
    }
  }

  /** The number captured by the ping-time pattern: digits, and digits after a point if any. */
  datatype TimeMatch = TimeMatch(whole: string, frac: string)

  predicate ValidTimeMatch(m: TimeMatch) {
    |m.whole| > 0 && AllDigits(m.whole) && AllDigits(m.frac)
  }

  /** The captured group as it appears in the output. */
  function Captured(m: TimeMatch): string {
    if |m.frac| == 0 then m.whole else m.whole + "." + m.frac
  }

  /**
    The regular expression /time[<=](\d+(?:\.\d+)?)ms/i matches the output at
    position i with m as its captured group: "time" in any case, `<` or `=`,
    the number, then "ms" in any case.
   */
  ghost predicate Spells(s: string, i: nat, m: TimeMatch) {
    var j := i + 5;
    var k := j + |Captured(m)|;
    && ValidTimeMatch(m)
    && j <= |s|
    && HasWordAt(s, i, "time")
    && (s[i + 4] == '<' || s[i + 4] == '=')
    && k <= |s|
    && s[j..k] == Captured(m)
    && HasWordAt(s, k, "ms")
  }

  /** The deterministic matcher at one position: maximal digit runs, then "ms". */
  function MatchAt(s: string, i: nat): Option<TimeMatch> {
    if i + 5 <= |s| && HasWordAt(s, i, "time") && (s[i + 4] == '<' || s[i + 4] == '=') then
      var j := i + 5;
      var d := DigitRun(s, j);
      var k := j + d;
      if d == 0 then None
      else if HasWordAt(s, k, "ms") then Some(TimeMatch(s[j..k], ""))
      else if k < |s| && s[k] == '.' then
        var f := DigitRun(s, k + 1);
        if f > 0 && HasWordAt(s, k + 1 + f, "ms") then Some(TimeMatch(s[j..k], s[k + 1..k + 1 + f]))
        else None
      else None
    else None
  }

  /** What the matcher finds is a match of the pattern. */
  lemma MatchAtSound(s: string, i: nat)
    ensures MatchAt(s, i).Some? ==> Spells(s, i, MatchAt(s, i).value)
  {
    if MatchAt(s, i).Some? {
      var m := MatchAt(s, i).value;
      var j := i + 5;
      var k := j + DigitRun(s, j);
      assert m.whole == s[j..k];
      if |m.frac| > 0 {
        var f := DigitRun(s, k + 1);
        assert m.frac == s[k + 1..k + 1 + f];
        assert Captured(m) == s[j..k + 1 + f];
      }
    }
  }

  /** "ms" in any case starts with neither a digit nor a point. */
  lemma MsStartsWithLetter(s: string, k: nat)
    requires HasWordAt(s, k, "ms")
    ensures k < |s| && !IsDigit(s[k]) && s[k] != '.'
  {
    assert SameLetterIgnoringCase(s[k + 0], "ms"[0]);
  }

  /** The characters of a slice are those of the sequence it was cut from. */
  lemma SliceChars(s: string, a: nat, b: nat, piece: string)
    requires a <= b <= |s| && s[a..b] == piece
    ensures forall t :: a <= t < b ==> s[t] == piece[t - a]
  {
    forall t | a <= t < b
      ensures s[t] == piece[t - a]
    {
      assert s[t] == s[a..b][t - a];
    }
  }

  /** In a match, the whole part is the longest digit run after the comparison sign. */
  lemma {:induction false} SpellsWholeRun(s: string, i: nat, m: TimeMatch)
    requires Spells(s, i, m)
    ensures DigitRun(s, i + 5) == |m.whole|
    ensures s[i + 5..i + 5 + |m.whole|] == m.whole
    ensures |m.frac| == 0 ==> HasWordAt(s, i + 5 + |m.whole|, "ms")
    ensures |m.frac| > 0 ==> i + 5 + |m.whole| < |s| && s[i + 5 + |m.whole|] == '.'
  {
    var j := i + 5;
    var w := |m.whole|;
    var cap := Captured(m);
    SliceChars(s, j, j + |cap|, cap);
    if |m.frac| == 0 {
      MsStartsWithLetter(s, j + w);
    } else {
      assert cap[w] == '.';
    }
    DigitRunExact(s, j, w);
    assert s[j..j + w] == m.whole;
  }

  /** In a match with a fraction, the fraction is the longest digit run after the point. */
  lemma {:induction false} SpellsFracRun(s: string, i: nat, m: TimeMatch)
    requires Spells(s, i, m) && |m.frac| > 0
    ensures DigitRun(s, i + 6 + |m.whole|) == |m.frac|
    ensures s[i + 6 + |m.whole|..i + 6 + |m.whole| + |m.frac|] == m.frac
    ensures HasWordAt(s, i + 6 + |m.whole| + |m.frac|, "ms")
  {
    var j := i + 5;
    var w := |m.whole|;
    var n := |m.frac|;
    var cap := Captured(m);
    assert |cap| == w + 1 + n;
    SliceChars(s, j, j + |cap|, cap);
    assert forall t :: j + w + 1 <= t < j + |cap| ==> s[t] == m.frac[t - j - w - 1] by {
      forall t | j + w + 1 <= t < j + |cap|
        ensures s[t] == m.frac[t - j - w - 1]
      {
        assert cap[t - j] == m.frac[t - j - w - 1];
      }
    }
    MsStartsWithLetter(s, j + |cap|);
    DigitRunExact(s, j + w + 1, n);
    assert forall t :: 0 <= t < n ==> s[j + w + 1..j + w + 1 + n][t] == m.frac[t];
    assert s[j + w + 1..j + w + 1 + n] == m.frac;
  }

  /** A match of the pattern at i is the one the matcher finds there: the match at a position is unique. */
  lemma {:induction false} MatchAtComplete(s: string, i: nat, m: TimeMatch)
    requires Spells(s, i, m)
    ensures MatchAt(s, i) == Some(m)
  {
    if |m.frac| == 0 {
      MatchAtWhole(s, i, m);
    } else {
      MatchAtFrac(s, i, m);
    }
  }

  /** MatchAtComplete for a match without a fraction. */
  lemma MatchAtWhole(s: string, i: nat, m: TimeMatch)
    requires Spells(s, i, m) && |m.frac| == 0
    ensures MatchAt(s, i) == Some(m)
  {
    SpellsWholeRun(s, i, m);
    var j := i + 5;
    var k := j + |m.whole|;
    assert m == TimeMatch(s[j..k], "");
  }

  /** MatchAtComplete for a match with a fraction. */
  lemma MatchAtFrac(s: string, i: nat, m: TimeMatch)
    requires Spells(s, i, m) && |m.frac| > 0
    ensures MatchAt(s, i) == Some(m)
  {
    SpellsWholeRun(s, i, m);
    var k := i + 5 + |m.whole|;
    assert !HasWordAt(s, k, "ms") by {
      if HasWordAt(s, k, "ms") {
        MsStartsWithLetter(s, k);
      }
    }
    SpellsFracRun(s, i, m);
    MatchAtFracShape(s, i, |m.whole|, |m.frac|);
  }

  /** The matcher's answer when the whole part is followed by a point, a fraction and "ms". */
  lemma MatchAtFracShape(s: string, i: nat, w: nat, f: nat)
    requires i + 5 <= |s| && HasWordAt(s, i, "time") && (s[i + 4] == '<' || s[i + 4] == '=')
    requires w > 0 && DigitRun(s, i + 5) == w && !HasWordAt(s, i + 5 + w, "ms")
    requires i + 5 + w < |s| && s[i + 5 + w] == '.'
    requires f > 0 && DigitRun(s, i + 6 + w) == f && HasWordAt(s, i + 6 + w + f, "ms")
    ensures MatchAt(s, i) == Some(TimeMatch(s[i + 5..i + 5 + w], s[i + 6 + w..i + 6 + w + f]))
  {
  }

  /** The leftmost position at or after `from` where the matcher finds a match. */
  function FindTimeAt(s: string, from: nat): (p: Option<nat>)
    requires from <= |s|
    ensures p.Some? ==> from <= p.value <= |s| && MatchAt(s, p.value).Some?
    ensures p.Some? ==> forall k :: from <= k < p.value ==> MatchAt(s, k).None?
    ensures p.None? ==> forall k :: from <= k <= |s| ==> MatchAt(s, k).None?
    decreases |s| - from
  {
    if MatchAt(s, from).Some? then Some(from)
    else if from == |s| then None
    else FindTimeAt(s, from + 1)
  }

  /** `stdout.match(/time[<=](\d+(?:\.\d+)?)ms/i)`, reduced to its captured group. */
  function PingTime(stdout: string): Option<TimeMatch> {
    match FindTimeAt(stdout, 0)
    case None => None
    case Some(p) => MatchAt(stdout, p)
  }

  /** The ping time found is the pattern's leftmost match, and none is found exactly when the pattern never matches. */
  lemma PingTimeIsLeftmostMatch(s: string)
    ensures PingTime(s).None? <==> forall i: nat, m :: !Spells(s, i, m)
    ensures PingTime(s).Some? ==>
      exists i: nat :: Spells(s, i, PingTime(s).value) && forall k: nat, m :: k < i ==> !Spells(s, k, m)
  {
    match FindTimeAt(s, 0)
    case None =>
      forall i: nat, m | Spells(s, i, m)
        ensures false
      {
        MatchAtComplete(s, i, m);
      }
    case Some(p) =>
      MatchAtSound(s, p);
      forall k: nat, m | k < p && Spells(s, k, m)
        ensures false
      {
        MatchAtComplete(s, k, m);
      }
  }

  /** `Math.round(Number.parseFloat(group))` on the captured number, with integers. */
  function RoundedMillis(m: TimeMatch): nat
    requires ValidTimeMatch(m)
  {
    Value(m.whole) + (if |m.frac| > 0 && DigitValue(m.frac[0]) >= 5 then 1 else 0)
  }

  /** The captured number whole.frac as the fraction num / 10^|frac|. */
  function Numerator(m: TimeMatch): nat
    requires ValidTimeMatch(m)
  {
    Value(m.whole) * Pow10(|m.frac|) + Value(m.frac)
  }

  /** The rounding bit: the fraction digits are at least one half exactly when their first digit is 5 or more. */
  lemma {:induction false} FractionHalf(frac: string)
    requires AllDigits(frac) && |frac| > 0
    ensures var b := if DigitValue(frac[0]) >= 5 then 1 else 0;
      (2 * b - 1) * Pow10(|frac|) <= 2 * Value(frac) < (2 * b + 1) * Pow10(|frac|)
  {
    var n := |frac|;
    var first := frac[..1];
    var rest := frac[1..];
    assert frac == first + rest;
    ValueAppend(first, rest);
    assert first[..0] == "";
    var c := DigitValue(frac[0]);
    assert Value(first) == c;
    var p := Pow10(n - 1);
    ValueBound(rest);
    assert Value(frac) == c * p + Value(rest);
    assert Pow10(n) == 10 * p;
    var r := Value(rest);
    if c >= 5 {
      MulMonotone(5, c, p);
      MulMonotone(c, 9, p);
      assert 5 * p <= c * p <= 9 * p && r < p;
      assert (2 * 1 - 1) * Pow10(n) == 10 * p;
      assert (2 * 1 + 1) * Pow10(n) == 30 * p;
    } else {
      MulMonotone(c, 4, p);
      assert 0 <= c * p <= 4 * p && r < p;
      assert (2 * 0 - 1) * Pow10(n) == -10 * p;
      assert (2 * 0 + 1) * Pow10(n) == 10 * p;
    }
  }

  /** Adding a whole part w to a fraction f/den that rounds to b rounds to w + b. */
  lemma ShiftRounding(w: int, b: int, f: int, den: int)
    requires den > 0
    requires (2 * b - 1) * den <= 2 * f < (2 * b + 1) * den
    ensures IsHalfUpRounding(w + b, w * den + f, den)
  {
    assert (2 * (w + b) - 1) * den == 2 * (w * den) + (2 * b - 1) * den;
    assert (2 * (w + b) + 1) * den == 2 * (w * den) + (2 * b + 1) * den;
  }

  /** The rounded ping time is the captured decimal rounded to the nearest integer, halves up. */
  lemma RoundedMillisIsHalfUp(m: TimeMatch)
    requires ValidTimeMatch(m)
    ensures IsHalfUpRounding(RoundedMillis(m), Numerator(m), Pow10(|m.frac|))
    ensures RoundedMillis(m) == RoundHalfUp(Numerator(m), Pow10(|m.frac|))
  {
    var den := Pow10(|m.frac|);
    if |m.frac| > 0 {
      FractionHalf(m.frac);
      ShiftRounding(Value(m.whole), if DigitValue(m.frac[0]) >= 5 then 1 else 0, Value(m.frac), den);
    } else {
      ShiftRounding(Value(m.whole), 0, Value(m.frac), den);
    }
    HalfUpRoundingUnique(RoundedMillis(m), RoundHalfUp(Numerator(m), den), Numerator(m), den);
  }

  // ---------------------------------------------------------------- ping check

  /**
    The ping check: one echo request to the cleaned host. It never has a
    status code; output on stderr or a failed run is down, otherwise up, with
    the reported round-trip time when the output holds one.
   */
  function PingCheck(host: string, net: Network): (r: ProbeResult)
    ensures WellFormed(r) && r.statusCode.None?
    ensures var o := net.exec(CleanHost(host));
      && (r.status == Up <==> o.Ran? && o.stderr == "")
      && (o.Ran? && o.stderr != "" ==> r.errorMessage == Some(o.stderr) && r.responseTime == net.elapsed)
      && (o.ExecRejected? ==>
            r.errorMessage == Some(MessageOr(o.reason, PingFailed)) && r.responseTime == net.elapsed)
      && (o.Ran? && o.stderr == "" && PingTime(o.stdout).None? ==> r.responseTime == net.elapsed)
      && (o.Ran? && o.stderr == "" && PingTime(o.stdout).Some? ==>
            ValidTimeMatch(PingTime(o.stdout).value) && r.responseTime == RoundedMillis(PingTime(o.stdout).value))
  {
    match net.exec(CleanHost(host))
    case Ran(stdout, stderr) =>
      if stderr != "" then ProbeResult(Down, None, net.elapsed, Some(stderr))
      else
        var time := PingTime(stdout);
        if time.Some? then
          MatchAtSound(stdout, FindTimeAt(stdout, 0).value);
          ProbeResult(Up, None, RoundedMillis(time.value), None)
        else
          ProbeResult(Up, None, net.elapsed, None)
    case ExecRejected(e) =>
      ProbeResult(Down, None, net.elapsed, Some(MessageOr(e, PingFailed)))
  }

  // ---------------------------------------------------------------- dispatch

  /**
    `checkWebsiteStatus`: "PING" goes to the ping check, every other kind to
    the HTTP check, and an exception escaping the HTTP check becomes a down
    result with no status code. It never throws.
   */
  function CheckWebsiteStatus(url: string, kind: string, net: Network): (r: ProbeResult)
    ensures WellFormed(r)
    ensures kind == "PING" ==> r == PingCheck(url, net)
    ensures kind != "PING" && HttpCheck(url, net).Normal? ==> r == HttpCheck(url, net).result
    ensures kind != "PING" && HttpCheck(url, net).Abrupt? ==>
      && r.status == Down
      && r.statusCode.None?
      && r.responseTime == net.elapsed
      && r.errorMessage == Some(MessageOr(HttpCheck(url, net).thrown, UnknownError))
  {
    if kind == "PING" then PingCheck(url, net)
    else
      match HttpCheck(url, net)
      case Normal(result) => result
      case Abrupt(e) => ProbeResult(Down, None, net.elapsed, Some(MessageOr(e, UnknownError)))
  }

  /** Of the three stored kinds, only PING is probed by ping; HTTP and HTTPS both use the HTTP check. */
  lemma KindDispatch(k: Kind, url: string, net: Network)
    ensures k == PING ==> CheckWebsiteStatus(url, KindName(k), net) == PingCheck(url, net)
    ensures k != PING ==> CheckWebsiteStatus(url, KindName(k), net) == CheckWebsiteStatus(url, "HTTP", net)
    ensures k == PING ==> CheckWebsiteStatus(url, KindName(k), net).statusCode.None?
  {
  }

  // ---------------------------------------------------------------- persistence

  /** How the store answers a create: accepted with its timestamp, or failed. */
  datatype StoreAnswer = Accepted(checkedAt: int) | Refused

  /** A probe result together with the status-check table after it was appended. */
  datatype Monitored = Monitored(result: ProbeResult, store: seq<StatusCheck>)

  /** The record c holds exactly the fields of result r for website `websiteId`. */
  predicate RecordsResult(c: StatusCheck, websiteId: string, r: ProbeResult) {
    && c.websiteId == websiteId
    && c.status == r.status
    && c.responseTime == Some(r.responseTime)
    && c.statusCode == r.statusCode
    && c.errorMessage == r.errorMessage
  }

  /**
    `monitorWebsite`: probe once, append one record of the result, and return
    that same result; a store failure rejects.
   */
  function MonitorWebsite(
    websiteId: string, url: string, kind: string, net: Network,
    store: seq<StatusCheck>, answer: StoreAnswer): (o: Outcome<Monitored>)
    ensures o.Fulfilled? <==> answer.Accepted?
    ensures o.Fulfilled? ==>
      && o.value.result == CheckWebsiteStatus(url, kind, net)
      && |o.value.store| == |store| + 1
      && o.value.store[..|store|] == store
      && RecordsResult(o.value.store[|store|], websiteId, o.value.result)
      && o.value.store[|store|].checkedAt == answer.checkedAt
  {
    var result := CheckWebsiteStatus(url, kind, net);
    match answer
    case Refused => Rejected
    case Accepted(at) =>
      var record := StatusCheck(
        websiteId, result.status, Some(result.responseTime), result.statusCode, result.errorMessage, at);
      Fulfilled(Monitored(result, store + [record]))
  }
}
