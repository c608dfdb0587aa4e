/** Heuristic risk scoring of a matched alert: four independent sub-scores
    (severity, frequency, host criticality, time of day), summed and capped
    at 100, plus a qualitative label for the total. */
module RiskScorer {

  datatype Option<T> = None | Some(value: T)

  // ---------------------------------------------------------------------
  // Severity

  /** Base score per severity label; any other label scores 0. */
  const SeverityScores: map<string, int> := map["HIGH" := 50, "MEDIUM" := 30, "LOW" := 10]

  function ScoreSeverity(severity: string): (r: int)
    ensures r in {0, 10, 30, 50}
  {
    if severity in SeverityScores then SeverityScores[severity] else 0
  }

  lemma SeverityScoreValues(severity: string)
    ensures severity == "HIGH" ==> ScoreSeverity(severity) == 50
    ensures severity == "MEDIUM" ==> ScoreSeverity(severity) == 30
    ensures severity == "LOW" ==> ScoreSeverity(severity) == 10
    ensures severity !in {"HIGH", "MEDIUM", "LOW"} ==> ScoreSeverity(severity) == 0
  {
  }

  // ---------------------------------------------------------------------
  // Frequency

  /** U-shaped: both widespread and one-off pairs score high. */
  function ScoreFrequency(frequency: int): (r: int)
    ensures r in {10, 15, 20, 25}
  {
    if frequency >= 20 then 25
    else if frequency >= 10 then 20
    else if frequency >= 5 then 15
    else if frequency == 1 then 20
    else 10
  }

  lemma FrequencyScoreBands(frequency: int)
    ensures frequency >= 20 ==> ScoreFrequency(frequency) == 25
    ensures 10 <= frequency < 20 ==> ScoreFrequency(frequency) == 20
    ensures 5 <= frequency < 10 ==> ScoreFrequency(frequency) == 15
    ensures frequency == 1 ==> ScoreFrequency(frequency) == 20
    ensures frequency <= 0 || 2 <= frequency <= 4 ==> ScoreFrequency(frequency) == 10
  {
  }

  // ---------------------------------------------------------------------
  // Host criticality

  /** Substrings that mark a server or domain controller. */
  const ServerKeywords: seq<string> := ["SRV", "DC", "SERVER", "DOMAIN"]

  /** ASCII upper-casing of one character. */
  function UpperChar(c: char): char
  {
    if 'a' <= c <= 'z' then (c as int - 32) as char else c
  }

  /** Upper-cases the ASCII letters of `s`. */
  function Upper(s: string): (r: string)
    ensures |r| == |s|
    ensures forall i :: 0 <= i < |r| ==> !('a' <= r[i] <= 'z')
    ensures forall i :: 0 <= i < |s| && !('a' <= s[i] <= 'z') ==> r[i] == s[i]
    ensures forall i :: 0 <= i < |s| && 'a' <= s[i] <= 'z' ==> r[i] as int == s[i] as int - 32
    ensures EqualIgnoringCase(s, r)
  {
    seq(|s|, i requires 0 <= i < |s| => UpperChar(s[i]))
  }

  /** `kw` occurs in `s` starting at position `i`. */
  predicate OccursAt(s: string, kw: string, i: int)
  {
    0 <= i && i + |kw| <= |s| && s[i..i + |kw|] == kw
  }

  /** Substring test (`kw in s`), scanning `s` from the left. */
  predicate Contains(s: string, kw: string)
    decreases |s|
  {
    |kw| <= |s| && (s[..|kw|] == kw || Contains(s[1..], kw))
  }

  /** The keyword loop: true as soon as one keyword occurs in `s`. */
  predicate AnyKeywordIn(keywords: seq<string>, s: string)
  {
    keywords != [] && (Contains(s, keywords[0]) || AnyKeywordIn(keywords[1..], s))
  }

  function ScoreHost(hostname: string): (r: int)
    ensures r in {5, 20}
  {
    if AnyKeywordIn(ServerKeywords, Upper(hostname)) then 20 else 5
  }

  lemma {:induction false} ContainsIff(s: string, kw: string)
    ensures Contains(s, kw) <==> exists i :: OccursAt(s, kw, i)
    decreases |s|
  {
    if s == [] {
      if kw == [] {
        assert OccursAt(s, kw, 0);
      }
    } else if |kw| <= |s| {
      ContainsIff(s[1..], kw);
      if Contains(s[1..], kw) {
        var i :| OccursAt(s[1..], kw, i);
        assert s[1..][i..i + |kw|] == s[i + 1..i + 1 + |kw|];
        assert OccursAt(s, kw, i + 1);
      }
      if s[..|kw|] == kw {
        assert OccursAt(s, kw, 0);
      }
      if exists i :: OccursAt(s, kw, i) {
        var i :| OccursAt(s, kw, i);
        if i > 0 {
          assert s[1..][i - 1..i - 1 + |kw|] == s[i..i + |kw|];
          assert OccursAt(s[1..], kw, i - 1);
        }
      }
    }
  }

  lemma {:induction false} AnyKeywordInIff(keywords: seq<string>, s: string)
    ensures AnyKeywordIn(keywords, s) <==> exists k, i :: k in keywords && OccursAt(s, k, i)
  {
    if keywords != [] {
      AnyKeywordInIff(keywords[1..], s);
      ContainsIff(s, keywords[0]);
      if exists k, i :: k in keywords && OccursAt(s, k, i) {
        var k, i :| k in keywords && OccursAt(s, k, i);
        if k != keywords[0] {
          assert k in keywords[1..];
        }
      }
    }
  }

  /** A host scores 20 exactly when its upper-cased name contains one of the
      server keywords, and 5 otherwise. */
  lemma HostScoreIff(hostname: string)
    ensures ScoreHost(hostname) == 20
        <==> exists k, i :: k in ServerKeywords && OccursAt(Upper(hostname), k, i)
    ensures ScoreHost(hostname) != 20 ==> ScoreHost(hostname) == 5
  {
    AnyKeywordInIff(ServerKeywords, Upper(hostname));
  }

  /** Two names that differ only in the case of their letters. */
  predicate EqualIgnoringCase(a: string, b: string)
  {
    |a| == |b| && forall i :: 0 <= i < |a| ==> UpperChar(a[i]) == UpperChar(b[i])
  }

  /** The host score does not depend on the letter case of the name. */
  lemma HostScoreIgnoresCase(a: string, b: string)
    requires EqualIgnoringCase(a, b)
    ensures ScoreHost(a) == ScoreHost(b)
  {
    assert Upper(a) == Upper(b);
  }

  lemma HostScoreExamples()
    ensures ScoreHost("SRV-DC01") == 20
    ensures ScoreHost("srv-dc01") == 20
    ensures ScoreHost("WKSTN-001") == 5
  {
    ServerHostScore("SRV-DC01");
    ServerHostScore("srv-dc01");
    WorkstationHostScore();
  }

  lemma ServerHostScore(hostname: string)
    requires hostname == "SRV-DC01" || hostname == "srv-dc01"
    ensures ScoreHost(hostname) == 20
  {
  }

  lemma WorkstationHostScore()
    ensures ScoreHost("WKSTN-001") == 5
  {
    var w := Upper("WKSTN-001");
    assert w == "WKSTN-001";
    forall k, i | k in ServerKeywords ensures !OccursAt(w, k, i) {
      if 0 <= i && i + |k| <= |w| {
        assert k == "SRV" || k == "DC" || k == "SERVER" || k == "DOMAIN";
        assert w[i] != k[0] || w[i + 1] != k[1];
      }
    }
    HostScoreIff("WKSTN-001");
  }

  // ---------------------------------------------------------------------
  // Time of day

  /** The fields of a "YYYY-MM-DD HH:MM:SS" timestamp. */
  datatype DateTime = DateTime(year: int, month: int, day: int, hour: int, minute: int, second: int)

  predicate IsLeapYear(year: int)
  {
    year % 4 == 0 && (year % 100 != 0 || year % 400 == 0)
  }

  function DaysInMonth(year: int, month: int): int
    requires 1 <= month <= 12
  {
    if month == 2 then (if IsLeapYear(year) then 29 else 28)
    else if month in {4, 6, 9, 11} then 30
    else 31
  }

  /** The dates and times a timestamp may name: years 1 to 9999, real
      calendar days, and times of day up to 23:59:59. */
  predicate ValidDateTime(dt: DateTime)
  {
    && 1 <= dt.year <= 9999
    && 1 <= dt.month <= 12
    && 1 <= dt.day <= DaysInMonth(dt.year, dt.month)
    && 0 <= dt.hour <= 23
    && 0 <= dt.minute <= 59
    && 0 <= dt.second <= 59
  }

  predicate IsDigit(c: char)
  {
    '0' <= c <= '9'
  }

  predicate AllDigits(s: string)
  {
    forall i :: 0 <= i < |s| ==> IsDigit(s[i])
  }

  function Pow10(width: nat): nat
  {
    if width == 0 then 1 else 10 * Pow10(width - 1)
  }

  /** The decimal value of a string of digits. */
  function DigitsValue(s: string): nat
    requires AllDigits(s)
  {
    if s == [] then 0
    else 10 * DigitsValue(s[..|s| - 1]) + (s[|s| - 1] as int - '0' as int)
  }

  /** `n` written in exactly `width` decimal digits, zero-padded on the left. */
  function PadDigits(n: nat, width: nat): (r: string)
    ensures |r| == width
  {
    if width == 0 then []
    else PadDigits(n / 10, width - 1) + [('0' as int + n % 10) as char]
  }

  /** The canonical rendering "YYYY-MM-DD HH:MM:SS". */
  function FormatTimestamp(dt: DateTime): string
    requires ValidDateTime(dt)
  {
    PadDigits(dt.year, 4) + "-" + PadDigits(dt.month, 2) + "-" + PadDigits(dt.day, 2) + " "
    + PadDigits(dt.hour, 2) + ":" + PadDigits(dt.minute, 2) + ":" + PadDigits(dt.second, 2)
  }

  /** Reads a timestamp in the fixed "YYYY-MM-DD HH:MM:SS" shape; any other
      text, or a date or time that does not exist, is rejected. */
  function ParseTimestamp(ts: string): (r: Option<DateTime>)
    ensures r.Some? ==> ValidDateTime(r.value)
    ensures r.Some? ==>
      && |ts| == 19
      && ts[4] == '-' && ts[7] == '-' && ts[10] == ' ' && ts[13] == ':' && ts[16] == ':'
      && AllDigits(ts[11..13]) && r.value.hour == DigitsValue(ts[11..13])
  {
    if && |ts| == 19
       && ts[4] == '-' && ts[7] == '-' && ts[10] == ' ' && ts[13] == ':' && ts[16] == ':'
       && AllDigits(ts[0..4]) && AllDigits(ts[5..7]) && AllDigits(ts[8..10])
       && AllDigits(ts[11..13]) && AllDigits(ts[14..16]) && AllDigits(ts[17..19])
    then
      var dt := DateTime(DigitsValue(ts[0..4]), DigitsValue(ts[5..7]), DigitsValue(ts[8..10]),
                         DigitsValue(ts[11..13]), DigitsValue(ts[14..16]), DigitsValue(ts[17..19]));
      if ValidDateTime(dt) then Some(dt) else None
    else None
  }

  lemma {:induction false} PadDigitsRoundTrip(n: nat, width: nat)
    requires n < Pow10(width)
    ensures |PadDigits(n, width)| == width
    ensures AllDigits(PadDigits(n, width))
    ensures DigitsValue(PadDigits(n, width)) == n
  {
    if width > 0 {
      PadDigitsRoundTrip(n / 10, width - 1);
      var s := PadDigits(n, width);
      assert s[..|s| - 1] == PadDigits(n / 10, width - 1);
    }
  }

  lemma {:induction false} DigitsValueRoundTrip(s: string)
    requires AllDigits(s)
    ensures DigitsValue(s) < Pow10(|s|)
    ensures PadDigits(DigitsValue(s), |s|) == s
  {
    if s != [] {
      var init := s[..|s| - 1];
      DigitsValueRoundTrip(init);
      var d := s[|s| - 1] as int - '0' as int;
      assert DigitsValue(s) / 10 == DigitsValue(init) && DigitsValue(s) % 10 == d;
      assert s == init + [s[|s| - 1]];
    }
  }

  /** Parsing the canonical rendering of a valid date and time gives it back. */
  lemma ParseFormatRoundTrip(dt: DateTime)
    requires ValidDateTime(dt)
    ensures ParseTimestamp(FormatTimestamp(dt)) == Some(dt)
  {
    PadDigitsRoundTrip(dt.year, 4);
    PadDigitsRoundTrip(dt.month, 2);
    PadDigitsRoundTrip(dt.day, 2);
    PadDigitsRoundTrip(dt.hour, 2);
    PadDigitsRoundTrip(dt.minute, 2);
    PadDigitsRoundTrip(dt.second, 2);
    FormatSlices(dt);
  }

  /** Where each field sits in the canonical rendering. */
  lemma FormatSlices(dt: DateTime)
    requires ValidDateTime(dt)
    ensures var ts := FormatTimestamp(dt);
      && |ts| == 19
      && ts[4] == '-' && ts[7] == '-' && ts[10] == ' ' && ts[13] == ':' && ts[16] == ':'
      && ts[0..4] == PadDigits(dt.year, 4) && ts[5..7] == PadDigits(dt.month, 2)
      && ts[8..10] == PadDigits(dt.day, 2) && ts[11..13] == PadDigits(dt.hour, 2)
      && ts[14..16] == PadDigits(dt.minute, 2) && ts[17..19] == PadDigits(dt.second, 2)
  {
  }

  /** Only canonical renderings parse: a timestamp that parses is exactly the
      rendering of the valid date and time it yields. */
  lemma FormatParseRoundTrip(ts: string)
    requires ParseTimestamp(ts).Some?
    ensures ValidDateTime(ParseTimestamp(ts).value)
    ensures FormatTimestamp(ParseTimestamp(ts).value) == ts
  {
    DigitsValueRoundTrip(ts[0..4]);
    DigitsValueRoundTrip(ts[5..7]);
    DigitsValueRoundTrip(ts[8..10]);
    DigitsValueRoundTrip(ts[11..13]);
    DigitsValueRoundTrip(ts[14..16]);
    DigitsValueRoundTrip(ts[17..19]);
    assert ts == ts[0..4] + "-" + ts[5..7] + "-" + ts[8..10] + " "
               + ts[11..13] + ":" + ts[14..16] + ":" + ts[17..19];
  }

  /** Off-hours 23:00-05:59 score 15, early morning and evening 5, business
      hours 0. */
  function ScoreHour(hour: int): (r: int)
    ensures r in {0, 5, 15}
  {
    if 23 <= hour || hour <= 5 then 15
    else if 6 <= hour <= 8 || 18 <= hour <= 22 then 5
    else 0
  }

  /** Fails open: a timestamp that does not parse scores 0. */
  function ScoreTime(timestamp: string): (r: int)
    ensures r in {0, 5, 15}
  {
    match ParseTimestamp(timestamp)
    case None => 0
    case Some(dt) => ScoreHour(dt.hour)
  }

  lemma TimeScoreBands(timestamp: string)
    ensures ParseTimestamp(timestamp).None? ==> ScoreTime(timestamp) == 0
    ensures ParseTimestamp(timestamp).Some? ==>
      var hour := ParseTimestamp(timestamp).value.hour;
      && 0 <= hour <= 23
      && (hour == 23 || 0 <= hour <= 5 ==> ScoreTime(timestamp) == 15)
      && (6 <= hour <= 8 || 18 <= hour <= 22 ==> ScoreTime(timestamp) == 5)
      && (9 <= hour <= 17 ==> ScoreTime(timestamp) == 0)
  {
  }

  /** The time score of a well-formed timestamp is decided by its hour alone. */
  lemma TimeScoreOfFormatted(dt: DateTime)
    requires ValidDateTime(dt)
    ensures ScoreTime(FormatTimestamp(dt)) == ScoreHour(dt.hour)
  {
    ParseFormatRoundTrip(dt);
  }

  lemma DigitsValueTwo(s: string)
    requires |s| == 2 && AllDigits(s)
    ensures DigitsValue(s) == TwoDigits(s[0], s[1])
  {
    var head := s[..1];
    assert head[..0] == [] && head[0] == s[0];
    assert DigitsValue(head) == s[0] as int - '0' as int;
  }

  /** The number written by two decimal digits. */
  function TwoDigits(a: char, b: char): int
  {
    10 * (a as int - '0' as int) + (b as int - '0' as int)
  }

  lemma DigitsValue2026()
    ensures AllDigits("2026") && DigitsValue("2026") == 2026
  {
    assert "2026"[..3] == "202" && "202"[..2] == "20" && "20"[..1] == "2" && "2"[..0] == [];
  }

  /** A time d1d2 February 2026 at h1h2:m1m2:00 scores by its hour when that
      day and time exist, and 0 when they do not. */
  lemma TimeScoreInFebruary(d1: char, d2: char, h1: char, h2: char, m1: char, m2: char)
    requires IsDigit(d1) && IsDigit(d2) && IsDigit(h1) && IsDigit(h2) && IsDigit(m1) && IsDigit(m2)
    ensures var ts := "2026-02-" + [d1, d2] + " " + [h1, h2] + ":" + [m1, m2] + ":00";
      var day, hour, minute := TwoDigits(d1, d2), TwoDigits(h1, h2), TwoDigits(m1, m2);
      ScoreTime(ts) == if 1 <= day <= 28 && hour <= 23 && minute <= 59 then ScoreHour(hour) else 0
  {
    var ts := "2026-02-" + [d1, d2] + " " + [h1, h2] + ":" + [m1, m2] + ":00";
    assert ts[0..4] == "2026" && ts[5..7] == "02" && ts[8..10] == [d1, d2];
    assert ts[11..13] == [h1, h2] && ts[14..16] == [m1, m2] && ts[17..19] == "00";
    assert ts[4] == '-' && ts[7] == '-' && ts[10] == ' ' && ts[13] == ':' && ts[16] == ':';
    DigitsValue2026();
    DigitsValueTwo("02");
    DigitsValueTwo("00");
    DigitsValueTwo([d1, d2]);
    DigitsValueTwo([h1, h2]);
    DigitsValueTwo([m1, m2]);
    assert !IsLeapYear(2026);
  }

  lemma TimeScoreExamples()
    ensures ScoreTime("2026-02-27 02:30:00") == 15
    ensures ScoreTime("2026-02-27 07:00:00") == 5
    ensures ScoreTime("2026-02-27 12:00:00") == 0
  {
    TimeScoreInFebruary('2', '7', '0', '2', '3', '0');
    assert "2026-02-" + ['2', '7'] + " " + ['0', '2'] + ":" + ['3', '0'] + ":00" == "2026-02-27 02:30:00";
    TimeScoreInFebruary('2', '7', '0', '7', '0', '0');
    assert "2026-02-" + ['2', '7'] + " " + ['0', '7'] + ":" + ['0', '0'] + ":00" == "2026-02-27 07:00:00";
    TimeScoreInFebruary('2', '7', '1', '2', '0', '0');
    assert "2026-02-" + ['2', '7'] + " " + ['1', '2'] + ":" + ['0', '0'] + ":00" == "2026-02-27 12:00:00";
  }

  /** A date that does not exist fails to parse and scores 0, as does text
      that is not a timestamp at all. */
  lemma TimeScoreFailsOpen()
    ensures ScoreTime("2026-02-30 02:30:00") == 0
    ensures ScoreTime("yesterday") == 0
  {
    TimeScoreInFebruary('3', '0', '0', '2', '3', '0');
    assert "2026-02-" + ['3', '0'] + " " + ['0', '2'] + ":" + ['3', '0'] + ":00" == "2026-02-30 02:30:00";
  }

  // ---------------------------------------------------------------------
  // Total score and label

  datatype Breakdown = Breakdown(severity: int, frequency: int, host: int, time: int)

  datatype RiskScore = RiskScore(total: int, breakdown: Breakdown)

  function Min(a: int, b: int): int
  {
    if a <= b then a else b
  }

  function CalculateRiskScore(severity: string, frequency: int, hostname: string, timestamp: string): (r: RiskScore)
    ensures r.breakdown.severity == ScoreSeverity(severity)
    ensures r.breakdown.frequency == ScoreFrequency(frequency)
    ensures r.breakdown.host == ScoreHost(hostname)
    ensures r.breakdown.time == ScoreTime(timestamp)
    ensures var sum := r.breakdown.severity + r.breakdown.frequency + r.breakdown.host + r.breakdown.time;
      r.total <= 100 && r.total <= sum && (r.total == 100 || r.total == sum)
    ensures 15 <= r.total <= 100
  {
    var severityScore := ScoreSeverity(severity);
    var frequencyScore := ScoreFrequency(frequency);
    var hostScore := ScoreHost(hostname);
    var timeScore := ScoreTime(timestamp);
    var total := severityScore + frequencyScore + hostScore + timeScore;
    RiskScore(Min(total, 100), Breakdown(severityScore, frequencyScore, hostScore, timeScore))
  }

  function RiskLabel(score: int): (r: string)
    ensures r in {"CRITICAL", "HIGH RISK", "MEDIUM RISK", "LOW RISK"}
  {
    if score >= 80 then "CRITICAL"
    else if score >= 60 then "HIGH RISK"
    else if score >= 40 then "MEDIUM RISK"
    else "LOW RISK"
  }

  /** How severe a label is, from LOW RISK (0) to CRITICAL (3). */
  function LabelRank(name: string): nat
  {
    if name == "CRITICAL" then 3
    else if name == "HIGH RISK" then 2
    else if name == "MEDIUM RISK" then 1
    else 0
  }

  lemma RiskLabelBands(score: int)
    ensures 80 <= score ==> RiskLabel(score) == "CRITICAL"
    ensures 60 <= score < 80 ==> RiskLabel(score) == "HIGH RISK"
    ensures 40 <= score < 60 ==> RiskLabel(score) == "MEDIUM RISK"
    ensures score < 40 ==> RiskLabel(score) == "LOW RISK"
  {
  }

  /** A higher score never yields a less severe label. */
  lemma RiskLabelMonotone(lower: int, higher: int)
    requires lower <= higher
    ensures LabelRank(RiskLabel(lower)) <= LabelRank(RiskLabel(higher))
  {
  }

  /** The worked example: a HIGH alert seen 25 times on a domain controller at
      02:30 sums to 110, is capped to 100 and labelled CRITICAL. */
  lemma WorkedExample()
    ensures var r := CalculateRiskScore("HIGH", 25, "SRV-DC01", "2026-02-27 02:30:00");
      && r.breakdown == Breakdown(50, 25, 20, 15)
      && r.total == 100
      && RiskLabel(r.total) == "CRITICAL"
  {
    HostScoreExamples();
    TimeScoreExamples();
  }
}
