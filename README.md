# Behavioural baseline detector — verified model of the detection core

This project models, in Dafny, the three pieces of the behavioural-detection lab that hold
real logic:

- **Baseline builder** (`Utils`, from `app/utils.py`): an occurrence counter over
  (parent process, child process) pairs, read with a default of 0 for pairs never seen.
  `BuildBaseline` is the source's loop over the records, bumping one count per record; it is
  proved to return `BaselineOf(logs)`, the table holding each seen pair's multiplicity.
- **Signature matcher and deduplicator** (`Detector`, from `app/detector.py`): the fixed
  five-entry `KnownSuspicious` table, the `Detect` method with its two loops (match and build
  alerts, then keep the first alert per (hostname, parent, child) key with a `seen` set), and
  the order in which the alert report lists alerts (HIGH alerts first, then by hostname,
  stable). `Detect` is proved equal to `Detected = Dedup(Matches(...))`, and the lemmas
  characterise that output exactly: the alerts of the records that are the first matching
  record of their key, in log order.
- **Risk scorer** (`RiskScorer`, from `app/risk_scorer.py`): the four sub-scores (severity
  lookup, U-shaped frequency bands, case-insensitive server-keyword search in the hostname,
  hour-of-day bands with a fail-open timestamp parse), the total capped at 100, and the label
  bands.

Log records are the `Logs.LogRecord` datatype with the four string fields the core reads.
Strings are `seq<char>`; integers are Dafny's unbounded `int`, like the source's.

Two facts about the code shape the model:

- `print_alerts` orders alerts by the key (severity is not "HIGH", hostname) at
  `app/detector.py:77`; no risk score is computed there. `Detector.DisplayOrder` models that key.
- `detect` never calls `calculate_risk_score`, so `Detector.Alert` has no score, label or
  breakdown fields; `RiskScorer.CalculateRiskScore` is a separate function of (severity,
  frequency, hostname, timestamp), as in the source.

## Model

| member | source | states |
|---|---|---|
| `Utils.BuildBaseline` | app/utils.py:18-23 | the loop returns exactly one entry per pair that occurs, holding that pair's number of occurrences; every read with default 0 equals the pair's multiplicity in the records |
| `Utils.BaselineLookup` | app/utils.py:19-22 | reading any pair from the baseline gives its number of occurrences, and a pair never seen reads as 0 |
| `Utils.BaselineKeys` | app/utils.py:20-22 | every stored key occurs in some record and has a count of at least 1 |
| `Utils.BaselineStep` | app/utils.py:20-22 | processing one more record increments that record's pair count by one and leaves all other counts unchanged |
| `Utils.BaselineOrderIndependent` | app/utils.py:18-23 | two record sequences that are permutations of each other give the same baseline |
| `Utils.BaselineTotal` | app/utils.py:20-22 | the counts of the baseline sum to the number of records |
| `RiskScorer.ScoreSeverity` | app/risk_scorer.py:14-21 | the severity score is one of 0, 10, 30, 50 |
| `RiskScorer.SeverityScoreValues` | app/risk_scorer.py:14-21 | HIGH scores 50, MEDIUM 30, LOW 10, and any other label 0 |
| `RiskScorer.ScoreFrequency` | app/risk_scorer.py:23-37 | the frequency score is one of 10, 15, 20, 25 |
| `RiskScorer.FrequencyScoreBands` | app/risk_scorer.py:23-37 | 20 and over scores 25, 10 to 19 scores 20, 5 to 9 scores 15, exactly 1 scores 20, and 0, 2, 3, 4 and negatives score 10 |
| `RiskScorer.Upper` | app/risk_scorer.py:44 | upper-casing keeps the length, leaves no ASCII lower-case letter, turns each lower-case letter into its capital, leaves every other character as it is, and so differs from its input only in letter case |
| `RiskScorer.ContainsIff` | app/risk_scorer.py:46 | the substring test holds exactly when the keyword occurs at some position of the name |
| `RiskScorer.AnyKeywordInIff` | app/risk_scorer.py:45-48 | the early-exit keyword loop succeeds exactly when some keyword of the list occurs somewhere in the name |
| `RiskScorer.ScoreHost` | app/risk_scorer.py:39-48 | the host score is 5 or 20 |
| `RiskScorer.HostScoreIff` | app/risk_scorer.py:39-48 | a host scores 20 exactly when its upper-cased name contains one of SRV, DC, SERVER, DOMAIN, and 5 otherwise |
| `RiskScorer.HostScoreIgnoresCase` | app/risk_scorer.py:44 | two hostnames that differ only in letter case get the same host score |
| `RiskScorer.HostScoreExamples` | app/risk_scorer.py:39-48 | "SRV-DC01" and "srv-dc01" score 20, "WKSTN-001" scores 5 |
| `RiskScorer.ParseTimestamp` | app/risk_scorer.py:55 | a timestamp that parses has 19 characters with the separators of "YYYY-MM-DD HH:MM:SS", names a valid date and time (a month's real days, leap years included; hour 0-23, minute and second 0-59), and its hour is the number written in characters 11-12 (counting from 0) |
| `RiskScorer.ParseFormatRoundTrip` | app/risk_scorer.py:55 | parsing the canonical "YYYY-MM-DD HH:MM:SS" rendering of any valid date and time gives it back |
| `RiskScorer.FormatParseRoundTrip` | app/risk_scorer.py:55 | a timestamp that parses names a valid date and time and is exactly its canonical rendering |
| `RiskScorer.ScoreHour` | app/risk_scorer.py:56-61 | the score of an hour is one of 0, 5, 15 |
| `RiskScorer.ScoreTime` | app/risk_scorer.py:50-63 | the time score is one of 0, 5, 15 |
| `RiskScorer.TimeScoreBands` | app/risk_scorer.py:50-63 | an unparseable timestamp scores 0; otherwise the hour lies in 0..23, and hours 23 and 0..5 score 15, 6..8 and 18..22 score 5, 9..17 score 0 |
| `RiskScorer.TimeScoreOfFormatted` | app/risk_scorer.py:54-61 | the time score of any well-formed timestamp is decided by its hour alone |
| `RiskScorer.TimeScoreInFebruary` | app/risk_scorer.py:50-63 | any "2026-02-DD HH:MM:00" with two-digit fields scores by its hour when day 1-28 of February 2026, hour 0-23 and minute 0-59 exist, and 0 otherwise |
| `RiskScorer.TimeScoreExamples` | app/risk_scorer.py:50-61 | 02:30 scores 15, 07:00 scores 5, 12:00 scores 0 |
| `RiskScorer.TimeScoreFailsOpen` | app/risk_scorer.py:54-63 | a nonexistent date (30 February) and text that is not a timestamp both score 0 |
| `RiskScorer.CalculateRiskScore` | app/risk_scorer.py:65-84 | each breakdown field is its sub-score, the total is the sum capped at 100, and the total lies between 15 and 100 |
| `RiskScorer.RiskLabel` | app/risk_scorer.py:86-94 | the label is one of CRITICAL, HIGH RISK, MEDIUM RISK, LOW RISK |
| `RiskScorer.RiskLabelBands` | app/risk_scorer.py:86-94 | 80 and over is CRITICAL, 60 to 79 HIGH RISK, 40 to 59 MEDIUM RISK, below 40 LOW RISK |
| `RiskScorer.RiskLabelMonotone` | app/risk_scorer.py:86-94 | a higher score never gets a less severe label |
| `RiskScorer.WorkedExample` | app/risk_scorer.py:96-105 | HIGH, frequency 25, host SRV-DC01 at 02:30 gives the breakdown 50, 25, 20, 15, a total capped to 100, and the label CRITICAL |
| `Detector.MakeAlert` | app/detector.py:43-54 | an alert carries its record's timestamp, hostname, parent and child, and the reason, MITRE id and severity of its pair's table entry |
| `Detector.Detect` | app/detector.py:34-66 | the two loops return exactly `Detected(logs, baseline)`, the matched alerts with later duplicates of a key removed |
| `Detector.DetectedIsFirstOfKey` | app/detector.py:37-64 | the output is, in increasing log position, the alert of every record that matches the table and has no earlier matching record with its (hostname, parent, child) key; its keys are exactly the keys of the matching records |
| `Detector.DetectedOnlyKnownPairs` | app/detector.py:42 | every alert's (parent, child) pair is a key of the signature table, so other pairs never raise alerts |
| `Detector.DetectedAlertFields` | app/detector.py:43-54 | each alert copies timestamp, hostname, parent and child from a log record and reason, MITRE id and severity from its pair's table entry; its frequency is the baseline read for the pair, and its note is the campaign note exactly when the frequency exceeds 15 |
| `Detector.DetectedNoDuplicateKeys` | app/detector.py:57-64 | no two alerts share a (hostname, parent, child) key |
| `Detector.DetectedComplete` | app/detector.py:37-64 | every matching record's key appears among the alerts, no alert has any other key, and there are no more alerts than records |
| `Detector.DuplicateKeepsEarliest` | app/detector.py:57-64 | in a log made of exactly two matching records with the same key, only the alert of the first survives |
| `Detector.LaterDuplicateDropped` | app/detector.py:57-64 | in any log, a matching record that has an earlier matching record with its key is not a first-of-key record; the only alert with that key is the alert of the first matching record of the key, which lies at or before the earlier one |
| `Detector.DetectedFrequencyCountsPair` | app/detector.py:52 | with the baseline built from the same records, each alert's frequency is its pair's number of occurrences, hence at least 1 |
| `Detector.DisplayOrder` | app/detector.py:77 | in display order every HIGH alert comes before every other alert, within each group hostnames are in ascending string order, and the result is a permutation of the alerts |
| `Detector.DisplayOrderStable` | app/detector.py:77 | alerts with the same display key keep their relative order |

## Left out

- Reading and writing the log file (`load_logs`, `save_logs`) and generating synthetic logs
  (`generate_logs`): file I/O, random sampling and the wall clock. The records are a parameter.
- The top-level orchestration in `app/main.py` and the console output of `print_baseline` and
  `print_alerts`; of the latter only the sort key at `app/detector.py:77` is modelled.
- The `is_suspicious` column of a record: the core never reads it.
- `RiskScorer.ScoreTime`: the timestamp parse accepts only the fixed-width
  "YYYY-MM-DD HH:MM:SS" shape (with real calendar and clock validation). The source's
  `strptime` also accepts looser spellings: single-digit fields, a space-padded day such as
  `" 7"`, any run of whitespace where the format has a space, and non-ASCII decimal digits
  (its digit pattern is Unicode-aware). Those score 0 here instead of by their hour.
- `RiskScorer.ScoreHost`: upper-casing is ASCII only; the source's Unicode case mapping of
  non-ASCII letters is not modelled.
- `Detector.Detect`: the baseline is read with a default of 0; the side effect of the source's
  `defaultdict`, which inserts a 0 entry for a pair read but never counted, is not modelled.
  Reads of a baseline built from the same records never hit that case.
- `Detector.DisplayOrder`: the display order is specified by a stable insertion sort;
  the source uses the language's built-in stable sort. Any two stable sorts on the same key
  give the same result, but that uniqueness is not itself proved here.
