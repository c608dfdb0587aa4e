/** The signature matcher: records whose (parent, child) pair is one of five
    known-bad relationships become alerts, annotated with the pair's baseline
    frequency and deduplicated per (host, parent, child); plus the order in
    which alerts are displayed. */
module Detector {
  import opened Logs
  import Utils

  // ---------------------------------------------------------------------
  // The signature table

  /** What is known about a suspicious pair: why it is bad, the MITRE ATT&CK
      technique it maps to, and a base severity. */
  datatype Threat = Threat(reason: string, mitre: string, severity: string)

  const KnownSuspicious: map<Pair, Threat> := map[
    ("winword.exe", "powershell.exe") := Threat(
      "Word launching PowerShell — common macro-based attack",
      "T1566.001 — Phishing: Malicious Office Document",
      "HIGH"),
    ("excel.exe", "cmd.exe") := Threat(
      "Excel launching CMD — malicious macro execution",
      "T1059.003 — Command and Scripting: Windows CMD",
      "HIGH"),
    ("outlook.exe", "powershell.exe") := Threat(
      "Outlook launching PowerShell — phishing email execution",
      "T1566.001 — Phishing: Malicious Office Document",
      "HIGH"),
    ("powershell.exe", "cmd.exe") := Threat(
      "PowerShell spawning CMD — evasion or lateral movement",
      "T1059.001 — Command and Scripting: PowerShell",
      "MEDIUM"),
    ("svchost.exe", "powershell.exe") := Threat(
      "Service launching PowerShell — potential lateral movement",
      "T1036 — Masquerading",
      "MEDIUM")
  ]

  const WidespreadNote: string := "Widespread — possible campaign"
  const LowFrequencyNote: string := "Low frequency — targeted or stealthy"

  // ---------------------------------------------------------------------
  // Alerts

  datatype Alert = Alert(
    timestamp: string,
    hostname: string,
    parentProcess: string,
    childProcess: string,
    reason: string,
    mitre: string,
    severity: string,
    frequency: int,
    frequencyNote: string)

  /** Alerts are deduplicated on host and process pair. */
  type AlertKey = (string, string, string)

  function KeyOf(a: Alert): AlertKey
  {
    (a.hostname, a.parentProcess, a.childProcess)
  }

  function RecordKey(r: LogRecord): AlertKey
  {
    (r.hostname, r.parentProcess, r.childProcess)
  }

  function KeysOf(alerts: seq<Alert>): set<AlertKey>
  {
    set i | 0 <= i < |alerts| :: KeyOf(alerts[i])
  }

  predicate IsKnownSuspicious(r: LogRecord)
  {
    PairOf(r) in KnownSuspicious
  }

  /** The alert raised for a matching record. */
  function MakeAlert(r: LogRecord, baseline: map<Pair, int>): (a: Alert)
    requires IsKnownSuspicious(r)
    ensures KeyOf(a) == RecordKey(r) && a.timestamp == r.timestamp
    ensures a.reason == KnownSuspicious[PairOf(r)].reason
    ensures a.mitre == KnownSuspicious[PairOf(r)].mitre
    ensures a.severity == KnownSuspicious[PairOf(r)].severity
  {
    var threat := KnownSuspicious[PairOf(r)];
    var frequency := Utils.Lookup(baseline, PairOf(r));
    Alert(r.timestamp, r.hostname, r.parentProcess, r.childProcess,
          threat.reason, threat.mitre, threat.severity,
          frequency, if frequency > 15 then WidespreadNote else LowFrequencyNote)
  }

  // ---------------------------------------------------------------------
  // What detection computes

  /** One alert per matching record, in log order. */
  function Matches(logs: seq<LogRecord>, baseline: map<Pair, int>): seq<Alert>
  {
    if logs == [] then []
    else
      var last := logs[|logs| - 1];
      Matches(logs[..|logs| - 1], baseline)
      + (if IsKnownSuspicious(last) then [MakeAlert(last, baseline)] else [])
  }

  /** Keeps an alert only when no earlier alert has its key. */
  function Dedup(alerts: seq<Alert>): seq<Alert>
  {
    if alerts == [] then []
    else
      var kept := Dedup(alerts[..|alerts| - 1]);
      var last := alerts[|alerts| - 1];
      if KeyOf(last) in KeysOf(kept) then kept else kept + [last]
  }

  function Detected(logs: seq<LogRecord>, baseline: map<Pair, int>): seq<Alert>
  {
    Dedup(Matches(logs, baseline))
  }

  /** Runs the signature table over the records, then drops every alert whose
      (host, parent, child) key was already reported. */
  method Detect(logs: seq<LogRecord>, baseline: map<Pair, int>) returns (uniqueAlerts: seq<Alert>)
    ensures uniqueAlerts == Detected(logs, baseline)
  {
    var alerts: seq<Alert> := [];
    for i := 0 to |logs|
      invariant alerts == Matches(logs[..i], baseline)
    {
      var log := logs[i];
      var pair := (log.parentProcess, log.childProcess);
      assert logs[..i + 1][..i] == logs[..i];
      if pair in KnownSuspicious {
        var threat := KnownSuspicious[pair];
        var frequency := Utils.Lookup(baseline, pair);
        var alert := Alert(log.timestamp, log.hostname, log.parentProcess, log.childProcess,
                           threat.reason, threat.mitre, threat.severity, frequency,
                           if frequency > 15 then WidespreadNote else LowFrequencyNote);
        assert alert == MakeAlert(log, baseline);
        alerts := alerts + [alert];
      }
    }
    assert logs[..|logs|] == logs;

    var seen: set<AlertKey> := {};
    uniqueAlerts := [];
    for i := 0 to |alerts|
      invariant uniqueAlerts == Dedup(alerts[..i])
      invariant seen == KeysOf(uniqueAlerts)
    {
      var alert := alerts[i];
      var key := (alert.hostname, alert.parentProcess, alert.childProcess);
      assert alerts[..i + 1][..i] == alerts[..i];
      assert key == KeyOf(alert);
      assert Dedup(alerts[..i + 1])
          == if key in KeysOf(uniqueAlerts) then uniqueAlerts else uniqueAlerts + [alert];
      if key !in seen {
        KeysOfAppend(uniqueAlerts, alert);
        seen := seen + {key};
        uniqueAlerts := uniqueAlerts + [alert];
      }
    }
    assert alerts[..|alerts|] == alerts;
  }

  lemma KeysOfAppend(alerts: seq<Alert>, a: Alert)
    ensures KeysOf(alerts + [a]) == KeysOf(alerts) + {KeyOf(a)}
  {
    var s := alerts + [a];
    forall k | k in KeysOf(s) ensures k in KeysOf(alerts) + {KeyOf(a)} {
      var i :| 0 <= i < |s| && KeyOf(s[i]) == k;
      if i < |alerts| { assert KeyOf(alerts[i]) == k; }
    }
    forall k | k in KeysOf(alerts) ensures k in KeysOf(s) {
      var i :| 0 <= i < |alerts| && KeyOf(alerts[i]) == k;
      assert KeyOf(s[i]) == k;
    }
    assert KeyOf(s[|alerts|]) == KeyOf(a);
  }

  // ---------------------------------------------------------------------
  // The first matching record of each key

  /** Record `i` matches the table and no earlier matching record has its
      (host, parent, child) key. */
  predicate IsFirstOfKey(logs: seq<LogRecord>, i: int)
  {
    && 0 <= i < |logs|
    && IsKnownSuspicious(logs[i])
    && forall j :: 0 <= j < i && IsKnownSuspicious(logs[j]) ==> RecordKey(logs[j]) != RecordKey(logs[i])
  }

  /** The positions of those records, in increasing order. */
  function FirstOfKeyIndices(logs: seq<LogRecord>): seq<int>
  {
    if logs == [] then []
    else
      FirstOfKeyIndices(logs[..|logs| - 1])
      + (if IsFirstOfKey(logs, |logs| - 1) then [|logs| - 1] else [])
  }

  /** The keys of all matching records. */
  function MatchedKeys(logs: seq<LogRecord>): set<AlertKey>
  {
    set i | 0 <= i < |logs| && IsKnownSuspicious(logs[i]) :: RecordKey(logs[i])
  }

  /** How the matched keys and the first-of-key positions change when one
      record is appended. */
  lemma MatchedKeysStep(logs: seq<LogRecord>)
    requires logs != []
    ensures var init, last := logs[..|logs| - 1], logs[|logs| - 1];
      MatchedKeys(logs)
      == MatchedKeys(init) + (if IsKnownSuspicious(last) then {RecordKey(last)} else {})
    ensures var last := logs[|logs| - 1];
      IsFirstOfKey(logs, |logs| - 1)
      <==> IsKnownSuspicious(last) && RecordKey(last) !in MatchedKeys(logs[..|logs| - 1])
    ensures forall i :: 0 <= i < |logs| - 1 ==> (IsFirstOfKey(logs[..|logs| - 1], i) <==> IsFirstOfKey(logs, i))
  {
  }

  /** The first-of-key positions are in range, increasing, and complete. */
  lemma {:induction false} FirstOfKeyIndicesFacts(logs: seq<LogRecord>)
    ensures var idx := FirstOfKeyIndices(logs);
      && |idx| <= |logs|
      && (forall k :: 0 <= k < |idx| ==> IsFirstOfKey(logs, idx[k]))
      && (forall k1, k2 :: 0 <= k1 < k2 < |idx| ==> idx[k1] < idx[k2])
      && (forall i :: IsFirstOfKey(logs, i) ==> i in idx)
  {
    if logs != [] {
      var n := |logs|;
      var init := logs[..n - 1];
      FirstOfKeyIndicesFacts(init);
      MatchedKeysStep(logs);
      var idx0, idx := FirstOfKeyIndices(init), FirstOfKeyIndices(logs);
      if IsFirstOfKey(logs, n - 1) {
        assert idx == idx0 + [n - 1];
        forall k | 0 <= k < |idx| ensures IsFirstOfKey(logs, idx[k]) {
          if k < |idx0| { assert idx[k] == idx0[k] && IsFirstOfKey(init, idx0[k]); }
        }
        forall k1, k2 | 0 <= k1 < k2 < |idx| ensures idx[k1] < idx[k2] {
          assert idx[k1] == idx0[k1] && IsFirstOfKey(init, idx0[k1]);
          if k2 < |idx0| { assert idx[k2] == idx0[k2]; }
        }
        forall i | IsFirstOfKey(logs, i) ensures i in idx {
          if i < n - 1 { assert IsFirstOfKey(init, i); }
        }
      } else {
        assert idx == idx0;
        forall k | 0 <= k < |idx| ensures IsFirstOfKey(logs, idx[k]) {
          assert IsFirstOfKey(init, idx0[k]);
        }
        forall i | IsFirstOfKey(logs, i) ensures i in idx {
          assert IsFirstOfKey(init, i);
        }
      }
    }
  }

  /** The output of detection, exactly: the alert of each record that is the
      first matching record of its key, in log order. */
  lemma {:induction false} DetectedIsFirstOfKey(logs: seq<LogRecord>, baseline: map<Pair, int>)
    ensures var out, idx := Detected(logs, baseline), FirstOfKeyIndices(logs);
      && |out| == |idx| <= |logs|
      && (forall k :: 0 <= k < |idx| ==> IsFirstOfKey(logs, idx[k]))
      && (forall k :: 0 <= k < |idx| ==> out[k] == MakeAlert(logs[idx[k]], baseline))
      && (forall k1, k2 :: 0 <= k1 < k2 < |idx| ==> idx[k1] < idx[k2])
      && (forall i :: IsFirstOfKey(logs, i) ==> i in idx)
      && KeysOf(out) == MatchedKeys(logs)
  {
    FirstOfKeyIndicesFacts(logs);
    if logs != [] {
      var n := |logs|;
      var init, last := logs[..n - 1], logs[n - 1];
      DetectedIsFirstOfKey(init, baseline);
      MatchedKeysStep(logs);
      DetectedStep(logs, baseline);
      var out0, idx0 := Detected(init, baseline), FirstOfKeyIndices(init);
      var out, idx := Detected(logs, baseline), FirstOfKeyIndices(logs);
      if IsFirstOfKey(logs, n - 1) {
        var a := MakeAlert(last, baseline);
        assert out == out0 + [a] && idx == idx0 + [n - 1];
        KeysOfAppend(out0, a);
        forall k | 0 <= k < |idx| ensures out[k] == MakeAlert(logs[idx[k]], baseline) {
          if k < |idx0| {
            assert out[k] == out0[k] && idx[k] == idx0[k] && IsFirstOfKey(init, idx0[k]);
          } else {
            assert k == |out0|;
            assert out[k] == a && idx[k] == n - 1;
          }
        }
      } else {
        assert out == out0 && idx == idx0;
        forall k | 0 <= k < |idx| ensures out[k] == MakeAlert(logs[idx[k]], baseline) {
          assert IsFirstOfKey(init, idx0[k]);
        }
      }
    }
  }

  /** One more record adds its alert exactly when it is the first matching
      record of its key. */
  lemma DetectedStep(logs: seq<LogRecord>, baseline: map<Pair, int>)
    requires logs != []
    requires KeysOf(Detected(logs[..|logs| - 1], baseline)) == MatchedKeys(logs[..|logs| - 1])
    ensures var init, last := logs[..|logs| - 1], logs[|logs| - 1];
      Detected(logs, baseline)
      == if IsFirstOfKey(logs, |logs| - 1) then Detected(init, baseline) + [MakeAlert(last, baseline)]
         else Detected(init, baseline)
  {
    var init, last := logs[..|logs| - 1], logs[|logs| - 1];
    MatchedKeysStep(logs);
    var m := Matches(init, baseline);
    var d := Dedup(m);
    if IsKnownSuspicious(last) {
      var a := MakeAlert(last, baseline);
      assert Matches(logs, baseline) == m + [a];
      assert (m + [a])[..|m|] == m;
    } else {
      assert Matches(logs, baseline) == m;
    }
  }

  // ---------------------------------------------------------------------
  // Properties of detection

  /** Only pairs of the signature table ever raise an alert. */
  lemma DetectedOnlyKnownPairs(logs: seq<LogRecord>, baseline: map<Pair, int>)
    ensures forall a :: a in Detected(logs, baseline) ==> (a.parentProcess, a.childProcess) in KnownSuspicious
  {
    DetectedIsFirstOfKey(logs, baseline);
  }

  /** Each alert copies its record's fields and its pair's table entry, and
      carries the pair's baseline count with the matching note. */
  lemma DetectedAlertFields(logs: seq<LogRecord>, baseline: map<Pair, int>)
    ensures forall a :: a in Detected(logs, baseline) ==>
      && (exists i :: 0 <= i < |logs|
            && a.timestamp == logs[i].timestamp && a.hostname == logs[i].hostname
            && a.parentProcess == logs[i].parentProcess && a.childProcess == logs[i].childProcess)
      && (a.parentProcess, a.childProcess) in KnownSuspicious
      && a.reason == KnownSuspicious[(a.parentProcess, a.childProcess)].reason
      && a.mitre == KnownSuspicious[(a.parentProcess, a.childProcess)].mitre
      && a.severity == KnownSuspicious[(a.parentProcess, a.childProcess)].severity
      && a.frequency == Utils.Lookup(baseline, (a.parentProcess, a.childProcess))
      && (a.frequencyNote == WidespreadNote <==> a.frequency > 15)
      && (a.frequencyNote == LowFrequencyNote <==> a.frequency <= 15)
  {
    DetectedIsFirstOfKey(logs, baseline);
    var out, idx := Detected(logs, baseline), FirstOfKeyIndices(logs);
    forall a | a in out
      ensures exists i ::
        && 0 <= i < |logs|
        && a.timestamp == logs[i].timestamp && a.hostname == logs[i].hostname
        && a.parentProcess == logs[i].parentProcess && a.childProcess == logs[i].childProcess
    {
      var k :| 0 <= k < |out| && out[k] == a;
      assert IsFirstOfKey(logs, idx[k]);
    }
  }

  /** No two alerts share a (host, parent, child) key. */
  lemma DetectedNoDuplicateKeys(logs: seq<LogRecord>, baseline: map<Pair, int>)
    ensures var out := Detected(logs, baseline);
      forall k1, k2 :: 0 <= k1 < k2 < |out| ==> KeyOf(out[k1]) != KeyOf(out[k2])
  {
    DetectedIsFirstOfKey(logs, baseline);
    var out, idx := Detected(logs, baseline), FirstOfKeyIndices(logs);
    forall k1, k2 | 0 <= k1 < k2 < |out| ensures KeyOf(out[k1]) != KeyOf(out[k2]) {
      assert IsFirstOfKey(logs, idx[k2]);
      assert IsKnownSuspicious(logs[idx[k1]]);
    }
  }

  /** Every matching record is represented by an alert with its key, and no
      alert has a key that no matching record has. */
  lemma DetectedComplete(logs: seq<LogRecord>, baseline: map<Pair, int>)
    ensures forall i ::
      0 <= i < |logs| && IsKnownSuspicious(logs[i]) ==> RecordKey(logs[i]) in KeysOf(Detected(logs, baseline))
    ensures KeysOf(Detected(logs, baseline)) <= MatchedKeys(logs)
    ensures |Detected(logs, baseline)| <= |logs|
  {
    DetectedIsFirstOfKey(logs, baseline);
  }

  /** Of two matching records with the same key, only the earlier is kept. */
  lemma DuplicateKeepsEarliest(first: LogRecord, second: LogRecord, baseline: map<Pair, int>)
    requires IsKnownSuspicious(first)
    requires RecordKey(first) == RecordKey(second)
    ensures Detected([first, second], baseline) == [MakeAlert(first, baseline)]
  {
    var logs := [first, second];
    assert logs[..1] == [first];
    assert [first][..0] == [];
    var a := MakeAlert(first, baseline);
    assert Matches([first], baseline) == [a];
    assert Matches(logs, baseline) == [a, MakeAlert(second, baseline)];
    assert [a, MakeAlert(second, baseline)][..1] == [a];
    assert Dedup([a]) == [a] by { assert [a][..0] == []; }
    assert KeyOf(a) in KeysOf([a]) by { assert KeyOf([a][0]) == KeyOf(a); }
  }

  /** In any log, a matching record with an earlier matching record of the
      same key raises no alert of its own: the only alert with that key is
      the alert of the first matching record of the key, which comes no later
      than the earlier one. */
  lemma LaterDuplicateDropped(logs: seq<LogRecord>, baseline: map<Pair, int>, i: int, j: int)
    requires 0 <= i < j < |logs|
    requires IsKnownSuspicious(logs[i]) && RecordKey(logs[i]) == RecordKey(logs[j])
    ensures !IsFirstOfKey(logs, j)
    ensures exists f ::
      && 0 <= f <= i && IsFirstOfKey(logs, f) && RecordKey(logs[f]) == RecordKey(logs[j])
      && MakeAlert(logs[f], baseline) in Detected(logs, baseline)
      && forall a :: a in Detected(logs, baseline) && KeyOf(a) == RecordKey(logs[j])
           ==> a == MakeAlert(logs[f], baseline)
  {
    DetectedIsFirstOfKey(logs, baseline);
    DetectedNoDuplicateKeys(logs, baseline);
    var out, idx := Detected(logs, baseline), FirstOfKeyIndices(logs);
    var key := RecordKey(logs[i]);
    assert key in MatchedKeys(logs);
    var k :| 0 <= k < |out| && KeyOf(out[k]) == key;
    var f := idx[k];
    assert IsFirstOfKey(logs, f);
    assert f <= i;
    forall a | a in out && KeyOf(a) == key ensures a == MakeAlert(logs[f], baseline) {
      var k' :| 0 <= k' < |out| && out[k'] == a;
      assert k' == k;
    }
  }

  /** With the baseline built from the same records, an alert's frequency is
      the number of records carrying its pair, and so at least 1. */
  lemma DetectedFrequencyCountsPair(logs: seq<LogRecord>)
    ensures forall a :: a in Detected(logs, Utils.BaselineOf(logs)) ==>
      && a.frequency == Utils.Occurrences(logs, (a.parentProcess, a.childProcess))
      && a.frequency >= 1
  {
    var baseline := Utils.BaselineOf(logs);
    DetectedIsFirstOfKey(logs, baseline);
    var out, idx := Detected(logs, baseline), FirstOfKeyIndices(logs);
    forall a | a in out
      ensures a.frequency == Utils.Occurrences(logs, (a.parentProcess, a.childProcess))
      ensures a.frequency >= 1
    {
      var k :| 0 <= k < |out| && out[k] == a;
      var i := idx[k];
      assert IsFirstOfKey(logs, i);
      var p := PairOf(logs[i]);
      Utils.BaselineLookup(logs, p);
      assert p in Utils.PairsSeen(logs);
      Utils.OccurrencesPositive(logs, p);
    }
  }

  // ---------------------------------------------------------------------
  // Display order

  predicate IsHigh(a: Alert)
  {
    a.severity == "HIGH"
  }

  /** String order as Python compares `str` values: by code point, a proper
      prefix first. */
  predicate StrLe(a: string, b: string)
  {
    a == [] || (b != [] && (a[0] < b[0] || (a[0] == b[0] && StrLe(a[1..], b[1..]))))
  }

  /** The sort key (severity is not HIGH, hostname): HIGH alerts first, then
      by hostname. */
  predicate DisplayLe(a: Alert, b: Alert)
  {
    (IsHigh(a) && !IsHigh(b)) || (IsHigh(a) == IsHigh(b) && StrLe(a.hostname, b.hostname))
  }

  predicate DisplaySorted(s: seq<Alert>)
  {
    forall i, j :: 0 <= i < j < |s| ==> DisplayLe(s[i], s[j])
  }

  /** Puts `x` before the first element that is not below it. */
  function InsertByDisplay(x: Alert, s: seq<Alert>): seq<Alert>
  {
    if s == [] then [x]
    else if DisplayLe(x, s[0]) then [x] + s
    else [s[0]] + InsertByDisplay(x, s[1..])
  }

  /** The order in which the alert report lists alerts: a stable sort on the
      display key. */
  function DisplayOrder(alerts: seq<Alert>): (r: seq<Alert>)
    ensures DisplaySorted(r)
    ensures multiset(r) == multiset(alerts)
  {
    if alerts == [] then []
    else
      var rest := DisplayOrder(alerts[1..]);
      InsertByDisplaySorted(alerts[0], rest);
      InsertByDisplayPermutation(alerts[0], rest);
      assert alerts == [alerts[0]] + alerts[1..];
      InsertByDisplay(alerts[0], rest)
  }

  /** The alerts of `s` with a given display key, in their order in `s`. */
  function WithDisplayKey(s: seq<Alert>, high: bool, hostname: string): seq<Alert>
  {
    if s == [] then []
    else
      (if IsHigh(s[0]) == high && s[0].hostname == hostname then [s[0]] else [])
      + WithDisplayKey(s[1..], high, hostname)
  }

  lemma {:induction false} StrLeReflexive(a: string)
    ensures StrLe(a, a)
  {
    if a != [] { StrLeReflexive(a[1..]); }
  }

  lemma {:induction false} StrLeTotal(a: string, b: string)
    ensures StrLe(a, b) || StrLe(b, a)
  {
    if a != [] && b != [] && a[0] == b[0] { StrLeTotal(a[1..], b[1..]); }
  }

  lemma {:induction false} StrLeTransitive(a: string, b: string, c: string)
    requires StrLe(a, b) && StrLe(b, c)
    ensures StrLe(a, c)
  {
    if a != [] && b != [] && c != [] && a[0] == b[0] == c[0] {
      StrLeTransitive(a[1..], b[1..], c[1..]);
    }
  }

  lemma DisplayLeTotal(a: Alert, b: Alert)
    ensures DisplayLe(a, b) || DisplayLe(b, a)
  {
    StrLeTotal(a.hostname, b.hostname);
  }

  lemma DisplayLeTransitive(a: Alert, b: Alert, c: Alert)
    requires DisplayLe(a, b) && DisplayLe(b, c)
    ensures DisplayLe(a, c)
  {
    if IsHigh(a) == IsHigh(b) == IsHigh(c) {
      StrLeTransitive(a.hostname, b.hostname, c.hostname);
    }
  }

  lemma {:induction false} InsertByDisplayPermutation(x: Alert, s: seq<Alert>)
    ensures multiset(InsertByDisplay(x, s)) == multiset(s) + multiset{x}
  {
    if s != [] && !DisplayLe(x, s[0]) {
      InsertByDisplayPermutation(x, s[1..]);
      assert s == [s[0]] + s[1..];
    }
  }

  lemma SortedCons(h: Alert, t: seq<Alert>)
    requires DisplaySorted(t)
    requires forall j :: 0 <= j < |t| ==> DisplayLe(h, t[j])
    ensures DisplaySorted([h] + t)
  {
  }

  /** Inserting an element that lies above `h` into elements that all lie
      above `h` keeps every element above `h`. */
  lemma InsertByDisplayAllAbove(h: Alert, x: Alert, s: seq<Alert>)
    requires DisplayLe(h, x)
    requires forall j :: 0 <= j < |s| ==> DisplayLe(h, s[j])
    ensures forall j :: 0 <= j < |InsertByDisplay(x, s)| ==> DisplayLe(h, InsertByDisplay(x, s)[j])
  {
  }

  lemma {:induction false} InsertByDisplaySorted(x: Alert, s: seq<Alert>)
    requires DisplaySorted(s)
    ensures DisplaySorted(InsertByDisplay(x, s))
  {
    if s == [] {
    } else if DisplayLe(x, s[0]) {
      forall j | 0 <= j < |s| ensures DisplayLe(x, s[j]) {
        if j > 0 { DisplayLeTransitive(x, s[0], s[j]); }
      }
      SortedCons(x, s);
    } else {
      InsertByDisplaySorted(x, s[1..]);
      DisplayLeTotal(x, s[0]);
      InsertByDisplayAllAbove(s[0], x, s[1..]);
      SortedCons(s[0], InsertByDisplay(x, s[1..]));
    }
  }

  lemma {:induction false} InsertByDisplayStable(x: Alert, s: seq<Alert>, high: bool, hostname: string)
    ensures WithDisplayKey(InsertByDisplay(x, s), high, hostname)
         == (if IsHigh(x) == high && x.hostname == hostname then [x] else [])
            + WithDisplayKey(s, high, hostname)
  {
    if s == [] {
      assert [x][1..] == [];
    } else if DisplayLe(x, s[0]) {
      assert ([x] + s)[1..] == s;
    } else {
      var t := InsertByDisplay(x, s[1..]);
      InsertByDisplayStable(x, s[1..], high, hostname);
      var xs := if IsHigh(x) == high && x.hostname == hostname then [x] else [];
      var hs := if IsHigh(s[0]) == high && s[0].hostname == hostname then [s[0]] else [];
      assert ([s[0]] + t)[1..] == t;
      assert WithDisplayKey([s[0]] + t, high, hostname) == hs + (xs + WithDisplayKey(s[1..], high, hostname));
      assert WithDisplayKey(s, high, hostname) == hs + WithDisplayKey(s[1..], high, hostname);
      if xs != [] && hs != [] {
        StrLeReflexive(x.hostname);
        assert false;
      }
    }
  }

  /** Stability: alerts with equal display keys keep their relative order. */
  lemma {:induction false} DisplayOrderStable(alerts: seq<Alert>, high: bool, hostname: string)
    ensures WithDisplayKey(DisplayOrder(alerts), high, hostname) == WithDisplayKey(alerts, high, hostname)
  {
    if alerts != [] {
      DisplayOrderStable(alerts[1..], high, hostname);
      InsertByDisplayStable(alerts[0], DisplayOrder(alerts[1..]), high, hostname);
    }
  }
}
