/** The behavioural baseline: how often each (parent, child) process pair
    occurs in the log set. */
module Utils {
  import opened Logs

  /** The number of records whose pair is `p`: the multiplicity a correct
      counter has to report. */
  function Occurrences(logs: seq<LogRecord>, p: Pair): nat
  {
    if logs == [] then 0
    else (if PairOf(logs[0]) == p then 1 else 0) + Occurrences(logs[1..], p)
  }

  /** The pairs that occur in at least one record. */
  function PairsSeen(logs: seq<LogRecord>): set<Pair>
  {
    set i | 0 <= i < |logs| :: PairOf(logs[i])
  }

  /** A read of the counter; like a `defaultdict(int)`, a pair never counted
      reads as 0. */
  function Lookup(baseline: map<Pair, int>, p: Pair): int
  {
    if p in baseline then baseline[p] else 0
  }

  /** The table the counter holds after all of `logs`: one entry per pair
      seen, holding that pair's multiplicity. */
  function BaselineOf(logs: seq<LogRecord>): map<Pair, int>
  {
    map p | p in PairsSeen(logs) :: Occurrences(logs, p)
  }

  /** Builds the baseline by walking the records once and bumping the count
      of each record's pair. */
  method BuildBaseline(logs: seq<LogRecord>) returns (baseline: map<Pair, int>)
    ensures baseline == BaselineOf(logs)
    ensures forall p :: Lookup(baseline, p) == Occurrences(logs, p)
  {
    baseline := map[];
    var i := 0;
    while i < |logs|
      invariant i <= |logs|
      invariant baseline == BaselineOf(logs[..i])
    {
      var pair := (logs[i].parentProcess, logs[i].childProcess);
      BaselineStep(logs[..i], logs[i]);
      assert logs[..i + 1] == logs[..i] + [logs[i]];
      baseline := baseline[pair := Lookup(baseline, pair) + 1];
      i := i + 1;
    }
    assert logs[..i] == logs;
    forall p ensures Lookup(baseline, p) == Occurrences(logs, p) {
      BaselineLookup(logs, p);
    }
  }

  // ---------------------------------------------------------------------
  // Facts about Occurrences

  lemma {:induction false} OccurrencesConcat(s: seq<LogRecord>, t: seq<LogRecord>, p: Pair)
    ensures Occurrences(s + t, p) == Occurrences(s, p) + Occurrences(t, p)
  {
    if s == [] {
      assert s + t == t;
    } else {
      assert (s + t)[1..] == s[1..] + t;
      OccurrencesConcat(s[1..], t, p);
    }
  }

  /** A pair has a positive count exactly when some record carries it. */
  lemma {:induction false} OccurrencesPositive(logs: seq<LogRecord>, p: Pair)
    ensures Occurrences(logs, p) > 0 <==> p in PairsSeen(logs)
  {
    if logs != [] {
      OccurrencesPositive(logs[1..], p);
      if PairOf(logs[0]) != p && p in PairsSeen(logs) {
        var i :| 0 <= i < |logs| && PairOf(logs[i]) == p;
        assert PairOf(logs[1..][i - 1]) == p;
      }
      if p in PairsSeen(logs[1..]) {
        var i :| 0 <= i < |logs[1..]| && PairOf(logs[1..][i]) == p;
        assert PairOf(logs[i + 1]) == p;
      }
    }
  }

  /** Counts depend only on the multiset of records, not on their order. */
  lemma {:induction false} OccurrencesPermutation(a: seq<LogRecord>, b: seq<LogRecord>, p: Pair)
    requires multiset(a) == multiset(b)
    ensures Occurrences(a, p) == Occurrences(b, p)
  {
    if a == [] {
      assert |b| == |multiset(b)| == 0;
    } else {
      var x := a[0];
      assert x in multiset(b);
      var i :| 0 <= i < |b| && b[i] == x;
      var rest := b[..i] + b[i + 1..];
      assert b == b[..i] + [x] + b[i + 1..];
      assert a == [x] + a[1..];
      assert multiset(b) == multiset(b[..i]) + multiset{x} + multiset(b[i + 1..]);
      assert multiset(a) == multiset{x} + multiset(a[1..]);
      assert multiset(rest) == multiset(b[..i]) + multiset(b[i + 1..]);
      assert multiset(a[1..]) == multiset(a) - multiset{x};
      assert multiset(rest) == multiset(b) - multiset{x};
      OccurrencesPermutation(a[1..], rest, p);
      OccurrencesConcat(b[..i], b[i + 1..], p);
      OccurrencesConcat(b[..i] + [x], b[i + 1..], p);
      OccurrencesConcat(b[..i], [x], p);
      OccurrencesConcat([x], a[1..], p);
    }
  }

  // ---------------------------------------------------------------------
  // Properties of the baseline

  /** Reading any pair, seen or not, yields its number of occurrences;
      pairs never seen read as 0. */
  lemma BaselineLookup(logs: seq<LogRecord>, p: Pair)
    ensures Lookup(BaselineOf(logs), p) == Occurrences(logs, p)
    ensures p !in PairsSeen(logs) ==> Lookup(BaselineOf(logs), p) == 0
  {
    OccurrencesPositive(logs, p);
  }

  /** Every stored key has been seen in some record and has count at least 1. */
  lemma BaselineKeys(logs: seq<LogRecord>, p: Pair)
    requires p in BaselineOf(logs)
    ensures BaselineOf(logs)[p] >= 1
    ensures exists i :: 0 <= i < |logs| && PairOf(logs[i]) == p
  {
    OccurrencesPositive(logs, p);
  }

  /** Processing one more record increments that record's pair by one and
      leaves every other count as it was. */
  lemma BaselineStep(logs: seq<LogRecord>, r: LogRecord)
    ensures BaselineOf(logs + [r])
         == BaselineOf(logs)[PairOf(r) := Lookup(BaselineOf(logs), PairOf(r)) + 1]
  {
    var before, after := BaselineOf(logs), BaselineOf(logs + [r]);
    var expected := before[PairOf(r) := Lookup(before, PairOf(r)) + 1];
    assert PairsSeen(logs + [r]) == PairsSeen(logs) + {PairOf(r)} by {
      forall q | q in PairsSeen(logs + [r]) ensures q in PairsSeen(logs) + {PairOf(r)} {
        var i :| 0 <= i < |logs + [r]| && PairOf((logs + [r])[i]) == q;
        if i < |logs| { assert PairOf(logs[i]) == q; }
      }
      forall q | q in PairsSeen(logs) ensures q in PairsSeen(logs + [r]) {
        var i :| 0 <= i < |logs| && PairOf(logs[i]) == q;
        assert PairOf((logs + [r])[i]) == q;
      }
      assert PairOf((logs + [r])[|logs|]) == PairOf(r);
    }
    forall q | q in after ensures after[q] == expected[q] {
      OccurrencesConcat(logs, [r], q);
      BaselineLookup(logs, q);
      assert Occurrences([r], q) == if PairOf(r) == q then 1 else 0;
    }
  }

  /** The baseline does not depend on the order of the records. */
  lemma BaselineOrderIndependent(a: seq<LogRecord>, b: seq<LogRecord>)
    requires multiset(a) == multiset(b)
    ensures BaselineOf(a) == BaselineOf(b)
  {
    forall p ensures p in PairsSeen(a) <==> p in PairsSeen(b) {
      OccurrencesPermutation(a, b, p);
      OccurrencesPositive(a, p);
      OccurrencesPositive(b, p);
    }
    assert PairsSeen(a) == PairsSeen(b);
    forall p | p in PairsSeen(a) ensures Occurrences(a, p) == Occurrences(b, p) {
      OccurrencesPermutation(a, b, p);
    }
  }

  // ---------------------------------------------------------------------
  // The counts add up to the number of records

  /** The sum of the counts stored under `keys`. */
  ghost function SumOver(m: map<Pair, int>, keys: set<Pair>): int
    requires keys <= m.Keys
    decreases keys
  {
    if keys == {} then 0
    else
      var k :| k in keys;
      m[k] + SumOver(m, keys - {k})
  }

  /** The sum of all counts in a table. */
  ghost function Total(m: map<Pair, int>): int
  {
    SumOver(m, m.Keys)
  }

  lemma {:induction false} SumOverRemove(m: map<Pair, int>, keys: set<Pair>, k: Pair)
    requires keys <= m.Keys && k in keys
    ensures SumOver(m, keys) == m[k] + SumOver(m, keys - {k})
    decreases keys
  {
    var j :| j in keys && SumOver(m, keys) == m[j] + SumOver(m, keys - {j});
    if j != k {
      SumOverRemove(m, keys - {j}, k);
      SumOverRemove(m, keys - {k}, j);
      assert keys - {j} - {k} == keys - {k} - {j};
    }
  }

  lemma {:induction false} SumOverAgree(m1: map<Pair, int>, m2: map<Pair, int>, keys: set<Pair>)
    requires keys <= m1.Keys && keys <= m2.Keys
    requires forall k :: k in keys ==> m1[k] == m2[k]
    ensures SumOver(m1, keys) == SumOver(m2, keys)
    decreases keys
  {
    if keys != {} {
      var k :| k in keys;
      SumOverRemove(m1, keys, k);
      SumOverRemove(m2, keys, k);
      SumOverAgree(m1, m2, keys - {k});
    }
  }

  /** Bumping one pair raises the total by one. */
  lemma TotalIncrement(m: map<Pair, int>, p: Pair)
    ensures Total(m[p := Lookup(m, p) + 1]) == Total(m) + 1
  {
    var m' := m[p := Lookup(m, p) + 1];
    SumOverRemove(m', m'.Keys, p);
    if p in m {
      assert m'.Keys == m.Keys;
      SumOverRemove(m, m.Keys, p);
      SumOverAgree(m, m', m.Keys - {p});
    } else {
      assert m'.Keys - {p} == m.Keys;
      SumOverAgree(m, m', m.Keys);
    }
  }

  /** The counts of the baseline add up to the number of records. */
  lemma {:induction false} BaselineTotal(logs: seq<LogRecord>)
    ensures Total(BaselineOf(logs)) == |logs|
  {
    if logs == [] {
      assert BaselineOf(logs) == map[];
    } else {
      var init, last := logs[..|logs| - 1], logs[|logs| - 1];
      assert logs == init + [last];
      BaselineTotal(init);
      BaselineStep(init, last);
      TotalIncrement(BaselineOf(init), PairOf(last));
    }
  }
}
