/**
  The log-aggregation pass of `main()` (main.py:169-221): three tallies
  that every log line updates.

  - `platforms`: one counter per label, all four keys present from the
    start; a line raises the counter of the first label occurring in it.
  - `hours`: a counter per hour field of a matched timestamp, created on
    first sight.
  - `days`: a counter per day field of a matched January timestamp,
    pre-filled with "01".."31" at zero; other day fields are created on
    first sight.

  `Step` and `Fold` say what the tallies are after one line and after a
  sequence of lines; the `Aggregator` class is the in-place version that
  the source runs, and its methods are proved to follow `Step`.
 */
module Aggregation {
  import opened Wrappers
  import opened Text
  import opened Timestamps
  import opened Platforms

  /** `MONTH_TO_DISPLAY_STATS`: only days of this month are tallied. */
  const TargetMonth: string := "Jan"

  datatype Tallies = Tallies(platforms: map<string, nat>, hours: map<int, nat>, days: map<string, nat>)

  /** The platform tally has exactly the four labels as keys. */
  predicate WellFormed(t: Tallies) {
    HasKeys(Labels, t.platforms) && forall k :: k in t.platforms ==> k in Labels
  }

  /** A counter of a map, zero when the key is absent. */
  function Get<K>(m: map<K, nat>, k: K): nat {
    if k in m then m[k] else 0
  }

  /** `d[k] += 1` when k is a key, `d[k] = 1` otherwise. */
  function Bump<K>(m: map<K, nat>, k: K): map<K, nat> {
    if k in m then m[k := m[k] + 1] else m[k := 1]
  }

  /** Bumping adds the key if needed, raises its counter by one and no other. */
  lemma BumpSpec<K>(m: map<K, nat>, k: K)
    ensures Bump(m, k).Keys == m.Keys + {k}
    ensures Get(Bump(m, k), k) == Get(m, k) + 1
    ensures forall j :: j != k ==> Get(Bump(m, k), j) == Get(m, j)
  {
  }

  /** The hour tally after a line with timestamp ts (main.py:207-212). */
  function CountHour(hours: map<int, nat>, ts: Option<Timestamp>): map<int, nat> {
    match ts
    case None => hours
    case Some(t) => Bump(hours, t.hour)
  }

  /** The day tally after a line with timestamp ts (main.py:214-221). */
  function CountDay(days: map<string, nat>, ts: Option<Timestamp>): map<string, nat> {
    match ts
    case None => days
    case Some(t) => if TargetMonth == t.month then Bump(days, t.day) else days
  }

  /**
    What the pass reads from one line: the index of the label it is
    attributed to, and its timestamp.
   */
  datatype Observation = Observation(platform: Option<nat>, time: Option<Timestamp>)

  predicate Admissible(o: Observation) {
    o.platform.Some? ==> o.platform.value < |Labels|
  }

  /** The classifier: the two extractions of main.py:200-206. */
  function Classify(line: string): (o: Observation)
    ensures Admissible(o)
  {
    Observation(FirstLabel(Labels, line), FindTimestamp(line))
  }

  /** The three tallies after one more observation. */
  function Apply(t: Tallies, o: Observation): (r: Tallies)
    requires WellFormed(t) && Admissible(o)
    ensures WellFormed(r)
  {
    var r := Tallies(Credit(Labels, t.platforms, o.platform), CountHour(t.hours, o.time), CountDay(t.days, o.time));
    assert r.platforms.Keys == t.platforms.Keys;
    r
  }

  /** The three tallies after one more line. */
  function Step(t: Tallies, line: string): (r: Tallies)
    requires WellFormed(t)
    ensures WellFormed(r)
  {
    Apply(t, Classify(line))
  }

  predicate AllAdmissible(obs: seq<Observation>) {
    forall i :: 0 <= i < |obs| ==> Admissible(obs[i])
  }

  /** The tallies after the observations, in order. */
  function FoldObs(t: Tallies, obs: seq<Observation>): (r: Tallies)
    requires WellFormed(t) && AllAdmissible(obs)
    ensures WellFormed(r)
    decreases |obs|
  {
    if obs == [] then t else Apply(FoldObs(t, obs[..|obs| - 1]), obs[|obs| - 1])
  }

  /** The observation of every line. */
  function Observations(lines: seq<string>): (obs: seq<Observation>)
    ensures |obs| == |lines| && AllAdmissible(obs)
  {
    seq(|lines|, i requires 0 <= i < |lines| => Classify(lines[i]))
  }

  /** The tallies after the lines, in order. */
  function Fold(t: Tallies, lines: seq<string>): (r: Tallies)
    requires WellFormed(t)
    ensures WellFormed(r)
  {
    FoldObs(t, Observations(lines))
  }

  /** Folding one more line of a sequence is one more step. */
  lemma FoldPrefix(t: Tallies, lines: seq<string>, i: nat)
    requires WellFormed(t) && i < |lines|
    ensures Fold(t, lines[..i + 1]) == Step(Fold(t, lines[..i]), lines[i])
  {
    var obs := Observations(lines[..i + 1]);
    assert obs[..|obs| - 1] == Observations(lines[..i]);
  }

  /** Folding a concatenation is folding its halves one after the other. */
  lemma {:induction false} FoldObsAppend(t: Tallies, a: seq<Observation>, b: seq<Observation>)
    requires WellFormed(t) && AllAdmissible(a) && AllAdmissible(b)
    ensures AllAdmissible(a + b)
    ensures FoldObs(t, a + b) == FoldObs(FoldObs(t, a), b)
    decreases |b|
  {
    if b != [] {
      assert (a + b)[..|a + b| - 1] == a + b[..|b| - 1];
      FoldObsAppend(t, a, b[..|b| - 1]);
    } else {
      assert a + b == a;
    }
  }

  lemma FoldAppend(t: Tallies, a: seq<string>, b: seq<string>)
    requires WellFormed(t)
    ensures Fold(t, a + b) == Fold(Fold(t, a), b)
  {
    var oa, ob, oab := Observations(a), Observations(b), Observations(a + b);
    forall i | 0 <= i < |oab| ensures oab[i] == (oa + ob)[i] {
      if i < |a| {
        assert (a + b)[i] == a[i];
      } else {
        assert (a + b)[i] == b[i - |a|];
      }
    }
    assert oab == oa + ob;
    FoldObsAppend(t, oa, ob);
  }

  /** All lines of all archives, archive after archive. */
  function Flatten(logs: seq<seq<string>>): seq<string> {
    if logs == [] then [] else Flatten(logs[..|logs| - 1]) + logs[|logs| - 1]
  }

  // ---------------------------------------------------------------------
  // Initial state (main.py:169-184)

  /** `str(day).zfill(2)`. */
  function DayKey(d: nat): string {
    ZFill(NatToString(d), 2)
  }

  lemma DayKeyValue(d: nat)
    requires d < 100
    ensures |DayKey(d)| == 2 && AllDigits(DayKey(d)) && DecimalValue(DayKey(d)) == d
  {
    ZFillValue(NatToString(d), 2);
  }

  /** Every two-digit text is the key of its own value. */
  lemma DayKeyOfValue(k: string)
    requires |k| == 2 && AllDigits(k)
    ensures DayKey(DecimalValue(k)) == k
  {
    var a, b := DigitValue(k[0]), DigitValue(k[1]);
    var v := 10 * a + b;
    DigitRoundTrip(k[0]);
    DigitRoundTrip(k[1]);
    assert DecimalValue(k) == v by {
      var k1 := k[..1];
      assert k[..|k| - 1] == k1;
      assert k1[..|k1| - 1] == [] && k1[0] == k[0];
      assert DecimalValue(k1) == a;
    }
    if a == 0 {
      assert NatToString(v) == [DigitChar(b)];
      assert k == ['0', k[1]];
    } else {
      assert NatToString(a) == [DigitChar(a)];
      assert v / 10 == a && v % 10 == b;
      assert NatToString(v) == [DigitChar(a), DigitChar(b)];
      assert k == [k[0], k[1]];
    }
  }

  predicate IsTwoDigits(k: string) {
    |k| == 2 && AllDigits(k)
  }

  function InitialDayKeys(): set<string> {
    set d | 1 <= d <= 31 :: DayKey(d)
  }

  /** The initial day keys are exactly the two-digit texts "01".."31". */
  lemma InitialDayKeysExactly(k: string)
    ensures k in InitialDayKeys() <==> IsTwoDigits(k) && 1 <= DecimalValue(k) <= 31
  {
    if k in InitialDayKeys() {
      var d :| 1 <= d <= 31 && k == DayKey(d);
      DayKeyValue(d);
    }
    if IsTwoDigits(k) && 1 <= DecimalValue(k) <= 31 {
      DayKeyOfValue(k);
    }
  }

  function InitialDays(): map<string, nat> {
    map k | k in InitialDayKeys() :: 0
  }

  function InitialPlatforms(): map<string, nat> {
    map["iPad" := 0, "iPhone" := 0, "Android" := 0, "Windows" := 0]
  }

  function Initial(): (t: Tallies)
    ensures WellFormed(t)
  {
    Tallies(InitialPlatforms(), map[], InitialDays())
  }

  /**
    The loop of main.py:183-184: the day tally starts with 31 keys, the
    texts of 1..31 padded to two digits, all at zero.
   */
  method InitialDayTally() returns (m: map<string, nat>)
    ensures m == InitialDays()
    ensures |m| == 31
    ensures forall k :: k in m ==> m[k] == 0 && IsTwoDigits(k) && 1 <= DecimalValue(k) <= 31
  {
    m := map[];
    for day := 1 to 32
      invariant forall k :: k in m ==> m[k] == 0
      invariant forall k :: k in m <==> IsTwoDigits(k) && 1 <= DecimalValue(k) < day
      invariant |m| == day - 1
    {
      DayKeyValue(day);
      var key := DayKey(day);
      assert key !in m;
      forall k | IsTwoDigits(k) && DecimalValue(k) == day ensures k == key {
        DayKeyOfValue(k);
      }
      m := m[key := 0];
    }
    forall k ensures k in m <==> k in InitialDayKeys() {
      InitialDayKeysExactly(k);
    }
  }

  // ---------------------------------------------------------------------
  // The in-place aggregator

  class Aggregator {
    var platforms: map<string, nat>
    var hours: map<int, nat>
    var days: map<string, nat>

    /** The three tallies as one value. */
    function Snapshot(): Tallies
      reads this
    {
      Tallies(platforms, hours, days)
    }

    ghost predicate Valid()
      reads this
    {
      WellFormed(Snapshot())
    }

    constructor ()
      ensures Snapshot() == Initial()
    {
      platforms := InitialPlatforms();
      hours := map[];
      var d := InitialDayTally();
      days := d;
    }

    /** The body of the per-line loop (main.py:200-221). */
    method Ingest(line: string)
      requires Valid()
      modifies this
      ensures Valid()
      ensures Snapshot() == Step(old(Snapshot()), line)
    {
      TallyPlatform(Labels, line);
      TallyTimestamp(line);
    }

    /**
      The platform half of the per-line loop (main.py:200-203), over the
      keys of the platform tally in their order.
     */
    method TallyPlatform(labels: seq<string>, line: string)
      requires HasKeys(labels, platforms)
      modifies this
      ensures platforms == CountPlatform(labels, old(platforms), line)
      ensures hours == old(hours) && days == old(days)
    {
      var lowered := Lower(line);
      var i := 0;
      while i < |labels|
        invariant 0 <= i <= |labels|
        invariant forall j :: 0 <= j < i ==> !LabelOccurs(labels[j], line)
        invariant platforms == old(platforms) && hours == old(hours) && days == old(days)
      {
        if Contains(lowered, Lower(labels[i])) {
          assert FirstLabel(labels, line) == Some(i) by {
            FirstLabelSpec(labels, line);
          }
          platforms := platforms[labels[i] := platforms[labels[i]] + 1];
          break;
        }
        i := i + 1;
      }
      if i == |labels| {
        FirstLabelSpec(labels, line);
      }
    }

    /** The timestamp half of the per-line loop (main.py:205-221). */
    method TallyTimestamp(line: string)
      modifies this
      ensures platforms == old(platforms)
      ensures hours == CountHour(old(hours), FindTimestamp(line))
      ensures days == CountDay(old(days), FindTimestamp(line))
    {
      var found := Search(line);
      if found.Some? {
        var p := found.value;
        ReadGroup(line, p);
        var group := line[p..p + Width];
        var hour := DecimalValue(Split(group, ':')[1]);
        TallyHour(hour);
        var month := Split(group, '/')[1];
        var day := Split(group, '/')[0];
        if TargetMonth == month {
          TallyDay(day);
        }
      }
    }

    /** `visits_per_hour[hour] += 1`, creating the key at one (main.py:209-212). */
    method TallyHour(hour: int)
      modifies this
      ensures hours == Bump(old(hours), hour)
      ensures platforms == old(platforms) && days == old(days)
    {
      if hour in hours {
        hours := hours[hour := hours[hour] + 1];
      } else {
        hours := hours[hour := 1];
      }
    }

    /** `visits_per_day_in_month[day] += 1`, creating the key at one (main.py:218-221). */
    method TallyDay(day: string)
      modifies this
      ensures days == Bump(old(days), day)
      ensures platforms == old(platforms) && hours == old(hours)
    {
      if day in days {
        days := days[day := days[day] + 1];
      } else {
        days := days[day := 1];
      }
    }
  }

  /** The per-line loop over one archive (main.py:196-221). */
  method IngestAll(agg: Aggregator, lines: seq<string>)
    requires agg.Valid()
    modifies agg
    ensures agg.Valid()
    ensures agg.Snapshot() == Fold(old(agg.Snapshot()), lines)
  {
    ghost var start := agg.Snapshot();
    for i := 0 to |lines|
      invariant agg.Valid()
      invariant agg.Snapshot() == Fold(start, lines[..i])
    {
      FoldPrefix(start, lines, i);
      agg.Ingest(lines[i]);
    }
    assert lines[..|lines|] == lines;
  }

  /**
    The whole pass (main.py:169-221) over the lines of each archive in
    turn; fetching and unpacking the archives is not part of the model,
    their lines are the input.
   */
  method Run(logs: seq<seq<string>>) returns (t: Tallies)
    ensures t == Fold(Initial(), Flatten(logs))
  {
    var agg := new Aggregator();
    for a := 0 to |logs|
      invariant agg.Valid()
      invariant agg.Snapshot() == Fold(Initial(), Flatten(logs[..a]))
    {
      assert logs[..a + 1][..a] == logs[..a];
      FoldAppend(Initial(), Flatten(logs[..a]), logs[a]);
      IngestAll(agg, logs[a]);
    }
    assert logs[..|logs|] == logs;
    t := agg.Snapshot();
  }

  // ---------------------------------------------------------------------
  // What one line does

  /** A line without a timestamp leaves the hour and day tallies as they are. */
  lemma NoTimestampNoTimeChange(t: Tallies, line: string)
    requires WellFormed(t)
    requires forall q :: !MatchesAt(line, q)
    ensures Step(t, line).hours == t.hours && Step(t, line).days == t.days
  {
    FindTimestampSpec(line);
  }

  /**
    On a match, the hour of the leftmost match goes up by one (created at
    one), whatever the month, and no other hour changes.
   */
  lemma HourOfLeftmostMatch(t: Tallies, line: string, p: nat)
    requires WellFormed(t) && IsLeftmostMatch(line, p)
    ensures var h := FieldsOf(line, p).hour;
      && Step(t, line).hours.Keys == t.hours.Keys + {h}
      && Get(Step(t, line).hours, h) == Get(t.hours, h) + 1
      && forall k :: k != h ==> Get(Step(t, line).hours, k) == Get(t.hours, k)
  {
    FindTimestampSpec(line);
  }

  /**
    The day tally changes exactly when the leftmost match has month "Jan",
    and then only its day goes up by one.
   */
  lemma DayOnlyForTargetMonth(t: Tallies, line: string)
    requires WellFormed(t)
    ensures Step(t, line).days != t.days <==>
      FindTimestamp(line).Some? && FindTimestamp(line).value.month == TargetMonth
    ensures FindTimestamp(line).Some? && FindTimestamp(line).value.month == TargetMonth ==>
      var d := FindTimestamp(line).value.day;
      forall k :: Get(Step(t, line).days, k) == Get(t.days, k) + (if k == d then 1 else 0)
  {
    match FindTimestamp(line)
    case None =>
    case Some(ts) =>
      if TargetMonth == ts.month {
        BumpSpec(t.days, ts.day);
        assert ts.day in Step(t, line).days.Keys;
      }
  }

  /** The tallies after a line whose timestamp is ts. */
  lemma StepWithTimestamp(t: Tallies, line: string, ts: Timestamp)
    requires WellFormed(t) && FindTimestamp(line) == Some(ts)
    ensures Step(t, line).hours == Bump(t.hours, ts.hour)
    ensures Step(t, line).days == if ts.month == TargetMonth then Bump(t.days, ts.day) else t.days
  {
  }

  /** The bracketed example line in January: hour 13 and day "05" go up by one. */
  lemma JanuaryLine(t: Tallies)
    requires WellFormed(t)
    ensures var r := Step(t, ExampleLine("Jan"));
      && Get(r.hours, 13) == Get(t.hours, 13) + 1
      && Get(r.days, "05") == Get(t.days, "05") + 1
  {
    ExampleLineFields("Jan");
    StepWithTimestamp(t, ExampleLine("Jan"), Timestamp("05", "Jan", 13));
    BumpSpec(t.hours, 13);
    BumpSpec(t.days, "05");
  }

  /** The same line in February: hour 13 goes up by one and no day changes. */
  lemma FebruaryLine(t: Tallies)
    requires WellFormed(t)
    ensures var r := Step(t, ExampleLine("Feb"));
      && Get(r.hours, 13) == Get(t.hours, 13) + 1
      && r.days == t.days
  {
    ExampleLineFields("Feb");
    StepWithTimestamp(t, ExampleLine("Feb"), Timestamp("05", "Feb", 13));
    BumpSpec(t.hours, 13);
  }

  /** The month is compared case-sensitively: "jan" changes no day. */
  lemma LowerCaseMonthLine(t: Tallies)
    requires WellFormed(t)
    ensures Step(t, ExampleLine("jan")).days == t.days
  {
    ExampleLineFields("jan");
    StepWithTimestamp(t, ExampleLine("jan"), Timestamp("05", "jan", 13));
  }

  // ---------------------------------------------------------------------
  // What a sequence of observations does

  /** Number of observations attributed to some label. */
  function MatchedCount(obs: seq<Observation>): (n: nat)
    ensures n <= |obs|
  {
    if obs == [] then 0
    else MatchedCount(obs[..|obs| - 1]) + (if obs[|obs| - 1].platform.Some? then 1 else 0)
  }

  /** Number of observations attributed to the label at index i. */
  function LabelCount(obs: seq<Observation>, i: nat): nat {
    if obs == [] then 0
    else LabelCount(obs[..|obs| - 1], i) + (if obs[|obs| - 1].platform == Some(i) then 1 else 0)
  }

  predicate HasHour(o: Observation, h: int) {
    o.time.Some? && o.time.value.hour == h
  }

  predicate HasDay(o: Observation, d: string) {
    o.time.Some? && o.time.value.month == TargetMonth && o.time.value.day == d
  }

  /** Number of observations whose timestamp has hour h. */
  function HourCount(obs: seq<Observation>, h: int): nat {
    if obs == [] then 0
    else HourCount(obs[..|obs| - 1], h) + (if HasHour(obs[|obs| - 1], h) then 1 else 0)
  }

  /** Number of observations whose timestamp is in the target month and has day d. */
  function DayCount(obs: seq<Observation>, d: string): nat {
    if obs == [] then 0
    else DayCount(obs[..|obs| - 1], d) + (if HasDay(obs[|obs| - 1], d) then 1 else 0)
  }

  /** The platform total grows by the number of observations attributed to a label. */
  lemma {:induction false} FoldTotal(t: Tallies, obs: seq<Observation>)
    requires WellFormed(t) && AllAdmissible(obs)
    ensures Total(Labels, FoldObs(t, obs).platforms) == Total(Labels, t.platforms) + MatchedCount(obs)
    decreases |obs|
  {
    if obs != [] {
      var prefix := obs[..|obs| - 1];
      FoldTotal(t, prefix);
      LabelsDistinct();
      CreditTotal(Labels, FoldObs(t, prefix).platforms, obs[|obs| - 1].platform);
    }
  }

  /**
    Each counter after the observations is its value before plus the
    number of observations that count for it: platform counters by label,
    hour counters by the hour of the timestamp, day counters by the day of
    a target-month timestamp.
   */
  lemma {:induction false} FoldCounts(t: Tallies, obs: seq<Observation>)
    requires WellFormed(t) && AllAdmissible(obs)
    ensures forall i :: 0 <= i < |Labels| ==>
      Get(FoldObs(t, obs).platforms, Labels[i]) == Get(t.platforms, Labels[i]) + LabelCount(obs, i)
    ensures forall h :: Get(FoldObs(t, obs).hours, h) == Get(t.hours, h) + HourCount(obs, h)
    ensures forall d :: Get(FoldObs(t, obs).days, d) == Get(t.days, d) + DayCount(obs, d)
    decreases |obs|
  {
    if obs != [] {
      var prefix, o := obs[..|obs| - 1], obs[|obs| - 1];
      FoldCounts(t, prefix);
      var before := FoldObs(t, prefix);
      LabelsDistinct();
      forall i | 0 <= i < |Labels|
        ensures Get(FoldObs(t, obs).platforms, Labels[i]) == Get(before.platforms, Labels[i]) +
          (if o.platform == Some(i) then 1 else 0)
      {
        assert Labels[i] in before.platforms;
      }
    }
  }

  /** A key is present after the observations when it was before or some observation counted for it. */
  lemma {:induction false} FoldKeys(t: Tallies, obs: seq<Observation>)
    requires WellFormed(t) && AllAdmissible(obs)
    ensures forall h :: h in FoldObs(t, obs).hours <==> h in t.hours || HourCount(obs, h) > 0
    ensures forall d :: d in FoldObs(t, obs).days <==> d in t.days || DayCount(obs, d) > 0
    decreases |obs|
  {
    if obs != [] {
      FoldKeys(t, obs[..|obs| - 1]);
    }
  }

  /** A count is positive exactly when some observation counts for it. */
  lemma {:induction false} CountsPositive(obs: seq<Observation>, h: int, d: string)
    ensures HourCount(obs, h) > 0 <==> exists j :: 0 <= j < |obs| && HasHour(obs[j], h)
    ensures DayCount(obs, d) > 0 <==> exists j :: 0 <= j < |obs| && HasDay(obs[j], d)
    decreases |obs|
  {
    if obs != [] {
      var prefix := obs[..|obs| - 1];
      CountsPositive(prefix, h, d);
      assert forall j :: 0 <= j < |prefix| ==> prefix[j] == obs[j];
    }
  }

  // ---------------------------------------------------------------------
  // What a sequence of lines does

  /**
    From the initial tallies, the platform total is the number of lines
    that some label occurs in, so at most the number of lines.
   */
  lemma InitialTotal(lines: seq<string>)
    ensures Total(Labels, Fold(Initial(), lines).platforms) == LabelledLines(lines) <= |lines|
  {
    InitialMatchedTotal(lines);
    MatchedCountIsLabelledLines(lines);
  }

  lemma InitialMatchedTotal(lines: seq<string>)
    ensures Total(Labels, Fold(Initial(), lines).platforms) == MatchedCount(Observations(lines))
  {
    assert Total(Labels, Initial().platforms) == 0;
    FoldTotal(Initial(), Observations(lines));
  }

  /** Some label occurs in the line. */
  predicate AnyLabelOccurs(line: string) {
    exists j :: 0 <= j < |Labels| && LabelOccurs(Labels[j], line)
  }

  /** Number of lines that some label occurs in. */
  function LabelledLines(lines: seq<string>): (n: nat)
    ensures n <= |lines|
  {
    if lines == [] then 0
    else LabelledLines(lines[..|lines| - 1]) + (if AnyLabelOccurs(lines[|lines| - 1]) then 1 else 0)
  }

  /** A line is attributed to a label exactly when some label occurs in it. */
  lemma {:induction false} MatchedCountIsLabelledLines(lines: seq<string>)
    ensures MatchedCount(Observations(lines)) == LabelledLines(lines)
    decreases |lines|
  {
    if lines != [] {
      var init := lines[..|lines| - 1];
      MatchedCountIsLabelledLines(init);
      var obs := Observations(lines);
      assert obs[..|obs| - 1] == Observations(init);
      FirstLabelSpec(Labels, lines[|lines| - 1]);
    }
  }

  /** Some line carries a timestamp with hour h. */
  ghost predicate SomeLineHasHour(lines: seq<string>, h: int) {
    exists j :: 0 <= j < |lines| && FindTimestamp(lines[j]).Some? && FindTimestamp(lines[j]).value.hour == h
  }

  /** Some line carries a target-month timestamp with day d. */
  ghost predicate SomeLineHasDay(lines: seq<string>, d: string) {
    exists j :: 0 <= j < |lines| && FindTimestamp(lines[j]).Some? &&
      FindTimestamp(lines[j]).value.month == TargetMonth && FindTimestamp(lines[j]).value.day == d
  }

  /**
    Keys are never removed: from the initial tallies, the platform keys
    stay the four labels, the day keys are the 31 initial ones plus the
    days of target-month lines, and the hour keys are the hours of the
    lines that carry a timestamp.
   */
  lemma KeysAfterLines(lines: seq<string>)
    ensures forall l :: l in Fold(Initial(), lines).platforms <==> l in Labels
    ensures forall d :: d in Fold(Initial(), lines).days <==> d in InitialDayKeys() || SomeLineHasDay(lines, d)
    ensures forall h :: h in Fold(Initial(), lines).hours <==> SomeLineHasHour(lines, h)
  {
    var obs := Observations(lines);
    FoldKeys(Initial(), obs);
    forall l ensures l in Fold(Initial(), lines).platforms <==> l in Labels {
      if l in Labels {
        var i :| 0 <= i < |Labels| && Labels[i] == l;
      }
    }
    forall d ensures d in Fold(Initial(), lines).days <==> d in InitialDayKeys() || SomeLineHasDay(lines, d) {
      DayKeyOfLines(lines, d);
    }
    forall h ensures h in Fold(Initial(), lines).hours <==> SomeLineHasHour(lines, h) {
      HourKeyOfLines(lines, h);
    }
  }

  lemma DayKeyOfLines(lines: seq<string>, d: string)
    ensures DayCount(Observations(lines), d) > 0 <==> SomeLineHasDay(lines, d)
  {
    var obs := Observations(lines);
    CountsPositive(obs, 0, d);
    if SomeLineHasDay(lines, d) {
      var j :| 0 <= j < |lines| && FindTimestamp(lines[j]).Some? &&
        FindTimestamp(lines[j]).value.month == TargetMonth && FindTimestamp(lines[j]).value.day == d;
      assert HasDay(obs[j], d);
    }
  }

  lemma HourKeyOfLines(lines: seq<string>, h: int)
    ensures HourCount(Observations(lines), h) > 0 <==> SomeLineHasHour(lines, h)
  {
    var obs := Observations(lines);
    CountsPositive(obs, h, "");
    if SomeLineHasHour(lines, h) {
      var j :| 0 <= j < |lines| && FindTimestamp(lines[j]).Some? && FindTimestamp(lines[j]).value.hour == h;
      assert HasHour(obs[j], h);
    }
  }

}
