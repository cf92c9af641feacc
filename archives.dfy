/**
  The list of archive ids that the pass fetches, one archive per day
  (main.py:188-194): the ids are `13MMDD`, two-digit year 13, for every day
  of January, of February, and of the first six days of March.
 */
module Archives {

  /** Python's `range(lo, hi)`. */
  function Range(lo: int, hi: int): (r: seq<int>)
    ensures |r| == if lo <= hi then hi - lo else 0
    ensures forall i :: 0 <= i < |r| ==> r[i] == lo + i
  {
    if lo >= hi then [] else seq(hi - lo, i => lo + i)
  }

  predicate StrictlyIncreasing(s: seq<int>) {
    forall i, j :: 0 <= i < j < |s| ==> s[i] < s[j]
  }

  /** The ids of the three ranges, in order. */
  function ArchiveIds(): seq<int> {
    Range(130101, 130132) + Range(130201, 130229) + Range(130301, 130307)
  }

  /** `lst.append(i)` for every i in `range(lo, hi)`. */
  method AppendRange(ids: seq<int>, lo: int, hi: int) returns (r: seq<int>)
    requires lo <= hi
    ensures r == ids + Range(lo, hi)
  {
    r := ids;
    for i := lo to hi
      invariant r == ids + Range(lo, i)
    {
      r := r + [i];
    }
  }

  /** The three append loops that build `zip_indexes`. */
  method ArchiveIndexes() returns (ids: seq<int>)
    ensures ids == ArchiveIds()
    ensures |ids| == 65
    ensures StrictlyIncreasing(ids)
  {
    ids := AppendRange([], 130101, 130132);
    ids := AppendRange(ids, 130201, 130229);
    ids := AppendRange(ids, 130301, 130307);
    ArchiveIdsIncreasing();
  }

  lemma ArchiveIdsIncreasing()
    ensures StrictlyIncreasing(ArchiveIds())
  {
    var a, b, c := Range(130101, 130132), Range(130201, 130229), Range(130301, 130307);
    var s := a + b + c;
    forall i | 0 <= i < |s| ensures s[i] == if i < 31 then 130101 + i else if i < 59 then 130201 + i - 31 else 130301 + i - 59 {
      if i < 31 {
        assert s[i] == a[i];
      } else if i < 59 {
        assert s[i] == b[i - 31];
      } else {
        assert s[i] == c[i - 59];
      }
    }
  }

  /** Days of the month that have an archive: all of January and February, six of March. */
  function DaysCovered(month: int): int {
    if month == 1 then 31 else if month == 2 then 28 else if month == 3 then 6 else 0
  }

  /** The id `13MMDD` read as year, month and day. */
  predicate IsCoveredDay(id: int) {
    var year, month, day := id / 10000, id / 100 % 100, id % 100;
    year == 13 && 1 <= day <= DaysCovered(month)
  }

  /**
    The list holds exactly the ids of the covered days: every id names a
    covered day, and every covered day has its id in the list.
   */
  lemma ArchiveIdsAreCoveredDays(id: int)
    ensures id in ArchiveIds() <==> IsCoveredDay(id)
  {
    var a, b, c := Range(130101, 130132), Range(130201, 130229), Range(130301, 130307);
    if id in ArchiveIds() {
      assert id in a || id in b || id in c;
      if id in a {
        MonthId(id, 1, id - 130100);
      } else if id in b {
        MonthId(id, 2, id - 130200);
      } else {
        MonthId(id, 3, id - 130300);
      }
    }
    if IsCoveredDay(id) {
      var month, day := id / 100 % 100, id % 100;
      MonthIdValue(id);
      if month == 1 {
        assert a[day - 1] == id;
      } else if month == 2 {
        assert b[day - 1] == id;
      } else {
        assert c[day - 1] == id;
      }
    }
  }

  /** How `13MMDD` divides into its fields. */
  lemma MonthId(id: int, month: int, day: int)
    requires 1 <= month <= 99 && 1 <= day <= 99 && id == 130000 + 100 * month + day
    ensures id / 10000 == 13 && id / 100 % 100 == month && id % 100 == day
  {
    Div100(id, 1300 + month, day);
    Div100(1300 + month, 13, month);
    assert id / 10000 == 13;
  }

  lemma Div100(n: int, q: int, r: int)
    requires 0 <= r < 100 && n == 100 * q + r
    ensures n / 100 == q && n % 100 == r
  {
  }

  lemma MonthIdValue(id: int)
    requires IsCoveredDay(id)
    ensures id == 130000 + 100 * (id / 100 % 100) + id % 100
  {
  }

}
