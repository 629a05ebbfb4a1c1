/**
 The 7-day arrival histogram. For each of the last `DAYS` days, newest first, the
 page formats the day, counts the fetched records whose arrival date is exactly that
 label, pushes `{date, count}`, and finally reverses the list so the oldest day
 comes first. The days themselves are an input (index 0 is today).
 */
module Gist {
  import opened Seqs
  import opened Cargos
  import opened CargoSort
  import opened DateFormat

  const DAYS: nat := 7

  /** One bar of the chart. */
  datatype Bucket = Bucket(date: string, count: nat)

  /** Positions in the batch whose arrival date is exactly `date`. */
  ghost function ArrivingOn(batch: seq<Cargo>, date: string): set<int> {
    set j | 0 <= j < |batch| && batch[j].dateTo == date
  }

  /** The inner loop: scans the batch from the left and counts exact arrival-date
      matches. The count is the number of matching records, so at most the batch size. */
  function DayCount(batch: seq<Cargo>, date: string): (n: nat)
    ensures n == |ArrivingOn(batch, date)|
    ensures n <= |batch|
  {
    if |batch| == 0 then 0
    else
      var init := batch[..|batch| - 1];
      var last := |batch| - 1;
      var n := DayCount(init, date);
      assert forall j :: 0 <= j < |init| ==> init[j] == batch[j];
      if batch[last].dateTo == date then
        assert ArrivingOn(batch, date) == ArrivingOn(init, date) + {last};
        n + 1
      else
        assert ArrivingOn(batch, date) == ArrivingOn(init, date);
        n
  }

  /** The buckets in the order the outer loop pushes them: position `i` is `days[i]`. */
  function Pushed(batch: seq<Cargo>, days: seq<Day>): seq<Bucket> {
    seq(|days|, i requires 0 <= i < |days| =>
      Bucket(FormatDate(days[i]), DayCount(batch, FormatDate(days[i]))))
  }

  /** The histogram: exactly `DAYS` buckets, oldest day first; each bucket's count is
      the number of records arriving exactly on its label, never more than the batch. */
  function Histogram(batch: seq<Cargo>, days: seq<Day>): (r: seq<Bucket>)
    requires |days| == DAYS
    ensures |r| == DAYS
    ensures forall k :: 0 <= k < DAYS ==> r[k].date == FormatDate(days[DAYS - 1 - k])
    ensures forall k :: 0 <= k < DAYS ==> r[k].count == |ArrivingOn(batch, r[k].date)|
    ensures forall k :: 0 <= k < DAYS ==> r[k].count <= |batch|
  {
    Reverse(Pushed(batch, days))
  }

  /** With valid calendar days every label is `YYYY-MM-DD`. */
  lemma HistogramLabelsShaped(batch: seq<Cargo>, days: seq<Day>)
    requires |days| == DAYS
    requires forall i :: 0 <= i < DAYS ==> ValidDay(days[i])
    ensures forall k :: 0 <= k < DAYS ==> IsDateShaped(Histogram(batch, days)[k].date)
  {
    forall k | 0 <= k < DAYS ensures IsDateShaped(Histogram(batch, days)[k].date) {
      FormatDateShape(days[DAYS - 1 - k]);
    }
  }

  /** With distinct valid calendar days no two bars share a label. */
  lemma HistogramLabelsDistinct(batch: seq<Cargo>, days: seq<Day>)
    requires |days| == DAYS
    requires forall i :: 0 <= i < DAYS ==> ValidDay(days[i])
    requires forall i, j :: 0 <= i < j < DAYS ==> days[i] != days[j]
    ensures forall k, l :: 0 <= k < l < DAYS ==> Histogram(batch, days)[k].date != Histogram(batch, days)[l].date
  {
    var r := Histogram(batch, days);
    forall k, l | 0 <= k < l < DAYS ensures r[k].date != r[l].date {
      FormatDateInjective(days[DAYS - 1 - l], days[DAYS - 1 - k]);
    }
  }

  /** The count is the length of the batch filtered on the arrival date. */
  lemma {:induction false} DayCountIsFilterLength(batch: seq<Cargo>, date: string)
    ensures DayCount(batch, date) == |Filter(batch, HasKey(DateTo, date))|
  {
    if |batch| > 0 {
      var init := batch[..|batch| - 1];
      DayCountIsFilterLength(init, date);
      assert batch == init + [batch[|batch| - 1]];
      FilterAppend(init, [batch[|batch| - 1]], HasKey(DateTo, date));
    }
  }

  /** Reordering the batch changes no count. */
  lemma DayCountPermutation(a: seq<Cargo>, b: seq<Cargo>, date: string)
    requires multiset(a) == multiset(b)
    ensures DayCount(a, date) == DayCount(b, date)
  {
    var p := HasKey(DateTo, date);
    DayCountIsFilterLength(a, date);
    DayCountIsFilterLength(b, date);
    FilterProperties(a, p);
    FilterProperties(b, p);
    assert multiset(Filter(a, p)) == multiset(Filter(b, p));
    assert |Filter(a, p)| == |multiset(Filter(a, p))|;
  }

  /** The chart depends on which records were fetched, not on their order. */
  lemma HistogramIgnoresOrder(a: seq<Cargo>, b: seq<Cargo>, days: seq<Day>)
    requires |days| == DAYS
    requires multiset(a) == multiset(b)
    ensures Histogram(a, days) == Histogram(b, days)
  {
    var ha, hb := Histogram(a, days), Histogram(b, days);
    forall k | 0 <= k < DAYS ensures ha[k] == hb[k] {
      DayCountPermutation(a, b, ha[k].date);
    }
  }

  /** Two records arriving on 2024-01-05 and one on 2024-01-04. */
  const ExampleBatch := [
    Cargo(1, "a", "x", "A", "B", "2024-01-01", "2024-01-05"),
    Cargo(2, "b", "y", "A", "B", "2024-01-02", "2024-01-05"),
    Cargo(3, "c", "z", "A", "B", "2024-01-03", "2024-01-04")]

  /** The seven days from "today" = 2024-01-05 backwards. */
  const ExampleDays := [Day(2024, 1, 5), Day(2024, 1, 4), Day(2024, 1, 3), Day(2024, 1, 2),
                        Day(2024, 1, 1), Day(2023, 12, 31), Day(2023, 12, 30)]

  /** The seven labels, one day at a time. */
  lemma ExampleLabel0()
    ensures FormatDate(ExampleDays[0]) == "2024-01-05"
  {
  }

  lemma ExampleLabel1()
    ensures FormatDate(ExampleDays[1]) == "2024-01-04"
  {
  }

  lemma ExampleLabel2()
    ensures FormatDate(ExampleDays[2]) == "2024-01-03"
  {
  }

  lemma ExampleLabel3()
    ensures FormatDate(ExampleDays[3]) == "2024-01-02"
  {
  }

  lemma ExampleLabel4()
    ensures FormatDate(ExampleDays[4]) == "2024-01-01"
  {
  }

  lemma ExampleLabel5()
    ensures FormatDate(ExampleDays[5]) == "2023-12-31"
  {
  }

  lemma ExampleLabel6()
    ensures FormatDate(ExampleDays[6]) == "2023-12-30"
  {
  }

  /** Bar `k` shows day `6 - k`, one bar at a time. */
  lemma ExampleBar0()
    ensures Histogram(ExampleBatch, ExampleDays)[0] == Bucket("2023-12-30", 0)
  {
    ExampleLabel6();
    assert DayCount(ExampleBatch, "2023-12-30") == 0;
    assert Histogram(ExampleBatch, ExampleDays)[0].date == "2023-12-30";
  }

  lemma ExampleBar1()
    ensures Histogram(ExampleBatch, ExampleDays)[1] == Bucket("2023-12-31", 0)
  {
    ExampleLabel5();
    assert DayCount(ExampleBatch, "2023-12-31") == 0;
    assert Histogram(ExampleBatch, ExampleDays)[1].date == "2023-12-31";
  }

  lemma ExampleBar2()
    ensures Histogram(ExampleBatch, ExampleDays)[2] == Bucket("2024-01-01", 0)
  {
    ExampleLabel4();
    assert DayCount(ExampleBatch, "2024-01-01") == 0;
    assert Histogram(ExampleBatch, ExampleDays)[2].date == "2024-01-01";
  }

  lemma ExampleBar3()
    ensures Histogram(ExampleBatch, ExampleDays)[3] == Bucket("2024-01-02", 0)
  {
    ExampleLabel3();
    assert DayCount(ExampleBatch, "2024-01-02") == 0;
    assert Histogram(ExampleBatch, ExampleDays)[3].date == "2024-01-02";
  }

  lemma ExampleBar4()
    ensures Histogram(ExampleBatch, ExampleDays)[4] == Bucket("2024-01-03", 0)
  {
    ExampleLabel2();
    assert DayCount(ExampleBatch, "2024-01-03") == 0;
    assert Histogram(ExampleBatch, ExampleDays)[4].date == "2024-01-03";
  }

  lemma ExampleBar5()
    ensures Histogram(ExampleBatch, ExampleDays)[5] == Bucket("2024-01-04", 1)
  {
    ExampleLabel1();
    assert DayCount(ExampleBatch, "2024-01-04") == 1;
    assert Histogram(ExampleBatch, ExampleDays)[5].date == "2024-01-04";
  }

  lemma ExampleBar6()
    ensures Histogram(ExampleBatch, ExampleDays)[6] == Bucket("2024-01-05", 2)
  {
    ExampleLabel0();
    assert DayCount(ExampleBatch, "2024-01-05") == 2;
    assert Histogram(ExampleBatch, ExampleDays)[6].date == "2024-01-05";
  }

  /** On that batch, "today" has count 2, the day before 1, and the five older days 0;
      the first bar is the oldest day. */
  lemma HistogramExample()
    ensures Histogram(ExampleBatch, ExampleDays)[0] == Bucket("2023-12-30", 0)
    ensures Histogram(ExampleBatch, ExampleDays)[5] == Bucket("2024-01-04", 1)
    ensures Histogram(ExampleBatch, ExampleDays)[6] == Bucket("2024-01-05", 2)
    ensures forall k :: 0 <= k < 5 ==> Histogram(ExampleBatch, ExampleDays)[k].count == 0
  {
    ExampleBar0(); ExampleBar1(); ExampleBar2(); ExampleBar3();
    ExampleBar4(); ExampleBar5(); ExampleBar6();
  }
}
