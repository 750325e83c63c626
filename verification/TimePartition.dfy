/**
 The time partitions of native/parquex_nif/src/time_partition.rs.

 An instant is a number of nanoseconds since 1970-01-01T00:00:00Z. Partitions of
 one granularity are also numbered: `Bucket` gives the number of the partition
 that holds an instant, by counting minutes, hours, days, weeks or months. The
 code never counts partitions; the numbering is the independent definition that
 truncation, parsing and planning are proved against.
 */
module TimePartition {
  import opened Text
  import opened Calendar

  datatype Granularity = Minute | Hour | Day | Week | Month

  datatype Unit = Second | Millisecond | Microsecond | Nanosecond

  datatype Error =
    | TimestampOutOfRange
    | PartitionOutOfRange
    | ZeroLimit
    | ReversedRange
    | LimitExceeded
    | PathInvalid

  datatype Result<+T> = Ok(value: T) | Err(error: Error) {
    function MapError<U>(): Result<U>
      requires Err?
    {
      Err(error)
    }
  }

  type Instant = int

  const NANOS_PER_SECOND: int := 1_000_000_000
  const NANOS_PER_MINUTE: int := 60_000_000_000
  const NANOS_PER_HOUR: int := 3_600_000_000_000
  const NANOS_PER_DAY: int := 86_400_000_000_000

  function DayOf(t: Instant): int {
    t / NANOS_PER_DAY
  }

  /** The days that the date library can represent; every operation that leaves them fails. */
  datatype Window = Window(first: int, last: int) {
    predicate HasDay(day: int) {
      first <= day <= last
    }

    predicate Has(t: Instant) {
      HasDay(DayOf(t))
    }

    /** chrono keeps years in 19 bits. */
    predicate Valid() {
      YearStart(-262144) <= first && last < YearStart(262144)
    }
  }

  lemma WindowConvex(w: Window, a: Instant, t: Instant, b: Instant)
    requires w.Has(a) && w.Has(b) && a <= t <= b
    ensures w.Has(t)
  {
  }

  // ---------- Instants ----------

  function Factor(unit: Unit): int {
    match unit
    case Second => 1_000_000_000
    case Millisecond => 1_000_000
    case Microsecond => 1_000
    case Nanosecond => 1
  }

  /** `DateTime::from_timestamp`. */
  function FromTimestamp(w: Window, seconds: int, subsecond: int): (r: Result<Instant>)
    requires 0 <= subsecond < NANOS_PER_SECOND
    ensures r.Ok? ==> w.Has(r.value)
  {
    var t := seconds * NANOS_PER_SECOND + subsecond;
    if IsI64(seconds) && w.Has(t) then Ok(t) else Err(TimestampOutOfRange)
  }

  /** `instant`: scale to nanoseconds, then split by Euclidean division. */
  function InstantOf(w: Window, timestamp: int, unit: Unit): (r: Result<Instant>)
    requires IsI64(timestamp)
    ensures r == if w.Has(timestamp * Factor(unit)) then Ok(timestamp * Factor(unit)) else Err(TimestampOutOfRange)
  {
    var nanos := timestamp * Factor(unit);
    FromTimestamp(w, nanos / NANOS_PER_SECOND, nanos % NANOS_PER_SECOND)
  }

  // ---------- Numbered partitions ----------

  function Bucket(g: Granularity, t: Instant): int {
    match g
    case Minute => t / NANOS_PER_MINUTE
    case Hour => t / NANOS_PER_HOUR
    case Day => DayOf(t)
    case Week => (DayOf(t) + 3) / 7
    case Month => MonthIndex(DayOf(t))
  }

  function BucketStart(g: Granularity, k: int): Instant {
    match g
    case Minute => k * NANOS_PER_MINUTE
    case Hour => k * NANOS_PER_HOUR
    case Day => k * NANOS_PER_DAY
    case Week => (7 * k - 3) * NANOS_PER_DAY
    case Month => MonthIndexStart(k) * NANOS_PER_DAY
  }

  /** The numbered partitions divide time without gaps or overlaps. */
  lemma BucketRange(g: Granularity, t: Instant, k: int)
    ensures Bucket(g, t) == k <==> BucketStart(g, k) <= t < BucketStart(g, k + 1)
  {
    if g.Month? {
      MonthIndexRange(DayOf(t), k);
    }
  }

  lemma BucketStartsAt(g: Granularity, k: int)
    ensures Bucket(g, BucketStart(g, k)) == k
    ensures BucketStart(g, k) < BucketStart(g, k + 1)
    ensures DayOf(BucketStart(g, k)) * NANOS_PER_DAY <= BucketStart(g, k)
    ensures g !in {Minute, Hour} ==> DayOf(BucketStart(g, k)) * NANOS_PER_DAY == BucketStart(g, k)
  {
    hide MonthIndex, MonthIndexStart;
    if g.Month? {
      MonthAdvances(k);
    }
  }

  lemma {:induction false} BucketStartMonotone(g: Granularity, a: int, b: int)
    requires a <= b
    ensures BucketStart(g, a) + (b - a) <= BucketStart(g, b)
    decreases b - a
  {
    hide BucketStart;
    if a < b {
      BucketStartMonotone(g, a, b - 1);
      BucketStartsAt(g, b - 1);
    }
  }

  lemma BucketMonotone(g: Granularity, s: Instant, t: Instant)
    requires s <= t
    ensures Bucket(g, s) <= Bucket(g, t)
  {
    hide Bucket, BucketStart;
    var a, b := Bucket(g, s), Bucket(g, t);
    BucketRange(g, s, a);
    BucketRange(g, t, b);
    if b < a {
      BucketStartMonotone(g, b + 1, a);
    }
  }

  // ---------- Building one partition ----------

  /** `NativePartition`. */
  datatype Partition = Partition(
    path: string,
    startSeconds: int,
    startNanosecond: int,
    untilSeconds: int,
    untilNanosecond: int
  ) {
    function Start(): Instant {
      startSeconds * NANOS_PER_SECOND + startNanosecond
    }

    function Until(): Instant {
      untilSeconds * NANOS_PER_SECOND + untilNanosecond
    }
  }

  function MakePartition(path: string, start: Instant, until: Instant): (p: Partition)
    ensures p.path == path && p.Start() == start && p.Until() == until
    ensures 0 <= p.startNanosecond < NANOS_PER_SECOND && 0 <= p.untilNanosecond < NANOS_PER_SECOND
  {
    Partition(path, start / NANOS_PER_SECOND, start % NANOS_PER_SECOND,
              until / NANOS_PER_SECOND, until % NANOS_PER_SECOND)
  }

  function HourOf(t: Instant): (h: int)
    ensures 0 <= h < 24
  {
    (t % NANOS_PER_DAY) / NANOS_PER_HOUR
  }

  function MinuteOf(t: Instant): (m: int)
    ensures 0 <= m < 60
  {
    (t % NANOS_PER_HOUR) / NANOS_PER_MINUTE
  }

  /** `and_hms_opt(hour, minute, 0)`. */
  function At(day: int, hour: int, minute: int): Instant {
    day * NANOS_PER_DAY + hour * NANOS_PER_HOUR + minute * NANOS_PER_MINUTE
  }

  function Names(g: Granularity): (names: seq<string>)
    ensures |names| >= 2
    ensures forall i :: 0 <= i < |names| ==> '/' !in names[i] && '=' !in names[i]
  {
    match g
    case Minute => ["year", "month", "day", "hour", "minute"]
    case Hour => ["year", "month", "day", "hour"]
    case Day => ["year", "month", "day"]
    case Week => ["iso_year", "week"]
    case Month => ["year", "month"]
  }

  /** The numbers that a path shows for a partition start. */
  function Fields(g: Granularity, start: Instant): (fields: seq<int>)
    ensures |fields| == |Names(g)|
  {
    var day := DayOf(start);
    var date := DateOf(day);
    match g
    case Minute => [date.year, date.month, date.day, HourOf(start), MinuteOf(start)]
    case Hour => [date.year, date.month, date.day, HourOf(start)]
    case Day => [date.year, date.month, date.day]
    case Week => [IsoWeekOf(day).year, IsoWeekOf(day).week]
    case Month => [date.year, date.month]
  }

  function Segment(name: string, field: int): string {
    name + "=" + ShowInt(field)
  }

  function Segments(names: seq<string>, fields: seq<int>): (segments: seq<string>)
    requires |names| == |fields|
    ensures |segments| == |names|
    ensures forall i :: 0 <= i < |names| ==> segments[i] == Segment(names[i], fields[i])
  {
    seq(|names|, i requires 0 <= i < |names| => Segment(names[i], fields[i]))
  }

  function PathOf(g: Granularity, start: Instant): string {
    Join(Segments(Names(g), Fields(g, start)), '/')
  }

  /** `build_partition`: truncate, add one unit, print. */
  function BuildPartition(w: Window, t: Instant, g: Granularity): Result<Partition>
    requires w.Has(t)
  {
    var day := DayOf(t);
    var startDay := match g
                    case Week => MondayOf(day)
                    case Month => FirstOfMonth(day)
                    case _ => day;
    if !w.HasDay(startDay) then Err(PartitionOutOfRange)
    else
      var start := match g
                   case Minute => At(startDay, HourOf(t), MinuteOf(t))
                   case Hour => At(startDay, HourOf(t), 0)
                   case _ => At(startDay, 0, 0);
      var until := match g
                   case Minute => start + NANOS_PER_MINUTE
                   case Hour => start + NANOS_PER_HOUR
                   case Day => start + NANOS_PER_DAY
                   case Week => start + 7 * NANOS_PER_DAY
                   case Month => At(NextMonthStart(startDay), 0, 0);
      if !w.Has(until) then Err(PartitionOutOfRange)
      else Ok(MakePartition(PathOf(g, start), start, until))
  }

  /** `partition_for`. */
  function PartitionFor(w: Window, timestamp: int, unit: Unit, g: Granularity): Result<Partition>
    requires IsI64(timestamp)
  {
    var t := InstantOf(w, timestamp, unit);
    if t.Err? then Err(t.error) else BuildPartition(w, t.value, g)
  }

  /** The partition with number k. */
  function Canonical(g: Granularity, k: int): (p: Partition)
    ensures p.Start() == BucketStart(g, k) && p.Until() == BucketStart(g, k + 1)
  {
    MakePartition(PathOf(g, BucketStart(g, k)), BucketStart(g, k), BucketStart(g, k + 1))
  }

  predicate Fits(w: Window, g: Granularity, k: int) {
    w.Has(BucketStart(g, k)) && w.Has(BucketStart(g, k + 1))
  }

  predicate BuildsBucket(w: Window, t: Instant, g: Granularity)
    requires w.Has(t)
  {
    BuildPartition(w, t, g) ==
    if Fits(w, g, Bucket(g, t)) then Ok(Canonical(g, Bucket(g, t))) else Err(PartitionOutOfRange)
  }

  /**
   Truncation computes exactly the numbered partition that holds the instant, and
   fails exactly when a bound of that partition is outside the window.
   */
  lemma BuildIsBucket(w: Window, t: Instant, g: Granularity)
    requires w.Has(t)
    ensures BuildsBucket(w, t, g)
  {
    match g
    case Minute => BuildMinute(w, t);
    case Hour => BuildHour(w, t);
    case Day => BuildDay(w, t);
    case Week => BuildWeek(w, t);
    case Month => BuildMonth(w, t);
  }

  lemma Quotient(t: int, k: int, q: int, r: int)
    requires k > 0 && t == q * k + r && 0 <= r < k
    ensures t / k == q && t % k == r
  {
    var d := t / k - q;
    assert d * k == r - t % k;
    assert d >= 1 ==> d * k >= k;
    assert d <= -1 ==> d * k <= -k;
  }

  lemma Clock(t: Instant)
    ensures At(DayOf(t), HourOf(t), MinuteOf(t)) == t / NANOS_PER_MINUTE * NANOS_PER_MINUTE
    ensures At(DayOf(t), HourOf(t), 0) == t / NANOS_PER_HOUR * NANOS_PER_HOUR
    ensures DayOf(t / NANOS_PER_HOUR * NANOS_PER_HOUR) == DayOf(t)
    ensures DayOf(t / NANOS_PER_MINUTE * NANOS_PER_MINUTE) == DayOf(t)
  {
    var d, a := t / NANOS_PER_DAY, t % NANOS_PER_DAY;
    var h, b := a / NANOS_PER_HOUR, a % NANOS_PER_HOUR;
    var m, c := b / NANOS_PER_MINUTE, b % NANOS_PER_MINUTE;
    Quotient(t, NANOS_PER_HOUR, 24 * d + h, b);
    Quotient(t, NANOS_PER_MINUTE, 60 * (24 * d + h) + m, c);
    Quotient((24 * d + h) * NANOS_PER_HOUR, NANOS_PER_DAY, d, h * NANOS_PER_HOUR);
    Quotient((60 * (24 * d + h) + m) * NANOS_PER_MINUTE, NANOS_PER_DAY, d,
             h * NANOS_PER_HOUR + m * NANOS_PER_MINUTE);
  }

  lemma AtDay(day: int, hour: int, minute: int)
    requires 0 <= hour < 24 && 0 <= minute < 60
    ensures DayOf(At(day, hour, minute)) == day
  {
    Quotient(At(day, hour, minute), NANOS_PER_DAY, day, hour * NANOS_PER_HOUR + minute * NANOS_PER_MINUTE);
  }

  lemma BuildMinute(w: Window, t: Instant)
    requires w.Has(t)
    ensures BuildsBucket(w, t, Minute)
  {
    hide PathOf;
    Clock(t);
  }

  lemma BuildHour(w: Window, t: Instant)
    requires w.Has(t)
    ensures BuildsBucket(w, t, Hour)
  {
    hide PathOf;
    Clock(t);
  }

  lemma BuildDay(w: Window, t: Instant)
    requires w.Has(t)
    ensures BuildsBucket(w, t, Day)
  {
    hide PathOf;
  }

  lemma BuildWeek(w: Window, t: Instant)
    requires w.Has(t)
    ensures BuildsBucket(w, t, Week)
  {
    hide PathOf;
    assert MondayOf(DayOf(t)) == 7 * Bucket(Week, t) - 3;
  }

  lemma BuildMonth(w: Window, t: Instant)
    requires w.Has(t)
    ensures BuildsBucket(w, t, Month)
  {
    hide PathOf, FirstOfMonth, NextMonthStart, MonthIndex, MonthIndexStart;
    var day := DayOf(t);
    var first := FirstOfMonth(day);
    OwnMonth(day);
    MonthAdvances(MonthIndex(day));
    OwnMonth(first);
    assert DayOf(At(first, 0, 0)) == first;
    assert DayOf(At(NextMonthStart(first), 0, 0)) == NextMonthStart(first);
  }

  /** The laws of truncation, before and after 1970. */
  lemma TruncationLaws(w: Window, g: Granularity, t: Instant, later: Instant)
    requires w.Has(t) && w.Has(later) && t <= later
    requires BuildPartition(w, t, g).Ok?
    ensures var p := BuildPartition(w, t, g).value;
            && p.Start() <= t < p.Until()
            && w.Has(p.Start()) && BuildPartition(w, p.Start(), g) == Ok(p)
            && w.Has(p.Until())
            && (var next := BuildPartition(w, p.Until(), g); next.Ok? ==> next.value.Start() == p.Until())
            && (var q := BuildPartition(w, later, g); q.Ok? ==> p.Start() <= q.value.Start())
            && (later < p.Until() ==> BuildPartition(w, later, g) == Ok(p))
  {
    hide Bucket, BucketStart, BuildPartition, DayOf, PathOf, Canonical;
    var k := Bucket(g, t);
    BuildIsBucket(w, t, g);
    BucketRange(g, t, k);
    BucketStartsAt(g, k);
    BucketStartsAt(g, k + 1);
    BuildIsBucket(w, BucketStart(g, k), g);
    BuildIsBucket(w, BucketStart(g, k + 1), g);
    BuildIsBucket(w, later, g);
    BucketMonotone(g, t, later);
    BucketStartMonotone(g, k, Bucket(g, later));
    BucketRange(g, later, k);
  }

  /** One instant written in two units lies in one partition. */
  lemma UnitsAgree(w: Window, g: Granularity, s: int, u: Unit, t: int, v: Unit)
    requires IsI64(s) && IsI64(t) && s * Factor(u) == t * Factor(v)
    ensures PartitionFor(w, s, u, g) == PartitionFor(w, t, v, g)
  {
  }

  // ---------- Paths ----------

  lemma SegmentPieces(name: string, field: int)
    requires '=' !in name && '/' !in name
    ensures '/' !in Segment(name, field)
    ensures SplitOnce(Segment(name, field), '=') == Some((name, ShowInt(field)))
  {
    ShowIntLacks(field, '/');
    SplitOnceAt(name, '=', ShowInt(field));
    assert Segment(name, field) == name + ['='] + ShowInt(field);
  }

  lemma PathSplits(g: Granularity, start: Instant)
    ensures Split(PathOf(g, start), '/') == Segments(Names(g), Fields(g, start))
    ensures Count(PathOf(g, start), '/') == |Names(g)| - 1
  {
    var names, fields := Names(g), Fields(g, start);
    forall i | 0 <= i < |names| ensures '/' !in Segment(names[i], fields[i]) {
      SegmentPieces(names[i], fields[i]);
    }
    SplitJoin(Segments(names, fields), '/');
    CountJoin(Segments(names, fields), '/');
  }

  /** The instant that the parser computes from the numbers of a path. */
  function StartFromFields(w: Window, g: Granularity, values: seq<int>): (r: Result<Instant>)
    requires |values| == |Names(g)|
    ensures r.Ok? ==> w.Has(r.value)
  {
    var day: Option<int> :=
      if g.Week? then
        var iso := IsoWeek(values[0], values[1]);
        if ValidWeek(iso) then Some(MondayOfWeek(iso)) else None
      else
        var date := Date(values[0], values[1], if |values| > 2 then values[2] else 1);
        if ValidDate(date) then Some(DayNumber(date)) else None;
    var hour := if g in {Hour, Minute} then values[3] else 0;
    var minute := if g.Minute? then values[4] else 0;
    if day.None? || !w.HasDay(day.value) then Err(PathInvalid)
    else if !(0 <= hour < 24 && 0 <= minute < 60) then Err(PathInvalid)
    else
      AtDay(day.value, hour, minute);
      Ok(At(day.value, hour, minute))
  }

  /** The numbers shown for a partition start determine that start. */
  lemma FieldsInvert(w: Window, g: Granularity, k: int)
    requires w.Has(BucketStart(g, k))
    ensures StartFromFields(w, g, Fields(g, BucketStart(g, k))) == Ok(BucketStart(g, k))
  {
    hide BucketStart, DateOf, DayNumber, MondayOfWeek, IsoWeekOf, WeeksIn, HourOf, MinuteOf, DayOf, MondayOf;
    var start := BucketStart(g, k);
    var day := DayOf(start);
    BucketStartsAt(g, k);
    match g
    case Minute =>
      StartsMinute(k);
    case Hour =>
      StartsHour(k);
    case Day =>
    case Week =>
      WeekOfDay(day);
      StartsWeek(k);
    case Month =>
      StartsMonth(k);
  }

  lemma StartsMinute(k: int)
    ensures var t := BucketStart(Minute, k); t == At(DayOf(t), HourOf(t), MinuteOf(t))
  {
    hide At, HourOf, MinuteOf, DayOf;
    Clock(BucketStart(Minute, k));
    Quotient(BucketStart(Minute, k), NANOS_PER_MINUTE, k, 0);
  }

  lemma StartsHour(k: int)
    ensures var t := BucketStart(Hour, k); t == At(DayOf(t), HourOf(t), 0)
  {
    hide At, HourOf, MinuteOf, DayOf;
    Clock(BucketStart(Hour, k));
    Quotient(BucketStart(Hour, k), NANOS_PER_HOUR, k, 0);
  }

  lemma StartsWeek(k: int)
    ensures var day := DayOf(BucketStart(Week, k)); MondayOf(day) == day
  {
    Quotient(BucketStart(Week, k), NANOS_PER_DAY, 7 * k - 3, 0);
  }

  lemma StartsMonth(k: int)
    ensures DateOf(DayOf(BucketStart(Month, k))) == MonthAt(k)
    ensures DayNumber(MonthAt(k)) == DayOf(BucketStart(Month, k))
  {
    hide DateOf, DayNumber, MonthAt;
    DateOfDayNumber(MonthAt(k));
  }

  /** Different partitions of one granularity have different paths. */
  lemma PathInjective(g: Granularity, a: int, b: int)
    requires PathOf(g, BucketStart(g, a)) == PathOf(g, BucketStart(g, b))
    ensures a == b
  {
    var s, t := BucketStart(g, a), BucketStart(g, b);
    PathSplits(g, s);
    PathSplits(g, t);
    var fields, others := Fields(g, s), Fields(g, t);
    forall i | 0 <= i < |fields| ensures fields[i] == others[i] {
      var name := Names(g)[i];
      assert Segment(name, fields[i]) == Segment(name, others[i]);
      SegmentPieces(name, fields[i]);
      SegmentPieces(name, others[i]);
      ShowIntInjective(fields[i], others[i]);
    }
    assert fields == others;
    var w := Window(if s < t then DayOf(s) else DayOf(t), if s < t then DayOf(t) else DayOf(s));
    FieldsInvert(w, g, a);
    FieldsInvert(w, g, b);
    BucketStartsAt(g, a);
    BucketStartsAt(g, b);
  }

  /**
   No partition directory lies inside another one of the same granularity: a file
   directly in partition b is under the directory of partition a only when a = b.
   */
  lemma PathsPrefixFree(g: Granularity, a: int, b: int, prefix: string, name: string)
    requires '/' !in name
    requires prefix + PathOf(g, BucketStart(g, a)) + "/" <= prefix + PathOf(g, BucketStart(g, b)) + "/" + name
    ensures a == b
  {
    hide PathOf, BucketStart;
    var s, t := PathOf(g, BucketStart(g, a)), PathOf(g, BucketStart(g, b));
    PathSplits(g, BucketStart(g, a));
    PathSplits(g, BucketStart(g, b));
    SameDirectory(prefix, s, t, name, '/');
    PathInjective(g, a, b);
  }

  lemma FieldsAreI64(w: Window, g: Granularity, start: Instant)
    requires w.Valid() && w.Has(start)
    ensures forall i :: 0 <= i < |Fields(g, start)| ==> IsI64(Fields(g, start)[i])
    ensures -0x8000_0000 <= Fields(g, start)[0] < 0x8000_0000
  {
    hide DayOf, DateOf, IsoWeekOf, YearOf, YearStart, HourOf, MinuteOf;
    var day := DayOf(start);
    YearBounds(day);
    WeekYearBounds(day);
  }

  lemma YearBounds(day: int)
    requires YearStart(-262144) <= day < YearStart(262144)
    ensures -262144 <= YearOf(day) < 262144
  {
    var year := YearOf(day);
    if year < -262144 {
      if year + 1 < -262144 { YearStartMonotone(year + 1, -262144); }
    } else if year >= 262144 {
      if year > 262144 { YearStartMonotone(262144, year); }
    }
  }

  lemma WeekYearBounds(day: int)
    requires YearStart(-262144) <= day < YearStart(262144)
    ensures -262145 <= IsoWeekOf(day).year <= 262144
  {
    NextYearStart(-262145);
    NextYearStart(262144);
    var year := YearOf(MondayOf(day) + 3);
    if year < -262145 {
      if year + 1 < -262145 { YearStartMonotone(year + 1, -262145); }
    } else if year > 262144 {
      if year > 262145 { YearStartMonotone(262145, year); }
    }
  }

  /** The numbers that `parse` reads from the segments of a path. */
  method ParseFields(path: string, g: Granularity) returns (r: Option<seq<int>>)
    ensures r.Some? ==> |r.value| == |Names(g)| && IsPathOf(path, g, r.value)
    ensures forall fields :: IsPathOf(path, g, fields) ==> r == Some(fields)
  {
    hide CanonicalInteger, SplitOnce, Names, Split, ShowInt, Segment, Segments;
    var parts := Split(path, '/');
    var expected := Names(g);
    if |parts| != |expected| {
      return None;
    }
    var values: seq<int> := [];
    for i := 0 to |parts|
      invariant |values| == i
      invariant forall j :: 0 <= j < i ==> parts[j] == Segment(expected[j], values[j]) && IsI64(values[j])
      invariant forall fields :: IsPathOf(path, g, fields) ==> values == fields[..i]
    {
      forall fields | IsPathOf(path, g, fields)
        ensures SplitOnce(parts[i], '=') == Some((expected[i], ShowInt(fields[i])))
        ensures CanonicalInteger(ShowInt(fields[i])) == Some(fields[i])
        ensures fields[..i] + [fields[i]] == fields[..i + 1]
      {
        SegmentPieces(expected[i], fields[i]);
      }
      var pieces := SplitOnce(parts[i], '=');
      if pieces.None? {
        return None;
      }
      var value := CanonicalInteger(pieces.value.1);
      if value.None? || pieces.value.0 != expected[i] {
        return None;
      }
      SegmentFromPieces(parts[i], expected[i], value.value);
      values := values + [value.value];
    }
    assert parts == Segments(expected, values) by {
      SegmentsAre(expected, values, parts);
    }
    assert forall fields :: IsPathOf(path, g, fields) ==> fields[..|parts|] == fields;
    return Some(values);
  }

  lemma SegmentFromPieces(part: string, name: string, n: int)
    requires SplitOnce(part, '=') == Some((name, ShowInt(n)))
    ensures part == Segment(name, n)
  {
    hide ShowInt;
    var i := IndexOf(part, '=');
    assert part == part[..i] + [part[i]] + part[i + 1..];
  }

  lemma SegmentsAre(names: seq<string>, fields: seq<int>, parts: seq<string>)
    requires |names| == |fields| == |parts| && forall i :: 0 <= i < |parts| ==> parts[i] == Segment(names[i], fields[i])
    ensures parts == Segments(names, fields)
  {
  }

  ghost predicate IsPathOf(path: string, g: Granularity, fields: seq<int>) {
    && |fields| == |Names(g)|
    && Split(path, '/') == Segments(Names(g), fields)
    && (forall i :: 0 <= i < |fields| ==> IsI64(fields[i]))
  }

  lemma CanonicalParses(w: Window, g: Granularity, k: int)
    requires w.Valid() && Fits(w, g, k)
    ensures var fields := Fields(g, BucketStart(g, k));
            && IsPathOf(Canonical(g, k).path, g, fields)
            && -0x8000_0000 <= fields[0] < 0x8000_0000
            && StartFromFields(w, g, fields) == Ok(BucketStart(g, k))
    ensures w.Has(BucketStart(g, k))
    ensures BuildPartition(w, BucketStart(g, k), g) == Ok(Canonical(g, k))
  {
    hide BucketStart, PathOf, BuildPartition, StartFromFields, Bucket, Fields;
    PathSplits(g, BucketStart(g, k));
    FieldsInvert(w, g, k);
    FieldsAreI64(w, g, BucketStart(g, k));
    BucketStartsAt(g, k);
    BuildIsBucket(w, BucketStart(g, k), g);
  }

  /**
   `parse`: accepts exactly the canonical paths of representable partitions, and
   returns the partition that has the path.
   */
  method Parse(w: Window, path: string, g: Granularity) returns (r: Result<Partition>)
    requires w.Valid()
    ensures r.Ok? ==> path == r.value.path && exists k :: Fits(w, g, k) && r.value == Canonical(g, k)
    ensures forall k :: Fits(w, g, k) && Canonical(g, k).path == path ==> r == Ok(Canonical(g, k))
  {
    hide Fits, Canonical, Bucket, BucketStart, BuildPartition, StartFromFields, Fields, IsPathOf;
    forall k | Fits(w, g, k) && Canonical(g, k).path == path
      ensures var fields := Fields(g, BucketStart(g, k));
              && IsPathOf(path, g, fields)
              && -0x8000_0000 <= fields[0] < 0x8000_0000
              && StartFromFields(w, g, fields) == Ok(BucketStart(g, k))
      ensures w.Has(BucketStart(g, k)) && BuildPartition(w, BucketStart(g, k), g) == Ok(Canonical(g, k))
    {
      CanonicalParses(w, g, k);
    }
    var values := ParseFields(path, g);
    if values.None? {
      return Err(PathInvalid);
    }
    if !(-0x8000_0000 <= values.value[0] < 0x8000_0000) {
      return Err(PathInvalid);
    }
    var start := StartFromFields(w, g, values.value);
    if start.Err? {
      return Err(PathInvalid);
    }
    BuildIsBucket(w, start.value, g);
    r := BuildPartition(w, start.value, g);
    if r.Ok? && r.value.path != path {
      r := Err(PathInvalid);
    }
  }

  // ---------- Planning ----------

  /** Number of partitions that overlap [from, until). */
  function OverlapCount(g: Granularity, from: Instant, until: Instant): (n: nat)
    requires from < until
    ensures n >= 1
  {
    BucketMonotone(g, from, until - 1);
    Bucket(g, until - 1) - Bucket(g, from) + 1
  }

  /**
   The planned partitions are the overlapping ones, by number. Planning also builds
   the partition after the last one it returns, so it needs the end of that
   partition inside the window as well.
   */
  function Planned(w: Window, from: Instant, until: Instant, g: Granularity, limit: nat): Result<seq<Partition>>
    requires from < until
  {
    var first := Bucket(g, from);
    var count := OverlapCount(g, from, until);
    var built := if count <= limit then count else limit;
    if !w.Has(BucketStart(g, first)) || !w.Has(BucketStart(g, first + built + 1)) then Err(PartitionOutOfRange)
    else if count > limit then Err(LimitExceeded)
    else Ok(seq(count, i => Canonical(g, first + i)))
  }

  function PlanResult(w: Window, from: int, until: int, unit: Unit, g: Granularity, limit: nat)
    : Result<seq<Partition>>
    requires IsI64(from) && IsI64(until)
  {
    var start, end := InstantOf(w, from, unit), InstantOf(w, until, unit);
    if limit == 0 then Err(ZeroLimit)
    else if start.Err? || end.Err? then Err(TimestampOutOfRange)
    else if start.value > end.value then Err(ReversedRange)
    else if start.value == end.value then Ok([])
    else Planned(w, start.value, end.value, g, limit)
  }

  /** `plan`: check the range, then walk it. */
  method Plan(w: Window, from: int, until: int, unit: Unit, g: Granularity, limit: nat)
    returns (r: Result<seq<Partition>>)
    requires IsI64(from) && IsI64(until)
    ensures r == PlanResult(w, from, until, unit, g, limit)
  {
    if limit == 0 {
      return Err(ZeroLimit);
    }
    var start := InstantOf(w, from, unit);
    if start.Err? {
      return Err(start.error);
    }
    var end := InstantOf(w, until, unit);
    if end.Err? {
      return Err(end.error);
    }
    if start.value > end.value {
      return Err(ReversedRange);
    }
    if start.value == end.value {
      return Ok([]);
    }
    r := WalkPartitions(w, start.value, end.value, g, limit);
  }

  /** The loop of `plan`: from partition to partition, until one starts at or after the end. */
  method WalkPartitions(w: Window, from: Instant, until: Instant, g: Granularity, limit: nat)
    returns (r: Result<seq<Partition>>)
    requires w.Has(from) && w.Has(until) && from < until
    ensures r == Planned(w, from, until, g, limit)
  {
    hide Bucket, BucketStart, BuildPartition, PathOf, Planned, OverlapCount;
    ghost var first, count := Bucket(g, from), OverlapCount(g, from, until);
    BuildIsBucket(w, from, g);
    var build := BuildPartition(w, from, g);
    if build.Err? {
      NeverReached(w, g, from, until, 0, limit);
      return build.MapError();
    }
    var current := build.value;
    var output: seq<Partition> := [];
    while current.Start() < until
      invariant |output| <= limit && |output| <= count
      invariant forall i :: 0 <= i < |output| ==> output[i] == Canonical(g, first + i)
      invariant current == Canonical(g, first + |output|) && Fits(w, g, first + |output|)
      invariant w.Has(BucketStart(g, first))
      decreases count - |output|
    {
      StepWindow(g, from, until, |output|);
      if |output| == limit {
        PlanStops(w, g, from, until, limit, output);
        return Err(LimitExceeded);
      }
      var next := current.Until();
      output := output + [current];
      BucketStartsAt(g, first + |output|);
      BuildIsBucket(w, next, g);
      build := BuildPartition(w, next, g);
      if build.Err? {
        NeverReached(w, g, from, until, |output|, limit);
        return build.MapError();
      }
      current := build.value;
    }
    StepWindow(g, from, until, |output|);
    PlanStops(w, g, from, until, limit, output);
    return Ok(output);
  }

  /** Where the walk stops, at the end of the range or at the limit. */
  lemma PlanStops(w: Window, g: Granularity, from: Instant, until: Instant, limit: nat, output: seq<Partition>)
    requires from < until && |output| <= limit && |output| <= OverlapCount(g, from, until)
    requires forall i :: 0 <= i < |output| ==> output[i] == Canonical(g, Bucket(g, from) + i)
    requires w.Has(BucketStart(g, Bucket(g, from))) && Fits(w, g, Bucket(g, from) + |output|)
    ensures |output| == OverlapCount(g, from, until) ==> Planned(w, from, until, g, limit) == Ok(output)
    ensures |output| == limit < OverlapCount(g, from, until) ==>
              Planned(w, from, until, g, limit) == Err(LimitExceeded)
  {
    hide Bucket, BucketStart, Canonical, DayOf;
    var first, count := Bucket(g, from), OverlapCount(g, from, until);
    if |output| == count {
      assert output == seq(count, i => Canonical(g, first + i));
    }
  }

  /** The i-th partition from the first starts before the end exactly when it overlaps. */
  lemma StepWindow(g: Granularity, from: Instant, until: Instant, i: nat)
    requires from < until
    ensures BucketStart(g, Bucket(g, from) + i) < until <==> i < OverlapCount(g, from, until)
  {
    hide Bucket, BucketStart;
    var first, last := Bucket(g, from), Bucket(g, until - 1);
    BucketRange(g, until - 1, last);
    if i < OverlapCount(g, from, until) {
      BucketStartMonotone(g, first + i, last);
    } else {
      BucketStartMonotone(g, last + 1, first + i);
    }
  }

  /** If partition i from the first does not fit, neither does the span that planning needs. */
  lemma NeverReached(w: Window, g: Granularity, from: Instant, until: Instant, i: nat, limit: nat)
    requires from < until && w.Has(from) && w.Has(until)
    requires !Fits(w, g, Bucket(g, from) + i)
    requires i <= OverlapCount(g, from, until) && i <= limit
    ensures Planned(w, from, until, g, limit) == Err(PartitionOutOfRange)
  {
    hide Bucket, BucketStart, DayOf, Canonical;
    var first := Bucket(g, from);
    var count := OverlapCount(g, from, until);
    var built := if count <= limit then count else limit;
    var a, d := BucketStart(g, first), BucketStart(g, first + built + 1);
    BucketStartMonotone(g, first, first + i);
    BucketStartMonotone(g, first + i, first + i + 1);
    BucketStartMonotone(g, first + i + 1, first + built + 1);
    if w.Has(a) && w.Has(d) {
      WindowConvex(w, a, BucketStart(g, first + i), d);
      WindowConvex(w, a, BucketStart(g, first + i + 1), d);
    }
  }

  /** A numbered partition overlaps a range exactly when it is one of the planned ones. */
  lemma OverlapRange(g: Granularity, from: Instant, until: Instant, k: int)
    requires from < until
    ensures BucketStart(g, k) < until && from < BucketStart(g, k + 1) <==>
            Bucket(g, from) <= k < Bucket(g, from) + OverlapCount(g, from, until)
  {
    hide Bucket, BucketStart, BuildPartition;
    var first, last := Bucket(g, from), Bucket(g, until - 1);
    BucketRange(g, from, first);
    BucketRange(g, until - 1, last);
    if k < first {
      BucketStartMonotone(g, k + 1, first);
    } else if k > last {
      BucketStartMonotone(g, last + 1, k);
    } else {
      BucketStartMonotone(g, k, last);
      BucketStartMonotone(g, first + 1, k + 1);
    }
  }

  /**
   A plan tiles its range: consecutive partitions touch, the first holds the start,
   the last reaches the end, each overlaps the range, and every instant of the range
   lies in exactly one partition, the one that `BuildPartition` gives for it.
   */
  lemma PlanTiles(w: Window, from: Instant, until: Instant, g: Granularity, limit: nat)
    requires w.Has(from) && w.Has(until) && from < until
    requires Planned(w, from, until, g, limit).Ok?
    ensures var plan := Planned(w, from, until, g, limit).value;
            && 1 <= |plan| <= limit
            && (forall i :: 0 <= i < |plan| - 1 ==> plan[i].Until() == plan[i + 1].Start())
            && (forall i :: 0 <= i < |plan| ==> plan[i].Start() < until && from < plan[i].Until())
            && plan[0].Start() <= from && until <= plan[|plan| - 1].Until()
            && (forall t, i :: from <= t < until && 0 <= i < |plan| ==>
                  (plan[i].Start() <= t < plan[i].Until() <==> i == Bucket(g, t) - Bucket(g, from)))
            && (forall t :: from <= t < until ==>
                  0 <= Bucket(g, t) - Bucket(g, from) < |plan|
                  && w.Has(t) && BuildPartition(w, t, g) == Ok(plan[Bucket(g, t) - Bucket(g, from)]))
  {
    hide Bucket, BucketStart, BuildPartition, Planned, DayOf, OverlapCount, Canonical;
    var plan := Planned(w, from, until, g, limit).value;
    var first := Bucket(g, from);
    PlanEnds(w, from, until, g, limit);
    forall i | 0 <= i < |plan|
      ensures plan[i] == Canonical(g, first + i) && plan[i].Start() < until && from < plan[i].Until()
    {
      PlanEntry(w, from, until, g, limit, i);
    }
    forall t, i | from <= t < until && 0 <= i < |plan|
      ensures plan[i].Start() <= t < plan[i].Until() <==> i == Bucket(g, t) - first
    {
      BucketRange(g, t, first + i);
    }
    forall t | from <= t < until
      ensures 0 <= Bucket(g, t) - first < |plan|
      ensures w.Has(t) && BuildPartition(w, t, g) == Ok(plan[Bucket(g, t) - first])
    {
      PlanLocates(w, from, until, g, limit, t);
    }
  }

  lemma PlanEnds(w: Window, from: Instant, until: Instant, g: Granularity, limit: nat)
    requires w.Has(from) && w.Has(until) && from < until
    requires Planned(w, from, until, g, limit).Ok?
    ensures var plan := Planned(w, from, until, g, limit).value;
            && 1 <= |plan| <= limit
            && plan[0].Start() <= from && until <= plan[|plan| - 1].Until()
  {
    hide Bucket, BucketStart, DayOf, Planned, BuildPartition, PathOf;
    var plan := Planned(w, from, until, g, limit).value;
    PlanEntry(w, from, until, g, limit, 0);
    PlanEntry(w, from, until, g, limit, |plan| - 1);
    BucketRange(g, from, Bucket(g, from));
    BucketRange(g, until - 1, Bucket(g, until - 1));
  }

  lemma PlanEntry(w: Window, from: Instant, until: Instant, g: Granularity, limit: nat, i: nat)
    requires w.Has(from) && w.Has(until) && from < until
    requires Planned(w, from, until, g, limit).Ok?
    ensures var plan := Planned(w, from, until, g, limit).value;
            var k := Bucket(g, from) + i;
            && 1 <= |plan| <= limit
            && |plan| == OverlapCount(g, from, until)
            && (i < |plan| ==>
                  && plan[i] == Canonical(g, k) && Fits(w, g, k)
                  && plan[i].Start() < until && from < plan[i].Until())
  {
    hide Bucket, BucketStart, DayOf, PathOf;
    var first := Bucket(g, from);
    var count := OverlapCount(g, from, until);
    if i < count {
      OverlapRange(g, from, until, first + i);
      var a, b, c, d := BucketStart(g, first), BucketStart(g, first + i), BucketStart(g, first + i + 1),
                        BucketStart(g, first + count + 1);
      BucketStartMonotone(g, first, first + i);
      BucketStartMonotone(g, first + i, first + i + 1);
      BucketStartMonotone(g, first + i + 1, first + count + 1);
      WindowConvex(w, a, b, d);
      WindowConvex(w, a, c, d);
    }
  }

  lemma PlanLocates(w: Window, from: Instant, until: Instant, g: Granularity, limit: nat, t: Instant)
    requires w.Has(from) && w.Has(until) && from <= t < until
    requires Planned(w, from, until, g, limit).Ok?
    ensures var plan := Planned(w, from, until, g, limit).value;
            var i := Bucket(g, t) - Bucket(g, from);
            0 <= i < |plan| && w.Has(t) && BuildPartition(w, t, g) == Ok(plan[i])
  {
    hide Bucket, BucketStart, BuildPartition, Planned, PathOf, OverlapCount, Canonical, Fits, DayOf;
    var k := Bucket(g, t);
    BucketInRange(g, from, until, t);
    PlanEntry(w, from, until, g, limit, k - Bucket(g, from));
    WindowConvex(w, from, t, until);
    BuildIsBucket(w, t, g);
  }

  lemma BucketInRange(g: Granularity, from: Instant, until: Instant, t: Instant)
    requires from <= t < until
    ensures 0 <= Bucket(g, t) - Bucket(g, from) < OverlapCount(g, from, until)
  {
    hide Bucket, BucketStart;
    BucketRange(g, t, Bucket(g, t));
    OverlapRange(g, from, until, Bucket(g, t));
    BucketMonotone(g, from, t);
  }

  /**
   When a plan is refused: exactly if more than `limit` partitions overlap the range, or the first
   of them begins outside the window, or the partition *after* the last of them ends outside it.
   Within the window it is the limit that is reported.
   */
  lemma PlanRefused(w: Window, from: Instant, until: Instant, g: Granularity, limit: nat)
    requires w.Has(from) && w.Has(until) && from < until
    ensures var first, count := Bucket(g, from), OverlapCount(g, from, until);
            var result := Planned(w, from, until, g, limit);
            && (result.Ok? <==>
                  count <= limit && w.Has(BucketStart(g, first)) && w.Has(BucketStart(g, first + count + 1)))
            && (count > limit && w.Has(BucketStart(g, first)) && w.Has(BucketStart(g, first + count)) ==>
                result == Err(LimitExceeded))
  {
    hide Bucket, BucketStart;
    var first := Bucket(g, from);
    var count := OverlapCount(g, from, until);
    if count > limit && w.Has(BucketStart(g, first)) && w.Has(BucketStart(g, first + count)) {
      BucketStartMonotone(g, first, first + limit + 1);
      BucketStartMonotone(g, first + limit + 1, first + count);
      WindowConvex(w, BucketStart(g, first), BucketStart(g, first + limit + 1), BucketStart(g, first + count));
    }
  }

  /** The last day of a window fits it and the limit, and is refused because the day after it ends outside. */
  lemma LastDayRefused()
    ensures var w, from, until := Window(0, 2), NANOS_PER_DAY, 2 * NANOS_PER_DAY;
            && w.Has(from) && w.Has(until) && Fits(w, Day, 1)
            && BucketStart(Day, 1) == from && BucketStart(Day, 2) == until
            && OverlapCount(Day, from, until) == 1
            && Planned(w, from, until, Day, 1) == Err(PartitionOutOfRange)
  {
    PlanRefused(Window(0, 2), NANOS_PER_DAY, 2 * NANOS_PER_DAY, Day, 1);
  }
}
