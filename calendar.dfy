/**
 * The events of the dashboard calendar (frontend/src/pages/dashboard/components/Calendar.tsx):
 * one per task that is not completed, in list order, titled with the
 * description, coloured by urgency, dated with the due date in local time.
 * The date uses the corrected 24-hour `Format`; the source's 12-hour `hh`
 * format is `FormatAsWritten`.
 */
module Calendar {
  import opened TaskModel
  import opened ClientTasks

  type Year = y: int | 0 <= y <= 9999
  type Month = m: int | 1 <= m <= 12 witness 1
  type Day = d: int | 1 <= d <= 31 witness 1
  type Hour = h: int | 0 <= h < 24
  type Minute = m: int | 0 <= m < 60

  /** A due date in the browser's time zone; the conversion from milliseconds is a parameter of the model. */
  datatype LocalTime = LocalTime(year: Year, month: Month, day: Day, hour: Hour, minute: Minute)

  function Digit(d: int): char
    requires 0 <= d < 10
  {
    (('0' as int) + d) as char
  }

  function DigitValue(c: char): int
  {
    (c as int) - ('0' as int)
  }

  /** A number below 100 in two digits. */
  function Two(n: int): (s: string)
    requires 0 <= n < 100
    ensures |s| == 2 && DigitValue(s[0]) * 10 + DigitValue(s[1]) == n
  {
    [Digit(n / 10), Digit(n % 10)]
  }

  /** A number below 10000 in four digits. */
  function Four(n: int): (s: string)
    requires 0 <= n < 10000
    ensures |s| == 4 && DigitValue(s[0]) * 1000 + DigitValue(s[1]) * 100 + DigitValue(s[2]) * 10 + DigitValue(s[3]) == n
  {
    Two(n / 100) + Two(n % 100)
  }

  /** The `hh` token of dayjs: the hour on a 12-hour clock, 12 for midnight and noon. */
  function Hour12(h: Hour): (r: int)
    ensures 1 <= r <= 12 && r % 12 == h % 12
  {
    if h % 12 == 0 then 12 else h % 12
  }

  /** `format("YYYY-MM-DD hh:mm")` as written: a 12-hour hour without a meridiem. */
  function FormatAsWritten(t: LocalTime): (s: string)
    ensures |s| == 16
    ensures 1 <= DigitValue(s[11]) * 10 + DigitValue(s[12]) <= 12
  {
    Four(t.year) + "-" + Two(t.month) + "-" + Two(t.day) + " " + Two(Hour12(t.hour)) + ":" + Two(t.minute)
  }

  /** As written, every due date gets the same calendar date as the one twelve hours away: 14:30 is shown at 02:30. */
  lemma FormatAsWrittenConfusesHalfDays(t: LocalTime)
    ensures FormatAsWritten(t) == FormatAsWritten(t.(hour := (t.hour + 12) % 24))
    ensures t.(hour := (t.hour + 12) % 24) != t
  {
    assert Hour12(t.hour) == Hour12((t.hour + 12) % 24);
  }

  /** `format("YYYY-MM-DD HH:mm")`, the 24-hour form FullCalendar reads back as the same time. */
  function Format(t: LocalTime): (s: string)
    ensures |s| == 16
  {
    Four(t.year) + "-" + Two(t.month) + "-" + Two(t.day) + " " + Two(t.hour) + ":" + Two(t.minute)
  }

  /** Reading the fields back from their positions in a formatted date. */
  function ReadBack(s: string): (int, int, int, int, int)
    requires |s| == 16
  {
    (DigitValue(s[0]) * 1000 + DigitValue(s[1]) * 100 + DigitValue(s[2]) * 10 + DigitValue(s[3]),
     DigitValue(s[5]) * 10 + DigitValue(s[6]),
     DigitValue(s[8]) * 10 + DigitValue(s[9]),
     DigitValue(s[11]) * 10 + DigitValue(s[12]),
     DigitValue(s[14]) * 10 + DigitValue(s[15]))
  }

  /** The corrected format loses nothing: every field is read back from it. */
  lemma FormatRoundTrip(t: LocalTime)
    ensures ReadBack(Format(t)) == (t.year as int, t.month as int, t.day as int, t.hour as int, t.minute as int)
  {
    var s := Format(t);
    var y, mo, d, h, mi := Four(t.year), Two(t.month), Two(t.day), Two(t.hour), Two(t.minute);
    assert s[0..4] == y && s[5..7] == mo && s[8..10] == d && s[11..13] == h && s[14..16] == mi;
    assert s[0] == y[0] && s[1] == y[1] && s[2] == y[2] && s[3] == y[3];
  }

  /** Hence distinct due dates get distinct calendar dates. */
  lemma FormatInjective(t: LocalTime, u: LocalTime)
    requires Format(t) == Format(u)
    ensures t == u
  {
    FormatRoundTrip(t);
    FormatRoundTrip(u);
  }

  datatype Event = Event(title: string, date: string, color: string)

  /** The event of one task. */
  function EventOf(t: ClientTask, local: int -> LocalTime): (e: Event)
    ensures e.title == t.description
    ensures e.color == (if t.urgency == Urgent then "red" else "blue")
    ensures e.date == Format(local(t.dueDate))
  {
    Event(t.description, Format(local(t.dueDate)), if t.urgency == Urgent then "red" else "blue")
  }

  /** `tasks.filter(({ status }) => status !== "completed")`. */
  function Pending(tasks: seq<ClientTask>): (r: seq<ClientTask>)
    ensures |r| <= |tasks|
    ensures forall i :: 0 <= i < |r| ==> r[i].status != Completed
  {
    if tasks == [] then []
    else if tasks[0].status != Completed then [tasks[0]] + Pending(tasks[1..])
    else Pending(tasks[1..])
  }

  /** `….map((task) => ({ title, date, color }))` over the pending tasks. */
  function Events(tasks: seq<ClientTask>, local: int -> LocalTime): (r: seq<Event>)
    ensures |r| == |Pending(tasks)|
    ensures forall i :: 0 <= i < |r| ==> r[i] == EventOf(Pending(tasks)[i], local)
  {
    var p := Pending(tasks);
    seq(|p|, i requires 0 <= i < |p| => EventOf(p[i], local))
  }

  /** A task is pending exactly when it is in the list and not completed. */
  lemma {:induction false} PendingMembers(tasks: seq<ClientTask>, t: ClientTask)
    ensures t in Pending(tasks) <==> t in tasks && t.status != Completed
    decreases |tasks|
  {
    if tasks != [] {
      PendingMembers(tasks[1..], t);
      assert tasks == [tasks[0]] + tasks[1..];
    }
  }

  /** Filtering works task by task: the pending tasks of a concatenation are those of each part, in order. */
  lemma {:induction false} PendingConcat(a: seq<ClientTask>, b: seq<ClientTask>)
    ensures Pending(a + b) == Pending(a) + Pending(b)
    decreases |a|
  {
    if a == [] {
      assert a + b == b;
    } else {
      assert (a + b)[0] == a[0] && (a + b)[1..] == a[1..] + b;
      PendingConcat(a[1..], b);
      if a[0].status != Completed {
        assert [a[0]] + (Pending(a[1..]) + Pending(b)) == ([a[0]] + Pending(a[1..])) + Pending(b);
      }
    }
  }

  /** The events of a concatenation are the events of each part, in order. */
  lemma EventsConcat(a: seq<ClientTask>, b: seq<ClientTask>, local: int -> LocalTime)
    ensures Events(a + b, local) == Events(a, local) + Events(b, local)
  {
    PendingConcat(a, b);
  }

  /** Exactly one event per task that is not completed, none for a completed one. */
  lemma EventsOfOneTask(t: ClientTask, local: int -> LocalTime)
    ensures Events([t], local) == if t.status == Completed then [] else [EventOf(t, local)]
  {
    assert [t][1..] == [];
  }
}
