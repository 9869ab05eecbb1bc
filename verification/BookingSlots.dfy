/** The booking widget: which times of a day it offers, and what booking them does to the day. Times are minutes of the
    day. */
module BookingSlots {
  import opened Arithmetic
  import opened Decimals

  datatype Interval = Interval(start: int, end: int)

  /** `slotDuration` is validated to 15..240 when the widget is configured. */
  datatype Widget = Widget(workingDays: set<int>, windowStart: nat, windowEnd: int, slotDuration: nat)

  // ---------- Times as text ----------

  function Pad(n: nat): string { if n < 10 then "0" + Decimal(n) else Decimal(n) }

  function HourMinute(t: nat): string { Pad(t / 60) + ":" + Pad(t % 60) }

  function Colon(s: string): nat {
    if s == [] || s[0] == ':' then 0 else 1 + Colon(s[1..])
  }

  predicate IsTime(s: string) {
    Colon(s) < |s| && IsNumber(s[..Colon(s)]) && IsNumber(s[Colon(s) + 1..])
  }

  /** `split(':').map(Number)`, in minutes. */
  function Minutes(s: string): nat
    requires IsTime(s)
  {
    Value(s[..Colon(s)]) * 60 + Value(s[Colon(s) + 1..])
  }

  lemma PadRoundTrip(n: nat)
    ensures IsNumber(Pad(n)) && Value(Pad(n)) == n
  {
    DecimalRoundTrip(n);
    if n < 10 {
      assert Pad(n) == ['0', Digit(n)];
      assert Pad(n)[..1] == ['0'] && ['0'][..0] == [];
    }
  }

  lemma {:induction false} ColonAfter(digits: string, rest: string)
    requires IsNumber(digits)
    ensures Colon(digits + ":" + rest) == |digits|
  {
    if digits != [] {
      assert IsDigit(digits[0]);
      assert (digits + ":" + rest)[1..] == digits[1..] + ":" + rest;
      ColonAfter(digits[1..], rest);
    }
  }

  /** A time that is offered as text is read back as the same minute. */
  lemma TimeRoundTrip(t: nat)
    ensures IsTime(HourMinute(t)) && Minutes(HourMinute(t)) == t
  {
    var h, m := Pad(t / 60), Pad(t % 60);
    PadRoundTrip(t / 60);
    PadRoundTrip(t % 60);
    ColonAfter(h, m);
    var s := HourMinute(t);
    assert s[..|h|] == h && s[|h| + 1..] == m;
  }

  lemma TwoDigits(n: nat)
    requires n < 100
    ensures |Pad(n)| == 2
  {
    assert n >= 10 ==> |Decimal(n / 10)| == 1;
  }

  /** A time of the day is written with two digits for the hour, a colon, and two for the minute. */
  lemma TimeShape(t: nat)
    requires t < 24 * 60
    ensures |HourMinute(t)| == 5 && HourMinute(t)[2] == ':'
    ensures IsNumber(HourMinute(t)[..2]) && Value(HourMinute(t)[..2]) == t / 60 < 24
    ensures IsNumber(HourMinute(t)[3..]) && Value(HourMinute(t)[3..]) == t % 60 < 60
  {
    PadRoundTrip(t / 60);
    PadRoundTrip(t % 60);
    TwoDigits(t / 60);
    TwoDigits(t % 60);
    assert HourMinute(t)[..2] == Pad(t / 60) && HourMinute(t)[3..] == Pad(t % 60);
  }

  // ---------- What is offered ----------

  predicate Overlaps(b: Interval, t: int, end: int) { t < b.end && end > b.start }

  predicate Free(blocked: seq<Interval>, t: int, duration: int) {
    forall b :: b in blocked ==> !Overlaps(b, t, t + duration)
  }

  /** The times on the widget's grid whose interval fits the working hours and misses every appointment. */
  ghost predicate Offered(w: Widget, blocked: seq<Interval>, duration: int, t: nat) {
    && (exists k: nat :: t == w.windowStart + k * w.slotDuration)
    && t + duration <= w.windowEnd
    && Free(blocked, t, duration)
  }

  // ---------- What booking keeps ----------

  predicate Apart(a: Interval, b: Interval) { a.end <= b.start || b.end <= a.start }

  predicate PairwiseApart(day: seq<Interval>) { forall i, j :: 0 <= i < j < |day| ==> Apart(day[i], day[j]) }

  function Booked(day: seq<Interval>, t: int, duration: int): seq<Interval> {
    day + [Interval(t, t + duration)]
  }

  /** The booking step does not look at the day again: it keeps the appointments apart exactly when the time is still
      free for the booked duration. */
  lemma BookingKeepsApartIff(day: seq<Interval>, t: int, duration: int)
    requires PairwiseApart(day)
    ensures PairwiseApart(Booked(day, t, duration)) <==> Free(day, t, duration)
  {
    var day' := Booked(day, t, duration);
    if PairwiseApart(day') {
      forall b | b in day ensures !Overlaps(b, t, t + duration) {
        var i :| 0 <= i < |day| && day[i] == b;
        assert Apart(day'[i], day'[|day|]);
      }
    } else {
      var i, j :| 0 <= i < j < |day'| && !Apart(day'[i], day'[j]);
      assert j == |day| && day'[i] in day;
    }
  }

  predicate Inside(w: Widget, b: Interval) { w.windowStart <= b.start && b.end <= w.windowEnd }

  lemma NotNegative(a: nat, b: nat)
    ensures a * b >= 0
  {
  }

  /** What is offered: exactly the grid times that lie inside the working hours, touching their end allowed, and whose
      booking keeps the day's appointments apart. */
  lemma OfferedIff(w: Widget, day: seq<Interval>, duration: int, t: nat)
    requires PairwiseApart(day)
    ensures Offered(w, day, duration, t) <==>
      && (exists k: nat :: t == w.windowStart + k * w.slotDuration)
      && Inside(w, Interval(t, t + duration)) && PairwiseApart(Booked(day, t, duration))
  {
    BookingKeepsApartIff(day, t, duration);
    forall k: nat ensures k * w.slotDuration >= 0 {
      NotNegative(k, w.slotDuration);
    }
  }

  /** The offer is made for the duration in the query, the appointment is booked for the duration of the service. A
      longer service collides exactly with the appointments that begin between the two ends. */
  lemma LongerServiceCollidesIff(day: seq<Interval>, t: int, asked: nat, service: nat)
    requires PairwiseApart(day) && Free(day, t, asked) && asked <= service
    requires forall b :: b in day ==> b.start < b.end
    ensures PairwiseApart(Booked(day, t, service)) <==> forall b :: b in day ==> !(t + asked <= b.start < t + service)
  {
    BookingKeepsApartIff(day, t, service);
    assert forall b :: b in day ==>
      (Overlaps(b, t, t + service) <==> t + asked <= b.start < t + service);
  }

  // ---------- Runs of offers, bookings and cancellations ----------

  datatype Step =
    | Book(t: nat, asked: nat, service: nat)
    | Cancel(index: nat)

  /** A visitor books a time that is on offer at that moment, for a service no longer than asked for. */
  ghost predicate Enabled(w: Widget, day: seq<Interval>, step: Step) {
    match step
    case Book(t, asked, service) => Offered(w, day, asked, t) && service <= asked
    case Cancel(i) => i < |day|
  }

  function Next(day: seq<Interval>, step: Step): seq<Interval> {
    match step
    case Book(t, _, service) => Booked(day, t, service)
    case Cancel(i) => if i < |day| then day[..i] + day[i + 1..] else day
  }

  function Exec(day: seq<Interval>, run: seq<Step>): seq<Interval> {
    if run == [] then day else Next(Exec(day, run[..|run| - 1]), run[|run| - 1])
  }

  ghost predicate Possible(w: Widget, day: seq<Interval>, run: seq<Step>) {
    run != [] ==>
      && Possible(w, day, run[..|run| - 1])
      && Enabled(w, Exec(day, run[..|run| - 1]), run[|run| - 1])
  }

  lemma BookKeepsApart(w: Widget, day: seq<Interval>, t: nat, asked: nat, service: nat)
    requires PairwiseApart(day) && Offered(w, day, asked, t) && service <= asked
    ensures PairwiseApart(Booked(day, t, service)) && Inside(w, Interval(t, t + service))
  {
    assert Free(day, t, service) by {
      forall b | b in day ensures !Overlaps(b, t, t + service) {
        assert !Overlaps(b, t, t + asked);
      }
    }
    BookingKeepsApartIff(day, t, service);
    var k: nat :| t == w.windowStart + k * w.slotDuration;
    NotNegative(k, w.slotDuration);
  }

  lemma CancelKeepsApart(day: seq<Interval>, i: nat)
    requires PairwiseApart(day) && i < |day|
    ensures PairwiseApart(day[..i] + day[i + 1..])
  {
    var rest := day[..i] + day[i + 1..];
    assert forall j :: 0 <= j < |rest| ==> rest[j] == day[if j < i then j else j + 1];
  }

  /** No run that books what is on offer ever double-books, and everything booked lies within the working hours. */
  lemma {:induction false} RunsNeverDoubleBook(w: Widget, day: seq<Interval>, run: seq<Step>)
    requires PairwiseApart(day) && Possible(w, day, run)
    ensures PairwiseApart(Exec(day, run))
    ensures forall b :: b in Exec(day, run) ==> b in day || Inside(w, b)
  {
    if run != [] {
      var init, step := run[..|run| - 1], run[|run| - 1];
      RunsNeverDoubleBook(w, day, init);
      match step {
        case Book(t, asked, service) => BookKeepsApart(w, Exec(day, init), t, asked, service);
        case Cancel(i) => CancelKeepsApart(Exec(day, init), i);
      }
    }
  }

  /** Two visitors who hold the same offer both get it. */
  lemma StaleOfferDoubleBooks(w: Widget, day: seq<Interval>, t: nat, duration: nat)
    requires PairwiseApart(day) && Offered(w, day, duration, t) && duration > 0
    ensures PairwiseApart(Booked(day, t, duration)) && !PairwiseApart(Booked(Booked(day, t, duration), t, duration))
  {
    BookingKeepsApartIff(day, t, duration);
    BookingKeepsApartIff(Booked(day, t, duration), t, duration);
    assert Booked(day, t, duration)[|day|] == Interval(t, t + duration);
    assert Interval(t, t + duration) in Booked(day, t, duration);
  }

  // ---------- The service ----------

  lemma MulStep(a: nat, b: nat, c: nat)
    requires a < b
    ensures a * c + c <= b * c
  {
    MulMonotone(a + 1, b, c);
    assert (a + 1) * c == a * c + c;
  }

  /** Between one grid time and the next there is no other. */
  lemma GridStep(w: Widget, k: nat, t: nat)
    requires w.slotDuration > 0 && t == w.windowStart + k * w.slotDuration
    ensures forall m: nat :: t <= w.windowStart + m * w.slotDuration < t + w.slotDuration ==> m == k
    ensures t + w.slotDuration == w.windowStart + (k + 1) * w.slotDuration
  {
    forall m: nat | m != k ensures !(t <= w.windowStart + m * w.slotDuration < t + w.slotDuration) {
      if m < k {
        MulStep(m, k, w.slotDuration);
      } else {
        MulStep(k, m, w.slotDuration);
      }
    }
  }

  lemma SlotsAreTimes(slots: seq<string>, times: seq<nat>)
    requires |slots| == |times| && forall i :: 0 <= i < |times| ==> slots[i] == HourMinute(times[i])
    ensures forall i :: 0 <= i < |slots| ==> IsTime(slots[i]) && Minutes(slots[i]) == times[i]
    ensures forall u: nat :: HourMinute(u) in slots <==> u in times
  {
    forall i | 0 <= i < |slots| ensures IsTime(slots[i]) && Minutes(slots[i]) == times[i] {
      TimeRoundTrip(times[i]);
    }
    forall u: nat ensures HourMinute(u) in slots <==> u in times {
      TimeRoundTrip(u);
      if HourMinute(u) in slots {
        var i :| 0 <= i < |slots| && slots[i] == HourMinute(u);
        assert times[i] == u;
      }
    }
  }

  class BookingService {
    const widget: Widget
    var appointments: seq<Interval>

    constructor (widget: Widget, appointments: seq<Interval>)
      ensures this.widget == widget && this.appointments == appointments
    {
      this.widget, this.appointments := widget, appointments;
    }

    /** The offered times in ascending order: on a working day exactly the offered ones, each once. */
    method GetAvailableSlots(isoDay: int, duration: int) returns (slots: seq<string>)
      requires widget.slotDuration > 0
      ensures isoDay !in widget.workingDays ==> slots == []
      ensures forall i :: 0 <= i < |slots| ==> IsTime(slots[i]) && slots[i] == HourMinute(Minutes(slots[i]))
      ensures forall i, j :: 0 <= i < j < |slots| ==> Minutes(slots[i]) < Minutes(slots[j])
      ensures isoDay in widget.workingDays ==>
        forall t: nat :: HourMinute(t) in slots <==> Offered(widget, appointments, duration, t)
    {
      slots := [];
      if isoDay !in widget.workingDays {
        return;
      }
      ghost var times: seq<nat> := [];
      var t := widget.windowStart;
      ghost var k: nat := 0;
      while t + duration <= widget.windowEnd
        invariant t == widget.windowStart + k * widget.slotDuration
        invariant |slots| == |times| && forall i :: 0 <= i < |times| ==> slots[i] == HourMinute(times[i])
        invariant forall i :: 0 <= i < |times| ==> times[i] < t
        invariant forall i, j :: 0 <= i < j < |times| ==> times[i] < times[j]
        invariant forall u: nat :: u in times <==> Offered(widget, appointments, duration, u) && u < t
        decreases widget.windowEnd - duration - t
      {
        var overlaps := exists b :: b in appointments && t < b.end && t + duration > b.start;
        GridStep(widget, k, t);
        if !overlaps {
          slots := slots + [HourMinute(t)];
          times := times + [t];
        }
        t := t + widget.slotDuration;
        k := k + 1;
      }
      forall u: nat | Offered(widget, appointments, duration, u) ensures u < t {
        assert u + duration <= widget.windowEnd;
      }
      SlotsAreTimes(slots, times);
    }

    /** The insert of `createAppointmentFromWidget`: no second look at the day. */
    method Book(t: int, duration: int)
      modifies this
      ensures appointments == Booked(old(appointments), t, duration)
    {
      appointments := appointments + [Interval(t, t + duration)];
    }
  }
}
