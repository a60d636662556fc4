/**
 The retention-tier size estimate (bench/snapshot_roi.py, live_set): a sweep over
 arrival and departure events, proved equal to the brute-force maximum and
 integral over all instants.
 */
module LiveSet {
  import opened Common
  import opened Requests

  datatype Instant = At(ms: int) | Never {
    predicate Leq(other: Instant) {
      other.Never? || (this.At? && this.ms <= other.ms)
    }
    function Clip(last: int): int {
      if At? then Min(ms, last) else last
    }
  }

  // The snapshot one request leaves behind: alive in [finish, end).
  datatype Tail = Tail(finish: int, end: Instant, tokens: Amount) {
    predicate Valid() { end.Never? || finish < end.ms }
    predicate Alive(t: int) { finish <= t && (end.Never? || t < end.ms) }
    function Weight(perTail: real, perToken: real): real {
      perTail + tokens * perToken
    }
  }

  datatype Event = Event(time: Instant, delta: int, tokens: real) {
    function Value(perTail: real, perToken: real): real {
      delta as real * perTail + tokens * perToken
    }
    // Sort key (time, delta): departures come before arrivals of the same instant.
    predicate Leq(other: Event) {
      if time != other.time then time.Leq(other.time) else delta <= other.delta
    }
  }

  datatype Tier = Tier(peakSnapshots: int, peakBytes: real, meanSnapshots: real, meanBytes: real)

  // ----- Which tails a tier holds

  predicate Read(r: Turn, horizon: Horizon) {
    r.consumed.Some? && (horizon.Some? ==> r.consumed.value - r.info.finish <= horizon.value)
  }

  function EndOf(r: Turn, horizon: Horizon): Instant {
    var expiry := if horizon.Some? then At(r.info.finish + horizon.value) else Never;
    if r.consumed.None? then expiry
    else
      var use := At(Max(r.info.finish, r.consumed.value));
      if expiry.Leq(use) then expiry else use
  }

  function TailOf(r: Turn, horizon: Horizon, usefulOnly: bool): Option<Tail> {
    var end := EndOf(r, horizon);
    if (usefulOnly && !Read(r, horizon)) || end.Leq(At(r.info.finish)) then None
    else Some(Tail(r.info.finish, end, r.info.prompt + r.info.completion))
  }

  function Tails(requests: seq<Turn>, horizon: Horizon, usefulOnly: bool): (tails: seq<Tail>)
    ensures forall i :: 0 <= i < |tails| ==> tails[i].Valid()
  {
    if requests == [] then []
    else
      var rest := Tails(requests[..|requests| - 1], horizon, usefulOnly);
      match TailOf(requests[|requests| - 1], horizon, usefulOnly)
      case None => rest
      case Some(tail) => rest + [tail]
  }

  // ----- Brute-force specification

  // Total weight of the tails alive at t.
  function SizeAt(tails: seq<Tail>, t: int, perTail: real, perToken: real): real {
    if tails == [] then 0.0
    else
      var tail := tails[|tails| - 1];
      SizeAt(tails[..|tails| - 1], t, perTail, perToken) +
      (if tail.Alive(t) then tail.Weight(perTail, perToken) else 0.0)
  }

  // The largest size over all instants.
  ghost predicate IsPeak(tails: seq<Tail>, perTail: real, perToken: real, peak: real) {
    && (forall t: int :: SizeAt(tails, t, perTail, perToken) <= peak)
    && (exists t: int :: SizeAt(tails, t, perTail, perToken) == peak)
  }

  // Weight times time alive, up to `last`.
  function Area(tails: seq<Tail>, last: int, perTail: real, perToken: real): real {
    if tails == [] then 0.0
    else
      var tail := tails[|tails| - 1];
      Area(tails[..|tails| - 1], last, perTail, perToken) +
      (tail.end.Clip(last) - tail.finish) as real * tail.Weight(perTail, perToken)
  }

  // ----- The sweep

  function Arrival(tail: Tail): Event { Event(At(tail.finish), 1, tail.tokens) }

  function Departure(tail: Tail): Event { Event(tail.end, -1, 0.0 - tail.tokens) }

  function EventsOf(tails: seq<Tail>): seq<Event> {
    if tails == [] then []
    else
      var tail := tails[|tails| - 1];
      EventsOf(tails[..|tails| - 1]) + [Arrival(tail), Departure(tail)]
  }

  // Every event is an arrival at a finite instant or a departure.
  predicate WellFormed(events: seq<Event>) {
    forall i :: 0 <= i < |events| ==>
      && (events[i].delta == 1 || events[i].delta == -1)
      && (events[i].delta == 1 ==> events[i].time.At? && events[i].tokens >= 0.0)
      && (events[i].delta == -1 ==> events[i].tokens <= 0.0)
  }

  predicate Sorted(events: seq<Event>) {
    forall i, j :: 0 <= i < j < |events| ==> events[i].Leq(events[j])
  }

  // Insertion sort by (time, delta), stable.
  function Insert(e: Event, events: seq<Event>): seq<Event> {
    if events == [] || events[|events| - 1].Leq(e) then events + [e]
    else Insert(e, events[..|events| - 1]) + [events[|events| - 1]]
  }

  function Sort(events: seq<Event>): seq<Event> {
    if events == [] then [] else Insert(events[|events| - 1], Sort(events[..|events| - 1]))
  }

  // What one event adds to the sweep's totals: its value, its value if it has
  // happened by t, and its value times its clipped time.
  datatype Measure = Total | Until(t: int) | Moment(last: int) {
    function Of(e: Event, perTail: real, perToken: real): real {
      match this
      case Total => e.Value(perTail, perToken)
      case Until(t) => if e.time.Leq(At(t)) then e.Value(perTail, perToken) else 0.0
      case Moment(last) => e.Value(perTail, perToken) * e.time.Clip(last) as real
    }
  }

  // A measure summed over the first k events.
  function Sum(events: seq<Event>, k: nat, m: Measure, perTail: real, perToken: real): real
    requires k <= |events|
  {
    if k == 0 then 0.0
    else Sum(events, k - 1, m, perTail, perToken) + m.Of(events[k - 1], perTail, perToken)
  }

  lemma {:induction false} PrefixSum(a: seq<Event>, b: seq<Event>, k: nat, m: Measure, p: real, q: real)
    requires k <= |a| && k <= |b| && a[..k] == b[..k]
    ensures Sum(a, k, m, p, q) == Sum(b, k, m, p, q)
  {
    if k > 0 {
      assert a[..k - 1] == a[..k][..k - 1] == b[..k - 1];
      assert a[k - 1] == a[..k][k - 1] == b[k - 1];
      PrefixSum(a, b, k - 1, m, p, q);
    }
  }

  // ----- Sorting keeps every sum and orders the events

  lemma {:induction false} InsertSum(e: Event, events: seq<Event>, m: Measure, p: real, q: real)
    ensures var s := Insert(e, events);
            && |s| == |events| + 1
            && Sum(s, |s|, m, p, q) == Sum(events, |events|, m, p, q) + m.Of(e, p, q)
  {
    var s := Insert(e, events);
    if events == [] || events[|events| - 1].Leq(e) {
      PrefixSum(s, events, |events|, m, p, q);
    } else {
      var front := events[..|events| - 1];
      InsertSum(e, front, m, p, q);
      PrefixSum(events, front, |front|, m, p, q);
      PrefixSum(s, Insert(e, front), |events|, m, p, q);
    }
  }

  lemma {:induction false} SortSum(events: seq<Event>, m: Measure, p: real, q: real)
    ensures var s := Sort(events);
            && |s| == |events|
            && Sum(s, |s|, m, p, q) == Sum(events, |events|, m, p, q)
  {
    if events != [] {
      var front := events[..|events| - 1];
      SortSum(front, m, p, q);
      InsertSum(events[|events| - 1], Sort(front), m, p, q);
      PrefixSum(events, front, |front|, m, p, q);
    }
  }

  lemma {:induction false} InsertElements(e: Event, events: seq<Event>)
    ensures forall x :: x in Insert(e, events) <==> x == e || x in events
  {
    if events != [] && !events[|events| - 1].Leq(e) {
      var front := events[..|events| - 1];
      InsertElements(e, front);
      assert events == front + [events[|events| - 1]];
    }
  }

  lemma {:induction false} InsertSorted(e: Event, events: seq<Event>)
    requires Sorted(events)
    ensures Sorted(Insert(e, events))
  {
    if events != [] && !events[|events| - 1].Leq(e) {
      var front := events[..|events| - 1];
      var s := Insert(e, front);
      InsertSorted(e, front);
      InsertElements(e, front);
      forall i | 0 <= i < |s|
        ensures s[i].Leq(events[|events| - 1])
      {
        assert s[i] in s;
      }
    }
  }

  lemma {:induction false} SortSorts(events: seq<Event>)
    ensures Sorted(Sort(events))
    ensures forall x :: x in Sort(events) <==> x in events
  {
    if events != [] {
      var front := events[..|events| - 1];
      SortSorts(front);
      InsertSorted(events[|events| - 1], Sort(front));
      InsertElements(events[|events| - 1], Sort(front));
      assert events == front + [events[|events| - 1]];
    }
  }

  // ----- What the events of a set of tails add up to

  // The sums of the unsorted events: everything that arrives departs, what has
  // happened by t is what is alive at t, and the moment is minus the area.
  function Expected(tails: seq<Tail>, m: Measure, perTail: real, perToken: real): real {
    match m
    case Total => 0.0
    case Until(t) => SizeAt(tails, t, perTail, perToken)
    case Moment(last) => -Area(tails, last, perTail, perToken)
  }

  lemma {:induction false} EventSum(tails: seq<Tail>, m: Measure, p: real, q: real)
    requires forall i :: 0 <= i < |tails| ==> tails[i].Valid()
    requires m.Moment? ==> forall i :: 0 <= i < |tails| ==> tails[i].finish <= m.last
    ensures Sum(EventsOf(tails), |EventsOf(tails)|, m, p, q) == Expected(tails, m, p, q)
  {
    if tails != [] {
      hide Measure.Of, Tail.Weight;
      var front, tail := tails[..|tails| - 1], tails[|tails| - 1];
      var f, e := EventsOf(front), EventsOf(tails);
      EventSum(front, m, p, q);
      PrefixSum(e, f, |f|, m, p, q);
      assert e[|f|] == Arrival(tail) && e[|f| + 1] == Departure(tail);
      assert Sum(e, |f| + 2, m, p, q) == Sum(e, |f| + 1, m, p, q) + m.Of(e[|f| + 1], p, q);
      TailContribution(tail, m, p, q);
    }
  }

  lemma {:induction false} TailContribution(tail: Tail, m: Measure, p: real, q: real)
    requires tail.Valid() && (m.Moment? ==> tail.finish <= m.last)
    ensures m.Of(Arrival(tail), p, q) + m.Of(Departure(tail), p, q)
         == match m
            case Total => 0.0
            case Until(t) => if tail.Alive(t) then tail.Weight(p, q) else 0.0
            case Moment(last) => -((tail.end.Clip(last) - tail.finish) as real * tail.Weight(p, q))
  {
    var w := tail.Weight(p, q);
    assert Arrival(tail).Value(p, q) == w;
    assert Departure(tail).Value(p, q) == -w by {
      assert (0.0 - tail.tokens) * q == 0.0 - tail.tokens * q;
    }
    if m.Moment? {
      var c := tail.end.Clip(m.last);
      assert m.Of(Arrival(tail), p, q) == w * tail.finish as real;
      assert m.Of(Departure(tail), p, q) == -w * c as real;
      assert (c - tail.finish) as real == c as real - tail.finish as real;
    }
  }

  lemma {:induction false} EventsWellFormed(tails: seq<Tail>)
    ensures WellFormed(EventsOf(tails))
  {
    if tails != [] { EventsWellFormed(tails[..|tails| - 1]); }
  }

  lemma {:induction false} SortWellFormed(events: seq<Event>)
    requires WellFormed(events)
    ensures WellFormed(Sort(events))
  {
    SortSorts(events);
    var s := Sort(events);
    forall i | 0 <= i < |s|
      ensures WellFormed([s[i]])
    {
      assert s[i] in s;
      var j :| 0 <= j < |events| && events[j] == s[i];
    }
    assert forall i :: 0 <= i < |s| ==> [s[i]][0] == s[i];
  }

  // ----- The running total visits exactly the sizes that matter

  // Every instant's size is a running total: stop after the events up to it.
  lemma {:induction false} SizeIsARun(s: seq<Event>, k: nat, t: int, p: real, q: real) returns (j: nat)
    requires Sorted(s) && k <= |s|
    ensures j <= k && Sum(s, k, Until(t), p, q) == Sum(s, j, Total, p, q)
    ensures j < k ==> !s[j].time.Leq(At(t))
  {
    if k == 0 { return 0; }
    j := SizeIsARun(s, k - 1, t, p, q);
    if j == k - 1 && s[k - 1].time.Leq(At(t)) {
      j := k;
    } else if j < k - 1 {
      assert s[j].Leq(s[k - 1]);
    }
  }

  lemma {:induction false} ValueSign(e: Event, p: real, q: real)
    requires p >= 0.0 && q >= 0.0 && e.delta in {1, -1}
    requires if e.delta == 1 then e.tokens >= 0.0 else e.tokens <= 0.0
    ensures if e.delta == 1 then e.Value(p, q) >= 0.0 else e.Value(p, q) <= 0.0
  {
    if e.delta == 1 {
      MulNonNegative(e.tokens, q);
    } else {
      MulNonNegative(-e.tokens, q);
      assert (-e.tokens) * q == -(e.tokens * q);
    }
  }

  // Every running total is bounded by the size at some instant: after a
  // departure by an earlier total, after an arrival by the size at its own
  // instant, where only further arrivals can follow.
  lemma {:induction false} RunIsBounded(s: seq<Event>, k: nat, p: real, q: real) returns (t: int)
    requires Sorted(s) && WellFormed(s) && k <= |s| && p >= 0.0 && q >= 0.0
    ensures Sum(s, k, Total, p, q) <= 0.0 || Sum(s, k, Total, p, q) <= Sum(s, |s|, Until(t), p, q)
  {
    if k == 0 { return 0; }
    var e := s[k - 1];
    ValueSign(e, p, q);
    if e.delta == -1 {
      t := RunIsBounded(s, k - 1, p, q);
    } else {
      t := e.time.ms;
      WholePrefix(s, k, t, p, q);
      OnlyArrivalsFollow(s, k, |s|, p, q);
    }
  }

  lemma {:induction false} WholePrefix(s: seq<Event>, k: nat, t: int, p: real, q: real)
    requires k <= |s| && forall i :: 0 <= i < k ==> s[i].time.Leq(At(t))
    ensures Sum(s, k, Until(t), p, q) == Sum(s, k, Total, p, q)
  {
    if k > 0 { WholePrefix(s, k - 1, t, p, q); }
  }

  lemma {:induction false} OnlyArrivalsFollow(s: seq<Event>, k: nat, m: nat, p: real, q: real)
    requires Sorted(s) && WellFormed(s) && 0 < k <= m <= |s| && p >= 0.0 && q >= 0.0
    requires s[k - 1].delta == 1
    ensures Sum(s, m, Until(s[k - 1].time.ms), p, q) >= Sum(s, k, Until(s[k - 1].time.ms), p, q)
  {
    if m > k {
      OnlyArrivalsFollow(s, k, m - 1, p, q);
      assert s[k - 1].Leq(s[m - 1]);
      ValueSign(s[m - 1], p, q);
    }
  }

  lemma {:induction false} SizeNonNegative(tails: seq<Tail>, t: int, p: real, q: real)
    requires p >= 0.0 && q >= 0.0
    ensures SizeAt(tails, t, p, q) >= 0.0
  {
    if tails != [] {
      SizeNonNegative(tails[..|tails| - 1], t, p, q);
      MulNonNegative(tails[|tails| - 1].tokens, q);
    }
  }

  // A maximum over the running totals, starting from zero.
  ghost predicate MaxRun(s: seq<Event>, k: nat, p: real, q: real, peak: real)
    requires k <= |s|
  {
    && (forall j :: 0 <= j <= k ==> Sum(s, j, Total, p, q) <= peak)
    && (exists j :: 0 <= j <= k && Sum(s, j, Total, p, q) == peak)
  }

  // The sweep's maximum is the brute-force maximum.
  lemma {:induction false} MaxRunIsPeak(tails: seq<Tail>, s: seq<Event>, p: real, q: real, peak: real)
    requires forall i :: 0 <= i < |tails| ==> tails[i].Valid()
    requires s == Sort(EventsOf(tails)) && p >= 0.0 && q >= 0.0
    requires MaxRun(s, |s|, p, q, peak)
    ensures IsPeak(tails, p, q, peak)
  {
    var e := EventsOf(tails);
    EventsWellFormed(tails);
    SortWellFormed(e);
    SortSorts(e);
    forall t: int
      ensures SizeAt(tails, t, p, q) == Sum(s, |s|, Until(t), p, q) <= peak
      ensures SizeAt(tails, t, p, q) >= 0.0
    {
      EventSum(tails, Until(t), p, q);
      SortSum(e, Until(t), p, q);
      var j := SizeIsARun(s, |s|, t, p, q);
      SizeNonNegative(tails, t, p, q);
    }
    var j :| 0 <= j <= |s| && Sum(s, j, Total, p, q) == peak;
    var t := RunIsBounded(s, j, p, q);
    assert SizeAt(tails, t, p, q) == Sum(s, |s|, Until(t), p, q);
    assert SizeAt(tails, t, p, q) == peak;
  }

  // ----- Observation window

  function LastFinish(requests: seq<Turn>): (last: int)
    requires requests != []
    ensures forall i :: 0 <= i < |requests| ==> requests[i].info.finish <= last
    ensures exists i :: 0 <= i < |requests| && requests[i].info.finish == last
  {
    var r := requests[|requests| - 1].info.finish;
    if |requests| == 1 then r else Max(LastFinish(requests[..|requests| - 1]), r)
  }

  function FirstFinish(tails: seq<Tail>): (first: int)
    requires tails != []
    ensures forall i :: 0 <= i < |tails| ==> first <= tails[i].finish
    ensures exists i :: 0 <= i < |tails| && tails[i].finish == first
  {
    var r := tails[|tails| - 1].finish;
    if |tails| == 1 then r else Min(FirstFinish(tails[..|tails| - 1]), r)
  }

  lemma {:induction false} TailsFinishByLast(requests: seq<Turn>, horizon: Horizon, usefulOnly: bool, last: int)
    requires forall i :: 0 <= i < |requests| ==> requests[i].info.finish <= last
    ensures forall i :: 0 <= i < |Tails(requests, horizon, usefulOnly)| ==>
              Tails(requests, horizon, usefulOnly)[i].finish <= last
  {
    if requests != [] { TailsFinishByLast(requests[..|requests| - 1], horizon, usefulOnly, last); }
  }

  lemma {:induction false} EventMembers(tails: seq<Tail>)
    ensures forall i :: 0 <= i < |tails| ==> Arrival(tails[i]) in EventsOf(tails)
    ensures forall e :: e in EventsOf(tails) ==>
              exists i :: 0 <= i < |tails| && (e == Arrival(tails[i]) || e == Departure(tails[i]))
  {
    if tails != [] {
      var front := tails[..|tails| - 1];
      EventMembers(front);
      assert forall i :: 0 <= i < |front| ==> front[i] == tails[i];
      forall e | e in EventsOf(tails)
        ensures exists i :: 0 <= i < |tails| && (e == Arrival(tails[i]) || e == Departure(tails[i]))
      {
        if e in EventsOf(front) {
          var i :| 0 <= i < |front| && (e == Arrival(front[i]) || e == Departure(front[i]));
          assert tails[i] == front[i];
        } else {
          assert e == Arrival(tails[|tails| - 1]) || e == Departure(tails[|tails| - 1]);
        }
      }
    }
  }

  // The sweep starts at the earliest finish.
  lemma {:induction false} SweepStart(tails: seq<Tail>, s: seq<Event>)
    requires tails != [] && s == Sort(EventsOf(tails))
    requires forall i :: 0 <= i < |tails| ==> tails[i].Valid()
    ensures s != [] && s[0].time == At(FirstFinish(tails))
  {
    var e := EventsOf(tails);
    EventMembers(tails);
    SortSorts(e);
    var i :| 0 <= i < |tails| && tails[i].finish == FirstFinish(tails);
    assert Arrival(tails[i]) in s;
    var j :| 0 <= j < |s| && s[j] == Arrival(tails[i]);
    assert s[0].time.Leq(At(FirstFinish(tails))) by {
      if j > 0 { assert s[0].Leq(s[j]); }
    }
    assert s[0] in s && s[0] in e;
  }

  // ----- live_set

  // The sweep's state after k events, for one pair of weights: the running
  // total, its maximum, and the area up to the clock.
  ghost predicate Swept(s: seq<Event>, k: nat, last: int, clock: int, p: real, q: real, total: real, peak: real, area: real)
    requires k <= |s|
  {
    && total == Sum(s, k, Total, p, q)
    && MaxRun(s, k, p, q, peak)
    && area == clock as real * total - Sum(s, k, Moment(last), p, q)
  }

  // Moving the clock to the next event and applying it.
  lemma {:induction false} Advance(s: seq<Event>, k: nat, last: int, clock: int, span: real,
                                   p: real, q: real, total: real, peak: real, area: real)
    requires k < |s| && Swept(s, k, last, clock, p, q, total, peak, area)
    requires span == s[k].time.Clip(last) as real - clock as real
    ensures var next := total + s[k].Value(p, q);
            Swept(s, k + 1, last, s[k].time.Clip(last), p, q, next, MaxReal(peak, next), area + total * span)
  {
    hide Event.Value, MaxRun, Measure.Of;
    SumStep(s, k, last, p, q);
    AreaAlgebra(clock as real, s[k].time.Clip(last) as real, span, total, s[k].Value(p, q),
                Sum(s, k, Moment(last), p, q), area);
    MaxRunStep(s, k, p, q, peak);
  }

  // The same with unit weights, as the source keeps it: an integer count.
  lemma {:induction false} AdvanceCount(s: seq<Event>, k: nat, last: int, clock: int, span: int, count: int, peak: int, area: real)
    requires k < |s| && Swept(s, k, last, clock, 1.0, 0.0, count as real, peak as real, area)
    requires span == s[k].time.Clip(last) - clock
    ensures var next := count + s[k].delta;
            Swept(s, k + 1, last, clock + span, 1.0, 0.0, next as real, Max(peak, next) as real,
                  area + count as real * span as real)
    ensures span == 0 ==> area + count as real * span as real == area
  {
    Advance(s, k, last, clock, span as real, 1.0, 0.0, count as real, peak as real, area);
    assert s[k].Value(1.0, 0.0) == s[k].delta as real;
  }

  // The same with byte weights.
  lemma {:induction false} AdvanceBytes(s: seq<Event>, k: nat, last: int, clock: int, span: int,
                                        p: real, q: real, count: int, tokens: real, peak: real, area: real)
    requires k < |s| && Swept(s, k, last, clock, p, q, Bytes(count, tokens, p, q), peak, area)
    requires span == s[k].time.Clip(last) - clock
    ensures var next := Bytes(count + s[k].delta, tokens + s[k].tokens, p, q);
            Swept(s, k + 1, last, clock + span, p, q, next, MaxReal(peak, next),
                  area + Bytes(count, tokens, p, q) * span as real)
    ensures span == 0 ==> area + Bytes(count, tokens, p, q) * span as real == area
  {
    Advance(s, k, last, clock, span as real, p, q, Bytes(count, tokens, p, q), peak, area);
    BytesAfter(count, tokens, s[k], p, q);
  }

  lemma {:induction false} SumStep(s: seq<Event>, k: nat, last: int, p: real, q: real)
    requires k < |s|
    ensures Sum(s, k + 1, Total, p, q) == Sum(s, k, Total, p, q) + s[k].Value(p, q)
    ensures Sum(s, k + 1, Moment(last), p, q)
         == Sum(s, k, Moment(last), p, q) + s[k].Value(p, q) * s[k].time.Clip(last) as real
  {}

  lemma {:induction false} AreaAlgebra(clock: real, c: real, span: real, total: real, v: real, moment: real, area: real)
    requires area == clock * total - moment && c == clock + span
    ensures area + total * span == c * (total + v) - (moment + v * c)
  {
    assert (clock + span) * (total + v) == (clock + span) * total + v * (clock + span);
    assert (clock + span) * total == clock * total + total * span;
  }

  lemma {:induction false} MaxRunStep(s: seq<Event>, k: nat, p: real, q: real, peak: real)
    requires k < |s| && MaxRun(s, k, p, q, peak)
    ensures MaxRun(s, k + 1, p, q, MaxReal(peak, Sum(s, k + 1, Total, p, q)))
  {
    var j :| 0 <= j <= k && Sum(s, j, Total, p, q) == peak;
    var next := if peak >= Sum(s, k + 1, Total, p, q) then j else k + 1;
    assert Sum(s, next, Total, p, q) == MaxReal(peak, Sum(s, k + 1, Total, p, q));
  }

  // Tier size in bytes for a number of tails and tokens.
  function Bytes(count: int, tokens: real, stateBytes: real, kvBytesPerToken: real): real {
    count as real * stateBytes + tokens * kvBytesPerToken
  }

  lemma {:induction false} BytesAfter(count: int, tokens: real, e: Event, p: real, q: real)
    ensures Bytes(count + e.delta, tokens + e.tokens, p, q) == Bytes(count, tokens, p, q) + e.Value(p, q)
  {
    assert (count + e.delta) as real == count as real + e.delta as real;
    assert (count as real + e.delta as real) * p == count as real * p + e.delta as real * p;
    assert (tokens + e.tokens) * q == tokens * q + e.tokens * q;
  }

  method Sweep(s: seq<Event>, last: int, stateBytes: Amount, kvBytesPerToken: Amount)
    returns (peakCount: int, peakBytes: real, areaCount: real, areaBytes: real, ghost clock: int)
    requires Sorted(s) && s != [] && s[0].time.At? && s[0].time.ms <= last
    ensures Swept(s, |s|, last, clock, 1.0, 0.0, Sum(s, |s|, Total, 1.0, 0.0), peakCount as real, areaCount)
    ensures Swept(s, |s|, last, clock, stateBytes, kvBytesPerToken,
                  Sum(s, |s|, Total, stateBytes, kvBytesPerToken), peakBytes, areaBytes)
  {
    hide Swept, Bytes, Event.Value;
    var count, tokens, previous := 0, 0.0, s[0].time.ms;
    peakCount, peakBytes, areaCount, areaBytes := 0, 0.0, 0.0, 0.0;
    SweptNothing(s, last, previous, 1.0, 0.0);
    SweptNothing(s, last, previous, stateBytes, kvBytesPerToken);
    NoBytes(stateBytes, kvBytesPerToken);
    for k := 0 to |s|
      invariant previous == s[if k == 0 then 0 else k - 1].time.Clip(last)
      invariant Swept(s, k, last, previous, 1.0, 0.0, count as real, peakCount as real, areaCount)
      invariant Swept(s, k, last, previous, stateBytes, kvBytesPerToken,
                      Bytes(count, tokens, stateBytes, kvBytesPerToken), peakBytes, areaBytes)
    {
      var clipped := s[k].time.Clip(last);
      if k > 0 { assert s[k - 1].Leq(s[k]); }
      var span := clipped - previous;
      AdvanceCount(s, k, last, previous, span, count, peakCount, areaCount);
      AdvanceBytes(s, k, last, previous, span, stateBytes, kvBytesPerToken, count, tokens, peakBytes, areaBytes);
      if span > 0 {
        areaCount := areaCount + count as real * span as real;
        areaBytes := areaBytes + Bytes(count, tokens, stateBytes, kvBytesPerToken) * span as real;
        previous := clipped;
      }
      count := count + s[k].delta;
      tokens := tokens + s[k].tokens;
      peakCount := Max(peakCount, count);
      peakBytes := MaxReal(peakBytes, Bytes(count, tokens, stateBytes, kvBytesPerToken));
    }
    clock := previous;
    SweptTotal(s, last, clock, 1.0, 0.0, count as real, peakCount as real, areaCount);
    SweptTotal(s, last, clock, stateBytes, kvBytesPerToken,
               Bytes(count, tokens, stateBytes, kvBytesPerToken), peakBytes, areaBytes);
  }

  lemma {:induction false} NoBytes(p: real, q: real)
    ensures Bytes(0, 0.0, p, q) == 0.0
  {}

  lemma {:induction false} SweptTotal(s: seq<Event>, last: int, clock: int, p: real, q: real, total: real, peak: real, area: real)
    requires Swept(s, |s|, last, clock, p, q, total, peak, area)
    ensures total == Sum(s, |s|, Total, p, q)
  {}

  lemma {:induction false} SweptNothing(s: seq<Event>, last: int, clock: int, p: real, q: real)
    ensures Swept(s, 0, last, clock, p, q, 0.0, 0.0, 0.0)
  {
    assert Sum(s, 0, Total, p, q) == 0.0;
  }

  method CollectEvents(requests: seq<Turn>, horizon: Horizon, usefulOnly: bool) returns (events: seq<Event>)
    ensures events == EventsOf(Tails(requests, horizon, usefulOnly))
  {
    events := [];
    for i := 0 to |requests|
      invariant events == EventsOf(Tails(requests[..i], horizon, usefulOnly))
    {
      assert requests[..i + 1][..i] == requests[..i];
      var tail := TailOf(requests[i], horizon, usefulOnly);
      if tail.Some? {
        ghost var front := Tails(requests[..i], horizon, usefulOnly);
        assert (front + [tail.value])[..|front|] == front;
        events := events + [Arrival(tail.value), Departure(tail.value)];
      }
    }
    assert requests[..|requests|] == requests;
  }

  method MeasureTier(requests: seq<Turn>, horizon: Horizon, stateBytes: Amount, kvBytesPerToken: Amount, usefulOnly: bool)
    returns (tier: Tier)
    ensures var tails := Tails(requests, horizon, usefulOnly);
            && IsPeak(tails, 1.0, 0.0, tier.peakSnapshots as real)
            && IsPeak(tails, stateBytes, kvBytesPerToken, tier.peakBytes)
            && (tails == [] ==> tier == Tier(0, 0.0, 0.0, 0.0))
            && (tails != [] ==>
                  requests != [] &&
                  var last := LastFinish(requests);
                  var duration := Max(1, last - FirstFinish(tails)) as real;
                  && tier.meanSnapshots == Area(tails, last, 1.0, 0.0) / duration
                  && tier.meanBytes == Area(tails, last, stateBytes, kvBytesPerToken) / duration)
  {
    ghost var tails := Tails(requests, horizon, usefulOnly);
    var events := CollectEvents(requests, horizon, usefulOnly);
    if events == [] {
      assert tails == [];
      EmptyTier(stateBytes, kvBytesPerToken);
      return Tier(0, 0.0, 0.0, 0.0);
    }
    var s := Sort(events);
    SortSorts(events);
    SweepStart(tails, s);
    var first := s[0].time.ms;
    var last := LastFinish(requests);
    TailsFinishByLast(requests, horizon, usefulOnly, last);
    var peakCount, peakBytes, areaCount, areaBytes, clock := Sweep(s, last, stateBytes, kvBytesPerToken);
    SweepIsExact(tails, s, last, clock, 1.0, 0.0, peakCount as real, areaCount);
    SweepIsExact(tails, s, last, clock, stateBytes, kvBytesPerToken, peakBytes, areaBytes);
    var duration := Max(1, last - first) as real;
    tier := Tier(peakCount, peakBytes, areaCount / duration, areaBytes / duration);
  }

  lemma {:induction false} EmptyTier(p: real, q: real)
    ensures IsPeak([], 1.0, 0.0, 0.0) && IsPeak([], p, q, 0.0)
  {
    assert SizeAt([], 0, 1.0, 0.0) == 0.0 && SizeAt([], 0, p, q) == 0.0;
  }

  // A finished sweep holds the brute-force peak and the area under the tails.
  lemma {:induction false} SweepIsExact(tails: seq<Tail>, s: seq<Event>, last: int, clock: int,
                                        p: real, q: real, peak: real, area: real)
    requires s == Sort(EventsOf(tails)) && p >= 0.0 && q >= 0.0
    requires forall i :: 0 <= i < |tails| ==> tails[i].Valid() && tails[i].finish <= last
    requires Swept(s, |s|, last, clock, p, q, Sum(s, |s|, Total, p, q), peak, area)
    ensures IsPeak(tails, p, q, peak)
    ensures area == Area(tails, last, p, q)
  {
    MaxRunIsPeak(tails, s, p, q, peak);
    EventSum(tails, Total, p, q);
    EventSum(tails, Moment(last), p, q);
    SortSum(EventsOf(tails), Total, p, q);
    SortSum(EventsOf(tails), Moment(last), p, q);
    assert clock as real * 0.0 == 0.0;
  }

  // ----- The area is the integral of the size over time

  // Size summed over the n milliseconds from `from`.
  function Integral(tails: seq<Tail>, from: int, n: nat, p: real, q: real): real {
    if n == 0 then 0.0 else Integral(tails, from, n - 1, p, q) + SizeAt(tails, from + n - 1, p, q)
  }

  // How many of those milliseconds one tail is alive.
  function AliveFor(tail: Tail, from: int, n: nat): nat {
    if n == 0 then 0 else AliveFor(tail, from, n - 1) + (if tail.Alive(from + n - 1) then 1 else 0)
  }

  lemma {:induction false} AliveForIsClip(tail: Tail, from: int, n: nat)
    requires tail.Valid() && from <= tail.finish
    ensures AliveFor(tail, from, n) == Max(0, tail.end.Clip(from + n) - tail.finish)
  {
    if n > 0 { AliveForIsClip(tail, from, n - 1); }
  }

  lemma {:induction false} IntegralSplits(tails: seq<Tail>, from: int, n: nat, p: real, q: real)
    requires tails != []
    ensures Integral(tails, from, n, p, q)
         == Integral(tails[..|tails| - 1], from, n, p, q)
            + AliveFor(tails[|tails| - 1], from, n) as real * tails[|tails| - 1].Weight(p, q)
  {
    if n > 0 {
      IntegralSplits(tails, from, n - 1, p, q);
      var tail := tails[|tails| - 1];
      OneMore(AliveFor(tail, from, n - 1), tail.Weight(p, q));
    }
  }

  lemma {:induction false} OneMore(n: int, w: real)
    ensures (n + 1) as real * w == n as real * w + w
  {}

  lemma {:induction false} AreaIsIntegral(tails: seq<Tail>, from: int, n: nat, p: real, q: real)
    requires forall i :: 0 <= i < |tails| ==> tails[i].Valid() && from <= tails[i].finish <= from + n
    ensures Area(tails, from + n, p, q) == Integral(tails, from, n, p, q)
  {
    if tails == [] {
      EmptyIntegral(from, n, p, q);
    } else {
      AreaIsIntegral(tails[..|tails| - 1], from, n, p, q);
      IntegralSplits(tails, from, n, p, q);
      AliveForIsClip(tails[|tails| - 1], from, n);
    }
  }

  lemma {:induction false} EmptyIntegral(from: int, n: nat, p: real, q: real)
    ensures Integral([], from, n, p, q) == 0.0
  {
    if n > 0 { EmptyIntegral(from, n - 1, p, q); }
  }

  // ----- Tiers grow with the horizon

  // Tail by tail, a longer horizon or a wider selection keeps every tail at
  // least as long.
  predicate TierWithin(h: Horizon, useful: bool, h': Horizon, useful': bool) {
    Within(h, h') && (useful' ==> useful)
  }

  function SizeOfTail(tail: Option<Tail>, t: int, p: real, q: real): real {
    if tail.Some? && tail.value.Alive(t) then tail.value.Weight(p, q) else 0.0
  }

  function AreaOfTail(tail: Option<Tail>, last: int, p: real, q: real): real {
    if tail.Some? then (tail.value.end.Clip(last) - tail.value.finish) as real * tail.value.Weight(p, q) else 0.0
  }

  lemma {:induction false} LongerTail(r: Turn, h: Horizon, u: bool, h': Horizon, u': bool)
    requires TierWithin(h, u, h', u')
    ensures var a, b := TailOf(r, h, u), TailOf(r, h', u');
            && (b.Some? ==> b.value.finish == r.info.finish && b.value.Valid())
            && Extends(a, b)
  {}

  lemma {:induction false} WeightNonNegative(tail: Tail, p: real, q: real)
    requires p >= 0.0 && q >= 0.0
    ensures tail.Weight(p, q) >= 0.0
  {
    MulNonNegative(tail.tokens, q);
  }

  lemma {:induction false} SameWeight(a: Tail, b: Tail, p: real, q: real)
    requires a.tokens == b.tokens
    ensures a.Weight(p, q) == b.Weight(p, q)
  {}

  lemma {:induction false} TailGrows(r: Turn, h: Horizon, u: bool, h': Horizon, u': bool, t: int, last: int, p: real, q: real)
    requires TierWithin(h, u, h', u') && p >= 0.0 && q >= 0.0 && r.info.finish <= last
    ensures SizeOfTail(TailOf(r, h, u), t, p, q) <= SizeOfTail(TailOf(r, h', u'), t, p, q)
    ensures AreaOfTail(TailOf(r, h, u), last, p, q) <= AreaOfTail(TailOf(r, h', u'), last, p, q)
  {
    hide TailOf, SizeOfTail, AreaOfTail;
    LongerTail(r, h, u, h', u');
    LongerIsLarger(TailOf(r, h, u), TailOf(r, h', u'), t, p, q);
    LongerHasMoreArea(TailOf(r, h, u), TailOf(r, h', u'), last, p, q);
  }

  // The second tail, if any, is the first one or a longer one.
  predicate Extends(a: Option<Tail>, b: Option<Tail>) {
    a.Some? ==> b.Some? && a.value.finish == b.value.finish && a.value.tokens == b.value.tokens && a.value.end.Leq(b.value.end)
  }

  lemma {:induction false} LongerIsLarger(a: Option<Tail>, b: Option<Tail>, t: int, p: real, q: real)
    requires Extends(a, b) && p >= 0.0 && q >= 0.0
    ensures SizeOfTail(a, t, p, q) <= SizeOfTail(b, t, p, q)
  {
    hide Tail.Weight;
    if b.Some? {
      WeightNonNegative(b.value, p, q);
      if a.Some? { SameWeight(a.value, b.value, p, q); }
    }
  }

  lemma {:induction false} LongerHasMoreArea(a: Option<Tail>, b: Option<Tail>, last: int, p: real, q: real)
    requires Extends(a, b) && p >= 0.0 && q >= 0.0
    requires b.Some? ==> b.value.Valid() && b.value.finish <= last
    ensures AreaOfTail(a, last, p, q) <= AreaOfTail(b, last, p, q)
  {
    hide Tail.Weight;
    if b.Some? {
      var w, held := b.value.Weight(p, q), b.value.end.Clip(last) - b.value.finish;
      WeightNonNegative(b.value, p, q);
      if a.Some? {
        SameWeight(a.value, b.value, p, q);
        MulMonotone((a.value.end.Clip(last) - a.value.finish) as real, held as real, w);
      } else {
        MulNonNegative(held as real, w);
      }
    }
  }

  lemma {:induction false} AppendTail(requests: seq<Turn>, h: Horizon, u: bool, t: int, last: int, p: real, q: real)
    requires requests != []
    ensures var front, r := requests[..|requests| - 1], requests[|requests| - 1];
            var whole, part := Tails(requests, h, u), Tails(front, h, u);
            && SizeAt(whole, t, p, q) == SizeAt(part, t, p, q) + SizeOfTail(TailOf(r, h, u), t, p, q)
            && Area(whole, last, p, q) == Area(part, last, p, q) + AreaOfTail(TailOf(r, h, u), last, p, q)
  {
    var part := Tails(requests[..|requests| - 1], h, u);
    match TailOf(requests[|requests| - 1], h, u)
    case None =>
    case Some(a) =>
      AppendSize(part, a, t, p, q);
      AppendArea(part, a, last, p, q);
  }

  lemma {:induction false} AppendSize(tails: seq<Tail>, tail: Tail, t: int, p: real, q: real)
    ensures SizeAt(tails + [tail], t, p, q) == SizeAt(tails, t, p, q) + SizeOfTail(Some(tail), t, p, q)
  {
    assert (tails + [tail])[..|tails|] == tails;
  }

  lemma {:induction false} AppendArea(tails: seq<Tail>, tail: Tail, last: int, p: real, q: real)
    ensures Area(tails + [tail], last, p, q) == Area(tails, last, p, q) + AreaOfTail(Some(tail), last, p, q)
  {
    assert (tails + [tail])[..|tails|] == tails;
  }

  lemma {:induction false} TiersGrow(requests: seq<Turn>, h: Horizon, u: bool, h': Horizon, u': bool,
                                     t: int, last: int, p: real, q: real)
    requires TierWithin(h, u, h', u') && p >= 0.0 && q >= 0.0
    requires forall i :: 0 <= i < |requests| ==> requests[i].info.finish <= last
    ensures SizeAt(Tails(requests, h, u), t, p, q) <= SizeAt(Tails(requests, h', u'), t, p, q)
    ensures Area(Tails(requests, h, u), last, p, q) <= Area(Tails(requests, h', u'), last, p, q)
  {
    if requests != [] {
      TiersGrow(requests[..|requests| - 1], h, u, h', u', t, last, p, q);
      TailGrows(requests[|requests| - 1], h, u, h', u', t, last, p, q);
      AppendTail(requests, h, u, t, last, p, q);
      AppendTail(requests, h', u', t, last, p, q);
    }
  }

  // A longer horizon, or dropping the useful-only filter, never lowers a peak.
  lemma {:induction false} PeaksGrow(requests: seq<Turn>, h: Horizon, u: bool, h': Horizon, u': bool, p: real, q: real, a: real, b: real)
    requires TierWithin(h, u, h', u') && p >= 0.0 && q >= 0.0
    requires IsPeak(Tails(requests, h, u), p, q, a) && IsPeak(Tails(requests, h', u'), p, q, b)
    ensures a <= b
  {
    var t :| SizeAt(Tails(requests, h, u), t, p, q) == a;
    var last := if requests == [] then 0 else LastFinish(requests);
    TiersGrow(requests, h, u, h', u', t, last, p, q);
  }

  // Once turns are linked no tail is read before it exists, and a useful tail
  // is held exactly from its finish to its first reading.
  lemma {:induction false} UsefulTail(r: Turn, horizon: Horizon)
    requires r.consumed.Some? ==> r.info.finish <= r.consumed.value
    ensures TailOf(r, horizon, true)
         == if r.consumed.Some? && r.info.finish < r.consumed.value
               && (horizon.Some? ==> r.consumed.value <= r.info.finish + horizon.value)
            then Some(Tail(r.info.finish, At(r.consumed.value), r.info.prompt + r.info.completion))
            else None
  {
    if r.consumed.Some? && horizon.Some? {
      assert Read(r, horizon) <==> r.consumed.value <= r.info.finish + horizon.value;
    }
  }
}
