/**
 * The economic calendar's event logic: grouping the events by date, the
 * selected day's events, and the impact badges.
 */
module EconomicCalendar {
  import opened Wrappers

  datatype Event = Event(
    id: int,
    title: string,
    date: string,
    time: string,
    impact: string,
    category: string,
    description: string,
    country: Option<string>,
    actual: Option<string>,
    forecast: Option<string>,
    previous: Option<string>)

  /** The events on one date, in their order: what that date's group should hold. */
  function OnDate(events: seq<Event>, date: string): (r: seq<Event>)
    ensures |r| <= |events|
    ensures forall e :: e in r <==> e in events && e.date == date
  {
    if |events| == 0 then []
    else
      var last := events[|events| - 1];
      assert events == events[..|events| - 1] + [last];
      OnDate(events[..|events| - 1], date) + (if last.date == date then [last] else [])
  }

  lemma {:induction false} OnDateEmpty(events: seq<Event>, date: string)
    requires forall i :: 0 <= i < |events| ==> events[i].date != date
    ensures OnDate(events, date) == []
    decreases |events|
  {
    if |events| > 0 {
      var init := events[..|events| - 1];
      assert forall i :: 0 <= i < |init| ==> init[i] == events[i];
      OnDateEmpty(init, date);
    }
  }

  /** The accumulator `reduce` has built after `events`: each event pushed onto its date's array, made on first use. */
  function Grouped(events: seq<Event>): map<string, seq<Event>>
  {
    if |events| == 0 then map[]
    else
      var acc := Grouped(events[..|events| - 1]);
      var last := events[|events| - 1];
      acc[last.date := (if last.date in acc then acc[last.date] else []) + [last]]
  }

  /**
   * The groups are keyed by exactly the dates that occur, and each holds
   * the events on its date in their order, so none is empty and every
   * event is in its own date's group and in no other.
   */
  lemma {:induction false} GroupedByDate(events: seq<Event>)
    ensures forall d :: d in Grouped(events) <==> exists i :: 0 <= i < |events| && events[i].date == d
    ensures forall d :: d in Grouped(events) ==> Grouped(events)[d] == OnDate(events, d) && |Grouped(events)[d]| > 0
    decreases |events|
  {
    if |events| > 0 {
      var init := events[..|events| - 1];
      var last := events[|events| - 1];
      GroupedByDate(init);
      forall d
        ensures d in Grouped(events) <==> exists i :: 0 <= i < |events| && events[i].date == d
      {
        if exists i :: 0 <= i < |init| && init[i].date == d {
          var i :| 0 <= i < |init| && init[i].date == d;
          assert events[i] == init[i];
        }
        if exists i :: 0 <= i < |events| && events[i].date == d {
          var i :| 0 <= i < |events| && events[i].date == d;
          if i < |init| { assert init[i] == events[i]; }
        }
      }
      forall d | d in Grouped(events)
        ensures Grouped(events)[d] == OnDate(events, d) && |Grouped(events)[d]| > 0
      {
        if d != last.date {
          assert d in Grouped(init);
        } else if d !in Grouped(init) {
          OnDateEmpty(init, d);
        }
      }
    }
  }

  /** Every event lands in the group of its own date. */
  lemma EventInItsGroup(events: seq<Event>, i: nat)
    requires i < |events|
    ensures events[i].date in Grouped(events)
    ensures events[i] in Grouped(events)[events[i].date]
  {
    GroupedByDate(events);
    assert events[i] in events;
  }

  /** The sizes of the groups of the dates `dates`. */
  function SizeSum(events: seq<Event>, dates: seq<string>): nat
  {
    if |dates| == 0 then 0 else |OnDate(events, dates[0])| + SizeSum(events, dates[1..])
  }

  predicate Distinct(dates: seq<string>)
  {
    forall i, j :: 0 <= i < j < |dates| ==> dates[i] != dates[j]
  }

  lemma {:induction false} SizeSumStep(events: seq<Event>, last: Event, dates: seq<string>)
    requires Distinct(dates)
    ensures SizeSum(events + [last], dates) == SizeSum(events, dates) + (if last.date in dates then 1 else 0)
    decreases |dates|
  {
    if |dates| > 0 {
      var all := events + [last];
      assert all[..|all| - 1] == events;
      SizeSumStep(events, last, dates[1..]);
      if last.date == dates[0] {
        assert last.date !in dates[1..];
      }
    }
  }

  /**
   * Counted over the dates that occur, each listed once, the group sizes
   * add up to the number of events: nothing is lost or counted twice.
   */
  lemma {:induction false} GroupSizesSum(events: seq<Event>, dates: seq<string>)
    requires Distinct(dates)
    requires forall i :: 0 <= i < |events| ==> events[i].date in dates
    ensures SizeSum(events, dates) == |events|
    decreases |events|
  {
    if |events| == 0 {
      ZeroSizes(dates);
    } else {
      var init := events[..|events| - 1];
      var last := events[|events| - 1];
      assert forall i :: 0 <= i < |init| ==> init[i] == events[i];
      GroupSizesSum(init, dates);
      assert init + [last] == events;
      SizeSumStep(init, last, dates);
    }
  }

  lemma {:induction false} ZeroSizes(dates: seq<string>)
    ensures SizeSum([], dates) == 0
    decreases |dates|
  {
    if |dates| > 0 {
      ZeroSizes(dates[1..]);
    }
  }

  /** The `reduce` over the events: each event is pushed onto its date's array. */
  method GroupByDate(events: seq<Event>) returns (acc: map<string, seq<Event>>)
    ensures acc == Grouped(events)
  {
    acc := map[];
    var k := 0;
    while k < |events|
      invariant 0 <= k <= |events|
      invariant acc == Grouped(events[..k])
    {
      var event := events[k];
      assert events[..k + 1][..k] == events[..k];
      if event.date !in acc {
        acc := acc[event.date := []];
      }
      acc := acc[event.date := acc[event.date] + [event]];
      k := k + 1;
    }
    assert events[..|events|] == events;
  }

  /** `eventsByDate[selectedDate] || []`: an array, even an empty one, is truthy. */
  function TodaysEvents(groups: map<string, seq<Event>>, selectedDate: string): seq<Event>
  {
    if selectedDate in groups then groups[selectedDate] else []
  }

  /** The selected day shows exactly the events on that date, in their order. */
  lemma TodaysEventsOnDate(events: seq<Event>, selectedDate: string)
    ensures TodaysEvents(Grouped(events), selectedDate) == OnDate(events, selectedDate)
  {
    GroupedByDate(events);
    if selectedDate !in Grouped(events) {
      OnDateEmpty(events, selectedDate);
    }
  }

  datatype Badge = Badge(text: string, className: string)

  const HighClass := "bg-crypto-red/20 text-crypto-red border-crypto-red/30 text-[10px] sm:text-xs"
  const MediumClass := "bg-yellow-500/20 text-yellow-500 border-yellow-500/30 text-[10px] sm:text-xs"
  const LowClass := "bg-crypto-green/20 text-crypto-green border-crypto-green/30 text-[10px] sm:text-xs"

  function UpperAscii(c: char): char
  {
    if 'a' <= c <= 'z' then (c as int - 32) as char else c
  }

  /** `getImpactBadge`: a badge for the three impact levels and none for anything else. */
  function ImpactBadge(impact: string): (r: Option<Badge>)
    ensures r.Some? <==> impact == "high" || impact == "medium" || impact == "low"
    ensures r.Some? ==> |impact| > 0 && r.value.text == [UpperAscii(impact[0])] + impact[1..]
  {
    if impact == "high" then
      assert [UpperAscii(impact[0])] + impact[1..] == "High";
      Some(Badge("High", HighClass))
    else if impact == "medium" then
      assert [UpperAscii(impact[0])] + impact[1..] == "Medium";
      Some(Badge("Medium", MediumClass))
    else if impact == "low" then
      assert [UpperAscii(impact[0])] + impact[1..] == "Low";
      Some(Badge("Low", LowClass))
    else None
  }

  /** The three levels get three different badges. */
  lemma ImpactBadgesDiffer()
    ensures ImpactBadge("high") != ImpactBadge("medium")
    ensures ImpactBadge("medium") != ImpactBadge("low")
    ensures ImpactBadge("high") != ImpactBadge("low")
  {
  }
}
