/** The departure label shown on every trip card: how long until the flight
    leaves, in words, and a colour that grows more alarming as the flight nears.
    Instants are whole milliseconds; the current time is a parameter. */
module Departure {
  import opened Decimal

  /** Milliseconds in an hour (1000 * 60 * 60). */
  const HourMs: int := 1000 * 60 * 60

  const DepartedText: string := "Departed"
  const DepartedColor: string := "text-gray-400"
  const CriticalColor: string := "text-red-800 font-bold"
  const UrgentColor: string := "text-red-500 font-bold"
  const UpcomingColor: string := "text-amber-600 font-bold"
  const Leaving: string := "Leaving in "

  datatype Label = Label(text: string, color: string)

  /** The words for a flight `hours` whole hours away: whole days and the
      residual hours once a day is reached, otherwise hours alone. In the
      day form "hours" is always plural; in the hour form it is singular at 1. */
  function LeavingText(hours: nat): string {
    var days := hours / 24;
    var rem := hours % 24;
    if days > 0 then
      Leaving + NatToString(days) + " day" + (if days > 1 then "s" else "")
      + (if rem > 0 then ", " + NatToString(rem) + " hours" else "")
    else
      Leaving + NatToString(hours) + " hour" + (if hours != 1 then "s" else "")
  }

  /** Urgency colour by thresholds on whole hours: under 3, under 12, the rest. */
  function HoursColor(hours: nat): string {
    if hours < 3 then CriticalColor
    else if hours < 12 then UrgentColor
    else UpcomingColor
  }

  /** getDepartureLabel with the clock passed in. */
  function DepartureLabel(departure: int, now: int): Label {
    var diffMs := departure - now;
    if diffMs < 0 then Label(DepartedText, DepartedColor)
    else
      var hours := diffMs / HourMs;
      Label(LeavingText(hours), HoursColor(hours))
  }

  /** Ranks the colours: 2 for the most urgent, 0 for amber and grey. */
  function Urgency(color: string): nat {
    if color == CriticalColor then 2
    else if color == UrgentColor then 1
    else 0
  }

  /** Whole hours until departure, rounded down. */
  function HoursUntil(departure: int, now: int): nat
    requires now <= departure
  {
    (departure - now) / HourMs
  }

  // ---------------------------------------------------------------------
  // Properties

  lemma ColorsDistinct()
    ensures CriticalColor != UrgentColor && CriticalColor != UpcomingColor
    ensures UrgentColor != UpcomingColor
    ensures DepartedColor != CriticalColor && DepartedColor != UrgentColor
    ensures DepartedColor != UpcomingColor
  {
    assert CriticalColor[9] == '8' && UrgentColor[9] == '5' && UpcomingColor[9] == 'r';
    assert DepartedColor[5] == 'g' && CriticalColor[5] == 'r' && UpcomingColor[5] == 'a';
  }

  /** A flight shows as departed exactly when it left before now; a flight
      leaving right now is not departed. */
  lemma DepartedIff(departure: int, now: int)
    ensures DepartureLabel(departure, now) == Label(DepartedText, DepartedColor)
            <==> departure < now
    ensures DepartureLabel(departure, now).color == DepartedColor <==> departure < now
  {
    ColorsDistinct();
  }

  /** Floor division by an hour, spelled out as bounds on the gap. */
  lemma HoursBounds(gap: int)
    requires gap >= 0
    ensures (gap / HourMs) * HourMs <= gap < (gap / HourMs + 1) * HourMs
  {
  }

  lemma HoursBelow(gap: int, k: nat)
    requires gap >= 0
    ensures gap / HourMs < k <==> gap < k * HourMs
  {
    HoursBounds(gap);
    var h := gap / HourMs;
    if h < k {
      assert (h + 1) * HourMs <= k * HourMs;
    } else {
      assert k * HourMs <= h * HourMs;
    }
  }

  /** The colour tiers, stated on the gap in milliseconds: less than three
      hours away is dark red, less than twelve is red, the rest amber. */
  lemma ColorTiers(departure: int, now: int)
    requires now <= departure
    ensures DepartureLabel(departure, now).color == CriticalColor
            <==> departure - now < 3 * HourMs
    ensures DepartureLabel(departure, now).color == UrgentColor
            <==> 3 * HourMs <= departure - now < 12 * HourMs
    ensures DepartureLabel(departure, now).color == UpcomingColor
            <==> 12 * HourMs <= departure - now
  {
    ColorsDistinct();
    HoursBelow(departure - now, 3);
    HoursBelow(departure - now, 12);
  }

  /** As `now` moves towards a fixed departure the colour never becomes less
      urgent. */
  lemma {:induction false} UrgencyMonotone(departure: int, earlier: int, later: int)
    requires earlier <= later <= departure
    ensures Urgency(DepartureLabel(departure, earlier).color)
            <= Urgency(DepartureLabel(departure, later).color)
  {
    var g1, g2 := departure - earlier, departure - later;
    HoursMonotone(g2, g1);
    UrgencyOfHours(g1 / HourMs);
    UrgencyOfHours(g2 / HourMs);
  }

  lemma HoursMonotone(g1: int, g2: int)
    requires 0 <= g1 <= g2
    ensures g1 / HourMs <= g2 / HourMs
  {
    HoursBounds(g1);
    HoursBounds(g2);
    assert (g1 / HourMs) * HourMs < (g2 / HourMs + 1) * HourMs;
  }

  lemma UrgencyOfHours(hours: nat)
    ensures Urgency(HoursColor(hours)) == if hours < 3 then 2 else if hours < 12 then 1 else 0
  {
    ColorsDistinct();
  }

  /** Any label that mentions days is amber. */
  lemma DaysAreAmber(departure: int, now: int)
    requires now <= departure && HoursUntil(departure, now) >= 24
    ensures DepartureLabel(departure, now).color == UpcomingColor
  {
  }

  // ---------------------------------------------------------------------
  // The text determines the hour count

  /** The number printed right after "Leaving in ". */
  function LeadNumber(hours: nat): nat {
    if hours / 24 > 0 then hours / 24 else hours
  }

  /** What follows that number. */
  function Tail(hours: nat): string {
    var days := hours / 24;
    var rem := hours % 24;
    if days > 0 then
      " day" + (if days > 1 then "s" else "")
      + (if rem > 0 then ", " + NatToString(rem) + " hours" else "")
    else
      " hour" + (if hours != 1 then "s" else "")
  }

  lemma TextShape(hours: nat)
    ensures LeavingText(hours) == Leaving + (NatToString(LeadNumber(hours)) + Tail(hours))
    ensures Tail(hours) != [] && Tail(hours)[0] == ' '
  {
    var days, rem := hours / 24, hours % 24;
    if days > 0 {
      var s := if days > 1 then "s" else "";
      var r := if rem > 0 then ", " + NatToString(rem) + " hours" else "";
      Regroup(NatToString(days), " day" + s, r);
    } else {
      Regroup(NatToString(hours), " hour", if hours != 1 then "s" else "");
    }
  }

  lemma Regroup(n: string, a: string, b: string)
    ensures Leaving + n + a + b == Leaving + (n + (a + b))
  {
  }

  lemma RemainderText(r1: nat, r2: nat)
    requires (if r1 > 0 then ", " + NatToString(r1) + " hours" else "")
          == (if r2 > 0 then ", " + NatToString(r2) + " hours" else "")
    ensures r1 == r2
  {
    if r1 > 0 && r2 > 0 {
      var n1, n2 := NatToString(r1), NatToString(r2);
      HoursSuffix(n1);
      HoursSuffix(n2);
      DigitsPrefixUnique(n1, " hours", n2, " hours");
      NatToStringInjective(r1, r2);
    }
  }

  lemma HoursSuffix(n: string)
    ensures (", " + n + " hours")[2..] == n + " hours"
  {
  }

  /** Two counts of whole hours never produce the same words. */
  lemma LeavingTextInjective(h1: nat, h2: nat)
    ensures LeavingText(h1) == LeavingText(h2) <==> h1 == h2
  {
    if LeavingText(h1) == LeavingText(h2) {
      TextShape(h1);
      TextShape(h2);
      var n1, n2 := NatToString(LeadNumber(h1)), NatToString(LeadNumber(h2));
      assert (Leaving + (n1 + Tail(h1)))[|Leaving|..] == n1 + Tail(h1);
      assert (Leaving + (n2 + Tail(h2)))[|Leaving|..] == n2 + Tail(h2);
      DigitsPrefixUnique(n1, Tail(h1), n2, Tail(h2));
      NatToStringInjective(LeadNumber(h1), LeadNumber(h2));
      var t1, t2 := Tail(h1), Tail(h2);
      assert t1[1] == t2[1];
      if h1 / 24 > 0 && h2 / 24 > 0 {
        var s1 := if h1 / 24 > 1 then "s" else "";
        var r1 := if h1 % 24 > 0 then ", " + NatToString(h1 % 24) + " hours" else "";
        var r2 := if h2 % 24 > 0 then ", " + NatToString(h2 % 24) + " hours" else "";
        assert t1 == " day" + s1 + r1;
        assert t2 == " day" + s1 + r2;
        assert r1 == t1[|" day" + s1|..];
        assert r2 == t2[|" day" + s1|..];
        RemainderText(h1 % 24, h2 % 24);
      }
    }
  }

  /** The label text of a flight that has not left tells the exact number of
      whole hours until departure. */
  lemma TextDeterminesHours(dep1: int, now1: int, dep2: int, now2: int)
    requires now1 <= dep1 && now2 <= dep2
    ensures DepartureLabel(dep1, now1).text == DepartureLabel(dep2, now2).text
            <==> HoursUntil(dep1, now1) == HoursUntil(dep2, now2)
  {
    LeavingTextInjective(HoursUntil(dep1, now1), HoursUntil(dep2, now2));
  }

  // ---------------------------------------------------------------------
  // Worked cases

  /** A flight exactly `k` hours away is labelled by `k`. */
  lemma WholeHours(now: int, k: nat)
    ensures DepartureLabel(now + k * HourMs, now) == Label(LeavingText(k), HoursColor(k))
  {
    assert (now + k * HourMs - now) / HourMs == k;
  }

  lemma LeavingNow(t: int)
    ensures DepartureLabel(t, t) == Label("Leaving in 0 hours", CriticalColor)
  {
    assert NatToString(0) == "0";
    assert LeavingText(0) == Leaving + "0" + " hour" + "s";
  }

  lemma OneHour(now: int)
    ensures DepartureLabel(now + HourMs, now) == Label("Leaving in 1 hour", CriticalColor)
  {
    WholeHours(now, 1);
    assert NatToString(1) == "1";
    assert LeavingText(1) == Leaving + "1" + " hour" + "";
  }

  lemma TwoHours(now: int)
    ensures DepartureLabel(now + 2 * HourMs, now) == Label("Leaving in 2 hours", CriticalColor)
  {
    WholeHours(now, 2);
    assert NatToString(2) == "2";
    assert LeavingText(2) == Leaving + "2" + " hour" + "s";
  }

  /** One millisecond short of the third hour still reads as two hours. */
  lemma RoundsDown(now: int)
    ensures DepartureLabel(now + 3 * HourMs - 1, now) == Label("Leaving in 2 hours", CriticalColor)
  {
    assert (now + 3 * HourMs - 1 - now) / HourMs == 2;
    assert NatToString(2) == "2";
    assert LeavingText(2) == Leaving + "2" + " hour" + "s";
  }

  lemma TenHours(now: int)
    ensures DepartureLabel(now + 10 * HourMs, now) == Label("Leaving in 10 hours", UrgentColor)
  {
    WholeHours(now, 10);
    assert NatToString(10) == "10" by {
      assert NatToString(1) == "1";
    }
    assert LeavingText(10) == Leaving + "10" + " hour" + "s";
  }

  lemma OneDayOneHours(now: int)
    ensures DepartureLabel(now + 25 * HourMs, now) == Label("Leaving in 1 day, 1 hours", UpcomingColor)
  {
    assert LeavingText(25) == "Leaving in 1 day, 1 hours" by {
      assert 25 / 24 == 1 && 25 % 24 == 1;
      assert NatToString(1) == "1";
      assert LeavingText(25) == Leaving + "1" + " day" + "" + (", " + "1" + " hours");
    }
    WholeHours(now, 25);
  }

  lemma OneDaySixHours(now: int)
    ensures DepartureLabel(now + 30 * HourMs, now) == Label("Leaving in 1 day, 6 hours", UpcomingColor)
  {
    assert LeavingText(30) == "Leaving in 1 day, 6 hours" by {
      assert 30 / 24 == 1 && 30 % 24 == 6;
      assert NatToString(1) == "1" && NatToString(6) == "6";
      assert LeavingText(30) == Leaving + "1" + " day" + "" + (", " + "6" + " hours");
    }
    WholeHours(now, 30);
  }

  lemma TwoDays(now: int)
    ensures DepartureLabel(now + 48 * HourMs, now) == Label("Leaving in 2 days", UpcomingColor)
  {
    assert LeavingText(48) == "Leaving in 2 days" by {
      assert 48 / 24 == 2 && 48 % 24 == 0;
      assert NatToString(2) == "2";
      assert LeavingText(48) == Leaving + "2" + " day" + "s" + "";
    }
    WholeHours(now, 48);
  }

  lemma TwoDaysSevenHours(now: int)
    ensures DepartureLabel(now + 55 * HourMs, now) == Label("Leaving in 2 days, 7 hours", UpcomingColor)
  {
    assert LeavingText(55) == "Leaving in 2 days, 7 hours" by {
      assert 55 / 24 == 2 && 55 % 24 == 7;
      assert NatToString(2) == "2" && NatToString(7) == "7";
      assert LeavingText(55) == Leaving + "2" + " day" + "s" + (", " + "7" + " hours");
    }
    WholeHours(now, 55);
  }
}
