/**
 * The live countdown of the widget: each tick breaks the time left until the
 * tip-off into days, hours, minutes and seconds, renders it as text, and
 * writes that text to the countdown element only when it changed (restarting
 * the element's "pop" animation). A single module-level interval handle keeps
 * at most one repeating tick alive.
 */
module Countdown {
  import opened Wrappers
  import opened Decimal
  import Games

  const MsPerHour: int := 3600000
  const MsPerMinute: int := 60000
  const MsPerSecond: int := 1000

  /** The four components a tick displays. */
  datatype Clock = Clock(days: nat, hours: nat, minutes: nat, seconds: nat)

  /** The whole seconds a clock stands for, in milliseconds. */
  function Millis(c: Clock): int
  {
    c.days * Games.MsPerDay + c.hours * MsPerHour + c.minutes * MsPerMinute + c.seconds * MsPerSecond
  }

  /**
   * `c` is the breakdown of `ms`: whole days, then fewer than 24 hours, fewer
   * than 60 minutes, fewer than 60 seconds, and less than a second left over.
   */
  predicate BreaksDown(c: Clock, ms: nat)
  {
    && c.hours < 24 && c.minutes < 60 && c.seconds < 60
    && Millis(c) <= ms < Millis(c) + MsPerSecond
  }

  /** The milliseconds left until `target`, never negative. */
  function Left(target: int, now: int): (ms: nat)
    ensures now <= target ==> ms == target - now
    ensures target <= now ==> ms == 0
  {
    if target - now < 0 then 0 else target - now
  }

  /** The clock a tick at `now` shows for a countdown to `target`. */
  function Remaining(target: int, now: int): (c: Clock)
    ensures BreaksDown(c, Left(target, now))
  {
    var ms := Left(target, now);
    var underDay := ms % Games.MsPerDay;
    var underHour := underDay % MsPerHour;
    var underMinute := underHour % MsPerMinute;
    Clock(ms / Games.MsPerDay, underDay / MsPerHour, underHour / MsPerMinute, underMinute / MsPerSecond)
  }

  /** A number of milliseconds has exactly one breakdown. */
  lemma BreakdownUnique(c1: Clock, c2: Clock, ms: nat)
    requires BreaksDown(c1, ms) && BreaksDown(c2, ms)
    ensures c1 == c2
  {
    // Peel off one unit at a time: what is left below each unit is smaller than it.
    var underDay1, underDay2 := ms - c1.days * Games.MsPerDay, ms - c2.days * Games.MsPerDay;
    assert 0 <= underDay1 < Games.MsPerDay && 0 <= underDay2 < Games.MsPerDay;
    assert c1.days == c2.days;
    var underHour1, underHour2 := underDay1 - c1.hours * MsPerHour, underDay2 - c2.hours * MsPerHour;
    assert 0 <= underHour1 < MsPerHour && 0 <= underHour2 < MsPerHour;
    assert c1.hours == c2.hours;
    var underMinute1, underMinute2 := underHour1 - c1.minutes * MsPerMinute, underHour2 - c2.minutes * MsPerMinute;
    assert 0 <= underMinute1 < MsPerMinute && 0 <= underMinute2 < MsPerMinute;
    assert c1.minutes == c2.minutes;
  }

  /**
   * The arithmetic of one tick: clamp the difference at zero, then take
   * whole days, hours, minutes and seconds by floor division, subtracting
   * each part before the next division.
   */
  method Breakdown(target: int, now: int) returns (c: Clock)
    ensures BreaksDown(c, Left(target, now))
    ensures c == Remaining(target, now)
  {
    var diff := target - now;
    if diff < 0 {
      diff := 0;
    }
    var ds := diff / Games.MsPerDay;
    diff := diff - ds * Games.MsPerDay;
    var hs := diff / MsPerHour;
    diff := diff - hs * MsPerHour;
    var ms := diff / MsPerMinute;
    diff := diff - ms * MsPerMinute;
    var ss := diff / MsPerSecond;
    c := Clock(ds, hs, ms, ss);
    BreakdownUnique(c, Remaining(target, now), Left(target, now));
  }

  /** The hours, minutes and seconds part of the text, `"{h}h {m}m {s}s"`. */
  function HmsText(c: Clock): string
  {
    Show(c.hours) + ("h " + (Show(c.minutes) + ("m " + (Show(c.seconds) + "s"))))
  }

  /** The countdown text: `"{d}d "` in front only when there are whole days left. */
  function Text(c: Clock): string
  {
    if c.days > 0 then Show(c.days) + ("d " + HmsText(c)) else HmsText(c)
  }

  /** The text names a day count exactly when whole days are left. */
  lemma DayPartIffDays(c: Clock)
    ensures 'd' in Text(c) <==> c.days > 0
  {
    var hms := HmsText(c);
    assert forall i :: 0 <= i < |hms| ==> hms[i] != 'd';
    if c.days > 0 {
      assert Text(c)[|Show(c.days)|] == 'd';
    }
  }

  /** Different clocks are shown as different texts. */
  lemma TextInjective(c1: Clock, c2: Clock)
    requires Text(c1) == Text(c2)
    ensures c1 == c2
  {
    var m1 := "m " + (Show(c1.seconds) + "s");
    var m2 := "m " + (Show(c2.seconds) + "s");
    var h1 := "h " + (Show(c1.minutes) + m1);
    var h2 := "h " + (Show(c2.minutes) + m2);
    if c1.days > 0 && c2.days > 0 {
      SplitNumeral(c1.days, "d " + HmsText(c1), c2.days, "d " + HmsText(c2));
      assert HmsText(c1) == ("d " + HmsText(c1))[2..];
      assert HmsText(c2) == ("d " + HmsText(c2))[2..];
    } else if c1.days > 0 {
      SplitNumeral(c1.days, "d " + HmsText(c1), c2.hours, h2);
      assert false;
    } else if c2.days > 0 {
      SplitNumeral(c1.hours, h1, c2.days, "d " + HmsText(c2));
      assert false;
    }
    SplitNumeral(c1.hours, h1, c2.hours, h2);
    assert Show(c1.minutes) + m1 == h1[2..];
    SplitNumeral(c1.minutes, m1, c2.minutes, m2);
    assert Show(c1.seconds) + "s" == m1[2..];
    SplitNumeral(c1.seconds, "s", c2.seconds, "s");
  }

  /**
   * Two ticks of the same countdown show different texts exactly when the
   * time left differs in some component: the write-if-changed test in a tick
   * fires once per change of the displayed clock and never otherwise.
   */
  lemma TextChangesIffClockChanges(target: int, now1: int, now2: int)
    ensures Text(Remaining(target, now1)) == Text(Remaining(target, now2))
        <==> Remaining(target, now1) == Remaining(target, now2)
  {
    if Text(Remaining(target, now1)) == Text(Remaining(target, now2)) {
      TextInjective(Remaining(target, now1), Remaining(target, now2));
    }
  }

  /** Once the tip-off has passed the countdown keeps showing zero. */
  lemma PastTargetShowsZero(target: int, now: int)
    requires target <= now
    ensures Remaining(target, now) == Clock(0, 0, 0, 0)
    ensures Text(Remaining(target, now)) == "0h 0m 0s"
  {
    BreakdownUnique(Remaining(target, now), Clock(0, 0, 0, 0), 0);
  }

  /** 90,061,000 ms left is one of each unit. */
  lemma OneOfEach(target: int)
    ensures Remaining(target, target - 90061000) == Clock(1, 1, 1, 1)
    ensures Text(Remaining(target, target - 90061000)) == "1d 1h 1m 1s"
  {
    BreakdownUnique(Remaining(target, target - 90061000), Clock(1, 1, 1, 1), 90061000);
  }

  /**
   * The countdown element and the module-level interval handle. `live` is the
   * set of intervals the event loop is running. A browser only promises a
   * positive handle; the model numbers handles 1, 2, 3, ... in turn, so a
   * live handle is never 0 (falsy) and never reused.
   */
  class Widget {
    var text: string          // the countdown element's text
    var pops: nat             // how often the "pop" animation was restarted
    var target: int           // the instant the running countdown counts toward
    var handle: Option<nat>   // the module-level interval handle
    var live: set<nat>        // intervals registered with the event loop
    var nextHandle: nat       // the handle the next setInterval returns

    /** Every live interval is the one the handle names, and handles are positive. */
    ghost predicate Valid()
      reads this
    {
      && 0 < nextHandle
      && (forall h | h in live :: 0 < h < nextHandle)
      && live == (match handle case None => {} case Some(h) => {h})
    }

    /** The page before any countdown: no handle, no interval. */
    constructor (initialText: string)
      ensures Valid()
      ensures text == initialText && pops == 0 && handle == None && live == {}
    {
      text := initialText;
      pops := 0;
      target := 0;
      handle := None;
      live := {};
      nextHandle := 1;
    }

    /** At most one repeating tick is ever registered. */
    lemma AtMostOneActive()
      requires Valid()
      ensures |live| <= 1
      ensures handle == None <==> live == {}
    {
    }

    /** `clearCountdown`: cancel the interval the handle names, if any, and forget it. */
    method Clear()
      requires Valid()
      modifies this`handle, this`live
      ensures Valid()
      ensures handle == None && live == {}
    {
      if handle.Some? && handle.value != 0 {
        live := live - {handle.value};
        handle := None;
      }
    }

    /**
     * One tick at `now`: show the time left until `target`, writing the
     * element (and restarting the animation) only when the text changed.
     */
    method Tick(now: int)
      modifies this`text, this`pops
      ensures text == Text(Remaining(target, now))
      ensures old(text) == text ==> pops == old(pops)
      ensures old(text) != text ==> pops == old(pops) + 1
    {
      var c := Breakdown(target, now);
      var newText := Text(c);
      if text != newText {
        text := newText;
        pops := pops + 1;
      }
    }

    /**
     * `startCountdown`: cancel any running interval, tick once at once, then
     * register a new repeating tick toward `tip`.
     */
    method Start(tip: int, now: int)
      requires Valid()
      modifies this
      ensures Valid()
      ensures target == tip
      ensures handle == Some(old(nextHandle)) && live == {old(nextHandle)}
      ensures old(live) !! live
      ensures text == Text(Remaining(tip, now))
      ensures pops == if old(text) == text then old(pops) else old(pops) + 1
    {
      Clear();
      target := tip;
      Tick(now);
      handle := Some(nextHandle);
      live := live + {nextHandle};
      nextHandle := nextHandle + 1;
    }
  }
}
