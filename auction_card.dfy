/** `AuctionCard`: the countdown shown on a card and the condition for its
    Start Auction button. Times are whole milliseconds; the clock is the
    `diff` parameter (end time minus now), and the one-second refresh timer
    is not part of this model. */
module AuctionCard {
  import opened Wrappers
  import opened Text

  const MsPerSecond: nat := 1000
  const MsPerMinute: nat := 60 * 1000
  const MsPerHour: nat := 60 * 60 * 1000

  /** What the countdown shows. */
  datatype Countdown =
    | Ended
    | DaysHours(days: nat, hours: nat)
    | HoursMinutes(hours: nat, minutes: nat)
    | MinutesSeconds(minutes: nat, seconds: nat)
    | SecondsOnly(seconds: nat)

  /** `TimeLeft.calculate` for `diff` milliseconds remaining: nothing left
      shows "Ended"; otherwise whole hours, minutes and seconds are taken
      by floor division, more than 24 hours is shown as days and hours,
      at least one hour as hours and minutes, at least one minute as
      minutes and seconds, and anything shorter as seconds. */
  function Calculate(diff: int): Countdown {
    if diff <= 0 then Ended
    else
      var hours := diff / MsPerHour;
      var minutes := (diff % MsPerHour) / MsPerMinute;
      var seconds := (diff % MsPerMinute) / MsPerSecond;
      if hours > 24 then DaysHours(hours / 24, hours % 24)
      else if hours > 0 then HoursMinutes(hours, minutes)
      else if minutes > 0 then MinutesSeconds(minutes, seconds)
      else SecondsOnly(seconds)
  }

  /** The text of the countdown. */
  function Render(c: Countdown): string {
    match c
    case Ended => "Ended"
    case DaysHours(d, h) => NatToString(d) + "d " + NatToString(h) + "h"
    case HoursMinutes(h, m) => NatToString(h) + "h " + NatToString(m) + "m"
    case MinutesSeconds(m, s) => NatToString(m) + "m " + NatToString(s) + "s"
    case SecondsOnly(s) => NatToString(s) + "s"
  }

  /** Which form is shown, by the remaining time: each form covers one
      range, and together they cover every input. */
  lemma CountdownForms(diff: int)
    ensures Calculate(diff).Ended? <==> diff <= 0
    ensures Calculate(diff).DaysHours? <==> diff >= 25 * MsPerHour
    ensures Calculate(diff).HoursMinutes? <==> MsPerHour <= diff < 25 * MsPerHour
    ensures Calculate(diff).MinutesSeconds? <==> MsPerMinute <= diff < MsPerHour
    ensures Calculate(diff).SecondsOnly? <==> 0 < diff < MsPerMinute
  {
    if diff > 0 {
      var hours := diff / MsPerHour;
      assert hours > 24 <==> diff >= 25 * MsPerHour;
      assert hours > 0 <==> diff >= MsPerHour;
      if hours == 0 {
        assert diff % MsPerHour == diff;
      }
    }
  }

  /** The shown units are the remaining time rounded down: the displayed
      value, read in the finest unit shown, is at most `diff` and one more
      of that unit would exceed it. Hours of a day, minutes and seconds
      stay within 0..23 and 0..59. */
  lemma CountdownIsFloor(diff: int)
    ensures match Calculate(diff)
            case Ended => true
            case DaysHours(d, h) =>
              h < 24 && (d * 24 + h) * MsPerHour <= diff < (d * 24 + h + 1) * MsPerHour
            case HoursMinutes(h, m) =>
              1 <= h <= 24 && m < 60 && (h * 60 + m) * MsPerMinute <= diff < (h * 60 + m + 1) * MsPerMinute
            case MinutesSeconds(m, s) =>
              1 <= m < 60 && s < 60 && (m * 60 + s) * MsPerSecond <= diff < (m * 60 + s + 1) * MsPerSecond
            case SecondsOnly(s) =>
              s < 60 && s * MsPerSecond <= diff < (s + 1) * MsPerSecond
  {
    if diff > 0 {
      var hours := diff / MsPerHour;
      var minutes := (diff % MsPerHour) / MsPerMinute;
      var seconds := (diff % MsPerMinute) / MsPerSecond;
      Decompose(diff);
      if hours > 24 {
        assert hours == (hours / 24) * 24 + hours % 24;
      }
    }
  }

  /** Whole hours, then whole minutes of the hour, then whole seconds of
      the minute, account for `diff` up to less than a second. */
  lemma Decompose(diff: int)
    requires diff > 0
    ensures var h := diff / MsPerHour;
            var m := (diff % MsPerHour) / MsPerMinute;
            var s := (diff % MsPerMinute) / MsPerSecond;
            && m < 60 && s < 60
            && h * 3600000 + m * 60000 + s * 1000 <= diff < h * 3600000 + m * 60000 + s * 1000 + 1000
  {
    var h := diff / 3600000;
    var rest := diff % 3600000;
    var m := rest / 60000;
    var inMinute := rest % 60000;
    var s := inMinute / 1000;
    assert diff == h * 3600000 + m * 60000 + inMinute;
    assert diff % 60000 == inMinute by {
      assert diff == (h * 60 + m) * 60000 + inMinute;
    }
  }

  /** Exactly one day left is shown in hours, "24h 0m", not as "1d". */
  lemma ExactlyOneDay()
    ensures Calculate(24 * MsPerHour) == HoursMinutes(24, 0)
    ensures Render(Calculate(24 * MsPerHour)) == "24h 0m"
  {
  }

  /** Less than a second left still shows "0s", not "Ended". */
  lemma UnderOneSecond(diff: int)
    requires 0 < diff < MsPerSecond
    ensures Calculate(diff) == SecondsOnly(0)
    ensures Render(Calculate(diff)) == "0s"
  {
  }

  /** JavaScript truthiness of an optional string: present and non-empty. */
  predicate Truthy(s: Option<string>) {
    s.Some? && s.value != ""
  }

  /** The Start Auction button: shown when the viewer is the seller (a
      missing or empty viewer id is never the seller) and the auction is
      still scheduled. */
  function ShowStartButton(currentUserId: Option<string>, sellerId: string, status: string): (r: bool)
    ensures r <==> currentUserId.Some? && currentUserId.value != "" && currentUserId.value == sellerId
                   && status == "SCHEDULED"
  {
    var isOwner := Truthy(currentUserId) && sellerId == currentUserId.value;
    var isScheduled := status == "SCHEDULED";
    isOwner && isScheduled
  }
}
