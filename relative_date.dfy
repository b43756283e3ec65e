/** The relative-date text of the ticket list and the recent-tickets table ("3 days ago",
    "1 hour ago", "just now"). Both components carry the same function; it is defined once
    here. Times are milliseconds since the epoch. */
module RelativeDate {
  import Text

  /** The text for an elapsed time in whole seconds: whole minutes, hours and days by floor
      division, and the first of days, hours, minutes that is at least one decides. */
  function RelativeText(diffInSeconds: int): (r: string)
    ensures r == "just now" <==> diffInSeconds < 60
    ensures r != "just now" ==> |r| > 4 && r[|r| - 4..] == " ago"
  {
    var minutes := diffInSeconds / 60;
    var hours := minutes / 60;
    var days := hours / 24;
    if days > 1 then Text.NatToString(days) + " days ago"
    else if days == 1 then "1 day ago"
    else if hours > 1 then Text.NatToString(hours) + " hours ago"
    else if hours == 1 then "1 hour ago"
    else if minutes > 1 then Text.NatToString(minutes) + " minutes ago"
    else if minutes == 1 then "1 minute ago"
    else "just now"
  }

  /** `formatRelativeDate`: the text for the time from `createdAt` to `now`, the elapsed
      milliseconds floored to seconds. */
  function FormatRelativeDate(createdAt: int, now: int): (r: string)
    ensures r == "just now" <==> now - createdAt < 60000
    ensures 60000 <= now - createdAt < 120000 ==> r == "1 minute ago"
    ensures 86400000 <= now - createdAt < 172800000 ==> r == "1 day ago"
    ensures 172800000 <= now - createdAt ==> r == Text.NatToString((now - createdAt) / 86400000) + " days ago"
  {
    var d := now - createdAt;
    RelativeTextThresholds(d / 1000);
    MillisToDays(d);
    RelativeText(d / 1000)
  }

  /** Flooring milliseconds to seconds and then to days is flooring by the milliseconds of a day. */
  lemma MillisToDays(d: int)
    ensures d / 1000 / 86400 == d / 86400000
    ensures d / 1000 < 60 <==> d < 60000
  {
    var q := d / 1000;
    var p := q / 86400;
    assert d == 1000 * q + d % 1000;
    assert q == 86400 * p + q % 86400;
    assert d == 86400000 * p + (1000 * (q % 86400) + d % 1000);
    assert 0 <= 1000 * (q % 86400) + d % 1000 < 86400000;
  }

  /** Flooring to minutes, then hours, then days is flooring by the length of the unit. */
  lemma NestedFloors(s: int)
    ensures s / 60 / 60 == s / 3600
    ensures s / 60 / 60 / 24 == s / 86400
  {
    var m := s / 60;
    var h := m / 60;
    assert s == 60 * m + s % 60;
    assert m == 60 * h + m % 60;
    assert s == 3600 * h + (60 * (m % 60) + s % 60);
    assert 0 <= 60 * (m % 60) + s % 60 < 3600;
    var d := h / 24;
    assert h == 24 * d + h % 24;
    assert s == 86400 * d + (3600 * (h % 24) + 60 * (m % 60) + s % 60);
  }

  /** The text by the thresholds of each unit: under a minute, and any time in the future,
      is "just now"; exactly one unit is singular; more is the plural with the count. */
  lemma RelativeTextThresholds(s: int)
    ensures s < 60 ==> RelativeText(s) == "just now"
    ensures 60 <= s < 120 ==> RelativeText(s) == "1 minute ago"
    ensures 120 <= s < 3600 ==> RelativeText(s) == Text.NatToString(s / 60) + " minutes ago"
    ensures 3600 <= s < 7200 ==> RelativeText(s) == "1 hour ago"
    ensures 7200 <= s < 86400 ==> RelativeText(s) == Text.NatToString(s / 3600) + " hours ago"
    ensures 86400 <= s < 172800 ==> RelativeText(s) == "1 day ago"
    ensures 172800 <= s ==> RelativeText(s) == Text.NatToString(s / 86400) + " days ago"
  {
    NestedFloors(s);
  }
}
