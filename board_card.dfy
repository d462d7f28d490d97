/** A board's card on the boards page (components/BoardCard.tsx): the
    relative age of the board and the letter shown as its thumbnail. The
    clock and the locale's date text are inputs. */
module BoardCard {
  import opened Text

  const MsPerHour := 3_600_000
  const MsPerDay := 86_400_000
  const MsPerWeek := 604_800_000

  /** `formatDate`, with both instants in milliseconds. */
  function FormatDate(createdMs: int, nowMs: int, localeDate: string): string {
    var hours := (nowMs - createdMs) / MsPerHour;
    var days := hours / 24;
    if hours < 1 then "Just now"
    else if hours < 24 then NatToString(hours) + "h ago"
    else if days < 7 then NatToString(days) + "d ago"
    else localeDate
  }

  /** Whole days from whole hours agree with whole days from milliseconds. */
  lemma DaysFromHours(diff: int)
    ensures (diff / MsPerHour) / 24 == diff / MsPerDay
  {
    var h := diff / MsPerHour;
    var d := h / 24;
    assert diff == MsPerHour * h + diff % MsPerHour;
    assert h == 24 * d + h % 24;
    assert diff == MsPerDay * d + (MsPerHour * (h % 24) + diff % MsPerHour);
    assert 0 <= MsPerHour * (h % 24) + diff % MsPerHour < MsPerDay;
  }

  /** The age text by the elapsed milliseconds: under an hour (or in the
      future) "Just now", under a day whole hours, under a week whole days,
      and the locale date after that. */
  lemma FormatDateSpec(createdMs: int, nowMs: int, localeDate: string)
    ensures var diff := nowMs - createdMs;
      var r := FormatDate(createdMs, nowMs, localeDate);
      && (diff < MsPerHour ==> r == "Just now")
      && (MsPerHour <= diff < MsPerDay ==> r == NatToString(diff / MsPerHour) + "h ago" && 1 <= diff / MsPerHour < 24)
      && (MsPerDay <= diff < MsPerWeek ==> r == NatToString(diff / MsPerDay) + "d ago" && 1 <= diff / MsPerDay < 7)
      && (MsPerWeek <= diff ==> r == localeDate)
  {
    DaysFromHours(nowMs - createdMs);
  }

  /** `title.charAt(0).toUpperCase()`. */
  function Initial(title: string): string {
    if |title| == 0 then "" else [UpperChar(title[0])]
  }

  /** The initial is one character (none for an empty title), never a
      lower-case letter, and the title's first letter up to case. */
  lemma InitialSpec(title: string)
    ensures |Initial(title)| == (if |title| == 0 then 0 else 1)
    ensures |title| > 0 ==> !('a' <= Initial(title)[0] <= 'z')
    ensures |title| > 0 ==> LowerChar(Initial(title)[0]) == LowerChar(title[0])
  {
  }
}
