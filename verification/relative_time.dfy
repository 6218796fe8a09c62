/** Relative times shown next to history records: `getTimeAgo` of src/app/history/page.tsx
    (written out a second time, identically, in src/components/HistoryPanel.tsx) and
    `formatTime` of src/components/HistoryItem.tsx. The clock is a parameter `now`;
    times are whole milliseconds, and `Math.floor(diff / unit)` with a positive unit
    is Dafny's `/` on `int`. */
module RelativeTime {
  import opened JsText

  const MinuteMs := 60000
  const HourMs := 3600000
  const DayMs := 86400000

  const JustNow := "刚刚"
  const MinutesSuffix := "分钟前"
  const HoursSuffix := "小时前"
  const DaysSuffix := "天前"

  /** `getTimeAgo`: whole days if at least one, else whole hours, else whole minutes,
      else "just now". */
  function TimeAgo(now: int, timestamp: int): (r: string)
    ensures now - timestamp >= DayMs ==>
              r == NatToString((now - timestamp) / DayMs) + DaysSuffix
    ensures HourMs <= now - timestamp < DayMs ==>
              r == NatToString((now - timestamp) / HourMs) + HoursSuffix
    ensures MinuteMs <= now - timestamp < HourMs ==>
              r == NatToString((now - timestamp) / MinuteMs) + MinutesSuffix
    ensures now - timestamp < MinuteMs ==> r == JustNow
  {
    var diff := now - timestamp;
    var minutes := diff / 60000;
    var hours := diff / 3600000;
    var days := diff / 86400000;
    if days > 0 then NatToString(days) + DaysSuffix
    else if hours > 0 then NatToString(hours) + HoursSuffix
    else if minutes > 0 then NatToString(minutes) + MinutesSuffix
    else JustNow
  }

  /** What `formatTime` shows: a relative text, or the record's date written by the
      locale formatter (not modelled). */
  datatype Shown = Relative(text: string) | AbsoluteDate(timestamp: int)

  /** `formatTime`: the same buckets checked from the small end, and a date from seven
      days on. */
  function FormatTime(now: int, timestamp: int): (r: Shown)
    ensures r.AbsoluteDate? <==> now - timestamp >= 7 * DayMs
    ensures r.AbsoluteDate? ==> r.timestamp == timestamp
  {
    var diff := now - timestamp;
    var minutes := diff / (1000 * 60);
    var hours := diff / (1000 * 60 * 60);
    var days := diff / (1000 * 60 * 60 * 24);
    if minutes < 1 then Relative(JustNow)
    else if minutes < 60 then Relative(NatToString(minutes) + MinutesSuffix)
    else if hours < 24 then Relative(NatToString(hours) + HoursSuffix)
    else if days < 7 then Relative(NatToString(days) + DaysSuffix)
    else AbsoluteDate(timestamp)
  }

  /** Under seven days the two renderings agree word for word. */
  lemma FormatTimeAgreesWithTimeAgo(now: int, timestamp: int)
    requires now - timestamp < 7 * DayMs
    ensures FormatTime(now, timestamp) == Relative(TimeAgo(now, timestamp))
  {
  }

  /** A record from the future (a clock set back) is shown as "just now" by both. */
  lemma FutureIsJustNow(now: int, timestamp: int)
    requires timestamp > now
    ensures TimeAgo(now, timestamp) == JustNow
    ensures FormatTime(now, timestamp) == Relative(JustNow)
  {
  }

  /** Each bucket's count is at least one and below the next unit up, so the count
      shown never reads 0 and the hour count never reaches 24. */
  lemma TimeAgoCountsInRange(now: int, timestamp: int)
    ensures var diff := now - timestamp;
            (MinuteMs <= diff < HourMs ==> 1 <= diff / MinuteMs < 60) &&
            (HourMs <= diff < DayMs ==> 1 <= diff / HourMs < 24) &&
            (diff >= DayMs ==> diff / DayMs >= 1)
  {
  }
}
