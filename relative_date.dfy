/** Japanese relative time ("3分前"): the age of a date, bucketed by successive floor
    divisions. Parsing (`new Date(s).getTime()`) and the clock (`Date.now()`) are
    parameters. */
module RelativeDate {
  import opened Wrappers
  import opened JsString

  const MsPerMinute: int := 60000
  const MsPerHour: int := 3600000
  const MsPerDay: int := 86400000

  /** The bucket an age falls in, with its count. */
  datatype Age =
    | Seconds(n: nat)
    | Minutes(n: nat)
    | Hours(n: nat)
    | Days(n: nat)
    | Weeks(n: nat)
    | Months(n: nat)
    | Years(n: nat)

  /** The chain of floor divisions with early returns. `Math.floor` on a positive divisor
      is Dafny's `/`. */
  function Classify(diff: int): Age {
    var sec := if diff / 1000 < 1 then 1 else diff / 1000;
    if sec < 60 then Seconds(sec)
    else
      var min := sec / 60;
      if min < 60 then Minutes(min)
      else
        var hr := min / 60;
        if hr < 24 then Hours(hr)
        else
          var day := hr / 24;
          if day < 7 then Days(day)
          else
            var week := day / 7;
            if week < 5 then Weeks(week)
            else
              var month := day / 30;
              if month < 12 then Months(month)
              else Years(day / 365)
  }

  /** The template of each bucket. */
  function Render(a: Age): string {
    match a
    case Seconds(n) => NatToString(n) + "秒前"
    case Minutes(n) => NatToString(n) + "分前"
    case Hours(n) => NatToString(n) + "時間前"
    case Days(n) => NatToString(n) + "日前"
    case Weeks(n) => NatToString(n) + "週間前"
    case Months(n) => NatToString(n) + "ヶ月前"
    case Years(n) => NatToString(n) + "年前"
  }

  /** `relativeTimeJa(isoOrRfc)`. */
  function RelativeTimeJa(isoOrRfc: Option<string>, parse: string -> Option<int>, now: int): Option<string> {
    if isoOrRfc.None? || isoOrRfc.value == [] then None
    else
      match parse(isoOrRfc.value)
      case None => None
      case Some(t) => Some(Render(Classify(now - t)))
  }

  /** No text exactly for a missing or empty argument and for a date that does not parse. */
  lemma UndefinedCases(isoOrRfc: Option<string>, parse: string -> Option<int>, now: int)
    ensures RelativeTimeJa(isoOrRfc, parse, now).None? <==>
              isoOrRfc.None? || isoOrRfc.value == [] || parse(isoOrRfc.value).None?
    ensures forall t :: isoOrRfc.Some? && isoOrRfc.value != [] && parse(isoOrRfc.value) == Some(t) ==>
              RelativeTimeJa(isoOrRfc, parse, now) == Some(Render(Classify(now - t)))
  {
  }

  /** The divisions compose: seconds, minutes, hours and days are each the age floored
      by one unit. */
  lemma UnitsCompose(diff: int)
    requires diff >= 1000
    ensures diff / 1000 / 60 == diff / MsPerMinute
    ensures diff / 1000 / 60 / 60 == diff / MsPerHour
    ensures diff / 1000 / 60 / 60 / 24 == diff / MsPerDay
  {
  }

  /** The first four buckets, by the age in milliseconds. A date in the future or just now
      still reads "1秒前". */
  lemma ShortBuckets(diff: int)
    ensures Classify(diff).Seconds? <==> diff < MsPerMinute
    ensures diff < 2000 ==> Classify(diff) == Seconds(1)
    ensures 1000 <= diff < MsPerMinute ==> Classify(diff) == Seconds(diff / 1000)
    ensures Classify(diff).Minutes? <==> MsPerMinute <= diff < MsPerHour
    ensures Classify(diff).Minutes? ==> Classify(diff).n == diff / MsPerMinute
    ensures Classify(diff).Hours? <==> MsPerHour <= diff < MsPerDay
    ensures Classify(diff).Hours? ==> Classify(diff).n == diff / MsPerHour
    ensures Classify(diff).Days? <==> MsPerDay <= diff < 7 * MsPerDay
    ensures Classify(diff).Days? ==> Classify(diff).n == diff / MsPerDay
  {
    if diff >= 1000 {
      UnitsCompose(diff);
    }
  }

  /** The long buckets, by the whole number of days `day`: weeks for days 7 to 34,
      months for 35 to 359, years from 360 on. */
  lemma LongBuckets(diff: int)
    requires diff >= 7 * MsPerDay
    ensures var day := diff / MsPerDay;
            && (Classify(diff).Weeks? <==> day < 35)
            && (Classify(diff).Weeks? ==> Classify(diff).n == day / 7)
            && (Classify(diff).Months? <==> 35 <= day < 360)
            && (Classify(diff).Months? ==> Classify(diff).n == day / 30)
            && (Classify(diff).Years? <==> day >= 360)
            && (Classify(diff).Years? ==> Classify(diff).n == day / 365)
  {
    UnitsCompose(diff);
  }

  /** Between 360 and 364 days the month count has reached 12 but the year count is still
      0, so the text reads "0年前". */
  lemma ZeroYears(diff: int)
    requires 360 * MsPerDay <= diff < 365 * MsPerDay
    ensures Classify(diff) == Years(0)
    ensures Render(Classify(diff)) == "0年前"
  {
    LongBuckets(diff);
    assert NatToString(0) == "0";
  }
}
