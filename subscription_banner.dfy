/** The subscription banner: which banner a signed-in store user sees, from the
    subscription record the page fetches and the days left until it ends. Dates are
    milliseconds since the epoch; parsing a date text is a parameter. */
module SubscriptionBanner {
  import opened Wrappers

  const MillisPerDay := 1000 * 60 * 60 * 24

  datatype SubscriptionInfo = SubscriptionInfo(
    subscriptionEnd: Option<string>, subscriptionPlan: string, lastActive: string,
    whatsapp: Option<string>, isExpired: bool)

  /** `Math.ceil(a / b)` for a positive divisor. */
  function CeilDiv(a: int, b: int): (q: int)
    requires b > 0
    ensures (q - 1) * b < a <= q * b
  {
    -((-a) / b)
  }

  /** The days left: the time to the end, in whole days rounded up. Not a number when
      the end does not parse. */
  function DaysRemaining(endMillis: Option<int>, nowMillis: int): (days: Option<int>)
    ensures days.Some? <==> endMillis.Some?
    ensures endMillis.Some? ==>
      (days.value - 1) * MillisPerDay < endMillis.value - nowMillis <= days.value * MillisPerDay
  {
    if endMillis.None? then None else Some(CeilDiv(endMillis.value - nowMillis, MillisPerDay))
  }

  /** Days left grow with the end date and shrink as time passes. */
  lemma DaysRemainingMonotone(end1: int, end2: int, now1: int, now2: int)
    requires end1 - now1 <= end2 - now2
    ensures DaysRemaining(Some(end1), now1).value <= DaysRemaining(Some(end2), now2).value
  {
  }

  datatype Banner =
    | NoBanner
    | ExpiredAlert
    | WarningBanner(days: int)
    | InfoBanner(daysLeft: Option<int>)

  /** The banner cascade: nothing for an admin, while loading, without a record or
      without an end date; otherwise the expired alert, else the warning for at most
      seven days left, else the info banner (which also takes an end date that does not
      parse, whose day count is not a number). */
  function ChooseBanner(isAdmin: bool, loading: bool, info: Option<SubscriptionInfo>,
                        parseDate: string -> Option<int>, nowMillis: int): Banner
  {
    if isAdmin || loading || info.None? then NoBanner
    else if info.value.subscriptionEnd.None? || info.value.subscriptionEnd.value == "" then NoBanner
    else
      var days := DaysRemaining(parseDate(info.value.subscriptionEnd.value), nowMillis);
      if info.value.isExpired then ExpiredAlert
      else if days.Some? && days.value <= 7 then WarningBanner(days.value)
      else InfoBanner(days)
  }

  /** The tiers in the source's terms: an expired record always gets the alert,
      whatever its days; the warning exactly for a live record with at most seven days
      left; and every banner needs a non-admin, loaded record with an end date. */
  lemma BannerTiers(isAdmin: bool, loading: bool, info: Option<SubscriptionInfo>,
                    parseDate: string -> Option<int>, nowMillis: int)
    ensures var b := ChooseBanner(isAdmin, loading, info, parseDate, nowMillis);
      && (b != NoBanner <==> !isAdmin && !loading && info.Some? && info.value.subscriptionEnd.Some?
                             && info.value.subscriptionEnd.value != "")
      && (b != NoBanner ==> (b == ExpiredAlert <==> info.value.isExpired))
      && (b.WarningBanner? ==>
            var end := parseDate(info.value.subscriptionEnd.value);
            && !info.value.isExpired && end.Some? && b.days <= 7
            && end.value - nowMillis <= 7 * MillisPerDay)
      && (b.InfoBanner? && b.daysLeft.Some? ==> b.daysLeft.value >= 8)
  {
  }

  /** What the fetch did. */
  datatype Lookup = RowFound | NoRow | LookupFailed

  /** The page state once the effect has run. */
  datatype BannerState = BannerState(subInfo: Option<SubscriptionInfo>, loading: bool, fetched: bool)

  /** The record the fetch sets for a profile it finds: the subscription columns do not
      exist yet, so the end is absent and the record is not expired. */
  function PlaceholderInfo(nowIso: string): SubscriptionInfo
  {
    SubscriptionInfo(None, "free", nowIso, None, false)
  }

  /** The effect: a signed-in non-admin fetches; anyone else just stops loading. */
  function AfterEffect(signedIn: bool, isAdmin: bool, lookup: Lookup, nowIso: string): (s: BannerState)
    ensures !s.loading
    ensures s.fetched <==> signedIn && !isAdmin
    ensures s.subInfo.Some? <==> s.fetched && lookup == RowFound
    ensures s.subInfo.Some? ==> s.subInfo.value.subscriptionEnd.None? && !s.subInfo.value.isExpired
  {
    if signedIn && !isAdmin then
      BannerState(if lookup == RowFound then Some(PlaceholderInfo(nowIso)) else None, false, true)
    else BannerState(None, false, false)
  }

  /** With the placeholder fetch, no banner is ever shown. */
  lemma NoBannerShown(signedIn: bool, isAdmin: bool, lookup: Lookup, nowIso: string,
                      parseDate: string -> Option<int>, nowMillis: int)
    ensures var s := AfterEffect(signedIn, isAdmin, lookup, nowIso);
      ChooseBanner(isAdmin, s.loading, s.subInfo, parseDate, nowMillis) == NoBanner
  {
  }

  /** The renew button's link: to the record's WhatsApp number when it has a non-empty
      one, nothing otherwise. */
  function RenewLink(info: SubscriptionInfo, encodedMessage: string): (link: Option<string>)
    ensures link.Some? <==> info.whatsapp.Some? && info.whatsapp.value != ""
    ensures link.Some? ==> "https://wa.me/" <= link.value
  {
    if info.whatsapp.Some? && info.whatsapp.value != "" then
      Some("https://wa.me/" + info.whatsapp.value + "?text=" + encodedMessage)
    else None
  }
}
