/** The booking-days setting and the weekdays it admits (0 = Sunday). */
module DayModes {

  const ALL_DAYS: set<int> := {0, 1, 2, 3, 4, 5, 6}

  /** `BOOKING_DAYS` of the demo site, the component demo and the API handler
      (already lower-cased): `weekdays` is Monday to Friday, `weekends` is
      Saturday and Sunday, and any other tag admits every day. */
  function AllowedDays(mode: string): (days: set<int>)
    ensures days <= ALL_DAYS && days != {}
    ensures 0 in days <==> mode != "weekdays"
    ensures 3 in days <==> mode != "weekends"
    ensures mode == "weekdays" ==> days == {1, 2, 3, 4, 5}
    ensures mode == "weekends" ==> days == {0, 6}
    ensures mode != "weekdays" && mode != "weekends" ==> days == ALL_DAYS
  {
    if mode == "weekdays" then {1, 2, 3, 4, 5}
    else if mode == "weekends" then {0, 6}
    else ALL_DAYS
  }

  /** The widget's `bookingDays` rule: `all` admits every day, `weekdays`
      admits Monday to Friday, and any other value admits none. */
  function WidgetDayAllowed(mode: string, weekday: int): (allowed: bool)
    ensures mode == "weekdays" ==> (allowed <==> weekday in AllowedDays(mode))
    ensures mode == "all" ==> allowed
    ensures allowed ==> mode == "weekdays" || mode == "all"
  {
    mode == "all" || (mode == "weekdays" && 1 <= weekday <= 5)
  }

  /** The two settings agree on `weekdays` and `all` and disagree on every
      other tag: there the widget admits no day and the demos admit some. */
  lemma WidgetAgreesOnlyOnWeekdaysAndAll(mode: string)
    ensures (mode == "weekdays" || mode == "all") ==>
      forall d :: 0 <= d < 7 ==> (WidgetDayAllowed(mode, d) <==> d in AllowedDays(mode))
    ensures (mode != "weekdays" && mode != "all") ==>
      (forall d :: !WidgetDayAllowed(mode, d)) && AllowedDays(mode) != {}
  {
  }
}
