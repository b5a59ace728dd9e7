/**
 * The two helpers at the top of backend/jobs/schedule.js: the rounded,
 * zero-guarded percentage change and the market-hours gate.
 */
module ScheduleHelpers {
  import opened Common

  /**
   * `calculatePercentageChange(oldPrice, newPrice)`: 0 when either price is
   * missing or zero, otherwise the relative change in percent rounded to two
   * decimals.
   */
  function PercentChange(oldPrice: Option<real>, newPrice: Option<real>): (r: real)
    ensures !Truthy(oldPrice) || !Truthy(newPrice) ==> r == 0.0
    ensures IsCents(r)
    ensures Truthy(oldPrice) && Truthy(newPrice) ==>
      var exact := (newPrice.value - oldPrice.value) / oldPrice.value * 100.0;
      exact - 0.005 <= r <= exact + 0.005
  {
    if !Truthy(oldPrice) || !Truthy(newPrice) then 0.0
    else Round2((newPrice.value - oldPrice.value) / oldPrice.value * 100.0)
  }

  /** From a positive old price, a rise never reads as a loss, a fall never as a gain, and no move as 0. */
  lemma PercentChangeFollowsPrice(oldPrice: real, newPrice: real)
    requires oldPrice > 0.0 && newPrice != 0.0
    ensures newPrice >= oldPrice ==> PercentChange(Some(oldPrice), Some(newPrice)) >= 0.0
    ensures newPrice <= oldPrice ==> PercentChange(Some(oldPrice), Some(newPrice)) <= 0.0
    ensures newPrice == oldPrice ==> PercentChange(Some(oldPrice), Some(newPrice)) == 0.0
  {
    RelativeMoveSign(newPrice - oldPrice, oldPrice);
  }

  /** A move divided by a positive base keeps the move's sign. */
  lemma RelativeMoveSign(move: real, base: real)
    requires base > 0.0
    ensures move >= 0.0 ==> move / base * 100.0 >= 0.0
    ensures move <= 0.0 ==> move / base * 100.0 <= 0.0
  {
    assert move / base * base == move;
  }

  /** Minutes since local midnight. */
  function MinuteOfDay(hour: int, minute: int): int {
    hour * 60 + minute
  }

  /**
   * `isMarketOpen()` with the India-time day of week (0 = Sunday), hour and
   * minute passed in: closed on Saturday and Sunday, open from 09:00 to 15:40
   * inclusive on the other days.
   */
  function IsMarketOpen(day: int, hour: int, minute: int): (open: bool)
    requires 0 <= day <= 6 && 0 <= hour < 24 && 0 <= minute < 60
    ensures open <==> 1 <= day <= 5 && MinuteOfDay(9, 0) <= MinuteOfDay(hour, minute) <= MinuteOfDay(15, 40)
  {
    if day == 0 || day == 6 then false
    else
      var isAfterOpen := hour > 9 || (hour == 9 && minute >= 0);
      var isBeforeClose := hour < 15 || (hour == 15 && minute <= 40);
      isAfterOpen && isBeforeClose
  }
}
