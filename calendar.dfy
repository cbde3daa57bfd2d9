/** Calendar days and the date strips the screens draw. A day is a day
    number; the `YYYY-MM-DD` text a screen shows for it is not modelled, and
    two days are equal exactly when their texts are. */
module Calendar {

  type Day = int

  /** The habits, routines and journal screens each draw a strip of the 30
      most recent days. */
  const StripDays: nat := 30

  /** `generateDates(n)`: element `i` is `today` minus `i` days. */
  function WindowDates(today: Day, n: nat): (r: seq<Day>)
    ensures |r| == n
    ensures n > 0 ==> r[0] == today
    ensures forall i :: 0 < i < n ==> r[i] == r[i - 1] - 1
  {
    seq(n, i => today - i)
  }

  /** The window runs from today backwards without repeating a day, and holds
      exactly the `n` most recent days. */
  lemma WindowDatesShape(today: Day, n: nat)
    ensures forall i, j :: 0 <= i < j < n ==> WindowDates(today, n)[i] > WindowDates(today, n)[j]
    ensures forall d :: d in WindowDates(today, n) <==> today - n < d <= today
  {
    var w := WindowDates(today, n);
    forall d | today - n < d <= today
      ensures d in w
    {
      assert w[today - d] == d;
    }
  }
}
