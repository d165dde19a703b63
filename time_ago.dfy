/**
 * Relative times (frontend/app/composables/useTimeAgo.ts): the difference
 * between now and a creation time, in whole units by floor division, the
 * largest non-zero unit shown. Both instants are milliseconds; an unparsable
 * creation time is `None` (JavaScript's NaN, for which every comparison is
 * false).
 */
module TimeAgo {
  import opened Wrappers
  import opened Text

  const MS_PER_MINUTE := 60 * 1000
  const MS_PER_HOUR := 60 * MS_PER_MINUTE
  const MS_PER_DAY := 24 * MS_PER_HOUR
  /** A month is thirty days. */
  const MS_PER_MONTH := 30 * MS_PER_DAY

  datatype Ago = Months(n: nat) | Days(n: nat) | Hours(n: nat) | Minutes(n: nat) | JustNow

  /** The unit chain of the source: seconds, minutes, hours, days, months, each floored. */
  function Bucket(diffMs: int): (a: Ago)
    ensures a.Months? ==> a.n == diffMs / MS_PER_MONTH && a.n > 0
    ensures a.Days? ==> a.n == diffMs / MS_PER_DAY && 0 < a.n < 30
    ensures a.Hours? ==> a.n == diffMs / MS_PER_HOUR && 0 < a.n < 24
    ensures a.Minutes? ==> a.n == diffMs / MS_PER_MINUTE && 0 < a.n < 60
    ensures a == JustNow <==> diffMs < MS_PER_MINUTE
  {
    var sec := diffMs / 1000;
    var min := sec / 60;
    var hour := min / 60;
    var day := hour / 24;
    var month := day / 30;
    assert min == diffMs / MS_PER_MINUTE;
    assert hour == diffMs / MS_PER_HOUR;
    assert day == diffMs / MS_PER_DAY;
    assert month == diffMs / MS_PER_MONTH;
    if month > 0 then Months(month)
    else if day > 0 then Days(day)
    else if hour > 0 then Hours(hour)
    else if min > 0 then Minutes(min)
    else JustNow
  }

  /** A difference under a minute, and any negative difference, is "just now". */
  lemma NegativeIsJustNow(diffMs: int)
    requires diffMs < 0
    ensures Bucket(diffMs) == JustNow
  {
  }

  /** The unit word, with an "s" only for more than one. */
  function Unit(word: string, n: nat): string {
    NatToString(n) + " " + word + (if n > 1 then "s" else "") + " ago"
  }

  function Render(a: Ago): string {
    match a
    case Months(n) => Unit("month", n)
    case Days(n) => Unit("day", n)
    case Hours(n) => Unit("hour", n)
    case Minutes(n) => Unit("minute", n)
    case JustNow => "just now"
  }

  /** The closure `timeAgo()` returns. */
  function TimeAgo(createdMs: Option<int>, nowMs: int): (text: string)
    ensures createdMs.None? ==> text == "just now"
    ensures createdMs.Some? ==> text == Render(Bucket(nowMs - createdMs.value))
  {
    if createdMs.None? then "just now" else Render(Bucket(nowMs - createdMs.value))
  }

  /** A unit word not ending in "s" is plural exactly when its count is above one. */
  lemma PluralIffMoreThanOne(word: string, n: nat)
    requires word != [] && word[|word| - 1] != 's'
    ensures EndsWith(Unit(word, n), "s ago") <==> n > 1
  {
    var u := Unit(word, n);
    if n > 1 {
      assert u[|u| - 5..] == "s ago";
    } else {
      assert u == (NatToString(n) + " " + word) + " ago";
      assert u[|u| - 5] == word[|word| - 1];
      assert u[|u| - 5..][0] != 's';
    }
  }

  /** One hour and ten minutes show as the hour only: the largest unit wins. */
  lemma LargestUnitWins()
    ensures Render(Bucket(70 * MS_PER_MINUTE)) == "1 hour ago"
    ensures Render(Bucket(2 * MS_PER_DAY + 5 * MS_PER_HOUR)) == "2 days ago"
  {
    assert Bucket(70 * MS_PER_MINUTE) == Hours(1);
    assert Unit("hour", 1) == "1 hour ago";
    assert Bucket(2 * MS_PER_DAY + 5 * MS_PER_HOUR) == Days(2);
    assert Unit("day", 2) == "2 days ago";
  }
}
