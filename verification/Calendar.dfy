/** The calendar behind Go's `time.Time`: the Gregorian rules, applied from year 1 on. */
module Calendar {
  import opened Cluster

  const SECOND: int := 1_000_000_000

  predicate IsLeap(year: nat) {
    year % 4 == 0 && (year % 100 != 0 || year % 400 == 0)
  }

  /** The days of the years 1 to `year`. */
  ghost function DaysThrough(year: nat): nat {
    if year == 0 then 0 else DaysThrough(year - 1) + if IsLeap(year) then 366 else 365
  }

  /** The first moment of a year. */
  ghost function StartOfYear(year: nat): Time
    requires year >= 1
  {
    DaysThrough(year - 1) * 24 * 60 * 60 * SECOND
  }

  lemma OneYearOn(year: nat)
    requires year > 0
    ensures year / 4 == (year - 1) / 4 + if year % 4 == 0 then 1 else 0
    ensures year / 100 == (year - 1) / 100 + if year % 100 == 0 then 1 else 0
    ensures year / 400 == (year - 1) / 400 + if year % 400 == 0 then 1 else 0
  {
  }

  lemma Multiples(year: nat, q: nat)
    ensures year == 4 * q ==> year % 4 == 0
    ensures year == 100 * q ==> year % 100 == 0
  {
  }

  lemma LeapCounts(year: nat)
    ensures (if IsLeap(year) then 1 else 0)
            == (if year % 4 == 0 then 1 else 0) - (if year % 100 == 0 then 1 else 0) + if year % 400 == 0 then 1 else 0
  {
    if year % 400 == 0 {
      var q := year / 400;
      Multiples(year, 4 * q);
      Multiples(year, 100 * q);
    } else if year % 100 == 0 {
      var q := year / 100;
      Multiples(year, 25 * q);
    }
  }

  /** 365 days a year, one more in every fourth, but not in every hundredth, but in every four hundredth. */
  lemma {:induction false} DaysInClosedForm(year: nat)
    ensures DaysThrough(year) == 365 * year + year / 4 - year / 100 + year / 400
  {
    if year > 0 {
      DaysInClosedForm(year - 1);
      OneYearOn(year);
      LeapCounts(year);
    }
  }

  /** 1970 starts after 719162 days of 86400 seconds. */
  lemma StartOf1970()
    ensures DaysThrough(1969) == 719_162
    ensures StartOfYear(1970) == 719_162 * 86_400 * 1_000_000_000
  {
    DaysInClosedForm(1969);
  }
}
