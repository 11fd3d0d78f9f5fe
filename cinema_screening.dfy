/**
 * One screening of cinema/screening.py: the title, the theatre of `rows` rows
 * with `spr` seats each, a cached vacancy counter, and an empty booking map.
 */
module CinemaScreening {
  import opened Decimal
  import opened Theatre
  import CinemaBooking

  predicate EndsWith(s: string, suffix: string)
  {
    |suffix| <= |s| && s[|s| - |suffix|..] == suffix
  }

  lemma EndsWithAppend(head: string, tail: string, suffix: string)
    requires |suffix| <= |tail|
    ensures EndsWith(head + tail, suffix) <==> EndsWith(tail, suffix)
  {
  }

  lemma EndsWithDropFirst(s: string, suffix: string)
    requires |suffix| >= 1
    ensures EndsWith(s, suffix) ==> EndsWith(s, suffix[1..])
  {
  }

  /**
   * The closing words of the summary: they end in " available)" and say
   * "seat" for exactly one vacancy and "seats" otherwise.
   */
  function SeatsAvailable(vacancies: int): (w: string)
    ensures EndsWith(w, " available)")
    ensures EndsWith(w, " seat available)") <==> vacancies == 1
    ensures EndsWith(w, " seats available)") <==> vacancies != 1
  {
    var singular, plural := " seat available)", " seats available)";
    assert plural[1..] == "seats available)";
    assert singular[0] != plural[1..][0];
    EndsWithDropFirst(singular, plural);
    if vacancies == 1 then singular else plural
  }

  /** Whatever precedes the closing words, they alone decide singular or plural. */
  lemma ClosingWordsDecide(head: string, vacancies: int)
    ensures EndsWith(head + SeatsAvailable(vacancies), " seat available)") <==> vacancies == 1
    ensures EndsWith(head + SeatsAvailable(vacancies), " seats available)") <==> vacancies != 1
  {
    var tail := SeatsAvailable(vacancies);
    var singular, plural := " seat available)", " seats available)";
    EndsWithAppend(head, tail, singular);
    if vacancies == 1 {
      assert plural[1..] == "seats available)";
      assert singular[0] != plural[1..][0];
      EndsWithAppend(head, tail, plural[1..]);
      EndsWithDropFirst(head + tail, plural);
    } else {
      EndsWithAppend(head, tail, plural);
    }
  }

  /**
   * The summary `f"{title} ({vacancies} seat(s) available)"`: it starts with
   * the title, says "seat" exactly when one seat is left and "seats"
   * otherwise, and the number in it reads back as the vacancy count.
   */
  function Availability(title: string, vacancies: int): (s: string)
    ensures |title| < |s| && s[..|title|] == title
    ensures EndsWith(s, " seat available)") <==> vacancies == 1
    ensures EndsWith(s, " seats available)") <==> vacancies != 1
    ensures |title| + 2 <= |s| - |SeatsAvailable(vacancies)|
    ensures ParseInt(s[|title| + 2 .. |s| - |SeatsAvailable(vacancies)|]) == vacancies
  {
    var head := title + " (" + IntToDecimal(vacancies);
    var tail := SeatsAvailable(vacancies);
    ClosingWordsDecide(head, vacancies);
    SummaryLayout(title, " (", IntToDecimal(vacancies), tail);
    head + tail
  }

  /** Where the title and the number sit in `title + sep + number + closing`. */
  lemma SummaryLayout(title: string, sep: string, number: string, closing: string)
    ensures var s := title + sep + number + closing;
            && s[..|title|] == title
            && s[|title| + |sep| .. |s| - |closing|] == number
  {
  }

  lemma AvailabilityParts(title: string, vacancies: int)
    ensures Availability(title, vacancies) == title + " (" + IntToDecimal(vacancies) + SeatsAvailable(vacancies)
  {
  }

  class Screening {
    var title: string
    var rows: int
    var spr: int
    var theatre: Grid
    var vacancies: int
    var bookings: map<string, CinemaBooking.Booking>
    var newBookingNum: int

    /** The cached counter agrees with a scan of the theatre. */
    ghost predicate CounterAgrees()
      reads this
    {
      vacancies == VacantSeats(theatre)
    }

    constructor (title: string, rows: int, spr: int)
      ensures this.title == title && this.rows == rows && this.spr == spr
      ensures theatre == EmptyTheatre(rows, spr)
      ensures vacancies == rows * spr
      ensures rows >= 0 && spr >= 0 ==> Shaped(theatre, rows, spr)
      ensures forall i, j :: 0 <= i < |theatre| && 0 <= j < |theatre[i]| ==> theatre[i][j] == Vacant
      ensures CounterAgrees() <==> (rows >= 0 && spr >= 0) || rows == 0 || spr == 0
      ensures bookings == map[] && newBookingNum == 1
    {
      this.title := title;
      this.rows := rows;
      this.spr := spr;
      // `rows * [spr * [0]]`: every row is one shared list in the source (see EmptyTheatre).
      theatre := EmptyTheatre(rows, spr);
      vacancies := rows * spr;
      bookings := map[];
      newBookingNum := 1;
      CounterMatchesScan(rows, spr);
    }

    /** `get_vacancy`: the cached counter, read without scanning. */
    function Vacancy(): (r: int)
      reads this
      ensures CounterAgrees() ==> r == VacantSeats(theatre)
    {
      vacancies
    }

    /** `get_title_availability`. */
    function TitleAvailability(): (s: string)
      reads this
      ensures |title| < |s| && s[..|title|] == title
      ensures EndsWith(s, " seat available)") <==> vacancies == 1
      ensures EndsWith(s, " seats available)") <==> vacancies != 1
      ensures |title| + 2 <= |s| - |SeatsAvailable(vacancies)|
      ensures ParseInt(s[|title| + 2 .. |s| - |SeatsAvailable(vacancies)|]) == vacancies
    {
      Availability(title, vacancies)
    }

    /** `_count_empty_seats`: the number of vacant cells, found by scanning. */
    method CountEmptySeats() returns (count: int)
      ensures count == VacantSeats(theatre)
      ensures 0 <= count <= Capacity(theatre)
      ensures CounterAgrees() ==> count == Vacancy()
    {
      count := ScanVacantSeats(theatre);
    }
  }

  /**
   * After construction the scan and the counter agree and lie in
   * [0, rows * spr] for any non-negative dimensions.
   */
  method FreshScreeningCounts(title: string, rows: nat, spr: nat) returns (scanned: int, cached: int)
    ensures scanned == cached == rows * spr
  {
    var s := new Screening(title, rows, spr);
    scanned := s.CountEmptySeats();
    cached := s.Vacancy();
  }
}
