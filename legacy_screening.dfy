/**
 * The older Screening of screening/screening.py: the same theatre and
 * vacancy counter as cinema/screening.py, plus the two-entry feature menu
 * that the main menu is built from.
 */
module LegacyScreening {
  import opened Decimal
  import opened Theatre
  import CinemaScreening

  /** The bound method a menu entry dispatches to (`book_tickets` or `check_bookings`). */
  datatype Action = BookTickets | CheckBookings

  datatype MenuEntry = MenuEntry(option: string, action: Action)

  /**
   * "1 seat" for exactly one vacancy, otherwise "{vacancies} seats"; followed
   * by " available)" it is the number and closing words of the newer summary.
   */
  function SeatCount(vacancies: int): (c: string)
    ensures c + " available)" == IntToDecimal(vacancies) + CinemaScreening.SeatsAvailable(vacancies)
  {
    if vacancies == 1 then
      assert IntToDecimal(1) == "1";
      SingularCount();
      "1 seat"
    else
      PluralCount(IntToDecimal(vacancies));
      IntToDecimal(vacancies) + " seats"
  }

  lemma SingularCount()
    ensures "1 seat" + " available)" == "1" + " seat available)"
  {
  }

  lemma PluralCount(number: string)
    ensures number + " seats" + " available)" == number + " seats available)"
  {
  }

  /**
   * The text of menu entry 1: "Book tickets for " followed by exactly the
   * summary the newer Screening gives from `get_title_availability`, so it
   * says "seat" exactly when one seat is left.
   */
  function BookOption(title: string, vacancies: int): (o: string)
    ensures o == "Book tickets for " + CinemaScreening.Availability(title, vacancies)
    ensures CinemaScreening.EndsWith(o, " seat available)") <==> vacancies == 1
  {
    var prefix := "Book tickets for ";
    var count, number := SeatCount(vacancies), IntToDecimal(vacancies);
    var closing := CinemaScreening.SeatsAvailable(vacancies);
    var summary := CinemaScreening.Availability(title, vacancies);
    CinemaScreening.AvailabilityParts(title, vacancies);
    Reassociate(prefix, title, " (", count, " available)", number, closing);
    CinemaScreening.EndsWithAppend(prefix, summary, " seat available)");
    prefix + title + " (" + count + " available)"
  }

  lemma Reassociate(prefix: string, title: string, sep: string, count: string, words: string,
                    number: string, closing: string)
    requires count + words == number + closing
    ensures prefix + title + sep + count + words == prefix + (title + sep + number + closing)
  {
    assert prefix + title + sep + count + words == prefix + title + sep + (count + words);
  }

  class Screening {
    var title: string
    var rows: int
    var spr: int
    var theatre: Grid
    var vacancies: int

    /** The cached counter agrees with a scan of the theatre. */
    ghost predicate CounterAgrees()
      reads this
    {
      vacancies == VacantSeats(theatre)
    }

    constructor (title: string, rows: int, spr: int)
      ensures this.title == title && this.rows == rows && this.spr == spr
      ensures theatre == EmptyTheatre(rows, spr)
      ensures vacancies == rows * spr
      ensures rows >= 0 && spr >= 0 ==> Shaped(theatre, rows, spr)
      ensures forall i, j :: 0 <= i < |theatre| && 0 <= j < |theatre[i]| ==> theatre[i][j] == Vacant
      ensures CounterAgrees() <==> (rows >= 0 && spr >= 0) || rows == 0 || spr == 0
    {
      this.title := title;
      this.rows := rows;
      this.spr := spr;
      // `rows * [spr * [0]]`: every row is one shared list in the source (see EmptyTheatre).
      theatre := EmptyTheatre(rows, spr);
      vacancies := rows * spr;
      CounterMatchesScan(rows, spr);
    }

    /** `get_vacancy`: the cached counter, read without scanning. */
    function Vacancy(): (r: int)
      reads this
      ensures CounterAgrees() ==> r == VacantSeats(theatre)
    {
      vacancies
    }

    /**
     * `get_features`: the menu {1: book tickets, 2: check bookings} and the
     * next free menu index, 3. Changes nothing.
     */
    method Features() returns (menu: map<int, MenuEntry>, idx: int)
      ensures menu.Keys == {1, 2} && idx == 3
      ensures menu[1].action == BookTickets && menu[2].action == CheckBookings
      ensures menu[1].option == "Book tickets for " + CinemaScreening.Availability(title, vacancies)
      ensures CinemaScreening.EndsWith(menu[1].option, " seat available)") <==> vacancies == 1
      ensures menu[2].option == "Check bookings"
    {
      menu := map[];
      idx := 1;
      menu := menu[idx := MenuEntry(BookOption(title, vacancies), BookTickets)];
      idx := idx + 1;
      menu := menu[idx := MenuEntry("Check bookings", CheckBookings)];
      idx := idx + 1;
    }

    /** `_count_empty_seats`: the number of vacant cells, found by scanning. */
    method CountEmptySeats() returns (count: int)
      ensures count == VacantSeats(theatre)
      ensures 0 <= count <= Capacity(theatre)
      ensures CounterAgrees() ==> count == Vacancy()
    {
      count := ScanVacantSeats(theatre);
    }
  }
}
