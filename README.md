# Cinema screening and booking ledger — a Dafny model

This project models the core of a small terminal cinema-booking program
(GIC Cinemas). It covers three source files:

- **cinema/booking.py**: the booking ledger. A `Booking` record holds an id, a ticket count,
  a seat map (row index → list of column indices) and a `confirmed` flag. The `Bookings`
  container maps booking ids to bookings. It issues ids `GIC0001`, `GIC0002`, … from its current
  size. It replaces a booking's seat map wholesale, failing with "Booking not found!" for an
  unknown id. It looks bookings up with a fallback.
- **cinema/screening.py**: a `Screening` holds a title and a theatre of `rows` rows with `spr`
  seats each, all vacant. It keeps a cached vacancy counter `rows * spr`, an empty booking map
  and the next booking number 1. It can report the counter, return a one-line availability
  summary, and count the vacant seats by scanning the theatre.
- **screening/screening.py**: the older `Screening`. It has the same theatre, counter and scan,
  plus `get_features`, which builds the two-entry main menu (book tickets, check bookings).

Layout (one module per file):

| file | module | models |
|---|---|---|
| `wrappers.dfy` | `Wrappers` | `Option` (Python's `None`) and `Result` (a raised exception) |
| `decimal.dfy` | `Decimal` | decimal text of integers (`f"{n}"`, `f"{n:04d}"`) and a parser that reads it back |
| `theatre.dfy` | `Theatre` | the seat matrix `rows * [spr * [0]]`, the vacancy count and the scan loop |
| `cinema_booking.dfy` | `CinemaBooking` | cinema/booking.py |
| `cinema_screening.dfy` | `CinemaScreening` | cinema/screening.py |
| `legacy_screening.dfy` | `LegacyScreening` | screening/screening.py |

Modelling decisions:

- **Classes.** `Booking`, `Bookings` and both `Screening`s are classes, because the source
  updates their fields in place. `create_booking` inserts into the `bookings` map field.
  `update_booking` overwrites the `seats` field of the stored `Booking` object, so a caller
  holding that object sees the change.
- **Fixed booking fields.** `Booking.id` and `Booking.count` are `const`: nothing in the
  modelled code reassigns them.
- **Seats.** A seat is `Cell = Vacant | Occupied(bookingId)`. `Vacant` stands for the integer 0
  the source stores. The source's comment says an occupied seat should hold a booking id.
  Counting `Vacant` cells is `row.count(0)`.
- **Shared rows.** The theatre is a `seq<seq<Cell>>` built by `Repeat`, which follows Python's
  list repetition (a non-positive count gives the empty list). In Python every row of
  `rows * [spr * [0]]` is one shared list object. No seat is ever written in the modelled code,
  so the value (`rows` equal rows of `spr` vacant seats) is all that can be observed.
- **Negative dimensions.** The constructors accept any integers, as the source does.
  `Theatre.CounterMatchesScan` proves when the cached counter `rows * spr` equals the scanned
  count: exactly when both dimensions are non-negative or one of them is 0. For example,
  `rows = -2, spr = -3` caches 6 vacancies over a theatre with no seats.
- **Menu actions.** The menu built by `get_features` holds bound methods. The model holds an
  `Action` tag (`BookTickets`, `CheckBookings`) instead.

Where the full booking system's intended behaviour and the code differ, the model follows the code:

- `update_booking` does not check the `confirmed` flag. A confirmed booking's seats are
  replaced like any other.
- Ids are not checked for uniqueness. `create_booking` overwrites a colliding key. Ids are
  pairwise distinct only for a ledger built from empty by `create_booking` alone (`Sequential`).
- The full booking system's intended features (seat allocation, row-label conversion, seat
  changing, confirmation and grid rendering) are not in these source files.

## Model

| member | source | states |
|---|---|---|
| `Decimal.NatToDecimal` | cinema/booking.py:27 | the decimal text of a number is non-empty, all digits, and has no leading zero unless the number is 0 |
| `Decimal.ParseNatToDecimal` | cinema/booking.py:27 | reading a number's decimal text back gives the number |
| `Decimal.IntToDecimal` | cinema/screening.py:30 | `f"{n}"`: the text starts with '-' exactly for a negative integer and reads back as that integer |
| `Decimal.IntToDecimalInjective` | cinema/screening.py:30 | two integers print alike if and only if they are equal |
| `Decimal.ZeroPad` | cinema/booking.py:27 | for the digits of a non-negative number, the `:04d` padding: reaches the width, keeps the digits as a suffix and fills only with '0' |
| `Decimal.ParseIgnoresLeadingZeros` | cinema/booking.py:27 | leading zeros do not change the number read |
| `Decimal.ParseZeroPad` | cinema/booking.py:27 | zero padding never changes the number the digits denote |
| `Decimal.DecimalLength` | cinema/booking.py:27 | for k ≥ 1, a number has at most k digits if and only if it is below 10^k |
| `Theatre.Repeat` | cinema/screening.py:12 | list repetition `n * [x]` has max(n, 0) elements, all equal to x |
| `Theatre.VacantInRow` | cinema/screening.py:46 | `row.count(0)` never exceeds the row length |
| `Theatre.VacantInRowIsMultiplicity` | cinema/screening.py:46 | `row.count(0)` equals the multiplicity of the vacant seat in the row's multiset |
| `Theatre.EmptyTheatre` | cinema/screening.py:12 | `rows * [spr * [0]]`: every cell vacant, all rows equal (the shared row list), `rows` rows of `spr` seats when both are non-negative |
| `Theatre.VacantSeats` | cinema/screening.py:44-47 | the sum of `row.count(0)` over the rows, never more than the number of seats |
| `Theatre.CapacityOfShaped` | cinema/screening.py:12 | a theatre of `rows` rows of `spr` seats has `rows * spr` seats |
| `Theatre.EmptyTheatreVacancy` | cinema/screening.py:12-14 | a fresh theatre has max(rows,0)·max(spr,0) vacant seats |
| `Theatre.CounterMatchesScan` | cinema/screening.py:12-14 | the cached `rows * spr` equals the scanned count if and only if both dimensions are non-negative or one is 0 |
| `Theatre.ScanVacantSeats` | cinema/screening.py:44-47 | the row-by-row scan returns the vacant-seat count, between 0 and the number of seats |
| `CinemaBooking.SeatsOrEmpty` | cinema/booking.py:13 | a booking stores the given seat map, or {} when none is given |
| `CinemaBooking.BookingId` | cinema/booking.py:27 | `f"GIC{n:04d}"`: at least seven characters long |
| `CinemaBooking.BookingIdDecodes` | cinema/booking.py:27 | every id starts with "GIC" and its digits read back as the sequence number |
| `CinemaBooking.BookingIdInjective` | cinema/booking.py:27 | two sequence numbers give the same id if and only if they are equal |
| `CinemaBooking.BookingIdWidth` | cinema/booking.py:27 | ids are 7 characters exactly for sequence numbers below 10000 |
| `CinemaBooking.FirstBookingIds` | test.py:19 | the first two ids are "GIC0001" and "GIC0002" |
| `CinemaBooking.IssuedIdsMembership` | cinema/booking.py:27-30 | the id of number m is among the first n ids if and only if 1 ≤ m ≤ n |
| `CinemaBooking.IssuedIdsCount` | cinema/booking.py:27-30 | the first n ids are pairwise distinct (there are n of them) |
| `CinemaBooking.Booking.constructor` | cinema/booking.py:2-14 | id and count stored unchanged, `confirmed` defaults to false, seats copied or {} |
| `CinemaBooking.Bookings.constructor` | cinema/booking.py:17-24 | the ledger starts as a copy of the given map or empty, and an empty ledger is sequential |
| `CinemaBooking.Bookings.CreateBooking` | cinema/booking.py:26-31 | a new unconfirmed booking with id GIC + padded (size+1) is bound in the map (overwriting a colliding key); a fresh id grows the map by one; a sequential ledger stays sequential and never collides |
| `CinemaBooking.Bookings.UpdateBooking` | cinema/booking.py:33-41 | an unknown id fails with "Booking not found!" and changes nothing; a known id gets exactly the new seat map, keeps id, count and confirmed, whatever `confirmed` is; no other booking changes |
| `CinemaBooking.Bookings.GetBooking` | cinema/booking.py:43-44 | the stored booking when present, else the fallback; in a sequential ledger the booking found carries the id asked for |
| `CinemaBooking.FirstTwoBookings` | test.py:19 | two bookings created on a fresh ledger get "GIC0001" and "GIC0002" |
| `CinemaScreening.SeatsAvailable` | cinema/screening.py:30 | the closing words end in " available)" and say " seat available)" if and only if one seat is vacant, " seats available)" otherwise |
| `CinemaScreening.Availability` | cinema/screening.py:30 | the summary starts with the title, ends in " seat available)" if and only if one seat is vacant (" seats available)" otherwise), and the number in it reads back as the vacancy counter |
| `CinemaScreening.Screening.constructor` | cinema/screening.py:4-20 | title and dimensions stored, theatre all vacant (`rows` rows of `spr` seats when non-negative), counter `rows * spr`, counter agrees with the scan exactly under the sign condition, no bookings, next number 1 |
| `CinemaScreening.Screening.Vacancy` | cinema/screening.py:22-27 | the cached counter, which equals the scanned count whenever the counter is consistent |
| `CinemaScreening.Screening.TitleAvailability` | cinema/screening.py:29-30 | starts with the title, uses the singular exactly when one seat is vacant and the plural otherwise, and the number in it reads back as the vacancy counter |
| `CinemaScreening.Screening.CountEmptySeats` | cinema/screening.py:39-47 | the number of vacant cells, between 0 and the number of seats, equal to `get_vacancy` when the counter is consistent |
| `CinemaScreening.FreshScreeningCounts` | cinema/screening.py:12-47 | on a fresh screening with non-negative dimensions the scan and the counter both give `rows * spr` |
| `LegacyScreening.SeatCount` | screening/screening.py:28 | "1 seat" or "{n} seats", which followed by " available)" is the number and closing words of the newer summary |
| `LegacyScreening.BookOption` | screening/screening.py:28 | menu entry 1 is "Book tickets for " followed by the newer summary text, so it says "seat" if and only if one seat is vacant |
| `LegacyScreening.Screening.constructor` | screening/screening.py:2-12 | title and dimensions stored, theatre all vacant, counter `rows * spr`, counter agrees with the scan exactly under the sign condition |
| `LegacyScreening.Screening.Vacancy` | screening/screening.py:14-19 | the cached counter, which equals the scanned count whenever the counter is consistent |
| `LegacyScreening.Screening.Features` | screening/screening.py:21-40 | the menu has exactly the keys 1 and 2 (book tickets with the availability text, then "Check bookings"), the next index is 3, and nothing changes |
| `LegacyScreening.Screening.CountEmptySeats` | screening/screening.py:49-57 | the number of vacant cells, between 0 and the number of seats, equal to `get_vacancy` when the counter is consistent |

## Left out

- `book_tickets` and `check_bookings` (cinema/screening.py:32-37, screening/screening.py:42-47) only print a line or do nothing. Console output is not modelled.
- program/program.py and main.py are the interactive shell. They prompt with `input()`, print, recurse on bad input and exit. This is I/O and is not modelled. main.py also calls `prog.l_start`, which does not exist.
- test.py drives the program through mocked input. Only its two hard-coded ids are modelled (`FirstTwoBookings`).
- `UpdateBooking` stores the caller's seat map by reference in Python. A later change to that dict by the caller would show in the booking. Maps are values here, so that aliasing is not modelled. The shallow copies made by the two constructors share inner lists and `Booking` objects in the same way.
- `Theatre.EmptyTheatre` stands for the Python theatre, whose rows are all one shared list object. The model keeps only its value. The aliasing is unobservable because no seat is ever written.
- Python's dynamic typing is not modelled: `title` is a string, and `rows`, `spr` and `tickets` are integers.
- `UpdateBooking`: `selection` is a seat map. Python's `update_booking(id, None)` stores `seats = None` (cinema/booking.py:40); the model cannot express that.
- `GetBooking`: `fallback` is an optional booking. Python's `dict.get` (cinema/booking.py:44) returns a fallback of any type.
- The menu's bound-method values are not modelled. Each menu entry holds an `Action` tag instead.
- Seat allocation, row-label ↔ index conversion, seat changing, booking confirmation and grid rendering do not exist in the modelled source files. They are not modelled.
