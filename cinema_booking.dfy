/**
 * The booking ledger of cinema/booking.py: `Booking` records and the
 * `Bookings` container that issues sequential ids "GIC0001", "GIC0002", ...
 */
module CinemaBooking {
  import opened Wrappers
  import opened Decimal

  /** A seat map: row index -> the column indices held in that row (both 0-based). */
  type Seats = map<int, seq<int>>

  /** Python's `seats.copy() if seats else {}`: None and an empty map both give {}. */
  function SeatsOrEmpty(seats: Option<Seats>): (r: Seats)
    ensures seats.Some? ==> r == seats.value
    ensures seats.None? ==> r == map[]
  {
    if seats.Some? && seats.value != map[] then seats.value else map[]
  }

  /**
   * The id `f"GIC{n:04d}"` given to the n-th booking: the prefix "GIC", then
   * at least four digits from which the sequence number reads back.
   */
  function BookingId(n: nat): (id: string)
    ensures |id| >= 7
  {
    "GIC" + ZeroPad(NatToDecimal(n), 4)
  }

  /** Every id starts with "GIC" and the sequence number reads back from the digits after it. */
  lemma BookingIdDecodes(n: nat)
    ensures BookingId(n)[..3] == "GIC"
    ensures ParseDecimal(BookingId(n)[3..]) == n
  {
    var digits := ZeroPad(NatToDecimal(n), 4);
    assert BookingId(n)[3..] == digits;
    ParseZeroPad(NatToDecimal(n), 4);
    ParseNatToDecimal(n);
  }

  /** Distinct sequence numbers give distinct ids. */
  lemma BookingIdInjective(a: nat, b: nat)
    ensures BookingId(a) == BookingId(b) <==> a == b
  {
    BookingIdDecodes(a);
    BookingIdDecodes(b);
  }

  /** Ids are seven characters wide up to GIC9999; from 10000 on they widen. */
  lemma BookingIdWidth(n: nat)
    ensures |BookingId(n)| == 7 <==> n < 10000
  {
    DecimalLength(n, 4);
    assert Pow10(4) == 10000;
  }

  /** The first two ids issued by an empty ledger. */
  lemma FirstBookingIds()
    ensures BookingId(1) == "GIC0001"
    ensures BookingId(2) == "GIC0002"
  {
    assert NatToDecimal(1) == "1" && NatToDecimal(2) == "2";
    assert Zeros(3) == "000";
    assert ZeroPad("1", 4) == "0001" && ZeroPad("2", 4) == "0002";
  }

  /** The ids of the first `n` bookings created. */
  ghost function IssuedIds(n: nat): set<string>
  {
    if n == 0 then {} else IssuedIds(n - 1) + {BookingId(n)}
  }

  lemma {:induction false} IssuedIdsMembership(n: nat, m: nat)
    ensures BookingId(m) in IssuedIds(n) <==> 1 <= m <= n
  {
    if n > 0 {
      IssuedIdsMembership(n - 1, m);
      BookingIdInjective(m, n);
    }
  }

  lemma AddFresh<T>(s: set<T>, x: T)
    requires x !in s
    ensures |s + {x}| == |s| + 1
  {
  }

  /** The first `n` ids are pairwise distinct: there are exactly `n` of them. */
  lemma {:induction false} IssuedIdsCount(n: nat)
    ensures |IssuedIds(n)| == n
  {
    if n > 0 {
      IssuedIdsCount(n - 1);
      IssuedIdsMembership(n - 1, n);
      AddFresh(IssuedIds(n - 1), BookingId(n));
    }
  }

  /** The next id is not among those issued so far, and issuing it extends them by one. */
  lemma NextIdIsFresh(n: nat)
    ensures BookingId(n + 1) !in IssuedIds(n)
    ensures |IssuedIds(n)| == n
    ensures IssuedIds(n + 1) == IssuedIds(n) + {BookingId(n + 1)}
  {
    IssuedIdsMembership(n, n + 1);
    IssuedIdsCount(n);
  }

  class Booking {
    // `id` and `count` are never reassigned by the modelled code.
    const id: string
    const count: int
    var seats: Seats
    var confirmed: bool

    constructor (id: string, count: int, seats: Option<Seats> := None, confirmed: bool := false)
      ensures this.id == id && this.count == count && this.confirmed == confirmed
      ensures this.seats == SeatsOrEmpty(seats)
    {
      this.id := id;
      this.count := count;
      this.seats := SeatsOrEmpty(seats);
      this.confirmed := confirmed;
    }
  }

  class Bookings {
    var bookings: map<string, Booking>

    /**
     * The ledger as `create_booking` alone builds it from empty: its keys are
     * the first |bookings| ids and each booking is filed under its own id.
     */
    ghost predicate Sequential()
      reads this
    {
      && bookings.Keys == IssuedIds(|bookings|)
      && forall k :: k in bookings ==> bookings[k].id == k
    }

    /** `bookings.copy() if bookings else {}` (a shallow copy: the Booking objects are shared). */
    constructor (initial: Option<map<string, Booking>> := None)
      ensures bookings == if initial.Some? then initial.value else map[]
      ensures initial.None? ==> Sequential()
    {
      bookings := if initial.Some? && initial.value != map[] then initial.value else map[];
    }

    /**
     * Files a new unconfirmed booking under the next sequential id. No check
     * for an existing key is made: a colliding key is overwritten.
     */
    method CreateBooking(tickets: int := 0, selection: Option<Seats> := None) returns (b: Booking)
      modifies this
      ensures fresh(b)
      ensures b.id == BookingId(old(|bookings|) + 1)
      ensures b.count == tickets && b.seats == SeatsOrEmpty(selection) && !b.confirmed
      ensures bookings == old(bookings)[b.id := b]
      ensures b.id !in old(bookings) ==> |bookings| == old(|bookings|) + 1
      ensures old(Sequential()) ==> Sequential() && b.id !in old(bookings)
    {
      var n := |bookings|;
      var id := BookingId(n + 1);
      NextIdIsFresh(n);
      b := new Booking(id, tickets, selection);
      bookings := bookings[id := b];
    }

    /**
     * Replaces the seat map of the booking filed under `id` wholesale, whether
     * or not it is confirmed; an unknown id is the error "Booking not found!".
     */
    method UpdateBooking(id: string, selection: Seats) returns (r: Result<Booking, string>)
      modifies if id in bookings then {bookings[id]} else {}
      ensures bookings == old(bookings)
      ensures r.Success? <==> id in bookings
      ensures id !in bookings ==> r == Failure("Booking not found!")
      ensures id in bookings ==> r == Success(bookings[id]) && bookings[id].seats == selection
      ensures id in bookings ==> bookings[id].confirmed == old(bookings[id].confirmed)
      ensures forall k :: k in bookings && (id !in bookings || bookings[k] != bookings[id]) ==>
                bookings[k].seats == old(bookings[k].seats) && bookings[k].confirmed == old(bookings[k].confirmed)
    {
      var found := GetBooking(id);
      if found.None? {
        return Failure("Booking not found!");
      }
      var booking := found.value;
      booking.seats := selection;
      r := Success(booking);
    }

    /** `bookings.get(id, fallback)`. */
    function GetBooking(id: string, fallback: Option<Booking> := None): (r: Option<Booking>)
      reads this
      ensures id in bookings ==> r == Some(bookings[id])
      ensures id !in bookings ==> r == fallback
      ensures Sequential() && id in bookings ==> r.value.id == id
    {
      if id in bookings then Some(bookings[id]) else fallback
    }
  }

  /** Two bookings from a fresh ledger: the ids the source's tests rely on. */
  method FirstTwoBookings() returns (first: string, second: string)
    ensures first == "GIC0001" && second == "GIC0002"
  {
    var ledger := new Bookings();
    var b1 := ledger.CreateBooking(4);
    var b2 := ledger.CreateBooking(12);
    FirstBookingIds();
    first, second := b1.id, b2.id;
  }
}
