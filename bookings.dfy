/**
 * The booking store: the file bookings.csv, holding one row per confirmed
 * booking under the header Customer, Salon, Service, Date, Time. The file
 * is seen abstractly, as the sequence of bookings it holds, or `None` while
 * it does not exist yet; its CSV encoding is not part of this model.
 */
module Bookings {
  import opened Wrappers

  /** One booking: who, where, what, on which day, at which slot. */
  datatype Booking = Booking(customer: string, salon: string, service: string, date: string, time: string)

  /** The table's columns, in file order. */
  const Columns: seq<string> := ["Customer", "Salon", "Service", "Date", "Time"]

  /** A booking's value under a column heading, if there is such a column. */
  function Field(b: Booking, column: string): Option<string> {
    match column
    case "Customer" => Some(b.customer)
    case "Salon" => Some(b.salon)
    case "Service" => Some(b.service)
    case "Date" => Some(b.date)
    case "Time" => Some(b.time)
    case _ => None
  }

  /**
   * A booking as a row of the table: one cell per column, each cell the
   * booking's value under that column's heading.
   */
  function Row(b: Booking): (r: seq<string>)
    ensures |r| == |Columns|
    ensures forall k :: 0 <= k < |Columns| ==> Field(b, Columns[k]) == Some(r[k])
  {
    [b.customer, b.salon, b.service, b.date, b.time]
  }

  /** A table as pandas holds it: column headings and rows. */
  datatype Table = Table(columns: seq<string>, rows: seq<Booking>)

  /**
   * `load_bookings`: the stored rows under the five headings; when the file
   * does not exist, an empty table with the same headings.
   */
  function LoadBookings(file: Option<seq<Booking>>): (t: Table)
    ensures t.columns == Columns
    ensures file == None ==> t.rows == []
    ensures file.Some? ==> t.rows == file.value
  {
    Table(Columns, file.GetOr([]))
  }

  /** The backing file, rewritten whole by every save. */
  class BookingFile {
    /** What bookings.csv holds, or `None` while it does not exist. */
    var contents: Option<seq<Booking>>

    constructor (initial: Option<seq<Booking>>)
      ensures contents == initial
    {
      contents := initial;
    }

    /**
     * `save_booking`: read the table, append one row, write the table back.
     * Afterwards the file exists and loading it gives the rows it gave
     * before, unchanged and in order, followed by exactly the new booking.
     */
    method SaveBooking(customer: string, salon: string, service: string, date: string, time: string)
      modifies this
      ensures contents == Some(LoadBookings(old(contents)).rows + [Booking(customer, salon, service, date, time)])
      ensures LoadBookings(contents).columns == Columns
      ensures |LoadBookings(contents).rows| == |LoadBookings(old(contents)).rows| + 1
      ensures forall k :: 0 <= k < |LoadBookings(old(contents)).rows| ==>
        LoadBookings(contents).rows[k] == LoadBookings(old(contents)).rows[k]
      ensures LoadBookings(contents).rows[|LoadBookings(contents).rows| - 1] ==
        Booking(customer, salon, service, date, time)
      ensures Row(LoadBookings(contents).rows[|LoadBookings(contents).rows| - 1]) ==
        [customer, salon, service, date, time]
    {
      var newBooking := Booking(customer, salon, service, date, time);
      var bookings := LoadBookings(contents).rows + [newBooking];
      contents := Some(bookings);
    }
  }
}
