# QikGlam salon booking — a Dafny model

QikGlam is a one-page salon booking app. The page lists ten salons. A visitor opens a salon's detail view and picks a service, a date and a half-hourly time slot between 08:30 and 21:00. Confirming the booking appends one row to the file `bookings.csv`, and the page then shows every booking made so far.

This project models the logic under that page. Each part has its own module:

- `TimeSlots` (`time_slots.dfy`) covers the slot generator `generate_time_slots`. It is a loop, modelled as the method `GenerateTimeSlots`. That method is proved equal to the specification function `TimeSlots`, and lemmas about the function state the generator's properties:
  - the first slot is the start time;
  - slots are exactly one interval apart and never pass the end time;
  - one more interval after the last slot would pass the end time;
  - the number of slots is `(end - start) / interval + 1`;
  - every label reads back as "HH:MM" and gives back its own time;
  - the page's own call yields the 26 slots "08:30" to "21:00".

  Times are minutes since midnight.
- `Bookings` (`bookings.dfy`) covers the booking store. The file is `Option<seq<Booking>>`, where `None` means `bookings.csv` does not exist yet.
  - `LoadBookings` is the lookup with a default.
  - `BookingFile.SaveBooking` is the read-modify-write that appends exactly one five-field row and leaves earlier rows unchanged and in order.
- `Page` (`page.dfy`) covers the navigation state `selected_salon_index`. It lives in class `Session`, and its buttons are methods:
  - "View Details" selects a salon.
  - "Confirm Booking" refuses a blank name and changes nothing. Given any other name, it appends the booking and closes the detail view.
  - "Back" closes the detail view.
- `Salons` (`salons.dfy`) covers the fixed catalogue `salons_data`: ten distinctly named salons, each with the same four services at prices that grow down the list.
- `Text` (`text.dfy`) covers the parts of Python's string handling the page uses:
  - decimal formatting of an `int`;
  - zero padding to two digits;
  - `str.strip()`, including Python's full whitespace set.
- `Wrappers` (`wrappers.dfy`) holds `Option`.

## Model

| member | source | states |
|---|---|---|
| TimeSlots.GenerateTimeSlots | salon.py:84-91 | The generator loop returns exactly `TimeSlots(start, end, interval)`. It terminates whenever the interval is positive, or when the start is already later than the end. |
| TimeSlots.GridShape | salon.py:85-90 | The running times are empty when start > end. Otherwise they begin at the start, strictly rise, never pass the end, and the last one plus one interval is past the end, so the end is included when it lies on the grid. |
| TimeSlots.GridAt | salon.py:88-90 | The k-th running time is `start + k * interval`. |
| TimeSlots.GridStep | salon.py:88-90 | Consecutive running times differ by exactly one interval. |
| TimeSlots.GridLength | salon.py:88-90 | For start <= end and a positive interval, there are `(end - start) / interval + 1` running times. |
| TimeSlots.TimeSlotsShape | salon.py:84-91 | The result is empty when start > end. Otherwise it has `(end - start) / interval + 1` labels, and label k reads back as `start + k * interval`. |
| TimeSlots.Label | salon.py:89 | `strftime("%H:%M")` of a time of day is a five-character label. Its "HH:MM" shape and reading back are stated by `LabelRoundTrip` and `ParsedLabelIsLabel`. |
| TimeSlots.TimeSlots | salon.py:84-91 | The value `generate_time_slots` returns. It is empty when start > end; otherwise it is non-empty and begins with the start's label. `TimeSlotsShape` gives its length and every element. |
| TimeSlots.LabelRoundTrip | salon.py:89 | `strftime("%H:%M")` gives five characters: two digits, a colon, two digits. Hour 00-23 and minute 00-59 read back as the same time. |
| TimeSlots.ParsedLabelIsLabel | salon.py:89 | Every well-formed "HH:MM" string is the label of the time it reads, so labels and times correspond one to one. |
| TimeSlots.TimeOf | salon.py:131 | `time(hour, minute)` as minutes since midnight: the quotient by 60 is the hour and the remainder is the minute. |
| TimeSlots.OpeningHoursSlots | salon.py:131 | The page's call (08:30 to 21:00, default 30 minutes) yields exactly 26 slots. They run from "08:30" to "21:00", and slot k is `08:30 + 30k` minutes. |
| Bookings.LoadBookings | salon.py:72-76 | Loading gives the columns Customer, Salon, Service, Date, Time in that order. The rows are the stored ones, or none when the file does not exist. |
| Bookings.Row | salon.py:79-80 | A new booking is a five-cell row whose cell under each column heading is that field of the booking. |
| Bookings.BookingFile.SaveBooking | salon.py:78-82 | After a save the file exists. Loading it gives the previous rows, unchanged and in order, plus exactly one new last row (customer, salon, service, date, time). Its five cells, in column order, are exactly those arguments. The columns are unchanged. |
| Page.Session.constructor | salon.py:94 | A new session has no salon selected, so the catalogue is shown. |
| Page.Session.ViewDetails | salon.py:104-105 | "View Details" on card `idx` selects salon `idx`. |
| Page.Session.ConfirmBooking | salon.py:134-140 | A name that is blank after `strip()` leaves the file and the selection unchanged and reports that the name is required. Any other name appends exactly one booking with the name as typed and the selected salon's name, clears the selection, and reports the confirmation. |
| Page.Session.Back | salon.py:142-143 | "Back to Salons" clears the selection. |
| Page.BookFromCatalogue | salon.py:104-140 | Opening salon `idx`, choosing slot `k` of the offered slots and confirming with a non-blank name makes the file exactly its previous rows, unchanged and in order, followed by one booking. That booking has the name as typed, that salon's name, the chosen service and date, and the label of `08:30 + 30k`. The page returns to the catalogue. A blank name leaves the file unchanged and the salon open. |
| Text.Strip | salon.py:135 | `strip()` keeps the stretch of the name that starts where its leading whitespace ends. That stretch neither starts nor ends with whitespace, and everything after it is whitespace. |
| Text.IsBlank | salon.py:135 | `customer.strip() == ""` holds exactly when every character of the name is Python whitespace. |
| Text.StripEmptyIffAllSpace | salon.py:135 | Stripping leaves the empty string exactly when every character is whitespace, in both directions. |
| Text.TrimStart | salon.py:135 | Stripping the front removes exactly the leading whitespace. The rest is a suffix of the name that does not start with whitespace. |
| Text.TrimEnd | salon.py:135 | Stripping the back removes exactly the trailing whitespace. The rest is a prefix that does not end with whitespace. |
| Text.Decimal | salon.py:58 | `f"{n}"` for a natural number: at least one digit, all decimal digits, and no leading zero unless the number is 0. |
| Text.DecimalRoundTrip | salon.py:58 | The digits that f-string formatting writes for a number read back as that number. |
| Salons.SalonsData | salon.py:56-69 | The catalogue has ten salons. Salon `i` is named "Salon <i+1> - QikGlam", and each salon offers Haircut, Facial, Manicure and Pedicure in that order. |
| Salons.SalonName | salon.py:58 | `f"Salon {i+1} - QikGlam"`: the prefix "Salon ", then digits that read back as `i + 1`, then the suffix " - QikGlam". |
| Salons.SalonNameInjective | salon.py:58 | Different indices give different salon names. |
| Salons.SalonNamesDistinct | salon.py:56-69 | No two salons in the catalogue share a name, so the salon name a booking records identifies one salon. |
| Salons.PricesRise | salon.py:61-66 | Each service costs strictly more at every salon further down the list. |

## Left out

- Rendering is not modelled: page configuration, CSS, columns, images, the services table, the bookings table and its "No bookings yet." notice (salon.py:6-51, 95-123, 145-153). It is presentation only.
- The CSV encoding by pandas is not modelled: quoting, the header line and type inference when reading back (salon.py:74, 82). The file is the abstract sequence of bookings, so a stored value reads back exactly as written.
- Corrupt or unreadable files and other I/O errors are not modelled. The source catches only a missing file (salon.py:75), and every other failure propagates out of the page.
- Two sessions saving at once can lose a booking. The file is read, extended and rewritten with no lock, and this model is sequential.
- The date widget and its minimum date of today are not modelled (salon.py:129). Both depend on the wall clock. The date reaches the store as the text `str(date)`.
- `generate_time_slots` anchors its times to `datetime.today()`, which is not modelled. Times are minutes since midnight. The running time is an unbounded integer. When both calls to `datetime.today()` (salon.py:86-87) return the same day, a step past midnight, but still within datetime's range, ends the loop, as the datetime comparison does.
- TimeSlots.GenerateTimeSlots: when midnight passes between the two calls to `datetime.today()` (salon.py:86-87), the end time falls on the next day and the source goes on past midnight. The page's call then returns 74 labels, "08:30" to "23:30" followed by "00:00" to "21:00", with repeats. The model has both times on one day and returns the 26 labels "08:30" to "21:00".
- TimeSlots.GenerateTimeSlots: only whole-minute start and end times and integer intervals are covered. `datetime.time` can also carry seconds and microseconds, and `timedelta` accepts fractional minutes, but the page passes neither.
- TimeSlots.GenerateTimeSlots: a step that takes the running datetime beyond its range (past the year 9999) raises `OverflowError` in the source after the first label has been appended. This needs an interval of billions of minutes, and the model does not capture it: there the model goes on and returns `[Label(start)]`.
- TimeSlots.GenerateTimeSlots: for a zero or negative interval with start <= end, the source never returns normally: a zero interval loops forever, and a negative one steps back until the running datetime drops below the year 1 and `+=` (salon.py:90) raises `OverflowError`. The precondition excludes exactly those calls. With start > end the source returns an empty list for any interval, and so does the model.
- Salon image URLs and addresses (salon.py:59-60) are cosmetic and left out. Only the names and the service menus with prices are modelled.
- The widgets guarantee that the chosen service is one of the salon's and the time one of the offered slots, and neither handler checks this. `ConfirmBooking` therefore stores whatever service and time it is given.

## Notes on the design

- A whitespace-only name is rejected. Any other name is stored as typed, including its surrounding whitespace, because the source strips only for the test (salon.py:135, 138).
- Nothing prevents double booking. Two bookings of the same salon, date and time are both stored.
- The session state is modelled after the code: the navigation flag is part of the model.
