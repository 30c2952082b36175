# Contact book assistant — a Dafny model

This project models the in-memory core of a small command-line contact
book written in Python (`main.py`). A contact (`Record`) has the following:

- a validated name;
- an ordered list of validated phone numbers;
- an optional birthday, read and written as `DD.MM.YYYY`.

An `AddressBook` stores contacts under their names. It also answers one
query: "whose birthday falls within the next seven days?".

Command handlers turn the words of an input line into updates of the book
and into fixed reply messages. An error decorator turns exceptions into
those messages.

Modules:

- `Wrappers`: `Option` and `Result`. It also holds the Python exceptions
  the core raises (`ValueError`, `KeyError`, `IndexError`,
  `OverflowError`) as an `Exception` datatype.
- `Text`: the `str` operations the program relies on. These are
  `isdigit`, `isspace`, `split()` with no argument, `join` and `lower`.
- `Lists`: the list operations `Record` performs in place. These are
  the first match, `list.remove` (which drops the first match) and
  overwriting every match.
- `Calendar`: Gregorian dates from 01.01.0001 to 31.12.9999, as
  Python's `datetime.date` holds them. It covers the `(year, month, day)`
  ordering, `date + timedelta(days=n)`, `date.replace(year=y)` and the
  day ordinal.
- `Fields`: the `Name` and `Phone` validation rules, and the parsing
  and rendering of `Birthday` text.
- `Records`: class `Record`. Its phone list and birthday are fields that
  its methods update. The name is fixed at construction.
- `AddressBooks`: class `AddressBook`.
  - The Python `dict` becomes a `map` from names to records plus a
    sequence `order` of its keys. `order` keeps the dictionary's
    insertion order, which is the order `get_birthdays_per_week` visits
    the records in.
  - `Valid()` holds at all times. It says that every record is stored
    under its own name and that `order` lists each key exactly once.
- `BirthdayWindow`: what `get_birthdays_per_week` returns, as a function
  of the book's entries and of today's date. The method in
  `AddressBooks` loops over the records and is proved to return exactly
  this function's value.
- `Commands`: the command handlers and `parse_input`.
  - Each handler returns what the Python function returns or raises.
  - `InputError` is the `input_error` decorator. It maps `KeyError`,
    `ValueError` and `IndexError` to their fixed messages.

Today's date (`datetime.now()` in the program) is a parameter of the
birthday query.

Exceptions are `Failure(e)` results. Two of them escape to the caller
because `birthdays` is not decorated:

- `date.replace(year=…)` raises `ValueError` for a 29 February birthday
  in a year that is not a leap year.
- `today + timedelta(days=7)` raises `OverflowError` past 31.12.9999.

The model follows the code where it and the written description of the
program differ:

- A phone need not start with `+`. `Phone.validate` also accepts a value
  whose tail `value[1:]` has at least ten characters and is not all
  digits (`PhoneValid`).
- The name rule rejects only all-digit names of one or two characters,
  because of the `or`. The empty name is accepted (`NameValid`).
- `edit_phone` validates the new phone only when some phone matches. With
  no match, an invalid new phone is never looked at, and the call reports
  success (`EditPhone`).
- A command with too few arguments fails in the tuple unpacking
  `name, phone, *_ = args`, which raises `ValueError`. The reply is
  therefore "The data is incorrect. Try again.". "Enter user name." is
  never produced (`InputError`, `AddContact`, `ChangeContact`).
- A birthday on 29 February makes the birthday query raise in a year that
  is not a leap year (`CollectFails`). No other date stands in for it.

## Model

| member | source | states |
|---|---|---|
| Fields.NameValid | main.py:17-24 | A name is refused exactly when it has one or two characters and all of them are digits; every other string, the empty one included, is accepted. |
| Fields.PhoneValid | main.py:29-37 | A phone is accepted exactly when it has at least eleven characters and either starts with `+` or has a non-digit after its first character. |
| Fields.FieldExamples | main.py:22-37 | "", "007" and "a1" are valid names while "12" and "7" are not; "+15551234567" and "5551234567x" are valid phones while "15551234567" (no `+`, all digits) and "+555123456" (too short) are not. |
| Fields.ParseRender | main.py:41-49 | Parsing the `DD.MM.YYYY` rendering of any date gives that date back. |
| Fields.ParseDate | main.py:41-49 | Text the parser accepts is exactly the rendering of the date it yields, so an accepted birthday is shown unchanged (with `ParseRender`, a text parses to a date iff it is that date's rendering). |
| Fields.RenderDate | main.py:47-49 | A date is rendered as ten characters laid out as DD.MM.YYYY: digits, with dots at the third and sixth place. |
| Fields.ParseLeapDay | main.py:41-45 | "29.02.2000" is accepted as 29 February 2000 (2000 is a leap year). |
| Fields.ParseRejectsMissingDay | main.py:41-45 | "31.04.2020" is refused: April has no 31st day. |
| Fields.ParseRejectsLeapDay | main.py:41-45 | "29.02.2023" is refused: 2023 is not a leap year. |
| Fields.ParseRejectsLayout | main.py:41-45 | "2000.02.29" is refused: only the day-month-year layout with dots is read. |
| Fields.RenderedAtEnd | main.py:47-49 | A rendered date at the end of any text reads back from the last ten characters. |
| Records.NewRecord | main.py:53-56 | Creating a record fails with ValueError exactly when the name is refused; otherwise the new record has that name, no phones and no birthday. |
| Records.Record.AddPhone | main.py:58-60 | A valid phone is appended at the end; an invalid one raises ValueError and leaves the phones as they were; the birthday is untouched. |
| Records.Record.RemovePhone | main.py:62-67 | The phones become the old list with its first entry equal to the given number taken out (unchanged when there is none); the birthday is untouched. |
| Lists.RemoveFirstCounts | main.py:62-67 | Removing the first match takes away exactly one occurrence of the number and nothing else, and it is a no-op when the number is absent. |
| Lists.RemoveFirstShape | main.py:62-67 | The entries before the first match keep their places and the ones after it move one place to the front. |
| Records.Record.EditPhone | main.py:69-74 | With a matching phone and an invalid new phone: ValueError and the phones are unchanged. Otherwise (no match, or a valid new phone): every entry equal to the old phone becomes the new one at the same index, the others stay, and the reply is "Contact <name> update". |
| Lists.ReplaceAllAbsent | main.py:69-74 | When no phone matches, editing changes nothing. |
| Lists.ReplaceAllLeavesNoOld | main.py:69-74 | When the new phone differs from the old one: after editing, no entry equals the old phone, and the count of the new phone grows by the count of the old one. |
| Records.Record.FindPhone | main.py:76-81 | Returns a phone exactly when one equal to the given number is stored, and then it is that number; nothing changes. |
| Records.Record.AddBirthday | main.py:83-85 | Text the parser accepts becomes the birthday; other text raises ValueError and leaves the old birthday; the phones are untouched. |
| Records.Record.ToString | main.py:92-96 | The text is "Contact name: <name>, phones: " followed by the phones joined by "; " (or "No phones"). With a birthday, ", birthday: " and ten more characters follow, and those parse back to the stored birthday. |
| AddressBooks.AddressBook.constructor | main.py:99 | A new book is empty and valid. |
| AddressBooks.AddressBook.AddRecord | main.py:101-103 | The record is stored under its name and every other key keeps its record; a new name goes last in the iteration order and a name already present keeps its place, so adding the same name twice leaves one entry. |
| AddressBooks.AddressBook.Find | main.py:105-107 | Returns the record stored under the name exactly when the name is a key (None otherwise), and that record carries the name. |
| AddressBooks.AddressBook.Delete | main.py:109-112 | Exactly the given key is removed from the map and from the iteration order; nothing happens when it is absent; every other key stays. |
| Lists.RemoveFirstKeepsDistinct | main.py:109-112 | Removing a key from an iteration order without repeats leaves no repeats. |
| Lists.RemoveFirstMembers | main.py:109-112 | Removing a key from an iteration order without repeats drops that key and keeps every other. |
| AddressBooks.AddressBook.EntriesOf | main.py:120-121 | The records' names and birthdays, one per key, in the order given. |
| AddressBooks.AddressBook.GetBirthdaysPerWeek | main.py:114-125 | The query's result equals the specification `Upcoming` of the book's entries in iteration order and today's date, including its OverflowError and ValueError outcomes. |
| AddressBooks.AddressBook.CollectBirthdays | main.py:118-125 | The loop over the records, with the window's end already computed, returns exactly `Collect` of the book's entries in iteration order. |
| BirthdayWindow.UpcomingMembers | main.py:114-125 | When the query succeeds, a line is in its result iff it is "<name>: <birthday>" for a record that has a birthday whose day, moved into today's year, lies within [today, today + 7 days] (both directions). |
| BirthdayWindow.CollectSound | main.py:120-124 | Every line the loop collects belongs to a qualifying record. |
| BirthdayWindow.CollectComplete | main.py:120-124 | Every qualifying record has its line in the loop's result. |
| BirthdayWindow.CollectAppend | main.py:118-125 | The loop over a concatenation of records is the loop over the first part followed by the second, so the lines keep the book's order. |
| BirthdayWindow.CollectNext | main.py:120-124 | One pass of the loop body turns the result for the first i records into the result for the first i + 1. |
| BirthdayWindow.CollectStops | main.py:120-124 | Once a record raises, the whole loop ends with that exception. |
| BirthdayWindow.CollectFails | main.py:122 | The loop raises, and always with ValueError, exactly when some record's birthday is a 29 February and today's year is not a leap year. |
| BirthdayWindow.UpcomingFails | main.py:116-122 | The query raises OverflowError when today + 7 days passes 31.12.9999, and otherwise raises only ValueError for a lost 29 February. |
| BirthdayWindow.WindowByOrdinal | main.py:117-123 | A moved birthday is in the window exactly when it falls 0 to 7 days after today, counted in days. |
| BirthdayWindow.YearEndGap | main.py:122-123 | In December, a birthday in January never qualifies, because it is moved into the current year, which is already past. |
| BirthdayWindow.YearEndExample | main.py:122-123 | On 29.12.2024 a birthday on 2 January is four days away, yet it is left out. |
| BirthdayWindow.WindowExample | main.py:116-123 | On 10.06.2024 the window closes on 17.06.2024: birthdays on 10 and 12 June qualify and one on 20 June does not. |
| BirthdayWindow.ThenAssociative | main.py:120-124 | Chaining loop steps is associative: the first exception wins, otherwise the lines concatenate. |
| Calendar.ReplaceYear | main.py:122 | `replace(year=y)` fails exactly for 29 February moved into a year that is not a leap year; otherwise it keeps day and month. |
| Calendar.OrdinalOrder | main.py:123 | Comparing two dates is comparing their day ordinals. |
| Calendar.OrdinalInjective | main.py:123 | Different dates have different ordinals. |
| Calendar.OrdinalNextDay | main.py:117 | The next day has the next ordinal; only 31.12.9999 has no next day. |
| Calendar.AddDays | main.py:117 | Adding n days gives the date whose ordinal is n larger, and it fails exactly when that would pass 31.12.9999 (ordinal 3652059). |
| Calendar.LastOrdinal | main.py:117 | 31.12.9999, the last date Python's `date` holds, is day 3652059. |
| Calendar.DaysBeforeYearClosedForm | main.py:117 | The recursive count of days before a year equals the closed form 365(y−1) + ⌊(y−1)/4⌋ − ⌊(y−1)/100⌋ + ⌊(y−1)/400⌋ of the Gregorian calendar. |
| Calendar.DaysInMonth | main.py:43 | A month has 28 to 31 days, and 29 exactly for February in a leap year. |
| Commands.InputError | main.py:144-154 | A returned message passes through; KeyError, ValueError and IndexError become "Contact not found.", "The data is incorrect. Try again." and "Enter user name."; only other exceptions escape. |
| Commands.AddContact | main.py:159-170 | Too few arguments: ValueError, book unchanged. Known name: "Contact updated." with the phone appended when valid, ValueError otherwise. Unknown valid name: a fresh record is stored last, then the phone is added; an invalid phone still leaves the empty-phoned record in the book and raises ValueError. Refused name: ValueError, book unchanged. |
| Commands.ChangeContact | main.py:172-178 | Too few arguments: ValueError. Unknown name: KeyError. Otherwise the outcome of `edit_phone` on that record. |
| Commands.ShowPhone | main.py:181-188 | No arguments: ValueError; unknown name: KeyError; otherwise "<name>'s phones: " followed by the phones joined by ", " or "No phones". |
| Commands.AddBirthday | main.py:197-204 | Too few arguments or an unknown name: ValueError. Otherwise the parsed date replaces the birthday ("Birthday added for <name>."), or the text is refused with ValueError and the old birthday stays; the phones are untouched. |
| Commands.ShowBirthday | main.py:207-214 | For an unknown name or a record without birthday: "No birthday found for <name>."; otherwise "<name>'s birthday is on " followed by ten characters that parse back to the stored birthday. |
| Commands.Birthdays | main.py:191-195 | The exceptions of the query escape unchanged; no lines give "No birthdays in the next 7 days."; otherwise the lines joined by newlines. |
| Commands.ParseInput | main.py:217-220 | Blank input (only whitespace) raises ValueError, and only blank input does; the command word has no upper-case ASCII letter left, so commands are recognised whatever their case. |
| Commands.ParseInputJoin | main.py:217-220 | A command line of words separated by single spaces parses into the lower-cased first word and the remaining words, unchanged. |
| Text.SplitJoin | main.py:218 | Splitting words joined by single spaces gives the words back. |
| Text.SplitKeepsCharacters | main.py:218 | `split()` loses nothing but whitespace: its words, concatenated, are the input's non-whitespace characters in order. |
| Text.SplitEmptyIff | main.py:218 | `split()` yields nothing exactly for a string made of whitespace. |
| Text.Split | main.py:218 | Every word `split()` yields is non-empty and contains no whitespace. |

## Left out

- `save_data` and `load_data` (main.py:130-139) are not modelled. They
  serialise the book to a file with `pickle`, which is file I/O over
  opaque Python objects.
- The interactive `main` loop (main.py:222-262) is not modelled. It reads
  input, prints replies and dispatches on the command word; the `all`
  command only prints every record's `ToString`.
- `datetime.now()` is not modelled. Today's date is a parameter of
  `GetBirthdaysPerWeek` and `Birthdays`.
- ParseDate: reads only the fixed two-digit-day, two-digit-month,
  four-digit-year form, written with ASCII digits. `strptime` with
  `%d.%m.%Y` also accepts single-digit days and months such as
  "1.2.2000", and other Unicode decimal digits (a year written "٢٠٠٠");
  the model refuses both.
- RenderDate: always pads the year to four digits. The platform's
  `strftime` may not pad years below 1000.
- IsDigits: `str.isdigit` is modelled on ASCII digits only. Python also
  accepts other Unicode digits.
- Lower: `str.lower` is modelled on ASCII letters only.
- The first `Record.__str__` (main.py:87-90) is not modelled. The second
  definition at main.py:92-96 replaces it.
- Phones are stored as their text. Python stores `Phone` objects, and
  `find_phone` returns the stored object; the model returns its value,
  which is all a caller can observe of it.
- `Field.__init__` and `Field.__str__` (main.py:6-12) are not modelled
  separately. They only store the value and convert it to text, which the
  model does directly.
- The `IndexError` branch of `input_error` is modelled (`InputError`),
  but no handler here raises `IndexError`.
