/**
 * The command handlers (main.py:144-220). Each handler below returns what the
 * Python function returns or raises before `input_error` sees it; `InputError`
 * is that decorator. Too few arguments make the tuple unpacking
 * `name, phone, *_ = args` raise ValueError.
 */
module Commands {
  import opened Wrappers
  import opened Text
  import opened Calendar
  import opened Fields
  import opened Records
  import opened BirthdayWindow
  import opened AddressBooks

  const ContactNotFound := "Contact not found."
  const IncorrectData := "The data is incorrect. Try again."
  const EnterUserName := "Enter user name."
  const NoBirthdays := "No birthdays in the next 7 days."

  /** `input_error`: KeyError, ValueError and IndexError become their fixed messages; a returned message and any other exception pass through. */
  function InputError(r: Result<string>): (out: Result<string>)
    ensures r.Success? ==> out == r
    ensures r == Failure(KeyError) ==> out == Success(ContactNotFound)
    ensures r == Failure(ValueError) ==> out == Success(IncorrectData)
    ensures r == Failure(IndexError) ==> out == Success(EnterUserName)
    ensures r == Failure(OverflowError) ==> out == r
  {
    match r
    case Success(_) => r
    case Failure(KeyError) => Success(ContactNotFound)
    case Failure(ValueError) => Success(IncorrectData)
    case Failure(IndexError) => Success(EnterUserName)
    case Failure(OverflowError) => r
  }

  /**
   * `add_contact`: finds or creates the record, then adds the phone. A new
   * record is stored before its phone is validated, so an invalid phone for
   * a new name still leaves a record without phones in the book.
   */
  method AddContact(args: seq<string>, book: AddressBook) returns (r: Result<string>)
    requires book.Valid()
    modifies book, if |args| >= 2 && args[0] in book.data then {book.data[args[0]]} else {}
    ensures book.Valid()
    ensures |args| < 2 ==>
      r == Failure(ValueError) && book.data == old(book.data) && book.order == old(book.order)
    ensures |args| >= 2 && args[0] in old(book.data) ==>
      var record, phone := old(book.data)[args[0]], args[1];
      && book.data == old(book.data) && book.order == old(book.order)
      && record.phones == (if phone != "" && PhoneValid(phone) then old(record.phones) + [phone] else old(record.phones))
      && record.birthday == old(record.birthday)
      && r == (if phone != "" && !PhoneValid(phone) then Failure(ValueError) else Success("Contact updated."))
    ensures |args| >= 2 && args[0] !in old(book.data) && !NameValid(args[0]) ==>
      r == Failure(ValueError) && book.data == old(book.data) && book.order == old(book.order)
    ensures |args| >= 2 && args[0] !in old(book.data) && NameValid(args[0]) ==>
      var name, phone := args[0], args[1];
      && name in book.data && fresh(book.data[name])
      && book.data == old(book.data)[name := book.data[name]]
      && book.order == old(book.order) + [name]
      && book.data[name].phones == (if phone != "" && PhoneValid(phone) then [phone] else [])
      && book.data[name].birthday == None
      && r == (if phone != "" && !PhoneValid(phone) then Failure(ValueError) else Success("Contact added."))
  {
    if |args| < 2 {
      return Failure(ValueError);
    }
    var name, phone := args[0], args[1];
    var found := book.Find(name);
    var message := "Contact updated.";
    var record: Record;
    if found.None? {
      var created := NewRecord(name);
      if created.Failure? {
        return Failure(created.error);
      }
      record := created.value;
      book.AddRecord(record);
      message := "Contact added.";
    } else {
      record := found.value;
    }
    if phone != "" {
      var added := record.AddPhone(phone);
      if added.Fail? {
        return Failure(added.error);
      }
    }
    r := Success(message);
  }

  /** `change_contact`: KeyError for an unknown name; otherwise the outcome of `edit_phone`. */
  method ChangeContact(args: seq<string>, book: AddressBook) returns (r: Result<string>)
    requires book.Valid()
    modifies if |args| >= 3 && args[0] in book.data then {book.data[args[0]]} else {}
    ensures |args| < 3 ==> r == Failure(ValueError)
    ensures |args| >= 3 && args[0] !in book.data ==> r == Failure(KeyError)
    ensures |args| >= 3 && args[0] in book.data ==>
      var record, oldPhone, newPhone := book.data[args[0]], args[1], args[2];
      && record.birthday == old(record.birthday)
      && if oldPhone in old(record.phones) && !PhoneValid(newPhone) then
           r == Failure(ValueError) && record.phones == old(record.phones)
         else
           r == Success("Contact " + args[0] + " update")
           && record.phones == Lists.ReplaceAll(old(record.phones), oldPhone, newPhone)
  {
    if |args| < 3 {
      return Failure(ValueError);
    }
    var name, oldPhone, newPhone := args[0], args[1], args[2];
    var found := book.Find(name);
    if found.None? {
      return Failure(KeyError);
    }
    r := found.value.EditPhone(oldPhone, newPhone);
  }

  /** `show_phone`: the record's phones joined by ", " (or "No phones"); KeyError for an unknown name. */
  function ShowPhone(args: seq<string>, book: AddressBook): (r: Result<string>)
    reads book, book.data.Values
    requires book.Valid()
    ensures |args| == 0 ==> r == Failure(ValueError)
    ensures |args| > 0 && args[0] !in book.data ==> r == Failure(KeyError)
    ensures |args| > 0 && args[0] in book.data ==>
      var phones := book.data[args[0]].phones;
      r == Success(args[0] + "'s phones: " + if phones == [] then "No phones" else Join(phones, ", "))
  {
    if |args| == 0 then Failure(ValueError)
    else
      match book.Find(args[0])
      case None => Failure(KeyError)
      case Some(record) =>
        var phones := if record.phones == [] then "No phones" else Join(record.phones, ", ");
        Success(args[0] + "'s phones: " + phones)
  }

  /** `add_birthday`: ValueError for an unknown name or a date the parser rejects; otherwise the birthday is overwritten. */
  method AddBirthday(args: seq<string>, book: AddressBook) returns (r: Result<string>)
    requires book.Valid()
    modifies if |args| >= 2 && args[0] in book.data then {book.data[args[0]]} else {}
    ensures |args| < 2 || args[0] !in book.data ==> r == Failure(ValueError)
    ensures |args| >= 2 && args[0] in book.data ==>
      var record, date := book.data[args[0]], ParseDate(args[1]);
      && record.phones == old(record.phones)
      && if date.None? then
           r == Failure(ValueError) && record.birthday == old(record.birthday)
         else
           r == Success("Birthday added for " + args[0] + ".") && record.birthday == date
  {
    if |args| < 2 {
      return Failure(ValueError);
    }
    var name, birthday := args[0], args[1];
    var found := book.Find(name);
    if found.None? {
      return Failure(ValueError);
    }
    var added := found.value.AddBirthday(birthday);
    if added.Fail? {
      return Failure(added.error);
    }
    r := Success("Birthday added for " + name + ".");
  }

  /** `show_birthday`: the stored birthday, or the "No birthday found" message for an unknown name or a record without birthday. */
  function ShowBirthday(args: seq<string>, book: AddressBook): (r: Result<string>)
    reads book, book.data.Values
    requires book.Valid()
    ensures |args| == 0 ==> r == Failure(ValueError)
    ensures |args| > 0 && (args[0] !in book.data || book.data[args[0]].birthday.None?) ==>
      r == Success("No birthday found for " + args[0] + ".")
    ensures |args| > 0 && args[0] in book.data && book.data[args[0]].birthday.Some? ==>
      var text := args[0] + "'s birthday is on ";
      && r.Success? && text <= r.value && |r.value| == |text| + 10
      && ParseDate(r.value[|text|..]) == book.data[args[0]].birthday
  {
    if |args| == 0 then Failure(ValueError)
    else
      var name := args[0];
      match book.Find(name)
      case Some(record) =>
        if record.birthday.Some? then
          ParseRender(record.birthday.value);
          var text := name + "'s birthday is on ";
          var s := text + RenderDate(record.birthday.value);
          assert s[|text|..] == RenderDate(record.birthday.value);
          Success(s)
        else Success("No birthday found for " + name + ".")
      case None => Success("No birthday found for " + name + ".")
  }

  /** `birthdays`: the lines of the birthday query joined by newlines, or a fixed message when there are none. It is not decorated, so its exceptions escape. */
  method Birthdays(book: AddressBook, today: CalendarDate) returns (r: Result<string>)
    requires book.Valid()
    ensures Upcoming(book.Entries(), today).Failure? ==> r == Failure(Upcoming(book.Entries(), today).error)
    ensures Upcoming(book.Entries(), today) == Success([]) ==> r == Success(NoBirthdays)
    ensures Upcoming(book.Entries(), today).Success? && Upcoming(book.Entries(), today).value != [] ==>
      r == Success(Join(Upcoming(book.Entries(), today).value, "\n"))
  {
    var upcoming := book.GetBirthdaysPerWeek(today);
    if upcoming.Failure? {
      return Failure(upcoming.error);
    }
    if upcoming.value == [] {
      return Success(NoBirthdays);
    }
    r := Success(Join(upcoming.value, "\n"));
  }

  /**
   * `parse_input`: the first word, lower-cased, and the remaining words.
   * Blank input leaves nothing to unpack into `cmd`, which raises ValueError.
   * The command word has no upper-case letter left, so the dispatch on it
   * ignores case.
   */
  function ParseInput(userInput: string): (r: Result<(string, seq<string>)>)
    ensures r.Failure? <==> forall i :: 0 <= i < |userInput| ==> IsSpace(userInput[i])
    ensures r.Failure? ==> r.error == ValueError
    ensures r.Success? ==> forall i :: 0 <= i < |r.value.0| ==> !('A' <= r.value.0[i] <= 'Z')
  {
    var words := Split(userInput);
    SplitEmptyIff(userInput);
    if words == [] then Failure(ValueError) else Success((Lower(words[0]), words[1..]))
  }

  /** A command line written as words separated by single spaces parses back into its command (lower-cased) and its arguments. */
  lemma ParseInputJoin(command: string, args: seq<string>)
    requires IsWord(command)
    requires forall i :: 0 <= i < |args| ==> IsWord(args[i])
    ensures ParseInput(Join([command] + args, " ")) == Success((Lower(command), args))
  {
    var ws := [command] + args;
    assert forall i :: 0 <= i < |ws| ==> IsWord(ws[i]);
    SplitJoin(ws);
    assert ws[1..] == args;
  }

  /** Adding a contact twice keeps one record with both phones, and no birthday is shown for it. */
  method SessionAddTwice() {
    var book := new AddressBook();
    var r := AddContact(["Alice", "+15551234567"], book);
    assert r == Success("Contact added.");
    var alice := book.data["Alice"];
    r := AddContact(["Alice", "+19998887777"], book);
    assert r == Success("Contact updated.");
    assert alice.phones == ["+15551234567", "+19998887777"];
    assert book.order == ["Alice"];
    var shown := ShowBirthday(["Alice"], book);
    assert shown == Success("No birthday found for " + "Alice" + ".");
  }

  /** An invalid phone for a new name still stores the record; unknown names and missing arguments give their messages. */
  method SessionErrors() {
    var book := new AddressBook();
    var r := AddContact(["Bob", "12345"], book);
    assert r == Failure(ValueError) by { assert !PhoneValid("12345"); }
    assert InputError(r) == Success(IncorrectData);
    assert "Bob" in book.data && book.data["Bob"].phones == [];
    r := ChangeContact(["Carol", "+1", "+2"], book);
    assert InputError(r) == Success(ContactNotFound);
    r := AddContact(["Alice"], book);
    assert InputError(r) == Success(IncorrectData);
  }
}
