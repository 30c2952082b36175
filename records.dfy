/**
 * `Record` (main.py:51-96): one contact, with a fixed name, an ordered list of
 * phones that the methods change in place, and an optional birthday.
 */
module Records {
  import opened Wrappers
  import opened Text
  import opened Lists
  import opened Calendar
  import opened Fields

  class Record {
    const name: NameText
    var phones: seq<PhoneText>
    var birthday: Option<CalendarDate>

    /** `Record(name)` once `Name(name)` has accepted the name; see `NewRecord` for the rejecting path. */
    constructor (name: NameText)
      ensures this.name == name && phones == [] && birthday == None
    {
      this.name := name;
      phones := [];
      birthday := None;
    }

    /** `add_phone`: validates the phone and appends it; on ValueError the list is left as it was. */
    method AddPhone(phone: string) returns (r: Outcome)
      modifies this
      ensures r == (if PhoneValid(phone) then Pass else Fail(ValueError))
      ensures phones == if r.Pass? then old(phones) + [phone] else old(phones)
      ensures birthday == old(birthday)
    {
      if !PhoneValid(phone) {
        return Fail(ValueError);
      }
      phones := phones + [phone];
      r := Pass;
    }

    /** `remove_phone`: takes out the first phone equal to `phone`; does nothing when there is none. */
    method RemovePhone(phone: string)
      modifies this
      ensures phones == RemoveFirst(old(phones), phone)
      ensures birthday == old(birthday)
    {
      var i := 0;
      while i < |phones|
        invariant 0 <= i <= |phones|
        invariant phones == old(phones)
        invariant phone !in phones[..i]
      {
        if phones[i] == phone {
          FirstIndex(phones, phone, i);
          var kept: seq<PhoneText> := phones[..i] + phones[i + 1..];
          assert kept == RemoveFirst(phones, phone);
          phones := kept;
          return;
        }
        i := i + 1;
      }
      assert phones[..i] == phones;
    }

    /**
     * `edit_phone`: overwrites every phone equal to `oldPhone` with `newPhone`.
     * The new phone is validated at the first match only, so an invalid one
     * raises ValueError before anything changes, and with no match it is
     * never looked at and the call reports success.
     */
    method EditPhone(oldPhone: string, newPhone: string) returns (r: Result<string>)
      modifies this
      ensures oldPhone in old(phones) && !PhoneValid(newPhone) ==>
        r == Failure(ValueError) && phones == old(phones)
      ensures oldPhone !in old(phones) || PhoneValid(newPhone) ==>
        r == Success("Contact " + name + " update") && phones == ReplaceAll(old(phones), oldPhone, newPhone)
      ensures birthday == old(birthday)
    {
      var i := 0;
      while i < |phones|
        invariant 0 <= i <= |phones| == |old(phones)|
        invariant forall k :: 0 <= k < i ==> phones[k] == if old(phones)[k] == oldPhone then newPhone else old(phones)[k]
        invariant forall k :: i <= k < |phones| ==> phones[k] == old(phones)[k]
        invariant !PhoneValid(newPhone) ==> oldPhone !in old(phones)[..i]
        invariant birthday == old(birthday)
      {
        if phones[i] == oldPhone {
          if !PhoneValid(newPhone) {
            assert phones == old(phones);
            return Failure(ValueError);
          }
          phones := phones[i := newPhone];
        }
        i := i + 1;
      }
      if !PhoneValid(newPhone) {
        assert old(phones)[..i] == old(phones);
      }
      r := Success("Contact " + name + " update");
    }

    /** `find_phone`: the first phone equal to `phone`, or None; the record is not changed. */
    method FindPhone(phone: string) returns (p: Option<PhoneText>)
      ensures p.Some? <==> phone in phones
      ensures p.Some? ==> p.value == phone
    {
      for i := 0 to |phones|
        invariant phone !in phones[..i]
      {
        if phones[i] == phone {
          return Some(phones[i]);
        }
      }
      assert phones[..|phones|] == phones;
      return None;
    }

    /** `add_birthday`: parses the text and overwrites the birthday; on ValueError the old birthday stays. */
    method AddBirthday(text: string) returns (r: Outcome)
      modifies this
      ensures r == (if ParseDate(text).Some? then Pass else Fail(ValueError))
      ensures birthday == if r.Pass? then ParseDate(text) else old(birthday)
      ensures phones == old(phones)
    {
      var d := ParseDate(text);
      if d.None? {
        return Fail(ValueError);
      }
      birthday := d;
      r := Pass;
    }

    /**
     * The second `__str__` (the first one is shadowed by it): the name, the
     * phones joined by "; " or "No phones", then the birthday if there is one.
     */
    function ToString(): (s: string)
      reads this
      ensures var head := "Contact name: " + name + ", phones: " + (if phones == [] then "No phones" else Join(phones, "; "));
        && (birthday.None? ==> s == head)
        && (birthday.Some? ==> head + ", birthday: " <= s && |s| == |head + ", birthday: "| + 10)
      ensures birthday.Some? ==> ParseDate(s[|s| - 10..]) == birthday
    {
      var head := "Contact name: " + name + ", phones: ";
      var phonesText := if phones == [] then "No phones" else Join(phones, "; ");
      if birthday.Some? then
        var front := head + phonesText + ", birthday: ";
        RenderedAtEnd(front, birthday.value);
        front + RenderDate(birthday.value)
      else
        head + phonesText
    }
  }

  /** `Record(name)`: fails with ValueError when `Name.validate` rejects the name. */
  method NewRecord(name: string) returns (r: Result<Record>)
    ensures r.Failure? <==> !NameValid(name)
    ensures r.Failure? ==> r.error == ValueError
    ensures r.Success? ==> fresh(r.value) && r.value.name == name && r.value.phones == [] && r.value.birthday == None
  {
    if !NameValid(name) {
      return Failure(ValueError);
    }
    var record := new Record(name);
    r := Success(record);
  }
}
