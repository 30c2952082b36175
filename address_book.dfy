/**
 * `AddressBook` (main.py:99-125): a dictionary from a contact's name to its
 * record. `data` is the dictionary's content and `order` the order in which
 * a Python dict iterates over its keys (insertion order, a replaced key
 * keeping its place).
 */
module AddressBooks {
  import opened Wrappers
  import opened Lists
  import opened Calendar
  import opened Records
  import opened BirthdayWindow

  class AddressBook {
    var data: map<string, Record>
    var order: seq<string>

    /** Every record is stored under its own name, and `order` lists each key once. */
    ghost predicate Valid()
      reads this
    {
      && (forall k :: k in data ==> data[k].name == k)
      && (forall k :: k in data <==> k in order)
      && Distinct(order)
    }

    constructor ()
      ensures Valid() && data == map[] && order == []
    {
      data := map[];
      order := [];
    }

    /** `add_record`: stores the record under its name, replacing any record stored there; a new key goes last, a replaced key keeps its place, so a key never appears twice. */
    method AddRecord(record: Record)
      requires Valid()
      modifies this
      ensures Valid()
      ensures data == old(data)[record.name := record]
      ensures order == if record.name in old(data) then old(order) else old(order) + [record.name]
    {
      if record.name !in data {
        order := order + [record.name];
      }
      data := data[record.name := record];
    }

    /** `find`: the record stored under `name`, or None; nothing changes. */
    function Find(name: string): (r: Option<Record>)
      reads this
      requires Valid()
      ensures r.Some? <==> name in data
      ensures r.Some? ==> r.value == data[name] && r.value.name == name
    {
      if name in data then Some(data[name]) else None
    }

    /** `delete`: takes out the key `name` and only it; does nothing when it is absent. */
    method Delete(name: string)
      requires Valid()
      modifies this
      ensures Valid()
      ensures data == old(data) - {name}
      ensures order == RemoveFirst(old(order), name)
      ensures name !in data && forall k :: k != name ==> (k in order <==> k in old(order))
    {
      RemoveFirstCounts(order, name);
      RemoveFirstKeepsDistinct(order, name);
      RemoveFirstMembers(order, name);
      if name in data {
        data := data - {name};
        order := RemoveFirst(order, name);
      }
    }

    /** The keys in `keys` with the birthdays of their records. */
    function EntriesOf(keys: seq<string>): (es: seq<Entry>)
      reads this, data.Values
      requires forall k :: k in keys ==> k in data
      ensures |es| == |keys|
      ensures forall i :: 0 <= i < |keys| ==> es[i] == Entry(keys[i], data[keys[i]].birthday)
    {
      if keys == [] then [] else [Entry(keys[0], data[keys[0]].birthday)] + EntriesOf(keys[1..])
    }

    /** The book as the birthday query sees it, in iteration order. */
    function Entries(): seq<Entry>
      reads this, data.Values
      requires Valid()
    {
      EntriesOf(order)
    }

    /**
     * `get_birthdays_per_week`, with today's date as a parameter: the lines
     * of the records whose birthday, moved into today's year, falls within
     * [today, today + 7 days], in the book's order; OverflowError or
     * ValueError as the loop raises them.
     */
    method GetBirthdaysPerWeek(today: CalendarDate) returns (r: Result<seq<string>>)
      requires Valid()
      ensures r == Upcoming(Entries(), today)
    {
      var weekFromNow := AddDays(today, 7);
      if weekFromNow.None? {
        return Failure(OverflowError);
      }
      r := CollectBirthdays(today, weekFromNow.value);
    }

    /** The loop of `get_birthdays_per_week` once `week_from_now` is known: the records in order, each moved into today's year and kept when it lands in [today, week]. */
    method CollectBirthdays(today: CalendarDate, week: CalendarDate) returns (r: Result<seq<string>>)
      requires Valid()
      ensures r == Collect(Entries(), today, week)
    {
      ghost var es := Entries();
      var result: seq<string> := [];
      var i := 0;
      while i < |order|
        invariant 0 <= i <= |order|
        invariant Collect(es[..i], today, week) == Success(result)
      {
        var record := data[order[i]];
        assert es[i] == Entry(order[i], record.birthday) && record.name == order[i];
        CollectNext(es, i, today, week, result);
        if record.birthday.Some? {
          var moved := ReplaceYear(record.birthday.value, today.year);
          if moved.None? {
            return Failure(ValueError);
          }
          if NotAfter(today, moved.value) && NotAfter(moved.value, week) {
            result := result + [Line(record.name, record.birthday.value)];
          }
        }
        i := i + 1;
      }
      assert es[..i] == es;
      r := Success(result);
    }
  }
}
