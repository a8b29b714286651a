/** The earlier event page of `front_end_dev/ems/Events_form/src/components/EventManagement.js`,
    kept entirely in the browser: a list of events numbered as they are created, and lists of
    volunteers and managers tied to an event by its number. */
module EventsForm {
  import opened JsCore
  import opened JsArray
  import opened JsText

  /** The form `eventDetails`. `requiredSkill` and `urgencyLevel` are absent until their input
      first changes; `date` is the calendar's value, kept as the moment it stands for. */
  datatype Details = Details(
    name: string,
    location: string,
    envoy: string,
    volunteers: int,
    date: int,
    requiredSkill: Option<string>,
    urgencyLevel: Option<string>)

  /** A created event: the form as it was, with `id` added. */
  datatype Event = Event(details: Details, id: int)

  /** A volunteer or manager entry `{ eventId, name }`. */
  datatype Helper = Helper(eventId: int, name: string)

  /** The component's whole state. */
  datatype Board = Board(events: seq<Event>, details: Details, volunteers: seq<Helper>, managers: seq<Helper>)

  /** The inputs `handleEventChange` serves. */
  datatype TextField = Name | Location | Envoy | RequiredSkill | UrgencyLevel

  /** The empty form; `new Date()` is the parameter `today`. */
  function EmptyDetails(today: int): Details {
    Details("", "", "", 0, today, None, None)
  }

  function InitialBoard(today: int): Board {
    Board([], EmptyDetails(today), [], [])
  }

  /** `handleEventChange`: `{ ...eventDetails, [name]: value }`. */
  function HandleEventChange(b: Board, field: TextField, value: string): (r: Board)
    ensures r == b.(details := r.details)
    ensures r.details.volunteers == b.details.volunteers && r.details.date == b.details.date
    ensures field == Name ==> r.details == b.details.(name := value)
    ensures field == Location ==> r.details == b.details.(location := value)
    ensures field == Envoy ==> r.details == b.details.(envoy := value)
    ensures field == RequiredSkill ==> r.details == b.details.(requiredSkill := Some(value))
    ensures field == UrgencyLevel ==> r.details == b.details.(urgencyLevel := Some(value))
  {
    var d := b.details;
    b.(details := match field
      case Name => d.(name := value)
      case Location => d.(location := value)
      case Envoy => d.(envoy := value)
      case RequiredSkill => d.(requiredSkill := Some(value))
      case UrgencyLevel => d.(urgencyLevel := Some(value)))
  }

  /** `handleDateChange`. */
  function HandleDateChange(b: Board, date: int): (r: Board)
    ensures r.details.date == date && r == b.(details := b.details.(date := date))
  {
    b.(details := b.details.(date := date))
  }

  /** `handleCreateEvent`: the form becomes an event numbered one past the list's length, and the
      form is reset (dropping the two optional fields). Nothing is checked. */
  function CreateEvent(b: Board, today: int): (r: Board)
    ensures r.events == b.events + [Event(b.details, |b.events| + 1)]
    ensures r.details == EmptyDetails(today)
    ensures r.volunteers == b.volunteers && r.managers == b.managers
  {
    b.(events := b.events + [Event(b.details, |b.events| + 1)], details := EmptyDetails(today))
  }

  /** The name given to the `k`-th entry: "Volunteer k" or "Manager k". */
  function Numbered(title: string, k: nat): (name: string)
    ensures |name| > |title| + 1 && name[..|title| + 1] == title + " "
  {
    title + " " + NatToString(k)
  }

  /** Different numbers give different names under one title. */
  lemma NumberedInjective(title: string, j: nat, k: nat)
    requires Numbered(title, j) == Numbered(title, k)
    ensures j == k
  {
    var n := |title| + 1;
    assert Numbered(title, j)[n..] == NatToString(j);
    assert Numbered(title, k)[n..] == NatToString(k);
    NatToStringInjective(j, k);
  }

  /** `[...list, { eventId, name: `${title} ${list.length + 1}` }]`. */
  function AddHelper(hs: seq<Helper>, title: string, eventId: int): (r: seq<Helper>)
    ensures r == hs + [Helper(eventId, Numbered(title, |hs| + 1))]
  {
    hs + [Helper(eventId, Numbered(title, |hs| + 1))]
  }

  /** `list.filter(h => h.name !== name)`: every entry with that name goes, the rest keep their order. */
  function RemoveHelper(hs: seq<Helper>, name: string): (r: seq<Helper>)
    ensures forall h :: h in r <==> h in hs && h.name != name
    ensures |r| <= |hs|
  {
    Filter(hs, (h: Helper) => h.name != name)
  }

  /** Removing works entry by entry: on a list made of two parts it removes from each part and
      keeps the parts in order, and a single entry stays exactly when it has another name. */
  lemma RemoveHelperKeepsOrder(a: seq<Helper>, b: seq<Helper>, h: Helper, name: string)
    ensures RemoveHelper(a + b, name) == RemoveHelper(a, name) + RemoveHelper(b, name)
    ensures RemoveHelper([h], name) == if h.name == name then [] else [h]
  {
    FilterAppend(a, b, (x: Helper) => x.name != name);
  }

  /** `handleAddVolunteer`. */
  function AddVolunteer(b: Board, eventId: int): (r: Board)
    ensures r == b.(volunteers := AddHelper(b.volunteers, "Volunteer", eventId))
  {
    b.(volunteers := AddHelper(b.volunteers, "Volunteer", eventId))
  }

  /** `handleAddManager`. */
  function AddManager(b: Board, eventId: int): (r: Board)
    ensures r == b.(managers := AddHelper(b.managers, "Manager", eventId))
  {
    b.(managers := AddHelper(b.managers, "Manager", eventId))
  }

  /** `handleRemoveVolunteer`. */
  function RemoveVolunteer(b: Board, name: string): (r: Board)
    ensures r == b.(volunteers := RemoveHelper(b.volunteers, name))
  {
    b.(volunteers := RemoveHelper(b.volunteers, name))
  }

  /** `handleRemoveManager`. */
  function RemoveManager(b: Board, name: string): (r: Board)
    ensures r == b.(managers := RemoveHelper(b.managers, name))
  {
    b.(managers := RemoveHelper(b.managers, name))
  }

  /** The "Remove Volunteer" button of any card: the name numbered by the current length. */
  function RemoveVolunteerButton(b: Board): (r: Board)
    ensures r == RemoveVolunteer(b, Numbered("Volunteer", |b.volunteers|))
  {
    RemoveVolunteer(b, Numbered("Volunteer", |b.volunteers|))
  }

  /** The "Remove Manager" button of any card: the name numbered by the current length. */
  function RemoveManagerButton(b: Board): (r: Board)
    ensures r == RemoveManager(b, Numbered("Manager", |b.managers|))
  {
    RemoveManager(b, Numbered("Manager", |b.managers|))
  }

  /** `handleDeleteEvent`: the events with that id and the volunteers of that id go; the managers
      of that id stay. */
  function DeleteEvent(b: Board, eventId: int): (r: Board)
    ensures forall e :: e in r.events <==> e in b.events && e.id != eventId
    ensures forall h :: h in r.volunteers <==> h in b.volunteers && h.eventId != eventId
    ensures r.managers == b.managers && r.details == b.details
  {
    b.(events := Filter(b.events, (e: Event) => e.id != eventId),
       volunteers := Filter(b.volunteers, (h: Helper) => h.eventId != eventId))
  }

  /** `list.filter(v => v.eventId === event.id).length`: the count shown on a card. */
  function Count(hs: seq<Helper>, eventId: int): (n: nat)
    ensures n <= |hs|
    ensures n == 0 <==> forall i :: 0 <= i < |hs| ==> hs[i].eventId != eventId
  {
    var r := Filter(hs, (h: Helper) => h.eventId == eventId);
    assert r != [] ==> r[0] in r;
    assert (exists i :: 0 <= i < |hs| && hs[i].eventId == eventId) ==> r != [] by {
      if exists i :: 0 <= i < |hs| && hs[i].eventId == eventId {
        var i :| 0 <= i < |hs| && hs[i].eventId == eventId;
        assert hs[i] in r;
      }
    }
    |r|
  }

  /** The count is the number of entries carrying the id: none in an empty list, and one more
      exactly when an entry with the id is appended. */
  lemma CountIsNumberWithId(hs: seq<Helper>, h: Helper, eventId: int)
    ensures Count([], eventId) == 0
    ensures Count(hs + [h], eventId) == Count(hs, eventId) + (if h.eventId == eventId then 1 else 0)
  {
    FilterAppend(hs, [h], (x: Helper) => x.eventId == eventId);
  }

  /** Each entry's name carries its position: entry `i` is named by `i + 1`. */
  predicate NamesArePositions(hs: seq<Helper>, title: string) {
    forall i :: 0 <= i < |hs| ==> hs[i].name == Numbered(title, i + 1)
  }

  /** Adding keeps the names in step with the positions. */
  lemma AddKeepsNames(hs: seq<Helper>, title: string, eventId: int)
    requires NamesArePositions(hs, title)
    ensures NamesArePositions(AddHelper(hs, title, eventId), title)
  {
  }

  /** While the names are in step with the positions, removing the name numbered one past the
      old length right after an add takes away exactly the entry just added. */
  lemma RemoveNumberedUndoesAdd(hs: seq<Helper>, title: string, eventId: int)
    requires NamesArePositions(hs, title)
    ensures RemoveHelper(AddHelper(hs, title, eventId), Numbered(title, |hs| + 1)) == hs
  {
    var name := Numbered(title, |hs| + 1);
    var p := (h: Helper) => h.name != name;
    forall i | 0 <= i < |hs| ensures p(hs[i]) {
      if hs[i].name == name {
        NumberedInjective(title, i + 1, |hs| + 1);
      }
    }
    FilterAppend(hs, [Helper(eventId, name)], p);
    FilterAll(hs, p);
    assert Filter([Helper(eventId, name)], p) == [];
  }

  /** The "Remove Volunteer" button right after "Add Volunteer" takes away exactly the volunteer
      just added, and nothing else on the board changes. */
  lemma RemoveButtonUndoesAdd(b: Board, eventId: int)
    requires NamesArePositions(b.volunteers, "Volunteer")
    ensures RemoveVolunteerButton(AddVolunteer(b, eventId)) == b
  {
    RemoveNumberedUndoesAdd(b.volunteers, "Volunteer", eventId);
  }

  /** The "Remove Manager" button right after "Add Manager" takes away exactly the manager just
      added, and nothing else on the board changes. */
  lemma RemoveManagerButtonUndoesAdd(b: Board, eventId: int)
    requires NamesArePositions(b.managers, "Manager")
    ensures RemoveManagerButton(AddManager(b, eventId)) == b
  {
    RemoveNumberedUndoesAdd(b.managers, "Manager", eventId);
  }

  /** Adding to an event raises its count by one and leaves every other count alone. */
  lemma AddCounts(hs: seq<Helper>, title: string, eventId: int, other: int)
    requires other != eventId
    ensures Count(AddHelper(hs, title, eventId), eventId) == Count(hs, eventId) + 1
    ensures Count(AddHelper(hs, title, eventId), other) == Count(hs, other)
  {
    var h := Helper(eventId, Numbered(title, |hs| + 1));
    FilterAppend(hs, [h], (x: Helper) => x.eventId == eventId);
    FilterAppend(hs, [h], (x: Helper) => x.eventId == other);
  }

  /** After an event is deleted its card would show no volunteer, but its managers remain. */
  lemma DeleteCounts(b: Board, eventId: int)
    ensures Count(DeleteEvent(b, eventId).volunteers, eventId) == 0
    ensures Count(DeleteEvent(b, eventId).managers, eventId) == Count(b.managers, eventId)
  {
    var vs := DeleteEvent(b, eventId).volunteers;
    forall i | 0 <= i < |vs| ensures vs[i].eventId != eventId {
      assert vs[i] in vs;
    }
  }

  /** While no event has been deleted, each event's id is its position plus one. */
  predicate IdsArePositions(events: seq<Event>) {
    forall i :: 0 <= i < |events| ==> events[i].id == i + 1
  }

  /** Creating keeps ids in step with positions, so ids stay distinct. */
  lemma CreateKeepsIds(b: Board, today: int)
    requires IdsArePositions(b.events)
    ensures IdsArePositions(CreateEvent(b, today).events)
    ensures forall i, j :: 0 <= i < j < |CreateEvent(b, today).events| ==>
              CreateEvent(b, today).events[i].id != CreateEvent(b, today).events[j].id
  {
  }

  /** Numbering by length reuses ids after a deletion: create two events, delete the first, create
      again, and two events carry id 2. */
  lemma DeleteThenCreateReusesId(today: int)
    ensures var b1 := CreateEvent(CreateEvent(InitialBoard(today), today), today);
            var b2 := CreateEvent(DeleteEvent(b1, 1), today);
            |b2.events| == 2 && b2.events[0].id == 2 && b2.events[1].id == 2
  {
    var b1 := CreateEvent(CreateEvent(InitialBoard(today), today), today);
    var d := DeleteEvent(b1, 1);
    var p := (e: Event) => e.id != 1;
    assert b1.events == [b1.events[0]] + [b1.events[1]];
    FilterAppend([b1.events[0]], [b1.events[1]], p);
    assert d.events == [b1.events[1]];
  }

  /** Numbering by length also reuses names: after the volunteers of event 1 are deleted, the next
      volunteer is again "Volunteer 2", and the remove button then names "Volunteer 2", taking away
      both entries of that name. */
  lemma DeleteThenAddReusesName()
    ensures var b := Board([], EmptyDetails(0), [Helper(1, Numbered("Volunteer", 1)), Helper(2, Numbered("Volunteer", 2))], []);
            var b1 := AddVolunteer(DeleteEvent(b, 1), 2);
            b1.volunteers == [Helper(2, Numbered("Volunteer", 2)), Helper(2, Numbered("Volunteer", 2))]
            && RemoveVolunteerButton(b1).volunteers == []
  {
    var v1, v2 := Helper(1, Numbered("Volunteer", 1)), Helper(2, Numbered("Volunteer", 2));
    var b := Board([], EmptyDetails(0), [v1, v2], []);
    var p := (h: Helper) => h.eventId != 1;
    assert [v1, v2] == [v1] + [v2];
    FilterAppend([v1], [v2], p);
    var d := DeleteEvent(b, 1);
    assert d.volunteers == [v2];
    var b1 := AddVolunteer(d, 2);
    assert b1.volunteers == [v2, v2];
    var q := (h: Helper) => h.name != Numbered("Volunteer", 2);
    assert [v2, v2] == [v2] + [v2];
    FilterAppend([v2], [v2], q);
  }
}
