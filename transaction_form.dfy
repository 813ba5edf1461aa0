/** The registration form: the validator with its field-to-message map,
    single-field edits, the submit path, and the slot picker that disables
    occupied slots. */
module TransactionForm {
  import opened Text
  import opened Sessions

  datatype Field = OwnerName | VehicleName | VehicleType | PlateNumber | EntryTime | ParkingSlot

  /** The form's contents: every input is a string, empty when untouched. */
  datatype Form = Form(
    owner_name: string,
    vehicle_name: string,
    vehicle_type: string,
    plate_number: string,
    entry_time: string,
    parking_slot: string)
  {
    function Get(f: Field): string
    {
      match f
      case OwnerName => owner_name
      case VehicleName => vehicle_name
      case VehicleType => vehicle_type
      case PlateNumber => plate_number
      case EntryTime => entry_time
      case ParkingSlot => parking_slot
    }

    /** `{ ...form, [name]: value }`. */
    function With(f: Field, v: string): (r: Form)
      ensures r.Get(f) == v
      ensures forall g :: g != f ==> r.Get(g) == Get(g)
    {
      match f
      case OwnerName => this.(owner_name := v)
      case VehicleName => this.(vehicle_name := v)
      case VehicleType => this.(vehicle_type := v)
      case PlateNumber => this.(plate_number := v)
      case EntryTime => this.(entry_time := v)
      case ParkingSlot => this.(parking_slot := v)
    }
  }

  const EMPTY_FORM: Form := Form("", "", "", "", "", "")

  // ---------------------------------------------------------------------
  // The plate pattern /^[A-Z]{3}\d{3}$/

  datatype CharClass = UpperLetter | DecimalDigit

  predicate InClass(c: char, cls: CharClass)
  {
    match cls
    case UpperLetter => IsUpperLetter(c)
    case DecimalDigit => IsDigit(c)
  }

  /** An anchored match (`^...$`) of a sequence of one-character classes:
      the string has one character per class, each in its class. */
  predicate MatchesPattern(s: string, pattern: seq<CharClass>)
  {
    |s| == |pattern| && forall i :: 0 <= i < |s| ==> InClass(s[i], pattern[i])
  }

  const PLATE_PATTERN: seq<CharClass> :=
    [UpperLetter, UpperLetter, UpperLetter, DecimalDigit, DecimalDigit, DecimalDigit]

  /** `platePattern.test(plate.toUpperCase())`. */
  predicate PlateValid(plate: string)
    ensures PlateValid(plate) ==> |plate| == 6
  {
    MatchesPattern(Upper(plate), PLATE_PATTERN)
  }

  predicate IsAsciiLetter(c: char) { 'A' <= c <= 'Z' || 'a' <= c <= 'z' }

  /** A plate is accepted exactly when it is six characters: three ASCII
      letters of either case, then three decimal digits. */
  lemma PlateValidIff(plate: string)
    ensures PlateValid(plate) <==>
      && |plate| == 6
      && (forall i :: 0 <= i < 3 ==> IsAsciiLetter(plate[i]))
      && (forall i :: 3 <= i < 6 ==> IsDigit(plate[i]))
  {
    forall i | 0 <= i < |plate| {
      UpperCharFacts(plate[i]);
    }
    if |plate| == 6 {
      assert forall i :: 0 <= i < 3 ==> PLATE_PATTERN[i] == UpperLetter;
      assert forall i :: 3 <= i < 6 ==> PLATE_PATTERN[i] == DecimalDigit;
    }
  }

  /** Lower-case letters are accepted, since the plate is upper-cased
      before the match. */
  lemma PlateAcceptsLowerCase()
    ensures PlateValid("abc123")
  {
    PlateValidIff("abc123");
  }

  lemma PlateAcceptsUpperCase()
    ensures PlateValid("ABC123")
  {
    PlateValidIff("ABC123");
  }

  /** Too short, too long, or letters and digits in the wrong places. */
  lemma PlatesRejected()
    ensures !PlateValid("AB123") && !PlateValid("ABC12") && !PlateValid("ABC1234")
    ensures !PlateValid("12ABC3") && !PlateValid("ABCDEF")
  {
    PlateValidIff("AB123");
    PlateValidIff("ABC12");
    PlateValidIff("ABC1234");
    PlateValidIff("12ABC3");
    assert !IsAsciiLetter("12ABC3"[0]);
    PlateValidIff("ABCDEF");
    assert !IsDigit("ABCDEF"[3]);
  }

  // ---------------------------------------------------------------------
  // Validation

  function Message(f: Field): string
  {
    match f
    case OwnerName => "Owner name is required."
    case VehicleName => "Vehicle name is required."
    case VehicleType => "Vehicle type is required."
    case PlateNumber => "Plate number must be like ABC123."
    case EntryTime => "Entry time is required."
    case ParkingSlot => "Parking slot is required."
  }

  /** The rule `validate` applies to one field. */
  predicate FieldInvalid(form: Form, f: Field)
  {
    match f
    case OwnerName => Trim(form.owner_name) == ""
    case VehicleName => Trim(form.vehicle_name) == ""
    case VehicleType => form.vehicle_type == ""
    case PlateNumber => !PlateValid(form.plate_number)
    case EntryTime => form.entry_time == ""
    case ParkingSlot => form.parking_slot == ""
  }

  /** The `errors` object. Its keys are always among the six field names,
      so it is a record with one optional message per field; `None` is an
      absent key. */
  datatype Errors = Errors(
    owner_name: Option<string>,
    vehicle_name: Option<string>,
    vehicle_type: Option<string>,
    plate_number: Option<string>,
    entry_time: Option<string>,
    parking_slot: Option<string>)
  {
    function Get(f: Field): Option<string>
    {
      match f
      case OwnerName => owner_name
      case VehicleName => vehicle_name
      case VehicleType => vehicle_type
      case PlateNumber => plate_number
      case EntryTime => entry_time
      case ParkingSlot => parking_slot
    }

    /** `{ ...errors, [f]: message }`. */
    function With(f: Field, message: string): (r: Errors)
      ensures r.Get(f) == Some(message)
      ensures forall g :: g != f ==> r.Get(g) == Get(g)
    {
      match f
      case OwnerName => this.(owner_name := Some(message))
      case VehicleName => this.(vehicle_name := Some(message))
      case VehicleType => this.(vehicle_type := Some(message))
      case PlateNumber => this.(plate_number := Some(message))
      case EntryTime => this.(entry_time := Some(message))
      case ParkingSlot => this.(parking_slot := Some(message))
    }

    /** `errors[f] && <message>`: a message is displayed under `f` only
        when it is present and non-empty. */
    predicate ShowsError(f: Field)
    {
      Get(f).Some? && Get(f).value != ""
    }

    /** `Object.keys(errors).length === 0`. */
    predicate IsEmpty()
    {
      && owner_name.None? && vehicle_name.None? && vehicle_type.None?
      && plate_number.None? && entry_time.None? && parking_slot.None?
    }
  }

  const NO_ERRORS: Errors := Errors(None, None, None, None, None, None)

  /** The error object `validate` builds for a form: the message of every
      field whose rule fails, and no key for the others. */
  function ErrorsFor(form: Form): Errors
  {
    Errors(
      if FieldInvalid(form, OwnerName) then Some(Message(OwnerName)) else None,
      if FieldInvalid(form, VehicleName) then Some(Message(VehicleName)) else None,
      if FieldInvalid(form, VehicleType) then Some(Message(VehicleType)) else None,
      if FieldInvalid(form, PlateNumber) then Some(Message(PlateNumber)) else None,
      if FieldInvalid(form, EntryTime) then Some(Message(EntryTime)) else None,
      if FieldInvalid(form, ParkingSlot) then Some(Message(ParkingSlot)) else None)
  }

  /** The error object holds, for each field, its message exactly when its
      rule fails. */
  lemma ErrorsForMessages(form: Form, f: Field)
    ensures ErrorsFor(form).Get(f) == if FieldInvalid(form, f) then Some(Message(f)) else None
    ensures ErrorsFor(form).ShowsError(f) <==> FieldInvalid(form, f)
  {
  }

  /** The emptied form fails every rule, so submitting again straight after
      a successful submit sends nothing. */
  lemma EmptyFormFailsEveryRule(f: Field)
    ensures FieldInvalid(EMPTY_FORM, f)
    ensures !ErrorsFor(EMPTY_FORM).IsEmpty()
  {
    assert |Upper("")| == 0;
    assert Trim("") == "";
  }

  predicate IsBlank(s: string)
  {
    forall i :: 0 <= i < |s| ==> IsSpace(s[i])
  }

  /** `validate` passes exactly when both names hold a non-space character,
      type, entry time and slot are non-empty and the plate matches. There
      is no check that the type is one of the five offered. */
  lemma ValidateAcceptsIff(form: Form)
    ensures ErrorsFor(form).IsEmpty() <==>
      && !IsBlank(form.owner_name)
      && !IsBlank(form.vehicle_name)
      && form.vehicle_type != ""
      && PlateValid(form.plate_number)
      && form.entry_time != ""
      && form.parking_slot != ""
  {
    TrimEmptyIff(form.owner_name);
    TrimEmptyIff(form.vehicle_name);
  }

  // ---------------------------------------------------------------------
  // Slot picker

  const ALL_SLOTS: seq<string> := [
    "A1", "A2", "A3", "A4", "A5",
    "B1", "B2", "B3", "B4", "B5",
    "C1", "C2", "C3", "C4", "C5",
    "D1", "D2", "D3", "D4", "D5",
    "E1", "E2", "E3", "E4", "E5"]

  /** The slots are the 25 row-letter/column-digit pairs A1..E5, row by row. */
  lemma AllSlotsShape()
    ensures |ALL_SLOTS| == 25
    ensures forall i :: 0 <= i < 25 ==> ALL_SLOTS[i] == ["ABCDE"[i / 5], "12345"[i % 5]]
  {
  }

  /** The position of a slot name in the A1..E5 grid, row by row. */
  function SlotIndex(slot: string): int
  {
    if |slot| == 2 then (slot[0] as int - 'A' as int) * 5 + (slot[1] as int - '1' as int) else -1
  }

  /** No slot is offered twice: each name reads back to its own position. */
  lemma AllSlotsDistinct()
    ensures forall i :: 0 <= i < |ALL_SLOTS| ==> SlotIndex(ALL_SLOTS[i]) == i
    ensures forall i, j :: 0 <= i < j < |ALL_SLOTS| ==> ALL_SLOTS[i] != ALL_SLOTS[j]
  {
    AllSlotsShape();
    forall i | 0 <= i < 25 ensures SlotIndex(ALL_SLOTS[i]) == i {
      assert ALL_SLOTS[i] == ["ABCDE"[i / 5], "12345"[i % 5]];
    }
  }

  datatype SlotOption = SlotOption(slot: string, disabled: bool)

  /** `allSlots.map(slot => <option disabled={occupiedSlots.includes(slot)}>)`. */
  function SlotOptions(slots: seq<string>, occupied: seq<string>): (r: seq<SlotOption>)
    ensures |r| == |slots|
    ensures forall i :: 0 <= i < |r| ==> r[i].slot == slots[i] && (r[i].disabled <==> slots[i] in occupied)
  {
    if slots == [] then [] else [SlotOption(slots[0], slots[0] in occupied)] + SlotOptions(slots[1..], occupied)
  }

  /** A slot can be picked exactly when it is offered and not occupied. */
  lemma SelectableSlots(slots: seq<string>, occupied: seq<string>, slot: string)
    ensures (exists i :: 0 <= i < |slots| && SlotOptions(slots, occupied)[i] == SlotOption(slot, false))
        <==> slot in slots && slot !in occupied
  {
    var r := SlotOptions(slots, occupied);
    if slot in slots && slot !in occupied {
      var i :| 0 <= i < |slots| && slots[i] == slot;
      assert r[i] == SlotOption(slot, false);
    }
  }

  // ---------------------------------------------------------------------
  // Form state

  /** The form's state: its contents, the error map and the occupied slots
      last fetched. */
  class Registration {
    var form: Form
    var errors: Errors
    var occupiedSlots: seq<string>

    constructor ()
      ensures form == EMPTY_FORM && errors == NO_ERRORS && occupiedSlots == []
    {
      form, errors, occupiedSlots := EMPTY_FORM, NO_ERRORS, [];
    }

    /** The option list the slot picker renders. */
    function Options(): (r: seq<SlotOption>)
      reads this
      ensures |r| == 25
      ensures forall i :: 0 <= i < |r| ==> r[i].slot == ALL_SLOTS[i] && (r[i].disabled <==> r[i].slot in occupiedSlots)
    {
      SlotOptions(ALL_SLOTS, occupiedSlots)
    }

    /** The mount-time request for the occupied slots; `None` when it fails,
        which leaves the list as it was. */
    method LoadSlots(fetched: Option<seq<string>>)
      modifies this
      ensures occupiedSlots == if fetched.Some? then fetched.value else old(occupiedSlots)
      ensures form == old(form) && errors == old(errors)
    {
      if fetched.Some? {
        occupiedSlots := fetched.value;
      }
    }

    /** `validate()`: builds a fresh error object rule by rule, replaces the
        old one with it, and reports whether it has no key. */
    method Validate() returns (ok: bool)
      modifies this
      ensures errors == ErrorsFor(form)
      ensures ok <==> errors.IsEmpty()
      ensures form == old(form) && occupiedSlots == old(occupiedSlots)
    {
      var newErrors := NO_ERRORS;
      if Trim(form.owner_name) == "" {
        newErrors := newErrors.(owner_name := Some(Message(OwnerName)));
      }
      assert newErrors.owner_name == ErrorsFor(form).owner_name;
      if Trim(form.vehicle_name) == "" {
        newErrors := newErrors.(vehicle_name := Some(Message(VehicleName)));
      }
      assert newErrors.vehicle_name == ErrorsFor(form).vehicle_name;
      if form.vehicle_type == "" {
        newErrors := newErrors.(vehicle_type := Some(Message(VehicleType)));
      }
      assert newErrors.vehicle_type == ErrorsFor(form).vehicle_type;
      if !PlateValid(form.plate_number) {
        newErrors := newErrors.(plate_number := Some(Message(PlateNumber)));
      }
      assert newErrors.plate_number == ErrorsFor(form).plate_number;
      if form.entry_time == "" {
        newErrors := newErrors.(entry_time := Some(Message(EntryTime)));
      }
      assert newErrors.entry_time == ErrorsFor(form).entry_time;
      if form.parking_slot == "" {
        newErrors := newErrors.(parking_slot := Some(Message(ParkingSlot)));
      }
      assert newErrors.parking_slot == ErrorsFor(form).parking_slot;
      errors := newErrors;
      ok := newErrors.IsEmpty();
    }

    /** `handleChange`: sets one field, and blanks that field's message
        (the key stays, with the empty string) only if it held a non-empty
        one. */
    method HandleChange(f: Field, value: string)
      modifies this
      ensures form == old(form).With(f, value)
      ensures errors == if old(errors).ShowsError(f) then old(errors).With(f, "") else old(errors)
      ensures !errors.ShowsError(f)
      ensures forall g :: g != f ==> errors.Get(g) == old(errors).Get(g)
      ensures forall g :: errors.Get(g).Some? <==> old(errors).Get(g).Some?
      ensures occupiedSlots == old(occupiedSlots)
    {
      form := form.With(f, value);
      if errors.ShowsError(f) {
        errors := errors.With(f, "");
      }
    }

    /** `handleSubmit`. `createSucceeds` is the remote store's answer to the
        create request and `slotsAfter` the answer to the occupied-slot
        request made after it (`None` when that fails). `sent` is the body
        of the create request, `None` when none is made. */
    method HandleSubmit(createSucceeds: bool, slotsAfter: Option<seq<string>>) returns (sent: Option<Form>)
      modifies this
      ensures sent.Some? <==> ErrorsFor(old(form)).IsEmpty()
      ensures sent.Some? ==> sent.value == old(form)
      ensures sent.None? ==>
        form == old(form) && errors == ErrorsFor(old(form)) && occupiedSlots == old(occupiedSlots)
      ensures sent.Some? && createSucceeds ==>
        && form == EMPTY_FORM && errors == NO_ERRORS
        && occupiedSlots == if slotsAfter.Some? then slotsAfter.value else old(occupiedSlots)
      ensures sent.Some? && !createSucceeds ==>
        form == old(form) && errors == NO_ERRORS && occupiedSlots == old(occupiedSlots)
    {
      var ok := Validate();
      if !ok {
        return None;
      }
      sent := Some(form);
      if createSucceeds {
        form := EMPTY_FORM;
        errors := NO_ERRORS;
        if slotsAfter.Some? {
          occupiedSlots := slotsAfter.value;
        }
      }
    }
  }
}
