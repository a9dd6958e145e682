/**
 * The resident directory (components/ResidentList.tsx): which rooms can still
 * be allocated, the record the "Allocate Room" form submits, and the rent
 * action of each row.
 */
module ResidentList {
  import opened Types
  import opened Seqs
  import opened Decimal

  /** Rooms are numbered contiguously from this number on. */
  const FIRST_ROOM: nat := 101

  // ---------------------------------------------------------------------------
  // Room availability (lines 23-25)
  // ---------------------------------------------------------------------------

  /** The number a room label stands for. */
  function RoomValue(room: string): int {
    DecimalValue(room)
  }

  /** The room labels "101", "102", ... of a hostel with `totalRooms` rooms. */
  function RoomRange(totalRooms: nat): (rooms: seq<string>)
    ensures |rooms| == totalRooms
    ensures forall i :: 0 <= i < totalRooms ==> rooms[i] == DecimalString(FIRST_ROOM + i)
  {
    seq(totalRooms, i requires 0 <= i < totalRooms => DecimalString(FIRST_ROOM + i))
  }

  /** The labels of the range stand for 101, 102, ... in that order. */
  lemma RoomRangeValues(totalRooms: nat)
    ensures forall i :: 0 <= i < totalRooms ==> RoomValue(RoomRange(totalRooms)[i]) == FIRST_ROOM + i
    ensures StrictlyIncreasing(RoomRange(totalRooms), RoomValue)
  {
    var rooms := RoomRange(totalRooms);
    forall i | 0 <= i < totalRooms ensures RoomValue(rooms[i]) == FIRST_ROOM + i {
      ValueOfDecimalString(FIRST_ROOM + i);
    }
  }

  /** Every label of the range is a written room number within the range, and every such number is in it. */
  lemma RoomRangeMembers(totalRooms: nat)
    ensures forall r :: r in RoomRange(totalRooms) ==>
      FIRST_ROOM <= RoomValue(r) < FIRST_ROOM + totalRooms && r == DecimalString(RoomValue(r))
    ensures forall n: nat :: FIRST_ROOM <= n < FIRST_ROOM + totalRooms ==> DecimalString(n) in RoomRange(totalRooms)
  {
    var all := RoomRange(totalRooms);
    RoomRangeValues(totalRooms);
    forall r | r in all
      ensures FIRST_ROOM <= RoomValue(r) < FIRST_ROOM + totalRooms && r == DecimalString(RoomValue(r))
    {
      var i :| 0 <= i < totalRooms && all[i] == r;
    }
    forall n: nat | FIRST_ROOM <= n < FIRST_ROOM + totalRooms ensures DecimalString(n) in all {
      assert all[n - FIRST_ROOM] == DecimalString(n);
    }
  }

  /** The `roomNumber` of every resident, in list order (line 23). */
  function OccupiedRoomNumbers(residents: seq<User>): (rooms: seq<string>)
    ensures forall r :: r in rooms <==> exists u :: u in residents && u.roomNumber == r
  {
    var labels := seq(|residents|, i requires 0 <= i < |residents| => residents[i].roomNumber);
    assert forall u :: u in residents ==> u.roomNumber in labels by {
      forall u | u in residents ensures u.roomNumber in labels {
        var i :| 0 <= i < |residents| && residents[i] == u;
        assert labels[i] == u.roomNumber;
      }
    }
    assert forall r :: r in labels ==> exists u :: u in residents && u.roomNumber == r by {
      forall r | r in labels ensures exists u :: u in residents && u.roomNumber == r {
        var i :| 0 <= i < |residents| && labels[i] == r;
        assert residents[i] in residents;
      }
    }
    labels
  }

  /** The filter of line 25: a room no resident holds. */
  function Unoccupied(occupied: seq<string>): string -> bool {
    room => room !in occupied
  }

  /**
   * The rooms offered in the "Select Empty Room" list: every room of the
   * range that no resident's `roomNumber` names. A resident's exit date plays
   * no part, so a departed resident still blocks the room.
   */
  function AvailableRooms(totalRooms: nat, residents: seq<User>): (rooms: seq<string>)
    ensures |rooms| <= totalRooms
    ensures forall r :: r in rooms ==>
      FIRST_ROOM <= RoomValue(r) < FIRST_ROOM + totalRooms && r == DecimalString(RoomValue(r))
    ensures forall r, u :: r in rooms && u in residents ==> u.roomNumber != r
    ensures forall n: nat :: (FIRST_ROOM <= n < FIRST_ROOM + totalRooms &&
      forall u :: u in residents ==> u.roomNumber != DecimalString(n)) ==> DecimalString(n) in rooms
    ensures StrictlyIncreasing(rooms, RoomValue)
    ensures forall i, j :: 0 <= i < j < |rooms| ==> rooms[i] != rooms[j]
  {
    var occupied := OccupiedRoomNumbers(residents);
    FreeRoomsInRange(totalRooms, occupied);
    FreeRoomsComplete(totalRooms, occupied);
    FreeRoomsIncreasing(totalRooms, occupied);
    Filter(Unoccupied(occupied), RoomRange(totalRooms))
  }

  lemma FreeRoomsInRange(totalRooms: nat, occupied: seq<string>)
    ensures forall r :: r in Filter(Unoccupied(occupied), RoomRange(totalRooms)) ==>
      FIRST_ROOM <= RoomValue(r) < FIRST_ROOM + totalRooms && r == DecimalString(RoomValue(r))
  {
    RoomRangeMembers(totalRooms);
  }

  lemma FreeRoomsComplete(totalRooms: nat, occupied: seq<string>)
    ensures forall n: nat :: FIRST_ROOM <= n < FIRST_ROOM + totalRooms && DecimalString(n) !in occupied ==>
      DecimalString(n) in Filter(Unoccupied(occupied), RoomRange(totalRooms))
  {
    RoomRangeMembers(totalRooms);
  }

  lemma FreeRoomsIncreasing(totalRooms: nat, occupied: seq<string>)
    ensures StrictlyIncreasing(Filter(Unoccupied(occupied), RoomRange(totalRooms)), RoomValue)
  {
    RoomRangeValues(totalRooms);
    SubsequenceKeepsOrder(Filter(Unoccupied(occupied), RoomRange(totalRooms)), RoomRange(totalRooms), RoomValue);
  }

  /** Changing a resident's exit date does not change which rooms are available. */
  lemma ExitDateIgnored(totalRooms: nat, residents: seq<User>, i: nat, exitDate: string)
    requires i < |residents|
    ensures AvailableRooms(totalRooms, residents[i := residents[i].(exitDate := exitDate)])
         == AvailableRooms(totalRooms, residents)
  {
    var moved := residents[i := residents[i].(exitDate := exitDate)];
    assert OccupiedRoomNumbers(moved) == OccupiedRoomNumbers(residents);
  }

  /**
   * A resident who has an exit date still holds their room. The exit date
   * plays no part: every resident's room is off the list, and this is that
   * fact for a departed one.
   */
  lemma DepartedResidentBlocksRoom(totalRooms: nat, residents: seq<User>, u: User)
    requires u in residents && u.exitDate != ""
    ensures u.roomNumber !in AvailableRooms(totalRooms, residents)
  {
  }

  /**
   * When, of the rooms in the range, the residents hold exactly the first `k`,
   * the available rooms are the remaining ones, in order. Residents without a
   * room and labels outside the range play no part.
   */
  lemma FirstRoomsTaken(totalRooms: nat, k: nat, residents: seq<User>)
    requires k <= totalRooms
    requires forall r :: r in RoomRange(totalRooms) ==> (r in OccupiedRoomNumbers(residents) <==> r in RoomRange(k))
    ensures AvailableRooms(totalRooms, residents) == RoomRange(totalRooms)[k..]
  {
    FilterFirstRoomsTaken(totalRooms, k, OccupiedRoomNumbers(residents));
  }

  lemma FilterFirstRoomsTaken(totalRooms: nat, k: nat, occupied: seq<string>)
    requires k <= totalRooms
    requires forall r :: r in RoomRange(totalRooms) ==> (r in occupied <==> r in RoomRange(k))
    ensures Filter(Unoccupied(occupied), RoomRange(totalRooms)) == RoomRange(totalRooms)[k..]
  {
    var p := Unoccupied(occupied);
    var all := RoomRange(totalRooms);
    var front, back := all[..k], all[k..];
    assert all == front + back;
    FilterConcat(p, front, back);
    assert front == RoomRange(k);
    FilterDropsAll(p, front);
    LaterRoomsFree(totalRooms, k, occupied);
    FilterKeepsAll(p, back);
  }

  lemma LaterRoomsFree(totalRooms: nat, k: nat, occupied: seq<string>)
    requires k <= totalRooms
    requires forall r :: r in RoomRange(totalRooms) ==> (r in occupied <==> r in RoomRange(k))
    ensures forall r :: r in RoomRange(totalRooms)[k..] ==> Unoccupied(occupied)(r)
  {
    var back := RoomRange(totalRooms)[k..];
    forall r | r in back ensures Unoccupied(occupied)(r) {
      var j :| 0 <= j < |back| && back[j] == r;
      RoomRangeValues(totalRooms);
      assert RoomValue(r) == FIRST_ROOM + k + j;
      RoomRangeMembers(k);
    }
  }

  /**
   * Ten rooms with 101 to 105 taken leave exactly 106 to 110, whatever else
   * the residents' room numbers hold (blank for a resident without a room).
   */
  lemma TenRoomsFiveTaken(residents: seq<User>)
    requires forall r :: r in RoomRange(10) ==>
      (r in OccupiedRoomNumbers(residents) <==> r in ["101", "102", "103", "104", "105"])
    ensures AvailableRooms(10, residents) == ["106", "107", "108", "109", "110"]
  {
    FirstFiveLabels();
    LastFiveLabels();
    FirstRoomsTaken(10, 5, residents);
  }

  /** A room number from 100 to 199 is written as '1' and two digits. */
  lemma ThreeDigitLabel(n: nat)
    requires 100 <= n < 200
    ensures DecimalString(n) == ['1', DigitChar(n / 10 % 10), DigitChar(n % 10)]
  {
    assert DecimalString(n / 10) == DecimalString(n / 100) + [DigitChar(n / 10 % 10)];
    assert DecimalString(n / 100) == ['1'];
  }

  lemma FirstFiveLabels()
    ensures RoomRange(5) == ["101", "102", "103", "104", "105"]
  {
    ThreeDigitLabel(101);
    ThreeDigitLabel(102);
    ThreeDigitLabel(103);
    ThreeDigitLabel(104);
    ThreeDigitLabel(105);
  }

  lemma LastFiveLabels()
    ensures RoomRange(10)[5..] == ["106", "107", "108", "109", "110"]
  {
    ThreeDigitLabel(106);
    ThreeDigitLabel(107);
    ThreeDigitLabel(108);
    ThreeDigitLabel(109);
    ThreeDigitLabel(110);
  }

  // ---------------------------------------------------------------------------
  // The "Allocate Room" form (lines 13-21, 27-43)
  // ---------------------------------------------------------------------------

  datatype FormData = FormData(
    name: string,
    email: string,
    phoneNumber: string,
    roomNumber: string,
    entryDate: string,
    exitDate: string
  )

  /** The inputs of the form, one per `onChange` handler. */
  datatype FormField = Name | Email | PhoneNumber | RoomNumber | EntryDate | ExitDate

  /** A cleared form: every input blank except the entry date, which defaults to the day the form is reset. */
  function EmptyForm(today: string): (form: FormData)
    ensures FieldValue(form, EntryDate) == today
    ensures forall f :: f != EntryDate ==> FieldValue(form, f) == ""
  {
    FormData("", "", "", "", today, "")
  }

  /** What one input of the form holds. */
  function FieldValue(form: FormData, field: FormField): string {
    match field
    case Name => form.name
    case Email => form.email
    case PhoneNumber => form.phoneNumber
    case RoomNumber => form.roomNumber
    case EntryDate => form.entryDate
    case ExitDate => form.exitDate
  }

  /**
   * The form with one input changed (`setFormData({...formData, f: value})`):
   * that input holds the new value and every other input is as it was.
   */
  function WithField(form: FormData, field: FormField, value: string): (edited: FormData)
    ensures FieldValue(edited, field) == value
    ensures forall f :: f != field ==> FieldValue(edited, f) == FieldValue(form, f)
  {
    match field
    case Name => form.(name := value)
    case Email => form.(email := value)
    case PhoneNumber => form.(phoneNumber := value)
    case RoomNumber => form.(roomNumber := value)
    case EntryDate => form.(entryDate := value)
    case ExitDate => form.(exitDate := value)
  }

  /** The inputs a resident record was created from. */
  function FormOf(u: User): FormData {
    FormData(u.name, u.email, u.phoneNumber, u.roomNumber, u.entryDate, u.exitDate)
  }

  /**
   * The record the form submits: a resident with unpaid rent and no password,
   * whose details are the form's inputs unchanged.
   */
  function NewResident(id: string, form: FormData): (u: User)
    ensures u.id == id && u.role == Resident && !u.isRentPaid && u.password == None
    ensures FormOf(u) == form
  {
    User(id, form.name, form.email, None, Resident, form.roomNumber, form.phoneNumber,
         form.entryDate, form.exitDate, false)
  }

  /**
   * After editing one input, the submitted record carries the new value in
   * that detail and the form's old value in every other detail.
   */
  lemma EditOnlyChangesField(id: string, form: FormData, field: FormField, value: string)
    ensures var u := NewResident(id, WithField(form, field, value));
      && FieldValue(FormOf(u), field) == value
      && (forall f :: f != field ==> FieldValue(FormOf(u), f) == FieldValue(form, f))
      && u.role == Resident && !u.isRentPaid
  {
  }

  /** The component's own state: whether the modal is open and what the form holds. */
  class ResidentForm {
    var isModalOpen: bool
    var formData: FormData

    /** `today` stands for `new Date().toISOString().split('T')[0]`. */
    constructor (today: string)
      ensures !isModalOpen && formData == EmptyForm(today)
    {
      isModalOpen := false;
      formData := EmptyForm(today);
    }

    /** The "Add Resident" button (line 53). */
    method OpenModal()
      modifies this
      ensures isModalOpen && formData == old(formData)
    {
      isModalOpen := true;
    }

    /** The close button of the modal (line 123); the inputs are kept. */
    method CloseModal()
      modifies this
      ensures !isModalOpen && formData == old(formData)
    {
      isModalOpen := false;
    }

    /** An `onChange` handler of one input (lines 130-163). */
    method Edit(field: FormField, value: string)
      modifies this
      ensures formData == WithField(old(formData), field, value)
      ensures isModalOpen == old(isModalOpen)
    {
      formData := WithField(formData, field, value);
    }

    /**
     * Submitting the form: the returned record is what is handed to
     * `onAddResident`; then the modal closes and the form is cleared.
     * `id` stands for the random `res-...` identifier.
     */
    method HandleSubmit(id: string, today: string) returns (added: User)
      modifies this
      ensures added == NewResident(id, old(formData))
      ensures !isModalOpen && formData == EmptyForm(today)
    {
      var newResident := NewResident(id, formData);
      added := newResident;
      isModalOpen := false;
      formData := EmptyForm(today);
    }
  }

  // ---------------------------------------------------------------------------
  // The rent action (line 105)
  // ---------------------------------------------------------------------------

  /** What the row's button asks `onUpdateRent` to do. */
  datatype RentUpdate = RentUpdate(residentId: string, isPaid: bool)

  /** "Mark Paid" / "Mark Unpaid": request the opposite of the current flag for this resident. */
  function RentToggle(u: User): (req: RentUpdate)
    ensures req.residentId == u.id
    ensures req.isPaid <==> !u.isRentPaid
  {
    RentUpdate(u.id, !u.isRentPaid)
  }

  /** The effect the request asks for: the flag of every resident with that id is set. */
  function ApplyRentUpdate(residents: seq<User>, req: RentUpdate): (updated: seq<User>)
    ensures |updated| == |residents|
    ensures forall i :: 0 <= i < |residents| ==>
      updated[i] == if residents[i].id == req.residentId then residents[i].(isRentPaid := req.isPaid) else residents[i]
  {
    seq(|residents|, i requires 0 <= i < |residents| =>
      if residents[i].id == req.residentId then residents[i].(isRentPaid := req.isPaid) else residents[i])
  }

  predicate DistinctIds(residents: seq<User>) {
    forall i, j :: 0 <= i < j < |residents| ==> residents[i].id != residents[j].id
  }

  /** The toggle flips the flag of that one resident and nobody else's. */
  lemma RentToggleFlips(residents: seq<User>, i: nat)
    requires i < |residents| && DistinctIds(residents)
    ensures var updated := ApplyRentUpdate(residents, RentToggle(residents[i]));
      updated[i].isRentPaid == !residents[i].isRentPaid &&
      updated[i] == residents[i].(isRentPaid := !residents[i].isRentPaid) &&
      forall j :: 0 <= j < |residents| && j != i ==> updated[j] == residents[j]
  {
  }

  /** Pressing the rent button of the same row twice restores the list. */
  lemma RentToggleTwiceRestores(residents: seq<User>, i: nat)
    requires i < |residents| && DistinctIds(residents)
    ensures var once := ApplyRentUpdate(residents, RentToggle(residents[i]));
      ApplyRentUpdate(once, RentToggle(once[i])) == residents
  {
    var once := ApplyRentUpdate(residents, RentToggle(residents[i]));
    var twice := ApplyRentUpdate(once, RentToggle(once[i]));
    assert forall j :: 0 <= j < |residents| ==> twice[j] == residents[j] by {
      forall j | 0 <= j < |residents| ensures twice[j] == residents[j] {
        if j != i {
          assert residents[j].id != residents[i].id;
        }
      }
    }
  }

  /** Setting the flag to the same value twice has the effect of setting it once. */
  lemma ApplyRentUpdateIdempotent(residents: seq<User>, req: RentUpdate)
    ensures ApplyRentUpdate(ApplyRentUpdate(residents, req), req) == ApplyRentUpdate(residents, req)
  {
    var once := ApplyRentUpdate(residents, req);
    assert forall i :: 0 <= i < |residents| ==> ApplyRentUpdate(once, req)[i] == once[i];
  }
}
