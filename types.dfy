/**
 * The records the four components share. The repository's `types` module is
 * not part of this model; its entities are reconstructed from the fields the
 * components read and write.
 *
 * Optional string fields of the original records (room number, exit date, a
 * server error text) are modelled as strings where `""` means "absent", and
 * the optional rent flag as a `bool` where `false` means "absent": every read of
 * them in the components (`||`, `!`, truthiness, `includes`) treats an absent
 * value exactly like the empty string or `false`. Serialising a record is
 * not such a read: a record built without these keys (the registration body)
 * is posted without them, while the model's record carries `""` and `false`.
 */
module Types {

  datatype Option<T> = None | Some(value: T)

  /** The two roles of the hostel: a tenant and the operator. */
  datatype UserRole = Resident | Admin

  /** A complaint is open until it is resolved. */
  datatype ComplaintStatus = Pending | Resolved

  /** An account: a resident (with a room, dates and a rent flag) or an admin. */
  datatype User = User(
    id: string,
    name: string,
    email: string,
    password: Option<string>,
    role: UserRole,
    roomNumber: string,   // "" when no room is assigned
    phoneNumber: string,
    entryDate: string,
    exitDate: string,     // "" while the resident stays on
    isRentPaid: bool
  )

  datatype Complaint = Complaint(
    id: string,
    residentId: string,
    residentName: string,
    issueType: string,
    status: ComplaintStatus
  )

  datatype Notice = Notice(id: string, title: string, content: string)
}
