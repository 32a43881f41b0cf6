/** Keys, user, device, session, room and message identifiers are strings that the gateway
    only compares; here they are numbered. */
module Names {

  datatype Name = Name(id: nat)

  /** The empty string. */
  const NO_NAME := Name(0)

  datatype Option<+T> = None | Some(value: T)
}
