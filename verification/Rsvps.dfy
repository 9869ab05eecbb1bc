/** The answers that a participant can have given. */
module Rsvps {
  datatype Rsvp = Invited | Confirmed | Declined | Undecided  // invited, confirmed, cancelled, pending
}
