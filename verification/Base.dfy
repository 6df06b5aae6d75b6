/** Opaque entities shared by every model of the task lifecycle. */
module Base {

  datatype Option<+T> = None | Some(value: T)

  // A `Waker` is an identity; what waking does is recorded in logs.
  type Waker(==, !new)

  // The output type `T` of a task, and the payload of a panic.
  type Value(==, !new)
  type Payload(==, !new)

  // `Result<T, InnerJoinError>`
  datatype Outcome = Ok(value: Value) | Cancelled | Panicked(payload: Payload)

  // A waker together with the number of the poll that supplied it, so that two polls
  // given the same waker still register two different things.
  datatype Registration = Registration(waker: Waker, poll: nat)
}
