/** Values shared by the two queue drivers. */
module QueueTypes {

  type JobID = string

  /** A queued unit of work; everything beside the id is opaque to the queue. */
  datatype Job = Job(id: JobID, body: string)

  /** What a driver stores for one delivery: the job and its completed handler attempts. */
  datatype Payload = Payload(job: Job, attempts: nat)

  datatype DeadEntry = DeadEntry(job: Job, attempts: nat)

  /** The handler's verdict on one delivery. `Unknown` is any other integer value. */
  datatype Disposition = Ack | Retry | DeadLetter | Unknown(code: int)

  datatype Option<+T> = None | Some(value: T)
}
