/** What both loggers' queues are about: lines of text, and who can hold a lock. */
module Logger {
  type Line = string

  datatype Owner = ByProducer(pid: nat) | ByReader
}
