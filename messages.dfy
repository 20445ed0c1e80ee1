/** The value types passed between producers, the buffer and the dispatcher. */
module Messages {
  import opened Expiration

  /** A message category; two types are equal when their names are. */
  datatype MessageType = MessageType(name: string)

  /** Identity of the CompletableFuture handed back to a producer. */
  type PromiseId = nat

  /** The outcome a producer's promise completes with. */
  datatype SendingResult<R> = Sent(result: R) | NotSent | NotSentShuttingDown

  /**
   * What a promise was resolved with: a normal completion, or an exceptional
   * one carrying a MessageSendingException.
   */
  datatype Resolution<R> = Completed(value: SendingResult<R>) | CompletedExceptionally

  /** A buffered unit of work. */
  datatype MessageContainer<M> = MessageContainer(
    creationMs: int,
    message: M,
    promise: PromiseId,
    messageType: MessageType,
    expirationTime: ExpirationDate)
  {
    /** The container's deadline has passed: no time remains for it. */
    predicate IsExpired(now: int)
      ensures IsExpired(now) <==> expirationTime.RemainingMs(now) < 0
      ensures IsExpired(now) <==> expirationTime.deadlineMs < now
    {
      expirationTime.IsExpired(now)
    }
  }
}
