/** Draining the receive ring into a transport session. */
module Delivery {
  import opened Receive
  import opened SeqSpace

  datatype SendStatus = Accepted | WouldBlock | Closed | Error

  /** What one call of the session does: it takes some bytes and reports, or throws. */
  datatype Answer = Threw | Sent(acceptedBytes: nat, status: SendStatus)

  datatype DeliveryStatus = Idle | Drained | Blocked | NoProgress | SessionClosed | Failed | InvalidResult | BudgetExhausted

  datatype DeliveryResult = DeliveryResult(status: DeliveryStatus, acceptedBytes: nat, calls: nat)

  /** A status that ends the loop, if any. */
  function Verdict(answer: Answer): (r: DeliveryStatus)
  {
    match answer
    case Threw => Failed
    case Sent(n, Accepted) => if n == 0 then NoProgress else Idle
    case Sent(_, WouldBlock) => Blocked
    case Sent(_, Closed) => SessionClosed
    case Sent(_, Error) => Failed
  }

  /** Bytes the first n calls took. */
  ghost function TakenBy(answers: nat -> Answer, n: nat): (r: nat)
  {
    if n == 0 then 0 else TakenBy(answers, n - 1) + if answers(n - 1).Sent? then answers(n - 1).acceptedBytes else 0
  }

  /** The call took something and asked for more. */
  predicate GoesOn(answer: Answer)
  {
    answer.Sent? && answer.status.Accepted? && answer.acceptedBytes > 0
  }

  /** Why the loop stopped after `calls` returned calls, the last of which was offered `offered` bytes. */
  ghost predicate Explains(status: DeliveryStatus, answers: nat -> Answer, calls: nat, offered: nat)
  {
    match status
    case Idle => calls == 0
    case Drained => calls > 0 && GoesOn(answers(calls - 1))
    case BudgetExhausted => calls > 0 ==> GoesOn(answers(calls - 1))
    case InvalidResult => calls > 0 && answers(calls - 1).Sent? && answers(calls - 1).acceptedBytes > offered
    case NoProgress => calls > 0 && answers(calls - 1) == Sent(0, SendStatus.Accepted)
    case Blocked => calls > 0 && answers(calls - 1).Sent? && answers(calls - 1).status == WouldBlock
    case SessionClosed => calls > 0 && answers(calls - 1).Sent? && answers(calls - 1).status == Closed
    case Failed => answers(calls).Threw? || (calls > 0 && answers(calls - 1).Sent? && answers(calls - 1).status == Error)
  }

  /** The session is any oracle `answers`, indexed by call; `handed` collects what it took. */
  method DrainTcpReceiveBuffer(receive: TcpReceiveBuffer, answers: nat -> Answer, callBudget: nat)
    returns (result: DeliveryResult, ghost handed: seq<byte>, ghost offered: nat)
    requires receive.Valid()
    modifies receive`firstUndelivered, receive`firstIndex, receive`bytesHeld, receive`readyBytes, receive`delivered,
             receive`blocked, receive.occupancy
    ensures receive.Valid()
    ensures receive.received == old(receive.received) && receive.Nxt() == old(receive.Nxt())
    ensures receive.delivered == old(receive.delivered) + handed && |handed| == result.acceptedBytes
    ensures result.calls <= callBudget
    ensures result.status.Idle? <==> old(receive.readyBytes) == 0
    ensures result.status.Drained? ==> receive.readyBytes == 0 && !receive.blocked
    ensures result.status.BudgetExhausted? ==> receive.readyBytes > 0 && result.calls == callBudget
    ensures !result.status.Idle? && !result.status.Drained? && !result.status.BudgetExhausted? ==> receive.blocked
    ensures Explains(result.status, answers, result.calls, offered)
    ensures forall k: nat :: k + 1 < result.calls ==> GoesOn(answers(k))
    ensures result.acceptedBytes ==
            TakenBy(answers, if result.status.InvalidResult? && result.calls > 0 then result.calls - 1 else result.calls)
  {
    hide TcpReceiveBuffer.Valid, TcpReceiveBuffer.Content, Reads;
    handed, offered := [], 0;
    result := DeliveryResult(Idle, 0, 0);
    if receive.readyBytes == 0 {
      return;
    }
    if callBudget == 0 {
      return DeliveryResult(BudgetExhausted, 0, 0), handed, offered;
    }
    var calls, taken := 0, 0;
    while receive.readyBytes != 0 && calls < callBudget
      invariant receive.Valid() && calls <= callBudget
      invariant receive.received == old(receive.received) && receive.Nxt() == old(receive.Nxt())
      invariant receive.delivered == old(receive.delivered) + handed && |handed| == taken
      invariant taken == TakenBy(answers, calls) && forall k: nat :: k < calls ==> GoesOn(answers(k))
      decreases callBudget - calls
    {
      var answer := answers(calls);
      var status, n;
      ghost var piece;
      status, n, piece, offered := CallSession(receive, answer);
      handed := handed + piece;
      taken := taken + n;
      if !answer.Threw? {
        calls := calls + 1;
      }
      if !status.Idle? {
        return DeliveryResult(status, taken, calls), handed, offered;
      }
    }
    if receive.readyBytes == 0 {
      receive.SetBlocked(false);
      result := DeliveryResult(Drained, taken, calls);
    } else {
      result := DeliveryResult(BudgetExhausted, taken, calls);
    }
  }

  /** One call of the session: a status other than Idle ends the loop. */
  method CallSession(receive: TcpReceiveBuffer, answer: Answer)
    returns (status: DeliveryStatus, n: nat, ghost piece: seq<byte>, ghost offered: nat)
    requires receive.Valid() && receive.readyBytes > 0
    modifies receive`firstUndelivered, receive`firstIndex, receive`bytesHeld, receive`readyBytes, receive`delivered,
             receive`blocked, receive.occupancy
    ensures receive.Valid()
    ensures receive.received == old(receive.received) && receive.Nxt() == old(receive.Nxt())
    ensures receive.delivered == old(receive.delivered) + piece && |piece| == n
    ensures n == if answer.Threw? || answer.acceptedBytes > offered then 0 else answer.acceptedBytes
    ensures status == if answer.Sent? && answer.acceptedBytes > offered then InvalidResult else Verdict(answer)
    ensures !status.Idle? ==> receive.blocked
  {
    hide TcpReceiveBuffer.Valid, TcpReceiveBuffer.Content, Reads;
    var view := Offer(receive);
    offered, piece, n, status := |view|, [], 0, Verdict(answer);
    if answer.Threw? {
      receive.SetBlocked(true);
      return;
    }
    if answer.acceptedBytes > |view| {
      receive.SetBlocked(true);
      status := InvalidResult;
      return;
    }
    piece, n := view[..answer.acceptedBytes], answer.acceptedBytes;
    Take(receive, view, answer.acceptedBytes);
    if !status.Idle? {
      receive.SetBlocked(true);
    }
  }

  /** The view offered: never empty while bytes are ready, never longer than they are. */
  method Offer(receive: TcpReceiveBuffer) returns (view: seq<byte>)
    requires receive.Valid()
    ensures |view| <= receive.readyBytes && (receive.readyBytes > 0 ==> |view| > 0)
    ensures Reads(receive.received, |receive.delivered|, view)
  {
    view := receive.ReadyView();
  }

  /** What the session took of the view is what leaves the ring. */
  method Take(receive: TcpReceiveBuffer, ghost view: seq<byte>, n: nat)
    requires receive.Valid() && n <= |view| <= receive.readyBytes
    requires Reads(receive.received, |receive.delivered|, view)
    modifies receive`firstUndelivered, receive`firstIndex, receive`bytesHeld, receive`readyBytes, receive`delivered,
             receive.occupancy
    ensures receive.Valid()
    ensures receive.received == old(receive.received) && receive.Nxt() == old(receive.Nxt())
    ensures receive.delivered == old(receive.delivered) + view[..n]
  {
    hide TcpReceiveBuffer.Valid;
    ReadOutReads(receive.received, |receive.delivered|, view, n);
    var consumed := receive.ConsumeReady(n);
  }
}
