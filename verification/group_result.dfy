/**
 * `GroupResult`: one response of a group of slices, held until it is either
 * replayed to the connection or cancelled. It keeps no state of its own
 * beyond the status, headers and body it was built with.
 *
 * The connection and the body publisher are external collaborators; each is
 * a class that logs the calls it receives (`accept` and `subscribe`).
 */
module Group {
  import opened Http
  import Decimal

  /** The signals a reactive-streams publisher sends to a subscriber. */
  datatype Signal = OnSubscribe | OnNext(chunk: seq<byte>) | OnError | OnComplete

  /** What a subscriber does with its subscription on receiving a signal. */
  datatype Reply = Cancel | Request(n: nat) | Ignore

  /** A subscriber, given by its reaction to each signal. */
  type Subscriber = Signal -> Reply

  /** `CANCEL_SUB`: cancels the subscription on `onSubscribe` and does nothing on the other signals. */
  function CancelSub(s: Signal): (r: Reply)
    ensures r.Cancel? <==> s.OnSubscribe?
    ensures !r.Request?
  {
    if s.OnSubscribe? then Cancel else Ignore
  }

  /** A subscription as the publisher sees it: cancelled or not, and the total demand so far. */
  datatype Subscription = Subscription(cancelled: bool, requested: nat)

  function Apply(sub: Subscription, reply: Reply): Subscription {
    match reply
    case Cancel => sub.(cancelled := true)
    case Request(n) => sub.(requested := sub.requested + n)
    case Ignore => sub
  }

  /** The subscription after `subscriber` has reacted to `signals`, in order. */
  function Run(subscriber: Subscriber, signals: seq<Signal>, sub: Subscription): Subscription
    decreases |signals|
  {
    if signals == [] then sub else Run(subscriber, signals[1..], Apply(sub, subscriber(signals[0])))
  }

  /** The cancel subscriber never asks for data and never un-cancels, whatever it receives. */
  lemma {:induction false} CancelSubNeverRequests(signals: seq<Signal>, sub: Subscription)
    ensures Run(CancelSub, signals, sub).requested == sub.requested
    ensures sub.cancelled ==> Run(CancelSub, signals, sub).cancelled
    decreases |signals|
  {
    if signals != [] {
      CancelSubNeverRequests(signals[1..], Apply(sub, CancelSub(signals[0])));
    }
  }

  /**
   * Subscribed to any publisher, the cancel subscriber cancels as soon as it
   * receives `onSubscribe` and ends cancelled with no demand, whatever
   * signals follow: no body data is ever requested or processed.
   */
  lemma CancelSubCancelsImmediately(signals: seq<Signal>)
    requires signals != [] && signals[0] == OnSubscribe
    ensures Run(CancelSub, signals[..1], Subscription(false, 0)) == Subscription(true, 0)
    ensures Run(CancelSub, signals, Subscription(false, 0)) == Subscription(true, 0)
  {
    var start := Subscription(false, 0);
    assert Run(CancelSub, signals[..1], start) == Run(CancelSub, [], Subscription(true, 0));
    CancelSubNeverRequests(signals[1..], Subscription(true, 0));
  }

  /** A body publisher; `subscribers` lists, in order, every subscriber it has been given. */
  class Publisher {
    var subscribers: seq<Subscriber>

    constructor ()
      ensures subscribers == []
    {
      subscribers := [];
    }

    /** `Publisher.subscribe(sub)`. */
    method Subscribe(sub: Subscriber)
      modifies this
      ensures subscribers == old(subscribers) + [sub]
    {
      subscribers := subscribers + [sub];
    }
  }

  /** One call of `Connection.accept(status, headers, body)`. */
  datatype Delivery = Delivery(status: Status, headers: Headers, body: Publisher)

  /** The connection; `accepted` lists, in order, every response handed to it. */
  class Connection {
    var accepted: seq<Delivery>

    constructor ()
      ensures accepted == []
    {
      accepted := [];
    }

    /** `Connection.accept(status, headers, body)`. */
    method Accept(status: Status, headers: Headers, body: Publisher)
      modifies this
      ensures accepted == old(accepted) + [Delivery(status, headers, body)]
    {
      accepted := accepted + [Delivery(status, headers, body)];
    }
  }

  /**
   * Whether a status code names a successful response: its integer value lies
   * in [200, 300). On a code written as `Integer.toString` writes it, that is
   * the "2xx" class: three digits, the first of them '2'.
   */
  predicate SuccessCode(code: string)
    requires Decimal.ParseInt(code).Some?
    ensures code == Decimal.ToDecimal(Decimal.ParseInt(code).value)
            ==> (SuccessCode(code) <==> |code| == 3 && code[0] == '2')
  {
    var n := Decimal.ParseInt(code).value;
    TwoXXClass(n);
    200 <= n && n < 300
  }

  /** For every 32-bit n: n is in [200, 300) iff its decimal text is three digits starting with '2'. */
  lemma TwoXXClass(n: int)
    ensures 200 <= n < 300 <==> |Decimal.ToDecimal(n)| == 3 && Decimal.ToDecimal(n)[0] == '2'
  {
    if n >= 0 {
      Decimal.TwoHundredsAreTwoXX(n);
    }
  }

  class GroupResult {
    const status: Status
    const headers: Headers
    const body: Publisher

    constructor (status: Status, headers: Headers, body: Publisher)
      ensures this.status == status && this.headers == headers && this.body == body
    {
      this.status := status;
      this.headers := headers;
      this.body := body;
    }

    /** `replay(con)`: hands the connection the stored status, headers and body, unchanged. */
    method Replay(con: Connection)
      modifies con
      ensures con.accepted == old(con.accepted) + [Delivery(status, headers, body)]
    {
      con.Accept(status, headers, body);
    }

    /** `success()`: the status code, parsed as a decimal integer, is in [200, 300). */
    predicate Success()
      requires Decimal.ParseInt(status.code).Some?
      ensures status.code == Decimal.ToDecimal(Decimal.ParseInt(status.code).value)
              ==> (Success() <==> |status.code| == 3 && status.code[0] == '2')
    {
      SuccessCode(status.code)
    }

    /** `cancel()`: subscribes the cancel subscriber to the body. */
    method Cancel()
      modifies body
      ensures body.subscribers == old(body.subscribers) + [CancelSub]
    {
      body.Subscribe(CancelSub);
    }
  }

  /**
   * For every code written as `Integer.toString` writes it, success means the
   * "2xx" status class: three digits, the first of them '2'.
   */
  lemma SuccessIsTwoXX(n: int)
    requires Decimal.INT_MIN <= n <= Decimal.INT_MAX
    ensures Decimal.ParseInt(Decimal.ToDecimal(n)).Some?
    ensures SuccessCode(Decimal.ToDecimal(n))
            <==> |Decimal.ToDecimal(n)| == 3 && Decimal.ToDecimal(n)[0] == '2'
  {
    Decimal.ParseToDecimal(n);
    TwoXXClass(n);
  }

  /** The boundaries: "200" and "299" are successes, "199" and "300" are not. */
  lemma SuccessBoundaries()
    ensures Decimal.ParseInt("200").Some? && SuccessCode("200")
    ensures Decimal.ParseInt("299").Some? && SuccessCode("299")
    ensures Decimal.ParseInt("199").Some? && !SuccessCode("199")
    ensures Decimal.ParseInt("300").Some? && !SuccessCode("300")
  {
    assert Decimal.ToDecimal(200) == "200" by { assert Decimal.NatToDecimal(20) == "20"; }
    assert Decimal.ToDecimal(299) == "299" by { assert Decimal.NatToDecimal(29) == "29"; }
    assert Decimal.ToDecimal(199) == "199" by { assert Decimal.NatToDecimal(19) == "19"; }
    assert Decimal.ToDecimal(300) == "300" by { assert Decimal.NatToDecimal(30) == "30"; }
    Decimal.ParseToDecimal(200);
    Decimal.ParseToDecimal(299);
    Decimal.ParseToDecimal(199);
    Decimal.ParseToDecimal(300);
  }
}
