/** services/ride/src/domain/ride-state-machine.ts: the ride's states and its transition table. */
module RideStateMachine {
  import opened Wrappers

  datatype Status =
    | Requested | Matching | Assigned | Arriving | InProgress | PendingPayment | PaymentFailed
    | Completed | CancelledByPassenger | CancelledByDriver | CancelledNoShow | NoDriverFound

  datatype RideAction =
    | StartMatching | Assign | Exhausted | Arrive | Start | End
    | PaymentSuccess | FailPayment | RetryPayment | PassengerCancel | DriverCancel | NoShow

  /** None is the 409 ILLEGAL_RIDE_TRANSITION. */
  function Transition(s: Status, action: RideAction): Option<Status> {
    match s
    case Requested =>
      (match action
       case StartMatching => Some(Matching)
       case PassengerCancel => Some(CancelledByPassenger)
       case _ => None)
    case Matching =>
      (match action
       case Assign => Some(Assigned)
       case Exhausted => Some(NoDriverFound)
       case PassengerCancel => Some(CancelledByPassenger)
       case _ => None)
    case Assigned =>
      (match action
       case Arrive => Some(Arriving)
       case PassengerCancel => Some(CancelledByPassenger)
       case DriverCancel => Some(Matching)
       case _ => None)
    case Arriving =>
      (match action
       case Start => Some(InProgress)
       case NoShow => Some(CancelledNoShow)
       case PassengerCancel => Some(CancelledByPassenger)
       case DriverCancel => Some(Matching)
       case _ => None)
    case InProgress => if action == End then Some(PendingPayment) else None
    case PendingPayment =>
      (match action
       case PaymentSuccess => Some(Completed)
       case FailPayment => Some(PaymentFailed)
       case _ => None)
    case PaymentFailed =>
      (match action
       case RetryPayment => Some(PendingPayment)
       case PaymentSuccess => Some(Completed)
       case _ => None)
    case _ => None
  }

  predicate IsTerminal(s: Status) {
    s in {Completed, CancelledByPassenger, CancelledByDriver, CancelledNoShow, NoDriverFound}
  }

  /** The separately listed terminal states are exactly the rows of the table without a transition. */
  lemma TerminalExactlyWithoutTransitions(s: Status)
    ensures IsTerminal(s) <==> forall a :: Transition(s, a).None?
  {
    if !IsTerminal(s) {
      var a := match s
        case Requested => StartMatching
        case Matching => Assign
        case Assigned => Arrive
        case Arriving => Start
        case InProgress => End
        case PendingPayment => PaymentSuccess
        case _ => RetryPayment;
      assert Transition(s, a).Some?;
    }
  }

  /** How many stages a ride can still pass without a rematch. */
  function Rank(s: Status): nat {
    match s
    case Requested => 7
    case Matching => 6
    case Assigned => 5
    case Arriving => 4
    case InProgress => 3
    case PendingPayment => 2
    case PaymentFailed => 1
    case _ => 0
  }

  /** Only a driver's cancel and a payment retry ever lead back; the first loses at most two stages. */
  lemma TransitionsGoDownTheRanks(s: Status, a: RideAction)
    requires Transition(s, a).Some?
    ensures var t := Transition(s, a).value;
      if a == DriverCancel then t == Matching && Rank(t) <= Rank(s) + 2
      else if a == RetryPayment then s == PaymentFailed && t == PendingPayment
      else Rank(t) < Rank(s)
    ensures a != RetryPayment && Transition(s, a).value == Matching && s != Requested ==> a == DriverCancel
  {
  }
}
