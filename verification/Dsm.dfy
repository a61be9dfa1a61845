/** The channel state table of dsm.c. */
module Dsm {

  datatype St = NO | INIT | WORK | RECOVER | SLEEP | IWI | IWS | RW | DELETE

  datatype Input = Success | Failure | Remove

  datatype Op =
    | Housekeeping | XDelete | XInit | XStart | XIoError | XKeepalive
    | RDelete | RIoError | RKeepalive | RStart | RRecover

  /** transition_table; the entries it does not set are zero, that is NO. */
  function Transition(s: St, i: Input): St {
    match s
    case NO => INIT
    case INIT => (match i case Success => IWI case Failure => INIT case Remove => DELETE)
    case IWI => (match i case Success => IWS case Failure => IWI case Remove => IWI)
    case IWS => (match i case Success => WORK case Failure => IWS case Remove => IWS)
    case WORK => (match i case Success => WORK case Failure => RECOVER case Remove => DELETE)
    case RECOVER => (match i case Success => RW case Failure => RECOVER case Remove => DELETE)
    case RW => (match i case Success => WORK case Failure => RW case Remove => RW)
    case DELETE => (match i case Success => NO case Failure => DELETE case Remove => DELETE)
    case SLEEP => NO
  }

  /** _init_op_table: which operations have a handler. */
  predicate Has(s: St, o: Op) {
    match s
    case INIT => o in {Housekeeping, XDelete, XInit}
    case WORK => o in {Housekeeping, XDelete, XKeepalive, RKeepalive, RRecover}
    case IWI => o in {Housekeeping, XStart}
    case IWS => o in {Housekeeping, RStart}
    case RW => o in {Housekeeping, RStart}
    case RECOVER => o in {Housekeeping, XDelete, XStart, XIoError, RIoError}
    case DELETE => o in {RDelete}
    case _ => false
  }

  /** The columns of op_view, state by state. */
  function View(s: St): seq<nat> {
    match s
    case INIT => [1, 1, 1, 0, 0, 0, 0, 0, 0, 0, 0]
    case IWI => [1, 0, 0, 1, 0, 0, 0, 0, 0, 0, 0]
    case IWS => [1, 0, 0, 0, 0, 0, 0, 0, 0, 1, 0]
    case WORK => [1, 1, 0, 0, 0, 1, 0, 0, 1, 0, 1]
    case RECOVER => [1, 1, 0, 1, 1, 0, 0, 1, 0, 0, 0]
    case RW => [1, 0, 0, 0, 0, 0, 0, 0, 0, 1, 0]
    case DELETE => [0, 0, 0, 0, 0, 0, 1, 0, 0, 0, 0]
    case _ => [0, 0, 0, 0, 0, 0, 0, 0, 0, 0, 0]
  }

  function Column(o: Op): nat {
    match o
    case Housekeeping => 0
    case XDelete => 1
    case XInit => 2
    case XStart => 3
    case XIoError => 4
    case XKeepalive => 5
    case RDelete => 6
    case RIoError => 7
    case RKeepalive => 8
    case RStart => 9
    case RRecover => 10
  }

  /** The start-up self check passes: the operation table is what the view promises. */
  lemma OpTableChecks(s: St, o: Op)
    ensures |View(s)| == 11 && Column(o) < 11
    ensures Has(s, o) <==> View(s)[Column(o)] == 1
  {
  }

  /** Deletion is accepted exactly in the states whose delete transition leads to DELETE. */
  lemma DeletableIff(s: St)
    ensures Has(s, XDelete) <==> s != DELETE && Transition(s, Remove) == DELETE
  {
  }
}
