/** The response of every request in a batch, under the rule that a response is
    sent once and its pointer then set to null. */
module Responses {

  function NullRange(live: seq<bool>, first: nat, last: int): (r: seq<bool>)
    ensures |r| == |live|
    ensures forall i | 0 <= i < |live| :: r[i] == (live[i] && !(first <= i <= last))
  {
    seq(|live|, i requires 0 <= i < |live| => live[i] && !(first <= i <= last))
  }

  /** The responses that have been nulled were nulled when so many copies had been issued. */
  ghost function Stamped(failedAt: seq<nat>, live0: seq<bool>, live1: seq<bool>, issued: nat): (at: seq<nat>)
    requires |failedAt| == |live0| == |live1|
    ensures |at| == |failedAt|
    ensures forall i | 0 <= i < |at| :: at[i] == if live0[i] && !live1[i] then issued else failedAt[i]
  {
    seq(|failedAt|, i requires 0 <= i < |failedAt| => if live0[i] && !live1[i] then issued else failedAt[i])
  }

  /** No response in first..last is still to be sent. */
  ghost predicate AllNull(live: seq<bool>, first: nat, last: int) {
    last < |live| && forall i | first <= i <= last :: !live[i]
  }

  predicate Between(first: nat, i: nat, last: nat) { first <= i <= last }

  /** The responses first..last. */
  ghost function Range(first: nat, last: nat): iset<nat> {
    iset i: nat | Between(first, i, last)
  }

  /** Which responses refused copies and refused calls into the server were for. */
  datatype Refusals = Refusals(any: bool, responses: iset<nat>) {
    ghost function Add(rs: iset<nat>): Refusals {
      Refusals(true, responses + rs)
    }

    ghost predicate UpTo(later: Refusals) {
      && (any ==> later.any) && responses <= later.responses
      && (!later.any ==> later.responses == responses)
    }
  }

  class ResponseSet {
    /** Whether the response pointer is still non-null. */
    var live: seq<bool>
    /** How often a final response has been sent for the request. */
    var sends: seq<nat>
    /** How many copies had been issued when the error was sent that nulled it. */
    ghost var failedAt: seq<nat>

    ghost predicate Valid()
      reads this
    {
      && |live| == |sends| == |failedAt|
      && forall i | 0 <= i < |live| :: sends[i] == if live[i] then 0 else 1
    }

    constructor ()
      ensures Valid() && live == []
    {
      live, sends, failedAt := [], [], [];
    }

    /** Creates the response of the next request. */
    method New()
      requires Valid()
      modifies this
      ensures Valid() && live == old(live) + [true] && sends == old(sends) + [0]
    {
      live, sends, failedAt := live + [true], sends + [0], failedAt + [0];
    }

    /** Sends an error for each response in first..last that is not null yet. */
    method FailRange(first: nat, last: nat, ghost issued: nat)
      requires Valid() && first <= last < |live|
      modifies this
      ensures Valid() && live == NullRange(old(live), first, last)
      ensures failedAt == Stamped(old(failedAt), old(live), live, issued)
    {
      var i := first;
      while i <= last
        invariant first <= i <= last + 1
        invariant Valid() && live == NullRange(old(live), first, i - 1)
        invariant failedAt == Stamped(old(failedAt), old(live), live, issued)
      {
        if live[i] {
          sends := sends[i := sends[i] + 1];
          live, failedAt := live[i := false], failedAt[i := issued];
        }
        i := i + 1;
      }
    }

    /** Sends every response that has not failed.  The pointers stay as they are,
        since they still tell successes from failures. */
    method SendRemaining()
      requires Valid()
      modifies this`sends
      ensures |sends| == |live| && forall i | 0 <= i < |live| :: sends[i] == 1
    {
      var i := 0;
      while i < |live|
        invariant i <= |live| == |sends|
        invariant forall j | 0 <= j < |live| :: sends[j] == if j < i || !live[j] then 1 else 0
      {
        if live[i] {
          sends := sends[i := sends[i] + 1];
        }
        i := i + 1;
      }
    }
  }
}
