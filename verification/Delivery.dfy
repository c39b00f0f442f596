/** What it means for copies to deliver what a batch asked for, whichever mix of
    finished, queued and deferred copies is still to do it. */
module Delivery {
  import opened DeviceMemory
  import opened Responses

  /** A range of bytes to be copied, and the responses that must have failed if
      it is not.  first == last when the range belongs to one request. */
  datatype Obligation = Obligation(copy: Copy, first: nat, last: nat)

  /** m holds, at the obligation's destination, the bytes its source had in orig. */
  ghost predicate Arrived(ob: Obligation, m: Memory, orig: Memory) {
    forall l: Loc | In(l, ob.copy.dst, ob.copy.n) :: m(l) == orig(Shift(l, ob.copy.dst, ob.copy.src))
  }

  ghost predicate Settled(ob: Obligation, m: Memory, orig: Memory, live: seq<bool>) {
    AllNull(live, ob.first, ob.last) || Arrived(ob, m, orig)
  }

  /** The responses that are non-null now were non-null before. */
  ghost predicate OnlyNulled(before: seq<bool>, after: seq<bool>) {
    |before| == |after| && forall i | 0 <= i < |after| :: after[i] ==> before[i]
  }

  /** Responses were only lost, and exactly for a cause: a copy or a call that was for
      the response has been refused, or it is one of those there is no room for. */
  ghost predicate Losses(live0: seq<bool>, live1: seq<bool>, f0: Refusals, f1: Refusals, tooSmall: iset<nat>) {
    && OnlyNulled(live0, live1) && f0.UpTo(f1)
    && (forall i: nat | i < |live0| && live0[i] && !live1[i] :: i in f1.responses || i in tooSmall)
    && (forall i: nat | i < |live0| && live1[i] :: i !in tooSmall && (i in f1.responses ==> i in f0.responses))
  }

  lemma {:induction false} NoLosses(live: seq<bool>, f: Refusals)
    ensures Losses(live, live, f, f, iset{})
  {}

  /** What a chunk that is refused, or that there is no room for, loses. */
  lemma {:induction false} RangeLost(live: seq<bool>, f: Refusals, first: nat, last: nat)
    ensures Losses(live, NullRange(live, first, last), f, f.Add(Range(first, last)), iset{})
    ensures Losses(live, NullRange(live, first, last), f, f, Range(first, last))
  {}

  lemma {:induction false} NoneAdded(s: iset<nat>)
    ensures iset{} + s == s
  {}

  lemma {:induction false} OnlyLosses(live0: seq<bool>, live1: seq<bool>, f0: Refusals, f1: Refusals, tooSmall: iset<nat>)
    requires Losses(live0, live1, f0, f1, tooSmall)
    ensures OnlyNulled(live0, live1) && f0.UpTo(f1)
  {}

  /** What is lost first and what is lost later. */
  lemma {:induction false} LossesJoin(live0: seq<bool>, live1: seq<bool>, live2: seq<bool>, f0: Refusals, f1: Refusals,
                                      f2: Refusals, small0: iset<nat>, small1: iset<nat>)
    requires Losses(live0, live1, f0, f1, small0) && Losses(live1, live2, f1, f2, small1)
    ensures Losses(live0, live2, f0, f2, small0 + small1) && (f1.any ==> f2.any)
    ensures small1 == iset{} ==> Losses(live0, live2, f0, f2, small0)
    ensures |live0| == |live1| == |live2|
  {}

  /** Without a refusal and with room for everything no response is lost. */
  lemma {:induction false} NothingLost(live0: seq<bool>, live1: seq<bool>, f0: Refusals, f1: Refusals, tooSmall: iset<nat>)
    requires Losses(live0, live1, f0, f1, tooSmall) && !f1.any && f0.responses == iset{} && tooSmall == iset{}
    ensures live1 == live0
  {
    assert forall i: nat | i < |live0| :: live1[i] == live0[i];
  }

  /** Where bytes may come from and go to.  Inputs are never written; a
      destination location is written at most once, and `unwritten` holds those
      that have not been given to any copy yet. */
  datatype Regions = Regions(inputs: iset<Loc>, dests: iset<Loc>, unwritten: iset<Loc>) {
    ghost predicate Valid() {
      && (forall l | l in inputs :: !l.space.Staging? && l !in dests)
      && (forall l | l in dests :: !l.space.Staging?)
      && unwritten <= dests
    }

    /** Destination bytes that have been given to a copy. */
    ghost predicate Given(p: Loc, n: nat) {
      forall l: Loc | In(l, p, n) :: l in dests && l !in unwritten
    }

    /** Whatever was given before is still given in r. */
    ghost predicate Keeps(r: Regions) {
      forall l | l in dests :: l in r.dests && (l in r.unwritten ==> l in unwritten)
    }

    /** Only among the n bytes from p have any been given away since. */
    ghost predicate SpendsOnly(r: Regions, p: Loc, n: nat) {
      forall l | l in unwritten && !In(l, p, n) :: l in r.unwritten
    }

    ghost function Take(p: Loc, n: nat): Regions {
      this.(unwritten := iset l | l in unwritten && !In(l, p, n))
    }

    ghost function Grant(p: Loc, n: nat): Regions {
      Regions(inputs, iset l | l in dests || In(l, p, n), iset l | l in unwritten || In(l, p, n))
    }
  }

  lemma {:induction false} TakeNothing(r: Regions, p: Loc)
    ensures r.Take(p, 0) == r
  {
    assert r.Take(p, 0).unwritten == r.unwritten;
  }

  lemma {:induction false} TakeTwice(r: Regions, p: Loc, n: nat, m: nat)
    ensures r.Take(p, n).Take(p.Plus(n), m) == r.Take(p, n + m)
  {
    assert forall l: Loc :: In(l, p, n + m) <==> In(l, p, n) || In(l, p.Plus(n), m);
    assert r.Take(p, n).Take(p.Plus(n), m).unwritten == r.Take(p, n + m).unwritten;
  }

  ghost predicate Within(p: Loc, n: nat, s: iset<Loc>) {
    forall l: Loc | In(l, p, n) :: l in s
  }

  ghost predicate StagedIn(p: Loc, n: nat, owned: set<nat>) {
    forall l: Loc | In(l, p, n) :: l.space.Staging? && l.space.serial in owned
  }

  /** A queued or deferred copy reads inputs or owned staging memory, and writes
      owned staging memory or destination bytes given to it. */
  ghost predicate OpOk(op: Copy, r: Regions, owned: set<nat>) {
    && (Within(op.src, op.n, r.inputs) || StagedIn(op.src, op.n, owned))
    && (r.Given(op.dst, op.n) || StagedIn(op.dst, op.n, owned))
  }

  ghost predicate OpsOk(ops: seq<Copy>, r: Regions, owned: set<nat>) {
    forall op | op in ops :: OpOk(op, r, owned)
  }

  /** Its responses have failed, or its bytes are on their way to a destination
      no further copy will be given. */
  ghost predicate Done(ob: Obligation, m: Memory, orig: Memory, live: seq<bool>, r: Regions) {
    || AllNull(live, ob.first, ob.last)
    || (Arrived(ob, m, orig) && r.Given(ob.copy.dst, ob.copy.n))
  }

  /** Nothing outside destinations and staging memory has changed. */
  ghost predicate Untouched(m: Memory, orig: Memory, r: Regions) {
    forall l: Loc | (l !in r.dests || l in r.unwritten) && !l.space.Staging? :: m(l) == orig(l)
  }

  // ---------------------------------------------------------------------------
  // Copies into fresh destination bytes
  // ---------------------------------------------------------------------------

  lemma {:induction false} FreshCopyIndependent(c: Copy, ops: seq<Copy>, r: Regions, owned: set<nat>)
    requires r.Valid() && OpsOk(ops, r, owned)
    requires Within(c.src, c.n, r.inputs) && Within(c.dst, c.n, r.unwritten)
    ensures IndependentOfAll(c, ops)
  {
    forall op | op in ops
      ensures Independent(c, op)
    {
      assert OpOk(op, r, owned);
    }
  }

  /** A copy performed at once, put on the stream, or refused: what the queue
      now leads to, given copies `later` that will run after it in any case. */
  lemma {:induction false} CopyEffect(m0: Memory, s0: seq<Copy>, m1: Memory, s1: seq<Copy>, later: seq<Copy>, c: Copy,
                                      ok: bool)
    requires || (!ok && m1 == m0 && s1 == s0)
             || (ok && m1 == Apply(m0, c) && s1 == s0 && IndependentOfAll(c, s0))
             || (ok && m1 == m0 && s1 == s0 + [c])
    requires IndependentOfAll(c, later)
    ensures forall l: Loc :: Drain(m1, s1 + later)(l)
                          == (if ok then Apply(Drain(m0, s0 + later), c)(l) else Drain(m0, s0 + later)(l))
  {
    if ok && s1 == s0 + [c] {
      InsertCopy(m0, s0, c, later);
      if m1 == Apply(m0, c) && s1 == s0 {
        HostCopy(m0, c, s0 + later);
      }
    } else if ok {
      HostCopy(m0, c, s0 + later);
    }
  }

  lemma {:induction false} StillDone(ob: Obligation, m0: Memory, m1: Memory, orig: Memory, live0: seq<bool>,
                                     live1: seq<bool>,
                  r0: Regions, r1: Regions, c: Copy)
    requires Done(ob, m0, orig, live0, r0) && OnlyNulled(live0, live1)
    requires forall l: Loc | !In(l, c.dst, c.n) :: m1(l) == m0(l)
    requires Within(c.dst, c.n, r0.unwritten) || (forall l: Loc | In(l, c.dst, c.n) :: l !in r0.dests)
    requires r0.Keeps(r1)
    ensures Done(ob, m1, orig, live1, r1)
  {
    if !AllNull(live0, ob.first, ob.last) {
      forall l: Loc | In(l, ob.copy.dst, ob.copy.n)
        ensures m1(l) == orig(Shift(l, ob.copy.dst, ob.copy.src)) && l in r1.dests && l !in r1.unwritten
      {
        assert l in r0.dests && l !in r0.unwritten && !In(l, c.dst, c.n);
      }
    }
  }

  /** Every obligation is done, except perhaps the pending ones. */
  ghost predicate Progress(obls: seq<Obligation>, m: Memory, orig: Memory, live: seq<bool>, r: Regions,
                           pending: seq<Obligation>) {
    forall ob | ob in obls :: Done(ob, m, orig, live, r) || ob in pending
  }

  lemma {:induction false} StillProgress(obls: seq<Obligation>, m0: Memory, m1: Memory, orig: Memory,
                                         live0: seq<bool>, live1: seq<bool>,
                      r0: Regions, r1: Regions, c: Copy, pending: seq<Obligation>)
    requires Progress(obls, m0, orig, live0, r0, pending) && OnlyNulled(live0, live1)
    requires forall l: Loc | !In(l, c.dst, c.n) :: m1(l) == m0(l)
    requires Within(c.dst, c.n, r0.unwritten) || (forall l: Loc | In(l, c.dst, c.n) :: l !in r0.dests)
    requires r0.Keeps(r1)
    ensures Progress(obls, m1, orig, live1, r1, pending)
  {
    forall ob | ob in obls
      ensures Done(ob, m1, orig, live1, r1) || ob in pending
    {
      if Done(ob, m0, orig, live0, r0) {
        StillDone(ob, m0, m1, orig, live0, live1, r0, r1, c);
      }
    }
  }

  /** One pending obligation is copied straight to its destination, or fails. */
  lemma {:induction false} CopyStep(obls: seq<Obligation>, m0: Memory, m1: Memory, orig: Memory, live0: seq<bool>,
                                    live1: seq<bool>,
                 r: Regions, ob: Obligation, c: Copy, ok: bool, pending0: seq<Obligation>, pending1: seq<Obligation>)
    requires r.Valid() && Progress(obls, m0, orig, live0, r, pending0) && Untouched(m0, orig, r)
    requires OnlyNulled(live0, live1)
    requires ob.copy.n == c.n && (c.n > 0 ==> ob.copy == c)
    requires Within(c.src, c.n, r.inputs) && Within(c.dst, c.n, r.unwritten)
    requires forall l: Loc :: m1(l) == (if ok then Apply(m0, c)(l) else m0(l))
    requires ok || AllNull(live1, ob.first, ob.last)
    requires forall o | o in pending0 :: o == ob || o in pending1
    ensures Progress(obls, m1, orig, live1, r.Take(c.dst, c.n), pending1)
    ensures Untouched(m1, orig, r.Take(c.dst, c.n))
  {
    var r1 := r.Take(c.dst, c.n);
    StillProgress(obls, m0, m1, orig, live0, live1, r, r1, c, pending0);
    assert Done(ob, m1, orig, live1, r1);
  }

  /** Owning more, or having given out more, keeps queued copies in order. */
  lemma {:induction false} OpsStillOk(ops: seq<Copy>, r0: Regions, r1: Regions, owned0: set<nat>, owned1: set<nat>)
    requires OpsOk(ops, r0, owned0) && r0.Keeps(r1) && r0.inputs == r1.inputs && owned0 <= owned1
    ensures OpsOk(ops, r1, owned1)
  {
    forall op | op in ops
      ensures OpOk(op, r1, owned1)
    {
      assert OpOk(op, r0, owned0);
    }
  }
}
