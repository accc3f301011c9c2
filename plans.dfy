/**
 * A plan for a run of additions to a missing-value table: the additions the
 * C code makes, in order, and the fault that stops it (an
 * `exit(EXIT_FAILURE)` there), if any.
 */
module Plans {
  import opened Types
  import opened Variables

  /** The additions made, in order, and the fault met after them, if any. */
  datatype Plan = Plan(adds: seq<Add>, fault: Option<Fault>)

  function Done(): Plan { Plan([], None) }

  function Fail(e: Fault): Plan { Plan([], Some(e)) }

  /** The additions `done` followed by the plan `p`. */
  function Then(done: seq<Add>, p: Plan): Plan { Plan(done + p.adds, p.fault) }

  /** One addition, or the fault that prevents it. */
  function One(r: Result<Add>): Plan {
    match r
    case Err(e) => Fail(e)
    case Ok(a) => Plan([a], None)
  }

  /** `p`, then `q` unless `p` met a fault. */
  function Seq(p: Plan, q: Plan): Plan {
    if p.fault.Some? then p else Then(p.adds, q)
  }

  /** The table and count after the plan's additions from the state (s0, c0), and the fault returned. */
  ghost predicate Outcome(x: Variable, s0: seq<Value>, c0: nat, p: Plan, fault: Option<Fault>)
    reads x, x.missingRanges
  {
    x.missingRanges[..] == ApplyAll(s0, c0, p.adds) && x.missingCount == c0 + |p.adds| && fault == p.fault
  }

  /**
   * A loop step that carries out the plan `p` after the additions `done`,
   * the plan `rest` still to come: `p` has room, its additions extend the
   * table, and what is left of the whole plan is `rest` unless `p` failed.
   */
  lemma StepPlan(s0: seq<Value>, c0: nat, done: seq<Add>, p: Plan, rest: Plan, whole: Plan)
    requires Then(done, Seq(p, rest)) == whole && Fits(c0, whole.adds, |s0|)
    ensures Fits(c0 + |done|, p.adds, |s0|)
    ensures ApplyAll(s0, c0, done + p.adds) == ApplyAll(ApplyAll(s0, c0, done), c0 + |done|, p.adds)
    ensures p.fault.Some? ==> whole == Plan(done + p.adds, p.fault)
    ensures p.fault.None? ==> Then(done + p.adds, rest) == whole
  {
    var after := if p.fault.Some? then [] else rest.adds;
    assert whole.adds == done + (p.adds + after);
    assert (done + p.adds) + after == done + (p.adds + after);
    FitsAppend(c0, done, p.adds + after, |s0|);
    FitsAppend(c0 + |done|, p.adds, after, |s0|);
    ApplyAllAppend(s0, c0, done, p.adds);
  }

  /**
   * A plan made of two parts: room for it is room for each part, and the
   * second part's additions follow the first's.
   */
  lemma SeqSplit(s0: seq<Value>, c0: nat, p: Plan, q: Plan)
    requires Fits(c0, Seq(p, q).adds, |s0|)
    ensures Fits(c0, p.adds, |s0|)
    ensures p.fault.None? ==> Fits(c0 + |p.adds|, q.adds, |s0|)
    ensures p.fault.None? ==> ApplyAll(s0, c0, Seq(p, q).adds) == ApplyAll(ApplyAll(s0, c0, p.adds), c0 + |p.adds|, q.adds)
  {
    if p.fault.None? {
      FitsAppend(c0, p.adds, q.adds, |s0|);
      SeqApply(s0, c0, p, q);
    }
  }

  /** The additions of a plan made of two parts, the first without fault, are the first's then the second's. */
  lemma SeqApply(s0: seq<Value>, c0: nat, p: Plan, q: Plan)
    requires p.fault.None?
    ensures ApplyAll(s0, c0, Seq(p, q).adds) == ApplyAll(ApplyAll(s0, c0, p.adds), c0 + |p.adds|, q.adds)
  {
    ApplyAllAppend(s0, c0, p.adds, q.adds);
  }

  /**
   * The variable left as `q` leaves it from where `p` left the table leaves
   * it as `Seq(p, q)` leaves it from where `p` started, when `p` did not fail.
   */
  lemma OutcomeSeq(x: Variable, s0: seq<Value>, c0: nat, p: Plan, q: Plan, s1: seq<Value>, c1: nat, fault: Option<Fault>)
    requires p.fault.None? && Fits(c0, Seq(p, q).adds, |s0|)
    requires s1 == ApplyAll(s0, c0, p.adds) && c1 == c0 + |p.adds|
    requires Outcome(x, s1, c1, q, fault)
    ensures Outcome(x, s0, c0, Seq(p, q), fault)
  {
    SeqThen(s0, c0, p, q, s1, c1, x.missingRanges[..], x.missingCount);
  }

  /** Room for a plan made of two parts is room for its first part. */
  lemma SeqFitsFirst(c0: nat, p: Plan, q: Plan, cap: nat)
    requires Fits(c0, Seq(p, q).adds, cap)
    ensures Fits(c0, p.adds, cap)
  {
    if p.fault.None? {
      FitsAppend(c0, p.adds, q.adds, cap);
    }
  }

  /**
   * Carrying out `p` without a fault from (s0, c0), then `q` from where `p`
   * left the table, leaves what `Seq(p, q)` leaves, with `q`'s fault.
   */
  lemma SeqThen(s0: seq<Value>, c0: nat, p: Plan, q: Plan, s1: seq<Value>, c1: nat, s2: seq<Value>, c2: nat)
    requires p.fault.None? && Fits(c0, Seq(p, q).adds, |s0|)
    requires s1 == ApplyAll(s0, c0, p.adds) && c1 == c0 + |p.adds|
    requires s2 == ApplyAll(s1, c1, q.adds) && c2 == c1 + |q.adds|
    ensures s2 == ApplyAll(s0, c0, Seq(p, q).adds) && c2 == c0 + |Seq(p, q).adds| && Seq(p, q).fault == q.fault
  {
    SeqSplit(s0, c0, p, q);
  }

  /** The plan of a single addition has room for it. */
  lemma OneFits(c0: nat, r: Result<Add>, cap: nat)
    requires Fits(c0, One(r).adds, cap)
    ensures r.Ok? ==> Need(c0, r.value) <= cap && One(r).adds == [r.value]
  {
    if r.Ok? {
      assert One(r).adds[0] == r.value;
      assert NeedAt(c0, One(r).adds, 0) <= cap;
    }
  }
  /** The plans `ps[i..]` one after the other, stopping at the first fault. */
  function Chain(ps: seq<Plan>, i: nat): Plan
    requires i <= |ps|
    decreases |ps| - i
  {
    if i == |ps| then Done() else Seq(ps[i], Chain(ps, i + 1))
  }

  /** A table, its count of entries and the fault met, if any. */
  datatype State = State(slots: seq<Value>, count: nat, fault: Option<Fault>)

  /**
   * The state after carrying out `ps[i..]` from (slots, count), plan by
   * plan, as a loop over the plans does it.
   */
  function Run(ps: seq<Plan>, i: nat, slots: seq<Value>, count: nat): State
    requires i <= |ps|
    decreases |ps| - i
  {
    if i == |ps| then State(slots, count, None)
    else if ps[i].fault.Some? then State(ApplyAll(slots, count, ps[i].adds), count + |ps[i].adds|, ps[i].fault)
    else Run(ps, i + 1, ApplyAll(slots, count, ps[i].adds), count + |ps[i].adds|)
  }

  /** Every plan of `ps[i..]` that is reached has room for its additions. */
  predicate Room(ps: seq<Plan>, i: nat, count: nat, cap: nat)
    requires i <= |ps|
    decreases |ps| - i
  {
    i == |ps| || (Fits(count, ps[i].adds, cap) && (ps[i].fault.None? ==> Room(ps, i + 1, count + |ps[i].adds|, cap)))
  }

  /** Running the plans one by one leaves what their chain describes. */
  lemma {:induction false} RunChain(ps: seq<Plan>, i: nat, slots: seq<Value>, count: nat)
    requires i <= |ps|
    ensures Run(ps, i, slots, count)
            == State(ApplyAll(slots, count, Chain(ps, i).adds), count + |Chain(ps, i).adds|, Chain(ps, i).fault)
    decreases |ps| - i
  {
    if i == |ps| {
      assert Chain(ps, i) == Done();
    } else if ps[i].fault.Some? {
      assert Chain(ps, i) == ps[i];
    } else {
      var p, rest := ps[i], Chain(ps, i + 1);
      var mid := ApplyAll(slots, count, p.adds);
      RunChain(ps, i + 1, mid, count + |p.adds|);
      ApplyAllAppend(slots, count, p.adds, rest.adds);
      calc {
        Run(ps, i, slots, count);
        Run(ps, i + 1, mid, count + |p.adds|);
        State(ApplyAll(mid, count + |p.adds|, rest.adds), count + |p.adds| + |rest.adds|, rest.fault);
        State(ApplyAll(slots, count, p.adds + rest.adds), count + |p.adds + rest.adds|, rest.fault);
      }
      assert Chain(ps, i) == Plan(p.adds + rest.adds, rest.fault);
    }
  }


  /** Room for each plan reached is room for their chain, and conversely. */
  lemma {:induction false} RoomChain(ps: seq<Plan>, i: nat, count: nat, cap: nat)
    requires i <= |ps|
    ensures Room(ps, i, count, cap) <==> Fits(count, Chain(ps, i).adds, cap)
    decreases |ps| - i
  {
    if i < |ps| && ps[i].fault.None? {
      RoomChain(ps, i + 1, count + |ps[i].adds|, cap);
      FitsAppend(count, ps[i].adds, Chain(ps, i + 1).adds, cap);
    }
  }

  /** A plan of one addition, or of a fault alone. */
  predicate Single(p: Plan) {
    (p.fault.None? && |p.adds| == 1) || (p.fault.Some? && p.adds == [])
  }

  /**
   * A chain of single additions: its k-th addition is that of the k-th plan,
   * and it covers every plan unless it stops at the first one that fails.
   */
  lemma {:induction false} ChainOfSingles(ps: seq<Plan>, i: nat)
    requires i <= |ps|
    requires forall k :: i <= k < |ps| ==> Single(ps[k])
    ensures |Chain(ps, i).adds| <= |ps| - i
    ensures forall j :: i <= j < i + |Chain(ps, i).adds| ==>
              ps[j].fault.None? && |ps[j].adds| == 1 && Chain(ps, i).adds[j - i] == ps[j].adds[0]
    ensures Chain(ps, i).fault.None? ==> |Chain(ps, i).adds| == |ps| - i
    ensures Chain(ps, i).fault.Some? ==> |Chain(ps, i).adds| < |ps| - i && Chain(ps, i).fault == ps[i + |Chain(ps, i).adds|].fault
    decreases |ps| - i
  {
    if i < |ps| && ps[i].fault.None? {
      var rest := Chain(ps, i + 1);
      ChainOfSingles(ps, i + 1);
      var c := Chain(ps, i);
      assert c.adds == ps[i].adds + rest.adds && c.fault == rest.fault;
      assert i + |c.adds| == (i + 1) + |rest.adds|;
      forall j | i <= j < i + |c.adds|
        ensures ps[j].fault.None? && |ps[j].adds| == 1 && c.adds[j - i] == ps[j].adds[0]
      {
        if j > i {
          assert c.adds[j - i] == rest.adds[j - (i + 1)];
        }
      }
    }
  }

  /**
   * A chain of plans each made by `One` from a step result: its k-th
   * addition is the k-th result's, and it covers every step unless a step
   * fails, where it stops with that step's fault.
   */
  lemma ChainOfOnes(ps: seq<Plan>, rs: seq<Result<Add>>)
    requires |ps| == |rs| && forall k :: 0 <= k < |ps| ==> ps[k] == One(rs[k])
    ensures var p := Chain(ps, 0);
            && |p.adds| <= |rs|
            && (forall k :: 0 <= k < |p.adds| ==> rs[k] == Ok(p.adds[k]))
            && (p.fault.None? ==> |p.adds| == |rs|)
            && (p.fault.Some? ==> |p.adds| < |rs| && rs[|p.adds|] == Err(p.fault.value))
  {
    ChainOfSingles(ps, 0);
  }

  /**
   * What holds of every addition and every fault of the plans `ps[i..]`
   * holds of their chain's.
   */
  lemma {:induction false} ChainKeeps(ps: seq<Plan>, i: nat, good: Add -> bool, bad: Fault -> bool)
    requires i <= |ps|
    requires forall k, a :: i <= k < |ps| && a in ps[k].adds ==> good(a)
    requires forall k :: i <= k < |ps| && ps[k].fault.Some? ==> bad(ps[k].fault.value)
    ensures forall a :: a in Chain(ps, i).adds ==> good(a)
    ensures Chain(ps, i).fault.Some? ==> bad(Chain(ps, i).fault.value)
    decreases |ps| - i
  {
    if i < |ps| && ps[i].fault.None? {
      ChainKeeps(ps, i + 1, good, bad);
      assert Chain(ps, i).adds == ps[i].adds + Chain(ps, i + 1).adds;
    }
  }
}
