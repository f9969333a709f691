/**
 * The parallel search of findClustersThatPassFilters (pkg/scheduler/algorithm/generic.go).
 *
 * checkCluster runs once per piece, on any number of workers, as separate steps on shared
 * memory: the filter plugins, the atomic increment, the test of the returned length, then
 * the slot write, or the cancel and the atomic decrement. A run is any list of moves.
 */
module FilterMachine {
  import opened Collections

  /** The merged status of the filter plugins for the cluster of a piece. */
  datatype Outcome = Pass | Fail | Error

  /** Where the call for a piece stands; the last four are its ends. */
  datatype Pc =
    | Idle
    | Adding
    | Holding(length: int)
    | Writing(length: int)
    | Cancelling
    | Subtracting
    | Recording
    | Reporting
    | Stopping
    | Stored(length: int)
    | Dropped
    | Recorded
    | Failed

  datatype Job = Job(outcomes: seq<Outcome>, want: nat)

  /**
   * `slots` holds pieces (the cluster of piece i is at (start + i) % n), `statuses` the pieces
   * entered in the status map, `error` whether the error channel holds an error.
   */
  datatype State = State(
    pcs: seq<Pc>,
    counter: int,
    slots: seq<Option<nat>>,
    cancelled: bool,
    interrupted: bool,
    statuses: set<nat>,
    error: bool)

  /** One step of a piece, or a cancel of the caller's context. */
  datatype Move = Advance(piece: nat) | Interrupt

  function Init(j: Job): State {
    State(seq(|j.outcomes|, _ => Idle), 0, seq(j.want, _ => None), false, false, {}, false)
  }

  predicate Ended(pc: Pc) {
    pc.Stored? || pc.Dropped? || pc.Recorded? || pc.Failed?
  }

  /** What the call does next, given the outcome of its filters and the counter it would increment. */
  function NextPc(pc: Pc, o: Outcome, counter: int, want: nat): Pc {
    match pc
    case Idle => (match o case Pass => Adding case Fail => Recording case Error => Reporting)
    case Adding => Holding(counter + 1)
    case Holding(l) => if l > want then Cancelling else Writing(l)
    case Writing(l) => Stored(l)
    case Cancelling => Subtracting
    case Subtracting => Dropped
    case Recording => Recorded
    case Reporting => Stopping
    case Stopping => Failed
    case _ => pc
  }

  function Next(j: Job, s: State, m: Move): State
    requires |s.pcs| == |j.outcomes|
  {
    match m
    case Interrupt => s.(cancelled := true, interrupted := true)
    case Advance(i) =>
      if i >= |s.pcs| then s
      else
        var pc := s.pcs[i];
        State(
          s.pcs[i := NextPc(pc, j.outcomes[i], s.counter, j.want)],
          s.counter + (if pc.Adding? then 1 else if pc.Subtracting? then -1 else 0),
          if pc.Writing? && 1 <= pc.length <= |s.slots| then s.slots[pc.length - 1 := Some(i)] else s.slots,
          s.cancelled || pc.Cancelling? || pc.Stopping?,
          s.interrupted,
          if pc.Recording? then s.statuses + {i} else s.statuses,
          s.error || pc.Reporting?)
  }

  function Run(j: Job, moves: seq<Move>): (s: State)
    ensures |s.pcs| == |j.outcomes|
  {
    if moves == [] then Init(j) else Next(j, Run(j, moves[..|moves| - 1]), moves[|moves| - 1])
  }

  /**
   * The parallel-for has returned: no call is in flight, and every piece ran if nothing cancelled.
   * Which pieces it skips after a cancel is left open.
   */
  predicate Joined(s: State) {
    && (forall i :: 0 <= i < |s.pcs| ==> s.pcs[i].Idle? || Ended(s.pcs[i]))
    && (!s.cancelled ==> forall i :: 0 <= i < |s.pcs| ==> !s.pcs[i].Idle?)
  }

  // ---------------------------------------------------------------- invariant

  /** The piece has been given a slot within the wanted number. */
  predicate Claims(pc: Pc, want: nat) {
    (pc.Holding? && pc.length <= want) || pc.Writing? || pc.Stored?
  }

  /** The piece's increment went beyond the wanted number and has not been taken back. */
  predicate Overshoots(pc: Pc, want: nat) {
    (pc.Holding? && pc.length > want) || pc.Cancelling? || pc.Subtracting?
  }

  predicate Follows(pc: Pc, o: Outcome) {
    match o
    case Pass => !(pc.Recording? || pc.Recorded? || pc.Reporting? || pc.Stopping? || pc.Failed?)
    case Fail => pc.Idle? || pc.Recording? || pc.Recorded?
    case Error => pc.Idle? || pc.Reporting? || pc.Stopping? || pc.Failed?
  }

  predicate Refused(pc: Pc) {
    pc.Subtracting? || pc.Dropped?
  }

  predicate Reported(pc: Pc) {
    pc.Stopping? || pc.Failed?
  }

  /** `claims[k]` is the piece that was given slot k. */
  ghost predicate ClaimsAre(pcs: seq<Pc>, want: nat, claims: seq<nat>) {
    && |claims| <= want
    && (forall k :: 0 <= k < |claims| ==>
          claims[k] < |pcs| && Claims(pcs[claims[k]], want) && pcs[claims[k]].length == k + 1)
    && (forall i :: 0 <= i < |pcs| && Claims(pcs[i], want) ==>
          1 <= pcs[i].length <= |claims| && claims[pcs[i].length - 1] == i)
  }

  /** `over` are the pieces that overshoot. */
  ghost predicate OverIs(pcs: seq<Pc>, want: nat, over: set<nat>) {
    forall i: nat :: i in over <==> i < |pcs| && Overshoots(pcs[i], want)
  }

  ghost predicate CounterIs(j: Job, s: State, claims: seq<nat>, over: set<nat>) {
    s.counter == |claims| + |over| && (over != {} ==> |claims| == j.want)
  }

  ghost predicate SlotsAre(pcs: seq<Pc>, want: nat, slots: seq<Option<nat>>) {
    && |slots| == want
    && (forall i: nat :: i < |pcs| && pcs[i].Stored? && 1 <= pcs[i].length <= want ==>
          slots[pcs[i].length - 1] == Some(i))
  }

  /** Outcomes, status map, error channel and cancellation agree with the pieces. */
  ghost predicate NotesAre(j: Job, s: State) {
    && |s.pcs| == |j.outcomes|
    && (forall i :: 0 <= i < |s.pcs| ==> Follows(s.pcs[i], j.outcomes[i]))
    && (forall i: nat :: i in s.statuses <==> i < |s.pcs| && s.pcs[i].Recorded?)
    && (s.error <==> exists i :: 0 <= i < |s.pcs| && Reported(s.pcs[i]))
    && (s.interrupted ==> s.cancelled)
    && (forall i :: 0 <= i < |s.pcs| && s.pcs[i].Failed? ==> s.cancelled)
    && (s.cancelled ==> s.interrupted || s.error || exists i :: 0 <= i < |s.pcs| && Refused(s.pcs[i]))
  }

  ghost predicate RefusalsAre(j: Job, s: State, claims: seq<nat>) {
    forall i :: 0 <= i < |s.pcs| && Refused(s.pcs[i]) ==> s.cancelled && |claims| == j.want
  }

  ghost predicate Inv(j: Job, s: State, claims: seq<nat>, over: set<nat>) {
    && NotesAre(j, s) && ClaimsAre(s.pcs, j.want, claims) && OverIs(s.pcs, j.want, over)
    && CounterIs(j, s, claims, over) && SlotsAre(s.pcs, j.want, s.slots) && RefusalsAre(j, s, claims)
  }

  lemma NotesStep(j: Job, s: State, m: Move)
    requires NotesAre(j, s)
    ensures NotesAre(j, Next(j, s, m))
  {
    var s' := Next(j, s, m);
    assert forall k :: 0 <= k < |s.pcs| && Reported(s.pcs[k]) ==> Reported(s'.pcs[k]);
    assert forall k :: 0 <= k < |s.pcs| && Refused(s.pcs[k]) ==> Refused(s'.pcs[k]);
    if m.Advance? && m.piece < |s.pcs| && (s.pcs[m.piece].Reporting? || s.pcs[m.piece].Stopping?) {
      assert Reported(s'.pcs[m.piece]);
    }
    if m.Advance? && m.piece < |s.pcs| && s.pcs[m.piece].Cancelling? {
      assert Refused(s'.pcs[m.piece]);
    }
  }

  lemma ClaimNext(pcs: seq<Pc>, want: nat, claims: seq<nat>, i: nat)
    requires ClaimsAre(pcs, want, claims) && |claims| < want && i < |pcs| && !Claims(pcs[i], want)
    ensures ClaimsAre(pcs[i := Holding(|claims| + 1)], want, claims + [i])
  {
  }

  lemma ClaimsKept(pcs: seq<Pc>, want: nat, claims: seq<nat>, i: nat, pc: Pc)
    requires ClaimsAre(pcs, want, claims) && i < |pcs|
    requires Claims(pc, want) <==> Claims(pcs[i], want)
    requires Claims(pc, want) ==> pc.length == pcs[i].length
    ensures ClaimsAre(pcs[i := pc], want, claims)
  {
  }

  lemma SlotWritten(pcs: seq<Pc>, want: nat, slots: seq<Option<nat>>, claims: seq<nat>, i: nat)
    requires ClaimsAre(pcs, want, claims) && SlotsAre(pcs, want, slots) && i < |pcs| && pcs[i].Writing?
    ensures SlotsAre(pcs[i := Stored(pcs[i].length)], want, slots[pcs[i].length - 1 := Some(i)])
  {
  }

  lemma SlotsKept(pcs: seq<Pc>, want: nat, slots: seq<Option<nat>>, i: nat, pc: Pc)
    requires SlotsAre(pcs, want, slots) && i < |pcs| && (pc.Stored? ==> pc == pcs[i])
    ensures SlotsAre(pcs[i := pc], want, slots)
  {
  }

  lemma NotStoredAnew(pc: Pc, outcome: Outcome, counter: int, want: nat)
    requires !pc.Writing?
    ensures NextPc(pc, outcome, counter, want).Stored? ==> NextPc(pc, outcome, counter, want) == pc
  {
  }

  lemma OtherSlots(j: Job, s: State, i: nat)
    requires |s.pcs| == |j.outcomes| && SlotsAre(s.pcs, j.want, s.slots) && i < |s.pcs| && !s.pcs[i].Writing?
    ensures SlotsAre(Next(j, s, Advance(i)).pcs, j.want, Next(j, s, Advance(i)).slots)
  {
    NotStoredAnew(s.pcs[i], j.outcomes[i], s.counter, j.want);
    SlotsKept(s.pcs, j.want, s.slots, i, NextPc(s.pcs[i], j.outcomes[i], s.counter, j.want));
  }

  lemma WrittenSlots(j: Job, s: State, claims: seq<nat>, i: nat)
    requires |s.pcs| == |j.outcomes| && ClaimsAre(s.pcs, j.want, claims) && SlotsAre(s.pcs, j.want, s.slots)
    requires i < |s.pcs| && s.pcs[i].Writing?
    ensures SlotsAre(Next(j, s, Advance(i)).pcs, j.want, Next(j, s, Advance(i)).slots)
  {
    var length := s.pcs[i].length;
    assert Claims(s.pcs[i], j.want) && 1 <= length <= |claims|;
    assert Next(j, s, Advance(i)).pcs == s.pcs[i := Stored(length)];
    assert Next(j, s, Advance(i)).slots == s.slots[length - 1 := Some(i)];
    SlotWritten(s.pcs, j.want, s.slots, claims, i);
  }

  lemma SlotsStep(j: Job, s: State, claims: seq<nat>, i: nat)
    requires NotesAre(j, s) && ClaimsAre(s.pcs, j.want, claims) && SlotsAre(s.pcs, j.want, s.slots) && i < |s.pcs|
    ensures SlotsAre(Next(j, s, Advance(i)).pcs, j.want, Next(j, s, Advance(i)).slots)
  {
    if s.pcs[i].Writing? {
      WrittenSlots(j, s, claims, i);
    } else {
      OtherSlots(j, s, i);
    }
  }

  lemma OverGrows(pcs: seq<Pc>, want: nat, over: set<nat>, i: nat, pc: Pc) returns (over': set<nat>)
    requires OverIs(pcs, want, over) && i < |pcs|
    ensures OverIs(pcs[i := pc], want, over')
    ensures over' == if Overshoots(pc, want) then over + {i} else over - {i}
  {
    over' := if Overshoots(pc, want) then over + {i} else over - {i};
    forall k: nat ensures k in over' <==> k < |pcs| && Overshoots(pcs[i := pc][k], want) {
      assert k < |pcs| && k != i ==> pcs[i := pc][k] == pcs[k];
    }
  }

  /** An increment below the wanted number is the next claim. */
  lemma ClaimStep(j: Job, s: State, claims: seq<nat>, over: set<nat>, i: nat)
    requires Inv(j, s, claims, over) && i < |s.pcs| && s.pcs[i].Adding? && s.counter < j.want
    ensures Inv(j, Next(j, s, Advance(i)), claims + [i], over)
  {
    NotesStep(j, s, Advance(i));
    SlotsStep(j, s, claims, i);
    RefusalsKept(s.pcs, i, Holding(s.counter + 1));
    assert over == {};
    ClaimNext(s.pcs, j.want, claims, i);
    var over' := OverGrows(s.pcs, j.want, over, i, Holding(s.counter + 1));
  }

  lemma RefusalsKept(pcs: seq<Pc>, i: nat, pc: Pc)
    requires i < |pcs| && !Refused(pc)
    ensures forall k :: 0 <= k < |pcs| && Refused(pcs[i := pc][k]) ==> Refused(pcs[k])
  {
  }

  /** Claims, counter and refusals after a step to pc that claims nothing new. */
  lemma StepKeeps(j: Job, s: State, s': State, claims: seq<nat>, over: set<nat>, i: nat, pc: Pc)
    returns (over': set<nat>)
    requires ClaimsAre(s.pcs, j.want, claims) && OverIs(s.pcs, j.want, over)
    requires CounterIs(j, s, claims, over) && RefusalsAre(j, s, claims)
    requires i < |s.pcs| && s'.pcs == s.pcs[i := pc]
    requires (Claims(pc, j.want) <==> Claims(s.pcs[i], j.want)) && (Claims(pc, j.want) ==> pc.length == s.pcs[i].length)
    requires s'.counter ==
               s.counter + (if Overshoots(pc, j.want) then 1 else 0) - (if Overshoots(s.pcs[i], j.want) then 1 else 0)
    requires Overshoots(pc, j.want) ==> |claims| == j.want
    requires (s.cancelled ==> s'.cancelled) && (Refused(pc) ==> s'.cancelled && |claims| == j.want)
    ensures ClaimsAre(s'.pcs, j.want, claims) && OverIs(s'.pcs, j.want, over')
    ensures CounterIs(j, s', claims, over') && RefusalsAre(j, s', claims)
  {
    ClaimsKept(s.pcs, j.want, claims, i, pc);
    assert i in over <==> Overshoots(s.pcs[i], j.want);
    over' := OverGrows(s.pcs, j.want, over, i, pc);
    assert i in over && Overshoots(pc, j.want) ==> over' == over;
    assert i !in over && !Overshoots(pc, j.want) ==> over' == over;
    forall k | 0 <= k < |s'.pcs| && Refused(s'.pcs[k]) ensures s'.cancelled && |claims| == j.want {
      assert k != i ==> s'.pcs[k] == s.pcs[k];
    }
  }

  /** Any other step leaves the claims as they are; an increment then overshoots. */
  lemma OtherStep(j: Job, s: State, claims: seq<nat>, over: set<nat>, i: nat) returns (over': set<nat>)
    requires Inv(j, s, claims, over) && i < |s.pcs| && (s.pcs[i].Adding? ==> s.counter >= j.want)
    ensures Inv(j, Next(j, s, Advance(i)), claims, over')
  {
    NotesStep(j, s, Advance(i));
    SlotsStep(j, s, claims, i);
    assert i in over <==> Overshoots(s.pcs[i], j.want);
    assert s.counter >= j.want ==> |claims| == j.want;
    over' := StepKeeps(j, s, Next(j, s, Advance(i)), claims, over, i,
                       NextPc(s.pcs[i], j.outcomes[i], s.counter, j.want));
  }

  lemma {:induction false} InvAlways(j: Job, moves: seq<Move>) returns (claims: seq<nat>, over: set<nat>)
    ensures Inv(j, Run(j, moves), claims, over)
  {
    if moves == [] {
      claims, over := [], {};
    } else {
      var m, s := moves[|moves| - 1], Run(j, moves[..|moves| - 1]);
      claims, over := InvAlways(j, moves[..|moves| - 1]);
      if m == Interrupt || m.piece >= |s.pcs| {
        NotesStep(j, s, m);
      } else if s.pcs[m.piece].Adding? && s.counter < j.want {
        ClaimStep(j, s, claims, over, m.piece);
        claims := claims + [m.piece];
      } else {
        over := OtherStep(j, s, claims, over, m.piece);
      }
    }
  }

  // ---------------------------------------------------------------- main results

  /** Piece i has been given slot k. */
  predicate Given(j: Job, s: State, i: nat, k: int) {
    i < |s.pcs| && Claims(s.pcs[i], j.want) && s.pcs[i].length - 1 == k
  }

  ghost predicate Taken(j: Job, s: State, k: int) {
    exists i :: Given(j, s, i, k)
  }

  /**
   * In every interleaving no two pieces are given the same slot, the slots given out are
   * 0, 1, ... without a gap, an increment overshoots only once all wanted slots are given out,
   * and when the search has joined the counter is the number of slots given out.
   */
  lemma SlotsFormPrefix(j: Job, moves: seq<Move>) returns (given: nat)
    ensures given <= j.want
    ensures forall a, b, k :: Given(j, Run(j, moves), a, k) && Given(j, Run(j, moves), b, k) ==> a == b
    ensures forall k :: Taken(j, Run(j, moves), k) <==> 0 <= k < given
    ensures forall i: nat :: i < |Run(j, moves).pcs| && Overshoots(Run(j, moves).pcs[i], j.want) ==> given == j.want
    ensures Joined(Run(j, moves)) ==> Run(j, moves).counter == given
  {
    var claims, over := InvAlways(j, moves);
    var s := Run(j, moves);
    given := |claims|;
    forall k | 0 <= k < given ensures Taken(j, s, k) {
      assert Given(j, s, claims[k], k);
    }
    if Joined(s) {
      assert forall i: nat :: i < |s.pcs| ==> !Overshoots(s.pcs[i], j.want);
      assert over == {};
    }
  }

  function Passing(j: Job): set<nat> {
    set i: nat | i < |j.outcomes| && j.outcomes[i].Pass?
  }

  function Failing(j: Job): set<nat> {
    set i: nat | i < |j.outcomes| && j.outcomes[i].Fail?
  }

  predicate NoErrors(j: Job) {
    forall i :: 0 <= i < |j.outcomes| ==> !j.outcomes[i].Error?
  }

  /** The filled part of the slot array at join: feasibleClusters[:feasibleClustersLen]. */
  ghost predicate Returns(s: State, list: seq<nat>) {
    s.counter == |list| <= |s.slots| && forall k :: 0 <= k < |list| ==> s.slots[k] == Some(list[k])
  }

  /** At join nothing overshoots and every claim has been written. */
  lemma JoinClaims(j: Job, moves: seq<Move>) returns (claims: seq<nat>)
    requires Joined(Run(j, moves))
    ensures Inv(j, Run(j, moves), claims, {})
    ensures Returns(Run(j, moves), claims) && NoDup(claims)
    ensures forall i: nat :: i in claims <==> i < |j.outcomes| && Run(j, moves).pcs[i].Stored?
  {
    var s := Run(j, moves);
    var over;
    claims, over := InvAlways(j, moves);
    forall i: nat ensures i !in over {
      assert i < |s.pcs| ==> !Overshoots(s.pcs[i], j.want);
    }
    assert over == {};
    forall k | 0 <= k < |claims| ensures s.pcs[claims[k]].Stored? && s.slots[k] == Some(claims[k]) {
      assert Claims(s.pcs[claims[k]], j.want);
    }
  }

  /**
   * At join the filled slots are all set, with different passing pieces, and the status map
   * holds failing pieces only; if nothing cancelled, all passing and all failing ones.
   */
  lemma JoinIsSound(j: Job, moves: seq<Move>) returns (list: seq<nat>)
    requires Joined(Run(j, moves))
    ensures Returns(Run(j, moves), list)
    ensures NoDup(list) && ToSet(list) <= Passing(j) && |list| == |ToSet(list)| <= j.want
    ensures Run(j, moves).statuses <= Failing(j)
    ensures !Run(j, moves).cancelled ==>
              ToSet(list) == Passing(j) && Run(j, moves).statuses == Failing(j)
    ensures Run(j, moves).cancelled && !Run(j, moves).error && !Run(j, moves).interrupted ==>
              |list| == j.want && ToSet(list) < Passing(j)
  {
    var s := Run(j, moves);
    list := JoinClaims(j, moves);
    NoDupSize(list);
    if s.cancelled && !s.error && !s.interrupted {
      CancelledLeavesOne(j, s, list);
    }
    if !s.cancelled {
      UncancelledRunsAll(j, s, list);
    }
  }

  /** If only overshooting cancelled, the list is full and leaves a passing piece out. */
  lemma CancelledLeavesOne(j: Job, s: State, list: seq<nat>)
    requires Inv(j, s, list, {}) && s.cancelled && !s.error && !s.interrupted
    requires forall i: nat :: i in list ==> i < |j.outcomes| && s.pcs[i].Stored?
    ensures |list| == j.want && ToSet(list) < Passing(j)
  {
    var i: nat :| i < |s.pcs| && Refused(s.pcs[i]);
    assert Follows(s.pcs[i], j.outcomes[i]);
    assert i in Passing(j) && i !in list;
    forall k | k in list ensures k in Passing(j) {
      assert Follows(s.pcs[k], j.outcomes[k]);
    }
  }

  /** If nothing cancelled, every piece ran to its end. */
  lemma UncancelledRunsAll(j: Job, s: State, list: seq<nat>)
    requires Inv(j, s, list, {}) && Joined(s) && !s.cancelled
    requires forall i: nat :: i in list <==> i < |j.outcomes| && s.pcs[i].Stored?
    ensures ToSet(list) == Passing(j) && s.statuses == Failing(j)
  {
  }

  /** The error channel holds an error only if some cluster's filters failed. */
  lemma ErrorIsReal(j: Job, moves: seq<Move>)
    requires Run(j, moves).error
    ensures !NoErrors(j)
  {
    var _, _ := InvAlways(j, moves);
    var s := Run(j, moves);
    var i :| 0 <= i < |s.pcs| && Reported(s.pcs[i]);
    assert Follows(s.pcs[i], j.outcomes[i]);
  }

  lemma NoErrorNoReport(j: Job, moves: seq<Move>)
    requires NoErrors(j)
    ensures !Run(j, moves).error
  {
    var _, _ := InvAlways(j, moves);
  }

  /**
   * At join, without filter errors and interrupts, exactly min(wanted, passing) different
   * passing clusters are returned.
   */
  lemma JoinFindsEnough(j: Job, moves: seq<Move>) returns (list: seq<nat>)
    requires Joined(Run(j, moves)) && NoErrors(j) && !Run(j, moves).interrupted
    ensures Returns(Run(j, moves), list) && NoDup(list) && ToSet(list) <= Passing(j)
    ensures |list| == Min(j.want, |Passing(j)|)
  {
    list := JoinIsSound(j, moves);
    NoErrorNoReport(j, moves);
    SubsetSize(ToSet(list), Passing(j));
    var _, _ := InvAlways(j, moves);
  }

  /** With as many wanted as pass no increment overshoots. */
  lemma EnoughIsNotCancelled(j: Job, moves: seq<Move>)
    requires Joined(Run(j, moves)) && !Run(j, moves).error && !Run(j, moves).interrupted
    requires j.want >= |Passing(j)|
    ensures !Run(j, moves).cancelled
  {
    var list := JoinIsSound(j, moves);
    if Run(j, moves).cancelled {
      SubsetSize(ToSet(list), Passing(j));
      assert false;
    }
  }

  /**
   * When no more clusters pass than are wanted, which is so for the Replication strategy, an
   * uninterrupted search without errors never cancels: it returns all passing and records all
   * failing clusters.
   */
  lemma WantingAllFindsAll(j: Job, moves: seq<Move>) returns (list: seq<nat>)
    requires Joined(Run(j, moves)) && NoErrors(j) && !Run(j, moves).interrupted
    requires j.want >= |Passing(j)|
    ensures Returns(Run(j, moves), list) && NoDup(list)
    ensures ToSet(list) == Passing(j) && Run(j, moves).statuses == Failing(j)
  {
    list := JoinIsSound(j, moves);
    NoErrorNoReport(j, moves);
    EnoughIsNotCancelled(j, moves);
  }

  /** The call for piece i was made. */
  ghost predicate Examined(j: Job, s: State, i: int) {
    0 <= i < |j.outcomes| && i < |s.pcs| && !s.pcs[i].Idle?
  }

  /** A joined search holds an error exactly when it examined a piece whose filters failed. */
  lemma ErrorIsReported(j: Job, moves: seq<Move>)
    requires Joined(Run(j, moves))
    ensures Run(j, moves).error <==> exists i :: Examined(j, Run(j, moves), i) && j.outcomes[i].Error?
    ensures Run(j, moves).error ==> Run(j, moves).cancelled
  {
    var _, _ := InvAlways(j, moves);
    var s := Run(j, moves);
    if s.error {
      var i :| 0 <= i < |s.pcs| && Reported(s.pcs[i]);
      assert Follows(s.pcs[i], j.outcomes[i]) && Examined(j, s, i);
    }
    if i :| Examined(j, s, i) && j.outcomes[i].Error? {
      assert Follows(s.pcs[i], j.outcomes[i]) && Reported(s.pcs[i]);
    }
  }

  /**
   * When no more clusters pass than are wanted, an uninterrupted search reports an error exactly when
   * the filters of some cluster fail: nothing else can cancel before that one is examined.
   */
  lemma WantingAllReportsErrors(j: Job, moves: seq<Move>)
    requires Joined(Run(j, moves)) && !Run(j, moves).interrupted && j.want >= |Passing(j)|
    ensures Run(j, moves).error <==> !NoErrors(j)
  {
    ErrorIsReported(j, moves);
    var s := Run(j, moves);
    if !s.error {
      EnoughIsNotCancelled(j, moves);
      assert forall i :: 0 <= i < |j.outcomes| ==> Examined(j, s, i);
    }
  }

  // ---------------------------------------------------------------- one worker

  function Repeat(j: Job, s: State, i: nat, times: nat): (r: State)
    requires |s.pcs| == |j.outcomes|
    ensures |r.pcs| == |j.outcomes|
    decreases times
  {
    if times == 0 then s else Repeat(j, Next(j, s, Advance(i)), i, times - 1)
  }

  /**
   * One worker runs pieces 0, 1, ... below m until the context is cancelled, taking `steps` steps
   * for each; six are enough for any piece to end.
   */
  function OneWorker(j: Job, m: nat, steps: nat): (s: State)
    ensures |s.pcs| == |j.outcomes|
  {
    if m == 0 then Init(j)
    else
      var s := OneWorker(j, m - 1, steps);
      if s.cancelled then s else Repeat(j, s, m - 1, steps)
  }

  lemma {:induction false} RepeatIsRun(j: Job, moves: seq<Move>, i: nat, times: nat) returns (moves': seq<Move>)
    ensures Repeat(j, Run(j, moves), i, times) == Run(j, moves')
    decreases times
  {
    moves' := moves;
    if times > 0 {
      assert (moves + [Advance(i)])[..|moves|] == moves;
      moves' := RepeatIsRun(j, moves + [Advance(i)], i, times - 1);
    }
  }

  /** The one-worker search is one of the runs. */
  lemma {:induction false} OneWorkerIsRun(j: Job, m: nat, steps: nat) returns (moves: seq<Move>)
    ensures OneWorker(j, m, steps) == Run(j, moves)
  {
    if m == 0 {
      moves := [];
    } else {
      moves := OneWorkerIsRun(j, m - 1, steps);
      if !OneWorker(j, m - 1, steps).cancelled {
        moves := RepeatIsRun(j, moves, m - 1, steps);
      }
    }
  }

  lemma {:induction false} RestRepeats(j: Job, s: State, i: nat, times: nat)
    requires |s.pcs| == |j.outcomes| && i < |s.pcs| && Ended(s.pcs[i])
    ensures Repeat(j, s, i, times) == s
    decreases times
  {
    if times > 0 {
      assert s.pcs[i := s.pcs[i]] == s.pcs;
      assert Next(j, s, Advance(i)) == s;
      RestRepeats(j, s, i, times - 1);
    }
  }

  lemma RecordPiece(j: Job, s: State, i: nat, steps: nat)
    requires |s.pcs| == |j.outcomes| && i < |s.pcs| && s.pcs[i].Idle? && j.outcomes[i].Fail? && steps >= 6
    ensures Repeat(j, s, i, steps) == s.(statuses := s.statuses + {i}, pcs := s.pcs[i := Recorded])
  {
    var a := Next(j, s, Advance(i));
    var b := Next(j, a, Advance(i));
    assert b == s.(statuses := s.statuses + {i}, pcs := s.pcs[i := Recorded]);
    assert Repeat(j, s, i, steps) == Repeat(j, a, i, steps - 1) == Repeat(j, b, i, steps - 2);
    RestRepeats(j, b, i, steps - 2);
  }

  lemma HoldPiece(j: Job, s: State, i: nat, steps: nat) returns (c: State)
    requires |s.pcs| == |j.outcomes| && i < |s.pcs| && s.pcs[i].Idle? && j.outcomes[i].Pass? && steps >= 6
    ensures c == s.(counter := s.counter + 1,
                    pcs := s.pcs[i := if s.counter + 1 > j.want then Cancelling else Writing(s.counter + 1)])
    ensures Repeat(j, s, i, steps) == Repeat(j, c, i, steps - 3)
  {
    var a := Next(j, s, Advance(i));
    var b := Next(j, a, Advance(i));
    c := Next(j, b, Advance(i));
    assert a.pcs == s.pcs[i := Adding];
    assert b.pcs == s.pcs[i := Holding(s.counter + 1)];
    assert c.pcs == s.pcs[i := if s.counter + 1 > j.want then Cancelling else Writing(s.counter + 1)];
    assert Repeat(j, s, i, steps) == Repeat(j, a, i, steps - 1) == Repeat(j, b, i, steps - 2)
        == Repeat(j, c, i, steps - 3);
  }

  lemma PassPiece(j: Job, s: State, i: nat, steps: nat)
    requires |s.pcs| == |j.outcomes| && i < |s.pcs| && s.pcs[i].Idle? && j.outcomes[i].Pass? && steps >= 6
    ensures var r := Repeat(j, s, i, steps);
            && r.statuses == s.statuses
            && (0 <= s.counter < j.want ==>
                  r.counter == s.counter + 1 && r.cancelled == s.cancelled
                      && r.pcs == s.pcs[i := Stored(s.counter + 1)])
            && (s.counter >= j.want ==> r.counter == s.counter && r.cancelled && r.pcs == s.pcs[i := Dropped])
  {
    var c := HoldPiece(j, s, i, steps);
    var d := Next(j, c, Advance(i));
    assert Repeat(j, c, i, steps - 3) == Repeat(j, d, i, steps - 4);
    if s.counter < j.want {
      assert d.pcs == s.pcs[i := Stored(s.counter + 1)];
      RestRepeats(j, d, i, steps - 4);
    } else {
      var e := Next(j, d, Advance(i));
      assert e.pcs == s.pcs[i := Dropped];
      assert Repeat(j, d, i, steps - 4) == Repeat(j, e, i, steps - 5);
      RestRepeats(j, e, i, steps - 5);
    }
  }

  predicate Kept(pc: Pc) {
    pc.Stored? || pc.Recorded?
  }

  /**
   * The first `processed` pieces are recorded, as many as slots and statuses together; those from m
   * on have not begun.
   */
  ghost predicate InOrder(s: State, m: nat, processed: nat) {
    && processed == s.counter + |s.statuses| && processed <= m && 0 <= s.counter && (s.cancelled || processed == m)
    && (forall i: nat :: i in s.statuses ==> i < m)
    && (forall i :: 0 <= i < |s.pcs| ==> (Kept(s.pcs[i]) <==> i < processed))
    && (forall i :: m <= i < |s.pcs| ==> s.pcs[i].Idle?)
  }

  lemma PassInOrder(j: Job, s: State, m: nat, steps: nat, processed: nat)
    requires InOrder(s, m, processed) && !s.cancelled && |s.pcs| == |j.outcomes| && m < |s.pcs|
    requires j.outcomes[m].Pass? && steps >= 6
    ensures InOrder(Repeat(j, s, m, steps), m + 1, if s.counter < j.want then processed + 1 else processed)
  {
    PassPiece(j, s, m, steps);
  }

  lemma FailInOrder(j: Job, s: State, m: nat, steps: nat, processed: nat)
    requires InOrder(s, m, processed) && !s.cancelled && |s.pcs| == |j.outcomes| && m < |s.pcs|
    requires j.outcomes[m].Fail? && steps >= 6
    ensures InOrder(Repeat(j, s, m, steps), m + 1, processed + 1)
  {
    RecordPiece(j, s, m, steps);
    assert m !in s.statuses;
  }

  /**
   * With one worker the recorded clusters are the first ones of the cycle, and their number,
   * by which the start index moves on, points at the first cluster not recorded.
   */
  lemma {:induction false} OneWorkerStopsInOrder(j: Job, m: nat, steps: nat) returns (processed: nat)
    requires NoErrors(j) && m <= |j.outcomes| && steps >= 6
    ensures InOrder(OneWorker(j, m, steps), m, processed)
  {
    processed := 0;
    if m > 0 {
      processed := OneWorkerStopsInOrder(j, m - 1, steps);
      var s := OneWorker(j, m - 1, steps);
      if !s.cancelled {
        match j.outcomes[m - 1]
        case Pass =>
          PassInOrder(j, s, m - 1, steps, processed);
          processed := if s.counter < j.want then processed + 1 else processed;
        case Fail =>
          FailInOrder(j, s, m - 1, steps, processed);
          processed := processed + 1;
      }
    }
  }
}
