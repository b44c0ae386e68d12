/**
 The per-year decode gates (internal/cache/decoded_year.go): one token, counted
 references, and a record that is deleted with its last reference.
 */
module DecodeGates {
  import opened Basics
  import opened DecodedYearProtocol

  // ------------------------------------------------------------- over all interleavings

  /** The reader is past the gate's door and has not yet dropped its reference. */
  predicate Inside(p: Phase) {
    p.Waiting? || p.Holding? || p.Decoding? || p.Parsed? || p.Returning? || p.Leaving?
  }

  predicate HasRef(p: Phase, gate: nat) {
    Inside(p) && p.gate == gate
  }

  predicate HasToken(p: Phase, gate: nat) {
    HasRef(p, gate) && !p.Waiting? && !p.Leaving?
  }

  function RefHolders(readers: map<int, Reader>, gate: nat): set<int> {
    set r | r in readers && HasRef(readers[r].phase, gate)
  }

  function TokenHolders(readers: map<int, Reader>, gate: nat): set<int> {
    set r | r in readers && HasToken(readers[r].phase, gate)
  }

  /** The gate's counters agree with the readers, and the table holds exactly the gates in use. */
  ghost predicate GateSound(s: State, g: nat)
    requires g in s.gates
  {
    && s.gates[g].refs == |RefHolders(s.readers, g)|
    && |TokenHolders(s.readers, g)| == (if s.gates[g].token then 0 else 1)
    && (s.gates[g].refs > 0 <==> s.gates[g].year in s.current && s.current[s.gates[g].year] == g)
  }

  predicate TableSound(s: State) {
    forall y :: y in s.current ==>
      s.current[y] in s.gates && s.gates[s.current[y]].year == y && s.gates[s.current[y]].refs > 0
  }

  predicate Placed(s: State, rd: Reader) {
    Inside(rd.phase) ==> rd.phase.gate in s.gates && s.gates[rd.phase.gate].year == rd.year
  }

  ghost predicate GatesHold(s: State) {
    && (forall g :: g in s.gates ==> GateSound(s, g))
    && TableSound(s)
    && (forall r :: r in s.readers ==> Placed(s, s.readers[r]))
  }

  lemma RefsAfter(readers: map<int, Reader>, r: int, rd: Reader, g: nat)
    ensures |RefHolders(readers[r := rd], g)| ==
            |RefHolders(readers, g)| + (if HasRef(rd.phase, g) then 1 else 0)
                                     - (if r in readers && HasRef(readers[r].phase, g) then 1 else 0)
  {
    var refs := RefHolders(readers, g);
    assert RefHolders(readers[r := rd], g) == if HasRef(rd.phase, g) then refs + {r} else refs - {r};
  }

  lemma TokensAfter(readers: map<int, Reader>, r: int, rd: Reader, g: nat)
    ensures |TokenHolders(readers[r := rd], g)| ==
            |TokenHolders(readers, g)| + (if HasToken(rd.phase, g) then 1 else 0)
                                       - (if r in readers && HasToken(readers[r].phase, g) then 1 else 0)
  {
    var tokens := TokenHolders(readers, g);
    assert TokenHolders(readers[r := rd], g) == if HasToken(rd.phase, g) then tokens + {r} else tokens - {r};
  }

  /** How replacing one reader's phase changes the two counts of one gate. */
  lemma CountsAfter(readers: map<int, Reader>, r: int, rd: Reader, g: nat)
    ensures |RefHolders(readers[r := rd], g)| ==
            |RefHolders(readers, g)| + (if HasRef(rd.phase, g) then 1 else 0)
                                     - (if r in readers && HasRef(readers[r].phase, g) then 1 else 0)
    ensures |TokenHolders(readers[r := rd], g)| ==
            |TokenHolders(readers, g)| + (if HasToken(rd.phase, g) then 1 else 0)
                                       - (if r in readers && HasToken(readers[r].phase, g) then 1 else 0)
  {
    RefsAfter(readers, r, rd, g);
    TokensAfter(readers, r, rd, g);
  }

  lemma UnusedGateIsFree(s: State, g: nat)
    requires GatesHold(s) && g !in s.gates
    ensures RefHolders(s.readers, g) == {} && TokenHolders(s.readers, g) == {}
  {
    assert forall r :: r in s.readers ==> Placed(s, s.readers[r]);
    assert forall r :: r !in RefHolders(s.readers, g) && r !in TokenHolders(s.readers, g);
  }

  /** The reader at hand is counted: its gate is the one its year's table slot holds. */
  lemma OwnGate(s: State, r: int)
    requires GatesHold(s) && r in s.readers && Inside(s.readers[r].phase)
    ensures var g := s.readers[r].phase.gate;
            && g in s.gates && s.gates[g].refs > 0
            && s.readers[r].year in s.current && s.current[s.readers[r].year] == g
    ensures HasToken(s.readers[r].phase, s.readers[r].phase.gate) ==> !s.gates[s.readers[r].phase.gate].token
  {
    var g := s.readers[r].phase.gate;
    assert Placed(s, s.readers[r]);
    assert GateSound(s, g);
    assert r in RefHolders(s.readers, g);
    if HasToken(s.readers[r].phase, g) {
      assert r in TokenHolders(s.readers, g);
    }
  }

  /** The door: the first reader creates its year's gate, later ones find it. */
  lemma EnterKeepsGateSound(env: Env, s: State, r: int, move: Move, g: nat)
    requires GatesHold(s) && r in s.readers && CanMove(s, s.readers[r].phase, move) && move.EnterGate?
    requires g in MoveNext(env, s, r, move).gates
    ensures GateSound(MoveNext(env, s, r, move), g)
  {
    CountsAfter(s.readers, r, MoveNext(env, s, r, move).readers[r], g);
    if g in s.gates {
      assert GateSound(s, g);
    } else {
      UnusedGateIsFree(s, g);
    }
  }

  lemma DropKeepsGateSound(env: Env, s: State, r: int, g: nat)
    requires GatesHold(s) && r in s.readers && CanMove(s, s.readers[r].phase, DropRef) && g in s.gates
    ensures GateSound(MoveNext(env, s, r, DropRef), g)
  {
    CountsAfter(s.readers, r, MoveNext(env, s, r, DropRef).readers[r], g);
    OwnGate(s, r);
    assert GateSound(s, g);
  }

  /** No other move adds or drops a reference. */
  lemma StayKeepsGateSound(env: Env, s: State, r: int, move: Move, g: nat)
    requires GatesHold(s) && r in s.readers && CanMove(s, s.readers[r].phase, move)
    requires !move.EnterGate? && !move.DropRef? && g in s.gates
    ensures GateSound(MoveNext(env, s, r, move), g)
  {
    var s' := MoveNext(env, s, r, move);
    CountsAfter(s.readers, r, s'.readers[r], g);
    if Inside(s.readers[r].phase) {
      OwnGate(s, r);
    }
    assert GateSound(s, g) && s'.current == s.current;
  }

  lemma MoveKeepsGateSound(env: Env, s: State, r: int, move: Move, g: nat)
    requires GatesHold(s) && r in s.readers && CanMove(s, s.readers[r].phase, move)
    requires g in MoveNext(env, s, r, move).gates
    ensures GateSound(MoveNext(env, s, r, move), g)
  {
    match move
    case EnterGate(_) => EnterKeepsGateSound(env, s, r, move, g);
    case DropRef => DropKeepsGateSound(env, s, r, g);
    case _ => StayKeepsGateSound(env, s, r, move, g);
  }

  lemma MoveKeepsTable(env: Env, s: State, r: int, move: Move)
    requires GatesHold(s) && r in s.readers && CanMove(s, s.readers[r].phase, move)
    ensures TableSound(MoveNext(env, s, r, move))
  {
    var s' := MoveNext(env, s, r, move);
    var year, p := s.readers[r].year, s.readers[r].phase;
    if Inside(p) {
      OwnGate(s, r);
    }
    forall y | y in s'.current
      ensures s'.current[y] in s'.gates && s'.gates[s'.current[y]].year == y && s'.gates[s'.current[y]].refs > 0
    {
      if move.EnterGate? && y == year {
        RefsNonNegative(s, GateFor(s, year, move.serial));
      } else {
        assert y in s.current && s'.current[y] == s.current[y];
      }
    }
  }

  lemma RefsNonNegative(s: State, g: nat)
    requires GatesHold(s)
    ensures g in s.gates ==> 0 <= s.gates[g].refs
  {
    if g in s.gates { assert GateSound(s, g); }
  }

  lemma MoveKeepsPlaced(env: Env, s: State, r: int, move: Move, q: int)
    requires GatesHold(s) && r in s.readers && CanMove(s, s.readers[r].phase, move)
    requires q in s.readers
    ensures Placed(MoveNext(env, s, r, move), MoveNext(env, s, r, move).readers[q])
  {
    assert Placed(s, s.readers[q]) && Placed(s, s.readers[r]);
  }

  lemma MoveKeepsGates(env: Env, s: State, r: int, move: Move)
    requires GatesHold(s) && r in s.readers && CanMove(s, s.readers[r].phase, move)
    ensures GatesHold(MoveNext(env, s, r, move))
  {
    var s' := MoveNext(env, s, r, move);
    forall g | g in s'.gates ensures GateSound(s', g) {
      MoveKeepsGateSound(env, s, r, move, g);
    }
    MoveKeepsTable(env, s, r, move);
    forall q | q in s'.readers ensures Placed(s', s'.readers[q]) {
      MoveKeepsPlaced(env, s, r, move, q);
    }
  }

  lemma EnterKeepsGates(env: Env, s: State, step: Step)
    requires GatesHold(s) && Enabled(s, step) && step.Enter?
    ensures GatesHold(Next(env, s, step))
  {
    var s' := Next(env, s, step);
    forall g | g in s'.gates ensures GateSound(s', g) {
      assert GateSound(s, g);
      CountsAfter(s.readers, step.r, s'.readers[step.r], g);
    }
    assert forall q :: q in s.readers ==> Placed(s, s.readers[q]);
  }

  /** The gates look only at the readers, the records and the table. */
  lemma SameGatesHold(s: State, s': State)
    requires GatesHold(s) && s'.readers == s.readers && s'.gates == s.gates && s'.current == s.current
    ensures GatesHold(s')
  {
    forall g | g in s'.gates ensures GateSound(s', g) {
      assert GateSound(s, g);
    }
    forall q | q in s'.readers ensures Placed(s', s'.readers[q]) {
      assert Placed(s, s.readers[q]);
    }
  }

  lemma GatesStep(env: Env, s: State, step: Step)
    requires GatesHold(s) && Enabled(s, step)
    ensures GatesHold(Next(env, s, step))
  {
    match step
    case Advance(r, move) => MoveKeepsGates(env, s, r, move);
    case Enter(_, _) => EnterKeepsGates(env, s, step);
    case _ => SameGatesHold(s, Next(env, s, step));
  }

  lemma {:induction false} GatesRun(env: Env, s: State, steps: seq<Step>)
    requires GatesHold(s) && Runs(env, s, steps)
    ensures GatesHold(After(env, s, steps))
    decreases |steps|
  {
    if steps != [] {
      GatesStep(env, s, steps[0]);
      GatesRun(env, Next(env, s, steps[0]), steps[1..]);
    }
  }

  /** At most one reader of a year holds its token, so at most one decode of a year is in progress. */
  lemma OneDecodePerYear(env: Env, db: map<int, Bytes>, steps: seq<Step>, q: int, r: int)
    requires Runs(env, Initial(db), steps)
    requires var s := After(env, Initial(db), steps);
             && q in s.readers && r in s.readers && s.readers[q].year == s.readers[r].year
             && Inside(s.readers[q].phase) && HasToken(s.readers[q].phase, s.readers[q].phase.gate)
             && Inside(s.readers[r].phase) && HasToken(s.readers[r].phase, s.readers[r].phase.gate)
    ensures q == r
  {
    GatesRun(env, Initial(db), steps);
    var s := After(env, Initial(db), steps);
    OwnGate(s, q);
    OwnGate(s, r);
    var g := s.readers[r].phase.gate;
    assert GateSound(s, g);
    if q != r {
      assert {q, r} <= TokenHolders(s.readers, g);
      SubsetSize({q, r}, TokenHolders(s.readers, g));
    }
  }

  /** Giving the token back never blocks: the channel of capacity one is empty. */
  lemma ReturnNeverBlocks(env: Env, db: map<int, Bytes>, steps: seq<Step>, r: int)
    requires Runs(env, Initial(db), steps)
    requires r in After(env, Initial(db), steps).readers
    requires After(env, Initial(db), steps).readers[r].phase.Returning?
    ensures var s := After(env, Initial(db), steps);
            s.readers[r].phase.gate in s.gates && !s.gates[s.readers[r].phase.gate].token
  {
    GatesRun(env, Initial(db), steps);
    OwnGate(After(env, Initial(db), steps), r);
  }

  predicate Occupied(s: State, year: int) {
    exists r :: r in s.readers && s.readers[r].year == year && Inside(s.readers[r].phase)
  }

  /**
   A year has a gate record exactly while some reader is inside: waiting,
   holding the token, or about to drop its reference. So no record outlives
   its readers.
   */
  lemma RecordIffOccupied(env: Env, db: map<int, Bytes>, steps: seq<Step>, year: int)
    requires Runs(env, Initial(db), steps)
    ensures year in After(env, Initial(db), steps).current <==> Occupied(After(env, Initial(db), steps), year)
  {
    GatesRun(env, Initial(db), steps);
    var s := After(env, Initial(db), steps);
    if year in s.current {
      var g := s.current[year];
      assert GateSound(s, g);
      var holders := RefHolders(s.readers, g);
      assert |holders| > 0 && holders != {};
      var r := Member(holders);
      assert Placed(s, s.readers[r]);
    }
    if Occupied(s, year) {
      var r :| r in s.readers && s.readers[r].year == year && Inside(s.readers[r].phase);
      OwnGate(s, r);
    }
  }

  /** The year has a record although nobody waits for its token or holds it. */
  predicate RecordAlone(s: State, year: int) {
    year in s.current && forall r :: r in s.readers ==> s.readers[r].phase.Leaving?
  }

  lemma StepThen(env: Env, s: State, step: Step, rest: seq<Step>)
    requires Enabled(s, step) && Runs(env, Next(env, s, step), rest)
    ensures Runs(env, s, [step] + rest) && After(env, s, [step] + rest) == After(env, Next(env, s, step), rest)
  {
    assert ([step] + rest)[1..] == rest;
  }

  lemma AbandonedAtGate(env: Env, s: State)
    requires s.readers.Keys == {1} && s.readers[1].year == 2024 && s.readers[1].phase.Missed?
    requires s.gates == map[] && s.current == map[]
    ensures Runs(env, s, [Advance(1, EnterGate(0)), Advance(1, AbandonWait)])
    ensures RecordAlone(After(env, s, [Advance(1, EnterGate(0)), Advance(1, AbandonWait)]), 2024)
  {
    var s' := Next(env, s, Advance(1, EnterGate(0)));
    StepThen(env, s', Advance(1, AbandonWait), []);
    StepThen(env, s, Advance(1, EnterGate(0)), [Advance(1, AbandonWait)]);
  }

  /** A record can outlive both the waiters for its token and its holder: an abandoned wait leaves one with neither. */
  lemma RecordWithoutWaiterOrHolder(env: Env, raw: Bytes)
    ensures var steps := [Enter(1, 2024), Advance(1, Capture), Advance(1, ReadRow(true)), Advance(1, FirstLookup(false))]
                         + [Advance(1, EnterGate(0)), Advance(1, AbandonWait)];
            Runs(env, Initial(map[2024 := raw]), steps) && RecordAlone(After(env, Initial(map[2024 := raw]), steps), 2024)
  {
    var late := [Advance(1, EnterGate(0)), Advance(1, AbandonWait)];
    var s0 := Initial(map[2024 := raw]);
    var s1 := Next(env, s0, Enter(1, 2024));
    var s2 := Next(env, s1, Advance(1, Capture));
    var s3 := Next(env, s2, Advance(1, ReadRow(true)));
    AbandonedAtGate(env, Next(env, s3, Advance(1, FirstLookup(false))));
    StepThen(env, s3, Advance(1, FirstLookup(false)), late);
    StepThen(env, s2, Advance(1, ReadRow(true)), [Advance(1, FirstLookup(false))] + late);
    StepThen(env, s1, Advance(1, Capture), [Advance(1, ReadRow(true))] + ([Advance(1, FirstLookup(false))] + late));
    StepThen(env, s0, Enter(1, 2024),
      [Advance(1, Capture)] + ([Advance(1, ReadRow(true))] + ([Advance(1, FirstLookup(false))] + late)));
    assert [Enter(1, 2024), Advance(1, Capture), Advance(1, ReadRow(true)), Advance(1, FirstLookup(false))] + late
        == [Enter(1, 2024)] + ([Advance(1, Capture)] + ([Advance(1, ReadRow(true))] + ([Advance(1, FirstLookup(false))] + late)));
  }

  // ------------------------------------------------------------- the gate objects

  /** A gate as its year sees it: is the token in the channel, and how many references are out. */
  datatype Slot = Slot(token: bool, refs: int)

  function EnterSlots(t: map<int, Slot>, year: int): map<int, Slot> {
    t[year := if year in t then t[year].(refs := t[year].refs + 1) else Slot(true, 1)]
  }

  function UnrefSlots(t: map<int, Slot>, year: int): map<int, Slot>
    requires year in t
  {
    if t[year].refs == 1 then t - {year} else t[year := t[year].(refs := t[year].refs - 1)]
  }

  class DecodeGate {
    var token: bool
    var refs: int

    constructor ()
      ensures token && refs == 0
    {
      token, refs := true, 0;
    }
  }

  class DecodeGateTable {
    var gates: map<int, DecodeGate>

    /** Two years never share a gate object, and a gate in the table is referenced. */
    ghost predicate Valid()
      reads this, gates.Values
    {
      && (forall y, z :: y in gates && z in gates && y != z ==> gates[y] != gates[z])
      && (forall y :: y in gates ==> gates[y].refs > 0)
    }

    ghost function View(): map<int, Slot>
      reads this, gates.Values
    {
      map y | y in gates :: Slot(gates[y].token, gates[y].refs)
    }

    constructor ()
      ensures Valid() && View() == map[]
    {
      gates := map[];
    }

    /** The first critical section of `acquire`. */
    method Enter(year: int) returns (gate: DecodeGate)
      requires Valid()
      modifies this, gates.Values
      ensures Valid() && year in gates && gates[year] == gate
      ensures View() == EnterSlots(old(View()), year)
      ensures forall y :: y in old(gates) ==> y in gates && gates[y] == old(gates[y])
    {
      if year in gates {
        gate := gates[year];
      } else {
        gate := new DecodeGate();
        gates := gates[year := gate];
      }
      assert forall y :: y in gates && y != year ==> y in old(gates) && gates[y] != gate;
      gate.refs := gate.refs + 1;
    }

    /** The receive and the send on the gate's channel of capacity one. */
    method Exchange(year: int, gate: DecodeGate, token: bool)
      requires Valid() && year in gates && gates[year] == gate
      requires gate.token != token
      modifies gate
      ensures Valid()
      ensures View() == old(View())[year := Slot(token, old(gate.refs))]
    {
      assert forall y :: y in gates && y != year ==> gates[y] != gate;
      gate.token := token;
    }

    /** `unref`: the record goes with its last reference. */
    method Unref(year: int, gate: DecodeGate)
      requires Valid() && year in gates && gates[year] == gate
      modifies this, gate
      ensures Valid()
      ensures View() == UnrefSlots(old(View()), year)
    {
      assert forall y :: y in gates && y != year ==> gates[y] != gate;
      gate.refs := gate.refs - 1;
      if gate.refs == 0 {
        gates := gates - {year};
      }
    }
  }

  function Slots(s: State): map<int, Slot>
    requires TableSound(s)
  {
    map y | y in s.current :: Slot(s.gates[s.current[y]].token, s.gates[s.current[y]].refs)
  }

  /** The precondition the gate objects' methods ask of each move. */
  predicate SlotReady(t: map<int, Slot>, year: int, move: Move) {
    match move
    case TakeToken => year in t && t[year].token
    case ReturnToken => year in t && !t[year].token
    case DropRef => year in t
    case _ => true
  }

  /** What those methods do to the table. */
  function NextSlots(t: map<int, Slot>, year: int, move: Move): map<int, Slot>
    requires SlotReady(t, year, move)
  {
    match move
    case EnterGate(_) => EnterSlots(t, year)
    case TakeToken => t[year := t[year].(token := false)]
    case ReturnToken => t[year := t[year].(token := true)]
    case DropRef => UnrefSlots(t, year)
    case _ => t
  }

  /**
   In every run the gate a reader captured is still its year's gate, so the
   protocol moves the table exactly as the gate objects' methods do, and each
   call meets its precondition.
   */
  lemma GateMovesMatch(env: Env, s: State, r: int, move: Move)
    requires GatesHold(s) && r in s.readers && CanMove(s, s.readers[r].phase, move)
    ensures TableSound(MoveNext(env, s, r, move))
    ensures SlotReady(Slots(s), s.readers[r].year, move)
    ensures Slots(MoveNext(env, s, r, move)) == NextSlots(Slots(s), s.readers[r].year, move)
  {
    MoveKeepsTable(env, s, r, move);
    OwnSlot(env, s, r, move);
    OtherSlots(env, s, r, move);
    OneSlotDecides(Slots(s), Slots(MoveNext(env, s, r, move)), s.readers[r].year, move);
  }

  /** A move touches no slot but its year's. */
  lemma OneSlotDecides(t: map<int, Slot>, t': map<int, Slot>, year: int, move: Move)
    requires SlotReady(t, year, move)
    requires var u := NextSlots(t, year, move); (year in t' <==> year in u) && (year in t' ==> t'[year] == u[year])
    requires forall y :: y != year ==> (y in t' <==> y in t) && (y in t ==> t'[y] == t[y])
    ensures t' == NextSlots(t, year, move)
  {
    var u := NextSlots(t, year, move);
    assert forall y :: y in t' <==> y in u;
    assert forall y :: y in t' ==> t'[y] == u[y];
  }

  lemma OwnSlot(env: Env, s: State, r: int, move: Move)
    requires GatesHold(s) && r in s.readers && CanMove(s, s.readers[r].phase, move)
    requires TableSound(MoveNext(env, s, r, move))
    ensures SlotReady(Slots(s), s.readers[r].year, move)
    ensures var year, t' := s.readers[r].year, Slots(MoveNext(env, s, r, move));
            var u := NextSlots(Slots(s), year, move);
            (year in t' <==> year in u) && (year in t' ==> t'[year] == u[year])
  {
    if Inside(s.readers[r].phase) {
      OwnGate(s, r);
    }
  }

  lemma OtherSlots(env: Env, s: State, r: int, move: Move)
    requires GatesHold(s) && r in s.readers && CanMove(s, s.readers[r].phase, move)
    requires TableSound(MoveNext(env, s, r, move))
    ensures var t, t' := Slots(s), Slots(MoveNext(env, s, r, move));
            forall y :: y != s.readers[r].year ==> (y in t' <==> y in t) && (y in t ==> t'[y] == t[y])
  {
    var s' := MoveNext(env, s, r, move);
    forall y | y != s.readers[r].year
      ensures y in s'.current <==> y in s.current
      ensures y in s.current ==> s'.current[y] == s.current[y] && s'.gates[s'.current[y]] == s.gates[s.current[y]]
    {
      if y in s.current {
        OtherGate(env, s, r, move, s.current[y]);
      }
    }
  }

  /** A move changes no gate of another year. */
  lemma OtherGate(env: Env, s: State, r: int, move: Move, g: nat)
    requires GatesHold(s) && r in s.readers && CanMove(s, s.readers[r].phase, move)
    requires g in s.gates && s.gates[g].year != s.readers[r].year
    ensures g in MoveNext(env, s, r, move).gates && MoveNext(env, s, r, move).gates[g] == s.gates[g]
  {
    if Inside(s.readers[r].phase) {
      OwnGate(s, r);
      assert Placed(s, s.readers[r]);
    }
  }
}
