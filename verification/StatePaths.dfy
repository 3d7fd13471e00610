/** Locating a table of states inside a machine document by the tokens of a pointer. */
module StatePaths {
  import opened Entries
  import opened Names

  datatype StateDef =
    | Leaf(body: string)
    | Parallel(branches: seq<Machine>)
    | MapState(processor: Option<Machine>)

  datatype Machine = Machine(states: Table)

  type Table = map<string, StateDef>

  datatype PathError = Malformed | Missing(what: string)

  datatype Result<+T> = Ok(value: T) | Err(error: PathError)

  const STATES := "States"
  const BRANCHES := "Branches"
  const ITEM_PROCESSOR := "ItemProcessor"

  // ---------- Structural descent ----------

  /** One step down the document: into a Parallel's branch, or into a Map's item processor. */
  datatype Move = IntoBranch(name: string, index: nat) | IntoItem(name: string)

  function Child(t: Table, move: Move): Option<Table>
  {
    if move.name !in t then None
    else
      match (move, t[move.name])
      case (IntoBranch(_, index), Parallel(branches)) =>
        if index < |branches| then Some(branches[index].states) else None
      case (IntoItem(_), MapState(Some(processor))) => Some(processor.states)
      case _ => None
  }

  function Descend(t: Table, moves: seq<Move>): Option<Table>
    decreases |moves|
  {
    if moves == [] then Some(t)
    else
      match Child(t, moves[0])
      case None => None
      case Some(child) => Descend(child, moves[1..])
  }

  /** `usize::from_str` on a 64-bit target: an optional plus sign and an in-range digit string. */
  function ParseUsize(s: string): Option<nat>
  {
    if s != "" && s[0] == '+' then ParseU64(s[1..]) else ParseU64(s)
  }

  /** The first tokens spell this move: how many they are. */
  function Width(move: Move): nat { if move.IntoBranch? then 4 else 3 }

  ghost predicate SpellsMove(tokens: seq<string>, move: Move)
  {
    && Width(move) <= |tokens| && tokens[0] == STATES && tokens[1] == move.name
    && match move
       case IntoBranch(_, index) => tokens[2] == BRANCHES && ParseUsize(tokens[3]) == Some(index)
       case IntoItem(_) => tokens[2] == ITEM_PROCESSOR
  }

  /** The tokens spell the moves, one after the other, with nothing left but perhaps a last opener. */
  ghost predicate Spells(tokens: seq<string>, moves: seq<Move>)
  {
    if moves == [] then tokens == [] || tokens == [STATES]
    else SpellsMove(tokens, moves[0]) && Spells(tokens[Width(moves[0])..], moves[1..])
  }

  // ---------- The walk ----------

  /** One iteration of the walk. */
  datatype Stride = Done(table: Table) | Down(table: Table, used: nat) | Fail(error: PathError)

  function Step(t: Table, tokens: seq<string>): (r: Stride)
    ensures r.Down? ==> 0 < r.used <= |tokens|
  {
    if |tokens| == 0 then Done(t)
    else if tokens[0] != STATES then Fail(Malformed)
    else if |tokens| == 1 then Done(t)
    else if tokens[1] !in t then Fail(Missing(tokens[1]))
    else
      match t[tokens[1]]
      case Parallel(branches) =>
        if |tokens| < 3 || tokens[2] != BRANCHES then Fail(Malformed)
        else if |tokens| < 4 then Fail(Missing("branch index"))
        else
          (match ParseUsize(tokens[3])
           case None => Fail(Malformed)
           case Some(index) => if index < |branches| then Down(branches[index].states, 4) else Fail(Missing("branch")))
      case MapState(processor) =>
        if |tokens| < 3 || tokens[2] != ITEM_PROCESSOR then Fail(Malformed)
        else if processor.None? then Fail(Malformed)
        else Down(processor.value.states, 3)
      case Leaf(_) => Fail(Malformed)
  }

  function WalkFrom(t: Table, tokens: seq<string>): Result<Table>
    decreases |tokens|
  {
    match Step(t, tokens)
    case Done(table) => Ok(table)
    case Down(table, used) => WalkFrom(table, tokens[used..])
    case Fail(error) => Err(error)
  }

  /** `walk_states`: one pass over the tokens, always on the table reached so far. */
  method Walk(m: Machine, tokens: seq<string>) returns (r: Result<Table>)
    ensures r == WalkFrom(m.states, tokens)
    ensures r.Ok? <==> exists moves :: Spells(tokens, moves) && Descend(m.states, moves).Some?
    ensures forall moves | Spells(tokens, moves) && Descend(m.states, moves).Some? ::
      r == Ok(Descend(m.states, moves).value)
    ensures (exists moves, k :: GoesMissing(m.states, tokens, moves, k)) <==> r.Err? && r.error.Missing?
  {
    WalkIsDescent(m.states, tokens);
    MissingIff(m.states, tokens);
    var states := m.states;
    var i := 0;
    while true
      invariant 0 <= i <= |tokens| && WalkFrom(states, tokens[i..]) == WalkFrom(m.states, tokens)
      decreases |tokens| - i
    {
      ghost var rest := tokens[i..];
      if i >= |tokens| { return Ok(states); }
      assert rest[0] == tokens[i];
      if tokens[i] != STATES { return Err(Malformed); }
      i := i + 1;
      if i >= |tokens| { return Ok(states); }
      var name := tokens[i];
      assert rest[1] == name;
      if name !in states { return Err(Missing(name)); }
      var state := states[name];
      i := i + 1;
      match state {
        case Parallel(branches) =>
          if !(i < |tokens| && tokens[i] == BRANCHES) { return Err(Malformed); }
          if !(i + 1 < |tokens|) { return Err(Missing("branch index")); }
          assert rest[3] == tokens[i + 1];
          var index := ParseUsize(tokens[i + 1]);
          if index.None? { return Err(Malformed); }
          if index.value >= |branches| { return Err(Missing("branch")); }
          i := i + 2;
          assert rest[4..] == tokens[i..];
          states := branches[index.value].states;
        case MapState(processor) =>
          if !(i < |tokens| && tokens[i] == ITEM_PROCESSOR) { return Err(Malformed); }
          if processor.None? { return Err(Malformed); }
          i := i + 1;
          assert rest[3..] == tokens[i..];
          states := processor.value.states;
        case Leaf(_) => return Err(Malformed);
      }
    }
  }

  // ---------- The walk is the descent ----------

  /** A walk goes down by exactly one spelt move to exactly that child. */
  lemma StepIsMove(t: Table, tokens: seq<string>, move: Move)
    requires SpellsMove(tokens, move)
    ensures match Child(t, move)
            case Some(child) => Step(t, tokens) == Down(child, Width(move))
            case None => Step(t, tokens).Fail?
  {
  }

  lemma StepSpells(t: Table, tokens: seq<string>) returns (move: Move)
    requires Step(t, tokens).Down?
    ensures SpellsMove(tokens, move) && Step(t, tokens).used == Width(move)
    ensures Child(t, move) == Some(Step(t, tokens).table)
  {
    if t[tokens[1]].Parallel? {
      move := IntoBranch(tokens[1], ParseUsize(tokens[3]).value);
    } else {
      move := IntoItem(tokens[1]);
    }
  }

  /**
   * Completeness: tokens that spell a descent the document has are walked to the table it reaches, and else to
   * none.
   */
  lemma {:induction false} SpeltIsWalked(t: Table, tokens: seq<string>, moves: seq<Move>)
    requires Spells(tokens, moves)
    ensures match Descend(t, moves)
            case Some(reached) => WalkFrom(t, tokens) == Ok(reached)
            case None => WalkFrom(t, tokens).Err?
    decreases |moves|
  {
    if moves != [] {
      StepIsMove(t, tokens, moves[0]);
      if Child(t, moves[0]).Some? {
        SpeltIsWalked(Child(t, moves[0]).value, tokens[Width(moves[0])..], moves[1..]);
      }
    }
  }

  /** Soundness: a walk that succeeds went down a descent its tokens spell. */
  lemma {:induction false} WalkedIsSpelt(t: Table, tokens: seq<string>) returns (moves: seq<Move>)
    requires WalkFrom(t, tokens).Ok?
    ensures Spells(tokens, moves) && Descend(t, moves) == Some(WalkFrom(t, tokens).value)
    decreases |tokens|
  {
    var step := Step(t, tokens);
    if step.Done? {
      moves := [];
      if |tokens| == 1 { assert tokens == [STATES]; }
    } else {
      var move := StepSpells(t, tokens);
      var rest := WalkedIsSpelt(step.table, tokens[step.used..]);
      moves := [move] + rest;
      assert moves[1..] == rest;
    }
  }

  /** The walk lands on a table exactly when its tokens spell a descent the document has, and lands where that leads. */
  lemma WalkIsDescent(t: Table, tokens: seq<string>)
    ensures WalkFrom(t, tokens).Ok? <==> exists moves :: Spells(tokens, moves) && Descend(t, moves).Some?
    ensures forall moves | Spells(tokens, moves) && Descend(t, moves).Some? ::
      WalkFrom(t, tokens) == Ok(Descend(t, moves).value)
  {
    if WalkFrom(t, tokens).Ok? {
      var moves := WalkedIsSpelt(t, tokens);
    }
    forall moves | Spells(tokens, moves) && Descend(t, moves).Some?
      ensures WalkFrom(t, tokens) == Ok(Descend(t, moves).value)
    {
      SpeltIsWalked(t, tokens, moves);
    }
  }

  // ---------- Which failures say that something is missing ----------

  /** The tokens spell the moves and nothing more. */
  ghost predicate SpellsExactly(tokens: seq<string>, moves: seq<Move>)
  {
    if moves == [] then tokens == []
    else SpellsMove(tokens, moves[0]) && SpellsExactly(tokens[Width(moves[0])..], moves[1..])
  }

  /** Standing on `t`, the next step names a state or a branch that is not there, or stops before it names a branch. */
  ghost predicate NamesMissing(t: Table, rest: seq<string>)
  {
    && |rest| >= 2 && rest[0] == STATES
    && (rest[1] !in t
        || (t[rest[1]].Parallel? && |rest| >= 3 && rest[2] == BRANCHES
            && (|rest| == 3 || (ParseUsize(rest[3]).Some? && ParseUsize(rest[3]).value >= |t[rest[1]].branches|))))
  }

  /** The tokens spell a descent the document has, and then a step it lacks. */
  ghost predicate GoesMissing(t: Table, tokens: seq<string>, moves: seq<Move>, k: int)
  {
    && 0 <= k <= |tokens| && SpellsExactly(tokens[..k], moves)
    && Descend(t, moves).Some? && NamesMissing(Descend(t, moves).value, tokens[k..])
  }

  lemma {:induction false} MissingIsWalked(t: Table, tokens: seq<string>, moves: seq<Move>, k: nat)
    requires GoesMissing(t, tokens, moves, k)
    ensures WalkFrom(t, tokens).Err? && WalkFrom(t, tokens).error.Missing?
    decreases |moves|
  {
    if moves == [] {
      assert tokens[k..] == tokens;
    } else {
      var n := Width(moves[0]);
      assert tokens[..k][n..] == tokens[n..][..k - n] && tokens[n..][k - n..] == tokens[k..];
      StepIsMove(t, tokens, moves[0]);
      MissingIsWalked(Child(t, moves[0]).value, tokens[n..], moves[1..], k - n);
    }
  }

  lemma {:induction false} WalkedIsMissing(t: Table, tokens: seq<string>) returns (moves: seq<Move>, k: nat)
    requires WalkFrom(t, tokens).Err? && WalkFrom(t, tokens).error.Missing?
    ensures GoesMissing(t, tokens, moves, k)
    decreases |tokens|
  {
    var step := Step(t, tokens);
    if step.Down? {
      var move := StepSpells(t, tokens);
      var rest, j := WalkedIsMissing(step.table, tokens[step.used..]);
      moves, k := [move] + rest, step.used + j;
      assert moves[1..] == rest;
      assert tokens[..k][step.used..] == tokens[step.used..][..j] && tokens[k..] == tokens[step.used..][j..];
    } else {
      moves, k := [], 0;
      assert tokens[0..] == tokens;
    }
  }

  /**
   * A walk reports a missing name exactly when its tokens spell a descent the document has and then a step
   * that names a state or branch not there, or stop before naming a branch; every other failure is malformed.
   */
  lemma MissingIff(t: Table, tokens: seq<string>)
    ensures (exists moves, k :: GoesMissing(t, tokens, moves, k)) <==>
      WalkFrom(t, tokens).Err? && WalkFrom(t, tokens).error.Missing?
  {
    forall moves, k | GoesMissing(t, tokens, moves, k)
      ensures WalkFrom(t, tokens).Err? && WalkFrom(t, tokens).error.Missing?
    {
      MissingIsWalked(t, tokens, moves, k);
    }
    if WalkFrom(t, tokens).Err? && WalkFrom(t, tokens).error.Missing? {
      var moves, k := WalkedIsMissing(t, tokens);
    }
  }

  // ---------- Paths as the engine builds them ----------

  /** A path is its decoded tokens. */
  type Path = seq<string>

  function Root(): Path { [STATES] }

  function StateOf(p: Path, name: string): Path { p + [name] }

  function Branch(p: Path, index: nat): Path { p + [BRANCHES, Decimal(index), STATES] }

  function ItemProcessor(p: Path): Path { p + [ITEM_PROCESSOR, STATES] }

  function Parent(p: Path): Path { if p == [] then [] else p[..|p| - 1] }

  function StateName(p: Path): string { if p == [] then "" else p[|p| - 1] }

  function Sibling(p: Path, next: string): Path { Parent(p) + [next] }

  function Lookup(t: Table, name: string): Result<StateDef>
  {
    if name in t then Ok(t[name]) else Err(Missing(name))
  }

  function StateAt(m: Machine, p: Path): Result<StateDef>
  {
    match WalkFrom(m.states, Parent(p))
    case Ok(t) => Lookup(t, StateName(p))
    case Err(error) => Err(error)
  }

  /** The table path a thread carries after fanning out along `moves`: each container extends its own state's path. */
  function TablePath(moves: seq<Move>): Path
  {
    if moves == [] then Root()
    else
      var outer := StateOf(TablePath(moves[..|moves| - 1]), moves[|moves| - 1].name);
      match moves[|moves| - 1]
      case IntoBranch(_, index) => Branch(outer, index)
      case IntoItem(_) => ItemProcessor(outer)
  }

  /** Branch indexes are `usize`. */
  ghost predicate Addressable(moves: seq<Move>)
  {
    forall i | 0 <= i < |moves| && moves[i].IntoBranch? :: moves[i].index <= U64_MAX
  }

  /** What a built path says, move by move, up to its closing opener. */
  function MoveTokens(move: Move): seq<string>
  {
    match move
    case IntoBranch(name, index) => [STATES, name, BRANCHES, Decimal(index)]
    case IntoItem(name) => [STATES, name, ITEM_PROCESSOR]
  }

  function AllTokens(moves: seq<Move>): seq<string>
  {
    if moves == [] then [] else MoveTokens(moves[0]) + AllTokens(moves[1..])
  }

  lemma {:induction false} AllTokensSnoc(moves: seq<Move>, move: Move)
    ensures AllTokens(moves + [move]) == AllTokens(moves) + MoveTokens(move)
    decreases |moves|
  {
    if moves == [] {
      assert moves + [move] == [move] && [move][1..] == [];
    } else {
      assert (moves + [move])[1..] == moves[1..] + [move];
      AllTokensSnoc(moves[1..], move);
    }
  }

  lemma TablePathSnoc(moves: seq<Move>, move: Move)
    requires TablePath(moves) == AllTokens(moves) + [STATES]
    ensures TablePath(moves + [move]) == AllTokens(moves) + MoveTokens(move) + [STATES]
  {
    assert (moves + [move])[..|moves|] == moves;
  }

  lemma {:induction false} TablePathTokens(moves: seq<Move>)
    ensures TablePath(moves) == AllTokens(moves) + [STATES]
    decreases |moves|
  {
    if moves != [] {
      var front, last := moves[..|moves| - 1], moves[|moves| - 1];
      TablePathTokens(front);
      TablePathSnoc(front, last);
      AllTokensSnoc(front, last);
      assert front + [last] == moves;
    }
  }

  lemma IndexReadsBack(index: nat)
    requires index <= U64_MAX
    ensures ParseUsize(Decimal(index)) == Some(index) && ParseUsize("+" + Decimal(index)) == Some(index)
  {
    ValueOfDecimal(index);
    assert IsDigit(Decimal(index)[0]);
    assert ("+" + Decimal(index))[1..] == Decimal(index);
  }

  /** Tokens of the moves spell the moves, with the closing opener or without it. */
  lemma {:induction false} BuiltSpells(moves: seq<Move>, tail: seq<string>)
    requires Addressable(moves) && (tail == [] || tail == [STATES])
    ensures Spells(AllTokens(moves) + tail, moves)
    decreases |moves|
  {
    if moves == [] {
      assert [] + tail == tail;
    } else {
      if moves[0].IntoBranch? { IndexReadsBack(moves[0].index); }
      var tokens := AllTokens(moves) + tail;
      assert tokens == MoveTokens(moves[0]) + (AllTokens(moves[1..]) + tail);
      assert tokens[Width(moves[0])..] == AllTokens(moves[1..]) + tail;
      BuiltSpells(moves[1..], tail);
    }
  }

  /** The answer is the state under `name` in the table that `moves` lead to, or says that there is none. */
  ghost predicate Holds(m: Machine, moves: seq<Move>, name: string, r: Result<StateDef>)
  {
    var reached := Descend(m.states, moves);
    && (forall d :: r == Ok(d) <==> reached.Some? && name in reached.value && reached.value[name] == d)
    && (reached.Some? && name !in reached.value ==> r == Err(Missing(name)))
  }

  /**
   * A path built by descending along `moves` and naming a state there finds exactly the state that
   * the document has at that place, and a sibling of it exactly the state of that name in the same
   * table; a name that table lacks is what the error says is missing.
   */
  lemma BuiltPathResolves(m: Machine, moves: seq<Move>, name: string, next: string)
    requires Addressable(moves)
    ensures var p := StateOf(TablePath(moves), name);
      && Holds(m, moves, name, StateAt(m, p)) && Holds(m, moves, next, StateAt(m, Sibling(p, next)))
      && (Descend(m.states, moves).None? ==> StateAt(m, Sibling(p, next)) == StateAt(m, p))
  {
    var p := StateOf(TablePath(moves), name);
    assert Parent(p) == TablePath(moves) && Parent(Sibling(p, next)) == Parent(p);
    TablePathTokens(moves);
    BuiltSpells(moves, [STATES]);
    SpeltIsWalked(m.states, Parent(p), moves);
  }

  /** All tokens but the last spell these moves, and they lead to a table that has this state under the last. */
  ghost predicate Leads(m: Machine, p: Path, d: StateDef, moves: seq<Move>)
    requires p != []
  {
    var reached, name := Descend(m.states, moves), p[|p| - 1];
    Spells(p[..|p| - 1], moves) && reached.Some? && name in reached.value && reached.value[name] == d
  }

  /** Any path at all finds a state exactly when all but its last token spell a descent to a table with that state. */
  lemma StateAtIff(m: Machine, p: Path, d: StateDef)
    ensures StateAt(m, p) == Ok(d) <==>
      if p == [] then "" in m.states && m.states[""] == d
      else exists moves :: Leads(m, p, d, moves)
  {
    if p != [] {
      var tokens := p[..|p| - 1];
      WalkIsDescent(m.states, tokens);
      if StateAt(m, p) == Ok(d) {
        var moves := WalkedIsSpelt(m.states, tokens);
        assert Leads(m, p, d, moves);
      }
    }
  }

  /** A built table path resolves to one table whether or not it still carries its closing opener. */
  lemma OpenerOptional(m: Machine, moves: seq<Move>)
    requires Addressable(moves)
    ensures WalkFrom(m.states, TablePath(moves)).Ok? == WalkFrom(m.states, Parent(TablePath(moves))).Ok? ==
      Descend(m.states, moves).Some?
    ensures Descend(m.states, moves).Some? ==>
      WalkFrom(m.states, TablePath(moves)) == WalkFrom(m.states, Parent(TablePath(moves))) ==
        Ok(Descend(m.states, moves).value)
  {
    TablePathTokens(moves);
    BuiltSpells(moves, [STATES]);
    BuiltSpells(moves, []);
    assert Parent(TablePath(moves)) == AllTokens(moves) + [] == AllTokens(moves);
    SpeltIsWalked(m.states, TablePath(moves), moves);
    SpeltIsWalked(m.states, AllTokens(moves), moves);
  }
}
