/** The deadline scheduler: an armed map driven by an inbox and a clock, and what becomes of every arm. */
module Scheduler {
  import opened Entries

  type Target = string

  datatype Input = Schedule(target: Target, deadline: Timestamp) | Cancel(target: Target) | Wake

  /** What an observer of the loop would record: each message processed, each fire with the clock it was decided by. */
  datatype Happening = Processed(input: Input) | Fired(target: Target, deadline: Timestamp, now: Timestamp)

  type Armed = map<Target, Timestamp>

  // ---------- What the record says is armed ----------

  function After(armed: Armed, h: Happening): Armed
  {
    match h
    case Processed(Schedule(target, deadline)) => armed[target := deadline]
    case Processed(Cancel(target)) => armed - {target}
    case Processed(Wake) => armed
    case Fired(target, _, _) => armed - {target}
  }

  function ArmedBy(trace: seq<Happening>): Armed
  {
    if trace == [] then map[] else After(ArmedBy(trace[..|trace| - 1]), trace[|trace| - 1])
  }

  /** The happening arms, cancels or fires this target. */
  predicate About(h: Happening, t: Target)
  {
    match h
    case Processed(Wake) => false
    case Processed(input) => input.target == t
    case Fired(target, _, _) => target == t
  }

  ghost predicate UntouchedFrom(trace: seq<Happening>, t: Target, from: int)
    requires 0 <= from
  {
    forall k | from <= k < |trace| :: !About(trace[k], t)
  }

  /** The arm at `j` is the last word on its target. */
  ghost predicate LastArm(trace: seq<Happening>, t: Target, d: Timestamp, j: int)
  {
    0 <= j < |trace| && trace[j] == Processed(Schedule(t, d)) && UntouchedFrom(trace, t, j + 1)
  }

  /** A target is armed for `d` exactly when the last happening about it is an arm for `d`. */
  lemma {:induction false} ArmedIsLastArm(trace: seq<Happening>, t: Target, d: Timestamp)
    ensures t in ArmedBy(trace) && ArmedBy(trace)[t] == d <==> exists j :: LastArm(trace, t, d, j)
    decreases |trace|
  {
    if trace != [] {
      var front, n := trace[..|trace| - 1], |trace| - 1;
      if About(trace[n], t) {
        if trace[n] == Processed(Schedule(t, d)) { assert LastArm(trace, t, d, n); }
        forall j | LastArm(trace, t, d, j) ensures j == n { }
      } else {
        ArmedIsLastArm(front, t, d);
        forall j ensures LastArm(front, t, d, j) <==> LastArm(trace, t, d, j) {
          if LastArm(front, t, d, j) { assert forall k | 0 <= k < n :: front[k] == trace[k]; }
        }
      }
    }
  }

  // ---------- Lawful records ----------

  /** A fire is due, and takes away exactly what was armed for its target. */
  ghost predicate Lawful(trace: seq<Happening>)
  {
    forall i | 0 <= i < |trace| && trace[i].Fired? ::
      && trace[i].deadline <= trace[i].now
      && trace[i].target in ArmedBy(trace[..i]) && ArmedBy(trace[..i])[trace[i].target] == trace[i].deadline
  }

  lemma LawfulExtends(trace: seq<Happening>, h: Happening)
    requires Lawful(trace)
    requires h.Fired? ==> h.deadline <= h.now && h.target in ArmedBy(trace) && ArmedBy(trace)[h.target] == h.deadline
    ensures Lawful(trace + [h]) && ArmedBy(trace + [h]) == After(ArmedBy(trace), h)
  {
    var longer := trace + [h];
    assert longer[..|trace|] == trace;
    forall i | 0 <= i < |longer| && longer[i].Fired?
      ensures longer[i].deadline <= longer[i].now && longer[i].target in ArmedBy(longer[..i])
      ensures ArmedBy(longer[..i])[longer[i].target] == longer[i].deadline
    {
      if i < |trace| { assert longer[..i] == trace[..i] && longer[i] == trace[i]; }
    }
  }

  /**
   * Every fire answers the latest arm of its target, at that arm's own deadline, with nothing about the
   * target in between, and not before the deadline.
   */
  lemma FireMatchesArm(trace: seq<Happening>, i: nat)
    requires Lawful(trace) && i < |trace| && trace[i].Fired?
    ensures trace[i].deadline <= trace[i].now
    ensures exists j | 0 <= j < i ::
      trace[j] == Processed(Schedule(trace[i].target, trace[i].deadline))
      && forall k | j < k < i :: !About(trace[k], trace[i].target)
  {
    var t, d := trace[i].target, trace[i].deadline;
    ArmedIsLastArm(trace[..i], t, d);
    var j :| LastArm(trace[..i], t, d, j);
    forall k | j < k < i ensures !About(trace[k], t) { assert trace[..i][k] == trace[k]; }
  }

  /** The next happening about the target after `j` is at `k`. */
  ghost predicate NextAbout(trace: seq<Happening>, t: Target, j: int, k: int)
  {
    0 <= j < k < |trace| && About(trace[k], t) && forall m | j < m < k :: !About(trace[m], t)
  }

  ghost predicate IsFired(trace: seq<Happening>, j: int, t: Target, d: Timestamp)
  {
    exists k :: NextAbout(trace, t, j, k) && trace[k].Fired? && trace[k].deadline == d && d <= trace[k].now
  }

  ghost predicate IsCancelled(trace: seq<Happening>, j: int, t: Target)
  {
    exists k :: NextAbout(trace, t, j, k) && trace[k] == Processed(Cancel(t))
  }

  ghost predicate IsReplaced(trace: seq<Happening>, j: int, t: Target)
  {
    exists k :: NextAbout(trace, t, j, k) && trace[k].Processed? && trace[k].input.Schedule?
  }

  ghost predicate IsStanding(trace: seq<Happening>, j: int, t: Target, d: Timestamp)
    requires 0 <= j
  {
    UntouchedFrom(trace, t, j + 1) && t in ArmedBy(trace) && ArmedBy(trace)[t] == d
  }

  predicate ExactlyOne(a: bool, b: bool, c: bool, d: bool)
  {
    (a || b || c || d) && !(a && b) && !(a && c) && !(a && d) && !(b && c) && !(b && d) && !(c && d)
  }

  lemma {:induction false} FindNext(trace: seq<Happening>, t: Target, j: nat) returns (k: nat)
    requires j < |trace| && !UntouchedFrom(trace, t, j + 1)
    ensures NextAbout(trace, t, j, k)
  {
    k := j + 1;
    while !About(trace[k], t)
      invariant j < k < |trace| && !UntouchedFrom(trace, t, k)
      invariant forall m | j < m < k :: !About(trace[m], t)
      decreases |trace| - k
    {
      var m :| k <= m < |trace| && About(trace[m], t);
      k := k + 1;
      assert About(trace[m], t);
    }
  }

  lemma FateOfNext(trace: seq<Happening>, j: nat, k: nat, t: Target, d: Timestamp)
    requires Lawful(trace) && j < |trace| && trace[j] == Processed(Schedule(t, d)) && NextAbout(trace, t, j, k)
    ensures IsFired(trace, j, t, d) <==> trace[k].Fired?
    ensures IsCancelled(trace, j, t) <==> trace[k] == Processed(Cancel(t))
    ensures IsReplaced(trace, j, t) <==> trace[k].Processed? && trace[k].input.Schedule?
    ensures !UntouchedFrom(trace, t, j + 1)
  {
    assert forall m | NextAbout(trace, t, j, m) :: m == k;
    if trace[k].Fired? { FireAfterArm(trace, j, k, t, d); }
  }

  /** Every processed arm meets exactly one fate: fired at its own deadline, cancelled, replaced, or still armed. */
  lemma ArmFate(trace: seq<Happening>, j: nat, t: Target, d: Timestamp)
    requires Lawful(trace) && j < |trace| && trace[j] == Processed(Schedule(t, d))
    ensures ExactlyOne(IsFired(trace, j, t, d), IsCancelled(trace, j, t), IsReplaced(trace, j, t),
      IsStanding(trace, j, t, d))
  {
    if UntouchedFrom(trace, t, j + 1) {
      ArmedIsLastArm(trace, t, d);
      assert LastArm(trace, t, d, j);
    } else {
      var k := FindNext(trace, t, j);
      FateOfNext(trace, j, k, t, d);
    }
  }

  lemma FireAfterArm(trace: seq<Happening>, j: nat, k: nat, t: Target, d: Timestamp)
    requires Lawful(trace) && j < |trace| && trace[j] == Processed(Schedule(t, d))
    requires NextAbout(trace, t, j, k) && trace[k].Fired?
    ensures trace[k].deadline == d && d <= trace[k].now
  {
    ArmedIsLastArm(trace[..k], t, d);
    assert LastArm(trace[..k], t, d, j);
  }

  // ---------- Conservation ----------

  /** The indexes of the arms. */
  ghost function ArmsAt(trace: seq<Happening>): set<int>
  {
    set i | 0 <= i < |trace| && trace[i].Processed? && trace[i].input.Schedule?
  }

  /** The indexes of the fires. */
  ghost function FiresAt(trace: seq<Happening>): set<int>
  {
    set i | 0 <= i < |trace| && trace[i].Fired?
  }

  /** Where a cancel or re-arm found its target armed, and so ended an arm. */
  ghost function EndsAt(trace: seq<Happening>): set<int>
  {
    set i | 0 <= i < |trace| && Ends(ArmedBy(trace[..i]), trace[i])
  }

  predicate Ends(armed: Armed, h: Happening) { h.Processed? && !h.input.Wake? && h.input.target in armed }

  lemma OneMoreArm(front: seq<Happening>, h: Happening)
    ensures |ArmsAt(front + [h])| == |ArmsAt(front)| + if h.Processed? && h.input.Schedule? then 1 else 0
  {
    assert ArmsAt(front + [h]) == ArmsAt(front) + if h.Processed? && h.input.Schedule? then {|front|} else {};
  }

  lemma OneMoreFire(front: seq<Happening>, h: Happening)
    ensures |FiresAt(front + [h])| == |FiresAt(front)| + if h.Fired? then 1 else 0
  {
    assert FiresAt(front + [h]) == FiresAt(front) + if h.Fired? then {|front|} else {};
  }

  lemma OneMoreEnd(front: seq<Happening>, h: Happening)
    ensures |EndsAt(front + [h])| == |EndsAt(front)| + if Ends(ArmedBy(front), h) then 1 else 0
  {
    var trace, n := front + [h], |front|;
    var more := EndsAt(front) + if Ends(ArmedBy(front), h) then {n} else {};
    forall i ensures i in EndsAt(trace) <==> i in more {
      if 0 <= i < n { assert trace[..i] == front[..i] && trace[i] == front[i]; }
      if i == n { assert trace[..i] == front && trace[i] == h; }
    }
    assert EndsAt(trace) == more;
  }

  /** Arms are conserved: each one processed has fired, was ended by a cancel or re-arm, or is still armed. */
  lemma {:induction false} ArmsConserved(trace: seq<Happening>)
    requires Lawful(trace)
    ensures |ArmsAt(trace)| == |FiresAt(trace)| + |EndsAt(trace)| + |ArmedBy(trace)|
    decreases |trace|
  {
    if trace != [] {
      var front, h := trace[..|trace| - 1], trace[|trace| - 1];
      assert forall i | 0 <= i < |front| :: front[..i] == trace[..i];
      ArmsConserved(front);
      OneMoreArm(front, h);
      OneMoreFire(front, h);
      OneMoreEnd(front, h);
      assert front + [h] == trace;
      match h {
        case Processed(Schedule(t, d)) => SizeWith(ArmedBy(front), t, d);
        case Processed(Cancel(t)) => SizeWithout(ArmedBy(front), t);
        case Fired(t, _, _) => SizeWithout(ArmedBy(front), t);
        case Processed(Wake) =>
      }
    }
  }

  lemma SizeWithout(armed: Armed, t: Target)
    ensures |armed - {t}| == if t in armed then |armed| - 1 else |armed|
  {
    assert (armed - {t}).Keys == armed.Keys - {t};
    assert |armed| == |armed.Keys| && |armed - {t}| == |(armed - {t}).Keys|;
  }

  lemma SizeWith(armed: Armed, t: Target, d: Timestamp)
    ensures |armed[t := d]| == if t in armed then |armed| else |armed| + 1
  {
    assert armed[t := d].Keys == armed.Keys + {t};
    assert |armed| == |armed.Keys| && |armed[t := d]| == |armed[t := d].Keys|;
  }

  // ---------- The loop ----------

  function Processing(inputs: seq<Input>): seq<Happening>
  {
    seq(|inputs|, i requires 0 <= i < |inputs| => Processed(inputs[i]))
  }

  lemma Push<T>(before: seq<T>, s: seq<T>, i: nat)
    requires i < |s|
    ensures (before + s[..i]) + [s[i]] == before + s[..i + 1]
  {
  }

  ghost predicate NothingDue(armed: Armed, now: Timestamp)
  {
    forall t | t in armed :: armed[t] > now
  }

  ghost predicate IsDue(armed: Armed, now: Timestamp, due: set<Target>)
  {
    forall t | t in due :: t in armed && armed[t] <= now
  }

  /** What is armed while these due targets are still to fire. */
  function Remaining(armed: Armed, now: Timestamp, due: set<Target>): Armed
  {
    map t | t in armed && (armed[t] > now || t in due) :: armed[t]
  }

  lemma RemainingStep(armed: Armed, now: Timestamp, due: set<Target>, target: Target)
    requires IsDue(armed, now, due) && target in due
    ensures target in Remaining(armed, now, due) && Remaining(armed, now, due)[target] <= now
    ensures Remaining(armed, now, due) - {target} == Remaining(armed, now, due - {target}) &&
      IsDue(armed, now, due - {target})
  {
  }

  /** One turn of the loop: what was in the inbox, what the clock read, and the message it was woken by, if any. */
  datatype Turn = Turn(inbox: seq<Input>, now: Timestamp, woken: Option<Input>)

  /**
   * The record from `a` to `b` is this turn: its inbox processed in order, then fires decided by its own
   * clock reading, after which nothing due by that reading is armed, then the message that woke it.
   */
  ghost predicate TurnRecorded(trace: seq<Happening>, a: int, b: int, turn: Turn)
  {
    var fired := a + |turn.inbox|;
    var woken := if turn.woken.Some? then b - 1 else b;
    && 0 <= a && fired <= woken <= b <= |trace|
    && (forall k | a <= k < fired :: trace[k] == Processed(turn.inbox[k - a]))
    && (forall k | fired <= k < woken :: trace[k].Fired? && trace[k].now == turn.now)
    && NothingDue(ArmedBy(trace[..woken]), turn.now)
    && (turn.woken.Some? ==> trace[woken] == Processed(turn.woken.value))
  }

  /** The record is cut into the turns, one after the other. */
  ghost predicate Recorded(trace: seq<Happening>, cuts: seq<nat>, turns: seq<Turn>)
  {
    && |cuts| == |turns| + 1 && cuts[0] == 0
    && forall i | 0 <= i < |turns| :: TurnRecorded(trace, cuts[i], cuts[i + 1], turns[i])
  }

  lemma TurnStays(trace: seq<Happening>, longer: seq<Happening>, a: int, b: int, turn: Turn)
    requires TurnRecorded(trace, a, b, turn) && trace <= longer
    ensures TurnRecorded(longer, a, b, turn)
  {
    var woken := if turn.woken.Some? then b - 1 else b;
    assert longer[..woken] == trace[..woken];
  }

  lemma TurnBuilt(before: seq<Happening>, fired: seq<Happening>, after: seq<Happening>, turn: Turn)
    requires var n := |before| + |turn.inbox|;
      && before + Processing(turn.inbox) <= fired
      && (forall k | n <= k < |fired| :: fired[k].Fired? && fired[k].now == turn.now)
    requires NothingDue(ArmedBy(fired), turn.now)
    requires after == if turn.woken.Some? then fired + [Processed(turn.woken.value)] else fired
    ensures TurnRecorded(after, |before|, |after|, turn)
  {
    assert after[..|fired|] == fired;
    forall k | |before| <= k < |before| + |turn.inbox| ensures after[k] == Processed(turn.inbox[k - |before|]) {
      assert after[k] == fired[k] == (before + Processing(turn.inbox))[k];
    }
  }

  lemma TurnAdded(trace: seq<Happening>, longer: seq<Happening>, cuts: seq<nat>, turns: seq<Turn>, turn: Turn)
    requires Recorded(trace, cuts, turns) && cuts[|turns|] == |trace| && trace <= longer
    requires TurnRecorded(longer, |trace|, |longer|, turn)
    ensures Recorded(longer, cuts + [|longer|], turns + [turn])
  {
    forall i | 0 <= i < |turns| + 1
      ensures TurnRecorded(longer, (cuts + [|longer|])[i], (cuts + [|longer|])[i + 1], (turns + [turn])[i])
    {
      if i < |turns| { TurnStays(trace, longer, cuts[i], cuts[i + 1], turns[i]); }
    }
  }

  lemma {:induction false} FindTurn(trace: seq<Happening>, cuts: seq<nat>, turns: seq<Turn>, k: nat, n: nat)
    returns (i: nat)
    requires Recorded(trace, cuts, turns) && n <= |turns| && k < cuts[n]
    ensures i < n && cuts[i] <= k < cuts[i + 1]
    decreases n
  {
    if cuts[n - 1] <= k { i := n - 1; } else { i := FindTurn(trace, cuts, turns, k, n - 1); }
  }

  /** Every fire belongs to a turn, and is due by that turn's own clock reading. */
  lemma FiresOnTime(trace: seq<Happening>, cuts: seq<nat>, turns: seq<Turn>, k: nat)
    requires Lawful(trace) && Recorded(trace, cuts, turns) && k < cuts[|turns|] <= |trace| && trace[k].Fired?
    ensures exists i | 0 <= i < |turns| ::
      cuts[i] <= k < cuts[i + 1] && trace[k].now == turns[i].now && trace[k].deadline <= turns[i].now
  {
    var i := FindTurn(trace, cuts, turns, k, |turns|);
    assert TurnRecorded(trace, cuts[i], cuts[i + 1], turns[i]);
  }

  class InMemoryScheduler {
    var armed: Armed
    ghost var trace: seq<Happening>

    ghost predicate Valid()
      reads this
    {
      Lawful(trace) && armed == ArmedBy(trace)
    }

    constructor ()
      ensures Valid() && trace == []
    {
      armed, trace := map[], [];
    }

    method Apply(input: Input)
      requires Valid()
      modifies this
      ensures Valid() && trace == old(trace) + [Processed(input)]
    {
      LawfulExtends(trace, Processed(input));
      match input {
        case Schedule(target, deadline) => armed := armed[target := deadline];
        case Cancel(target) => armed := armed - {target};
        case Wake =>
      }
      trace := trace + [Processed(input)];
    }

    /** Drain the inbox: everything in it is applied, in order, before anything fires. */
    method Drain(inbox: seq<Input>)
      requires Valid()
      modifies this
      ensures Valid() && trace == old(trace) + Processing(inbox)
    {
      for i := 0 to |inbox|
        invariant Valid() && trace == old(trace) + Processing(inbox)[..i]
      {
        Apply(inbox[i]);
        Push(old(trace), Processing(inbox), i);
      }
      assert Processing(inbox)[..|inbox|] == Processing(inbox);
    }

    method FireOne(target: Target, now: Timestamp)
      requires Valid() && target in armed && armed[target] <= now
      modifies this
      ensures Valid() && armed == old(armed) - {target} &&
        trace == old(trace) + [Fired(target, old(armed)[target], now)]
    {
      var deadline := armed[target];
      LawfulExtends(trace, Fired(target, deadline, now));
      armed := armed - {target};
      trace := trace + [Fired(target, deadline, now)];
    }

    /** Fire what is due, in no particular order: exactly the due arms go, by this reading, and nothing due stays. */
    method Fire(now: Timestamp)
      requires Valid()
      modifies this
      ensures Valid() && NothingDue(armed, now)
      ensures armed == map t | t in old(armed) && old(armed)[t] > now :: old(armed)[t]
      ensures old(trace) <= trace && forall k | |old(trace)| <= k < |trace| :: trace[k].Fired? && trace[k].now == now
    {
      var due := set t | t in armed && armed[t] <= now;
      assert armed == Remaining(armed, now, due);
      while due != {}
        invariant Valid() && old(trace) <= trace
        invariant forall k | |old(trace)| <= k < |trace| :: trace[k].Fired? && trace[k].now == now
        invariant armed == Remaining(old(armed), now, due) && IsDue(old(armed), now, due)
        decreases |due|
      {
        var target :| target in due;
        RemainingStep(old(armed), now, due, target);
        FireOne(target, now);
        due := due - {target};
      }
    }

    /** One iteration: drain, fire by one clock reading, then wait for a message or for a deadline to come up. */
    method Iterate(turn: Turn)
      requires Valid()
      modifies this
      ensures Valid() && old(trace) <= trace && TurnRecorded(trace, |old(trace)|, |trace|, turn)
    {
      Drain(turn.inbox);
      Fire(turn.now);
      ghost var fired := trace;
      if turn.woken.Some? { Apply(turn.woken.value); }
      TurnBuilt(old(trace), fired, trace, turn);
    }

    /**
     * The spawned loop, until the inbox closes. Whatever the messages, the clock readings and the
     * wake-ups, its record is lawful and is exactly the turns, each fired by its own clock reading with
     * nothing due left behind, and the messages found when the inbox closed.
     */
    method Run(turns: seq<Turn>, last: seq<Input>) returns (ghost cuts: seq<nat>)
      requires Valid() && trace == []
      modifies this
      ensures Valid() && Recorded(trace, cuts, turns) && cuts[|turns|] <= |trace|
      ensures trace[cuts[|turns|]..] == Processing(last)
    {
      cuts := [0];
      for i := 0 to |turns|
        invariant Valid() && Recorded(trace, cuts, turns[..i]) && cuts[i] == |trace|
      {
        ghost var before := trace;
        Iterate(turns[i]);
        TurnAdded(before, trace, cuts, turns[..i], turns[i]);
        assert turns[..i + 1] == turns[..i] + [turns[i]];
        cuts := cuts + [|trace|];
      }
      assert turns[..|turns|] == turns;
      ghost var before := trace;
      Drain(last);
      forall i | 0 <= i < |turns| ensures TurnRecorded(trace, cuts[i], cuts[i + 1], turns[i]) {
        TurnStays(before, trace, cuts[i], cuts[i + 1], turns[i]);
      }
    }
  }
}
